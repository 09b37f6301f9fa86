/** What a viewer does to any timeline: step it or seek it, and where that leads. */
module Timeline {

  datatype TimelineOp = Advance | Seek(tick: nat)

  function Clamp(t: nat, low: nat, high: nat): (c: nat)
    requires low <= high
    ensures low <= c <= high
    ensures low <= t <= high ==> c == t
    ensures t < low ==> c == low
    ensures high < t ==> c == high
  {
    if t < low then low else if high < t then high else t
  }

  /** The tick an operation asks for, coming from tick `c`. */
  function Target(low: nat, high: nat, c: nat, op: TimelineOp): (t: nat)
    requires low <= high
    ensures low <= t <= high
  {
    match op
    case Advance => Clamp(c + 1, low, high)
    case Seek(tick) => Clamp(tick, low, high)
  }

  /** The tick a session asks for last, on a window from `low` to `high`. */
  function Cursor(low: nat, high: nat, ops: seq<TimelineOp>): (c: nat)
    requires low <= high
    ensures low <= c <= high
  {
    if ops == [] then low else Target(low, high, Cursor(low, high, ops[..|ops| - 1]), ops[|ops| - 1])
  }

  /** The furthest tick a session ever asks for. */
  function Furthest(low: nat, high: nat, ops: seq<TimelineOp>): (f: nat)
    requires low <= high
    ensures Cursor(low, high, ops) <= f <= high
  {
    var c := Cursor(low, high, ops);
    if ops == [] then c
    else
      var earlier := Furthest(low, high, ops[..|ops| - 1]);
      if earlier < c then c else earlier
  }
}
