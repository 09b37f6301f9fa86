/** Seekable highlight playback: a logical cursor over a clip, moved one tick at a
    time, rewound by starting over. */
module Playback {
  import opened Simulation
  import opened Replication
  import opened Recording
  import opened Timeline

  type Shown<S> = (nat, nat, GameEvent<S>)

  function Entries<S>(ms: seq<EventMessage<S>>): (events: seq<Shown<S>>) {
    if ms == [] then [] else Entries(ms[..|ms| - 1]) + [(ms[|ms| - 1].tick, ms[|ms| - 1].sequence, ms[|ms| - 1].event)]
  }

  lemma {:induction false} EntriesShowMessages<S>(ms: seq<EventMessage<S>>)
    ensures |Entries(ms)| == |ms|
    ensures forall i :: 0 <= i < |ms| ==> Entries(ms)[i] == (ms[i].tick, ms[i].sequence, ms[i].event)
    decreases |ms|
  {
    if ms != [] { EntriesShowMessages(ms[..|ms| - 1]); }
  }

  lemma EntriesGrow<S>(ms: seq<EventMessage<S>>, i: nat)
    requires i < |ms|
    ensures Entries(ms[..i + 1]) == Entries(ms[..i]) + [(ms[i].tick, ms[i].sequence, ms[i].event)]
  {
    assert ms[..i + 1][..i] == ms[..i];
  }

  /** The messages of a log up to a tick, and the rest. */
  function UpTo<S>(ms: seq<EventMessage<S>>, t: nat): (kept: seq<EventMessage<S>>) { ms[..LastUpTo(ms, t)] }
  function After<S>(ms: seq<EventMessage<S>>, t: nat): (kept: seq<EventMessage<S>>) { ms[LastUpTo(ms, t)..] }

  /** `last` separates the messages due by `target` from the rest. */
  ghost predicate IsCut<S>(ms: seq<EventMessage<S>>, target: nat, last: nat) {
    last <= |ms| && forall i :: 0 <= i < |ms| ==> (ms[i].tick <= target <==> i < last)
  }

  lemma LastUpToCuts<S>(ms: seq<EventMessage<S>>, target: nat)
    requires MessagesOrdered(ms)
    ensures IsCut(ms, target, LastUpTo(ms, target))
  {
    var last := LastUpTo(ms, target);
    forall i | 0 <= i < |ms| ensures ms[i].tick <= target <==> i < last {
      if last < i { MessageOrder(ms, last, i); }
    }
  }

  /** What is left after the messages due by `t` is due at or after it. */
  lemma TickSplit<S>(ms: seq<EventMessage<S>>, t: nat, n: nat, target: nat, last: nat)
    requires IsCut(ms, t, n) && IsCut(ms, target, last) && t <= target
    ensures n <= last && ms[..last] == ms[..n] + ms[n..last] && AllAtOrAfter(ms[n..last], t)
  {
    if n > 0 { assert ms[n - 1].tick <= t; }
  }

  // ------------------------------------------------------- a playback as a value

  /** What a playback plays. */
  datatype Film<!S> = Film(rules: Rules<S>, initial: S, messages: seq<EventMessage<S>>, startTick: nat, endTick: nat)

  /** What it shows: a state, how much of the log is applied, where it stands, and the
      events shown so far. */
  datatype Show<S> = Show(state: S, nextMessage: nat, cursor: nat, events: seq<Shown<S>>)

  function Opening<S>(f: Film<S>): (x: Show<S>) { Show(f.initial, 0, f.startTick, []) }

  /** Apply every message up to `target`; a failing one stays next. */
  function Due<S(!new)>(f: Film<S>, x: Show<S>, target: nat): (res: (Show<S>, Outcome<()>))
    requires Lawful(f.rules)
    ensures res.0.cursor == x.cursor
    decreases |f.messages| - x.nextMessage
  {
    if x.nextMessage < |f.messages| && f.messages[x.nextMessage].tick <= target then
      var m := f.messages[x.nextMessage];
      match Advanced(f.rules, x.state, m)
      case Ok(s) => Due(f, Show(s, x.nextMessage + 1, x.cursor, x.events + [(m.tick, m.sequence, m.event)]), target)
      case Err => (x, Err)
      case Hang => (x, Hang)
    else (x, Ok(()))
  }

  /** Movement-only stepping that holds a completed game, and what a failure leaves. */
  function Held<S(!new)>(r: Rules<S>, s: S, target: nat): (res: (S, bool))
    requires Lawful(r)
    decreases target - r.tick(s)
  {
    if r.tick(s) >= target || r.complete(s) then (s, true)
    else match r.step(s, true)
      case Stepped(n, _) => Held(r, n, target)
      case StepFailed(partial) => (partial, false)
  }

  /** One logical tick; a failure keeps the cursor and what was applied before it. */
  function Ticked<S(!new)>(f: Film<S>, x: Show<S>): (res: (Show<S>, Outcome<bool>))
    requires Lawful(f.rules)
    ensures res.1 == Ok(true) <==> res.1.Ok? && x.cursor < f.endTick
    ensures res.0.cursor == if res.1 == Ok(true) then x.cursor + 1 else x.cursor
    ensures x.cursor >= f.endTick ==> res == (x, Ok(false))
  {
    if x.cursor >= f.endTick then (x, Ok(false))
    else
      var (y, o) := Due(f, x, x.cursor + 1);
      if o.Err? then (y, Err)
      else if o.Hang? then (y, Hang)
      else
        var (s, held) := Held(f.rules, y.state, x.cursor + 1);
        if held then (y.(state := s, cursor := x.cursor + 1), Ok(true)) else (y.(state := s), Err)
  }

  /** Advance until the target; the last operand says how that went. */
  function Forward<S(!new)>(f: Film<S>, x: Show<S>, target: nat): (res: (Show<S>, Outcome<()>))
    requires Lawful(f.rules) && target <= f.endTick
    ensures res.1.Ok? ==> res.0.cursor == if x.cursor < target then target else x.cursor
    ensures target <= x.cursor ==> res == (x, Ok(()))
    decreases target - x.cursor
  {
    if x.cursor >= target then (x, Ok(()))
    else
      var (y, o) := Ticked(f, x);
      if o.Ok? then Forward(f, y, target) else (y, if o.Err? then Err else Hang)
  }

  /** Seek: rewind if the target lies behind, then advance. */
  function Sought<S(!new)>(f: Film<S>, x: Show<S>, t: nat): (res: (Show<S>, Outcome<()>))
    requires Lawful(f.rules) && f.startTick <= f.endTick
  {
    var target := Clamp(t, f.startTick, f.endTick);
    Forward(f, if target < x.cursor then Opening(f) else x, target)
  }

  // ------------------------------------------------------------ any session

  function Seen<S>(res: (Show<S>, Outcome<()>)): (o: Outcome<Show<S>>) {
    match res.1 case Ok(_) => Ok(res.0) case Err => Err case Hang => Hang
  }

  function Operated<S(!new)>(f: Film<S>, x: Show<S>, op: TimelineOp): (o: Outcome<Show<S>>)
    requires Lawful(f.rules) && f.startTick <= f.endTick
  {
    match op
    case Advance => var (y, o) := Ticked(f, x); (match o case Ok(_) => Ok(y) case Err => Err case Hang => Hang)
    case Seek(t) => Seen(Sought(f, x, t))
  }

  /** A session; the first failing operation ends it. */
  function ShownAfter<S(!new)>(f: Film<S>, x: Show<S>, ops: seq<TimelineOp>): (o: Outcome<Show<S>>)
    requires Lawful(f.rules) && f.startTick <= f.endTick
    decreases |ops|
  {
    if ops == [] then Ok(x)
    else match ShownAfter(f, x, ops[..|ops| - 1])
      case Ok(y) => Operated(f, y, ops[|ops| - 1])
      case other => other
  }

  /** What one fresh seek shows at tick `t`. */
  function FreshSeek<S(!new)>(f: Film<S>, t: nat): (o: Outcome<Show<S>>)
    requires Lawful(f.rules) && t <= f.endTick
    ensures o.Ok? && f.startTick <= t ==> o.value.cursor == t
  {
    Seen(Forward(f, Opening(f), t))
  }

  lemma {:induction false} ForwardCompose<S(!new)>(f: Film<S>, x: Show<S>, t: nat, u: nat)
    requires Lawful(f.rules) && t <= u <= f.endTick
    ensures Forward(f, x, u) ==
            var mid := Forward(f, x, t);
            if mid.1.Ok? then Forward(f, mid.0, u) else mid
    decreases t - x.cursor
  {
    if x.cursor < t {
      var (y, o) := Ticked(f, x);
      if o.Ok? { ForwardCompose(f, y, t, u); }
    }
  }

  lemma FreshSeekCompose<S(!new)>(f: Film<S>, t: nat, u: nat)
    requires Lawful(f.rules) && t <= u <= f.endTick
    ensures FreshSeek(f, u) ==
            var o := FreshSeek(f, t);
            if o.Ok? then Seen(Forward(f, o.value, u)) else o
  {
    ForwardCompose(f, Opening(f), t, u);
  }

  /** From the show of a fresh seek to `c`, any operation is a fresh seek to its target. */
  lemma OperatedIsFreshSeek<S(!new)>(f: Film<S>, c: nat, x: Show<S>, op: TimelineOp)
    requires Lawful(f.rules) && f.startTick <= c <= f.endTick && FreshSeek(f, c) == Ok(x)
    ensures Operated(f, x, op) == FreshSeek(f, Target(f.startTick, f.endTick, c, op))
  {
    match op
    case Advance =>
      if c < f.endTick { FreshSeekCompose(f, c, c + 1); }
    case Seek(t) =>
      var target := Clamp(t, f.startTick, f.endTick);
      if c <= target { FreshSeekCompose(f, c, target); }
  }

  /** Path independence. Whatever a viewer does, in whatever order, the playback shows
      what one fresh seek to the tick asked for last shows: state, log position, cursor
      and events. The session fails exactly when one fresh seek to the furthest tick asked
      for fails, and in the same way. */
  lemma {:induction false} AnyPathShowsFreshFrame<S(!new)>(f: Film<S>, ops: seq<TimelineOp>)
    requires Lawful(f.rules) && f.startTick <= f.endTick
    ensures ShownAfter(f, Opening(f), ops) ==
            var furthest := FreshSeek(f, Furthest(f.startTick, f.endTick, ops));
            if furthest.Ok? then FreshSeek(f, Cursor(f.startTick, f.endTick, ops)) else furthest
    decreases |ops|
  {
    if ops != [] {
      var prefix := ops[..|ops| - 1];
      AnyPathShowsFreshFrame(f, prefix);
      var c, far := Cursor(f.startTick, f.endTick, prefix), Furthest(f.startTick, f.endTick, prefix);
      var farther := Furthest(f.startTick, f.endTick, ops);
      FreshSeekCompose(f, c, far);
      FreshSeekCompose(f, far, farther);
      FreshSeekCompose(f, Cursor(f.startTick, f.endTick, ops), farther);
      if FreshSeek(f, far).Ok? { OperatedIsFreshSeek(f, c, FreshSeek(f, c).value, ops[|ops| - 1]); }
    }
  }

  // ------------------------------------------------------- frames are batch replays

  /** An ordered log strictly after the start, and an initial state that is already
      where the start tick puts it. */
  ghost predicate WellCut<S(!new)>(f: Film<S>) {
    && Lawful(f.rules)
    && MessagesOrdered(f.messages)
    && (forall i :: 0 <= i < |f.messages| ==> f.startTick < f.messages[i].tick)
    && StepTo(f.rules, f.initial, f.startTick) == Ok(f.initial)
  }

  /** The state a fresh batch replay has at tick `t`. */
  function FrameState<S(!new)>(f: Film<S>, t: nat): (o: Outcome<S>)
    requires Lawful(f.rules)
  {
    Finish(f.rules, f.initial, UpTo(f.messages, t), t)
  }

  function Frame<S(!new)>(f: Film<S>, t: nat): (o: Outcome<Show<S>>)
    requires Lawful(f.rules)
  {
    match FrameState(f, t)
    case Ok(s) => Ok(Show(s, LastUpTo(f.messages, t), t, Entries(UpTo(f.messages, t))))
    case Err => Err
    case Hang => Hang
  }

  lemma {:induction false} HeldIsStepTo<S(!new)>(r: Rules<S>, s: S, target: nat)
    requires Lawful(r)
    ensures StepTo(r, s, target) == var (t, held) := Held(r, s, target); if held then Ok(t) else Err
    decreases target - r.tick(s)
  {
    if r.tick(s) < target && !r.complete(s) && r.step(s, true).Stepped? { HeldIsStepTo(r, r.step(s, true).state, target); }
  }

  /** Applying what is due is replaying the messages up to the cut. */
  lemma {:induction false} DueIsBatch<S(!new)>(f: Film<S>, x: Show<S>, target: nat, last: nat)
    requires Lawful(f.rules) && IsCut(f.messages, target, last) && x.nextMessage <= last
    requires x.events == Entries(f.messages[..x.nextMessage])
    ensures var (y, o) := Due(f, x, target);
            var batch := Batch(f.rules, x.state, f.messages[x.nextMessage..last]);
            && (batch.Ok? ==> o.Ok? && y == Show(batch.value, last, x.cursor, Entries(f.messages[..last])))
            && (batch.Err? ==> o.Err?)
            && (batch.Hang? ==> o.Hang?)
    decreases |f.messages| - x.nextMessage
  {
    var n := x.nextMessage;
    if n < last {
      var m := f.messages[n];
      BatchSlice(f.rules, x.state, f.messages, n, last);
      EntriesGrow(f.messages, n);
      var o := Advanced(f.rules, x.state, m);
      if o.Ok? { DueIsBatch(f, Show(o.value, n + 1, x.cursor, x.events + [(m.tick, m.sequence, m.event)]), target, last); }
    }
  }

  /** One tick is a replay to that tick. */
  lemma TickedFinishes<S(!new)>(f: Film<S>, x: Show<S>, last: nat)
    requires Lawful(f.rules) && x.cursor < f.endTick && x.nextMessage <= last
    requires IsCut(f.messages, x.cursor + 1, last) && x.events == Entries(f.messages[..x.nextMessage])
    ensures var (y, o) := Ticked(f, x);
            var done := Finish(f.rules, x.state, f.messages[x.nextMessage..last], x.cursor + 1);
            && (done.Ok? ==> o.Ok? && y == Show(done.value, last, x.cursor + 1, Entries(f.messages[..last])))
            && (done.Err? ==> o.Err?)
            && (done.Hang? ==> o.Hang?)
  {
    DueIsBatch(f, x, x.cursor + 1, last);
    HeldIsStepTo(f.rules, Due(f, x, x.cursor + 1).0.state, x.cursor + 1);
  }

  /** The state of a later frame is the current one plus the messages in between. */
  lemma NextFrame<S(!new)>(f: Film<S>, x: Show<S>, target: nat)
    requires WellCut(f) && x.cursor <= target && Frame(f, x.cursor) == Ok(x)
    ensures var last := LastUpTo(f.messages, target);
            IsCut(f.messages, target, last) && x.nextMessage <= last &&
            FrameState(f, target) == Finish(f.rules, x.state, f.messages[x.nextMessage..last], target)
  {
    var last := LastUpTo(f.messages, target);
    LastUpToCuts(f.messages, x.cursor);
    LastUpToCuts(f.messages, target);
    TickSplit(f.messages, x.cursor, x.nextMessage, target, last);
    FinishResumes(f.rules, f.initial, f.messages[..x.nextMessage], x.cursor, x.state, f.messages[x.nextMessage..last], target);
  }

  /** One tick leads from frame to frame, and fails exactly when the next frame does. */
  lemma TickedIsFrame<S(!new)>(f: Film<S>, x: Show<S>)
    requires WellCut(f) && x.cursor < f.endTick && Frame(f, x.cursor) == Ok(x)
    ensures var (y, o) := Ticked(f, x);
            Frame(f, x.cursor + 1) == if o.Ok? then Ok(y) else if o.Err? then Err else Hang
  {
    NextFrame(f, x, x.cursor + 1);
    TickedFinishes(f, x, LastUpTo(f.messages, x.cursor + 1));
  }

  lemma OpeningIsFrame<S(!new)>(f: Film<S>)
    requires WellCut(f)
    ensures Frame(f, f.startTick) == Ok(Opening(f))
  {
  }

  /** The frames a playback passes on its way to tick `t` can all be shown. */
  ghost predicate AllShowable<S(!new)>(f: Film<S>, t: nat)
    requires Lawful(f.rules)
  {
    forall u :: f.startTick <= u <= t ==> FrameState(f, u).Ok?
  }

  lemma OneMoreFrame<S(!new)>(f: Film<S>, t: nat)
    requires WellCut(f) && f.startTick < t <= f.endTick
    requires FreshSeek(f, t - 1).Ok? ==> FreshSeek(f, t - 1) == Frame(f, t - 1)
    ensures FreshSeek(f, t).Ok? <==> FreshSeek(f, t - 1).Ok? && FrameState(f, t).Ok?
    ensures FreshSeek(f, t).Ok? ==> FreshSeek(f, t) == Frame(f, t)
  {
    FreshSeekCompose(f, t - 1, t);
    var o := FreshSeek(f, t - 1);
    if o.Ok? { TickedIsFrame(f, o.value); }
  }

  /** A fresh seek shows the frame of a fresh batch replay, and succeeds exactly when that
      replay can show every frame on the way. */
  lemma {:induction false} FreshSeekShowsFrames<S(!new)>(f: Film<S>, t: nat)
    requires WellCut(f) && f.startTick <= t <= f.endTick
    ensures FreshSeek(f, t).Ok? <==> AllShowable(f, t)
    ensures FreshSeek(f, t).Ok? ==> FreshSeek(f, t) == Frame(f, t)
    decreases t
  {
    if t == f.startTick {
      OpeningIsFrame(f);
    } else {
      FreshSeekShowsFrames(f, t - 1);
      OneMoreFrame(f, t);
    }
  }

  // ---------------------------------------------------------------- the live object

  class HighlightPlayback<S(!new)> {
    const film: Film<S>
    var state: S
    var nextMessage: nat
    var cursorTick: nat
    var events: seq<Shown<S>>

    function View(): (x: Show<S>)
      reads this
    {
      Show(state, nextMessage, cursorTick, events)
    }

    constructor (f: Film<S>)
      ensures film == f && View() == Opening(f)
    {
      film := f;
      state := f.initial;
      nextMessage := 0;
      cursorTick := f.startTick;
      events := [];
    }

    method Reset()
      modifies this
      ensures View() == Opening(film)
    {
      state := film.initial;
      nextMessage := 0;
      cursorTick := film.startTick;
      events := [];
    }

    /** Apply every message up to `target`. */
    method ApplyDueMessages(target: nat) returns (o: Outcome<()>)
      requires Lawful(film.rules)
      modifies this`state, this`nextMessage, this`events
      ensures (View(), o) == Due(film, old(View()), target)
    {
      ghost var goal := Due(film, View(), target);
      while nextMessage < |film.messages| && film.messages[nextMessage].tick <= target
        invariant Due(film, View(), target) == goal
        decreases |film.messages| - nextMessage
      {
        var m := film.messages[nextMessage];
        var advanced := AdvanceAndApply(film.rules, state, m);
        if advanced.Err? { return Err; }
        if advanced.Hang? { return Hang; }
        state := advanced.value;
        events := events + [(m.tick, m.sequence, m.event)];
        nextMessage := nextMessage + 1;
      }
      return Ok(());
    }

    /** Movement-only stepping, holding the final frame once the game is complete. */
    method HoldOrStepTo(target: nat) returns (held: bool)
      requires Lawful(film.rules)
      modifies this`state
      ensures (state, held) == Held(film.rules, old(state), target)
    {
      ghost var goal := Held(film.rules, state, target);
      while film.rules.tick(state) < target && !film.rules.complete(state)
        invariant Held(film.rules, state, target) == goal
        decreases target - film.rules.tick(state)
      {
        match film.rules.step(state, true) {
          case Stepped(n, _) => state := n;
          case StepFailed(partial) =>
            state := partial;
            return false;
        }
      }
      return true;
    }

    /** One logical tick, failures and what they leave behind included. */
    method AdvanceOne() returns (o: Outcome<bool>)
      requires Lawful(film.rules)
      modifies this
      ensures (View(), o) == Ticked(film, old(View()))
    {
      if cursorTick >= film.endTick { return Ok(false); }
      var target := cursorTick + 1;
      var applied := ApplyDueMessages(target);
      if applied.Err? { return Err; }
      if applied.Hang? { return Hang; }
      var held := HoldOrStepTo(target);
      if !held { return Err; }
      cursorTick := target;
      return Ok(true);
    }

    /** Seek anywhere in a proper window; clamping to an empty one panics. */
    method SeekToTick(tick: nat) returns (o: Outcome<nat>)
      requires Lawful(film.rules) && film.startTick <= film.endTick
      modifies this
      ensures var (y, sought) := Sought(film, old(View()), tick);
              View() == y && o == (match sought case Ok(_) => Ok(film.rules.tick(state)) case Err => Err case Hang => Hang)
    {
      var target := Clamp(tick, film.startTick, film.endTick);
      if target < cursorTick { Reset(); }
      ghost var goal := Forward(film, View(), target);
      while cursorTick < target
        invariant Forward(film, View(), target) == goal
        decreases target - cursorTick
      {
        var more := AdvanceOne();
        if more.Err? { return Err; }
        if more.Hang? { return Hang; }
      }
      return Ok(film.rules.tick(state));
    }

    method Operate(op: TimelineOp) returns (o: Outcome<()>)
      requires Lawful(film.rules) && film.startTick <= film.endTick
      modifies this
      ensures match Operated(film, old(View()), op)
              case Ok(y) => o.Ok? && View() == y
              case Err => o.Err?
              case Hang => o.Hang?
    {
      match op {
        case Advance =>
          var a := AdvanceOne();
          return match a case Ok(_) => Ok(()) case Err => Err case Hang => Hang;
        case Seek(t) =>
          var s := SeekToTick(t);
          return match s case Ok(_) => Ok(()) case Err => Err case Hang => Hang;
      }
    }

    /** A whole session on the live object. */
    method Play(ops: seq<TimelineOp>) returns (o: Outcome<()>)
      requires Lawful(film.rules) && film.startTick <= film.endTick
      modifies this
      ensures match ShownAfter(film, old(View()), ops)
              case Ok(y) => o.Ok? && View() == y
              case Err => o.Err?
              case Hang => o.Hang?
    {
      ghost var start := View();
      var i := 0;
      while i < |ops|
        invariant 0 <= i <= |ops| && ShownAfter(film, start, ops[..i]) == Ok(View())
      {
        assert ops[..i + 1][..i] == ops[..i];
        o := Operate(ops[i]);
        if !o.Ok? {
          SessionStops(film, start, ops, i + 1);
          return;
        }
        i := i + 1;
      }
      assert ops[..i] == ops;
      return Ok(());
    }
  }

  lemma {:induction false} SessionStops<S(!new)>(f: Film<S>, x: Show<S>, ops: seq<TimelineOp>, n: nat)
    requires Lawful(f.rules) && f.startTick <= f.endTick && n <= |ops| && !ShownAfter(f, x, ops[..n]).Ok?
    ensures ShownAfter(f, x, ops) == ShownAfter(f, x, ops[..n])
    decreases |ops|
  {
    if n == |ops| {
      assert ops[..n] == ops;
    } else {
      assert ops[..|ops| - 1][..n] == ops[..n];
      SessionStops(f, x, ops[..|ops| - 1], n);
    }
  }

  // --------------------------------------------------------- opening a clip

  /** The clip's verification starts after sequence 0 of the anchor tick; playback does
      not. They see the same messages exactly when nothing sits at that very spot. */
  ghost predicate NothingAtAnchor<S>(r: Rules<S>, clip: HighlightClip<S>) {
    forall i :: 0 <= i < |clip.messages| ==> Before(r.tick(clip.anchor), 0, clip.messages[i].tick, clip.messages[i].sequence)
  }

  /** Opening succeeds exactly for a clip that passes its own verification and whose
      replay reaches the window. */
  method Open<S(!new)>(r: Rules<S>, clip: HighlightClip<S>) returns (p: Outcome<HighlightPlayback<S>>)
    requires Lawful(r)
    ensures var initial := Finish(r, clip.anchor, UpTo(clip.messages, clip.startTick), clip.startTick);
            && (p.Ok? <==> ReplayAndVerify(r, clip).Ok? && initial.Ok?)
            && (p.Hang? <==> ReplayAndVerify(r, clip).Hang? || (ReplayAndVerify(r, clip).Ok? && initial.Hang?))
            && (p.Ok? ==>
                 && WellCut(p.value.film) && p.value.View() == Opening(p.value.film)
                 && p.value.film == Film(r, initial.value, After(clip.messages, clip.startTick), clip.startTick, clip.endTick))
  {
    var verified := ReplayAndVerify(r, clip);
    if verified.Err? { return Err; }
    if verified.Hang? { return Hang; }
    var initial := ReplayMessages(r, clip.anchor, UpTo(clip.messages, clip.startTick));
    if initial.Ok? { initial := StepUpTo(r, initial.value, clip.startTick); }
    if initial.Err? { return Err; }
    if initial.Hang? { return Hang; }
    ShownRest(r, clip, initial.value);
    var film := Film(r, initial.value, After(clip.messages, clip.startTick), clip.startTick, clip.endTick);
    var playback := new HighlightPlayback(film);
    return Ok(playback);
  }

  /** What opening leaves to be shown is what a playback needs. */
  lemma ShownRest<S(!new)>(r: Rules<S>, clip: HighlightClip<S>, initial: S)
    requires Lawful(r) && MessagesOrdered(clip.messages)
    requires Finish(r, clip.anchor, UpTo(clip.messages, clip.startTick), clip.startTick) == Ok(initial)
    ensures var rest := After(clip.messages, clip.startTick);
            MessagesOrdered(rest) && forall i :: 0 <= i < |rest| ==> clip.startTick < rest[i].tick
    ensures StepTo(r, initial, clip.startTick) == Ok(initial)
  {
    var ms, n := clip.messages, LastUpTo(clip.messages, clip.startTick);
    LastUpToCuts(ms, clip.startTick);
    SuffixOrdered(ms, n);
    forall i | 0 <= i < |ms[n..]| ensures clip.startTick < ms[n..][i].tick { assert ms[n..][i] == ms[n + i]; }
  }

  lemma CutOfSuffix<S>(ms: seq<EventMessage<S>>, start: nat, t: nat)
    requires MessagesOrdered(ms) && start <= t
    ensures LastUpTo(ms, start) <= LastUpTo(ms, t)
    ensures LastUpTo(After(ms, start), t) == LastUpTo(ms, t) - LastUpTo(ms, start)
  {
    var a, b, rest := LastUpTo(ms, start), LastUpTo(ms, t), After(ms, start);
    LastUpToCuts(ms, start);
    LastUpToCuts(ms, t);
    if b < |ms| { assert !(b < a); }
    var c := LastUpTo(rest, t);
    if c < |rest| { assert rest[c] == ms[a + c]; }
    if 0 < c { assert rest[c - 1] == ms[a + c - 1]; }
  }

  lemma SplitAtStart<S>(ms: seq<EventMessage<S>>, start: nat, t: nat)
    requires MessagesOrdered(ms) && start <= t
    ensures UpTo(ms, t) == UpTo(ms, start) + UpTo(After(ms, start), t)
    ensures AllAtOrAfter(UpTo(After(ms, start), t), start)
  {
    CutOfSuffix(ms, start, t);
    LastUpToCuts(ms, start);
    LastUpToCuts(ms, t);
    var a, b := LastUpTo(ms, start), LastUpTo(ms, t);
    TickSplit(ms, start, a, t, b);
    assert UpTo(After(ms, start), t) == ms[a..b];
  }

  /** Replaying a prefix, resting at the window's start and going on is replaying it all. */
  lemma RestAtStart<S(!new)>(r: Rules<S>, s: S, ms: seq<EventMessage<S>>, start: nat, t: nat, initial: S)
    requires Lawful(r) && MessagesOrdered(ms) && start <= t && Finish(r, s, UpTo(ms, start), start) == Ok(initial)
    ensures Finish(r, initial, UpTo(After(ms, start), t), t) == Finish(r, s, UpTo(ms, t), t)
  {
    SplitAtStart(ms, start, t);
    FinishResumes(r, s, UpTo(ms, start), start, initial, UpTo(After(ms, start), t), t);
  }

  /** Verification skips at most one message that playback shows: a first message
      recorded as sequence 0 of the anchor's own tick. */
  lemma SkippedExactly<S(!new)>(r: Rules<S>, clip: HighlightClip<S>)
    requires Validated(r, AsRecording(r, clip))
    ensures var ms, a := clip.messages, AsRecording(r, clip).anchors[0];
            FirstAfter(ms, a) == if ms != [] && (ms[0].tick, ms[0].sequence) == (r.tick(clip.anchor), 0) then 1 else 0
    ensures NothingAtAnchor(r, clip) <==> FirstAfter(clip.messages, AsRecording(r, clip).anchors[0]) == 0
  {
    var ms, a := clip.messages, AsRecording(r, clip).anchors[0];
    CutsAreExact(ms, a, clip.endTick);
    if |ms| > 1 { MessageOrder(ms, 0, 1); }
  }

  /** Frame by frame, playback agrees with the archive the clip is verified as. */
  lemma FramesAreArchiveStates<S(!new)>(r: Rules<S>, clip: HighlightClip<S>, initial: S, t: nat)
    requires Lawful(r) && ReplayAndVerify(r, clip).Ok? && NothingAtAnchor(r, clip)
    requires Finish(r, clip.anchor, UpTo(clip.messages, clip.startTick), clip.startTick) == Ok(initial)
    requires clip.startTick <= t <= clip.endTick && r.tick(clip.anchor) <= t
    ensures Finish(r, initial, UpTo(After(clip.messages, clip.startTick), t), t) == StateAt(r, AsRecording(r, clip), t)
  {
    var rec := AsRecording(r, clip);
    RestAtStart(r, clip.anchor, clip.messages, clip.startTick, t, initial);
    assert NearestAnchor(rec.anchors, t) == Some(0);
    assert FirstAfter(clip.messages, rec.anchors[0]) == 0;
    assert clip.messages[0..LastUpTo(clip.messages, t)] == UpTo(clip.messages, t);
  }
}
