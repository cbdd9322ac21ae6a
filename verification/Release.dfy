/** What becomes of a child's writes: they stay exactly if its callback, its guard and its savepoint succeed. */
module Releases {
  import opened Contracts
  import opened Facts
  import opened Guards

  /** It neither settles a child nor ends a savepoint statement. */
  predicate Waits(e: Event) {
    !e.ChildSettled? && !e.StatementDone?
  }

  /** The innermost callback has passed, or a savepoint statement is out. */
  predicate Calm(s: State) {
    s.frames != [] && (!s.control.Idle? || Top(s).phase == Settling(true))
  }

  /** The transaction, its savepoint in flight and every frame's facts are as they were. */
  ghost predicate Unmoved(s: State, t: State) {
    && t.log == s.log && t.control == s.control && t.marks == s.marks && |t.frames| == |s.frames|
    && forall k :: 0 <= k < |s.frames| ==>
         t.frames[k].writes == s.frames[k].writes && (s.frames[k].phase.Settling? ==> t.frames[k].phase == s.frames[k].phase)
  }

  /** Meanwhile nothing else can happen to the transaction: whoever calls is refused. */
  lemma CalmStands(s: State, e: Event)
    requires Inv(s) && Enabled(s, e) && Waits(e) && Calm(s)
    ensures Unmoved(s, Step(s, e)) && Calm(Step(s, e))
  {
    var last := |s.frames| - 1;
    hide Sound;
    match e
    case Invoke(d, kind, id) => CountedAt(s.frames, s.control.Idle?, d);
    case OperationSettles(d, id, _) => CountedAt(s.frames, s.control.Idle?, d);
    case StreamEnds(d, id, _) => CountedAt(s.frames, s.control.Idle?, d);
    case CallbackEnds(d, _) => CountedAt(s.frames, s.control.Idle?, d);
  }

  lemma UnmovedTransitive(a: State, b: State, c: State)
    ensures Unmoved(a, b) && Unmoved(b, c) ==> Unmoved(a, c)
  {
  }

  lemma {:induction false} CalmRunStands(s: State, events: seq<Event>)
    requires Inv(s) && Possible(s, events) && Calm(s)
    requires forall k :: 0 <= k < |events| ==> Waits(events[k])
    ensures Unmoved(s, RunEvents(s, events)) && Calm(RunEvents(s, events)) && Inv(RunEvents(s, events))
    decreases events
  {
    hide Inv, Step, Enabled, Calm, Unmoved;
    if events == [] {
      UnmovedItself(s);
    } else {
      CalmStands(s, events[0]);
      StepKeeps(s, events[0]);
      CalmRunStands(Step(s, events[0]), events[1..]);
      UnmovedTransitive(s, Step(s, events[0]), RunEvents(s, events));
    }
  }

  lemma UnmovedItself(s: State)
    ensures Unmoved(s, s)
  {
  }

  lemma {:induction false} RunConcat(s: State, front: seq<Event>, back: seq<Event>)
    requires Possible(s, front + back)
    ensures Possible(s, front) && Possible(RunEvents(s, front), back)
    ensures RunEvents(s, front + back) == RunEvents(RunEvents(s, front), back)
    decreases front
  {
    hide Step, Enabled;
    if front == [] {
      assert front + back == back;
    } else {
      assert (front + back)[1..] == front[1..] + back;
      RunConcat(Step(s, front[0]), front[1..], back);
    }
  }

  /** One event, then waiting. */
  lemma StepThenWait(s: State, e: Event, waiting: seq<Event>, rest: seq<Event>) returns (t: State)
    requires Inv(s) && Possible(s, [e] + waiting + rest)
    requires forall k :: 0 <= k < |waiting| ==> Waits(waiting[k])
    ensures Enabled(s, e) && Inv(t) && Possible(t, rest) && RunEvents(s, [e] + waiting + rest) == RunEvents(t, rest)
    ensures Calm(Step(s, e)) ==> Unmoved(Step(s, e), t)
    ensures waiting == [] ==> t == Step(s, e)
  {
    hide Inv, Step, Enabled, Calm, Unmoved;
    var events := [e] + waiting + rest;
    assert events[0] == e && events[1..] == waiting + rest;
    var after := Step(s, e);
    StepKeeps(s, e);
    RunConcat(after, waiting, rest);
    t := RunEvents(after, waiting);
    if Calm(after) {
      CalmRunStands(after, waiting);
    }
    RunKeeps(after, waiting);
  }

  /** The facts of a running child are those of its part of the transaction, from its savepoint on. */
  lemma ChildHasItsPart(s: State)
    requires Inv(s) && |s.frames| > 1 && s.control.Idle?
    ensures OwnStart(s) <= |s.log| && Top(s).writes == KeptFacts(s.log[OwnStart(s)..])
  {
    hide Stacked, Counted, Nested, Owned, OpenMarks, OwnIndex, KeptFacts, KeptOk;
    var open := OpenMarks(s.marks);
    OwnIsLast(|s.log|, s.marks);
    PlacedPrefix(|s.log|, open, |open| - 1);
    assert Kept(s.frames[|s.frames| - 1], Parts(s.log, open)[|s.frames| - 1]);
  }

  /** Where a savepoint's child stood when its callback returned. */
  ghost predicate Passes(s: State) {
    |s.frames| > 1 && s.control.Idle? && Top(s).pending == 0 && !Top(s).failed
  }

  lemma CallbackPasses(s: State)
    requires Inv(s) && Passes(s) && Enabled(s, CallbackEnds(|s.frames| - 1, true))
    ensures var t := Step(s, CallbackEnds(|s.frames| - 1, true));
      && Calm(t) && t.log == s.log && t.control.Idle? && |t.frames| == |s.frames| && Top(t).phase == Settling(true)
      && forall k :: 0 <= k < |s.frames| ==> t.frames[k].writes == s.frames[k].writes
  {
  }

  lemma ChildIsReleased(s: State)
    requires Inv(s) && Enabled(s, ChildSettled(true)) && Top(s).phase == Settling(true)
    ensures var t := Step(s, ChildSettled(true));
      && Calm(t) && t.log == s.log && t.control == Releasing(Top(s).writes) && t.frames == s.frames[..|s.frames| - 1]
  {
  }

  lemma ReleaseSucceeds(s: State, carried: seq<WriteFact>)
    requires Inv(s) && Enabled(s, StatementDone(true)) && s.control == Releasing(carried)
    ensures var t := Step(s, StatementDone(true));
      && t.log == s.log && t.control.Idle? && |t.frames| == |s.frames| && Top(t).writes == Top(s).writes + carried
      && forall k :: 0 <= k < |s.frames| - 1 ==> t.frames[k].writes == s.frames[k].writes
  {
  }

  /** The child settles clean and, after whatever else, the release of its savepoint succeeds. */
  function Settles(second: seq<Event>): seq<Event> {
    [ChildSettled(true)] + second + [StatementDone(true)]
  }

  /** The innermost frame is gone, its facts follow its parent's, and nothing else differs. */
  ghost predicate Handed(s: State, facts: seq<WriteFact>, t: State) {
    && |s.frames| > 1 && |t.frames| == |s.frames| - 1 && t.log == s.log && t.control.Idle?
    && Top(t).writes == s.frames[|s.frames| - 2].writes + facts
    && forall k :: 0 <= k < |s.frames| - 2 ==> t.frames[k].writes == s.frames[k].writes
  }

  lemma SettledIsReleased(s: State, second: seq<Event>)
    requires Inv(s) && s.frames != [] && Top(s).phase == Settling(true) && Possible(s, Settles(second))
    requires forall k :: 0 <= k < |second| ==> Waits(second[k])
    ensures Handed(s, Top(s).writes, RunEvents(s, Settles(second)))
  {
    hide Inv, Step, Possible, RunEvents;
    var releasing := StepThenWait(s, ChildSettled(true), second, [StatementDone(true)]);
    ChildIsReleased(s);
    assert [StatementDone(true)] + [] + [] == [StatementDone(true)];
    var ended := StepThenWait(releasing, StatementDone(true), [], []);
    hide Calm, Waits;
    ReleaseSucceeds(releasing, Top(s).writes);
    NothingMore(ended);
    SettlesInFrames(s);
  }

  lemma SettlesInFrames(s: State)
    ensures Enabled(s, ChildSettled(true)) ==> |s.frames| > 1
  {
  }

  lemma HandedFrom(s: State, t: State, facts: seq<WriteFact>, u: State)
    requires |t.frames| == |s.frames| && t.log == s.log && forall k :: 0 <= k < |s.frames| ==> t.frames[k].writes == s.frames[k].writes
    ensures Handed(t, facts, u) ==> Handed(s, facts, u)
  {
  }

  /**
   Whatever else happens meanwhile: once a child's callback has returned with nothing pending and nothing
   failed, the child settles clean and the release succeeds, nothing of the transaction is undone or doomed, and
   the parent's facts are its own followed by those of the child's part. All other frames keep theirs.
   */
  lemma PassedIsReleased(s: State, first: seq<Event>, second: seq<Event>)
    requires Inv(s) && Passes(s) && Possible(s, [CallbackEnds(|s.frames| - 1, true)] + first + Settles(second))
    requires forall k :: 0 <= k < |first| ==> Waits(first[k])
    requires forall k :: 0 <= k < |second| ==> Waits(second[k])
    ensures OwnStart(s) <= |s.log|
    ensures Handed(s, KeptFacts(s.log[OwnStart(s)..]), RunEvents(s, [CallbackEnds(|s.frames| - 1, true)] + first + Settles(second)))
  {
    ChildHasItsPart(s);
    hide Inv, Step, Possible, RunEvents, Settles, Handed, OwnStart, KeptFacts;
    var called := Step(s, CallbackEnds(|s.frames| - 1, true));
    var passed := StepThenWait(s, CallbackEnds(|s.frames| - 1, true), first, Settles(second));
    CallbackPasses(s);
    hide Calm, Waits, Enabled;
    SettledIsReleased(passed, second);
    HandedFrom(s, passed, Top(s).writes, RunEvents(passed, Settles(second)));
  }

  lemma NothingMore(s: State)
    ensures Possible(s, []) && RunEvents(s, []) == s
  {
  }

  // --------------------------------------------------------------- undoing

  /** A child whose callback or guard did not pass, that did not settle clean, or whose release failed. */
  predicate Fails(s: State, e: Event) {
    s.frames != []
    && match e
       case ChildSettled(clean) => !clean || Top(s).phase != Settling(true)
       case StatementDone(ok) => !ok && s.control.Releasing?
       case _ => false
  }

  predicate Extends(before: seq<Entry>, after: seq<Entry>) {
    |before| <= |after| && after[..|before|] == before
  }

  /** Only a rollback takes entries away or dooms them. */
  lemma OnlyRollbackUndoes(s: State, e: Event)
    requires s.frames != [] && Enabled(s, e)
    ensures Extends(s.log, Step(s, e).log) || (s.control.RollingBack? && e.StatementDone?)
  {
  }

  /** Only such a failure leads to a rollback. */
  lemma RollbackBecause(s: State, e: Event)
    requires s.frames != [] && Enabled(s, e) && !s.control.RollingBack?
    ensures Step(s, e).control.RollingBack? <==> Fails(s, e)
  {
  }

  /** When a callback ends, its frame has passed exactly if it returned, nothing is pending and nothing failed. */
  lemma PhaseExactly(s: State, e: Event, k: nat)
    requires Enabled(s, e) && k < |s.frames| && k < |Step(s, e).frames|
    ensures e.CallbackEnds? && e.depth == k ==>
      Step(s, e).frames[k].phase == Settling(e.ok && s.frames[k].pending == 0 && !s.frames[k].failed)
    ensures !(e.CallbackEnds? && e.depth == k) ==> Step(s, e).frames[k].phase == s.frames[k].phase
  {
  }

  lemma ExtendsTransitive(a: seq<Entry>, b: seq<Entry>, c: seq<Entry>)
    ensures Extends(a, b) && Extends(b, c) ==> Extends(a, c)
  {
    if Extends(a, b) && Extends(b, c) {
      assert c[..|b|][..|a|] == c[..|a|];
    }
  }

  /** On every run: what was in the transaction is still there as it was, unless such a failure came first. */
  lemma {:induction false} UndoneAfterFailure(s: State, events: seq<Event>) returns (k: nat)
    requires Inv(s) && !s.control.RollingBack? && Possible(s, events)
    requires !Extends(s.log, RunEvents(s, events).log)
    ensures k < |events| && Possible(s, events[..k]) && Fails(RunEvents(s, events[..k]), events[k])
    decreases events
  {
    hide Inv, Step, Enabled, Fails, Extends;
    ItselfExtends(s.log);
    var t := Step(s, events[0]);
    HasFrames(s);
    StepKeeps(s, events[0]);
    OnlyRollbackUndoes(s, events[0]);
    RollbackBecause(s, events[0]);
    if Fails(s, events[0]) {
      k := 0;
      assert events[..0] == [];
    } else {
      ExtendsTransitive(s.log, t.log, RunEvents(t, events[1..]).log);
      var later := UndoneAfterFailure(t, events[1..]);
      k := later + 1;
      assert events[..k][1..] == events[1..][..later];
    }
  }

  lemma ItselfExtends(log: seq<Entry>)
    ensures Extends(log, log)
  {
    assert log[..|log|] == log;
  }
}
