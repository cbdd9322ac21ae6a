/**
 The guard around the public transaction object, with the savepoints beneath it. Callbacks, operations,
 streams and statements settle in any interleaving; every step below is one such event.
 */
module Guards {
  import opened Contracts
  import opened Facts

  // -------------------------------------------------------------------- state

  datatype Phase = Running | Settling(passed: bool)

  /**
   One guarded database object and the tracked database inside it. `savepoint` is the operation that has
   an active savepoint; `counter` numbers savepoints and starts again in every child.
   */
  datatype Frame = Frame(
    open: bool, pending: int, savepoint: Option<nat>, failed: bool, operations: set<nat>, iterators: set<nat>,
    counter: nat, writes: seq<WriteFact>, phase: Phase)

  /** What the innermost savepoint operation waits for; `Idle` while its callback runs. */
  datatype Control = Idle | Opening | Releasing(carried: seq<WriteFact>) | RollingBack | Dropping

  /** What a settled operation left in the transaction. */
  datatype Effect = Effect(ok: bool, fact: Option<WriteFact>)

  /** `doomed` once a rollback that should have undone the effect left it in the transaction. */
  datatype Entry = Entry(effect: Effect, doomed: bool)

  /**
   A savepoint of the database session: the depth that opened it, its number there and how much of the
   transaction precedes it. It is `open` until its own call ends; a savepoint still there after that is lost.
   */
  datatype Mark = Mark(owner: nat, name: nat, position: nat, open: bool)

  datatype State = State(frames: seq<Frame>, control: Control, log: seq<Entry>, marks: seq<Mark>)

  datatype Kind = Operation | Stream | Synchronous(effect: Effect) | Savepoint

  datatype Event =
    | Invoke(depth: nat, kind: Kind, id: nat)
    | OperationSettles(depth: nat, id: nat, effect: Effect)
    | StreamEnds(depth: nat, id: nat, effect: Effect)
    | StatementDone(ok: bool)
    | CallbackEnds(depth: nat, ok: bool)
    | ChildSettled(clean: bool)

  datatype Refusal = WriteContextClosed | OverlappingSavepoint

  function NewFrame(): Frame {
    Frame(true, 0, None, false, {}, {}, 0, [], Running)
  }

  function Initial(): State {
    State([NewFrame()], Idle, [], [])
  }

  // ------------------------------------------------------------- frame rules

  function Refused(frame: Frame, kind: Kind): Option<Refusal> {
    if !frame.open then Some(WriteContextClosed)
    else if frame.savepoint.Some? || (kind.Savepoint? && frame.pending != 0) then Some(OverlappingSavepoint)
    else None
  }

  function Recorded(frame: Frame, effect: Effect): Frame {
    frame.(failed := frame.failed || !effect.ok,
           writes := if effect.ok && effect.fact.Some? then frame.writes + [effect.fact.value] else frame.writes)
  }

  function Admitted(frame: Frame, kind: Kind, id: nat): Frame {
    match kind
    case Operation => frame.(pending := frame.pending + 1, operations := frame.operations + {id})
    case Stream => frame.(pending := frame.pending + 1, iterators := frame.iterators + {id})
    case Synchronous(effect) => Recorded(frame, effect)
    case Savepoint =>
      frame.(pending := frame.pending + 1, operations := frame.operations + {id}, savepoint := Some(id),
             counter := frame.counter + 1)
  }

  /** The savepoint operation ends, with or without an error; either way it does not mark the frame failed. */
  function SavepointEnded(frame: Frame): Frame
    requires frame.savepoint.Some?
  {
    frame.(pending := frame.pending - 1, operations := frame.operations - {frame.savepoint.value}, savepoint := None)
  }

  /** `finish` passes: nothing pending and nothing failed. */
  predicate Finishes(frame: Frame) {
    frame.pending == 0 && !frame.failed
  }

  // ----------------------------------------------------- savepoints by name

  /** SQL resolves a savepoint name to the innermost one that carries it. */
  function Innermost(marks: seq<Mark>, name: nat): (found: Option<nat>)
    ensures found.None? <==> forall i :: 0 <= i < |marks| ==> marks[i].name != name
    ensures found.Some? ==> found.value < |marks| && marks[found.value].name == name
    ensures found.Some? ==> forall i :: found.value < i < |marks| ==> marks[i].name != name
  {
    if marks == [] then None
    else if marks[|marks| - 1].name == name then Some(|marks| - 1)
    else Innermost(marks[..|marks| - 1], name)
  }

  function Top(s: State): Frame
    requires s.frames != []
  {
    s.frames[|s.frames| - 1]
  }

  function WithTop(s: State, frame: Frame): State
    requires s.frames != []
  {
    s.(frames := s.frames[|s.frames| - 1 := frame])
  }

  function Truncated(log: seq<Entry>, position: nat): seq<Entry> {
    if position <= |log| then log[..position] else log
  }

  /** What remains from a position on was to be undone. */
  function Doom(log: seq<Entry>, position: nat): (doomed: seq<Entry>)
    ensures |doomed| == |log|
    ensures forall p :: 0 <= p < |log| ==> doomed[p] == if p < position then log[p] else log[p].(doomed := true)
  {
    seq(|log|, p requires 0 <= p < |log| => if p < position then log[p] else log[p].(doomed := true))
  }

  /** Where the innermost open savepoint is, whatever lost ones lie above it. */
  function OwnIndex(marks: seq<Mark>): (own: Option<nat>)
    ensures own.None? <==> forall i :: 0 <= i < |marks| ==> !marks[i].open
    ensures own.Some? ==> own.value < |marks| && marks[own.value].open
    ensures own.Some? ==> forall i :: own.value < i < |marks| ==> !marks[i].open
  {
    if marks == [] then None
    else if marks[|marks| - 1].open then Some(|marks| - 1)
    else OwnIndex(marks[..|marks| - 1])
  }

  /** The call of the innermost open savepoint has ended. */
  function Ended(marks: seq<Mark>): (ended: seq<Mark>)
    ensures |ended| == |marks|
  {
    if OwnIndex(marks).Some? then marks[OwnIndex(marks).value := marks[OwnIndex(marks).value].(open := false)] else marks
  }

  /** Where that savepoint's part of the transaction begins. */
  function OwnStart(s: State): nat {
    if OwnIndex(s.marks).Some? then s.marks[OwnIndex(s.marks).value].position else 0
  }

  /** The savepoint the pending release or rollback names. */
  function Named(s: State): Option<nat>
    requires s.frames != []
  {
    Innermost(s.marks, Top(s).counter)
  }

  // --------------------------------------------------------------------- steps

  predicate Enabled(s: State, e: Event) {
    s.frames != []
    && match e
       case Invoke(d, _, id) => d < |s.frames| && id !in s.frames[d].operations && id !in s.frames[d].iterators
       case OperationSettles(d, id, _) =>
         d < |s.frames| && id in s.frames[d].operations && s.frames[d].savepoint != Some(id)
       case StreamEnds(d, id, _) => d < |s.frames| && id in s.frames[d].iterators
       case StatementDone(ok) =>
         !s.control.Idle? && Top(s).savepoint.Some? && (ok && !s.control.Opening? ==> Named(s).Some?)
       case CallbackEnds(d, _) => d < |s.frames| && s.frames[d].phase.Running?
       case ChildSettled(_) => |s.frames| > 1 && s.control.Idle? && Top(s).phase.Settling? && Top(s).operations == {}
  }

  function Invoked(s: State, d: nat, kind: Kind, id: nat): State
    requires d < |s.frames|
  {
    if Refused(s.frames[d], kind).Some? then s
    else
      s.(frames := s.frames[d := Admitted(s.frames[d], kind, id)],
         log := if kind.Synchronous? then s.log + [Entry(kind.effect, false)] else s.log,
         control := if kind.Savepoint? then Opening else s.control)
  }

  function StatementStep(s: State, ok: bool): State
    requires Enabled(s, StatementDone(ok))
  {
    var top := Top(s);
    match s.control
    case Opening =>
      if ok then
        s.(frames := s.frames + [NewFrame()], control := Idle,
           marks := s.marks + [Mark(|s.frames| - 1, top.counter, |s.log|, true)])
      else WithTop(s, SavepointEnded(top)).(control := Idle)
    case Releasing(carried) =>
      if ok then
        WithTop(s, SavepointEnded(top).(writes := top.writes + carried)).(
          control := Idle, marks := Ended(s.marks)[..Named(s).value])
      else s.(control := RollingBack)
    case RollingBack =>
      if ok then
        s.(log := Doom(Truncated(s.log, s.marks[Named(s).value].position), OwnStart(s)),
           marks := s.marks[..Named(s).value + 1], control := Dropping)
      else
        WithTop(s, SavepointEnded(top)).(control := Idle, log := Doom(s.log, OwnStart(s)), marks := Ended(s.marks))
    case Dropping =>
      WithTop(s, SavepointEnded(top)).(
        control := Idle, marks := if ok then Ended(s.marks)[..Named(s).value] else Ended(s.marks))
  }

  function ClosedFrom(frames: seq<Frame>, d: nat): (closed: seq<Frame>)
    ensures |closed| == |frames|
    ensures forall k :: 0 <= k < |frames| ==> closed[k] == if k < d then frames[k] else frames[k].(open := false)
  {
    seq(|frames|, k requires 0 <= k < |frames| => if k < d then frames[k] else frames[k].(open := false))
  }

  /** `finish`, then `close` of the guard and of every guard beneath it. */
  function CallbackStep(s: State, d: nat, ok: bool): State
    requires d < |s.frames|
  {
    var closed := ClosedFrom(s.frames, d);
    s.(frames := closed[d := closed[d].(phase := Settling(ok && Finishes(s.frames[d])))])
  }

  /** A settled child leaves the stack; its facts travel with the release. */
  function SettledStep(s: State, clean: bool): State
    requires Enabled(s, ChildSettled(clean))
  {
    s.(frames := s.frames[..|s.frames| - 1],
       control := if Top(s).phase.passed && clean then Releasing(Top(s).writes) else RollingBack)
  }

  function Step(s: State, e: Event): State
    requires Enabled(s, e)
  {
    match e
    case Invoke(d, kind, id) => Invoked(s, d, kind, id)
    case OperationSettles(d, id, effect) =>
      var frame := s.frames[d];
      s.(frames := s.frames[d := Recorded(frame, effect).(
           pending := frame.pending - 1, operations := frame.operations - {id})],
         log := s.log + [Entry(effect, false)])
    case StreamEnds(d, id, effect) =>
      var frame := s.frames[d];
      s.(frames := s.frames[d := Recorded(frame, effect).(
           pending := frame.pending - 1, iterators := frame.iterators - {id})],
         log := s.log + [Entry(effect, false)])
    case StatementDone(ok) => StatementStep(s, ok)
    case CallbackEnds(d, ok) => CallbackStep(s, d, ok)
    case ChildSettled(clean) => SettledStep(s, clean)
  }

  ghost predicate Possible(s: State, events: seq<Event>)
    decreases events
  {
    events == [] || (Enabled(s, events[0]) && Possible(Step(s, events[0]), events[1..]))
  }

  ghost function RunEvents(s: State, events: seq<Event>): State
    requires Possible(s, events)
    decreases events
  {
    if events == [] then s else RunEvents(Step(s, events[0]), events[1..])
  }

  // ----------------------------------------------------------------- invariant

  /** `pending` counts exactly what is in flight; an active savepoint is all of it. */
  predicate Counted(frame: Frame) {
    && frame.pending == |frame.operations| + |frame.iterators|
    && (frame.savepoint.Some? ==> frame.operations == {frame.savepoint.value} && frame.iterators == {})
    && (frame.phase.Settling? ==> !frame.open)
    && (frame.phase == Settling(true) ==> Finishes(frame))
  }

  /** Every frame but the innermost has its savepoint active, and so has it while a statement is out. */
  predicate Stacked(frames: seq<Frame>, idle: bool) {
    && frames != []
    && (forall d :: 0 <= d < |frames| ==> Counted(frames[d]))
    && (forall d :: 0 <= d < |frames| - 1 ==> frames[d].savepoint.Some?)
    && (frames[|frames| - 1].savepoint.Some? <==> !idle)
  }

  /** The savepoints whose call has not ended. */
  function OpenMarks(marks: seq<Mark>): (open: seq<Mark>)
    ensures |open| <= |marks| && forall i :: 0 <= i < |open| ==> open[i] in marks && open[i].open
  {
    if marks == [] then []
    else
      var last := marks[|marks| - 1];
      OpenMarks(marks[..|marks| - 1]) + if last.open then [last] else []
  }

  /** The open savepoints are those of the frames, outermost first. */
  predicate Owned(frames: seq<Frame>, open: seq<Mark>) {
    |open| <= |frames| && forall i :: 0 <= i < |open| ==> open[i].owner == i && open[i].name == frames[i].counter
  }

  /** A savepoint above an open one was opened inside it, by a deeper frame. */
  predicate Nested(marks: seq<Mark>) {
    marks == []
    || (Nested(marks[..|marks| - 1]) && marks[|marks| - 1].owner >= |OpenMarks(marks[..|marks| - 1])|)
  }

  predicate Placed(length: nat, marks: seq<Mark>)
    decreases |marks|
  {
    marks == []
    || (marks[|marks| - 1].position <= length && Placed(marks[|marks| - 1].position, marks[..|marks| - 1]))
  }

  /** The transaction cut at its open savepoints. */
  function Parts(log: seq<Entry>, open: seq<Mark>): (parts: seq<seq<Entry>>)
    requires Placed(|log|, open)
    ensures |parts| == |open| + 1
    decreases |open|
  {
    if open == [] then [log]
    else
      var position := open[|open| - 1].position;
      Parts(log[..position], open[..|open| - 1]) + [log[position..]]
  }

  /** Facts of the effects that were meant to stay. */
  function KeptFacts(log: seq<Entry>): seq<WriteFact> {
    if log == [] then []
    else
      var last := log[|log| - 1];
      KeptFacts(log[..|log| - 1])
      + if !last.doomed && last.effect.ok && last.effect.fact.Some? then [last.effect.fact.value] else []
  }

  predicate KeptOk(log: seq<Entry>) {
    forall p :: 0 <= p < |log| ==> log[p].doomed || log[p].effect.ok
  }

  /** A frame's log has the facts of its part, and the frame has failed exactly if a kept effect of its part has. */
  predicate Kept(frame: Frame, part: seq<Entry>) {
    frame.writes == KeptFacts(part) && (frame.failed <==> !KeptOk(part))
  }

  predicate Backed(frames: seq<Frame>, parts: seq<seq<Entry>>) {
    |frames| <= |parts| && forall d :: 0 <= d < |frames| ==> Kept(frames[d], parts[d])
  }

  predicate AllDoomed(log: seq<Entry>) {
    forall p :: 0 <= p < |log| ==> log[p].doomed
  }

  /** What remains of a child that has left the stack. */
  predicate TailKept(control: Control, tail: seq<Entry>) {
    && (control.Releasing? ==> control.carried == KeptFacts(tail) && KeptOk(tail))
    && (control.Dropping? ==> AllDoomed(tail))
  }

  predicate Between(control: Control) {
    control.Idle? || control.Opening?
  }

  predicate Sound(s: State) {
    var open := OpenMarks(s.marks);
    && Owned(s.frames, open) && Nested(s.marks)
    && |open| == |s.frames| - (if Between(s.control) then 1 else 0)
    && Placed(|s.log|, s.marks) && Placed(|s.log|, open)
    && var parts := Parts(s.log, open);
       Backed(s.frames, parts) && (!Between(s.control) ==> TailKept(s.control, parts[|s.frames|]))
  }

  predicate Inv(s: State) {
    Stacked(s.frames, s.control.Idle?) && Sound(s)
  }

  lemma {:induction false} FactsConcat(left: seq<Entry>, right: seq<Entry>)
    ensures KeptFacts(left + right) == KeptFacts(left) + KeptFacts(right)
  {
    if right == [] {
      assert left + right == left;
    } else {
      assert (left + right)[..|left + right| - 1] == left + right[..|right| - 1];
      FactsConcat(left, right[..|right| - 1]);
    }
  }

  lemma {:induction false} DoomedKeepsNothing(log: seq<Entry>)
    requires AllDoomed(log)
    ensures KeptFacts(log) == [] && KeptOk(log)
  {
    if log != [] {
      DoomedKeepsNothing(log[..|log| - 1]);
    }
  }

  // ------------------------------------------------ open savepoints among lost ones

  lemma OpenPush(marks: seq<Mark>, mark: Mark)
    ensures OpenMarks(marks + [mark]) == OpenMarks(marks) + if mark.open then [mark] else []
    ensures Nested(marks + [mark]) <==> Nested(marks) && mark.owner >= |OpenMarks(marks)|
  {
    assert (marks + [mark])[..|marks|] == marks;
  }

  /** Nothing open lies above the innermost open savepoint. */
  lemma {:induction false} OpenPrefix(marks: seq<Mark>, count: nat)
    requires count <= |marks| && OwnIndex(marks).Some? && count > OwnIndex(marks).value
    ensures OpenMarks(marks[..count]) == OpenMarks(marks) && OwnIndex(marks[..count]) == OwnIndex(marks)
  {
    if count == |marks| {
      assert marks[..count] == marks;
    } else {
      var front := marks[..|marks| - 1];
      assert front[..count] == marks[..count];
      OpenPrefix(front, count);
      assert OpenMarks(front) + [] == OpenMarks(front);
    }
  }

  lemma {:induction false} NestedPrefix(marks: seq<Mark>, count: nat)
    requires Nested(marks) && count <= |marks|
    ensures Nested(marks[..count])
  {
    if count == |marks| {
      assert marks[..count] == marks;
    } else {
      assert marks[..|marks| - 1][..count] == marks[..count];
      NestedPrefix(marks[..|marks| - 1], count);
    }
  }

  lemma {:induction false} PlacedPrefix(length: nat, marks: seq<Mark>, k: nat)
    requires Placed(length, marks) && k < |marks|
    ensures marks[k].position <= length && Placed(marks[k].position, marks[..k + 1])
    ensures Placed(length, marks[..k])
  {
    var front := marks[..|marks| - 1];
    if k == |marks| - 1 {
      assert marks[..k + 1] == marks;
      PlacedLonger(marks[k].position, length, front);
    } else {
      PlacedPrefix(marks[|marks| - 1].position, front, k);
      assert front[..k + 1] == marks[..k + 1] && front[..k] == marks[..k];
      PlacedLonger(marks[|marks| - 1].position, length, marks[..k]);
    }
  }

  lemma PlacedLonger(short: nat, long: nat, marks: seq<Mark>)
    ensures Placed(short, marks) && short <= long ==> Placed(long, marks)
  {
  }

  /** The innermost open savepoint is the last open one, and lies no lower than any below it. */
  lemma {:induction false} OwnIsLast(length: nat, marks: seq<Mark>)
    requires OpenMarks(marks) != []
    ensures OwnIndex(marks).Some? && marks[OwnIndex(marks).value] == OpenMarks(marks)[|OpenMarks(marks)| - 1]
    ensures OpenMarks(marks[..OwnIndex(marks).value]) == OpenMarks(marks)[..|OpenMarks(marks)| - 1]
  {
    var last := |marks| - 1;
    if !marks[last].open {
      assert OpenMarks(marks[..last]) + [] == OpenMarks(marks[..last]);
      OwnIsLast(length, marks[..last]);
      var own := OwnIndex(marks).value;
      assert marks[..last][..own] == marks[..own];
    }
  }

  /** Ending the innermost call leaves the other open savepoints alone. */
  lemma {:induction false} EndedOpen(marks: seq<Mark>)
    requires OwnIndex(marks).Some?
    ensures |OpenMarks(marks)| > 0
    ensures OpenMarks(Ended(marks)) == OpenMarks(marks)[..|OpenMarks(marks)| - 1]
  {
    var last := |marks| - 1;
    var own := OwnIndex(marks).value;
    var ended := Ended(marks);
    if own == last {
      assert ended[..last] == marks[..last];
      assert OpenMarks(ended) == OpenMarks(ended[..last]) + [];
    } else {
      EndedOpen(marks[..last]);
      assert ended[..last] == Ended(marks[..last]);
      assert OpenMarks(marks[..last]) + [] == OpenMarks(marks[..last]);
      assert OpenMarks(ended[..last]) + [] == OpenMarks(ended[..last]);
    }
  }

  lemma {:induction false} EndedNested(marks: seq<Mark>)
    requires Nested(marks)
    ensures Nested(Ended(marks))
  {
    if OwnIndex(marks).Some? {
      var last := |marks| - 1;
      var own := OwnIndex(marks).value;
      var ended := Ended(marks);
      if own == last {
        assert ended[..last] == marks[..last];
      } else {
        EndedNested(marks[..last]);
        assert ended[..last] == Ended(marks[..last]);
        EndedOpen(marks[..last]);
      }
    }
  }

  lemma {:induction false} EndedPlaced(length: nat, marks: seq<Mark>)
    requires Placed(length, marks)
    ensures Placed(length, Ended(marks))
    decreases |marks|
  {
    if OwnIndex(marks).Some? {
      var last := |marks| - 1;
      var ended := Ended(marks);
      if OwnIndex(marks).value == last {
        assert ended[..last] == marks[..last];
      } else {
        EndedPlaced(marks[last].position, marks[..last]);
        assert ended[..last] == Ended(marks[..last]);
      }
    }
  }

  /** What a release or a rollback leaves: the call has ended and everything from `count` on is gone. */
  lemma EndedPrefix(length: nat, marks: seq<Mark>, count: nat)
    requires OwnIndex(marks).Some? && OwnIndex(marks).value <= count <= |marks|
    requires Nested(marks) && Placed(length, marks)
    ensures |OpenMarks(marks)| > 0
    ensures var left := Ended(marks)[..count];
      OpenMarks(left) == OpenMarks(marks)[..|OpenMarks(marks)| - 1] && Nested(left) && Placed(length, left)
  {
    hide Nested, Placed;
    EndedNested(marks);
    EndedPlaced(length, marks);
    NestedPrefix(Ended(marks), count);
    if count < |marks| {
      PlacedPrefix(length, Ended(marks), count);
    } else {
      assert Ended(marks)[..count] == Ended(marks);
    }
    EndedOpen(marks);
    NothingOpenAbove(Ended(marks), count, OwnIndex(marks).value);
  }

  lemma {:induction false} NothingOpenAbove(marks: seq<Mark>, count: nat, own: nat)
    requires own <= count <= |marks| && forall i :: own <= i < |marks| ==> !marks[i].open
    ensures OpenMarks(marks[..count]) == OpenMarks(marks)
  {
    if count == |marks| {
      assert marks[..count] == marks;
    } else {
      var front := marks[..|marks| - 1];
      NothingOpenAbove(front, count, own);
      assert front[..count] == marks[..count];
      assert OpenMarks(front) + [] == OpenMarks(front);
    }
  }

  /** Whatever lies above an open savepoint belongs to deeper frames. */
  lemma {:induction false} AboveIsDeeper(marks: seq<Mark>, k: nat)
    requires Nested(marks) && OwnIndex(marks).Some? && OwnIndex(marks).value < k < |marks|
    ensures marks[k].owner >= |OpenMarks(marks)|
  {
    var last := |marks| - 1;
    assert OpenMarks(marks[..last]) + [] == OpenMarks(marks[..last]);
    if k < last {
      AboveIsDeeper(marks[..last], k);
    }
  }

  // ----------------------------------------------------- the cut transaction

  /** Only the last savepoint matters for the last cut. */
  lemma PartsOf(log: seq<Entry>, front: seq<Mark>, last: Mark)
    ensures Placed(|log|, front + [last]) <==> last.position <= |log| && Placed(last.position, front)
    ensures Placed(|log|, front + [last]) ==>
      Parts(log, front + [last]) == Parts(log[..last.position], front) + [log[last.position..]]
  {
    var marks := front + [last];
    assert marks[|marks| - 1] == last && marks[..|marks| - 1] == front;
  }

  lemma PartsAppend(log: seq<Entry>, marks: seq<Mark>, entry: Entry)
    requires Placed(|log|, marks)
    ensures Placed(|log + [entry]|, marks)
    ensures var parts := Parts(log, marks);
      Parts(log + [entry], marks) == parts[|marks| := parts[|marks|] + [entry]]
  {
    if marks != [] {
      var position := marks[|marks| - 1].position;
      assert (log + [entry])[..position] == log[..position];
      assert (log + [entry])[position..] == log[position..] + [entry];
    }
  }

  lemma PartsPush(log: seq<Entry>, marks: seq<Mark>, mark: Mark)
    requires Placed(|log|, marks) && mark.position == |log|
    ensures Placed(|log|, marks + [mark]) && Parts(log, marks + [mark]) == Parts(log, marks) + [[]]
  {
    hide Placed, Parts;
    PartsOf(log, marks, mark);
    assert log[..|log|] == log && log[|log|..] == [];
  }

  /** The last cut goes: its part joins the one before. */
  lemma PartsRelease(log: seq<Entry>, marks: seq<Mark>)
    requires Placed(|log|, marks) && marks != []
    ensures Placed(|log|, marks[..|marks| - 1])
    ensures var parts, k := Parts(log, marks), |marks| - 1;
      Parts(log, marks[..k]) == parts[..k] + [parts[k] + parts[k + 1]]
  {
    hide Placed, Parts;
    var rest, last := marks[..|marks| - 1], marks[|marks| - 1];
    assert marks == rest + [last];
    PartsOf(log, rest, last);
    PlacedLonger(last.position, |log|, rest);
    var from := LastPart(log, rest, last.position);
    JoinedParts(log, Parts(log, rest)[..|rest|], from, last.position);
  }

  /** Cutting a transaction shorter shortens its last part only. */
  lemma LastPart(log: seq<Entry>, marks: seq<Mark>, position: nat) returns (from: nat)
    requires position <= |log| && Placed(position, marks) && Placed(|log|, marks)
    ensures from <= position
    ensures Parts(log, marks) == Parts(log, marks)[..|marks|] + [log[from..]]
    ensures Parts(log[..position], marks) == Parts(log, marks)[..|marks|] + [log[..position][from..]]
  {
    if marks == [] {
      from := 0;
    } else {
      from := marks[|marks| - 1].position;
      assert log[..position][..from] == log[..from];
    }
  }

  lemma JoinedParts(log: seq<Entry>, head: seq<seq<Entry>>, from: nat, position: nat)
    requires from <= position <= |log|
    ensures var parts, k := head + [log[..position][from..]] + [log[position..]], |head|;
      parts[..k] + [parts[k] + parts[k + 1]] == head + [log[from..]]
  {
    var parts, k := head + [log[..position][from..]] + [log[position..]], |head|;
    assert parts[..k] == head;
    assert log[..position][from..] + log[position..] == log[from..];
  }

  /** A transaction that agrees up to the last cut and is doomed after it. */
  lemma PartsDoomed(log: seq<Entry>, marks: seq<Mark>, after: seq<Entry>)
    requires Placed(|log|, marks) && marks != []
    requires var position := marks[|marks| - 1].position;
      position <= |after| && after[..position] == log[..position] && AllDoomed(after[position..])
    ensures Placed(|after|, marks)
    ensures Parts(after, marks)[..|marks|] == Parts(log, marks)[..|marks|] && AllDoomed(Parts(after, marks)[|marks|])
  {
    var front, last := marks[..|marks| - 1], marks[|marks| - 1];
    assert marks == front + [last];
    assert last.position <= |log| && Placed(last.position, front);
    hide Placed, Parts;
    PartsOf(log, front, last);
    PartsOf(after, front, last);
  }

  lemma DoomedFrom(log: seq<Entry>, position: nat)
    ensures position <= |log| ==>
      Doom(log, position)[..position] == log[..position] && AllDoomed(Doom(log, position)[position..])
  {
  }

  lemma BackedUpdate(frames: seq<Frame>, parts: seq<seq<Entry>>, frame: Frame, part: seq<Entry>)
    ensures Backed(frames, parts) && frames != [] && Kept(frame, part) ==>
      Backed(frames[|frames| - 1 := frame], parts[|frames| - 1 := part])
  {
  }

  lemma BackedPrefix(frames: seq<Frame>, parts: seq<seq<Entry>>, count: nat)
    requires Backed(frames, parts) && count <= |frames|
    ensures Backed(frames[..count], parts) && forall d :: 0 <= d < |frames| ==> Kept(frames[d], parts[d])
  {
  }

  /** Frames that keep their facts and failures stay backed by the same parts. */
  lemma BackedSame(before: seq<Frame>, after: seq<Frame>, parts: seq<seq<Entry>>, more: seq<seq<Entry>>)
    requires Backed(before, parts) && |after| == |before|
    requires |after| <= |more| && forall d :: 0 <= d < |after| ==> more[d] == parts[d]
    requires forall d :: 0 <= d < |after| ==> after[d].writes == before[d].writes && after[d].failed == before[d].failed
    ensures Backed(after, more)
  {
  }

  lemma KeptRecorded(frame: Frame, part: seq<Entry>, effect: Effect)
    requires Kept(frame, part)
    ensures Kept(Recorded(frame, effect), part + [Entry(effect, false)])
  {
    FactsConcat(part, [Entry(effect, false)]);
    assert [Entry(effect, false)][..0] == [];
  }

  /** Doomed effects change nothing that is kept. */
  lemma KeptDoomed(frame: Frame, part: seq<Entry>, tail: seq<Entry>)
    requires Kept(frame, part) && AllDoomed(tail)
    ensures Kept(frame, part + tail)
  {
    FactsConcat(part, tail);
    OkConcat(part, tail);
    DoomedKeepsNothing(tail);
  }

  lemma OkConcat(left: seq<Entry>, right: seq<Entry>)
    ensures KeptOk(left + right) <==> KeptOk(left) && KeptOk(right)
  {
    if KeptOk(left + right) {
      assert forall p :: 0 <= p < |left| ==> (left + right)[p] == left[p];
      assert forall p :: 0 <= p < |right| ==> (left + right)[|left| + p] == right[p];
    }
  }

  // --------------------------------------------------- every step keeps it

  /** An operation that is not the savepoint, or a stream, is in flight only in the innermost running frame. */
  lemma OnlyTopRuns(frames: seq<Frame>, idle: bool, d: nat)
    ensures Stacked(frames, idle) && d < |frames| && frames[d].savepoint.None? ==> d == |frames| - 1 && idle
  {
  }

  lemma TopReplaced(frames: seq<Frame>, idle: bool, frame: Frame, next: bool)
    ensures (Stacked(frames, idle) && Counted(frame) && (frame.savepoint.Some? <==> !next)) ==>
      Stacked(frames[|frames| - 1 := frame], next)
  {
  }

  lemma OwnedTop(frames: seq<Frame>, open: seq<Mark>, frame: Frame)
    ensures Owned(frames, open) && frames != [] && (|open| < |frames| || frame.counter == frames[|frames| - 1].counter) ==>
      Owned(frames[|frames| - 1 := frame], open)
  {
  }

  /** One more effect at the end of the innermost, running frame. */
  lemma EffectKeeps(s: State, frame: Frame, effect: Effect)
    requires s.frames != [] && s.control.Idle? && Sound(s)
    requires var last := Recorded(Top(s), effect);
      frame.failed == last.failed && frame.writes == last.writes && frame.counter == last.counter
    ensures Sound(WithTop(s, frame).(log := s.log + [Entry(effect, false)]))
  {
    hide Owned, Backed, Kept, Placed, Recorded, Parts, OpenMarks, Nested;
    var open := OpenMarks(s.marks);
    OwnedTop(s.frames, open, frame);
    PlacedLonger(|s.log|, |s.log| + 1, s.marks);
    PartsAppend(s.log, open, Entry(effect, false));
    TopBacked(s.frames, Parts(s.log, open), frame, effect);
  }

  lemma TopBacked(frames: seq<Frame>, parts: seq<seq<Entry>>, frame: Frame, effect: Effect)
    requires Backed(frames, parts) && |parts| == |frames| > 0
    requires var last := Recorded(frames[|frames| - 1], effect); frame.failed == last.failed && frame.writes == last.writes
    ensures Backed(
      frames[|frames| - 1 := frame], parts[|frames| - 1 := parts[|frames| - 1] + [Entry(effect, false)]])
  {
    KeptRecorded(frames[|frames| - 1], parts[|frames| - 1], effect);
    BackedUpdate(frames, parts, frame, parts[|frames| - 1] + [Entry(effect, false)]);
  }

  /** Frames that keep their facts, failures and the names of their savepoints. */
  lemma QuietKeeps(s: State, next: State)
    requires Sound(s) && |next.frames| == |s.frames|
    requires next.log == s.log && next.marks == s.marks
    requires next.control == s.control || (Between(next.control) && Between(s.control))
    requires forall d :: 0 <= d < |s.frames| ==>
      next.frames[d].failed == s.frames[d].failed && next.frames[d].writes == s.frames[d].writes
      && (d < |OpenMarks(s.marks)| ==> next.frames[d].counter == s.frames[d].counter)
    ensures Sound(next)
  {
    hide Kept, Placed, Parts, OpenMarks, Nested;
    var parts := Parts(s.log, OpenMarks(s.marks));
    BackedSame(s.frames, next.frames, parts, parts);
  }

  lemma AdmittedCounted(frame: Frame, kind: Kind, id: nat)
    requires Counted(frame) && Refused(frame, kind).None? && id !in frame.operations && id !in frame.iterators
    ensures Counted(Admitted(frame, kind, id))
  {
    if kind.Savepoint? {
      assert |frame.operations| == 0 && |frame.iterators| == 0;
      assert frame.operations + {id} == {id};
    }
  }

  lemma InvokeKeeps(s: State, d: nat, kind: Kind, id: nat)
    requires Inv(s) && Enabled(s, Invoke(d, kind, id))
    ensures Inv(Invoked(s, d, kind, id))
  {
    hide Counted, Sound, Stacked, OpenMarks;
    if Refused(s.frames[d], kind).None? {
      CountedAt(s.frames, s.control.Idle?, d);
      OnlyTopRuns(s.frames, s.control.Idle?, d);
      AdmittedCounted(s.frames[d], kind, id);
      TopReplaced(s.frames, true, Admitted(s.frames[d], kind, id), !kind.Savepoint?);
      if kind.Synchronous? {
        EffectKeeps(s, Admitted(s.frames[d], kind, id), kind.effect);
      } else {
        MarksBelowTop(s);
        QuietKeeps(s, Invoked(s, d, kind, id));
      }
    }
  }

  lemma CountedAt(frames: seq<Frame>, idle: bool, d: nat)
    ensures Stacked(frames, idle) && d < |frames| ==> Counted(frames[d])
  {
  }

  lemma MarksBelowTop(s: State)
    requires Sound(s)
    ensures Between(s.control) ==> |OpenMarks(s.marks)| == |s.frames| - 1
  {
  }

  lemma Forgotten(ids: set<nat>, id: nat)
    ensures id in ids ==> |ids - {id}| == |ids| - 1
  {
  }

  lemma SettlesKeeps(s: State, d: nat, id: nat, effect: Effect)
    requires Inv(s) && Enabled(s, OperationSettles(d, id, effect))
    ensures Inv(Step(s, OperationSettles(d, id, effect)))
  {
    hide Sound, Stacked;
    CountedAt(s.frames, s.control.Idle?, d);
    OnlyTopRuns(s.frames, s.control.Idle?, d);
    Forgotten(s.frames[d].operations, id);
    var frame := Step(s, OperationSettles(d, id, effect)).frames[d];
    TopReplaced(s.frames, true, frame, true);
    EffectKeeps(s, frame, effect);
  }

  lemma StreamKeeps(s: State, d: nat, id: nat, effect: Effect)
    requires Inv(s) && Enabled(s, StreamEnds(d, id, effect))
    ensures Inv(Step(s, StreamEnds(d, id, effect)))
  {
    hide Sound, Stacked;
    CountedAt(s.frames, s.control.Idle?, d);
    OnlyTopRuns(s.frames, s.control.Idle?, d);
    Forgotten(s.frames[d].iterators, id);
    var frame := Step(s, StreamEnds(d, id, effect)).frames[d];
    TopReplaced(s.frames, true, frame, true);
    EffectKeeps(s, frame, effect);
  }

  lemma CallbackKeeps(s: State, d: nat, ok: bool)
    requires Inv(s) && Enabled(s, CallbackEnds(d, ok))
    ensures Inv(CallbackStep(s, d, ok))
  {
    hide Sound, OpenMarks;
    QuietKeeps(s, CallbackStep(s, d, ok));
  }

  lemma ChildKeeps(s: State, clean: bool)
    requires Inv(s) && Enabled(s, ChildSettled(clean))
    ensures Inv(SettledStep(s, clean))
  {
    hide Kept, Placed, Parts, OpenMarks, Nested, Backed, Owned, Stacked, Counted;
    var count := |s.frames| - 1;
    var open := OpenMarks(s.marks);
    var parts := Parts(s.log, open);
    ChildLeaves(s.frames, open);
    CountedAt(s.frames, true, count);
    BackedPrefix(s.frames, parts, count);
    ChildTail(Top(s), parts[count]);
  }

  lemma ChildLeaves(frames: seq<Frame>, open: seq<Mark>)
    requires Stacked(frames, true) && |frames| > 1 && Owned(frames, open) && |open| == |frames| - 1
    ensures Stacked(frames[..|frames| - 1], false) && Owned(frames[..|frames| - 1], open)
  {
    var below := frames[..|frames| - 1];
    assert forall d :: 0 <= d < |below| ==> below[d] == frames[d];
  }

  lemma ChildTail(child: Frame, tail: seq<Entry>)
    requires Counted(child) && Kept(child, tail)
    ensures child.phase == Settling(true) ==> child.writes == KeptFacts(tail) && KeptOk(tail)
  {
  }

  /** The savepoint of the call in flight is there, with its name and depth. */
  lemma OwnIsThere(s: State)
    requires s.frames != [] && Sound(s) && !Between(s.control)
    ensures OpenMarks(s.marks) != [] && |OpenMarks(s.marks)| == |s.frames| && OwnIndex(s.marks).Some?
    ensures var own := s.marks[OwnIndex(s.marks).value];
      && own == OpenMarks(s.marks)[|s.frames| - 1]
      && own.owner == |s.frames| - 1 && own.name == Top(s).counter && own.position == OwnStart(s) <= |s.log|
    ensures Named(s).Some? && OwnIndex(s.marks).value <= Named(s).value < |s.marks|
  {
    hide Backed, Parts, OpenMarks, Nested, Placed;
    OwnIsLast(|s.log|, s.marks);
    PlacedPrefix(|s.log|, s.marks, OwnIndex(s.marks).value);
  }

  lemma EndedStacked(frames: seq<Frame>, writes: seq<WriteFact>)
    requires Stacked(frames, false)
    ensures frames[|frames| - 1].savepoint.Some?
    ensures Stacked(frames[|frames| - 1 := SavepointEnded(frames[|frames| - 1]).(writes := writes)], true)
  {
  }

  lemma OpenedStacked(frames: seq<Frame>)
    ensures Stacked(frames, false) ==> Stacked(frames + [NewFrame()], true)
  {
  }

  lemma OpenedBacked(frames: seq<Frame>, parts: seq<seq<Entry>>)
    ensures Backed(frames, parts) && |parts| == |frames| ==> Backed(frames + [NewFrame()], parts + [[]])
  {
  }

  lemma OpenedOwned(frames: seq<Frame>, open: seq<Mark>, mark: Mark)
    requires Owned(frames, open) && |open| == |frames| - 1
    requires mark.owner == |frames| - 1 && mark.name == frames[|frames| - 1].counter
    ensures Owned(frames + [NewFrame()], open + [mark])
  {
  }

  lemma OpeningKeeps(s: State, ok: bool)
    requires Inv(s) && Enabled(s, StatementDone(ok)) && s.control.Opening?
    ensures Inv(StatementStep(s, ok))
  {
    hide Kept, Placed, Parts, Stacked, Backed, OpenMarks, Nested, Owned;
    if ok {
      OpenedStacked(s.frames);
      var open := OpenMarks(s.marks);
      var mark := Mark(|s.frames| - 1, Top(s).counter, |s.log|, true);
      OpenPush(s.marks, mark);
      PartsPush(s.log, open, mark);
      PushedPlaced(|s.log|, s.marks, mark);
      OpenedBacked(s.frames, Parts(s.log, open));
      OpenedOwned(s.frames, open, mark);
    } else {
      EndedStacked(s.frames, Top(s).writes);
      MarksBelowTop(s);
      QuietKeeps(s, StatementStep(s, ok));
    }
  }

  lemma PushedPlaced(length: nat, marks: seq<Mark>, mark: Mark)
    requires Placed(length, marks) && mark.position == length
    ensures Placed(length, marks + [mark])
  {
    assert (marks + [mark])[..|marks|] == marks;
  }

  lemma OwnedPrefix(frames: seq<Frame>, marks: seq<Mark>)
    requires Owned(frames, marks) && marks != []
    ensures Owned(frames, marks[..|marks| - 1])
  {
    var front := marks[..|marks| - 1];
    forall i | 0 <= i < |front| ensures front[i].owner == i && front[i].name == frames[i].counter {
      assert marks[i].owner == i && marks[i].name == frames[i].counter;
      assert front[i] == marks[i];
    }
  }

  lemma ReleasedBacked(frames: seq<Frame>, parts: seq<seq<Entry>>, frame: Frame, carried: seq<WriteFact>)
    requires Backed(frames, parts) && |parts| == |frames| + 1 && frames != []
    requires TailKept(Releasing(carried), parts[|frames|])
    requires frame.failed == frames[|frames| - 1].failed && frame.writes == frames[|frames| - 1].writes + carried
    ensures var k := |frames| - 1;
      Backed(frames[k := frame], parts[..k] + [parts[k] + parts[k + 1]])
  {
    var k := |frames| - 1;
    assert Kept(frames[k], parts[k]);
    FactsConcat(parts[k], parts[k + 1]);
    OkConcat(parts[k], parts[k + 1]);
    assert Kept(frame, parts[k] + parts[k + 1]);
  }

  lemma DroppedBacked(frames: seq<Frame>, parts: seq<seq<Entry>>, frame: Frame)
    requires Backed(frames, parts) && |parts| == |frames| + 1 && frames != [] && AllDoomed(parts[|frames|])
    requires frame.failed == frames[|frames| - 1].failed && frame.writes == frames[|frames| - 1].writes
    ensures var k := |frames| - 1;
      Backed(frames[k := frame], parts[..k] + [parts[k] + parts[k + 1]])
  {
    var k := |frames| - 1;
    assert Kept(frames[k], parts[k]);
    KeptDoomed(frame, parts[k], parts[k + 1]);
  }

  /** The call ends with its savepoint: what remains of the frames, once their facts are settled. */
  lemma EndKeeps(s: State, frame: Frame, count: nat, log: seq<Entry>)
    requires s.frames != [] && Sound(s) && !Between(s.control)
    requires OwnIndex(s.marks).Some? && OwnIndex(s.marks).value <= count <= |s.marks|
    requires |log| == |s.log| && Placed(|log|, OpenMarks(s.marks))
    requires var parts := Parts(log, OpenMarks(s.marks));
      |parts| == |s.frames| + 1
      && Backed(s.frames[|s.frames| - 1 := frame],
                parts[..|s.frames| - 1] + [parts[|s.frames| - 1] + parts[|s.frames|]])
    ensures Sound(WithTop(s, frame).(control := Idle, log := log, marks := Ended(s.marks)[..count]))
  {
    hide Kept, Placed, Parts, Backed, OpenMarks, Nested, Owned, TailKept;
    EndedPrefix(|s.log|, s.marks, count);
    OwnIsThere(s);
    var open := OpenMarks(s.marks);
    OwnedPrefix(s.frames, open);
    OwnedTop(s.frames, open[..|open| - 1], frame);
    PartsRelease(log, open);
  }

  lemma ReleasingKeeps(s: State, ok: bool)
    requires Inv(s) && Enabled(s, StatementDone(ok)) && s.control.Releasing?
    ensures Inv(StatementStep(s, ok))
  {
    hide Kept, Placed, Parts, Stacked, Backed, TailKept, Owned, OpenMarks, Nested;
    EndedStacked(s.frames, Top(s).writes + s.control.carried);
    OwnIsThere(s);
    var open := OpenMarks(s.marks);
    if ok {
      var frame := SavepointEnded(Top(s)).(writes := Top(s).writes + s.control.carried);
      ReleasedBacked(s.frames, Parts(s.log, open), frame, s.control.carried);
      EndKeeps(s, frame, Named(s).value, s.log);
    } else {
      RollingBackTail(Parts(s.log, open)[|s.frames|]);
    }
  }

  lemma RollingBackTail(tail: seq<Entry>)
    ensures TailKept(RollingBack, tail)
    ensures AllDoomed(tail) ==> TailKept(Dropping, tail)
  {
  }

  lemma TruncatedIs(log: seq<Entry>, position: nat)
    ensures position <= |log| ==> Truncated(log, position) == log[..position]
  {
  }

  /** A rollback that hit a savepoint at or above its own: the log agrees up to its own and is doomed above. */
  lemma RolledBack(s: State, after: State)
    requires s.frames != [] && Sound(s) && s.control.RollingBack?
    requires OwnIndex(s.marks).Some? && Named(s).Some?
    requires after == s.(
      log := Doom(Truncated(s.log, s.marks[Named(s).value].position), OwnStart(s)),
      marks := s.marks[..Named(s).value + 1], control := Dropping)
    ensures Sound(after)
  {
    hide Kept, Placed, Parts, Backed, TailKept, Owned, OpenMarks, Nested, Truncated, AllDoomed;
    OwnIsThere(s);
    var own, named := OwnIndex(s.marks).value, Named(s).value;
    var open := OpenMarks(s.marks);
    var position := s.marks[named].position;
    PlacedPrefix(|s.log|, s.marks, named);
    PlacedBelow(s.marks[named].position, s.marks[..named + 1], own);
    assert s.marks[..named + 1][own] == s.marks[own];
    TruncatedIs(s.log, position);
    OpenPrefix(s.marks, named + 1);
    NestedPrefix(s.marks, named + 1);
    DoomedFrom(s.log[..position], OwnStart(s));
    assert after.log[..OwnStart(s)] == s.log[..position][..OwnStart(s)] == s.log[..OwnStart(s)];
    PartsDoomed(s.log, open, after.log);
    var parts := Parts(s.log, open);
    var later := Parts(after.log, open);
    BackedLength(s.frames, parts);
    assert forall d :: 0 <= d < |s.frames| ==> later[d] == later[..|open|][d] == parts[..|open|][d] == parts[d];
    BackedSame(s.frames, s.frames, parts, later);
    RollingBackTail(later[|s.frames|]);
  }

  lemma {:induction false} PlacedBelow(length: nat, marks: seq<Mark>, k: nat)
    requires Placed(length, marks) && k < |marks|
    ensures marks[k].position <= length
    decreases |marks|
  {
    PlacedPrefix(length, marks, k);
  }

  lemma RollingBackKeeps(s: State, ok: bool)
    requires Inv(s) && Enabled(s, StatementDone(ok)) && s.control.RollingBack?
    ensures Inv(StatementStep(s, ok))
  {
    hide Kept, Placed, Parts, Stacked, Backed, TailKept, Owned, OpenMarks, Nested, Truncated, AllDoomed;
    EndedStacked(s.frames, Top(s).writes);
    OwnIsThere(s);
    if ok {
      RolledBack(s, StatementStep(s, ok));
    } else {
      var open := OpenMarks(s.marks);
      var log := Doom(s.log, OwnStart(s));
      DoomedFrom(s.log, OwnStart(s));
      PartsDoomed(s.log, open, log);
      var parts, later := Parts(s.log, open), Parts(log, open);
      assert forall d :: 0 <= d < |s.frames| ==> later[d] == later[..|open|][d] == parts[..|open|][d] == parts[d];
      BackedLength(s.frames, parts);
      BackedSame(s.frames, s.frames, parts, later);
      DroppedBacked(s.frames, later, SavepointEnded(Top(s)));
      EndKeeps(s, SavepointEnded(Top(s)), |s.marks|, log);
      assert Ended(s.marks)[..|s.marks|] == Ended(s.marks);
    }
  }

  lemma BackedLength(frames: seq<Frame>, parts: seq<seq<Entry>>)
    ensures Backed(frames, parts) ==> |frames| <= |parts|
  {
  }

  lemma DroppingKeeps(s: State, ok: bool)
    requires Inv(s) && Enabled(s, StatementDone(ok)) && s.control.Dropping?
    ensures Inv(StatementStep(s, ok))
  {
    hide Kept, Placed, Parts, Stacked, Backed, Owned, OpenMarks, Nested, AllDoomed;
    EndedStacked(s.frames, Top(s).writes);
    OwnIsThere(s);
    var frame := SavepointEnded(Top(s));
    DroppedBacked(s.frames, Parts(s.log, OpenMarks(s.marks)), frame);
    EndKeeps(s, frame, if ok then Named(s).value else |s.marks|, s.log);
    assert Ended(s.marks)[..|s.marks|] == Ended(s.marks);
  }

  lemma StepKeeps(s: State, e: Event)
    requires Inv(s) && Enabled(s, e)
    ensures Inv(Step(s, e))
  {
    hide Inv, Invoked, CallbackStep, SettledStep, StatementStep;
    match e
    case Invoke(d, kind, id) => InvokeKeeps(s, d, kind, id);
    case OperationSettles(d, id, effect) => SettlesKeeps(s, d, id, effect);
    case StreamEnds(d, id, effect) => StreamKeeps(s, d, id, effect);
    case CallbackEnds(d, ok) => CallbackKeeps(s, d, ok);
    case ChildSettled(clean) => ChildKeeps(s, clean);
    case StatementDone(ok) =>
      match s.control
      case Opening => OpeningKeeps(s, ok);
      case Releasing(_) => ReleasingKeeps(s, ok);
      case RollingBack => RollingBackKeeps(s, ok);
      case Dropping => DroppingKeeps(s, ok);
  }

  lemma {:induction false} RunKeeps(s: State, events: seq<Event>)
    requires Inv(s) && Possible(s, events)
    ensures Inv(RunEvents(s, events))
    decreases events
  {
    if events != [] {
      StepKeeps(s, events[0]);
      RunKeeps(Step(s, events[0]), events[1..]);
    }
  }

  // ------------------------------------------------------------- main results

  lemma AlwaysInv(events: seq<Event>)
    requires Possible(Initial(), events)
    ensures Inv(RunEvents(Initial(), events))
  {
    assert Inv(Initial()) by {
      assert Parts([], []) == [[]];
    }
    RunKeeps(Initial(), events);
  }

  /** A lost savepoint of a deeper frame, opened inside the one the statement is about, with the same number. */
  predicate Shadows(s: State, k: nat)
    requires s.frames != [] && k < |s.marks|
  {
    && OwnIndex(s.marks).Some? && OwnIndex(s.marks).value < k
    && !s.marks[k].open && s.marks[k].owner >= |s.frames| && s.marks[k].name == Top(s).counter
  }

  /**
   The release or rollback in flight finds its own savepoint if and only if no lost savepoint of a deeper
   frame that was opened inside it has its number.
   */
  lemma NamesOwnExactly(s: State)
    requires Inv(s) && !Between(s.control)
    ensures OwnIndex(s.marks).Some?
    ensures Named(s) == OwnIndex(s.marks) <==> forall k :: 0 <= k < |s.marks| ==> !Shadows(s, k)
  {
    OwnIsThere(s);
    var own, named := OwnIndex(s.marks).value, Named(s).value;
    hide Sound, Stacked, Nested, OpenMarks;
    if named > own {
      AboveDeeper(s, named);
      assert Shadows(s, named);
    }
  }

  lemma AboveDeeper(s: State, k: nat)
    requires s.frames != [] && Sound(s) && !Between(s.control)
    requires OwnIndex(s.marks).Some? && OwnIndex(s.marks).value < k < |s.marks|
    ensures s.marks[k].owner >= |s.frames|
  {
    AboveIsDeeper(s.marks, k);
  }

  /**
   On every run: `pending` counts what is in flight, an active savepoint is the only pending operation, the
   open savepoints of the session are those of the frames, outermost first, and each release or rollback
   names the one its own call opened, exactly unless a lost deeper savepoint of the same number shadows it.
   */
  lemma SavepointsAreLifo(events: seq<Event>)
    requires Possible(Initial(), events)
    ensures var s := RunEvents(Initial(), events);
      && s.frames != []
      && (forall d :: 0 <= d < |s.frames| ==> s.frames[d].pending == |s.frames[d].operations| + |s.frames[d].iterators|)
      && (forall d :: 0 <= d < |s.frames| && s.frames[d].savepoint.Some? ==>
            s.frames[d].operations == {s.frames[d].savepoint.value} && s.frames[d].iterators == {})
    ensures var s := RunEvents(Initial(), events);
      && |OpenMarks(s.marks)| == |s.frames| - (if Between(s.control) then 1 else 0)
      && forall d :: 0 <= d < |OpenMarks(s.marks)| ==>
           OpenMarks(s.marks)[d].owner == d && OpenMarks(s.marks)[d].name == s.frames[d].counter
    ensures var s := RunEvents(Initial(), events);
      s.frames != [] && !Between(s.control) ==>
        && OwnIndex(s.marks).Some? && s.marks[OwnIndex(s.marks).value].owner == |s.frames| - 1
        && (Named(s) == OwnIndex(s.marks) <==> forall k :: 0 <= k < |s.marks| ==> !Shadows(s, k))
  {
    hide RunEvents, Possible, Parts, Backed, Nested, Placed, OpenMarks, Shadows, TailKept;
    var s := RunEvents(Initial(), events);
    AlwaysInv(events);
    if !Between(s.control) {
      NamesOwnExactly(s);
      OwnIsThere(s);
    }
  }

  /** Everything still in the transaction succeeded, and its facts. */
  predicate AllOk(log: seq<Entry>) {
    forall p :: 0 <= p < |log| ==> log[p].effect.ok
  }

  function FactsIn(log: seq<Entry>): seq<WriteFact> {
    if log == [] then []
    else
      var last := log[|log| - 1];
      FactsIn(log[..|log| - 1]) + if last.effect.ok && last.effect.fact.Some? then [last.effect.fact.value] else []
  }

  /** An effect nobody would miss: it succeeded and has no fact. */
  predicate Harmless(effect: Effect) {
    effect.ok && effect.fact.None?
  }

  lemma {:induction false} FactsCount(log: seq<Entry>)
    requires KeptOk(log)
    ensures |KeptFacts(log)| <= |FactsIn(log)|
    ensures FactsIn(log) == KeptFacts(log) <==>
      forall p :: 0 <= p < |log| && log[p].doomed && log[p].effect.ok ==> log[p].effect.fact.None?
    ensures |FactsIn(log)| == |KeptFacts(log)| ==> FactsIn(log) == KeptFacts(log)
  {
    if log != [] {
      var last := |log| - 1;
      FactsCount(log[..last]);
      hide FactsIn, KeptFacts;
      FactsStep(log);
      assert forall p :: 0 <= p < last ==> log[..last][p] == log[p];
    }
  }

  lemma FactsStep(log: seq<Entry>)
    requires log != []
    ensures var last := log[|log| - 1];
      var more := if last.effect.ok && last.effect.fact.Some? then [last.effect.fact.value] else [];
      && FactsIn(log) == FactsIn(log[..|log| - 1]) + more
      && KeptFacts(log) == KeptFacts(log[..|log| - 1]) + if last.doomed then [] else more
  {
  }

  /**
   `finish` of the command passes, on any run, exactly if nothing is in flight anywhere and of the effects meant to
   stay none failed. The command's log then has exactly their facts. So the transaction is what its callbacks
   kept if and only if no effect that a lost or misdirected rollback left behind failed or has a fact.
   */
  lemma FinishIsClean(events: seq<Event>, ok: bool)
    requires Possible(Initial(), events) && Enabled(RunEvents(Initial(), events), CallbackEnds(0, ok))
    ensures var s := RunEvents(Initial(), events);
      s.frames[0].pending == 0 && !s.frames[0].failed <==>
        && |s.frames| == 1 && s.control.Idle? && s.frames[0].operations == {} && s.frames[0].iterators == {}
        && KeptOk(s.log)
    ensures var s := RunEvents(Initial(), events);
      Finishes(s.frames[0]) ==>
        && s.frames[0].writes == KeptFacts(s.log)
        && (AllOk(s.log) && s.frames[0].writes == FactsIn(s.log) <==>
              forall p :: 0 <= p < |s.log| && s.log[p].doomed ==> Harmless(s.log[p].effect))
  {
    hide RunEvents, Possible, OpenMarks, FactsIn, KeptFacts;
    var s := RunEvents(Initial(), events);
    AlwaysInv(events);
    assert |s.frames| == 1 && s.control.Idle? ==> Parts(s.log, OpenMarks(s.marks))[0] == s.log;
    if Finishes(s.frames[0]) {
      assert |s.frames[0].operations| == 0 && |s.frames[0].iterators| == 0;
      assert Parts(s.log, OpenMarks(s.marks))[0] == s.log;
      FactsCount(s.log);
    }
  }

  /** Effects are doomed only by a rollback that fails, or that a lost savepoint shadows. */
  lemma DoomedByRollback(s: State, e: Event, p: nat)
    requires Inv(s) && Enabled(s, e)
    requires p < |Step(s, e).log| && Step(s, e).log[p].doomed && !(p < |s.log| && s.log[p].doomed)
    ensures s.control.RollingBack? && e.StatementDone?
    ensures e.ok ==> exists k :: 0 <= k < |s.marks| && Shadows(s, k)
  {
    hide Inv, OwnStart;
    if s.control.RollingBack? && e == StatementDone(true) && forall k :: 0 <= k < |s.marks| ==> !Shadows(s, k) {
      RollbackCuts(s);
    }
  }

  /** No rollback, nor the release after one, has failed so far. */
  ghost predicate Reliable(s: State, events: seq<Event>)
    requires Possible(s, events)
    decreases events
  {
    events == []
    || (!(events[0] == StatementDone(false) && (s.control.RollingBack? || s.control.Dropping?))
        && Reliable(Step(s, events[0]), events[1..]))
  }

  /** Nothing is lost: every savepoint is open and no effect is doomed. */
  predicate Spotless(s: State) {
    && (forall k :: 0 <= k < |s.marks| ==> s.marks[k].open)
    && forall p :: 0 <= p < |s.log| ==> !s.log[p].doomed
  }

  lemma SpotlessStep(s: State, e: Event)
    requires Inv(s) && Spotless(s) && Enabled(s, e)
    requires !(e == StatementDone(false) && (s.control.RollingBack? || s.control.Dropping?))
    ensures Spotless(Step(s, e))
  {
    hide Inv;
    if e.StatementDone? && !Between(s.control) {
      SpotlessStatement(s, e.ok);
    }
  }

  lemma SpotlessStatement(s: State, ok: bool)
    requires Inv(s) && Spotless(s) && Enabled(s, StatementDone(ok)) && !Between(s.control)
    requires ok || s.control.Releasing?
    ensures Spotless(StatementStep(s, ok))
  {
    OwnIsThere(s);
    hide Sound, Stacked, Inv;
    assert OwnIndex(s.marks).value == |s.marks| - 1;
    if s.control.RollingBack? {
      assert forall k :: 0 <= k < |s.marks| ==> !Shadows(s, k);
      RollbackCuts(s);
    }
  }

  lemma {:induction false} SpotlessRun(s: State, events: seq<Event>)
    requires Inv(s) && Spotless(s) && Possible(s, events) && Reliable(s, events)
    ensures Spotless(RunEvents(s, events))
    decreases events
  {
    hide Inv, Spotless, Step;
    if events != [] {
      SpotlessStep(s, events[0]);
      StepKeeps(s, events[0]);
      SpotlessRun(Step(s, events[0]), events[1..]);
    }
  }

  /** While rollbacks succeed nothing is lost: no statement is shadowed, and a passed finish is clean. */
  lemma ReliableIsClean(events: seq<Event>)
    requires Possible(Initial(), events) && Reliable(Initial(), events)
    ensures var s := RunEvents(Initial(), events);
      && s.frames != [] && (forall k :: 0 <= k < |s.marks| ==> !Shadows(s, k))
      && (Finishes(s.frames[0]) && s.frames[0].phase.Running? ==> AllOk(s.log) && s.frames[0].writes == FactsIn(s.log))
  {
    AlwaysInv(events);
    AlwaysInv([]);
    hide Inv, Possible, Reliable, RunEvents, FactsIn;
    SpotlessRun(Initial(), events);
    var s := RunEvents(Initial(), events);
    HasFrames(s);
    if Finishes(s.frames[0]) && s.frames[0].phase.Running? {
      FinishIsClean(events, true);
    }
  }

  lemma HasFrames(s: State)
    ensures Inv(s) ==> s.frames != []
  {
  }

  /** Between a passed `finish` and the drain nothing can happen: no event changes anything. */
  lemma NothingAfterFinish(s: State, e: Event)
    requires Inv(s) && Enabled(s, e) && s.frames[0].phase == Settling(true)
    ensures Step(s, e) == s
  {
    hide Sound;
    assert |s.frames[0].operations| == 0 && |s.frames[0].iterators| == 0;
    assert |s.frames| == 1;
  }

  // ----------------------------------------------------------- the guard itself

  /** The guard of a command and of every savepoint inside it, one method per thing that can happen. */
  class GuardedTransaction {
    var frames: seq<Frame>
    var control: Control
    var log: seq<Entry>
    var marks: seq<Mark>

    function Current(): State
      reads this
    {
      State(frames, control, log, marks)
    }

    ghost predicate Valid()
      reads this
    {
      Inv(Current())
    }

    constructor ()
      ensures Valid() && Current() == Initial()
    {
      frames, control, log, marks := [NewFrame()], Idle, [], [];
      new;
      AlwaysInv([]);
    }

    /** A call on the public object at some depth. */
    method Call(d: nat, kind: Kind, id: nat) returns (refusal: Option<Refusal>)
      requires Valid() && Enabled(Current(), Invoke(d, kind, id))
      modifies this
      ensures Valid() && Current() == Step(old(Current()), Invoke(d, kind, id))
      ensures refusal.Some? ==> Current() == old(Current())
      ensures refusal.None? <==> old(frames[d].open && frames[d].savepoint.None?) && (kind.Savepoint? ==> old(frames[d].pending) == 0)
    {
      hide Inv;
      StepKeeps(Current(), Invoke(d, kind, id));
      var frame := frames[d];
      if !frame.open {
        return Some(WriteContextClosed);
      }
      if frame.savepoint.Some? || (kind.Savepoint? && frame.pending != 0) {
        return Some(OverlappingSavepoint);
      }
      match kind {
        case Synchronous(effect) =>
          log := log + [Entry(effect, false)];
          frame := Recorded(frame, effect);
        case Savepoint =>
          control := Opening;
          frame := frame.(pending := frame.pending + 1, savepoint := Some(id), counter := frame.counter + 1,
            operations := frame.operations + {id});
        case Operation =>
          frame := frame.(pending := frame.pending + 1, operations := frame.operations + {id});
        case Stream =>
          frame := frame.(pending := frame.pending + 1, iterators := frame.iterators + {id});
      }
      frames := frames[d := frame];
      return None;
    }

    /** An operation's promise settles, or a stream ends. */
    method Settled(d: nat, id: nat, stream: bool, effect: Effect)
      requires Valid()
      requires Enabled(Current(), if stream then StreamEnds(d, id, effect) else OperationSettles(d, id, effect))
      modifies this
      ensures Valid()
      ensures Current() == Step(old(Current()), if stream then StreamEnds(d, id, effect) else OperationSettles(d, id, effect))
    {
      hide Inv;
      StepKeeps(Current(), if stream then StreamEnds(d, id, effect) else OperationSettles(d, id, effect));
      var frame := Recorded(frames[d], effect);
      frame := frame.(pending := frame.pending - 1);
      if stream {
        frame := frame.(iterators := frame.iterators - {id});
      } else {
        frame := frame.(operations := frame.operations - {id});
      }
      frames := frames[d := frame];
      log := log + [Entry(effect, false)];
    }

    /** The callback at some depth returns or throws: `finish`, then `close` down to the innermost child. */
    method CallbackDone(d: nat, ok: bool) returns (passed: bool)
      requires Valid() && Enabled(Current(), CallbackEnds(d, ok))
      modifies this
      ensures Valid() && Current() == Step(old(Current()), CallbackEnds(d, ok))
      ensures passed <==> ok && old(frames[d].pending == 0 && !frames[d].failed)
      ensures forall k :: d <= k < |frames| ==> !frames[k].open
    {
      hide Inv;
      StepKeeps(Current(), CallbackEnds(d, ok));
      passed := ok && frames[d].pending == 0 && !frames[d].failed;
      ghost var start, before := Current(), frames;
      for k := d to |frames|
        invariant |frames| == |before| && Current() == start.(frames := frames)
        invariant forall i :: 0 <= i < |frames| ==> frames[i] == if d <= i < k then before[i].(open := false) else before[i]
      {
        frames := frames[k := frames[k].(open := false)];
      }
      frames := frames[d := frames[d].(phase := Settling(passed))];
      assert frames == CallbackStep(start, d, ok).frames;
    }

    /** The innermost savepoint's callback has settled: release what passed, roll back the rest. */
    method ChildDone(clean: bool)
      requires Valid() && Enabled(Current(), ChildSettled(clean))
      modifies this
      ensures Valid() && Current() == Step(old(Current()), ChildSettled(clean))
    {
      hide Inv;
      StepKeeps(Current(), ChildSettled(clean));
      var child := frames[|frames| - 1];
      frames := frames[..|frames| - 1];
      control := if child.phase.passed && clean then Releasing(child.writes) else RollingBack;
    }

    /** The savepoint statement in flight succeeds or fails. */
    method StatementReturns(ok: bool)
      requires Valid() && Enabled(Current(), StatementDone(ok))
      modifies this
      ensures Valid() && Current() == Step(old(Current()), StatementDone(ok))
      ensures old(control.RollingBack?) && ok && old(forall k :: 0 <= k < |marks| ==> !Shadows(Current(), k)) ==>
        old(OwnStart(Current())) <= |old(log)| && log == old(log)[..old(OwnStart(Current()))]
    {
      hide Stacked, Sound;
      StepKeeps(Current(), StatementDone(ok));
      if control.RollingBack? && ok && forall k :: 0 <= k < |marks| ==> !Shadows(Current(), k) {
        RollbackCuts(Current());
      }
      var last := |frames| - 1;
      var top := frames[last];
      var target := Innermost(marks, top.counter);
      match control {
        case Opening =>
          if ok {
            frames, marks := frames + [NewFrame()], marks + [Mark(last, top.counter, |log|, true)];
          } else {
            frames := frames[last := SavepointEnded(top)];
          }
          control := Idle;
        case Releasing(carried) =>
          if ok {
            marks := Ended(marks)[..target.value];
            frames := frames[last := SavepointEnded(top).(writes := top.writes + carried)];
            control := Idle;
          } else {
            control := RollingBack;
          }
        case RollingBack =>
          if ok {
            log := Doom(Truncated(log, marks[target.value].position), OwnStart(Current()));
            marks := marks[..target.value + 1];
            control := Dropping;
          } else {
            log := Doom(log, OwnStart(Current()));
            marks := Ended(marks);
            frames, control := frames[last := SavepointEnded(top)], Idle;
          }
        case Dropping =>
          marks := if ok then Ended(marks)[..target.value] else Ended(marks);
          frames, control := frames[last := SavepointEnded(top)], Idle;
      }
    }
  }

  /** An unshadowed rollback cuts the transaction exactly where its own savepoint was opened. */
  lemma RollbackCuts(s: State)
    requires Inv(s) && s.control.RollingBack? && Enabled(s, StatementDone(true))
    requires forall k :: 0 <= k < |s.marks| ==> !Shadows(s, k)
    ensures OwnStart(s) <= |s.log| && StatementStep(s, true).log == s.log[..OwnStart(s)]
  {
    NamesOwnExactly(s);
    OwnIsThere(s);
    hide Sound, Stacked;
  }

  /** An operation inside a savepoint reports what it wrote; the callback then opens another savepoint. */
  method WritesInside(fact: WriteFact) returns (guard: GuardedTransaction)
    ensures fresh(guard) && guard.Valid()
    ensures guard.Current() == State(
      [Frame(true, 1, Some(0), false, {0}, {}, 1, [], Running), Frame(true, 1, Some(2), false, {2}, {}, 1, [fact], Running), NewFrame()],
      Idle, [Entry(Effect(true, Some(fact)), false)], [Mark(0, 1, 0, true), Mark(1, 1, 1, true)])
  {
    hide Inv;
    ghost var root := Frame(true, 1, Some(0), false, {0}, {}, 1, [], Running);
    var none: set<nat> := {};
    assert none + {0} == {0} && none + {1} - {1} == none && none + {2} == {2};
    guard := new GuardedTransaction();
    var refused := guard.Call(0, Savepoint, 0);
    guard.StatementReturns(true);
    assert guard.Current() == State([root, NewFrame()], Idle, [], [Mark(0, 1, 0, true)]);
    refused := guard.Call(1, Operation, 1);
    guard.Settled(1, 1, false, Effect(true, Some(fact)));
    assert guard.frames[1] == Frame(true, 0, None, false, {}, {}, 0, [fact], Running);
    refused := guard.Call(1, Savepoint, 2);
    guard.StatementReturns(true);
  }

  /** Rolling that back fails, and the outer callback gives up as well. */
  method InnerRollbackFails(guard: GuardedTransaction, fact: WriteFact)
    requires guard.Valid() && guard.Current() == State(
      [Frame(true, 1, Some(0), false, {0}, {}, 1, [], Running), Frame(true, 1, Some(2), false, {2}, {}, 1, [fact], Running), NewFrame()],
      Idle, [Entry(Effect(true, Some(fact)), false)], [Mark(0, 1, 0, true), Mark(1, 1, 1, true)])
    modifies guard
    ensures guard.Valid() && guard.Current() == State(
      [Frame(true, 1, Some(0), false, {0}, {}, 1, [], Running)],
      RollingBack, [Entry(Effect(true, Some(fact)), false)], [Mark(0, 1, 0, true), Mark(1, 1, 1, false)])
  {
    hide Inv;
    ghost var log, lost := guard.log, [Mark(0, 1, 0, true), Mark(1, 1, 1, false)];
    ghost var root := guard.frames[0];
    var one: set<nat> := {2};
    assert one - {2} == {};
    var passed := guard.CallbackDone(2, false);
    guard.ChildDone(true);
    assert OwnIndex(guard.marks) == Some(1) && Ended(guard.marks) == lost && Doom(log, 1) == log;
    guard.StatementReturns(false);
    assert guard.Current() == State([root, Frame(true, 0, None, false, {}, {}, 1, [fact], Running)], Idle, log, lost);
    passed := guard.CallbackDone(1, false);
    guard.ChildDone(true);
  }

  /**
   Shadowing happens. A rollback fails and the session nevertheless goes on; its savepoint is left behind with
   the number the enclosing rollback uses, which undoes too little. `finish` of the command passes with the row
   that was to be undone in the transaction, and the command reports no fact of it.
   */
  method LostRollbackMisdirects(fact: WriteFact)
    returns (passed: bool, log: seq<Entry>, reported: seq<WriteFact>)
    ensures passed && reported == [] && log == [Entry(Effect(true, Some(fact)), true)]
  {
    hide Inv;
    var guard := WritesInside(fact);
    InnerRollbackFails(guard, fact);
    ghost var doomed := [Entry(Effect(true, Some(fact)), true)];
    var one: set<nat> := {0};
    assert one - {0} == {};
    assert OwnIndex(guard.marks) == Some(0) && Innermost(guard.marks, 1) == Some(1);
    assert Truncated(guard.log, 1) == guard.log && Doom(guard.log, 0) == doomed;
    guard.StatementReturns(true);
    guard.StatementReturns(true);
    assert guard.frames == [Frame(true, 0, None, false, {}, {}, 1, [], Running)] && guard.log == doomed;
    passed := guard.CallbackDone(0, true);
    log, reported := guard.log, guard.frames[0].writes;
  }
}
