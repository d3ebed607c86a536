/** The counter of shard moves, which is read and written back without a common lock: how far it drifts from the
    moves it counts, and when moves and offloading exclude each other. */
module OffloadMoves {
  import opened Records
  import opened Offload
  import opened OffloadSafety

  /** The thread's move is in the counter. */
  predicate Counted(pc: Pc) {
    pc.Moving? || pc.MoveEnding?
  }

  /** The thread has read the counter and not yet written it back. */
  predicate Between(pc: Pc) {
    pc.MoveStarting? || pc.MoveEnding?
  }

  /** The shard move a thread is engaged in, if any. */
  function MovePart(pc: Pc): Pc {
    if pc.MoveStarting? || pc.Moving? || pc.MoveEnding? then pc else Idle
  }

  ghost function Movers(threads: map<Tid, Pc>): set<Tid> {
    set t | t in threads && Counted(threads[t])
  }

  lemma {:induction false} MoversUpdate(threads: map<Tid, Pc>, t: Tid, pc: Pc)
    ensures
      var was := t in threads && Counted(threads[t]);
      |Movers(threads[t := pc])| == |Movers(threads)| + (if Counted(pc) then 1 else 0) - if was then 1 else 0
  {
    var others := Movers(threads) - {t};
    assert Movers(threads[t := pc]) == if Counted(pc) then others + {t} else others;
    assert Movers(threads) == if t in threads && Counted(threads[t]) then others + {t} else others;
  }

  /** How far the counter is from the number of moves it ought to count. */
  ghost function Drift(s: State): int {
    if s.pt.None? then 0 else s.pt.value.doingShardMoveN - |Movers(s.threads)|
  }

  // ----- steps that are not of a shard move

  ghost predicate SameMoves(s: State, s': State) {
    forall t :: MovePart(At(s', t)) == MovePart(At(s, t))
  }

  predicate OfMoves(a: Action) {
    a.MoveStart? || a.MoveCount? || a.MoveEnd? || a.MoveUncount?
  }

  ghost predicate Calm(s: State, s': State) {
    && SameMoves(s, s')
    && (s.pt.Some? && s'.pt.Some? ==>
          && s'.pt.value.doingShardMoveN == s.pt.value.doingShardMoveN
          && (s'.pt.value.doingOff ==> s.pt.value.doingOff))
  }

  /** Steps of the other requests. */
  predicate OfRequests(a: Action) {
    a.Ref? || a.DeleteStart? || a.DeleteEnd? || a.Unref? || a.Notify?
  }

  lemma {:induction false} RequestIsCalm(s: State, t: Tid, a: Action)
    requires Do(s, t, a).Some? && OfRequests(a)
    ensures Calm(s, Do(s, t, a).value)
  {
  }

  lemma {:induction false} GetIsCalm(s: State, t: Tid, made: Partition, loads: bool)
    requires DoGetPartition(s, t, made, loads).Some?
    ensures Calm(s, DoGetPartition(s, t, made, loads).value)
  {
    var s' := DoGetPartition(s, t, made, loads).value;
    var pc := s'.threads[t];
    assert s'.threads == s.threads[t := pc] && MovePart(pc).Idle?;
  }

  /** Steps that lock, add, mark or unmark the partition. */
  predicate OfSetup(a: Action) {
    a.TryLock? || a.Create? || a.MarkOffload? || a.UnMarkOffload?
  }

  lemma {:induction false} SetupIsCalm(s: State, t: Tid, a: Action)
    requires Do(s, t, a).Some? && OfSetup(a)
    ensures Calm(s, Do(s, t, a).value)
  {
  }

  lemma {:induction false} MigrationIsCalm(s: State, t: Tid, a: Action)
    requires Do(s, t, a).Some? && !OfMoves(a) && !OfRequests(a) && !OfSetup(a) && !a.GetPartition? && !a.PreCheck?
    ensures Calm(s, Do(s, t, a).value)
  {
  }

  lemma {:induction false} OtherStep(s: State, t: Tid, a: Action)
    requires Do(s, t, a).Some? && !OfMoves(a) && !a.PreCheck?
    ensures Calm(s, Do(s, t, a).value)
  {
    if OfRequests(a) {
      RequestIsCalm(s, t, a);
    } else if a.GetPartition? {
      GetIsCalm(s, t, a.made, a.loads);
    } else if OfSetup(a) {
      SetupIsCalm(s, t, a);
    } else {
      MigrationIsCalm(s, t, a);
    }
  }

  lemma {:induction false} SameMovers(s: State, s': State)
    requires SameMoves(s, s')
    ensures Movers(s'.threads) == Movers(s.threads)
  {
    forall t
      ensures t in Movers(s'.threads) <==> t in Movers(s.threads)
    {
      assert MovePart(At(s', t)) == MovePart(At(s, t));
    }
  }

  /** Nobody moves a shard of a partition that is not there, or that has no references. */
  lemma {:induction false} NoReferenceNoMove(s: State)
    requires Inv(s) && (s.pt.None? || s.pt.value.exeCount == 0)
    ensures Movers(s.threads) == {} && forall t :: MovePart(At(s, t)).Idle?
  {
    assert Refs(s.threads) == {};
    forall t
      ensures MovePart(At(s, t)).Idle?
    {
      assert t !in Refs(s.threads);
    }
  }

  // ----- drift

  /** The step writes the counter back. */
  predicate Writes(s: State, t: Tid, a: Action) {
    && s.pt.Some?
    && ((a.MoveCount? && At(s, t).MoveStarting?) || (a.MoveUncount? && At(s, t).MoveEnding?))
  }

  /** What a step does to the drift: a write-back undoes whatever happened to the counter since it was read. */
  ghost function Undone(s: State, t: Tid, a: Action): int {
    if Writes(s, t, a) then At(s, t).read - s.pt.value.doingShardMoveN else 0
  }

  lemma {:induction false} MoveDrifts(s: State, t: Tid, a: Action)
    requires Do(s, t, a).Some? && OfMoves(a)
    ensures Drift(Do(s, t, a).value) == Drift(s) + Undone(s, t, a)
  {
    MoversUpdate(s.threads, t, Do(s, t, a).value.threads[t]);
  }

  lemma {:induction false} OthersDoNotDrift(s: State, t: Tid, a: Action)
    requires Inv(s) && Do(s, t, a).Some? && !OfMoves(a) && SameMoves(s, Do(s, t, a).value)
    requires s.pt.Some? && Do(s, t, a).value.pt.Some? ==>
               Do(s, t, a).value.pt.value.doingShardMoveN == s.pt.value.doingShardMoveN
    ensures Drift(Do(s, t, a).value) == if a.Drop? then 0 else Drift(s)
  {
    SameMovers(s, Do(s, t, a).value);
    if s.pt.None? {
      NoReferenceNoMove(s);
    }
  }

  /** One step of any thread: the drift changes by what a write-back undoes, and is gone with the partition. */
  lemma {:induction false} DriftStep(s: State, t: Tid, a: Action)
    requires Inv(s) && Do(s, t, a).Some?
    ensures Drift(Do(s, t, a).value) == if a.Drop? then 0 else Drift(s) + Undone(s, t, a)
  {
    if OfMoves(a) {
      MoveDrifts(s, t, a);
    } else {
      if a.PreCheck? {
        CheckIsCalm(s, t);
      } else {
        OtherStep(s, t, a);
      }
      OthersDoNotDrift(s, t, a);
    }
  }

  lemma {:induction false} CheckIsCalm(s: State, t: Tid)
    requires Do(s, t, PreCheck).Some?
    ensures
      var s' := Do(s, t, PreCheck).value;
      && SameMoves(s, s') && s.pt.Some? && s'.pt.Some?
      && s'.pt.value.doingShardMoveN == s.pt.value.doingShardMoveN
      && s'.pt.value.doingOff == (s.pt.value.doingOff || s.pt.value.doingShardMoveN <= 0)
  {
  }

  /** What all write-backs of a schedule undo, since the partition was last dropped. */
  ghost function Lost(s: State, events: seq<Event>): int {
    if events == [] then 0
    else
      var init, last := events[..|events| - 1], events[|events| - 1];
      var before := Run(s, init);
      if Do(before, last.t, last.a).None? then Lost(s, init)
      else if last.a.Drop? then 0
      else Lost(s, init) + Undone(before, last.t, last.a)
  }

  /** In every schedule the counter is off by exactly what the write-backs have undone. */
  lemma {:induction false} RunDrifts(s: State, events: seq<Event>)
    requires Initially(s)
    ensures Drift(Run(s, events)) == Lost(s, events)
  {
    if events == [] {
      assert Movers(s.threads) == {};
    } else {
      var init, last := events[..|events| - 1], events[|events| - 1];
      RunDrifts(s, init);
      EveryRunIsSafe(s, init);
      if Do(Run(s, init), last.t, last.a).Some? {
        DriftStep(Run(s, init), last.t, last.a);
      }
    }
  }

  // ----- when the counter is exact

  /** The counter is exact in every state of a run. */
  ghost predicate ExactThroughout(s: State, events: seq<Event>) {
    Drift(Run(s, events)) == 0 && (events != [] ==> ExactThroughout(s, events[..|events| - 1]))
  }

  /** Whoever writes the counter back finds it as it was when it was read. */
  ghost predicate CurrentThroughout(s: State, events: seq<Event>) {
    events != [] ==>
      var init, last := events[..|events| - 1], events[|events| - 1];
      CurrentThroughout(s, init) && Undone(Run(s, init), last.t, last.a) == 0
  }

  lemma {:induction false} ExactIffCurrent(s: State, events: seq<Event>)
    requires Initially(s)
    ensures ExactThroughout(s, events) <==> CurrentThroughout(s, events)
  {
    RunDrifts(s, events);
    if events != [] {
      var init, last := events[..|events| - 1], events[|events| - 1];
      var before := Run(s, init);
      ExactIffCurrent(s, init);
      RunDrifts(s, init);
      WriteHappens(before, last.t, last.a);
    }
  }

  /** A thread that stands between its read and its write can always write. */
  lemma {:induction false} WriteHappens(s: State, t: Tid, a: Action)
    ensures Writes(s, t, a) ==> Do(s, t, a).Some?
  {
  }

  /** Nobody else stands between reading and writing. */
  ghost predicate Alone(s: State, t: Tid) {
    forall u :: u in s.threads && u != t ==> !Between(s.threads[u])
  }

  /** No update of the counter separates the read of another thread from its write. */
  ghost predicate UndisturbedThroughout(s: State, events: seq<Event>) {
    events != [] ==>
      var init, last := events[..|events| - 1], events[|events| - 1];
      && UndisturbedThroughout(s, init)
      && (Writes(Run(s, init), last.t, last.a) ==> Alone(Run(s, init), last.t))
  }

  ghost predicate ReadsCurrent(s: State) {
    forall t :: t in s.threads && Between(s.threads[t]) ==>
      s.pt.Some? && s.threads[t].read == s.pt.value.doingShardMoveN
  }

  lemma {:induction false} KeepsCurrent(s: State, t: Tid, a: Action)
    requires Inv(s) && ReadsCurrent(s) && Do(s, t, a).Some? && (Writes(s, t, a) ==> Alone(s, t))
    ensures ReadsCurrent(Do(s, t, a).value)
  {
    var s' := Do(s, t, a).value;
    if !OfMoves(a) {
      OthersKeepCurrent(s, t, a);
    }
  }

  lemma {:induction false} OthersKeepCurrent(s: State, t: Tid, a: Action)
    requires Inv(s) && ReadsCurrent(s) && Do(s, t, a).Some? && !OfMoves(a)
    ensures ReadsCurrent(Do(s, t, a).value)
  {
    var s' := Do(s, t, a).value;
    if a.PreCheck? {
      CheckIsCalm(s, t);
    } else {
      OtherStep(s, t, a);
    }
    KeepsInv(s, t, a);
    if s'.pt.None? {
      NoReferenceNoMove(s');
    } else if s.pt.None? {
      NoReferenceNoMove(s);
    }
    forall u | u in s'.threads && Between(s'.threads[u])
      ensures s'.pt.Some? && s'.threads[u].read == s'.pt.value.doingShardMoveN
    {
      assert MovePart(At(s', u)) == MovePart(At(s, u));
    }
  }

  lemma {:induction false} UndisturbedIsCurrent(s: State, events: seq<Event>)
    requires Initially(s) && UndisturbedThroughout(s, events)
    ensures CurrentThroughout(s, events) && ReadsCurrent(Run(s, events))
  {
    if events != [] {
      var init, last := events[..|events| - 1], events[|events| - 1];
      UndisturbedIsCurrent(s, init);
      EveryRunIsSafe(s, init);
      if Do(Run(s, init), last.t, last.a).Some? {
        KeepsCurrent(Run(s, init), last.t, last.a);
      }
    }
  }

  // ----- when moves exclude offloading

  ghost predicate Moves(s: State) {
    exists t :: t in s.threads && s.threads[t].Moving?
  }

  /** No shard of a partition that is to be offloaded is being moved, or about to be. */
  ghost predicate Exclusive(s: State) {
    s.pt.Some? && s.pt.value.doingOff ==> !Moves(s) && !WriteLocked(s)
  }

  /** The check for moves goes through although a shard is being moved. */
  ghost predicate Blind(s: State, t: Tid, a: Action) {
    a.PreCheck? && Do(s, t, a).Some? && s.pt.Some? && s.pt.value.doingShardMoveN <= 0 && Moves(s)
  }

  lemma {:induction false} MovesSame(s: State, s': State)
    requires SameMoves(s, s')
    ensures Moves(s') <==> Moves(s)
    ensures WriteLocked(s') <==> WriteLocked(s)
  {
    forall t
      ensures t in s'.threads && s'.threads[t].Moving? <==> t in s.threads && s.threads[t].Moving?
      ensures t in s'.threads && s'.threads[t].MoveStarting? <==> t in s.threads && s.threads[t].MoveStarting?
    {
      assert MovePart(At(s', t)) == MovePart(At(s, t));
    }
  }

  /** Only a blind check ends exclusion. */
  lemma {:induction false} ExclusionStep(s: State, t: Tid, a: Action)
    requires Inv(s) && Exclusive(s) && Do(s, t, a).Some?
    ensures Exclusive(Do(s, t, a).value) <==> !Blind(s, t, a)
  {
    var s' := Do(s, t, a).value;
    if OfMoves(a) {
      MoveKeepsExclusion(s, t, a);
    } else if a.PreCheck? {
      CheckIsCalm(s, t);
      MovesSame(s, s');
    } else {
      OtherStep(s, t, a);
      MovesSame(s, s');
      if s.pt.None? {
        NoReferenceNoMove(s);
        NobodyMoves(s);
      }
    }
  }

  lemma {:induction false} NobodyMoves(s: State)
    requires forall t :: MovePart(At(s, t)).Idle?
    ensures !Moves(s) && !WriteLocked(s)
  {
    forall t | t in s.threads
      ensures !s.threads[t].Moving? && !s.threads[t].MoveStarting?
    {
      assert MovePart(At(s, t)).Idle?;
    }
  }

  lemma {:induction false} MoveKeepsExclusion(s: State, t: Tid, a: Action)
    requires Exclusive(s) && Do(s, t, a).Some? && OfMoves(a)
    ensures Exclusive(Do(s, t, a).value)
  {
    var s' := Do(s, t, a).value;
    if s.pt.value.doingOff {
      assert t in s.threads && !s.threads[t].MoveStarting? && !s.threads[t].Moving?;
      forall u | u in s'.threads
        ensures !s'.threads[u].Moving? && !s'.threads[u].MoveStarting?
      {
        if u != t {
          assert s'.threads[u] == s.threads[u];
        }
      }
    }
  }

  ghost predicate ExclusiveThroughout(s: State, events: seq<Event>) {
    Exclusive(Run(s, events)) && (events != [] ==> ExclusiveThroughout(s, events[..|events| - 1]))
  }

  ghost predicate NeverBlind(s: State, events: seq<Event>) {
    events != [] ==>
      var init, last := events[..|events| - 1], events[|events| - 1];
      NeverBlind(s, init) && !Blind(Run(s, init), last.t, last.a)
  }

  /** In every schedule moves exclude offloading if and only if no check goes through beside a move. */
  lemma {:induction false} ExclusionIff(s: State, events: seq<Event>)
    requires Initially(s)
    ensures ExclusiveThroughout(s, events) <==> NeverBlind(s, events)
  {
    if events != [] {
      var init, last := events[..|events| - 1], events[|events| - 1];
      ExclusionIff(s, init);
      EveryRunIsSafe(s, init);
      if Exclusive(Run(s, init)) && Do(Run(s, init), last.t, last.a).Some? {
        ExclusionStep(Run(s, init), last.t, last.a);
      }
      assert ExclusiveThroughout(s, init) ==> Exclusive(Run(s, init));
    }
  }

  /** An exact counter sees every move. */
  lemma {:induction false} ExactSees(s: State, t: Tid, a: Action)
    requires Drift(s) >= 0
    ensures !Blind(s, t, a)
  {
    if s.pt.Some? && Moves(s) {
      var u :| u in s.threads && s.threads[u].Moving?;
      assert u in Movers(s.threads);
      assert Movers(s.threads) != {};
    }
  }

  ghost predicate NeverLow(s: State, events: seq<Event>) {
    Lost(s, events) >= 0 && (events != [] ==> NeverLow(s, events[..|events| - 1]))
  }

  /** Moves exclude offloading in every schedule in which the write-backs never undo more increments than
      decrements. */
  lemma {:induction false} ExclusionUnlessLow(s: State, events: seq<Event>)
    requires Initially(s) && NeverLow(s, events)
    ensures NeverBlind(s, events) && ExclusiveThroughout(s, events)
  {
    if events != [] {
      var init, last := events[..|events| - 1], events[|events| - 1];
      ExclusionUnlessLow(s, init);
      RunDrifts(s, init);
      ExactSees(Run(s, init), last.t, last.a);
    }
    ExclusionIff(s, events);
  }

  lemma {:induction false} ExactIsNotLow(s: State, events: seq<Event>)
    requires Initially(s) && ExactThroughout(s, events)
    ensures NeverLow(s, events)
  {
    RunDrifts(s, events);
    if events != [] {
      ExactIsNotLow(s, events[..|events| - 1]);
    }
  }

  /** In every schedule in which no other update of the counter separates a read from its write, the counter is
      exact and moves exclude offloading, in every state. */
  lemma {:induction false} UndisturbedRunsExclude(s: State, events: seq<Event>)
    requires Initially(s) && UndisturbedThroughout(s, events)
    ensures ExactThroughout(s, events) && ExclusiveThroughout(s, events)
  {
    UndisturbedIsCurrent(s, events);
    ExactIffCurrent(s, events);
    ExactIsNotLow(s, events);
    ExclusionUnlessLow(s, events);
  }

  // ----- two schedules that go wrong

  lemma {:induction false} RunOn(s: State, a: seq<Event>, b: seq<Event>)
    ensures Run(s, a + b) == Run(Run(s, a), b)
  {
    if b == [] {
      assert a + b == a;
    } else {
      var n := |b| - 1;
      assert (a + b)[..|a + b| - 1] == a + b[..n];
      RunOn(s, a, b[..n]);
    }
  }

  lemma {:induction false} OneEvent(s: State, t: Tid, a: Action)
    ensures Run(s, [Event(t, a)]) == Next(s, Event(t, a))
  {
    assert [Event(t, a)][..0] == [];
  }

  /** A partition without locks, told that thread `t` is at `pc`. */
  lemma {:induction false} StaysUnlocked(s: State, t: Tid, pc: Pc, s': State)
    requires Unlocked(s) && s'.threads == s.threads[t := pc] && !pc.Notifying? && !pc.MoveStarting?
    ensures Unlocked(s')
  {
  }

  ghost function Counting(p: Partition, refs: int, n: int): Partition {
    p.(exeCount := refs, doingShardMoveN := n)
  }

  /** A request takes its reference and starts its move. */
  lemma {:induction false} MoveBegins(s: State, t: Tid)
    requires Unlocked(s) && s.pt.Some? && At(s, t).Idle?
    requires !s.pt.value.offloading && !s.pt.value.preload && !s.pt.value.doingOff
    ensures
      var p := s.pt.value;
      var s' := GoWith(s, t, Moving, Counting(p, p.exeCount + 1, p.doingShardMoveN + 1));
      Unlocked(s') && Run(s, Begin(t)) == s'
  {
    var p := s.pt.value;
    var held := GoWith(s, t, MovePlanned, p.(exeCount := p.exeCount + 1));
    var read := GoWith(s, t, MoveStarting(p.doingShardMoveN), p.(exeCount := p.exeCount + 1));
    var s' := GoWith(s, t, Moving, Counting(p, p.exeCount + 1, p.doingShardMoveN + 1));
    StaysUnlocked(s, t, MovePlanned, held);
    StaysUnlocked(s, t, Moving, s');
    MoveReads(s, t, p.(exeCount := p.exeCount + 1));
    RunThree(s, Event(t, Ref(MovePlanned)), Event(t, MoveStart), Event(t, MoveCount), held, read, s');
  }

  lemma {:induction false} MoveReads(s: State, t: Tid, p: Partition)
    requires Unlocked(GoWith(s, t, MovePlanned, p)) && !p.doingOff
    ensures
      var read := GoWith(s, t, MoveStarting(p.doingShardMoveN), p);
      && Next(GoWith(s, t, MovePlanned, p), Event(t, MoveStart)) == read
      && Next(read, Event(t, MoveCount)) == GoWith(s, t, Moving, p.(doingShardMoveN := p.doingShardMoveN + 1))
  {
    assert s.threads[t := MovePlanned][t := MoveStarting(p.doingShardMoveN)]
        == s.threads[t := MoveStarting(p.doingShardMoveN)];
    assert s.threads[t := MoveStarting(p.doingShardMoveN)][t := Moving] == s.threads[t := Moving];
  }

  lemma {:induction false} RunThree(
    s: State, e: Event, f: Event, g: Event, s1: State, s2: State, s3: State
  )
    requires Next(s, e) == s1 && Next(s1, f) == s2 && Next(s2, g) == s3
    ensures Run(s, [e, f, g]) == s3
  {
    OneEvent(s, e.t, e.a);
    RunOn(s, [e], [f]);
    OneEvent(s1, f.t, f.a);
    RunOn(s, [e] + [f], [g]);
    OneEvent(s2, g.t, g.a);
    assert [e] + [f] + [g] == [e, f, g];
  }

  function Begin(t: Tid): seq<Event> {
    [Event(t, Ref(MovePlanned)), Event(t, MoveStart), Event(t, MoveCount)]
  }

  function Check(t: Tid, made: Partition): seq<Event> {
    [Event(t, TryLock(PreOffload)), Event(t, GetPartition(made, true)), Event(t, PreCheck)]
  }

  /** An offload that is prepared now goes by the counter alone. */
  lemma {:induction false} CheckGoesByCounter(s: State, t: Tid, made: Partition)
    requires Unlocked(s) && s.pt.Some? && At(s, t).Idle? && !s.migrating && Fresh(made)
    requires !s.pt.value.offloading && !s.pt.value.preload
    ensures
      var p := s.pt.value.(exeCount := s.pt.value.exeCount + 1);
      var clear := p.doingShardMoveN <= 0;
      Run(s, Check(t, made))
      == GoWith(s, t, if clear then PreMarked else PreDone, if clear then p.(doingOff := true) else p)
           .(migrating := true)
  {
    var p := s.pt.value.(exeCount := s.pt.value.exeCount + 1);
    var locked := Go(s, t, Locked(PreOffload)).(migrating := true);
    var held := GoWith(s, t, PreHeld, p).(migrating := true);
    StaysUnlocked(s, t, Locked(PreOffload), locked);
    StaysUnlocked(s, t, PreHeld, held);
    assert locked.threads[t := PreHeld] == held.threads;
    CheckDecides(s, t, p);
    RunThree(
      s, Event(t, TryLock(PreOffload)), Event(t, GetPartition(made, true)), Event(t, PreCheck), locked, held,
      Next(held, Event(t, PreCheck)));
  }

  lemma {:induction false} CheckDecides(s: State, t: Tid, p: Partition)
    requires Unlocked(GoWith(s, t, PreHeld, p).(migrating := true))
    ensures
      var held, clear := GoWith(s, t, PreHeld, p).(migrating := true), p.doingShardMoveN <= 0;
      Next(held, Event(t, PreCheck))
      == GoWith(s, t, if clear then PreMarked else PreDone, if clear then p.(doingOff := true) else p)
           .(migrating := true)
  {
    assert s.threads[t := PreHeld][t := PreMarked] == s.threads[t := PreMarked];
    assert s.threads[t := PreHeld][t := PreDone] == s.threads[t := PreDone];
  }

  /** Thread 0 has read the counter as 1 when thread 1 starts a move, and writes back 0. */
  function LostStart(): seq<Event> {
    Begin(0) + [Event(0, MoveEnd)] + Begin(1) + [Event(0, MoveUncount)]
  }

  /** Both threads read the counter as 2 and write back 1. */
  function LostEnd(): seq<Event> {
    Begin(0) + Begin(1) + [Event(0, MoveEnd)] + [Event(1, MoveEnd)] + [Event(0, MoveUncount)] + [Event(1, MoveUncount)]
  }

  lemma {:induction false} MoveStep(s: State, t: Tid, a: Action, s': State)
    requires Unlocked(s) && (a.MoveEnd? || a.MoveUncount?) && Do(s, t, a) == Some(s')
    ensures Run(s, [Event(t, a)]) == s' && Unlocked(s')
  {
    OneEvent(s, t, a);
    StaysUnlocked(s, t, s'.threads[t], s');
  }

  lemma {:induction false} AfterLostStart(p: Partition)
    requires Fresh(p) && !p.preload
    ensures
      var s := State(Some(p), false, map[]);
      var s' := Run(s, LostStart());
      && Unlocked(s') && s' == State(Some(Counting(p, 2, 0)), false, map[0 := Using, 1 := Moving])
  {
    var s0 := State(Some(p), false, map[]);
    assert Unlocked(s0);
    MoveBegins(s0, 0);
    var s1 := Run(s0, Begin(0));
    var s2 := Go(s1, 0, MoveEnding(1));
    MoveStep(s1, 0, MoveEnd, s2);
    RunOn(s0, Begin(0), [Event(0, MoveEnd)]);
    MoveBegins(s2, 1);
    var s3 := Run(s2, Begin(1));
    RunOn(s0, Begin(0) + [Event(0, MoveEnd)], Begin(1));
    MoveStep(s3, 0, MoveUncount, GoWith(s3, 0, Using, Counting(p, 2, 0)));
    RunOn(s0, Begin(0) + [Event(0, MoveEnd)] + Begin(1), [Event(0, MoveUncount)]);
  }

  lemma {:induction false} AfterLostEnd(p: Partition)
    requires Fresh(p) && !p.preload
    ensures
      var s := State(Some(p), false, map[]);
      var s' := Run(s, LostEnd());
      && Unlocked(s') && s' == State(Some(Counting(p, 2, 1)), false, map[0 := Using, 1 := Using])
  {
    var s0 := State(Some(p), false, map[]);
    assert Unlocked(s0);
    MoveBegins(s0, 0);
    var s1 := Run(s0, Begin(0));
    MoveBegins(s1, 1);
    RunOn(s0, Begin(0), Begin(1));
    var s2 := Run(s1, Begin(1));
    var s3 := Go(s2, 0, MoveEnding(2));
    MoveStep(s2, 0, MoveEnd, s3);
    RunOn(s0, Begin(0) + Begin(1), [Event(0, MoveEnd)]);
    var s4 := Go(s3, 1, MoveEnding(2));
    MoveStep(s3, 1, MoveEnd, s4);
    RunOn(s0, Begin(0) + Begin(1) + [Event(0, MoveEnd)], [Event(1, MoveEnd)]);
    var s5 := GoWith(s4, 0, Using, Counting(p, 2, 1));
    MoveStep(s4, 0, MoveUncount, s5);
    RunOn(s0, Begin(0) + Begin(1) + [Event(0, MoveEnd)] + [Event(1, MoveEnd)], [Event(0, MoveUncount)]);
    MoveStep(s5, 1, MoveUncount, GoWith(s5, 1, Using, Counting(p, 2, 1)));
    RunOn(
      s0, Begin(0) + Begin(1) + [Event(0, MoveEnd)] + [Event(1, MoveEnd)] + [Event(0, MoveUncount)],
      [Event(1, MoveUncount)]);
  }

  /** A lost increment lets an offload begin beside a shard move. */
  lemma {:induction false} LostStartBreaksExclusion(p: Partition)
    requires Fresh(p) && !p.preload
    ensures
      var s := State(Some(p), false, map[]);
      var s' := Run(s, LostStart() + Check(2, p));
      Initially(s) && s'.pt.Some? && s'.pt.value.doingOff && At(s', 1).Moving? && !Exclusive(s') && Drift(s') == -1
  {
    var s := State(Some(p), false, map[]);
    var low := Run(s, LostStart());
    AfterLostStart(p);
    CheckGoesByCounter(low, 2, p);
    RunOn(s, LostStart(), Check(2, p));
    var s' := Run(low, Check(2, p));
    assert s'.threads[1].Moving?;
    assert Movers(s'.threads) == {1};
  }

  /** A lost decrement refuses an offload when no shard is being moved. */
  lemma {:induction false} LostEndRefusesOffload(p: Partition)
    requires Fresh(p) && !p.preload
    ensures
      var s := State(Some(p), false, map[]);
      var s' := Run(s, LostEnd() + Check(2, p));
      && Initially(s) && s'.pt.Some? && !s'.pt.value.doingOff && At(s', 2).PreDone?
      && Movers(s'.threads) == {} && Drift(s') == 1
  {
    var s := State(Some(p), false, map[]);
    var high := Run(s, LostEnd());
    AfterLostEnd(p);
    CheckGoesByCounter(high, 2, p);
    RunOn(s, LostEnd(), Check(2, p));
  }
}
