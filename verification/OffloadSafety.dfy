/** What every interleaving of the partition protocol keeps. */
module OffloadSafety {
  import opened Records
  import opened Offload

  ghost function Refs(threads: map<Tid, Pc>): set<Tid> {
    set t | t in threads && HoldsRef(threads[t])
  }

  lemma {:induction false} RefsUpdate(threads: map<Tid, Pc>, t: Tid, pc: Pc)
    ensures
      var was := t in threads && HoldsRef(threads[t]);
      |Refs(threads[t := pc])| == |Refs(threads)| + (if HoldsRef(pc) then 1 else 0) - if was then 1 else 0
  {
    var others := Refs(threads) - {t};
    assert Refs(threads[t := pc]) == if HoldsRef(pc) then others + {t} else others;
    assert Refs(threads) == if t in threads && HoldsRef(threads[t]) then others + {t} else others;
  }

  // ----- the invariant, in four independent parts

  /** At most one thread holds the migration lock. */
  ghost predicate LockInv(s: State) {
    && (forall t :: t in s.threads && HoldsLock(s.threads[t]) ==> s.migrating)
    && forall t, u :: t in s.threads && u in s.threads && HoldsLock(s.threads[t]) && HoldsLock(s.threads[u]) ==>
         t == u
  }

  /** The count is the number of threads that hold a reference; a dropped partition has none. */
  ghost predicate RefInv(s: State) {
    if s.pt.None? then Refs(s.threads) == {} else s.pt.value.exeCount == |Refs(s.threads)|
  }

  /** With background work disabled no shard is being deleted, and no two threads delete the same shard. */
  ghost predicate FlagInv(s: State) {
    s.pt.Some? ==>
      var p := s.pt.value;
      && (!p.bgrEnabled ==> p.pendingShardDeletes == {})
      && (forall t :: t in s.threads && s.threads[t].Deleting? ==> s.threads[t].shard in p.pendingShardDeletes)
      && forall t, u :: t in s.threads && u in s.threads && t != u && s.threads[t].Deleting? && s.threads[u].Deleting?
           ==> s.threads[t].shard != s.threads[u].shard
  }

  /** No reference is left and nobody is about to signal. */
  ghost predicate Quiet(s: State) {
    && s.pt.Some? && s.pt.value.offloading && s.pt.value.exeCount == 0 && s.pt.value.ch.None?
    && !ReadLocked(s)
  }

  ghost predicate OffInv(s: State) {
    // a thread that goes on is right to do so
    && (forall t :: t in s.threads && s.threads[t].OffGot? ==> s.pt.Some?)
    && (forall t :: t in s.threads && s.threads[t].RollbackDone? ==> s.pt.Some?)
    && (forall t :: t in s.threads && OffActive(s.threads[t]) ==>
          && s.pt.Some? && s.pt.value.offloading
          && if Unsignalled(s.threads[t]) then s.pt.value.ch == Some(t) else Quiet(s))
    // the mark has an owner, the channel a waiter
    && (s.pt.Some? && s.pt.value.offloading ==> exists t :: t in s.threads && OffActive(s.threads[t]))
    && (s.pt.Some? && s.pt.value.ch.Some? ==>
          s.pt.value.ch.value in s.threads && Unsignalled(s.threads[s.pt.value.ch.value]))
    // exactly one thread signals, and a waiter is not forgotten
    && (forall t :: t in s.threads && s.threads[t].Notifying? ==>
          s.pt.Some? && s.pt.value.offloading && s.pt.value.exeCount == 0 && s.pt.value.ch.Some?)
    && (forall t, u :: t in s.threads && u in s.threads && s.threads[t].Notifying? && s.threads[u].Notifying? ==>
          t == u)
    && (s.pt.Some? && s.pt.value.ch.Some? && s.pt.value.exeCount == 0 ==> ReadLocked(s))
  }

  ghost predicate Inv(s: State) {
    LockInv(s) && RefInv(s) && FlagInv(s) && OffInv(s)
  }

  // ----- preservation: a step moves one thread from one place to another

  /** Lock part, for a step of `t` to `pc` that keeps, takes or gives up the lock. */
  lemma {:induction false} LockStep(s: State, t: Tid, pc: Pc, s': State)
    requires LockInv(s) && s'.threads == s.threads[t := pc]
    requires || (HoldsLock(pc) == HoldsLock(At(s, t)) && s'.migrating == s.migrating)
             || (!s.migrating && s'.migrating)
             || (HoldsLock(At(s, t)) && !HoldsLock(pc) && !s'.migrating)
    ensures LockInv(s')
  {
  }

  /** Counting part, for a step of `t` to `pc` that changes the counters as the places demand. */
  lemma {:induction false} CountStep(s: State, t: Tid, pc: Pc, p: Partition, s': State)
    requires RefInv(s) && FlagInv(s) && s.pt.Some?
    requires s'.threads == s.threads[t := pc] && s'.pt == Some(p)
    requires p.exeCount == s.pt.value.exeCount + (if HoldsRef(pc) then 1 else 0) - if HoldsRef(At(s, t)) then 1 else 0
    requires !p.bgrEnabled ==> p.pendingShardDeletes == {}
    requires forall u :: u in s.threads && u != t && s.threads[u].Deleting? ==>
               && s.threads[u].shard in p.pendingShardDeletes
               && (pc.Deleting? ==> s.threads[u].shard != pc.shard)
    requires pc.Deleting? ==> pc.shard in p.pendingShardDeletes
    ensures RefInv(s') && FlagInv(s')
  {
    RefsUpdate(s.threads, t, pc);
  }

  /** Places the offload part does not speak about. */
  predicate Neutral(pc: Pc) {
    !OffActive(pc) && !pc.Notifying?
  }

  /** Offload part, for a step between neutral places that leaves mark and channel alone. */
  lemma {:induction false} OffStep(s: State, t: Tid, pc: Pc, p: Partition, s': State)
    requires OffInv(s) && s.pt.Some?
    requires s'.threads == s.threads[t := pc] && s'.pt == Some(p)
    requires Neutral(At(s, t)) && Neutral(pc)
    requires p.offloading == s.pt.value.offloading && p.ch == s.pt.value.ch
    requires p.offloading ==> p.exeCount == s.pt.value.exeCount
    ensures OffInv(s')
  {
    if p.offloading {
      var u :| u in s.threads && OffActive(s.threads[u]);
      assert s'.threads[u] == s.threads[u];
    }
    if ReadLocked(s) {
      var u :| u in s.threads && s.threads[u].Notifying?;
      assert s'.threads[u] == s.threads[u];
    }
    assert ReadLocked(s') ==> ReadLocked(s);
    NoChannelUnmarked(s);
  }

  /** All parts, for a step of `t` between neutral places that leaves lock, mark and channel alone. */
  lemma {:induction false} RequestStep(s: State, t: Tid, pc: Pc, p: Partition, s': State)
    requires Inv(s) && s.pt.Some?
    requires s' == GoWith(s, t, pc, p) && HoldsLock(pc) == HoldsLock(At(s, t))
    requires Neutral(At(s, t)) && Neutral(pc)
    requires p.offloading == s.pt.value.offloading && p.ch == s.pt.value.ch
    requires p.exeCount == s.pt.value.exeCount + (if HoldsRef(pc) then 1 else 0) - if HoldsRef(At(s, t)) then 1 else 0
    requires p.offloading ==> p.exeCount == s.pt.value.exeCount
    requires !p.bgrEnabled ==> p.pendingShardDeletes == {}
    requires forall u :: u in s.threads && u != t && s.threads[u].Deleting? ==>
               && s.threads[u].shard in p.pendingShardDeletes
               && (pc.Deleting? ==> s.threads[u].shard != pc.shard)
    requires pc.Deleting? ==> pc.shard in p.pendingShardDeletes
    ensures Inv(s')
  {
    LockStep(s, t, pc, s');
    CountStep(s, t, pc, p, s');
    OffStep(s, t, pc, p, s');
  }

  /** Without a mark there is no channel. */
  lemma {:induction false} NoChannelUnmarked(s: State)
    requires OffInv(s)
    ensures s.pt.Some? && !s.pt.value.offloading ==> s.pt.value.ch.None? && !ReadLocked(s)
  {
  }

  lemma {:induction false} KeepsRef(s: State, t: Tid, purpose: Pc)
    requires Inv(s) && DoRef(s, t, purpose).Some?
    ensures Inv(DoRef(s, t, purpose).value)
  {
    var s' := DoRef(s, t, purpose).value;
    if s' != s {
      RequestStep(s, t, purpose, s'.pt.value, s');
    }
  }

  lemma {:induction false} KeepsDelete(s: State, t: Tid, start: bool)
    requires Inv(s) && DoDelete(s, t, start).Some?
    ensures Inv(DoDelete(s, t, start).value)
  {
    var s' := DoDelete(s, t, start).value;
    RequestStep(s, t, s'.threads[t], s'.pt.value, s');
  }

  /** A shard move holds its reference throughout. */
  predicate OfMove(pc: Pc) {
    HoldsRef(pc) && !HoldsLock(pc) && Neutral(pc) && !pc.Deleting?
  }

  lemma {:induction false} MoveHoldsRef(p: Partition, pc: Pc, a: Action)
    requires MoveOn(p, pc, a).Some?
    ensures OfMove(pc) && OfMove(MoveOn(p, pc, a).value.0)
  {
  }

  lemma {:induction false} KeepsMove(s: State, t: Tid, a: Action)
    requires Inv(s) && DoMove(s, t, a).Some?
    ensures Inv(DoMove(s, t, a).value)
  {
    var s' := DoMove(s, t, a).value;
    MoveHoldsRef(s.pt.value, At(s, t), a);
    RequestStep(s, t, s'.threads[t], s'.pt.value, s');
  }

  lemma {:induction false} KeepsFlags(s: State, t: Tid, a: Action)
    requires Inv(s) && DoFlags(s, t, a).Some?
    ensures Inv(DoFlags(s, t, a).value)
  {
    var s' := DoFlags(s, t, a).value;
    RequestStep(s, t, s'.threads[t], s'.pt.value, s');
  }

  lemma {:induction false} KeepsTryLock(s: State, t: Tid, op: Operation)
    requires Inv(s) && DoTryLock(s, t, op).Some?
    ensures Inv(DoTryLock(s, t, op).value)
  {
    var s' := DoTryLock(s, t, op).value;
    if s' != s {
      LockStep(s, t, Locked(op), s');
      PlainStep(s, t, Locked(op), s');
    }
  }

  /** A step of `t` between neutral places without references that does not touch the partition. */
  lemma {:induction false} PlainStep(s: State, t: Tid, pc: Pc, s': State)
    requires RefInv(s) && FlagInv(s) && OffInv(s)
    requires s'.threads == s.threads[t := pc] && s'.pt == s.pt
    requires Neutral(At(s, t)) && Neutral(pc) && !HoldsRef(At(s, t)) && !HoldsRef(pc)
    requires pc.OffGot? || pc.RollbackDone? ==> s.pt.Some?
    ensures RefInv(s') && FlagInv(s') && OffInv(s')
  {
    if s.pt.Some? {
      CountStep(s, t, pc, s.pt.value, s');
      OffStep(s, t, pc, s.pt.value, s');
    } else {
      assert Refs(s'.threads) == Refs(s.threads);
    }
  }

  lemma {:induction false} KeepsGetPartition(s: State, t: Tid, made: Partition, loads: bool)
    requires Inv(s) && DoGetPartition(s, t, made, loads).Some?
    ensures Inv(DoGetPartition(s, t, made, loads).value)
  {
    var s' := DoGetPartition(s, t, made, loads).value;
    var pc := s'.threads[t];
    LockStep(s, t, pc, s');
    if s.pt.Some? {
      GetGoesOn(s, t, made, loads);
      GetExisting(s, t, pc, s');
    } else {
      PlainStep(s, t, pc, Go(s, t, pc));
      if s'.pt.Some? {
        NewPartition(Go(s, t, pc), s'.pt.value, s');
      }
    }
  }

  /** Where an operation goes on when the partition is there, and what it does to it. */
  ghost predicate GoesOnWith(s: State, t: Tid, pc: Pc, s': State)
    requires s.pt.Some?
  {
    && (pc.Ending? || pc.OffGot? || ((pc.PreHeld? || pc.RollbackHeld?) && !s.pt.value.offloading))
    && s'.pt.Some? && s'.threads == s.threads[t := pc]
    && var p, p' := s.pt.value, s'.pt.value;
       p' == p.(exeCount := p.exeCount + (if HoldsRef(pc) then 1 else 0), preload := p'.preload)
  }

  lemma {:induction false} GetGoesOn(s: State, t: Tid, made: Partition, loads: bool)
    requires DoGetPartition(s, t, made, loads).Some? && s.pt.Some?
    ensures
      var s' := DoGetPartition(s, t, made, loads).value;
      t in s'.threads && GoesOnWith(s, t, s'.threads[t], s')
  {
  }

  lemma {:induction false} GetExisting(s: State, t: Tid, pc: Pc, s': State)
    requires Inv(s) && s.pt.Some? && At(s, t).Locked? && GoesOnWith(s, t, pc, s')
    ensures RefInv(s') && FlagInv(s') && OffInv(s')
  {
    CountStep(s, t, pc, s'.pt.value, s');
    OffStep(s, t, pc, s'.pt.value, s');
  }

  /** A new partition, when nobody can have any business with it. */
  lemma {:induction false} NewPartition(s: State, p: Partition, s': State)
    requires RefInv(s) && OffInv(s) && s.pt.None?
    requires s'.threads == s.threads && s'.pt == Some(p) && Fresh(p)
    ensures RefInv(s') && FlagInv(s') && OffInv(s')
  {
    forall u | u in s.threads
      ensures !HoldsRef(s.threads[u])
    {
      assert u !in Refs(s.threads);
    }
    assert forall u :: u in s'.threads ==> Neutral(s'.threads[u]);
  }

  lemma {:induction false} KeepsCreate(s: State, t: Tid, made: Partition)
    requires Inv(s) && DoCreate(s, t, made).Some?
    ensures Inv(DoCreate(s, t, made).value)
  {
    var s' := DoCreate(s, t, made).value;
    if s' != s {
      NewPartition(s, made, s');
    }
  }

  /** A thread with a reference keeps every offloader waiting on its channel. */
  lemma {:induction false} ReferenceBlocks(s: State, t: Tid)
    requires Inv(s) && t in s.threads && HoldsRef(s.threads[t])
    ensures s.pt.Some? && s.pt.value.exeCount > 0 && !ReadLocked(s)
    ensures s.pt.value.offloading ==> s.pt.value.ch.Some?
    ensures forall u :: u in s.threads && OffActive(s.threads[u]) ==> Unsignalled(s.threads[u])
  {
    assert t in Refs(s.threads);
    assert Refs(s.threads) != {};
  }

  lemma {:induction false} KeepsUnref(s: State, t: Tid)
    requires Inv(s) && DoUnref(s, t).Some?
    ensures Inv(DoUnref(s, t).value)
  {
    var s' := DoUnref(s, t).value;
    var pc := s'.threads[t];
    ReferenceBlocks(s, t);
    LockStep(s, t, pc, s');
    CountStep(s, t, pc, s'.pt.value, s');
    if s.pt.value.offloading {
      UnrefWhileMarked(s, t);
    } else {
      OffStep(s, t, pc, s'.pt.value, s');
    }
  }

  lemma {:induction false} UnrefWhileMarked(s: State, t: Tid)
    requires Inv(s) && DoUnref(s, t).Some? && s.pt.value.offloading
    ensures OffInv(DoUnref(s, t).value)
  {
    var s' := DoUnref(s, t).value;
    ReferenceBlocks(s, t);
    var u :| u in s.threads && OffActive(s.threads[u]);
    assert s'.threads[u] == s.threads[u];
    assert s'.pt.value.exeCount == 0 ==> s'.threads[t].Notifying?;
  }

  lemma {:induction false} KeepsNotify(s: State, t: Tid)
    requires Inv(s) && DoNotify(s, t).Some?
    ensures Inv(DoNotify(s, t).value)
  {
    NotifyLocks(s, t);
    NotifyCounts(s, t);
    NotifySettles(s, t);
  }

  lemma {:induction false} NotifyLocks(s: State, t: Tid)
    requires LockInv(s) && DoNotify(s, t).Some?
    ensures LockInv(DoNotify(s, t).value)
  {
    var s' := DoNotify(s, t).value;
    var waiter := s.pt.value.ch.value;
    var mid := Go(s, waiter, Told(At(s, waiter)));
    LockStep(s, waiter, Told(At(s, waiter)), mid);
    LockStep(mid, t, s'.threads[t], s');
  }

  lemma {:induction false} NotifyCounts(s: State, t: Tid)
    requires Inv(s) && DoNotify(s, t).Some?
    ensures RefInv(DoNotify(s, t).value) && FlagInv(DoNotify(s, t).value)
  {
    var s' := DoNotify(s, t).value;
    var waiter := s.pt.value.ch.value;
    var mid := Go(s, waiter, Told(At(s, waiter)));
    CountStep(s, waiter, Told(At(s, waiter)), s.pt.value, mid);
    CountStep(mid, t, s'.threads[t], s'.pt.value, s');
  }

  lemma {:induction false} NotifySettles(s: State, t: Tid)
    requires Inv(s) && DoNotify(s, t).Some?
    ensures OffInv(DoNotify(s, t).value)
  {
    var s' := DoNotify(s, t).value;
    var waiter := s.pt.value.ch.value;
    assert s'.threads[waiter] == if s.threads[waiter].OffWait? then OffWait(true) else OffGiveUp(true);
    forall u | u in s'.threads
      ensures !s'.threads[u].Notifying?
      ensures OffActive(s'.threads[u]) ==> u == waiter
    {
      if u != t && u != waiter {
        assert s'.threads[u] == s.threads[u];
      }
    }
    assert OffActive(s'.threads[waiter]);
  }

  /** Whoever holds the lock is the only one who can have marked the partition. */
  lemma {:induction false} OnlyOffloader(s: State, t: Tid)
    requires LockInv(s) && t in s.threads && HoldsLock(s.threads[t])
    ensures forall u :: u in s.threads && u != t ==>
              !OffActive(s.threads[u]) && !s.threads[u].OffGot? && !s.threads[u].RollbackDone?
  {
  }

  lemma {:induction false} KeepsMark(s: State, t: Tid)
    requires Inv(s) && DoMark(s, t).Some?
    ensures Inv(DoMark(s, t).value)
    ensures !s.pt.value.offloading
  {
    OnlyOffloader(s, t);
    assert !s.pt.value.offloading;
    NoChannelUnmarked(s);
    var s' := DoMark(s, t).value;
    LockStep(s, t, s'.threads[t], s');
    CountStep(s, t, s'.threads[t], s'.pt.value, s');
    assert OffActive(s'.threads[t]);
    assert !ReadLocked(s');
  }

  lemma {:induction false} KeepsUnMark(s: State, t: Tid)
    requires Inv(s) && DoUnMark(s, t).Some?
    ensures Inv(DoUnMark(s, t).value)
  {
    OnlyOffloader(s, t);
    var s' := DoUnMark(s, t).value;
    LockStep(s, t, Ending, s');
    CountStep(s, t, Ending, s'.pt.value, s');
    assert !ReadLocked(s');
  }

  lemma {:induction false} KeepsWait(s: State, t: Tid, a: Action)
    requires Inv(s) && DoWait(s, t, a).Some?
    ensures Inv(DoWait(s, t, a).value)
  {
    var s' := DoWait(s, t, a).value;
    var pc := s'.threads[t];
    LockStep(s, t, pc, s');
    if a.Unlock? {
      PlainStep(s, t, pc, s');
    } else if a.Drop? {
      DropStep(s, t, s');
    } else {
      WaitGoesOn(s, t, a);
    }
  }

  lemma {:induction false} WaitGoesOn(s: State, t: Tid, a: Action)
    requires Inv(s) && DoWait(s, t, a).Some? && !a.Unlock? && !a.Drop?
    ensures var s' := DoWait(s, t, a).value; RefInv(s') && FlagInv(s') && OffInv(s')
  {
    var s' := DoWait(s, t, a).value;
    var pc := s'.threads[t];
    CountStep(s, t, pc, s'.pt.value, s');
    WaitSteps(s, t, pc, s');
  }

  lemma {:induction false} DropStep(s: State, t: Tid, s': State)
    requires Inv(s) && t in s.threads && s.threads[t].OffClosed?
    requires s'.threads == s.threads[t := Ending] && s'.pt == None
    ensures RefInv(s') && FlagInv(s') && OffInv(s')
  {
    OnlyOffloader(s, t);
    assert Quiet(s);
    RefsUpdate(s.threads, t, Ending);
  }

  /** Offload part for a step of the offloader within its own wait. */
  lemma {:induction false} WaitSteps(s: State, t: Tid, pc: Pc, s': State)
    requires LockInv(s) && OffInv(s) && t in s.threads && OffActive(s.threads[t]) && OffActive(pc)
    requires s' == Go(s, t, pc) && Unsignalled(pc) == Unsignalled(s.threads[t])
    ensures OffInv(s')
  {
    OnlyOffloader(s, t);
    assert s'.threads[t] == pc;
    assert ReadLocked(s') <==> ReadLocked(s) by {
      if ReadLocked(s) {
        var u :| u in s.threads && s.threads[u].Notifying?;
        assert s'.threads[u] == s.threads[u];
      }
    }
  }

  /** Every step of every thread keeps the invariant. */
  lemma {:induction false} KeepsInv(s: State, t: Tid, a: Action)
    requires Inv(s) && Do(s, t, a).Some?
    ensures Inv(Do(s, t, a).value)
  {
    match a
    case Ref(purpose) => KeepsRef(s, t, purpose);
    case DeleteStart => KeepsDelete(s, t, true);
    case DeleteEnd => KeepsDelete(s, t, false);
    case MoveStart => KeepsMove(s, t, a);
    case MoveCount => KeepsMove(s, t, a);
    case MoveEnd => KeepsMove(s, t, a);
    case MoveUncount => KeepsMove(s, t, a);
    case Unref => KeepsUnref(s, t);
    case Notify => KeepsNotify(s, t);
    case TryLock(op) => KeepsTryLock(s, t, op);
    case Create(made) => KeepsCreate(s, t, made);
    case GetPartition(made, loads) => KeepsGetPartition(s, t, made, loads);
    case MarkOffload => KeepsMark(s, t);
    case UnMarkOffload => KeepsUnMark(s, t);
    case PreCheck => KeepsFlags(s, t, a);
    case PreDisable => KeepsFlags(s, t, a);
    case RollbackEnable => KeepsFlags(s, t, a);
    case RollbackClear => KeepsFlags(s, t, a);
    case _ => KeepsWait(s, t, a);
  }

  // ----- safety of whole runs

  datatype Event = Event(t: Tid, a: Action)

  ghost predicate Initially(s: State) {
    && (forall t :: t in s.threads ==> s.threads[t].Idle?)
    && !s.migrating
    && (s.pt.Some? ==> Fresh(s.pt.value))
  }

  /** The state after one event; an event whose thread cannot take it changes nothing. */
  ghost function Next(s: State, e: Event): State {
    var next := Do(s, e.t, e.a);
    if next.Some? then next.value else s
  }

  /** The state after a schedule of events. */
  ghost function Run(s: State, events: seq<Event>): State {
    if events == [] then s else Next(Run(s, events[..|events| - 1]), events[|events| - 1])
  }

  /** The two panics: dropping a reference to a partition that is gone, and signalling without a channel. */
  ghost predicate Panics(s: State) {
    exists t :: t in s.threads &&
      (|| (HoldsRef(s.threads[t]) && s.pt.None?)
       || (s.threads[t].Notifying? && (s.pt.None? || s.pt.value.ch.None?)))
  }

  ghost predicate Closing(pc: Pc) {
    pc.OffClosing? || pc.OffClosed?
  }

  ghost predicate Safe(s: State) {
    // no thread uses, deletes from or moves within a partition that is being closed
    && (forall t, u :: t in s.threads && u in s.threads && Closing(s.threads[t]) ==> !HoldsRef(s.threads[u]))
    && (forall t :: t in s.threads && Closing(s.threads[t]) ==>
          s.pt.Some? && s.pt.value.offloading && s.pt.value.exeCount == 0)
    // one offloader at a time, and the panics are out of reach
    && (forall t, u :: t in s.threads && u in s.threads && OffActive(s.threads[t]) && OffActive(s.threads[u]) ==>
          t == u)
    && !Panics(s)
    // the signal goes to a waiter that has not had one, from one thread only
    && (forall t :: t in s.threads && s.threads[t].Notifying? ==>
          && s.pt.Some? && s.pt.value.ch.Some? && s.pt.value.ch.value in s.threads
          && Unsignalled(s.threads[s.pt.value.ch.value]))
    && (forall t, u :: t in s.threads && u in s.threads && s.threads[t].Notifying? && s.threads[u].Notifying? ==>
          t == u)
    // and a waiter whose references are gone has a signal, or one under way
    && (forall t :: t in s.threads && OffActive(s.threads[t]) ==>
          s.pt.Some? && (s.pt.value.exeCount == 0 ==> !Unsignalled(s.threads[t]) || ReadLocked(s)))
    // shard deletes exclude disabled background work
    && (forall t :: t in s.threads && s.threads[t].Deleting? ==> s.pt.Some? && s.pt.value.bgrEnabled)
  }

  lemma {:induction false} InvIsSafe(s: State)
    requires Inv(s)
    ensures Safe(s)
  {
    forall u | u in s.threads && HoldsRef(s.threads[u])
      ensures s.pt.Some? && s.pt.value.exeCount > 0
    {
      ReferenceBlocks(s, u);
    }
  }

  lemma {:induction false} InitiallyInv(s: State)
    requires Initially(s)
    ensures Inv(s)
  {
    assert Refs(s.threads) == {};
  }

  /** Every state of every run, under every schedule, is safe. */
  lemma {:induction false} EveryRunIsSafe(s: State, events: seq<Event>)
    requires Initially(s)
    ensures Inv(Run(s, events)) && Safe(Run(s, events))
  {
    if events == [] {
      InitiallyInv(s);
    } else {
      var before := Run(s, events[..|events| - 1]);
      var last := events[|events| - 1];
      EveryRunIsSafe(s, events[..|events| - 1]);
      if Do(before, last.t, last.a).Some? {
        KeepsInv(before, last.t, last.a);
      }
    }
    InvIsSafe(Run(s, events));
  }

  /** While a partition is being closed no reference is granted, and the count stays at zero
      until the offloader unmarks or drops the partition. */
  lemma {:induction false} ClosedDoorStaysShut(s: State, t: Tid, events: seq<Event>)
    requires Inv(s) && t in s.threads && (Closing(s.threads[t]) || s.threads[t].OffFailed?)
    requires forall k :: 0 <= k < |events| ==> events[k].t != t
    ensures
      var s' := Run(s, events);
      && Inv(s') && At(s', t) == At(s, t)
      && s'.pt.Some? && s'.pt.value.offloading && s'.pt.value.exeCount == 0 && Refs(s'.threads) == {}
  {
    if events != [] {
      var init, last := events[..|events| - 1], events[|events| - 1];
      var before := Run(s, init);
      ClosedDoorStaysShut(s, t, init);
      if Do(before, last.t, last.a).Some? {
        KeepsInv(before, last.t, last.a);
        StaysPut(before, t, last.t, last.a);
      }
    }
  }

  /** Only thread `u` moves. */
  ghost predicate MovesOnly(s: State, u: Tid, s': State) {
    forall t :: t != u ==> At(s', t) == At(s, t)
  }

  predicate OfRequest(a: Action) {
    || a.Ref? || a.DeleteStart? || a.DeleteEnd? || a.Unref?
    || a.MoveStart? || a.MoveCount? || a.MoveEnd? || a.MoveUncount?
  }

  lemma {:induction false} RequestMovesOne(s: State, u: Tid, a: Action)
    requires Do(s, u, a).Some? && OfRequest(a)
    ensures MovesOnly(s, u, Do(s, u, a).value)
  {
  }

  predicate OfFlags(a: Action) {
    a.PreCheck? || a.PreDisable? || a.RollbackEnable? || a.RollbackClear?
  }

  lemma {:induction false} FlagsMoveOne(s: State, u: Tid, a: Action)
    requires Do(s, u, a).Some? && OfFlags(a)
    ensures MovesOnly(s, u, Do(s, u, a).value)
  {
  }

  lemma {:induction false} MigrationMovesOne(s: State, u: Tid, a: Action)
    requires Do(s, u, a).Some? && !OfRequest(a) && !OfFlags(a) && !a.Notify?
    ensures MovesOnly(s, u, Do(s, u, a).value)
  {
  }

  /** A signal is for a thread that waits, and a closing thread does not. */
  lemma {:induction false} SignalPasses(s: State, t: Tid, u: Tid)
    requires t in s.threads && (Closing(s.threads[t]) || s.threads[t].OffFailed?) && u != t
    requires DoNotify(s, u).Some?
    ensures At(DoNotify(s, u).value, t) == s.threads[t]
  {
    assert Told(s.threads[t]) == s.threads[t];
  }

  /** A closing thread is moved by nobody else. */
  lemma {:induction false} StaysPut(s: State, t: Tid, u: Tid, a: Action)
    requires t in s.threads && (Closing(s.threads[t]) || s.threads[t].OffFailed?) && u != t
    requires Do(s, u, a).Some?
    ensures At(Do(s, u, a).value, t) == s.threads[t]
  {
    if a.Notify? {
      SignalPasses(s, t, u);
    } else if OfRequest(a) {
      RequestMovesOne(s, u, a);
    } else if OfFlags(a) {
      FlagsMoveOne(s, u, a);
    } else {
      MigrationMovesOne(s, u, a);
    }
  }
}
