/** What whole operations of the partition protocol achieve when they run without interruption, beside whatever other
    threads are doing. */
module OffloadRuns {
  import opened Records
  import opened Offload
  import opened OffloadSafety
  import opened OffloadMoves

  // ----- one thread alone

  /** The steps of one thread, as a schedule. */
  function Acts(t: Tid, actions: seq<Action>): seq<Event> {
    seq(|actions|, i requires 0 <= i < |actions| => Event(t, actions[i]))
  }

  /** The state with thread `t` elsewhere, and another partition and lock. */
  function Stands(s: State, t: Tid, pc: Pc, pt: Option<Partition>, migrating: bool): State {
    State(pt, migrating, s.threads[t := pc])
  }

  /** Where the steps of one thread lead. */
  ghost predicate Leads(s: State, t: Tid, actions: seq<Action>, s': State) {
    Run(s, Acts(t, actions)) == s'
  }

  lemma {:induction false} NoSteps(s: State, t: Tid)
    ensures Leads(s, t, [], s)
  {
  }

  /** One step more. */
  lemma {:induction false} LeadsOn(s: State, t: Tid, actions: seq<Action>, mid: State, a: Action, s': State)
    requires Leads(s, t, actions, mid) && Next(mid, Event(t, a)) == s'
    ensures Leads(s, t, actions + [a], s')
  {
    assert Acts(t, actions + [a]) == Acts(t, actions) + [Event(t, a)];
    RunOn(s, Acts(t, actions), [Event(t, a)]);
    OneEvent(mid, t, a);
  }

  lemma {:induction false} FirstStep(s: State, t: Tid, a: Action, s': State)
    requires Next(s, Event(t, a)) == s'
    ensures Leads(s, t, [a], s')
  {
    NoSteps(s, t);
    LeadsOn(s, t, [], s, a, s');
    assert [] + [a] == [a];
  }

  /** Nobody is inside a locked region, and thread `t` stands outside of it too. */
  lemma {:induction false} Standing(s: State, t: Tid, pc: Pc, pt: Option<Partition>, migrating: bool, next: Pc)
    requires Unlocked(s) && !pc.Notifying? && !pc.MoveStarting?
    ensures Unlocked(Stands(s, t, pc, pt, migrating)) && At(Stands(s, t, pc, pt, migrating), t) == pc
    ensures s.threads[t := pc][t := next] == s.threads[t := next]
  {
  }

  /** A partition that requests and operations may use. */
  predicate Open(pt: Option<Partition>) {
    pt.Some? && !pt.value.offloading && !pt.value.preload
  }

  function Referenced(p: Partition): Partition {
    p.(exeCount := p.exeCount + 1)
  }

  // ----- a reference and its end

  /** A request gets its reference exactly when the partition is there, not being offloaded and not being loaded;
      otherwise nothing changes. */
  lemma {:induction false} RefGranted(s: State, t: Tid, purpose: Pc)
    requires Unlocked(s) && At(s, t).Idle? && Request(purpose)
    ensures
      var granted := s.pt.Some? && !s.pt.value.offloading && !s.pt.value.preload;
      Next(s, Event(t, Ref(purpose)))
      == if granted
         then Stands(s, t, purpose, Some(s.pt.value.(exeCount := s.pt.value.exeCount + 1)), s.migrating)
         else s
  {
  }

  lemma {:induction false} UnrefStep(s: State, t: Tid, pc: Pc, p: Partition, migrating: bool)
    requires Unlocked(s) && !p.offloading && AfterUnref(pc).Some?
    ensures Next(Stands(s, t, pc, Some(Referenced(p)), migrating), Event(t, Unref))
         == Stands(s, t, ResumeAt(AfterUnref(pc).value), Some(p), migrating)
  {
    Standing(s, t, pc, Some(Referenced(p)), migrating, ResumeAt(AfterUnref(pc).value));
    assert Referenced(p).(exeCount := Referenced(p).exeCount - 1) == p;
  }

  /** A request that comes and goes leaves the partition as it was. */
  lemma {:induction false} RequestRuns(s: State, t: Tid)
    requires Unlocked(s) && At(s, t).Idle? && Open(s.pt)
    ensures Leads(s, t, [Ref(Using), Unref], Stands(s, t, Idle, s.pt, s.migrating))
  {
    var p := s.pt.value;
    var held := Stands(s, t, Using, Some(Referenced(p)), s.migrating);
    RefGranted(s, t, Using);
    FirstStep(s, t, Ref(Using), held);
    UnrefStep(s, t, Using, p, s.migrating);
    LeadsOn(s, t, [Ref(Using)], held, Unref, Stands(s, t, Idle, Some(p), s.migrating));
    assert [Ref(Using)] + [Unref] == [Ref(Using), Unref];
  }

  // ----- deleting a shard

  predicate Deletable(p: Partition, shard: ShardId) {
    p.bgrEnabled && shard in p.shards && shard !in p.pendingShardDeletes
  }

  function Begun(p: Partition, shard: ShardId): Partition {
    p.(shards := p.shards - {shard}, pendingShardDeletes := p.pendingShardDeletes + {shard})
  }

  lemma {:induction false} DeleteStartStep(s: State, t: Tid, shard: ShardId, p: Partition, migrating: bool)
    requires Unlocked(s)
    ensures Next(Stands(s, t, DeletePlanned(shard), Some(p), migrating), Event(t, DeleteStart))
         == if Deletable(p, shard) then Stands(s, t, Deleting(shard), Some(Begun(p, shard)), migrating)
            else Stands(s, t, Using, Some(p), migrating)
  {
    Standing(s, t, DeletePlanned(shard), Some(p), migrating, Deleting(shard));
    Standing(s, t, DeletePlanned(shard), Some(p), migrating, Using);
  }

  lemma {:induction false} DeleteEndStep(s: State, t: Tid, shard: ShardId, p: Partition, migrating: bool)
    requires Unlocked(s) && shard !in p.pendingShardDeletes
    ensures Next(Stands(s, t, Deleting(shard), Some(Begun(p, shard)), migrating), Event(t, DeleteEnd))
         == Stands(s, t, Using, Some(p.(shards := p.shards - {shard})), migrating)
    ensures
      var using := Stands(s, t, Using, Some(p), migrating);
      Next(using, Event(t, DeleteEnd)) == using
  {
    Standing(s, t, Deleting(shard), Some(Begun(p, shard)), migrating, Using);
    Standing(s, t, Using, Some(p), migrating, Using);
    assert p.pendingShardDeletes + {shard} - {shard} == p.pendingShardDeletes;
  }

  /** A planned delete begins exactly when background work is enabled and the shard is there and not being deleted; the
      shard is then gone and waits to be closed. */
  lemma {:induction false} DeleteBegins(s: State, t: Tid, shard: ShardId)
    requires Unlocked(s) && At(s, t).Idle? && Open(s.pt)
    ensures
      var p := Referenced(s.pt.value);
      var begins := p.bgrEnabled && shard in p.shards && shard !in p.pendingShardDeletes;
      var without := p.(shards := p.shards - {shard}, pendingShardDeletes := p.pendingShardDeletes + {shard});
      Leads(s, t, [Ref(DeletePlanned(shard)), DeleteStart],
            if begins then Stands(s, t, Deleting(shard), Some(without), s.migrating)
            else Stands(s, t, Using, Some(p), s.migrating))
  {
    var p, plan := Referenced(s.pt.value), DeletePlanned(shard);
    RefGranted(s, t, plan);
    FirstStep(s, t, Ref(plan), Stands(s, t, plan, Some(p), s.migrating));
    DeleteStartStep(s, t, shard, p, s.migrating);
    LeadsOn(s, t, [Ref(plan)], Stands(s, t, plan, Some(p), s.migrating), DeleteStart,
            Next(Stands(s, t, plan, Some(p), s.migrating), Event(t, DeleteStart)));
    assert [Ref(plan)] + [DeleteStart] == [Ref(plan), DeleteStart];
  }

  function WholeDelete(shard: ShardId): seq<Action> {
    [Ref(DeletePlanned(shard)), DeleteStart, DeleteEnd, Unref]
  }

  /** A delete that is done leaves the partition as it was, without the shard. */
  lemma {:induction false} DeleteRuns(s: State, t: Tid, shard: ShardId)
    requires Unlocked(s) && At(s, t).Idle? && Open(s.pt) && Deletable(s.pt.value, shard)
    ensures
      var p := s.pt.value;
      Leads(s, t, WholeDelete(shard), Stands(s, t, Idle, Some(p.(shards := p.shards - {shard})), s.migrating))
  {
    var p := s.pt.value;
    var q, left := Referenced(p), p.(shards := p.shards - {shard});
    var plan, m := DeletePlanned(shard), s.migrating;
    DeleteBegins(s, t, shard);
    DeleteEndStep(s, t, shard, q, m);
    assert q.(shards := q.shards - {shard}) == Referenced(left);
    LeadsOn(s, t, [Ref(plan), DeleteStart], Stands(s, t, Deleting(shard), Some(Begun(q, shard)), m), DeleteEnd,
            Stands(s, t, Using, Some(Referenced(left)), m));
    UnrefStep(s, t, Using, left, m);
    LeadsOn(s, t, [Ref(plan), DeleteStart] + [DeleteEnd], Stands(s, t, Using, Some(Referenced(left)), m), Unref,
            Stands(s, t, Idle, Some(left), m));
    assert [Ref(plan), DeleteStart] + [DeleteEnd] + [Unref] == WholeDelete(shard);
  }

  // ----- moving a shard

  function WholeMove(): seq<Action> {
    [Ref(MovePlanned), MoveStart, MoveCount, MoveEnd, MoveUncount, Unref]
  }

  lemma {:induction false} MoveBeginsAlone(s: State, t: Tid)
    requires Unlocked(s) && At(s, t).Idle? && Open(s.pt) && !s.pt.value.doingOff
    ensures
      var p := s.pt.value;
      Leads(s, t, [Ref(MovePlanned), MoveStart, MoveCount],
            Stands(s, t, Moving, Some(Counting(p, p.exeCount + 1, p.doingShardMoveN + 1)), s.migrating))
  {
    MoveBegins(s, t);
    assert Acts(t, [Ref(MovePlanned), MoveStart, MoveCount]) == Begin(t);
  }

  lemma {:induction false} MoveEndStep(s: State, t: Tid, p: Partition, migrating: bool)
    requires Unlocked(s)
    ensures
      var moving := Counting(p, p.exeCount + 1, p.doingShardMoveN + 1);
      var ending := Stands(s, t, MoveEnding(p.doingShardMoveN + 1), Some(moving), migrating);
      && Next(Stands(s, t, Moving, Some(moving), migrating), Event(t, MoveEnd)) == ending
      && Next(ending, Event(t, MoveUncount)) == Stands(s, t, Using, Some(Referenced(p)), migrating)
  {
    var moving := Counting(p, p.exeCount + 1, p.doingShardMoveN + 1);
    Standing(s, t, Moving, Some(moving), migrating, MoveEnding(p.doingShardMoveN + 1));
    Standing(s, t, MoveEnding(p.doingShardMoveN + 1), Some(moving), migrating, Using);
    assert moving.(doingShardMoveN := p.doingShardMoveN) == Referenced(p);
  }

  /** A shard move that nothing disturbs leaves the partition, and the counter, as they were. */
  lemma {:induction false} MoveRuns(s: State, t: Tid)
    requires Unlocked(s) && At(s, t).Idle? && Open(s.pt) && !s.pt.value.doingOff
    ensures Leads(s, t, WholeMove(), Stands(s, t, Idle, s.pt, s.migrating))
  {
    var p, m := s.pt.value, s.migrating;
    var moving := Counting(p, p.exeCount + 1, p.doingShardMoveN + 1);
    var ending := Stands(s, t, MoveEnding(p.doingShardMoveN + 1), Some(moving), m);
    var begin := [Ref(MovePlanned), MoveStart, MoveCount];
    MoveBeginsAlone(s, t);
    MoveEndStep(s, t, p, m);
    LeadsOn(s, t, begin, Stands(s, t, Moving, Some(moving), m), MoveEnd, ending);
    LeadsOn(s, t, begin + [MoveEnd], ending, MoveUncount, Stands(s, t, Using, Some(Referenced(p)), m));
    UnrefStep(s, t, Using, p, m);
    LeadsOn(s, t, begin + [MoveEnd] + [MoveUncount], Stands(s, t, Using, Some(Referenced(p)), m), Unref,
            Stands(s, t, Idle, Some(p), m));
    assert begin + [MoveEnd] + [MoveUncount] + [Unref] == WholeMove();
  }

  // ----- taking and giving up the migration lock

  /** One operation at a time: who finds the lock taken gets nothing. */
  lemma {:induction false} LockStepAlone(s: State, t: Tid, op: Operation)
    requires At(s, t).Idle?
    ensures Next(s, Event(t, TryLock(op))) == if s.migrating then s else Stands(s, t, Locked(op), s.pt, true)
  {
  }

  lemma {:induction false} UnlockStep(s: State, t: Tid, pt: Option<Partition>)
    requires Unlocked(s)
    ensures Next(Stands(s, t, Ending, pt, true), Event(t, Unlock)) == Stands(s, t, Idle, pt, false)
  {
    Standing(s, t, Ending, pt, true, Idle);
  }

  // ----- preparing an offload and rolling it back

  lemma {:induction false} GetHeld(s: State, t: Tid, op: Operation, p: Partition, made: Partition)
    requires Unlocked(s) && Open(Some(p)) && Fresh(made) && (op.PreOffload? || op.Rollback?)
    ensures Next(Stands(s, t, Locked(op), Some(p), true), Event(t, GetPartition(made, true)))
         == Stands(s, t, if op.PreOffload? then PreHeld else RollbackHeld, Some(Referenced(p)), true)
  {
    Standing(s, t, Locked(op), Some(p), true, if op.PreOffload? then PreHeld else RollbackHeld);
  }

  lemma {:induction false} CheckStep(s: State, t: Tid, p: Partition)
    requires Unlocked(s)
    ensures Next(Stands(s, t, PreHeld, Some(p), true), Event(t, PreCheck))
         == if p.doingShardMoveN > 0 then Stands(s, t, PreDone, Some(p), true)
            else Stands(s, t, PreMarked, Some(p.(doingOff := true)), true)
  {
    Standing(s, t, PreHeld, Some(p), true, PreDone);
    Standing(s, t, PreHeld, Some(p), true, PreMarked);
  }

  lemma {:induction false} DisableStep(s: State, t: Tid, p: Partition)
    requires Unlocked(s)
    ensures Next(Stands(s, t, PreMarked, Some(p), true), Event(t, PreDisable))
         == Stands(s, t, PreDone, Some(if p.pendingShardDeletes != {} then p else p.(bgrEnabled := false)), true)
    ensures Next(Stands(s, t, PreDone, Some(p), true), Event(t, PreDisable)) == Stands(s, t, PreDone, Some(p), true)
  {
    Standing(s, t, PreMarked, Some(p), true, PreDone);
    Standing(s, t, PreDone, Some(p), true, PreDone);
  }

  lemma {:induction false} EnableStep(s: State, t: Tid, p: Partition)
    requires Unlocked(s)
    ensures Next(Stands(s, t, RollbackHeld, Some(p), true), Event(t, RollbackEnable))
         == Stands(s, t, RollbackEnabled, Some(p.(bgrEnabled := true)), true)
    ensures Next(Stands(s, t, RollbackDone, Some(p), true), Event(t, RollbackClear))
         == Stands(s, t, Ending, Some(p.(doingOff := false)), true)
  {
    Standing(s, t, RollbackHeld, Some(p), true, RollbackEnabled);
    Standing(s, t, RollbackDone, Some(p), true, Ending);
  }

  /** What a partition is after its offload was prepared: nothing changes beside a shard move; otherwise it is marked,
      and background work is disabled unless a shard is being deleted. */
  function Prepared(p: Partition): Partition {
    if p.doingShardMoveN > 0 then p
    else if p.pendingShardDeletes != {} then p.(doingOff := true)
    else p.(doingOff := true, bgrEnabled := false)
  }

  function WholePreOffload(made: Partition): seq<Action> {
    [TryLock(PreOffload), GetPartition(made, true), PreCheck, PreDisable, Unref, Unlock]
  }

  lemma {:induction false} PreOffloadHeld(s: State, t: Tid, made: Partition)
    requires Unlocked(s) && At(s, t).Idle? && Open(s.pt) && !s.migrating && Fresh(made)
    ensures Leads(s, t, [TryLock(PreOffload), GetPartition(made, true)],
                  Stands(s, t, PreHeld, Some(Referenced(s.pt.value)), true))
  {
    var p, locked := s.pt.value, Stands(s, t, Locked(PreOffload), s.pt, true);
    LockStepAlone(s, t, PreOffload);
    FirstStep(s, t, TryLock(PreOffload), locked);
    GetHeld(s, t, PreOffload, p, made);
    LeadsOn(s, t, [TryLock(PreOffload)], locked, GetPartition(made, true),
            Stands(s, t, PreHeld, Some(Referenced(p)), true));
    assert [TryLock(PreOffload)] + [GetPartition(made, true)] == [TryLock(PreOffload), GetPartition(made, true)];
  }

  lemma {:induction false} PreOffloadChecked(s: State, t: Tid, made: Partition)
    requires Unlocked(s) && At(s, t).Idle? && Open(s.pt) && !s.migrating && Fresh(made)
    ensures Leads(s, t, [TryLock(PreOffload), GetPartition(made, true), PreCheck, PreDisable],
                  Stands(s, t, PreDone, Some(Referenced(Prepared(s.pt.value))), true))
  {
    var p, q := s.pt.value, Referenced(s.pt.value);
    var held := [TryLock(PreOffload), GetPartition(made, true)];
    PreOffloadHeld(s, t, made);
    CheckStep(s, t, q);
    var checked := Next(Stands(s, t, PreHeld, Some(q), true), Event(t, PreCheck));
    LeadsOn(s, t, held, Stands(s, t, PreHeld, Some(q), true), PreCheck, checked);
    DisableStep(s, t, q);
    DisableStep(s, t, q.(doingOff := true));
    assert q.(doingOff := true, bgrEnabled := false) == q.(doingOff := true).(bgrEnabled := false);
    LeadsOn(s, t, held + [PreCheck], checked, PreDisable, Stands(s, t, PreDone, Some(Referenced(Prepared(p))), true));
    assert held + [PreCheck] + [PreDisable]
        == [TryLock(PreOffload), GetPartition(made, true), PreCheck, PreDisable];
  }

  /** PreOffload from its lock to its end. */
  lemma {:induction false} PreOffloadRuns(s: State, t: Tid, made: Partition)
    requires Unlocked(s) && At(s, t).Idle? && Open(s.pt) && !s.migrating && Fresh(made)
    ensures
      var p := s.pt.value;
      var p' := if p.doingShardMoveN > 0 then p
                else p.(doingOff := true, bgrEnabled := p.bgrEnabled && p.pendingShardDeletes != {});
      Leads(s, t, WholePreOffload(made), Stands(s, t, Idle, Some(p'), false))
    ensures Leads(s, t, WholePreOffload(made), Stands(s, t, Idle, Some(Prepared(s.pt.value)), false))
  {
    var p := Prepared(s.pt.value);
    var done := [TryLock(PreOffload), GetPartition(made, true), PreCheck, PreDisable];
    PreOffloadChecked(s, t, made);
    UnrefStep(s, t, PreDone, p, true);
    LeadsOn(s, t, done, Stands(s, t, PreDone, Some(Referenced(p)), true), Unref, Stands(s, t, Ending, Some(p), true));
    UnlockStep(s, t, Some(p));
    LeadsOn(s, t, done + [Unref], Stands(s, t, Ending, Some(p), true), Unlock, Stands(s, t, Idle, Some(p), false));
    assert done + [Unref] + [Unlock] == WholePreOffload(made);
  }

  function WholeRollback(made: Partition): seq<Action> {
    [TryLock(Rollback), GetPartition(made, true), RollbackEnable, Unref, RollbackClear, Unlock]
  }

  lemma {:induction false} RollbackEnables(s: State, t: Tid, made: Partition)
    requires Unlocked(s) && At(s, t).Idle? && Open(s.pt) && !s.migrating && Fresh(made)
    ensures Leads(s, t, [TryLock(Rollback), GetPartition(made, true), RollbackEnable],
                  Stands(s, t, RollbackEnabled, Some(Referenced(s.pt.value.(bgrEnabled := true))), true))
  {
    var p, q := s.pt.value, Referenced(s.pt.value);
    var locked := Stands(s, t, Locked(Rollback), s.pt, true);
    LockStepAlone(s, t, Rollback);
    FirstStep(s, t, TryLock(Rollback), locked);
    GetHeld(s, t, Rollback, p, made);
    LeadsOn(s, t, [TryLock(Rollback)], locked, GetPartition(made, true), Stands(s, t, RollbackHeld, Some(q), true));
    EnableStep(s, t, q);
    assert q.(bgrEnabled := true) == Referenced(p.(bgrEnabled := true));
    LeadsOn(s, t, [TryLock(Rollback)] + [GetPartition(made, true)], Stands(s, t, RollbackHeld, Some(q), true),
            RollbackEnable, Stands(s, t, RollbackEnabled, Some(q.(bgrEnabled := true)), true));
    assert [TryLock(Rollback)] + [GetPartition(made, true)] + [RollbackEnable]
        == [TryLock(Rollback), GetPartition(made, true), RollbackEnable];
  }

  /** RollbackPreOffload from its lock to its end: background work is enabled, the mark is gone, and the count and the
      lock are as before. */
  lemma {:induction false} RollbackRuns(s: State, t: Tid, made: Partition)
    requires Unlocked(s) && At(s, t).Idle? && Open(s.pt) && !s.migrating && Fresh(made)
    ensures Leads(s, t, WholeRollback(made),
                  Stands(s, t, Idle, Some(s.pt.value.(bgrEnabled := true, doingOff := false)), false))
  {
    var p := s.pt.value.(bgrEnabled := true);
    var q := p.(doingOff := false);
    var held := [TryLock(Rollback), GetPartition(made, true), RollbackEnable];
    RollbackEnables(s, t, made);
    UnrefStep(s, t, RollbackEnabled, p, true);
    LeadsOn(s, t, held, Stands(s, t, RollbackEnabled, Some(Referenced(p)), true), Unref,
            Stands(s, t, RollbackDone, Some(p), true));
    EnableStep(s, t, p);
    LeadsOn(s, t, held + [Unref], Stands(s, t, RollbackDone, Some(p), true), RollbackClear,
            Stands(s, t, Ending, Some(q), true));
    UnlockStep(s, t, Some(q));
    LeadsOn(s, t, held + [Unref] + [RollbackClear], Stands(s, t, Ending, Some(q), true), Unlock,
            Stands(s, t, Idle, Some(q), false));
    assert held + [Unref] + [RollbackClear] + [Unlock] == WholeRollback(made);
    assert q == s.pt.value.(bgrEnabled := true, doingOff := false);
  }

  // ----- the two together, and what they mean for deletes and moves

  lemma {:induction false} Follows(s: State, t: Tid, a: seq<Action>, mid: State, u: Tid, b: seq<Action>, s': State)
    requires Leads(s, t, a, mid) && Leads(mid, u, b, s')
    ensures Run(s, Acts(t, a) + Acts(u, b)) == s'
  {
    RunOn(s, Acts(t, a), Acts(u, b));
  }

  /** Thread `t` is back where it was, and nobody is inside a locked region. */
  lemma {:induction false} BackIdle(s: State, t: Tid, u: Tid, pt: Option<Partition>, migrating: bool)
    requires Unlocked(s) && At(s, u).Idle?
    ensures Unlocked(Stands(s, t, Idle, pt, migrating)) && At(Stands(s, t, Idle, pt, migrating), u).Idle?
  {
  }

  /** A prepared offload refuses deletes and moves ... */
  lemma {:induction false} PreparedRefuses(s: State, t: Tid, u: Tid, shard: ShardId, made: Partition)
    requires Unlocked(s) && At(s, t).Idle? && At(s, u).Idle? && Open(s.pt) && !s.migrating && Fresh(made)
    requires s.pt.value.doingShardMoveN <= 0 && s.pt.value.pendingShardDeletes == {}
    ensures
      var p := s.pt.value;
      var off := Stands(s, t, Idle, Some(p.(doingOff := true, bgrEnabled := false)), false);
      var using := Stands(off, u, Using, Some(Referenced(p).(doingOff := true, bgrEnabled := false)), false);
      && Leads(s, t, WholePreOffload(made), off)
      && Leads(off, u, [Ref(DeletePlanned(shard)), DeleteStart], using)
      && Leads(off, u, [Ref(MovePlanned), MoveStart], using)
  {
    var p := s.pt.value.(doingOff := true, bgrEnabled := false);
    var off := Stands(s, t, Idle, Some(p), false);
    PreOffloadRuns(s, t, made);
    BackIdle(s, t, u, Some(p), false);
    DeleteBegins(off, u, shard);
    assert Referenced(s.pt.value).(doingOff := true, bgrEnabled := false) == Referenced(p);
    MoveRefused(off, u);
  }

  lemma {:induction false} MoveRefused(s: State, t: Tid)
    requires Unlocked(s) && At(s, t).Idle? && Open(s.pt) && s.pt.value.doingOff
    ensures Leads(s, t, [Ref(MovePlanned), MoveStart], Stands(s, t, Using, Some(Referenced(s.pt.value)), s.migrating))
  {
    var q := Referenced(s.pt.value);
    var planned := Stands(s, t, MovePlanned, Some(q), s.migrating);
    RefGranted(s, t, MovePlanned);
    FirstStep(s, t, Ref(MovePlanned), planned);
    Standing(s, t, MovePlanned, Some(q), s.migrating, Using);
    assert q.(doingShardMoveN := q.doingShardMoveN) == q;
    LeadsOn(s, t, [Ref(MovePlanned)], planned, MoveStart, Stands(s, t, Using, Some(q), s.migrating));
    assert [Ref(MovePlanned)] + [MoveStart] == [Ref(MovePlanned), MoveStart];
  }

  /** ... and rolling it back restores the partition as it was, so that a delete begins again. */
  lemma {:induction false} RollbackRestores(s: State, t: Tid, u: Tid, v: Tid, shard: ShardId, made: Partition)
    requires Unlocked(s) && At(s, t).Idle? && At(s, u).Idle? && At(s, v).Idle? && Open(s.pt)
    requires !s.migrating && Fresh(made)
    requires s.pt.value.bgrEnabled && !s.pt.value.doingOff
    ensures
      var back := Run(s, Acts(t, WholePreOffload(made)) + Acts(u, WholeRollback(made)));
      && back.pt == s.pt && !back.migrating && (forall w :: At(back, w) == At(s, w))
      && (shard in s.pt.value.shards && shard !in s.pt.value.pendingShardDeletes ==>
            At(Run(back, Acts(v, [Ref(DeletePlanned(shard)), DeleteStart])), v) == Deleting(shard))
  {
    var p := s.pt.value;
    var off := Stands(s, t, Idle, Some(Prepared(p)), false);
    PreOffloadRuns(s, t, made);
    BackIdle(s, t, u, Some(Prepared(p)), false);
    RollbackRuns(off, u, made);
    assert Prepared(p).(bgrEnabled := true, doingOff := false) == p;
    var back := Stands(off, u, Idle, Some(p), false);
    Follows(s, t, WholePreOffload(made), off, u, WholeRollback(made), back);
    BackIdle(s, t, v, Some(Prepared(p)), false);
    BackIdle(off, u, v, Some(p), false);
    DeleteBegins(back, v, shard);
  }

  // ----- offloading

  lemma {:induction false} GetOffload(s: State, t: Tid, p: Partition, made: Partition)
    requires Unlocked(s) && Fresh(made)
    ensures Next(Stands(s, t, Locked(Operation.Offload), Some(p), true), Event(t, GetPartition(made, true)))
         == Stands(s, t, OffGot, Some(p), true)
  {
    Standing(s, t, Locked(Operation.Offload), Some(p), true, OffGot);
  }

  lemma {:induction false} MarkStep(s: State, t: Tid, p: Partition)
    requires Unlocked(s) && !p.offloading
    ensures Next(Stands(s, t, OffGot, Some(p), true), Event(t, MarkOffload))
         == if p.exeCount == 0 then Stands(s, t, OffClosing, Some(p.(offloading := true)), true)
            else Stands(s, t, OffWait(false), Some(p.(offloading := true, ch := Some(t))), true)
  {
    Standing(s, t, OffGot, Some(p), true, OffClosing);
    Standing(s, t, OffGot, Some(p), true, OffWait(false));
  }

  lemma {:induction false} CloseStep(s: State, t: Tid, pt: Option<Partition>, ok: bool)
    requires Unlocked(s)
    ensures Next(Stands(s, t, OffClosing, pt, true), Event(t, Close(ok)))
         == Stands(s, t, if ok then OffClosed else OffFailed, pt, true)
  {
    Standing(s, t, OffClosing, pt, true, if ok then OffClosed else OffFailed);
  }

  lemma {:induction false} DropPartition(s: State, t: Tid, pt: Option<Partition>)
    requires Unlocked(s)
    ensures Next(Stands(s, t, OffClosed, pt, true), Event(t, Drop)) == Stands(s, t, Ending, None, true)
  {
    Standing(s, t, OffClosed, pt, true, Ending);
  }

  lemma {:induction false} UnMarkStep(s: State, t: Tid, pc: Pc, p: Partition)
    requires Unlocked(s) && (pc.OffGiveUp? || pc.OffFailed?) && p.offloading
    ensures Next(Stands(s, t, pc, Some(p), true), Event(t, UnMarkOffload))
         == Stands(s, t, Ending, Some(p.(offloading := false, ch := None)), true)
  {
    Standing(s, t, pc, Some(p), true, Ending);
  }

  /** An offload that has marked the partition. */
  lemma {:induction false} OffloadMarks(s: State, t: Tid, made: Partition)
    requires Unlocked(s) && At(s, t).Idle? && !s.migrating && s.pt.Some? && !s.pt.value.offloading && Fresh(made)
    ensures
      var p := s.pt.value;
      Leads(s, t, [TryLock(Operation.Offload), GetPartition(made, true), MarkOffload],
            if p.exeCount == 0 then Stands(s, t, OffClosing, Some(p.(offloading := true)), true)
            else Stands(s, t, OffWait(false), Some(p.(offloading := true, ch := Some(t))), true))
  {
    var p, lock, get := s.pt.value, TryLock(Operation.Offload), GetPartition(made, true);
    var locked, got := Stands(s, t, Locked(Operation.Offload), s.pt, true), Stands(s, t, OffGot, s.pt, true);
    LockStepAlone(s, t, Operation.Offload);
    FirstStep(s, t, lock, locked);
    GetOffload(s, t, p, made);
    LeadsOn(s, t, [lock], locked, get, got);
    MarkStep(s, t, p);
    LeadsOn(s, t, [lock] + [get], got, MarkOffload, Next(got, Event(t, MarkOffload)));
    assert [lock] + [get] + [MarkOffload] == [lock, get, MarkOffload];
  }

  /** Without references the partition is closed and dropped. */
  lemma {:induction false} OffloadDrops(s: State, t: Tid, made: Partition)
    requires Unlocked(s) && At(s, t).Idle? && !s.migrating && s.pt.Some? && !s.pt.value.offloading && Fresh(made)
    requires s.pt.value.exeCount == 0
    ensures Leads(s, t, [TryLock(Operation.Offload), GetPartition(made, true), MarkOffload, Close(true), Drop, Unlock],
                  Stands(s, t, Idle, None, false))
  {
    var marked := [TryLock(Operation.Offload), GetPartition(made, true), MarkOffload];
    var pt := Some(s.pt.value.(offloading := true));
    OffloadMarks(s, t, made);
    CloseStep(s, t, pt, true);
    LeadsOn(s, t, marked, Stands(s, t, OffClosing, pt, true), Close(true), Stands(s, t, OffClosed, pt, true));
    DropPartition(s, t, pt);
    LeadsOn(s, t, marked + [Close(true)], Stands(s, t, OffClosed, pt, true), Drop, Stands(s, t, Ending, None, true));
    UnlockStep(s, t, None);
    LeadsOn(s, t, marked + [Close(true)] + [Drop], Stands(s, t, Ending, None, true), Unlock,
            Stands(s, t, Idle, None, false));
    assert marked + [Close(true)] + [Drop] + [Unlock]
        == [TryLock(Operation.Offload), GetPartition(made, true), MarkOffload, Close(true), Drop, Unlock];
  }

  /** A close that fails leaves the partition as it was. */
  lemma {:induction false} CloseFails(s: State, t: Tid, made: Partition)
    requires Unlocked(s) && At(s, t).Idle? && !s.migrating && s.pt.Some? && !s.pt.value.offloading && Fresh(made)
    requires s.pt.value.exeCount == 0 && s.pt.value.ch.None?
    ensures Leads(
        s, t, [TryLock(Operation.Offload), GetPartition(made, true), MarkOffload, Close(false), UnMarkOffload, Unlock],
        Stands(s, t, Idle, s.pt, false))
  {
    var p, marked := s.pt.value, [TryLock(Operation.Offload), GetPartition(made, true), MarkOffload];
    var pt := Some(p.(offloading := true));
    OffloadMarks(s, t, made);
    CloseStep(s, t, pt, false);
    LeadsOn(s, t, marked, Stands(s, t, OffClosing, pt, true), Close(false), Stands(s, t, OffFailed, pt, true));
    UnMarkStep(s, t, OffFailed, pt.value);
    assert pt.value.(offloading := false, ch := None) == p;
    LeadsOn(s, t, marked + [Close(false)], Stands(s, t, OffFailed, pt, true), UnMarkOffload,
            Stands(s, t, Ending, s.pt, true));
    UnlockStep(s, t, s.pt);
    LeadsOn(s, t, marked + [Close(false)] + [UnMarkOffload], Stands(s, t, Ending, s.pt, true), Unlock,
            Stands(s, t, Idle, s.pt, false));
    assert marked + [Close(false)] + [UnMarkOffload] + [Unlock]
        == [TryLock(Operation.Offload), GetPartition(made, true), MarkOffload, Close(false), UnMarkOffload, Unlock];
  }

  lemma {:induction false} GiveUpStep(s: State, t: Tid, pt: Option<Partition>)
    requires Unlocked(s)
    ensures Next(Stands(s, t, OffWait(false), pt, true), Event(t, Timeout))
         == Stands(s, t, OffGiveUp(false), pt, true)
  {
    Standing(s, t, OffWait(false), pt, true, OffGiveUp(false));
  }

  /** And so does an offload that waits too long for references to go. */
  lemma {:induction false} OffloadTimesOut(s: State, t: Tid, made: Partition)
    requires Unlocked(s) && At(s, t).Idle? && !s.migrating && s.pt.Some? && !s.pt.value.offloading && Fresh(made)
    requires s.pt.value.exeCount != 0 && s.pt.value.ch.None?
    ensures Leads(
        s, t, [TryLock(Operation.Offload), GetPartition(made, true), MarkOffload, Timeout, UnMarkOffload, Unlock],
        Stands(s, t, Idle, s.pt, false))
  {
    var p, marked := s.pt.value, [TryLock(Operation.Offload), GetPartition(made, true), MarkOffload];
    var pt := Some(p.(offloading := true, ch := Some(t)));
    OffloadMarks(s, t, made);
    GiveUpStep(s, t, pt);
    LeadsOn(s, t, marked, Stands(s, t, OffWait(false), pt, true), Timeout, Stands(s, t, OffGiveUp(false), pt, true));
    UnMarkStep(s, t, OffGiveUp(false), pt.value);
    assert pt.value.(offloading := false, ch := None) == p;
    LeadsOn(s, t, marked + [Timeout], Stands(s, t, OffGiveUp(false), pt, true), UnMarkOffload,
            Stands(s, t, Ending, s.pt, true));
    UnlockStep(s, t, s.pt);
    LeadsOn(s, t, marked + [Timeout] + [UnMarkOffload], Stands(s, t, Ending, s.pt, true), Unlock,
            Stands(s, t, Idle, s.pt, false));
    assert marked + [Timeout] + [UnMarkOffload] + [Unlock]
        == [TryLock(Operation.Offload), GetPartition(made, true), MarkOffload, Timeout, UnMarkOffload, Unlock];
  }

  // ----- the last reference goes while an offload waits

  /** The last reference goes: the waiting thread is told, the channel is forgotten. */
  lemma {:induction false} LastReference(s: State, t: Tid, u: Tid, p: Partition)
    requires Unlocked(s) && u != t && p.exeCount == 1 && p.offloading && p.ch == Some(t)
    requires At(s, u).Using? && At(s, t) == OffWait(false) && s.pt == Some(p) && s.migrating
    ensures
      var gone := p.(exeCount := 0, ch := None);
      Leads(s, u, [Unref, Notify], State(Some(gone), true, s.threads[t := OffWait(true)][u := Idle]))
  {
    var zero := p.(exeCount := 0);
    var telling := Stands(s, u, Notifying(ToIdle), Some(zero), true);
    FirstStep(s, u, Unref, telling);
    var gone := p.(exeCount := 0, ch := None);
    assert s.threads[u := Notifying(ToIdle)][t := OffWait(true)][u := Idle] == s.threads[t := OffWait(true)][u := Idle];
    LeadsOn(s, u, [Unref], telling, Notify, State(Some(gone), true, s.threads[t := OffWait(true)][u := Idle]));
    assert [Unref] + [Notify] == [Unref, Notify];
  }

  lemma {:induction false} ReceiveStep(s: State, t: Tid, pt: Option<Partition>)
    requires Unlocked(s)
    ensures Next(Stands(s, t, OffWait(true), pt, true), Event(t, Receive)) == Stands(s, t, OffClosing, pt, true)
  {
    Standing(s, t, OffWait(true), pt, true, OffClosing);
  }

  /** An offloader that was told closes and drops the partition. */
  lemma {:induction false} ToldOffloads(s: State, t: Tid)
    requires Unlocked(s) && At(s, t) == OffWait(true) && t in s.threads && s.migrating
    ensures Leads(s, t, [Receive, Close(true), Drop, Unlock], Stands(s, t, Idle, None, false))
  {
    assert s.threads[t := OffWait(true)] == s.threads;
    assert s == Stands(s, t, OffWait(true), s.pt, true);
    ReceiveStep(s, t, s.pt);
    FirstStep(s, t, Receive, Stands(s, t, OffClosing, s.pt, true));
    CloseStep(s, t, s.pt, true);
    LeadsOn(s, t, [Receive], Stands(s, t, OffClosing, s.pt, true), Close(true), Stands(s, t, OffClosed, s.pt, true));
    DropPartition(s, t, s.pt);
    LeadsOn(s, t, [Receive] + [Close(true)], Stands(s, t, OffClosed, s.pt, true), Drop,
            Stands(s, t, Ending, None, true));
    UnlockStep(s, t, None);
    LeadsOn(s, t, [Receive] + [Close(true)] + [Drop], Stands(s, t, Ending, None, true), Unlock,
            Stands(s, t, Idle, None, false));
    assert [Receive] + [Close(true)] + [Drop] + [Unlock] == [Receive, Close(true), Drop, Unlock];
  }

  /** An offload that finds one reference waits for it to go, and then drops the partition. */
  lemma {:induction false} OffloadAfterLast(s: State, t: Tid, u: Tid, made: Partition)
    requires Unlocked(s) && At(s, t).Idle? && !s.migrating && s.pt.Some? && !s.pt.value.offloading && Fresh(made)
    requires u != t && At(s, u).Using? && s.pt.value.exeCount == 1
    ensures
      var marked := Run(s, Acts(t, [TryLock(Operation.Offload), GetPartition(made, true), MarkOffload]));
      var told := Run(marked, Acts(u, [Unref, Notify]));
      var done := Run(told, Acts(t, [Receive, Close(true), Drop, Unlock]));
      && At(marked, t) == OffWait(false) && !Open(marked.pt)
      && At(told, t) == OffWait(true) && At(told, u).Idle?
      && done.pt.None? && !done.migrating && At(done, t).Idle?
  {
    var p := s.pt.value.(offloading := true, ch := Some(t));
    var marked := Stands(s, t, OffWait(false), Some(p), true);
    OffloadMarks(s, t, made);
    Standing(s, t, OffWait(false), Some(p), true, OffWait(true));
    LastReference(marked, t, u, p);
    var told := State(Some(p.(exeCount := 0, ch := None)), true, marked.threads[t := OffWait(true)][u := Idle]);
    assert Unlocked(told) by {
      StaysUnlocked(marked, t, OffWait(true), Go(marked, t, OffWait(true)));
      StaysUnlocked(Go(marked, t, OffWait(true)), u, Idle, told);
    }
    ToldOffloads(told, t);
  }

  // ----- loading a partition

  lemma {:induction false} GetLoads(s: State, t: Tid, op: Operation, made: Partition)
    requires Unlocked(s) && Fresh(made) && (op.Assign? || op.PreAssign?)
    ensures Next(Stands(s, t, Locked(op), None, true), Event(t, GetPartition(made, true)))
         == Stands(s, t, Ending, Some(made.(preload := op.PreAssign?)), true)
  {
    Standing(s, t, Locked(op), None, true, Ending);
  }

  lemma {:induction false} GetAgain(s: State, t: Tid, op: Operation, p: Partition, made: Partition)
    requires Unlocked(s) && Fresh(made) && (op.Assign? || op.PreAssign?)
    ensures Next(Stands(s, t, Locked(op), Some(p), true), Event(t, GetPartition(made, true)))
         == Stands(s, t, Ending, Some(if op.Assign? then p.(preload := false) else p), true)
  {
    Standing(s, t, Locked(op), Some(p), true, Ending);
  }

  function WholeLoad(op: Operation, made: Partition): seq<Action> {
    [TryLock(op), GetPartition(made, true), Unlock]
  }

  /** PreAssign and Assign from their lock to their end: a partition that is not there is loaded, and one that is
      there is kept. Requests may use it after an Assign and not before. */
  lemma {:induction false} LoadRuns(s: State, t: Tid, op: Operation, made: Partition)
    requires Unlocked(s) && At(s, t).Idle? && !s.migrating && Fresh(made) && (op.Assign? || op.PreAssign?)
    ensures
      var loaded := Run(s, Acts(t, WholeLoad(op, made)));
      && !loaded.migrating && At(loaded, t).Idle? && loaded.pt.Some?
      && loaded.pt.value == (if s.pt.Some? then s.pt.value else made).(preload := loaded.pt.value.preload)
      && (op.Assign? ==> !loaded.pt.value.preload)
      && (op.PreAssign? ==> loaded.pt.value.preload == (s.pt.None? || s.pt.value.preload))
  {
    var lock, get := TryLock(op), GetPartition(made, true);
    var locked := Stands(s, t, Locked(op), s.pt, true);
    LockStepAlone(s, t, op);
    FirstStep(s, t, lock, locked);
    if s.pt.Some? {
      GetAgain(s, t, op, s.pt.value, made);
    } else {
      GetLoads(s, t, op, made);
    }
    var got := Next(locked, Event(t, get));
    LeadsOn(s, t, [lock], locked, get, got);
    UnlockStep(s, t, got.pt);
    LeadsOn(s, t, [lock] + [get], got, Unlock, Stands(s, t, Idle, got.pt, false));
    assert [lock] + [get] + [Unlock] == WholeLoad(op, made);
  }

  lemma {:induction false} GetFails(s: State, t: Tid, op: Operation, pt: Option<Partition>, made: Partition)
    requires Unlocked(s) && Fresh(made) && op.Assign? && (pt.Some? ==> pt.value.preload)
    ensures Next(Stands(s, t, Locked(op), pt, true), Event(t, GetPartition(made, false)))
         == Stands(s, t, if pt.Some? then OffGot else Ending, pt, true)
  {
    Standing(s, t, Locked(op), pt, true, if pt.Some? then OffGot else Ending);
  }

  /** A load that fails leaves no partition behind: what was loaded before is offloaded. */
  lemma {:induction false} LoadFails(s: State, t: Tid, made: Partition)
    requires Unlocked(s) && At(s, t).Idle? && !s.migrating && Fresh(made)
    requires s.pt.Some? && s.pt.value.preload && !s.pt.value.offloading && s.pt.value.exeCount == 0
    ensures Leads(s, t, [TryLock(Assign), GetPartition(made, false), MarkOffload, Close(true), Drop, Unlock],
                  Stands(s, t, Idle, None, false))
  {
    var lock, get, marked := TryLock(Assign), GetPartition(made, false), Some(s.pt.value.(offloading := true));
    var locked, got := Stands(s, t, Locked(Assign), s.pt, true), Stands(s, t, OffGot, s.pt, true);
    LockStepAlone(s, t, Assign);
    FirstStep(s, t, lock, locked);
    GetFails(s, t, Assign, s.pt, made);
    LeadsOn(s, t, [lock], locked, get, got);
    MarkStep(s, t, s.pt.value);
    LeadsOn(s, t, [lock] + [get], got, MarkOffload, Stands(s, t, OffClosing, marked, true));
    CloseStep(s, t, marked, true);
    LeadsOn(s, t, [lock] + [get] + [MarkOffload], Stands(s, t, OffClosing, marked, true), Close(true),
            Stands(s, t, OffClosed, marked, true));
    DropPartition(s, t, marked);
    LeadsOn(s, t, [lock] + [get] + [MarkOffload] + [Close(true)], Stands(s, t, OffClosed, marked, true), Drop,
            Stands(s, t, Ending, None, true));
    UnlockStep(s, t, None);
    LeadsOn(s, t, [lock] + [get] + [MarkOffload] + [Close(true)] + [Drop], Stands(s, t, Ending, None, true), Unlock,
            Stands(s, t, Idle, None, false));
    assert [lock] + [get] + [MarkOffload] + [Close(true)] + [Drop] + [Unlock]
        == [TryLock(Assign), GetPartition(made, false), MarkOffload, Close(true), Drop, Unlock];
  }

  /** A partition that is created is there and open, unless there was one, which is kept. */
  lemma {:induction false} CreateRuns(s: State, t: Tid, made: Partition)
    requires At(s, t).Idle? && Fresh(made) && !made.preload
    ensures Next(s, Event(t, Create(made))) == s.(pt := if s.pt.Some? then s.pt else Some(made))
    ensures
      var pt := Next(s, Event(t, Create(made))).pt;
      s.pt.None? ==>
        && Open(pt) && pt.value.exeCount == 0 && pt.value.bgrEnabled && !pt.value.doingOff
        && pt.value.doingShardMoveN == 0 && pt.value.pendingShardDeletes == {}
  {
  }
}
