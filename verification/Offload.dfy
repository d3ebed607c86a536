/** Reference counting, offload and migration of one partition, as a state machine whose steps are the
    regions the engine executes under a lock. Threads interleave arbitrarily; a timeout may fire at any time. */
module Offload {
  import opened Records

  type Tid = nat
  type ShardId = nat

  /** The fields of a partition the protocol uses. The notification channel is named by the thread that made it. */
  datatype Partition = Partition(
    exeCount: int,
    offloading: bool,
    preload: bool,
    ch: Option<Tid>,
    bgrEnabled: bool,
    doingOff: bool,
    doingShardMoveN: int,
    shards: set<ShardId>,
    pendingShardDeletes: set<ShardId>)

  datatype Operation = PreOffload | Rollback | Offload | Assign | PreAssign

  /** Where a thread goes on once it has dropped its reference. */
  datatype Resume = ToIdle | ToEnding | ToRollbackClear

  /** Where a thread is. */
  datatype Pc =
    | Idle
    // requests: these hold a reference
    | Using
    | DeletePlanned(shard: ShardId)
    | Deleting(shard: ShardId)
    | MovePlanned
    // a shard move; the counter has been read and is to be written back, or the move is counted
    | MoveStarting(read: int)
    | Moving
    | MoveEnding(read: int)
    // inside unref, read locks held: the count reached zero and the waiter is to be told
    | Notifying(resume: Resume)
    // migration operations: these hold the migration lock of the partition
    | Locked(op: Operation)
    | PreHeld
    | PreMarked
    | PreDone
    | RollbackHeld
    | RollbackEnabled
    | RollbackDone
    | OffGot
    | OffWait(signalled: bool)
    | OffGiveUp(signalled: bool)
    | OffClosing
    | OffFailed
    | OffClosed
    | Ending

  /** The partition if the engine has it, its migration lock, and its threads. */
  datatype State = State(pt: Option<Partition>, migrating: bool, threads: map<Tid, Pc>)

  datatype Action =
    | Ref(purpose: Pc)
    | DeleteStart
    | DeleteEnd
    | MoveStart
    | MoveCount
    | MoveEnd
    | MoveUncount
    | Unref
    | Notify
    | TryLock(op: Operation)
    | Create(made: Partition)
    | GetPartition(made: Partition, loads: bool)
    | PreCheck
    | PreDisable
    | RollbackEnable
    | RollbackClear
    | MarkOffload
    | Receive
    | Timeout
    | UnMarkOffload
    | Close(ok: bool)
    | Drop
    | Unlock

  predicate Request(pc: Pc) {
    pc.Using? || pc.DeletePlanned? || pc.MovePlanned?
  }

  predicate HoldsRef(pc: Pc) {
    || pc.Using? || pc.DeletePlanned? || pc.Deleting?
    || pc.MovePlanned? || pc.MoveStarting? || pc.Moving? || pc.MoveEnding?
    || pc.PreHeld? || pc.PreMarked? || pc.PreDone? || pc.RollbackHeld? || pc.RollbackEnabled?
  }

  predicate HoldsLock(pc: Pc) {
    || pc.Locked? || pc.PreHeld? || pc.PreMarked? || pc.PreDone?
    || pc.RollbackHeld? || pc.RollbackEnabled? || pc.RollbackDone?
    || pc.OffGot? || OffActive(pc) || pc.Ending?
    || (pc.Notifying? && pc.resume != ToIdle)
  }

  /** The thread has marked the partition and not yet unmarked or dropped it. */
  predicate OffActive(pc: Pc) {
    pc.OffWait? || pc.OffGiveUp? || pc.OffClosing? || pc.OffFailed? || pc.OffClosed?
  }

  /** Still waiting to be told that all references are gone. */
  predicate Unsignalled(pc: Pc) {
    (pc.OffWait? || pc.OffGiveUp?) && !pc.signalled
  }

  predicate Fresh(p: Partition) {
    && p.exeCount == 0 && !p.offloading && p.ch.None?
    && p.bgrEnabled && !p.doingOff && p.doingShardMoveN == 0 && p.pendingShardDeletes == {}
  }

  function At(s: State, t: Tid): Pc {
    if t in s.threads then s.threads[t] else Idle
  }

  function Go(s: State, t: Tid, pc: Pc): State {
    s.(threads := s.threads[t := pc])
  }

  function GoWith(s: State, t: Tid, pc: Pc, p: Partition): State {
    s.(threads := s.threads[t := pc], pt := Some(p))
  }

  /** Some thread is inside unref with the partition's read lock; writers must wait. */
  ghost predicate ReadLocked(s: State) {
    exists t :: t in s.threads && s.threads[t].Notifying?
  }

  /** Some thread is starting a shard move with the partition's write lock; all others must wait. */
  ghost predicate WriteLocked(s: State) {
    exists t :: t in s.threads && s.threads[t].MoveStarting?
  }

  ghost predicate Unlocked(s: State) {
    !ReadLocked(s) && !WriteLocked(s)
  }

  // ----- steps of requests: any read or write, shard deletion, shard move

  /** ref: refused while the partition is being offloaded or preloaded, or is not there. */
  ghost function DoRef(s: State, t: Tid, purpose: Pc): Option<State> {
    if !At(s, t).Idle? || !Request(purpose) || WriteLocked(s) then None
    else if s.pt.None? || s.pt.value.offloading || s.pt.value.preload then Some(s)
    else Some(GoWith(s, t, purpose, s.pt.value.(exeCount := s.pt.value.exeCount + 1)))
  }

  ghost function DoDelete(s: State, t: Tid, start: bool): Option<State> {
    if s.pt.None? || !Unlocked(s) then None
    else
      var p := s.pt.value;
      match At(s, t)
      case DeletePlanned(shard) =>
        if !start then None
        else if !p.bgrEnabled || shard !in p.shards || shard in p.pendingShardDeletes then Some(Go(s, t, Using))
        else
          var pending := p.pendingShardDeletes + {shard};
          Some(GoWith(s, t, Deleting(shard), p.(shards := p.shards - {shard}, pendingShardDeletes := pending)))
      case Deleting(shard) =>
        if start then None
        else Some(GoWith(s, t, Using, p.(pendingShardDeletes := p.pendingShardDeletes - {shard})))
      case _ => None
  }

  /** Where a shard move goes on, and the counter it leaves. The counter is raised with the lock held and lowered
      without it; either way it is read, and written back in a step of its own. */
  function MoveOn(p: Partition, pc: Pc, a: Action): Option<(Pc, int)> {
    match (pc, a)
    case (MovePlanned, MoveStart) =>
      Some((if p.doingOff then Using else MoveStarting(p.doingShardMoveN), p.doingShardMoveN))
    case (MoveStarting(read), MoveCount) => Some((Moving, read + 1))
    case (Moving, MoveEnd) => Some((MoveEnding(p.doingShardMoveN), p.doingShardMoveN))
    case (MoveEnding(read), MoveUncount) => Some((Using, read - 1))
    case _ => None
  }

  ghost function DoMove(s: State, t: Tid, a: Action): Option<State> {
    if s.pt.None? || (a.MoveStart? && !Unlocked(s)) then None
    else
      match MoveOn(s.pt.value, At(s, t), a)
      case None => None
      case Some((pc, n)) => Some(GoWith(s, t, pc, s.pt.value.(doingShardMoveN := n)))
  }

  function AfterUnref(pc: Pc): Option<Resume> {
    match pc
    case Using => Some(ToIdle)
    case PreDone => Some(ToEnding)
    case RollbackEnabled => Some(ToRollbackClear)
    case _ => None
  }

  function ResumeAt(r: Resume): Pc {
    match r
    case ToIdle => Idle
    case ToEnding => Ending
    case ToRollbackClear => RollbackDone
  }

  /** unref, first half: the atomic decrement. With the partition gone it panics. */
  ghost function DoUnref(s: State, t: Tid): Option<State> {
    var after := AfterUnref(At(s, t));
    if after.None? || s.pt.None? || WriteLocked(s) then None
    else
      var p := s.pt.value.(exeCount := s.pt.value.exeCount - 1);
      var last := p.offloading && p.exeCount == 0;
      Some(GoWith(s, t, if last then Notifying(after.value) else ResumeAt(after.value), p))
  }

  /** unref, second half: send on the channel, close it and forget it. Without a channel it panics. */
  ghost function DoNotify(s: State, t: Tid): Option<State> {
    if !At(s, t).Notifying? || s.pt.None? || s.pt.value.ch.None? then None
    else
      var waiter := s.pt.value.ch.value;
      Some(GoWith(Go(s, waiter, Told(At(s, waiter))), t, ResumeAt(At(s, t).resume), s.pt.value.(ch := None)))
  }

  function Told(pc: Pc): Pc {
    match pc
    case OffWait(_) => OffWait(true)
    case OffGiveUp(_) => OffGiveUp(true)
    case _ => pc
  }

  // ----- steps of the migration operations

  ghost function DoTryLock(s: State, t: Tid, op: Operation): Option<State> {
    if !At(s, t).Idle? then None
    else if s.migrating then Some(s)
    else Some(Go(s, t, Locked(op)).(migrating := true))
  }

  /** CreateDBPT: adds a partition unless there is one, without the migration lock. */
  ghost function DoCreate(s: State, t: Tid, made: Partition): Option<State> {
    if !At(s, t).Idle? || !Fresh(made) || made.preload then None
    else if s.pt.Some? then Some(s)
    else Some(s.(pt := Some(made)))
  }

  /** The operation finds the partition or not. A load that fails offloads what it was loading. */
  ghost function DoGetPartition(s: State, t: Tid, made: Partition, loads: bool): Option<State> {
    if !At(s, t).Locked? || !Fresh(made) then None
    else
      var op := At(s, t).op;
      if s.pt.None? then
        if loads && (op.Assign? || op.PreAssign?) then Some(GoWith(s, t, Ending, made.(preload := op.PreAssign?)))
        else Some(Go(s, t, Ending))
      else
        var p := s.pt.value;
        match op
        case Assign =>
          if !p.preload then Some(Go(s, t, Ending))
          else if loads then Some(GoWith(s, t, Ending, p.(preload := false)))
          else Some(Go(s, t, OffGot))
        case PreAssign => Some(Go(s, t, Ending))
        case Offload => Some(Go(s, t, OffGot))
        case _ =>
          if WriteLocked(s) then None
          else if p.offloading || p.preload then Some(Go(s, t, Ending))
          else Some(GoWith(s, t, if op.PreOffload? then PreHeld else RollbackHeld, p.(exeCount := p.exeCount + 1)))
  }

  ghost function DoFlags(s: State, t: Tid, a: Action): Option<State> {
    if s.pt.None? || !Unlocked(s) then None
    else
      var p := s.pt.value;
      match (At(s, t), a)
      case (PreHeld, PreCheck) =>
        if p.doingShardMoveN > 0 then Some(Go(s, t, PreDone))
        else Some(GoWith(s, t, PreMarked, p.(doingOff := true)))
      case (PreMarked, PreDisable) =>
        if p.pendingShardDeletes != {} then Some(Go(s, t, PreDone))
        else Some(GoWith(s, t, PreDone, p.(bgrEnabled := false)))
      case (RollbackHeld, RollbackEnable) => Some(GoWith(s, t, RollbackEnabled, p.(bgrEnabled := true)))
      case (RollbackDone, RollbackClear) => Some(GoWith(s, t, Ending, p.(doingOff := false)))
      case _ => None
  }

  /** markOffload: a partition already marked, or still referenced, makes the caller wait. */
  ghost function DoMark(s: State, t: Tid): Option<State> {
    if !At(s, t).OffGot? || s.pt.None? || !Unlocked(s) then None
    else
      var p := s.pt.value;
      if p.offloading then Some(Go(s, t, OffWait(false)))
      else if p.exeCount == 0 then Some(GoWith(s, t, OffClosing, p.(offloading := true)))
      else Some(GoWith(s, t, OffWait(false), p.(offloading := true, ch := Some(t))))
  }

  ghost function DoUnMark(s: State, t: Tid): Option<State> {
    if !(At(s, t).OffGiveUp? || At(s, t).OffFailed?) || s.pt.None? || !Unlocked(s) then None
    else
      var p := s.pt.value;
      Some(GoWith(s, t, Ending, if p.offloading then p.(offloading := false, ch := None) else p))
  }

  ghost function DoWait(s: State, t: Tid, a: Action): Option<State> {
    match (At(s, t), a)
    case (OffWait(true), Receive) => Some(Go(s, t, OffClosing))
    case (OffWait(told), Timeout) => Some(Go(s, t, OffGiveUp(told)))
    case (OffClosing, Close(ok)) => if !Unlocked(s) then None else Some(Go(s, t, if ok then OffClosed else OffFailed))
    case (OffClosed, Drop) => if ReadLocked(s) then None else Some(Go(s, t, Ending).(pt := None))
    case (Ending, Unlock) => Some(Go(s, t, Idle).(migrating := false))
    case _ => None
  }

  /** One step of thread `t`, or None if the thread cannot take it now. */
  ghost function Do(s: State, t: Tid, a: Action): Option<State> {
    match a
    case Ref(purpose) => DoRef(s, t, purpose)
    case DeleteStart => DoDelete(s, t, true)
    case DeleteEnd => DoDelete(s, t, false)
    case MoveStart => DoMove(s, t, a)
    case MoveCount => DoMove(s, t, a)
    case MoveEnd => DoMove(s, t, a)
    case MoveUncount => DoMove(s, t, a)
    case Unref => DoUnref(s, t)
    case Notify => DoNotify(s, t)
    case TryLock(op) => DoTryLock(s, t, op)
    case Create(made) => DoCreate(s, t, made)
    case GetPartition(made, loads) => DoGetPartition(s, t, made, loads)
    case MarkOffload => DoMark(s, t)
    case UnMarkOffload => DoUnMark(s, t)
    case PreCheck => DoFlags(s, t, a)
    case PreDisable => DoFlags(s, t, a)
    case RollbackEnable => DoFlags(s, t, a)
    case RollbackClear => DoFlags(s, t, a)
    case _ => DoWait(s, t, a)
  }
}
