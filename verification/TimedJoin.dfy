/**
 The fallback pthread_timedjoin_np (FFmpegKitConfig.cpp): the caller and an internal waiter
 thread share one heap block, and whoever is last to use it must free it. One event is one
 action of one thread between two points where the other may run.
 */
module TimedJoin {

  /** Why pthread_cond_timedwait returned. */
  datatype Wake = Signalled | Interrupted | DeadlinePassed | OtherError

  datatype CallerPc =
    | Allocated      // calloc() returned the block
    | Initialised    // mutex and condition variable exist
    | Created        // pthread_create() returned 0
    | Locked         // at the loop test, mutex held
    | InWait         // inside pthread_cond_timedwait, mutex released
    | Woken(why: Wake) // wants the mutex back
    | LoopLeft       // after the loop, mutex held
    | HandedOver     // detached = 1 stored, mutex held
    | TimeoutReturned
    | ResultCopied   // actual_join_rc copied, mutex held
    | Joining        // pthread_join(waiter_thread)
    | Joined         // the waiter thread has ended
    | Returned       // block freed on the success path
    | SetupFailed    // block freed on an error path

  datatype WaiterPc =
    | NotCreated
    | JoiningTarget  // pthread_join(args->td)
    | HasResult      // wants the mutex
    | WaiterLocked
    | Published      // joined = 1 stored, detached read, mutex still held
    | Unlocked       // tests its local copy of detached
    | Exited

  datatype Holder = Nobody | CallerHolds | WaiterHolds

  /**
   `frees` counts the calls of free(args). `seen` is the waiter's local copy of detached. `hasRes`
   says that the caller has passed a place for the result, `wrote` that it was stored there.
   */
  datatype State = State(
    caller: CallerPc, waiter: WaiterPc, mutex: Holder, targetRc: int, targetEnded: bool,
    joined: bool, detached: bool, joinRc: int, callerRc: int, seen: bool, frees: nat, hasRes: bool, wrote: bool)

  datatype Event =
    | Setup | SetupError | CreateThread
    | CallerLock | TestJoined | WakeUp(why: Wake) | Relock | LeaveLoop
    | HandOver | CopyResult | JoinWaiter | CallerFree
    | TargetEnds | WaiterJoins | WaiterLock | Publish | WaiterUnlock | WaiterEnds

  function Init(targetRc: int, hasRes: bool): State {
    State(Allocated, NotCreated, Nobody, targetRc, false, false, false, 0, 0, false, 0, hasRes, false)
  }

  predicate Enabled(s: State, e: Event) {
    match e
    case Setup => s.caller.Allocated?
    case SetupError => s.caller.Allocated? || s.caller.Initialised?
    case CreateThread => s.caller.Initialised?
    case CallerLock => s.caller.Created? && s.mutex.Nobody?
    case TestJoined => s.caller.Locked?
    case WakeUp(_) => s.caller.InWait?
    case Relock => s.caller.Woken? && s.mutex.Nobody?
    case LeaveLoop => s.caller.LoopLeft?
    case HandOver => s.caller.HandedOver?
    case CopyResult => s.caller.ResultCopied?
    case JoinWaiter => s.caller.Joining? && s.waiter.Exited?
    case CallerFree => s.caller.Joined?
    case TargetEnds => !s.targetEnded
    case WaiterJoins => s.waiter.JoiningTarget? && s.targetEnded
    case WaiterLock => s.waiter.HasResult? && s.mutex.Nobody?
    case Publish => s.waiter.WaiterLocked?
    case WaiterUnlock => s.waiter.Published?
    case WaiterEnds => s.waiter.Unlocked?
  }

  function Next(s: State, e: Event): State
    requires Enabled(s, e)
  {
    match e
    case Setup => s.(caller := Initialised)
    case SetupError => s.(caller := SetupFailed, frees := s.frees + 1)
    case CreateThread => s.(caller := Created, waiter := JoiningTarget)
    case CallerLock => s.(caller := Locked, mutex := CallerHolds)
    case TestJoined =>
      if s.joined then s.(caller := LoopLeft)
      else s.(caller := InWait, mutex := Nobody)
    case WakeUp(why) => s.(caller := Woken(why))
    case Relock =>
      if s.caller.why.Signalled? || s.caller.why.Interrupted? then s.(caller := Locked, mutex := CallerHolds)
      else s.(caller := LoopLeft, mutex := CallerHolds)
    case LeaveLoop =>
      if !s.joined then s.(caller := HandedOver, detached := true)
      else s.(caller := ResultCopied, callerRc := s.joinRc)
    case HandOver => s.(caller := TimeoutReturned, mutex := Nobody)
    case CopyResult => s.(caller := Joining, mutex := Nobody)
    case JoinWaiter => s.(caller := Joined)
    case CallerFree => s.(caller := Returned, frees := s.frees + 1)
    case TargetEnds => s.(targetEnded := true)
    case WaiterJoins => s.(waiter := HasResult)
    case WaiterLock => s.(waiter := WaiterLocked, mutex := WaiterHolds)
    case Publish =>
      s.(waiter := Published, joined := true, joinRc := s.targetRc, seen := s.detached, wrote := s.targetRc == 0 && s.hasRes)
    case WaiterUnlock => s.(waiter := Unlocked, mutex := Nobody)
    case WaiterEnds => if s.seen then s.(waiter := Exited, frees := s.frees + 1) else s.(waiter := Exited)
  }

  /** The action reads, writes, locks or frees the shared block. */
  predicate Touches(s: State, e: Event) {
    !e.TargetEnds? && !e.JoinWaiter? && (e.WaiterEnds? ==> s.seen)
  }

  predicate Legal(s: State, es: seq<Event>)
    decreases |es|
  {
    es == [] || (Enabled(s, es[0]) && Legal(Next(s, es[0]), es[1..]))
  }

  function After(s: State, es: seq<Event>): State
    requires Legal(s, es)
    decreases |es|
  {
    if es == [] then s else After(Next(s, es[0]), es[1..])
  }

  /** The run leads from s to t. */
  predicate Leads(s: State, es: seq<Event>, t: State) {
    Legal(s, es) && After(s, es) == t
  }

  // ---- The inductive invariant ----------------------------------------------------------------

  predicate CallerHoldsMutex(pc: CallerPc) {
    pc.Locked? || pc.LoopLeft? || pc.HandedOver? || pc.ResultCopied?
  }

  predicate WaiterHoldsMutex(pc: WaiterPc) {
    pc.WaiterLocked? || pc.Published?
  }

  predicate PublishedPc(pc: WaiterPc) {
    pc.Published? || pc.Unlocked? || pc.Exited?
  }

  predicate TimedOutPc(pc: CallerPc) {
    pc.HandedOver? || pc.TimeoutReturned?
  }

  predicate SuccessPc(pc: CallerPc) {
    pc.ResultCopied? || pc.Joining? || pc.Joined? || pc.Returned?
  }

  predicate BeforeThread(pc: CallerPc) {
    pc.Allocated? || pc.Initialised? || pc.SetupFailed?
  }

  /** Who has freed the block: an error path, the successful caller, or the waiter it was handed to. */
  predicate OwnerFreed(s: State) {
    s.caller.SetupFailed? || s.caller.Returned? || (s.waiter.Exited? && s.seen)
  }

  predicate Inv(s: State) {
    && (CallerHoldsMutex(s.caller) <==> s.mutex.CallerHolds?)
    && (WaiterHoldsMutex(s.waiter) <==> s.mutex.WaiterHolds?)
    && (BeforeThread(s.caller) <==> s.waiter.NotCreated?)
    && (s.joined <==> PublishedPc(s.waiter))
    && (s.detached <==> TimedOutPc(s.caller))
    && (s.caller.HandedOver? ==> !s.joined)
    && (PublishedPc(s.waiter) && s.seen ==> s.detached)
    && (TimedOutPc(s.caller) && PublishedPc(s.waiter) ==> s.seen)
    && (SuccessPc(s.caller) ==> s.joined && !s.seen && s.callerRc == s.targetRc)
    && (s.caller.Joined? || s.caller.Returned? ==> s.waiter.Exited?)
    && (s.joined ==> s.joinRc == s.targetRc)
    && (!s.joined ==> !s.seen)
    && (s.wrote <==> s.joined && s.targetRc == 0 && s.hasRes)
    && s.frees == (if OwnerFreed(s) then 1 else 0)
  }

  lemma StepKeepsInv(s: State, e: Event)
    requires Inv(s) && Enabled(s, e)
    ensures Inv(Next(s, e)) && Next(s, e).targetRc == s.targetRc && Next(s, e).hasRes == s.hasRes
    ensures Touches(s, e) ==> s.frees == 0
  {
  }

  lemma {:induction false} RunKeepsInv(s: State, es: seq<Event>)
    requires Inv(s) && Legal(s, es)
    ensures Inv(After(s, es)) && After(s, es).targetRc == s.targetRc && After(s, es).hasRes == s.hasRes
    decreases |es|
  {
    if es != [] {
      StepKeepsInv(s, es[0]);
      RunKeepsInv(Next(s, es[0]), es[1..]);
    }
  }

  // ---- Main results -----------------------------------------------------------------------------

  predicate CallerDone(pc: CallerPc) {
    pc.TimeoutReturned? || pc.Returned? || pc.SetupFailed?
  }

  predicate WaiterDone(pc: WaiterPc) {
    pc.NotCreated? || pc.Exited?
  }

  /** No interleaving uses the block after it was freed, and none frees it twice. */
  lemma NoUseAfterFree(targetRc: int, hasRes: bool, es: seq<Event>, s: State, e: Event)
    requires Leads(Init(targetRc, hasRes), es, s) && Enabled(s, e)
    ensures Touches(s, e) ==> s.frees == 0
    ensures Next(s, e).frees <= 1
  {
    RunKeepsInv(Init(targetRc, hasRes), es);
    StepKeepsInv(s, e);
  }

  /** Once both sides are finished, exactly one of them has freed the block: never a leak. */
  lemma FreedExactlyOnce(targetRc: int, hasRes: bool, es: seq<Event>, s: State)
    requires Leads(Init(targetRc, hasRes), es, s)
    requires CallerDone(s.caller) && WaiterDone(s.waiter)
    ensures s.frees == 1
  {
    RunKeepsInv(Init(targetRc, hasRes), es);
  }

  /** The success path returns what the waiter's pthread_join returned, and only after it did. */
  lemma SuccessReturnsTheJoinResult(targetRc: int, hasRes: bool, es: seq<Event>, s: State)
    requires Leads(Init(targetRc, hasRes), es, s) && s.caller.Returned?
    ensures s.callerRc == targetRc
    ensures s.waiter.Exited?
  {
    RunKeepsInv(Init(targetRc, hasRes), es);
  }

  /** Neither side can be stuck: unless both are finished, the caller, the waiter or the target can move. */
  lemma NoDeadlock(targetRc: int, hasRes: bool, es: seq<Event>, s: State) returns (e: Event)
    requires Leads(Init(targetRc, hasRes), es, s)
    requires !CallerDone(s.caller) || !WaiterDone(s.waiter)
    ensures Enabled(s, e)
    ensures e.TargetEnds? ==> s.waiter.JoiningTarget?
  {
    RunKeepsInv(Init(targetRc, hasRes), es);
    match s.waiter
    case NotCreated => e := SetupError;
    case JoiningTarget => e := if s.targetEnded then WaiterJoins else TargetEnds;
    case WaiterLocked => e := Publish;
    case Published => e := WaiterUnlock;
    case Unlocked => e := WaiterEnds;
    case HasResult => e := if s.mutex.Nobody? then WaiterLock else CallerMove(s);
    case Exited => e := CallerMove(s);
  }

  function CallerMove(s: State): (e: Event)
    requires Inv(s) && !CallerDone(s.caller) && !BeforeThread(s.caller)
    requires s.mutex.CallerHolds? || s.waiter.Exited?
    ensures Enabled(s, e) && !e.TargetEnds?
  {
    match s.caller
    case Created => CallerLock
    case Locked => TestJoined
    case InWait => WakeUp(Signalled)
    case Woken(_) => Relock
    case LoopLeft => LeaveLoop
    case HandedOver => HandOver
    case ResultCopied => CopyResult
    case Joining => JoinWaiter
    case Joined => CallerFree
  }

  // ---- The result that arrives late -------------------------------------------------------------

  /** The waiter can still store the result. */
  ghost predicate WriteCanFollow(s: State) {
    !s.wrote && exists es: seq<Event> :: Legal(s, es) && After(s, es).wrote
  }

  /** What the waiter has left to do before it publishes. */
  function ToPublish(s: State): seq<Event> {
    match s.waiter
    case JoiningTarget => (if s.targetEnded then [] else [TargetEnds]) + [WaiterJoins, WaiterLock, Publish]
    case HasResult => [WaiterLock, Publish]
    case WaiterLocked => [Publish]
    case _ => []
  }

  lemma WaiterMayLock(s: State)
    requires Inv(s) && s.caller.TimeoutReturned? && !s.joined
    ensures s.waiter.JoiningTarget? || s.waiter.HasResult? || s.waiter.WaiterLocked?
    ensures s.waiter.HasResult? ==> s.mutex.Nobody?
  {
  }

  lemma PublishRuns(s: State)
    requires Inv(s) && s.caller.TimeoutReturned? && !s.joined
    ensures Legal(s, ToPublish(s)) && After(s, ToPublish(s)).joined
    ensures After(s, ToPublish(s)).wrote <==> s.targetRc == 0 && s.hasRes
    decreases |ToPublish(s)|
  {
    WaiterMayLock(s);
    hide Inv;
    var es := ToPublish(s);
    StepKeepsInv(s, es[0]);
    var t := Next(s, es[0]);
    assert es[1..] == if s.waiter.WaiterLocked? then [] else ToPublish(t);
    if !s.waiter.WaiterLocked? {
      PublishRuns(t);
    }
  }

  lemma {:induction false} WrittenOnce(s: State, es: seq<Event>)
    requires Inv(s) && Legal(s, es) && s.joined
    ensures After(s, es).wrote == s.wrote
    decreases |es|
  {
    if es != [] {
      StepKeepsInv(s, es[0]);
      WrittenOnce(Next(s, es[0]), es[1..]);
    }
  }

  /**
   After ETIMEDOUT a store through the caller's pointer can still follow exactly if the caller
   passed one, the target is joined without error and the waiter has not published.
   */
  lemma LateWriteIff(targetRc: int, hasRes: bool, es: seq<Event>, s: State)
    requires Leads(Init(targetRc, hasRes), es, s) && s.caller.TimeoutReturned?
    ensures WriteCanFollow(s) <==>
            hasRes && targetRc == 0 && !s.joined
  {
    RunKeepsInv(Init(targetRc, hasRes), es);
    if s.joined {
      forall more: seq<Event> | Legal(s, more) ensures After(s, more).wrote == s.wrote {
        WrittenOnce(s, more);
      }
    } else {
      PublishRuns(s);
      forall more: seq<Event> | Legal(s, more) ensures After(s, more).wrote ==> targetRc == 0 && hasRes {
        RunKeepsInv(s, more);
      }
    }
  }

  /** At the very return with ETIMEDOUT nothing has been stored yet; the success path never leaves a store behind. */
  lemma TimeoutReturnsBeforeTheWrite(targetRc: int, hasRes: bool, es: seq<Event>, s: State)
    requires Leads(Init(targetRc, hasRes), es, s)
    ensures Enabled(s, HandOver) ==> !Next(s, HandOver).joined && !Next(s, HandOver).wrote
    ensures s.caller.Returned? ==> !WriteCanFollow(s) && (s.wrote <==> targetRc == 0 && hasRes)
  {
    RunKeepsInv(Init(targetRc, hasRes), es);
    if s.caller.Returned? {
      forall more: seq<Event> | Legal(s, more) ensures After(s, more).wrote == s.wrote {
        WrittenOnce(s, more);
      }
    }
  }
}
