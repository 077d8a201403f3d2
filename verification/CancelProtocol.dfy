/**
 Cancelling FFmpeg sessions while their native contexts are attached, run, detached and freed
 (FFmpegSession.cpp, executeFFmpeg and the session map in FFmpegKitConfig.cpp). One thread
 executes a session, as often as it likes, one execution after the other; any number of threads
 call its requestCancel(). Sessions meet in the session map only, whose slots they share by residue.
 */
module CancelProtocol {
  import opened Common

  /** The fields of FFmpegSession the protocol is about; context 0 is a null pointer. */
  datatype Shared = Shared(context: nat, cancelRequested: bool, cancelled: set<nat>)

  /** What setContext(ctx) does to the fields when nobody interferes. */
  function Attach(f: Shared, ctx: nat): Shared {
    Shared(ctx, f.cancelRequested, if ctx != 0 && f.cancelRequested then f.cancelled + {ctx} else f.cancelled)
  }

  /** What detachContext() does to the fields. */
  function Detach(f: Shared): Shared {
    f.(context := 0)
  }

  /** What requestCancel() does to the fields, the state check having passed. */
  function Cancel(f: Shared): Shared {
    Shared(f.context, true, if f.context != 0 then f.cancelled + {f.context} else f.cancelled)
  }

  /** A store to the slot of a session: registerSessionId, removeSession, cancel_operation. */
  datatype SlotWrite = Registered(id: nat) | Removed(id: nat) | CancelAsked(id: nat)

  function Slot(id: nat): (r: nat)
    ensures r < SESSION_MAP_SIZE
  {
    id % SESSION_MAP_SIZE
  }

  function Stored(w: SlotWrite): int {
    match w
    case Registered(_) => 1
    case Removed(_) => 0
    case CancelAsked(_) => 2
  }

  function Write(slots: seq<int>, w: SlotWrite): (r: seq<int>)
    requires |slots| == SESSION_MAP_SIZE
    ensures |r| == SESSION_MAP_SIZE
  {
    slots[Slot(w.id) := Stored(w)]
  }

  /** cancelRequested(id) */
  predicate SlotCancels(slots: seq<int>, id: nat)
    requires |slots| == SESSION_MAP_SIZE
  {
    slots[Slot(id)] == 2
  }

  /** sessionMap of FFmpegKitConfig.cpp: one slot for all sessions of a residue. */
  class SessionMap {
    const slots: array<int>

    ghost predicate Valid() {
      slots.Length == SESSION_MAP_SIZE
    }

    constructor ()
      ensures Valid() && fresh(slots) && slots[..] == seq(SESSION_MAP_SIZE, i => 0)
    {
      slots := new int[SESSION_MAP_SIZE](i => 0);
    }

    method RegisterSessionId(sessionId: nat)
      requires Valid()
      modifies slots
      ensures slots[..] == Write(old(slots[..]), Registered(sessionId))
    {
      slots[sessionId % SESSION_MAP_SIZE] := 1;
    }

    method RemoveSession(sessionId: nat)
      requires Valid()
      modifies slots
      ensures slots[..] == Write(old(slots[..]), Removed(sessionId))
    {
      slots[sessionId % SESSION_MAP_SIZE] := 0;
    }

    /** cancelSession(), which is cancel_operation() of a session ID other than 0. */
    method CancelSession(sessionId: nat)
      requires Valid()
      modifies slots
      ensures slots[..] == Write(old(slots[..]), CancelAsked(sessionId))
    {
      slots[sessionId % SESSION_MAP_SIZE] := 2;
    }

    method CancelRequested(sessionId: nat) returns (r: bool)
      requires Valid()
      ensures r == SlotCancels(slots[..], sessionId)
    {
      r := slots[sessionId % SESSION_MAP_SIZE] == 2;
    }
  }

  /** The session object. ffmpeg_cancel is foreign; `cancelled` records the contexts it was given. */
  class FFmpegSession {
    const id: nat
    const sessionMap: SessionMap
    var context: nat
    var cancelRequested: bool
    var state: SessionState
    var cancelled: set<nat>

    /** Session IDs start at 1. */
    constructor (id: nat, sessionMap: SessionMap)
      requires id > 0
      ensures this.id == id && this.sessionMap == sessionMap
      ensures Fields() == Shared(0, false, {}) && state == SessionCreated
    {
      this.id, this.sessionMap := id, sessionMap;
      context, cancelRequested, state, cancelled := 0, false, SessionCreated, {};
    }

    function Fields(): Shared
      reads this
    {
      Shared(context, cancelRequested, cancelled)
    }

    method SetContext(ctx: nat)
      modifies this
      ensures Fields() == Attach(old(Fields()), ctx) && state == old(state)
    {
      context := ctx;
      if ctx != 0 && cancelRequested {
        cancelled := cancelled + {ctx};
      }
    }

    method DetachContext() returns (ctx: nat)
      modifies this
      ensures ctx == old(context) && Fields() == Detach(old(Fields())) && state == old(state)
    {
      ctx := context;
      context := 0;
    }

    method RequestCancel()
      requires sessionMap.Valid()
      modifies this, sessionMap.slots
      ensures state == old(state)
      ensures Fields() == if Terminal(state) then old(Fields()) else Cancel(old(Fields()))
      ensures sessionMap.slots[..] ==
        if Terminal(state) then old(sessionMap.slots[..]) else Write(old(sessionMap.slots[..]), CancelAsked(id))
    {
      if Terminal(state) {
        return;
      }
      cancelRequested := true;
      sessionMap.CancelSession(id);
      if context != 0 {
        cancelled := cancelled + {context};
      }
    }

    /** ffmpeg_cancel_requested() on a context of this session. */
    method CancelObserved(ctx: nat) returns (r: bool)
      requires sessionMap.Valid()
      ensures r == (ctx in cancelled || SlotCancels(sessionMap.slots[..], id))
    {
      r := sessionMap.CancelRequested(id);
      return ctx in cancelled || r;
    }
  }

  // ---- One session, interleaved -----------------------------------------------------------------

  /** The executing thread; ctx is the local variable of executeFFmpeg. */
  datatype ExecPc =
    | Idle
    | Started                    // startRunning() returned
    | IdRegistered               // registerSessionId() returned
    | HasContext(ctx: nat)       // ffmpeg_init_argv() returned
    | AttachLocked(ctx: nat)     // setContext holds _contextMutex
    | AttachStored(ctx: nat)     // _context = ctx
    | AttachCancelling(ctx: nat) // inside ffmpeg_cancel(ctx)
    | AttachChecked(ctx: nat)    // about to unlock
    | InRun(ctx: nat)            // inside ffmpeg_run(ctx)
    | RunEnded(ctx: nat)         // ffmpeg_run() returned
    | IdRemoved(ctx: nat)        // removeSession() returned
    | DetachLocked(ctx: nat)     // detachContext holds _contextMutex
    | DetachTaken(ctx: nat)      // _context read and cleared
    | Detached(ctx: nat)         // about to free or preserve the context
    | Executed                   // about to call complete() or fail()

  /** One call of requestCancel(). */
  datatype CancelPc =
    | NotCalled
    | Passed              // the state check passed
    | Flagged             // _cancelRequested = true
    | Signalled           // cancel_operation() returned
    | CancelLocked        // holds _contextMutex
    | Calling(ctx: nat)   // inside ffmpeg_cancel(ctx)
    | Acted               // about to unlock
    | Done(passed: bool)

  datatype Holder = Nobody | Executor | Canceller(k: nat)

  /** A session, the thread that executes it and its cancellers; contexts are numbered as they are made. */
  datatype Side = Side(
    fields: Shared, session: SessionState, exec: ExecPc, callers: map<nat, CancelPc>,
    mutex: Holder, live: set<nat>, made: nat)

  datatype Event =
    | StartRunning | RegisterId | InitContext | InitFails
    | AttachLock | AttachStore | AttachLoad | AttachCancelEnds | AttachUnlock
    | RunEnds | RemoveId | DetachLock | DetachTake | DetachUnlock | Free | Preserve | Finish(ok: bool)
    | CheckState(k: nat) | SetFlag(k: nat) | Signal(k: nat) | Lock(k: nat)
    | ReadContext(k: nat) | CallEnds(k: nat) | Unlock(k: nat)

  function NewSide(callers: set<nat>): Side {
    Side(Shared(0, false, {}), SessionCreated, Idle, map k | k in callers :: NotCalled, Nobody, {}, 0)
  }

  predicate Enabled(s: Side, e: Event) {
    match e
    case StartRunning => s.exec.Idle?
    case RegisterId => s.exec.Started?
    case InitContext => s.exec.IdRegistered?
    case InitFails => s.exec.IdRegistered?
    case AttachLock => s.exec.HasContext? && s.mutex.Nobody?
    case AttachStore => s.exec.AttachLocked?
    case AttachLoad => s.exec.AttachStored?
    case AttachCancelEnds => s.exec.AttachCancelling?
    case AttachUnlock => s.exec.AttachChecked?
    case RunEnds => s.exec.InRun?
    case RemoveId => s.exec.RunEnded?
    case DetachLock => s.exec.IdRemoved? && s.mutex.Nobody?
    case DetachTake => s.exec.DetachLocked?
    case DetachUnlock => s.exec.DetachTaken?
    case Free => s.exec.Detached?
    case Preserve => s.exec.Detached?
    case Finish(_) => s.exec.Executed?
    case CheckState(k) => k in s.callers && s.callers[k].NotCalled?
    case SetFlag(k) => k in s.callers && s.callers[k].Passed?
    case Signal(k) => k in s.callers && s.callers[k].Flagged?
    case Lock(k) => k in s.callers && s.callers[k].Signalled? && s.mutex.Nobody?
    case ReadContext(k) => k in s.callers && s.callers[k].CancelLocked?
    case CallEnds(k) => k in s.callers && s.callers[k].Calling?
    case Unlock(k) => k in s.callers && s.callers[k].Acted?
  }

  function At(s: Side, k: nat, pc: CancelPc): Side {
    s.(callers := s.callers[k := pc])
  }

  function Next(s: Side, e: Event): Side
    requires Enabled(s, e)
  {
    var f := s.fields;
    match e
    case StartRunning => s.(exec := Started, session := SessionRunning)
    case RegisterId => s.(exec := IdRegistered)
    case InitContext => s.(exec := HasContext(s.made + 1), made := s.made + 1, live := s.live + {s.made + 1})
    case InitFails => s.(exec := Executed)
    case AttachLock => s.(exec := AttachLocked(s.exec.ctx), mutex := Executor)
    case AttachStore => s.(exec := AttachStored(s.exec.ctx), fields := f.(context := s.exec.ctx))
    case AttachLoad =>
      s.(exec := if s.exec.ctx != 0 && f.cancelRequested then AttachCancelling(s.exec.ctx) else AttachChecked(s.exec.ctx))
    case AttachCancelEnds =>
      s.(exec := AttachChecked(s.exec.ctx), fields := f.(cancelled := f.cancelled + {s.exec.ctx}))
    case AttachUnlock => s.(exec := InRun(s.exec.ctx), mutex := Nobody)
    case RunEnds => s.(exec := RunEnded(s.exec.ctx))
    case RemoveId => s.(exec := IdRemoved(s.exec.ctx))
    case DetachLock => s.(exec := DetachLocked(s.exec.ctx), mutex := Executor)
    case DetachTake => s.(exec := DetachTaken(f.context), fields := f.(context := 0))
    case DetachUnlock => s.(exec := Detached(s.exec.ctx), mutex := Nobody)
    case Free => s.(exec := Executed, live := s.live - {s.exec.ctx})
    case Preserve => s.(exec := Executed)
    case Finish(ok) => s.(exec := Idle, session := if ok then SessionCompleted else SessionFailed)
    case CheckState(k) => At(s, k, if Terminal(s.session) then Done(false) else Passed)
    case SetFlag(k) => At(s, k, Flagged).(fields := f.(cancelRequested := true))
    case Signal(k) => At(s, k, Signalled)
    case Lock(k) => At(s, k, CancelLocked).(mutex := Canceller(k))
    case ReadContext(k) => At(s, k, if f.context != 0 then Calling(f.context) else Acted)
    case CallEnds(k) => At(s, k, Acted).(fields := f.(cancelled := f.cancelled + {s.callers[k].ctx}))
    case Unlock(k) => At(s, k, Done(true)).(mutex := Nobody)
  }

  // ---- The sessions and their map ---------------------------------------------------------------

  /**
   `others` are all other IDs that are stored through the map: those of FFprobe and FFplay
   sessions, and any ID, of a session or of none, that FFmpegKit::cancel hands to cancel_operation.
   It does the same with an FFmpeg session that the history no longer holds; `direct` collects those.
   */
  datatype State = State(sides: map<nat, Side>, others: set<nat>, direct: set<nat>, slots: seq<int>)

  /** The ID 0 is not stored: cancel_operation raises a signal for it. */
  datatype Step = Own(id: nat, e: Event) | Other(w: SlotWrite) | Direct(id: nat)

  function Init(ids: set<nat>, callers: set<nat>, others: set<nat>): (s: State)
    ensures SlotsOk(s)
  {
    State(map id | id in ids :: NewSide(callers), others, {}, seq(SESSION_MAP_SIZE, i => 0))
  }

  predicate SlotsOk(s: State) {
    |s.slots| == SESSION_MAP_SIZE
  }

  /** The store of a step to the session map, if it makes one. */
  function WriteOf(step: Step): Option<SlotWrite> {
    match step
    case Other(w) => Some(w)
    case Direct(id) => Some(CancelAsked(id))
    case Own(id, e) =>
      match e
      case RegisterId => Some(Registered(id))
      case InitFails => Some(Removed(id))
      case RemoveId => Some(Removed(id))
      case Signal(_) => Some(CancelAsked(id))
      case _ => None
  }

  predicate CanStep(s: State, step: Step) {
    match step
    case Own(id, e) => id in s.sides && Enabled(s.sides[id], e)
    case Other(w) => w.id in s.others && w.id != 0
    case Direct(id) => id in s.sides && id != 0
  }

  function Do(s: State, step: Step): (t: State)
    requires SlotsOk(s) && CanStep(s, step)
    ensures SlotsOk(t)
  {
    var w := WriteOf(step);
    var slots := if w.Some? then Write(s.slots, w.value) else s.slots;
    var t := s.(slots := slots);
    match step
    case Own(id, e) => t.(sides := s.sides[id := Next(s.sides[id], e)])
    case Other(_) => t
    case Direct(id) => t.(direct := s.direct + {id})
  }

  predicate Legal(s: State, steps: seq<Step>)
    requires SlotsOk(s)
    decreases |steps|
  {
    steps == [] || (CanStep(s, steps[0]) && Legal(Do(s, steps[0]), steps[1..]))
  }

  function After(s: State, steps: seq<Step>): (t: State)
    requires SlotsOk(s) && Legal(s, steps)
    ensures SlotsOk(t)
    decreases |steps|
  {
    if steps == [] then s else After(Do(s, steps[0]), steps[1..])
  }

  /** The run leads from s to t. */
  predicate Leads(s: State, steps: seq<Step>, t: State) {
    SlotsOk(s) && SlotsOk(t) && Legal(s, steps) && After(s, steps) == t
  }

  // ---- What is promised -----------------------------------------------------------------------

  /** The context a thread is using: cancelling it, running it, or about to free it. */
  predicate ExecUses(pc: ExecPc, c: nat) {
    (pc.AttachCancelling? || pc.InRun? || pc.Detached?) && pc.ctx == c
  }

  ghost predicate OnlyLiveContextsUsed(s: Side) {
    && (forall c: nat :: ExecUses(s.exec, c) ==> c != 0 && c in s.live)
    && (forall k | k in s.callers && s.callers[k].Calling? :: s.callers[k].ctx != 0 && s.callers[k].ctx in s.live)
  }

  ghost predicate SomebodyCancelled(s: Side) {
    exists k :: k in s.callers && s.callers[k] == Done(true)
  }

  /** Once a requestCancel() that passed its check has returned, no context runs uncancelled. */
  ghost predicate NoLostCancel(s: Side) {
    SomebodyCancelled(s) ==>
      s.fields.cancelRequested && (s.exec.InRun? ==> s.exec.ctx in s.fields.cancelled)
  }

  /** Somebody has called requestCancel() on this session, and passed the check. */
  ghost predicate Asked(s: Side) {
    exists k :: k in s.callers && HasFlagged(s.callers[k])
  }

  /** Somebody has asked to cancel session id, through the session or by its ID alone. */
  ghost predicate AskedFor(s: State, id: nat) {
    id in s.sides && (Asked(s.sides[id]) || id in s.direct)
  }

  /** ffmpeg_cancel_requested() on a context of session id. */
  predicate Observes(s: State, id: nat, ctx: nat)
    requires SlotsOk(s) && id in s.sides
  {
    ctx in s.sides[id].fields.cancelled || SlotCancels(s.slots, id)
  }

  /** Session id runs a context that sees a cancel although nobody asked for one. */
  ghost predicate Spurious(s: State, id: nat)
    requires SlotsOk(s)
  {
    id in s.sides && s.sides[id].exec.InRun? && Observes(s, id, s.sides[id].exec.ctx) && !AskedFor(s, id)
  }

  // ---- The inductive invariant of one session -----------------------------------------------------

  predicate HasFlagged(pc: CancelPc) {
    pc.Flagged? || pc.Signalled? || pc.CancelLocked? || pc.Calling? || pc.Acted? || pc == Done(true)
  }

  predicate HasActed(pc: CancelPc) {
    pc.Acted? || pc == Done(true)
  }

  predicate CallerHolds(pc: CancelPc) {
    pc.CancelLocked? || pc.Calling? || pc.Acted?
  }

  predicate ExecHolds(pc: ExecPc) {
    pc.AttachLocked? || pc.AttachStored? || pc.AttachCancelling? || pc.AttachChecked? || pc.DetachLocked? || pc.DetachTaken?
  }

  predicate Owns(pc: ExecPc) {
    ExecHolds(pc) || pc.HasContext? || pc.InRun? || pc.RunEnded? || pc.IdRemoved? || pc.Detached?
  }

  /** _context is set. */
  predicate Attached(pc: ExecPc) {
    pc.AttachStored? || pc.AttachCancelling? || Checked(pc)
  }

  /** setContext has tested _cancelRequested. */
  predicate Checked(pc: ExecPc) {
    pc.AttachChecked? || pc.InRun? || pc.RunEnded? || pc.IdRemoved? || pc.DetachLocked?
  }

  ghost predicate CallerOk(s: Side, k: nat)
    requires k in s.callers
  {
    var pc := s.callers[k];
    && (CallerHolds(pc) <==> s.mutex == Canceller(k))
    && (HasFlagged(pc) ==> s.fields.cancelRequested)
    && (pc.Calling? ==> pc.ctx == s.fields.context != 0)
    && (HasActed(pc) && Checked(s.exec) ==> s.exec.ctx in s.fields.cancelled)
  }

  ghost predicate Inv(s: Side) {
    && (forall k | k in s.callers :: CallerOk(s, k))
    && (s.mutex.Canceller? ==> s.mutex.k in s.callers)
    && (ExecHolds(s.exec) <==> s.mutex.Executor?)
    && (Owns(s.exec) ==> s.exec.ctx != 0 && s.exec.ctx in s.live)
    && s.fields.context == (if Attached(s.exec) then s.exec.ctx else 0)
    && (s.fields.cancelRequested ==> Asked(s))
    && (s.fields.cancelled != {} || s.exec.AttachCancelling? ==> s.fields.cancelRequested)
  }

  ghost predicate AllInv(s: State) {
    forall id | id in s.sides :: Inv(s.sides[id])
  }

  // ---- Contexts and cancels of one session --------------------------------------------------------

  /** In every interleaving ffmpeg_cancel, ffmpeg_run and ffmpeg_free are only given live contexts. */
  lemma NeverUsesFreedContext(ids: set<nat>, callers: set<nat>, others: set<nat>, steps: seq<Step>, s: State, id: nat)
    requires Leads(Init(ids, callers, others), steps, s) && id in ids
    ensures id in s.sides
    ensures OnlyLiveContextsUsed(s.sides[id])
  {
    InitInv(ids, callers, others);
    RunKeepsInv(Init(ids, callers, others), steps);
    var side := s.sides[id];
    assert Inv(side);
    forall k | k in side.callers && side.callers[k].Calling? ensures side.callers[k].ctx != 0 && side.callers[k].ctx in side.live {
      assert CallerOk(side, k);
    }
  }

  /** A returned requestCancel() is never lost, whatever the other sessions do to the slot. */
  lemma CancelIsNeverLost(ids: set<nat>, callers: set<nat>, others: set<nat>, steps: seq<Step>, s: State, id: nat)
    requires Leads(Init(ids, callers, others), steps, s) && id in ids
    ensures id in s.sides
    ensures NoLostCancel(s.sides[id])
  {
    InitInv(ids, callers, others);
    RunKeepsInv(Init(ids, callers, others), steps);
    var side := s.sides[id];
    assert Inv(side);
    if SomebodyCancelled(side) {
      var k :| k in side.callers && side.callers[k] == Done(true);
      assert CallerOk(side, k);
    }
  }

  // ---- Who cancels through the session map --------------------------------------------------------

  /** The last store to a slot; `before` is the last one of the time before the run. */
  function LastWrite(steps: seq<Step>, slot: nat, before: Option<SlotWrite>): Option<SlotWrite> {
    if steps == [] then before
    else
      var w := WriteOf(steps[0]);
      LastWrite(steps[1..], slot, if w.Some? && Slot(w.value.id) == slot then w else before)
  }

  function StoredBy(w: Option<SlotWrite>): int {
    if w.Some? then Stored(w.value) else 0
  }

  /** The writer belongs to the slot and exists, and a cancel of an FFmpeg session was asked for. */
  ghost predicate WriterOk(s: State, slot: nat, w: Option<SlotWrite>) {
    w.Some? ==>
      && Slot(w.value.id) == slot && (w.value.id in s.sides || w.value.id in s.others)
      && (w.value.CancelAsked? && w.value.id in s.sides && w.value.id !in s.others ==> AskedFor(s, w.value.id))
  }

  lemma AskedStays(s: Side, e: Event)
    requires Enabled(s, e)
    ensures Asked(s) ==> Asked(Next(s, e))
    ensures e.Signal? ==> Asked(Next(s, e))
  {
    var t := Next(s, e);
    if Asked(s) {
      var k :| k in s.callers && HasFlagged(s.callers[k]);
      assert k in t.callers && HasFlagged(t.callers[k]);
    }
    if e.Signal? {
      assert HasFlagged(t.callers[e.k]);
    }
  }

  lemma WriterStays(s: State, step: Step, slot: nat, w: Option<SlotWrite>)
    requires SlotsOk(s) && CanStep(s, step) && WriterOk(s, slot, w)
    ensures var now := WriteOf(step);
            WriterOk(Do(s, step), slot, if now.Some? && Slot(now.value.id) == slot then now else w)
  {
    if step.Own? {
      AskedStays(s.sides[step.id], step.e);
    }
    hide Next, Enabled, Asked;
  }

  /** In every reachable state a slot holds what its last writer has stored. */
  lemma {:induction false} SlotIsLastWrite(s: State, steps: seq<Step>, slot: nat, before: Option<SlotWrite>)
    requires SlotsOk(s) && Legal(s, steps) && slot < SESSION_MAP_SIZE
    requires s.slots[slot] == StoredBy(before) && WriterOk(s, slot, before)
    ensures var w := LastWrite(steps, slot, before);
            After(s, steps).slots[slot] == StoredBy(w) && WriterOk(After(s, steps), slot, w)
    decreases |steps|
  {
    hide WriterOk, CanStep;
    if steps != [] {
      var now := WriteOf(steps[0]);
      WriterStays(s, steps[0], slot, before);
      SlotIsLastWrite(Do(s, steps[0]), steps[1..], slot, if now.Some? && Slot(now.value.id) == slot then now else before);
    }
  }

  /** A cancel of session id is the last thing that was stored in its slot, or of one that shares it. */
  predicate LastIsCancel(steps: seq<Step>, id: nat) {
    var w := LastWrite(steps, Slot(id), None);
    w.Some? && w.value.CancelAsked?
  }

  /**
   A context observes a cancel exactly if it was given to ffmpeg_cancel, or if the slot of its
   session was last written by a cancel of some session of that residue.
   */
  lemma ObservedIff(ids: set<nat>, callers: set<nat>, others: set<nat>, steps: seq<Step>, s: State, id: nat, ctx: nat)
    requires Leads(Init(ids, callers, others), steps, s) && id in ids
    ensures id in s.sides
    ensures Observes(s, id, ctx) <==>
            ctx in s.sides[id].fields.cancelled || LastIsCancel(steps, id)
    ensures LastIsCancel(steps, id) ==>
            var writer := LastWrite(steps, Slot(id), None).value.id;
            Slot(writer) == Slot(id) && (writer in ids || writer in others)
  {
    InitInv(ids, callers, others);
    RunKeepsInv(Init(ids, callers, others), steps);
    SlotIsLastWrite(Init(ids, callers, others), steps, Slot(id), None);
    OthersStay(Init(ids, callers, others), steps);
  }

  lemma {:induction false} OthersStay(s: State, steps: seq<Step>)
    requires SlotsOk(s) && Legal(s, steps)
    ensures After(s, steps).others == s.others
    decreases |steps|
  {
    if steps != [] {
      OthersStay(Do(s, steps[0]), steps[1..]);
    }
  }

  /** A session that nobody asked to cancel sees a cancel exactly if another of its residue was cancelled last. */
  lemma UnaskedObservesIff(ids: set<nat>, callers: set<nat>, others: set<nat>, steps: seq<Step>, s: State, id: nat, ctx: nat)
    requires Leads(Init(ids, callers, others), steps, s) && id in ids && id !in others
    requires id in s.sides && !AskedFor(s, id)
    ensures Observes(s, id, ctx) <==> LastIsCancel(steps, id)
    ensures LastIsCancel(steps, id) ==> LastWrite(steps, Slot(id), None).value.id != id
  {
    ObservedIff(ids, callers, others, steps, s, id, ctx);
    InitInv(ids, callers, others);
    RunKeepsInv(Init(ids, callers, others), steps);
    OthersStay(Init(ids, callers, others), steps);
    SlotIsLastWrite(Init(ids, callers, others), steps, Slot(id), None);
    assert Inv(s.sides[id]);
  }

  /** Two IDs, one of them of an FFmpeg session, share a slot. */
  ghost predicate Collide(ids: set<nat>, others: set<nat>) {
    exists a, b :: a in ids && b in ids + others && a != b && Slot(a) == Slot(b)
  }

  ghost predicate IsSpuriousRun(ids: set<nat>, callers: set<nat>, others: set<nat>, steps: seq<Step>, id: nat) {
    id in ids && Legal(Init(ids, callers, others), steps) && Spurious(After(Init(ids, callers, others), steps), id)
  }

  ghost predicate CanBeSpurious(ids: set<nat>, callers: set<nat>, others: set<nat>) {
    exists steps: seq<Step>, id: nat :: IsSpuriousRun(ids, callers, others, steps, id)
  }

  /** A session can be stopped by a cancel that was not meant for it exactly if two IDs share a slot. */
  lemma SpuriousIffCollision(ids: set<nat>, callers: set<nat>, others: set<nat>)
    requires callers != {} && ids !! others && 0 !in others
    ensures CanBeSpurious(ids, callers, others) <==> Collide(ids, others)
  {
    hide Legal, After, Observes, LastWrite, Asked;
    if CanBeSpurious(ids, callers, others) {
      var steps: seq<Step>, id: nat :| IsSpuriousRun(ids, callers, others, steps, id);
      var s := After(Init(ids, callers, others), steps);
      UnaskedObservesIff(ids, callers, others, steps, s, id, s.sides[id].exec.ctx);
      ObservedIff(ids, callers, others, steps, s, id, s.sides[id].exec.ctx);
      assert LastWrite(steps, Slot(id), None).value.id in ids + others;
    }
    if Collide(ids, others) {
      var a, b :| a in ids && b in ids + others && a != b && Slot(a) == Slot(b);
      var k :| k in callers;
      var steps := CollisionRun(ids, callers, others, a, b, k);
    }
  }

  lemma Prepend(s: State, step: Step, steps: seq<Step>) returns (r: seq<Step>)
    requires SlotsOk(s) && CanStep(s, step) && Legal(Do(s, step), steps)
    ensures r == [step] + steps && Legal(s, r) && After(s, r) == After(Do(s, step), steps)
  {
    r := [step] + steps;
    assert r[1..] == steps;
  }

  /** A run in which a plays no part but its own execution, and b is cancelled. */
  lemma CollisionRun(ids: set<nat>, callers: set<nat>, others: set<nat>, a: nat, b: nat, k: nat) returns (steps: seq<Step>)
    requires a in ids && b in ids + others && a != b && Slot(a) == Slot(b) && k in callers && 0 !in others
    ensures IsSpuriousRun(ids, callers, others, steps, a)
  {
    var s := Init(ids, callers, others);
    var t := Begun(s, a);
    if b in ids {
      var cancel, _ := SignalRun(t, b, k);
      steps := cancel;
    } else {
      steps := Prepend(t, Other(CancelAsked(b)), []);
    }
    steps := BeginRun(s, a, steps);
  }

  /** The state after an undisturbed execution has reached ffmpeg_run. */
  function Begun(s: State, a: nat): (t: State)
    requires SlotsOk(s) && a in s.sides && s.sides[a].exec.Idle? && s.sides[a].mutex.Nobody? && !s.sides[a].fields.cancelRequested
    ensures SlotsOk(t) && t.others == s.others && t.direct == s.direct && t.sides.Keys == s.sides.Keys
    ensures t.sides[a].exec.InRun? && t.sides[a].callers == s.sides[a].callers
    ensures forall id | id in s.sides && id != a :: t.sides[id] == s.sides[id]
  {
    var s1 := Do(Do(Do(s, Own(a, StartRunning)), Own(a, RegisterId)), Own(a, InitContext));
    Do(Do(Do(Do(s1, Own(a, AttachLock)), Own(a, AttachStore)), Own(a, AttachLoad)), Own(a, AttachUnlock))
  }

  /** That execution, before a run that starts there. */
  lemma BeginRun(s: State, a: nat, more: seq<Step>) returns (steps: seq<Step>)
    requires SlotsOk(s) && a in s.sides && s.sides[a].exec.Idle? && s.sides[a].mutex.Nobody? && !s.sides[a].fields.cancelRequested
    requires Legal(Begun(s, a), more)
    ensures Legal(s, steps) && After(s, steps) == After(Begun(s, a), more)
  {
    var s1 := Do(s, Own(a, StartRunning));
    var s2 := Do(s1, Own(a, RegisterId));
    var s3 := Do(s2, Own(a, InitContext));
    var s4 := Do(s3, Own(a, AttachLock));
    var s5 := Do(s4, Own(a, AttachStore));
    var s6 := Do(s5, Own(a, AttachLoad));
    hide Do, CanStep;
    steps := Prepend(s6, Own(a, AttachUnlock), more);
    steps := Prepend(s5, Own(a, AttachLoad), steps);
    steps := Prepend(s4, Own(a, AttachStore), steps);
    steps := Prepend(s3, Own(a, AttachLock), steps);
    steps := Prepend(s2, Own(a, InitContext), steps);
    steps := Prepend(s1, Own(a, RegisterId), steps);
    steps := Prepend(s, Own(a, StartRunning), steps);
  }

  /** requestCancel() up to the return of cancel_operation(). */
  lemma SignalRun(s: State, b: nat, k: nat) returns (steps: seq<Step>, t: State)
    requires SlotsOk(s) && b in s.sides && k in s.sides[b].callers && s.sides[b].callers[k].NotCalled?
    requires !Terminal(s.sides[b].session)
    ensures Leads(s, steps, t) && SlotCancels(t.slots, b) && t.direct == s.direct
    ensures forall id | id in s.sides && id != b :: id in t.sides && t.sides[id] == s.sides[id]
  {
    var s1 := Do(s, Own(b, CheckState(k)));
    var s2 := Do(s1, Own(b, SetFlag(k)));
    t := Do(s2, Own(b, Signal(k)));
    hide Do, CanStep;
    steps := Prepend(s2, Own(b, Signal(k)), []);
    steps := Prepend(s1, Own(b, SetFlag(k)), steps);
    steps := Prepend(s, Own(b, CheckState(k)), steps);
  }

  /** Cancelling 1001, whether it is a session or not, can stop session 1, which nobody asked to cancel. */
  lemma Cancelling1001Stops1(ids: set<nat>, callers: set<nat>, others: set<nat>, k: nat) returns (steps: seq<Step>)
    requires 1 in ids && 1001 in ids + others && k in callers && 0 !in others
    ensures IsSpuriousRun(ids, callers, others, steps, 1)
  {
    steps := CollisionRun(ids, callers, others, 1, 1001, k);
  }

  // ---- The methods are the uninterrupted steps --------------------------------------------------------

  /** The executing thread's steps of setContext, run without interruption, are the method SetContext. */
  lemma AttachRefinesSetContext(s: State, id: nat) returns (steps: seq<Step>, t: State)
    requires SlotsOk(s) && id in s.sides && s.sides[id].exec.HasContext? && s.sides[id].mutex.Nobody?
    ensures Leads(s, steps, t) && id in t.sides && t.slots == s.slots
    ensures var ctx := s.sides[id].exec.ctx;
            t.sides[id] == s.sides[id].(exec := InRun(ctx), fields := Attach(s.sides[id].fields, ctx))
  {
    var s1 := Do(s, Own(id, AttachLock));
    var s2 := Do(s1, Own(id, AttachStore));
    var s3 := Do(s2, Own(id, AttachLoad));
    if s3.sides[id].exec.AttachCancelling? {
      var s4 := Do(s3, Own(id, AttachCancelEnds));
      t := Do(s4, Own(id, AttachUnlock));
      steps := Prepend(s4, Own(id, AttachUnlock), []);
      steps := Prepend(s3, Own(id, AttachCancelEnds), steps);
    } else {
      t := Do(s3, Own(id, AttachUnlock));
      steps := Prepend(s3, Own(id, AttachUnlock), []);
    }
    hide Do, CanStep;
    steps := Prepend(s2, Own(id, AttachLoad), steps);
    steps := Prepend(s1, Own(id, AttachStore), steps);
    steps := Prepend(s, Own(id, AttachLock), steps);
  }

  /** And those of detachContext are the method DetachContext. */
  lemma DetachRefinesDetachContext(s: State, id: nat) returns (steps: seq<Step>, t: State)
    requires SlotsOk(s) && id in s.sides && s.sides[id].exec.IdRemoved? && s.sides[id].mutex.Nobody?
    ensures Leads(s, steps, t) && id in t.sides && t.slots == s.slots
    ensures t.sides[id] == s.sides[id].(exec := Detached(s.sides[id].fields.context), fields := Detach(s.sides[id].fields))
  {
    var s1 := Do(s, Own(id, DetachLock));
    var s2 := Do(s1, Own(id, DetachTake));
    t := Do(s2, Own(id, DetachUnlock));
    hide Do, CanStep;
    steps := Prepend(s2, Own(id, DetachUnlock), []);
    steps := Prepend(s1, Own(id, DetachTake), steps);
    steps := Prepend(s, Own(id, DetachLock), steps);
  }

  /** A caller's steps, run without interruption, are the method RequestCancel, the slot included. */
  lemma CallRefinesRequestCancel(s: State, id: nat, k: nat) returns (steps: seq<Step>, t: State)
    requires SlotsOk(s) && id in s.sides && k in s.sides[id].callers && s.sides[id].callers[k].NotCalled? && s.sides[id].mutex.Nobody?
    ensures Leads(s, steps, t) && id in t.sides
    ensures var ended := Terminal(s.sides[id].session);
            && t.sides[id] == At(s.sides[id], k, Done(!ended)).(fields := if ended then s.sides[id].fields else Cancel(s.sides[id].fields))
            && t.slots == (if ended then s.slots else Write(s.slots, CancelAsked(id)))
  {
    var s1 := Do(s, Own(id, CheckState(k)));
    steps := [];
    if Terminal(s.sides[id].session) {
      t := s1;
    } else {
      steps, t := PassedCall(s1, id, k);
    }
    steps := Prepend(s, Own(id, CheckState(k)), steps);
  }

  lemma PassedCall(s: State, id: nat, k: nat) returns (steps: seq<Step>, t: State)
    requires SlotsOk(s) && id in s.sides && k in s.sides[id].callers && s.sides[id].callers[k].Passed? && s.sides[id].mutex.Nobody?
    ensures Leads(s, steps, t) && id in t.sides
    ensures t.sides[id] == At(s.sides[id], k, Done(true)).(fields := Cancel(s.sides[id].fields))
    ensures t.slots == Write(s.slots, CancelAsked(id))
  {
    var s1 := Do(s, Own(id, SetFlag(k)));
    var s2 := Do(s1, Own(id, Signal(k)));
    steps, t := SignalledCall(s2, id, k);
    assert t.sides[id].callers == s.sides[id].callers[k := Done(true)];
    hide Do, CanStep;
    steps := Prepend(s1, Own(id, Signal(k)), steps);
    steps := Prepend(s, Own(id, SetFlag(k)), steps);
  }

  lemma SignalledCall(s: State, id: nat, k: nat) returns (steps: seq<Step>, t: State)
    requires SlotsOk(s) && id in s.sides && k in s.sides[id].callers && s.sides[id].callers[k].Signalled? && s.sides[id].mutex.Nobody?
    requires s.sides[id].fields.cancelRequested
    ensures Leads(s, steps, t) && id in t.sides && t.slots == s.slots
    ensures t.sides[id] == At(s.sides[id], k, Done(true)).(fields := Cancel(s.sides[id].fields))
  {
    var s1 := Do(s, Own(id, Lock(k)));
    var s2 := Do(s1, Own(id, ReadContext(k)));
    if s2.sides[id].callers[k].Calling? {
      var s3 := Do(s2, Own(id, CallEnds(k)));
      t := Do(s3, Own(id, Unlock(k)));
      steps := Prepend(s3, Own(id, Unlock(k)), []);
      steps := Prepend(s2, Own(id, CallEnds(k)), steps);
    } else {
      t := Do(s2, Own(id, Unlock(k)));
      steps := Prepend(s2, Own(id, Unlock(k)), []);
    }
    assert t.sides[id].callers == s.sides[id].callers[k := Done(true)];
    hide Do, CanStep;
    steps := Prepend(s1, Own(id, ReadContext(k)), steps);
    steps := Prepend(s, Own(id, Lock(k)), steps);
  }

  // ---- The invariant is kept ----------------------------------------------------------------------------

  predicate IsCallerEvent(e: Event) {
    e.CheckState? || e.SetFlag? || e.Signal? || e.Lock? || e.ReadContext? || e.CallEnds? || e.Unlock?
  }

  lemma CallerKeepsInv(s: Side, e: Event)
    requires Inv(s) && IsCallerEvent(e) && Enabled(s, e)
    ensures Inv(Next(s, e))
  {
    var t := Next(s, e);
    assert CallerOk(s, e.k);
    forall k | k in t.callers ensures CallerOk(t, k) {
      assert CallerOk(s, k);
    }
    if t.fields.cancelRequested {
      if s.fields.cancelRequested {
        var k :| k in s.callers && HasFlagged(s.callers[k]);
        assert HasFlagged(t.callers[k]);
      } else {
        assert HasFlagged(t.callers[e.k]);
      }
    }
  }

  lemma ExecKeepsInv(s: Side, e: Event)
    requires Inv(s) && !IsCallerEvent(e) && Enabled(s, e)
    ensures Inv(Next(s, e))
  {
    var t := Next(s, e);
    assert t.callers == s.callers;
    forall k | k in t.callers ensures CallerOk(t, k) {
      assert CallerOk(s, k);
    }
  }

  lemma {:induction false} RunKeepsInv(s: State, steps: seq<Step>)
    requires SlotsOk(s) && AllInv(s) && Legal(s, steps)
    ensures AllInv(After(s, steps)) && After(s, steps).sides.Keys == s.sides.Keys
    decreases |steps|
  {
    hide Inv, Next, Enabled;
    if steps != [] {
      var step := steps[0];
      if step.Own? {
        assert Inv(s.sides[step.id]);
        if IsCallerEvent(step.e) {
          CallerKeepsInv(s.sides[step.id], step.e);
        } else {
          ExecKeepsInv(s.sides[step.id], step.e);
        }
      }
      RunKeepsInv(Do(s, step), steps[1..]);
    }
  }

  lemma InitInv(ids: set<nat>, callers: set<nat>, others: set<nat>)
    ensures AllInv(Init(ids, callers, others)) && Init(ids, callers, others).sides.Keys == ids
  {
  }
}
