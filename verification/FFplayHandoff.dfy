/**
 The single-session handoff of ffplayExecute (FFmpegKitConfig.cpp): every session that starts
 publishes its ID with an atomic exchange, waits for the session it displaced, looks its own ID up
 in the session history, plays, and resets the published ID with a compare-and-swap. Each session
 has a thread of its own, and one event is one atomic action of one thread.
 */
module FFplayHandoff {
  import opened Common

  /** Where a session's thread is inside ffplayExecute. */
  datatype Pc =
    | NotCreated
    | Created              // create() has put the session into the history
    | Started              // startRunning() returned
    | Exchanged(prev: nat) // exchange() returned prev
    | Waiting(prev: nat)   // inside prevSession->waitFor()
    | Entering             // about to look up its own ID, first thing in executeFFplay()
    | TimedOut             // waitFor() returned false
    | TimedOutReset        // ... and the compare-and-swap is done
    | Playing              // inside executeFFplay(), behind the lookup
    | Returned             // executeFFplay() returned
    | Reset                // ... and the compare-and-swap is done
    | Completed            // complete() has published the terminal state
    | Caught               // in the exception handler
    | CaughtReset          // ... and the handler's compare-and-swap is done
    | Gone                 // ffplayExecute() has returned

  /** `expected` is the local variable sessionId, which a failing compare-and-swap overwrites. */
  datatype Session = Session(pc: Pc, state: SessionState, expected: nat)

  /**
   `order` records the sessions in the order of their exchanges; no step reads it. After `crashed`,
   the process has dereferenced the null session that a lookup returned.
   */
  datatype State = State(
    active: nat, sessions: map<nat, Session>, history: set<nat>, order: seq<nat>, crashed: bool)

  datatype Event =
    | Create(id: nat)      // FFplaySession::create adds the session to the history
    | Start(id: nat)
    | Exchange(id: nat)
    | Lookup(id: nat)      // of the predecessor
    | WaitSatisfied(id: nat)
    | WaitTimesOut(id: nat)
    | TimeoutCas(id: nat)
    | TimeoutFail(id: nat)
    | Enter(id: nat)       // the lookup of its own ID
    | PlayReturns(id: nat)
    | PlayThrows(id: nat)
    | ResetCas(id: nat)
    | Complete(id: nat)
    | LateThrow(id: nat)   // anything after the compare-and-swap throws
    | HandlerCas(id: nat)
    | HandlerFail(id: nat)
    | Finish(id: nat)
    | Evict(id: nat)       // deleteExpiredSessions drops a terminal session
    | Clear                // clearSessions()

  /** The IDs are those of all sessions that are ever created. */
  function Init(ids: set<nat>): State {
    State(0, map id | id in ids :: Session(NotCreated, SessionCreated, id), {}, [], false)
  }

  predicate Enabled(s: State, e: Event) {
    if s.crashed then false
    else if e.Clear? then true
    else if e.id !in s.sessions then false
    else
      var x := s.sessions[e.id];
      match e
      case Create(_) => x.pc.NotCreated?
      case Start(_) => x.pc.Created?
      case Exchange(_) => x.pc.Started?
      case Lookup(_) => x.pc.Exchanged?
      case WaitSatisfied(_) => x.pc.Waiting? && x.pc.prev in s.sessions && Terminal(s.sessions[x.pc.prev].state)
      case WaitTimesOut(_) => x.pc.Waiting? && x.pc.prev in s.sessions && !Terminal(s.sessions[x.pc.prev].state)
      case TimeoutCas(_) => x.pc.TimedOut?
      case TimeoutFail(_) => x.pc.TimedOutReset?
      case Enter(_) => x.pc.Entering?
      case PlayReturns(_) => x.pc.Playing?
      case PlayThrows(_) => x.pc.Playing?
      case ResetCas(_) => x.pc.Returned?
      case Complete(_) => x.pc.Reset?
      case LateThrow(_) => x.pc.Reset? || x.pc.Completed?
      case HandlerCas(_) => x.pc.Caught?
      case HandlerFail(_) => x.pc.CaughtReset?
      case Finish(_) => x.pc.Completed?
      case Evict(_) => Terminal(x.state)
      case Clear => true
  }

  function Put(s: State, id: nat, x: Session): State {
    s.(sessions := s.sessions[id := x])
  }

  /** compare_exchange_strong(sessionId, 0): on failure sessionId becomes the current value. */
  function Cas(s: State, id: nat, x: Session, pc: Pc): State {
    if s.active == x.expected then Put(s, id, x.(pc := pc)).(active := 0)
    else Put(s, id, x.(pc := pc, expected := s.active))
  }

  function Next(s: State, e: Event): State
    requires Enabled(s, e)
  {
    if e.Clear? then s.(history := {})
    else
      var x := s.sessions[e.id];
      match e
      case Create(id) => Put(s, id, x.(pc := Created)).(history := s.history + {id})
      case Start(id) => Put(s, id, x.(pc := Started, state := SessionRunning))
      case Exchange(id) =>
        Put(s, id, x.(pc := Exchanged(s.active))).(active := id, order := s.order + [id])
      case Lookup(id) =>
        if x.pc.prev != 0 && x.pc.prev in s.history then Put(s, id, x.(pc := Waiting(x.pc.prev)))
        else Put(s, id, x.(pc := Entering))
      case WaitSatisfied(id) => Put(s, id, x.(pc := Entering))
      case WaitTimesOut(id) => Put(s, id, x.(pc := TimedOut))
      case TimeoutCas(id) => Cas(s, id, x, TimedOutReset)
      case TimeoutFail(id) => Put(s, id, x.(pc := Gone, state := SessionFailed))
      case Enter(id) => if id in s.history then Put(s, id, x.(pc := Playing)) else s.(crashed := true)
      case PlayReturns(id) => Put(s, id, x.(pc := Returned))
      case PlayThrows(id) => Put(s, id, x.(pc := Caught))
      case ResetCas(id) => Cas(s, id, x, Reset)
      case Complete(id) => Put(s, id, x.(pc := Completed, state := SessionCompleted))
      case LateThrow(id) => Put(s, id, x.(pc := Caught))
      case HandlerCas(id) => Cas(s, id, x, CaughtReset)
      case HandlerFail(id) => Put(s, id, x.(pc := Gone, state := SessionFailed))
      case Finish(id) => Put(s, id, x.(pc := Gone))
      case Evict(id) => s.(history := s.history - {id})
      case Clear => s
  }

  /** Every event can happen when its turn comes. */
  predicate Legal(s: State, es: seq<Event>)
    decreases |es|
  {
    es == [] || (Enabled(s, es[0]) && Legal(Next(s, es[0]), es[1..]))
  }

  function After(s: State, es: seq<Event>): State
    requires Legal(s, es)
    decreases |es|
  {
    if es == [] then s else After(Next(s, es[0]), es[1..])
  }

  /** The run leads from s to t. */
  predicate Leads(s: State, es: seq<Event>, t: State) {
    Legal(s, es) && After(s, es) == t
  }

  // ---- What is promised -------------------------------------------------------------------

  predicate Plays(s: State, id: nat) {
    id in s.sessions && s.sessions[id].pc.Playing?
  }

  ghost predicate AtMostOnePlaying(s: State) {
    forall a, b | Plays(s, a) && Plays(s, b) :: a == b
  }

  /** The thread will never be in executeFFplay again. */
  predicate Left(pc: Pc) {
    || pc.Returned? || pc.Reset? || pc.Completed? || pc.Caught? || pc.CaughtReset? || pc.Gone?
    || pc.TimedOut? || pc.TimedOutReset?
  }

  /** It never plays again: its thread has left, or the history has lost it before it could enter. */
  predicate Out(s: State, id: nat) {
    id in s.sessions &&
    var pc := s.sessions[id].pc;
    Left(pc) || (!pc.NotCreated? && !pc.Playing? && id !in s.history)
  }

  ghost predicate EarlierOut(s: State, k: nat)
    requires k <= |s.order|
  {
    forall j | 0 <= j < k :: Out(s, s.order[j])
  }

  /** A session plays only after every session that exchanged before it is out. */
  ghost predicate PlaysInExchangeOrder(s: State) {
    forall k | 0 <= k < |s.order| && Plays(s, s.order[k]) :: EarlierOut(s, k)
  }

  // ---- Which steps are harmful -------------------------------------------------------------

  predicate HasExchanged(pc: Pc) {
    !pc.NotCreated? && !pc.Created? && !pc.Started?
  }

  predicate Live(s: State, id: nat) {
    id in s.sessions && !Out(s, id)
  }

  predicate Fresh(s: State, id: nat) {
    id in s.sessions && !HasExchanged(s.sessions[id].pc)
  }

  predicate ToBeCreated(s: State, id: nat) {
    id in s.sessions && s.sessions[id].pc.NotCreated?
  }

  /** A session that can still play has its exchange before it. */
  ghost predicate Open(s: State) {
    exists id :: Fresh(s, id) && Live(s, id)
  }

  predicate Follows(s: State, v: nat, id: nat) {
    Live(s, v) && (s.sessions[v].pc.Exchanged? || s.sessions[v].pc.Waiting?) && s.sessions[v].pc.prev == id
  }

  /** Somebody has exchanged right after id, and can still play. */
  ghost predicate Followed(s: State, id: nat) {
    exists v :: Follows(s, v, id)
  }

  /**
   Of two sessions the later one would not find the earlier one: somebody plays and somebody is
   still to be created; or a session has been created but has not exchanged, and two are still to
   be created, of which the first plays, the lost session displaces it, and the second displaces
   the lost session.
   */
  ghost predicate ClearHides(s: State) {
    || (exists x, v :: Plays(s, x) && ToBeCreated(s, v))
    || (exists w, u, v :: Fresh(s, w) && !ToBeCreated(s, w) && ToBeCreated(s, u) && ToBeCreated(s, v) && u != v)
  }

  /**
   The steps that break the handoff. A wait that times out while the predecessor has not left, if
   somebody follows or is still to come. A handler whose compare-and-swap resets the
   claim of another session that can still play, possible because a failing compare-and-swap left
   that session's ID in sessionId, if somebody is still to come. Clearing the history while it
   hides a session from one that is still to be created.
   */
  ghost predicate Harmful(s: State, e: Event)
    requires Enabled(s, e)
  {
    match e
    case WaitTimesOut(id) =>
      Live(s, id) && !Left(s.sessions[s.sessions[id].pc.prev].pc) && (Followed(s, id) || Open(s))
    case HandlerCas(id) =>
      s.active == s.sessions[id].expected && s.active != id && Live(s, s.active) && Open(s)
    case Clear => ClearHides(s)
    case _ => false
  }

  ghost predicate Harmless(s: State, es: seq<Event>)
    requires Legal(s, es)
    decreases |es|
  {
    es == [] || (!Harmful(s, es[0]) && Harmless(Next(s, es[0]), es[1..]))
  }

  // ---- The main results ----------------------------------------------------------------------

  /** Mutual exclusion over every run without a harmful step, for any number of concurrently starting sessions. */
  lemma Exclusion(ids: set<nat>, es: seq<Event>, s: State)
    requires 0 !in ids && Leads(Init(ids), es, s) && Harmless(Init(ids), es)
    ensures AtMostOnePlaying(s) && PlaysInExchangeOrder(s)
  {
    InitInv(ids);
    RunKeepsInv(Init(ids), es);
    InvImpliesExclusion(s);
  }

  /** What a harmful step, or a run that starts with one, leads to. */
  ghost predicate Breaks(s: State, e: Event, es: seq<Event>) {
    Enabled(s, e) && Legal(Next(s, e), es) && !AtMostOnePlaying(After(Next(s, e), es))
  }

  /** The converse of Exclusion, for every state that harmless steps lead to. */
  lemma HarmfulStepBreaks(ids: set<nat>, before: seq<Event>, s: State, e: Event) returns (es: seq<Event>)
    requires 0 !in ids && Leads(Init(ids), before, s) && Harmless(Init(ids), before)
    requires Enabled(s, e) && Harmful(s, e)
    ensures Breaks(s, e, es)
  {
    InitInv(ids);
    RunKeepsInv(Init(ids), before);
    hide Inv, Breaks, Legal, After;
    match e {
      case WaitTimesOut(id) => es := TimeoutBreaks(s, id);
      case HandlerCas(id) => es := HandlerBreaks(s, id);
      case Clear => es := ClearBreaks(s);
    }
  }

  /** No step of the run is one of those that can do harm. */
  predicate Calm(es: seq<Event>) {
    forall e | e in es :: !e.Clear? && !e.WaitTimesOut? && !e.HandlerCas?
  }

  ghost predicate CalmlyBreaks(s: State, es: seq<Event>) {
    Breaks(s, Clear, es) && Calm(es)
  }

  /** Exactly when a clear breaks the rule by itself, without any later clear, timeout or handler. */
  lemma ClearBreaksIff(ids: set<nat>, before: seq<Event>, s: State)
    requires 0 !in ids && Leads(Init(ids), before, s) && Harmless(Init(ids), before) && Enabled(s, Clear)
    ensures (exists es :: CalmlyBreaks(s, es)) <==> ClearHides(s)
  {
    InitInv(ids);
    RunKeepsInv(Init(ids), before);
    hide Inv, Legal, After, Calm, AtMostOnePlaying;
    if ClearHides(s) {
      var es := ClearBreaks(s);
      assert CalmlyBreaks(s, es);
    } else {
      ClearKeepsInv(s);
      forall es ensures !CalmlyBreaks(s, es) {
        if Legal(Next(s, Clear), es) && Calm(es) {
          CalmIsHarmless(Next(s, Clear), es);
          RunKeepsInv(Next(s, Clear), es);
          InvImpliesExclusion(After(Next(s, Clear), es));
        }
      }
    }
  }

  /** The session was created, and the history has not been cleared since. */
  ghost predicate CreatedSinceClear(es: seq<Event>, id: nat) {
    exists k :: 0 <= k < |es| && es[k] == Create(id) && Clear !in es[k + 1..]
  }

  /**
   executeFFplay begins with a lookup of its own ID and uses the result without a test for null: the
   session plays exactly when the history has not been cleared since its creation, and the
   process crashes otherwise.
   */
  lemma OwnLookupIff(ids: set<nat>, es: seq<Event>, s: State, id: nat)
    requires 0 !in ids && Leads(Init(ids), es, s) && Enabled(s, Enter(id))
    ensures Plays(Next(s, Enter(id)), id) <==> CreatedSinceClear(es, id)
    ensures Next(s, Enter(id)).crashed <==> !CreatedSinceClear(es, id)
  {
    RunKeepsChain(Init(ids), es);
    InHistoryIff(Init(ids), es, s, id);
  }

  /** Without a clear no session meets the crash. */
  lemma NoCrashWithoutClear(ids: set<nat>, es: seq<Event>, s: State)
    requires 0 !in ids && Leads(Init(ids), es, s) && Clear !in es
    ensures !s.crashed
  {
    KnownNeverCrash(Init(ids), es);
  }

  /** Created, not yet in executeFFplay, and not past it. */
  predicate Pending(s: State, id: nat) {
    id in s.sessions && !s.sessions[id].pc.NotCreated? && !s.sessions[id].pc.Playing? && !Left(s.sessions[id].pc)
  }

  /** Some run without a further clear ends in the crash. */
  ghost predicate CanCrash(s: State) {
    exists es :: Clear !in es && Legal(s, es) && After(s, es).crashed
  }

  /** Exactly when a clear can lead to the crash: some session is between its creation and executeFFplay. */
  lemma ClearCrashesIff(ids: set<nat>, before: seq<Event>, s: State)
    requires 0 !in ids && Leads(Init(ids), before, s) && Enabled(s, Clear)
    ensures CanCrash(Next(s, Clear)) <==> exists w :: Pending(s, w)
  {
    var t := Next(s, Clear);
    RunKeepsChain(Init(ids), before);
    StepKeepsChain(s, Clear);
    if w :| Pending(s, w) {
      assert Pending(t, w);
      var es := DriveToCrash(t, w);
    } else {
      assert forall w :: Pending(t, w) ==> Pending(s, w);
      forall es | Clear !in es && Legal(t, es) ensures !After(t, es).crashed {
        KnownNeverCrash(t, es);
      }
    }
  }

  /** The wait chain never deadlocks: while a started session is unfinished, one of them can move. */
  lemma NoDeadlock(ids: set<nat>, es: seq<Event>, s: State, id: nat) returns (e: Event)
    requires 0 !in ids && Leads(Init(ids), es, s) && Harmless(Init(ids), es) && !s.crashed
    requires id in s.order && id in s.sessions && !s.sessions[id].pc.Gone?
    ensures Enabled(s, e) && !e.Clear? && !e.WaitTimesOut? && !e.Evict? && e.id in s.order
    ensures Next(s, e).crashed <==> e.Enter? && !CreatedSinceClear(es, e.id)
  {
    InitInv(ids);
    RunKeepsInv(Init(ids), es);
    var r := FirstUnfinished(s, 0);
    var i :| 0 <= i < |s.order| && s.order[i] == id;
    e := FirstMoves(s, r);
    OnlyEnterCrashes(s, e);
    hide Inv, Enabled, Next;
    if e.Enter? {
      OwnLookupIff(ids, es, s, e.id);
    }
  }

  // ---- The inductive invariant --------------------------------------------------------------

  predicate SessionOk(s: State, id: nat)
    requires id in s.sessions
  {
    var x := s.sessions[id];
    && (HasExchanged(x.pc) ==> id in s.order)
    && (Terminal(x.state) ==> Left(x.pc))
    && (x.pc.Completed? || x.pc.Gone? ==> Terminal(x.state))
    && (!Left(x.pc) || x.pc.Returned? || x.pc.TimedOut? ==> x.expected == id)
    && (x.pc.NotCreated? ==> id !in s.history)
    && (x.pc.Waiting? && id in s.history ==>
          x.pc.prev in s.sessions && (x.pc.prev in s.history || Terminal(s.sessions[x.pc.prev].state)))
  }

  ghost predicate LaterOut(s: State, k: nat) {
    forall j | k < j < |s.order| :: Out(s, s.order[j])
  }

  /** Everybody before position k is out; or everybody behind it is, and nobody is to come. */
  ghost predicate Clean(s: State, k: nat)
    requires k <= |s.order|
  {
    EarlierOut(s, k) || (!Open(s) && LaterOut(s, k))
  }

  /** It has no session left to wait for. */
  predicate Unblocked(s: State, id: nat) {
    id in s.sessions &&
    var pc := s.sessions[id].pc;
    || pc.Playing?
    || (Live(s, id) && (pc.Entering? || (pc.Exchanged? && (pc.prev == 0 || pc.prev !in s.history))))
  }

  ghost predicate PositionOk(s: State, k: nat)
    requires k < |s.order|
  {
    && s.order[k] in s.sessions
    && var pc := s.sessions[s.order[k]].pc;
    && HasExchanged(pc)
    && (pc.Waiting? || (pc.Exchanged? && pc.prev != 0) ==> k > 0 && pc.prev == s.order[k - 1])
    && (Unblocked(s, s.order[k]) ==> EarlierOut(s, k))
    && (Out(s, s.order[k]) ==> Clean(s, k))
  }

  /** A created session that the history has lost before its exchange. */
  predicate Lost(s: State, w: nat) {
    Fresh(s, w) && Out(s, w)
  }

  /** Where a lost session is still to exchange, only one session can still play. */
  ghost predicate Lonely(s: State) {
    forall w, a, b | Lost(s, w) && Live(s, a) && Live(s, b) :: a == b
  }

  ghost predicate Inv(s: State) {
    && 0 !in s.sessions
    && (forall id | id in s.sessions :: SessionOk(s, id))
    && (forall i, j | 0 <= i < j < |s.order| :: s.order[i] != s.order[j])
    && (forall k | 0 <= k < |s.order| :: PositionOk(s, k))
    && (s.active != 0 ==> |s.order| > 0 && s.active == s.order[|s.order| - 1])
    && (s.active == 0 || s.active !in s.history ==> Clean(s, |s.order|))
    && Lonely(s)
  }

  lemma InitInv(ids: set<nat>)
    requires 0 !in ids
    ensures Inv(Init(ids))
  {
  }

  /** Only one session moves, after its exchange; nobody who is out comes back. */
  predicate Moves(s: State, t: State, id: nat) {
    && id in s.sessions && id in t.sessions && t == Put(s, id, t.sessions[id]).(active := t.active)
    && HasExchanged(s.sessions[id].pc) && HasExchanged(t.sessions[id].pc)
    && (Out(s, id) ==> Out(t, id))
    && (Terminal(s.sessions[id].state) ==> Terminal(t.sessions[id].state))
  }

  /** What is clean stays clean if nobody comes back and nobody joins those who are to come. */
  lemma OutStays(s: State, t: State)
    requires s.order == t.order && (Open(t) ==> Open(s)) && forall x | Out(s, x) :: Out(t, x)
    ensures forall k | 0 <= k <= |s.order| && EarlierOut(s, k) :: EarlierOut(t, k)
    ensures forall k | 0 <= k <= |s.order| && Clean(s, k) :: Clean(t, k)
  {
    hide Out, Open;
  }

  lemma MovesKeep(s: State, t: State, id: nat)
    requires Moves(s, t, id)
    ensures Open(t) <==> Open(s)
    ensures forall x :: Fresh(t, x) <==> Fresh(s, x)
    ensures forall x | Out(s, x) :: Out(t, x)
    ensures Lonely(s) ==> Lonely(t)
    ensures forall k | 0 <= k <= |s.order| && EarlierOut(s, k) :: EarlierOut(t, k)
    ensures forall k | 0 <= k <= |s.order| && Clean(s, k) :: Clean(t, k)
  {
    assert forall x :: Fresh(t, x) <==> Fresh(s, x);
    assert forall x | Fresh(s, x) :: Out(t, x) <==> Out(s, x);
    assert forall x | Live(t, x) :: Live(s, x);
    assert forall x | Lost(t, x) :: Lost(s, x);
    assert forall x | Fresh(s, x) :: Live(t, x) <==> Live(s, x);
    OutStays(s, t);
  }

  /** A thread that moves on behind its exchange. */
  lemma MoveKeepsInv(s: State, t: State, id: nat)
    requires Inv(s) && Moves(s, t, id)
    requires t.active == s.active || (t.active == 0 && Clean(s, |s.order|))
    requires SessionOk(t, id)
    requires !t.sessions[id].pc.Exchanged?
    requires t.sessions[id].pc.Waiting? ==> s.sessions[id].pc == Exchanged(t.sessions[id].pc.prev) && t.sessions[id].pc.prev != 0
    requires Unblocked(t, id) ==> forall k | 0 <= k < |s.order| && s.order[k] == id :: EarlierOut(s, k)
    requires Out(t, id) ==> forall k | 0 <= k < |s.order| && s.order[k] == id :: Clean(s, k)
    ensures Inv(t)
  {
    MovesKeep(s, t, id);
    forall x | x in t.sessions ensures SessionOk(t, x) {
      assert SessionOk(s, x);
    }
    hide Clean, EarlierOut, Open, Lonely, SessionOk;
    forall k | 0 <= k < |t.order| ensures PositionOk(t, k) {
      MovePosition(s, t, id, k);
    }
  }

  lemma MovePosition(s: State, t: State, id: nat, k: nat)
    requires Moves(s, t, id) && k < |s.order| && PositionOk(s, k)
    requires !t.sessions[id].pc.Exchanged?
    requires t.sessions[id].pc.Waiting? ==> s.sessions[id].pc == Exchanged(t.sessions[id].pc.prev) && t.sessions[id].pc.prev != 0
    requires s.order[k] == id ==> (Unblocked(t, id) ==> EarlierOut(s, k)) && (Out(t, id) ==> Clean(s, k))
    ensures PositionOk(t, k)
  {
    MovesKeep(s, t, id);
    hide Clean, EarlierOut, Open, Lonely, Terminal, Left;
  }

  /** Where the wait ends: the predecessor is out, and so is everybody before it. */
  lemma PredecessorOut(s: State, k: nat)
    requires Inv(s) && 0 < k < |s.order|
    requires Out(s, s.order[k - 1]) && !Out(s, s.order[k])
    ensures EarlierOut(s, k)
  {
    hide Out, Open, SessionOk;
    assert PositionOk(s, k - 1);
  }

  lemma LastOut(s: State)
    requires Inv(s) && |s.order| > 0 && Out(s, s.order[|s.order| - 1])
    ensures Clean(s, |s.order|)
  {
    hide Out, Open, SessionOk;
    assert PositionOk(s, |s.order| - 1);
  }

  lemma LookupKeepsInv(s: State, id: nat)
    requires Inv(s) && Enabled(s, Lookup(id))
    ensures Inv(Next(s, Lookup(id)))
  {
    var t := Next(s, Lookup(id));
    assert SessionOk(s, id);
    forall k | 0 <= k < |s.order| && s.order[k] == id
      ensures Unblocked(t, id) ==> EarlierOut(s, k)
      ensures Out(t, id) ==> Clean(s, k)
      ensures t.sessions[id].pc.Waiting? ==> t.sessions[id].pc.prev in s.sessions
    {
      assert PositionOk(s, k);
      if t.sessions[id].pc.Waiting? {
        assert PositionOk(s, k - 1);
      }
    }
    assert SessionOk(t, id);
    hide Clean, EarlierOut, Open, Lonely, SessionOk;
    MoveKeepsInv(s, t, id);
  }

  /** The end of the wait, and the own lookup of a session that the history holds. */
  lemma EntryKeepsInv(s: State, e: Event)
    requires Inv(s) && Enabled(s, e) && (e.WaitSatisfied? || e.Enter?)
    ensures Inv(Next(s, e))
  {
    var t := Next(s, e);
    var id := e.id;
    assert SessionOk(s, id);
    if t.crashed {
      Crash(s, t);
    } else {
      forall k | 0 <= k < |s.order| && s.order[k] == id
        ensures Unblocked(t, id) ==> EarlierOut(s, k)
        ensures Out(t, id) ==> Clean(s, k)
      {
        assert PositionOk(s, k);
        if e.WaitSatisfied? && Live(s, id) {
          assert SessionOk(s, s.order[k - 1]);
          PredecessorOut(s, k);
        }
      }
      assert SessionOk(t, id);
      hide Clean, EarlierOut, Open, Lonely, SessionOk;
      MoveKeepsInv(s, t, id);
    }
  }

  lemma Crash(s: State, t: State)
    requires Inv(s) && t == s.(crashed := true)
    ensures Inv(t)
  {
    assert forall x | x in s.sessions :: SessionOk(s, x) ==> SessionOk(t, x);
    assert forall x :: Fresh(t, x) <==> Fresh(s, x);
    assert forall x :: Out(t, x) <==> Out(s, x);
    assert forall x :: Live(t, x) <==> Live(s, x);
    assert forall x | Lost(t, x) :: Lost(s, x);
    OutStays(s, t);
    hide Clean, EarlierOut, SessionOk, Open, Out;
    forall k | 0 <= k < |t.order| ensures PositionOk(t, k) {
      assert PositionOk(s, k);
    }
  }

  lemma NobodyBehind(s: State, k: nat)
    requires Inv(s) && k < |s.order| && Live(s, s.order[k]) && !Open(s) && !Followed(s, s.order[k])
    ensures LaterOut(s, k)
  {
    if k + 1 < |s.order| {
      assert PositionOk(s, k + 1);
      assert !EarlierOut(s, k + 1);
      assert !Follows(s, s.order[k + 1], s.order[k]);
      assert Out(s, s.order[k + 1]);
    }
  }

  /** A wait that times out after the predecessor has left, or with nobody behind and nobody to come. */
  lemma TimeoutKeepsInv(s: State, id: nat)
    requires Inv(s) && Enabled(s, WaitTimesOut(id)) && !Harmful(s, WaitTimesOut(id))
    ensures Inv(Next(s, WaitTimesOut(id)))
  {
    var t := Next(s, WaitTimesOut(id));
    assert SessionOk(s, id);
    forall k | 0 <= k < |s.order| && s.order[k] == id ensures Clean(s, k) {
      assert PositionOk(s, k);
      if Live(s, id) {
        if Left(s.sessions[s.sessions[id].pc.prev].pc) {
          PredecessorOut(s, k);
        } else {
          NobodyBehind(s, k);
        }
      }
    }
    assert SessionOk(t, id);
    hide Clean, EarlierOut, Open, Lonely, SessionOk, Followed;
    MoveKeepsInv(s, t, id);
  }

  lemma ExchangeKeeps(s: State, id: nat)
    requires Inv(s) && Enabled(s, Exchange(id))
    ensures Fresh(s, id) && id !in s.order
    ensures var t := Next(s, Exchange(id));
            && (forall x :: Fresh(t, x) ==> Fresh(s, x))
            && (forall x :: Out(t, x) <==> Out(s, x))
            && (Open(t) ==> Open(s))
            && Lonely(t)
  {
    var t := Next(s, Exchange(id));
    assert SessionOk(s, id) && Fresh(s, id);
    forall i | 0 <= i < |s.order| ensures s.order[i] != id {
      assert PositionOk(s, i);
    }
    assert forall x :: Fresh(t, x) ==> Fresh(s, x);
    assert forall x :: Out(t, x) <==> Out(s, x);
    assert forall x :: Live(t, x) <==> Live(s, x);
    assert forall x | Lost(t, x) :: Lost(s, x);
  }

  /** If somebody is to come, or if the exchanging session is lost, what is clean stays clean. */
  lemma ExchangeClean(s: State, id: nat, k: nat)
    requires Inv(s) && Enabled(s, Exchange(id)) && k <= |s.order| && Clean(s, k)
    ensures Clean(Next(s, Exchange(id)), k)
    ensures Live(s, id) ==> EarlierOut(Next(s, Exchange(id)), k)
  {
    var t := Next(s, Exchange(id));
    ExchangeKeeps(s, id);
    hide Out, Lonely, PositionOk, SessionOk;
    if EarlierOut(s, k) {
      assert EarlierOut(t, k);
    } else {
      assert !Live(s, id);
      assert LaterOut(t, k);
    }
  }

  /** A lost session exchanges: only one session can still play, so it is behind everybody or to come. */
  lemma LostExchange(s: State, id: nat, k: nat)
    requires Inv(s) && Enabled(s, Exchange(id)) && Out(s, id) && |s.order| <= k <= |s.order| + 1
    ensures Clean(Next(s, Exchange(id)), k)
  {
    var t := Next(s, Exchange(id));
    ExchangeKeeps(s, id);
    if Open(t) {
      var v :| Fresh(t, v) && Live(t, v);
      assert Lost(s, id) && Live(s, v);
      forall j | 0 <= j < k ensures Out(t, t.order[j]) {
        if j < |s.order| {
          assert PositionOk(s, j) && s.order[j] != v;
          assert !Live(s, s.order[j]);
        }
      }
      assert EarlierOut(t, k);
    }
  }

  lemma ExchangePositions(s: State, id: nat)
    requires Inv(s) && Enabled(s, Exchange(id))
    ensures var t := Next(s, Exchange(id)); forall k | 0 <= k < |t.order| :: PositionOk(t, k)
  {
    var t := Next(s, Exchange(id));
    ExchangeKeeps(s, id);
    forall k | 0 <= k < |t.order| ensures PositionOk(t, k) {
      if k < |s.order| {
        OldPosition(s, id, k);
      } else {
        NewPosition(s, id);
      }
    }
  }

  lemma OldPosition(s: State, id: nat, k: nat)
    requires Inv(s) && Enabled(s, Exchange(id)) && k < |s.order|
    ensures PositionOk(Next(s, Exchange(id)), k)
  {
    var t := Next(s, Exchange(id));
    ExchangeKeeps(s, id);
    hide Clean, Open, SessionOk, Lonely;
    assert PositionOk(s, k);
    assert t.sessions[s.order[k]] == s.sessions[s.order[k]];
    if Out(s, s.order[k]) {
      ExchangeClean(s, id, k);
    }
    if EarlierOut(s, k) {
      assert EarlierOut(t, k);
    }
  }

  lemma NewPosition(s: State, id: nat)
    requires Inv(s) && Enabled(s, Exchange(id))
    ensures PositionOk(Next(s, Exchange(id)), |s.order|)
  {
    var t := Next(s, Exchange(id));
    ExchangeKeeps(s, id);
    hide Clean, EarlierOut, Open, SessionOk, Lonely;
    if Out(s, id) {
      LostExchange(s, id, |s.order|);
    } else if s.active == 0 || s.active !in s.history {
      ExchangeClean(s, id, |s.order|);
    }
  }

  lemma ExchangeSession(s: State, id: nat, x: nat)
    requires Enabled(s, Exchange(id)) && x in s.sessions && SessionOk(s, x)
    ensures SessionOk(Next(s, Exchange(id)), x)
  {
  }

  lemma ExchangeKeepsInv(s: State, id: nat)
    requires Inv(s) && Enabled(s, Exchange(id))
    ensures Inv(Next(s, Exchange(id)))
  {
    var t := Next(s, Exchange(id));
    ExchangeKeeps(s, id);
    ExchangePositions(s, id);
    assert SessionOk(s, id) && t.order[|s.order|] == id && id != 0;
    if id !in s.history {
      LostExchange(s, id, |s.order| + 1);
    }
    hide Clean, EarlierOut, Open, PositionOk, Lonely;
    forall x | x in t.sessions ensures SessionOk(t, x) {
      ExchangeSession(s, id, x);
    }
  }

  /** A session that is created or started: it stays fresh, and as live as it was. */
  lemma FreshKeeps(s: State, e: Event)
    requires Inv(s) && Enabled(s, e) && (e.Create? || e.Start?)
    ensures var t := Next(s, e);
            && (forall x :: Fresh(t, x) <==> Fresh(s, x))
            && (forall x :: Out(t, x) <==> Out(s, x))
            && (Open(t) ==> Open(s))
            && Lonely(t)
  {
    var t := Next(s, e);
    assert SessionOk(s, e.id);
    assert forall x :: Fresh(t, x) <==> Fresh(s, x);
    assert forall x :: Out(t, x) <==> Out(s, x);
    assert forall x :: Live(t, x) <==> Live(s, x);
    assert forall x | Lost(t, x) :: Lost(s, x);
  }

  lemma FreshKeepsInv(s: State, e: Event)
    requires Inv(s) && Enabled(s, e) && (e.Create? || e.Start?)
    ensures Inv(Next(s, e))
  {
    var t := Next(s, e);
    FreshKeeps(s, e);
    OutStays(s, t);
    hide Clean, EarlierOut, Open, Lonely, Fresh, Out, PositionOk;
    forall x | x in t.sessions ensures SessionOk(t, x) {
      assert SessionOk(s, e.id) && SessionOk(s, x);
    }
    hide SessionOk;
    forall k | 0 <= k < |t.order| ensures PositionOk(t, k) {
      FreshPosition(s, e, k);
    }
  }

  lemma FreshPosition(s: State, e: Event, k: nat)
    requires Inv(s) && Enabled(s, e) && (e.Create? || e.Start?) && k < |s.order|
    ensures PositionOk(Next(s, e), k)
  {
    FreshKeeps(s, e);
    OutStays(s, Next(s, e));
    hide Clean, EarlierOut, Open, SessionOk, Lonely, Fresh, Terminal, Left;
    assert PositionOk(s, k);
  }

  /** The history forgets a session that has left. */
  lemma EvictKeepsInv(s: State, id: nat)
    requires Inv(s) && Enabled(s, Evict(id))
    ensures Inv(Next(s, Evict(id)))
  {
    var t := Next(s, Evict(id));
    assert SessionOk(s, id);
    assert forall x :: Fresh(t, x) <==> Fresh(s, x);
    assert forall x :: Out(t, x) <==> Out(s, x);
    assert forall x :: Live(t, x) <==> Live(s, x);
    assert forall x | Lost(t, x) :: Lost(s, x);
    OutStays(s, t);
    forall x | x in t.sessions ensures SessionOk(t, x) {
      assert SessionOk(s, x);
    }
    hide Clean, EarlierOut, Open, SessionOk;
    forall k | 0 <= k < |t.order| ensures PositionOk(t, k) {
      assert PositionOk(s, k);
      if Unblocked(t, s.order[k]) && !Unblocked(s, s.order[k]) {
        PredecessorOut(s, k);
      }
    }
    if s.active == id {
      LastOut(s);
    }
  }

  /** After a clear that hides nobody, only one session can still play, or all that can are to be created. */
  lemma ClearLeaves(s: State)
    requires Inv(s) && Enabled(s, Clear) && !ClearHides(s)
    ensures var t := Next(s, Clear);
            && (forall x | Out(s, x) :: Out(t, x))
            && (forall x | Live(t, x) :: Plays(s, x) || ToBeCreated(s, x))
            && (Open(t) ==> Open(s) && forall x :: !Plays(s, x))
            && Lonely(t)
  {
    var t := Next(s, Clear);
    InvImpliesExclusion(s);
    assert forall x | Live(t, x) :: Plays(s, x) || ToBeCreated(s, x);
    if Open(t) {
      var v :| Fresh(t, v) && Live(t, v);
      assert ToBeCreated(s, v) && Fresh(s, v) && Live(s, v);
      assert forall x :: !(Plays(s, x) && ToBeCreated(s, v));
    }
    forall w, a, b | Lost(t, w) && Live(t, a) && Live(t, b) ensures a == b {
      assert Fresh(s, w) && !ToBeCreated(s, w);
      assert Plays(s, a) || ToBeCreated(s, a);
      assert Plays(s, b) || ToBeCreated(s, b);
    }
  }

  lemma ClearClean(s: State, k: nat)
    requires Inv(s) && Enabled(s, Clear) && !ClearHides(s) && k <= |s.order|
    requires k < |s.order| ==> !Plays(s, s.order[k])
    ensures Clean(Next(s, Clear), k)
  {
    var t := Next(s, Clear);
    ClearLeaves(s);
    InvImpliesExclusion(s);
    forall j | 0 <= j < |s.order| ensures Out(t, s.order[j]) || Plays(s, s.order[j]) {
      assert PositionOk(s, j);
    }
    if m :| 0 <= m < |s.order| && Plays(s, s.order[m]) {
      if m < k {
        assert LaterOut(t, k);
      } else {
        assert EarlierOut(t, k);
      }
    } else {
      assert EarlierOut(t, k);
    }
  }

  lemma ClearKeepsInv(s: State)
    requires Inv(s) && Enabled(s, Clear) && !ClearHides(s)
    ensures Inv(Next(s, Clear))
  {
    var t := Next(s, Clear);
    ClearLeaves(s);
    forall x | x in t.sessions ensures SessionOk(t, x) {
      assert SessionOk(s, x);
    }
    forall k | 0 <= k < |t.order| ensures PositionOk(t, k) {
      ClearPosition(s, k);
    }
    ClearClean(s, |s.order|);
  }

  lemma ClearPosition(s: State, k: nat)
    requires Inv(s) && Enabled(s, Clear) && !ClearHides(s) && k < |s.order|
    ensures PositionOk(Next(s, Clear), k)
  {
    var t := Next(s, Clear);
    ClearLeaves(s);
    hide Lonely, Open, SessionOk, ClearHides;
    assert PositionOk(s, k);
    if !Plays(s, s.order[k]) {
      ClearClean(s, k);
    }
  }

  /** A thread behind executeFFplay moves on, or leaves executeFFplay. */
  predicate IsLeaving(e: Event) {
    || e.ResetCas? || e.TimeoutCas? || e.HandlerCas?
    || e.PlayReturns? || e.PlayThrows? || e.TimeoutFail? || e.Complete? || e.LateThrow? || e.HandlerFail? || e.Finish?
  }

  lemma LeavingMoves(s: State, e: Event)
    requires Enabled(s, e) && IsLeaving(e) && SessionOk(s, e.id)
    ensures var t := Next(s, e); Moves(s, t, e.id) && SessionOk(t, e.id) && Left(t.sessions[e.id].pc)
  {
  }

  lemma CleanWhereOut(s: State, id: nat)
    requires Inv(s) && id in s.sessions && (Left(s.sessions[id].pc) || Plays(s, id))
    ensures forall k | 0 <= k < |s.order| && s.order[k] == id :: Clean(s, k)
  {
    hide SessionOk, Open, EarlierOut, Lonely;
    forall k | 0 <= k < |s.order| && s.order[k] == id ensures Clean(s, k) {
      assert PositionOk(s, k);
    }
  }

  lemma LeavingKeepsInv(s: State, e: Event)
    requires Inv(s) && Enabled(s, e) && !Harmful(s, e) && IsLeaving(e)
    ensures Inv(Next(s, e))
  {
    var t := Next(s, e);
    LeavingMoves(s, e);
    CleanWhereOut(s, e.id);
    if t.active != s.active {
      ResetClean(s, e);
    }
    hide Clean, EarlierOut, Lonely, SessionOk, PositionOk, Harmful, Open;
    MoveKeepsInv(s, t, e.id);
  }

  lemma ResetClean(s: State, e: Event)
    requires Inv(s) && Enabled(s, e) && !Harmful(s, e) && IsLeaving(e) && Next(s, e).active != s.active
    ensures Next(s, e).active == 0 && Clean(s, |s.order|)
  {
    assert SessionOk(s, e.id);
    hide Lonely;
    if Live(s, s.active) {
      assert e.HandlerCas? && !Open(s);
      assert LaterOut(s, |s.order|);
    } else {
      assert PositionOk(s, |s.order| - 1);
      LastOut(s);
    }
  }

  lemma StepKeepsInv(s: State, e: Event)
    requires Inv(s) && Enabled(s, e) && !Harmful(s, e)
    ensures Inv(Next(s, e))
  {
    if e.Create? || e.Start? {
      FreshKeepsInv(s, e);
    } else if e.Evict? {
      EvictKeepsInv(s, e.id);
    } else if e.Clear? {
      ClearKeepsInv(s);
    } else if e.Exchange? {
      ExchangeKeepsInv(s, e.id);
    } else if e.Lookup? {
      LookupKeepsInv(s, e.id);
    } else if e.WaitSatisfied? || e.Enter? {
      EntryKeepsInv(s, e);
    } else if e.WaitTimesOut? {
      TimeoutKeepsInv(s, e.id);
    } else {
      LeavingKeepsInv(s, e);
    }
  }

  lemma {:induction false} RunKeepsInv(s: State, es: seq<Event>)
    requires Inv(s) && Legal(s, es) && Harmless(s, es)
    ensures Inv(After(s, es))
    decreases |es|
  {
    hide Inv, Harmful, Next;
    if es != [] {
      StepKeepsInv(s, es[0]);
      RunKeepsInv(Next(s, es[0]), es[1..]);
    }
  }

  // ---- Without harmful steps the rule holds -----------------------------------------------------

  lemma InvImpliesExclusion(s: State)
    requires Inv(s)
    ensures AtMostOnePlaying(s) && PlaysInExchangeOrder(s)
  {
    forall k | 0 <= k < |s.order| && Plays(s, s.order[k]) ensures EarlierOut(s, k) {
      assert PositionOk(s, k);
    }
    forall a, b | Plays(s, a) && Plays(s, b) ensures a == b {
      assert SessionOk(s, a) && SessionOk(s, b);
      var i :| 0 <= i < |s.order| && s.order[i] == a;
      var j :| 0 <= j < |s.order| && s.order[j] == b;
      assert EarlierOut(s, i) && EarlierOut(s, j);
    }
  }

  // ---- When the lookup of the own ID succeeds ---------------------------------------------------

  /** What holds on every run, with or without harmful steps: a session waits for the one exchanged before it. */
  ghost predicate Chain(s: State) {
    && 0 !in s.sessions
    && (s.active != 0 ==> |s.order| > 0 && s.active == s.order[|s.order| - 1])
    && (forall id | id in s.sessions :: ThreadOk(s, id))
    && (forall k | 0 <= k < |s.order| :: LinkOk(s, k))
  }

  predicate ThreadOk(s: State, id: nat)
    requires id in s.sessions
  {
    var x := s.sessions[id];
    && (Terminal(x.state) ==> Left(x.pc))
    && (x.pc.Completed? || x.pc.Gone? ==> Terminal(x.state))
    && (HasExchanged(x.pc) ==> id in s.order)
  }

  predicate LinkOk(s: State, k: nat)
    requires k < |s.order|
  {
    && s.order[k] in s.sessions
    && var pc := s.sessions[s.order[k]].pc;
    && HasExchanged(pc)
    && (pc.Waiting? || (pc.Exchanged? && pc.prev != 0) ==> k > 0 && pc.prev == s.order[k - 1])
  }

  lemma StepKeepsThread(s: State, e: Event, x: nat)
    requires Chain(s) && Enabled(s, e) && x in s.sessions
    ensures x in Next(s, e).sessions && ThreadOk(Next(s, e), x)
    ensures Left(s.sessions[x].pc) ==> Left(Next(s, e).sessions[x].pc)
  {
    assert ThreadOk(s, x);
    hide LinkOk, Chain;
    OrderGrows(s, e);
    if e == Clear || e.id != x {
      assert Next(s, e).sessions[x] == s.sessions[x];
    }
  }

  lemma OrderGrows(s: State, e: Event)
    requires Enabled(s, e)
    ensures Next(s, e).order == if e.Exchange? then s.order + [e.id] else s.order
  {
  }

  lemma StepKeepsLink(s: State, e: Event, k: nat)
    requires Chain(s) && Enabled(s, e) && k < |Next(s, e).order|
    ensures LinkOk(Next(s, e), k)
  {
    hide ThreadOk, Left, Terminal;
    if k < |s.order| {
      assert LinkOk(s, k);
    }
  }

  lemma StepKeepsChain(s: State, e: Event)
    requires Chain(s) && Enabled(s, e)
    ensures Chain(Next(s, e))
    ensures Next(s, e).sessions.Keys == s.sessions.Keys
  {
    var t := Next(s, e);
    forall k | 0 <= k < |t.order| ensures LinkOk(t, k) {
      StepKeepsLink(s, e, k);
    }
    assert t.sessions.Keys == s.sessions.Keys;
    hide ThreadOk, LinkOk;
    forall x | x in t.sessions ensures ThreadOk(t, x) {
      StepKeepsThread(s, e, x);
    }
  }

  lemma {:induction false} RunKeepsChain(s: State, es: seq<Event>)
    requires Chain(s) && Legal(s, es)
    ensures Chain(After(s, es)) && After(s, es).sessions.Keys == s.sessions.Keys
    decreases |es|
  {
    if es != [] {
      StepKeepsChain(s, es[0]);
      RunKeepsChain(Next(s, es[0]), es[1..]);
    }
  }

  lemma {:induction false} InHistoryIff(s: State, es: seq<Event>, t: State, id: nat)
    requires Chain(s) && Leads(s, es, t) && id in t.sessions && !Left(t.sessions[id].pc)
    ensures id in t.history <==> CreatedSinceClear(es, id) || (id in s.history && Clear !in es)
    decreases |es|
  {
    if es != [] {
      var m := Next(s, es[0]);
      StepKeepsChain(s, es[0]);
      RunKeepsChain(m, es[1..]);
      InHistoryIff(m, es[1..], t, id);
      SinceClearStep(es, id);
      if Left(m.sessions[id].pc) {
        StaysLeft(m, es[1..], id);
      }
      KeptByStep(s, es[0], id);
    }
  }

  lemma KeptByStep(s: State, e: Event, id: nat)
    requires Chain(s) && Enabled(s, e) && id in s.sessions && !Left(Next(s, e).sessions[id].pc)
    ensures id in Next(s, e).history <==> e == Create(id) || (id in s.history && !e.Clear?)
  {
    assert ThreadOk(s, id);
  }

  lemma SinceClearStep(es: seq<Event>, id: nat)
    requires es != []
    ensures CreatedSinceClear(es, id) <==> CreatedSinceClear(es[1..], id) || (es[0] == Create(id) && Clear !in es[1..])
    ensures Clear in es <==> es[0].Clear? || Clear in es[1..]
  {
    var rest := es[1..];
    assert es == [es[0]] + rest;
    assert forall k | 0 <= k < |rest| :: rest[k..] == es[k + 1..] && rest[k] == es[k + 1];
    if k :| 0 <= k < |rest| && rest[k] == Create(id) && Clear !in rest[k + 1..] {
      assert es[k + 1] == Create(id) && es[k + 1 + 1..] == rest[k + 1..];
    }
    if k :| 0 <= k < |es| && es[k] == Create(id) && Clear !in es[k + 1..] {
      if k > 0 {
        assert rest[k - 1] == Create(id) && rest[k - 1 + 1..] == es[k + 1..];
      }
    }
  }

  lemma {:induction false} StaysLeft(s: State, es: seq<Event>, id: nat)
    requires Chain(s) && Legal(s, es) && id in s.sessions && Left(s.sessions[id].pc)
    ensures id in After(s, es).sessions && Left(After(s, es).sessions[id].pc)
    decreases |es|
  {
    if es != [] {
      StepKeepsChain(s, es[0]);
      StepKeepsThread(s, es[0], id);
      StaysLeft(Next(s, es[0]), es[1..], id);
    }
  }

  /** The first session of the exchange order, from k on, whose thread is still in ffplayExecute. */
  ghost function FirstUnfinished(s: State, k: nat): (r: nat)
    requires Inv(s) && k <= |s.order|
    requires forall i | 0 <= i < k :: s.order[i] in s.sessions && s.sessions[s.order[i]].pc.Gone?
    ensures k <= r <= |s.order|
    ensures forall i | 0 <= i < r :: s.order[i] in s.sessions && s.sessions[s.order[i]].pc.Gone?
    ensures r < |s.order| ==> s.order[r] in s.sessions && !s.sessions[s.order[r]].pc.Gone?
    decreases |s.order| - k
  {
    if k == |s.order| then k
    else
      assert PositionOk(s, k);
      if s.sessions[s.order[k]].pc.Gone? then FirstUnfinished(s, k + 1) else k
  }

  lemma OnlyEnterCrashes(s: State, e: Event)
    requires Enabled(s, e)
    ensures Next(s, e).crashed ==> e.Enter?
  {
  }

  /** The first session in the exchange order that is still there waits for nobody. */
  lemma FirstMoves(s: State, r: nat) returns (e: Event)
    requires Inv(s) && !s.crashed && r < |s.order| && s.order[r] in s.sessions && !s.sessions[s.order[r]].pc.Gone?
    requires forall i | 0 <= i < r :: s.order[i] in s.sessions && s.sessions[s.order[i]].pc.Gone?
    ensures Enabled(s, e) && !e.Clear? && !e.WaitTimesOut? && !e.Evict? && e.id == s.order[r]
  {
    var x := s.order[r];
    assert SessionOk(s, x) && PositionOk(s, r);
    match s.sessions[x].pc
    case Exchanged(_) => e := Lookup(x);
    case Waiting(p) =>
      assert SessionOk(s, p);
      e := WaitSatisfied(x);
    case Entering => e := Enter(x);
    case TimedOut => e := TimeoutCas(x);
    case TimedOutReset => e := TimeoutFail(x);
    case Playing => e := PlayReturns(x);
    case Returned => e := ResetCas(x);
    case Reset => e := Complete(x);
    case Completed => e := Finish(x);
    case Caught => e := HandlerCas(x);
    case CaughtReset => e := HandlerFail(x);
  }

  ghost predicate PendingAreKnown(s: State) {
    forall w | Pending(s, w) :: w in s.history
  }

  lemma KnownStep(s: State, e: Event)
    requires Chain(s) && PendingAreKnown(s) && Enabled(s, e) && !e.Clear?
    ensures PendingAreKnown(Next(s, e)) && !Next(s, e).crashed
  {
    var t := Next(s, e);
    forall w | Pending(t, w) ensures w in t.history {
      assert ThreadOk(s, w);
      assert Pending(s, w) || e == Create(w);
    }
    if e.Enter? {
      assert Pending(s, e.id);
    }
  }

  lemma {:induction false} KnownNeverCrash(s: State, es: seq<Event>)
    requires Chain(s) && PendingAreKnown(s) && !s.crashed && Legal(s, es) && Clear !in es
    ensures !After(s, es).crashed
    decreases |es|
  {
    if es != [] {
      hide Chain, PendingAreKnown, Next;
      StepKeepsChain(s, es[0]);
      assert es[0] in es;
      KnownStep(s, es[0]);
      KnownNeverCrash(Next(s, es[0]), es[1..]);
    }
  }

  /** A pending session that the emptied history has lost is driven into the crash. */
  lemma DriveToCrash(s: State, w: nat) returns (es: seq<Event>)
    requires Chain(s) && !s.crashed && s.history == {} && Pending(s, w)
    ensures Clear !in es && Legal(s, es) && After(s, es).crashed
  {
    if HasExchanged(s.sessions[w].pc) {
      assert ThreadOk(s, w);
      var k :| 0 <= k < |s.order| && s.order[k] == w;
      es := DriveExchanged(s, k);
    } else {
      var m := s;
      es := [];
      if s.sessions[w].pc.Created? {
        es, m := [Start(w)], Next(s, Start(w));
        OneStep(s, Start(w));
      }
      var more, t := ThreeSteps(m, Exchange(w), Lookup(w), Enter(w));
      Chained(s, es, m, more, t);
      es := es + more;
    }
  }

  lemma DriveExchanged(s: State, k: nat) returns (es: seq<Event>)
    requires Chain(s) && !s.crashed && s.history == {} && k < |s.order| && Pending(s, s.order[k]) && HasExchanged(s.sessions[s.order[k]].pc)
    ensures Clear !in es && Legal(s, es) && After(s, es).crashed
    decreases k
  {
    var w := s.order[k];
    assert LinkOk(s, k);
    match s.sessions[w].pc
    case Entering =>
      es := [Enter(w)];
      OneStep(s, Enter(w));
    case Exchanged(_) =>
      var t;
      es, t := TwoSteps(s, Lookup(w), Enter(w));
    case Waiting(p) =>
      assert LinkOk(s, k - 1) && ThreadOk(s, p);
      if Pending(s, p) {
        es := DriveExchanged(s, k - 1);
      } else {
        es := DriveWaiting(s, w);
      }
  }

  lemma DriveWaiting(s: State, w: nat) returns (es: seq<Event>)
    requires !s.crashed && s.history == {} && w in s.sessions && s.sessions[w].pc.Waiting?
    requires var p := s.sessions[w].pc.prev; p != w && (Plays(s, p) || Settled(s, p))
    ensures Clear !in es && Legal(s, es) && After(s, es).crashed
  {
    var p := s.sessions[w].pc.prev;
    var m := s;
    es := [];
    if Plays(s, p) {
      es, m := [PlayReturns(p)], Next(s, PlayReturns(p));
      OneStep(s, PlayReturns(p));
    }
    var more, u := FinishOff(m, p);
    Chained(s, es, m, more, u);
    var last, t := TwoSteps(u, WaitSatisfied(w), Enter(w));
    Chained(s, es + more, u, last, t);
    es := es + more + last;
  }

  // ---- Runs are put together ---------------------------------------------------------------------

  lemma LegalStep(s: State, e: Event, es: seq<Event>)
    requires Enabled(s, e) && Legal(Next(s, e), es)
    ensures Legal(s, [e] + es) && After(s, [e] + es) == After(Next(s, e), es)
  {
    assert ([e] + es)[1..] == es;
  }

  lemma {:induction false} Chained(s: State, a: seq<Event>, t: State, b: seq<Event>, u: State)
    requires Leads(s, a, t) && Leads(t, b, u)
    ensures Leads(s, a + b, u)
    decreases |a|
  {
    if a == [] {
      assert a + b == b;
    } else {
      Chained(Next(s, a[0]), a[1..], t, b, u);
      assert a + b == [a[0]] + (a[1..] + b);
      LegalStep(s, a[0], a[1..] + b);
    }
  }

  lemma OneStep(s: State, e: Event)
    requires Enabled(s, e)
    ensures Leads(s, [e], Next(s, e))
  {
    assert Legal(Next(s, e), []);
    LegalStep(s, e, []);
  }

  lemma TwoSteps(s: State, a: Event, b: Event) returns (es: seq<Event>, t: State)
    requires Enabled(s, a) && Enabled(Next(s, a), b)
    ensures es == [a, b] && t == Next(Next(s, a), b) && Leads(s, es, t)
  {
    es, t := [a] + [b], Next(Next(s, a), b);
    OneStep(Next(s, a), b);
    LegalStep(s, a, [b]);
  }

  lemma ThreeSteps(s: State, a: Event, b: Event, c: Event) returns (es: seq<Event>, t: State)
    requires Enabled(s, a) && Enabled(Next(s, a), b) && Enabled(Next(Next(s, a), b), c)
    ensures es == [a, b, c] && t == Next(Next(Next(s, a), b), c) && Leads(s, es, t)
  {
    var more;
    more, t := TwoSteps(Next(s, a), b, c);
    LegalStep(s, a, more);
    es := [a] + more;
  }

  // ---- Every harmful step breaks the rule --------------------------------------------------------

  predicate Settled(s: State, p: nat) {
    p in s.sessions && Left(s.sessions[p].pc) && (s.sessions[p].pc.Completed? || s.sessions[p].pc.Gone? ==> Terminal(s.sessions[p].state))
  }

  /** A session that has left can reach its terminal state on its own. */
  lemma FinishOff(s: State, p: nat) returns (es: seq<Event>, t: State)
    requires Settled(s, p) && !s.crashed
    ensures Leads(s, es, t) && !t.crashed && Clear !in es
    ensures p in t.sessions && Terminal(t.sessions[p].state) && t.sessions == s.sessions[p := t.sessions[p]] && t.history == s.history
  {
    match s.sessions[p].pc {
      case Returned => es, t := TwoSteps(s, ResetCas(p), Complete(p));
      case Reset => es, t := [Complete(p)], Next(s, Complete(p)); OneStep(s, Complete(p));
      case Caught => es, t := TwoSteps(s, HandlerCas(p), HandlerFail(p));
      case CaughtReset => es, t := [HandlerFail(p)], Next(s, HandlerFail(p)); OneStep(s, HandlerFail(p));
      case TimedOut => es, t := TwoSteps(s, TimeoutCas(p), TimeoutFail(p));
      case TimedOutReset => es, t := [TimeoutFail(p)], Next(s, TimeoutFail(p)); OneStep(s, TimeoutFail(p));
      case Completed => es, t := [], s;
      case Gone => es, t := [], s;
    }
    assert s.sessions[p := s.sessions[p]] == s.sessions;
  }

  /** Nobody keeps r from playing but a predecessor that has left. */
  predicate CanPlay(s: State, r: nat) {
    r in s.sessions &&
    var pc := s.sessions[r].pc;
    || Unblocked(s, r)
    || (Live(s, r) && (pc.Exchanged? || pc.Waiting?) && pc.prev != r && Settled(s, pc.prev))
  }

  /** The session that r waits for, if there is one. */
  function PrevOf(s: State, r: nat): nat
    requires r in s.sessions
  {
    var pc := s.sessions[r].pc;
    if pc.Exchanged? || pc.Waiting? then pc.prev else 0
  }

  /** Only r and the session it waits for have moved. */
  predicate OnlyMoved(s: State, t: State, r: nat)
    requires r in s.sessions
  {
    && t.history == s.history && !t.crashed && t.sessions.Keys == s.sessions.Keys
    && (forall x | x in s.sessions && x != r && x != PrevOf(s, r) :: t.sessions[x] == s.sessions[x])
  }

  lemma LetPlay(s: State, r: nat) returns (es: seq<Event>, t: State)
    requires CanPlay(s, r) && !s.crashed
    ensures Leads(s, es, t) && Plays(t, r) && OnlyMoved(s, t, r)
  {
    var pc := s.sessions[r].pc;
    es, t := [], s;
    if pc.Exchanged? {
      es, t := [Lookup(r)], Next(s, Lookup(r));
      OneStep(s, Lookup(r));
    }
    if t.sessions[r].pc.Waiting? {
      var more, u := LetWaiting(t, r);
      Chained(s, es, t, more, u);
      es, t := es + more, u;
    }
    if t.sessions[r].pc.Entering? {
      var u := Next(t, Enter(r));
      OneStep(t, Enter(r));
      Chained(s, es, t, [Enter(r)], u);
      es, t := es + [Enter(r)], u;
    }
  }

  lemma LetWaiting(s: State, r: nat) returns (es: seq<Event>, t: State)
    requires CanPlay(s, r) && s.sessions[r].pc.Waiting? && !s.crashed
    ensures Leads(s, es, t) && OnlyMoved(s, t, r) && t.sessions[r].pc.Entering?
  {
    var u;
    es, u := FinishOff(s, s.sessions[r].pc.prev);
    t := Next(u, WaitSatisfied(r));
    OneStep(u, WaitSatisfied(r));
    Chained(s, es, u, [WaitSatisfied(r)], t);
    es := es + [WaitSatisfied(r)];
  }

  /** A fresh session that finds no predecessor in the history plays at once. */
  lemma FreshPlays(s: State, x: nat) returns (es: seq<Event>, t: State)
    requires Fresh(s, x) && Live(s, x) && s.active != x && (s.active == 0 || s.active !in s.history) && !s.crashed
    ensures Leads(s, es, t) && Calm(es) && !t.crashed && Plays(t, x)
    ensures t.active == x && t.history == s.history + {x} && t.sessions == s.sessions[x := t.sessions[x]]
  {
    var u := s;
    es := [];
    if s.sessions[x].pc.NotCreated? {
      es, u := [Create(x)], Next(s, Create(x));
      OneStep(s, Create(x));
    }
    if u.sessions[x].pc.Created? {
      var v := Next(u, Start(x));
      OneStep(u, Start(x));
      Chained(s, es, u, [Start(x)], v);
      es, u := es + [Start(x)], v;
    }
    var more, v := ThreeSteps(u, Exchange(x), Lookup(x), Enter(x));
    Chained(s, es, u, more, v);
    es, t := es + more, v;
    assert t.sessions == s.sessions[x := t.sessions[x]];
  }

  /** The first session of the exchange order that is not out: everybody else waits behind it. */
  lemma FirstBehind(s: State, u: nat) returns (r: nat)
    requires Inv(s) && Live(s, u) && !Fresh(s, u)
    ensures CanPlay(s, r) && Live(s, r) && !Fresh(s, r)
    ensures exists i, k :: 0 <= i <= k < |s.order| && s.order[i] == r && s.order[k] == u
    ensures var q := PrevOf(s, r); q == 0 || Out(s, q)
  {
    assert SessionOk(s, u);
    var k :| 0 <= k < |s.order| && s.order[k] == u;
    var i := 0;
    while !Live(s, s.order[i])
      invariant 0 <= i <= k && EarlierOut(s, i)
      decreases k - i
    {
      assert PositionOk(s, i);
      i := i + 1;
    }
    r := s.order[i];
    assert PositionOk(s, i) && SessionOk(s, r);
    var q := PrevOf(s, r);
    if q != 0 {
      assert PositionOk(s, i - 1) && SessionOk(s, q);
    }
  }

  /** r, which could play in s, still can in t, where x plays; so both come to play. */
  lemma BothPlay(s: State, t: State, r: nat, x: nat) returns (es: seq<Event>)
    requires CanPlay(s, r) && r in t.sessions && t.sessions[r] == s.sessions[r] && !t.crashed
    requires s.history <= t.history <= s.history + {x}
    requires var q := PrevOf(s, r); q == 0 || (q != x && (Settled(s, q) ==> Settled(t, q)))
    requires x != r && Plays(t, x) && 0 !in s.sessions && 0 !in t.sessions
    ensures Legal(t, es) && !AtMostOnePlaying(After(t, es))
  {
    assert CanPlay(t, r);
    var u;
    es, u := LetPlay(t, r);
    assert Plays(u, x) && Plays(u, r);
  }

  /** Leaving a wait early lets the follower, or a fresh session, play beside a predecessor. */
  lemma TimeoutBreaks(s: State, id: nat) returns (es: seq<Event>)
    requires Inv(s) && Enabled(s, WaitTimesOut(id)) && Harmful(s, WaitTimesOut(id))
    ensures Breaks(s, WaitTimesOut(id), es)
  {
    var t := Next(s, WaitTimesOut(id));
    var k, r := AheadOf(s, id);
    var first, u, x;
    if Followed(s, id) {
      first, u, x := FollowerPlays(s, id, k);
    } else {
      ClaimIs(s, k);
      first, u, x := NewcomerPlays(s, id);
    }
    var q := PrevOf(s, r);
    assert q == 0 || (q != x && (Settled(s, q) ==> Settled(u, q)));
    hide Inv, Next, Legal, After, CanPlay, Live;
    var more := BothPlay(s, u, r, x);
    Chained(t, first, u, more, After(u, more));
    es := first + more;
  }

  /** The place of a waiter, and somebody before it who can come to play. */
  lemma AheadOf(s: State, id: nat) returns (k: nat, r: nat)
    requires Inv(s) && Enabled(s, WaitTimesOut(id)) && Harmful(s, WaitTimesOut(id))
    ensures k < |s.order| && s.order[k] == id
    ensures r != id && CanPlay(s, r) && Live(s, r) && !Fresh(s, r)
    ensures var q := PrevOf(s, r); q == 0 || (Out(s, q) && q in s.order)
    ensures PrevOf(s, r) != id
  {
    var p := s.sessions[id].pc.prev;
    assert SessionOk(s, id);
    k :| 0 <= k < |s.order| && s.order[k] == id;
    assert PositionOk(s, k) && PositionOk(s, k - 1) && SessionOk(s, p);
    r := FirstBehind(s, p);
    BehindIs(s, p, r, k);
  }

  /** x, who is not before id, plays after id has given up; nobody but the two has moved. */
  ghost predicate PlaysAfterTimeout(s: State, id: nat, es: seq<Event>, u: State, x: nat)
    requires Enabled(s, WaitTimesOut(id))
  {
    && Leads(Next(s, WaitTimesOut(id)), es, u) && !u.crashed
    && Plays(u, x) && u.sessions.Keys == s.sessions.Keys && s.history <= u.history <= s.history + {x}
    && (forall y | y in s.sessions && y != id && y != x :: u.sessions[y] == s.sessions[y])
    && Live(s, x) && (Fresh(s, x) || PrevOf(s, x) == id)
  }

  lemma FollowerPlays(s: State, id: nat, k: nat) returns (es: seq<Event>, u: State, x: nat)
    requires Inv(s) && Enabled(s, WaitTimesOut(id)) && Live(s, id) && Followed(s, id) && k < |s.order| && s.order[k] == id
    ensures PlaysAfterTimeout(s, id, es, u, x)
  {
    var t := Next(s, WaitTimesOut(id));
    x :| Follows(s, x, id);
    FollowerIs(s, x, k);
    es, u := LetPlay(t, x);
  }

  lemma NewcomerPlays(s: State, id: nat) returns (es: seq<Event>, u: State, x: nat)
    requires Inv(s) && Enabled(s, WaitTimesOut(id)) && Live(s, id) && Open(s) && s.active == id
    ensures PlaysAfterTimeout(s, id, es, u, x)
  {
    var t := Next(s, WaitTimesOut(id));
    assert SessionOk(s, id) && id != 0;
    x :| Fresh(s, x) && Live(s, x);
    hide Inv, SessionOk, Open, Leads, Next;
    var m := ClaimIsReset(s, id);
    es, u := FreshPlays(m, x);
    Chained(t, [TimeoutCas(id)], m, es, u);
    es := [TimeoutCas(id)] + es;
  }

  lemma ClaimIsReset(s: State, id: nat) returns (m: State)
    requires Enabled(s, WaitTimesOut(id)) && s.active == id && s.sessions[id].expected == id
    ensures Leads(Next(s, WaitTimesOut(id)), [TimeoutCas(id)], m)
    ensures m.active == 0 && m.history == s.history && !m.crashed && id in m.sessions
    ensures m.sessions == s.sessions[id := m.sessions[id]]
  {
    var t := Next(s, WaitTimesOut(id));
    m := Next(t, TimeoutCas(id));
    OneStep(t, TimeoutCas(id));
  }

  lemma BehindIs(s: State, p: nat, r: nat, k: nat)
    requires Inv(s) && 0 < k < |s.order| && s.order[k - 1] == p
    requires exists i, j :: 0 <= i <= j < |s.order| && s.order[i] == r && s.order[j] == p
    requires r in s.sessions && CanPlay(s, r) && Live(s, r)
    ensures r != s.order[k] && PrevOf(s, r) != s.order[k]
    ensures PrevOf(s, r) == 0 || PrevOf(s, r) in s.order
  {
    var i, j :| 0 <= i <= j < |s.order| && s.order[i] == r && s.order[j] == p;
    assert PositionOk(s, i) && PositionOk(s, k);
  }

  lemma FollowerIs(s: State, x: nat, k: nat)
    requires Inv(s) && k < |s.order| && Follows(s, x, s.order[k])
    ensures k + 1 < |s.order| && x == s.order[k + 1]
  {
    assert SessionOk(s, x) && PositionOk(s, k);
    var j :| 0 <= j < |s.order| && s.order[j] == x;
    assert PositionOk(s, j);
  }

  /** Without a follower, and with somebody to come, a waiter still holds the claim. */
  lemma ClaimIs(s: State, k: nat)
    requires Inv(s) && k < |s.order| && Live(s, s.order[k]) && !Plays(s, s.order[k]) && Open(s) && !Followed(s, s.order[k])
    ensures s.active == s.order[k]
  {
    if k + 1 < |s.order| {
      NextFollows(s, k);
    }
  }

  lemma NextFollows(s: State, k: nat)
    requires Inv(s) && k + 1 < |s.order| && Live(s, s.order[k]) && Open(s)
    ensures Followed(s, s.order[k])
  {
    assert PositionOk(s, k + 1);
    assert !EarlierOut(s, k + 1);
    assert Follows(s, s.order[k + 1], s.order[k]);
  }

  /** A reset of somebody else's claim lets a fresh session play beside its owner. */
  lemma HandlerBreaks(s: State, id: nat) returns (es: seq<Event>)
    requires Inv(s) && Enabled(s, HandlerCas(id)) && Harmful(s, HandlerCas(id))
    ensures Breaks(s, HandlerCas(id), es)
  {
    var t := Next(s, HandlerCas(id));
    assert PositionOk(s, |s.order| - 1) && SessionOk(s, id);
    var r := FirstBehind(s, s.active);
    var x :| Fresh(s, x) && Live(s, x);
    var q := PrevOf(s, r);
    assert 0 !in s.sessions && 0 !in t.sessions && x != r && x != s.active && (q == 0 || q != x);
    assert Settled(s, q) ==> Settled(t, q);
    assert t.active == 0 && Live(t, x) && Fresh(t, x);
    hide Inv, SessionOk, Open, PositionOk, Leads, CanPlay, Left, Terminal, Live, Fresh, Settled;
    var first, u := FreshPlays(t, x);
    var more := BothPlay(s, u, r, x);
    Chained(t, first, u, more, After(u, more));
    es := first + more;
  }

  /** A clear that hides a session breaks the rule, with no other step that could do harm. */
  lemma ClearBreaks(s: State) returns (es: seq<Event>)
    requires Inv(s) && Enabled(s, Clear) && Harmful(s, Clear)
    ensures Breaks(s, Clear, es) && Calm(es)
  {
    if x, v :| Plays(s, x) && ToBeCreated(s, v) {
      var u;
      es, u := NewcomerAfterClear(s, v);
      assert Plays(u, x) && Plays(u, v);
    } else {
      var w, u, v :| Fresh(s, w) && !ToBeCreated(s, w) && ToBeCreated(s, u) && ToBeCreated(s, v) && u != v;
      es := LostBreaks(s, w, u, v);
    }
  }

  lemma NewcomerAfterClear(s: State, v: nat) returns (es: seq<Event>, t: State)
    requires Inv(s) && Enabled(s, Clear) && ToBeCreated(s, v)
    ensures Leads(Next(s, Clear), es, t) && Calm(es) && !t.crashed && Plays(t, v)
    ensures t.active == v && t.history == {v} && t.sessions == s.sessions[v := t.sessions[v]]
  {
    if s.active != 0 {
      assert PositionOk(s, |s.order| - 1);
    }
    es, t := FreshPlays(Next(s, Clear), v);
  }

  /** u plays, the lost session w displaces it, and v displaces w, whom it does not find. */
  lemma LostBreaks(s: State, w: nat, u: nat, v: nat) returns (es: seq<Event>)
    requires Inv(s) && Enabled(s, Clear)
    requires Fresh(s, w) && !ToBeCreated(s, w) && ToBeCreated(s, u) && ToBeCreated(s, v) && u != v
    ensures Breaks(s, Clear, es) && Calm(es)
  {
    var m;
    es, m := NewcomerAfterClear(s, u);
    assert 0 !in s.sessions;
    hide Inv;
    var more, t := PlaysBehindLost(m, w, v);
    Chained(Next(s, Clear), es, m, more, t);
    es := es + more;
    assert Plays(t, u) && Plays(t, v);
  }

  lemma PlaysBehindLost(s: State, w: nat, v: nat) returns (es: seq<Event>, t: State)
    requires Lost(s, w) && ToBeCreated(s, v) && !s.crashed
    ensures Leads(s, es, t) && Calm(es) && Plays(t, v)
    ensures forall x | x in s.sessions && x != w && x != v :: x in t.sessions && t.sessions[x] == s.sessions[x]
  {
    var m := s;
    es := [];
    if s.sessions[w].pc.Created? {
      es, m := [Start(w)], Next(s, Start(w));
      OneStep(s, Start(w));
    }
    var n := Next(m, Exchange(w));
    OneStep(m, Exchange(w));
    Chained(s, es, m, [Exchange(w)], n);
    var more;
    more, t := FreshPlays(n, v);
    Chained(s, es + [Exchange(w)], n, more, t);
    es := es + [Exchange(w)] + more;
  }

  lemma {:induction false} CalmIsHarmless(s: State, es: seq<Event>)
    requires Legal(s, es) && Calm(es)
    ensures Harmless(s, es)
    decreases |es|
  {
    if es != [] {
      assert es[0] in es;
      assert forall e | e in es[1..] :: e in es;
      CalmIsHarmless(Next(s, es[0]), es[1..]);
    }
  }

  // ---- Runs that break the rule -------------------------------------------------------------------

  function Begin(id: nat): seq<Event> {
    [Create(id), Start(id), Exchange(id), Lookup(id)]
  }

  /** A new session waits for the active one, or finds none and is about to enter. */
  lemma BeginRuns(s: State, id: nat) returns (t: State)
    requires ToBeCreated(s, id) && !s.crashed && s.active != id
    ensures Leads(s, Begin(id), t)
    ensures t.active == id && t.history == s.history + {id} && !t.crashed
    ensures t.sessions == s.sessions[id := Session(
      if s.active != 0 && s.active in s.history then Waiting(s.active) else Entering, SessionRunning, s.sessions[id].expected)]
  {
    var s1 := Next(s, Create(id));
    var more;
    more, t := ThreeSteps(s1, Start(id), Exchange(id), Lookup(id));
    LegalStep(s, Create(id), more);
    assert [Create(id)] + more == Begin(id);
    assert t.sessions == s.sessions[id := t.sessions[id]];
  }

  function Play(id: nat): seq<Event> {
    Begin(id) + [Enter(id)]
  }

  /** With no predecessor to be found, it plays. */
  lemma PlayRuns(s: State, id: nat) returns (t: State)
    requires ToBeCreated(s, id) && !s.crashed && s.active != id && (s.active == 0 || s.active !in s.history)
    ensures Leads(s, Play(id), t)
    ensures t.active == id && t.history == s.history + {id} && !t.crashed
    ensures t.sessions == s.sessions[id := Session(Playing, SessionRunning, s.sessions[id].expected)]
  {
    var m := BeginRuns(s, id);
    t := Next(m, Enter(id));
    OneStep(m, Enter(id));
    Chained(s, Begin(id), m, [Enter(id)], t);
  }

  /** Session 2 waits for session 1, which plays. */
  predicate SecondWaits(s: State) {
    && 1 in s.sessions && 2 in s.sessions && 3 in s.sessions && !s.crashed
    && s.active == 2 && s.history == {1, 2}
    && s.sessions[1] == Session(Playing, SessionRunning, 1)
    && s.sessions[2] == Session(Waiting(1), SessionRunning, 2)
    && s.sessions[3].pc.NotCreated?
  }

  lemma SecondBegins(s: State) returns (t: State)
    requires 1 in s.sessions && s.sessions[1] == Session(Playing, SessionRunning, 1) && s.active == 1 && s.history == {1}
    requires ToBeCreated(s, 2) && s.sessions[2].expected == 2 && ToBeCreated(s, 3) && !s.crashed
    ensures Leads(s, Begin(2), t) && SecondWaits(t)
  {
    hide Begin, Leads;
    t := BeginRuns(s, 2);
    assert t.history == {1, 2};
  }

  lemma TwoBegin() returns (t: State)
    ensures Leads(Init({1, 2, 3}), Play(1) + Begin(2), t) && SecondWaits(t)
  {
    var s := Init({1, 2, 3});
    hide Play, Begin, Leads;
    var m := PlayRuns(s, 1);
    assert m.history == {1};
    hide Init;
    t := SecondBegins(m);
    Chained(s, Play(1), m, Begin(2), t);
  }

  const GIVE_UP := [WaitTimesOut(2), TimeoutCas(2), TimeoutFail(2)]

  lemma GiveUpRuns(s: State) returns (t: State)
    requires SecondWaits(s)
    ensures Leads(s, GIVE_UP, t)
    ensures t.active == 0 && Plays(t, 1) && ToBeCreated(t, 3) && !t.crashed
  {
    var es;
    es, t := ThreeSteps(s, WaitTimesOut(2), TimeoutCas(2), TimeoutFail(2));
  }

  /** Session 2 gives up waiting for session 1 and resets the active ID; session 3 then plays beside 1. */
  lemma TimeoutBreaksExclusion()
    ensures var es := Play(1) + Begin(2) + GIVE_UP + Play(3);
            Legal(Init({1, 2, 3}), es) && !AtMostOnePlaying(After(Init({1, 2, 3}), es))
  {
    var s := Init({1, 2, 3});
    var t := TwoBegin();
    var u := GiveUpRuns(t);
    var v := PlayRuns(u, 3);
    assert Plays(v, 1) && Plays(v, 3);
    hide Init, Play, Begin, GIVE_UP;
    Chained(s, Play(1) + Begin(2), t, GIVE_UP, u);
    Chained(s, Play(1) + Begin(2) + GIVE_UP, u, Play(3), v);
  }

  /** A cleared history hides the session that plays: one that is created afterwards does not wait. */
  lemma ClearBreaksExclusion()
    ensures var es := Play(1) + [Clear] + Play(2);
            Legal(Init({1, 2}), es) && !AtMostOnePlaying(After(Init({1, 2}), es))
  {
    var s := Init({1, 2});
    var m := PlayRuns(s, 1);
    var n := Next(m, Clear);
    OneStep(m, Clear);
    var t := PlayRuns(n, 2);
    assert Plays(t, 1) && Plays(t, 2);
    Chained(s, Play(1), m, [Clear], n);
    Chained(s, Play(1) + [Clear], n, Play(2), t);
  }

  /** The only session is created before the clear and looks itself up after it. */
  lemma ClearCrashesLaterEntry()
    ensures var es := [Create(1), Clear] + [Start(1), Exchange(1), Lookup(1)] + [Enter(1)];
            Legal(Init({1}), es) && After(Init({1}), es).crashed
  {
    var s := Init({1});
    var a, m := TwoSteps(s, Create(1), Clear);
    var b, n := ThreeSteps(m, Start(1), Exchange(1), Lookup(1));
    OneStep(n, Enter(1));
    Chained(s, a, m, b, n);
    Chained(s, a + b, n, [Enter(1)], Next(n, Enter(1)));
  }

  const FINISH := [PlayReturns(1), ResetCas(1), Complete(1)]
  const STEAL := [WaitSatisfied(2), Enter(2)] + [LateThrow(1), HandlerCas(1)]

  lemma FinishRuns(s: State) returns (t: State)
    requires SecondWaits(s)
    ensures Leads(s, FINISH, t)
    ensures t.active == 2 && t.history == {1, 2} && !t.crashed
    ensures t.sessions == s.sessions[1 := Session(Completed, SessionCompleted, 2)]
  {
    var es;
    es, t := ThreeSteps(s, PlayReturns(1), ResetCas(1), Complete(1));
  }

  lemma StealRuns(s: State) returns (t: State)
    requires 1 in s.sessions && 2 in s.sessions && s.active == 2 && 2 in s.history && !s.crashed
    requires s.sessions[1] == Session(Completed, SessionCompleted, 2)
    requires s.sessions[2].pc == Waiting(1) && ToBeCreated(s, 3)
    ensures Leads(s, STEAL, t)
    ensures t.active == 0 && Plays(t, 2) && ToBeCreated(t, 3) && !t.crashed
  {
    var a, m := TwoSteps(s, WaitSatisfied(2), Enter(2));
    var b;
    b, t := TwoSteps(m, LateThrow(1), HandlerCas(1));
    Chained(s, a, m, b, t);
  }

  /**
   Session 2 exchanges while 1 plays, so the compare-and-swap of 1 fails and leaves 2 in its
   sessionId; 1 then throws after complete(), and its handler resets the claim of 2, which plays.
   */
  lemma LateThrowBreaksExclusion()
    ensures var es := Play(1) + Begin(2) + FINISH + STEAL + Play(3);
            Legal(Init({1, 2, 3}), es) && !AtMostOnePlaying(After(Init({1, 2, 3}), es))
  {
    var s := Init({1, 2, 3});
    var t := TwoBegin();
    var u := FinishRuns(t);
    var v := StealRuns(u);
    var w := PlayRuns(v, 3);
    assert Plays(w, 2) && Plays(w, 3);
    hide Init, Play, Begin, FINISH, STEAL;
    Chained(s, Play(1) + Begin(2), t, FINISH, u);
    Chained(s, Play(1) + Begin(2) + FINISH, u, STEAL, v);
    Chained(s, Play(1) + Begin(2) + FINISH + STEAL, v, Play(3), w);
  }
}
