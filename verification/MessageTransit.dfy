/**
 The asynchronous callback queue of FFmpegKitConfig.cpp and its counters of messages in
 transit: one counter per residue of the session ID modulo SESSION_MAP_SIZE, and one for
 messages that belong to no session.
 */
module MessageTransit {
  import opened Common

  datatype Message = Message(sessionId: nat, payload: int)

  /** The index of the counter of a session; the last one counts unattributed messages. */
  function Slot(sessionId: nat): (r: nat)
    ensures r <= SESSION_MAP_SIZE
  {
    if sessionId == 0 then SESSION_MAP_SIZE else sessionId % SESSION_MAP_SIZE
  }

  /** The counters are std::atomic<int>: 32 bits, two's complement. */
  function Bump(counts: seq<int>, slot: nat, d: int): (r: seq<int>)
    requires slot < |counts|
  {
    counts[slot := ToInt32(counts[slot] + d)]
  }

  /** The shared data of the queue; every method is one atomic step of a thread. */
  class CallbackQueue {
    var list: seq<Message>
    const counters: array<int>
    var unattributed: int

    ghost predicate Valid()
      reads this
    {
      counters.Length == SESSION_MAP_SIZE
    }

    ghost function Counts(): seq<int>
      reads this, counters
      requires Valid()
    {
      counters[..] + [unattributed]
    }

    constructor ()
      ensures Valid() && fresh(counters) && list == []
      ensures Counts() == seq(SESSION_MAP_SIZE + 1, i => 0)
    {
      list, unattributed := [], 0;
      counters := new int[SESSION_MAP_SIZE](i => 0);
    }

    /** fetch_add of logCallbackDataAdd and statisticsCallbackDataAdd. */
    method CountMessage(sessionId: nat)
      requires Valid()
      modifies this`unattributed, counters
      ensures Counts() == Bump(old(Counts()), Slot(sessionId), 1)
    {
      if sessionId == 0 {
        unattributed := ToInt32(unattributed + 1);
      } else {
        counters[sessionId % SESSION_MAP_SIZE] := ToInt32(counters[sessionId % SESSION_MAP_SIZE] + 1);
      }
    }

    method PushMessage(m: Message)
      requires Valid()
      modifies this`list
      ensures list == old(list) + [m] && Counts() == old(Counts())
    {
      list := list + [m];
    }

    /** callbackDataRemove() */
    method RemoveMessage() returns (m: Option<Message>)
      requires Valid()
      modifies this`list
      ensures Counts() == old(Counts())
      ensures old(list) == [] ==> m.None? && list == []
      ensures old(list) != [] ==> m == Some(old(list)[0]) && list == old(list)[1..]
    {
      m := None;
      if |list| > 0 {
        m := Some(list[0]);
        list := list[1..];
      }
    }

    /** The destructor of CallbackDrainGuard: it also runs when processing threw. */
    method Drain(sessionId: nat)
      requires Valid()
      modifies this`unattributed, counters
      ensures Counts() == Bump(old(Counts()), Slot(sessionId), -1)
    {
      if sessionId == 0 {
        unattributed := ToInt32(unattributed - 1);
      } else {
        counters[sessionId % SESSION_MAP_SIZE] := ToInt32(counters[sessionId % SESSION_MAP_SIZE] - 1);
      }
    }

    /** resetMessagesInTransmit(), native builds only. */
    method ResetMessagesInTransmit(sessionId: nat)
      requires Valid()
      modifies this`unattributed, counters
      ensures Counts() == old(Counts())[Slot(sessionId) := 0]
    {
      if sessionId == 0 {
        unattributed := 0;
        return;
      }
      counters[sessionId % SESSION_MAP_SIZE] := 0;
    }

    /**
     One turn of the drain loop, with what processing makes of the message; an exception leaves
     the block like a return does, past the guard, and is caught.
     */
    method DrainNext(throws: Message -> bool) returns (m: Option<Message>, caught: bool)
      requires Valid()
      modifies this, counters
      ensures old(list) == [] ==> m.None? && !caught && list == [] && Counts() == old(Counts())
      ensures old(list) != [] ==>
        && m == Some(old(list)[0]) && caught == throws(old(list)[0]) && list == old(list)[1..]
        && Counts() == Bump(old(Counts()), Slot(old(list)[0].sessionId), -1)
    {
      caught := false;
      m := RemoveMessage();
      if m.Some? {
        caught := throws(m.value);
        Drain(m.value.sessionId); // the guard's destructor, on either way out
      }
    }

    /** messagesInTransmit(): unattributed messages are never reported. */
    method MessagesInTransmit(sessionId: nat) returns (n: int)
      requires Valid()
      ensures n == if sessionId == 0 then 0 else Counts()[Slot(sessionId)]
    {
      if sessionId == 0 {
        return 0;
      }
      n := counters[sessionId % SESSION_MAP_SIZE];
    }
  }

  // ---- Any number of producers and consumers --------------------------------------------------

  /**
   producers[p] is a message thread p has counted but not yet pushed, consumers[c] one that
   thread c has taken but not yet drained. `wiped` adds up the values resets have overwritten.
   */
  datatype State = State(
    counts: seq<int>, list: seq<Message>, producers: seq<Option<Message>>, consumers: seq<Option<Message>>, wiped: seq<int>)

  datatype Event =
    | Count(p: nat, m: Message)
    | Push(p: nat)
    | Take(c: nat)
    | Drained(c: nat)
    | ResetCounter(sessionId: nat)

  predicate WellFormed(s: State) {
    |s.counts| == SESSION_MAP_SIZE + 1 == |s.wiped|
  }

  function Init(producers: nat, consumers: nat): (s: State) {
    State(seq(SESSION_MAP_SIZE + 1, i => 0), [], seq(producers, i => None), seq(consumers, i => None), seq(SESSION_MAP_SIZE + 1, i => 0))
  }

  predicate Enabled(s: State, e: Event) {
    match e
    case Count(p, _) => p < |s.producers| && s.producers[p].None?
    case Push(p) => p < |s.producers| && s.producers[p].Some?
    case Take(c) => c < |s.consumers| && s.consumers[c].None? && s.list != []
    case Drained(c) => c < |s.consumers| && s.consumers[c].Some?
    case ResetCounter(_) => true
  }

  function Next(s: State, e: Event): State
    requires WellFormed(s) && Enabled(s, e)
  {
    match e
    case Count(p, m) => s.(counts := Bump(s.counts, Slot(m.sessionId), 1), producers := s.producers[p := Some(m)])
    case Push(p) => s.(list := s.list + [s.producers[p].value], producers := s.producers[p := None])
    case Take(c) => s.(list := s.list[1..], consumers := s.consumers[c := Some(s.list[0])])
    case Drained(c) =>
      s.(counts := Bump(s.counts, Slot(s.consumers[c].value.sessionId), -1), consumers := s.consumers[c := None])
    case ResetCounter(id) =>
      s.(counts := s.counts[Slot(id) := 0], wiped := s.wiped[Slot(id) := s.wiped[Slot(id)] + s.counts[Slot(id)]])
  }

  /** The queue object holds the shared part of a state. */
  ghost predicate Represents(q: CallbackQueue, s: State)
    reads q, q.counters
  {
    q.Valid() && WellFormed(s) && q.Counts() == s.counts && q.list == s.list
  }

  /** Every event is one call on the queue: the methods do to the object what the events do to the state. */
  method Perform(q: CallbackQueue, s: State, e: Event) returns (taken: Option<Message>)
    requires Represents(q, s) && Enabled(s, e)
    modifies q, q.counters
    ensures Represents(q, Next(s, e))
    ensures e.Take? ==> taken == Next(s, e).consumers[e.c]
  {
    taken := None;
    match e {
      case Count(_, m) => q.CountMessage(m.sessionId);
      case Push(p) => q.PushMessage(s.producers[p].value);
      case Take(_) => taken := q.RemoveMessage();
      case Drained(c) => q.Drain(s.consumers[c].value.sessionId);
      case ResetCounter(id) => q.ResetMessagesInTransmit(id);
    }
  }

  predicate Legal(s: State, es: seq<Event>)
    requires WellFormed(s)
    decreases |es|
  {
    es == [] || (Enabled(s, es[0]) && Legal(Next(s, es[0]), es[1..]))
  }

  function After(s: State, es: seq<Event>): (t: State)
    requires WellFormed(s) && Legal(s, es)
    ensures WellFormed(t)
    decreases |es|
  {
    if es == [] then s else After(Next(s, es[0]), es[1..])
  }

  // ---- Counting messages --------------------------------------------------------------------------

  function InList(list: seq<Message>, slot: nat): nat {
    if list == [] then 0 else (if Slot(list[0].sessionId) == slot then 1 else 0) + InList(list[1..], slot)
  }

  function Held(x: Option<Message>, slot: nat): nat {
    if x.Some? && Slot(x.value.sessionId) == slot then 1 else 0
  }

  function InHands(threads: seq<Option<Message>>, slot: nat): nat {
    if threads == [] then 0 else Held(threads[0], slot) + InHands(threads[1..], slot)
  }

  /** Counted but not drained: about to be pushed, queued, or being processed. */
  function Pending(s: State, slot: nat): nat {
    InHands(s.producers, slot) + InList(s.list, slot) + InHands(s.consumers, slot)
  }

  lemma {:induction false} InHandsUpdate(threads: seq<Option<Message>>, i: nat, x: Option<Message>, slot: nat)
    requires i < |threads|
    ensures InHands(threads[i := x], slot) == InHands(threads, slot) - Held(threads[i], slot) + Held(x, slot)
  {
    if i == 0 {
      assert threads[i := x][1..] == threads[1..];
    } else {
      assert threads[i := x][1..] == threads[1..][i - 1 := x];
      InHandsUpdate(threads[1..], i - 1, x, slot);
    }
  }

  lemma {:induction false} InListAppend(list: seq<Message>, m: Message, slot: nat)
    ensures InList(list + [m], slot) == InList(list, slot) + Held(Some(m), slot)
  {
    if list == [] {
      assert list + [m] == [m];
    } else {
      assert (list + [m])[1..] == list[1..] + [m];
      InListAppend(list[1..], m, slot);
    }
  }

  lemma {:induction false} NoneHeld(n: nat, slot: nat)
    ensures InHands(seq(n, i => None), slot) == 0
  {
    if n > 0 {
      var all: seq<Option<Message>> := seq(n, i => None);
      var fewer: seq<Option<Message>> := seq(n - 1, i => None);
      assert all[1..] == fewer;
      NoneHeld(n - 1, slot);
    }
  }

  // ---- Conservation -------------------------------------------------------------------------------

  ghost predicate Balanced(s: State) {
    && WellFormed(s)
    && forall slot: nat | slot <= SESSION_MAP_SIZE :: s.counts[slot] == ToInt32(Pending(s, slot) - s.wiped[slot])
  }

  lemma WrapAdd(x: int, d: int)
    ensures ToInt32(ToInt32(x) + d) == ToInt32(x + d)
  {
    var q := (x + 0x8000_0000) / 0x1_0000_0000;
    assert ToInt32(x) == x - q * 0x1_0000_0000;
  }

  lemma BumpBalance(counts: seq<int>, slot: nat, k: nat, x: int, d: int)
    requires slot < |counts| && k < |counts| && counts[k] == ToInt32(x)
    ensures Bump(counts, slot, d)[k] == ToInt32(if k == slot then x + d else x)
  {
    WrapAdd(x, d);
  }

  /** How an event changes the number of pending messages of a slot. */
  function Change(s: State, e: Event, slot: nat): int
    requires Enabled(s, e)
  {
    match e
    case Count(_, m) => Held(Some(m), slot)
    case Drained(c) => 0 - Held(s.consumers[c], slot)
    case _ => 0
  }

  lemma PendingStep(s: State, e: Event, slot: nat)
    requires WellFormed(s) && Enabled(s, e)
    ensures Pending(Next(s, e), slot) == Pending(s, slot) + Change(s, e, slot)
  {
    match e
    case Count(p, m) =>
      InHandsUpdate(s.producers, p, Some(m), slot);
    case Push(p) =>
      InHandsUpdate(s.producers, p, None, slot);
      InListAppend(s.list, s.producers[p].value, slot);
    case Take(c) =>
      InHandsUpdate(s.consumers, c, Some(s.list[0]), slot);
    case Drained(c) =>
      InHandsUpdate(s.consumers, c, None, slot);
    case ResetCounter(_) =>
  }

  lemma StepKeepsBalance(s: State, e: Event)
    requires Balanced(s) && Enabled(s, e)
    ensures Balanced(Next(s, e))
  {
    var t := Next(s, e);
    forall slot: nat | slot <= SESSION_MAP_SIZE
      ensures t.counts[slot] == ToInt32(Pending(t, slot) - t.wiped[slot])
    {
      PendingStep(s, e, slot);
      var x := Pending(s, slot) - s.wiped[slot];
      match e
      case Count(_, m) => BumpBalance(s.counts, Slot(m.sessionId), slot, x, 1);
      case Drained(c) => BumpBalance(s.counts, Slot(s.consumers[c].value.sessionId), slot, x, -1);
      case ResetCounter(_) => ResetBalance(x);
      case _ =>
    }
  }

  lemma ResetBalance(x: int)
    ensures ToInt32(x - ToInt32(x)) == 0
  {
    var q := (x + 0x8000_0000) / 0x1_0000_0000;
    assert ToInt32(x) == x - q * 0x1_0000_0000;
  }

  lemma {:induction false} RunKeepsBalance(s: State, es: seq<Event>)
    requires Balanced(s) && Legal(s, es)
    ensures Balanced(After(s, es))
    decreases |es|
  {
    if es != [] {
      StepKeepsBalance(s, es[0]);
      RunKeepsBalance(Next(s, es[0]), es[1..]);
    }
  }

  /** In every reachable state a counter is its pending messages minus all that resets wiped. */
  lemma Conservation(producers: nat, consumers: nat, es: seq<Event>)
    requires Legal(Init(producers, consumers), es)
    ensures Balanced(After(Init(producers, consumers), es))
  {
    var s := Init(producers, consumers);
    forall slot: nat | slot <= SESSION_MAP_SIZE ensures s.counts[slot] == ToInt32(Pending(s, slot) - s.wiped[slot]) {
      NoneHeld(producers, slot);
      NoneHeld(consumers, slot);
    }
    RunKeepsBalance(s, es);
  }

  /** Every reset of the slot meets a counter that reads zero. */
  predicate ResetsMeetZero(s: State, es: seq<Event>, slot: nat)
    requires WellFormed(s) && Legal(s, es) && slot <= SESSION_MAP_SIZE
    decreases |es|
  {
    es == [] ||
    ((es[0].ResetCounter? && Slot(es[0].sessionId) == slot ==> s.counts[slot] == 0) && ResetsMeetZero(Next(s, es[0]), es[1..], slot))
  }

  lemma {:induction false} NothingWiped(s: State, es: seq<Event>, slot: nat)
    requires WellFormed(s) && Legal(s, es) && slot <= SESSION_MAP_SIZE && ResetsMeetZero(s, es, slot)
    ensures After(s, es).wiped[slot] == s.wiped[slot]
    decreases |es|
  {
    if es != [] {
      NothingWiped(Next(s, es[0]), es[1..], slot);
    }
  }

  /** A counter reads zero exactly when nothing of its residue is pending. */
  predicate ZeroIffDrained(s: State, slot: nat)
    requires WellFormed(s) && slot <= SESSION_MAP_SIZE
  {
    s.counts[slot] == 0 <==> Pending(s, slot) == 0
  }

  /** So it is over every run, native ones included, whose resets of the slot all meet a zero counter. */
  lemma ZeroMeansDrained(producers: nat, consumers: nat, es: seq<Event>, sessionId: nat)
    requires Legal(Init(producers, consumers), es) && ResetsMeetZero(Init(producers, consumers), es, Slot(sessionId))
    requires Pending(After(Init(producers, consumers), es), Slot(sessionId)) < 0x1_0000_0000
    ensures ZeroIffDrained(After(Init(producers, consumers), es), Slot(sessionId))
  {
    Conservation(producers, consumers, es);
    NothingWiped(Init(producers, consumers), es, Slot(sessionId));
    var s := After(Init(producers, consumers), es);
    var slot := Slot(sessionId);
    assert s.counts[slot] == ToInt32(Pending(s, slot) - s.wiped[slot]);
  }

  /** Runs without resets, those of WebAssembly builds, are such runs. */
  lemma {:induction false} NoResetsMeetZero(s: State, es: seq<Event>, slot: nat)
    requires WellFormed(s) && Legal(s, es) && slot <= SESSION_MAP_SIZE && forall e | e in es :: !e.ResetCounter?
    ensures ResetsMeetZero(s, es, slot)
    decreases |es|
  {
    if es != [] {
      NoResetsMeetZero(Next(s, es[0]), es[1..], slot);
    }
  }

  /** The guard of the native reset: it keeps the counter meaningful exactly if the counter reads zero. */
  lemma ResetKeepsMeaningIff(s: State, sessionId: nat)
    requires Balanced(s) && s.wiped[Slot(sessionId)] == 0 && Pending(s, Slot(sessionId)) < 0x1_0000_0000
    ensures ZeroIffDrained(Next(s, ResetCounter(sessionId)), Slot(sessionId)) <==> s.counts[Slot(sessionId)] == 0
  {
    var slot := Slot(sessionId);
    PendingStep(s, ResetCounter(sessionId), slot);
    assert s.counts[slot] == ToInt32(Pending(s, slot) - s.wiped[slot]);
  }

  /** With the native reset a counter may read zero while a message of the session is still queued. */
  lemma ResetHidesQueuedMessage()
    ensures var es := [Count(0, Message(1, 0)), Push(0), ResetCounter(1)];
            Legal(Init(1, 1), es) && After(Init(1, 1), es).counts[Slot(1)] == 0 && Pending(After(Init(1, 1), es), Slot(1)) == 1
  {
    var m := Message(1, 0);
    var s := Init(1, 1);
    var s1 := Next(s, Count(0, m));
    var s2 := Next(s1, Push(0));
    var s3 := Next(s2, ResetCounter(1));
    PendingStep(s, Count(0, m), 1);
    PendingStep(s1, Push(0), 1);
    PendingStep(s2, ResetCounter(1), 1);
    NoneHeld(1, 1);
    assert Pending(s3, 1) == 1;
    var es := [Count(0, m), Push(0), ResetCounter(1)];
    assert es[1..] == [Push(0), ResetCounter(1)] && es[1..][1..] == [ResetCounter(1)] && es[1..][1..][1..] == [];
    assert Legal(s3, []) && Legal(s2, [ResetCounter(1)]) && Legal(s1, [Push(0), ResetCounter(1)]);
  }
}
