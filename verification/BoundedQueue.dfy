/** The bounded queue as a monitor: one mutex and two condition variables, for any number of threads
    (include/BoundedThreadSafeQueue.h; condition variables as in section 33.5 of ISO/IEC 14882:2017).
    Locking, evaluating a wait predicate, changing the queue, notifying and unlocking are separate steps;
    waking up without a notification is possible at any time. */
module BoundedQueue {
  import opened Bytes
  import Threads

  type Tid = nat

  /** What the operations that only look at the queue ask, and what they answer. */
  datatype Query = IsEmpty | IsFull | SizeOf
  datatype Answer = Yes | No | Number(n: nat)

  function Truth(b: bool): Answer { if b then Yes else No }

  /** What an operation did to the queue, and what it returns. */
  datatype Done<T> = DidPush(x: T) | DidPop(x: T) | DidTryPop(answer: Option<T>) | DidLook(q: Query, seen: Answer)

  /** Where a thread is in one of the queue's operations. `woken` tells whether the thread comes from
      the wait set by a notification, so that its check of the predicate answers it. `did` is what the operation
      has done and is about to return. */
  datatype Pc<T> =
    | Outside
    | WantPush(x: T) | InPush(x: T, woken: bool) | WaitNotFull(x: T) | WokenPush(x: T) | NotifyNotEmpty(did: Done<T>)
    | WantPop | InPop(woken: bool) | WaitNotEmpty | WokenPop
    | WantTryPop | InTryPop
    | NotifyNotFull(did: Done<T>)
    | WantLook(q: Query) | InLook(q: Query)
    | Leaving(did: Done<T>) // about to unlock and return
  {
    /** The thread owns the mutex. */
    predicate Holds() {
      InPush? || InPop? || InTryPop? || InLook? || NotifyNotEmpty? || NotifyNotFull? || Leaving?
    }

    /** The thread needs the mutex and nothing else. */
    predicate Wants() { WantPush? || WantPop? || WantTryPop? || WantLook? || WokenPush? || WokenPop? }

    /** A consumer that was notified and has not yet looked at the queue. */
    predicate OwesPop() { WokenPop? || (InPop? && woken) }

    /** A producer that was notified and has not yet looked at the queue. */
    predicate OwesPush() { WokenPush? || (InPush? && woken) }
  }

  /** `calls` records every operation that was called, and `history` every operation at the moment it changed or
      read the queue, each with its thread. */
  datatype Monitor<T> = Monitor(
    capacity: nat, buffer: seq<T>, mutex: Option<Tid>, threads: map<Tid, Pc<T>>,
    calls: seq<(Tid, Pc<T>)>, history: seq<(Tid, Done<T>)>)

  /** A thread calls an operation, takes its next step (choosing which waiter to notify), or wakes up by itself. */
  datatype Event<T> = Call(t: Tid, want: Pc<T>) | Go(t: Tid, choice: Tid) | WakeUp(t: Tid)

  function Set<T>(m: Monitor<T>, t: Tid, pc: Pc<T>): Monitor<T> { m.(threads := m.threads[t := pc]) }

  function Start<T>(capacity: nat, tids: set<Tid>): Monitor<T> {
    Monitor(capacity, [], None, map t | t in tids :: Outside, [], [])
  }

  /** The constructor: refuses a capacity of 0. */
  function Create<T>(capacity: nat, tids: set<Tid>): Option<Monitor<T>> {
    if capacity == 0 then None else Some(Start(capacity, tids))
  }

  /** Locking: the thread that was waiting checks its predicate again. */
  function Locked<T>(pc: Pc<T>): Pc<T>
    requires pc.Wants()
  {
    match pc
    case WantPush(x) => InPush(x, false)
    case WokenPush(x) => InPush(x, true)
    case WantPop => InPop(false)
    case WokenPop => InPop(true)
    case WantTryPop => InTryPop
    case WantLook(q) => InLook(q)
  }

  function Step<T>(m: Monitor<T>, e: Event<T>): Option<Monitor<T>> {
    if e.t !in m.threads then None else
      match e
      case Call(t, want) =>
        if m.threads[t].Outside? && (want.WantPush? || want.WantPop? || want.WantTryPop? || want.WantLook?)
        then Some(Set(m, t, want).(calls := m.calls + [(t, want)])) else None
      case WakeUp(t) =>
        (match m.threads[t]
         case WaitNotFull(x) => Some(Set(m, t, WantPush(x)))
         case WaitNotEmpty => Some(Set(m, t, WantPop))
         case _ => None)
      case Go(t, choice) =>
        if m.threads[t].Wants() then
          if m.mutex.None? then Some(Set(m, t, Locked(m.threads[t])).(mutex := Some(t))) else None
        else Inside(m, t, choice)
  }

  /** A step of the thread that holds the mutex. */
  function Inside<T>(m: Monitor<T>, t: Tid, choice: Tid): Option<Monitor<T>>
    requires t in m.threads
  {
    match m.threads[t]
    case InPush(x, _) =>
      if |m.buffer| < m.capacity then Some(Finish(m, t, NotifyNotEmpty(DidPush(x)), m.buffer + [x]))
      else Some(Set(m, t, WaitNotFull(x)).(mutex := None))
    case InPop(_) =>
      if |m.buffer| > 0 then Some(Finish(m, t, NotifyNotFull(DidPop(m.buffer[0])), m.buffer[1..]))
      else Some(Set(m, t, WaitNotEmpty).(mutex := None))
    case InTryPop =>
      if |m.buffer| > 0 then Some(Finish(m, t, NotifyNotFull(DidTryPop(Some(m.buffer[0]))), m.buffer[1..]))
      else Some(Finish(m, t, Leaving(DidTryPop(None)), m.buffer))
    case InLook(q) =>
      var seen := match q
                  case IsEmpty => Truth(|m.buffer| == 0)
                  case IsFull => Truth(|m.buffer| >= m.capacity)
                  case SizeOf => Number(|m.buffer|);
      Some(Finish(m, t, Leaving(DidLook(q, seen)), m.buffer))
    case NotifyNotEmpty(did) =>
      if WaitingConsumers(m) == {} then Some(Set(m, t, Leaving(did)))
      else if choice in WaitingConsumers(m) then Some(Set(Set(m, choice, WokenPop), t, Leaving(did)))
      else None
    case NotifyNotFull(did) =>
      if WaitingProducers(m) == {} then Some(Set(m, t, Leaving(did)))
      else if choice in WaitingProducers(m)
      then Some(Set(Set(m, choice, WokenPush(m.threads[choice].x)), t, Leaving(did)))
      else None
    case Leaving(_) => Some(Set(m, t, Outside).(mutex := None))
    case _ => None
  }

  /** The one moment at which an operation changes or reads the queue. */
  function Finish<T>(m: Monitor<T>, t: Tid, pc: Pc<T>, buffer: seq<T>): Monitor<T>
    requires pc.NotifyNotEmpty? || pc.NotifyNotFull? || pc.Leaving?
  {
    Set(m, t, pc).(buffer := buffer, history := m.history + [(t, pc.did)])
  }

  function WaitingConsumers<T>(m: Monitor<T>): set<Tid> { set t | t in m.threads && m.threads[t].WaitNotEmpty? }
  function WaitingProducers<T>(m: Monitor<T>): set<Tid> { set t | t in m.threads && m.threads[t].WaitNotFull? }
  function OwingConsumers<T>(m: Monitor<T>): set<Tid> { set t | t in m.threads && m.threads[t].OwesPop() }
  function OwingProducers<T>(m: Monitor<T>): set<Tid> { set t | t in m.threads && m.threads[t].OwesPush() }

  /** The notification of the current critical section is still to come. */
  function ToNotify<T>(m: Monitor<T>, consumers: bool): nat {
    if m.mutex.Some? && m.mutex.value in m.threads
       && (if consumers then m.threads[m.mutex.value].NotifyNotEmpty? else m.threads[m.mutex.value].NotifyNotFull?)
    then 1 else 0
  }

  // ---- The atomic queue ----

  /** A bounded FIFO whose operations take effect at once: what `did` leaves in the queue, if it is a legal
      thing to have done and answered. */
  ghost function Do<T>(b: seq<T>, capacity: nat, did: Done<T>): Option<seq<T>> {
    match did
    case DidPush(x) => if |b| < capacity then Some(b + [x]) else None
    case DidPop(x) => if |b| > 0 && b[0] == x then Some(b[1..]) else None
    case DidTryPop(None) => if b == [] then Some(b) else None
    case DidTryPop(Some(x)) => if |b| > 0 && b[0] == x then Some(b[1..]) else None
    case DidLook(IsEmpty, seen) => if seen == Truth(b == []) then Some(b) else None
    case DidLook(IsFull, seen) => if seen == Truth(|b| == capacity) then Some(b) else None
    case DidLook(SizeOf, seen) => if seen == Number(|b|) then Some(b) else None
  }

  /** Doing everything in `history` one after the other, from an empty queue. */
  ghost function Replay<T>(history: seq<(Tid, Done<T>)>, capacity: nat): Option<seq<T>> {
    if |history| == 0 then Some([]) else
      match Replay(history[..|history| - 1], capacity)
      case None => None
      case Some(b) => Do(b, capacity, history[|history| - 1].1)
  }

  /** What one thread contributed to a record, in order. */
  function Of<X>(record: seq<(Tid, X)>, t: Tid): seq<X> {
    if |record| == 0 then [] else
      var (u, x) := record[|record| - 1];
      Of(record[..|record| - 1], t) + if u == t then [x] else []
  }

  lemma OfAppend<X>(record: seq<(Tid, X)>, u: Tid, x: X, t: Tid)
    ensures Of(record + [(u, x)], t) == if u == t then Of(record, t) + [x] else Of(record, t)
  {
    assert (record + [(u, x)])[..|record|] == record;
  }

  /** `did` is a way to do what `want` asks for. */
  ghost predicate Fits<T>(want: Pc<T>, did: Done<T>) {
    match want
    case WantPush(x) => did == DidPush(x)
    case WantPop => did.DidPop?
    case WantTryPop => did.DidTryPop?
    case WantLook(q) => did.DidLook? && did.q == q
    case _ => false
  }

  /** The operation the thread is inside of, as long as it has not taken effect. */
  function Asked<T>(pc: Pc<T>): Option<Pc<T>> {
    match pc
    case WantPush(x) => Some(WantPush(x))
    case InPush(x, _) => Some(WantPush(x))
    case WaitNotFull(x) => Some(WantPush(x))
    case WokenPush(x) => Some(WantPush(x))
    case WantPop => Some(WantPop)
    case InPop(_) => Some(WantPop)
    case WaitNotEmpty => Some(WantPop)
    case WokenPop => Some(WantPop)
    case WantTryPop => Some(WantTryPop)
    case InTryPop => Some(WantTryPop)
    case WantLook(q) => Some(WantLook(q))
    case InLook(q) => Some(WantLook(q))
    case _ => None
  }

  /** A thread's calls and what became of them: each call but a pending last one took effect exactly once,
      and a thread about to return gives the answer it got then. */
  ghost predicate InTurn<T>(pc: Pc<T>, calls: seq<Pc<T>>, dids: seq<Done<T>>) {
    && |dids| <= |calls| <= |dids| + 1
    && (forall i :: 0 <= i < |dids| ==> Fits(calls[i], dids[i]))
    && (|calls| == |dids| + 1 ==> Asked(pc) == Some(calls[|dids|]))
    && (|calls| == |dids| ==> pc.Outside? || (|dids| > 0 && Returns(pc, dids[|dids| - 1])))
  }

  ghost predicate Returns<T>(pc: Pc<T>, did: Done<T>) {
    (pc.NotifyNotEmpty? || pc.NotifyNotFull? || pc.Leaving?) && pc.did == did
  }

  ghost predicate EachInTurn<T>(m: Monitor<T>) {
    forall t :: t in m.threads ==> InTurn(m.threads[t], Of(m.calls, t), Of(m.history, t))
  }

  // ---- The invariant ----

  /** Mutual exclusion, first in first out, the capacity bound, and the answers. */
  ghost predicate Basics<T>(m: Monitor<T>) { InOrder(m) && Exclusive(m) && EachInTurn(m) }

  ghost predicate InOrder<T>(m: Monitor<T>) {
    m.capacity >= 1 && |m.buffer| <= m.capacity && Replay(m.history, m.capacity) == Some(m.buffer)
  }

  ghost predicate Exclusive<T>(m: Monitor<T>) {
    && (m.mutex.Some? ==> m.mutex.value in m.threads)
    && (forall t :: t in m.threads ==> (m.threads[t].Holds() <==> m.mutex == Some(t)))
  }

  /** While a consumer waits un-notified, every element has a notified consumer coming for it;
      while a producer waits un-notified, every free slot has a notified producer coming for it. */
  ghost predicate NoLostWakeup<T>(m: Monitor<T>) {
    && (|WaitingConsumers(m)| > 0 ==> |m.buffer| <= |OwingConsumers(m)| + ToNotify(m, true))
    && (|WaitingProducers(m)| > 0 ==> m.capacity - |m.buffer| <= |OwingProducers(m)| + ToNotify(m, false))
  }

  ghost predicate MonitorInv<T>(m: Monitor<T>) { Basics(m) && NoLostWakeup(m) }

  lemma StartInv<T>(capacity: nat, tids: set<Tid>)
    requires capacity >= 1
    ensures MonitorInv<T>(Start(capacity, tids))
  {
    assert WaitingConsumers<T>(Start(capacity, tids)) == {};
    assert WaitingProducers<T>(Start(capacity, tids)) == {};
  }

  function Count(b: bool): nat { if b then 1 else 0 }

  lemma SetSize(s: set<Tid>, s': set<Tid>, t: Tid)
    requires s' - {t} == s - {t}
    ensures |s'| == |s| - Count(t in s) + Count(t in s')
  {
    assert s == (s - {t}) + (if t in s then {t} else {});
    assert s' == (s - {t}) + (if t in s' then {t} else {});
  }

  /** How one thread's move changes the numbers of those who wait and of those who owe a look. */
  lemma CountMoves<T>(m: Monitor<T>, t: Tid, pc: Pc<T>)
    requires t in m.threads
    ensures var m', old' := Set(m, t, pc), m.threads[t];
            && |WaitingConsumers(m')| == |WaitingConsumers(m)| - Count(old'.WaitNotEmpty?) + Count(pc.WaitNotEmpty?)
            && |WaitingProducers(m')| == |WaitingProducers(m)| - Count(old'.WaitNotFull?) + Count(pc.WaitNotFull?)
            && |OwingConsumers(m')| == |OwingConsumers(m)| - Count(old'.OwesPop()) + Count(pc.OwesPop())
            && |OwingProducers(m')| == |OwingProducers(m)| - Count(old'.OwesPush()) + Count(pc.OwesPush())
  {
    var m' := Set(m, t, pc);
    SetSize(WaitingConsumers(m), WaitingConsumers(m'), t);
    SetSize(WaitingProducers(m), WaitingProducers(m'), t);
    SetSize(OwingConsumers(m), OwingConsumers(m'), t);
    SetSize(OwingProducers(m), OwingProducers(m'), t);
  }

  lemma SetsFollowThreads<T>(m: Monitor<T>, m': Monitor<T>)
    requires m.threads == m'.threads
    ensures WaitingConsumers(m) == WaitingConsumers(m') && WaitingProducers(m) == WaitingProducers(m')
    ensures OwingConsumers(m) == OwingConsumers(m') && OwingProducers(m) == OwingProducers(m')
  {
  }

  /** Every step either leaves the queue and its history alone, or is one operation that the atomic queue allows. */
  lemma RecordedIsLegal<T>(m: Monitor<T>, e: Event<T>) returns (did: Done<T>)
    requires Step(m, e).Some? && |m.buffer| <= m.capacity
    ensures var m' := Step(m, e).value;
            && m'.capacity == m.capacity && e.t in m'.threads
            && (m'.history == m.history ==> m'.buffer == m.buffer)
            && (m'.history != m.history ==>
                  && Returns(m'.threads[e.t], did)
                  && m'.history == m.history + [(e.t, did)]
                  && Do(m.buffer, m.capacity, did) == Some(m'.buffer))
  {
    hide WaitingConsumers, WaitingProducers;
    var m' := Step(m, e).value;
    did := if m'.history == m.history then DidTryPop(None) else m'.threads[e.t].did;
    if m'.buffer != m.buffer { assert |m'.history| == |m.history| + 1; }
  }

  lemma InOrderKept<T>(m: Monitor<T>, e: Event<T>)
    requires InOrder(m) && Step(m, e).Some?
    ensures InOrder(Step(m, e).value) && Step(m, e).value.capacity == m.capacity
  {
    hide Step, Do, Replay, Returns;
    var m' := Step(m, e).value;
    var did := RecordedIsLegal(m, e);
    if m'.history != m.history {
      ReplayOn(m.history, m.capacity, (e.t, did));
      DoFits(m.buffer, m.capacity, did);
    }
  }

  lemma ReplayOn<T>(h: seq<(Tid, Done<T>)>, capacity: nat, entry: (Tid, Done<T>))
    requires Replay(h, capacity).Some?
    ensures Replay(h + [entry], capacity) == Do(Replay(h, capacity).value, capacity, entry.1)
  {
    hide Do;
    assert (h + [entry])[..|h|] == h;
  }

  lemma DoFits<T>(b: seq<T>, capacity: nat, did: Done<T>)
    requires |b| <= capacity && Do(b, capacity, did).Some?
    ensures |Do(b, capacity, did).value| <= capacity
  {
  }

  lemma ExclusiveKept<T>(m: Monitor<T>, e: Event<T>)
    requires Exclusive(m) && Step(m, e).Some?
    ensures Exclusive(Step(m, e).value)
  {
    hide WaitingConsumers, WaitingProducers, InOrder;
    match e
    case Go(t, choice) =>
      if !m.threads[t].Wants() { InsideExclusive(m, t, choice); }
    case _ =>
  }

  lemma InsideExclusive<T>(m: Monitor<T>, t: Tid, choice: Tid)
    requires Exclusive(m) && t in m.threads && Inside(m, t, choice).Some?
    ensures Exclusive(Inside(m, t, choice).value)
  {
    hide WaitingConsumers, WaitingProducers, InOrder;
  }

  lemma BasicsKept<T>(m: Monitor<T>, e: Event<T>)
    requires Basics(m) && Step(m, e).Some?
    ensures Basics(Step(m, e).value) && Step(m, e).value.capacity == m.capacity
  {
    hide Step, InOrder, Exclusive, EachInTurn;
    InOrderKept(m, e);
    ExclusiveKept(m, e);
    InTurnKept(m, e);
  }

  lemma InTurnKept<T>(m: Monitor<T>, e: Event<T>)
    requires EachInTurn(m) && Step(m, e).Some?
    ensures EachInTurn(Step(m, e).value)
  {
    hide InTurn, Of, Step, Goes, Acts;
    var m' := Step(m, e).value;
    SameThreads(m, e);
    forall t | t in m'.threads ensures InTurn(m'.threads[t], Of(m'.calls, t), Of(m'.history, t)) {
      RecordsGrow(m, e, t);
      if e.t == t { OwnMove(m, e); } else { OtherMove(m, e, t); }
      if e.t == t && e.Call? {
        CallInTurn(m.threads[t], e.want, Of(m.calls, t), Of(m.history, t));
      } else if e.t == t && m'.history != m.history {
        ActInTurn(m.threads[t], m'.threads[t], Of(m.calls, t), Of(m.history, t));
      } else {
        GoInTurn(m.threads[t], m'.threads[t], Of(m.calls, t), Of(m.history, t));
      }
    }
  }

  lemma SameThreads<T>(m: Monitor<T>, e: Event<T>)
    requires Step(m, e).Some?
    ensures Step(m, e).value.threads.Keys == m.threads.Keys
    ensures e.Call? ==> Step(m, e).value.history == m.history
  {
  }

  /** A move that touches neither the queue nor the record of calls. */
  ghost predicate Goes<T>(pc: Pc<T>, pc': Pc<T>) {
    if Asked(pc).Some? then Asked(pc') == Asked(pc)
    else pc'.Outside? || (!pc.Outside? && Returns(pc', pc.did))
  }

  /** The move in which the operation takes effect. */
  ghost predicate Acts<T>(pc: Pc<T>, pc': Pc<T>) {
    && (pc'.NotifyNotEmpty? || pc'.NotifyNotFull? || pc'.Leaving?)
    && Asked(pc).Some? && Fits(Asked(pc).value, pc'.did)
  }

  lemma OwnMove<T>(m: Monitor<T>, e: Event<T>)
    requires Step(m, e).Some?
    ensures var m' := Step(m, e).value;
            if e.Call? then m.threads[e.t].Outside? && m'.threads[e.t] == e.want && Asked(e.want) == Some(e.want)
            else if m'.history != m.history then Acts(m.threads[e.t], m'.threads[e.t])
            else Goes(m.threads[e.t], m'.threads[e.t])
  {
    hide WaitingConsumers, WaitingProducers;
  }

  /** The other threads stay where they are, or are notified. */
  lemma OtherMove<T>(m: Monitor<T>, e: Event<T>, t: Tid)
    requires t in m.threads && t != e.t && Step(m, e).Some?
    ensures Goes(m.threads[t], Step(m, e).value.threads[t])
  {
  }

  lemma CallInTurn<T>(pc: Pc<T>, want: Pc<T>, calls: seq<Pc<T>>, dids: seq<Done<T>>)
    requires InTurn(pc, calls, dids) && pc.Outside? && Asked(want) == Some(want)
    ensures InTurn(want, calls + [want], dids)
  {
  }

  lemma ActInTurn<T>(pc: Pc<T>, pc': Pc<T>, calls: seq<Pc<T>>, dids: seq<Done<T>>)
    requires InTurn(pc, calls, dids) && Acts(pc, pc')
    ensures InTurn(pc', calls, dids + [pc'.did])
  {
  }

  lemma GoInTurn<T>(pc: Pc<T>, pc': Pc<T>, calls: seq<Pc<T>>, dids: seq<Done<T>>)
    requires InTurn(pc, calls, dids) && Goes(pc, pc')
    ensures InTurn(pc', calls, dids)
  {
  }

  /** How a step changes one thread's part of the records. */
  lemma RecordsGrow<T>(m: Monitor<T>, e: Event<T>, t: Tid)
    requires t in m.threads && Step(m, e).Some?
    ensures var m' := Step(m, e).value;
            && Of(m'.calls, t) == (if e.Call? && e.t == t then Of(m.calls, t) + [e.want] else Of(m.calls, t))
            && Of(m'.history, t) == (if e.t == t && m'.history != m.history
                                     then Of(m.history, t) + [m'.threads[t].did] else Of(m.history, t))
  {
    hide Of, WaitingConsumers, WaitingProducers;
    var m' := Step(m, e).value;
    if e.Call? { OfAppend(m.calls, e.t, e.want, t); }
    if m'.history != m.history { OfAppend(m.history, e.t, m'.threads[e.t].did, t); }
  }

  // ---- No wakeup is lost ----

  /** A step outside the critical sections: calling, locking, waking up. */
  lemma OuterKeeps<T>(m: Monitor<T>, t: Tid, pc: Pc<T>, mutex: Option<Tid>)
    requires MonitorInv(m) && t in m.threads
    requires !m.threads[t].Holds() && !pc.WaitNotFull? && !pc.WaitNotEmpty? && !pc.NotifyNotEmpty? && !pc.NotifyNotFull?
    requires m.threads[t].OwesPop() ==> pc.OwesPop()
    requires m.threads[t].OwesPush() ==> pc.OwesPush()
    requires mutex == m.mutex || (m.mutex.None? && mutex == Some(t))
    ensures NoLostWakeup(Set(m, t, pc).(mutex := mutex))
  {
    hide WaitingConsumers, WaitingProducers, OwingConsumers, OwingProducers;
    CountMoves(m, t, pc);
    SetsFollowThreads(Set(m, t, pc), Set(m, t, pc).(mutex := mutex));
  }

  /** Changing the queue: one element more or one fewer, the notification still to come. */
  lemma ChangeKeeps<T>(m: Monitor<T>, t: Tid, pc: Pc<T>, buffer: seq<T>)
    requires MonitorInv(m) && t in m.threads && m.mutex == Some(t)
    requires !m.threads[t].NotifyNotEmpty? && !m.threads[t].NotifyNotFull?
    requires (pc.NotifyNotEmpty? && |buffer| == |m.buffer| + 1 && m.threads[t].InPush?)
          || (pc.NotifyNotFull? && |buffer| == |m.buffer| - 1 && !m.threads[t].InPush?)
    ensures NoLostWakeup(Set(m, t, pc).(buffer := buffer))
  {
    hide WaitingConsumers, WaitingProducers, OwingConsumers, OwingProducers;
    CountMoves(m, t, pc);
    SetsFollowThreads(Set(m, t, pc), Set(m, t, pc).(buffer := buffer));
  }

  /** Going to wait, or leaving without having changed anything. */
  lemma NoChangeKeeps<T>(m: Monitor<T>, t: Tid, pc: Pc<T>, mutex: Option<Tid>)
    requires MonitorInv(m) && t in m.threads && m.mutex == Some(t)
    requires !m.threads[t].NotifyNotEmpty? && !m.threads[t].NotifyNotFull?
    requires (pc.WaitNotEmpty? && m.buffer == [] && m.threads[t].InPop?)
          || (pc.WaitNotFull? && |m.buffer| == m.capacity && m.threads[t].InPush?)
          || ((pc.Leaving? || pc.Outside?) && !m.threads[t].InPop? && !m.threads[t].InPush?)
    requires mutex == m.mutex || mutex.None?
    ensures NoLostWakeup(Set(m, t, pc).(mutex := mutex))
  {
    hide WaitingConsumers, WaitingProducers, OwingConsumers, OwingProducers;
    CountMoves(m, t, pc);
    SetsFollowThreads(Set(m, t, pc), Set(m, t, pc).(mutex := mutex));
  }

  /** Notifying moves one waiter, if there is one, to those who owe a look. */
  lemma NotifyKeeps<T>(m: Monitor<T>, t: Tid, choice: Tid)
    requires MonitorInv(m) && t in m.threads && m.mutex == Some(t)
    requires m.threads[t].NotifyNotEmpty? || m.threads[t].NotifyNotFull?
    requires Inside(m, t, choice).Some?
    ensures NoLostWakeup(Inside(m, t, choice).value)
  {
    var m' := Inside(m, t, choice).value;
    var consumers := m.threads[t].NotifyNotEmpty?;
    var waiting := if consumers then WaitingConsumers(m) else WaitingProducers(m);
    if waiting == {} {
      NobodyWaits(m, t, m'.threads[t], consumers);
    } else {
      assert choice in waiting && choice != t;
      OneIsWoken(m, t, choice, m'.threads[t], consumers);
    }
  }

  lemma NobodyWaits<T>(m: Monitor<T>, t: Tid, pc: Pc<T>, consumers: bool)
    requires MonitorInv(m) && t in m.threads && m.mutex == Some(t) && pc.Leaving?
    requires if consumers then m.threads[t].NotifyNotEmpty? && WaitingConsumers(m) == {}
             else m.threads[t].NotifyNotFull? && WaitingProducers(m) == {}
    ensures NoLostWakeup(Set(m, t, pc))
  {
    hide WaitingConsumers, WaitingProducers, OwingConsumers, OwingProducers;
    CountMoves(m, t, pc);
  }

  lemma OneIsWoken<T>(m: Monitor<T>, t: Tid, choice: Tid, pc: Pc<T>, consumers: bool)
    requires MonitorInv(m) && t in m.threads && m.mutex == Some(t) && pc.Leaving?
    requires choice in m.threads && choice != t
    requires if consumers then m.threads[t].NotifyNotEmpty? && m.threads[choice].WaitNotEmpty?
             else m.threads[t].NotifyNotFull? && m.threads[choice].WaitNotFull?
    ensures NoLostWakeup(Set(Set(m, choice, if consumers then WokenPop else WokenPush(m.threads[choice].x)), t, pc))
  {
    hide WaitingConsumers, WaitingProducers, OwingConsumers, OwingProducers;
    var m1 := Set(m, choice, if consumers then WokenPop else WokenPush(m.threads[choice].x));
    CountMoves(m, choice, m1.threads[choice]);
    CountMoves(m1, t, pc);
  }

  lemma NoWakeupLost<T>(m: Monitor<T>, e: Event<T>)
    requires MonitorInv(m) && Step(m, e).Some?
    ensures NoLostWakeup(Step(m, e).value)
  {
    hide WaitingConsumers, WaitingProducers, OwingConsumers, OwingProducers, NoLostWakeup;
    var t := e.t;
    var pc := m.threads[t];
    var m' := Step(m, e).value;
    match e
    case Call(_, want) =>
      OuterKeeps(m, t, want, m.mutex);
      SameWakeups(Set(m, t, want), m');
    case WakeUp(_) => OuterKeeps(m, t, m'.threads[t], m.mutex);
    case Go(_, choice) =>
      if pc.Wants() {
        OuterKeeps(m, t, Locked(pc), Some(t));
      } else if pc.NotifyNotEmpty? || pc.NotifyNotFull? {
        NotifyKeeps(m, t, choice);
      } else if m'.buffer == m.buffer {
        NoChangeKeeps(m, t, m'.threads[t], m'.mutex);
        SameWakeups(Set(m, t, m'.threads[t]).(mutex := m'.mutex), m');
      } else {
        ChangeKeeps(m, t, m'.threads[t], m'.buffer);
        SameWakeups(Set(m, t, m'.threads[t]).(buffer := m'.buffer), m');
      }
  }

  /** The records do not matter. */
  lemma SameWakeups<T>(m: Monitor<T>, m': Monitor<T>)
    requires NoLostWakeup(m) && m' == m.(calls := m'.calls, history := m'.history)
    ensures NoLostWakeup(m')
  {
    SetsFollowThreads(m, m');
  }

  // ---- Runs ----

  function RunEvents<T>(m: Monitor<T>, events: seq<Event<T>>): Option<Monitor<T>>
    decreases |events|
  {
    if |events| == 0 then Some(m) else
      match Step(m, events[0])
      case None => None
      case Some(m') => RunEvents(m', events[1..])
  }

  /** For any number of producers and consumers, with barging `try_pop` and spurious wakeups,
      every run keeps mutual exclusion, the FIFO order, the capacity bound, and loses no wakeup. */
  lemma {:induction false} QueueRuns<T>(m: Monitor<T>, events: seq<Event<T>>)
    requires MonitorInv(m) && RunEvents(m, events).Some?
    ensures MonitorInv(RunEvents(m, events).value) && RunEvents(m, events).value.capacity == m.capacity
    decreases |events|
  {
    hide Step, NoLostWakeup, Basics;
    if |events| > 0 {
      BasicsKept(m, events[0]);
      NoWakeupLost(m, events[0]);
      QueueRuns(Step(m, events[0]).value, events[1..]);
    }
  }

  // ---- What waiting means ----

  /** A thread other than a waiter can take a step by itself. */
  predicate Runnable<T>(m: Monitor<T>, t: Tid) {
    t in m.threads && (m.threads[t].Holds() || (m.mutex.None? && m.threads[t].Wants()))
  }

  lemma RunnableMoves<T>(m: Monitor<T>, t: Tid) returns (choice: Tid)
    requires Basics(m) && Runnable(m, t)
    ensures Step(m, Go(t, choice)).Some?
  {
    choice := 0;
    if m.threads[t].NotifyNotEmpty? && WaitingConsumers(m) != {} {
      choice :| choice in WaitingConsumers(m);
    } else if m.threads[t].NotifyNotFull? && WaitingProducers(m) != {} {
      choice :| choice in WaitingProducers(m);
    }
  }

  /** A waiter whose condition holds always has a runnable peer, and then the queue is neither
      stuck on an element nor on a free slot: if nobody can run, exactly those wait who have to. */
  lemma WaitersHaveReason<T>(m: Monitor<T>)
    requires MonitorInv(m)
    requires forall t :: !Runnable(m, t)
    ensures WaitingConsumers(m) != {} ==> m.buffer == []
    ensures WaitingProducers(m) != {} ==> |m.buffer| == m.capacity
    ensures WaitingConsumers(m) == {} || WaitingProducers(m) == {}
  {
    if m.mutex.Some? {
      assert Runnable(m, m.mutex.value);
    }
    if OwingConsumers(m) != {} {
      var t :| t in OwingConsumers(m);
      assert Runnable(m, t);
    }
    if OwingProducers(m) != {} {
      var t :| t in OwingProducers(m);
      assert Runnable(m, t);
    }
  }

  // ---- The monitor is a bounded FIFO ----

  /** What one step is, seen from outside: nothing at all, or one operation of the atomic queue by the thread
      that moves, with the answer that the queue gives at that moment. */
  lemma RefinesFifo<T>(m: Monitor<T>, e: Event<T>)
    requires MonitorInv(m) && Step(m, e).Some?
    ensures e.t in Step(m, e).value.threads
    ensures var m' := Step(m, e).value;
            || (m'.history == m.history && m'.buffer == m.buffer)
            || exists did :: m'.history == m.history + [(e.t, did)] && Do(m.buffer, m.capacity, did) == Some(m'.buffer)
                             && Returns(m'.threads[e.t], did)
  {
    hide Step, Do, Replay, EachInTurn, NoLostWakeup, Returns, Exclusive;
    var did := RecordedIsLegal(m, e);
  }

  /** What was put in, and what was taken out. */
  function Pushed<T>(history: seq<(Tid, Done<T>)>): seq<T> {
    if |history| == 0 then [] else
      var did := history[|history| - 1].1;
      Pushed(history[..|history| - 1]) + if did.DidPush? then [did.x] else []
  }

  function Taken<T>(history: seq<(Tid, Done<T>)>): seq<T> {
    if |history| == 0 then [] else
      var did := history[|history| - 1].1;
      Taken(history[..|history| - 1]) + match did
                                        case DidPop(x) => [x]
                                        case DidTryPop(Some(x)) => [x]
                                        case _ => []
  }

  lemma {:induction false} ReplayConserves<T>(history: seq<(Tid, Done<T>)>, capacity: nat)
    requires Replay(history, capacity).Some?
    ensures Taken(history) + Replay(history, capacity).value == Pushed(history)
    decreases |history|
  {
    if |history| > 0 {
      var before := history[..|history| - 1];
      ReplayConserves(before, capacity);
      var b := Replay(before, capacity).value;
      if b != [] { assert b == [b[0]] + b[1..]; }
    }
  }

  /** Every run of a queue that could be created looks like a run of the atomic queue: the operations, in the order
      in which they took effect, are legal with the answers they gave and end in the present content; each thread's
      calls took effect in turn, once each, and return what they answered then. */
  lemma Linearizable<T>(capacity: nat, tids: set<Tid>, m: Monitor<T>, events: seq<Event<T>>)
    requires Create<T>(capacity, tids).Some? && RunEvents(Create<T>(capacity, tids).value, events) == Some(m)
    ensures Replay(m.history, capacity) == Some(m.buffer) && EachInTurn(m)
    ensures |m.buffer| <= capacity && NoLostWakeup(m)
  {
    hide Step, NoLostWakeup, EachInTurn;
    StartInv<T>(capacity, tids);
    QueueRuns(Start<T>(capacity, tids), events);
  }

  /** Nothing is lost, duplicated or reordered: what was taken out, followed by what is inside, is what was put in. */
  lemma FirstInFirstOut<T>(capacity: nat, tids: set<Tid>, m: Monitor<T>, events: seq<Event<T>>)
    requires Create<T>(capacity, tids).Some? && RunEvents(Create<T>(capacity, tids).value, events) == Some(m)
    ensures Taken(m.history) + m.buffer == Pushed(m.history)
  {
    Linearizable(capacity, tids, m, events);
    ReplayConserves(m.history, capacity);
  }

  // ---- The queues of the pipeline ----

  /** What is in a queue of the pipeline. */
  function Content<T>(f: Threads.Fifo<T>): seq<T>
    requires f.Valid()
  {
    f.pushed[f.popped..]
  }

  /** The queue operations of the pipeline's stages are those of the atomic queue, with the same answers, and are
      possible in the same situations. */
  lemma FifoIsAtomicQueue<T>(f: Threads.Fifo<T>, capacity: nat, x: T)
    requires f.Valid()
    ensures Do(Content(f), capacity, DidPush(x)) == if f.Size() < capacity then Some(Content(f.Push(x))) else None
    ensures Do(Content(f), capacity, DidPop(x)) ==
            if !f.Empty() && f.Front() == x then Some(Content(f.Pop())) else None
    ensures Do(Content(f), capacity, DidTryPop(Some(x))) ==
            if !f.Empty() && f.Front() == x then Some(Content(f.Pop())) else None
    ensures Do(Content(f), capacity, DidTryPop(None)) == if f.Empty() then Some(Content(f)) else None
    ensures Do(Content(f), capacity, DidLook(IsEmpty, Truth(f.Empty()))) == Some(Content(f))
  {
    assert Content(f) + [x] == Content(f.Push(x));
    if !f.Empty() { assert Content(f)[1..] == Content(f.Pop()); }
  }

  /** When no thread of the monitor can run, a thread waits in `pop` only if the pipeline's queue is empty, and in
      `push` only if it is full: exactly then the stage's step is `None`. */
  lemma WaitersAreBlocked<T>(m: Monitor<T>, f: Threads.Fifo<T>)
    requires MonitorInv(m) && f.Valid() && m.buffer == Content(f)
    requires forall t :: !Runnable(m, t)
    ensures WaitingConsumers(m) != {} ==> f.Empty()
    ensures WaitingProducers(m) != {} ==> f.Size() >= m.capacity
  {
    hide MonitorInv, Runnable, WaitingConsumers, WaitingProducers;
    WaitersHaveReason(m);
    assert |Content(f)| == f.Size();
  }
}
