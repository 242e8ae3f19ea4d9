/** The server's transmission rounds as a step system: the transmitter thread, any number of
    sender threads, the loader, and subscription requests, interleaved in any order. */
module ServerRound {

  const MAX_ACTIVE_SENDINGS := 3
  const SUBSCR_EXPIRE_TIME := 5

  type Addr = nat

  /** A subscribed client: its address, and when it subscribed last. */
  datatype Entry = Entry(addr: Addr, lastUpdate: int)

  /** A data message: its key, and the file it came from. */
  datatype Message = Message(time: int, id: int, file: nat)

  datatype Option<+T> = None | Some(value: T)

  /** Where a sender thread is, from reading the head of the queue to its end. */
  datatype SPc =
    | SRead      // before reading the message
    | SSend      // before sending it
    | SPost      // before giving its slot back
    | SWait      // before decrementing the done semaphore
    | SLock      // before taking the done mutex
    | SCheck     // holds the mutex, before reading the semaphore
    | SSignal    // has read zero, before signalling
    | SUnlock    // before releasing the mutex
    | SEnd

  /** A sender thread: its client, the number of the round that created it, what it has read,
      and, as history, what it has sent. */
  datatype Sender = Sender(pc: SPc, client: Addr, round: nat, msg: Option<Message>, delivered: seq<Message>)

  /** Where the transmitter is. `rest` is what the iteration has still to visit. */
  datatype TPc =
    | TLockQueue
    | TCheckQueue
    | TWaitQueue                       // asleep until there is a message
    | TWokenQueue
    | TLockMap
    | TInitSem
    | TLoop(rest: seq<Entry>)
    | TExpireWait(rest: seq<Entry>)    // client deleted; the five steps of sending_done
    | TExpireLock(rest: seq<Entry>)
    | TExpireCheck(rest: seq<Entry>)
    | TExpireSignal(rest: seq<Entry>)
    | TExpireUnlock(rest: seq<Entry>)
    | TAcquire(el: Entry, rest: seq<Entry>)   // `el` gets a sender: first a slot,
    | TSpawn(el: Entry, rest: seq<Entry>)     // then the thread
    | TUnlockMap
    | TLockDone
    | TCheckDone
    | TSleepDone
    | TWoken
    | TUnlockDone
    | TDestroy
    | TPop
    | TUnlockQueue(msg: Message)
    | TFile(msg: Message)

  datatype Holder = Nobody | Transmitter | BySender(i: nat)

  /** What the iteration did with a client, at which reading of the clock. */
  datatype Visit = Visit(entry: Entry, expired: bool, at: int)

  /** Shared state, thread states, and history: the messages and clients of the rounds so far. */
  datatype State = State(
    tpc: TPc,
    queueHeld: bool,            // by the transmitter; the loader holds the mutex for one step
    mapHeld: bool,
    doneMutex: Holder,
    slots: int,                 // max_sendings_semaphore
    done: int,                  // sending_done_semaphore
    clients: seq<Entry>,        // the client map in application order
    senders: seq<Sender>,       // all sender threads ever created
    queue: seq<Message>,
    sent: seq<Message>,
    lastTime: int,
    lastId: int,
    clock: int,
    loaded: seq<Message>,       // history: everything ever loaded
    roundMsgs: seq<Message>,    // history: head of the queue at the start of each round
    roundClients: seq<Entry>,   // history: clients at the start of the current round
    base: nat,                  // history: number of sender threads before the current round
    visited: seq<Visit>,        // history: the iteration of the current round
    reading: int                // history: the clock as last read by the iteration
  )

  predicate Initial(s: State) {
    && s.tpc == TLockQueue && !s.queueHeld && !s.mapHeld && s.doneMutex == Nobody
    && s.slots == MAX_ACTIVE_SENDINGS && s.done == 0
    && s.clients == [] && s.senders == [] && s.queue == [] && s.sent == [] && s.loaded == []
    && s.lastTime == 0 && s.lastId == 0 && s.clock >= 0
    && s.roundMsgs == [] && s.roundClients == [] && s.base == 0 && s.visited == []
  }

  // ----- steps

  function Remove(cs: seq<Entry>, a: Addr): seq<Entry> {
    if cs == [] then [] else if cs[0].addr == a then cs[1..] else [cs[0]] + Remove(cs[1..], a)
  }

  function Refresh(cs: seq<Entry>, a: Addr, now: int): seq<Entry> {
    if cs == [] then [Entry(a, now)]
    else if cs[0].addr == a then [Entry(a, now)] + cs[1..]
    else [cs[0]] + Refresh(cs[1..], a, now)
  }

  /** A signal wakes the transmitter if it sleeps on the condition, and is lost otherwise. */
  function Signalled(tpc: TPc): TPc {
    if tpc == TSleepDone then TWoken else tpc
  }

  /** A broadcast wakes the transmitter if it waits for a message. */
  function Announced(tpc: TPc): TPc {
    if tpc == TWaitQueue then TWokenQueue else tpc
  }

  /** The iteration over the clients: from the start of the loop to the release of the map. */
  predicate Iterating(t: TPc) {
    t.TLoop? || t.TExpireWait? || t.TExpireLock? || t.TExpireCheck? || t.TExpireSignal? || t.TExpireUnlock?
    || t.TAcquire? || t.TSpawn? || t.TUnlockMap?
  }

  /** The wait for the senders. */
  predicate Waiting(t: TPc) {
    t.TLockDone? || t.TCheckDone? || t.TSleepDone? || t.TWoken? || t.TUnlockDone? || t.TDestroy?
  }

  /** The iteration of the round has started and the semaphore has not been destroyed yet. */
  predicate InRound(t: TPc) {
    Iterating(t) || Waiting(t)
  }

  predicate Expired(e: Entry, now: int) {
    e.lastUpdate + SUBSCR_EXPIRE_TIME < now
  }

  /** Whether the transmitter can step, reading the clock as `now` if it reads it. Taking the
      head of an empty queue would be a crash; here it is a step that is never enabled. */
  predicate TEnabled(s: State, now: int) {
    match s.tpc
    case TLoop(_) => now >= s.clock
    case TExpireWait(_) => s.done > 0
    case TExpireLock(_) => s.doneMutex == Nobody
    case TAcquire(_, _) => s.slots > 0
    case TLockDone => s.doneMutex == Nobody
    case TWoken => s.doneMutex == Nobody
    case TSleepDone => false
    case TWaitQueue => false
    case TInitSem => s.queue != []
    case TPop => s.queue != []
    case _ => true
  }

  function IterationNext(s: State, now: int): State
    requires TEnabled(s, now) && Iterating(s.tpc)
  {
    match s.tpc
    case TLoop(rest) =>
      if rest == [] then s.(tpc := TUnlockMap, clock := now)
      else if Expired(rest[0], now) then
        s.(tpc := TExpireWait(rest[1..]), clock := now, clients := Remove(s.clients, rest[0].addr),
           visited := s.visited + [Visit(rest[0], true, now)], reading := now)
      else s.(tpc := TAcquire(rest[0], rest[1..]), clock := now, reading := now)
    case TExpireWait(rest) => s.(tpc := TExpireLock(rest), done := s.done - 1)
    case TExpireLock(rest) => s.(tpc := TExpireCheck(rest), doneMutex := Transmitter)
    case TExpireCheck(rest) => s.(tpc := if s.done == 0 then TExpireSignal(rest) else TExpireUnlock(rest))
    case TExpireSignal(rest) => s.(tpc := TExpireUnlock(rest))
    case TExpireUnlock(rest) => s.(tpc := TLoop(rest), doneMutex := Nobody)
    case TAcquire(el, rest) => s.(tpc := TSpawn(el, rest), slots := s.slots - 1)
    case TSpawn(el, rest) =>
      s.(tpc := TLoop(rest), visited := s.visited + [Visit(el, false, s.reading)],
         senders := s.senders + [Sender(SRead, el.addr, |s.roundMsgs|, None, [])])
    case TUnlockMap => s.(tpc := TLockDone, mapHeld := false)
  }

  function WaitNext(s: State, now: int): State
    requires TEnabled(s, now) && Waiting(s.tpc)
  {
    match s.tpc
    case TLockDone => s.(tpc := TCheckDone, doneMutex := Transmitter)
    case TCheckDone => if s.done != 0 then s.(tpc := TSleepDone, doneMutex := Nobody) else s.(tpc := TUnlockDone)
    case TWoken => s.(tpc := TCheckDone, doneMutex := Transmitter)
    case TUnlockDone => s.(tpc := TDestroy, doneMutex := Nobody)
    case TDestroy => s.(tpc := TPop)
  }

  function BetweenNext(s: State, now: int): State
    requires TEnabled(s, now) && !InRound(s.tpc)
  {
    match s.tpc
    case TLockQueue => s.(tpc := TCheckQueue, queueHeld := true)
    case TCheckQueue => if s.queue == [] then s.(tpc := TWaitQueue, queueHeld := false) else s.(tpc := TLockMap)
    case TWokenQueue => s.(tpc := TCheckQueue, queueHeld := true)
    case TLockMap => s.(tpc := TInitSem, mapHeld := true)
    case TInitSem =>
      s.(tpc := TLoop(s.clients), done := |s.clients|, roundMsgs := s.roundMsgs + [s.queue[0]],
         roundClients := s.clients, base := |s.senders|, visited := [])
    case TPop => s.(tpc := TUnlockQueue(s.queue[0]), queue := s.queue[1..])
    case TUnlockQueue(m) => s.(tpc := TFile(m), queueHeld := false)
    case TFile(m) => s.(tpc := TLockQueue, sent := s.sent + [m])
  }

  function TNext(s: State, now: int): State
    requires TEnabled(s, now)
  {
    if Iterating(s.tpc) then IterationNext(s, now)
    else if Waiting(s.tpc) then WaitNext(s, now)
    else BetweenNext(s, now)
  }

  predicate SEnabled(s: State, i: nat) {
    i < |s.senders| &&
    match s.senders[i].pc
    case SRead => s.queue != []
    case SWait => s.done > 0
    case SLock => s.doneMutex == Nobody
    case SEnd => false
    case _ => true
  }

  function At(s: State, i: nat, pc: SPc): seq<Sender>
    requires i < |s.senders|
  {
    s.senders[i := s.senders[i].(pc := pc)]
  }

  function SNext(s: State, i: nat): State
    requires SEnabled(s, i)
  {
    match s.senders[i].pc
    case SRead =>
      s.(senders := s.senders[i := s.senders[i].(pc := SSend, msg := Some(s.queue[0]))])
    case SSend =>
      var x := s.senders[i];
      var delivered := if x.msg.Some? then x.delivered + [x.msg.value] else x.delivered;
      s.(senders := s.senders[i := x.(pc := SPost, delivered := delivered)])
    case SPost => s.(senders := At(s, i, SWait), slots := s.slots + 1)
    case SWait => s.(senders := At(s, i, SLock), done := s.done - 1)
    case SLock => s.(senders := At(s, i, SCheck), doneMutex := BySender(i))
    case SCheck => s.(senders := At(s, i, if s.done == 0 then SSignal else SUnlock))
    case SSignal => s.(senders := At(s, i, SUnlock), tpc := Signalled(s.tpc))
    case SUnlock => s.(senders := At(s, i, SEnd), doneMutex := Nobody)
  }

  /** One step of one thread, or of the outside world. */
  datatype Action =
    | Transmit(now: int)
    | Send(i: nat)
    | SpuriousWake
    | Subscribe(addr: Addr, now: int)
    | Load(file: nat, now: int)

  predicate Enabled(s: State, a: Action) {
    match a
    case Transmit(now) => TEnabled(s, now)
    case Send(i) => SEnabled(s, i)
    case SpuriousWake => s.tpc == TSleepDone || s.tpc == TWaitQueue
    case Subscribe(_, now) => !s.mapHeld && now >= s.clock
    case Load(_, now) => !s.queueHeld && now >= s.clock
  }

  function Step(s: State, a: Action): State
    requires Enabled(s, a)
  {
    match a
    case Transmit(now) => TNext(s, now)
    case Send(i) => SNext(s, i)
    case SpuriousWake => s.(tpc := Announced(Signalled(s.tpc)))
    case Subscribe(addr, now) => s.(clients := Refresh(s.clients, addr, now), clock := now)
    case Load(file, now) =>
      var m := Message(now, if now == s.lastTime then s.lastId + 1 else 0, file);
      s.(queue := s.queue + [m], loaded := s.loaded + [m], lastTime := m.time, lastId := m.id, clock := now,
         tpc := Announced(s.tpc))
  }

  // ----- counting threads

  function Sum(ss: seq<Sender>, f: SPc -> nat): nat {
    if ss == [] then 0 else Sum(ss[..|ss| - 1], f) + f(ss[|ss| - 1].pc)
  }

  lemma {:induction false} SumUpdate(ss: seq<Sender>, f: SPc -> nat, i: nat, x: Sender)
    requires i < |ss|
    ensures Sum(ss[i := x], f) + f(ss[i].pc) == Sum(ss, f) + f(x.pc)
  {
    var n := |ss| - 1;
    var t := ss[i := x];
    if i == n {
      assert t[..n] == ss[..n];
    } else {
      assert t[..n] == ss[..n][i := x];
      SumUpdate(ss[..n], f, i, x);
    }
  }

  lemma SumAppend(ss: seq<Sender>, f: SPc -> nat, x: Sender)
    ensures Sum(ss + [x], f) == Sum(ss, f) + f(x.pc)
  {
    assert (ss + [x])[..|ss|] == ss;
  }

  lemma {:induction false} SumBound(ss: seq<Sender>, f: SPc -> nat, i: nat)
    requires i < |ss|
    ensures f(ss[i].pc) <= Sum(ss, f)
  {
    if i < |ss| - 1 {
      SumBound(ss[..|ss| - 1], f, i);
    }
  }

  /** A positive sum has a positive term. */
  lemma {:induction false} SumWitness(ss: seq<Sender>, f: SPc -> nat) returns (i: nat)
    requires Sum(ss, f) > 0
    ensures i < |ss| && f(ss[i].pc) > 0
  {
    var n := |ss| - 1;
    if f(ss[n].pc) > 0 {
      i := n;
    } else {
      i := SumWitness(ss[..n], f);
    }
  }

  /** Holds a slot. */
  function Active(pc: SPc): nat {
    if pc.SRead? || pc.SSend? || pc.SPost? then 1 else 0
  }

  /** Has not decremented the done semaphore yet. */
  function Undone(pc: SPc): nat {
    if pc.SRead? || pc.SSend? || pc.SPost? || pc.SWait? then 1 else 0
  }

  /** Has decremented, but not passed its signal check yet. */
  predicate Signaller(pc: SPc) {
    pc.SLock? || pc.SCheck? || pc.SSignal?
  }

  predicate HoldsDone(pc: SPc) {
    pc.SCheck? || pc.SSignal? || pc.SUnlock?
  }

  // ----- invariants

  /** The clients of the round that have neither a sender nor a decrement of their own yet. */
  function Unvisited(t: TPc): nat {
    match t
    case TLoop(rest) => |rest|
    case TExpireWait(rest) => 1 + |rest|
    case TExpireLock(rest) => |rest|
    case TExpireCheck(rest) => |rest|
    case TExpireSignal(rest) => |rest|
    case TExpireUnlock(rest) => |rest|
    case TAcquire(_, rest) => 1 + |rest|
    case TSpawn(_, rest) => 1 + |rest|
    case _ => 0
  }

  /** Slot conservation. */
  predicate SlotsOk(s: State) {
    s.slots >= 0 && s.slots + Sum(s.senders, Active) + (if s.tpc.TSpawn? then 1 else 0) == MAX_ACTIVE_SENDINGS
  }

  /** The done semaphore counts the unvisited clients and the undone senders; it has reached
      zero when the wait is over, and no undone sender is left between rounds. */
  predicate BarrierOk(s: State) {
    && (if InRound(s.tpc) then s.done == Unvisited(s.tpc) + Sum(s.senders, Undone) else Sum(s.senders, Undone) == 0)
    && (s.tpc.TUnlockDone? || s.tpc.TDestroy? ==> s.done == 0)
  }

  predicate TransmitterHoldsDone(t: TPc) {
    t.TExpireCheck? || t.TExpireSignal? || t.TExpireUnlock? || t.TCheckDone? || t.TUnlockDone?
  }

  /** The done mutex is held by whoever is inside its critical section. */
  predicate MutexOk(s: State) {
    && (s.doneMutex == Transmitter <==> TransmitterHoldsDone(s.tpc))
    && (forall i | 0 <= i < |s.senders| :: HoldsDone(s.senders[i].pc) <==> s.doneMutex == BySender(i))
    && (s.doneMutex.BySender? ==> s.doneMutex.i < |s.senders|)
  }

  /** No lost wake-up: while the transmitter sleeps on a zero count, some sender is still
      before its signal check. */
  predicate WakeOk(s: State) {
    s.tpc == TSleepDone && s.done == 0 ==> exists i :: 0 <= i < |s.senders| && Signaller(s.senders[i].pc)
  }

  predicate QueueHeldAt(t: TPc) {
    t.TCheckQueue? || t.TLockMap? || t.TInitSem? || InRound(t) || t.TPop? || t.TUnlockQueue?
  }

  function InTransfer(t: TPc): seq<Message> {
    match t
    case TUnlockQueue(m) => [m]
    case TFile(m) => [m]
    case _ => []
  }

  /** First in, first out; a round keeps its message at the head of the queue; and the
      transmitter is not left asleep while there is a message. */
  predicate QueueOk(s: State) {
    && (s.queueHeld <==> QueueHeldAt(s.tpc)) && (s.mapHeld <==> Iterating(s.tpc) || s.tpc.TInitSem?)
    && (s.tpc.TWaitQueue? ==> s.queue == [])
    && (s.tpc.TLockMap? || s.tpc.TInitSem? || InRound(s.tpc) || s.tpc.TPop? ==> s.queue != [])
    && s.loaded == s.sent + InTransfer(s.tpc) + s.queue
    && s.roundMsgs == s.sent + InTransfer(s.tpc) + if InRound(s.tpc) || s.tpc.TPop? then s.queue[..1] else []
  }

  /** Every sender belongs to a round, has read that round's message, and has sent it once. */
  predicate SendersOk(s: State) {
    forall i | 0 <= i < |s.senders| ::
      var x := s.senders[i];
      && 1 <= x.round <= |s.roundMsgs|
      && (x.pc.SRead? || x.msg == Some(s.roundMsgs[x.round - 1]))
      && (Undone(x.pc) > 0 ==> x.round == |s.roundMsgs|)
      && x.delivered == (if x.pc.SRead? || x.pc.SSend? then [] else [s.roundMsgs[x.round - 1]])
  }

  function Rest(t: TPc): seq<Entry> {
    match t
    case TLoop(rest) => rest
    case TExpireWait(rest) => rest
    case TExpireLock(rest) => rest
    case TExpireCheck(rest) => rest
    case TExpireSignal(rest) => rest
    case TExpireUnlock(rest) => rest
    case TAcquire(el, rest) => [el] + rest
    case TSpawn(el, rest) => [el] + rest
    case _ => []
  }

  function Entries(v: seq<Visit>): (es: seq<Entry>)
    ensures |es| == |v|
  {
    if v == [] then [] else Entries(v[..|v| - 1]) + [v[|v| - 1].entry]
  }

  /** The visited clients that had not expired. */
  function Live(v: seq<Visit>): seq<Entry> {
    if v == [] then [] else Live(v[..|v| - 1]) + if v[|v| - 1].expired then [] else [v[|v| - 1].entry]
  }

  predicate UniqueAddrs(cs: seq<Entry>) {
    forall i, j | 0 <= i < j < |cs| :: cs[i].addr != cs[j].addr
  }

  /** The clients of the round are the visited ones and the rest; while the map is held it
      is the live ones among the visited, and the rest. */
  predicate ClientsOk(s: State) {
    && UniqueAddrs(s.clients) && UniqueAddrs(s.roundClients)
    && s.roundClients == Entries(s.visited) + Rest(s.tpc)
    && (Iterating(s.tpc) ==> s.clients == Live(s.visited) + Rest(s.tpc))
  }

  /** The live ones among the visited clients have exactly one sender each, in order. */
  predicate AssignedOk(s: State) {
    var live := Live(s.visited);
    && |s.senders| == s.base + |live|
    && forall i | 0 <= i < |s.senders| ::
         if i < s.base then s.senders[i].round < |s.roundMsgs|
         else s.senders[i].round == |s.roundMsgs| && s.senders[i].client == live[i - s.base].addr
  }

  predicate Has(cs: seq<Entry>, a: Addr) {
    exists k :: 0 <= k < |cs| && cs[k].addr == a
  }

  /** No client is removed while a sender may still use it. */
  predicate InUseOk(s: State) {
    forall i | 0 <= i < |s.senders| && Undone(s.senders[i].pc) > 0 :: Has(s.clients, s.senders[i].client)
  }

  predicate Before(m: Message, n: Message) {
    m.time < n.time || (m.time == n.time && m.id < n.id)
  }

  /** Message keys strictly increase; the loader remembers the last one. */
  predicate KeysOk(s: State) {
    && (forall i, j | 0 <= i < j < |s.loaded| :: Before(s.loaded[i], s.loaded[j]))
    && (s.loaded != [] ==> var m := s.loaded[|s.loaded| - 1]; m.time == s.lastTime && m.id == s.lastId)
    && (s.loaded == [] ==> s.lastTime == 0)
    && s.lastTime <= s.clock
  }

  predicate Inv(s: State) {
    && SlotsOk(s) && BarrierOk(s) && MutexOk(s) && WakeOk(s) && QueueOk(s)
    && SendersOk(s) && ClientsOk(s) && AssignedOk(s) && InUseOk(s) && KeysOk(s)
  }

  // ----- every step keeps every invariant

  lemma IterationBarrier(s: State, now: int)
    requires SlotsOk(s) && BarrierOk(s) && TEnabled(s, now) && Iterating(s.tpc)
    ensures var t := IterationNext(s, now); SlotsOk(t) && BarrierOk(t)
  {
    hide Sum;
    if s.tpc.TSpawn? {
      SumAppend(s.senders, Active, Sender(SRead, s.tpc.el.addr, |s.roundMsgs|, None, []));
      SumAppend(s.senders, Undone, Sender(SRead, s.tpc.el.addr, |s.roundMsgs|, None, []));
    }
  }

  lemma WaitBarrier(s: State, now: int)
    requires SlotsOk(s) && BarrierOk(s) && TEnabled(s, now) && Waiting(s.tpc)
    ensures var t := WaitNext(s, now); SlotsOk(t) && BarrierOk(t)
  {
    hide Sum;
  }

  lemma BetweenBarrier(s: State, now: int)
    requires SlotsOk(s) && BarrierOk(s) && TEnabled(s, now) && !InRound(s.tpc)
    ensures var t := BetweenNext(s, now); SlotsOk(t) && BarrierOk(t)
  {
    hide Sum;
  }

  lemma SendSlots(s: State, i: nat)
    requires SlotsOk(s) && SEnabled(s, i)
    ensures SlotsOk(SNext(s, i))
  {
    hide Sum;
    SumUpdate(s.senders, Active, i, SNext(s, i).senders[i]);
  }

  lemma SendBarrier(s: State, i: nat)
    requires BarrierOk(s) && SEnabled(s, i)
    ensures BarrierOk(SNext(s, i))
  {
    hide Sum, SNext, SEnabled;
    SenderEffect(s, i);
    SumUpdate(s.senders, Undone, i, SNext(s, i).senders[i]);
    SumBound(s.senders, Undone, i);
  }

  /** A step of a sender changes that sender only; the step that decrements the done semaphore
      is the one after which the sender is no longer undone. */
  lemma SenderEffect(s: State, i: nat)
    requires SEnabled(s, i)
    ensures var t := SNext(s, i);
            && i < |s.senders| == |t.senders| && t.senders == s.senders[i := t.senders[i]]
            && Undone(t.senders[i].pc) == Undone(s.senders[i].pc) - (if s.senders[i].pc.SWait? then 1 else 0)
            && t.done == s.done - (if s.senders[i].pc.SWait? then 1 else 0)
            && t.tpc == (if s.senders[i].pc.SSignal? then Signalled(s.tpc) else s.tpc)
  {
  }

  lemma IterationMutex(s: State, now: int)
    requires MutexOk(s) && TEnabled(s, now) && Iterating(s.tpc)
    ensures MutexOk(IterationNext(s, now))
  {
    hide Remove, Expired;
    assert s.doneMutex.BySender? ==> HoldsDone(s.senders[s.doneMutex.i].pc);
  }

  lemma WaitMutex(s: State, now: int)
    requires MutexOk(s) && TEnabled(s, now) && Waiting(s.tpc)
    ensures MutexOk(WaitNext(s, now))
  {
  }

  lemma BetweenMutex(s: State, now: int)
    requires MutexOk(s) && TEnabled(s, now) && !InRound(s.tpc)
    ensures MutexOk(BetweenNext(s, now))
  {
  }

  lemma SendMutex(s: State, i: nat)
    requires MutexOk(s) && SEnabled(s, i)
    ensures MutexOk(SNext(s, i))
  {
  }

  lemma IterationQueue(s: State, now: int)
    requires QueueOk(s) && TEnabled(s, now) && Iterating(s.tpc)
    ensures QueueOk(IterationNext(s, now))
  {
  }

  lemma WaitQueue(s: State, now: int)
    requires QueueOk(s) && TEnabled(s, now) && Waiting(s.tpc)
    ensures QueueOk(WaitNext(s, now))
  {
  }

  lemma BetweenQueue(s: State, now: int)
    requires QueueOk(s) && TEnabled(s, now) && !InRound(s.tpc)
    ensures QueueOk(BetweenNext(s, now))
  {
  }

  lemma SendQueue(s: State, i: nat)
    requires QueueOk(s) && SEnabled(s, i)
    ensures QueueOk(SNext(s, i))
  {
  }

  lemma TransmitWake(s: State, now: int)
    requires WakeOk(s) && TEnabled(s, now)
    ensures WakeOk(TNext(s, now))
  {
    hide Sum;
  }

  lemma SendWake(s: State, i: nat)
    requires WakeOk(s) && SEnabled(s, i)
    ensures WakeOk(SNext(s, i))
  {
    var t := SNext(s, i);
    if t.tpc == TSleepDone && t.done == 0 {
      if s.senders[i].pc.SWait? {
        assert Signaller(t.senders[i].pc);
      } else {
        var k :| 0 <= k < |s.senders| && Signaller(s.senders[k].pc);
        assert Signaller(t.senders[k].pc);
      }
    }
  }

  /** At the start of a round no sender is undone, so no sender of an earlier round is. */
  lemma NoneUndone(s: State)
    requires Sum(s.senders, Undone) == 0
    ensures forall i | 0 <= i < |s.senders| :: Undone(s.senders[i].pc) == 0
  {
    forall i | 0 <= i < |s.senders| ensures Undone(s.senders[i].pc) == 0 {
      SumBound(s.senders, Undone, i);
    }
  }

  lemma SendersFrame(s: State, t: State)
    requires SendersOk(s) && t.senders == s.senders && t.roundMsgs == s.roundMsgs
    ensures SendersOk(t)
  {
  }

  lemma SendersNewRound(s: State, t: State)
    requires SendersOk(s) && t.senders == s.senders && s.roundMsgs < t.roundMsgs
    requires forall i | 0 <= i < |s.senders| :: Undone(s.senders[i].pc) == 0
    ensures SendersOk(t)
  {
  }

  lemma IterationSenders(s: State, now: int)
    requires SendersOk(s) && QueueOk(s) && TEnabled(s, now) && Iterating(s.tpc)
    ensures SendersOk(IterationNext(s, now))
  {
    hide Remove, Expired;
    if !s.tpc.TSpawn? {
      hide SendersOk, QueueOk;
      SendersFrame(s, IterationNext(s, now));
    }
  }

  lemma WaitSenders(s: State, now: int)
    requires SendersOk(s) && TEnabled(s, now) && Waiting(s.tpc)
    ensures SendersOk(WaitNext(s, now))
  {
    hide SendersOk;
    SendersFrame(s, WaitNext(s, now));
  }

  lemma BetweenSenders(s: State, now: int)
    requires SendersOk(s) && BarrierOk(s) && TEnabled(s, now) && !InRound(s.tpc)
    ensures SendersOk(BetweenNext(s, now))
  {
    NoneUndone(s);
    hide Sum, SendersOk;
    if s.tpc.TInitSem? {
      SendersNewRound(s, BetweenNext(s, now));
    } else {
      SendersFrame(s, BetweenNext(s, now));
    }
  }

  /** An undone sender means that the round goes on. */
  lemma UndoneInRound(s: State, i: nat)
    requires BarrierOk(s) && i < |s.senders| && Undone(s.senders[i].pc) > 0
    ensures InRound(s.tpc)
  {
    SumBound(s.senders, Undone, i);
  }

  lemma SendSenders(s: State, i: nat)
    requires SendersOk(s) && BarrierOk(s) && QueueOk(s) && SEnabled(s, i)
    ensures SendersOk(SNext(s, i))
  {
    hide QueueOk, BarrierOk, SNext, SEnabled;
    SenderEffect(s, i);
    SenderReads(s, i);
    if s.senders[i].pc.SRead? {
      UndoneInRound(s, i);
      HeadIsRoundMessage(s);
    }
  }

  /** What a sender has read it keeps; it reads the head of the queue. */
  lemma SenderReads(s: State, i: nat)
    requires SEnabled(s, i)
    ensures i < |s.senders|
    ensures var t, x := SNext(s, i), s.senders[i];
            && t.roundMsgs == s.roundMsgs && i < |s.senders| == |t.senders|
            && t.senders[i].round == x.round && !t.senders[i].pc.SRead?
            && t.senders[i].delivered ==
               (if x.pc.SSend? && x.msg.Some? then x.delivered + [x.msg.value] else x.delivered)
            && (x.pc.SRead? ==> t.senders[i].pc.SSend?) && (t.senders[i].pc.SSend? ==> x.pc.SRead?)
            && (if x.pc.SRead? then s.queue != [] && t.senders[i].msg == Some(s.queue[0])
                else t.senders[i].msg == x.msg)
  {
  }

  /** During a round the head of the queue is the round's message. */
  lemma HeadIsRoundMessage(s: State)
    requires QueueOk(s) && InRound(s.tpc)
    ensures s.queue != [] && s.roundMsgs != [] && s.roundMsgs[|s.roundMsgs| - 1] == s.queue[0]
  {
  }

  lemma {:induction false} RemoveMiddle(before: seq<Entry>, e: Entry, after: seq<Entry>)
    requires UniqueAddrs(before + [e] + after)
    ensures Remove(before + [e] + after, e.addr) == before + after
    ensures UniqueAddrs(before + after)
  {
    UniqueWithout(before, e, after);
    hide UniqueAddrs;
    var cs := before + [e] + after;
    if before == [] {
      assert cs == [e] + after && before + after == after;
    } else {
      assert cs[1..] == before[1..] + [e] + after && cs[0] == before[0];
      RemoveMiddle(before[1..], e, after);
      assert before + after == [before[0]] + (before[1..] + after);
    }
  }

  lemma UniqueWithout(before: seq<Entry>, e: Entry, after: seq<Entry>)
    requires UniqueAddrs(before + [e] + after)
    ensures UniqueAddrs(before + after)
    ensures before != [] ==> before[0].addr != e.addr && UniqueAddrs(before[1..] + [e] + after)
  {
    var cs, ds := before + [e] + after, before + after;
    assert forall i | 0 <= i < |ds| :: ds[i] == cs[if i < |before| then i else i + 1];
    if before != [] {
      var es := before[1..] + [e] + after;
      assert forall i | 0 <= i < |es| :: es[i] == cs[i + 1];
      assert cs[|before|] == e && cs[0] == before[0];
    }
  }

  lemma LiveNext(v: seq<Visit>, x: Visit)
    ensures Live(v + [x]) == Live(v) + if x.expired then [] else [x.entry]
    ensures Entries(v + [x]) == Entries(v) + [x.entry]
  {
    assert (v + [x])[..|v|] == v;
  }

  /** Deleting the expired client `rest[0]` leaves the live ones and the others. */
  lemma ExpireFirst(cs: seq<Entry>, v: seq<Visit>, rest: seq<Entry>, now: int)
    requires UniqueAddrs(cs) && cs == Live(v) + rest && rest != []
    ensures var w, cs' := v + [Visit(rest[0], true, now)], Remove(cs, rest[0].addr);
            cs' == Live(w) + rest[1..] && UniqueAddrs(cs') && Entries(w) + rest[1..] == Entries(v) + rest
  {
    LiveNext(v, Visit(rest[0], true, now));
    hide Live, Entries, Remove, UniqueAddrs;
    assert rest == [rest[0]] + rest[1..];
    assert cs == Live(v) + [rest[0]] + rest[1..];
    assert Live(v) + [] == Live(v);
    RemoveMiddle(Live(v), rest[0], rest[1..]);
  }

  lemma LoopClients(s: State, now: int)
    requires ClientsOk(s) && TEnabled(s, now) && s.tpc.TLoop?
    ensures ClientsOk(IterationNext(s, now))
  {
    hide Live, Entries, Remove, UniqueAddrs;
    if s.tpc.rest != [] {
      ExpireFirst(s.clients, s.visited, s.tpc.rest, now);
      assert s.tpc.rest == [s.tpc.rest[0]] + s.tpc.rest[1..];
    }
  }

  lemma SpawnClients(s: State, now: int)
    requires ClientsOk(s) && TEnabled(s, now) && s.tpc.TSpawn?
    ensures ClientsOk(IterationNext(s, now))
  {
    hide Live, Entries, UniqueAddrs;
    SpawnFirst(s.visited, s.tpc.el, s.tpc.rest, s.reading);
  }

  lemma SpawnFirst(v: seq<Visit>, el: Entry, rest: seq<Entry>, at: int)
    ensures var w := v + [Visit(el, false, at)];
            Live(w) + rest == Live(v) + ([el] + rest) && Entries(w) + rest == Entries(v) + ([el] + rest)
  {
    LiveNext(v, Visit(el, false, at));
  }

  lemma IterationClients(s: State, now: int)
    requires ClientsOk(s) && TEnabled(s, now) && Iterating(s.tpc)
    ensures ClientsOk(IterationNext(s, now))
  {
    hide Live, Entries, UniqueAddrs;
    if s.tpc.TLoop? {
      LoopClients(s, now);
    } else if s.tpc.TSpawn? {
      SpawnClients(s, now);
    }
  }

  lemma ClientsFrame(s: State, t: State)
    requires ClientsOk(s) && t.clients == s.clients && t.roundClients == s.roundClients && t.visited == s.visited
    requires Rest(t.tpc) == Rest(s.tpc) && (Iterating(t.tpc) ==> Iterating(s.tpc))
    ensures ClientsOk(t)
  {
  }

  lemma WaitClients(s: State, now: int)
    requires ClientsOk(s) && TEnabled(s, now) && Waiting(s.tpc)
    ensures ClientsOk(WaitNext(s, now))
  {
    hide ClientsOk;
    ClientsFrame(s, WaitNext(s, now));
  }

  lemma StartClients(s: State, now: int)
    requires ClientsOk(s) && TEnabled(s, now) && s.tpc.TInitSem?
    ensures ClientsOk(BetweenNext(s, now))
  {
    assert Live([]) == [] && Entries([]) == [];
    hide Live, Entries, UniqueAddrs;
    assert [] + s.clients == s.clients;
  }

  lemma BetweenClients(s: State, now: int)
    requires ClientsOk(s) && TEnabled(s, now) && !InRound(s.tpc)
    ensures ClientsOk(BetweenNext(s, now))
  {
    hide ClientsOk;
    if s.tpc.TInitSem? {
      StartClients(s, now);
    } else {
      ClientsFrame(s, BetweenNext(s, now));
    }
  }

  lemma SendClients(s: State, i: nat)
    requires ClientsOk(s) && SEnabled(s, i)
    ensures ClientsOk(SNext(s, i))
  {
    hide ClientsOk;
    ClientsFrame(s, SNext(s, i));
  }

  lemma AssignedFrame(s: State, t: State)
    requires AssignedOk(s) && t.senders == s.senders && t.base == s.base && t.roundMsgs == s.roundMsgs
    requires Live(t.visited) == Live(s.visited)
    ensures AssignedOk(t)
  {
  }

  lemma SpawnAssigned(s: State, now: int)
    requires AssignedOk(s) && TEnabled(s, now) && s.tpc.TSpawn?
    ensures AssignedOk(IterationNext(s, now))
  {
    hide Live;
    LiveNext(s.visited, Visit(s.tpc.el, false, s.reading));
  }

  lemma IterationAssigned(s: State, now: int)
    requires AssignedOk(s) && TEnabled(s, now) && Iterating(s.tpc)
    ensures AssignedOk(IterationNext(s, now))
  {
    hide AssignedOk, Live, Remove;
    if s.tpc.TSpawn? {
      SpawnAssigned(s, now);
    } else {
      if s.tpc.TLoop? && s.tpc.rest != [] {
        LiveNext(s.visited, Visit(s.tpc.rest[0], true, now));
        assert Live(s.visited) + [] == Live(s.visited);
      }
      AssignedFrame(s, IterationNext(s, now));
    }
  }

  lemma WaitAssigned(s: State, now: int)
    requires AssignedOk(s) && TEnabled(s, now) && Waiting(s.tpc)
    ensures AssignedOk(WaitNext(s, now))
  {
    hide AssignedOk, Live;
    AssignedFrame(s, WaitNext(s, now));
  }

  lemma BetweenAssigned(s: State, now: int)
    requires AssignedOk(s) && SendersOk(s) && TEnabled(s, now) && !InRound(s.tpc)
    ensures AssignedOk(BetweenNext(s, now))
  {
    assert Live([]) == [];
    hide Live;
  }

  lemma SendAssigned(s: State, i: nat)
    requires AssignedOk(s) && SEnabled(s, i)
    ensures AssignedOk(SNext(s, i))
  {
    hide Live;
  }

  lemma {:induction false} RefreshKeeps(cs: seq<Entry>, a: Addr, now: int)
    requires UniqueAddrs(cs)
    ensures UniqueAddrs(Refresh(cs, a, now))
    ensures forall x :: Has(Refresh(cs, a, now), x) <==> Has(cs, x) || x == a
  {
    var ds := Refresh(cs, a, now);
    if cs == [] {
      assert ds[0].addr == a;
    } else if cs[0].addr == a {
      forall x | Has(ds, x) || Has(cs, x) ensures Has(ds, x) && Has(cs, x) {
        var k :| 0 <= k < |cs| && (ds[k].addr == x || cs[k].addr == x);
        assert ds[k].addr == cs[k].addr;
      }
      assert cs[0].addr == a;
    } else {
      RefreshKeeps(cs[1..], a, now);
      HasCons(cs[0], cs[1..]);
      HasCons(cs[0], Refresh(cs[1..], a, now));
      assert cs == [cs[0]] + cs[1..];
      assert !Has(cs[1..], cs[0].addr);
      assert !Has(Refresh(cs[1..], a, now), cs[0].addr);
    }
  }

  lemma HasCons(e: Entry, cs: seq<Entry>)
    ensures forall x :: Has([e] + cs, x) <==> x == e.addr || Has(cs, x)
  {
    var ds := [e] + cs;
    forall x ensures Has(ds, x) <==> x == e.addr || Has(cs, x) {
      if Has(ds, x) {
        var k :| 0 <= k < |ds| && ds[k].addr == x;
        assert k > 0 ==> cs[k - 1].addr == x;
      }
      if Has(cs, x) {
        var k :| 0 <= k < |cs| && cs[k].addr == x;
        assert ds[k + 1].addr == x;
      }
      if x == e.addr {
        assert ds[0].addr == x;
      }
    }
  }

  /** While the map is held, an undone sender's client is among the live ones. */
  lemma InUseIterating(s: State)
    requires SendersOk(s) && ClientsOk(s) && AssignedOk(s) && Iterating(s.tpc)
    ensures InUseOk(s)
  {
    hide Live, Entries, UniqueAddrs;
    forall i | 0 <= i < |s.senders| && Undone(s.senders[i].pc) > 0 ensures Has(s.clients, s.senders[i].client) {
      assert s.clients[i - s.base].addr == s.senders[i].client;
    }
  }

  /** A step that deletes no client keeps the clients in use. */
  lemma InUseUnlocked(s: State, t: State)
    requires InUseOk(s) && |t.senders| == |s.senders|
    requires forall i | 0 <= i < |s.senders| ::
               t.senders[i].client == s.senders[i].client && Undone(t.senders[i].pc) <= Undone(s.senders[i].pc)
    requires forall x | Has(s.clients, x) :: Has(t.clients, x)
    ensures InUseOk(t)
  {
  }

  lemma TransmitInUse(s: State, now: int)
    requires InUseOk(s) && BarrierOk(s) && TEnabled(s, now)
    requires var t := TNext(s, now); SendersOk(t) && ClientsOk(t) && AssignedOk(t)
    ensures InUseOk(TNext(s, now))
  {
    hide Live, Entries, UniqueAddrs, Has, Sum, AssignedOk, ClientsOk, SendersOk, Remove;
    var t := TNext(s, now);
    if Iterating(t.tpc) {
      InUseIterating(t);
    } else {
      assert t.clients == s.clients && t.senders == s.senders;
      InUseUnlocked(s, t);
    }
  }

  lemma SendInUse(s: State, i: nat)
    requires InUseOk(s) && SEnabled(s, i)
    ensures InUseOk(SNext(s, i))
  {
    hide Has;
    InUseUnlocked(s, SNext(s, i));
  }

  lemma LoadKeys(s: State, file: nat, now: int)
    requires KeysOk(s) && now >= s.clock
    ensures KeysOk(s.(clock := now))
    ensures Enabled(s, Load(file, now)) ==> KeysOk(Step(s, Load(file, now)))
  {
  }

  lemma TransmitKeys(s: State, now: int)
    requires KeysOk(s) && TEnabled(s, now)
    ensures KeysOk(TNext(s, now))
  {
    hide Remove;
    KeysFrame(s, TNext(s, now));
  }

  lemma SendKeys(s: State, i: nat)
    requires KeysOk(s) && SEnabled(s, i)
    ensures KeysOk(SNext(s, i))
  {
    KeysFrame(s, SNext(s, i));
  }

  lemma TransmitInv(s: State, now: int)
    requires Inv(s) && TEnabled(s, now)
    ensures Inv(TNext(s, now))
  {
    hide SlotsOk, BarrierOk, MutexOk, WakeOk, QueueOk, SendersOk, ClientsOk, AssignedOk, InUseOk, KeysOk, TEnabled,
         IterationNext, WaitNext, BetweenNext;
    TransmitKeys(s, now);
    TransmitWake(s, now);
    if Iterating(s.tpc) {
      IterationBarrier(s, now);
      IterationMutex(s, now);
      IterationQueue(s, now);
      IterationSenders(s, now);
      IterationClients(s, now);
      IterationAssigned(s, now);
    } else if Waiting(s.tpc) {
      WaitBarrier(s, now);
      WaitMutex(s, now);
      WaitQueue(s, now);
      WaitSenders(s, now);
      WaitClients(s, now);
      WaitAssigned(s, now);
    } else {
      BetweenBarrier(s, now);
      BetweenMutex(s, now);
      BetweenQueue(s, now);
      BetweenSenders(s, now);
      BetweenClients(s, now);
      BetweenAssigned(s, now);
    }
    TransmitInUse(s, now);
  }

  lemma SendInv(s: State, i: nat)
    requires Inv(s) && SEnabled(s, i)
    ensures Inv(SNext(s, i))
  {
    hide SlotsOk, BarrierOk, MutexOk, WakeOk, QueueOk, SendersOk, ClientsOk, AssignedOk, InUseOk, KeysOk, SEnabled,
        SNext;
    SendSlots(s, i);
    SendBarrier(s, i);
    SendMutex(s, i);
    SendWake(s, i);
    SendQueue(s, i);
    SendSenders(s, i);
    SendClients(s, i);
    SendAssigned(s, i);
    SendInUse(s, i);
    SendKeys(s, i);
  }

  lemma SubscribeInv(s: State, addr: Addr, now: int)
    requires Inv(s) && Enabled(s, Subscribe(addr, now))
    ensures Inv(Step(s, Subscribe(addr, now)))
  {
    hide Refresh, Sum, Live, Entries, UniqueAddrs, Has, SendersOk, AssignedOk, KeysOk;
    var t := Step(s, Subscribe(addr, now));
    RefreshKeeps(s.clients, addr, now);
    InUseUnlocked(s, t);
    SendersFrame(s, t);
    AssignedFrame(s, t);
    KeysFrame(s, t);
  }

  /** Waking the transmitter changes nothing but its own place in the wait. */
  lemma WakeIsHarmless(p: TPc)
    ensures var q := Announced(Signalled(p));
            && (InRound(q) == InRound(p)) && (Iterating(q) == Iterating(p)) && Unvisited(q) == Unvisited(p)
            && TransmitterHoldsDone(q) == TransmitterHoldsDone(p) && QueueHeldAt(q) == QueueHeldAt(p)
            && InTransfer(q) == InTransfer(p) && Rest(q) == Rest(p)
            && q != TWaitQueue && q != TSleepDone
            && (p == TWaitQueue || p == TSleepDone || q == p)
            && (p != TSleepDone ==> Announced(p) == q)
            && (p == TWaitQueue || p == TSleepDone ==> q == TWokenQueue || q == TWoken)
  {
  }

  lemma AnnouncedIsHarmless(p: TPc)
    ensures Announced(p) == p || (p == TWaitQueue && Announced(p) == TWokenQueue)
  {
  }

  lemma LoadInv(s: State, file: nat, now: int)
    requires Inv(s) && Enabled(s, Load(file, now))
    ensures Inv(Step(s, Load(file, now)))
  {
    hide KeysOk, Sum, Live, Entries, UniqueAddrs, Has, AssignedOk, SendersOk, ClientsOk, Unvisited, Rest, Announced;
    LoadKeys(s, file, now);
    AnnouncedIsHarmless(s.tpc);
    WakeIsHarmless(s.tpc);
    InUseUnlocked(s, Step(s, Load(file, now)));
    LoadFrames(s, file, now);
  }

  lemma LoadFrames(s: State, file: nat, now: int)
    requires AssignedOk(s) && SendersOk(s) && ClientsOk(s) && Enabled(s, Load(file, now))
    ensures var t := Step(s, Load(file, now)); AssignedOk(t) && SendersOk(t) && ClientsOk(t)
  {
    hide AssignedOk, ClientsOk, Announced, Rest;
    var t := Step(s, Load(file, now));
    WakeIsHarmless(s.tpc);
    AnnouncedIsHarmless(s.tpc);
    AssignedFrame(s, t);
    ClientsFrame(s, t);
  }

  lemma SpuriousInv(s: State)
    requires Inv(s) && Enabled(s, SpuriousWake)
    ensures Inv(Step(s, SpuriousWake))
  {
    hide KeysOk, Sum, Live, Entries, UniqueAddrs, Has, AssignedOk, ClientsOk, Unvisited, Rest, Announced, Signalled;
    var t := Step(s, SpuriousWake);
    WakeIsHarmless(s.tpc);
    InUseUnlocked(s, t);
    KeysFrame(s, t);
    AssignedFrame(s, t);
    ClientsFrame(s, t);
  }

  lemma KeysFrame(s: State, t: State)
    requires KeysOk(s) && t.loaded == s.loaded && t.lastTime == s.lastTime && t.lastId == s.lastId && t.clock >= s.clock
    ensures KeysOk(t)
  {
  }

  /** Every step of every thread keeps the invariant. */
  lemma StepInv(s: State, a: Action)
    requires Inv(s) && Enabled(s, a)
    ensures Inv(Step(s, a))
  {
    hide Inv;
    match a
    case Transmit(now) => TransmitInv(s, now);
    case Send(i) => SendInv(s, i);
    case SpuriousWake => SpuriousInv(s);
    case Subscribe(addr, now) => SubscribeInv(s, addr, now);
    case Load(file, now) => LoadInv(s, file, now);
  }

  lemma InitialInv(s: State)
    requires Initial(s)
    ensures Inv(s)
  {
  }
}
