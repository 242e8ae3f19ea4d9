/** The client's subscription scheduler as a step system: one dispatcher for each of two
    priority queues, sender threads bounded by a semaphore, and responses at any time. */
module Scheduler {
  import opened HeapModel

  const MAX_ACTIVE_REQUESTS := 3
  const MAX_NOT_CONNECT_COUNT := 3
  const NEXT_CONNECT_ATTEMPT_TIME := 30
  const SUBSCR_EXPIRE_TIME := 5

  type Id = nat

  datatype ServerState = SendReq | Resp | Wait | Subscr

  /** The text last received from a server: none, an acceptance, or anything else. */
  datatype Response = Nothing | Accept | Other

  datatype Server = Server(state: ServerState, notConnectCount: nat, lastAttempt: int, response: Response)

  /** Fewer failed attempts first, then the one whose last attempt is longer ago. */
  predicate ConnectSooner(first: Server, second: Server) {
    if first.notConnectCount < second.notConnectCount then true
    else if first.notConnectCount == second.notConnectCount then first.lastAttempt <= second.lastAttempt
    else false
  }

  /** The comparator of both queues. */
  function Sooner(servers: seq<Server>): Greater<Id> {
    (a: Id, b: Id) => a < |servers| && b < |servers| && ConnectSooner(servers[a], servers[b])
  }

  /** A dispatcher, from taking its queue's mutex to creating a sender. */
  datatype DPc =
    | DLock
    | DCheck                            // holds the mutex, is the queue empty?
    | DWaitEmpty                        // asleep until a server comes, mutex released
    | DWoken
    | DFirst                            // holds the mutex, before looking at the first server
    | DTest(server: Id, wait: bool)     // at the condition of the timed wait
    | DTimedWait                        // mutex released
    | DRefetch(wait: bool)              // holds the mutex again, before looking at the first server again
    | DPop(server: Id)
    | DMark(server: Id)                 // popped, before the change of state
    | DUnlock(server: Id)
    | DAcquire(server: Id)              // mutex released, before taking a request slot
    | DSpawn(server: Id)

  /** A queue with its mutex and its dispatcher. */
  datatype Lane = Lane(queue: seq<Id>, held: bool, pc: DPc)

  datatype Kind = NotSubscribed | Subscribed

  /** A sender thread, from sending its request to its end. */
  datatype SPc =
    | RSend                    // before sendto
    | RCheck(sendTime: int)    // before testing for a response
    | RSleep(sendTime: int)    // timed wait for the response
    | RReply                   // has a response, before evaluating it
    | RDecide                  // before choosing the queue
    | RPush(kind: Kind)        // before pushing the server
    | RPost                    // before giving the request slot back
    | REnd

  datatype Sender = Sender(pc: SPc, server: Id)

  datatype State = State(
    servers: seq<Server>,
    waiting: Lane,             // not subscribed servers, subscription_thread
    subscribed: Lane,          // subscribed servers, update_thread
    slots: int,                // semaphore
    senders: seq<Sender>)      // all sender threads ever created

  function Ids(n: nat): (s: seq<Id>)
    ensures |s| == n && forall i | 0 <= i < n :: s[i] == i
  {
    if n == 0 then [] else Ids(n - 1) + [n - 1]
  }

  /** All servers are in the first queue, built as a heap; responses may have come already. */
  ghost predicate Initial(s: State) {
    && (forall x | 0 <= x < |s.servers| ::
          s.servers[x].state == SendReq || (s.servers[x].state == Resp && s.servers[x].response != Nothing))
    && s.waiting == Lane(Build(Ids(|s.servers|), Sooner(s.servers)), false, DLock)
    && s.subscribed == Lane([], false, DLock)
    && s.slots == MAX_ACTIVE_REQUESTS && s.senders == []
  }

  // ----- dispatchers

  /** Whether the dispatcher still has to wait for the first server of its queue. */
  predicate NotDue(x: Server, kind: Kind, now: int) {
    match kind
    case NotSubscribed => x.state != SendReq && (x.state != Wait || x.lastAttempt + NEXT_CONNECT_ATTEMPT_TIME > now)
    case Subscribed => x.lastAttempt + SUBSCR_EXPIRE_TIME > now
  }

  /** Looking at the first server of an empty queue would be a crash; here it is a step that is
      never enabled. */
  predicate LaneEnabled(l: Lane, n: nat, slots: int) {
    match l.pc
    case DWaitEmpty => false
    case DFirst => l.queue != []
    case DRefetch(_) => l.queue != []
    case DTest(x, _) => x < n
    case DPop(_) => l.queue != []
    case DMark(x) => x < n
    case DAcquire(_) => slots > 0
    case _ => true
  }

  /** A broadcast wakes the dispatcher if it waits for a server. A timed wait ends anyway. */
  function Announced(pc: DPc): DPc {
    if pc == DWaitEmpty then DWoken else pc
  }

  /** One step of a dispatcher, as far as its lane goes. A timed wait may end by a timeout, a
      signal, or for no reason. */
  function LaneNext(l: Lane, servers: seq<Server>, kind: Kind, now: int, timedOut: bool, slots: int): Lane
    requires LaneEnabled(l, |servers|, slots)
  {
    match l.pc
    case DLock => l.(pc := DCheck, held := true)
    case DCheck => if l.queue == [] then l.(pc := DWaitEmpty, held := false) else l.(pc := DFirst)
    case DWoken => l.(pc := DCheck, held := true)
    case DFirst => l.(pc := DTest(l.queue[0], true))
    case DTest(x, wait) =>
      if wait && NotDue(servers[x], kind, now) then l.(pc := DTimedWait, held := false) else l.(pc := DPop(x))
    case DTimedWait => l.(pc := DRefetch(!timedOut), held := true)
    case DRefetch(wait) => l.(pc := DTest(l.queue[0], wait))
    case DPop(x) => l.(pc := DMark(x), queue := Pop(l.queue, Sooner(servers)))
    case DMark(x) => l.(pc := DUnlock(x))
    case DUnlock(x) => l.(pc := DAcquire(x), held := false)
    case DAcquire(x) => l.(pc := DSpawn(x))
    case DSpawn(x) => l.(pc := DLock)
  }

  function LaneOf(s: State, kind: Kind): Lane {
    if kind == NotSubscribed then s.waiting else s.subscribed
  }

  function WithLane(s: State, kind: Kind, l: Lane): State {
    if kind == NotSubscribed then s.(waiting := l) else s.(subscribed := l)
  }

  function DNext(s: State, kind: Kind, now: int, timedOut: bool): State
    requires LaneEnabled(LaneOf(s, kind), |s.servers|, s.slots)
  {
    var l := LaneOf(s, kind);
    var t := WithLane(s, kind, LaneNext(l, s.servers, kind, now, timedOut, s.slots));
    match l.pc
    case DMark(x) =>
      if kind == NotSubscribed then t.(servers := s.servers[x := s.servers[x].(state := SendReq)]) else t
    case DAcquire(_) => t.(slots := s.slots - 1)
    case DSpawn(x) => t.(senders := s.senders + [Sender(RSend, x)])
    case _ => t
  }

  // ----- senders

  predicate SEnabled(s: State, i: nat) {
    i < |s.senders| && s.senders[i].server < |s.servers| &&
    match s.senders[i].pc
    case RPush(kind) => !LaneOf(s, kind).held
    case REnd => false
    case _ => true
  }

  /** The server after a failed wait for its response. */
  function NotResponding(x: Server, sendTime: int): Server {
    var count := x.notConnectCount + 1;
    x.(lastAttempt := sendTime, notConnectCount := count,
       state := if count % MAX_NOT_CONNECT_COUNT == 0 then Wait else x.state)
  }

  function At(s: State, i: nat, pc: SPc): State
    requires i < |s.senders|
  {
    s.(senders := s.senders[i := s.senders[i].(pc := pc)])
  }

  function WithServer(s: State, x: Id, v: Server): State
    requires x < |s.servers|
  {
    s.(servers := s.servers[x := v])
  }

  /** One step of sender `i`; `ok` is whether sendto succeeds or the timed wait times out. */
  function SNext(s: State, i: nat, now: int, ok: bool): State
    requires SEnabled(s, i)
  {
    var x := s.senders[i].server;
    var v := s.servers[x];
    match s.senders[i].pc
    case RSend => At(s, i, if ok then RCheck(now) else RDecide)
    case RCheck(sendTime) =>
      if v.state != Resp then At(s, i, RSleep(sendTime))
      else WithServer(At(s, i, RReply), x, v.(lastAttempt := now, notConnectCount := 0))
    case RSleep(sendTime) =>
      if ok then WithServer(At(s, i, RDecide), x, NotResponding(v, sendTime))
      else At(s, i, RCheck(sendTime))
    case RReply =>
      WithServer(At(s, i, RDecide), x, v.(state := if v.response == Accept then Subscr else Wait, response := Nothing))
    case RDecide => At(s, i, RPush(if v.state == Subscr then Subscribed else NotSubscribed))
    case RPush(kind) =>
      var l := LaneOf(s, kind);
      WithLane(At(s, i, RPost), kind, l.(queue := Push(l.queue, x, Sooner(s.servers)), pc := Announced(l.pc)))
    case RPost => At(s, i, REnd).(slots := s.slots + 1)
  }

  // ----- all steps

  datatype Action =
    | Dispatch(kind: Kind, now: int, timedOut: bool)
    | Send(i: nat, now: int, ok: bool)
    | Receive(server: Id, response: Response)
    | SpuriousWake(kind: Kind)

  predicate Enabled(s: State, a: Action) {
    match a
    case Dispatch(kind, _, _) => LaneEnabled(LaneOf(s, kind), |s.servers|, s.slots)
    case Send(i, _, _) => SEnabled(s, i)
    case Receive(x, r) => x < |s.servers| && r != Nothing
    case SpuriousWake(kind) => LaneOf(s, kind).pc == DWaitEmpty
  }

  function Step(s: State, a: Action): State
    requires Enabled(s, a)
  {
    match a
    case Dispatch(kind, now, timedOut) => DNext(s, kind, now, timedOut)
    case Send(i, now, ok) => SNext(s, i, now, ok)
    case Receive(x, r) => WithServer(s, x, s.servers[x].(state := Resp, response := r))
    case SpuriousWake(kind) => WithLane(s, kind, LaneOf(s, kind).(pc := DWoken))
  }
}
