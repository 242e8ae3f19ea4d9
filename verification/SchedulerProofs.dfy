/** Invariants of the subscription scheduler. */
module SchedulerProofs {
  import opened HeapModel
  import opened Orders
  import opened Scheduler

  // ----- ownership

  /** Whether a dispatcher holds a server, between popping it and creating its sender. */
  predicate Carries(pc: DPc) {
    pc.DMark? || pc.DUnlock? || pc.DAcquire? || pc.DSpawn?
  }

  function InHand(pc: DPc, x: Id): nat {
    if Carries(pc) && pc.server == x then 1 else 0
  }

  predicate Holds(pc: SPc) {
    !pc.RPost? && !pc.REnd?
  }

  function HeldOne(s: Sender, x: Id): nat {
    if Holds(s.pc) && s.server == x then 1 else 0
  }

  /** How many sender threads hold `x`. */
  function Held(ss: seq<Sender>, x: Id): nat {
    if ss == [] then 0 else Held(ss[..|ss| - 1], x) + HeldOne(ss[|ss| - 1], x)
  }

  lemma {:induction false} HeldUpdate(ss: seq<Sender>, i: nat, y: Sender, x: Id)
    requires i < |ss|
    ensures Held(ss[i := y], x) + HeldOne(ss[i], x) == Held(ss, x) + HeldOne(y, x)
  {
    var n := |ss| - 1;
    var t := ss[i := y];
    if i == n {
      assert t[..n] == ss[..n];
    } else {
      assert t[..n] == ss[..n][i := y];
      HeldUpdate(ss[..n], i, y, x);
    }
  }

  lemma HeldAppend(ss: seq<Sender>, y: Sender, x: Id)
    ensures Held(ss + [y], x) == Held(ss, x) + HeldOne(y, x)
  {
    assert (ss + [y])[..|ss|] == ss;
  }

  lemma {:induction false} HeldAtLeast(ss: seq<Sender>, i: nat)
    requires i < |ss| && Holds(ss[i].pc)
    ensures Held(ss, ss[i].server) >= 1
  {
    if i < |ss| - 1 {
      HeldAtLeast(ss[..|ss| - 1], i);
    }
  }

  lemma {:induction false} HeldTwice(ss: seq<Sender>, i: nat, j: nat)
    requires i < j < |ss| && Holds(ss[i].pc) && Holds(ss[j].pc) && ss[i].server == ss[j].server
    ensures Held(ss, ss[i].server) >= 2
  {
    var n := |ss| - 1;
    if j == n {
      HeldAtLeast(ss[..n], i);
    } else {
      HeldTwice(ss[..n], i, j);
    }
  }

  function Queued(q: seq<Id>, x: Id): nat {
    multiset(q)[x]
  }

  lemma QueuedIn(q: seq<Id>, x: Id)
    ensures Queued(q, x) > 0 <==> x in q
  {
  }

  /** In how many places server `x` is: the queues, the dispatchers' hands, the senders. */
  function Places(s: State, x: Id): nat {
    Queued(s.waiting.queue, x) + Queued(s.subscribed.queue, x) + InHand(s.waiting.pc, x) + InHand(s.subscribed.pc, x)
    + Held(s.senders, x)
  }

  /** Every server is in exactly one place, and nothing else is anywhere. */
  ghost predicate OwnedOk(s: State) {
    forall x: Id :: Places(s, x) == if x < |s.servers| then 1 else 0
  }

  /** What a sender holds is nowhere else. */
  lemma HeldIsElsewhere(s: State, i: nat)
    requires OwnedOk(s) && i < |s.senders| && Holds(s.senders[i].pc)
    ensures var x := s.senders[i].server;
            x < |s.servers| && x !in s.waiting.queue && x !in s.subscribed.queue
            && InHand(s.waiting.pc, x) == InHand(s.subscribed.pc, x) == 0
    ensures forall j | 0 <= j < |s.senders| && j != i && Holds(s.senders[j].pc) ::
              s.senders[j].server != s.senders[i].server
  {
    hide Held, InHand, Holds, Queued;
    var x := s.senders[i].server;
    assert Places(s, x) <= 1;
    HeldAtLeast(s.senders, i);
    QueuedIn(s.waiting.queue, x);
    QueuedIn(s.subscribed.queue, x);
    forall j | 0 <= j < |s.senders| && j != i && Holds(s.senders[j].pc) ensures s.senders[j].server != x {
      if s.senders[j].server == x {
        HeldTwice(s.senders, if i < j then i else j, if i < j then j else i);
      }
    }
  }

  /** What the first dispatcher holds is nowhere else. */
  lemma InHandIsElsewhere(s: State, x: Id)
    requires OwnedOk(s) && InHand(s.waiting.pc, x) == 1
    ensures x < |s.servers| && x !in s.waiting.queue && x !in s.subscribed.queue
    ensures forall j | 0 <= j < |s.senders| && Holds(s.senders[j].pc) :: s.senders[j].server != x
  {
    hide Held, Holds, Queued;
    assert Places(s, x) <= 1;
    QueuedIn(s.waiting.queue, x);
    QueuedIn(s.subscribed.queue, x);
    forall j | 0 <= j < |s.senders| && Holds(s.senders[j].pc) ensures s.senders[j].server != x {
      HeldAtLeast(s.senders, j);
    }
  }

  lemma QueuedIsServer(s: State, x: Id)
    requires OwnedOk(s) && (x in s.waiting.queue || x in s.subscribed.queue)
    ensures x < |s.servers|
  {
    QueuedIn(s.waiting.queue, x);
    QueuedIn(s.subscribed.queue, x);
    assert Places(s, x) > 0;
  }

  // ----- lanes

  predicate HoldsMutex(pc: DPc) {
    pc.DCheck? || pc.DFirst? || pc.DTest? || pc.DRefetch? || pc.DPop? || pc.DMark? || pc.DUnlock?
  }

  /** Once the dispatcher has seen a server in its queue, the queue stays nonempty until it
      pops; and what it is about to pop is the first one. */
  predicate LaneOk(l: Lane) {
    && (l.held <==> HoldsMutex(l.pc)) && (l.pc.DWaitEmpty? ==> l.queue == [])
    && (l.pc.DFirst? || l.pc.DTest? || l.pc.DTimedWait? || l.pc.DRefetch? || l.pc.DPop? ==> l.queue != [])
    && (l.pc.DTest? || l.pc.DPop? ==> l.pc.server == l.queue[0])
  }

  lemma LaneKept(l: Lane, servers: seq<Server>, kind: Kind, now: int, timedOut: bool, slots: int)
    requires LaneOk(l) && LaneEnabled(l, |servers|, slots)
    ensures LaneOk(LaneNext(l, servers, kind, now, timedOut, slots))
  {
    hide Pop, NotDue;
  }

  lemma PopQueued(q: seq<Id>, g: Greater<Id>, x: Id)
    requires q != []
    ensures Queued(q, x) == (if q[0] == x then 1 else 0) + Queued(Pop(q, g), x)
  {
    hide Pop;
    PopMembers(q, g);
  }

  lemma PushQueued(q: seq<Id>, g: Greater<Id>, y: Id, x: Id)
    ensures Queued(Push(q, y, g), x) == Queued(q, x) + if y == x then 1 else 0
  {
    hide Push;
    PushMembers(q, y, g);
  }

  lemma LaneOwned(l: Lane, servers: seq<Server>, kind: Kind, now: int, timedOut: bool, slots: int, x: Id)
    requires LaneOk(l) && LaneEnabled(l, |servers|, slots)
    ensures var m := LaneNext(l, servers, kind, now, timedOut, slots);
            Queued(m.queue, x) + InHand(m.pc, x)
            == Queued(l.queue, x) + InHand(l.pc, x) - if l.pc.DSpawn? && l.pc.server == x then 1 else 0
  {
    hide Pop, NotDue, Queued;
    if l.pc.DPop? {
      PopQueued(l.queue, Sooner(servers), x);
    }
  }

  lemma SpawnOwned(s: State, kind: Kind, now: int, timedOut: bool, x: Id)
    requires LaneOk(LaneOf(s, kind)) && LaneEnabled(LaneOf(s, kind), |s.servers|, s.slots) && LaneOf(s, kind).pc.DSpawn?
    ensures Places(DNext(s, kind, now, timedOut), x) == Places(s, x)
  {
    hide Held, Queued, Holds;
    HeldAppend(s.senders, Sender(RSend, LaneOf(s, kind).pc.server), x);
    assert Holds(RSend) by {
      SendHolds();
    }
  }

  lemma SendHolds()
    ensures Holds(RSend)
  {
  }

  lemma OtherDispatchOwned(s: State, kind: Kind, now: int, timedOut: bool, x: Id)
    requires LaneOk(LaneOf(s, kind)) && LaneEnabled(LaneOf(s, kind), |s.servers|, s.slots)
        && !LaneOf(s, kind).pc.DSpawn?
    ensures Places(DNext(s, kind, now, timedOut), x) == Places(s, x)
  {
    hide Held, LaneNext, InHand, LaneOk, Queued;
    LaneOwned(LaneOf(s, kind), s.servers, kind, now, timedOut, s.slots, x);
  }

  lemma DispatchOwned(s: State, kind: Kind, now: int, timedOut: bool)
    requires OwnedOk(s) && LaneOk(LaneOf(s, kind)) && LaneEnabled(LaneOf(s, kind), |s.servers|, s.slots)
    ensures OwnedOk(DNext(s, kind, now, timedOut))
  {
    var t := DNext(s, kind, now, timedOut);
    assert |t.servers| == |s.servers|;
    forall x: Id ensures Places(t, x) == if x < |t.servers| then 1 else 0 {
      hide Places, DNext, LaneOk, LaneEnabled;
      assert Places(s, x) == if x < |s.servers| then 1 else 0;
      if LaneOf(s, kind).pc.DSpawn? {
        SpawnOwned(s, kind, now, timedOut, x);
      } else {
        OtherDispatchOwned(s, kind, now, timedOut, x);
      }
    }
  }

  lemma AnnouncedHands(pc: DPc, x: Id)
    ensures InHand(Announced(pc), x) == InHand(pc, x)
  {
  }

  lemma PushOwned(s: State, i: nat, now: int, ok: bool, x: Id)
    requires SEnabled(s, i) && s.senders[i].pc.RPush?
    ensures Places(SNext(s, i, now, ok), x) == Places(s, x)
  {
    hide Held, InHand, Queued, Push, Announced;
    HeldUpdate(s.senders, i, SNext(s, i, now, ok).senders[i], x);
    AnnouncedHands(LaneOf(s, s.senders[i].pc.kind).pc, x);
    PushQueued(LaneOf(s, s.senders[i].pc.kind).queue, Sooner(s.servers), s.senders[i].server, x);
  }

  lemma OtherSendOwned(s: State, i: nat, now: int, ok: bool, x: Id)
    requires SEnabled(s, i) && !s.senders[i].pc.RPush?
    ensures Places(SNext(s, i, now, ok), x) == Places(s, x)
  {
    hide Held, InHand, Queued, NotResponding;
    HeldUpdate(s.senders, i, SNext(s, i, now, ok).senders[i], x);
  }

  lemma SendOwned(s: State, i: nat, now: int, ok: bool)
    requires OwnedOk(s) && SEnabled(s, i)
    ensures OwnedOk(SNext(s, i, now, ok))
  {
    var t := SNext(s, i, now, ok);
    assert |t.servers| == |s.servers|;
    forall x: Id ensures Places(t, x) == if x < |t.servers| then 1 else 0 {
      hide Places, SNext;
      assert Places(s, x) == if x < |s.servers| then 1 else 0;
      if s.senders[i].pc.RPush? {
        PushOwned(s, i, now, ok, x);
      } else {
        OtherSendOwned(s, i, now, ok, x);
      }
    }
  }

  lemma SendLanes(s: State, i: nat, now: int, ok: bool)
    requires LaneOk(s.waiting) && LaneOk(s.subscribed) && SEnabled(s, i)
    ensures var t := SNext(s, i, now, ok); LaneOk(t.waiting) && LaneOk(t.subscribed)
  {
    hide Push, NotResponding;
  }

  lemma DispatchLanes(s: State, kind: Kind, now: int, timedOut: bool)
    requires LaneOk(s.waiting) && LaneOk(s.subscribed) && LaneEnabled(LaneOf(s, kind), |s.servers|, s.slots)
    ensures var t := DNext(s, kind, now, timedOut); LaneOk(t.waiting) && LaneOk(t.subscribed)
  {
    LaneKept(LaneOf(s, kind), s.servers, kind, now, timedOut, s.slots);
    hide LaneOk, LaneNext;
  }

  // ----- request slots

  function Running(ss: seq<Sender>): nat {
    if ss == [] then 0 else Running(ss[..|ss| - 1]) + if ss[|ss| - 1].pc.REnd? then 0 else 1
  }

  lemma {:induction false} RunningUpdate(ss: seq<Sender>, i: nat, y: Sender)
    requires i < |ss|
    ensures Running(ss[i := y]) + (if ss[i].pc.REnd? then 0 else 1) == Running(ss) + if y.pc.REnd? then 0 else 1
  {
    var n := |ss| - 1;
    var t := ss[i := y];
    if i == n {
      assert t[..n] == ss[..n];
    } else {
      assert t[..n] == ss[..n][i := y];
      RunningUpdate(ss[..n], i, y);
    }
  }

  lemma RunningAppend(ss: seq<Sender>, y: Sender)
    ensures Running(ss + [y]) == Running(ss) + if y.pc.REnd? then 0 else 1
  {
    assert (ss + [y])[..|ss|] == ss;
  }

  function Taken(l: Lane): nat {
    if l.pc.DSpawn? then 1 else 0
  }

  /** Free slots, running senders, and slots taken for senders to be created. */
  predicate SlotsOk(s: State) {
    s.slots >= 0 && s.slots + Running(s.senders) + Taken(s.waiting) + Taken(s.subscribed) == MAX_ACTIVE_REQUESTS
  }

  lemma DispatchSlots(s: State, kind: Kind, now: int, timedOut: bool)
    requires SlotsOk(s) && LaneEnabled(LaneOf(s, kind), |s.servers|, s.slots)
    ensures SlotsOk(DNext(s, kind, now, timedOut))
  {
    hide Running, Pop, NotDue;
    if LaneOf(s, kind).pc.DSpawn? {
      RunningAppend(s.senders, Sender(RSend, LaneOf(s, kind).pc.server));
    }
  }

  lemma SendSlots(s: State, i: nat, now: int, ok: bool)
    requires SlotsOk(s) && SEnabled(s, i)
    ensures SlotsOk(SNext(s, i, now, ok))
  {
    hide Running, Push, NotResponding;
    RunningUpdate(s.senders, i, SNext(s, i, now, ok).senders[i]);
  }

  // ----- the queues are heaps

  ghost function AllIds(n: nat): (S: set<Id>)
    ensures forall x: Id :: x in S <==> x < n
  {
    if n == 0 then {} else AllIds(n - 1) + {n - 1}
  }

  predicate SameKey(a: Server, b: Server) {
    a.notConnectCount == b.notConnectCount && a.lastAttempt == b.lastAttempt
  }

  /** The comparator is itself a total preorder on the servers. */
  /** The comparator is the lexicographic order of count and time, a total preorder. */
  lemma SoonerIsPreorder(servers: seq<Server>)
    ensures Realizes(Sooner(servers), Sooner(servers), AllIds(|servers|))
    ensures forall a: Id, b: Id | a < |servers| && b < |servers| ::
              Sooner(servers)(a, b) <==>
                servers[a].notConnectCount < servers[b].notConnectCount
                || (servers[a].notConnectCount == servers[b].notConnectCount
                    && servers[a].lastAttempt <= servers[b].lastAttempt)
  {
  }

  predicate Members(q: seq<Id>, n: nat) {
    forall i | 0 <= i < |q| :: q[i] < n
  }

  ghost predicate QueueOk(q: seq<Id>, servers: seq<Server>) {
    Members(q, |servers|) && Heap(q, Sooner(servers))
  }

  ghost predicate HeapsOk(s: State) {
    QueueOk(s.waiting.queue, s.servers) && QueueOk(s.subscribed.queue, s.servers)
  }

  /** A queue stays a heap when the keys of its servers do not change. */
  lemma HeapFrame(q: seq<Id>, before: seq<Server>, after: seq<Server>)
    requires QueueOk(q, before) && |after| == |before|
    requires forall i | 0 <= i < |q| :: q[i] < |before| ==> SameKey(before[q[i]], after[q[i]])
    ensures QueueOk(q, after)
  {
    forall p: nat ensures EdgesOk(q, p, Sooner(after)) {
      assert EdgesOk(q, p, Sooner(before));
    }
  }

  lemma PopQueue(q: seq<Id>, servers: seq<Server>)
    requires QueueOk(q, servers)
    ensures QueueOk(Pop(q, Sooner(servers)), servers)
  {
    SoonerIsPreorder(servers);
    PopHeap(q, Sooner(servers), Sooner(servers), AllIds(|servers|));
    if q != [] {
      PopMembers(q, Sooner(servers));
      WithinSame(q, Pop(q, Sooner(servers)), AllIds(|servers|));
    }
  }

  lemma PushQueue(q: seq<Id>, servers: seq<Server>, x: Id)
    requires QueueOk(q, servers) && x < |servers|
    ensures QueueOk(Push(q, x, Sooner(servers)), servers)
  {
    SoonerIsPreorder(servers);
    PushHeap(q, x, Sooner(servers), Sooner(servers), AllIds(|servers|));
    PushMembers(q, x, Sooner(servers));
    WithinSame(q + [x], Push(q, x, Sooner(servers)), AllIds(|servers|));
  }

  /** One server, outside both queues or with its key unchanged, may change. */
  lemma ServerHeaps(s: State, x: Id, v: Server)
    requires HeapsOk(s) && x < |s.servers|
    requires SameKey(s.servers[x], v) || (x !in s.waiting.queue && x !in s.subscribed.queue)
    ensures HeapsOk(WithServer(s, x, v))
  {
    HeapFrame(s.waiting.queue, s.servers, s.servers[x := v]);
    HeapFrame(s.subscribed.queue, s.servers, s.servers[x := v]);
  }

  lemma DispatchHeaps(s: State, kind: Kind, now: int, timedOut: bool)
    requires HeapsOk(s) && LaneEnabled(LaneOf(s, kind), |s.servers|, s.slots)
    ensures HeapsOk(DNext(s, kind, now, timedOut))
  {
    hide QueueOk, Pop, NotDue;
    var l := LaneOf(s, kind);
    if l.pc.DPop? {
      PopQueue(l.queue, s.servers);
    } else if l.pc.DMark? {
      ServerHeaps(s, l.pc.server, s.servers[l.pc.server].(state := SendReq));
    }
  }

  lemma SendHeaps(s: State, i: nat, now: int, ok: bool)
    requires HeapsOk(s) && OwnedOk(s) && SEnabled(s, i)
    ensures HeapsOk(SNext(s, i, now, ok))
  {
    hide QueueOk, Push, NotResponding, OwnedOk;
    var x, t := s.senders[i].server, SNext(s, i, now, ok);
    if s.senders[i].pc.RPush? {
      PushQueue(LaneOf(s, s.senders[i].pc.kind).queue, s.servers, x);
    } else if Holds(s.senders[i].pc) {
      HeldIsElsewhere(s, i);
      ServerHeaps(s, x, t.servers[x]);
      assert t.servers == s.servers[x := t.servers[x]];
    }
  }

  // ----- subscription states

  /** What a server may be while it is in a queue, or about to be pushed into it. */
  predicate MayQueue(v: Server, kind: Kind) {
    match kind
    case NotSubscribed => v.state != Subscr
    case Subscribed => v.state == Subscr || v.state == Resp
  }

  predicate QueueTags(q: seq<Id>, servers: seq<Server>, kind: Kind) {
    forall x | x in q && x < |servers| :: MayQueue(servers[x], kind)
  }

  predicate SenderTags(ss: seq<Sender>, servers: seq<Server>) {
    forall i | 0 <= i < |ss| && ss[i].pc.RPush? && ss[i].server < |servers| ::
      MayQueue(servers[ss[i].server], ss[i].pc.kind)
  }

  /** The first queue never holds a subscribed server; the second one holds subscribed servers
      only, some of which have a response waiting. */
  predicate TagsOk(s: State) {
    && QueueTags(s.waiting.queue, s.servers, NotSubscribed)
    && QueueTags(s.subscribed.queue, s.servers, Subscribed)
    && SenderTags(s.senders, s.servers)
  }

  /** A server that is in no queue and is not about to be pushed may become anything. */
  lemma FreeServerTags(s: State, x: Id, v: Server)
    requires TagsOk(s) && x < |s.servers|
    requires x !in s.waiting.queue && x !in s.subscribed.queue
    requires forall j | 0 <= j < |s.senders| && s.senders[j].pc.RPush? :: s.senders[j].server != x
    ensures TagsOk(WithServer(s, x, v))
  {
  }

  /** A response may come for any server at any time. */
  lemma ResponseTags(s: State, x: Id, v: Server)
    requires TagsOk(s) && x < |s.servers| && v.state == Resp
    ensures TagsOk(WithServer(s, x, v))
  {
  }

  lemma PopTags(q: seq<Id>, g: Greater<Id>, servers: seq<Server>, kind: Kind)
    requires QueueTags(q, servers, kind)
    ensures QueueTags(Pop(q, g), servers, kind)
  {
    if q != [] {
      PopMembers(q, g);
      hide Pop;
      forall x | x in Pop(q, g) ensures x in q {
        assert x in multiset(Pop(q, g));
        assert x in multiset(q);
      }
    }
  }

  lemma PushTags(q: seq<Id>, g: Greater<Id>, y: Id, servers: seq<Server>, kind: Kind)
    requires QueueTags(q, servers, kind) && (y < |servers| ==> MayQueue(servers[y], kind))
    ensures QueueTags(Push(q, y, g), servers, kind)
  {
    PushMembers(q, y, g);
    hide Push;
    forall x | x in Push(q, y, g) ensures x in q || x == y {
      assert x in multiset(Push(q, y, g));
      assert x in multiset(q) || x == y;
    }
  }

  lemma DispatchTags(s: State, kind: Kind, now: int, timedOut: bool)
    requires TagsOk(s) && OwnedOk(s) && LaneEnabled(LaneOf(s, kind), |s.servers|, s.slots)
    ensures TagsOk(DNext(s, kind, now, timedOut))
  {
    hide Pop, NotDue, OwnedOk, QueueTags;
    var l := LaneOf(s, kind);
    if l.pc.DPop? {
      PopTags(l.queue, Sooner(s.servers), s.servers, kind);
    } else if l.pc.DMark? && kind == NotSubscribed {
      InHandIsElsewhere(s, l.pc.server);
      FreeServerTags(s, l.pc.server, s.servers[l.pc.server].(state := SendReq));
    }
  }

  lemma SenderTagsUpdate(s: State, i: nat, pc: SPc)
    requires TagsOk(s) && i < |s.senders|
    requires pc.RPush? && s.senders[i].server < |s.servers| ==> MayQueue(s.servers[s.senders[i].server], pc.kind)
    ensures TagsOk(At(s, i, pc))
  {
    hide QueueTags, MayQueue;
  }

  lemma SendTags(s: State, i: nat, now: int, ok: bool)
    requires TagsOk(s) && OwnedOk(s) && SEnabled(s, i)
    ensures TagsOk(SNext(s, i, now, ok))
  {
    var x, t := s.senders[i].server, SNext(s, i, now, ok);
    var pc := t.senders[i].pc;
    hide OwnedOk, TagsOk, Push, NotResponding;
    SenderTagsUpdate(s, i, pc);
    if s.senders[i].pc.RPush? {
      PushedTags(s, i, now, ok);
    } else if s.senders[i].pc.RCheck? || s.senders[i].pc.RSleep? || s.senders[i].pc.RReply? {
      HeldIsElsewhere(s, i);
      FreeServerTags(At(s, i, pc), x, t.servers[x]);
      assert t == WithServer(At(s, i, pc), x, t.servers[x]);
    } else if s.senders[i].pc.RPost? {
      TagsFrame(At(s, i, pc), t);
    }
  }

  lemma PushedTags(s: State, i: nat, now: int, ok: bool)
    requires TagsOk(s) && SEnabled(s, i) && s.senders[i].pc.RPush?
    ensures TagsOk(SNext(s, i, now, ok))
  {
    var kind := s.senders[i].pc.kind;
    SenderTagsUpdate(s, i, RPost);
    PushTags(LaneOf(s, kind).queue, Sooner(s.servers), s.senders[i].server, s.servers, kind);
    hide QueueTags, SenderTags, MayQueue, Push;
  }

  lemma TagsFrame(s: State, t: State)
    requires TagsOk(s) && t.waiting == s.waiting && t.subscribed == s.subscribed && t.senders == s.senders
        && t.servers == s.servers
    ensures TagsOk(t)
  {
  }

  /** A response is waiting only where there is a response text. */
  predicate ResponsesOk(s: State) {
    forall x | 0 <= x < |s.servers| && s.servers[x].state == Resp :: s.servers[x].response != Nothing
  }

  /** Every thread works on a server. */
  predicate IdsOk(s: State) {
    && (forall i | 0 <= i < |s.senders| :: s.senders[i].server < |s.servers|)
    && (s.waiting.pc.DTest? || s.waiting.pc.DPop? || Carries(s.waiting.pc) ==> s.waiting.pc.server < |s.servers|)
    && (s.subscribed.pc.DTest? || s.subscribed.pc.DPop? || Carries(s.subscribed.pc) ==>
        s.subscribed.pc.server < |s.servers|)
  }

  lemma DispatchIds(s: State, kind: Kind, now: int, timedOut: bool)
    requires IdsOk(s) && HeapsOk(s) && LaneEnabled(LaneOf(s, kind), |s.servers|, s.slots)
    ensures IdsOk(DNext(s, kind, now, timedOut))
  {
    hide Pop, NotDue, Heap;
  }

  lemma SendIds(s: State, i: nat, now: int, ok: bool)
    requires IdsOk(s) && SEnabled(s, i)
    ensures IdsOk(SNext(s, i, now, ok))
  {
    hide Push, NotResponding;
  }

  lemma SendResponses(s: State, i: nat, now: int, ok: bool)
    requires ResponsesOk(s) && SEnabled(s, i)
    ensures ResponsesOk(SNext(s, i, now, ok))
  {
    hide Push;
  }

  lemma DispatchResponses(s: State, kind: Kind, now: int, timedOut: bool)
    requires ResponsesOk(s) && LaneEnabled(LaneOf(s, kind), |s.servers|, s.slots)
    ensures ResponsesOk(DNext(s, kind, now, timedOut))
  {
    hide Pop, NotDue;
  }

  ghost predicate Inv(s: State) {
    && OwnedOk(s) && LaneOk(s.waiting) && LaneOk(s.subscribed) && SlotsOk(s) && HeapsOk(s) && TagsOk(s)
    && ResponsesOk(s) && IdsOk(s)
  }

  lemma ReceiveInv(s: State, x: Id, r: Response)
    requires Inv(s) && x < |s.servers| && r != Nothing
    ensures Inv(WithServer(s, x, s.servers[x].(state := Resp, response := r)))
  {
    var v := s.servers[x].(state := Resp, response := r);
    ServerHeaps(s, x, v);
    ResponseTags(s, x, v);
    assert forall y :: Places(WithServer(s, x, v), y) == Places(s, y);
    hide HeapsOk, TagsOk, Places;
  }

  lemma SendInv(s: State, i: nat, now: int, ok: bool)
    requires Inv(s) && SEnabled(s, i)
    ensures Inv(SNext(s, i, now, ok))
  {
    hide OwnedOk, LaneOk, SlotsOk, HeapsOk, TagsOk, ResponsesOk, IdsOk, SNext, SEnabled;
    SendOwned(s, i, now, ok);
    SendLanes(s, i, now, ok);
    SendSlots(s, i, now, ok);
    SendHeaps(s, i, now, ok);
    SendTags(s, i, now, ok);
    SendIds(s, i, now, ok);
    SendResponses(s, i, now, ok);
  }

  lemma DispatchInv(s: State, kind: Kind, now: int, timedOut: bool)
    requires Inv(s) && LaneEnabled(LaneOf(s, kind), |s.servers|, s.slots)
    ensures Inv(DNext(s, kind, now, timedOut))
  {
    hide OwnedOk, LaneOk, SlotsOk, HeapsOk, TagsOk, ResponsesOk, IdsOk, DNext, LaneEnabled;
    DispatchOwned(s, kind, now, timedOut);
    DispatchLanes(s, kind, now, timedOut);
    DispatchSlots(s, kind, now, timedOut);
    DispatchHeaps(s, kind, now, timedOut);
    DispatchTags(s, kind, now, timedOut);
    DispatchIds(s, kind, now, timedOut);
    DispatchResponses(s, kind, now, timedOut);
  }

  /** Every step of every thread keeps the invariant. */
  lemma StepInv(s: State, a: Action)
    requires Inv(s) && Enabled(s, a)
    ensures Inv(Step(s, a))
  {
    hide Inv;
    match a
    case Dispatch(kind, now, timedOut) => DispatchInv(s, kind, now, timedOut);
    case Send(i, now, ok) => SendInv(s, i, now, ok);
    case Receive(x, r) => ReceiveInv(s, x, r);
    case SpuriousWake(kind) => WakeInv(s, kind);
  }

  lemma WakeInv(s: State, kind: Kind)
    requires Inv(s) && LaneOf(s, kind).pc == DWaitEmpty
    ensures Inv(Step(s, SpuriousWake(kind)))
  {
    var t := Step(s, SpuriousWake(kind));
    assert forall x :: Places(t, x) == Places(s, x);
    hide Places, Queued, Held, Heap;
  }

  lemma {:induction false} IdsOnce(n: nat, x: Id)
    ensures Queued(Ids(n), x) == if x < n then 1 else 0
  {
    if n > 0 {
      IdsOnce(n - 1, x);
      QueuedAppend(Ids(n - 1), n - 1, x);
    }
  }

  lemma QueuedAppend(q: seq<Id>, y: Id, x: Id)
    ensures Queued(q + [y], x) == Queued(q, x) + if y == x then 1 else 0
  {
  }

  lemma InitialQueue(servers: seq<Server>)
    ensures var q := Build<Id>(Ids(|servers|), Sooner(servers));
            QueueOk(q, servers) && multiset(q) == multiset(Ids(|servers|))
  {
    var n, g := |servers|, Sooner(servers);
    SoonerIsPreorder(servers);
    BuildHeap<Id>(Ids(n), g, g, AllIds(n));
    WithinSame<Id>(Ids(n), Build<Id>(Ids(n), g), AllIds(n));
  }

  /** The first queue starts out with every server. So it holds no subscribed one exactly if no
      server starts as subscribed. */
  lemma StatesAtStart(servers: seq<Server>)
    ensures QueueTags(Build<Id>(Ids(|servers|), Sooner(servers)), servers, NotSubscribed)
            <==> forall x | 0 <= x < |servers| :: servers[x].state != Subscr
  {
    var q := Build<Id>(Ids(|servers|), Sooner(servers));
    InitialQueue(servers);
    hide Build;
    forall x: Id ensures x in q <==> x < |servers| {
      IdsOnce(|servers|, x);
      QueuedIn(q, x);
      assert Queued(q, x) == Queued(Ids(|servers|), x);
    }
  }

  lemma InitialInv(s: State)
    requires Initial(s)
    ensures Inv(s)
  {
    InitialQueue(s.servers);
    hide Build, QueueOk;
    assert QueueOk([], s.servers) by {
      EmptyQueue(s.servers);
    }
    forall x: Id ensures Places(s, x) == if x < |s.servers| then 1 else 0 {
      IdsOnce(|s.servers|, x);
    }
  }

  lemma EmptyQueue(servers: seq<Server>)
    ensures QueueOk([], servers)
  {
  }
}
