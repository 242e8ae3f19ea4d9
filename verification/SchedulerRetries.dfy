/** How often a server is tried before the client waits. */
module SchedulerRetries {
  import opened HeapModel
  import opened Scheduler
  import opened SchedulerProofs
  import opened SchedulerTheorems

  predicate ServerOk(v: Server) {
    && (v.state == Wait ==> v.notConnectCount % MAX_NOT_CONNECT_COUNT == 0)
    && (v.state == Subscr ==> v.notConnectCount < MAX_NOT_CONNECT_COUNT)
  }

  predicate ServersOk(servers: seq<Server>) {
    forall x | 0 <= x < |servers| :: ServerOk(servers[x])
  }

  /** A request is sent to a server that does not wait; a reply resets the count. */
  predicate SenderOk(y: Sender, servers: seq<Server>) {
    y.server < |servers| ==>
      && (y.pc.RSend? || y.pc.RCheck? || y.pc.RSleep? ==> servers[y.server].state != Wait)
      && (y.pc.RReply? ==> servers[y.server].notConnectCount == 0)
  }

  predicate SendersOk(ss: seq<Sender>, servers: seq<Server>) {
    forall i | 0 <= i < |ss| :: SenderOk(ss[i], servers)
  }

  /** A dispatcher gives away only a server that does not wait. */
  predicate HandOk(pc: DPc, kind: Kind, servers: seq<Server>) {
    (pc.DUnlock? || pc.DAcquire? || pc.DSpawn? || (pc.DMark? && kind == Subscribed)) && pc.server < |servers| ==>
      servers[pc.server].state != Wait
  }

  predicate RetriesOk(s: State) {
    && ServersOk(s.servers) && SendersOk(s.senders, s.servers)
    && HandOk(s.waiting.pc, NotSubscribed, s.servers) && HandOk(s.subscribed.pc, Subscribed, s.servers)
  }

  /** A server that only one sender holds may change as far as that sender allows. */
  lemma HeldChanges(s: State, i: nat, pc: SPc, v: Server)
    requires OwnedOk(s) && RetriesOk(s) && i < |s.senders| && Holds(s.senders[i].pc) && ServerOk(v)
    requires s.senders[i].server < |s.servers|
    requires SenderOk(Sender(pc, 0), [v])
    ensures RetriesOk(WithServer(At(s, i, pc), s.senders[i].server, v))
  {
    HeldIsElsewhere(s, i);
    hide OwnedOk, ServerOk;
    var t := WithServer(At(s, i, pc), s.senders[i].server, v);
    forall j | 0 <= j < |t.senders| ensures SenderOk(t.senders[j], t.servers) {
      assert SenderOk(s.senders[j], s.servers);
    }
  }

  lemma SendRetries(s: State, i: nat, now: int, ok: bool)
    requires Inv(s) && RetriesOk(s) && SEnabled(s, i)
    ensures RetriesOk(SNext(s, i, now, ok))
  {
    hide OwnedOk, HeapsOk, TagsOk, SlotsOk, LaneOk, ResponsesOk, Push;
    var x, t := s.senders[i].server, SNext(s, i, now, ok);
    assert ServerOk(s.servers[x]) && SenderOk(s.senders[i], s.servers);
    if s.senders[i].pc.RCheck? || s.senders[i].pc.RSleep? || s.senders[i].pc.RReply? {
      HeldChanges(s, i, t.senders[i].pc, t.servers[x]);
    }
  }

  /** A server that is asked for, or has answered, is in no one's way. */
  lemma MarkedRetries(s: State, x: Id, v: Server)
    requires RetriesOk(s) && x < |s.servers| && v.notConnectCount == s.servers[x].notConnectCount
    requires v.state == SendReq || v.state == Resp
    ensures RetriesOk(WithServer(s, x, v))
  {
    hide ServerOk;
    var t := WithServer(s, x, v);
    assert ServerOk(v) by { AskedIsOk(v); }
    forall j | 0 <= j < |t.senders| ensures SenderOk(t.senders[j], t.servers) {
      assert SenderOk(s.senders[j], s.servers);
    }
  }

  lemma AskedIsOk(v: Server)
    requires v.state == SendReq || v.state == Resp
    ensures ServerOk(v)
  {
  }

  lemma DispatchRetries(s: State, kind: Kind, now: int, timedOut: bool)
    requires Inv(s) && RetriesOk(s) && LaneEnabled(LaneOf(s, kind), |s.servers|, s.slots)
    ensures RetriesOk(DNext(s, kind, now, timedOut))
  {
    hide OwnedOk, HeapsOk, SlotsOk, ResponsesOk, Pop, NotDue, ServerOk, SenderTags;
    var l := LaneOf(s, kind);
    if l.pc.DMark? && kind == NotSubscribed {
      var x := l.pc.server;
      MarkedRetries(s, x, s.servers[x].(state := SendReq));
    } else if l.pc.DPop? {
      assert l.queue[0] in l.queue;
    }
  }

  lemma WakeRetries(s: State, kind: Kind)
    requires RetriesOk(s) && LaneOf(s, kind).pc == DWaitEmpty
    ensures RetriesOk(Step(s, SpuriousWake(kind)))
  {
  }

  lemma StepRetries(s: State, a: Action)
    requires Inv(s) && RetriesOk(s) && Enabled(s, a)
    ensures RetriesOk(Step(s, a))
  {
    hide Inv, RetriesOk, DNext, SNext;
    match a
    case Dispatch(kind, now, timedOut) => DispatchRetries(s, kind, now, timedOut);
    case Send(i, now, ok) => SendRetries(s, i, now, ok);
    case Receive(x, r) => MarkedRetries(s, x, s.servers[x].(state := Resp, response := r));
    case SpuriousWake(kind) => WakeRetries(s, kind);
  }

  lemma {:induction false} RunKeepsRetries(s: State, acts: seq<Action>, t: State)
    requires Inv(s) && RetriesOk(s) && Runs(s, acts, t)
    ensures RetriesOk(t)
    decreases |acts|
  {
    hide Inv, RetriesOk, Step, Enabled;
    if acts != [] {
      StepInv(s, acts[0]);
      StepRetries(s, acts[0]);
      RunKeepsRetries(Step(s, acts[0]), acts[1..], t);
    }
  }

  /** In every run a server is in WAIT only after a rejection or after a multiple of the allowed
      number of failures in a row, and is subscribed only below that number. Requests go only to
      servers that are not in WAIT. */
  lemma RetriesInGroups(s: State, acts: seq<Action>, t: State)
    requires Reachable(s, acts, t)
    ensures forall x | 0 <= x < |t.servers| && t.servers[x].state == Wait ::
              t.servers[x].notConnectCount % 3 == 0
    ensures forall x | 0 <= x < |t.servers| && t.servers[x].state == Subscr ::
              t.servers[x].notConnectCount < 3
    ensures forall x | x in t.waiting.queue :: x < |t.servers|
              && (t.servers[x].notConnectCount % 3 != 0 ==>
                    t.servers[x].state == SendReq || t.servers[x].state == Resp)
    ensures forall i | 0 <= i < |t.senders| && (t.senders[i].pc.RSend? || t.senders[i].pc.RSleep?) ::
              t.senders[i].server < |t.servers| && t.servers[t.senders[i].server].state != Wait
  {
    ReachableInv(s, acts, t);
    RunKeepsRetries(s, acts, t) by {
      InitialInv(s);
    }
    QueueStates(s, acts, t);
    hide Reachable, Runs, Initial, Places, TagsOk, HeapsOk;
    forall i | 0 <= i < |t.senders| && (t.senders[i].pc.RSend? || t.senders[i].pc.RSleep?)
      ensures t.senders[i].server < |t.servers| && t.servers[t.senders[i].server].state != Wait
    {
      assert SenderOk(t.senders[i], t.servers);
    }
    forall x | 0 <= x < |t.servers| ensures ServerOk(t.servers[x]) {
    }
  }

  /** For which servers in its queue the first dispatcher waits: for one that has answered late,
      and for one that is in WAIT and whose time has not come. After any other number of failures
      than a multiple of the allowed one, only the former is left. */
  lemma WhoIsWaitedFor(s: State, acts: seq<Action>, t: State, x: Id, now: int)
    requires Reachable(s, acts, t) && x in t.waiting.queue
    ensures x < |t.servers|
    ensures var v := t.servers[x];
            && (NotDue(v, NotSubscribed, now) <==>
                  v.state == Resp || (v.state == Wait && v.lastAttempt + 30 > now))
            && (v.notConnectCount % 3 != 0 ==> (NotDue(v, NotSubscribed, now) <==> v.state == Resp))
  {
    RetriesInGroups(s, acts, t);
    QueueStates(s, acts, t);
    hide Reachable;
  }
}
