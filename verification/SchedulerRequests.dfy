/** What a request and its response do to a server. */
module SchedulerRequests {
  import opened HeapModel
  import opened Scheduler
  import opened SchedulerProofs
  import opened SchedulerTheorems
  import opened SchedulerProgress
  import opened SchedulerRetries

  // ----- the steps that write to a server

  predicate Receives(a: Action, x: Id) {
    a.Receive? && a.server == x
  }

  /** The first dispatcher has popped `x` and marks it. */
  predicate Marks(s: State, a: Action, x: Id) {
    a.Dispatch? && a.kind == NotSubscribed && s.waiting.pc == DMark(x)
  }

  predicate SenderOf(s: State, a: Action, x: Id) {
    a.Send? && a.i < |s.senders| && s.senders[a.i].server == x
  }

  /** A sender finds the response of `x`. */
  predicate Answered(s: State, a: Action, x: Id) {
    SenderOf(s, a, x) && s.senders[a.i].pc.RCheck? && x < |s.servers| && s.servers[x].state == Resp
  }

  predicate TimedOut(s: State, a: Action, x: Id) {
    SenderOf(s, a, x) && s.senders[a.i].pc.RSleep? && a.ok
  }

  /** A sender evaluates the response of `x`. */
  predicate Evaluated(s: State, a: Action, x: Id) {
    SenderOf(s, a, x) && s.senders[a.i].pc.RReply?
  }

  /** Field by field, which steps write to a server and what: a response sets RESP; marking sets
      SEND_REQ; an evaluated response makes it SUBSCR if it was an acceptance, WAIT if not, and is
      cleared; every failure counts, is dated by the time of its request, and each third one makes
      it WAIT; an answer sets the count back and is dated by its arrival. */
  lemma WhoWritesWhat(s: State, a: Action, x: Id)
    requires Enabled(s, a) && x < |s.servers|
    ensures x < |Step(s, a).servers|
    ensures var v, w := s.servers[x], Step(s, a).servers[x];
            && w.state ==
                 (if Receives(a, x) then Resp
                  else if Marks(s, a, x) then SendReq
                  else if Evaluated(s, a, x) then if v.response == Accept then Subscr else Wait
                  else if TimedOut(s, a, x) && (v.notConnectCount + 1) % 3 == 0 then Wait
                  else v.state)
            && w.response ==
                 (if Receives(a, x) then a.response else if Evaluated(s, a, x) then Nothing else v.response)
            && w.notConnectCount ==
                 (if TimedOut(s, a, x) then v.notConnectCount + 1
                  else if Answered(s, a, x) then 0 else v.notConnectCount)
            && w.lastAttempt ==
                 (if TimedOut(s, a, x) then s.senders[a.i].pc.sendTime
                  else if Answered(s, a, x) then a.now else v.lastAttempt)
  {
    hide Pop, Push, NotDue;
  }

  /** In every reachable state a failure makes a server WAIT exactly if it is a third one. */
  lemma ThirdFailureWaits(s: State, acts: seq<Action>, t: State, a: Action, x: Id)
    requires Reachable(s, acts, t) && Enabled(t, a) && x < |t.servers| && TimedOut(t, a, x)
    ensures x < |Step(t, a).servers|
    ensures Step(t, a).servers[x].state == Wait <==> (t.servers[x].notConnectCount + 1) % 3 == 0
  {
    RetriesInGroups(s, acts, t);
    hide Reachable;
    WhoWritesWhat(t, a, x);
  }

  /** How a sender comes to each stage of its request: it evaluates a response exactly if it finds
      one, it waits for one only after a request that was sent and as long as there is none, and
      it goes on to the queues after a failed send, a timeout, or an evaluation. */
  lemma StagesOfRequest(s: State, i: nat, now: int, ok: bool)
    requires SEnabled(s, i)
    ensures i < |SNext(s, i, now, ok).senders|
    ensures var p, q, found := s.senders[i].pc, SNext(s, i, now, ok).senders[i].pc,
                               s.servers[s.senders[i].server].state == Resp;
            && (q.RReply? <==> p.RCheck? && found)
            && (q.RSleep? <==> p.RCheck? && !found)
            && (q.RCheck? <==> (p.RSend? && ok) || (p.RSleep? && !ok))
            && (q.RDecide? <==> (p.RSend? && !ok) || (p.RSleep? && ok) || p.RReply?)
            && (q.RPush? <==> p.RDecide?) && (q.RPost? <==> p.RPush?) && (q.REnd? <==> p.RPost?)
  {
    hide Push, NotResponding;
  }

  // ----- from the response to the queue

  function Verdict(r: Response): ServerState {
    if r == Accept then Subscr else Wait
  }

  /** Sender `i` has taken up response `r` of server `x`, and nothing has come in between. */
  ghost predicate Tracked(s: State, i: nat, x: Id, r: Response) {
    && Inv(s) && i < |s.senders| && s.senders[i].server == x && x < |s.servers|
    && match s.senders[i].pc
       case RReply => s.servers[x].response == r
       case RDecide => s.servers[x].state == Verdict(r)
       case RPush(kind) => s.servers[x].state == Verdict(r) && kind == if r == Accept then Subscribed else NotSubscribed
       case RPost => true
       case REnd => true
       case _ => false
  }

  lemma OwnStep(s: State, i: nat, x: Id, r: Response, now: int, ok: bool)
    requires Tracked(s, i, x, r) && SEnabled(s, i)
    ensures Tracked(Step(s, Send(i, now, ok)), i, x, r)
  {
    var a := Send(i, now, ok);
    StepInv(s, a);
    WhoWritesWhat(s, a, x);
    hide Inv, Push, NotResponding;
  }

  /** While a sender holds a server, only a response can write to it from outside. */
  lemma OthersDoNotWrite(s: State, a: Action, i: nat)
    requires Inv(s) && Enabled(s, a) && i < |s.senders| && Holds(s.senders[i].pc) && !(a.Send? && a.i == i)
    ensures var x := s.senders[i].server;
            x < |s.servers| == |Step(s, a).servers| && (!Receives(a, x) ==> Step(s, a).servers[x] == s.servers[x])
  {
    HeldIsElsewhere(s, i);
    WhoWritesWhat(s, a, s.senders[i].server);
    hide Pop, Push, NotDue, OwnedOk, HeapsOk, TagsOk, SlotsOk, LaneOk;
  }

  lemma OtherStep(s: State, a: Action, i: nat, x: Id, r: Response)
    requires Tracked(s, i, x, r) && Enabled(s, a) && !(a.Send? && a.i == i) && !Receives(a, x)
    ensures Tracked(Step(s, a), i, x, r)
  {
    StepInv(s, a);
    OthersStay(s, a, i);
    if Holds(s.senders[i].pc) {
      OthersDoNotWrite(s, a, i);
    } else {
      ServersStay(s, a);
    }
    hide Inv, Step, Enabled;
  }

  lemma ServersStay(s: State, a: Action)
    requires Enabled(s, a)
    ensures |Step(s, a).servers| == |s.servers|
  {
    hide Pop, Push, NotDue, NotResponding;
  }

  predicate NoResponse(acts: seq<Action>, x: Id) {
    forall k | 0 <= k < |acts| :: !Receives(acts[k], x)
  }

  lemma {:induction false} RunTracked(s: State, acts: seq<Action>, t: State, i: nat, x: Id, r: Response)
    requires Tracked(s, i, x, r) && Runs(s, acts, t) && NoResponse(acts, x)
    ensures Tracked(t, i, x, r)
    decreases |acts|
  {
    hide Tracked, Step, Enabled, Receives;
    if acts != [] {
      var a := acts[0];
      assert !Receives(a, x);
      if a.Send? && a.i == i {
        assert SEnabled(s, i) by { EnabledSender(s, a); }
        OwnStep(s, i, x, r, a.now, a.ok);
      } else {
        OtherStep(s, a, i, x, r);
      }
      RunTracked(Step(s, a), acts[1..], t, i, x, r);
    }
  }

  lemma EnabledSender(s: State, a: Action)
    requires Enabled(s, a) && a.Send?
    ensures SEnabled(s, a.i)
  {
  }

  /** A push puts the server into the chosen queue and leaves the other queue and all servers. */
  lemma PushedWhere(s: State, i: nat, now: int, ok: bool)
    requires SEnabled(s, i) && s.senders[i].pc.RPush?
    ensures var t, kind, x := SNext(s, i, now, ok), s.senders[i].pc.kind, s.senders[i].server;
            && multiset(LaneOf(t, kind).queue) == multiset(LaneOf(s, kind).queue) + multiset{x}
            && (kind == Subscribed ==> t.waiting == s.waiting)
            && (kind == NotSubscribed ==> t.subscribed == s.subscribed)
            && t.servers == s.servers
  {
    PushMembers<Id>(LaneOf(s, s.senders[i].pc.kind).queue, s.senders[i].server, Sooner(s.servers));
    hide Push;
  }

  /** Main result: if no further response of the server comes before the sender pushes it, an
      accepted server is pushed into the subscribed queue, in SUBSCR, and any other into the first
      queue, in WAIT. */
  lemma ResponseDecides(
      s0: State, before: seq<Action>, s: State, acts: seq<Action>, t: State, i: nat, now: int, ok: bool)
    requires Reachable(s0, before, s) && i < |s.senders| && s.senders[i].pc.RReply? && s.senders[i].server < |s.servers|
    requires Runs(s, acts, t) && NoResponse(acts, s.senders[i].server)
    requires SEnabled(t, i) && t.senders[i].pc.RPush?
    ensures var x, accepted := s.senders[i].server, s.servers[s.senders[i].server].response == Accept;
            var u := Step(t, Send(i, now, ok));
            && x < |u.servers| && u.servers[x].state == (if accepted then Subscr else Wait)
            && x in (if accepted then u.subscribed.queue else u.waiting.queue)
            && (if accepted then u.waiting == t.waiting else u.subscribed == t.subscribed)
  {
    var x := s.senders[i].server;
    ReachableInv(s0, before, s);
    RunTracked(s, acts, t, i, x, s.servers[x].response);
    PushedWhere(t, i, now, ok);
    var kind := t.senders[i].pc.kind;
    var q := LaneOf(SNext(t, i, now, ok), kind).queue;
    assert x in multiset(q);
    hide Inv, Runs, Reachable, SNext, SEnabled;
  }

  // ----- the time of a request

  /** When sender `i` has sent its request, as far as the run shows. */
  function SentAt(s: State, acts: seq<Action>, i: nat, sofar: int): int
    requires CanRun(s, acts)
    decreases |acts|
  {
    if acts == [] then sofar
    else
      var a := acts[0];
      SentAt(Step(s, a), acts[1..], i,
             if a.Send? && a.i == i && s.senders[i].pc.RSend? && a.ok then a.now else sofar)
  }

  predicate Dated(s: State, i: nat, time: int) {
    && i < |s.senders|
    && (s.senders[i].pc.RCheck? || s.senders[i].pc.RSleep? ==> s.senders[i].pc.sendTime == time)
  }

  lemma StepDated(s: State, a: Action, i: nat, time: int)
    requires Dated(s, i, time) && Enabled(s, a)
    ensures Dated(Step(s, a), i, if a.Send? && a.i == i && s.senders[i].pc.RSend? && a.ok then a.now else time)
  {
    if a.Send? && a.i == i {
      hide Push, NotResponding;
    } else {
      OthersStay(s, a, i);
      hide Step, Enabled;
    }
  }

  lemma {:induction false} RunDated(s: State, acts: seq<Action>, t: State, i: nat, time: int)
    requires Dated(s, i, time) && Runs(s, acts, t) && CanRun(s, acts)
    ensures Dated(t, i, SentAt(s, acts, i, time))
    decreases |acts|
  {
    if acts != [] {
      StepDated(s, acts[0], i, time);
      hide Dated, Step, Enabled;
      var a := acts[0];
      var sentNow := a.Send? && a.i == i && s.senders[i].pc.RSend? && a.ok;
      RunDated(Step(s, a), acts[1..], t, i, if sentNow then a.now else time);
    }
  }

  /** Main result: a request that is not answered in time counts as one more failure, dated by the
      clock when it was sent. */
  lemma FailureIsDated(s: State, acts: seq<Action>, t: State, i: nat, now: int, time: int)
    requires i < |s.senders| && s.senders[i].pc.RSend? && Runs(s, acts, t) && CanRun(s, acts)
    requires SEnabled(t, i) && t.senders[i].pc.RSleep?
    ensures var x, u := t.senders[i].server, Step(t, Send(i, now, true));
            && x < |u.servers| && u.servers[x].notConnectCount == t.servers[x].notConnectCount + 1
            && u.servers[x].lastAttempt == SentAt(s, acts, i, time)
  {
    RunDated(s, acts, t, i, time);
    WhoWritesWhat(t, Send(i, now, true), t.senders[i].server);
    hide Runs, CanRun, SNext;
  }
}
