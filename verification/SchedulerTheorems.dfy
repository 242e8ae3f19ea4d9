/** What every run of the subscription scheduler guarantees. */
module SchedulerTheorems {
  import opened HeapModel
  import opened Scheduler
  import opened SchedulerProofs

  /** `acts` leads from `s` to `t`. */
  predicate Runs(s: State, acts: seq<Action>, t: State)
    decreases |acts|
  {
    if acts == [] then s == t
    else Enabled(s, acts[0]) && Runs(Step(s, acts[0]), acts[1..], t)
  }

  lemma {:induction false} RunKeepsInv(s: State, acts: seq<Action>, t: State)
    requires Inv(s) && Runs(s, acts, t)
    ensures Inv(t)
    decreases |acts|
  {
    hide Inv, Step, Enabled;
    if acts != [] {
      StepInv(s, acts[0]);
      RunKeepsInv(Step(s, acts[0]), acts[1..], t);
    }
  }

  ghost predicate Reachable(s: State, acts: seq<Action>, t: State) {
    Initial(s) && Runs(s, acts, t)
  }

  lemma ReachableInv(s: State, acts: seq<Action>, t: State)
    requires Reachable(s, acts, t)
    ensures Inv(t)
  {
    hide Inv, Runs, Initial;
    InitialInv(s);
    RunKeepsInv(s, acts, t);
  }

  /** Every server is in exactly one place: one of the queues, a dispatcher's hand, or a sender. */
  lemma OnePlaceEach(s: State, acts: seq<Action>, t: State, x: Id)
    requires Reachable(s, acts, t)
    ensures Places(t, x) == if x < |t.servers| then 1 else 0
  {
    ReachableInv(s, acts, t);
  }

  /** The first queue never holds a subscribed server; a server in the second one is subscribed,
      or has a response waiting, however late responses come. */
  lemma QueueStates(s: State, acts: seq<Action>, t: State)
    requires Reachable(s, acts, t)
    ensures forall x | x in t.waiting.queue :: x < |t.servers| && t.servers[x].state != Subscr
    ensures forall x | x in t.subscribed.queue ::
              x < |t.servers|
                  && (t.servers[x].state == Subscr || (t.servers[x].state == Resp && t.servers[x].response != Nothing))
  {
    ReachableInv(s, acts, t);
    hide Reachable;
    forall x | x in t.waiting.queue || x in t.subscribed.queue ensures x < |t.servers| {
      QueuedIsServer(t, x);
    }
  }

  /** What a dispatcher is about to pop is the first of its queue, and no queued server has failed
      less often, or as often with its last attempt longer ago. */
  lemma DispatchesTheSoonest(s: State, acts: seq<Action>, t: State, kind: Kind, i: nat)
    requires Reachable(s, acts, t) && LaneOf(t, kind).pc.DPop? && i < |LaneOf(t, kind).queue|
    ensures var l := LaneOf(t, kind);
            && l.queue != [] && l.pc.server == l.queue[0] && l.pc.server < |t.servers| && l.queue[i] < |t.servers|
            && var x, y := t.servers[l.pc.server], t.servers[l.queue[i]];
               x.notConnectCount < y.notConnectCount
               || (x.notConnectCount == y.notConnectCount && x.lastAttempt <= y.lastAttempt)
  {
    ReachableInv(s, acts, t);
    SoonestIsFirst(t, kind, LaneOf(t, kind).queue[i]);
  }

  /** Looking at the first server never meets an empty queue, and no thread loses its server: the
      only things a thread can wait for are a mutex, a request slot, a server to come while its
      queue is empty, or its own end. */
  lemma NothingCrashes(s: State, acts: seq<Action>, t: State, kind: Kind)
    requires Reachable(s, acts, t)
    ensures var l := LaneOf(t, kind);
            LaneEnabled(l, |t.servers|, t.slots) || (l.pc.DAcquire? && t.slots == 0)
                || (l.pc.DWaitEmpty? && l.queue == [])
    ensures forall i | 0 <= i < |t.senders| ::
              SEnabled(t, i) || t.senders[i].pc.REnd?
              || (t.senders[i].pc.RPush? && LaneOf(t, t.senders[i].pc.kind).held)
  {
    ReachableInv(s, acts, t);
  }

  /** A sender can push exactly when the dispatcher of that queue is asleep, or outside the part
      from its look at the queue to the release of the mutex. */
  lemma PushesWait(s: State, acts: seq<Action>, t: State, i: nat)
    requires Reachable(s, acts, t) && i < |t.senders| && t.senders[i].pc.RPush?
    ensures var p := LaneOf(t, t.senders[i].pc.kind).pc;
            SEnabled(t, i) <==>
            p.DLock? || p.DWaitEmpty? || p.DWoken? || p.DTimedWait? || p.DAcquire? || p.DSpawn?
  {
    ReachableInv(s, acts, t);
  }

  /** Free slots, running senders and slots taken for new senders always add up. */
  lemma SlotsAddUp(s: State, acts: seq<Action>, t: State)
    requires Reachable(s, acts, t)
    ensures t.slots + Running(t.senders) + Taken(t.waiting) + Taken(t.subscribed) == 3
    ensures 0 <= t.slots && Running(t.senders) <= 3
  {
    ReachableInv(s, acts, t);
  }

  // ----- who comes first

  /** The count and the time of a server stay what they are while it is in a queue. */
  lemma KeysFixedWhileQueued(s: State, a: Action, x: Id)
    requires Inv(s) && Enabled(s, a) && (x in s.waiting.queue || x in s.subscribed.queue)
    ensures x < |s.servers| == |Step(s, a).servers| && SameKey(s.servers[x], Step(s, a).servers[x])
  {
    QueuedIsServer(s, x);
    hide Pop, Push, NotDue, Places, HeapsOk, TagsOk, SlotsOk, LaneOk, OwnedOk;
    if a.Send? && Holds(s.senders[a.i].pc) {
      HeldIsElsewhere(s, a.i);
    }
  }

  /** A run all along which server `x` is in the queue. */
  predicate StaysQueued(s: State, acts: seq<Action>, kind: Kind, x: Id)
    decreases |acts|
  {
    && x in LaneOf(s, kind).queue
    && (acts != [] ==> Enabled(s, acts[0]) && StaysQueued(Step(s, acts[0]), acts[1..], kind, x))
  }

  lemma {:induction false} QueuedKeys(s: State, acts: seq<Action>, t: State, kind: Kind, x: Id)
    requires Inv(s) && Runs(s, acts, t) && StaysQueued(s, acts, kind, x)
    ensures x < |s.servers| == |t.servers| && SameKey(s.servers[x], t.servers[x]) && x in LaneOf(t, kind).queue
        && Inv(t)
    decreases |acts|
  {
    QueuedIsServer(s, x);
    hide Inv, Step, Enabled;
    if acts != [] {
      KeysFixedWhileQueued(s, acts[0], x);
      StepInv(s, acts[0]);
      QueuedKeys(Step(s, acts[0]), acts[1..], t, kind, x);
    }
  }

  /** A server that has failed more often, or as often and more recently, waits for its turn: it
      is not popped as long as the other one stays in the queue. */
  lemma MoreFailuresLater(s0: State, before: seq<Action>, s: State, acts: seq<Action>, t: State, kind: Kind,
                          x: Id, y: Id)
    requires Reachable(s0, before, s) && Runs(s, acts, t)
    requires StaysQueued(s, acts, kind, x) && StaysQueued(s, acts, kind, y)
    ensures x < |s.servers| && y < |s.servers|
    ensures var v, w := s.servers[x], s.servers[y];
            (v.notConnectCount > w.notConnectCount
             || (v.notConnectCount == w.notConnectCount && v.lastAttempt > w.lastAttempt)) ==>
              !(LaneOf(t, kind).pc.DPop? && LaneOf(t, kind).pc.server == x)
  {
    ReachableInv(s0, before, s);
    QueuedKeys(s, acts, t, kind, x);
    QueuedKeys(s, acts, t, kind, y);
    if LaneOf(t, kind).pc.DPop? {
      SoonestIsFirst(t, kind, y);
    }
  }

  lemma SoonestIsFirst(t: State, kind: Kind, y: Id)
    requires Inv(t) && LaneOf(t, kind).pc.DPop? && y in LaneOf(t, kind).queue
    ensures LaneOf(t, kind).pc.server < |t.servers| && y < |t.servers|
    ensures var v, w := t.servers[LaneOf(t, kind).pc.server], t.servers[y];
            v.notConnectCount < w.notConnectCount
            || (v.notConnectCount == w.notConnectCount && v.lastAttempt <= w.lastAttempt)
  {
    var q := LaneOf(t, kind).queue;
    var i :| 0 <= i < |q| && q[i] == y;
    SoonerIsPreorder(t.servers);
    RootIsLeast<Id>(q, i, Sooner(t.servers), AllIds(|t.servers|));
  }
}
