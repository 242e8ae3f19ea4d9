/** A run in which a response comes after its request has timed out: the server waits in the
    first queue although it has not used up its attempts. */
module LateResponse {
  import opened HeapModel
  import opened Scheduler
  import opened SchedulerProofs
  import opened SchedulerTheorems

  /** The client knows one server; `d` is where the first dispatcher is. */
  function Single(v: Server, queue: seq<Id>, held: bool, d: DPc, slots: int, senders: seq<Sender>): State {
    State([v], Lane(queue, held, d), Lane([], false, DLock), slots, senders)
  }

  const ASKED := Server(SendReq, 0, 0, Nothing)
  const FAILED := Server(SendReq, 1, 10, Nothing)
  const LATE := Server(Resp, 1, 10, Accept)

  lemma {:induction false} RunExtends(s: State, acts: seq<Action>, t: State, a: Action)
    requires Runs(s, acts, t) && Enabled(t, a)
    ensures Runs(s, acts + [a], Step(t, a))
    decreases |acts|
  {
    hide Enabled, Step;
    if acts == [] {
      assert [] + [a] == [a] && [a][1..] == [];
    } else {
      assert (acts + [a])[0] == acts[0] && (acts + [a])[1..] == acts[1..] + [a];
      RunExtends(Step(s, acts[0]), acts[1..], t, a);
    }
  }

  /** A run that is extended by one step at a time, to a state that is written down. */
  lemma Then(s: State, acts: seq<Action>, t: State, a: Action, u: State) returns (longer: seq<Action>)
    requires Runs(s, acts, t) && Enabled(t, a) && Step(t, a) == u
    ensures Runs(s, longer, u)
  {
    RunExtends(s, acts, t, a);
    longer := acts + [a];
  }

  lemma SingleHeap(g: Greater<Id>)
    ensures Build<Id>([0], g) == [0] && Pop<Id>([0], g) == [] && Push<Id>([], 0, g) == [0]
  {
    PopMembers<Id>([0], g);
    PushMembers<Id>([], 0, g);
  }

  lemma Start(s: State)
    requires s == Single(ASKED, [0], false, DLock, 3, [])
    ensures Initial(s)
  {
    assert Ids(1) == [0];
    SingleHeap(Sooner(s.servers));
  }

  lemma Popped(s: State) returns (acts: seq<Action>)
    requires s == Single(ASKED, [0], false, DLock, 3, [])
    ensures Runs(s, acts, Single(ASKED, [], true, DMark(0), 3, []))
  {
    SingleHeap(Sooner([ASKED]));
    hide Pop, Runs;
    var d := Dispatch(NotSubscribed, 10, false);
    acts := NoSteps(s);
    acts := Then(s, acts, s, d, Single(ASKED, [0], true, DCheck, 3, []));
    acts := Then(s, acts, Single(ASKED, [0], true, DCheck, 3, []), d, Single(ASKED, [0], true, DFirst, 3, []));
    acts := Then(s, acts, Single(ASKED, [0], true, DFirst, 3, []), d, Single(ASKED, [0], true, DTest(0, true), 3, []));
    acts := Then(s, acts, Single(ASKED, [0], true, DTest(0, true), 3, []), d, Single(ASKED, [0], true, DPop(0), 3, []));
    acts := Then(s, acts, Single(ASKED, [0], true, DPop(0), 3, []), d, Single(ASKED, [], true, DMark(0), 3, []));
  }

  lemma Dispatched(s: State, before: seq<Action>) returns (acts: seq<Action>)
    requires Runs(s, before, Single(ASKED, [], true, DMark(0), 3, []))
    ensures Runs(s, acts, Single(ASKED, [], false, DLock, 2, [Sender(RSend, 0)]))
  {
    hide Pop, Runs;
    var d := Dispatch(NotSubscribed, 10, false);
    acts := Then(s, before, Single(ASKED, [], true, DMark(0), 3, []), d, Single(ASKED, [], true, DUnlock(0), 3, []));
    acts := Then(s, acts, Single(ASKED, [], true, DUnlock(0), 3, []), d, Single(ASKED, [], false, DAcquire(0), 3, []));
    acts := Then(s, acts, Single(ASKED, [], false, DAcquire(0), 3, []), d, Single(ASKED, [], false, DSpawn(0), 2, []));
    acts := Then(s, acts, Single(ASKED, [], false, DSpawn(0), 2, []), d,
                 Single(ASKED, [], false, DLock, 2, [Sender(RSend, 0)]));
  }

  lemma NoSteps(s: State) returns (acts: seq<Action>)
    ensures Runs(s, acts, s)
  {
    acts := [];
  }

  lemma TimedOut(s: State, before: seq<Action>) returns (acts: seq<Action>)
    requires Runs(s, before, Single(ASKED, [], false, DLock, 2, [Sender(RSend, 0)]))
    ensures Runs(s, acts, Single(FAILED, [0], false, DLock, 3, [Sender(REnd, 0)]))
  {
    SingleHeap(Sooner([FAILED]));
    hide Push, Runs;
    var a := Send(0, 10, true);
    acts := Then(s, before, Single(ASKED, [], false, DLock, 2, [Sender(RSend, 0)]), a,
                 Single(ASKED, [], false, DLock, 2, [Sender(RCheck(10), 0)]));
    acts := Then(s, acts, Single(ASKED, [], false, DLock, 2, [Sender(RCheck(10), 0)]), a,
                 Single(ASKED, [], false, DLock, 2, [Sender(RSleep(10), 0)]));
    acts := Then(s, acts, Single(ASKED, [], false, DLock, 2, [Sender(RSleep(10), 0)]), a,
                 Single(FAILED, [], false, DLock, 2, [Sender(RDecide, 0)]));
    acts := Then(s, acts, Single(FAILED, [], false, DLock, 2, [Sender(RDecide, 0)]), a,
                 Single(FAILED, [], false, DLock, 2, [Sender(RPush(NotSubscribed), 0)]));
    acts := Then(s, acts, Single(FAILED, [], false, DLock, 2, [Sender(RPush(NotSubscribed), 0)]), a,
                 Single(FAILED, [0], false, DLock, 2, [Sender(RPost, 0)]));
    acts := Then(s, acts, Single(FAILED, [0], false, DLock, 2, [Sender(RPost, 0)]), a,
                 Single(FAILED, [0], false, DLock, 3, [Sender(REnd, 0)]));
  }

  /** One request times out, the server is queued again, and then it answers: it has failed once,
      and yet the first dispatcher waits for it, whatever the time. */
  lemma QueuedWithResponse() returns (s: State, acts: seq<Action>, t: State)
    ensures Reachable(s, acts, t)
    ensures t.waiting.queue == [0] && t.servers == [LATE]
    ensures forall now :: NotDue(t.servers[0], NotSubscribed, now)
  {
    s := Single(ASKED, [0], false, DLock, 3, []);
    Start(s);
    hide Runs, Initial;
    acts := Popped(s);
    acts := Dispatched(s, acts);
    acts := TimedOut(s, acts);
    t := Single(LATE, [0], false, DLock, 3, [Sender(REnd, 0)]);
    acts := Then(s, acts, Single(FAILED, [0], false, DLock, 3, [Sender(REnd, 0)]), Receive(0, Accept), t);
  }
}
