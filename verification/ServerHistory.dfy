/** What the server's state remembers of what has come from outside: subscriptions and files. */
module ServerHistory {
  import opened ServerRound
  import opened ServerTheorems

  // ----- subscriptions

  lemma {:induction false} RefreshAt(cs: seq<Entry>, a: Addr, now: int)
    requires UniqueAddrs(cs)
    ensures var ds := Refresh(cs, a, now);
            && |ds| == |cs| + (if Has(cs, a) then 0 else 1)
            && (forall k | 0 <= k < |cs| :: ds[k] == if cs[k].addr == a then Entry(a, now) else cs[k])
            && (!Has(cs, a) ==> ds[|cs|] == Entry(a, now))
  {
    if cs != [] && cs[0].addr != a {
      var rest := cs[1..];
      RefreshAt(rest, a, now);
      assert forall k | 0 <= k < |rest| :: rest[k] == cs[k + 1];
      assert Has(cs, a) <==> Has(rest, a) by {
        if Has(cs, a) {
          var k :| 0 <= k < |cs| && cs[k].addr == a;
          assert rest[k - 1].addr == a;
        }
        if Has(rest, a) {
          var k :| 0 <= k < |rest| && rest[k].addr == a;
          assert cs[k + 1].addr == a;
        }
      }
    } else if cs != [] {
      assert Has(cs, a);
    }
  }

  /** A subscription gives its client the present time. A known client keeps its place, a new one
      comes last, and no other client is touched; nor is anything else but the clock. */
  lemma SubscriptionIsStored(s: State, addr: Addr, now: int)
    requires ClientsOk(s) && Enabled(s, Subscribe(addr, now))
    ensures var t := Step(s, Subscribe(addr, now));
            && |t.clients| == |s.clients| + (if Has(s.clients, addr) then 0 else 1)
            && (forall k | 0 <= k < |s.clients| ::
                  t.clients[k] == if s.clients[k].addr == addr then Entry(addr, now) else s.clients[k])
            && (!Has(s.clients, addr) ==> t.clients[|s.clients|] == Entry(addr, now))
            && t == s.(clients := t.clients, clock := now)
  {
    RefreshAt(s.clients, addr, now);
  }

  lemma {:induction false} RemoveOnlyRemoves(cs: seq<Entry>, a: Addr)
    ensures forall e | e in Remove(cs, a) :: e in cs
  {
    if cs != [] && cs[0].addr != a {
      RemoveOnlyRemoves(cs[1..], a);
    }
  }

  /** No other step changes or adds a client. */
  lemma OnlySubscriptionsStore(s: State, a: Action)
    requires Enabled(s, a) && !a.Subscribe?
    ensures forall e | e in Step(s, a).clients :: e in s.clients
  {
    if a.Transmit? && s.tpc.TLoop? && s.tpc.rest != [] {
      RemoveOnlyRemoves(s.clients, s.tpc.rest[0].addr);
    }
    hide Remove, Expired;
  }

  /** When `a` has subscribed last. */
  function Latest(acts: seq<Action>, a: Addr): Option<int> {
    if acts == [] then None
    else if acts[|acts| - 1].Subscribe? && acts[|acts| - 1].addr == a then Some(acts[|acts| - 1].now)
    else Latest(acts[..|acts| - 1], a)
  }

  /** Every client's time is that of its latest subscription. */
  predicate TimesOk(s: State, acts: seq<Action>) {
    forall e | e in s.clients :: Latest(acts, e.addr) == Some(e.lastUpdate)
  }

  lemma TimesAfterSubscription(s: State, t: State, acts: seq<Action>, addr: Addr, now: int)
    requires TimesOk(s, acts) && |s.clients| <= |t.clients| <= |s.clients| + 1
    requires forall k | 0 <= k < |s.clients| ::
               t.clients[k] == if s.clients[k].addr == addr then Entry(addr, now) else s.clients[k]
    requires |t.clients| > |s.clients| ==> t.clients[|s.clients|] == Entry(addr, now)
    ensures TimesOk(t, acts + [Subscribe(addr, now)])
  {
    assert (acts + [Subscribe(addr, now)])[..|acts|] == acts;
    assert forall k | 0 <= k < |s.clients| :: s.clients[k] in s.clients;
  }

  lemma StepTimes(s: State, acts: seq<Action>, a: Action)
    requires ClientsOk(s) && TimesOk(s, acts) && Enabled(s, a)
    ensures TimesOk(Step(s, a), acts + [a])
  {
    hide ClientsOk, Step, Enabled;
    if a.Subscribe? {
      hide TimesOk;
      SubscriptionIsStored(s, a.addr, a.now);
      TimesAfterSubscription(s, Step(s, a), acts, a.addr, a.now);
    } else {
      OnlySubscriptionsStore(s, a);
      assert (acts + [a])[..|acts|] == acts;
    }
  }

  // ----- loaded files

  /** The files loaded in a run, with the clock at each. */
  function Loads(acts: seq<Action>): seq<(nat, int)> {
    if acts == [] then []
    else
      var a := acts[|acts| - 1];
      Loads(acts[..|acts| - 1]) + if a.Load? then [(a.file, a.now)] else []
  }

  /** Messages stand for the loaded files, in order, each with its time; within a second they are
      numbered on, and a new second starts with zero. The very first second is special: it is
      numbered from one if the clock then reads zero. */
  predicate LoadedOk(s: State, acts: seq<Action>) {
    && |s.loaded| == |Loads(acts)|
    && (forall i | 0 <= i < |s.loaded| :: s.loaded[i].file == Loads(acts)[i].0 && s.loaded[i].time == Loads(acts)[i].1)
    && (forall i | 0 < i < |s.loaded| ::
          s.loaded[i].id == if s.loaded[i].time == s.loaded[i - 1].time then s.loaded[i - 1].id + 1 else 0)
    && (s.loaded != [] ==> s.loaded[0].id == if s.loaded[0].time == 0 then 1 else 0)
  }

  lemma OnlyLoadsLoad(s: State, a: Action)
    requires Enabled(s, a) && !a.Load?
    ensures Step(s, a).loaded == s.loaded && Step(s, a).lastId == s.lastId
  {
    hide Remove, Refresh, Expired;
  }

  /** A load appends one message to the queue: it has the given file and the present time. */
  lemma LoadAppends(s: State, file: nat, now: int)
    requires KeysOk(s) && Enabled(s, Load(file, now))
    ensures var t := Step(s, Load(file, now));
            && |t.loaded| == |s.loaded| + 1 && t.loaded[..|s.loaded|] == s.loaded
            && t.queue == s.queue + [t.loaded[|s.loaded|]]
            && t.loaded[|s.loaded|].file == file && t.loaded[|s.loaded|].time == now
            && (now != s.lastTime ==> t.loaded[|s.loaded|].id == 0)
            && (now == s.lastTime ==> t.loaded[|s.loaded|].id == s.lastId + 1)
            && t.lastId == t.loaded[|s.loaded|].id
  {
  }

  lemma StepLoads(s: State, acts: seq<Action>, a: Action)
    requires KeysOk(s) && LoadedOk(s, acts) && (s.loaded == [] ==> s.lastId == 0) && Enabled(s, a)
    ensures LoadedOk(Step(s, a), acts + [a]) && (Step(s, a).loaded == [] ==> Step(s, a).lastId == 0)
  {
    assert (acts + [a])[..|acts|] == acts;
    if a.Load? {
      LoadAppends(s, a.file, a.now);
    } else {
      OnlyLoadsLoad(s, a);
    }
    hide Step, Enabled;
    var t, n := Step(s, a), |s.loaded|;
    assert forall i | 0 <= i < n :: t.loaded[i] == s.loaded[i] by {
      if a.Load? {
        assert forall i | 0 <= i < n :: t.loaded[..n][i] == t.loaded[i];
      }
    }
  }

  // ----- whole runs

  ghost predicate HistoryOk(s: State, acts: seq<Action>) {
    Inv(s) && TimesOk(s, acts) && LoadedOk(s, acts) && (s.loaded == [] ==> s.lastId == 0)
  }

  lemma StepHistory(s: State, acts: seq<Action>, a: Action)
    requires HistoryOk(s, acts) && Enabled(s, a)
    ensures HistoryOk(Step(s, a), acts + [a])
  {
    hide Step, Enabled, ClientsOk, KeysOk, SlotsOk, BarrierOk, MutexOk, WakeOk, QueueOk, SendersOk, InUseOk, AssignedOk,
      TimesOk, LoadedOk;
    StepInv(s, a);
    StepTimes(s, acts, a);
    StepLoads(s, acts, a);
  }

  lemma {:induction false} RunKeepsHistory(s: State, before: seq<Action>, acts: seq<Action>, t: State)
    requires HistoryOk(s, before) && Runs(s, acts, t)
    ensures HistoryOk(t, before + acts)
    decreases |acts|
  {
    hide HistoryOk, Step, Enabled;
    if acts == [] {
      assert before + acts == before;
    } else {
      StepHistory(s, before, acts[0]);
      assert before + [acts[0]] + acts[1..] == before + acts;
      RunKeepsHistory(Step(s, acts[0]), before + [acts[0]], acts[1..], t);
    }
  }

  lemma ReachableHistory(s: State, acts: seq<Action>, t: State)
    requires Reachable(s, acts, t)
    ensures HistoryOk(t, acts)
  {
    InitialInv(s);
    hide Inv, Runs;
    assert HistoryOk(s, []);
    hide HistoryOk;
    RunKeepsHistory(s, [], acts, t);
    assert [] + acts == acts;
  }

  /** Main result: in every run each client's time is the clock of its latest subscription. */
  lemma TimeOfSubscription(s: State, acts: seq<Action>, t: State)
    requires Reachable(s, acts, t)
    ensures forall k | 0 <= k < |t.clients| :: Latest(acts, t.clients[k].addr) == Some(t.clients[k].lastUpdate)
  {
    ReachableHistory(s, acts, t);
    hide Inv, Reachable, LoadedOk;
  }

  /** Main result: in every run the messages are the loaded files in order, with their times, and
      numbered within each second. */
  lemma MessagesAreLoads(s: State, acts: seq<Action>, t: State)
    requires Reachable(s, acts, t)
    ensures LoadedOk(t, acts)
  {
    ReachableHistory(s, acts, t);
    hide Inv, Reachable, TimesOk;
  }
}
