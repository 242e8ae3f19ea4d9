/** What every run of the server's transmission rounds guarantees. */
module ServerTheorems {
  import opened ServerRound

  /** `acts` leads from `s` to `t`. */
  predicate Runs(s: State, acts: seq<Action>, t: State)
    decreases |acts|
  {
    if acts == [] then s == t
    else Enabled(s, acts[0]) && Runs(Step(s, acts[0]), acts[1..], t)
  }

  lemma {:induction false} RunKeepsInv(s: State, acts: seq<Action>, t: State)
    requires Inv(s) && Runs(s, acts, t)
    ensures Inv(t)
    decreases |acts|
  {
    hide Inv, Step, Enabled;
    if acts != [] {
      StepInv(s, acts[0]);
      RunKeepsInv(Step(s, acts[0]), acts[1..], t);
    }
  }

  predicate Reachable(s: State, acts: seq<Action>, t: State) {
    Initial(s) && Runs(s, acts, t)
  }

  lemma ReachableInv(s: State, acts: seq<Action>, t: State)
    requires Reachable(s, acts, t)
    ensures Inv(t)
  {
    hide Inv, Runs, Initial;
    InitialInv(s);
    RunKeepsInv(s, acts, t);
  }

  // ----- the barrier

  /** Sender `i` is the one that client `a` got in the current round. */
  predicate SenderOf(s: State, i: int, a: Addr) {
    0 <= i < |s.senders| && s.senders[i].round == |s.roundMsgs| && s.senders[i].client == a
  }

  /** What the transmitter may rely on when its wait is over: it has visited every client the
      round started with; the expired ones got no sender; every other one got exactly one, and
      that one has sent the message at the head of the queue, once, and nothing else. */
  ghost predicate RoundComplete(s: State) {
    && Entries(s.visited) == s.roundClients
    && s.queue != []
    && forall k | 0 <= k < |s.visited| ::
         var a := s.visited[k].entry.addr;
         if s.visited[k].expired then forall i :: !SenderOf(s, i, a)
         else exists i :: SenderOf(s, i, a) && (forall j :: SenderOf(s, j, a) ==> j == i)
                && Undone(s.senders[i].pc) == 0 && s.senders[i].delivered == [s.queue[0]]
  }

  lemma {:induction false} EntriesAt(v: seq<Visit>, k: nat)
    requires k < |v|
    ensures Entries(v)[k] == v[k].entry
  {
    if k < |v| - 1 {
      EntriesAt(v[..|v| - 1], k);
    }
  }

  /** Every visited client that was live is in the list of live ones. */
  lemma {:induction false} LiveHas(v: seq<Visit>, k: nat) returns (j: nat)
    requires k < |v| && !v[k].expired
    ensures j < |Live(v)| && Live(v)[j] == v[k].entry
  {
    var n := |v| - 1;
    if k == n {
      j := |Live(v)| - 1;
    } else {
      j := LiveHas(v[..n], k);
    }
  }

  /** Every live one was visited and not expired. */
  lemma {:induction false} LiveFrom(v: seq<Visit>, j: nat) returns (k: nat)
    requires j < |Live(v)|
    ensures k < |v| && !v[k].expired && v[k].entry == Live(v)[j]
  {
    var n := |v| - 1;
    if j < |Live(v[..n])| {
      k := LiveFrom(v[..n], j);
    } else {
      k := n;
    }
  }

  lemma {:induction false} LiveUnique(v: seq<Visit>)
    requires UniqueAddrs(Entries(v))
    ensures UniqueAddrs(Live(v))
  {
    if v != [] {
      var n := |v| - 1;
      assert forall i | 0 <= i < n :: Entries(v)[i] == Entries(v[..n])[i];
      LiveUnique(v[..n]);
      if !v[n].expired {
        forall i | 0 <= i < |Live(v[..n])| ensures Live(v[..n])[i].addr != v[n].entry.addr {
          var k := LiveFrom(v[..n], i);
          EntriesAt(v, k);
          EntriesAt(v, n);
        }
      }
    }
  }

  /** A sender of this round serves a visited client that had not expired. */
  lemma SenderServesLive(s: State, i: int, k: nat)
    requires ClientsOk(s) && AssignedOk(s) && Entries(s.visited) == s.roundClients
    requires k < |s.visited| && SenderOf(s, i, s.visited[k].entry.addr)
    ensures !s.visited[k].expired && s.base <= i && Live(s.visited)[i - s.base].addr == s.visited[k].entry.addr
  {
    var m := LiveFrom(s.visited, i - s.base);
    EntriesAt(s.visited, k);
    EntriesAt(s.visited, m);
    assert m == k;
  }

  lemma ClientServed(s: State, k: nat)
    requires Inv(s) && Entries(s.visited) == s.roundClients && k < |s.visited| && !s.visited[k].expired
    ensures exists i :: SenderOf(s, i, s.visited[k].entry.addr)
              && forall j :: SenderOf(s, j, s.visited[k].entry.addr) ==> j == i
  {
    hide Live, Entries, UniqueAddrs;
    var a := s.visited[k].entry.addr;
    var j0 := LiveHas(s.visited, k);
    LiveUnique(s.visited);
    assert SenderOf(s, s.base + j0, a);
    forall j | SenderOf(s, j, a) ensures j == s.base + j0 {
      SenderServesLive(s, j, k);
      SameIndex(Live(s.visited), j - s.base, j0);
    }
  }

  lemma SameIndex(cs: seq<Entry>, i: nat, j: nat)
    requires UniqueAddrs(cs) && i < |cs| && j < |cs| && cs[i].addr == cs[j].addr
    ensures i == j
  {
  }

  lemma WaitOver(s: State)
    requires Inv(s) && (s.tpc.TUnlockDone? || s.tpc.TDestroy? || s.tpc.TPop?)
    ensures RoundComplete(s)
  {
    NoneUndone(s);
    hide Live, Entries, UniqueAddrs, Sum, KeysOk;
    assert Entries(s.visited) + [] == Entries(s.visited);
    forall k | 0 <= k < |s.visited| && s.visited[k].expired
      ensures forall i :: !SenderOf(s, i, s.visited[k].entry.addr)
    {
      forall i | SenderOf(s, i, s.visited[k].entry.addr) ensures false {
        SenderServesLive(s, i, k);
      }
    }
    forall k | 0 <= k < |s.visited| && !s.visited[k].expired
      ensures exists i :: SenderOf(s, i, s.visited[k].entry.addr)
                && (forall j :: SenderOf(s, j, s.visited[k].entry.addr) ==> j == i)
                && Undone(s.senders[i].pc) == 0 && s.senders[i].delivered == [s.queue[0]]
    {
      ClientServed(s, k);
      var i :| SenderOf(s, i, s.visited[k].entry.addr)
          && forall j :: SenderOf(s, j, s.visited[k].entry.addr) ==> j == i;
      assert Undone(s.senders[i].pc) == 0;
      assert s.senders[i].delivered == [s.roundMsgs[s.senders[i].round - 1]];
    }
  }

  /** Main result: whenever the transmitter has left its wait, in any run, the round is complete. */
  lemma Barrier(s: State, acts: seq<Action>, t: State)
    requires Reachable(s, acts, t) && (t.tpc.TUnlockDone? || t.tpc.TDestroy? || t.tpc.TPop?)
    ensures RoundComplete(t)
  {
    hide Inv, RoundComplete, Reachable;
    ReachableInv(s, acts, t);
    WaitOver(t);
  }

  // ----- who is removed

  /** Every visit has done what its clock reading demands: a subscription lasts for 5 seconds. */
  predicate ExpiryOk(s: State) {
    && (forall k | 0 <= k < |s.visited| ::
          s.visited[k].expired <==> s.visited[k].entry.lastUpdate + 5 < s.visited[k].at)
    && (s.tpc.TAcquire? || s.tpc.TSpawn? ==> s.tpc.el.lastUpdate + 5 >= s.reading)
  }

  lemma TransmitExpiry(s: State, now: int)
    requires ExpiryOk(s) && TEnabled(s, now)
    ensures ExpiryOk(TNext(s, now))
  {
    hide Remove;
  }

  lemma StepExpiry(s: State, a: Action)
    requires ExpiryOk(s) && Enabled(s, a)
    ensures ExpiryOk(Step(s, a))
  {
    hide Remove, Refresh, TNext, TEnabled, Expired;
    if a.Transmit? {
      TransmitExpiry(s, a.now);
    }
  }

  lemma {:induction false} RunKeepsExpiry(s: State, acts: seq<Action>, t: State)
    requires ExpiryOk(s) && Runs(s, acts, t)
    ensures ExpiryOk(t)
    decreases |acts|
  {
    hide ExpiryOk, Step, Enabled;
    if acts != [] {
      StepExpiry(s, acts[0]);
      RunKeepsExpiry(Step(s, acts[0]), acts[1..], t);
    }
  }

  function Readings(v: seq<Visit>): (r: seq<int>)
    ensures |r| == |v|
  {
    if v == [] then [] else Readings(v[..|v| - 1]) + [v[|v| - 1].at]
  }

  /** The clients whose last subscription is at most 5 before the clock reading for each of them. */
  function Unexpired(cs: seq<Entry>, readings: seq<int>): seq<Entry>
    requires |cs| == |readings|
  {
    if cs == [] then []
    else
      var n := |cs| - 1;
      Unexpired(cs[..n], readings[..n]) + if cs[n].lastUpdate + 5 < readings[n] then [] else [cs[n]]
  }

  lemma {:induction false} LiveIsUnexpired(v: seq<Visit>)
    requires forall k | 0 <= k < |v| :: v[k].expired <==> v[k].entry.lastUpdate + 5 < v[k].at
    ensures Live(v) == Unexpired(Entries(v), Readings(v))
  {
    if v != [] {
      var n := |v| - 1;
      LiveIsUnexpired(v[..n]);
      assert Entries(v)[..n] == Entries(v[..n]) && Readings(v)[..n] == Readings(v[..n]);
    }
  }

  /** When the iteration releases the client map, the map holds exactly the clients whose last
      subscription is at most 5 before the clock reading for each of them, in their old order;
      each of them, and no other, has got a sender. */
  lemma OnlyExpiredRemoved(s: State, acts: seq<Action>, t: State)
    requires Reachable(s, acts, t) && t.tpc.TUnlockMap?
    ensures |t.visited| == |t.roundClients|
    ensures t.clients == Unexpired(t.roundClients, Readings(t.visited))
    ensures |t.senders| == t.base + |t.clients|
    ensures forall i | 0 <= i < |t.clients| :: SenderOf(t, t.base + i, t.clients[i].addr)
    ensures forall k | 0 <= k < |t.roundClients| ::
              var stays := t.roundClients[k].lastUpdate + 5 >= t.visited[k].at;
              && (t.roundClients[k] in t.clients <==> stays)
              && ((exists i :: SenderOf(t, i, t.roundClients[k].addr)) <==> stays)
  {
    ReachableInv(s, acts, t);
    RunKeepsExpiry(s, acts, t);
    AllVisited(t);
    forall k | 0 <= k < |t.roundClients|
      ensures var stays := t.roundClients[k].lastUpdate + 5 >= t.visited[k].at;
              && (t.roundClients[k] in t.clients <==> stays)
              && ((exists i :: SenderOf(t, i, t.roundClients[k].addr)) <==> stays)
    {
      VisitDecides(t, k);
    }
  }

  lemma AllVisited(t: State)
    requires Inv(t) && ExpiryOk(t) && t.tpc.TUnlockMap?
    ensures |t.visited| == |t.roundClients|
    ensures t.clients == Unexpired(t.roundClients, Readings(t.visited))
    ensures |t.senders| == t.base + |t.clients|
    ensures forall i | 0 <= i < |t.clients| :: SenderOf(t, t.base + i, t.clients[i].addr)
  {
    hide Sum, UniqueAddrs, Unexpired, Live, KeysOk, SlotsOk, BarrierOk, MutexOk, WakeOk, QueueOk, SendersOk, InUseOk;
    LiveIsUnexpired(t.visited);
    assert Entries(t.visited) + [] == Entries(t.visited) && Live(t.visited) + [] == Live(t.visited);
  }

  /** A visited client is among the live ones, and has a sender, exactly if its subscription had
      not expired. */
  lemma VisitDecides(t: State, k: nat)
    requires Inv(t) && ExpiryOk(t) && t.tpc.TUnlockMap? && k < |t.roundClients|
    ensures k < |t.visited|
    ensures var stays := t.roundClients[k].lastUpdate + 5 >= t.visited[k].at;
            && (t.roundClients[k] in t.clients <==> stays)
            && ((exists i :: SenderOf(t, i, t.roundClients[k].addr)) <==> stays)
  {
    hide Sum, KeysOk, SlotsOk, BarrierOk, MutexOk, WakeOk, QueueOk, SendersOk, InUseOk, Live, Entries;
    assert Entries(t.visited) + [] == Entries(t.visited) && Live(t.visited) + [] == Live(t.visited);
    EntriesAt(t.visited, k);
    var c := t.roundClients[k];
    if c.lastUpdate + 5 >= t.visited[k].at {
      var j := LiveHas(t.visited, k);
      assert SenderOf(t, t.base + j, c.addr);
    } else {
      forall j | 0 <= j < |t.clients| ensures t.clients[j] != c {
        var m := LiveFrom(t.visited, j);
        EntriesAt(t.visited, m);
      }
      forall i | SenderOf(t, i, c.addr) ensures false {
        SenderServesLive(t, i, k);
      }
    }
  }

  /** Main result, in terms of time: whenever the transmitter has left its wait, a client of the
      round whose last subscription was more than 5 before the clock reading for it has got no
      sender; any other has got exactly one, which has sent the head of the queue once. */
  lemma BarrierInTime(s: State, acts: seq<Action>, t: State, k: nat)
    requires Reachable(s, acts, t) && (t.tpc.TUnlockDone? || t.tpc.TDestroy? || t.tpc.TPop?) && k < |t.roundClients|
    ensures |t.visited| == |t.roundClients| && t.queue != []
    ensures var c := t.roundClients[k];
            if c.lastUpdate + 5 < t.visited[k].at then forall i :: !SenderOf(t, i, c.addr)
            else exists i :: SenderOf(t, i, c.addr) && (forall j :: SenderOf(t, j, c.addr) ==> j == i)
                   && Undone(t.senders[i].pc) == 0 && t.senders[i].delivered == [t.queue[0]]
  {
    Barrier(s, acts, t);
    RunKeepsExpiry(s, acts, t);
    hide Reachable, Runs;
    EntriesAt(t.visited, k);
  }
}
