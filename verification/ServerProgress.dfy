/** Every round of transmissions comes to its end: no step that must happen is ever blocked
    for good, and only finitely many steps can happen. */
module ServerProgress {
  import opened ServerRound
  import opened ServerTheorems

  /** A thread of the server, as opposed to the outside world. */
  predicate ByThread(a: Action) {
    a.Transmit? || a.Send?
  }

  // ----- what never blocks

  /** At most three senders hold a slot at any time. */
  lemma AtMostThreeActive(s: State, acts: seq<Action>, t: State)
    requires Reachable(s, acts, t)
    ensures Sum(t.senders, Active) <= 3
  {
    ReachableInv(s, acts, t);
  }

  /** Decrementing the done semaphore never blocks: neither a sender, nor the transmitter for an
      expired client. */
  lemma DoneNeverBlocks(s: State, acts: seq<Action>, t: State)
    requires Reachable(s, acts, t)
    ensures t.tpc.TExpireWait? ==> t.done > 0
    ensures forall i | 0 <= i < |t.senders| && t.senders[i].pc.SWait? :: t.done > 0
  {
    ReachableInv(s, acts, t);
    hide Reachable;
    forall i | 0 <= i < |t.senders| && t.senders[i].pc.SWait? ensures t.done > 0 {
      SumBound(t.senders, Undone, i);
    }
  }

  /** No wake-up is lost: a transmitter that sleeps although the count is zero still has a
      sender before its signal check, leftover senders of earlier rounds notwithstanding. */
  lemma NoLostWakeUp(s: State, acts: seq<Action>, t: State)
    requires Reachable(s, acts, t) && t.tpc == TSleepDone && t.done == 0
    ensures exists i :: 0 <= i < |t.senders| && Signaller(t.senders[i].pc)
  {
    ReachableInv(s, acts, t);
  }

  /** With the done mutex in hand, a sender goes on to its signal exactly if it reads zero, and so
      does the transmitter for an expired client. */
  lemma SignalAtZero(s: State, a: Action)
    requires Enabled(s, a)
    ensures a.Send? ==> (Step(s, a).senders[a.i].pc.SSignal? <==> s.senders[a.i].pc.SCheck? && s.done == 0)
    ensures Step(s, a).tpc.TExpireSignal? && s.tpc != Step(s, a).tpc <==>
            a.Transmit? && s.tpc.TExpireCheck? && s.done == 0
  {
    hide Remove, Refresh, Expired;
  }

  /** When the transmitter falls asleep and wakes: for the senders, on a count that is not zero and
      until a sender signals; for a message, on an empty queue and until one is loaded; and it may
      always wake for no reason. */
  lemma SleepsAndWakes(s: State, a: Action)
    requires Enabled(s, a)
    ensures Step(s, a).tpc.TSleepDone? <==>
            if s.tpc.TSleepDone? then !a.SpuriousWake? && !(a.Send? && s.senders[a.i].pc.SSignal?)
            else a.Transmit? && s.tpc.TCheckDone? && s.done != 0
    ensures Step(s, a).tpc.TWaitQueue? <==>
            if s.tpc.TWaitQueue? then !a.SpuriousWake? && !a.Load?
            else a.Transmit? && s.tpc.TCheckQueue? && s.queue == []
  {
    hide TNext, TEnabled, SNext, SEnabled, Refresh;
    if a.Transmit? {
      FallsAsleep(s, a.now);
    } else if a.Send? {
      SenderEffect(s, a.i);
    }
  }

  lemma FallsAsleep(s: State, now: int)
    requires TEnabled(s, now)
    ensures !s.tpc.TSleepDone? && !s.tpc.TWaitQueue?
    ensures TNext(s, now).tpc.TSleepDone? <==> s.tpc.TCheckDone? && s.done != 0
    ensures TNext(s, now).tpc.TWaitQueue? <==> s.tpc.TCheckQueue? && s.queue == []
  {
    hide Remove, Expired;
  }

  /** No client is deleted while a sender may still read its address. */
  lemma ClientsOutliveSenders(s: State, acts: seq<Action>, t: State)
    requires Reachable(s, acts, t)
    ensures forall i | 0 <= i < |t.senders| && Undone(t.senders[i].pc) > 0 :: Has(t.clients, t.senders[i].client)
  {
    ReachableInv(s, acts, t);
  }

  /** The two mutexes shut the outside world out for just as long as they must: from its look at
      the queue to the removal of the head the transmitter lets no file in, and from the start of
      the round to the end of the iteration no subscription. */
  lemma WorldShutOut(s: State, acts: seq<Action>, t: State, file: nat, addr: Addr, now: int)
    requires Reachable(s, acts, t) && now >= t.clock
    ensures Enabled(t, Load(file, now)) <==>
            t.tpc.TLockQueue? || t.tpc.TWaitQueue? || t.tpc.TWokenQueue? || t.tpc.TFile?
    ensures Enabled(t, Subscribe(addr, now)) <==>
            !(t.tpc.TInitSem? || t.tpc.TLoop? || t.tpc.TExpireWait? || t.tpc.TExpireLock? || t.tpc.TExpireCheck?
              || t.tpc.TExpireSignal? || t.tpc.TExpireUnlock? || t.tpc.TAcquire? || t.tpc.TSpawn? || t.tpc.TUnlockMap?)
  {
    ReachableInv(s, acts, t);
    hide Reachable, SlotsOk, BarrierOk, SendersOk, MutexOk, WakeOk, KeysOk, ClientsOk, InUseOk, AssignedOk;
  }

  // ----- progress

  lemma SenderCanStep(s: State, i: nat)
    requires Inv(s) && i < |s.senders| && Undone(s.senders[i].pc) > 0
    ensures SEnabled(s, i)
  {
    SumBound(s.senders, Undone, i);
    UndoneInRound(s, i);
    HeadIsRoundMessage(s);
  }

  /** If a sender is in the way at the done mutex, it can step. */
  lemma MutexHolderCanStep(s: State)
    requires Inv(s) && s.doneMutex.BySender?
    ensures SEnabled(s, s.doneMutex.i)
  {
    assert HoldsDone(s.senders[s.doneMutex.i].pc);
  }

  lemma AsleepProgress(s: State) returns (i: nat)
    requires Inv(s) && s.tpc == TSleepDone
    ensures SEnabled(s, i)
  {
    if s.done != 0 {
      i := SumWitness(s.senders, Undone);
      SenderCanStep(s, i);
    } else {
      i :| 0 <= i < |s.senders| && Signaller(s.senders[i].pc);
      if s.senders[i].pc.SLock? && s.doneMutex != Nobody {
        i := s.doneMutex.i;
        MutexHolderCanStep(s);
      }
    }
  }

  lemma AcquireProgress(s: State) returns (i: nat)
    requires Inv(s) && s.tpc.TAcquire? && s.slots == 0
    ensures SEnabled(s, i)
  {
    i := SumWitness(s.senders, Active);
    SenderCanStep(s, i);
  }

  /** The transmitter sleeps for want of a message only while there is none. */
  lemma AsleepWithoutMessage(s: State, acts: seq<Action>, t: State)
    requires Reachable(s, acts, t) && t.tpc == TWaitQueue
    ensures t.queue == [] && !t.queueHeld && !t.mapHeld
  {
    ReachableInv(s, acts, t);
  }

  /** Unless the transmitter sleeps for want of a message, some thread can always step: the
      threads never deadlock, whichever mutexes the transmitter holds, and the head is never
      taken from an empty queue. */
  lemma Progress(s: State, now: int) returns (a: Action)
    requires Inv(s) && s.tpc != TWaitQueue && now >= s.clock
    ensures ByThread(a) && Enabled(s, a)
  {
    a := Transmit(now);
    if s.tpc == TSleepDone {
      var i := AsleepProgress(s);
      a := Send(i);
    } else if s.tpc.TAcquire? && s.slots == 0 {
      var i := AcquireProgress(s);
      a := Send(i);
    } else if (s.tpc.TExpireLock? || s.tpc.TLockDone? || s.tpc.TWoken?) && s.doneMutex != Nobody {
      MutexHolderCanStep(s);
      a := Send(s.doneMutex.i);
    }
  }

  /** The head of the queue is there when the transmitter takes it, and when a sender reads it. */
  lemma HeadIsThere(s: State, acts: seq<Action>, t: State)
    requires Reachable(s, acts, t)
    ensures t.tpc.TInitSem? || t.tpc.TPop? ==> t.queue != []
    ensures forall i | 0 <= i < |t.senders| && t.senders[i].pc.SRead? :: t.queue != []
  {
    ReachableInv(s, acts, t);
    hide Reachable;
    forall i | 0 <= i < |t.senders| && t.senders[i].pc.SRead? ensures t.queue != [] {
      UndoneInRound(t, i);
    }
  }

  // ----- termination

  /** Steps a sender can still make, with a surcharge for waking the transmitter. */
  function SRank(pc: SPc): nat {
    match pc
    case SRead => 11
    case SSend => 10
    case SPost => 9
    case SWait => 8
    case SLock => 7
    case SCheck => 6
    case SSignal => 5
    case SUnlock => 1
    case SEnd => 0
  }

  /** Steps the transmitter can still make in this round, with those of the senders it will
      create. */
  function TRank(t: TPc): nat {
    match t
    case TLoop(rest) => 20 * |rest| + 10
    case TExpireWait(rest) => 20 * |rest| + 15
    case TExpireLock(rest) => 20 * |rest| + 14
    case TExpireCheck(rest) => 20 * |rest| + 13
    case TExpireSignal(rest) => 20 * |rest| + 12
    case TExpireUnlock(rest) => 20 * |rest| + 11
    case TAcquire(_, rest) => 20 * |rest| + 29
    case TSpawn(_, rest) => 20 * |rest| + 28
    case TUnlockMap => 9
    case TLockDone => 8
    case TWoken => 7
    case TCheckDone => 6
    case TSleepDone => 5
    case TUnlockDone => 2
    case TDestroy => 1
    case _ => 0
  }

  function Measure(s: State): nat {
    TRank(s.tpc) + Sum(s.senders, SRank)
  }

  lemma IterationDecreases(s: State, now: int)
    requires TEnabled(s, now) && Iterating(s.tpc)
    ensures Measure(IterationNext(s, now)) < Measure(s)
  {
    hide Sum, Remove;
    if s.tpc.TSpawn? {
      SumAppend(s.senders, SRank, Sender(SRead, s.tpc.el.addr, |s.roundMsgs|, None, []));
    }
  }

  lemma WaitDecreases(s: State, now: int)
    requires TEnabled(s, now) && Waiting(s.tpc)
    ensures Measure(WaitNext(s, now)) < Measure(s)
  {
    hide Sum;
  }

  lemma SendDecreases(s: State, i: nat)
    requires SEnabled(s, i)
    ensures Measure(SNext(s, i)) < Measure(s)
  {
    hide Sum, SNext, SEnabled, SRank, TRank;
    SenderEffect(s, i);
    RankDrops(s, i);
    SumUpdate(s.senders, SRank, i, SNext(s, i).senders[i]);
  }

  /** Only waking the transmitter raises its rank, and by less than the sender's falls. */
  lemma RankDrops(s: State, i: nat)
    requires SEnabled(s, i)
    ensures var t := SNext(s, i);
            i < |t.senders| && TRank(t.tpc) + SRank(t.senders[i].pc) < TRank(s.tpc) + SRank(s.senders[i].pc)
  {
  }

  /** In a round every thread step decreases the measure; the world changes it only by a
      spurious wake-up, which adds two. */
  lemma MeasureStep(s: State, a: Action)
    requires InRound(s.tpc) && Enabled(s, a)
    ensures ByThread(a) ==> Measure(Step(s, a)) < Measure(s)
    ensures !ByThread(a) ==> Measure(Step(s, a)) == Measure(s) + if a.SpuriousWake? then 2 else 0
  {
    hide Sum, Refresh, IterationNext, WaitNext, SNext;
    match a
    case Transmit(now) =>
      if Iterating(s.tpc) {
        IterationDecreases(s, now);
      } else {
        WaitDecreases(s, now);
      }
    case Send(i) => SendDecreases(s, i);
    case _ =>
  }

  /** A run all of whose steps start inside a round. */
  predicate StaysInRound(s: State, acts: seq<Action>)
    decreases |acts|
  {
    acts != [] ==> Enabled(s, acts[0]) && InRound(s.tpc) && StaysInRound(Step(s, acts[0]), acts[1..])
  }

  function ThreadSteps(acts: seq<Action>): nat {
    if acts == [] then 0 else (if ByThread(acts[0]) then 1 else 0) + ThreadSteps(acts[1..])
  }

  function SpuriousWakes(acts: seq<Action>): nat {
    if acts == [] then 0 else (if acts[0].SpuriousWake? then 1 else 0) + SpuriousWakes(acts[1..])
  }

  /** Main result: from any state, the threads can make only so many steps before the round is
      over, whatever the outside world does; only spurious wake-ups add to the bound. */
  lemma {:induction false} RoundIsBounded(s: State, acts: seq<Action>)
    requires StaysInRound(s, acts)
    ensures ThreadSteps(acts) <= Measure(s) + 2 * SpuriousWakes(acts)
    decreases |acts|
  {
    hide Enabled, Step, Measure;
    if acts != [] {
      MeasureStep(s, acts[0]);
      RoundIsBounded(Step(s, acts[0]), acts[1..]);
    }
  }

  /** And the threads alone can always take the round to its end. */
  lemma {:induction false} RoundCanFinish(s: State) returns (acts: seq<Action>, t: State)
    requires Inv(s) && InRound(s.tpc)
    ensures Runs(s, acts, t) && !InRound(t.tpc) && RoundComplete(t)
    ensures forall i | 0 <= i < |acts| :: ByThread(acts[i])
    decreases Measure(s)
  {
    hide Inv, Enabled, Step, RoundComplete, Measure, InRound;
    InRoundAwake(s);
    var a := Progress(s, s.clock);
    var u := Step(s, a);
    StepInv(s, a);
    MeasureStep(s, a);
    if InRound(u.tpc) {
      var rest;
      rest, t := RoundCanFinish(u);
      acts := [a] + rest;
    } else {
      acts, t := [a], u;
      assert acts[1..] == [];
      LeavesAtPop(s, a);
      WaitOver(u);
    }
  }

  lemma InRoundAwake(s: State)
    requires InRound(s.tpc)
    ensures s.tpc != TWaitQueue
  {
  }

  lemma LeavesAtPop(s: State, a: Action)
    requires InRound(s.tpc) && Enabled(s, a) && !InRound(Step(s, a).tpc)
    ensures Step(s, a).tpc == TPop
  {
    if a.Transmit? {
      hide Remove, Expired, SNext, SEnabled;
    } else {
      hide TNext, TEnabled, SNext, SEnabled;
      if a.Send? {
        SenderEffect(s, a.i);
      }
      WakeIsHarmless(s.tpc);
    }
  }

  // ----- first in, first out

  predicate SameKey(m: Message, n: Message) {
    m.time == n.time && m.id == n.id
  }

  /** The sent messages are a prefix of the loaded ones, in order; their keys are distinct, so
      that the sent map keeps every one of them. */
  lemma SentIsPrefix(s: State, acts: seq<Action>, t: State)
    requires Reachable(s, acts, t)
    ensures t.sent <= t.loaded && t.loaded == t.sent + InTransfer(t.tpc) + t.queue
    ensures forall i, j | 0 <= i < j < |t.sent| :: !SameKey(t.sent[i], t.sent[j])
  {
    ReachableInv(s, acts, t);
    assert forall i | 0 <= i < |t.sent| :: t.sent[i] == t.loaded[i];
  }

  /** Rounds go through the loaded messages in order, one message each, and every sender has
      read the message of the round that created it. */
  lemma RoundsFollowLoading(s: State, acts: seq<Action>, t: State)
    requires Reachable(s, acts, t)
    ensures t.roundMsgs <= t.loaded
    ensures forall i | 0 <= i < |t.senders| && !t.senders[i].pc.SRead? ::
              1 <= t.senders[i].round <= |t.roundMsgs| && t.senders[i].msg == Some(t.loaded[t.senders[i].round - 1])
  {
    ReachableInv(s, acts, t);
    hide Reachable;
    assert t.roundMsgs <= t.loaded;
  }
}
