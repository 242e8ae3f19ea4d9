/** The client's threads never block each other for good, and a dispatcher that waits for a
    request slot can be served. */
module SchedulerProgress {
  import opened HeapModel
  import opened Scheduler
  import opened SchedulerProofs
  import opened SchedulerTheorems

  /** A thread of the client, as opposed to the outside world. */
  predicate ByThread(a: Action) {
    a.Dispatch? || a.Send?
  }

  /** A dispatcher sleeps for want of a server only while its queue is empty. */
  lemma AsleepWithoutServer(s: State, acts: seq<Action>, t: State, kind: Kind)
    requires Reachable(s, acts, t) && LaneOf(t, kind).pc.DWaitEmpty?
    ensures LaneOf(t, kind).queue == []
  {
    ReachableInv(s, acts, t);
  }

  /** When a dispatcher falls asleep for want of a server: on an empty queue, and until a server is
      pushed into it; and it may always wake for no reason. */
  lemma SleepsWhileEmpty(s: State, a: Action, kind: Kind)
    requires Enabled(s, a)
    ensures LaneOf(Step(s, a), kind).pc.DWaitEmpty? <==>
            if LaneOf(s, kind).pc.DWaitEmpty? then
              a != SpuriousWake(kind) && !(a.Send? && s.senders[a.i].pc == RPush(kind))
            else a.Dispatch? && a.kind == kind && LaneOf(s, kind).pc.DCheck? && LaneOf(s, kind).queue == []
  {
    hide Pop, Push, NotDue, NotResponding;
  }

  // ----- no deadlock

  lemma {:induction false} HeldWitness(ss: seq<Sender>, x: Id) returns (i: nat)
    requires Held(ss, x) > 0
    ensures i < |ss| && Holds(ss[i].pc) && ss[i].server == x
  {
    var n := |ss| - 1;
    if HeldOne(ss[n], x) > 0 {
      i := n;
    } else {
      i := HeldWitness(ss[..n], x);
    }
  }

  lemma {:induction false} RunningWitness(ss: seq<Sender>) returns (i: nat)
    requires Running(ss) > 0
    ensures i < |ss| && !ss[i].pc.REnd?
  {
    var n := |ss| - 1;
    if ss[n].pc.REnd? {
      i := RunningWitness(ss[..n]);
    } else {
      i := n;
    }
  }

  /** With no slot free and a dispatcher waiting for one, some sender runs. */
  lemma SlotIsInUse(s: State, kind: Kind) returns (i: nat)
    requires Inv(s) && LaneOf(s, kind).pc.DAcquire? && s.slots == 0
    ensures i < |s.senders| && !s.senders[i].pc.REnd?
  {
    hide OwnedOk, HeapsOk, TagsOk, LaneOk, ResponsesOk, IdsOk;
    i := RunningWitness(s.senders);
  }

  /** If neither dispatcher can step, a sender can: not all servers can be waited for at once. */
  lemma BothWait(s: State) returns (i: nat)
    requires Inv(s) && s.servers != []
    requires !LaneEnabled(s.waiting, |s.servers|, s.slots) && !LaneEnabled(s.subscribed, |s.servers|, s.slots)
    ensures SEnabled(s, i)
  {
    if s.waiting.pc.DAcquire? && s.slots == 0 {
      i := SlotIsInUse(s, NotSubscribed);
    } else if s.subscribed.pc.DAcquire? && s.slots == 0 {
      i := SlotIsInUse(s, Subscribed);
    } else {
      assert s.waiting.pc.DWaitEmpty? && s.subscribed.pc.DWaitEmpty?;
      assert Places(s, 0) == 1;
      i := HeldWitness(s.senders, 0);
    }
  }

  /** As long as there is a server to deal with, some thread can step. Timed waits end when their
      time has come; sleeping dispatchers do not count. */
  lemma SomeoneCanStep(s: State, acts: seq<Action>, t: State) returns (a: Action)
    requires Reachable(s, acts, t) && t.servers != []
    ensures ByThread(a) && Enabled(t, a)
  {
    ReachableInv(s, acts, t);
    hide Inv, Reachable;
    if LaneEnabled(t.waiting, |t.servers|, t.slots) {
      a := Dispatch(NotSubscribed, 0, true);
    } else if LaneEnabled(t.subscribed, |t.servers|, t.slots) {
      a := Dispatch(Subscribed, 0, true);
    } else {
      var i := BothWait(t);
      a := Send(i, 0, true);
    }
  }

  // ----- steps to go

  /** Steps to the end of a sender, if its wait for a response ends by a response or in time. */
  function SRank(pc: SPc): nat {
    match pc
    case RSend => 7
    case RCheck(_) => 6
    case RSleep(_) => 5
    case RReply => 4
    case RDecide => 3
    case RPush(_) => 2
    case RPost => 1
    case REnd => 0
  }

  /** Steps of a dispatcher until it releases its mutex. */
  function DRank(l: Lane): nat {
    if !l.held then 0
    else
      match l.pc
      case DCheck => 6
      case DFirst => 5
      case DRefetch(_) => 5
      case DTest(_, _) => 4
      case DPop(_) => 3
      case DMark(_) => 2
      case _ => 1
  }

  predicate IsWake(s: State, a: Action, i: nat) {
    a.Send? && a.i == i && i < |s.senders| && s.senders[i].pc.RSleep? && !a.ok
  }

  lemma SendRanks(s: State, i: nat, now: int, ok: bool)
    requires SEnabled(s, i)
    ensures var t := SNext(s, i, now, ok);
            && |t.senders| == |s.senders|
            && SRank(t.senders[i].pc) + 1 <= SRank(s.senders[i].pc) + (if IsWake(s, Send(i, now, ok), i) then 2 else 0)
            && t.slots == s.slots + (if s.senders[i].pc.RPost? then 1 else 0)
            && (LaneOf(s, NotSubscribed).pc.DAcquire? ==> LaneOf(t, NotSubscribed).pc == LaneOf(s, NotSubscribed).pc)
            && (LaneOf(s, Subscribed).pc.DAcquire? ==> LaneOf(t, Subscribed).pc == LaneOf(s, Subscribed).pc)
  {
    hide Push, NotResponding;
  }

  lemma OthersStay(s: State, a: Action, i: nat)
    requires Enabled(s, a) && i < |s.senders| && !(a.Send? && a.i == i)
    ensures i < |Step(s, a).senders| && Step(s, a).senders[i] == s.senders[i]
  {
    hide Pop, Push, NotDue, NotResponding;
  }

  /** Inside its critical section a dispatcher can always go on, and comes nearer to its end. */
  lemma CriticalSection(s: State, kind: Kind)
    requires Inv(s) && LaneOf(s, kind).held
    ensures Enabled(s, Dispatch(kind, 0, false))
    ensures var t := Step(s, Dispatch(kind, 0, false));
            && DRank(LaneOf(t, kind)) < DRank(LaneOf(s, kind)) && t.senders == s.senders && t.slots == s.slots
            && (LaneOf(s, NotSubscribed).pc.DAcquire? ==> LaneOf(t, NotSubscribed).pc == LaneOf(s, NotSubscribed).pc)
            && (LaneOf(s, Subscribed).pc.DAcquire? ==> LaneOf(t, Subscribed).pc == LaneOf(s, Subscribed).pc)
  {
    hide OwnedOk, HeapsOk, TagsOk, SlotsOk, ResponsesOk, Pop, NotDue;
  }

  // ----- a slot comes free

  predicate SameAcquire(s: State, t: State) {
    && (s.waiting.pc.DAcquire? ==> t.waiting.pc == s.waiting.pc)
    && (s.subscribed.pc.DAcquire? ==> t.subscribed.pc == s.subscribed.pc)
  }

  /** The lane whose mutex sender `i` needs next. */
  function Obstacle(s: State, i: nat): nat
    requires i < |s.senders|
  {
    var pc := s.senders[i].pc;
    if pc.RPush? then DRank(LaneOf(s, pc.kind)) else 0
  }

  /** A running sender, and the dispatcher that is in its way, can go on until the sender gives
      its slot back, without the outside world. */
  lemma {:induction false} SlotComesFree(s: State, i: nat) returns (acts: seq<Action>, t: State)
    requires Inv(s) && i < |s.senders| && !s.senders[i].pc.REnd?
    ensures Runs(s, acts, t) && t.slots > 0 && SameAcquire(s, t) && Inv(t)
    ensures forall k | 0 <= k < |acts| :: ByThread(acts[k])
    decreases SRank(s.senders[i].pc), Obstacle(s, i)
  {
    var pc := s.senders[i].pc;
    var a := Send(i, 0, true);
    if pc.RPush? && LaneOf(s, pc.kind).held {
      a := Dispatch(pc.kind, 0, false);
      CriticalSection(s, pc.kind);
    } else {
      SendRanks(s, i, 0, true);
    }
    var u := Step(s, a);
    StepInv(s, a);
    assert s.slots >= 0;
    hide Inv, Step, Enabled;
    if pc.RPost? {
      acts, t := [a], u;
      assert acts[1..] == [];
    } else {
      var rest;
      rest, t := SlotComesFree(u, i);
      acts := [a] + rest;
      assert acts[1..] == rest;
    }
  }

  /** Main result: a dispatcher that waits for a slot while all are in use can be served: the
      threads alone can reach a state in which it can take one. */
  lemma SlotServed(s: State, before: seq<Action>, t: State, kind: Kind) returns (acts: seq<Action>, u: State)
    requires Reachable(s, before, t) && LaneOf(t, kind).pc.DAcquire? && t.slots == 0
    ensures Runs(t, acts, u) && forall k | 0 <= k < |acts| :: ByThread(acts[k])
    ensures LaneOf(u, kind).pc == LaneOf(t, kind).pc && u.slots > 0 && Enabled(u, Dispatch(kind, 0, false))
  {
    ReachableInv(s, before, t);
    hide Inv, Reachable, Runs;
    var i := SlotIsInUse(t, kind);
    acts, u := SlotComesFree(t, i);
  }

  // ----- every sender ends

  /** A run of enabled steps. */
  predicate CanRun(s: State, acts: seq<Action>)
    decreases |acts|
  {
    acts != [] ==> Enabled(s, acts[0]) && CanRun(Step(s, acts[0]), acts[1..])
  }

  function StepsOf(acts: seq<Action>, i: nat): nat {
    if acts == [] then 0 else (if acts[0].Send? && acts[0].i == i then 1 else 0) + StepsOf(acts[1..], i)
  }

  /** How often the sender's wait for a response ends before its time. */
  function Wakes(s: State, acts: seq<Action>, i: nat): nat
    requires CanRun(s, acts)
    decreases |acts|
  {
    if acts == [] then 0 else (if IsWake(s, acts[0], i) then 1 else 0) + Wakes(Step(s, acts[0]), acts[1..], i)
  }

  /** Main result: a sender takes at most seven steps, and two more for each time it is woken
      early, whatever the other threads and the outside world do. */
  lemma {:induction false} SenderIsBounded(s: State, acts: seq<Action>, i: nat)
    requires CanRun(s, acts) && i < |s.senders|
    ensures StepsOf(acts, i) <= SRank(s.senders[i].pc) + 2 * Wakes(s, acts, i)
    decreases |acts|
  {
    if acts != [] {
      var a := acts[0];
      if a.Send? && a.i == i {
        SendRanks(s, i, a.now, a.ok);
      } else {
        OthersStay(s, a, i);
      }
      hide Enabled, SRank, IsWake;
      SenderIsBounded(Step(s, a), acts[1..], i);
    }
  }
}
