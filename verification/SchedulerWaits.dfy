/** How long a dispatcher waits before it pops the first server of its queue. */
module SchedulerWaits {
  import opened HeapModel
  import opened Scheduler
  import opened SchedulerProofs
  import opened SchedulerTheorems
  import opened SchedulerProgress

  /** A server that wants to be asked, or whose 30 seconds in WAIT are over; or a subscription that
      is 5 seconds old. */
  predicate Due(v: Server, kind: Kind, now: int) {
    match kind
    case NotSubscribed => v.state == SendReq || (v.state == Wait && v.lastAttempt + 30 <= now)
    case Subscribed => v.lastAttempt + 5 <= now
  }

  /** Whether, in a run, the last timed wait of the dispatcher since it began to look at its queue
      has ended by its timeout. */
  function CutShort(s: State, acts: seq<Action>, kind: Kind, sofar: bool): bool
    requires CanRun(s, acts)
    decreases |acts|
  {
    if acts == [] then sofar else CutShort(Step(s, acts[0]), acts[1..], kind, CutNow(s, acts[0], kind, sofar))
  }

  function CutNow(s: State, a: Action, kind: Kind, sofar: bool): bool {
    if a.Dispatch? && a.kind == kind && LaneOf(s, kind).pc.DFirst? then false
    else if a.Dispatch? && a.kind == kind && LaneOf(s, kind).pc.DTimedWait? then a.timedOut
    else sofar
  }

  predicate WaitOk(l: Lane, cut: bool) {
    l.pc.DTest? || l.pc.DRefetch? ==> l.pc.wait == !cut
  }

  lemma StepWaits(s: State, a: Action, kind: Kind, cut: bool)
    requires Enabled(s, a) && WaitOk(LaneOf(s, kind), cut)
    ensures WaitOk(LaneOf(Step(s, a), kind), CutNow(s, a, kind, cut))
  {
    hide Pop, Push, NotDue, NotResponding;
  }

  lemma {:induction false} RunWaits(s: State, acts: seq<Action>, t: State, kind: Kind, cut: bool)
    requires WaitOk(LaneOf(s, kind), cut) && Runs(s, acts, t) && CanRun(s, acts)
    ensures WaitOk(LaneOf(t, kind), CutShort(s, acts, kind, cut))
    decreases |acts|
  {
    if acts != [] {
      StepWaits(s, acts[0], kind, cut);
      hide WaitOk, Step, Enabled, CutNow;
      RunWaits(Step(s, acts[0]), acts[1..], t, kind, CutNow(s, acts[0], kind, cut));
    }
  }

  /** Main result: in every run, a dispatcher that has read the clock pops the first server exactly
      if that one is due at this reading or the last wait for it has run out; otherwise it waits,
      with the mutex released. */
  lemma PopsWhenDue(s: State, acts: seq<Action>, t: State, kind: Kind, now: int, timedOut: bool)
    requires Reachable(s, acts, t) && CanRun(s, acts) && LaneOf(t, kind).pc.DTest?
    ensures Enabled(t, Dispatch(kind, now, timedOut)) && LaneOf(t, kind).queue != []
    ensures var x, l := LaneOf(t, kind).queue[0], LaneOf(Step(t, Dispatch(kind, now, timedOut)), kind);
            && x < |t.servers|
            && if Due(t.servers[x], kind, now) || CutShort(s, acts, kind, false) then l.pc == DPop(x) && l.held
               else l.pc == DTimedWait && !l.held
  {
    ReachableInv(s, acts, t);
    RunWaits(s, acts, t, kind, false);
    hide Runs, CanRun, OwnedOk, HeapsOk, TagsOk, SlotsOk;
  }

  /** There is no other way to a pop. */
  lemma OnlyTestsPop(s: State, a: Action, kind: Kind)
    requires Enabled(s, a) && LaneOf(Step(s, a), kind).pc.DPop? && !LaneOf(s, kind).pc.DPop?
    ensures a.Dispatch? && a.kind == kind && LaneOf(s, kind).pc.DTest?
  {
    hide Push, NotDue, NotResponding, Pop;
  }
}
