/** The limit over the whole server: how many unpaid uploads an address can have waiting. */
module Limits {

  import opened Common
  import opened Results
  import opened Machine
  import opened Agreement
  import Overshoot

  /** A step of the machine, an upload asked for, or one given up by its client. */
  datatype Event = Asked(ip: Address) | Did(step: Step) | GaveUp(ip: Address)

  function StepOf(e: Event): seq<Step> {
    if e.Did? then [e.step] else []
  }

  /** The machine's part of a run. */
  function Steps(events: seq<Event>): seq<Step> {
    if events == [] then []
    else Steps(events[..|events| - 1]) + StepOf(events[|events| - 1])
  }

  /** What the event is for the limit, if anything. */
  function ActOf(s: State, e: Event): Option<Overshoot.Act> {
    match e
    case Asked(ip) => Some(Overshoot.Init(ip))
    case GaveUp(ip) => Some(Overshoot.Abandon(ip))
    case Did(a) =>
      match a
      case Track(j) =>
        if Tracks(s, a) && s.jobs[j].ip != NO_ADDRESS
        then Some(Overshoot.Complete(s.jobs[j].ip, s.jobs[j].id, s.now)) else None
      case Notify => if s.settling.Marked? then Some(Overshoot.Settle(s.settling.id)) else None
      case SweepIndex => Some(Overshoot.Clean(s.now - PENDING_TIMEOUT))
      case _ => None
  }

  ghost function Acts(s: State, events: seq<Event>): seq<Overshoot.Act> {
    if events == [] then []
    else
      var init := events[..|events| - 1];
      match ActOf(Run(s, Steps(init)), events[|events| - 1])
      case None => Acts(s, init)
      case Some(act) => Acts(s, init) + [act]
  }

  predicate Admitted(d: Overshoot.Desk, act: Option<Overshoot.Act>) {
    act.Some? && act.value.Complete? ==> d.Started(act.value.ip) > 0
  }

  /** Every file that is tracked belongs to an upload that was asked for, admitted and not given up. */
  ghost predicate AllAdmitted(s: State, events: seq<Event>, maxPending: nat) {
    events == [] ||
    var init := events[..|events| - 1];
    && AllAdmitted(s, init, maxPending)
    && Admitted(Overshoot.Run(Acts(s, init), maxPending), ActOf(Run(s, Steps(init)), events[|events| - 1]))
  }

  function After(d: Overshoot.Desk, act: Option<Overshoot.Act>, maxPending: nat): Overshoot.Desk {
    if act.Some? then Overshoot.Step(d, act.value, maxPending) else d
  }

  lemma CalmInit(s: State, events: seq<Event>)
    requires events != [] && CalmRun(s, Steps(events))
    ensures CalmRun(s, Steps(events[..|events| - 1]))
    ensures events[|events| - 1].Did? ==> !events[|events| - 1].step.Crash?
  {
    var init, e := events[..|events| - 1], events[|events| - 1];
    if e.Did? {
      assert Steps(events)[..|Steps(events)| - 1] == Steps(init);
    } else {
      assert Steps(events) == Steps(init);
    }
  }

  lemma IndexStays(s: State, a: Step)
    requires !a.Track? && !a.Notify? && !a.SweepIndex? && !a.Crash?
    ensures Apply(s, a).index == s.index
  {
  }

  /** What a step does to the index is what the limit knows of it. */
  lemma OnlyActs(s: State, a: Step, d: Overshoot.Desk, maxPending: nat)
    requires d.index == s.index && !a.Crash? && Admitted(d, ActOf(s, Did(a)))
    ensures Apply(s, a).index == After(d, ActOf(s, Did(a)), maxPending).index
  {
    if a.Track? {
      assert Apply(s, a) == DoTrack(s, a.j);
    } else if a.Notify? {
      assert Apply(s, a) == DoNotify(s);
    } else if a.SweepIndex? {
      assert Apply(s, a) == DoSweep(s);
    } else {
      IndexStays(s, a);
    }
  }

  lemma RunLast(s: State, events: seq<Event>)
    requires events != []
    ensures var init, e := events[..|events| - 1], events[|events| - 1];
      Run(s, Steps(events)) == if e.Did? then Apply(Run(s, Steps(init)), e.step) else Run(s, Steps(init))
  {
    var init, e := events[..|events| - 1], events[|events| - 1];
    if e.Did? {
      RunSnoc(s, Steps(init), e.step);
    } else {
      assert Steps(events) == Steps(init);
    }
  }

  lemma ActsLast(s: State, events: seq<Event>, maxPending: nat)
    requires events != []
    ensures var init := events[..|events| - 1];
      Overshoot.Run(Acts(s, events), maxPending)
      == After(Overshoot.Run(Acts(s, init), maxPending), ActOf(Run(s, Steps(init)), events[|events| - 1]), maxPending)
  {
    var init := events[..|events| - 1];
    assert ActOf(Run(s, Steps(init)), events[|events| - 1]).Some? ==>
      Acts(s, events)[..|Acts(s, init)|] == Acts(s, init);
  }

  /** The index of the machine is the one the limit is computed on. */
  lemma {:induction false} SameIndex(s: State, events: seq<Event>, maxPending: nat)
    requires Start(s) && CalmRun(s, Steps(events)) && AllAdmitted(s, events, maxPending)
    ensures Overshoot.Run(Acts(s, events), maxPending).index == Run(s, Steps(events)).index
  {
    if events != [] {
      var init, e := events[..|events| - 1], events[|events| - 1];
      CalmInit(s, events);
      SameIndex(s, init, maxPending);
      RunLast(s, events);
      ActsLast(s, events, maxPending);
      if e.Did? {
        OnlyActs(Run(s, Steps(init)), e.step, Overshoot.Run(Acts(s, init), maxPending), maxPending);
      }
    }
  }

  /**
   * Over every calm run in which an address keeps at most `k` uploads open: the files it has waiting for payment and
   * its open uploads together stay within the limit plus `k`, less one.
   */
  lemma WaitingIsBounded(s: State, events: seq<Event>, maxPending: nat, ip: Address, k: nat)
    requires Start(s) && CalmRun(s, Steps(events)) && AllAdmitted(s, events, maxPending)
    requires k > 0 && Overshoot.KeepsOpen(Acts(s, events), maxPending, ip, k)
    ensures |Unsettled(Run(s, Steps(events)), History(s, Steps(events)), ip)|
            + Overshoot.Run(Acts(s, events), maxPending).Started(ip) <= maxPending - 1 + k
  {
    SameIndex(s, events, maxPending);
    NeverUndercounts(s, Steps(events), ip);
    Overshoot.LoadIsBounded(Acts(s, events), maxPending, ip, k);
  }
}
