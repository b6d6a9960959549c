/** src/dispatch-circuit-breaker.ts, class DispatchCircuitBreaker: transition-stuck detection. */
module StuckDetector {
  import opened Prelude
  import opened Labels

  datatype Tracking = Tracking(
    stateLabel: Option<string>,
    wakes: nat,
    lastActivityAt: Option<int>,
    alerting: bool,
    approver: Option<string>)

  datatype Report = Report(shouldAlert: bool, wakes: nat, stateLabel: Option<string>)

  function WakeStep(existing: Option<Tracking>, labels: seq<string>, maxWakes: int): Tracking {
    var wf, approver := WorkflowLabel(labels), DesignatedApprover(labels);
    match existing
    case None => Tracking(wf, 1, None, wf.Some? && approver.None? && 1 >= maxWakes, approver)
    case Some(e) =>
      if wf.None? then e.(stateLabel := None, wakes := e.wakes + 1, alerting := false, approver := approver)
      else if e.lastActivityAt.Some? then e.(wakes := 1, alerting := false, approver := approver)
      else Tracking(wf, e.wakes + 1, None, approver.None? && e.wakes + 1 >= maxWakes, approver)
  }

  function ReportOf(existing: Option<Tracking>): Report {
    match existing
    case None => Report(false, 0, None)
    case Some(e) =>
      Report(e.approver.None? && e.stateLabel.Some? && e.alerting, e.wakes, e.stateLabel)
  }

  class Detector {
    var tracked: map<string, Tracking>
    const maxWakes: int

    constructor (maxWakesBeforeAlert: Option<int>)
      ensures tracked == map[] && maxWakes == maxWakesBeforeAlert.GetOr(3)
    {
      tracked := map[];
      maxWakes := maxWakesBeforeAlert.GetOr(3);
    }

    method RecordWake(ticket: string, labels: seq<string>)
      modifies this
      ensures tracked == old(tracked)[ticket := WakeStep(Lookup(old(tracked), ticket), labels, maxWakes)]
    {
      var wf := WorkflowLabel(labels);
      var approver := DesignatedApprover(labels);
      if ticket !in tracked {
        var shouldAlert := if wf.Some? && approver.None? then 1 >= maxWakes else false;
        tracked := tracked[ticket := Tracking(wf, 1, None, shouldAlert, approver)];
        return;
      }
      var existing := tracked[ticket];
      if wf.None? {
        tracked := tracked[ticket := existing.(stateLabel := None, wakes := existing.wakes + 1, alerting := false, approver := approver)];
        return;
      }
      if existing.lastActivityAt.Some? {
        tracked := tracked[ticket := existing.(wakes := 1, alerting := false, approver := approver)];
        return;
      }
      var newCount := existing.wakes + 1;
      tracked := tracked[ticket := Tracking(wf, newCount, existing.lastActivityAt, approver.None? && newCount >= maxWakes, approver)];
    }

    method RecordDelegateActivity(ticket: string, now: int)
      modifies this
      ensures tracked == if ticket in old(tracked)
                         then old(tracked)[ticket := ActivityStep(old(tracked)[ticket], now)] else old(tracked)
    {
      if ticket !in tracked { return; }
      tracked := tracked[ticket := tracked[ticket].(wakes := 0, lastActivityAt := Some(now), alerting := false)];
    }

    method Evaluate(ticket: string) returns (r: Report)
      ensures r == ReportOf(Lookup(tracked, ticket))
    {
      if ticket !in tracked { return Report(false, 0, None); }
      var e := tracked[ticket];
      if e.approver.Some? { return Report(false, e.wakes, e.stateLabel); }
      if e.stateLabel.None? { return Report(false, e.wakes, None); }
      if e.alerting { return Report(true, e.wakes, e.stateLabel); }
      return Report(false, e.wakes, e.stateLabel);
    }

    method Reset(ticket: string)
      modifies this
      ensures tracked == old(tracked) - {ticket}
    {
      tracked := tracked - {ticket};
    }
  }

  function ActivityStep(e: Tracking, now: int): Tracking {
    e.(wakes := 0, lastActivityAt := Some(now), alerting := false)
  }

  // ---- One ticket's history ----

  datatype Event = Wake(labels: seq<string>) | Activity(at: int) | Forget

  function Apply(t: Option<Tracking>, e: Event, maxWakes: int): Option<Tracking> {
    match e
    case Wake(labels) => Some(WakeStep(t, labels, maxWakes))
    case Activity(at) => if t.Some? then Some(ActivityStep(t.value, at)) else None
    case Forget => None
  }

  function Run(es: seq<Event>, maxWakes: int): Option<Tracking> {
    if es == [] then None else Apply(Run(es[..|es| - 1], maxWakes), es[|es| - 1], maxWakes)
  }

  /** Wakes since the ticket was last forgotten. */
  function WakesSinceForgotten(es: seq<Event>): nat {
    if es == [] then 0
    else match es[|es| - 1]
      case Forget => 0
      case Wake(_) => WakesSinceForgotten(es[..|es| - 1]) + 1
      case Activity(_) => WakesSinceForgotten(es[..|es| - 1])
  }

  /** Some delegate activity followed some wake since the ticket was last forgotten. */
  predicate ActedOn(es: seq<Event>) {
    es != [] &&
    match es[|es| - 1]
    case Forget => false
    case Wake(_) => ActedOn(es[..|es| - 1])
    case Activity(_) => WakesSinceForgotten(es[..|es| - 1]) > 0
  }

  /** The labels of the latest wake since the ticket was last forgotten. */
  function LastWake(es: seq<Event>): Option<seq<string>> {
    if es == [] then None
    else match es[|es| - 1]
      case Forget => None
      case Wake(labels) => Some(labels)
      case Activity(_) => LastWake(es[..|es| - 1])
  }

  /**
   * When the detector alerts, in terms of the whole history: the ticket is governed and not awaiting a named
   * approver as of its latest wake, it has been woken at least maxWakes times, and no delegate activity at all
   * was recorded since tracking began. One activity silences the ticket until it is reset, however many fruitless
   * wakes follow: the counter is meant to start again from it, but the activity stamp is never cleared.
   */
  lemma {:induction false} AlertsExactly(es: seq<Event>, maxWakes: int)
    ensures ReportOf(Run(es, maxWakes)).shouldAlert <==>
            && LastWake(es).Some? && WorkflowLabel(LastWake(es).value).Some? && DesignatedApprover(LastWake(es).value).None?
            && !ActedOn(es)
            && WakesSinceForgotten(es) >= maxWakes
  {
    HistoryFacts(es, maxWakes);
  }

  lemma {:induction false} HistoryFacts(es: seq<Event>, maxWakes: int)
    ensures var t := Run(es, maxWakes);
            && (t.Some? <==> WakesSinceForgotten(es) > 0) && (t.Some? <==> LastWake(es).Some?)
            && (t.Some? ==>
                  && (t.value.lastActivityAt.Some? <==> ActedOn(es))
                  && (!ActedOn(es) ==> t.value.wakes == WakesSinceForgotten(es))
                  && t.value.approver == DesignatedApprover(LastWake(es).value)
                  && (WorkflowLabel(LastWake(es).value).None? ==> t.value.stateLabel.None?)
                  && (t.value.alerting ==> !ActedOn(es) && t.value.stateLabel.Some?)
                  && (!ActedOn(es) && WorkflowLabel(LastWake(es).value).Some? ==>
                        && t.value.stateLabel.Some?
                        && (t.value.alerting <==> t.value.approver.None? && t.value.wakes >= maxWakes)))
            && (t.None? ==> !ActedOn(es))
  {
    if es != [] {
      HistoryFacts(es[..|es| - 1], maxWakes);
    }
  }
}
