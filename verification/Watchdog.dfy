/** src/first-action-watchdog.ts and src/first-action-watchdog-state.ts: the per-ticket escalation ladder. */
module Watchdog {
  import opened Prelude
  import opened Reroute

  const MAX_ARM_LOOKBACK_MS := 7200000

  datatype StallReason =
    | WakeNotDelivered | SessionDead | QueueStarved | ModelDegraded
    | ActivelyProcessing | CapabilityBlocked | WakeTurnFailed

  datatype Rung = Redispatch | Unreachable | Rerouted(to: string)

  datatype Ladder = Ladder(
    state: string,
    delegate: string,
    armedAt: int,
    deliveredAt: Option<int>,
    deadlineAt: int,
    rungsFired: int,
    unreachable: bool,
    history: seq<Rung>)

  datatype Ticket = Ticket(
    id: string,
    state: string,
    delegate: string,
    humanAssigned: bool,
    labels: seq<string>,
    deliveredAt: int,
    firstActionAt: Option<int>,
    suppliedRungs: Option<int>,
    stall: Option<StallReason>)

  datatype Settings = Settings(now: int, defaultDeadlineMs: int, maxRungs: int, policy: Option<Policy>)

  /** An injected callback may be missing, may return, or may throw. */
  datatype Callback = Absent | Returns | Throws
  datatype CrossCheck = NotWired | Live | Stale | Unknown | CheckThrows

  /** What the outside world answers while one ticket is swept. */
  datatype Answers = Answers(
    deadlineOverride: Option<int>,
    ownerRole: Option<string>,
    crossCheck: CrossCheck,
    notify: Callback,
    redispatch: Callback,
    escalate: Callback,
    reroute: Callback)

  datatype Tally = Tally(
    scanned: nat, armed: nat, breached: nat, redispatched: nat, unreachable: nat,
    reroutes: nat, staleCleared: nat, humanExcluded: nat, errors: nat)
  {
    function Plus(o: Tally): Tally {
      Tally(scanned + o.scanned, armed + o.armed, breached + o.breached, redispatched + o.redispatched,
            unreachable + o.unreachable, reroutes + o.reroutes, staleCleared + o.staleCleared,
            humanExcluded + o.humanExcluded, errors + o.errors)
    }
  }

  const EmptyTally := Tally(0, 0, 0, 0, 0, 0, 0, 0, 0)

  /** One ticket's visit: the ladder left in the store, the rungs fired on the way, and the counters. */
  datatype Visit = Visit(ladder: Option<Ladder>, fired: seq<Rung>, tally: Tally)

  predicate Excluded(t: Ticket) {
    t.humanAssigned || "needs-human" in t.labels
  }

  /** A stored ladder belongs to a dispatch by its raw delivery time; older ladders carry it as their armed time. */
  predicate SameDispatch(l: Option<Ladder>, deliveredAt: int) {
    l.Some? && (if l.value.deliveredAt.Some? then l.value.deliveredAt.value == deliveredAt else l.value.armedAt == deliveredAt)
  }

  function ArmedAt(s: Settings, t: Ticket, l: Option<Ladder>): int {
    if SameDispatch(l, t.deliveredAt) then l.value.armedAt
    else if s.now - t.deliveredAt > MAX_ARM_LOOKBACK_MS then s.now
    else t.deliveredAt
  }

  function DeadlineMs(s: Settings, a: Answers): int {
    a.deadlineOverride.GetOr(s.defaultDeadlineMs)
  }

  predicate Breached(s: Settings, t: Ticket, a: Answers, l: Option<Ladder>) {
    var deadlineAt := ArmedAt(s, t, l) + DeadlineMs(s, a);
    !(t.firstActionAt.Some? && t.firstActionAt.value <= deadlineAt) && s.now >= deadlineAt
  }

  function PriorRungs(t: Ticket, l: Option<Ladder>): int {
    t.suppliedRungs.GetOr(if SameDispatch(l, t.deliveredAt) then l.value.rungsFired else 0)
  }

  function PriorHistory(t: Ticket, l: Option<Ladder>): seq<Rung> {
    if SameDispatch(l, t.deliveredAt) then l.value.history else []
  }

  predicate AlreadyUnreachable(t: Ticket, l: Option<Ladder>) {
    SameDispatch(l, t.deliveredAt) && l.value.unreachable
  }

  function Stored(s: Settings, t: Ticket, a: Answers, l: Option<Ladder>, rungs: int, unreachable: bool, fired: seq<Rung>): Option<Ladder> {
    var armed := ArmedAt(s, t, l);
    Some(Ladder(t.state, t.delegate, armed, Some(t.deliveredAt), armed + DeadlineMs(s, a), rungs, unreachable,
                PriorHistory(t, l) + fired))
  }

  /** Rung 3 after exhaustion: only under the declared owner role, and only when re-routing is wired. */
  function Rung3(s: Settings, t: Ticket, a: Answers): Option<string> {
    if Truthy(a.ownerRole) && !a.reroute.Absent? then
      var target := RerouteTarget(s.policy, a.ownerRole.value, t.delegate);
      if Truthy(target) then target else None
    else None
  }

  /** Where a degraded model may be moved to instead of being re-woken. */
  function DegradedTarget(s: Settings, t: Ticket, a: Answers): Option<string> {
    var role := ModelDegradedRole(a.ownerRole, t.delegate, s.policy);
    if Truthy(role) && !a.reroute.Absent? then
      var target := RerouteTarget(s.policy, role.value, t.delegate);
      if Truthy(target) then target else None
    else None
  }

  function SweepTicket(s: Settings, t: Ticket, a: Answers, l: Option<Ladder>): Visit {
    var seen := EmptyTally.(scanned := 1);
    if Excluded(t) then Visit(l, [], seen.(humanExcluded := 1))
    else
      var prior, alreadyDown := PriorRungs(t, l), AlreadyUnreachable(t, l);
      var armed := seen.(armed := 1);
      var breach := armed.(breached := 1);
      if !Breached(s, t, a, l) then Visit(Stored(s, t, a, l, prior, alreadyDown, []), [], armed)
      else if t.stall == Some(ActivelyProcessing) then Visit(l, [], breach)
      else if a.crossCheck.Stale? then Visit(None, [], breach.(staleCleared := 1))
      else if alreadyDown then Visit(Stored(s, t, a, l, prior, true, []), [], breach)
      else if prior >= s.maxRungs then
        var down := breach.(unreachable := 1);
        if a.notify.Throws? || a.escalate.Throws? then Visit(l, [Unreachable], down.(errors := 1))
        else
          var target := Rung3(s, t, a);
          if target.None? then Visit(Stored(s, t, a, l, prior, true, [Unreachable]), [Unreachable], down)
          else
            var fired := [Unreachable, Rerouted(target.value)];
            if a.reroute.Throws? then Visit(l, fired, down.(errors := 1))
            else Visit(Stored(s, t, a, l, prior, true, fired), fired, down.(reroutes := 1))
      else if t.stall == Some(WakeTurnFailed) || t.stall == Some(SessionDead) then
        var down := breach.(unreachable := 1);
        if a.notify.Throws? || a.escalate.Throws? then Visit(l, [Unreachable], down.(errors := 1))
        else Visit(Stored(s, t, a, l, s.maxRungs, true, [Unreachable]), [Unreachable], down)
      else if t.stall == Some(ModelDegraded) && DegradedTarget(s, t, a).Some? then
        var fired := [Rerouted(DegradedTarget(s, t, a).value)];
        if a.reroute.Throws? then Visit(l, fired, breach.(errors := 1))
        else Visit(Stored(s, t, a, l, s.maxRungs, false, fired), fired, breach.(reroutes := 1))
      else if a.redispatch.Throws? then Visit(l, [Redispatch], breach.(errors := 1))
      else Visit(Stored(s, t, a, l, prior + 1, false, [Redispatch]), [Redispatch], breach.(redispatched := 1))
  }

  /** The visit goes as far as escalating. */
  predicate Escalates(s: Settings, t: Ticket, a: Answers, l: Option<Ladder>) {
    && !Excluded(t) && Breached(s, t, a, l) && t.stall != Some(ActivelyProcessing) && !a.crossCheck.Stale?
    && !AlreadyUnreachable(t, l)
  }

  /** The visit raises the unreachable alert: the rungs are used up, or the cause rules a re-dispatch out. */
  predicate Alerts(s: Settings, t: Ticket, a: Answers, l: Option<Ladder>) {
    Escalates(s, t, a, l) && (PriorRungs(t, l) >= s.maxRungs || t.stall == Some(WakeTurnFailed) || t.stall == Some(SessionDead))
  }

  /** Some callback the escalation invokes throws. */
  predicate CallbackThrows(s: Settings, t: Ticket, a: Answers, l: Option<Ladder>) {
    Escalates(s, t, a, l) &&
    if Alerts(s, t, a, l) then
      a.notify.Throws? || a.escalate.Throws? || (PriorRungs(t, l) >= s.maxRungs && Rung3(s, t, a).Some? && a.reroute.Throws?)
    else if t.stall == Some(ModelDegraded) && DegradedTarget(s, t, a).Some? then a.reroute.Throws?
    else a.redispatch.Throws?
  }

  type Ladders = map<string, Ladder>

  function Put(m: Ladders, id: string, l: Option<Ladder>): Ladders {
    if l.Some? then m[id := l.value] else m - {id}
  }

  /** The sweep as a fold over the listed tickets. */
  function SweepAll(s: Settings, ts: seq<Ticket>, answers: seq<Answers>, m: Ladders): Ladders
    requires |ts| == |answers|
  {
    if ts == [] then m
    else
      var k := |ts| - 1;
      var before := SweepAll(s, ts[..k], answers[..k], m);
      Put(before, ts[k].id, SweepTicket(s, ts[k], answers[k], Lookup(before, ts[k].id)).ladder)
  }

  function TallyAll(s: Settings, ts: seq<Ticket>, answers: seq<Answers>, m: Ladders): Tally
    requires |ts| == |answers|
  {
    if ts == [] then EmptyTally
    else
      var k := |ts| - 1;
      TallyAll(s, ts[..k], answers[..k], m).Plus(
        SweepTicket(s, ts[k], answers[k], Lookup(SweepAll(s, ts[..k], answers[..k], m), ts[k].id)).tally)
  }

  /** The module-level ladder store and the sweep over it. */
  class WatchdogStore {
    var ladders: Ladders

    constructor ()
      ensures ladders == map[]
    {
      ladders := map[];
    }

    method Upsert(id: string, l: Ladder)
      modifies this
      ensures ladders == old(ladders)[id := l]
    {
      ladders := ladders[id := l];
    }

    method Delete(id: string)
      modifies this
      ensures ladders == old(ladders) - {id}
    {
      ladders := ladders - {id};
    }

    /** One ticket inside the sweep's try block. */
    method SweepOne(s: Settings, t: Ticket, a: Answers) returns (fired: seq<Rung>, tally: Tally)
      modifies this
      ensures var v := SweepTicket(s, t, a, Lookup(old(ladders), t.id));
              ladders == Put(old(ladders), t.id, v.ladder) && fired == v.fired && tally == v.tally
    {
      fired := [];
      tally := EmptyTally.(scanned := 1);
      if t.humanAssigned || "needs-human" in t.labels {
        tally := tally.(humanExcluded := 1);
        KeepEntry(ladders, t.id);
        return;
      }
      var existing := Lookup(ladders, t.id);
      var sameDispatch := SameDispatch(existing, t.deliveredAt);
      var armedAt := ArmedAt(s, t, existing);
      var deadlineAt := armedAt + DeadlineMs(s, a);
      var priorRungs := PriorRungs(t, existing);
      var history := if sameDispatch then existing.value.history else [];
      var rungsFired := priorRungs;
      var unreachable := sameDispatch && existing.value.unreachable;
      tally := tally.(armed := 1);
      var actedInTime := t.firstActionAt.Some? && t.firstActionAt.value <= deadlineAt;
      var breached := !actedInTime && s.now >= deadlineAt;
      if breached {
        tally := tally.(breached := 1);
        if t.stall == Some(ActivelyProcessing) {
          KeepEntry(ladders, t.id);
          return;
        }
        if a.crossCheck.Stale? {
          Delete(t.id);
          tally := tally.(staleCleared := 1);
          return;
        }
        if unreachable {
          Upsert(t.id, Ladder(t.state, t.delegate, armedAt, Some(t.deliveredAt), deadlineAt, rungsFired, unreachable, history));
          assert history == PriorHistory(t, existing) + [];
          return;
        }
        var threw;
        fired, tally, rungsFired, unreachable, threw := Escalate(s, t, a, priorRungs, tally);
        history := history + fired;
        if threw {
          KeepEntry(ladders, t.id);
          return;
        }
      }
      Upsert(t.id, Ladder(t.state, t.delegate, armedAt, Some(t.deliveredAt), deadlineAt, rungsFired, unreachable, history));
      assert history == PriorHistory(t, existing) + fired;
    }

    method Sweep(s: Settings, ts: seq<Ticket>, answers: seq<Answers>) returns (tally: Tally)
      requires |ts| == |answers|
      modifies this
      ensures ladders == SweepAll(s, ts, answers, old(ladders))
      ensures tally == TallyAll(s, ts, answers, old(ladders))
    {
      hide SweepTicket;
      tally := EmptyTally;
      for i := 0 to |ts|
        invariant ladders == SweepAll(s, ts[..i], answers[..i], old(ladders))
        invariant tally == TallyAll(s, ts[..i], answers[..i], old(ladders))
      {
        assert ts[..i + 1][..i] == ts[..i] && answers[..i + 1][..i] == answers[..i];
        var _, one := SweepOne(s, ts[i], answers[i]);
        tally := tally.Plus(one);
      }
      assert ts[..|ts|] == ts && answers[..|ts|] == answers;
    }
  }

  lemma KeepEntry(m: Ladders, id: string)
    ensures Put(m, id, Lookup(m, id)) == m
  {
  }

  /** The escalation proper: which rungs fire on a breached, not yet exhausted ladder, and whether a callback threw. */
  method Escalate(s: Settings, t: Ticket, a: Answers, prior: int, counted: Tally)
    returns (fired: seq<Rung>, tally: Tally, rungs: int, unreachable: bool, threw: bool)
    ensures prior >= s.maxRungs ==>
              && unreachable && rungs == prior && tally.unreachable == counted.unreachable + 1
              && (threw <==> a.notify.Throws? || a.escalate.Throws? || (Rung3(s, t, a).Some? && a.reroute.Throws?))
              && fired == (if a.notify.Throws? || a.escalate.Throws? || Rung3(s, t, a).None? then [Unreachable]
                           else [Unreachable, Rerouted(Rung3(s, t, a).value)])
              && tally == counted.(unreachable := counted.unreachable + 1,
                                   reroutes := counted.reroutes + if threw || Rung3(s, t, a).None? then 0 else 1,
                                   errors := counted.errors + if threw then 1 else 0)
    ensures prior < s.maxRungs && (t.stall == Some(WakeTurnFailed) || t.stall == Some(SessionDead)) ==>
              && unreachable && rungs == s.maxRungs && fired == [Unreachable]
              && (threw <==> a.notify.Throws? || a.escalate.Throws?)
              && tally == counted.(unreachable := counted.unreachable + 1, errors := counted.errors + if threw then 1 else 0)
    ensures prior < s.maxRungs && t.stall == Some(ModelDegraded) && DegradedTarget(s, t, a).Some? ==>
              && !unreachable && rungs == s.maxRungs && fired == [Rerouted(DegradedTarget(s, t, a).value)]
              && (threw <==> a.reroute.Throws?)
              && tally == counted.(reroutes := counted.reroutes + if threw then 0 else 1, errors := counted.errors + if threw then 1 else 0)
    ensures prior < s.maxRungs && t.stall != Some(WakeTurnFailed) && t.stall != Some(SessionDead)
            && (t.stall != Some(ModelDegraded) || DegradedTarget(s, t, a).None?) ==>
              && !unreachable && rungs == prior + 1 && fired == [Redispatch]
              && (threw <==> a.redispatch.Throws?)
              && tally == counted.(redispatched := counted.redispatched + if threw then 0 else 1, errors := counted.errors + if threw then 1 else 0)
  {
    fired, tally, rungs, unreachable, threw := [], counted, prior, false, false;
    if prior >= s.maxRungs {
      unreachable := true;
      fired := fired + [Unreachable];
      tally := tally.(unreachable := tally.unreachable + 1);
      if a.notify.Throws? || a.escalate.Throws? {
        threw, tally := true, tally.(errors := tally.errors + 1);
        return;
      }
      var target := if Truthy(a.ownerRole) then RerouteTarget(s.policy, a.ownerRole.value, t.delegate) else None;
      if Truthy(target) && !a.reroute.Absent? {
        fired := fired + [Rerouted(target.value)];
        if a.reroute.Throws? {
          threw, tally := true, tally.(errors := tally.errors + 1);
          return;
        }
        tally := tally.(reroutes := tally.reroutes + 1);
      }
    } else if t.stall == Some(WakeTurnFailed) || t.stall == Some(SessionDead) {
      unreachable := true;
      fired := fired + [Unreachable];
      tally := tally.(unreachable := tally.unreachable + 1);
      rungs := s.maxRungs;
      if a.notify.Throws? || a.escalate.Throws? {
        threw, tally := true, tally.(errors := tally.errors + 1);
        return;
      }
    } else {
      if t.stall == Some(ModelDegraded) {
        var role := ModelDegradedRole(a.ownerRole, t.delegate, s.policy);
        var target := if Truthy(role) then RerouteTarget(s.policy, role.value, t.delegate) else None;
        if Truthy(target) && !a.reroute.Absent? {
          fired := fired + [Rerouted(target.value)];
          rungs := s.maxRungs;
          if a.reroute.Throws? {
            threw, tally := true, tally.(errors := tally.errors + 1);
            return;
          }
          tally := tally.(reroutes := tally.reroutes + 1);
          return;
        }
      }
      fired := fired + [Redispatch];
      rungs := prior + 1;
      if a.redispatch.Throws? {
        threw, tally := true, tally.(errors := tally.errors + 1);
        return;
      }
      tally := tally.(redispatched := tally.redispatched + 1);
    }
  }
}
