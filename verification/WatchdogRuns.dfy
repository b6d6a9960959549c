/** Whole runs of the watchdog ladder: what any number of sweeps can do to one ticket. */
module WatchdogRuns {
  import opened Prelude
  import opened Reroute
  import opened Watchdog

  /** One sweep's encounter with the ticket. */
  datatype Encounter = Encounter(s: Settings, t: Ticket, a: Answers)

  function LadderAfter(start: Option<Ladder>, es: seq<Encounter>): Option<Ladder> {
    if es == [] then start
    else var e := es[|es| - 1]; SweepTicket(e.s, e.t, e.a, LadderAfter(start, es[..|es| - 1])).ladder
  }

  /** The rungs the last encounter of the run fires. */
  function FiredLast(start: Option<Ladder>, es: seq<Encounter>): seq<Rung>
    requires es != []
  {
    var e := es[|es| - 1];
    SweepTicket(e.s, e.t, e.a, LadderAfter(start, es[..|es| - 1])).fired
  }

  /** Every rung the run fires, in order. */
  function Fired(start: Option<Ladder>, es: seq<Encounter>): seq<Rung> {
    if es == [] then [] else Fired(start, es[..|es| - 1]) + FiredLast(start, es)
  }

  datatype Counts = Counts(redispatches: nat, alerts: nat, reroutes: nat) {
    function Add(r: Rung): Counts {
      match r
      case Redispatch => this.(redispatches := redispatches + 1)
      case Unreachable => this.(alerts := alerts + 1)
      case Rerouted(_) => this.(reroutes := reroutes + 1)
    }
  }

  function Count(rungs: seq<Rung>): Counts {
    if rungs == [] then Counts(0, 0, 0) else Count(rungs[..|rungs| - 1]).Add(rungs[|rungs| - 1])
  }

  lemma CountAppend(rungs: seq<Rung>, r: Rung)
    ensures Count(rungs + [r]) == Count(rungs).Add(r)
  {
    assert (rungs + [r])[..|rungs + [r]| - 1] == rungs;
  }

  /** Nothing a callback does or a cross-check says interrupts the bookkeeping. */
  predicate Undisturbed(e: Encounter) {
    && !e.a.notify.Throws? && !e.a.redispatch.Throws? && !e.a.escalate.Throws? && !e.a.reroute.Throws?
    && !e.a.crossCheck.Stale? && e.t.suppliedRungs.None?
  }

  /** Every encounter sees the same dispatch, undisturbed, with the same rung limit. */
  predicate OneDispatch(es: seq<Encounter>, deliveredAt: int, maxRungs: int) {
    forall i :: 0 <= i < |es| ==> es[i].t.deliveredAt == deliveredAt && es[i].s.maxRungs == maxRungs && Undisturbed(es[i])
  }

  function Floor(n: int): nat {
    if n > 0 then n else 0
  }

  /** The account a ladder's rungs and verdict give of what was fired so far. */
  predicate Accounts(c: Counts, rungs: int, unreachable: bool, maxRungs: int) {
    && c.redispatches <= Floor(maxRungs) && 0 <= rungs <= Floor(maxRungs)
    && (if unreachable then c.alerts == 1 && c.reroutes <= 2
        else c.alerts == 0 && c.redispatches <= rungs && c.reroutes <= if rungs >= maxRungs then 1 else 0)
  }

  /** What the stored ladder remembers of everything fired for the dispatch so far. */
  predicate Remembers(l: Option<Ladder>, fired: seq<Rung>, deliveredAt: int, maxRungs: int) {
    if !SameDispatch(l, deliveredAt) then fired == []
    else l.value.history == fired && Accounts(Count(fired), l.value.rungsFired, l.value.unreachable, maxRungs)
  }

  /** The visit stored the ladder with these rungs and this verdict, having fired exactly `fired`. */
  predicate Keeps(v: Visit, t: Ticket, l: Option<Ladder>, rungs: int, unreachable: bool, fired: seq<Rung>) {
    && v.fired == fired && v.ladder.Some? && v.ladder.value.deliveredAt == Some(t.deliveredAt)
    && v.ladder.value.rungsFired == rungs && v.ladder.value.unreachable == unreachable
    && v.ladder.value.history == PriorHistory(t, l) + fired
  }

  /** The only things an undisturbed encounter can do. */
  predicate UndisturbedOutcome(v: Visit, t: Ticket, l: Option<Ladder>, maxRungs: int) {
    var prior, down := PriorRungs(t, l), AlreadyUnreachable(t, l);
    || (v.fired == [] && v.ladder == l)
    || Keeps(v, t, l, prior, down, [])
    || (!down && prior >= maxRungs && Keeps(v, t, l, prior, true, [Unreachable]))
    || (!down && prior >= maxRungs && |v.fired| == 2 && v.fired[1].Rerouted? && Keeps(v, t, l, prior, true, [Unreachable, v.fired[1]]))
    || (!down && prior < maxRungs && Keeps(v, t, l, maxRungs, true, [Unreachable]))
    || (!down && prior < maxRungs && |v.fired| == 1 && v.fired[0].Rerouted? && Keeps(v, t, l, maxRungs, false, [v.fired[0]]))
    || (!down && prior < maxRungs && Keeps(v, t, l, prior + 1, false, [Redispatch]))
  }

  lemma UndisturbedOutcomes(e: Encounter, l: Option<Ladder>)
    requires Undisturbed(e)
    ensures UndisturbedOutcome(SweepTicket(e.s, e.t, e.a, l), e.t, l, e.s.maxRungs)
  {
  }

  lemma KeptIsRemembered(v: Visit, t: Ticket, l: Option<Ladder>, rungs: int, unreachable: bool, added: seq<Rung>, fired: seq<Rung>, maxRungs: int)
    requires Keeps(v, t, l, rungs, unreachable, added) && PriorHistory(t, l) == fired
    requires Accounts(Count(fired + added), rungs, unreachable, maxRungs)
    ensures Remembers(v.ladder, fired + v.fired, t.deliveredAt, maxRungs)
  {
  }

  lemma OutcomeRemembers(v: Visit, t: Ticket, l: Option<Ladder>, fired: seq<Rung>, maxRungs: int)
    requires t.suppliedRungs.None? && UndisturbedOutcome(v, t, l, maxRungs)
    requires Remembers(l, fired, t.deliveredAt, maxRungs)
    ensures Remembers(v.ladder, fired + v.fired, t.deliveredAt, maxRungs)
    ensures AlreadyUnreachable(t, l) ==> v.fired == []
  {
    var prior, down := PriorRungs(t, l), AlreadyUnreachable(t, l);
    assert PriorHistory(t, l) == fired && Accounts(Count(fired), prior, down, maxRungs);
    assert fired + [] == fired;
    if v.fired == [] && v.ladder == l {
    } else if Keeps(v, t, l, prior, down, []) {
      KeptIsRemembered(v, t, l, prior, down, [], fired, maxRungs);
    } else if Keeps(v, t, l, prior, true, [Unreachable]) && prior >= maxRungs {
      CountAppend(fired, Unreachable);
      KeptIsRemembered(v, t, l, prior, true, [Unreachable], fired, maxRungs);
    } else if Keeps(v, t, l, maxRungs, true, [Unreachable]) {
      CountAppend(fired, Unreachable);
      KeptIsRemembered(v, t, l, maxRungs, true, [Unreachable], fired, maxRungs);
    } else if Keeps(v, t, l, prior + 1, false, [Redispatch]) && prior < maxRungs {
      CountAppend(fired, Redispatch);
      KeptIsRemembered(v, t, l, prior + 1, false, [Redispatch], fired, maxRungs);
    } else if |v.fired| == 1 {
      RerouteRemembers(v, t, l, v.fired[0].to, fired, maxRungs);
    } else {
      AlertAndRerouteRemembers(v, t, l, v.fired[1].to, fired, maxRungs);
    }
  }

  lemma RerouteRemembers(v: Visit, t: Ticket, l: Option<Ladder>, to: string, fired: seq<Rung>, maxRungs: int)
    requires PriorHistory(t, l) == fired && PriorRungs(t, l) < maxRungs
    requires Accounts(Count(fired), PriorRungs(t, l), false, maxRungs)
    requires Keeps(v, t, l, maxRungs, false, [Rerouted(to)])
    ensures Remembers(v.ladder, fired + v.fired, t.deliveredAt, maxRungs)
  {
    CountAppend(fired, Rerouted(to));
    KeptIsRemembered(v, t, l, maxRungs, false, [Rerouted(to)], fired, maxRungs);
  }

  lemma AlertAndRerouteRemembers(v: Visit, t: Ticket, l: Option<Ladder>, to: string, fired: seq<Rung>, maxRungs: int)
    requires PriorHistory(t, l) == fired && PriorRungs(t, l) >= maxRungs
    requires Accounts(Count(fired), PriorRungs(t, l), false, maxRungs)
    requires Keeps(v, t, l, PriorRungs(t, l), true, [Unreachable, Rerouted(to)])
    ensures Remembers(v.ladder, fired + v.fired, t.deliveredAt, maxRungs)
  {
    CountAppend(fired, Unreachable);
    CountAppend(fired + [Unreachable], Rerouted(to));
    assert fired + [Unreachable, Rerouted(to)] == fired + [Unreachable] + [Rerouted(to)];
    KeptIsRemembered(v, t, l, PriorRungs(t, l), true, [Unreachable, Rerouted(to)], fired, maxRungs);
  }

  lemma EncounterRemembers(e: Encounter, l: Option<Ladder>, fired: seq<Rung>, deliveredAt: int, maxRungs: int)
    requires e.t.deliveredAt == deliveredAt && e.s.maxRungs == maxRungs && Undisturbed(e)
    requires Remembers(l, fired, deliveredAt, maxRungs)
    ensures Remembers(SweepTicket(e.s, e.t, e.a, l).ladder, fired + SweepTicket(e.s, e.t, e.a, l).fired, deliveredAt, maxRungs)
    ensures SameDispatch(l, deliveredAt) && l.value.unreachable ==> SweepTicket(e.s, e.t, e.a, l).fired == []
  {
    UndisturbedOutcomes(e, l);
    OutcomeRemembers(SweepTicket(e.s, e.t, e.a, l), e.t, l, fired, maxRungs);
  }

  lemma {:induction false} RunRemembers(start: Option<Ladder>, es: seq<Encounter>, deliveredAt: int, maxRungs: int)
    requires !SameDispatch(start, deliveredAt) && OneDispatch(es, deliveredAt, maxRungs)
    ensures Remembers(LadderAfter(start, es), Fired(start, es), deliveredAt, maxRungs)
  {
    if es != [] {
      var prior := es[..|es| - 1];
      RunRemembers(start, prior, deliveredAt, maxRungs);
      EncounterRemembers(es[|es| - 1], LadderAfter(start, prior), Fired(start, prior), deliveredAt, maxRungs);
    }
  }

  /**
   * Over any run of undisturbed sweeps for one dispatch, whatever the stall reasons, deadlines, policies and times:
   * at most maxRungs redispatches, at most one unreachable alert and at most two reroutes ever fire.
   */
  lemma LadderIsBounded(start: Option<Ladder>, es: seq<Encounter>, deliveredAt: int, maxRungs: int)
    requires !SameDispatch(start, deliveredAt) && OneDispatch(es, deliveredAt, maxRungs)
    ensures Count(Fired(start, es)).redispatches <= Floor(maxRungs)
    ensures Count(Fired(start, es)).alerts <= 1
    ensures Count(Fired(start, es)).reroutes <= 2
  {
    RunRemembers(start, es, deliveredAt, maxRungs);
  }

  // ---- Throwing callbacks ----

  /** The ladder has what the visit fired. */
  predicate IsStored(v: Visit, t: Ticket, l: Option<Ladder>) {
    SameDispatch(v.ladder, t.deliveredAt) && v.ladder.value.history == PriorHistory(t, l) + v.fired
  }

  /** Fired rungs are remembered exactly when none of the callbacks the escalation invokes throws; otherwise the ladder stays as it was. */
  lemma FiredRungsAreStoredExactly(s: Settings, t: Ticket, a: Answers, l: Option<Ladder>)
    requires SweepTicket(s, t, a, l).fired != []
    ensures var v := SweepTicket(s, t, a, l);
            && (IsStored(v, t, l) <==> !CallbackThrows(s, t, a, l))
            && (CallbackThrows(s, t, a, l) ==> v.ladder == l)
            && v.tally.errors == if CallbackThrows(s, t, a, l) then 1 else 0
  {
    var v := SweepTicket(s, t, a, l);
    if v.ladder == l && SameDispatch(l, t.deliveredAt) {
      assert |PriorHistory(t, l) + v.fired| > |l.value.history|;
    }
  }

  /** The unreachable verdict for the dispatch is on the ladder. */
  predicate Down(l: Option<Ladder>, deliveredAt: int) {
    SameDispatch(l, deliveredAt) && l.value.unreachable
  }

  /** How a visit without a stale verdict moves the verdict: it is only ever set, by an alert whose callbacks all return. */
  lemma VisitMovesVerdict(s: Settings, t: Ticket, a: Answers, l: Option<Ladder>)
    requires !a.crossCheck.Stale?
    ensures var v := SweepTicket(s, t, a, l);
            && (Unreachable in v.fired <==> Alerts(s, t, a, l))
            && (Down(v.ladder, t.deliveredAt) <==> Down(l, t.deliveredAt) || (Alerts(s, t, a, l) && !CallbackThrows(s, t, a, l)))
            && (Down(l, t.deliveredAt) ==> v.fired == [])
            && Count(v.fired).alerts == if Alerts(s, t, a, l) then 1 else 0
  {
    var v := SweepTicket(s, t, a, l);
    CountsOfVisit(v.fired);
  }

  lemma {:induction false} CountSums(a: seq<Rung>, b: seq<Rung>)
    ensures Count(a + b).alerts == Count(a).alerts + Count(b).alerts
  {
    if b == [] {
      assert a + b == a;
    } else {
      CountSums(a, b[..|b| - 1]);
      assert (a + b)[..|a + b| - 1] == a + b[..|b| - 1];
    }
  }

  lemma CountOne(r: Rung)
    ensures Count([r]).alerts == if r.Unreachable? then 1 else 0
  {
    var one := [r];
    assert one[..|one| - 1] == [];
  }

  lemma CountsOfVisit(fired: seq<Rung>)
    requires |fired| <= 2 && (|fired| == 2 ==> fired[1].Rerouted?)
    ensures Count(fired).alerts == if Unreachable in fired then 1 else 0
  {
    hide Count;
    if |fired| == 2 {
      assert fired == [fired[0]] + [fired[1]];
      CountSums([fired[0]], [fired[1]]);
      CountOne(fired[0]);
      CountOne(fired[1]);
    } else if |fired| == 1 {
      assert fired == [fired[0]];
      CountOne(fired[0]);
    } else {
      CountNone();
    }
  }

  lemma CountNone()
    ensures Count([]).alerts == 0
  {
  }

  /** Alerts of a run during whose visit some callback threw. */
  function ThrownAlerts(start: Option<Ladder>, es: seq<Encounter>): nat {
    if es == [] then 0
    else
      var e, l := es[|es| - 1], LadderAfter(start, es[..|es| - 1]);
      ThrownAlerts(start, es[..|es| - 1]) + if Alerts(e.s, e.t, e.a, l) && CallbackThrows(e.s, e.t, e.a, l) then 1 else 0
  }

  /** Every encounter sees the same dispatch, and no cross-check calls it stale. */
  predicate NeverStale(es: seq<Encounter>, deliveredAt: int) {
    forall i :: 0 <= i < |es| ==> es[i].t.deliveredAt == deliveredAt && !es[i].a.crossCheck.Stale?
  }

  /**
   * Over any run without a stale verdict, whatever the causes, rung counts, limits and throwing callbacks, the alerts raised
   * for a dispatch are those during whose visit a callback threw, and one more exactly when the verdict got on the ladder.
   */
  lemma {:induction false} AlertsExactly(start: Option<Ladder>, es: seq<Encounter>, deliveredAt: int)
    requires !SameDispatch(start, deliveredAt) && NeverStale(es, deliveredAt)
    ensures Count(Fired(start, es)).alerts == ThrownAlerts(start, es) + if Down(LadderAfter(start, es), deliveredAt) then 1 else 0
  {
    hide SweepTicket, Alerts, CallbackThrows;
    if es != [] {
      var prior, e := es[..|es| - 1], es[|es| - 1];
      AlertsExactly(start, prior, deliveredAt);
      VisitMovesVerdict(e.s, e.t, e.a, LadderAfter(start, prior));
      CountSums(Fired(start, prior), FiredLast(start, es));
      AlertsEscalate(e, LadderAfter(start, prior));
    }
  }

  lemma AlertsEscalate(e: Encounter, l: Option<Ladder>)
    ensures Alerts(e.s, e.t, e.a, l) ==> !Down(l, e.t.deliveredAt)
  {
  }

  /** Without a throwing callback that is at most one alert. */
  lemma AtMostOneAlert(start: Option<Ladder>, es: seq<Encounter>, deliveredAt: int)
    requires !SameDispatch(start, deliveredAt) && NeverStale(es, deliveredAt) && ThrownAlerts(start, es) == 0
    ensures Count(Fired(start, es)).alerts <= 1
  {
    AlertsExactly(start, es, deliveredAt);
  }

  /** Once the verdict is on the ladder, no later sweep fires anything for that dispatch. */
  lemma {:induction false} SilentAfterAlert(start: Option<Ladder>, es: seq<Encounter>, k: nat, deliveredAt: int)
    requires NeverStale(es, deliveredAt) && k <= |es| && Down(LadderAfter(start, es[..k]), deliveredAt)
    ensures Down(LadderAfter(start, es), deliveredAt) && Fired(start, es) == Fired(start, es[..k])
  {
    hide SweepTicket, Alerts, CallbackThrows;
    if k < |es| {
      var prior, e := es[..|es| - 1], es[|es| - 1];
      assert prior[..k] == es[..k];
      SilentAfterAlert(start, prior, k, deliveredAt);
      VisitMovesVerdict(e.s, e.t, e.a, LadderAfter(start, prior));
    } else {
      assert es[..k] == es;
    }
  }

  /** While escalation keeps throwing, every sweep raises the same alert again. */
  function Repeated(e: Encounter, n: nat): seq<Encounter> {
    if n == 0 then [] else Repeated(e, n - 1) + [e]
  }

  lemma AppendVisit(start: Option<Ladder>, es: seq<Encounter>, e: Encounter)
    ensures LadderAfter(start, es + [e]) == SweepTicket(e.s, e.t, e.a, LadderAfter(start, es)).ladder
    ensures Fired(start, es + [e]) == Fired(start, es) + SweepTicket(e.s, e.t, e.a, LadderAfter(start, es)).fired
  {
    var all := es + [e];
    assert all[..|all| - 1] == es && all[|all| - 1] == e;
  }

  lemma ThrownEscalation(e: Encounter)
    requires !Excluded(e.t) && e.t.stall == Some(SessionDead) && e.t.suppliedRungs.None?
    requires e.a.escalate.Throws? && !e.a.crossCheck.Stale? && e.s.maxRungs > 0
    requires Breached(e.s, e.t, e.a, None)
    ensures SweepTicket(e.s, e.t, e.a, None).ladder == None && SweepTicket(e.s, e.t, e.a, None).fired == [Unreachable]
  {
  }

  lemma {:induction false} ThrowingEscalationRepeatsTheAlert(e: Encounter, n: nat)
    requires !Excluded(e.t) && e.t.stall == Some(SessionDead) && e.t.suppliedRungs.None?
    requires e.a.escalate.Throws? && !e.a.crossCheck.Stale? && e.s.maxRungs > 0
    requires Breached(e.s, e.t, e.a, None)
    ensures LadderAfter(None, Repeated(e, n)) == None
    ensures Count(Fired(None, Repeated(e, n))).alerts == n
  {
    ThrownEscalation(e);
    RepeatsTheAlert(e, n);
  }

  lemma {:induction false} RepeatsTheAlert(e: Encounter, n: nat)
    requires SweepTicket(e.s, e.t, e.a, None).ladder == None && SweepTicket(e.s, e.t, e.a, None).fired == [Unreachable]
    ensures LadderAfter(None, Repeated(e, n)) == None
    ensures Count(Fired(None, Repeated(e, n))).alerts == n
  {
    hide SweepTicket;
    if n > 0 {
      var prior := Repeated(e, n - 1);
      RepeatsTheAlert(e, n - 1);
      AppendVisit(None, prior, e);
      CountAppend(Fired(None, prior), Unreachable);
    }
  }

  // ---- Deadlines ----

  /** No rung fires before the armed time plus the deadline, nor after an owner action in time, nor on excluded tickets. */
  lemma NoRungBeforeDeadline(s: Settings, t: Ticket, a: Answers, l: Option<Ladder>)
    requires SweepTicket(s, t, a, l).fired != []
    ensures s.now >= ArmedAt(s, t, l) + DeadlineMs(s, a)
    ensures t.firstActionAt.Some? ==> t.firstActionAt.value > ArmedAt(s, t, l) + DeadlineMs(s, a)
    ensures !Excluded(t) && t.stall != Some(ActivelyProcessing) && !a.crossCheck.Stale?
  {
  }

  /** A ladder is armed at or after its delivery. */
  predicate ArmedAfterDelivery(l: Option<Ladder>) {
    l.Some? && l.value.deliveredAt.Some? ==> l.value.armedAt >= l.value.deliveredAt.value
  }

  /** Any visit leaves the ladder alone, drops it, or stores it armed where the arming rule says. */
  predicate ArmsByRule(after: Option<Ladder>, s: Settings, t: Ticket, l: Option<Ladder>) {
    after == l || after == None || (after.Some? && after.value.deliveredAt == Some(t.deliveredAt) && after.value.armedAt == ArmedAt(s, t, l))
  }

  lemma VisitsArmByRule(s: Settings, t: Ticket, a: Answers, l: Option<Ladder>)
    ensures ArmsByRule(SweepTicket(s, t, a, l).ladder, s, t, l)
  {
  }

  /** Arming is stable while the dispatch's ladder persists, and never before delivery. */
  lemma ArmedTimeNeverMoves(s: Settings, t: Ticket, a: Answers, l: Option<Ladder>)
    requires ArmedAfterDelivery(l)
    ensures ArmedAfterDelivery(SweepTicket(s, t, a, l).ladder)
    ensures SameDispatch(l, t.deliveredAt) && SweepTicket(s, t, a, l).ladder.Some? ==>
              SweepTicket(s, t, a, l).ladder.value.armedAt == l.value.armedAt
              && SameDispatch(SweepTicket(s, t, a, l).ladder, t.deliveredAt)
  {
    VisitsArmByRule(s, t, a, l);
    RuleKeepsArming(SweepTicket(s, t, a, l).ladder, s, t, l);
  }

  lemma RuleKeepsArming(after: Option<Ladder>, s: Settings, t: Ticket, l: Option<Ladder>)
    requires ArmsByRule(after, s, t, l) && ArmedAfterDelivery(l)
    ensures ArmedAfterDelivery(after)
    ensures SameDispatch(l, t.deliveredAt) && after.Some? ==> after.value.armedAt == l.value.armedAt && SameDispatch(after, t.deliveredAt)
  {
  }

  lemma {:induction false} ArmedAfterDeliveryAlways(es: seq<Encounter>)
    ensures ArmedAfterDelivery(LadderAfter(None, es))
  {
    if es != [] {
      var prior, e := es[..|es| - 1], es[|es| - 1];
      ArmedAfterDeliveryAlways(prior);
      ArmedTimeNeverMoves(e.s, e.t, e.a, LadderAfter(None, prior));
    }
  }

  /** In any run whatever fires comes a full deadline after the delivery, to a ticket nobody acted on in that time. */
  lemma RungsComeAfterTheDeadline(es: seq<Encounter>)
    requires es != [] && FiredLast(None, es) != []
    ensures var e := es[|es| - 1];
            var due := e.t.deliveredAt + DeadlineMs(e.s, e.a);
            e.s.now >= due && (e.t.firstActionAt.Some? ==> e.t.firstActionAt.value > due)
  {
    hide SweepTicket;
    var e := es[|es| - 1];
    var l := LadderAfter(None, es[..|es| - 1]);
    NoRungBeforeDeadline(e.s, e.t, e.a, l);
    ArmedAfterDeliveryAlways(es[..|es| - 1]);
  }

  /** From `since` on, no encounter is earlier, and a dispatch delivered at `deliveredAt` was already past the horizon. */
  predicate Backlogged(es: seq<Encounter>, deliveredAt: int, since: int) {
    since - deliveredAt > MAX_ARM_LOOKBACK_MS && forall i :: 0 <= i < |es| ==> es[i].s.now >= since
  }

  lemma RuleArmsLate(after: Option<Ladder>, s: Settings, t: Ticket, l: Option<Ladder>, deliveredAt: int, since: int)
    requires ArmsByRule(after, s, t, l)
    requires since - deliveredAt > MAX_ARM_LOOKBACK_MS && s.now >= since
    requires SameDispatch(l, deliveredAt) ==> l.value.armedAt >= since
    ensures SameDispatch(after, deliveredAt) ==> after.value.armedAt >= since
  {
  }

  lemma {:induction false} BacklogArmsLate(start: Option<Ladder>, es: seq<Encounter>, deliveredAt: int, since: int)
    requires !SameDispatch(start, deliveredAt) && Backlogged(es, deliveredAt, since)
    ensures SameDispatch(LadderAfter(start, es), deliveredAt) ==> LadderAfter(start, es).value.armedAt >= since
  {
    if es != [] {
      var prior, e := es[..|es| - 1], es[|es| - 1];
      BacklogArmsLate(start, prior, deliveredAt, since);
      VisitsArmByRule(e.s, e.t, e.a, LadderAfter(start, prior));
      RuleArmsLate(LadderAfter(start, es), e.s, e.t, LadderAfter(start, prior), deliveredAt, since);
    }
  }

  /**
   * Restart safety: a dispatch already older than the two-hour horizon when the store first meets it gets a full
   * fresh deadline from that moment. This holds over every run, with other dispatches of the ticket in between,
   * callbacks throwing and ladders dropped as stale.
   */
  lemma BacklogGetsAFreshDeadline(start: Option<Ladder>, es: seq<Encounter>, deliveredAt: int, since: int)
    requires !SameDispatch(start, deliveredAt) && Backlogged(es, deliveredAt, since)
    requires es != [] && es[|es| - 1].t.deliveredAt == deliveredAt && FiredLast(start, es) != []
    ensures es[|es| - 1].s.now >= since + DeadlineMs(es[|es| - 1].s, es[|es| - 1].a)
  {
    BacklogArmsLate(start, es[..|es| - 1], deliveredAt, since);
  }

  // ---- From one ticket to the sweep over all of them ----

  function Encounters(s: Settings, ts: seq<Ticket>, answers: seq<Answers>, id: string): seq<Encounter>
    requires |ts| == |answers|
  {
    if ts == [] then []
    else
      var k := |ts| - 1;
      Encounters(s, ts[..k], answers[..k], id) + if ts[k].id == id then [Encounter(s, ts[k], answers[k])] else []
  }

  lemma PutLooksUp(m: Ladders, at: string, l: Option<Ladder>, id: string)
    ensures Lookup(Put(m, at, l), id) == if at == id then l else Lookup(m, id)
  {
  }

  /** A sweep over any ticket list does to each ticket exactly what its own encounters do, and nothing else. */
  lemma {:induction false} SweepIsPerTicket(s: Settings, ts: seq<Ticket>, answers: seq<Answers>, m: Ladders, id: string)
    requires |ts| == |answers|
    ensures Lookup(SweepAll(s, ts, answers, m), id) == LadderAfter(Lookup(m, id), Encounters(s, ts, answers, id))
  {
    if ts != [] {
      var k := |ts| - 1;
      SweepIsPerTicket(s, ts[..k], answers[..k], m, id);
      var before := SweepAll(s, ts[..k], answers[..k], m);
      PutLooksUp(before, ts[k].id, SweepTicket(s, ts[k], answers[k], Lookup(before, ts[k].id)).ladder, id);
      if ts[k].id == id {
        var prior := Encounters(s, ts[..k], answers[..k], id);
        var es := prior + [Encounter(s, ts[k], answers[k])];
        assert Encounters(s, ts, answers, id) == es;
        assert es[..|es| - 1] == prior && es[|es| - 1] == Encounter(s, ts[k], answers[k]);
      } else {
        assert Encounters(s, ts, answers, id) == Encounters(s, ts[..k], answers[..k], id);
      }
    }
  }

  lemma OneTally(s: Settings, t: Ticket, a: Answers, l: Option<Ladder>)
    ensures var y := SweepTicket(s, t, a, l).tally;
            && y.scanned == 1 == y.humanExcluded + y.armed && y.breached <= y.armed
            && y.staleCleared + y.redispatched + y.unreachable <= y.breached && y.reroutes <= y.breached
  {
  }

  /** Every listed ticket is scanned once and is either excluded or armed; errors only come from escalations. */
  lemma {:induction false} TallyConserves(s: Settings, ts: seq<Ticket>, answers: seq<Answers>, m: Ladders)
    requires |ts| == |answers|
    ensures var y := TallyAll(s, ts, answers, m);
            && y.scanned == |ts| == y.humanExcluded + y.armed
            && y.breached <= y.armed
            && y.staleCleared + y.redispatched + y.unreachable <= y.breached
            && y.reroutes <= y.breached
  {
    if ts != [] {
      var k := |ts| - 1;
      TallyConserves(s, ts[..k], answers[..k], m);
      OneTally(s, ts[k], answers[k], Lookup(SweepAll(s, ts[..k], answers[..k], m), ts[k].id));
    }
  }
}
