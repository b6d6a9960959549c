/** src/dispatch-circuit-breaker.ts, functional API: the per-ticket dispatch circuit breaker. */
module CircuitBreaker {
  import opened Prelude

  type Ticket = string
  type Label = string

  const DEFAULT_MAX_WAKES := 3
  const DEFAULT_MAX_STATE_REVISITS := 10

  /** One ticket's breaker record. `seen` and `revisits` may be absent on records older than those fields. */
  datatype Record = Record(
    lastLabel: Option<Label>,
    lastDispatchAt: Option<int>,
    wakes: nat,
    tripped: bool,
    trippedAt: Option<int>,
    seen: Option<seq<Label>>,
    revisits: Option<nat>)

  /** What one recorded dispatch stores, and what it hands back to its caller. */
  datatype Recorded = Recorded(stored: Record, returned: Record)

  datatype Verdict = Verdict(tripped: bool, wakes: nat)

  predicate IsRevisit(existing: Record, stateLabel: Label) {
    stateLabel in existing.seen.GetOr([])
  }

  function WithSeenState(existing: Record, stateLabel: Label): seq<Label> {
    var prior := match existing.seen
      case Some(s) => s
      case None => if Truthy(existing.lastLabel) then [existing.lastLabel.value] else [];
    if stateLabel in prior then prior else prior + [stateLabel]
  }

  function FreshRecord(stateLabel: Option<Label>, seen: seq<Label>, now: int): Record {
    Record(stateLabel, Some(now), 0, false, None, Some(seen), Some(0))
  }

  function DispatchStep(existing: Option<Record>, stateLabel: Option<Label>, maxWakes: int, maxRevisits: int, now: int): Recorded {
    match stateLabel
    case None =>
      var seeded := FreshRecord(None, [], now);
      Recorded(seeded, seeded)
    case Some(l) =>
      match existing
      case None =>
        var seeded := FreshRecord(stateLabel, [l], now);
        Recorded(seeded, seeded)
      case Some(e) =>
        if !IsRevisit(e, l) then
          var advanced := FreshRecord(stateLabel, WithSeenState(e, l), now);
          Recorded(advanced, advanced)
        else if e.tripped then
          Recorded(e, e.(lastLabel := stateLabel, lastDispatchAt := Some(now)))
        else
          var same := e.lastLabel == stateLabel;
          var count := if same then e.wakes + 1 else 0;
          var revisits := e.revisits.GetOr(0) + 1;
          var trip := (same && count >= maxWakes) || revisits >= maxRevisits;
          var updated := Record(stateLabel, Some(now), count, trip, if trip then Some(now) else None,
                                Some(e.seen.GetOr(WithSeenState(e, l))), Some(revisits));
          Recorded(updated, updated)
  }

  function FailedWakeStep(existing: Option<Record>, stateLabel: Option<Label>, maxWakes: int, now: int): (Option<Record>, Verdict) {
    match existing
    case None => (None, Verdict(false, 0))
    case Some(e) =>
      if e.tripped then (existing, Verdict(true, e.wakes))
      else
        var effective := if stateLabel.Some? then stateLabel else e.lastLabel;
        if effective.None? then (existing, Verdict(false, 0))
        else
          var count := e.wakes + 1;
          var trip := count >= maxWakes;
          (Some(Record(effective, Some(now), count, trip, if trip then Some(now) else None,
                       Some(e.seen.GetOr(WithSeenState(e, effective.value))), Some(e.revisits.GetOr(0)))),
           Verdict(trip, count))
  }

  type Store = map<Ticket, Record>

  predicate Blocked(store: Store, ticket: Ticket) {
    ticket in store && store[ticket].tripped
  }

  /** The module-level record map and the operations that overwrite it. */
  class Breaker {
    var records: Store

    constructor ()
      ensures records == map[]
    {
      records := map[];
    }

    method RecordDispatch(ticket: Ticket, stateLabel: Option<Label>, maxWakes: int, maxRevisits: int, now: int)
      returns (r: Record)
      modifies this
      ensures records == old(records)[ticket := DispatchStep(Lookup(old(records), ticket), stateLabel, maxWakes, maxRevisits, now).stored]
      ensures r == DispatchStep(Lookup(old(records), ticket), stateLabel, maxWakes, maxRevisits, now).returned
    {
      if stateLabel.None? {
        r := FreshRecord(None, [], now);
        records := records[ticket := r];
        return;
      }
      var l := stateLabel.value;
      if ticket !in records {
        r := FreshRecord(stateLabel, [l], now);
        records := records[ticket := r];
        return;
      }
      var existing := records[ticket];
      var isNewState := !IsRevisit(existing, l);
      if existing.tripped {
        if isNewState {
          r := FreshRecord(stateLabel, WithSeenState(existing, l), now);
          records := records[ticket := r];
          return;
        }
        r := existing.(lastLabel := stateLabel, lastDispatchAt := Some(now));
        assert records == records[ticket := existing];
        return;
      }
      if isNewState {
        r := FreshRecord(stateLabel, WithSeenState(existing, l), now);
        records := records[ticket := r];
        return;
      }
      var sameAsLast := existing.lastLabel == stateLabel;
      var newCount := if sameAsLast then existing.wakes + 1 else 0;
      var newRevisit := existing.revisits.GetOr(0) + 1;
      var consecutiveTrip := sameAsLast && newCount >= maxWakes;
      var revisitTrip := newRevisit >= maxRevisits;
      var shouldTrip := consecutiveTrip || revisitTrip;
      r := Record(stateLabel, Some(now), newCount, shouldTrip, if shouldTrip then Some(now) else None,
                  Some(existing.seen.GetOr(WithSeenState(existing, l))), Some(newRevisit));
      records := records[ticket := r];
    }

    method RecordFailedWake(ticket: Ticket, stateLabel: Option<Label>, maxWakes: int, now: int) returns (v: Verdict)
      modifies this
      ensures v == FailedWakeStep(Lookup(old(records), ticket), stateLabel, maxWakes, now).1
      ensures Lookup(records, ticket) == FailedWakeStep(Lookup(old(records), ticket), stateLabel, maxWakes, now).0
      ensures records - {ticket} == old(records) - {ticket}
    {
      if ticket !in records || records[ticket].tripped {
        return if ticket in records then Verdict(true, records[ticket].wakes) else Verdict(false, 0);
      }
      var existing := records[ticket];
      var effective := if stateLabel.Some? then stateLabel else existing.lastLabel;
      if effective.None? {
        return Verdict(false, 0);
      }
      var newCount := existing.wakes + 1;
      var shouldTrip := newCount >= maxWakes;
      records := records[ticket := Record(effective, Some(now), newCount, shouldTrip,
        if shouldTrip then Some(now) else None,
        Some(existing.seen.GetOr(WithSeenState(existing, effective.value))),
        Some(existing.revisits.GetOr(0)))];
      v := Verdict(shouldTrip, newCount);
    }

    method CheckBreaker(ticket: Ticket) returns (blocked: bool, state: Option<Record>)
      ensures blocked <==> Blocked(records, ticket)
      ensures state == if blocked then Lookup(records, ticket) else None
    {
      if ticket in records && records[ticket].tripped {
        return true, Some(records[ticket]);
      }
      return false, None;
    }

    /** A cron re-poke counts against the same record as a webhook wake, and is dropped once the breaker is open. */
    method RecordRepokeAndCheck(ticket: Ticket, stateLabel: Option<Label>, now: int) returns (suppress: bool, r: Record)
      modifies this
      ensures records == old(records)[ticket :=
                DispatchStep(Lookup(old(records), ticket), stateLabel, DEFAULT_MAX_WAKES, DEFAULT_MAX_STATE_REVISITS, now).stored]
      ensures r == DispatchStep(Lookup(old(records), ticket), stateLabel, DEFAULT_MAX_WAKES, DEFAULT_MAX_STATE_REVISITS, now).returned
      ensures suppress <==> Blocked(records, ticket)
      ensures stateLabel.None? ==> !suppress
    {
      r := RecordDispatch(ticket, stateLabel, DEFAULT_MAX_WAKES, DEFAULT_MAX_STATE_REVISITS, now);
      var blocked, _ := CheckBreaker(ticket);
      suppress := blocked;
    }

    method ResetBreaker(ticket: Ticket) returns (had: bool)
      modifies this
      ensures had <==> ticket in old(records)
      ensures records == old(records) - {ticket}
    {
      had := ticket in records;
      records := records - {ticket};
    }
  }

  // ---- Runs over the whole store ----

  datatype Event =
    | Dispatch(ticket: Ticket, stateLabel: Option<Label>, at: int)
    | FailedWake(ticket: Ticket, stateLabel: Option<Label>, at: int)
    | Reset(ticket: Ticket)

  datatype Caps = Caps(maxWakes: int, maxRevisits: int) {
    predicate Positive() { maxWakes > 0 && maxRevisits > 0 }
  }

  function Apply(store: Store, e: Event, caps: Caps): Store {
    match e
    case Dispatch(t, l, at) => store[t := DispatchStep(Lookup(store, t), l, caps.maxWakes, caps.maxRevisits, at).stored]
    case FailedWake(t, l, at) =>
      (match FailedWakeStep(Lookup(store, t), l, caps.maxWakes, at).0
       case Some(r) => store[t := r]
       case None => store)
    case Reset(t) => store - {t}
  }

  function Run(es: seq<Event>, caps: Caps): Store {
    if es == [] then map[] else Apply(Run(es[..|es| - 1], caps), es[|es| - 1], caps)
  }

  /** Labelled dispatches of `t` in the run after which the stored breaker is still closed. */
  function Untripped(es: seq<Event>, caps: Caps, t: Ticket): nat {
    if es == [] then 0
    else
      var e := es[|es| - 1];
      Untripped(es[..|es| - 1], caps, t) +
      if e.Dispatch? && e.ticket == t && e.stateLabel.Some? && !Blocked(Run(es, caps), t) then 1 else 0
  }

  /** Events that wipe the history of `t`: a steward reset, or a dispatch with no state label. */
  predicate Wipes(e: Event, t: Ticket) {
    e.ticket == t && (e.Reset? || (e.Dispatch? && e.stateLabel.None?))
  }

  function WipeCount(es: seq<Event>, t: Ticket): nat {
    if es == [] then 0
    else WipeCount(es[..|es| - 1], t) + if Wipes(es[|es| - 1], t) then 1 else 0
  }

  /** Every labelled dispatch of `t` carries one of the labels in `labels`. */
  predicate LabelsWithin(es: seq<Event>, t: Ticket, labels: set<Label>) {
    forall i :: 0 <= i < |es| && es[i].Dispatch? && es[i].ticket == t && es[i].stateLabel.Some? ==> es[i].stateLabel.value in labels
  }

  /** The trip rule: the stored flag is exactly "one of the two counters reached its cap". */
  predicate TripRule(r: Record, caps: Caps) {
    && (r.tripped <==> r.wakes >= caps.maxWakes || r.revisits.GetOr(0) >= caps.maxRevisits)
    && (r.trippedAt.Some? <==> r.tripped)
  }

  predicate HistoryShape(r: Record, labels: set<Label>) {
    && r.seen.Some? && r.revisits.Some?
    && NoDup(r.seen.value)
    && (forall x :: x in r.seen.value ==> x in labels)
    && (r.seen.value == [] ==> r.revisits.value == 0)
  }

  /** Every record any run stores has a present, duplicate-free history. */
  lemma {:induction false} RunKeepsHistory(es: seq<Event>, caps: Caps, t: Ticket, labels: set<Label>)
    requires LabelsWithin(es, t, labels)
    ensures t in Run(es, caps) ==> HistoryShape(Run(es, caps)[t], labels)
  {
    if es != [] {
      var prior, e := es[..|es| - 1], es[|es| - 1];
      assert LabelsWithin(prior, t, labels);
      RunKeepsHistory(prior, caps, t, labels);
    }
  }

  /** With positive caps the stored flag says exactly whether a counter reached its cap, after any run. */
  lemma {:induction false} TripRuleHolds(es: seq<Event>, caps: Caps, t: Ticket)
    requires caps.Positive()
    ensures t in Run(es, caps) ==> TripRule(Run(es, caps)[t], caps)
  {
    if es != [] {
      var prior := es[..|es| - 1];
      TripRuleHolds(prior, caps, t);
      RunKeepsHistory(prior, caps, t, AllLabels(prior, t));
    }
  }

  predicate TripRuleAfter(es: seq<Event>, caps: Caps, t: Ticket) {
    t in Run(es, caps) ==> TripRule(Run(es, caps)[t], caps)
  }

  /** The positive caps are needed: the very first dispatch already breaks the rule otherwise. */
  lemma TripRuleNeedsPositiveCaps(caps: Caps, t: Ticket, l: Label, at: int)
    ensures TripRuleAfter([Dispatch(t, Some(l), at)], caps, t) <==> caps.Positive()
  {
    var es := [Dispatch(t, Some(l), at)];
    assert es[..|es| - 1] == [];
    assert Run([], caps) == map[];
    assert Run(es, caps) == Apply(map[], es[0], caps);
  }

  /** The flag says over all runs whether a counter reached its cap exactly when the caps are positive. */
  lemma TripRuleHoldsExactly(caps: Caps)
    ensures (forall es: seq<Event>, t: Ticket :: TripRuleAfter(es, caps, t)) <==> caps.Positive()
  {
    hide Run;
    if caps.Positive() {
      forall es: seq<Event>, t: Ticket
        ensures TripRuleAfter(es, caps, t)
      {
        TripRuleHolds(es, caps, t);
      }
    } else {
      TripRuleNeedsPositiveCaps(caps, "T", "l", 0);
      assert !TripRuleAfter([Dispatch("T", Some("l"), 0)], caps, "T");
    }
  }

  function AllLabels(es: seq<Event>, t: Ticket): (s: set<Label>)
    ensures LabelsWithin(es, t, s)
  {
    set i | 0 <= i < |es| && es[i].Dispatch? && es[i].ticket == t && es[i].stateLabel.Some? :: es[i].stateLabel.value
  }

  // ---- The dispatch bound ----

  /** How many untripped labelled dispatches the record's current history can account for. */
  function Accounted(r: Option<Record>, cap: nat): nat {
    match r
    case None => 0
    case Some(r) =>
      var seen := r.seen.GetOr([]);
      if seen == [] then 0
      else (|seen| - 1) * cap + if r.revisits.GetOr(0) + 1 < cap then r.revisits.GetOr(0) + 1 else cap
  }

  lemma AccountedBound(r: Option<Record>, cap: nat, labels: set<Label>)
    requires cap > 0
    requires r.Some? ==> HistoryShape(r.value, labels)
    ensures Accounted(r, cap) <= |labels| * cap
  {
    if r.Some? && r.value.seen.value != [] {
      var seen := r.value.seen.value;
      NoDupBounded(seen, labels);
      OneMore(|seen| - 1, cap);
      MulMono(|seen|, |labels|, cap);
    }
  }

  lemma MulMono(a: nat, b: nat, c: nat)
    requires a <= b
    ensures a * c <= b * c
  {
  }

  /** One step moves the account by no less than what it dispatched untripped, unless it wiped the history. */
  lemma AccountStep(before: Store, e: Event, caps: Caps, t: Ticket, labels: set<Label>)
    requires caps.Positive()
    requires t in before ==> HistoryShape(before[t], labels) && TripRule(before[t], caps)
    requires !Wipes(e, t)
    ensures var after := Apply(before, e, caps);
            Accounted(Lookup(before, t), caps.maxRevisits)
            + (if e.Dispatch? && e.ticket == t && e.stateLabel.Some? && !Blocked(after, t) then 1 else 0)
            <= Accounted(Lookup(after, t), caps.maxRevisits)
  {
    var cap: nat := caps.maxRevisits;
    if e.ticket == t && t in before && e.Dispatch? && !IsRevisit(before[t], e.stateLabel.value) {
      var seen := before[t].seen.value;
      var grown := Apply(before, e, caps)[t].seen.value;
      assert grown == seen + [e.stateLabel.value];
      if seen != [] {
        OneMore(|seen| - 1, cap);
      }
    }
  }

  /**
   * Over any run, with D distinct labels and k wipes of the ticket's history, at most (k+1)*D*maxRevisits
   * labelled dispatches are let through untripped, however the labels churn.
   */
  lemma {:induction false} UntrippedDispatchesAreBounded(es: seq<Event>, caps: Caps, t: Ticket, labels: set<Label>)
    requires caps.Positive()
    requires LabelsWithin(es, t, labels)
    ensures Untripped(es, caps, t) <= (WipeCount(es, t) + 1) * (|labels| * caps.maxRevisits)
  {
    UntrippedAccount(es, caps, t, labels);
    RunKeepsHistory(es, caps, t, labels);
    AccountedBound(Lookup(Run(es, caps), t), caps.maxRevisits, labels);
    OneMore(WipeCount(es, t), |labels| * caps.maxRevisits);
  }

  lemma {:induction false} UntrippedAccount(es: seq<Event>, caps: Caps, t: Ticket, labels: set<Label>)
    requires caps.Positive()
    requires LabelsWithin(es, t, labels)
    ensures Untripped(es, caps, t)
            <= WipeCount(es, t) * (|labels| * caps.maxRevisits) + Accounted(Lookup(Run(es, caps), t), caps.maxRevisits)
  {
    if es != [] {
      var prior, e := es[..|es| - 1], es[|es| - 1];
      assert LabelsWithin(prior, t, labels);
      UntrippedAccount(prior, caps, t, labels);
      RunKeepsHistory(prior, caps, t, labels);
      TripRuleHolds(prior, caps, t);
      var k, b := WipeCount(prior, t), |labels| * caps.maxRevisits;
      if Wipes(e, t) {
        AccountedBound(Lookup(Run(prior, caps), t), caps.maxRevisits, labels);
        OneMore(k, b);
      } else {
        AccountStep(Run(prior, caps), e, caps, t, labels);
      }
    }
  }

  // ---- A churning ticket always trips, and stays tripped ----

  /** A labelled dispatch of `t` among labels the record has already seen. */
  predicate Churns(e: Event, t: Ticket, seen: set<Label>) {
    e.ticket == t && e.Dispatch? && e.stateLabel.Some? && e.stateLabel.value in seen
  }

  function ChurnCount(es: seq<Event>, t: Ticket, seen: set<Label>): nat {
    if es == [] then 0
    else ChurnCount(es[..|es| - 1], t, seen) + if Churns(es[|es| - 1], t, seen) then 1 else 0
  }

  function Continue(store: Store, es: seq<Event>, caps: Caps): Store {
    if es == [] then store else Apply(Continue(store, es[..|es| - 1], caps), es[|es| - 1], caps)
  }

  /** No event of `es` wipes `t` or takes it to a label outside `seen`. */
  predicate NoProgress(es: seq<Event>, t: Ticket, seen: set<Label>) {
    forall i :: 0 <= i < |es| && es[i].ticket == t ==>
      !Wipes(es[i], t) && (es[i].Dispatch? ==> es[i].stateLabel.Some? && es[i].stateLabel.value in seen)
  }

  /**
   * The dead-dispatch loop: once a ticket only revisits labels it has already occupied, maxRevisits further
   * dispatches trip the breaker whatever order the labels come in, and it then stays tripped.
   */
  lemma {:induction false} ChurnTrips(store: Store, es: seq<Event>, caps: Caps, t: Ticket)
    requires caps.Positive()
    requires t in store && store[t].seen.Some?
    requires TripRule(store[t], caps)
    requires NoProgress(es, t, set x | x in store[t].seen.value)
    ensures var end := Continue(store, es, caps);
            && t in end && end[t].seen == store[t].seen && TripRule(end[t], caps)
            && (Blocked(end, t) || end[t].revisits.GetOr(0)
                                   >= store[t].revisits.GetOr(0) + ChurnCount(es, t, set x | x in store[t].seen.value))
            && (ChurnCount(es, t, set x | x in store[t].seen.value) >= caps.maxRevisits ==> Blocked(end, t))
            && (Blocked(store, t) ==> end[t] == store[t])
  {
    if es != [] {
      var prior := es[..|es| - 1];
      assert es[|es| - 1] in es;
      ChurnTrips(store, prior, caps, t);
    }
  }

  /** Every event of `es` on `t` is a wake in the one state `stateLabel`, dispatched or failed. */
  predicate StuckIn(es: seq<Event>, t: Ticket, stateLabel: Label) {
    forall i :: 0 <= i < |es| && es[i].ticket == t ==> !es[i].Reset? && es[i].stateLabel == Some(stateLabel)
  }

  function WakesOf(es: seq<Event>, t: Ticket): nat {
    if es == [] then 0 else WakesOf(es[..|es| - 1], t) + if es[|es| - 1].ticket == t then 1 else 0
  }

  /** maxWakes consecutive wakes in one state trip the breaker, dispatched and failed wakes counting together. */
  lemma {:induction false} ConsecutiveWakesTrip(store: Store, es: seq<Event>, caps: Caps, t: Ticket, stateLabel: Label)
    requires caps.Positive()
    requires t in store && TripRule(store[t], caps) && store[t].lastLabel == Some(stateLabel) && IsRevisit(store[t], stateLabel)
    requires StuckIn(es, t, stateLabel)
    ensures var end := Continue(store, es, caps);
            && t in end && TripRule(end[t], caps) && end[t].lastLabel == Some(stateLabel) && IsRevisit(end[t], stateLabel)
            && (Blocked(end, t) || end[t].wakes == store[t].wakes + WakesOf(es, t))
            && (WakesOf(es, t) >= caps.maxWakes ==> Blocked(end, t))
  {
    if es != [] {
      ConsecutiveWakesTrip(store, es[..|es| - 1], caps, t, stateLabel);
    }
  }

  /** What closes an open breaker: a reset, a label-less dispatch, or a state never seen before. */
  predicate Closes(e: Event, r: Record, t: Ticket) {
    e.ticket == t && (e.Reset? || (e.Dispatch? && (e.stateLabel.None? || !IsRevisit(r, e.stateLabel.value))))
  }

  lemma UntripsExactly(store: Store, e: Event, caps: Caps, t: Ticket)
    requires Blocked(store, t)
    ensures !Blocked(Apply(store, e, caps), t) <==> Closes(e, store[t], t)
    ensures !Closes(e, store[t], t) ==> Apply(store, e, caps)[t] == store[t]
  {
  }

  /** Open after every event of the run. */
  predicate StaysOpen(store: Store, es: seq<Event>, caps: Caps, t: Ticket) {
    Blocked(Continue(store, es, caps), t) && (es != [] ==> StaysOpen(store, es[..|es| - 1], caps, t))
  }

  /** An open breaker stays open through a run exactly when no event of it closes it, and its record stays as it was. */
  lemma {:induction false} StaysOpenExactly(store: Store, es: seq<Event>, caps: Caps, t: Ticket)
    requires Blocked(store, t)
    ensures StaysOpen(store, es, caps, t) <==> forall i :: 0 <= i < |es| ==> !Closes(es[i], store[t], t)
    ensures StaysOpen(store, es, caps, t) ==> Continue(store, es, caps)[t] == store[t]
  {
    hide Apply, Closes, Blocked;
    if es != [] {
      var before, e := es[..|es| - 1], es[|es| - 1];
      StaysOpenExactly(store, before, caps, t);
      assert forall i :: 0 <= i < |before| ==> before[i] == es[i];
      if StaysOpen(store, before, caps, t) {
        UntripsExactly(Continue(store, before, caps), e, caps, t);
      }
    }
  }

  /**
   * A dispatch without a state label closes an open breaker and forgets its history, although only progress or
   * an explicit reset is meant to: the next maxRevisits dispatches over the old labels start from nothing.
   */
  lemma LabellessDispatchForgetsTheTrip(store: Store, t: Ticket, at: int, caps: Caps, l: Label)
    requires Blocked(store, t)
    ensures var wiped := Apply(store, Dispatch(t, None, at), caps);
            && !Blocked(wiped, t)
            && wiped[t].seen == Some([])
            && !Blocked(Apply(wiped, Dispatch(t, Some(l), at), caps), t)
  {
  }
}
