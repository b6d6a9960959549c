/** src/dispatch-health.ts: the health badge of a ticket, from its events and its dispatch acknowledgement. */
module DispatchHealth {
  import opened Prelude

  datatype Event = Event(outcome: string, occurredAt: int, attemptCount: Option<int>, wakeId: Option<string>)

  datatype AckStatus = Pending | Unconfirmed | Acked | Deferred | Escalated

  datatype Ack = Ack(status: AckStatus, attemptCount: int, lastSignalAt: int)

  /** `Resignaling` is the badge shown as "unconfirmed". */
  datatype Badge = Working | Quiet | Resignaling | Exhausted | AtCapacity | Idle

  datatype Health = Health(badge: Badge, attempt: Option<int>, maxAttempts: int)

  datatype Settings = Settings(now: int, maxAttempts: int, workingThresholdMs: int, quietGraceMs: int)

  const ENGAGEMENT := {"engagement-thinking", "engagement-doing", "engagement-todo"}
  const UNCONFIRMED := {"delivery-unconfirmed", "watchdog-resignal", "delivery-failed"}
  const AT_CAPACITY := {"deferred-at-capacity"}
  const CAPACITY_REARM := {"deferred-capacity-rearm"}

  // ---- Sorting newest first, and taking the first ----

  /** Goes in front of the events that are not newer: equal times keep their order. */
  function Insert(e: Event, s: seq<Event>): seq<Event> {
    if s == [] || e.occurredAt >= s[0].occurredAt then [e] + s else [s[0]] + Insert(e, s[1..])
  }

  function NewestFirst(es: seq<Event>): seq<Event> {
    if es == [] then [] else Insert(es[0], NewestFirst(es[1..]))
  }

  function FirstWhere(es: seq<Event>, p: Event -> bool): Option<Event> {
    if es == [] then None else if p(es[0]) then Some(es[0]) else FirstWhere(es[1..], p)
  }

  function InClass(outcomes: set<string>): Event -> bool {
    (e: Event) => e.outcome in outcomes
  }

  function RecentlyEngaged(o: Settings): Event -> bool {
    (e: Event) => e.outcome in ENGAGEMENT && o.now - e.occurredAt <= o.workingThresholdMs
  }

  function HasWakeId(): Event -> bool {
    (e: Event) => Truthy(e.wakeId)
  }

  // ---- The projection ----

  function NonZero(n: int): Option<int> {
    if n == 0 then None else Some(n)
  }

  function AckAttempts(ack: Option<Ack>): Option<int> {
    if ack.Some? then Some(ack.value.attemptCount) else None
  }

  function OrElse(a: Option<int>, b: Option<int>): Option<int> {
    if a.Some? then a else b
  }

  /** The badge, from the newest event of each class and whether any engagement is recent and any event has a wake. */
  function Project(
      capacity: Option<Event>, rearm: Option<Event>, engaged: bool, woken: bool, unconfirmed: Option<Event>, ack: Option<Ack>, o: Settings): Health {
    if ack.Some? && ack.value.status == Escalated then Health(Exhausted, AckAttempts(ack), o.maxAttempts)
    else if ack.Some? && ack.value.status == Deferred then Health(AtCapacity, AckAttempts(ack), o.maxAttempts)
    else if capacity.Some? && (rearm.None? || capacity.value.occurredAt > rearm.value.occurredAt) then
      Health(AtCapacity, OrElse(capacity.value.attemptCount, AckAttempts(ack)), o.maxAttempts)
    else if engaged then Health(Working, None, o.maxAttempts)
    else if unconfirmed.Some? && (woken || ack.Some?) then
      var attempt := OrElse(unconfirmed.value.attemptCount, AckAttempts(ack)).GetOr(1);
      Health(if attempt > o.maxAttempts then Exhausted else Resignaling, Some(attempt), o.maxAttempts)
    else if ack.Some? && (ack.value.status == Pending || ack.value.status == Unconfirmed) then
      if o.now - ack.value.lastSignalAt <= o.quietGraceMs then Health(Quiet, NonZero(ack.value.attemptCount), o.maxAttempts)
      else if ack.value.attemptCount > 1 then Health(Resignaling, AckAttempts(ack), o.maxAttempts)
      else Health(Quiet, NonZero(ack.value.attemptCount), o.maxAttempts)
    else Health(Idle, None, o.maxAttempts)
  }

  function ComputeDispatchHealth(es: seq<Event>, ack: Option<Ack>, o: Settings): Health {
    var sorted := NewestFirst(es);
    Project(FirstWhere(sorted, InClass(AT_CAPACITY)), FirstWhere(sorted, InClass(CAPACITY_REARM)),
            FirstWhere(sorted, RecentlyEngaged(o)).Some?, FirstWhere(sorted, HasWakeId()).Some?,
            FirstWhere(sorted, InClass(UNCONFIRMED)), ack, o)
  }

  method BatchComputeDispatchHealth(tickets: seq<string>, events: map<string, seq<Event>>, acks: map<string, Ack>, o: Settings)
    returns (result: map<string, Health>)
    requires forall t :: t in tickets <==> t in events
    ensures result.Keys == events.Keys
    ensures forall t :: t in events ==> result[t] == ComputeDispatchHealth(events[t], Lookup(acks, t), o)
  {
    hide ComputeDispatchHealth;
    result := map[];
    for i := 0 to |tickets|
      invariant forall t :: t in result <==> t in tickets[..i]
      invariant forall t :: t in result ==> t in events && result[t] == ComputeDispatchHealth(events[t], Lookup(acks, t), o)
    {
      assert tickets[i] in tickets && tickets[..i + 1] == tickets[..i] + [tickets[i]];
      result := result[tickets[i] := ComputeDispatchHealth(events[tickets[i]], Lookup(acks, tickets[i]), o)];
    }
    assert tickets[..|tickets|] == tickets;
  }

  // ---- The newest of a class, without sorting ----

  /** An event of the class that no event of the class is newer than. */
  predicate IsNewest(es: seq<Event>, p: Event -> bool, e: Event) {
    e in es && p(e) && forall f :: f in es && p(f) ==> f.occurredAt <= e.occurredAt
  }

  predicate Sorted(s: seq<Event>) {
    forall i, j :: 0 <= i < j < |s| ==> s[i].occurredAt >= s[j].occurredAt
  }

  lemma {:induction false} InsertKeepsElements(e: Event, s: seq<Event>)
    ensures multiset(Insert(e, s)) == multiset(s) + multiset{e}
  {
    if s != [] && e.occurredAt < s[0].occurredAt {
      InsertKeepsElements(e, s[1..]);
      assert s == [s[0]] + s[1..];
    }
  }

  lemma {:induction false} InsertSorts(e: Event, s: seq<Event>)
    requires Sorted(s)
    ensures Sorted(Insert(e, s))
  {
    if s != [] && e.occurredAt < s[0].occurredAt {
      var t := Insert(e, s[1..]);
      InsertSorts(e, s[1..]);
      InsertKeepsElements(e, s[1..]);
      forall i | 0 <= i < |t|
        ensures s[0].occurredAt >= t[i].occurredAt
      {
        assert t[i] in multiset(t);
        assert t[i] in s[1..] || t[i] == e;
      }
    }
  }

  lemma {:induction false} SortingSorts(es: seq<Event>)
    ensures Sorted(NewestFirst(es)) && multiset(NewestFirst(es)) == multiset(es)
  {
    if es != [] {
      SortingSorts(es[1..]);
      InsertSorts(es[0], NewestFirst(es[1..]));
      InsertKeepsElements(es[0], NewestFirst(es[1..]));
      assert es == [es[0]] + es[1..];
    }
  }

  lemma {:induction false} FirstIsNewest(s: seq<Event>, p: Event -> bool)
    requires Sorted(s)
    ensures match FirstWhere(s, p)
            case Some(e) => IsNewest(s, p, e)
            case None => forall e :: e in s ==> !p(e)
  {
    if s != [] {
      assert s == [s[0]] + s[1..];
      FirstIsNewest(s[1..], p);
    }
  }

  lemma SameElements(es: seq<Event>, fs: seq<Event>)
    requires multiset(es) == multiset(fs)
    ensures forall e :: e in es <==> e in fs
  {
    assert forall e :: e in es <==> e in multiset(es);
    assert forall e :: e in fs <==> e in multiset(fs);
  }

  /** Sorting and taking the first of a class yields the newest of the class over the unordered events. */
  lemma FirstOfSortedIsNewest(es: seq<Event>, p: Event -> bool)
    ensures match FirstWhere(NewestFirst(es), p)
            case Some(e) => IsNewest(es, p, e)
            case None => forall e :: e in es ==> !p(e)
  {
    SortingSorts(es);
    SameElements(es, NewestFirst(es));
    FirstIsNewest(NewestFirst(es), p);
  }

  // ---- When the order of the events shows ----

  /** The class whose newest event supplies the attempt shown, if any event does. */
  datatype Decider = ByCapacity | ByUnconfirmed | Apart

  function ClassOf(d: Decider): set<string> {
    match d
    case ByCapacity => AT_CAPACITY
    case ByUnconfirmed => UNCONFIRMED
    case Apart => {}
  }

  /** A deferral at capacity that no re-arm has caught up with. */
  predicate HeldBack(es: seq<Event>) {
    exists e :: e in es && e.outcome in AT_CAPACITY && forall r :: r in es && r.outcome in CAPACITY_REARM ==> r.occurredAt < e.occurredAt
  }

  predicate Any(es: seq<Event>, p: Event -> bool) {
    exists e :: e in es && p(e)
  }

  function DecidedBy(es: seq<Event>, ack: Option<Ack>, o: Settings): Decider {
    if ack.Some? && ack.value.status in {Escalated, Deferred} then Apart
    else if HeldBack(es) then ByCapacity
    else if Any(es, RecentlyEngaged(o)) then Apart
    else if Any(es, InClass(UNCONFIRMED)) && (ack.Some? || Any(es, HasWakeId())) then ByUnconfirmed
    else Apart
  }

  /** The attempt an event of the deciding class has the badge show. */
  function Shown(d: Decider, e: Event, ack: Option<Ack>): Option<int> {
    var attempt := OrElse(e.attemptCount, AckAttempts(ack));
    if d.ByUnconfirmed? then Some(attempt.GetOr(1)) else attempt
  }

  /** Two newest events of the deciding class that differ in what they would show. */
  predicate NewestDisagree(es: seq<Event>, ack: Option<Ack>, o: Settings) {
    var d := DecidedBy(es, ack, o);
    exists e, f :: e in es && f in es && IsNewest(es, InClass(ClassOf(d)), e) && IsNewest(es, InClass(ClassOf(d)), f) && Shown(d, e, ack) != Shown(d, f, ack)
  }

  lemma FirstExists(es: seq<Event>, p: Event -> bool)
    ensures FirstWhere(NewestFirst(es), p).Some? <==> Any(es, p)
  {
    hide NewestFirst, FirstWhere;
    FirstOfSortedIsNewest(es, p);
  }

  lemma HeldBackByNewest(es: seq<Event>)
    ensures var capacity, rearm := FirstWhere(NewestFirst(es), InClass(AT_CAPACITY)), FirstWhere(NewestFirst(es), InClass(CAPACITY_REARM));
            HeldBack(es) <==> capacity.Some? && (rearm.None? || capacity.value.occurredAt > rearm.value.occurredAt)
  {
    hide NewestFirst, FirstWhere, AT_CAPACITY, CAPACITY_REARM;
    FirstOfSortedIsNewest(es, InClass(AT_CAPACITY));
    FirstOfSortedIsNewest(es, InClass(CAPACITY_REARM));
  }

  /** The health a deciding event gives. */
  function HealthFrom(d: Decider, e: Event, ack: Option<Ack>, o: Settings): Health {
    var attempt := Shown(d, e, ack);
    Health(if d.ByCapacity? then AtCapacity else if attempt.GetOr(1) > o.maxAttempts then Exhausted else Resignaling, attempt, o.maxAttempts)
  }

  /** The health when no event supplies the attempt; `engaged` is all it takes from the events. */
  function HealthApart(engaged: bool, ack: Option<Ack>, o: Settings): Health {
    Project(None, None, engaged, false, None, ack, o)
  }

  /** Badge and attempt come from a newest event of the deciding class, or from no single event. */
  lemma HealthIsDecided(es: seq<Event>, ack: Option<Ack>, o: Settings)
    ensures var d, health := DecidedBy(es, ack, o), ComputeDispatchHealth(es, ack, o);
            if d.Apart? then health == HealthApart(Any(es, RecentlyEngaged(o)), ack, o)
            else exists e :: IsNewest(es, InClass(ClassOf(d)), e) && FirstWhere(NewestFirst(es), InClass(ClassOf(d))) == Some(e) && health == HealthFrom(d, e, ack, o)
  {
    hide NewestFirst, FirstWhere, AT_CAPACITY, CAPACITY_REARM, UNCONFIRMED, HeldBack, IsNewest, Any;
    HeldBackByNewest(es);
    FirstExists(es, RecentlyEngaged(o));
    FirstExists(es, HasWakeId());
    FirstExists(es, InClass(UNCONFIRMED));
    FirstOfSortedIsNewest(es, InClass(UNCONFIRMED));
    FirstOfSortedIsNewest(es, InClass(AT_CAPACITY));
  }

  lemma DecisionIgnoresOrder(es: seq<Event>, fs: seq<Event>, ack: Option<Ack>, o: Settings)
    requires multiset(es) == multiset(fs)
    ensures DecidedBy(es, ack, o) == DecidedBy(fs, ack, o) && Any(es, RecentlyEngaged(o)) == Any(fs, RecentlyEngaged(o))
    ensures forall p, e :: IsNewest(es, p, e) <==> IsNewest(fs, p, e)
  {
    hide AT_CAPACITY, CAPACITY_REARM, UNCONFIRMED;
    SameElements(es, fs);
  }

  /** An event no event of its class is newer than is found first, once it is sorted in last. */
  lemma {:induction false} InsertedIsFound(e: Event, s: seq<Event>, p: Event -> bool)
    requires p(e) && forall f :: f in s && p(f) ==> f.occurredAt <= e.occurredAt
    ensures FirstWhere(Insert(e, s), p) == Some(e)
  {
    if s != [] && e.occurredAt < s[0].occurredAt {
      InsertedIsFound(e, s[1..], p);
      assert Insert(e, s)[1..] == Insert(e, s[1..]);
    }
  }

  /** Each newest event of a class is the one found in some order of the events. */
  lemma NewestCanBeFound(es: seq<Event>, p: Event -> bool, e: Event) returns (fs: seq<Event>)
    requires IsNewest(es, p, e)
    ensures multiset(fs) == multiset(es) && FirstWhere(NewestFirst(fs), p) == Some(e)
  {
    hide NewestFirst, FirstWhere;
    var i :| 0 <= i < |es| && es[i] == e;
    var rest := es[..i] + es[i + 1..];
    fs := [e] + rest;
    assert es == es[..i] + [e] + es[i + 1..] && fs[1..] == rest;
    SortingSorts(rest);
    SameElements(rest, NewestFirst(rest));
    InsertedIsFound(e, NewestFirst(rest), p);
    assert NewestFirst(fs) == Insert(e, NewestFirst(rest)) by { SortsFirstLast(fs); }
  }

  lemma SortsFirstLast(es: seq<Event>)
    requires es != []
    ensures NewestFirst(es) == Insert(es[0], NewestFirst(es[1..]))
  {
  }

  /** Some order of the same events gives another badge or attempt. */
  ghost predicate OrderMatters(es: seq<Event>, ack: Option<Ack>, o: Settings) {
    exists fs: seq<Event> :: multiset(fs) == multiset(es) && ComputeDispatchHealth(fs, ack, o) != ComputeDispatchHealth(es, ack, o)
  }

  lemma DisagreementShows(es: seq<Event>, ack: Option<Ack>, o: Settings)
    requires NewestDisagree(es, ack, o)
    ensures OrderMatters(es, ack, o)
  {
    hide NewestFirst, FirstWhere, AT_CAPACITY, CAPACITY_REARM, UNCONFIRMED, IsNewest, DecidedBy, ComputeDispatchHealth;
    var d := DecidedBy(es, ack, o);
    var p := InClass(ClassOf(d));
    var e, f :| IsNewest(es, p, e) && IsNewest(es, p, f) && Shown(d, e, ack) != Shown(d, f, ack);
    assert !d.Apart? by { NothingInNoClass(es, e, d); }
    var es1 := NewestCanBeFound(es, p, e);
    var es2 := NewestCanBeFound(es, p, f);
    DecisionIgnoresOrder(es, es1, ack, o);
    DecisionIgnoresOrder(es, es2, ack, o);
    HealthIsDecided(es1, ack, o);
    HealthIsDecided(es2, ack, o);
    assert ComputeDispatchHealth(es1, ack, o).attempt == Shown(d, e, ack);
    assert ComputeDispatchHealth(es2, ack, o).attempt == Shown(d, f, ack);
  }

  lemma NothingInNoClass(es: seq<Event>, e: Event, d: Decider)
    requires IsNewest(es, InClass(ClassOf(d)), e)
    ensures !d.Apart?
  {
  }

  /** Badge and attempt depend on the order of the events exactly when two newest events of the deciding class would show different attempts. */
  lemma OrderMattersExactly(es: seq<Event>, ack: Option<Ack>, o: Settings)
    ensures OrderMatters(es, ack, o) <==> NewestDisagree(es, ack, o)
  {
    hide NewestFirst, FirstWhere, AT_CAPACITY, CAPACITY_REARM, UNCONFIRMED, DecidedBy, ComputeDispatchHealth;
    if NewestDisagree(es, ack, o) {
      DisagreementShows(es, ack, o);
    } else if OrderMatters(es, ack, o) {
      var fs: seq<Event> :| multiset(fs) == multiset(es) && ComputeDispatchHealth(fs, ack, o) != ComputeDispatchHealth(es, ack, o);
      DecisionIgnoresOrder(es, fs, ack, o);
      HealthIsDecided(es, ack, o);
      HealthIsDecided(fs, ack, o);
      assert false;
    }
  }

  predicate DistinctTimes(es: seq<Event>) {
    forall i, j :: 0 <= i < j < |es| ==> es[i].occurredAt != es[j].occurredAt
  }

  lemma OrderDoesNotMatterAtDistinctTimes(es: seq<Event>, fs: seq<Event>, ack: Option<Ack>, o: Settings)
    requires multiset(es) == multiset(fs) && DistinctTimes(es)
    ensures ComputeDispatchHealth(es, ack, o) == ComputeDispatchHealth(fs, ack, o)
  {
    hide ComputeDispatchHealth, DecidedBy;
    OrderMattersExactly(es, ack, o);
  }
}
