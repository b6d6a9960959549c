/** src/barrier.ts: deferral accounting, stalled children and the events built from them. */
module StallDetection {
  import opened Prelude
  import opened Barrier

  const DEFAULT_STALL_THRESHOLD_MS := 1800000

  datatype Deferral = Deferral(startedAt: int, accumulatedMs: int)

  datatype Event =
    | Start(child: string, now: int)
    | Stop(child: string, now: int)
    | ClearAll

  function Apply(m: map<string, Deferral>, e: Event): map<string, Deferral> {
    match e
    case Start(c, now) => m[c := if c in m then Deferral(now, m[c].accumulatedMs + (now - m[c].startedAt)) else Deferral(now, 0)]
    case Stop(c, _) => m - {c}
    case ClearAll => map[]
  }

  function DeferralOf(m: map<string, Deferral>, c: string, now: int): int {
    if c in m then m[c].accumulatedMs + (now - m[c].startedAt) else 0
  }

  class DeferralAccountant {
    var deferrals: map<string, Deferral>

    constructor ()
      ensures deferrals == map[]
    {
      deferrals := map[];
    }

    method StartDeferral(child: string, now: int)
      modifies this
      ensures deferrals == Apply(old(deferrals), Start(child, now))
    {
      if child in deferrals {
        var existing := deferrals[child];
        deferrals := deferrals[child := Deferral(now, existing.accumulatedMs + (now - existing.startedAt))];
      } else {
        deferrals := deferrals[child := Deferral(now, 0)];
      }
    }

    method StopDeferral(child: string, now: int) returns (total: int)
      modifies this
      ensures deferrals == Apply(old(deferrals), Stop(child, now))
      ensures total == DeferralOf(old(deferrals), child, now)
    {
      if child !in deferrals {
        assert deferrals - {child} == deferrals;
        return 0;
      }
      var entry := deferrals[child];
      total := entry.accumulatedMs + (now - entry.startedAt);
      deferrals := deferrals - {child};
    }

    method GetDeferralMs(child: string, now: int) returns (total: int)
      ensures total == DeferralOf(deferrals, child, now)
    {
      if child !in deferrals { return 0; }
      var entry := deferrals[child];
      total := entry.accumulatedMs + (now - entry.startedAt);
    }
  }

  // ---- Telescoping ----

  function Run(es: seq<Event>): map<string, Deferral> {
    if es == [] then map[] else Apply(Run(es[..|es| - 1]), es[|es| - 1])
  }

  /** When the child's current deferral began: the first start since its last stop. */
  function DeferredSince(es: seq<Event>, c: string): Option<int> {
    if es == [] then None
    else
      var before := DeferredSince(es[..|es| - 1], c);
      match es[|es| - 1]
      case Start(d, now) => if d == c && before.None? then Some(now) else before
      case Stop(d, _) => if d == c then None else before
      case ClearAll => None
  }

  /** However often a deferral is restarted, and whatever the clock does, what is reported is the time since it began. */
  lemma {:induction false} DeferralTelescopes(es: seq<Event>, c: string, now: int)
    ensures c in Run(es) <==> DeferredSince(es, c).Some?
    ensures DeferralOf(Run(es), c, now) == if DeferredSince(es, c).Some? then now - DeferredSince(es, c).value else 0
  {
    if es != [] {
      var last := es[|es| - 1];
      DeferralTelescopes(es[..|es| - 1], c, now);
      if last.Start? && last.child == c {
        DeferralTelescopes(es[..|es| - 1], c, last.now);
      }
    }
  }

  predicate NoneAfter(es: seq<Event>, now: int) {
    forall i :: 0 <= i < |es| && !es[i].ClearAll? ==> es[i].now <= now
  }

  lemma {:induction false} DeferredSinceIsPast(es: seq<Event>, c: string, now: int)
    requires NoneAfter(es, now)
    ensures DeferredSince(es, c).Some? ==> DeferredSince(es, c).value <= now
  {
    if es != [] {
      DeferredSinceIsPast(es[..|es| - 1], c, now);
    }
  }

  /** With a clock that has not run backwards a deferral is never negative. */
  lemma DeferralIsNotNegative(es: seq<Event>, c: string, now: int)
    requires NoneAfter(es, now)
    ensures DeferralOf(Run(es), c, now) >= 0
  {
    DeferralTelescopes(es, c, now);
    DeferredSinceIsPast(es, c, now);
  }

  // ---- Stalled children ----

  datatype StalledChild = StalledChild(
    id: string, parent: string, currentState: Option<string>, lastActivityAt: int, idleDurationMs: int,
    stateEnteredAt: Option<int>, stateSlaMs: Option<int>, timeInStateMs: int, knownDeferralMs: int, isDeferredAtCapacity: bool)

  /** What Linear and the workflow definition say about each child: activity and state-entry times, and the state's parsed SLA. */
  datatype Facts = Facts(lastActivity: map<string, int>, stateEntered: map<string, int>, slaMs: map<string, int>)

  function Max(a: int, b: int): int {
    if a < b then b else a
  }

  function SlaOf(f: Facts, c: ChildState): Option<int> {
    if Truthy(c.workflowState) then Lookup(f.slaMs, c.workflowState.value) else None
  }

  function TimeInState(f: Facts, c: ChildState, now: int): int
    requires c.id in f.lastActivity
  {
    now - (if c.id in f.stateEntered then f.stateEntered[c.id] else f.lastActivity[c.id])
  }

  /** A child is stalled when it is unfinished, readable, not deferred, and has been in its state for its SLA or the flat threshold. */
  predicate IsStalled(f: Facts, deferrals: map<string, Deferral>, c: ChildState, threshold: int, now: int) {
    && !c.isTerminal && c.id in f.lastActivity && c.id !in deferrals
    && Max(0, TimeInState(f, c, now)) >= SlaOf(f, c).GetOr(threshold)
  }

  function Report(f: Facts, parent: string, c: ChildState, now: int): StalledChild
    requires c.id in f.lastActivity
  {
    StalledChild(c.id, parent, c.workflowState, f.lastActivity[c.id], now - f.lastActivity[c.id], Lookup(f.stateEntered, c.id),
                 SlaOf(f, c), TimeInState(f, c, now), 0, false)
  }

  function Stalled(f: Facts, deferrals: map<string, Deferral>, parent: string, cs: seq<ChildState>, threshold: int, now: int): seq<StalledChild> {
    if cs == [] then []
    else
      var c := cs[|cs| - 1];
      Stalled(f, deferrals, parent, cs[..|cs| - 1], threshold, now)
      + (if IsStalled(f, deferrals, c, threshold, now) then [Report(f, parent, c, now)] else [])
  }

  /** The polling loop; the deferral is computed and subtracted before deferred children are skipped. */
  method DetectStalledChildren(
      f: Facts, accountant: DeferralAccountant, parent: string, read: Option<seq<RawChild>>, threshold: int, now: int)
    returns (stalled: seq<StalledChild>)
    ensures stalled == if read.None? then [] else Stalled(f, accountant.deferrals, parent, ReadChildren(read.value), threshold, now)
  {
    stalled := [];
    if read.None? { return; }
    var children := ReadChildren(read.value);
    for i := 0 to |children|
      invariant stalled == Stalled(f, accountant.deferrals, parent, children[..i], threshold, now)
    {
      var child := children[i];
      assert children[..i + 1][..i] == children[..i];
      if child.isTerminal || child.id !in f.lastActivity { continue; }
      var idleDurationMs := now - f.lastActivity[child.id];
      var entered := Lookup(f.stateEntered, child.id);
      var timeInStateMs := if entered.Some? then now - entered.value else idleDurationMs;
      var stateSlaMs := SlaOf(f, child);
      var isDeferredAtCapacity := child.id in accountant.deferrals;
      var knownDeferralMs := accountant.GetDeferralMs(child.id, now);
      var effectiveThresholdMs := stateSlaMs.GetOr(threshold);
      var effectiveTimeMs := Max(0, timeInStateMs - knownDeferralMs);
      if isDeferredAtCapacity { continue; }
      if effectiveTimeMs >= effectiveThresholdMs {
        stalled := stalled + [StalledChild(child.id, parent, child.workflowState, f.lastActivity[child.id], idleDurationMs,
          entered, stateSlaMs, timeInStateMs, knownDeferralMs, isDeferredAtCapacity)];
      }
    }
    assert children[..|children|] == children;
  }

  datatype StallEvent = StallEvent(
    child: string, parent: string, currentState: string, timeInStateMs: int, slaMs: int, breachMs: int, knownDeferralMs: int,
    isDeferredAtCapacity: bool, createdAt: int, stateEnteredAt: Option<int>)

  function BuildStallEvent(c: StalledChild, now: int): StallEvent {
    var slaMs := c.stateSlaMs.GetOr(DEFAULT_STALL_THRESHOLD_MS);
    StallEvent(c.id, c.parent, c.currentState.GetOr("unknown"), c.timeInStateMs, slaMs,
               Max(0, c.timeInStateMs - c.knownDeferralMs - slaMs), c.knownDeferralMs, c.isDeferredAtCapacity, now, c.stateEnteredAt)
  }

  /** Membership in the result, read backwards: which child each report is about. */
  lemma {:induction false} ReportsAreStalled(f: Facts, d: map<string, Deferral>, parent: string, cs: seq<ChildState>, threshold: int, now: int, s: StalledChild)
    ensures s in Stalled(f, d, parent, cs, threshold, now) <==>
              exists c :: c in cs && IsStalled(f, d, c, threshold, now) && s == Report(f, parent, c, now)
  {
    if cs != [] {
      var c := cs[|cs| - 1];
      ReportsAreStalled(f, d, parent, cs[..|cs| - 1], threshold, now, s);
      assert cs == cs[..|cs| - 1] + [c];
    }
  }

  /**
   * Without an SLA the child was judged by the caller's threshold, but its event is measured against the 30-minute
   * default: the breach is the time beyond the threshold exactly when the two agree or neither is exceeded.
   */
  lemma FlatThresholdEventsUseTheDefault(
      f: Facts, d: map<string, Deferral>, parent: string, cs: seq<ChildState>, threshold: nat, now: int, s: StalledChild, at: int)
    requires s in Stalled(f, d, parent, cs, threshold, now) && s.stateSlaMs.None?
    ensures BuildStallEvent(s, at).breachMs == Max(0, s.timeInStateMs) - threshold <==>
              threshold == DEFAULT_STALL_THRESHOLD_MS || (Max(0, s.timeInStateMs) == threshold <= DEFAULT_STALL_THRESHOLD_MS)
  {
    ReportsAreStalled(f, d, parent, cs, threshold, now, s);
  }

  /**
   * After any run of the accountant: every reported child carries no deferral, and since its last stop nobody started
   * one; if its state has an SLA, its event's breach is exactly the time in state beyond the SLA, and not negative; if
   * not, the breach is the time beyond the threshold exactly when that is the default or nothing exceeds it.
   */
  lemma StallEventsAreExact(
      f: Facts, es: seq<Event>, parent: string, cs: seq<ChildState>, threshold: int, now: int, s: StalledChild, at: int)
    requires s in Stalled(f, Run(es), parent, cs, threshold, now)
    ensures s.knownDeferralMs == 0 && !s.isDeferredAtCapacity && DeferredSince(es, s.id).None?
    ensures s.stateSlaMs.Some? && s.stateSlaMs.value >= 0 ==>
              var e := BuildStallEvent(s, at);
              e.slaMs == s.stateSlaMs.value && e.breachMs == Max(0, s.timeInStateMs) - e.slaMs && e.breachMs >= 0
    ensures s.stateSlaMs.None? && threshold >= 0 ==>
              (BuildStallEvent(s, at).breachMs == Max(0, s.timeInStateMs) - threshold <==>
                threshold == DEFAULT_STALL_THRESHOLD_MS || (Max(0, s.timeInStateMs) == threshold <= DEFAULT_STALL_THRESHOLD_MS))
  {
    hide Run;
    if s.stateSlaMs.None? && threshold >= 0 {
      FlatThresholdEventsUseTheDefault(f, Run(es), parent, cs, threshold, now, s, at);
    }
    ReportsAreStalled(f, Run(es), parent, cs, threshold, now, s);
    DeferralTelescopes(es, s.id, now);
  }
}
