/** src/delegate-ping-pong-detector.ts: sliding-window delegate chains and cycle detection. */
module PingPong {
  import opened Prelude

  type Ticket = string
  type Delegate = string

  datatype Assignment = Assignment(delegate: Delegate, agent: string, at: int)

  datatype Detection = Detection(
    hasCycle: bool,
    cycling: set<Delegate>,
    bounces: map<Delegate, nat>,
    chain: seq<Assignment>)

  /** The assignments of a chain that are not older than the window at time `now`. */
  function Prune(chain: seq<Assignment>, now: int, windowMs: int): seq<Assignment> {
    if chain == [] then []
    else
      var last := chain[|chain| - 1];
      Prune(chain[..|chain| - 1], now, windowMs) + if last.at >= now - windowMs then [last] else []
  }

  /** Does position `i` open a maximal run of one delegate? */
  predicate OpensRun(chain: seq<Assignment>, i: nat)
    requires i < |chain|
  {
    i == 0 || chain[i - 1].delegate != chain[i].delegate
  }

  /** How many maximal runs of delegate `d` the chain has. */
  function RunsOf(chain: seq<Assignment>, d: Delegate): nat {
    if chain == [] then 0
    else
      RunsOf(chain[..|chain| - 1], d) +
      if chain[|chain| - 1].delegate == d && OpensRun(chain, |chain| - 1) then 1 else 0
  }

  predicate Holds(chain: seq<Assignment>, d: Delegate) {
    exists i :: 0 <= i < |chain| && chain[i].delegate == d
  }

  /** What a detection must say about the chain it was made on. */
  ghost predicate Describes(r: Detection, chain: seq<Assignment>, maxBounces: int) {
    && r.chain == chain
    && Counts(r.bounces, chain)
    && (forall d :: d in r.cycling <==> Holds(chain, d) && RunsOf(chain, d) >= maxBounces)
    && (r.hasCycle <==> exists d :: Holds(chain, d) && RunsOf(chain, d) >= maxBounces)
  }

  type Chains = map<Ticket, seq<Assignment>>

  function ChainOf(chains: Chains, t: Ticket): seq<Assignment> {
    Lookup(chains, t).GetOr([])
  }

  class ChainTracker {
    var chains: Chains
    const maxBounces: int
    const windowMs: int

    constructor (maxBounces: int, windowMs: int)
      ensures chains == map[] && this.maxBounces == maxBounces && this.windowMs == windowMs
    {
      chains := map[];
      this.maxBounces, this.windowMs := maxBounces, windowMs;
    }

    method RecordAssignment(ticket: Ticket, delegate: Delegate, agent: string, now: int)
      modifies this
      ensures chains == old(chains)[ticket := Prune(ChainOf(old(chains), ticket), now, windowMs) + [Assignment(delegate, agent, now)]]
    {
      var chain := Prune(ChainOf(chains, ticket), now, windowMs);
      chain := chain + [Assignment(delegate, agent, now)];
      chains := chains[ticket := chain];
    }

    method DetectCycle(ticket: Ticket, now: int) returns (r: Detection)
      modifies this
      ensures chains == old(chains)[ticket := Prune(ChainOf(old(chains), ticket), now, windowMs)]
      ensures Describes(r, chains[ticket], maxBounces)
    {
      var chain := Prune(ChainOf(chains, ticket), now, windowMs);
      chains := chains[ticket := chain];
      var bounces := CountBounces(chain);
      var cycling := set d | d in bounces && bounces[d] >= maxBounces;
      r := Detection(cycling != {}, cycling, bounces, chain);
      assert forall d :: Holds(chain, d) && RunsOf(chain, d) >= maxBounces ==> d in cycling;
      if cycling != {} {
        var d :| d in cycling;
        assert Holds(chain, d);
      }
    }

    /** Records the assignment, looks for a cycle, and decides whether the dispatch is held back. */
    method CheckAndHandle(ticket: Ticket, delegate: Delegate, agent: string, now: int, exemptTarget: Option<bool>)
      returns (r: Detection, suppress: bool)
      modifies this
      ensures chains == old(chains)[ticket := Prune(Prune(ChainOf(old(chains), ticket), now, windowMs) + [Assignment(delegate, agent, now)], now, windowMs)]
      ensures Describes(r, chains[ticket], maxBounces)
      ensures suppress <==> r.hasCycle && exemptTarget != Some(true)
    {
      RecordAssignment(ticket, delegate, agent, now);
      ghost var recorded := chains[ticket];
      r := DetectCycle(ticket, now);
      OverwriteTwice(old(chains), ticket, recorded, Prune(recorded, now, windowMs));
      suppress := false;
      if r.hasCycle {
        var exempt := exemptTarget.GetOr(false);
        if exempt { return; }
        suppress := true;
      }
    }

    method ClearTicket(ticket: Ticket)
      modifies this
      ensures chains == old(chains) - {ticket}
    {
      chains := chains - {ticket};
    }
  }

  /** The map counts, for exactly the delegates of the chain, their maximal runs. */
  ghost predicate Counts(bounces: map<Delegate, nat>, chain: seq<Assignment>) {
    && (forall d :: d in bounces <==> Holds(chain, d))
    && (forall d :: d in bounces ==> bounces[d] == RunsOf(chain, d))
  }

  lemma HoldsGrows(chain: seq<Assignment>, a: Assignment, d: Delegate)
    ensures Holds(chain + [a], d) <==> Holds(chain, d) || d == a.delegate
  {
    var grown := chain + [a];
    if d == a.delegate {
      assert grown[|chain|].delegate == d;
    } else if k :| 0 <= k < |chain| && chain[k].delegate == d {
      assert grown[k].delegate == d;
    }
  }

  lemma RunsGrow(chain: seq<Assignment>, a: Assignment, d: Delegate)
    ensures RunsOf(chain + [a], d)
            == RunsOf(chain, d) + if d == a.delegate && (chain == [] || chain[|chain| - 1].delegate != d) then 1 else 0
  {
    assert (chain + [a])[..|chain|] == chain;
  }

  lemma CountsGrow(bounces: map<Delegate, nat>, chain: seq<Assignment>, a: Assignment)
    requires Counts(bounces, chain)
    ensures if chain != [] && chain[|chain| - 1].delegate == a.delegate then Counts(bounces, chain + [a])
            else Counts(bounces[a.delegate := Lookup(bounces, a.delegate).GetOr(0) + 1], chain + [a])
  {
    hide RunsOf, Holds;
    forall d
      ensures Holds(chain + [a], d) <==> Holds(chain, d) || d == a.delegate
      ensures RunsOf(chain + [a], d)
              == RunsOf(chain, d) + if d == a.delegate && (chain == [] || chain[|chain| - 1].delegate != d) then 1 else 0
    {
      HoldsGrows(chain, a, d);
      RunsGrow(chain, a, d);
    }
    if a.delegate !in bounces {
      NeverHeld(chain, a.delegate);
    }
    if chain != [] && chain[|chain| - 1].delegate == a.delegate {
      LastIsHeld(chain);
    }
  }

  lemma LastIsHeld(chain: seq<Assignment>)
    requires chain != []
    ensures Holds(chain, chain[|chain| - 1].delegate)
  {
  }

  /** The counting loop: an assignment counts only when it changes the delegate from the one just before it. */
  method CountBounces(chain: seq<Assignment>) returns (bounces: map<Delegate, nat>)
    ensures Counts(bounces, chain)
  {
    hide RunsOf, Holds, Counts;
    bounces := map[];
    var prev: Option<Delegate> := None;
    NothingCounted();
    for i := 0 to |chain|
      invariant prev == if i == 0 then None else Some(chain[i - 1].delegate)
      invariant Counts(bounces, chain[..i])
    {
      var d0 := chain[i].delegate;
      assert chain[..i + 1] == chain[..i] + [chain[i]];
      CountsGrow(bounces, chain[..i], chain[i]);
      if prev == Some(d0) { continue; }
      bounces := bounces[d0 := Lookup(bounces, d0).GetOr(0) + 1];
      prev := Some(d0);
    }
    assert chain[..|chain|] == chain;
  }

  lemma NothingCounted()
    ensures Counts(map[], [])
  {
  }

  lemma {:induction false} NeverHeld(chain: seq<Assignment>, d: Delegate)
    requires !Holds(chain, d)
    ensures RunsOf(chain, d) == 0
  {
    if chain != [] {
      var prior := chain[..|chain| - 1];
      assert forall i :: 0 <= i < |prior| ==> prior[i] == chain[i];
      NeverHeld(prior, d);
      assert chain[|chain| - 1].delegate != d;
    }
  }

  // ---- The incrementally pruned chain is the windowed history ----

  datatype Event =
    | Assign(ticket: Ticket, delegate: Delegate, agent: string, at: int)
    | Detect(ticket: Ticket, at: int)
    | Clear(ticket: Ticket, at: int)

  function Apply(c: Chains, e: Event, windowMs: int): Chains {
    match e
    case Assign(t, d, a, at) => c[t := Prune(ChainOf(c, t), at, windowMs) + [Assignment(d, a, at)]]
    case Detect(t, at) => c[t := Prune(ChainOf(c, t), at, windowMs)]
    case Clear(t, _) => c - {t}
  }

  function Run(es: seq<Event>, windowMs: int): Chains {
    if es == [] then map[] else Apply(Run(es[..|es| - 1], windowMs), es[|es| - 1], windowMs)
  }

  /** Every assignment of `t` since it was last cleared, never pruned. */
  function History(es: seq<Event>, t: Ticket): seq<Assignment> {
    if es == [] then []
    else
      var e, h := es[|es| - 1], History(es[..|es| - 1], t);
      if e.ticket != t || e.Detect? then h
      else if e.Clear? then []
      else h + [Assignment(e.delegate, e.agent, e.at)]
  }

  /** When the chain of `t` was last touched (any time, if never). */
  function LastTouched(es: seq<Event>, t: Ticket): Option<int> {
    if es == [] then None
    else if es[|es| - 1].ticket == t then Some(es[|es| - 1].at)
    else LastTouched(es[..|es| - 1], t)
  }

  predicate Monotone(es: seq<Event>) {
    forall i, j :: 0 <= i <= j < |es| ==> es[i].at <= es[j].at
  }

  lemma {:induction false} PruneTwice(h: seq<Assignment>, earlier: int, later: int, windowMs: int)
    requires earlier <= later
    ensures Prune(Prune(h, earlier, windowMs), later, windowMs) == Prune(h, later, windowMs)
  {
    if h != [] {
      var prior, last := h[..|h| - 1], h[|h| - 1];
      PruneTwice(prior, earlier, later, windowMs);
      if last.at >= earlier - windowMs {
        assert (Prune(prior, earlier, windowMs) + [last])[..|Prune(prior, earlier, windowMs)|] == Prune(prior, earlier, windowMs);
      } else {
        assert Prune(h, earlier, windowMs) == Prune(prior, earlier, windowMs);
      }
    }
  }

  lemma PruneAppend(h: seq<Assignment>, a: Assignment, now: int, windowMs: int)
    ensures Prune(h + [a], now, windowMs) == Prune(h, now, windowMs) + if a.at >= now - windowMs then [a] else []
  {
    assert (h + [a])[..|h + [a]| - 1] == h;
  }

  lemma {:induction false} TouchedInPast(es: seq<Event>, t: Ticket)
    requires Monotone(es) && LastTouched(es, t).Some?
    ensures LastTouched(es, t).value <= es[|es| - 1].at
  {
    if es[|es| - 1].ticket != t {
      assert LastTouched(es[..|es| - 1], t).Some?;
      TouchedInPast(es[..|es| - 1], t);
    }
  }

  predicate Windowed(es: seq<Event>, t: Ticket, windowMs: int) {
    match LastTouched(es, t)
    case None => ChainOf(Run(es, windowMs), t) == [] && History(es, t) == []
    case Some(at) => ChainOf(Run(es, windowMs), t) == Prune(History(es, t), at, windowMs)
  }

  lemma WindowAdvances(prior: seq<Event>, t: Ticket, at: int, windowMs: int)
    requires Monotone(prior) && (prior != [] ==> prior[|prior| - 1].at <= at)
    requires Windowed(prior, t, windowMs)
    ensures Prune(ChainOf(Run(prior, windowMs), t), at, windowMs) == Prune(History(prior, t), at, windowMs)
  {
    if LastTouched(prior, t).Some? {
      TouchedInPast(prior, t);
      PruneTwice(History(prior, t), LastTouched(prior, t).value, at, windowMs);
    }
  }

  lemma StepKeepsWindow(prior: seq<Event>, e: Event, t: Ticket, windowMs: int)
    requires Monotone(prior) && (prior != [] ==> prior[|prior| - 1].at <= e.at) && windowMs >= 0
    requires Windowed(prior, t, windowMs)
    ensures Windowed(prior + [e], t, windowMs)
  {
    var es := prior + [e];
    assert es[..|es| - 1] == prior && es[|es| - 1] == e;
    if e.ticket == t && !e.Clear? {
      WindowAdvances(prior, t, e.at, windowMs);
      if e.Assign? {
        PruneAppend(History(prior, t), Assignment(e.delegate, e.agent, e.at), e.at, windowMs);
      }
    }
  }

  /**
   * With a monotone clock and a window that is not negative, the chain pruned a little at every call is exactly the
   * whole assignment history cut to the window at the latest call.
   */
  lemma {:induction false} ChainIsWindowedHistory(es: seq<Event>, t: Ticket, windowMs: int)
    requires Monotone(es) && windowMs >= 0
    ensures Windowed(es, t, windowMs)
  {
    if es != [] {
      var prior, e := es[..|es| - 1], es[|es| - 1];
      assert forall i :: 0 <= i < |prior| ==> prior[i] == es[i];
      ChainIsWindowedHistory(prior, t, windowMs);
      StepKeepsWindow(prior, e, t, windowMs);
      assert es == prior + [e];
    }
  }

  /** A negative window breaks that already on the first assignment, which is kept although no window contains it. */
  lemma WindowMustNotBeNegative(t: Ticket, d: Delegate, agent: string, at: int, windowMs: int)
    ensures Windowed([Assign(t, d, agent, at)], t, windowMs) <==> windowMs >= 0
  {
    var es := [Assign(t, d, agent, at)];
    assert es[..|es| - 1] == [];
    assert Run(es, windowMs) == Apply(map[], es[0], windowMs);
    assert es[|es| - 1].at == at;
    assert LastTouched(es, t) == Some(at);
    assert History(es, t) == [Assignment(d, agent, at)];
    assert Prune([Assignment(d, agent, at)], at, windowMs) == [] + if at >= at - windowMs then [Assignment(d, agent, at)] else [];
  }

  /** Over all runs under a monotone clock the chain is the windowed history exactly when the window is not negative. */
  lemma ChainIsWindowedHistoryExactly(windowMs: int)
    ensures (forall es: seq<Event>, t: Ticket :: Monotone(es) ==> Windowed(es, t, windowMs)) <==> windowMs >= 0
  {
    hide Windowed;
    if windowMs >= 0 {
      forall es: seq<Event>, t: Ticket | Monotone(es)
        ensures Windowed(es, t, windowMs)
      {
        ChainIsWindowedHistory(es, t, windowMs);
      }
    } else {
      WindowMustNotBeNegative("T", "d", "a", 0, windowMs);
      assert Monotone([Assign("T", "d", "a", 0)]);
    }
  }

  /** What a detection right after any run reports, in terms of the unpruned history. */
  lemma DetectionSeesWindowedHistory(es: seq<Event>, t: Ticket, now: int, windowMs: int)
    requires Monotone(es + [Detect(t, now)]) && windowMs >= 0
    ensures ChainOf(Run(es + [Detect(t, now)], windowMs), t) == Prune(History(es, t), now, windowMs)
  {
    var all := es + [Detect(t, now)];
    assert all[..|all| - 1] == es;
    ChainIsWindowedHistory(all, t, windowMs);
  }

  // ---- What a bounce count means ----

  lemma {:induction false} RunsNeedLength(chain: seq<Assignment>, d: Delegate)
    ensures 2 * RunsOf(chain, d) <= |chain| + if chain != [] && chain[|chain| - 1].delegate == d then 1 else 0
  {
    if chain != [] {
      RunsNeedLength(chain[..|chain| - 1], d);
    }
  }

  /** A cycle needs at least 2*maxBounces - 1 assignments inside the window. */
  lemma CycleNeedsAssignments(r: Detection, chain: seq<Assignment>, maxBounces: int)
    requires Describes(r, chain, maxBounces) && r.hasCycle
    ensures |chain| >= 2 * maxBounces - 1
  {
    var d :| Holds(chain, d) && RunsOf(chain, d) >= maxBounces;
    RunsNeedLength(chain, d);
  }

  /** Repeating an assignment right after itself changes no bounce count. */
  lemma {:induction false} AdjacentDuplicateIsInvisible(before: seq<Assignment>, a: Assignment, b: Assignment, after: seq<Assignment>, d: Delegate)
    requires a.delegate == b.delegate
    ensures RunsOf(before + [a, b] + after, d) == RunsOf(before + [a] + after, d)
  {
    var long, short := before + [a, b] + after, before + [a] + after;
    if after == [] {
      assert long[..|long| - 1] == before + [a] == short;
    } else {
      AdjacentDuplicateIsInvisible(before, a, b, after[..|after| - 1], d);
      assert long[..|long| - 1] == before + [a, b] + after[..|after| - 1];
      assert short[..|short| - 1] == before + [a] + after[..|after| - 1];
    }
  }

  /** x, y, x, y, ...: the oscillation the detector exists for, n hand-offs back and forth. */
  function Alternation(x: Assignment, y: Assignment, n: nat): seq<Assignment> {
    if n == 0 then [] else Alternation(x, y, n - 1) + [x, y]
  }

  lemma AppendRuns(chain: seq<Assignment>, a: Assignment, d: Delegate)
    ensures RunsOf(chain + [a], d) == RunsOf(chain, d)
            + if a.delegate == d && (chain == [] || chain[|chain| - 1].delegate != d) then 1 else 0
  {
    assert (chain + [a])[..|chain + [a]| - 1] == chain;
  }

  lemma AppendPair(chain: seq<Assignment>, x: Assignment, y: Assignment)
    requires x.delegate != y.delegate && (chain != [] ==> chain[|chain| - 1] == y)
    ensures RunsOf(chain + [x, y], x.delegate) == RunsOf(chain, x.delegate) + 1
    ensures RunsOf(chain + [x, y], y.delegate) == RunsOf(chain, y.delegate) + 1
  {
    assert chain + [x, y] == chain + [x] + [y];
    AppendRuns(chain, x, x.delegate);
    AppendRuns(chain, x, y.delegate);
    AppendRuns(chain + [x], y, x.delegate);
    AppendRuns(chain + [x], y, y.delegate);
  }

  lemma {:induction false} AlternationShape(x: Assignment, y: Assignment, n: nat)
    ensures |Alternation(x, y, n)| == 2 * n && (n > 0 ==> Alternation(x, y, n)[2 * n - 1] == y)
  {
    if n > 0 {
      AlternationShape(x, y, n - 1);
    }
  }

  lemma {:induction false} AlternationRuns(x: Assignment, y: Assignment, n: nat)
    requires x.delegate != y.delegate
    ensures RunsOf(Alternation(x, y, n), x.delegate) == n && RunsOf(Alternation(x, y, n), y.delegate) == n
  {
    if n > 0 {
      AlternationRuns(x, y, n - 1);
      AlternationShape(x, y, n - 1);
      AppendPair(Alternation(x, y, n - 1), x, y);
    }
  }

  /** The length bound is reached: the alternation x, y, ..., x of 2*n - 1 assignments has n runs of x. */
  lemma ShortestCycle(x: Assignment, y: Assignment, n: nat)
    requires x.delegate != y.delegate && n > 0
    ensures var chain := Alternation(x, y, n - 1) + [x];
            |chain| == 2 * n - 1 && RunsOf(chain, x.delegate) == n
  {
    AlternationRuns(x, y, n - 1);
    AlternationShape(x, y, n - 1);
    AppendRuns(Alternation(x, y, n - 1), x, x.delegate);
  }
}
