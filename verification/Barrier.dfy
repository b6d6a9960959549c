/** src/barrier.ts: the barrier evaluation shared by automatic and manual exits. */
module Barrier {
  import opened Prelude
  import opened Labels
  import opened FanoutOutcomeStore

  const TERMINAL_WORKFLOW_STATES := {"done", "escape"}
  const OWNED_INFRA_SCOPE := "owned-infra"
  const OWNED_INFRA_LABEL := "dept-output:owned-infra"

  /** A child issue as Linear reports it. */
  datatype RawChild = RawChild(id: string, native: Option<NativeState>, labels: seq<string>)

  datatype ChildState = ChildState(id: string, labels: seq<string>, isTerminal: bool, workflowState: Option<string>, isOrphaned: bool)

  datatype BarrierResult = BarrierResult(
    allTerminal: bool,
    totalChildren: nat,
    terminalCount: nat,
    orphanedCount: nat,
    children: seq<ChildState>,
    readFailed: bool)

  predicate IsChildTerminal(labels: seq<string>) {
    CurrentState(labels).Some? && CurrentState(labels).value in TERMINAL_WORKFLOW_STATES
  }

  function ReadChild(c: RawChild): ChildState {
    var state := CurrentState(c.labels);
    ChildState(c.id, c.labels, IsTerminalIssueState(c.native) || IsChildTerminal(c.labels), state, state.None? && c.labels != [])
  }

  function ReadChildren(cs: seq<RawChild>): (r: seq<ChildState>)
    ensures |r| == |cs| && forall i :: 0 <= i < |cs| ==> r[i] == ReadChild(cs[i])
  {
    seq(|cs|, i requires 0 <= i < |cs| => ReadChild(cs[i]))
  }

  /** An expected set counts only when it is not empty. */
  predicate Listed(expected: Option<seq<string>>) {
    expected.Some? && expected.value != []
  }

  predicate ChildIsInBarrierScope(labels: seq<string>, scope: Option<string>) {
    Truthy(scope) && scope.value == OWNED_INFRA_SCOPE ==> OWNED_INFRA_LABEL in labels
  }

  predicate Relevant(id: string, labels: seq<string>, expected: Option<seq<string>>, scope: Option<string>) {
    (Listed(expected) ==> id in expected.value) && ChildIsInBarrierScope(labels, scope)
  }

  predicate Scoped(expected: Option<seq<string>>, scope: Option<string>) {
    Listed(expected) || Truthy(scope)
  }

  function KeepRelevant(cs: seq<ChildState>, expected: Option<seq<string>>, scope: Option<string>): seq<ChildState> {
    if cs == [] then []
    else (if Relevant(cs[0].id, cs[0].labels, expected, scope) then [cs[0]] else []) + KeepRelevant(cs[1..], expected, scope)
  }

  function TerminalCount(cs: seq<ChildState>): nat {
    if cs == [] then 0 else (if cs[0].isTerminal then 1 else 0) + TerminalCount(cs[1..])
  }

  function OrphanedCount(cs: seq<ChildState>): nat {
    if cs == [] then 0 else (if cs[0].isOrphaned then 1 else 0) + OrphanedCount(cs[1..])
  }

  function Tally(cs: seq<ChildState>): BarrierResult {
    var terminal, orphaned := TerminalCount(cs), OrphanedCount(cs);
    BarrierResult(orphaned == 0 && terminal == |cs|, |cs|, terminal, orphaned, cs, false)
  }

  /** `read` is `None` when the child set could not be read. */
  function EvaluateBarrier(read: Option<seq<RawChild>>, expected: Option<seq<string>>, scope: Option<string>): BarrierResult {
    if read.Some? && Scoped(expected, scope) then
      var filtered := KeepRelevant(ReadChildren(read.value), expected, scope);
      if filtered == [] then BarrierResult(false, 0, 0, 0, [], false) else Tally(filtered)
    else if read.None? then BarrierResult(false, 0, 0, 0, [], true)
    else if read.value == [] then BarrierResult(true, 0, 0, 0, [], false)
    else Tally(ReadChildren(read.value))
  }

  // ---- What the verdict means ----

  predicate Settled(c: RawChild) {
    ReadChild(c).isTerminal && !ReadChild(c).isOrphaned
  }

  predicate RelevantChild(c: RawChild, expected: Option<seq<string>>, scope: Option<string>) {
    Relevant(c.id, c.labels, expected, scope)
  }

  predicate AllSettled(cs: seq<RawChild>, expected: Option<seq<string>>, scope: Option<string>) {
    forall i :: 0 <= i < |cs| && RelevantChild(cs[i], expected, scope) ==> Settled(cs[i])
  }

  predicate SomeRelevant(cs: seq<RawChild>, expected: Option<seq<string>>, scope: Option<string>) {
    exists i :: 0 <= i < |cs| && RelevantChild(cs[i], expected, scope)
  }

  lemma {:induction false} CountsExactly(cs: seq<ChildState>)
    ensures TerminalCount(cs) <= |cs| && OrphanedCount(cs) <= |cs|
    ensures TerminalCount(cs) == |cs| <==> forall i :: 0 <= i < |cs| ==> cs[i].isTerminal
    ensures OrphanedCount(cs) == 0 <==> forall i :: 0 <= i < |cs| ==> !cs[i].isOrphaned
  {
    if cs != [] {
      CountsExactly(cs[1..]);
      assert forall i :: 1 <= i < |cs| ==> cs[i] == cs[1..][i - 1];
    }
  }

  lemma {:induction false} KeepsExactlyRelevant(cs: seq<ChildState>, expected: Option<seq<string>>, scope: Option<string>, c: ChildState)
    ensures c in KeepRelevant(cs, expected, scope) <==> c in cs && Relevant(c.id, c.labels, expected, scope)
  {
    if cs != [] {
      KeepsExactlyRelevant(cs[1..], expected, scope, c);
      assert cs == [cs[0]] + cs[1..];
    }
  }

  lemma TallyExactly(cs: seq<ChildState>)
    ensures Tally(cs).allTerminal <==> forall c :: c in cs ==> c.isTerminal && !c.isOrphaned
  {
    CountsExactly(cs);
    assert forall i :: 0 <= i < |cs| ==> cs[i] in cs;
  }

  /** Keeping the relevant states is keeping the states of the relevant children. */
  lemma KeptChildren(cs: seq<RawChild>, expected: Option<seq<string>>, scope: Option<string>, c: ChildState)
    ensures c in KeepRelevant(ReadChildren(cs), expected, scope) <==>
              exists i :: 0 <= i < |cs| && RelevantChild(cs[i], expected, scope) && ReadChild(cs[i]) == c
  {
    hide Relevant, CurrentState;
    var all := ReadChildren(cs);
    KeepsExactlyRelevant(all, expected, scope, c);
    if i :| 0 <= i < |cs| && RelevantChild(cs[i], expected, scope) && ReadChild(cs[i]) == c {
      assert all[i] in all;
    }
    if c in KeepRelevant(all, expected, scope) {
      var i :| 0 <= i < |all| && all[i] == c;
      assert RelevantChild(cs[i], expected, scope);
    }
  }

  lemma KeptIsEmpty(cs: seq<RawChild>, expected: Option<seq<string>>, scope: Option<string>)
    ensures KeepRelevant(ReadChildren(cs), expected, scope) == [] <==> !SomeRelevant(cs, expected, scope)
  {
    hide RelevantChild, ReadChild;
    var kept := KeepRelevant(ReadChildren(cs), expected, scope);
    if kept != [] {
      KeptChildren(cs, expected, scope, kept[0]);
    }
    if i :| 0 <= i < |cs| && RelevantChild(cs[i], expected, scope) {
      KeptChildren(cs, expected, scope, ReadChild(cs[i]));
    }
  }

  lemma KeptIsSettled(cs: seq<RawChild>, expected: Option<seq<string>>, scope: Option<string>)
    ensures Tally(KeepRelevant(ReadChildren(cs), expected, scope)).allTerminal <==> AllSettled(cs, expected, scope)
  {
    hide RelevantChild, ReadChild, KeepRelevant, ReadChildren, Tally;
    var kept := KeepRelevant(ReadChildren(cs), expected, scope);
    TallyExactly(kept);
    forall c
      ensures c in kept <==> exists i :: 0 <= i < |cs| && RelevantChild(cs[i], expected, scope) && ReadChild(cs[i]) == c
    {
      KeptChildren(cs, expected, scope, c);
    }
    assert forall i :: 0 <= i < |cs| && RelevantChild(cs[i], expected, scope) ==> ReadChild(cs[i]) in kept;
  }

  lemma {:induction false} UnscopedKeepsAll(cs: seq<ChildState>, expected: Option<seq<string>>, scope: Option<string>)
    requires !Scoped(expected, scope)
    ensures KeepRelevant(cs, expected, scope) == cs
  {
    if cs != [] {
      UnscopedKeepsAll(cs[1..], expected, scope);
    }
  }

  /**
   * The barrier is satisfied exactly when the children were read, every child in scope is terminal and none of them is
   * orphaned, and, if the check is scoped at all, some child is in scope.
   */
  lemma AllTerminalExactly(read: Option<seq<RawChild>>, expected: Option<seq<string>>, scope: Option<string>)
    ensures EvaluateBarrier(read, expected, scope).allTerminal <==>
              read.Some? && AllSettled(read.value, expected, scope)
              && (Scoped(expected, scope) ==> SomeRelevant(read.value, expected, scope))
    ensures EvaluateBarrier(read, expected, scope).readFailed <==> read.None?
    ensures EvaluateBarrier(read, expected, scope).totalChildren == 0 <==> read.None? || !SomeRelevant(read.value, expected, scope)
  {
    hide RelevantChild, ReadChild, KeepRelevant, SomeRelevant, AllSettled;
    if read.Some? {
      var cs, all := read.value, ReadChildren(read.value);
      KeptIsEmpty(cs, expected, scope);
      KeptIsSettled(cs, expected, scope);
      if !Scoped(expected, scope) {
        UnscopedKeepsAll(all, expected, scope);
      }
    }
  }

  lemma {:induction false} KeepDistributes(a: seq<ChildState>, b: seq<ChildState>, expected: Option<seq<string>>, scope: Option<string>)
    ensures KeepRelevant(a + b, expected, scope) == KeepRelevant(a, expected, scope) + KeepRelevant(b, expected, scope)
  {
    hide Relevant;
    if a == [] {
      assert a + b == b;
    } else {
      assert (a + b)[1..] == a[1..] + b && (a + b)[0] == a[0];
      KeepDistributes(a[1..], b, expected, scope);
    }
  }

  lemma ReadDistributes(a: seq<RawChild>, b: seq<RawChild>)
    ensures ReadChildren(a + b) == ReadChildren(a) + ReadChildren(b)
  {
    hide ReadChild;
  }

  lemma KeptWithout(before: seq<RawChild>, c: RawChild, after: seq<RawChild>, expected: Option<seq<string>>, scope: Option<string>)
    requires !RelevantChild(c, expected, scope)
    ensures KeepRelevant(ReadChildren(before + [c] + after), expected, scope) == KeepRelevant(ReadChildren(before + after), expected, scope)
  {
    hide ReadChildren, KeepRelevant;
    var a, m, b := ReadChildren(before), ReadChildren([c]), ReadChildren(after);
    ReadDistributes(before + [c], after);
    ReadDistributes(before, [c]);
    ReadDistributes(before, after);
    KeepDistributes(a + m, b, expected, scope);
    KeepDistributes(a, m, expected, scope);
    KeepDistributes(a, b, expected, scope);
    KeptAlone(c, expected, scope);
  }

  lemma KeptAlone(c: RawChild, expected: Option<seq<string>>, scope: Option<string>)
    requires !RelevantChild(c, expected, scope)
    ensures KeepRelevant(ReadChildren([c]), expected, scope) == []
  {
    assert ReadChildren([c]) == [ReadChild(c)] && ReadChildren([c])[1..] == [];
  }

  /** Under a scoped check a sibling out of scope can come, go or change without touching any part of the verdict. */
  lemma OutOfScopeSiblingIsInvisible(before: seq<RawChild>, c: RawChild, after: seq<RawChild>, expected: Option<seq<string>>, scope: Option<string>)
    requires Scoped(expected, scope) && !RelevantChild(c, expected, scope)
    ensures EvaluateBarrier(Some(before + [c] + after), expected, scope) == EvaluateBarrier(Some(before + after), expected, scope)
  {
    hide RelevantChild, Tally, ReadChildren, KeepRelevant;
    KeptWithout(before, c, after, expected, scope);
  }

  lemma OutOfScopeSiblingMayChange(before: seq<RawChild>, c: RawChild, d: RawChild, after: seq<RawChild>, expected: Option<seq<string>>, scope: Option<string>)
    requires Scoped(expected, scope) && !RelevantChild(c, expected, scope) && !RelevantChild(d, expected, scope)
    ensures EvaluateBarrier(Some(before + [c] + after), expected, scope) == EvaluateBarrier(Some(before + [d] + after), expected, scope)
  {
    hide EvaluateBarrier, RelevantChild;
    OutOfScopeSiblingIsInvisible(before, c, after, expected, scope);
    OutOfScopeSiblingIsInvisible(before, d, after, expected, scope);
  }

  /** A scoped check with nothing in scope is never satisfied, while an unscoped one is satisfied by no children at all. */
  lemma NothingInScope(cs: seq<RawChild>, expected: Option<seq<string>>, scope: Option<string>)
    requires !SomeRelevant(cs, expected, scope)
    ensures EvaluateBarrier(Some(cs), expected, scope).allTerminal <==> !Scoped(expected, scope)
    ensures !Scoped(expected, scope) ==> cs == []
  {
    AllTerminalExactly(Some(cs), expected, scope);
  }

  /** A child finished in Linear but stripped of its `state:*` label is an orphan, and it holds every check it is in. */
  lemma FinishedChildWithoutStateLabelHolds(cs: seq<RawChild>, i: nat, expected: Option<seq<string>>, scope: Option<string>)
    requires i < |cs| && RelevantChild(cs[i], expected, scope)
    requires IsTerminalIssueState(cs[i].native) && cs[i].labels != [] && CurrentState(cs[i].labels).None?
    ensures ReadChild(cs[i]).isTerminal
    ensures !EvaluateBarrier(Some(cs), expected, scope).allTerminal
  {
    AllTerminalExactly(Some(cs), expected, scope);
  }

  predicate EveryExpectedPresent(cs: seq<RawChild>, expected: seq<string>) {
    forall e :: e in expected ==> exists i :: 0 <= i < |cs| && cs[i].id == e
  }

  /**
   * Waiting for a recorded set is meant to wait for each of its members. A satisfied check shows that only when every
   * member is still linked under the parent.
   */
  lemma ExpectedSetIsDoneExactlyWhenPresent(cs: seq<RawChild>, expected: seq<string>)
    requires expected != []
    ensures EvaluateBarrier(Some(cs), Some(expected), None).allTerminal && EveryExpectedPresent(cs, expected)
            <==> forall e :: e in expected ==>
                   (exists i :: 0 <= i < |cs| && cs[i].id == e) && (forall i :: 0 <= i < |cs| && cs[i].id == e ==> Settled(cs[i]))
  {
    AllTerminalExactly(Some(cs), Some(expected), None);
    assert forall i :: 0 <= i < |cs| ==> (RelevantChild(cs[i], Some(expected), None) <==> cs[i].id in expected);
    if EveryExpectedPresent(cs, expected) {
      assert expected[0] in expected;
      var i :| 0 <= i < |cs| && cs[i].id == expected[0];
      assert RelevantChild(cs[i], Some(expected), None);
    }
  }

  /** Of two expected children one is gone: the other one alone satisfies the check. */
  lemma MissingExpectedChildIsNotNoticed()
    ensures var left := RawChild("A-1", None, ["state:done"]);
            && EvaluateBarrier(Some([left]), Some(["A-1", "A-2"]), None).allTerminal
            && !EveryExpectedPresent([left], ["A-1", "A-2"])
  {
    var left := RawChild("A-1", None, ["state:done"]);
    var cs, expected := [left], ["A-1", "A-2"];
    DoneLabel();
    AllTerminalExactly(Some(cs), Some(expected), None);
    assert RelevantChild(cs[0], Some(expected), None);
    assert "A-2" in expected;
  }

  lemma DoneLabel()
    ensures CurrentState(["state:done"]) == Some("done")
  {
    assert "state:done"[..6] == "state:" && "state:done"[6..] == "done";
    assert Text.Lower("state:") == "state:" && Text.Lower("done") == "done";
  }

  // ---- The recorded outcome, and the manual continue ----

  /** The children a check waits for, by the recorded outcome. */
  function FilterOf(o: Option<FanoutOutcome>): Option<seq<string>> {
    if o.Some? && o.value.outcome.Awaiting? && Listed(o.value.childIdentifiers) then o.value.childIdentifiers else None
  }

  /** Outcomes that hold the barrier whatever the children say. */
  predicate Holds(o: Option<FanoutOutcome>) {
    o.Some? && o.value.outcome in {Refused, Failed, PendingApproval}
  }

  datatype BlockReason = HeldByOutcome(outcome: OutcomeType) | Unreadable | NoChildren | Orphans(ids: seq<string>) | Pending(ids: seq<string>)

  function OrphanIds(cs: seq<ChildState>): seq<string> {
    if cs == [] then [] else (if cs[0].isOrphaned then [cs[0].id] else []) + OrphanIds(cs[1..])
  }

  function PendingIds(cs: seq<ChildState>): seq<string> {
    if cs == [] then [] else (if cs[0].isTerminal then [] else [cs[0].id]) + PendingIds(cs[1..])
  }

  /** Why a manual `continue` out of a barrier state is refused, if it is. A barrier scope plays no part in it. */
  function ManualBarrierContinueBlockReason(o: Option<FanoutOutcome>, read: Option<seq<RawChild>>): Option<BlockReason> {
    if Holds(o) then Some(HeldByOutcome(o.value.outcome))
    else
      var barrier := EvaluateBarrier(read, FilterOf(o), None);
      if barrier.readFailed then Some(Unreadable)
      else if barrier.totalChildren == 0 then Some(NoChildren)
      else if barrier.orphanedCount > 0 then Some(Orphans(OrphanIds(barrier.children)))
      else if !barrier.allTerminal then Some(Pending(PendingIds(barrier.children)))
      else None
  }

  /** A manual continue passes exactly on a readable, non-empty, settled child set under an outcome that does not hold. */
  lemma ManualContinueExactly(o: Option<FanoutOutcome>, read: Option<seq<RawChild>>)
    ensures ManualBarrierContinueBlockReason(o, read).None? <==>
              !Holds(o) && read.Some? && SomeRelevant(read.value, FilterOf(o), None) && AllSettled(read.value, FilterOf(o), None)
  {
    AllTerminalExactly(read, FilterOf(o), None);
  }

  lemma {:induction false} NamedIdsExactly(cs: seq<ChildState>, id: string)
    ensures id in OrphanIds(cs) <==> exists c :: c in cs && c.id == id && c.isOrphaned
    ensures id in PendingIds(cs) <==> exists c :: c in cs && c.id == id && !c.isTerminal
    ensures OrphanIds(cs) == [] <==> OrphanedCount(cs) == 0
    ensures PendingIds(cs) == [] <==> TerminalCount(cs) == |cs|
  {
    if cs != [] {
      NamedIdsExactly(cs[1..], id);
      CountsExactly(cs[1..]);
      assert cs == [cs[0]] + cs[1..];
    }
  }

  predicate RelevantOrphan(cs: seq<RawChild>, filter: Option<seq<string>>, id: string) {
    exists i :: 0 <= i < |cs| && RelevantChild(cs[i], filter, None) && cs[i].id == id && ReadChild(cs[i]).isOrphaned
  }

  predicate RelevantPending(cs: seq<RawChild>, filter: Option<seq<string>>, id: string) {
    exists i :: 0 <= i < |cs| && RelevantChild(cs[i], filter, None) && cs[i].id == id && !ReadChild(cs[i]).isTerminal
  }

  lemma KeptNames(cs: seq<RawChild>, filter: Option<seq<string>>, id: string)
    ensures var kept := KeepRelevant(ReadChildren(cs), filter, None);
            && (id in OrphanIds(kept) <==> RelevantOrphan(cs, filter, id))
            && (id in PendingIds(kept) <==> RelevantPending(cs, filter, id))
  {
    hide RelevantChild, KeepRelevant, CurrentState, IsChildTerminal, IsTerminalIssueState;
    var kept := KeepRelevant(ReadChildren(cs), filter, None);
    NamedIdsExactly(kept, id);
    if c :| c in kept && c.id == id && c.isOrphaned {
      KeptChildren(cs, filter, None, c);
    }
    if c :| c in kept && c.id == id && !c.isTerminal {
      KeptChildren(cs, filter, None, c);
    }
    forall i | 0 <= i < |cs| && RelevantChild(cs[i], filter, None)
      ensures ReadChild(cs[i]) in kept
    {
      KeptChildren(cs, filter, None, ReadChild(cs[i]));
    }
  }

  /** The refusal names its cause: orphans before pending children, and exactly the children that are one or the other. */
  lemma RefusalNamesTheCulprits(o: Option<FanoutOutcome>, cs: seq<RawChild>)
    requires !Holds(o) && SomeRelevant(cs, FilterOf(o), None)
    ensures match ManualBarrierContinueBlockReason(o, Some(cs))
            case Some(Orphans(ids)) => ids != [] && forall id :: id in ids <==> RelevantOrphan(cs, FilterOf(o), id)
            case Some(Pending(ids)) =>
              && ids != [] && (forall id :: id in ids <==> RelevantPending(cs, FilterOf(o), id))
              && (forall id :: !RelevantOrphan(cs, FilterOf(o), id))
            case r => r.None?
  {
    hide RelevantChild, KeepRelevant, ReadChildren, SomeRelevant, RelevantOrphan, RelevantPending;
    var filter, all := FilterOf(o), ReadChildren(cs);
    var kept := KeepRelevant(all, filter, None);
    AllTerminalExactly(Some(cs), filter, None);
    if !Scoped(filter, None) {
      UnscopedKeepsAll(all, filter, None);
    }
    NamedIdsExactly(kept, "");
    CountsExactly(kept);
    forall id
      ensures id in OrphanIds(kept) <==> RelevantOrphan(cs, filter, id)
      ensures id in PendingIds(kept) <==> RelevantPending(cs, filter, id)
    {
      KeptNames(cs, filter, id);
    }
  }

  /**
   * On the same read, an allowed manual continue means the automatic barrier is satisfied too, and not by emptiness,
   * except under the owned-infra scope: there it is satisfied exactly when some awaited child carries the label.
   */
  lemma ManualImpliesAutomatic(o: Option<FanoutOutcome>, read: Option<seq<RawChild>>, scope: Option<string>)
    requires ManualBarrierContinueBlockReason(o, read).None?
    ensures EvaluateBarrier(read, FilterOf(o), scope).allTerminal <==> SomeRelevant(read.value, FilterOf(o), scope)
    ensures scope != Some(OWNED_INFRA_SCOPE) ==>
              EvaluateBarrier(read, FilterOf(o), scope).allTerminal && EvaluateBarrier(read, FilterOf(o), scope).totalChildren > 0
  {
    ManualContinueExactly(o, read);
    AllTerminalExactly(read, FilterOf(o), scope);
    var cs, filter := read.value, FilterOf(o);
    assert forall i :: 0 <= i < |cs| && RelevantChild(cs[i], filter, scope) ==> RelevantChild(cs[i], filter, None);
    var w :| 0 <= w < |cs| && RelevantChild(cs[w], filter, None);
    if scope != Some(OWNED_INFRA_SCOPE) {
      assert RelevantChild(cs[w], filter, scope);
    }
  }

  /** Under the owned-infra scope the two disagree: a settled child without the label lets a person through, not the engine. */
  lemma ScopedBarrierHoldsWhereManualPasses()
    ensures var read := Some([RawChild("A-1", None, ["state:done"])]);
            && ManualBarrierContinueBlockReason(None, read).None?
            && !EvaluateBarrier(read, FilterOf(None), Some(OWNED_INFRA_SCOPE)).allTerminal
  {
    var cs := [RawChild("A-1", None, ["state:done"])];
    DoneLabel();
    assert RelevantChild(cs[0], None, None);
    ManualContinueExactly(None, Some(cs));
    AllTerminalExactly(Some(cs), None, Some(OWNED_INFRA_SCOPE));
    assert OWNED_INFRA_LABEL !in cs[0].labels;
  }
}
