/** src/fanout.ts: partitioning a spec against the children that exist, and minting the rest. */
module Fanout {
  import opened Prelude
  import opened Text
  import opened SpecRoundTrip
  import opened ReadBack

  function NormalizedState(state: string): string {
    var s := Lower(Trim(state));
    if StartsWith(s, "state:") then s[6..] else s
  }

  predicate IsEscaped(c: ExistingChild) {
    c.state.Some? && NormalizedState(c.state.value) == "escape"
  }

  function EffectiveWorkflow(f: Finding, childWorkflow: string): string {
    f.childWorkflow.GetOr(childWorkflow)
  }

  // ---- The dedup partition ----

  predicate IsScopedMatch(c: ExistingChild, id: string, workflow: string) {
    c.specEntryId == id && !IsEscaped(c) && c.childWorkflow == Some(workflow)
  }

  predicate IsLegacyMatch(c: ExistingChild, id: string) {
    c.specEntryId == id && !IsEscaped(c) && c.childWorkflow == None
  }

  function FirstScoped(cs: seq<ExistingChild>, id: string, workflow: string): (r: Option<ExistingChild>)
    ensures r.None? <==> forall c :: c in cs ==> !IsScopedMatch(c, id, workflow)
  {
    if cs == [] then None else if IsScopedMatch(cs[0], id, workflow) then Some(cs[0]) else FirstScoped(cs[1..], id, workflow)
  }

  function FirstLegacy(cs: seq<ExistingChild>, id: string): (r: Option<ExistingChild>)
    ensures r.None? <==> forall c :: c in cs ==> !IsLegacyMatch(c, id)
    ensures r.Some? ==> r.value in cs && IsLegacyMatch(r.value, id)
  {
    if cs == [] then None else if IsLegacyMatch(cs[0], id) then Some(cs[0]) else FirstLegacy(cs[1..], id)
  }

  /** A live child of the entry's own workflow, or one whose workflow is unknown, keeps an entry from being minted. */
  predicate Suppressed(cs: seq<ExistingChild>, id: string, workflow: string) {
    exists c :: c in cs && (IsScopedMatch(c, id, workflow) || IsLegacyMatch(c, id))
  }

  function ToSpawn(fs: seq<Finding>, cs: seq<ExistingChild>, childWorkflow: string): seq<Finding> {
    if fs == [] then []
    else
      var f := fs[|fs| - 1];
      ToSpawn(fs[..|fs| - 1], cs, childWorkflow) + (if Suppressed(cs, f.id, EffectiveWorkflow(f, childWorkflow)) then [] else [f])
  }

  function LegacyMatches(fs: seq<Finding>, cs: seq<ExistingChild>, childWorkflow: string): seq<ExistingChild> {
    if fs == [] then []
    else
      var f := fs[|fs| - 1];
      var scoped, legacy := FirstScoped(cs, f.id, EffectiveWorkflow(f, childWorkflow)), FirstLegacy(cs, f.id);
      LegacyMatches(fs[..|fs| - 1], cs, childWorkflow) + (if scoped.None? && legacy.Some? then [legacy.value] else [])
  }

  predicate IsUnmatched(c: ExistingChild, fs: seq<Finding>, childWorkflow: string) {
    (forall f :: f in fs ==> f.id != c.specEntryId) && (c.childWorkflow == None || c.childWorkflow == Some(childWorkflow))
  }

  function Unmatched(cs: seq<ExistingChild>, fs: seq<Finding>, childWorkflow: string): seq<ExistingChild> {
    if cs == [] then []
    else
      Unmatched(cs[..|cs| - 1], fs, childWorkflow) + (if IsUnmatched(cs[|cs| - 1], fs, childWorkflow) then [cs[|cs| - 1]] else [])
  }

  function Ids(fs: seq<Finding>): set<string> {
    set f | f in fs :: f.id
  }

  method DedupeSpawnSpec(fs: seq<Finding>, cs: seq<ExistingChild>, childWorkflow: string)
    returns (toSpawn: seq<Finding>, unmatched: seq<ExistingChild>, legacy: seq<ExistingChild>)
    ensures toSpawn == ToSpawn(fs, cs, childWorkflow)
    ensures unmatched == Unmatched(cs, fs, childWorkflow)
    ensures legacy == LegacyMatches(fs, cs, childWorkflow)
  {
    hide IsEscaped;
    toSpawn, unmatched, legacy := [], [], [];
    for i := 0 to |fs|
      invariant toSpawn == ToSpawn(fs[..i], cs, childWorkflow)
      invariant legacy == LegacyMatches(fs[..i], cs, childWorkflow)
    {
      var f := fs[i];
      assert fs[..i + 1][..i] == fs[..i];
      var scopedMatch := FirstScoped(cs, f.id, EffectiveWorkflow(f, childWorkflow));
      if scopedMatch.Some? { continue; }
      var legacyMatch := FirstLegacy(cs, f.id);
      if legacyMatch.Some? {
        legacy := legacy + [legacyMatch.value];
        continue;
      }
      toSpawn := toSpawn + [f];
    }
    assert fs[..|fs|] == fs;
    var specIds := Ids(fs);
    for i := 0 to |cs|
      invariant unmatched == Unmatched(cs[..i], fs, childWorkflow)
    {
      var c := cs[i];
      assert cs[..i + 1][..i] == cs[..i];
      if c.specEntryId !in specIds && (c.childWorkflow == None || c.childWorkflow == Some(childWorkflow)) {
        unmatched := unmatched + [c];
      }
    }
    assert cs[..|cs|] == cs;
  }

  lemma {:induction false} ToSpawnExactly(fs: seq<Finding>, cs: seq<ExistingChild>, childWorkflow: string, f: Finding)
    ensures f in ToSpawn(fs, cs, childWorkflow) <==> f in fs && !Suppressed(cs, f.id, EffectiveWorkflow(f, childWorkflow))
  {
    hide Suppressed;
    if fs != [] {
      ToSpawnExactly(fs[..|fs| - 1], cs, childWorkflow, f);
      assert fs == fs[..|fs| - 1] + [fs[|fs| - 1]];
    }
  }

  lemma {:induction false} UnmatchedExactly(cs: seq<ExistingChild>, fs: seq<Finding>, childWorkflow: string, c: ExistingChild)
    ensures c in Unmatched(cs, fs, childWorkflow) <==> c in cs && IsUnmatched(c, fs, childWorkflow)
  {
    hide IsUnmatched;
    if cs != [] {
      UnmatchedExactly(cs[..|cs| - 1], fs, childWorkflow, c);
      assert cs == cs[..|cs| - 1] + [cs[|cs| - 1]];
    }
  }

  /** Each entry is minted, or held back by a live child of its own workflow, or held back by a reported id-only match. */
  lemma {:induction false} NoSilentSuppression(fs: seq<Finding>, cs: seq<ExistingChild>, childWorkflow: string, f: Finding)
    requires f in fs && f !in ToSpawn(fs, cs, childWorkflow)
    ensures (exists c :: c in cs && IsScopedMatch(c, f.id, EffectiveWorkflow(f, childWorkflow)))
            || (exists c :: c in LegacyMatches(fs, cs, childWorkflow) && IsLegacyMatch(c, f.id))
  {
    ToSpawnExactly(fs, cs, childWorkflow, f);
    if FirstScoped(cs, f.id, EffectiveWorkflow(f, childWorkflow)).None? {
      LegacyIsReported(fs, cs, childWorkflow, f);
    }
  }

  lemma {:induction false} LegacyIsReported(fs: seq<Finding>, cs: seq<ExistingChild>, childWorkflow: string, f: Finding)
    requires f in fs && FirstScoped(cs, f.id, EffectiveWorkflow(f, childWorkflow)).None? && FirstLegacy(cs, f.id).Some?
    ensures FirstLegacy(cs, f.id).value in LegacyMatches(fs, cs, childWorkflow)
  {
    hide IsLegacyMatch, IsScopedMatch;
    var last := fs[|fs| - 1];
    if f != last {
      assert fs == fs[..|fs| - 1] + [last];
      LegacyIsReported(fs[..|fs| - 1], cs, childWorkflow, f);
    }
  }

  /** A child of another workflow is never an orphan of this fan-out, and an escaped child never holds a slot. */
  lemma OtherFanoutsAreLeftAlone(fs: seq<Finding>, cs: seq<ExistingChild>, childWorkflow: string, c: ExistingChild)
    requires c in cs
    ensures c.childWorkflow.Some? && c.childWorkflow.value != childWorkflow ==> c !in Unmatched(cs, fs, childWorkflow)
    ensures forall f :: f in fs && IsEscaped(c) ==> (Suppressed(cs, f.id, EffectiveWorkflow(f, childWorkflow)) <==>
              exists d :: d in cs && d != c && (IsScopedMatch(d, f.id, EffectiveWorkflow(f, childWorkflow)) || IsLegacyMatch(d, f.id)))
  {
    hide NormalizedState;
    UnmatchedExactly(cs, fs, childWorkflow, c);
  }

  /** Re-entry reads the native state's name: a child labelled `state:escape` in a native "Invalid" state still counts as live. */
  lemma EscapeIsReadFromTheNativeState(derive: Derive, n: Node)
    requires ReadNode(derive, n).Some?
    ensures IsEscaped(ReadNode(derive, n).value) <==> n.stateName.Some? && NormalizedState(n.stateName.value) == "escape"
    ensures n.stateName == Some("Invalid") ==> !IsEscaped(ReadNode(derive, n).value)
  {
    hide NormalizedState;
    if n.stateName == Some("Invalid") {
      InvalidIsNotEscape();
    }
  }

  lemma InvalidIsNotEscape()
    ensures NormalizedState("Invalid") != "escape"
  {
    TrimmedIsFixed("Invalid");
    assert Lower("Invalid")[0] == 'i';
    assert |NormalizedState("Invalid")| == 7 || |NormalizedState("Invalid")| == 1;
  }

  // ---- Minting ----

  /** How the outside answers one mint: with a new identifier and the native state it is born in, or not at all. */
  datatype Answer = Created(identifier: string, stateName: string, stateLabel: string) | Failed

  predicate HasMarkerTitle(title: string) {
    exists i :: 0 <= i <= |title| && StartsWith(title[i..], "-->")
  }

  predicate Mints(f: Finding, a: Answer) {
    a.Created? && !HasMarkerTitle(f.title)
  }

  function NewNode(parent: string, f: Finding, childWorkflow: string, a: Answer): Node
    requires a.Created?
  {
    Node(a.identifier, Some(f.title), Some(ChildDescription(parent, f.description)), Some(a.stateName),
         [EffectiveWorkflow(f, childWorkflow), a.stateLabel])
  }

  function Minted(parent: string, fs: seq<Finding>, childWorkflow: string, answers: seq<Answer>): seq<Node>
    requires |answers| == |fs|
  {
    if fs == [] then []
    else
      var k := |fs| - 1;
      Minted(parent, fs[..k], childWorkflow, answers[..k])
      + (if Mints(fs[k], answers[k]) then [NewNode(parent, fs[k], childWorkflow, answers[k])] else [])
  }

  function FailedAt(fs: seq<Finding>, answers: seq<Answer>): seq<nat>
    requires |answers| == |fs|
  {
    if fs == [] then []
    else
      var k := |fs| - 1;
      FailedAt(fs[..k], answers[..k]) + (if Mints(fs[k], answers[k]) then [] else [k])
  }

  function Identifiers(ns: seq<Node>): (r: seq<string>)
    ensures |r| == |ns| && forall i :: 0 <= i < |ns| ==> r[i] == ns[i].identifier
  {
    seq(|ns|, i requires 0 <= i < |ns| => ns[i].identifier)
  }

  /** Live children whose entry is in the spec, whichever workflow minted them. */
  function SpecMatched(cs: seq<ExistingChild>, ids: set<string>): seq<string> {
    if cs == [] then []
    else
      var c := cs[|cs| - 1];
      SpecMatched(cs[..|cs| - 1], ids) + (if c.specEntryId in ids && c.specEntryId != "" && !IsEscaped(c) then [c.identifier] else [])
  }

  datatype FanoutResult = FanoutResult(
    created: nat, childIdentifiers: seq<string>, errors: seq<nat>, attempted: nat, refused: bool,
    unmatchedChildren: seq<string>, specMatchedChildren: seq<string>)

  /** One entry into a fan-out state; `proceeds` is false when a cap, an approval, a predicate or a missing label stops it. */
  datatype Entering = Entering(findings: seq<Finding>, childWorkflow: string, readOk: bool, proceeds: bool, answer: nat -> Answer)

  function AnswersFor(e: Entering, n: nat): (r: seq<Answer>)
    ensures |r| == n && forall i :: 0 <= i < n ==> r[i] == e.answer(i)
  {
    seq(n, i requires 0 <= i < n => e.answer(i))
  }

  function ChildrenSeen(derive: Derive, nodes: seq<Node>, e: Entering): seq<ExistingChild> {
    if e.readOk then ReadNodes(derive, nodes) else []
  }

  function NewNodes(derive: Derive, parent: string, nodes: seq<Node>, e: Entering): seq<Node> {
    var toSpawn := ToSpawn(e.findings, ChildrenSeen(derive, nodes, e), e.childWorkflow);
    if e.proceeds then Minted(parent, toSpawn, e.childWorkflow, AnswersFor(e, |toSpawn|)) else []
  }

  function ExistingIdentifiers(cs: seq<ExistingChild>): seq<string> {
    seq(|cs|, i requires 0 <= i < |cs| => cs[i].identifier)
  }

  class ParentIssue {
    const derive: Derive
    const identifier: string
    var children: seq<Node>

    constructor (derive: Derive, identifier: string)
      ensures this.derive == derive && this.identifier == identifier && children == []
    {
      this.derive, this.identifier, this.children := derive, identifier, [];
    }

    /** The mint loop: an entry that is refused or whose creation fails is recorded and skipped. */
    method MintChildren(toSpawn: seq<Finding>, childWorkflow: string, answers: seq<Answer>) returns (ids: seq<string>, errors: seq<nat>)
      requires |answers| == |toSpawn|
      modifies this`children
      ensures children == old(children) + Minted(identifier, toSpawn, childWorkflow, answers)
      ensures ids == Identifiers(Minted(identifier, toSpawn, childWorkflow, answers))
      ensures errors == FailedAt(toSpawn, answers)
    {
      hide HasMarkerTitle, ChildDescription;
      ids, errors := [], [];
      for i := 0 to |toSpawn|
        invariant children == old(children) + Minted(identifier, toSpawn[..i], childWorkflow, answers[..i])
        invariant ids == Identifiers(Minted(identifier, toSpawn[..i], childWorkflow, answers[..i]))
        invariant errors == FailedAt(toSpawn[..i], answers[..i])
      {
        var f, a := toSpawn[i], answers[i];
        assert toSpawn[..i + 1][..i] == toSpawn[..i] && answers[..i + 1][..i] == answers[..i];
        if HasMarkerTitle(f.title) || a.Failed? {
          errors := errors + [i];
          continue;
        }
        children := children + [NewNode(identifier, f, childWorkflow, a)];
        ids := ids + [a.identifier];
      }
      assert toSpawn[..|toSpawn|] == toSpawn && answers[..|toSpawn|] == answers;
    }

    method ExecuteFanout(e: Entering) returns (r: FanoutResult)
      modifies this`children
      ensures children == old(children) + NewNodes(derive, identifier, old(children), e)
      ensures r == ResultOf(derive, identifier, old(children), e)
    {
      hide ReadNodes, Suppressed, ToSpawn, Unmatched, SpecMatched, Minted, FailedAt;
      if e.findings == [] {
        SpawnNothing(e, ChildrenSeen(derive, children, e));
        return FanoutResult(0, [], [], 0, true, [], []);
      }
      ReadNothing(derive);
      var existing := FetchExistingSpawnChildren(derive, if e.readOk then Some(children) else None);
      var toSpawn, unmatched, _ := DedupeSpawnSpec(e.findings, existing, e.childWorkflow);
      r := FanoutResult(0, [], [], |toSpawn|, false, ExistingIdentifiers(unmatched), SpecMatched(existing, Ids(e.findings)));
      MintNothing(identifier, e.childWorkflow);
      if toSpawn == [] || !e.proceeds { return; }
      var ids, errors := MintChildren(toSpawn, e.childWorkflow, AnswersFor(e, |toSpawn|));
      r := r.(created := |ids|, childIdentifiers := ids, errors := errors, specMatchedChildren := r.specMatchedChildren + ids);
    }
  }

  /** The result of one entry: an empty spec is refused; otherwise what was matched, orphaned, minted and failed. */
  function ResultOf(derive: Derive, parent: string, nodes: seq<Node>, e: Entering): FanoutResult {
    if e.findings == [] then FanoutResult(0, [], [], 0, true, [], [])
    else
      var seen := ChildrenSeen(derive, nodes, e);
      var toSpawn := ToSpawn(e.findings, seen, e.childWorkflow);
      var ids := Identifiers(NewNodes(derive, parent, nodes, e));
      FanoutResult(|ids|, ids, if e.proceeds then FailedAt(toSpawn, AnswersFor(e, |toSpawn|)) else [], |toSpawn|, false,
                   ExistingIdentifiers(Unmatched(seen, e.findings, e.childWorkflow)), SpecMatched(seen, Ids(e.findings)) + ids)
  }

  lemma ReadNothing(derive: Derive)
    ensures ReadNodes(derive, []) == []
  {
  }

  lemma SpawnNothing(e: Entering, cs: seq<ExistingChild>)
    requires e.findings == []
    ensures ToSpawn(e.findings, cs, e.childWorkflow) == []
    ensures forall parent: string, answers: seq<Answer> :: |answers| == 0 ==> Minted(parent, [], e.childWorkflow, answers) == []
  {
  }

  lemma MintNothing(parent: string, childWorkflow: string)
    ensures Minted(parent, [], childWorkflow, []) == [] && FailedAt([], []) == []
  {
  }

  lemma {:induction false} MintsOrFails(parent: string, fs: seq<Finding>, childWorkflow: string, answers: seq<Answer>)
    requires |answers| == |fs|
    ensures |Minted(parent, fs, childWorkflow, answers)| + |FailedAt(fs, answers)| == |fs|
    ensures forall k: nat :: k in FailedAt(fs, answers) <==> k < |fs| && !Mints(fs[k], answers[k])
  {
    hide Mints;
    if fs != [] {
      MintsOrFails(parent, fs[..|fs| - 1], childWorkflow, answers[..|fs| - 1]);
    }
  }

  /** Every attempted entry is either created or reported as an error, and the errors name exactly the ones that were not. */
  lemma AttemptsAreAccounted(derive: Derive, parent: string, nodes: seq<Node>, e: Entering)
    requires e.findings != [] && e.proceeds
    ensures var r := ResultOf(derive, parent, nodes, e);
            var toSpawn := ToSpawn(e.findings, ChildrenSeen(derive, nodes, e), e.childWorkflow);
            && r.created + |r.errors| == r.attempted
            && forall k: nat :: k in r.errors <==> k < |toSpawn| && !Mints(toSpawn[k], e.answer(k))
  {
    hide ToSpawn, ChildrenSeen, Mints, Unmatched, SpecMatched;
    var toSpawn := ToSpawn(e.findings, ChildrenSeen(derive, nodes, e), e.childWorkflow);
    MintsOrFails(parent, toSpawn, e.childWorkflow, AnswersFor(e, |toSpawn|));
  }

  lemma {:induction false} SpecMatchedExactly(cs: seq<ExistingChild>, ids: set<string>, x: string)
    ensures x in SpecMatched(cs, ids) <==> exists c :: c in cs && c.identifier == x && c.specEntryId in ids && c.specEntryId != "" && !IsEscaped(c)
  {
    hide IsEscaped;
    if cs != [] {
      SpecMatchedExactly(cs[..|cs| - 1], ids, x);
      assert cs == cs[..|cs| - 1] + [cs[|cs| - 1]];
    }
  }

  /** The set the barrier waits for also holds live children a sibling fan-out minted from the same entries. */
  lemma SiblingFanoutChildrenAreAwaited(derive: Derive, parent: string, nodes: seq<Node>, e: Entering, c: ExistingChild)
    requires e.findings != [] && e.readOk && c in ReadNodes(derive, nodes)
    requires c.specEntryId in Ids(e.findings) && c.specEntryId != "" && !IsEscaped(c)
    ensures c.identifier in ResultOf(derive, parent, nodes, e).specMatchedChildren
  {
    hide IsEscaped, ToSpawn, Unmatched, NewNodes;
    SpecMatchedExactly(ReadNodes(derive, nodes), Ids(e.findings), c.identifier);
  }
}
