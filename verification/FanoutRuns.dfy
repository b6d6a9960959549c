/** Runs of fan-out re-entries: no entry has two live children, failed entries are retried, finished specs are left alone. */
module FanoutRuns {
  import opened Prelude
  import opened Text
  import opened SpecRoundTrip
  import opened ReadBack
  import opened Fanout

  datatype Key = Key(id: string, workflow: string)

  /** A child of the parent; `key` says which entry and workflow it was minted for, `None` when something else made it. */
  datatype Slot = Slot(node: Node, key: Option<Key>)

  type State = seq<Slot>

  datatype Event =
    | Enter(entering: Entering)
    | Foreign(node: Node)
    | Move(child: nat, stateName: string)

  function KeyOf(f: Finding, childWorkflow: string): Key {
    Key(f.id, EffectiveWorkflow(f, childWorkflow))
  }

  function Nodes(s: State): (r: seq<Node>)
    ensures |r| == |s| && forall i :: 0 <= i < |s| ==> r[i] == s[i].node
  {
    seq(|s|, i requires 0 <= i < |s| => s[i].node)
  }

  predicate EscapedName(stateName: Option<string>) {
    stateName.Some? && NormalizedState(stateName.value) == "escape"
  }

  predicate Live(x: Slot) {
    !EscapedName(x.node.stateName)
  }

  function SlotFor(parent: string, f: Finding, childWorkflow: string, a: Answer): Slot
    requires a.Created?
  {
    Slot(NewNode(parent, f, childWorkflow, a), Some(KeyOf(f, childWorkflow)))
  }

  function NewSlots(parent: string, fs: seq<Finding>, childWorkflow: string, answers: seq<Answer>): seq<Slot>
    requires |answers| == |fs|
  {
    if fs == [] then []
    else
      var k := |fs| - 1;
      NewSlots(parent, fs[..k], childWorkflow, answers[..k])
      + (if Mints(fs[k], answers[k]) then [SlotFor(parent, fs[k], childWorkflow, answers[k])] else [])
  }

  function Spawning(derive: Derive, s: State, e: Entering): seq<Finding> {
    ToSpawn(e.findings, ChildrenSeen(derive, Nodes(s), e), e.childWorkflow)
  }

  /** Escaping is for good; any other change of state is allowed. */
  function Step(derive: Derive, parent: string, s: State, ev: Event): State {
    match ev
    case Enter(e) =>
      var fs := Spawning(derive, s, e);
      if e.proceeds then s + NewSlots(parent, fs, e.childWorkflow, AnswersFor(e, |fs|)) else s
    case Foreign(n) => s + [Slot(n, None)]
    case Move(i, stateName) =>
      if i < |s| && (Live(s[i]) || EscapedName(Some(stateName))) then s[i := s[i].(node := s[i].node.(stateName := Some(stateName)))]
      else s
  }

  function Run(derive: Derive, parent: string, evs: seq<Event>): State {
    if evs == [] then [] else Step(derive, parent, Run(derive, parent, evs[..|evs| - 1]), evs[|evs| - 1])
  }

  lemma {:induction false} NewSlotsAreMinted(parent: string, fs: seq<Finding>, childWorkflow: string, answers: seq<Answer>)
    requires |answers| == |fs|
    ensures Nodes(NewSlots(parent, fs, childWorkflow, answers)) == Minted(parent, fs, childWorkflow, answers)
  {
    hide Mints, NewNode;
    if fs != [] {
      var k := |fs| - 1;
      NewSlotsAreMinted(parent, fs[..k], childWorkflow, answers[..k]);
    }
  }

  /** A step of the run adds exactly the children `ParentIssue.ExecuteFanout` creates. */
  lemma EnterIsExecuteFanout(derive: Derive, parent: string, s: State, e: Entering)
    ensures Nodes(Step(derive, parent, s, Enter(e))) == Nodes(s) + NewNodes(derive, parent, Nodes(s), e)
  {
    hide ToSpawn, ChildrenSeen, Minted, NewSlots;
    var fs := Spawning(derive, s, e);
    NewSlotsAreMinted(parent, fs, e.childWorkflow, AnswersFor(e, |fs|));
  }

  // ---- What a well-formed entry is ----

  predicate DistinctKeys(fs: seq<Finding>, childWorkflow: string) {
    forall i, j :: 0 <= i < j < |fs| ==> KeyOf(fs[i], childWorkflow) != KeyOf(fs[j], childWorkflow)
  }

  /** An entry as extraction produces it: an id derived from its trimmed text, a `wf:*` workflow, no legacy marker. */
  predicate GoodFinding(derive: Derive, f: Finding, childWorkflow: string) {
    && f.title != "" && Trimmed(f.description.GetOr("")) && MarkerFree(f.description.GetOr(""))
    && f.id == derive(f.title, f.description.GetOr("")) && f.id != ""
    && IsWorkflowLabel(EffectiveWorkflow(f, childWorkflow))
  }

  predicate GoodSpec(derive: Derive, e: Entering) {
    forall f :: f in e.findings ==> GoodFinding(derive, f, e.childWorkflow)
  }

  predicate GoodEvent(derive: Derive, ev: Event) {
    ev.Enter? ==> GoodSpec(derive, ev.entering)
  }

  predicate Distinct(ev: Event) {
    ev.Enter? ==> DistinctKeys(ev.entering.findings, ev.entering.childWorkflow)
  }

  predicate Read(ev: Event) {
    ev.Enter? ==> ev.entering.readOk
  }

  /** A minted child reads back under the key it was minted for. */
  predicate ReadsAsKey(derive: Derive, x: Slot) {
    x.key.Some? ==>
      var c := ReadNode(derive, x.node);
      c.Some? && c.value.specEntryId == x.key.value.id && c.value.childWorkflow == Some(x.key.value.workflow)
      && c.value.state == x.node.stateName
  }

  predicate AllReadAsKey(derive: Derive, s: State) {
    forall i :: 0 <= i < |s| ==> ReadsAsKey(derive, s[i])
  }

  predicate Twins(x: Slot, y: Slot) {
    x.key.Some? && x.key == y.key && Live(x) && Live(y)
  }

  /** No entry of no workflow has two live minted children. */
  predicate AtMostOneLive(s: State) {
    forall i, j :: 0 <= i < j < |s| ==> !Twins(s[i], s[j])
  }

  lemma NewSlotReadsAsKey(derive: Derive, parent: string, f: Finding, childWorkflow: string, a: Answer)
    requires GoodParent(parent) && GoodFinding(derive, f, childWorkflow) && a.Created?
    ensures ReadsAsKey(derive, SlotFor(parent, f, childWorkflow, a))
  {
    hide MarkerFree, ReadNode, Trim, ChildDescription;
    var n := NewNode(parent, f, childWorkflow, a);
    var workflow := EffectiveWorkflow(f, childWorkflow);
    assert WfLabel(n.labels) == Some(workflow);
    TrimmedIsFixed(f.description.GetOr(""));
    assert n.description == Some(ChildDescription(parent, f.description));
    MintedChildReadsBack(derive, n, parent, f.title, f.description, workflow);
  }

  /** The slot minted for the `k`th entry. */
  predicate CameFrom(x: Slot, parent: string, fs: seq<Finding>, childWorkflow: string, answers: seq<Answer>, k: int)
    requires |answers| == |fs|
  {
    0 <= k < |fs| && Mints(fs[k], answers[k]) && x == SlotFor(parent, fs[k], childWorkflow, answers[k])
  }

  lemma SlotForHasKey(parent: string, f: Finding, childWorkflow: string, a: Answer)
    requires a.Created?
    ensures SlotFor(parent, f, childWorkflow, a).key == Some(KeyOf(f, childWorkflow))
    ensures Live(SlotFor(parent, f, childWorkflow, a)) <==> !EscapedName(Some(a.stateName))
  {
  }

  lemma {:induction false} NewSlotsExactly(parent: string, fs: seq<Finding>, childWorkflow: string, answers: seq<Answer>, x: Slot)
    requires |answers| == |fs|
    ensures x in NewSlots(parent, fs, childWorkflow, answers) <==> exists k :: CameFrom(x, parent, fs, childWorkflow, answers, k)
  {
    hide Mints, SlotFor;
    if fs != [] {
      var k := |fs| - 1;
      NewSlotsExactly(parent, fs[..k], childWorkflow, answers[..k], x);
      if m :| CameFrom(x, parent, fs[..k], childWorkflow, answers[..k], m) {
        assert CameFrom(x, parent, fs, childWorkflow, answers, m);
      }
      if m :| CameFrom(x, parent, fs, childWorkflow, answers, m) {
        assert m < k ==> CameFrom(x, parent, fs[..k], childWorkflow, answers[..k], m);
      }
      if Mints(fs[k], answers[k]) {
        MintsMeansCreated(fs[k], answers[k]);
        assert CameFrom(x, parent, fs, childWorkflow, answers, k) <==> x == SlotFor(parent, fs[k], childWorkflow, answers[k]);
      }
    }
  }

  /** Created, and not in a state that reads as escaped. */
  predicate BornLive(f: Finding, a: Answer) {
    Mints(f, a) && !EscapedName(Some(a.stateName))
  }

  /** Two entries of one id and workflow, both created live. */
  predicate Clashing(fs: seq<Finding>, childWorkflow: string, answers: seq<Answer>, i: int, j: int)
    requires |answers| == |fs|
  {
    0 <= i < j < |fs| && KeyOf(fs[i], childWorkflow) == KeyOf(fs[j], childWorkflow) && BornLive(fs[i], answers[i]) && BornLive(fs[j], answers[j])
  }

  predicate Clash(fs: seq<Finding>, childWorkflow: string, answers: seq<Answer>)
    requires |answers| == |fs|
  {
    exists i, j :: 0 <= i < j < |fs| && Clashing(fs, childWorkflow, answers, i, j)
  }

  /** A slot added for the entries has a live twin in `x` exactly if some entry of its key was created live. */
  lemma NewSlotTwins(parent: string, fs: seq<Finding>, childWorkflow: string, answers: seq<Answer>, x: Slot)
    requires |answers| == |fs| && x.key.Some? && Live(x)
    ensures (exists y :: y in NewSlots(parent, fs, childWorkflow, answers) && Twins(y, x))
            <==> exists k :: 0 <= k < |fs| && BornLive(fs[k], answers[k]) && Some(KeyOf(fs[k], childWorkflow)) == x.key
  {
    hide Mints, SlotFor, Live, KeyOf, NewSlots, EscapedName;
    if y :| y in NewSlots(parent, fs, childWorkflow, answers) && Twins(y, x) {
      NewSlotsExactly(parent, fs, childWorkflow, answers, y);
      var k :| CameFrom(y, parent, fs, childWorkflow, answers, k);
      MintsMeansCreated(fs[k], answers[k]);
      SlotForHasKey(parent, fs[k], childWorkflow, answers[k]);
      assert BornLive(fs[k], answers[k]);
    }
    if k :| 0 <= k < |fs| && BornLive(fs[k], answers[k]) && Some(KeyOf(fs[k], childWorkflow)) == x.key {
      MintsMeansCreated(fs[k], answers[k]);
      SlotForHasKey(parent, fs[k], childWorkflow, answers[k]);
      var y := SlotFor(parent, fs[k], childWorkflow, answers[k]);
      assert CameFrom(y, parent, fs, childWorkflow, answers, k);
      NewSlotsExactly(parent, fs, childWorkflow, answers, y);
      assert Twins(y, x);
    }
  }

  lemma OneLiveAppends(s: State, x: Slot)
    ensures AtMostOneLive(s + [x]) <==> AtMostOneLive(s) && forall y :: y in s ==> !Twins(y, x)
  {
    hide Twins;
    var t := s + [x];
    if AtMostOneLive(t) {
      forall y | y in s
        ensures !Twins(y, x)
      {
        var i :| 0 <= i < |s| && s[i] == y;
        assert !Twins(t[i], t[|s|]);
      }
      assert forall i, j :: 0 <= i < j < |s| ==> t[i] == s[i] && t[j] == s[j];
    }
  }

  /** What one entry adds keeps its distance exactly when no two of its entries clash. */
  lemma {:induction false} NewSlotsKeepDistanceExactly(parent: string, fs: seq<Finding>, childWorkflow: string, answers: seq<Answer>)
    requires |answers| == |fs|
    ensures AtMostOneLive(NewSlots(parent, fs, childWorkflow, answers)) <==> !Clash(fs, childWorkflow, answers)
  {
    hide Mints, SlotFor, Live, KeyOf, AtMostOneLive, Twins, EscapedName;
    if fs == [] {
      NothingIsAlone();
    } else {
      var k := |fs| - 1;
      NewSlotsKeepDistanceExactly(parent, fs[..k], childWorkflow, answers[..k]);
      ClashGrows(fs, childWorkflow, answers);
      if Mints(fs[k], answers[k]) {
        MintsMeansCreated(fs[k], answers[k]);
        SlotForHasKey(parent, fs[k], childWorkflow, answers[k]);
        var x := SlotFor(parent, fs[k], childWorkflow, answers[k]);
        OneLiveAppends(NewSlots(parent, fs[..k], childWorkflow, answers[..k]), x);
        if Live(x) {
          NewSlotTwins(parent, fs[..k], childWorkflow, answers[..k], x);
        } else {
          DeadHasNoTwin(x);
        }
      } else {
        assert NewSlots(parent, fs, childWorkflow, answers) == NewSlots(parent, fs[..k], childWorkflow, answers[..k]);
      }
    }
  }

  lemma NothingIsAlone()
    ensures AtMostOneLive([])
  {
  }

  lemma DeadHasNoTwin(x: Slot)
    requires !Live(x)
    ensures forall y :: !Twins(y, x)
  {
  }

  lemma ClashGrows(fs: seq<Finding>, childWorkflow: string, answers: seq<Answer>)
    requires |answers| == |fs| && fs != []
    ensures var k := |fs| - 1;
            var last := exists i :: 0 <= i < k && BornLive(fs[..k][i], answers[..k][i]) && KeyOf(fs[..k][i], childWorkflow) == KeyOf(fs[k], childWorkflow);
            Clash(fs, childWorkflow, answers) <==> (Clash(fs[..k], childWorkflow, answers[..k]) || (BornLive(fs[k], answers[k]) && last))
  {
    hide BornLive, KeyOf;
    var k := |fs| - 1;
    if i, j :| 0 <= i < j < |fs| && Clashing(fs, childWorkflow, answers, i, j) {
      if j < k {
        assert Clashing(fs[..k], childWorkflow, answers[..k], i, j);
      } else {
        assert fs[..k][i] == fs[i] && answers[..k][i] == answers[i];
      }
    }
    if i, j :| 0 <= i < j < k && Clashing(fs[..k], childWorkflow, answers[..k], i, j) {
      assert Clashing(fs, childWorkflow, answers, i, j);
    }
    if BornLive(fs[k], answers[k]) {
      if i :| 0 <= i < k && BornLive(fs[..k][i], answers[..k][i]) && KeyOf(fs[..k][i], childWorkflow) == KeyOf(fs[k], childWorkflow) {
        assert Clashing(fs, childWorkflow, answers, i, k);
      }
    }
  }

  lemma DistinctNeverClash(fs: seq<Finding>, childWorkflow: string, answers: seq<Answer>)
    requires |answers| == |fs| && DistinctKeys(fs, childWorkflow)
    ensures !Clash(fs, childWorkflow, answers)
  {
    hide KeyOf, BornLive;
  }

  /** The slots added for good entries: each came from an entry that was minted, and reads back as it. */
  lemma NewSlotsAreGood(derive: Derive, parent: string, fs: seq<Finding>, childWorkflow: string, answers: seq<Answer>)
    requires |answers| == |fs| && GoodParent(parent)
    requires forall f :: f in fs ==> GoodFinding(derive, f, childWorkflow)
    ensures AllReadAsKey(derive, NewSlots(parent, fs, childWorkflow, answers))
    ensures forall x :: x in NewSlots(parent, fs, childWorkflow, answers) <==> exists k :: CameFrom(x, parent, fs, childWorkflow, answers, k)
  {
    hide GoodFinding, Mints, SlotFor, Live, ReadsAsKey, KeyOf, NewSlots;
    forall x
      ensures x in NewSlots(parent, fs, childWorkflow, answers) <==> exists k :: CameFrom(x, parent, fs, childWorkflow, answers, k)
    {
      NewSlotsExactly(parent, fs, childWorkflow, answers, x);
    }
    forall x | x in NewSlots(parent, fs, childWorkflow, answers)
      ensures ReadsAsKey(derive, x)
    {
      var k :| CameFrom(x, parent, fs, childWorkflow, answers, k);
      MintsMeansCreated(fs[k], answers[k]);
      NewSlotReadsAsKey(derive, parent, fs[k], childWorkflow, answers[k]);
    }
  }

  lemma MintsMeansCreated(f: Finding, a: Answer)
    requires Mints(f, a)
    ensures a.Created?
  {
  }

  lemma {:induction false} SpawningKeepsDistance(fs: seq<Finding>, cs: seq<ExistingChild>, childWorkflow: string)
    requires DistinctKeys(fs, childWorkflow)
    ensures DistinctKeys(ToSpawn(fs, cs, childWorkflow), childWorkflow)
  {
    hide Suppressed, KeyOf;
    if fs != [] {
      var k := |fs| - 1;
      SpawningKeepsDistance(fs[..k], cs, childWorkflow);
      var t := ToSpawn(fs[..k], cs, childWorkflow);
      forall i | 0 <= i < |t|
        ensures KeyOf(t[i], childWorkflow) != KeyOf(fs[k], childWorkflow)
      {
        ToSpawnExactly(fs[..k], cs, childWorkflow, t[i]);
      }
    }
  }

  lemma SpawningIsGood(derive: Derive, s: State, e: Entering)
    requires GoodSpec(derive, e)
    ensures forall f :: f in Spawning(derive, s, e) ==> f in e.findings && GoodFinding(derive, f, e.childWorkflow)
  {
    hide GoodFinding, ChildrenSeen, Suppressed;
    var cs := ChildrenSeen(derive, Nodes(s), e);
    forall f | f in Spawning(derive, s, e)
      ensures f in e.findings
    {
      ToSpawnExactly(e.findings, cs, e.childWorkflow, f);
    }
  }

  /** A live minted child is seen by a successful read, and suppresses its key. */
  lemma LiveChildSuppresses(derive: Derive, s: State, i: nat)
    requires i < |s| && s[i].key.Some? && Live(s[i]) && ReadsAsKey(derive, s[i])
    ensures Suppressed(ReadNodes(derive, Nodes(s)), s[i].key.value.id, s[i].key.value.workflow)
  {
    hide ReadNode, ReadNodes, NormalizedState;
    var c := ReadNode(derive, s[i].node).value;
    assert Nodes(s)[i] == s[i].node;
    ReadNodesExactly(derive, Nodes(s), c);
    assert IsScopedMatch(c, s[i].key.value.id, s[i].key.value.workflow);
  }

  /** An entry created live although a live child of its key was there. */
  predicate Again(s: State, e: Entering, fs: seq<Finding>, k: int, i: int) {
    0 <= k < |fs| && 0 <= i < |s| && BornLive(fs[k], e.answer(k)) && s[i].key == Some(KeyOf(fs[k], e.childWorkflow)) && Live(s[i])
  }

  predicate MintsAgain(s: State, e: Entering, fs: seq<Finding>) {
    exists k, i :: 0 <= k < |fs| && 0 <= i < |s| && Again(s, e, fs, k, i)
  }

  /** The entry spoils the invariant: two of what it spawns clash, or one repeats a live child. */
  predicate Spoils(derive: Derive, s: State, e: Entering) {
    var fs := Spawning(derive, s, e);
    e.proceeds && (Clash(fs, e.childWorkflow, AnswersFor(e, |fs|)) || MintsAgain(s, e, fs))
  }

  lemma OneLiveJoins(s: State, t: State)
    ensures AtMostOneLive(s + t) <==> AtMostOneLive(s) && AtMostOneLive(t) && forall i, j :: 0 <= i < |s| && 0 <= j < |t| ==> !Twins(s[i], t[j])
  {
    hide Twins;
    var u := s + t;
    if AtMostOneLive(u) {
      assert forall i, j :: 0 <= i < j < |s| ==> u[i] == s[i] && u[j] == s[j];
      forall i, j | 0 <= i < j < |t|
        ensures !Twins(t[i], t[j])
      {
        assert u[|s| + i] == t[i] && u[|s| + j] == t[j];
      }
      forall i, j | 0 <= i < |s| && 0 <= j < |t|
        ensures !Twins(s[i], t[j])
      {
        assert u[i] == s[i] && u[|s| + j] == t[j];
      }
    }
  }

  /** Whatever was read or not, an entry keeps the invariant exactly when it spoils nothing. */
  lemma EntryKeepsOneExactly(derive: Derive, parent: string, s: State, e: Entering)
    requires AtMostOneLive(s)
    ensures AtMostOneLive(Step(derive, parent, s, Enter(e))) <==> !Spoils(derive, s, e)
  {
    hide NewSlots, AtMostOneLive, Live, Twins, BornLive, KeyOf, Spawning, Clash;
    if e.proceeds {
      var fs := Spawning(derive, s, e);
      var answers := AnswersFor(e, |fs|);
      var t := NewSlots(parent, fs, e.childWorkflow, answers);
      NewSlotsKeepDistanceExactly(parent, fs, e.childWorkflow, answers);
      OneLiveJoins(s, t);
      OldTwinsExactly(parent, s, e, fs);
    }
  }

  lemma TwinsEitherWay(x: Slot, y: Slot)
    ensures Twins(x, y) <==> Twins(y, x)
    ensures Twins(x, y) ==> x.key.Some? && Live(x) && Live(y) && x.key == y.key
  {
  }

  lemma OldTwinsExactly(parent: string, s: State, e: Entering, fs: seq<Finding>)
    ensures var t := NewSlots(parent, fs, e.childWorkflow, AnswersFor(e, |fs|));
            (exists i, j :: 0 <= i < |s| && 0 <= j < |t| && Twins(s[i], t[j])) <==> MintsAgain(s, e, fs)
  {
    hide NewSlots, Live, Twins, BornLive, KeyOf;
    var answers := AnswersFor(e, |fs|);
    var t := NewSlots(parent, fs, e.childWorkflow, answers);
    if i, j :| 0 <= i < |s| && 0 <= j < |t| && Twins(s[i], t[j]) {
      TwinsEitherWay(s[i], t[j]);
      assert t[j] in t;
      NewSlotTwins(parent, fs, e.childWorkflow, answers, s[i]);
      var k :| 0 <= k < |fs| && BornLive(fs[k], answers[k]) && Some(KeyOf(fs[k], e.childWorkflow)) == s[i].key;
      assert Again(s, e, fs, k, i);
    }
    if k, i :| 0 <= k < |fs| && 0 <= i < |s| && Again(s, e, fs, k, i) {
      assert BornLive(fs[k], answers[k]);
      NewSlotTwins(parent, fs, e.childWorkflow, answers, s[i]);
      var y :| y in t && Twins(y, s[i]);
      var j :| 0 <= j < |t| && t[j] == y;
      TwinsEitherWay(y, s[i]);
    }
  }

  /** After a successful read no entry repeats a live child. */
  lemma ReadEntryRepeatsNothing(derive: Derive, s: State, e: Entering)
    requires e.readOk && AllReadAsKey(derive, s)
    ensures !MintsAgain(s, e, Spawning(derive, s, e))
  {
    hide ReadsAsKey, ReadNodes, ToSpawn, Suppressed, Live, BornLive;
    var fs := Spawning(derive, s, e);
    if k, i :| 0 <= k < |fs| && 0 <= i < |s| && Again(s, e, fs, k, i) {
      LiveChildSuppresses(derive, s, i);
      ToSpawnExactly(e.findings, ReadNodes(derive, Nodes(s)), e.childWorkflow, fs[k]);
      assert false;
    }
  }

  /** With a successful read, an entry keeps the invariant exactly when no two of what it spawns have one key and are both created live. */
  lemma ReadEntryKeepsOneExactly(derive: Derive, parent: string, s: State, e: Entering)
    requires e.readOk && e.proceeds && AllReadAsKey(derive, s) && AtMostOneLive(s)
    ensures var fs := Spawning(derive, s, e);
            AtMostOneLive(Step(derive, parent, s, Enter(e))) <==> !Clash(fs, e.childWorkflow, AnswersFor(e, |fs|))
  {
    hide Spawning, MintsAgain, AtMostOneLive, AllReadAsKey, Clash, Step;
    EntryKeepsOneExactly(derive, parent, s, e);
    ReadEntryRepeatsNothing(derive, s, e);
  }

  lemma EnterKeepsReading(derive: Derive, parent: string, s: State, e: Entering)
    requires GoodParent(parent) && GoodSpec(derive, e) && AllReadAsKey(derive, s)
    ensures AllReadAsKey(derive, Step(derive, parent, s, Enter(e)))
  {
    hide GoodSpec, ReadsAsKey, NewSlots, Mints, SlotFor, ChildrenSeen, ToSpawn;
    var fs := Spawning(derive, s, e);
    SpawningIsGood(derive, s, e);
    NewSlotsAreGood(derive, parent, fs, e.childWorkflow, AnswersFor(e, |fs|));
  }

  lemma MoveKeepsReading(derive: Derive, x: Slot, stateName: string)
    requires ReadsAsKey(derive, x)
    ensures ReadsAsKey(derive, x.(node := x.node.(stateName := Some(stateName))))
  {
    hide FindMarker, ParentLine, CleanSpawnChildDescription, WfLabel;
  }

  lemma StepKeepsReading(derive: Derive, parent: string, s: State, ev: Event)
    requires GoodParent(parent) && GoodEvent(derive, ev) && AllReadAsKey(derive, s)
    ensures AllReadAsKey(derive, Step(derive, parent, s, ev))
  {
    hide GoodSpec, ReadsAsKey, Spawning;
    if ev.Enter? {
      EnterKeepsReading(derive, parent, s, ev.entering);
    } else if ev.Move? && ev.child < |s| {
      MoveKeepsReading(derive, s[ev.child], ev.stateName);
    } else if ev.Foreign? {
      ForeignReads(derive, ev.node);
    }
  }

  lemma ForeignReads(derive: Derive, n: Node)
    ensures ReadsAsKey(derive, Slot(n, None))
  {
  }

  predicate SpoilsStep(derive: Derive, s: State, ev: Event) {
    ev.Enter? && Spoils(derive, s, ev.entering)
  }

  /** Only entries can spoil the invariant: other children, moves and escapes cannot. */
  lemma StepKeepsOneExactly(derive: Derive, parent: string, s: State, ev: Event)
    requires AtMostOneLive(s)
    ensures AtMostOneLive(Step(derive, parent, s, ev)) <==> !SpoilsStep(derive, s, ev)
  {
    hide Spawning, NormalizedState, Spoils;
    if ev.Enter? {
      EntryKeepsOneExactly(derive, parent, s, ev.entering);
    } else {
      var t := Step(derive, parent, s, ev);
      assert forall i :: 0 <= i < |s| ==> t[i].key == s[i].key && (Live(t[i]) ==> Live(s[i]));
      forall i, j | 0 <= i < j < |t|
        ensures !Twins(t[i], t[j])
      {
        assert j < |s| ==> !Twins(s[i], s[j]);
      }
    }
  }

  lemma {:induction false} RunReads(derive: Derive, parent: string, evs: seq<Event>)
    requires GoodParent(parent) && forall ev :: ev in evs ==> GoodEvent(derive, ev)
    ensures AllReadAsKey(derive, Run(derive, parent, evs))
  {
    hide GoodEvent, ReadsAsKey, Step;
    if evs != [] {
      assert evs[|evs| - 1] in evs;
      RunReads(derive, parent, evs[..|evs| - 1]);
      StepKeepsReading(derive, parent, Run(derive, parent, evs[..|evs| - 1]), evs[|evs| - 1]);
    }
  }

  predicate AlwaysAtMostOneLive(derive: Derive, parent: string, evs: seq<Event>) {
    forall n :: 0 <= n <= |evs| ==> OneLiveAt(derive, parent, evs, n)
  }

  predicate OneLiveAt(derive: Derive, parent: string, evs: seq<Event>, n: int)
    requires 0 <= n <= |evs|
  {
    AtMostOneLive(Run(derive, parent, evs[..n]))
  }

  predicate NeverSpoils(derive: Derive, parent: string, evs: seq<Event>) {
    forall n :: 0 <= n < |evs| ==> SpoilsNothingAt(derive, parent, evs, n)
  }

  predicate SpoilsNothingAt(derive: Derive, parent: string, evs: seq<Event>, n: int)
    requires 0 <= n < |evs|
  {
    !SpoilsStep(derive, Run(derive, parent, evs[..n]), evs[n])
  }

  lemma AlwaysGrows(derive: Derive, parent: string, evs: seq<Event>)
    requires evs != []
    ensures AlwaysAtMostOneLive(derive, parent, evs) <==>
              (AlwaysAtMostOneLive(derive, parent, evs[..|evs| - 1]) && AtMostOneLive(Run(derive, parent, evs)))
  {
    hide Run, AtMostOneLive;
    var k := |evs| - 1;
    var before := evs[..k];
    assert forall n :: 0 <= n <= k ==> before[..n] == evs[..n];
    assert forall n :: 0 <= n <= k ==> (OneLiveAt(derive, parent, evs, n) <==> OneLiveAt(derive, parent, before, n));
    assert OneLiveAt(derive, parent, evs, k + 1) <==> AtMostOneLive(Run(derive, parent, evs)) by {
      assert evs[..k + 1] == evs;
    }
  }

  lemma NeverSpoilsGrows(derive: Derive, parent: string, evs: seq<Event>)
    requires evs != []
    ensures var k := |evs| - 1;
            NeverSpoils(derive, parent, evs) <==> (NeverSpoils(derive, parent, evs[..k]) && !SpoilsStep(derive, Run(derive, parent, evs[..k]), evs[k]))
  {
    hide Run, SpoilsStep;
    var k := |evs| - 1;
    var before := evs[..k];
    assert forall n :: 0 <= n < k ==> before[..n] == evs[..n] && before[n] == evs[n];
    assert forall n :: 0 <= n < k ==> (SpoilsNothingAt(derive, parent, evs, n) <==> SpoilsNothingAt(derive, parent, before, n));
    assert SpoilsNothingAt(derive, parent, evs, k) <==> !SpoilsStep(derive, Run(derive, parent, evs[..k]), evs[k]);
  }

  /**
   * Over any run (specs edited in between, reads and creations failing, other children appearing, children moving and
   * escaping for good), no entry has two live children of one workflow at any time exactly when no step of the run
   * spoils it.
   */
  lemma {:induction false} NoDuplicateLiveChildExactly(derive: Derive, parent: string, evs: seq<Event>)
    ensures AlwaysAtMostOneLive(derive, parent, evs) <==> NeverSpoils(derive, parent, evs)
  {
    hide Step, AtMostOneLive, SpoilsStep, AlwaysAtMostOneLive, NeverSpoils;
    if evs == [] {
      NothingHasRun(derive, parent);
    } else {
      var before, ev := evs[..|evs| - 1], evs[|evs| - 1];
      NoDuplicateLiveChildExactly(derive, parent, before);
      AlwaysGrows(derive, parent, evs);
      NeverSpoilsGrows(derive, parent, evs);
      if AlwaysAtMostOneLive(derive, parent, before) {
        LastOfAlways(derive, parent, before);
        StepKeepsOneExactly(derive, parent, Run(derive, parent, before), ev);
      }
    }
  }

  lemma LastOfAlways(derive: Derive, parent: string, evs: seq<Event>)
    requires AlwaysAtMostOneLive(derive, parent, evs)
    ensures AtMostOneLive(Run(derive, parent, evs))
  {
    hide AtMostOneLive, Run;
    assert OneLiveAt(derive, parent, evs, |evs|) && evs[..|evs|] == evs;
  }

  lemma NothingHasRun(derive: Derive, parent: string)
    ensures AlwaysAtMostOneLive(derive, parent, []) && NeverSpoils(derive, parent, [])
  {
  }

  /** With successful reads and no two entries of one id and workflow in a spec, no run makes a duplicate. */
  lemma {:induction false} NoDuplicateLiveChild(derive: Derive, parent: string, evs: seq<Event>)
    requires GoodParent(parent) && forall ev :: ev in evs ==> GoodEvent(derive, ev) && Read(ev) && Distinct(ev)
    ensures AtMostOneLive(Run(derive, parent, evs))
  {
    hide GoodEvent, Step, Read, Twins, AllReadAsKey, Distinct;
    if evs != [] {
      var before, ev := evs[..|evs| - 1], evs[|evs| - 1];
      assert ev in evs;
      NoDuplicateLiveChild(derive, parent, before);
      RunReads(derive, parent, before);
      StepKeepsOneExactly(derive, parent, Run(derive, parent, before), ev);
      ReadStepSpoilsNothing(derive, Run(derive, parent, before), ev);
    } else {
      assert Run(derive, parent, evs) == [];
    }
  }

  lemma ReadStepSpoilsNothing(derive: Derive, s: State, ev: Event)
    requires Read(ev) && Distinct(ev) && AllReadAsKey(derive, s)
    ensures !SpoilsStep(derive, s, ev)
  {
    hide AllReadAsKey, MintsAgain, Clash, ChildrenSeen, ToSpawn, DistinctKeys;
    if ev.Enter? {
      var e := ev.entering;
      var fs := Spawning(derive, s, e);
      ReadEntryRepeatsNothing(derive, s, e);
      SpawningKeepsDistance(e.findings, ChildrenSeen(derive, Nodes(s), e), e.childWorkflow);
      DistinctNeverClash(fs, e.childWorkflow, AnswersFor(e, |fs|));
    }
  }

  // ---- Exactly when an unread entry duplicates ----

  lemma {:induction false} UnreadSpawnsEverything(fs: seq<Finding>, childWorkflow: string)
    ensures ToSpawn(fs, [], childWorkflow) == fs
  {
    if fs != [] {
      UnreadSpawnsEverything(fs[..|fs| - 1], childWorkflow);
    }
  }

  /**
   * When the read fails, an entry duplicates exactly if one of its entries is minted while it already has a live child,
   * or two of one id and workflow are both minted.
   */
  lemma UnreadEntryDuplicatesExactly(derive: Derive, parent: string, s: State, e: Entering)
    requires !e.readOk && e.proceeds && AtMostOneLive(s)
    ensures !AtMostOneLive(Step(derive, parent, s, Enter(e))) <==>
              MintsAgain(s, e, e.findings) || Clash(e.findings, e.childWorkflow, AnswersFor(e, |e.findings|))
  {
    hide MintsAgain, AtMostOneLive, Clash, Step, ToSpawn;
    UnreadSpawnsEverything(e.findings, e.childWorkflow);
    EntryKeepsOneExactly(derive, parent, s, e);
  }

  // ---- Retries, and specs that are done ----

  predicate Held(derive: Derive, s: State, key: Key) {
    Suppressed(ReadNodes(derive, Nodes(s)), key.id, key.workflow)
  }

  /** The child read from a slot holds the key. */
  predicate HoldsKey(derive: Derive, x: Slot, key: Key) {
    var c := ReadNode(derive, x.node);
    c.Some? && !EscapedName(x.node.stateName) && c.value.specEntryId == key.id && c.value.childWorkflow == Some(key.workflow)
  }

  lemma HeldExactly(derive: Derive, s: State, key: Key)
    ensures Held(derive, s, key) <==> exists i :: 0 <= i < |s| && HoldsKey(derive, s[i], key)
  {
    hide SpecEntryId, NormalizedState, ReadNodes, WfLabel, FindMarker;
    var cs := ReadNodes(derive, Nodes(s));
    forall c
      ensures c in cs <==> exists i :: 0 <= i < |Nodes(s)| && ReadNode(derive, Nodes(s)[i]) == Some(c)
    {
      ReadNodesExactly(derive, Nodes(s), c);
    }
    if i :| 0 <= i < |s| && HoldsKey(derive, s[i], key) {
      var c := ReadNode(derive, Nodes(s)[i]).value;
      assert c in cs && IsScopedMatch(c, key.id, key.workflow);
    }
    if Held(derive, s, key) {
      var c :| c in cs && (IsScopedMatch(c, key.id, key.workflow) || IsLegacyMatch(c, key.id));
      var i :| 0 <= i < |Nodes(s)| && ReadNode(derive, Nodes(s)[i]) == Some(c);
      assert HoldsKey(derive, s[i], key);
    }
  }

  /** Some attempted entry of the key is created live. */
  predicate MintedLive(derive: Derive, s: State, e: Entering, key: Key) {
    var fs := Spawning(derive, s, e);
    exists m :: 0 <= m < |fs| && KeyOf(fs[m], e.childWorkflow) == key && BornLive(fs[m], e.answer(m))
  }

  /**
   * After an entry with a successful read, an attempted spec entry is held exactly if its own mint, or that of another
   * entry of its id and workflow, succeeded (and was not born escaped): a failed one is attempted again next time.
   */
  lemma FailedEntriesAreRetried(derive: Derive, parent: string, s: State, e: Entering, k: nat)
    requires GoodParent(parent) && GoodSpec(derive, e) && e.readOk && e.proceeds
    requires k < |Spawning(derive, s, e)|
    ensures var f := Spawning(derive, s, e)[k];
            Held(derive, Step(derive, parent, s, Enter(e)), KeyOf(f, e.childWorkflow)) <==> MintedLive(derive, s, e, KeyOf(f, e.childWorkflow))
  {
    hide GoodSpec, GoodFinding, NewSlots, Mints, EscapedName, SlotFor, ReadNodes, ToSpawn, ReadNode, Held;
    var fs := Spawning(derive, s, e);
    var f, answers := fs[k], AnswersFor(e, |fs|);
    var key := KeyOf(f, e.childWorkflow);
    SpawningIsGood(derive, s, e);
    NewSlotsAreGood(derive, parent, fs, e.childWorkflow, answers);
    var t := NewSlots(parent, fs, e.childWorkflow, answers);
    var after := s + t;
    NotHeldWhenSpawned(derive, s, e, f);
    HeldExactly(derive, s, key);
    HeldExactly(derive, after, key);
    assert forall i :: 0 <= i < |s| ==> !HoldsKey(derive, s[i], key);
    if m :| 0 <= m < |fs| && KeyOf(fs[m], e.childWorkflow) == key && BornLive(fs[m], answers[m]) {
      MintsMeansCreated(fs[m], answers[m]);
      SlotForHasKey(parent, fs[m], e.childWorkflow, answers[m]);
      assert CameFrom(SlotFor(parent, fs[m], e.childWorkflow, answers[m]), parent, fs, e.childWorkflow, answers, m);
      NewSlotsExactly(parent, fs, e.childWorkflow, answers, SlotFor(parent, fs[m], e.childWorkflow, answers[m]));
      var j :| 0 <= j < |t| && t[j] == SlotFor(parent, fs[m], e.childWorkflow, answers[m]);
      assert ReadsAsKey(derive, t[j]);
      assert HoldsKey(derive, after[|s| + j], key);
    }
    if i :| |s| <= i < |after| && HoldsKey(derive, after[i], key) {
      var j := i - |s|;
      assert after[i] == t[j] && t[j] in t && ReadsAsKey(derive, t[j]);
      var m :| CameFrom(t[j], parent, fs, e.childWorkflow, answers, m);
      MintsMeansCreated(fs[m], answers[m]);
      SlotForHasKey(parent, fs[m], e.childWorkflow, answers[m]);
      assert KeyOf(fs[m], e.childWorkflow) == key && BornLive(fs[m], answers[m]);
    }
  }

  lemma NotHeldWhenSpawned(derive: Derive, s: State, e: Entering, f: Finding)
    requires e.readOk && f in Spawning(derive, s, e)
    ensures !Held(derive, s, KeyOf(f, e.childWorkflow)) && f in e.findings
  {
    hide ReadNodes, Suppressed, ToSpawn;
    ToSpawnExactly(e.findings, ReadNodes(derive, Nodes(s)), e.childWorkflow, f);
  }

  /** Nothing of the event makes a live child escape. */
  predicate Quiet(ev: Event) {
    ev.Move? ==> !EscapedName(Some(ev.stateName))
  }

  lemma StepKeepsHeld(derive: Derive, parent: string, s: State, ev: Event, key: Key)
    requires Quiet(ev) && Held(derive, s, key)
    ensures Held(derive, Step(derive, parent, s, ev), key)
  {
    hide Held, Spawning, NewSlots, FindMarker, ParentLine, CleanSpawnChildDescription, WfLabel, NormalizedState;
    var t := Step(derive, parent, s, ev);
    HeldExactly(derive, s, key);
    HeldExactly(derive, t, key);
    var i :| 0 <= i < |s| && HoldsKey(derive, s[i], key);
    assert HoldsKey(derive, t[i], key);
  }

  function RunFrom(derive: Derive, parent: string, s: State, evs: seq<Event>): State {
    if evs == [] then s else Step(derive, parent, RunFrom(derive, parent, s, evs[..|evs| - 1]), evs[|evs| - 1])
  }

  lemma {:induction false} HeldStaysHeld(derive: Derive, parent: string, s: State, evs: seq<Event>, key: Key)
    requires Held(derive, s, key) && forall ev :: ev in evs ==> Quiet(ev)
    ensures Held(derive, RunFrom(derive, parent, s, evs), key)
  {
    hide Held, Quiet, Step;
    if evs != [] {
      assert evs[|evs| - 1] in evs;
      HeldStaysHeld(derive, parent, s, evs[..|evs| - 1], key);
      StepKeepsHeld(derive, parent, RunFrom(derive, parent, s, evs[..|evs| - 1]), evs[|evs| - 1], key);
    }
  }

  predicate MintsAllLive(fs: seq<Finding>, answers: seq<Answer>)
    requires |answers| == |fs|
  {
    forall k :: 0 <= k < |fs| ==> BornLive(fs[k], answers[k])
  }

  /**
   * Once an entry has minted everything it attempted, entering the same spec again spawns nothing, whatever happens in
   * between (other specs, failed reads, new children), while no child escapes.
   */
  lemma FinishedSpecSpawnsNothing(derive: Derive, parent: string, s: State, e: Entering, evs: seq<Event>, again: Entering)
    requires GoodParent(parent) && GoodSpec(derive, e) && e.readOk && e.proceeds
    requires var fs := Spawning(derive, s, e); MintsAllLive(fs, AnswersFor(e, |fs|))
    requires forall ev :: ev in evs ==> Quiet(ev)
    requires again.readOk && again.findings == e.findings && again.childWorkflow == e.childWorkflow
    ensures Spawning(derive, RunFrom(derive, parent, Step(derive, parent, s, Enter(e)), evs), again) == []
  {
    hide GoodSpec, ReadNodes, ToSpawn, Held, Quiet, BornLive, Step, KeyOf;
    var after := Step(derive, parent, s, Enter(e));
    var later := RunFrom(derive, parent, after, evs);
    var fs, left := Spawning(derive, s, e), Spawning(derive, later, again);
    if left != [] {
      var f := left[0];
      NotHeldWhenSpawned(derive, later, again, f);
      if f in fs {
        var k :| 0 <= k < |fs| && fs[k] == f;
        FailedEntriesAreRetried(derive, parent, s, e, k);
        assert AnswersFor(e, |fs|)[k] == e.answer(k);
      } else {
        HeldWhenNotSpawned(derive, s, e, f);
        assert Quiet(Enter(e)) by {
          EnterIsQuiet(e);
        }
        StepKeepsHeld(derive, parent, s, Enter(e), KeyOf(f, e.childWorkflow));
      }
      HeldStaysHeld(derive, parent, after, evs, KeyOf(f, e.childWorkflow));
      assert false;
    }
  }

  lemma EnterIsQuiet(e: Entering)
    ensures Quiet(Enter(e))
  {
  }

  lemma HeldWhenNotSpawned(derive: Derive, s: State, e: Entering, f: Finding)
    requires e.readOk && f in e.findings && f !in Spawning(derive, s, e)
    ensures Held(derive, s, KeyOf(f, e.childWorkflow))
  {
    hide ReadNodes, Suppressed, ToSpawn;
    ToSpawnExactly(e.findings, ReadNodes(derive, Nodes(s)), e.childWorkflow, f);
  }
}
