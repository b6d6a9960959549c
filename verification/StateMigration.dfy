/** src/def-state-migration.ts: moving tickets off the states a new workflow definition removes. */
module StateMigration {
  import opened Prelude
  import opened Text
  import opened Labels

  datatype Def = Def(id: string, states: seq<string>, migrations: map<string, string>, strandAcknowledged: seq<string>)

  datatype Plan = Plan(fromState: string, toState: string)

  function PlanDefStateMigration(labels: seq<string>, def: Def): Option<Plan> {
    var from := CurrentState(labels);
    if !Truthy(WorkflowId(labels)) || !Truthy(from) then None
    else if from.value in def.states then None
    else if !Truthy(Lookup(def.migrations, from.value)) then None
    else Some(Plan(from.value, def.migrations[from.value]))
  }

  // ---- Validation ----

  predicate Covered(removed: string, next: Def) {
    removed in next.states || removed in next.migrations || removed in next.strandAcknowledged
  }

  function Uncovered(previous: seq<string>, next: Def): seq<string> {
    if previous == [] then []
    else
      var s := previous[|previous| - 1];
      Uncovered(previous[..|previous| - 1], next) + (if Covered(s, next) then [] else [s])
  }

  /** One error per removed state, named by the state. */
  method ValidateDefStateRemovals(previous: seq<string>, next: Def) returns (errors: seq<string>)
    ensures errors == Uncovered(previous, next)
  {
    errors := [];
    for i := 0 to |previous|
      invariant errors == Uncovered(previous[..i], next)
    {
      var removed := previous[i];
      assert previous[..i + 1][..i] == previous[..i];
      if removed in next.states { continue; }
      if removed in next.migrations || removed in next.strandAcknowledged { continue; }
      errors := errors + [removed];
    }
    assert previous[..|previous|] == previous;
  }

  lemma {:induction false} ErrorsExactly(previous: seq<string>, next: Def, s: string)
    ensures s in Uncovered(previous, next) <==> s in previous && !Covered(s, next)
  {
    if previous != [] {
      ErrorsExactly(previous[..|previous| - 1], next, s);
      assert previous == previous[..|previous| - 1] + [previous[|previous| - 1]];
    }
  }

  // ---- The label swap ----

  /** Every label but the defunct one is kept; the target's is added unless it is there. */
  function Swapped(labels: seq<string>, p: Plan): seq<string> {
    var kept := Without(labels, StateLabel(p.fromState));
    if StateLabel(p.toState) in kept then kept else kept + [StateLabel(p.toState)]
  }

  datatype SwapAnswer = Accepted | Refused | Threw

  /** What one ticket's writes are answered with. */
  datatype Answer = Answer(labelResolves: bool, swap: SwapAnswer, wakeThrows: bool) {
    predicate Swaps() {
      labelResolves && swap == Accepted
    }

    /** A refused swap is only emitted as an event; the other failures are errors of the sweep. */
    function Errors(): nat {
      if !labelResolves || swap == Threw then 1
      else if swap == Refused then 0
      else if wakeThrows then 1 else 0
    }
  }

  function MigrateTicket(labels: seq<string>, def: Def, a: Answer): seq<string> {
    match PlanDefStateMigration(labels, def)
    case None => labels
    case Some(p) => if a.Swaps() then Swapped(labels, p) else labels
  }

  datatype Migrated = Migrated(ticket: string, plan: Plan)

  function DefOf(registry: map<string, Def>, labels: seq<string>): Option<Def> {
    if Truthy(WorkflowId(labels)) then Lookup(registry, WorkflowId(labels).value) else None
  }

  function MigratedBy(registry: map<string, Def>, id: string, labels: seq<string>, a: Answer): seq<Migrated> {
    match DefOf(registry, labels)
    case None => []
    case Some(def) =>
      match PlanDefStateMigration(labels, def)
      case None => []
      case Some(p) => if a.Swaps() then [Migrated(id, p)] else []
  }

  function ErrorsOn(registry: map<string, Def>, labels: seq<string>, a: Answer): nat {
    match DefOf(registry, labels)
    case None => 0
    case Some(def) => if PlanDefStateMigration(labels, def).Some? then a.Errors() else 0
  }

  function AllErrors(registry: map<string, Def>, ids: seq<string>, tickets: map<string, seq<string>>, answers: map<string, Answer>): nat
    requires forall id :: id in ids ==> id in tickets && id in answers
  {
    if ids == [] then 0
    else
      var id := ids[|ids| - 1];
      AllErrors(registry, ids[..|ids| - 1], tickets, answers) + ErrorsOn(registry, tickets[id], answers[id])
  }

  function LabelsAfter(registry: map<string, Def>, labels: seq<string>, a: Answer): seq<string> {
    match DefOf(registry, labels)
    case None => labels
    case Some(def) => MigrateTicket(labels, def, a)
  }

  function AllMigrated(registry: map<string, Def>, ids: seq<string>, tickets: map<string, seq<string>>, answers: map<string, Answer>): seq<Migrated>
    requires forall id :: id in ids ==> id in tickets && id in answers
  {
    if ids == [] then []
    else
      var id := ids[|ids| - 1];
      AllMigrated(registry, ids[..|ids| - 1], tickets, answers) + MigratedBy(registry, id, tickets[id], answers[id])
  }

  function AllLabels(registry: map<string, Def>, ids: seq<string>, tickets: map<string, seq<string>>, answers: map<string, Answer>): map<string, seq<string>>
    requires forall id :: id in ids ==> id in tickets && id in answers
  {
    if ids == [] then tickets
    else
      var id := ids[|ids| - 1];
      AllLabels(registry, ids[..|ids| - 1], tickets, answers)[id := LabelsAfter(registry, tickets[id], answers[id])]
  }

  class Tickets {
    var labels: map<string, seq<string>>

    constructor (labels: map<string, seq<string>>)
      ensures this.labels == labels
    {
      this.labels := labels;
    }

    /** The sweep over the governed tickets a query returned. */
    method RunDefStateMigrationSweep(registry: map<string, Def>, ids: seq<string>, answers: map<string, Answer>)
      returns (migrated: seq<Migrated>, errors: nat)
      requires NoDup(ids) && forall id :: id in ids ==> id in labels && id in answers
      modifies this
      ensures labels == AllLabels(registry, ids, old(labels), answers)
      ensures migrated == AllMigrated(registry, ids, old(labels), answers)
      ensures errors == AllErrors(registry, ids, old(labels), answers)
    {
      hide LabelsAfter, MigratedBy, ErrorsOn;
      migrated, errors := [], 0;
      for i := 0 to |ids|
        invariant labels == AllLabels(registry, ids[..i], old(labels), answers)
        invariant migrated == AllMigrated(registry, ids[..i], old(labels), answers)
        invariant errors == AllErrors(registry, ids[..i], old(labels), answers)
      {
        var id := ids[i];
        assert ids[..i + 1][..i] == ids[..i];
        UntouchedLabels(registry, ids[..i], old(labels), answers, id);
        var next, done, failed := MigrateOne(registry, id, labels[id], answers[id]);
        labels := labels[id := next];
        migrated := migrated + done;
        errors := errors + failed;
      }
      assert ids[..|ids|] == ids;
    }
  }

  lemma {:induction false} UntouchedLabels(registry: map<string, Def>, ids: seq<string>, tickets: map<string, seq<string>>, answers: map<string, Answer>, id: string)
    requires (forall x :: x in ids ==> x in tickets && x in answers) && id !in ids && id in tickets
    ensures id in AllLabels(registry, ids, tickets, answers) && AllLabels(registry, ids, tickets, answers)[id] == tickets[id]
  {
    hide LabelsAfter;
    if ids != [] {
      UntouchedLabels(registry, ids[..|ids| - 1], tickets, answers, id);
    }
  }

  /** The sweep changes each listed ticket by its own migration and no other ticket. */
  lemma {:induction false} SweepIsPerTicket(registry: map<string, Def>, ids: seq<string>, tickets: map<string, seq<string>>, answers: map<string, Answer>, id: string)
    requires NoDup(ids) && (forall x :: x in ids ==> x in tickets && x in answers) && id in tickets
    ensures id in AllLabels(registry, ids, tickets, answers)
    ensures AllLabels(registry, ids, tickets, answers)[id] == if id in ids then LabelsAfter(registry, tickets[id], answers[id]) else tickets[id]
  {
    hide LabelsAfter;
    if id !in ids {
      UntouchedLabels(registry, ids, tickets, answers, id);
    } else if ids[|ids| - 1] != id {
      assert ids == ids[..|ids| - 1] + [ids[|ids| - 1]];
      SweepIsPerTicket(registry, ids[..|ids| - 1], tickets, answers, id);
    }
  }

  /** The body of the loop; an unchanged ticket keeps its labels. */
  method MigrateOne(registry: map<string, Def>, id: string, labels: seq<string>, a: Answer)
    returns (next: seq<string>, migrated: seq<Migrated>, errors: nat)
    ensures next == LabelsAfter(registry, labels, a)
    ensures migrated == MigratedBy(registry, id, labels, a)
    ensures errors == ErrorsOn(registry, labels, a)
  {
    hide PlanDefStateMigration, Swapped;
    next, migrated, errors := labels, [], 0;
    var def := DefOf(registry, labels);
    if def.None? { return; }
    var plan := PlanDefStateMigration(labels, def.value);
    if plan.None? { return; }
    if !a.labelResolves {
      errors := 1;
      return;
    }
    if a.swap != Accepted {
      errors := if a.swap == Threw then 1 else 0;
      return;
    }
    next, migrated := Swapped(labels, plan.value), [Migrated(id, plan.value)];
    if a.wakeThrows {
      errors := 1;
    }
  }

  // ---- Where migrated tickets end up ----

  function StateLabels(labels: seq<string>): seq<string> {
    if labels == [] then [] else (if StartsWithFolded(labels[0], "state:") then [labels[0]] else []) + StateLabels(labels[1..])
  }

  lemma {:induction false} FirstStateLabel(labels: seq<string>)
    ensures FirstWithPrefix(labels, "state:") == if StateLabels(labels) == [] then None else Some(StateLabels(labels)[0])
  {
    if labels != [] {
      FirstStateLabel(labels[1..]);
    }
  }

  lemma {:induction false} StateLabelsOfSum(a: seq<string>, b: seq<string>)
    ensures StateLabels(a + b) == StateLabels(a) + StateLabels(b)
  {
    if a == [] {
      assert a + b == b;
    } else {
      assert (a + b)[1..] == a[1..] + b;
      StateLabelsOfSum(a[1..], b);
    }
  }

  lemma WithoutHead(h: string, t: seq<string>, l: string)
    ensures Without([h] + t, l) == (if h == l then [] else [h]) + Without(t, l)
  {
    assert ([h] + t)[1..] == t;
  }

  lemma {:induction false} StateLabelsWithout(labels: seq<string>, l: string)
    ensures StateLabels(Without(labels, l)) == Without(StateLabels(labels), l)
  {
    hide StartsWithFolded;
    if labels != [] {
      var h, t := labels[0], labels[1..];
      StateLabelsWithout(t, l);
      assert [h] + t == labels;
      WithoutHead(h, t, l);
      WithoutHead(h, StateLabels(t), l);
      assert ([h] + Without(t, l))[1..] == Without(t, l);
      assert [] + StateLabels(t) == StateLabels(t) && [] + Without(t, l) == Without(t, l);
    }
  }

  lemma {:induction false} WorkflowLabelStaysWithout(labels: seq<string>, l: string)
    requires !StartsWithFolded(l, "wf:")
    ensures FirstWithPrefix(Without(labels, l), "wf:") == FirstWithPrefix(labels, "wf:")
  {
    hide StartsWithFolded;
    if labels != [] {
      var h, t := labels[0], labels[1..];
      WorkflowLabelStaysWithout(t, l);
      assert [h] + t == labels;
      WithoutHead(h, t, l);
      assert ([h] + Without(t, l))[1..] == Without(t, l);
      assert [] + Without(t, l) == Without(t, l);
    }
  }

  lemma {:induction false} WorkflowLabelStaysWith(labels: seq<string>, l: string)
    requires !StartsWithFolded(l, "wf:")
    ensures FirstWithPrefix(labels + [l], "wf:") == FirstWithPrefix(labels, "wf:")
  {
    hide StartsWithFolded;
    if labels == [] {
      assert labels + [l] == [l];
    } else {
      assert (labels + [l])[1..] == labels[1..] + [l];
      WorkflowLabelStaysWith(labels[1..], l);
    }
  }

  lemma StateLabelReads(s: string)
    ensures StartsWithFolded(StateLabel(s), "state:") && !StartsWithFolded(StateLabel(s), "wf:") && StateLabels([StateLabel(s)]) == [StateLabel(s)]
    ensures StateOf(StateLabel(s)) == Lower(s)
  {
    var l := StateLabel(s);
    assert l[..6] == "state:" && l[6..] == s && l[0] == 's';
    assert Lower(l[..6]) == "state:";
    assert Lower(l[..3])[0] == 's';
    var one := [l];
    assert one[1..] == [] && one == [l];
  }

  /** The state a state label names, whatever its letter case. */
  function StateOf(l: string): string {
    if |l| >= 6 then Lower(l[6..]) else ""
  }

  /** The spelling the sweep takes off. */
  predicate Canonical(l: string) {
    l == StateLabel(StateOf(l))
  }

  /** The plan for a ticket in a state. */
  function PlanFor(def: Def, s: string): Option<Plan> {
    if s == "" || s in def.states || !Truthy(Lookup(def.migrations, s)) then None else Some(Plan(s, def.migrations[s]))
  }

  lemma {:induction false} StateLabelsAreState(labels: seq<string>)
    ensures forall l :: l in StateLabels(labels) <==> l in labels && StartsWithFolded(l, "state:")
  {
    if labels != [] {
      StateLabelsAreState(labels[1..]);
    }
  }

  lemma FirstStateReads(labels: seq<string>, l: string)
    requires StateLabels(labels) != [] && StateLabels(labels)[0] == l
    ensures |l| >= 6 && StartsWithFolded(l, "state:") && CurrentState(labels) == Some(StateOf(l))
    ensures forall def :: Truthy(WorkflowId(labels)) ==> PlanDefStateMigration(labels, def) == PlanFor(def, StateOf(l))
  {
    FirstStateLabel(labels);
    StateLabelsAreState(labels);
  }

  /** The state label a ticket reads by after one successful sweep. */
  function NextLabel(def: Def, l: string): string {
    var p := PlanFor(def, StateOf(l));
    if p.None? || !Canonical(l) then l else StateLabel(p.value.toState)
  }

  /** The ticket reads by state label `l`; a label the sweep cannot take off has its target beside it. */
  predicate ReadsBy(labels: seq<string>, def: Def, l: string) {
    var p := PlanFor(def, StateOf(l));
    && Truthy(WorkflowId(labels))
    && (StateLabels(labels) == [l] || (p.Some? && !Canonical(l) && StateLabels(labels) == [l, StateLabel(p.value.toState)]))
  }

  function Swept(labels: seq<string>, def: Def): seq<string> {
    match PlanDefStateMigration(labels, def)
    case None => labels
    case Some(p) => Swapped(labels, p)
  }

  predicate SameOtherLabels(a: seq<string>, b: seq<string>) {
    && (forall l :: l in a && !StartsWithFolded(l, "state:") ==> l in b)
    && (forall l :: l in b && !StartsWithFolded(l, "state:") ==> l in a)
  }

  lemma SwapKeepsOthers(labels: seq<string>, p: Plan)
    ensures SameOtherLabels(labels, Swapped(labels, p)) && WorkflowId(Swapped(labels, p)) == WorkflowId(labels)
  {
    hide StartsWithFolded, Lower, StateLabel;
    var from, to := StateLabel(p.fromState), StateLabel(p.toState);
    StateLabelReads(p.fromState);
    StateLabelReads(p.toState);
    WorkflowLabelStaysWithout(labels, from);
    WorkflowLabelStaysWith(Without(labels, from), to);
  }

  /** The state labels after a swap: the defunct spelling goes, the target comes last unless it was there. */
  lemma SwapStateLabels(labels: seq<string>, p: Plan)
    ensures var kept := Without(StateLabels(labels), StateLabel(p.fromState));
            StateLabels(Swapped(labels, p)) == if StateLabel(p.toState) in kept then kept else kept + [StateLabel(p.toState)]
  {
    hide StartsWithFolded, Lower, StateLabel;
    var from, to := StateLabel(p.fromState), StateLabel(p.toState);
    StateLabelReads(p.toState);
    StateLabelsWithout(labels, from);
    StateLabelsAreState(Without(labels, from));
    StateLabelsOfSum(Without(labels, from), [to]);
  }

  lemma WithoutPair(a: string, b: string, l: string)
    ensures Without([a], l) == if a == l then [] else [a]
    ensures Without([a, b], l) == (if a == l then [] else [a]) + (if b == l then [] else [b])
  {
    var none: seq<string> := [];
    WithoutHead(b, none, l);
    WithoutHead(a, none, l);
    WithoutHead(a, [b], l);
    assert [b] + none == [b] && [a] + none == [a] && [a] + [b] == [a, b];
  }

  /** One successful sweep moves the ticket to the next label and keeps everything else. */
  lemma SweepMovesOn(labels: seq<string>, def: Def, l: string)
    requires ReadsBy(labels, def, l)
    ensures ReadsBy(Swept(labels, def), def, NextLabel(def, l)) && SameOtherLabels(labels, Swept(labels, def))
    ensures Canonical(l) ==> StateLabels(Swept(labels, def)) == [NextLabel(def, l)]
  {
    hide StartsWithFolded, Lower, StateLabel, WorkflowId, CurrentState, StateLabels, PlanDefStateMigration, Swapped;
    FirstStateReads(labels, l);
    var p := PlanFor(def, StateOf(l));
    if p.Some? {
      var to := StateLabel(p.value.toState);
      SwapKeepsOthers(labels, p.value);
      SwapStateLabels(labels, p.value);
      WithoutPair(l, to, StateLabel(p.value.fromState));
      assert [] + [to] == [to] && [l] + [to] == [l, to] && [l] + [] == [l];
    }
  }

  function Sweeps(labels: seq<string>, def: Def, n: nat): seq<string> {
    if n == 0 then labels else Swept(Sweeps(labels, def, n - 1), def)
  }

  /** The chain of labels a mapping leads along. */
  function After(def: Def, l: string, n: nat): string {
    if n == 0 then l else NextLabel(def, After(def, l, n - 1))
  }

  /** After any number of successful sweeps a ticket stands where the chain of its label leads, its other labels kept. */
  lemma {:induction false} SweepsFollowTheChain(labels: seq<string>, def: Def, l: string, n: nat)
    requires StateLabels(labels) == [l] && Truthy(WorkflowId(labels))
    ensures var r := Sweeps(labels, def, n);
            && ReadsBy(r, def, After(def, l, n)) && SameOtherLabels(labels, r)
            && CurrentState(r) == Some(StateOf(After(def, l, n)))
            && PlanDefStateMigration(r, def) == PlanFor(def, StateOf(After(def, l, n)))
    decreases n
  {
    hide StartsWithFolded, StateOf, PlanFor, NextLabel, Swept, StateLabels, PlanDefStateMigration, CurrentState;
    if n > 0 {
      SweepsFollowTheChain(labels, def, l, n - 1);
      SweepMovesOn(Sweeps(labels, def, n - 1), def, After(def, l, n - 1));
    }
    FirstStateReads(Sweeps(labels, def, n), After(def, l, n));
  }

  /** Every mapping target names a state of the definition, as the sweep reads it. */
  predicate TargetsLive(def: Def) {
    forall s :: s in def.migrations ==> def.migrations[s] != "" && Lower(def.migrations[s]) in def.states
  }

  /**
   * An accepted definition: a ticket with one state label, naming a state of the old definition, ends one successful
   * sweep on a live state or an acknowledged strand, with one state label and all its other labels, and a second sweep
   * has nothing to migrate.
   */
  lemma MigrationComesToRest(labels: seq<string>, previous: seq<string>, def: Def, s: string, a: Answer, b: Answer)
    requires Uncovered(previous, def) == [] && TargetsLive(def) && a.Swaps()
    requires s in previous && s != "" && Lower(s) == s && StateLabels(labels) == [StateLabel(s)] && Truthy(WorkflowId(labels))
    ensures var r := MigrateTicket(labels, def, a);
            && CurrentState(r).Some? && |StateLabels(r)| == 1
            && (CurrentState(r).value in def.states || (CurrentState(r).value in def.strandAcknowledged && r == labels))
            && SameOtherLabels(labels, r)
            && PlanDefStateMigration(r, def) == None && MigrateTicket(r, def, b) == r
  {
    hide StartsWithFolded, Lower, StateLabels, WorkflowId, CurrentState, Swapped, StateLabel, PlanDefStateMigration;
    var l := StateLabel(s);
    StateLabelReads(s);
    ErrorsExactly(previous, def, s);
    FirstStateReads(labels, l);
    SweepMovesOn(labels, def, l);
    var r := Swept(labels, def);
    FirstStateReads(r, NextLabel(def, l));
    if PlanFor(def, s).Some? {
      StateLabelReads(PlanFor(def, s).value.toState);
    }
  }

  /** The second sweep has nothing to do exactly when the label was in the lower case the sweep takes off and its target needs no migration. */
  lemma SecondSweepIsIdleExactly(labels: seq<string>, def: Def, l: string)
    requires StateLabels(labels) == [l] && Truthy(WorkflowId(labels)) && PlanDefStateMigration(labels, def).Some?
    ensures var p := PlanDefStateMigration(labels, def).value;
            PlanDefStateMigration(Swapped(labels, p), def) == None <==> Canonical(l) && PlanFor(def, Lower(p.toState)) == None
  {
    hide StartsWithFolded, Lower, StateLabels, WorkflowId, CurrentState, Swapped, StateLabel, PlanDefStateMigration;
    FirstStateReads(labels, l);
    SweepMovesOn(labels, def, l);
    FirstStateReads(Swept(labels, def), NextLabel(def, l));
    StateLabelReads(PlanFor(def, StateOf(l)).value.toState);
  }

  /** A label in any other spelling is migrated by the same plan in every sweep. */
  lemma {:induction false} OtherSpellingMigratesForever(labels: seq<string>, def: Def, l: string, n: nat)
    requires StateLabels(labels) == [l] && Truthy(WorkflowId(labels)) && PlanDefStateMigration(labels, def).Some? && !Canonical(l)
    ensures PlanDefStateMigration(Sweeps(labels, def, n), def) == PlanDefStateMigration(labels, def)
  {
    hide StartsWithFolded, StateOf, PlanFor, Canonical, Sweeps, StateLabels, PlanDefStateMigration, WorkflowId;
    FirstStateReads(labels, l);
    StaysOnLabel(def, l, n);
    SweepsFollowTheChain(labels, def, l, n);
  }

  lemma {:induction false} StaysOnLabel(def: Def, l: string, n: nat)
    requires NextLabel(def, l) == l
    ensures After(def, l, n) == l
  {
    if n > 0 {
      StaysOnLabel(def, l, n - 1);
    }
  }

  // ---- Strands that validation lets through ----

  /** Neither a state of the definition nor an acknowledged strand. */
  predicate Lost(def: Def, s: string) {
    s !in def.states && s !in def.strandAcknowledged
  }

  /**
   * Validation looks at the mapping's keys only. A ticket in a removed, unacknowledged state that it accepts stands, after
   * a successful sweep, on neither a live nor an acknowledged state exactly when its mapping names no target, or one that
   * is neither.
   */
  lemma SilentStrandExactly(labels: seq<string>, previous: seq<string>, def: Def, s: string)
    requires Uncovered(previous, def) == [] && s in previous && s != "" && Lower(s) == s && Lost(def, s)
    requires StateLabels(labels) == [StateLabel(s)] && Truthy(WorkflowId(labels))
    ensures s in def.migrations && CurrentState(Swept(labels, def)).Some?
    ensures Lost(def, CurrentState(Swept(labels, def)).value) <==> def.migrations[s] == "" || Lost(def, Lower(def.migrations[s]))
  {
    hide StartsWithFolded, Lower, StateLabels, WorkflowId, CurrentState, Swapped, StateLabel, PlanDefStateMigration;
    var l := StateLabel(s);
    StateLabelReads(s);
    ErrorsExactly(previous, def, s);
    FirstStateReads(labels, l);
    SweepMovesOn(labels, def, l);
    FirstStateReads(Swept(labels, def), NextLabel(def, l));
    if PlanFor(def, s).Some? {
      StateLabelReads(PlanFor(def, s).value.toState);
    }
  }

  /** A mapping to a state the definition does not have: accepted, swept, stranded and left there. */
  lemma GhostTargetExample(labels: seq<string>)
    requires StateLabels(labels) == ["state:old"] && Truthy(WorkflowId(labels))
    ensures var def := Def("w", ["new"], map["old" := "ghost"], []);
            && Uncovered(["old"], def) == [] && CurrentState(Swept(labels, def)) == Some("ghost") && Lost(def, "ghost")
            && PlanDefStateMigration(Swept(labels, def), def) == None
  {
    hide StartsWithFolded, StateLabels, WorkflowId, CurrentState, Swapped, PlanDefStateMigration;
    var def := Def("w", ["new"], map["old" := "ghost"], []);
    var previous := ["old"];
    assert previous[..0] == [];
    StateLabelReads("old");
    StateLabelReads("ghost");
    assert Lower("old") == "old" && Lower("ghost") == "ghost" && StateLabel("old") == "state:old";
    assert |"ghost"| == 5 && |"new"| == 3 && "old"[0] == 'o' && "new"[0] == 'n';
    FirstStateReads(labels, "state:old");
    SweepMovesOn(labels, def, "state:old");
    FirstStateReads(Swept(labels, def), NextLabel(def, "state:old"));
  }

  lemma {:induction false} AfterAfter(def: Def, l: string, m: nat, n: nat)
    ensures After(def, After(def, l, m), n) == After(def, l, m + n)
    decreases n
  {
    hide NextLabel;
    if n > 0 {
      AfterAfter(def, l, m, n - 1);
    }
  }

  /** While the chain moves it stands on mapped states in canonical spelling. */
  lemma MovingIsMapped(def: Def, l: string)
    requires NextLabel(def, l) != l
    ensures StateOf(l) in def.migrations && l == StateLabel(StateOf(l))
  {
  }

  /** A chain that has not come to a standstill within as many sweeps as there are mappings has closed a cycle. */
  lemma ChainRepeats(def: Def, l: string)
    ensures exists i: nat, j: nat :: i < j <= |def.migrations| + 1 && After(def, l, i) == After(def, l, j)
  {
    hide NextLabel, StateOf, StateLabel;
    var n: nat := |def.migrations|;
    if i: nat :| i <= n && NextLabel(def, After(def, l, i)) == After(def, l, i) {
      assert After(def, l, i + 1) == After(def, l, i);
    } else {
      var states := seq(n + 1, i requires 0 <= i <= n => StateOf(After(def, l, i)));
      forall i | 0 <= i <= n
        ensures states[i] in def.migrations.Keys && After(def, l, i) == StateLabel(states[i])
      {
        MovingIsMapped(def, After(def, l, i));
      }
      if NoDup(states) {
        NoDupBounded(states, def.migrations.Keys);
        assert false;
      }
      var i, j :| 0 <= i < j <= n && states[i] == states[j];
      assert After(def, l, i) == After(def, l, j);
    }
  }

  /** So every label of the chain is among its first ones. */
  lemma {:induction false} ChainIsShort(def: Def, l: string, n: nat) returns (m: nat)
    ensures m <= |def.migrations| && After(def, l, m) == After(def, l, n)
    decreases n
  {
    hide NextLabel;
    if n <= |def.migrations| {
      m := n;
    } else {
      ChainRepeats(def, l);
      var i: nat, j: nat :| i < j <= |def.migrations| + 1 && After(def, l, i) == After(def, l, j);
      AfterAfter(def, l, j, n - j);
      AfterAfter(def, l, i, n - j);
      m := ChainIsShort(def, l, i + (n - j));
    }
  }

  predicate LostAfter(labels: seq<string>, def: Def, n: nat) {
    Lost(def, CurrentState(Sweeps(labels, def, n)).GetOr(""))
  }

  predicate LostOnChain(def: Def, l: string, n: nat) {
    Lost(def, StateOf(After(def, l, n)))
  }

  /**
   * Mappings may lead to mapped states again. A ticket never reaches a live or an acknowledged state, however many
   * successful sweeps run, exactly when none of the first labels of its chain, no more than there are mappings, names one.
   */
  lemma StrandedForeverExactly(labels: seq<string>, def: Def, l: string)
    requires StateLabels(labels) == [l] && Truthy(WorkflowId(labels))
    ensures (forall n: nat :: LostAfter(labels, def, n)) <==> forall n: nat :: n <= |def.migrations| ==> LostOnChain(def, l, n)
  {
    hide StartsWithFolded, StateOf, Sweeps, After, StateLabels, WorkflowId, CurrentState, PlanDefStateMigration, ReadsBy, Lost;
    forall n: nat
      ensures LostAfter(labels, def, n) == LostOnChain(def, l, n)
    {
      SweepsFollowTheChain(labels, def, l, n);
    }
    if forall n: nat :: n <= |def.migrations| ==> LostOnChain(def, l, n) {
      forall n: nat
        ensures LostAfter(labels, def, n)
      {
        var m := ChainIsShort(def, l, n);
        assert LostOnChain(def, l, m);
      }
    }
  }
}
