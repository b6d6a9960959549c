/** src/conformance-matrix.ts: the table of gate outcomes expected for every state, command, caller and stake. */
module ConformanceMatrix {
  import opened Prelude

  datatype CallerKind = Delegate | NonDelegateSameRole | WrongRole | Steward | Human

  datatype Body = Body(id: string, container: string, fillsRoles: seq<string>)

  datatype Policy = Policy(containers: seq<(string, seq<string>)>, bodies: seq<Body>)

  datatype Transition = Transition(
    command: string, requiresCapability: Option<string>, designatedApprover: bool, signoffAboveStakes: bool)

  datatype StateNode = StateNode(id: string, ownerRole: Option<string>, transitions: seq<Transition>)

  datatype Stakes = Stakes(levels: map<string, int>, threshold: int)

  datatype Def = Def(states: seq<StateNode>, breakGlassCommand: Option<string>, breakGlassOwner: Option<string>, stakes: Option<Stakes>)

  datatype CallerSpec = CallerSpec(bodyId: string, linearUserId: Option<string>, delegateLinearUserId: Option<string>)

  datatype BlockReason = WrongState | CapMissing(capability: string) | WrongDelegate | HumanSignoff | UnknownCaller | WrongOwnerRole

  datatype Outcome = Allow | Block(reason: BlockReason)

  datatype Cell = Cell(
    state: string, command: string, kind: CallerKind, caller: CallerSpec, stakeLabel: Option<string>, expected: Outcome,
    legalCommands: seq<string>)

  const HUMAN_BODY_ID := "human-user"
  const BREAK_GLASS_CAPABILITY := "workflow:break-glass"
  const STAKE_LABELS: seq<Option<string>> := [None, Some("stakes:low"), Some("stakes:medium"), Some("stakes:high")]
  const CALLER_KINDS := [Delegate, NonDelegateSameRole, WrongRole, Steward, Human]

  // ---- Policy lookups ----

  function BodiesForRole(bodies: seq<Body>, role: string): seq<string> {
    if bodies == [] then []
    else (if role in bodies[0].fillsRoles then [bodies[0].id] else []) + BodiesForRole(bodies[1..], role)
  }

  function FindBody(bodies: seq<Body>, p: Body -> bool): (r: Option<Body>)
    ensures r.Some? ==> r.value in bodies && p(r.value)
    ensures r.None? <==> forall b :: b in bodies ==> !p(b)
  {
    if bodies == [] then None else if p(bodies[0]) then Some(bodies[0]) else FindBody(bodies[1..], p)
  }

  function GrantsOf(containers: seq<(string, seq<string>)>, id: string): seq<string> {
    if containers == [] then [] else if containers[0].0 == id then containers[0].1 else GrantsOf(containers[1..], id)
  }

  predicate BodyHasCap(policy: Policy, id: string, capability: string) {
    var b := FindBody(policy.bodies, (b: Body) => b.id == id);
    b.Some? && capability in GrantsOf(policy.containers, b.value.container)
  }

  predicate IsKnownBody(policy: Policy, id: string) {
    exists b :: b in policy.bodies && b.id == id
  }

  function IdOf(b: Option<Body>): Option<string> {
    if b.Some? then Some(b.value.id) else None
  }

  function FirstBody(policy: Policy): Option<string> {
    if policy.bodies == [] then None else Some(policy.bodies[0].id)
  }

  function FindStewardBody(policy: Policy): Option<string> {
    var stewards := BodiesForRole(policy.bodies, "steward");
    var gateway := FindBody(policy.bodies, (b: Body) => BREAK_GLASS_CAPABILITY in GrantsOf(policy.containers, b.container));
    if stewards != [] then Some(stewards[0]) else if gateway.Some? then Some(gateway.value.id) else FirstBody(policy)
  }

  function LinearUserId(bodyId: string): string {
    bodyId + "-linear"
  }

  /** `None` when no body represents the kind of caller in a state owned by that role. */
  function BuildCallerSpec(policy: Policy, ownerRole: Option<string>, kind: CallerKind): Option<CallerSpec> {
    var roleBodies := if Truthy(ownerRole) then BodiesForRole(policy.bodies, ownerRole.value) else [];
    var delegate := if roleBodies != [] then Some(roleBodies[0]) else FirstBody(policy);
    var delegateUser := if Truthy(delegate) then Some(LinearUserId(delegate.value)) else None;
    match kind
    case Delegate => if Truthy(delegate) then Some(CallerSpec(delegate.value, delegateUser, delegateUser)) else None
    case NonDelegateSameRole =>
      if |roleBodies| < 2 then None else Some(CallerSpec(roleBodies[1], Some(LinearUserId(roleBodies[1])), delegateUser))
    case WrongRole =>
      var wrong := IdOf(if Truthy(ownerRole) then FindBody(policy.bodies, (b: Body) => ownerRole.value !in b.fillsRoles)
                        else FindBody(policy.bodies, (b: Body) => Some(b.id) != delegate));
      if Truthy(wrong) then Some(CallerSpec(wrong.value, Some(LinearUserId(wrong.value)), None)) else None
    case Steward =>
      var steward := FindStewardBody(policy);
      if Truthy(steward) then Some(CallerSpec(steward.value, Some(LinearUserId(steward.value)), delegateUser)) else None
    case Human => Some(CallerSpec(HUMAN_BODY_ID, None, None))
  }

  // ---- The expected outcome ----

  function FindTransition(ts: seq<Transition>, command: string): (r: Option<Transition>)
    ensures r.Some? ==> r.value in ts && r.value.command == command
    ensures r.None? <==> forall t :: t in ts ==> t.command != command
  {
    if ts == [] then None else if ts[0].command == command then Some(ts[0]) else FindTransition(ts[1..], command)
  }

  function StakeLevel(s: Stakes, stakeLabel: Option<string>): int {
    if stakeLabel.Some? && stakeLabel.value in s.levels then s.levels[stakeLabel.value] else 0
  }

  /** The transition asks for a human sign-off at this stake. */
  predicate NeedsSignoff(def: Def, t: Transition, stakeLabel: Option<string>) {
    t.signoffAboveStakes && def.stakes.Some? && StakeLevel(def.stakes.value, stakeLabel) >= def.stakes.value.threshold
  }

  predicate IsSteward(policy: Policy, spec: CallerSpec) {
    Truthy(FindStewardBody(policy)) && spec.bodyId == FindStewardBody(policy).value
  }

  /** Someone else is the delegate, and the caller is not the steward either. */
  predicate WrongCaller(policy: Policy, spec: CallerSpec) {
    && Truthy(spec.delegateLinearUserId) && spec.linearUserId != spec.delegateLinearUserId
    && (Truthy(spec.linearUserId) ==> !IsSteward(policy, spec))
  }

  function BreakGlass(def: Def): string {
    def.breakGlassCommand.GetOr("escape")
  }

  predicate OutsideOwnerRole(def: Def, policy: Policy, st: StateNode, t: Transition, spec: CallerSpec) {
    && t.command != "force-deploy" && !t.designatedApprover && Truthy(st.ownerRole)
    && BodiesForRole(policy.bodies, st.ownerRole.value) != [] && spec.bodyId !in BodiesForRole(policy.bodies, st.ownerRole.value)
    && !(st.ownerRole == def.breakGlassOwner && BodyHasCap(policy, spec.bodyId, BREAK_GLASS_CAPABILITY))
  }

  function ResolveExpected(st: StateNode, command: string, spec: CallerSpec, stakeLabel: Option<string>, def: Def, policy: Policy): Outcome {
    var step := FindTransition(st.transitions, command);
    if !IsKnownBody(policy, spec.bodyId) then
      if step.Some? && NeedsSignoff(def, step.value, stakeLabel) then Allow else Block(UnknownCaller)
    else if command == BreakGlass(def) then
      if Truthy(spec.linearUserId) && WrongCaller(policy, spec) then Block(WrongDelegate) else Allow
    else if WrongCaller(policy, spec) then Block(WrongDelegate)
    else if step.None? then Block(WrongState)
    else if Truthy(step.value.requiresCapability) && !BodyHasCap(policy, spec.bodyId, step.value.requiresCapability.value) then
      Block(CapMissing(step.value.requiresCapability.value))
    else if OutsideOwnerRole(def, policy, st, step.value, spec) then Block(WrongOwnerRole)
    else if NeedsSignoff(def, step.value, stakeLabel) then Block(HumanSignoff)
    else Allow
  }

  // ---- The matrix ----

  function Commands(ts: seq<Transition>): (r: seq<string>)
    ensures |r| == |ts| && forall i :: 0 <= i < |ts| ==> r[i] == ts[i].command
  {
    seq(|ts|, i requires 0 <= i < |ts| => ts[i].command)
  }

  function AddNew(list: seq<string>, more: seq<string>): seq<string>
    decreases |more|
  {
    if more == [] then list else AddNew(if more[0] in list then list else list + [more[0]], more[1..])
  }

  /** Break-glass first, then every command of any state at its first mention. */
  function CommandList(def: Def, states: seq<StateNode>): seq<string> {
    if states == [] then [BreakGlass(def)]
    else AddNew(CommandList(def, states[..|states| - 1]), Commands(states[|states| - 1].transitions))
  }

  function LegalCommands(def: Def, st: StateNode): seq<string> {
    Commands(st.transitions) + [BreakGlass(def)]
  }

  function CellFor(def: Def, policy: Policy, st: StateNode, command: string, kind: CallerKind, spec: CallerSpec, stakeLabel: Option<string>): Cell {
    Cell(st.id, command, kind, spec, stakeLabel, ResolveExpected(st, command, spec, stakeLabel, def, policy), LegalCommands(def, st))
  }

  function StakeCells(def: Def, policy: Policy, st: StateNode, command: string, kind: CallerKind, spec: CallerSpec, labels: seq<Option<string>>): seq<Cell> {
    if labels == [] then []
    else StakeCells(def, policy, st, command, kind, spec, labels[..|labels| - 1]) + [CellFor(def, policy, st, command, kind, spec, labels[|labels| - 1])]
  }

  function KindCells(def: Def, policy: Policy, st: StateNode, command: string, kinds: seq<CallerKind>): seq<Cell> {
    if kinds == [] then []
    else
      var kind := kinds[|kinds| - 1];
      var spec := BuildCallerSpec(policy, st.ownerRole, kind);
      KindCells(def, policy, st, command, kinds[..|kinds| - 1])
      + (if spec.Some? then StakeCells(def, policy, st, command, kind, spec.value, STAKE_LABELS) else [])
  }

  function CommandCells(def: Def, policy: Policy, st: StateNode, commands: seq<string>): seq<Cell> {
    if commands == [] then []
    else CommandCells(def, policy, st, commands[..|commands| - 1]) + KindCells(def, policy, st, commands[|commands| - 1], CALLER_KINDS)
  }

  function Matrix(def: Def, policy: Policy, states: seq<StateNode>, commands: seq<string>): seq<Cell> {
    if states == [] then []
    else Matrix(def, policy, states[..|states| - 1], commands) + CommandCells(def, policy, states[|states| - 1], commands)
  }

  method CollectCommands(def: Def) returns (commands: seq<string>)
    ensures commands == CommandList(def, def.states)
  {
    commands := [BreakGlass(def)];
    for i := 0 to |def.states|
      invariant commands == CommandList(def, def.states[..i])
    {
      var names := Commands(def.states[i].transitions);
      ghost var before := commands;
      for j := 0 to |names|
        invariant AddNew(before, names) == AddNew(commands, names[j..])
      {
        if names[j] !in commands {
          commands := commands + [names[j]];
        }
        assert names[j..][1..] == names[j + 1..];
      }
      assert names[|names|..] == [];
      assert def.states[..i + 1][..i] == def.states[..i];
    }
    assert def.states[..|def.states|] == def.states;
  }

  method BuildConformanceMatrix(def: Def, policy: Policy) returns (cells: seq<Cell>)
    ensures cells == Matrix(def, policy, def.states, CommandList(def, def.states))
  {
    hide BuildCallerSpec, CellFor, CommandList;
    var commands := CollectCommands(def);
    cells := [];
    for i := 0 to |def.states|
      invariant cells == Matrix(def, policy, def.states[..i], commands)
    {
      var st := def.states[i];
      ghost var before := cells;
      for j := 0 to |commands|
        invariant cells == before + CommandCells(def, policy, st, commands[..j])
      {
        assert commands[..j + 1][..j] == commands[..j];
        var row := BuildRow(def, policy, st, commands[j]);
        cells := cells + row;
      }
      assert commands[..|commands|] == commands;
      assert def.states[..i + 1][..i] == def.states[..i];
    }
    assert def.states[..|def.states|] == def.states;
  }

  /** The two inner loops: every kind of caller that has a body, under every stake. */
  method BuildRow(def: Def, policy: Policy, st: StateNode, command: string) returns (cells: seq<Cell>)
    ensures cells == KindCells(def, policy, st, command, CALLER_KINDS)
  {
    hide BuildCallerSpec, CellFor;
    var kinds := CALLER_KINDS;
    cells := [];
    for k := 0 to |kinds|
      invariant cells == KindCells(def, policy, st, command, kinds[..k])
    {
      assert kinds[..k + 1][..k] == kinds[..k];
      var spec := BuildCallerSpec(policy, st.ownerRole, kinds[k]);
      if spec.None? { continue; }
      ghost var before := cells;
      for l := 0 to |STAKE_LABELS|
        invariant cells == before + StakeCells(def, policy, st, command, kinds[k], spec.value, STAKE_LABELS[..l])
      {
        assert STAKE_LABELS[..l + 1][..l] == STAKE_LABELS[..l];
        cells := cells + [CellFor(def, policy, st, command, kinds[k], spec.value, STAKE_LABELS[l])];
      }
      assert STAKE_LABELS[..|STAKE_LABELS|] == STAKE_LABELS;
    }
    assert kinds[..|kinds|] == CALLER_KINDS;
  }

  // ---- Exactly one cell per combination ----

  datatype Key = Key(state: string, command: string, kind: CallerKind, stakeLabel: Option<string>)

  function KeyOf(c: Cell): Key {
    Key(c.state, c.command, c.kind, c.stakeLabel)
  }

  function KeysOf(cells: seq<Cell>): (r: seq<Key>)
    ensures |r| == |cells| && forall i :: 0 <= i < |cells| ==> r[i] == KeyOf(cells[i])
  {
    seq(|cells|, i requires 0 <= i < |cells| => KeyOf(cells[i]))
  }

  lemma DistinctSum(a: seq<Cell>, b: seq<Cell>)
    requires NoDup(KeysOf(a)) && NoDup(KeysOf(b))
    requires forall x, y :: x in a && y in b ==> KeyOf(x) != KeyOf(y)
    ensures NoDup(KeysOf(a + b))
  {
    hide KeyOf;
  }

  /** The cells for one command in one state. */
  predicate RowCell(def: Def, policy: Policy, st: StateNode, command: string, c: Cell) {
    var spec := BuildCallerSpec(policy, st.ownerRole, c.kind);
    spec.Some? && c.stakeLabel in STAKE_LABELS && c == CellFor(def, policy, st, command, c.kind, spec.value, c.stakeLabel)
  }

  lemma {:induction false} StakeCellsExactly(
      def: Def, policy: Policy, st: StateNode, command: string, kind: CallerKind, spec: CallerSpec, labels: seq<Option<string>>, c: Cell)
    ensures c in StakeCells(def, policy, st, command, kind, spec, labels) <==>
              c.stakeLabel in labels && c == CellFor(def, policy, st, command, kind, spec, c.stakeLabel)
  {
    hide ResolveExpected, LegalCommands;
    if labels != [] {
      StakeCellsExactly(def, policy, st, command, kind, spec, labels[..|labels| - 1], c);
      assert labels == labels[..|labels| - 1] + [labels[|labels| - 1]];
    }
  }

  lemma {:induction false} StakeCellsDistinct(
      def: Def, policy: Policy, st: StateNode, command: string, kind: CallerKind, spec: CallerSpec, labels: seq<Option<string>>)
    requires NoDup(labels)
    ensures NoDup(KeysOf(StakeCells(def, policy, st, command, kind, spec, labels)))
    ensures |StakeCells(def, policy, st, command, kind, spec, labels)| == |labels|
  {
    hide ResolveExpected, LegalCommands;
    if labels != [] {
      var last := labels[|labels| - 1];
      var a, b := StakeCells(def, policy, st, command, kind, spec, labels[..|labels| - 1]), [CellFor(def, policy, st, command, kind, spec, last)];
      StakeCellsDistinct(def, policy, st, command, kind, spec, labels[..|labels| - 1]);
      forall x, y | x in a && y in b
        ensures KeyOf(x) != KeyOf(y)
      {
        StakeCellsExactly(def, policy, st, command, kind, spec, labels[..|labels| - 1], x);
      }
      DistinctSum(a, b);
    }
  }

  lemma {:induction false} KindCellsExactly(def: Def, policy: Policy, st: StateNode, command: string, kinds: seq<CallerKind>, c: Cell)
    ensures c in KindCells(def, policy, st, command, kinds) <==> c.kind in kinds && RowCell(def, policy, st, command, c)
  {
    hide BuildCallerSpec, ResolveExpected, LegalCommands, STAKE_LABELS;
    if kinds != [] {
      var kind := kinds[|kinds| - 1];
      KindCellsExactly(def, policy, st, command, kinds[..|kinds| - 1], c);
      assert kinds == kinds[..|kinds| - 1] + [kind];
      var spec := BuildCallerSpec(policy, st.ownerRole, kind);
      if spec.Some? {
        StakeCellsExactly(def, policy, st, command, kind, spec.value, STAKE_LABELS, c);
      }
    }
  }

  /** How many kinds of caller have a body in a state. */
  function Represented(policy: Policy, st: StateNode, kinds: seq<CallerKind>): nat {
    if kinds == [] then 0
    else Represented(policy, st, kinds[..|kinds| - 1]) + (if BuildCallerSpec(policy, st.ownerRole, kinds[|kinds| - 1]).Some? then 1 else 0)
  }

  lemma {:induction false} KindCellsDistinct(def: Def, policy: Policy, st: StateNode, command: string, kinds: seq<CallerKind>)
    requires NoDup(kinds)
    ensures NoDup(KeysOf(KindCells(def, policy, st, command, kinds)))
    ensures |KindCells(def, policy, st, command, kinds)| == 4 * Represented(policy, st, kinds)
  {
    hide BuildCallerSpec, ResolveExpected, LegalCommands, STAKE_LABELS;
    if kinds != [] {
      var kind := kinds[|kinds| - 1];
      var spec := BuildCallerSpec(policy, st.ownerRole, kind);
      KindCellsDistinct(def, policy, st, command, kinds[..|kinds| - 1]);
      if spec.Some? {
        var a, b := KindCells(def, policy, st, command, kinds[..|kinds| - 1]), StakeCells(def, policy, st, command, kind, spec.value, STAKE_LABELS);
        StakeLabelsAreFour();
        StakeCellsDistinct(def, policy, st, command, kind, spec.value, STAKE_LABELS);
        forall x, y | x in a && y in b
          ensures KeyOf(x) != KeyOf(y)
        {
          KindCellsExactly(def, policy, st, command, kinds[..|kinds| - 1], x);
          StakeCellsExactly(def, policy, st, command, kind, spec.value, STAKE_LABELS, y);
        }
        DistinctSum(a, b);
      }
    }
  }

  lemma StakeLabelsAreFour()
    ensures NoDup(STAKE_LABELS) && |STAKE_LABELS| == 4
  {
    assert |"stakes:low"| == 10 && |"stakes:medium"| == 13 && |"stakes:high"| == 11;
  }

  lemma {:induction false} CommandCellsExactly(def: Def, policy: Policy, st: StateNode, commands: seq<string>, c: Cell)
    ensures c in CommandCells(def, policy, st, commands) <==> c.command in commands && RowCell(def, policy, st, c.command, c)
  {
    hide BuildCallerSpec, ResolveExpected, LegalCommands, STAKE_LABELS, KindCells;
    if commands != [] {
      var last := commands[|commands| - 1];
      CommandCellsExactly(def, policy, st, commands[..|commands| - 1], c);
      assert commands == commands[..|commands| - 1] + [last];
      KindCellsExactly(def, policy, st, last, CALLER_KINDS, c);
      EveryKind(c.kind);
    }
  }

  lemma EveryKind(k: CallerKind)
    ensures k in CALLER_KINDS && NoDup(CALLER_KINDS)
  {
    var kinds := CALLER_KINDS;
    assert kinds[0] == Delegate && kinds[1] == NonDelegateSameRole && kinds[2] == WrongRole && kinds[3] == Steward && kinds[4] == Human;
  }

  lemma {:induction false} CommandCellsDistinct(def: Def, policy: Policy, st: StateNode, commands: seq<string>)
    requires NoDup(commands)
    ensures NoDup(KeysOf(CommandCells(def, policy, st, commands)))
    ensures |CommandCells(def, policy, st, commands)| == |commands| * (4 * Represented(policy, st, CALLER_KINDS))
  {
    hide BuildCallerSpec, ResolveExpected, LegalCommands, STAKE_LABELS, KindCells, CALLER_KINDS, Represented;
    if commands != [] {
      var last := commands[|commands| - 1];
      var a, b := CommandCells(def, policy, st, commands[..|commands| - 1]), KindCells(def, policy, st, last, CALLER_KINDS);
      CommandCellsDistinct(def, policy, st, commands[..|commands| - 1]);
      EveryKind(Human);
      KindCellsDistinct(def, policy, st, last, CALLER_KINDS);
      forall x, y | x in a && y in b
        ensures KeyOf(x) != KeyOf(y)
      {
        CommandCellsExactly(def, policy, st, commands[..|commands| - 1], x);
        KindCellsExactly(def, policy, st, last, CALLER_KINDS, y);
      }
      DistinctSum(a, b);
      OneMore(|commands| - 1, 4 * Represented(policy, st, CALLER_KINDS));
    }
  }

  lemma {:induction false} MatrixExactly(def: Def, policy: Policy, states: seq<StateNode>, commands: seq<string>, c: Cell)
    ensures c in Matrix(def, policy, states, commands) <==>
              c.command in commands && exists i :: 0 <= i < |states| && RowCell(def, policy, states[i], c.command, c)
  {
    hide RowCell, CommandCells;
    if states != [] {
      MatrixExactly(def, policy, states[..|states| - 1], commands, c);
      CommandCellsExactly(def, policy, states[|states| - 1], commands, c);
    }
  }

  lemma {:induction false} AddNewExactly(list: seq<string>, more: seq<string>)
    requires NoDup(list)
    ensures NoDup(AddNew(list, more)) && forall x :: x in AddNew(list, more) <==> x in list || x in more
    decreases |more|
  {
    if more != [] {
      assert more == [more[0]] + more[1..];
      AddNewExactly(if more[0] in list then list else list + [more[0]], more[1..]);
    }
  }

  predicate Mentioned(states: seq<StateNode>, x: string) {
    exists i, t :: 0 <= i < |states| && t in states[i].transitions && t.command == x
  }

  /** The command list is break-glass and every transition's command, each once. */
  lemma {:induction false} CommandListExactly(def: Def, states: seq<StateNode>)
    ensures NoDup(CommandList(def, states))
    ensures forall x :: x in CommandList(def, states) <==> x == BreakGlass(def) || Mentioned(states, x)
  {
    if states != [] {
      var k := |states| - 1;
      CommandListExactly(def, states[..k]);
      AddNewExactly(CommandList(def, states[..k]), Commands(states[k].transitions));
      var names := Commands(states[k].transitions);
      forall x
        ensures x in names <==> exists t :: t in states[k].transitions && t.command == x
      {
        if t :| t in states[k].transitions && t.command == x {
          var i :| 0 <= i < |states[k].transitions| && states[k].transitions[i] == t;
          assert names[i] == x;
        }
      }
      forall x
        ensures Mentioned(states, x) <==> Mentioned(states[..k], x) || x in names
      {
        if Mentioned(states[..k], x) {
          var i, t :| 0 <= i < k && t in states[..k][i].transitions && t.command == x;
          assert t in states[i].transitions;
        }
        if Mentioned(states, x) {
          var i, t :| 0 <= i < |states| && t in states[i].transitions && t.command == x;
          assert i < k ==> t in states[..k][i].transitions;
        }
      }
    }
  }

  /** How many state entries of the key's id represent its kind of caller. */
  function Entries(policy: Policy, states: seq<StateNode>, key: Key): nat {
    if states == [] then 0
    else
      var st := states[|states| - 1];
      Entries(policy, states[..|states| - 1], key)
      + (if st.id == key.state && BuildCallerSpec(policy, st.ownerRole, key.kind).Some? then 1 else 0)
  }

  function CellsWith(cells: seq<Cell>, key: Key): nat {
    multiset(KeysOf(cells))[key]
  }

  lemma {:induction false} CountOfNoDup(keys: seq<Key>, key: Key)
    requires NoDup(keys)
    ensures multiset(keys)[key] == if key in keys then 1 else 0
  {
    if keys != [] {
      var k := |keys| - 1;
      assert keys == keys[..k] + [keys[k]];
      CountOfNoDup(keys[..k], key);
    }
  }

  lemma CellsWithAdds(a: seq<Cell>, b: seq<Cell>, key: Key)
    ensures CellsWith(a + b, key) == CellsWith(a, key) + CellsWith(b, key)
  {
    hide KeyOf;
    assert KeysOf(a + b) == KeysOf(a) + KeysOf(b);
  }

  predicate Spelled(commands: seq<string>, key: Key) {
    key.command in commands && key.stakeLabel in STAKE_LABELS
  }

  lemma OneStatesCells(def: Def, policy: Policy, st: StateNode, commands: seq<string>, key: Key)
    requires NoDup(commands)
    ensures CellsWith(CommandCells(def, policy, st, commands), key)
            == if Spelled(commands, key) && st.id == key.state && BuildCallerSpec(policy, st.ownerRole, key.kind).Some? then 1 else 0
  {
    hide ResolveExpected, LegalCommands, BuildCallerSpec, CommandCells, STAKE_LABELS;
    var cells := CommandCells(def, policy, st, commands);
    CommandCellsDistinct(def, policy, st, commands);
    CountOfNoDup(KeysOf(cells), key);
    var spec := BuildCallerSpec(policy, st.ownerRole, key.kind);
    if Spelled(commands, key) && st.id == key.state && spec.Some? {
      var c := CellFor(def, policy, st, key.command, key.kind, spec.value, key.stakeLabel);
      CommandCellsExactly(def, policy, st, commands, c);
      var i :| 0 <= i < |cells| && cells[i] == c;
      assert KeysOf(cells)[i] == key;
    }
    if key in KeysOf(cells) {
      var i :| 0 <= i < |cells| && KeysOf(cells)[i] == key;
      CommandCellsExactly(def, policy, st, commands, cells[i]);
    }
  }

  lemma {:induction false} CellsAreCounted(def: Def, policy: Policy, states: seq<StateNode>, commands: seq<string>, key: Key)
    requires NoDup(commands)
    ensures CellsWith(Matrix(def, policy, states, commands), key) == if Spelled(commands, key) then Entries(policy, states, key) else 0
  {
    hide CommandCells, BuildCallerSpec, CellsWith, Spelled;
    if states == [] {
      NoCells(key);
    } else {
      var k := |states| - 1;
      CellsAreCounted(def, policy, states[..k], commands, key);
      OneStatesCells(def, policy, states[k], commands, key);
      CellsWithAdds(Matrix(def, policy, states[..k], commands), CommandCells(def, policy, states[k], commands), key);
    }
  }

  lemma NoCells(key: Key)
    ensures CellsWith([], key) == 0
  {
  }

  /**
   * The matrix has one cell for each state entry that represents the kind of caller, distinct command and stake label,
   * and nothing else.
   */
  lemma OneCellPerCombination(def: Def, policy: Policy, key: Key)
    ensures CellsWith(Matrix(def, policy, def.states, CommandList(def, def.states)), key)
            == if (key.command == BreakGlass(def) || Mentioned(def.states, key.command)) && key.stakeLabel in STAKE_LABELS
               then Entries(policy, def.states, key) else 0
  {
    hide Matrix, CommandList, Entries, Mentioned, CellsWith, STAKE_LABELS;
    CommandListExactly(def, def.states);
    CellsAreCounted(def, policy, def.states, CommandList(def, def.states), key);
  }

  predicate UniqueIds(states: seq<StateNode>) {
    forall i, j :: 0 <= i < j < |states| ==> states[i].id != states[j].id
  }

  lemma {:induction false} EntriesOfUniqueIds(policy: Policy, states: seq<StateNode>, key: Key)
    requires UniqueIds(states)
    ensures Entries(policy, states, key) <= 1
    ensures Entries(policy, states, key) == 1 ==> exists i :: 0 <= i < |states| && states[i].id == key.state
  {
    hide BuildCallerSpec;
    if states != [] {
      EntriesOfUniqueIds(policy, states[..|states| - 1], key);
    }
  }

  lemma {:induction false} EntriesOfTwins(policy: Policy, states: seq<StateNode>, key: Key, i: nat, j: nat)
    requires i <= j < |states| && states[i].id == states[j].id == key.state && key.kind == Human
    ensures Entries(policy, states, key) >= if i == j then 1 else 2
  {
    hide FindStewardBody;
    var k := |states| - 1;
    if j < k {
      EntriesOfTwins(policy, states[..k], key, i, j);
    } else if i < j {
      EntriesOfTwins(policy, states[..k], key, i, i);
    }
  }

  lemma {:induction false} CountedOnceIsNoDup(keys: seq<Key>)
    requires forall key :: multiset(keys)[key] <= 1
    ensures NoDup(keys)
  {
    if keys != [] {
      var k := |keys| - 1;
      assert keys == keys[..k] + [keys[k]];
      assert forall key :: multiset(keys)[key] >= multiset(keys[..k])[key];
      CountedOnceIsNoDup(keys[..k]);
      forall i | 0 <= i < k
        ensures keys[i] != keys[k]
      {
        assert keys[..k][i] == keys[i] && keys[i] in multiset(keys[..k]);
      }
    }
  }

  /** No two cells share a combination exactly when no two state entries share an id. */
  lemma CellsAreDistinctExactly(def: Def, policy: Policy)
    ensures NoDup(KeysOf(Matrix(def, policy, def.states, CommandList(def, def.states)))) <==> UniqueIds(def.states)
  {
    hide Matrix, CommandList, Entries, Mentioned, NoDup, STAKE_LABELS;
    var cells := Matrix(def, policy, def.states, CommandList(def, def.states));
    if UniqueIds(def.states) {
      forall key
        ensures multiset(KeysOf(cells))[key] <= 1
      {
        OneCellPerCombination(def, policy, key);
        EntriesOfUniqueIds(policy, def.states, key);
      }
      CountedOnceIsNoDup(KeysOf(cells));
    } else {
      var i: nat, j: nat :| i < j < |def.states| && def.states[i].id == def.states[j].id;
      var key := Key(def.states[i].id, BreakGlass(def), Human, None);
      assert None in STAKE_LABELS by { NoStakeIsListed(); }
      OneCellPerCombination(def, policy, key);
      EntriesOfTwins(policy, def.states, key, i, j);
      assert CellsWith(cells, key) >= 2;
      if NoDup(KeysOf(cells)) {
        CountOfNoDup(KeysOf(cells), key);
        assert false;
      }
    }
  }

  lemma NoStakeIsListed()
    ensures None in STAKE_LABELS
  {
    var labels := STAKE_LABELS;
    assert labels[0] == None;
  }

  // ---- What the outcomes mean ----

  /** Raising the stake never lets a known body through, and never stops an unknown one. */
  lemma StakesAreMonotone(
      st: StateNode, command: string, spec: CallerSpec, low: Option<string>, high: Option<string>, def: Def, policy: Policy)
    requires def.stakes.Some? ==> StakeLevel(def.stakes.value, low) <= StakeLevel(def.stakes.value, high)
    ensures var a, b := ResolveExpected(st, command, spec, low, def, policy), ResolveExpected(st, command, spec, high, def, policy);
            if IsKnownBody(policy, spec.bodyId) then a.Block? ==> b == a else a.Allow? ==> b.Allow?
  {
    hide OutsideOwnerRole, WrongCaller, BodyHasCap, StakeLevel;
  }

  /** So within a matrix of distinct state ids: of two cells that differ in the stake only, the higher one is the stricter one. */
  lemma MatrixIsMonotone(def: Def, policy: Policy, x: Cell, y: Cell)
    requires UniqueIds(def.states)
    requires var cells := Matrix(def, policy, def.states, CommandList(def, def.states)); x in cells && y in cells
    requires x.state == y.state && x.command == y.command && x.kind == y.kind
    requires def.stakes.Some? ==> StakeLevel(def.stakes.value, x.stakeLabel) <= StakeLevel(def.stakes.value, y.stakeLabel)
    ensures x.caller == y.caller && x.legalCommands == y.legalCommands
    ensures if IsKnownBody(policy, x.caller.bodyId) then x.expected.Block? ==> y.expected == x.expected
            else x.expected.Allow? ==> y.expected.Allow?
  {
    hide Matrix, CommandList, BuildCallerSpec, ResolveExpected, LegalCommands, StakeLevel, IsKnownBody, STAKE_LABELS;
    MatrixExactly(def, policy, def.states, CommandList(def, def.states), x);
    MatrixExactly(def, policy, def.states, CommandList(def, def.states), y);
    var i :| 0 <= i < |def.states| && RowCell(def, policy, def.states[i], x.command, x);
    var j :| 0 <= j < |def.states| && RowCell(def, policy, def.states[j], y.command, y);
    assert i == j;
    StakesAreMonotone(def.states[i], x.command, x.caller, x.stakeLabel, y.stakeLabel, def, policy);
  }

  /** A cell blocked for its state names a command that is not in its own legal list; an allowed one names one that is. */
  lemma LegalListAgrees(def: Def, policy: Policy, c: Cell)
    requires c in Matrix(def, policy, def.states, CommandList(def, def.states))
    ensures c.expected == Block(WrongState) ==> c.command !in c.legalCommands
    ensures c.expected == Allow ==> c.command in c.legalCommands
  {
    hide Matrix, CommandList, BuildCallerSpec, ResolveExpected, LegalCommands, STAKE_LABELS;
    MatrixExactly(def, policy, def.states, CommandList(def, def.states), c);
    var i :| 0 <= i < |def.states| && RowCell(def, policy, def.states[i], c.command, c);
    LegalExactly(def, def.states[i], c.command);
    OutcomeNamesStep(def.states[i], c.command, c.caller, c.stakeLabel, def, policy);
  }

  lemma OutcomeNamesStep(st: StateNode, command: string, spec: CallerSpec, stakeLabel: Option<string>, def: Def, policy: Policy)
    ensures var known := command == BreakGlass(def) || FindTransition(st.transitions, command).Some?;
            match ResolveExpected(st, command, spec, stakeLabel, def, policy)
            case Block(WrongState) => !known
            case Allow => known
            case _ => true
  {
    hide OutsideOwnerRole, WrongCaller, BodyHasCap, NeedsSignoff, IsKnownBody;
  }

  lemma LegalExactly(def: Def, st: StateNode, command: string)
    ensures command in LegalCommands(def, st) <==> command == BreakGlass(def) || FindTransition(st.transitions, command).Some?
  {
    var names := Commands(st.transitions);
    if FindTransition(st.transitions, command).Some? {
      var t := FindTransition(st.transitions, command).value;
      var i :| 0 <= i < |st.transitions| && st.transitions[i] == t;
      assert names[i] == command;
    }
    if command in names {
      var i :| 0 <= i < |names| && names[i] == command;
      assert st.transitions[i] in st.transitions;
    }
  }
}
