/**
 * src/barrier.ts: barrier checks as sequences of awaits, interleaved with each other and with everything else that
 * changes the children, the parent and the recorded outcome.
 */
module BarrierProtocol {
  import opened Prelude
  import opened Labels
  import opened Barrier
  import Outcomes = FanoutOutcomeStore
  import OutcomeRuns

  datatype Transition = Transition(command: string, target: string)

  datatype StateDef = StateDef(
    id: string, barrier: bool, scope: Option<string>, isTerminal: bool, owned: bool, native: Option<string>,
    transitions: seq<Transition>)

  datatype WorkflowDef = WorkflowDef(states: seq<StateDef>, breakGlass: Option<string>)

  function FindState(states: seq<StateDef>, id: string): (r: Option<StateDef>)
    ensures r.Some? ==> r.value in states && r.value.id == id
  {
    if states == [] then None
    else if states[0].id == id then Some(states[0])
    else FindState(states[1..], id)
  }

  function FindCommand(ts: seq<Transition>, command: string): Option<string> {
    if ts == [] then None
    else if ts[0].command == command then Some(ts[0].target)
    else FindCommand(ts[1..], command)
  }

  function FindOther(ts: seq<Transition>, command: string): Option<string> {
    if ts == [] then None
    else if ts[0].command != command then Some(ts[0].target)
    else FindOther(ts[1..], command)
  }

  function BreakGlass(def: WorkflowDef): string {
    def.breakGlass.GetOr("escape")
  }

  function ResolveBarrierTarget(def: WorkflowDef, st: StateDef): Option<string> {
    var complete := FindCommand(st.transitions, "complete");
    if complete.Some? then complete else FindOther(st.transitions, BreakGlass(def))
  }

  lemma {:induction false} FindFirst(ts: seq<Transition>, command: string)
    ensures match FindCommand(ts, command)
            case Some(t) => exists i :: 0 <= i < |ts| && ts[i] == Transition(command, t) && forall j :: 0 <= j < i ==> ts[j].command != command
            case None => forall i :: 0 <= i < |ts| ==> ts[i].command != command
    ensures match FindOther(ts, command)
            case Some(t) => exists i :: 0 <= i < |ts| && ts[i].command != command && ts[i].target == t && forall j :: 0 <= j < i ==> ts[j].command == command
            case None => forall i :: 0 <= i < |ts| ==> ts[i].command == command
  {
    if ts != [] {
      FindFirst(ts[1..], command);
      if FindCommand(ts, command).Some? && ts[0].command != command {
        var i :| 0 <= i < |ts[1..]| && ts[1..][i] == Transition(command, FindCommand(ts, command).value) && forall j :: 0 <= j < i ==> ts[1..][j].command != command;
        assert ts[i + 1] == ts[1..][i] && forall j :: 1 <= j < i + 1 ==> ts[j] == ts[1..][j - 1];
      }
      if FindOther(ts, command).Some? && ts[0].command == command {
        var i :| 0 <= i < |ts[1..]| && ts[1..][i].command != command && ts[1..][i].target == FindOther(ts, command).value && forall j :: 0 <= j < i ==> ts[1..][j].command == command;
        assert ts[i + 1] == ts[1..][i] && forall j :: 1 <= j < i + 1 ==> ts[j] == ts[1..][j - 1];
      }
    }
  }

  /** The engine advances along a `complete` edge if there is one, and otherwise along no break-glass edge. */
  lemma BarrierTargetIsForward(def: WorkflowDef, st: StateDef)
    ensures ResolveBarrierTarget(def, st).Some? ==>
              exists t :: t in st.transitions && t.target == ResolveBarrierTarget(def, st).value
                          && (t.command == "complete" || (t.command != BreakGlass(def) && forall u :: u in st.transitions ==> u.command != "complete"))
    ensures ResolveBarrierTarget(def, st).None? <==> forall t :: t in st.transitions ==> t.command != "complete" && t.command == BreakGlass(def)
  {
    FindFirst(st.transitions, "complete");
    FindFirst(st.transitions, BreakGlass(def));
  }

  /** The label set the transition writes, computed from the labels fetched just before. */
  function Swapped(labels: seq<string>, from: string, to: string): seq<string> {
    Without(labels, StateLabel(from)) + [StateLabel(to)]
  }

  // ---- Checks ----

  /** What one check saw: its last outcome reading, its last child read and its label read, each with its step number. */
  datatype Evidence = Evidence(
    outcomeAt: nat, reading: Option<Outcomes.FanoutOutcome>, filter: Option<seq<string>>,
    childrenAt: nat, children: seq<RawChild>, scope: Option<string>,
    labelsAt: nat, labels: seq<string>)

  const NOTHING_SEEN := Evidence(0, None, None, 0, [], None, 0, [])

  /** What a caller fetched beforehand for `attemptBarrierTransition`. */
  datatype Prefetched = Prefetched(labels: Option<seq<string>>, current: Option<string>, def: Option<WorkflowDef>)

  /** Whose outcome reading it is: `onManagingEntry`, `attemptBarrierTransition` or the manual continue. */
  datatype Use = ForEntry(args: Prefetched) | ForAttempt(args: Prefetched) | ForManual

  /**
   * Where a check is; each case is the code up to the next await. An outcome reading asks for the store, loads it if
   * nobody has, and only then looks.
   */
  datatype Point =
    | Asking(use: Use)
    | Loading(use: Use)
    | Filling(use: Use)
    | Looking(use: Use)
    | EntryEval(args: Prefetched)
    | AttemptParent(args: Prefetched)
    | AttemptEval(current: string, def: WorkflowDef, st: StateDef)
    | Swap(current: string, def: WorkflowDef, target: string)
    | Mutate(current: string, def: WorkflowDef, target: string)
    | ManualEval
    | Over

  datatype Check = Check(at: Point, ev: Evidence)

  /** The answers the outside gives one segment. */
  datatype Answer = Answer(readOk: bool, defLoads: bool, fileReadable: bool, labelOk: bool, nativeOk: bool, accepted: bool)

  datatype Exit =
    | Automatic(check: nat, at: nat, def: WorkflowDef, from: string, to: string, ev: Evidence)
    | Manual(check: nat, at: nat, ev: Evidence)

  datatype World = World(
    parent: string, registry: map<string, WorkflowDef>,
    children: seq<RawChild>, labels: seq<string>, applied: Option<string>, store: Outcomes.Store,
    steps: nat, checks: seq<Check>, exits: seq<Exit>)

  datatype Event =
    | SetChildren(children: seq<RawChild>)
    | SetLabels(labels: seq<string>)
    | SetApplied(applied: Option<string>)
    | StoreEvent(event: Outcomes.Event)
    | ManagingEntry(answer: Answer)
    | ChildTerminal(answer: Answer)
    | Poll
    | ManualContinue
    | Proceed(id: nat, answer: Answer)

  /** The workflow definition and state the callers look up before they start a check. */
  function Prefetch(w: World, a: Answer): Prefetched {
    var labels := if a.readOk then Some(w.labels) else None;
    var live := if a.readOk then CurrentState(w.labels) else None;
    var current := if w.applied.Some? then w.applied else live;
    var def := if a.readOk && Truthy(current) && Truthy(WorkflowId(w.labels)) && a.defLoads
               then Lookup(w.registry, WorkflowId(w.labels).value) else None;
    Prefetched(labels, current, def)
  }

  function StateIn(def: Option<WorkflowDef>, current: Option<string>): Option<StateDef> {
    if def.Some? && current.Some? then FindState(def.value.states, current.value) else None
  }

  predicate IsBarrierState(st: Option<StateDef>) {
    st.Some? && st.value.barrier
  }

  function ReadOf(w: World, a: Answer): Option<seq<RawChild>> {
    if a.readOk then Some(w.children) else None
  }

  /** The reading is taken off the memory as it is, also while someone else's load is in flight. */
  function SeeOutcome(w: World, c: Check): Evidence {
    var r := Lookup(w.store.records, w.parent);
    c.ev.(outcomeAt := w.steps, reading := r, filter := FilterOf(r))
  }

  function SeeChildren(w: World, c: Check, scope: Option<string>): Evidence {
    c.ev.(childrenAt := w.steps, children := w.children, scope := scope)
  }

  /** `onManagingEntry` after its outcome reading: a preliminary evaluation decides whether to attempt the transition. */
  function AfterEntryEval(w: World, c: Check, a: Answer): Check
    requires c.at.EntryEval?
  {
    var st := StateIn(c.at.args.def, c.at.args.current);
    var scope := if st.Some? then st.value.scope else None;
    if !EvaluateBarrier(ReadOf(w, a), c.ev.filter, scope).allTerminal then c.(at := Over)
    else if c.ev.filter.Some? then c.(at := AttemptParent(c.at.args))
    else c.(at := Asking(ForAttempt(c.at.args)))
  }

  /** `attemptBarrierTransition` up to its own evaluation. */
  function AfterAttemptParent(w: World, c: Check, a: Answer): Check
    requires c.at.AttemptParent?
  {
    var args := c.at.args;
    var labels := if args.labels.Some? then args.labels else if a.readOk then Some(w.labels) else None;
    if labels.None? || !Truthy(WorkflowId(labels.value)) then c.(at := Over)
    else
      var current := if args.current.Some? then args.current else CurrentState(labels.value);
      var def := if args.def.Some? then args.def
                 else if a.defLoads then Lookup(w.registry, WorkflowId(labels.value).value) else None;
      var st := StateIn(def, current);
      if !Truthy(current) || !IsBarrierState(st) then c.(at := Over)
      else c.(at := AttemptEval(current.value, def.value, st.value))
  }

  function AfterAttemptEval(w: World, c: Check, a: Answer): Check
    requires c.at.AttemptEval?
  {
    var target := ResolveBarrierTarget(c.at.def, c.at.st);
    if !EvaluateBarrier(ReadOf(w, a), c.ev.filter, c.at.st.scope).allTerminal || !Truthy(target) then c.(at := Over)
    else Check(Swap(c.at.current, c.at.def, target.value), SeeChildren(w, c, c.at.st.scope))
  }

  /** The labels are fetched again, and must still carry the state the check is about. */
  function AfterSwap(w: World, c: Check, a: Answer): Check
    requires c.at.Swap?
  {
    var st := FindState(c.at.def.states, c.at.target);
    var closing := st.None? || st.value.isTerminal || !st.value.owned;
    var needsNative := st.Some? && Truthy(st.value.native);
    if !a.readOk || StateLabel(c.at.current) !in w.labels || !a.labelOk || (closing && needsNative && !a.nativeOk) then c.(at := Over)
    else Check(Mutate(c.at.current, c.at.def, c.at.target), c.ev.(labelsAt := w.steps, labels := w.labels))
  }

  function AfterLooking(w: World, c: Check): Check
    requires c.at.Looking?
  {
    var ev := SeeOutcome(w, c);
    Check(if Holds(ev.reading) then Over
          else match c.at.use
               case ForEntry(args) => EntryEval(args)
               case ForAttempt(args) => AttemptParent(args)
               case ForManual => ManualEval,
          ev)
  }

  function Next(w: World, c: Check, a: Answer): Check {
    match c.at
    case Asking(use) => c.(at := if w.store.loaded then Looking(use) else Loading(use))
    case Loading(use) => c.(at := Filling(use))
    case Filling(use) => c.(at := Looking(use))
    case Looking(_) => AfterLooking(w, c)
    case EntryEval(_) => AfterEntryEval(w, c, a)
    case AttemptParent(_) => AfterAttemptParent(w, c, a)
    case AttemptEval(_, _, _) => AfterAttemptEval(w, c, a)
    case Swap(_, _, _) => AfterSwap(w, c, a)
    case ManualEval => Check(Over, SeeChildren(w, c, None))
    case _ => c.(at := Over)
  }

  /** What a segment of a check does to the outcome store. */
  function StoreEventsOf(w: World, c: Check, a: Answer): seq<Outcomes.Event> {
    match c.at
    case Asking(_) => [Outcomes.BeginsLoad]
    case Loading(_) => [Outcomes.ReadsFile(a.fileReadable)]
    case Filling(_) => [Outcomes.FinishesLoad]
    case Looking(_) => [Outcomes.Gets(w.parent)]
    case _ => []
  }

  function StoreAfter(w: World, c: Check, a: Answer): Outcomes.Store {
    var es := StoreEventsOf(w, c, a);
    if es == [] then w.store else Outcomes.Step(w.store, es[0])
  }

  function ExitsOf(w: World, id: nat, c: Check, a: Answer): seq<Exit> {
    if c.at.Mutate? && a.accepted then [Automatic(id, w.steps, c.at.def, c.at.current, c.at.target, c.ev)]
    else if c.at.ManualEval? && ManualBarrierContinueBlockReason(c.ev.reading, ReadOf(w, a)).None? then
      [Manual(id, w.steps, SeeChildren(w, c, None))]
    else []
  }

  function LabelsAfter(w: World, c: Check, a: Answer): seq<string> {
    if c.at.Mutate? && a.accepted then Swapped(c.ev.labels, c.at.current, c.at.target) else w.labels
  }

  /** A restart takes the checks in flight with it. */
  function ChecksAfter(checks: seq<Check>, e: Outcomes.Event): (r: seq<Check>)
    ensures |r| == |checks| && forall i :: 0 <= i < |checks| ==> r[i] == if e.Restarts? then checks[i].(at := Over) else checks[i]
  {
    seq(|checks|, i requires 0 <= i < |checks| => if e.Restarts? then checks[i].(at := Over) else checks[i])
  }

  function Start(w: World, at: Point): World {
    w.(checks := w.checks + [Check(at, NOTHING_SEEN)])
  }

  function Act(w: World, e: Event): World {
    match e
    case SetChildren(cs) => w.(children := cs)
    case SetLabels(ls) => w.(labels := ls)
    case SetApplied(s) => w.(applied := s)
    case StoreEvent(se) => w.(store := Outcomes.Step(w.store, se), checks := ChecksAfter(w.checks, se))
    case ManagingEntry(a) => Start(w, Asking(ForEntry(Prefetch(w, a))))
    case ChildTerminal(a) =>
      var args := Prefetch(w, a);
      if args.labels.Some? && Truthy(args.current) && IsBarrierState(StateIn(args.def, args.current)) then Start(w, Asking(ForAttempt(args))) else w
    case Poll => Start(w, Asking(ForAttempt(Prefetched(None, None, None))))
    case ManualContinue => Start(w, Asking(ForManual))
    case Proceed(id, a) =>
      if id < |w.checks| then
        var c := w.checks[id];
        w.(checks := w.checks[id := Next(w, c, a)], store := StoreAfter(w, c, a), labels := LabelsAfter(w, c, a),
           exits := w.exits + ExitsOf(w, id, c, a))
      else w
  }

  function Step(w: World, e: Event): World {
    Act(w, e).(steps := w.steps + 1)
  }

  function Run(w: World, es: seq<Event>): World {
    if es == [] then w else Step(Run(w, es[..|es| - 1]), es[|es| - 1])
  }

  predicate Initial(w: World) {
    w.steps == 0 && w.checks == [] && w.exits == []
  }

  // ---- Every exit is justified by what its own check read ----

  predicate OwnStep(es: seq<Event>, k: nat, id: nat) {
    k < |es| && es[k].Proceed? && es[k].id == id
  }

  /** The memory's record of the parent after `k` steps. */
  function StoredAt(w: World, es: seq<Event>, k: nat): Option<Outcomes.FanoutOutcome>
    requires k <= |es|
  {
    Lookup(Run(w, es[..k]).store.records, w.parent)
  }

  predicate LooksAt(v: World, id: nat) {
    id < |v.checks| && v.checks[id].at.Looking?
  }

  /** At step `outcomeAt` the check looked into the outcome store; the outcome does not hold, and it fixes the filter. */
  predicate OutcomeRead(w: World, es: seq<Event>, id: nat, ev: Evidence) {
    && OwnStep(es, ev.outcomeAt, id) && LooksAt(Run(w, es[..ev.outcomeAt]), id)
    && ev.reading == StoredAt(w, es, ev.outcomeAt)
    && !Holds(ev.reading) && ev.filter == FilterOf(ev.reading)
  }

  /** Later, at step `childrenAt`, its own child read succeeded, and the children it saw satisfy the barrier. */
  predicate ChildrenRead(w: World, es: seq<Event>, id: nat, ev: Evidence) {
    && ev.outcomeAt < ev.childrenAt && OwnStep(es, ev.childrenAt, id) && es[ev.childrenAt].answer.readOk
    && ev.children == Run(w, es[..ev.childrenAt]).children
    && AllSettled(ev.children, ev.filter, ev.scope)
    && (Scoped(ev.filter, ev.scope) ==> SomeRelevant(ev.children, ev.filter, ev.scope))
  }

  predicate LabelsRead(w: World, es: seq<Event>, id: nat, current: string, ev: Evidence) {
    && ev.childrenAt < ev.labelsAt && OwnStep(es, ev.labelsAt, id) && es[ev.labelsAt].answer.readOk
    && ev.labels == Run(w, es[..ev.labelsAt]).labels && StateLabel(current) in ev.labels
  }

  predicate BarrierEdge(def: WorkflowDef, current: string, target: string, scope: Option<string>) {
    var st := FindState(def.states, current);
    IsBarrierState(st) && st.value.scope == scope && ResolveBarrierTarget(def, st.value) == Some(target)
  }

  predicate CheckSound(w: World, es: seq<Event>, id: nat, c: Check) {
    match c.at
    case EntryEval(_) => OutcomeRead(w, es, id, c.ev)
    case AttemptParent(_) => OutcomeRead(w, es, id, c.ev)
    case AttemptEval(current, def, st) =>
      OutcomeRead(w, es, id, c.ev) && st.barrier && FindState(def.states, current) == Some(st)
    case Swap(current, def, target) =>
      OutcomeRead(w, es, id, c.ev) && ChildrenRead(w, es, id, c.ev) && BarrierEdge(def, current, target, c.ev.scope)
    case Mutate(current, def, target) =>
      && OutcomeRead(w, es, id, c.ev) && ChildrenRead(w, es, id, c.ev) && BarrierEdge(def, current, target, c.ev.scope)
      && LabelsRead(w, es, id, current, c.ev)
    case ManualEval => OutcomeRead(w, es, id, c.ev)
    case _ => true
  }

  /**
   * The check read an outcome that does not hold the barrier, then read the children successfully and found those in
   * scope settled; an automatic exit follows the barrier state's own edge and found the parent still in that state, a
   * manual one found some child.
   */
  predicate Justified(w: World, es: seq<Event>, x: Exit) {
    && OutcomeRead(w, es, x.check, x.ev) && ChildrenRead(w, es, x.check, x.ev) && OwnStep(es, x.at, x.check)
    && match x
       case Automatic(id, at, def, from, to, ev) => BarrierEdge(def, from, to, ev.scope) && LabelsRead(w, es, id, from, ev) && ev.labelsAt < at
       case Manual(_, at, ev) => ev.childrenAt == at && ev.scope == None && SomeRelevant(ev.children, ev.filter, None)
  }

  predicate Sound(w: World, es: seq<Event>, v: World) {
    && v.steps == |es| && v.parent == w.parent
    && (forall i :: 0 <= i < |v.checks| ==> CheckSound(w, es, i, v.checks[i]))
    && (forall x :: x in v.exits ==> Justified(w, es, x))
  }

  lemma PrefixesAgree(es: seq<Event>, e: Event)
    ensures forall k :: 0 <= k <= |es| ==> (es + [e])[..k] == es[..k]
    ensures forall k: nat, id: nat :: OwnStep(es, k, id) ==> OwnStep(es + [e], k, id) && (es + [e])[k] == es[k]
  {
  }

  lemma StaysSound(w: World, es: seq<Event>, e: Event, id: nat, c: Check)
    requires CheckSound(w, es, id, c)
    ensures CheckSound(w, es + [e], id, c)
  {
    hide Run, AllSettled, SomeRelevant, FindState, ResolveBarrierTarget;
    PrefixesAgree(es, e);
  }

  lemma StaysJustified(w: World, es: seq<Event>, e: Event, x: Exit)
    requires Justified(w, es, x)
    ensures Justified(w, es + [e], x)
  {
    hide Run, AllSettled, SomeRelevant, FindState, ResolveBarrierTarget;
    PrefixesAgree(es, e);
  }

  lemma OutcomeSeen(w: World, es: seq<Event>, v: World, id: nat, c: Check, a: Answer)
    requires v == Run(w, es) && v.steps == |es| && v.parent == w.parent && LooksAt(v, id)
    requires !Holds(SeeOutcome(v, c).reading)
    ensures OutcomeRead(w, es + [Proceed(id, a)], id, SeeOutcome(v, c))
  {
    PrefixesAgree(es, Proceed(id, a));
    assert (es + [Proceed(id, a)])[..|es|] == es;
  }

  lemma ChildrenSeen(w: World, es: seq<Event>, v: World, id: nat, c: Check, a: Answer, scope: Option<string>)
    requires v == Run(w, es) && v.steps == |es| && OutcomeRead(w, es, id, c.ev)
    requires EvaluateBarrier(ReadOf(v, a), c.ev.filter, scope).allTerminal
    ensures OutcomeRead(w, es + [Proceed(id, a)], id, SeeChildren(v, c, scope))
    ensures ChildrenRead(w, es + [Proceed(id, a)], id, SeeChildren(v, c, scope))
  {
    PrefixesAgree(es, Proceed(id, a));
    assert (es + [Proceed(id, a)])[..|es|] == es;
    AllTerminalExactly(ReadOf(v, a), c.ev.filter, scope);
  }

  lemma NextIsSound(w: World, es: seq<Event>, v: World, id: nat, c: Check, a: Answer)
    requires v == Run(w, es) && v.steps == |es| && v.parent == w.parent && CheckSound(w, es, id, c)
    requires id < |v.checks| && v.checks[id] == c
    ensures CheckSound(w, es + [Proceed(id, a)], id, Next(v, c, a))
  {
    hide Run, AllSettled, SomeRelevant, FindState, ResolveBarrierTarget, EvaluateBarrier, Prefetch, WorkflowId, CurrentState;
    StaysSound(w, es, Proceed(id, a), id, c);
    if c.at.Looking? {
      if !Holds(SeeOutcome(v, c).reading) {
        OutcomeSeen(w, es, v, id, c, a);
      }
    } else if c.at.AttemptEval? {
      if EvaluateBarrier(ReadOf(v, a), c.ev.filter, c.at.st.scope).allTerminal {
        ChildrenSeen(w, es, v, id, c, a, c.at.st.scope);
      }
    } else if c.at.Swap? {
      PrefixesAgree(es, Proceed(id, a));
      assert (es + [Proceed(id, a)])[..|es|] == es;
    }
  }

  lemma ExitIsJustified(w: World, es: seq<Event>, v: World, id: nat, c: Check, a: Answer, x: Exit)
    requires v == Run(w, es) && v.steps == |es| && v.parent == w.parent && CheckSound(w, es, id, c)
    requires x in ExitsOf(v, id, c, a)
    ensures Justified(w, es + [Proceed(id, a)], x)
  {
    hide Run, AllSettled, SomeRelevant, FindState, ResolveBarrierTarget, EvaluateBarrier;
    assert OwnStep(es + [Proceed(id, a)], |es|, id);
    if c.at.Mutate? {
      StaysSound(w, es, Proceed(id, a), id, c);
    } else {
      ManualContinueExactly(c.ev.reading, ReadOf(v, a));
      AllTerminalExactly(ReadOf(v, a), c.ev.filter, None);
      ChildrenSeen(w, es, v, id, c, a, None);
    }
  }

  lemma FreshIsSound(w: World, es: seq<Event>, id: nat, at: Point)
    requires at.Asking?
    ensures CheckSound(w, es, id, Check(at, NOTHING_SEEN))
  {
  }

  lemma RestartIsSound(w: World, es: seq<Event>, id: nat, c: Check)
    ensures CheckSound(w, es, id, c.(at := Over))
  {
  }

  lemma StepIsSound(w: World, es: seq<Event>, v: World, e: Event)
    requires v == Run(w, es) && Sound(w, es, v)
    ensures Sound(w, es + [e], Step(v, e))
  {
    hide Run, CheckSound, Justified, Next, ExitsOf, Prefetch, StateIn;
    var t := Step(v, e);
    forall i | 0 <= i < |t.checks|
      ensures CheckSound(w, es + [e], i, t.checks[i])
    {
      if i == |v.checks| {
        FreshIsSound(w, es + [e], i, t.checks[i].at);
      } else if e.Proceed? && e.id == i {
        NextIsSound(w, es, v, i, v.checks[i], e.answer);
      } else if e.StoreEvent? && e.event.Restarts? {
        RestartIsSound(w, es + [e], i, v.checks[i]);
      } else {
        StaysSound(w, es, e, i, v.checks[i]);
      }
    }
    forall x | x in t.exits
      ensures Justified(w, es + [e], x)
    {
      if x in v.exits {
        StaysJustified(w, es, e, x);
      } else {
        ExitIsJustified(w, es, v, e.id, v.checks[e.id], e.answer, x);
      }
    }
  }

  lemma {:induction false} AlwaysSound(w: World, es: seq<Event>)
    requires Initial(w)
    ensures Sound(w, es, Run(w, es))
  {
    if es != [] {
      AlwaysSound(w, es[..|es| - 1]);
      StepIsSound(w, es[..|es| - 1], Run(w, es[..|es| - 1]), es[|es| - 1]);
      assert es[..|es| - 1] + [es[|es| - 1]] == es;
    }
  }

  /** In every interleaving, every exit from a barrier state is justified by the readings of the check that made it. */
  lemma EveryExitIsJustified(w: World, es: seq<Event>, x: Exit)
    requires Initial(w) && x in Run(w, es).exits
    ensures Justified(w, es, x)
  {
    AlwaysSound(w, es);
  }

  // ---- Whether the reading was the last record ----

  /** Everything that happens to the outcome store in a run, by the checks and by others. */
  function StoreTrace(w: World, es: seq<Event>): seq<Outcomes.Event> {
    if es == [] then []
    else
      var v, e := Run(w, es[..|es| - 1]), es[|es| - 1];
      StoreTrace(w, es[..|es| - 1])
      + (match e
         case StoreEvent(se) => [se]
         case Proceed(id, a) => if id < |v.checks| then StoreEventsOf(v, v.checks[id], a) else []
         case _ => [])
  }

  lemma {:induction false} StoreFollowsTrace(w: World, es: seq<Event>)
    ensures Run(w, es).store == Outcomes.Run(w.store, StoreTrace(w, es))
  {
    hide Next, ExitsOf, LabelsAfter, Prefetch, StateIn, IsBarrierState;
    if es != [] {
      StoreFollowsTrace(w, es[..|es| - 1]);
      var before, all := StoreTrace(w, es[..|es| - 1]), StoreTrace(w, es);
      if |all| == |before| + 1 {
        assert all[..|all| - 1] == before;
      } else {
        assert all == before;
      }
    }
  }

  lemma {:induction false} CalmBefore(s: Outcomes.Store, es: seq<Outcomes.Event>, k: nat)
    requires OutcomeRuns.Calm(s, es) && k <= |es|
    ensures OutcomeRuns.Calm(s, es[..k])
  {
    if k < |es| {
      CalmBefore(s, es[..|es| - 1], k);
      assert es[..|es| - 1][..k] == es[..k];
    } else {
      assert es[..k] == es;
    }
  }

  lemma {:induction false} TraceGrows(w: World, es: seq<Event>, k: nat)
    requires k <= |es|
    ensures StoreTrace(w, es[..k]) <= StoreTrace(w, es)
  {
    hide StoreEventsOf;
    if k < |es| {
      TraceGrows(w, es[..|es| - 1], k);
      assert es[..|es| - 1][..k] == es[..k];
    } else {
      assert es[..k] == es;
    }
  }

  lemma LookIsTraced(w: World, es: seq<Event>, k: nat, id: nat)
    requires OwnStep(es, k, id) && LooksAt(Run(w, es[..k]), id)
    ensures StoreTrace(w, es[..k + 1]) == StoreTrace(w, es[..k]) + [Outcomes.Gets(w.parent)]
  {
    hide Run;
    assert es[..k + 1][..k] == es[..k] && es[..k + 1][k] == es[k];
    ParentStays(w, es[..k]);
  }

  lemma LastOfCalm(s: Outcomes.Store, es: seq<Outcomes.Event>, e: Outcomes.Event)
    requires OutcomeRuns.Calm(s, es + [e])
    ensures OutcomeRuns.Calm(s, es) && OutcomeRuns.CalmStep(Outcomes.Run(s, es), e)
  {
    assert (es + [e])[..|es|] == es;
  }

  /**
   * In a run in which no call falls into someone else's load and reads and writes succeed in order, the outcome every exit
   * went by was the last one recorded for the parent when its check looked.
   */
  lemma ExitsGoByTheLastRecord(w: World, es: seq<Event>, x: Exit)
    requires Initial(w) && w.store == Outcomes.Started(w.store.file) && x in Run(w, es).exits
    requires OutcomeRuns.Calm(w.store, StoreTrace(w, es))
    ensures x.ev.outcomeAt < |es|
    ensures x.ev.reading == Lookup(OutcomeRuns.Wanted(w.store.file.GetOr(map[]), StoreTrace(w, es[..x.ev.outcomeAt])), w.parent)
  {
    hide Run, StoreTrace, OutcomeRuns.Calm, ChildrenRead, OutcomeRuns.Wanted;
    EveryExitIsJustified(w, es, x);
    var k := x.ev.outcomeAt;
    var before, after := StoreTrace(w, es[..k]), StoreTrace(w, es[..k + 1]);
    LookIsTraced(w, es, k, x.check);
    TraceGrows(w, es, k + 1);
    CalmBefore(w.store, StoreTrace(w, es), |after|);
    assert StoreTrace(w, es)[..|after|] == after;
    StoreFollowsTrace(w, es[..k]);
    LastOfCalm(w.store, before, Outcomes.Gets(w.parent));
    OutcomeRuns.ReadingIsLastRecord(w.store.file, before, w.parent);
  }

  lemma {:induction false} ParentStays(w: World, es: seq<Event>)
    ensures Run(w, es).parent == w.parent
  {
    hide Next, ExitsOf, LabelsAfter, StoreAfter, Prefetch, StateIn, IsBarrierState;
    if es != [] {
      ParentStays(w, es[..|es| - 1]);
    }
  }

  // ---- What changes between a check's readings and its exit ----

  /** Entry `k` differs from the one before it, and entries `k` to `b` are alike. */
  predicate LastChangedAt<T(==)>(history: seq<T>, k: nat, b: nat)
    requires b < |history|
  {
    0 < k <= b && history[k - 1] != history[k] && forall j :: k <= j <= b ==> history[j] == history[k]
  }

  /** The last change up to `b` came after `a` and left something bad. */
  predicate LastChangeIsBad<T(==)>(history: seq<T>, good: T -> bool, a: nat, b: nat)
    requires b < |history|
  {
    exists k :: a < k <= b && LastChangedAt(history, k, b) && !good(history[k])
  }

  lemma {:induction false} BadExactlyByLastChange<T>(history: seq<T>, good: T -> bool, a: nat, b: nat)
    requires a <= b < |history| && good(history[a])
    ensures !good(history[b]) <==> LastChangeIsBad(history, good, a, b)
    decreases b - a
  {
    if a < b && !good(history[b]) {
      if history[b - 1] == history[b] {
        BadExactlyByLastChange(history, good, a, b - 1);
        var k :| a < k <= b - 1 && LastChangedAt(history, k, b - 1) && !good(history[k]);
        assert LastChangedAt(history, k, b);
      } else {
        assert LastChangedAt(history, b, b);
      }
    }
  }

  function OutcomeHistory(w: World, es: seq<Event>): seq<Option<Outcomes.FanoutOutcome>> {
    seq(|es| + 1, k requires 0 <= k <= |es| => StoredAt(w, es, k))
  }

  function LabelHistory(w: World, es: seq<Event>): seq<seq<string>> {
    seq(|es| + 1, k requires 0 <= k <= |es| => Run(w, es[..k]).labels)
  }

  /**
   * In every interleaving, an exit is made although the outcome then stored holds the barrier exactly when the last change
   * of the parent's record came after the check's own reading and left a holding outcome.
   */
  lemma ExitUnderHoldingOutcomeExactly(w: World, es: seq<Event>, x: Exit)
    requires Initial(w) && x in Run(w, es).exits
    ensures x.ev.outcomeAt < x.at < |es|
    ensures Holds(StoredAt(w, es, x.at)) <==> LastChangeIsBad(OutcomeHistory(w, es), o => !Holds(o), x.ev.outcomeAt, x.at)
  {
    hide Run, AllSettled, SomeRelevant;
    EveryExitIsJustified(w, es, x);
    BadExactlyByLastChange(OutcomeHistory(w, es), o => !Holds(o), x.ev.outcomeAt, x.at);
  }

  /** And the parent no longer carries the state label at an automatic exit exactly when its labels last changed after the check fetched them, to labels without it. */
  lemma ExitAfterLabelLossExactly(w: World, es: seq<Event>, x: Exit)
    requires Initial(w) && x in Run(w, es).exits && x.Automatic?
    ensures x.ev.labelsAt < x.at < |es|
    ensures StateLabel(x.from) !in Run(w, es[..x.at]).labels <==>
              LastChangeIsBad(LabelHistory(w, es), ls => StateLabel(x.from) in ls, x.ev.labelsAt, x.at)
  {
    hide Run, AllSettled, SomeRelevant;
    EveryExitIsJustified(w, es, x);
    BadExactlyByLastChange(LabelHistory(w, es), ls => StateLabel(x.from) in ls, x.ev.labelsAt, x.at);
  }

  // ---- What the mutation writes, and when an undisturbed check gets there ----

  /** An accepted transition leaves the target's label, drops the label of the state it left and keeps what the check read. */
  lemma TransitionSwapsOneLabel(v: World, id: nat, a: Answer)
    requires id < |v.checks| && v.checks[id].at.Mutate? && a.accepted
    ensures var c, t := v.checks[id], Step(v, Proceed(id, a));
            && t.exits == v.exits + [Automatic(id, v.steps, c.at.def, c.at.current, c.at.target, c.ev)]
            && StateLabel(c.at.target) in t.labels
            && (c.at.target != c.at.current ==> StateLabel(c.at.current) !in t.labels)
            && (forall l :: l != StateLabel(c.at.current) && l != StateLabel(c.at.target) ==> (l in t.labels <==> l in c.ev.labels))
  {
    var c := v.checks[id];
    if c.at.target != c.at.current {
      assert StateLabel(c.at.target)[6..] == c.at.target && StateLabel(c.at.current)[6..] == c.at.current;
    }
  }

  /** Such an exit: a refusal recorded and labels edited just before the mutation of a check that has read everything. */
  lemma LateChangesAreNotSeen(v: World, id: nat, labels: seq<string>, a: Answer)
    requires id < |v.checks| && v.checks[id].at.Mutate? && a.accepted && v.store.loaded
    ensures var refused := Outcomes.FanoutOutcome(Outcomes.Refused, None);
            var late := Step(Step(v, StoreEvent(Outcomes.Recording(v.parent, refused))), SetLabels(labels));
            var t := Step(late, Proceed(id, a));
            && Holds(Lookup(late.store.records, v.parent)) && late.labels == labels
            && |t.exits| == |v.exits| + 1 && t.labels == Step(v, Proceed(id, a)).labels
  {
  }

  const GOOD := Answer(true, true, true, true, true, true)

  function Undisturbed(w: World, c: Check, n: nat): Check
    decreases n
  {
    if n == 0 then c else Undisturbed(w, Next(w, c, GOOD), n - 1)
  }

  /** What the parent's labels and registry must say for a poll to have a barrier to check. */
  predicate AtBarrier(w: World) {
    && Truthy(WorkflowId(w.labels)) && Truthy(CurrentState(w.labels)) && WorkflowId(w.labels).value in w.registry
    && IsBarrierState(FindState(w.registry[WorkflowId(w.labels).value].states, CurrentState(w.labels).value))
  }

  /**
   * With the store loaded and nothing in the way, a poll reaches the mutation exactly when the parent is in a barrier state with a forward
   * edge, the recorded outcome does not hold, the children in scope are settled, and the state label is written in the
   * lower case the engine looks for.
   */
  lemma PollReachesTheMutationExactly(w: World)
    requires w.store.loaded
    ensures var c := Undisturbed(w, Check(Asking(ForAttempt(Prefetched(None, None, None))), NOTHING_SEEN), 5);
            var reading := Lookup(w.store.records, w.parent);
            c.at.Mutate? <==>
              && !Holds(reading) && AtBarrier(w)
              && var def, current := w.registry[WorkflowId(w.labels).value], CurrentState(w.labels).value;
                 var st := FindState(def.states, current).value;
                 && AllSettled(w.children, FilterOf(reading), st.scope)
                 && (Scoped(FilterOf(reading), st.scope) ==> SomeRelevant(w.children, FilterOf(reading), st.scope))
                 && Truthy(ResolveBarrierTarget(def, st)) && StateLabel(current) in w.labels
  {
    hide FindState, ResolveBarrierTarget, EvaluateBarrier, AllSettled, SomeRelevant, CurrentState, WorkflowId, Scoped;
    var asking := Check(Asking(ForAttempt(Prefetched(None, None, None))), NOTHING_SEEN);
    var c0 := Next(w, asking, GOOD);
    var c1 := Next(w, c0, GOOD);
    var c2 := Next(w, c1, GOOD);
    var c3 := Next(w, c2, GOOD);
    var c4 := Next(w, c3, GOOD);
    assert Undisturbed(w, asking, 5) == c4 by {
      hide Next;
      assert Undisturbed(w, asking, 5) == Undisturbed(w, c0, 4);
      assert Undisturbed(w, c0, 4) == Undisturbed(w, c1, 3);
      assert Undisturbed(w, c1, 3) == Undisturbed(w, c2, 2);
      assert Undisturbed(w, c2, 2) == Undisturbed(w, c3, 1);
    }
    if c2.at.AttemptEval? {
      AllTerminalExactly(Some(w.children), c2.ev.filter, c2.at.st.scope);
    }
  }
}
