/**
 * src/bootstrap-reconciliation-sweep.ts: five passes over one snapshot of the board, each writing to the live tickets.
 * The outside answers each ticket's reads and writes; `applyBootstrapToIssue` is one of the answers.
 */
module RepairSweep {
  import opened Prelude
  import opened Text
  import opened Labels

  datatype Ticket = Ticket(labels: seq<string>, native: NativeState, delegate: Option<string>)

  /** What bootstrap does with an unenrolled ticket: add a state label (and perhaps swap the `wf:` label), strip it, nothing, or throw. */
  datatype Boot =
    | Enroll(stateLabel: string, swap: Option<string>, delegate: Option<string>, accepted: bool)
    | Reject(accepted: bool)
    | NoBoot
    | BootThrew

  /** A read of the labels before closing: an answer with data, an answer without any, or an exception. */
  datatype LabelRead = LabelsRead | EmptyAnswer | ReadThrew

  datatype Answers = Answers(
    pastGrace: bool, contextRead: bool, boot: Boot,
    agentKnown: bool, dispatched: bool, wakeThrows: bool,
    closeRead: bool, merged: bool, closeLabels: LabelRead, closeAccepted: bool,
    doneRead: bool, clearAccepted: bool, completed: Option<NativeState>, reconcileAccepted: bool,
    seatRead: bool, body: Option<string>, seatAccepted: bool, seatWakeThrows: bool)

  /** Whether a workflow label and a state label name a state with an owner that is not terminal. */
  type Registry = (string, string) -> bool

  const DONE := "state:done"
  const TERMINAL_STATE_LABEL_PREFIXES := ["state:done", "state:escape", "state:canceled"]

  function FirstStarting(labels: seq<string>, prefix: string): (r: Option<string>)
    ensures r.Some? ==> r.value in labels && StartsWith(r.value, prefix)
    ensures r.None? <==> forall l :: l in labels ==> !StartsWith(l, prefix)
  {
    if labels == [] then None
    else if StartsWith(labels[0], prefix) then Some(labels[0])
    else FirstStarting(labels[1..], prefix)
  }

  predicate HasWorkflow(t: Ticket) {
    FirstStarting(t.labels, "wf:").Some?
  }

  predicate HasState(t: Ticket) {
    FirstStarting(t.labels, "state:").Some?
  }

  predicate IsTerminalStateLabel(labels: seq<string>) {
    exists l, p :: l in labels && p in TERMINAL_STATE_LABEL_PREFIXES && StartsWith(l, p)
  }

  predicate NativelyTerminal(t: Ticket) {
    IsTerminalIssueState(Some(t.native))
  }

  predicate IsManaged(l: string) {
    StartsWith(l, "wf:") || StartsWith(l, "state:")
  }

  function WithoutManaged(labels: seq<string>): (r: seq<string>)
    ensures forall l :: l in r <==> l in labels && !IsManaged(l)
  {
    if labels == [] then [] else (if IsManaged(labels[0]) then [] else [labels[0]]) + WithoutManaged(labels[1..])
  }

  // ---- The passes: snapshot decides, live ticket is written ----

  datatype Tally = Tally(healed: nat, seated: nat, withinGrace: nat, woken: nat, errors: nat) {
    function Plus(o: Tally): Tally {
      Tally(healed + o.healed, seated + o.seated, withinGrace + o.withinGrace, woken + o.woken, errors + o.errors)
    }
  }

  const NOTHING := Tally(0, 0, 0, 0, 0)
  const HEALED := Tally(1, 0, 0, 0, 0)
  const SEATED := Tally(0, 1, 0, 0, 0)
  const IN_GRACE := Tally(0, 0, 1, 0, 0)
  const WOKEN := Tally(0, 0, 0, 1, 0)
  const FAILED := Tally(0, 0, 0, 0, 1)

  datatype Passed = Passed(ticket: Ticket, tally: Tally)

  function Stripped(t: Ticket): Ticket {
    Ticket(WithoutManaged(t.labels), t.native, None)
  }

  function Added(labels: seq<string>, l: string): seq<string> {
    if l in labels then labels else labels + [l]
  }

  function Enrolled(t: Ticket, b: Boot): Ticket
    requires b.Enroll?
  {
    var first := FirstStarting(t.labels, "wf:");
    var kept := if b.swap.Some? && first.Some? then Added(Without(t.labels, first.value), b.swap.value) else t.labels;
    t.(labels := kept + [b.stateLabel], delegate := if b.delegate.Some? then b.delegate else t.delegate)
  }

  /** Bootstrap reports success even when its mutation was not accepted. */
  function Bootstrapped(live: Ticket, b: Boot): Passed {
    if HasState(live) || !HasWorkflow(live) then Passed(live, NOTHING)
    else
      match b
      case Enroll(_, _, _, accepted) => Passed(if accepted then Enrolled(live, b) else live, HEALED)
      case Reject(accepted) => Passed(if accepted then Stripped(live) else live, NOTHING)
      case NoBoot => Passed(live, NOTHING)
      case BootThrew => Passed(live, FAILED)
  }

  function EnrollPass(snap: Ticket, live: Ticket, a: Answers): Passed {
    if NativelyTerminal(snap) || HasState(snap) then Passed(live, NOTHING)
    else if !a.pastGrace then Passed(live, IN_GRACE)
    else if !a.contextRead then Passed(live, FAILED)
    else Bootstrapped(live, a.boot)
  }

  predicate Actionable(registry: Registry, t: Ticket) {
    HasWorkflow(t) && HasState(t) && registry(FirstStarting(t.labels, "wf:").value, FirstStarting(t.labels, "state:").value)
  }

  function WakePass(registry: Registry, snap: Ticket, live: Ticket, a: Answers): Passed {
    if NativelyTerminal(snap) || snap.delegate.None? || !Actionable(registry, snap) || !a.agentKnown || a.dispatched then Passed(live, NOTHING)
    else Passed(live, if a.wakeThrows then FAILED else WOKEN)
  }

  /** The native type lets an enrolled ticket be closed: completed with a merged PR, or canceled or duplicate without a done label. */
  predicate Closable(snap: Ticket, live: Ticket, a: Answers) {
    var kind := Lower(live.native.kind);
    if kind == "completed" then a.merged else kind in {"canceled", "cancelled", "duplicate"} && DONE !in snap.labels
  }

  function ClosePass(snap: Ticket, live: Ticket, a: Answers): Passed {
    if !HasState(snap) || !a.closeRead || !Closable(snap, live, a) then Passed(live, NOTHING)
    else if a.closeLabels.ReadThrew? || !a.closeAccepted then Passed(live, FAILED)
    else Passed(if a.closeLabels.EmptyAnswer? then Stripped(live).(labels := []) else Stripped(live), HEALED)
  }

  /** The native types this pass takes for finished, in exactly this spelling. */
  predicate IsFinishedKind(kind: string) {
    kind == "completed" || kind == "canceled"
  }

  function DonePass(snap: Ticket, live: Ticket, a: Answers): Passed {
    if DONE !in snap.labels || !a.doneRead then Passed(live, NOTHING)
    else if IsFinishedKind(live.native.kind) then
      if live.delegate.None? then Passed(live, NOTHING)
      else if a.clearAccepted then Passed(live.(delegate := None), HEALED)
      else Passed(live, FAILED)
    else if a.completed.None? || !a.reconcileAccepted then Passed(live, FAILED)
    else Passed(live.(native := a.completed.value, delegate := None), HEALED)
  }

  /** The live re-read only ever adds reasons not to seat: when it fails, the snapshot decides alone. */
  predicate SeatVetoed(live: Ticket, a: Answers) {
    a.seatRead && (live.delegate.Some? || IsFinishedKind(live.native.kind) || IsTerminalStateLabel(live.labels))
  }

  function SeatPass(registry: Registry, snap: Ticket, live: Ticket, a: Answers): Passed {
    if NativelyTerminal(snap) || snap.delegate.Some? || IsTerminalStateLabel(snap.labels) || !Actionable(registry, snap) || SeatVetoed(live, a)
    then Passed(live, NOTHING)
    else if a.body.None? || !a.seatAccepted then Passed(live, FAILED)
    else Passed(live.(delegate := a.body), if a.seatWakeThrows then SEATED.Plus(FAILED) else SEATED)
  }

  function Pass(p: nat, registry: Registry, snap: Ticket, live: Ticket, a: Answers): Passed {
    if p == 1 then EnrollPass(snap, live, a)
    else if p == 2 then WakePass(registry, snap, live, a)
    else if p == 3 then ClosePass(snap, live, a)
    else if p == 4 then DonePass(snap, live, a)
    else if p == 5 then SeatPass(registry, snap, live, a)
    else Passed(live, NOTHING)
  }

  /** One ticket after the first `p` passes, nobody else writing to it. */
  function Through(p: nat, registry: Registry, t: Ticket, a: Answers): Ticket {
    if p == 0 then t else Pass(p, registry, t, Through(p - 1, registry, t, a), a).ticket
  }

  function SweepTicket(registry: Registry, t: Ticket, a: Answers): Ticket {
    Through(5, registry, t, a)
  }

  // ---- The sweep itself ----

  class Board {
    var tickets: map<string, Ticket>

    constructor (tickets: map<string, Ticket>)
      ensures this.tickets == tickets
    {
      this.tickets := tickets;
    }

    /** One of the five loops. */
    method RunPass(p: nat, registry: Registry, candidates: seq<string>, snapshot: map<string, Ticket>, answers: map<string, Answers>)
      returns (tally: Tally)
      requires NoDup(candidates)
      requires forall id :: id in candidates ==> id in snapshot && id in answers && id in tickets
      modifies this
      ensures tickets.Keys == old(tickets).Keys
      ensures forall id :: id in tickets ==>
                tickets[id] == if id in candidates then Pass(p, registry, snapshot[id], old(tickets)[id], answers[id]).ticket else old(tickets)[id]
      ensures tally == PassTally(p, registry, candidates, snapshot, old(tickets), answers)
    {
      hide Pass;
      tally := NOTHING;
      ghost var before := tickets;
      for i := 0 to |candidates|
        invariant tickets.Keys == before.Keys
        invariant forall id :: id in tickets ==>
                    tickets[id] == if id in candidates[..i] then Pass(p, registry, snapshot[id], before[id], answers[id]).ticket else before[id]
        invariant tally == PassTally(p, registry, candidates[..i], snapshot, before, answers)
      {
        var id := candidates[i];
        assert candidates[..i + 1][..i] == candidates[..i] && id !in candidates[..i];
        var r := Pass(p, registry, snapshot[id], tickets[id], answers[id]);
        tickets := tickets[id := r.ticket];
        tally := tally.Plus(r.tally);
      }
      assert candidates[..|candidates|] == candidates;
    }

    /** Query, then five passes over what the query returned. `None` is a failed query. */
    method RunSweep(registry: Registry, query: Option<seq<string>>, answers: map<string, Answers>) returns (scanned: nat, tally: Tally)
      requires query.Some? ==> NoDup(query.value) && forall id :: id in query.value ==> id in tickets && id in answers
      modifies this
      ensures tickets.Keys == old(tickets).Keys
      ensures query.None? ==> tickets == old(tickets) && tally == FAILED && scanned == 0
      ensures query.Some? ==> scanned == |query.value| && forall id :: id in tickets ==>
                tickets[id] == if id in query.value then SweepTicket(registry, old(tickets)[id], answers[id]) else old(tickets)[id]
      ensures query.Some? ==> tally == TalliesOf(5, registry, query.value, old(tickets), answers)
    {
      hide Pass, Through, TicketTally, TalliesOf, PassTally;
      if query.None? { return 0, FAILED; }
      var candidates, snapshot := query.value, tickets;
      scanned := |candidates|;
      tally := NOTHING;
      NothingCounted(registry, candidates, snapshot, answers);
      forall id | id in candidates
        ensures Through(0, registry, snapshot[id], answers[id]) == snapshot[id]
      {
        ThroughStep(0, registry, snapshot[id], answers[id]);
      }
      assert tickets == ThroughAll(0, registry, candidates, snapshot, answers);
      var p := 1;
      while p <= 5
        invariant 1 <= p <= 6
        invariant tickets == ThroughAll(p - 1, registry, candidates, snapshot, answers)
        invariant tally == TalliesOf(p - 1, registry, candidates, snapshot, answers)
      {
        OnePassMore(p - 1, registry, candidates, snapshot, tickets, answers);
        var part := RunPass(p, registry, candidates, snapshot, answers);
        tally := tally.Plus(part);
        forall id | id in candidates
          ensures Through(p, registry, snapshot[id], answers[id])
               == Pass(p, registry, snapshot[id], Through(p - 1, registry, snapshot[id], answers[id]), answers[id]).ticket
        {
          ThroughStep(p - 1, registry, snapshot[id], answers[id]);
        }
        p := p + 1;
        assert tickets == ThroughAll(p - 1, registry, candidates, snapshot, answers);
      }
    }
  }

  function PassTally(
      p: nat, registry: Registry, ids: seq<string>, snapshot: map<string, Ticket>, live: map<string, Ticket>, answers: map<string, Answers>): Tally
    requires forall id :: id in ids ==> id in snapshot && id in answers && id in live
  {
    if ids == [] then NOTHING
    else
      var id := ids[|ids| - 1];
      PassTally(p, registry, ids[..|ids| - 1], snapshot, live, answers).Plus(Pass(p, registry, snapshot[id], live[id], answers[id]).tally)
  }

  /** The board after the first `p` passes. */
  function ThroughAll(p: nat, registry: Registry, ids: seq<string>, tickets: map<string, Ticket>, answers: map<string, Answers>): (r: map<string, Ticket>)
    requires forall id :: id in ids ==> id in tickets && id in answers
  {
    map id | id in tickets :: if id in ids then Through(p, registry, tickets[id], answers[id]) else tickets[id]
  }

  /** What the first `p` passes count for one ticket. */
  function TicketTally(p: nat, registry: Registry, t: Ticket, a: Answers): Tally {
    if p == 0 then NOTHING else TicketTally(p - 1, registry, t, a).Plus(Pass(p, registry, t, Through(p - 1, registry, t, a), a).tally)
  }

  function TalliesOf(p: nat, registry: Registry, ids: seq<string>, tickets: map<string, Ticket>, answers: map<string, Answers>): Tally
    requires forall id :: id in ids ==> id in tickets && id in answers
  {
    if ids == [] then NOTHING
    else
      var id := ids[|ids| - 1];
      TalliesOf(p, registry, ids[..|ids| - 1], tickets, answers).Plus(TicketTally(p, registry, tickets[id], answers[id]))
  }

  lemma {:induction false} NothingCounted(registry: Registry, ids: seq<string>, tickets: map<string, Ticket>, answers: map<string, Answers>)
    requires forall id :: id in ids ==> id in tickets && id in answers
    ensures TalliesOf(0, registry, ids, tickets, answers) == NOTHING
  {
    if ids != [] {
      NothingCounted(registry, ids[..|ids| - 1], tickets, answers);
    }
  }

  lemma PlusSwaps(a: Tally, b: Tally, c: Tally, d: Tally)
    ensures a.Plus(b).Plus(c.Plus(d)) == a.Plus(c).Plus(b.Plus(d))
  {
  }

  lemma TicketTallyStep(p: nat, registry: Registry, t: Ticket, a: Answers)
    ensures TicketTally(p + 1, registry, t, a) == TicketTally(p, registry, t, a).Plus(Pass(p + 1, registry, t, Through(p, registry, t, a), a).tally)
  {
    hide Pass, Through;
  }

  lemma NothingAdds(y: Tally)
    ensures y.Plus(NOTHING) == y
  {
    assert NOTHING.healed == NOTHING.seated == NOTHING.withinGrace == NOTHING.woken == NOTHING.errors == 0;
  }

  lemma NothingYet(p: nat, registry: Registry, tickets: map<string, Ticket>, live: map<string, Ticket>, answers: map<string, Answers>)
    ensures TalliesOf(p, registry, [], tickets, answers) == PassTally(p + 1, registry, [], tickets, live, answers) == NOTHING
    ensures TalliesOf(p + 1, registry, [], tickets, answers) == NOTHING
  {
  }

  lemma OneTicketMore(p: nat, registry: Registry, ids: seq<string>, tickets: map<string, Ticket>, live: map<string, Ticket>, answers: map<string, Answers>)
    requires ids != [] && forall id :: id in ids ==> id in tickets && id in answers && id in live
    ensures var front, id := ids[..|ids| - 1], ids[|ids| - 1];
            && TalliesOf(p, registry, ids, tickets, answers)
               == TalliesOf(p, registry, front, tickets, answers).Plus(TicketTally(p, registry, tickets[id], answers[id]))
            && PassTally(p + 1, registry, ids, tickets, live, answers)
               == PassTally(p + 1, registry, front, tickets, live, answers).Plus(Pass(p + 1, registry, tickets[id], live[id], answers[id]).tally)
  {
    hide Pass, TicketTally;
  }

  lemma ThroughStep(p: nat, registry: Registry, t: Ticket, a: Answers)
    ensures Through(0, registry, t, a) == t
    ensures Through(p + 1, registry, t, a) == Pass(p + 1, registry, t, Through(p, registry, t, a), a).ticket
  {
    hide Pass;
  }

  /** Counting pass by pass over the board is counting ticket by ticket. */
  lemma {:induction false} OnePassMore(
      p: nat, registry: Registry, ids: seq<string>, tickets: map<string, Ticket>, live: map<string, Ticket>, answers: map<string, Answers>)
    requires forall id :: id in ids ==> id in tickets && id in answers && id in live
    requires forall id :: id in ids ==> live[id] == Through(p, registry, tickets[id], answers[id])
    ensures TalliesOf(p, registry, ids, tickets, answers).Plus(PassTally(p + 1, registry, ids, tickets, live, answers))
            == TalliesOf(p + 1, registry, ids, tickets, answers)
  {
    hide Pass, Through, TicketTally, TalliesOf, PassTally, Tally.Plus;
    if ids == [] {
      NothingYet(p, registry, tickets, live, answers);
      NothingAdds(NOTHING);
    } else {
      var front, id := ids[..|ids| - 1], ids[|ids| - 1];
      OnePassMore(p, registry, front, tickets, live, answers);
      OneTicketMore(p, registry, ids, tickets, live, answers);
      OneTicketMore(p + 1, registry, ids, tickets, live, answers);
      assert id in ids;
      TicketTallyStep(p, registry, tickets[id], answers[id]);
      PlusSwaps(TalliesOf(p, registry, front, tickets, answers), TicketTally(p, registry, tickets[id], answers[id]),
                PassTally(p + 1, registry, front, tickets, live, answers), Pass(p + 1, registry, tickets[id], live[id], answers[id]).tally);
    }
  }

  // ---- What each sweep changes ----

  datatype Change = Enrolling | Rejecting | Closing | ClearingStray | Reconciling | Seating

  /** The change a pass makes, `None` when it leaves the ticket as it is. */
  function ChangeBy(p: nat, registry: Registry, snap: Ticket, live: Ticket, a: Answers): Option<Change> {
    if Pass(p, registry, snap, live, a).ticket == live then None
    else if p == 1 then Some(if a.boot.Enroll? then Enrolling else Rejecting)
    else if p == 3 then Some(Closing)
    else if p == 4 then Some(if IsFinishedKind(live.native.kind) then ClearingStray else Reconciling)
    else Some(Seating)
  }

  function ChangesThrough(p: nat, registry: Registry, t: Ticket, a: Answers): seq<Change> {
    if p == 0 then []
    else
      var c := ChangeBy(p, registry, t, Through(p - 1, registry, t, a), a);
      ChangesThrough(p - 1, registry, t, a) + (if c.Some? then [c.value] else [])
  }

  function Changes(registry: Registry, t: Ticket, a: Answers): seq<Change> {
    ChangesThrough(5, registry, t, a)
  }

  /**
   * What is assumed of the answers: an entry state is not `state:done`, swapped-in labels are workflow labels, and the
   * completed state is of type completed.
   */
  predicate GoodAnswers(a: Answers) {
    && (a.boot.Enroll? ==> StartsWith(a.boot.stateLabel, "state:") && a.boot.stateLabel != DONE
                           && (a.boot.swap.Some? ==> StartsWith(a.boot.swap.value, "wf:")))
    && (a.completed.Some? ==> a.completed.value.kind == "completed")
  }

  /** Linear spells its native types in lower case. */
  predicate Canonical(t: Ticket) {
    Lower(t.native.kind) == t.native.kind
  }

  /** Where a ticket stands between sweeps. */
  datatype Standing =
    | Unmanaged
    | Unenrolled
    | Retired
    | Ownerless
    | Owned
    | Leftover
    | DoneActive
    | DoneSeated
    | DoneClosable
    | DoneCanceled

  function StandingOf(t: Ticket): Standing {
    if !HasWorkflow(t) then Unmanaged
    else if !HasState(t) then if NativelyTerminal(t) then Retired else Unenrolled
    else if DONE in t.labels then
      if !IsFinishedKind(t.native.kind) then DoneActive
      else if t.delegate.Some? then DoneSeated
      else if t.native.kind == "completed" then DoneClosable
      else DoneCanceled
    else if Lower(t.native.kind) in TERMINAL_TYPES then Leftover
    else if t.delegate.None? then Ownerless
    else Owned
  }

  /** How many more changes a ticket can see. */
  function Remaining(s: Standing): nat {
    match s
    case Unenrolled => 2
    case DoneActive => 2
    case DoneSeated => 2
    case Ownerless => 1
    case Leftover => 1
    case DoneClosable => 1
    case _ => 0
  }
}
