/** Repeated repair sweeps: the passes never fight each other, and every ticket comes to rest. */
module RepairRuns {
  import opened Prelude
  import opened Text
  import opened Labels
  import opened RepairSweep

  /** The query finds a ticket by its `wf:` label; the others are not swept. */
  function Swept(registry: Registry, t: Ticket, a: Answers): Ticket {
    if HasWorkflow(t) then SweepTicket(registry, t, a) else t
  }

  function SweptChanges(registry: Registry, t: Ticket, a: Answers): seq<Change> {
    if HasWorkflow(t) then Changes(registry, t, a) else []
  }

  function Run(registry: Registry, t: Ticket, sweeps: seq<Answers>): Ticket {
    if sweeps == [] then t else Swept(registry, Run(registry, t, sweeps[..|sweeps| - 1]), sweeps[|sweeps| - 1])
  }

  /** All changes of a run, in order. */
  function History(registry: Registry, t: Ticket, sweeps: seq<Answers>): seq<Change> {
    if sweeps == [] then []
    else
      var before := sweeps[..|sweeps| - 1];
      History(registry, t, before) + SweptChanges(registry, Run(registry, t, before), sweeps[|sweeps| - 1])
  }

  // ---- One sweep ----

  /** The standings a change leads from and to. */
  predicate Moves(s: Standing, c: Change, r: Standing) {
    match c
    case Enrolling => s == Unenrolled && (r == Ownerless || r == Owned)
    case Rejecting => s == Unenrolled && r == Unmanaged
    case Closing => (s == Leftover || s == DoneSeated || s == DoneClosable) && r == Unmanaged
    case ClearingStray => s == DoneSeated && (r == DoneClosable || r == DoneCanceled)
    case Reconciling => s == DoneActive && r == DoneClosable
    case Seating => s == Ownerless && r == Owned
  }

  lemma DoneIsState(t: Ticket)
    requires DONE in t.labels
    ensures HasState(t) && IsTerminalStateLabel(t.labels)
  {
    assert StartsWith(DONE, "state:") && StartsWith(DONE, "state:done");
    assert TERMINAL_STATE_LABEL_PREFIXES[0] == "state:done";
  }

  lemma UnenrolledIsLeftAlone(registry: Registry, snap: Ticket, live: Ticket, a: Answers)
    requires !HasState(snap)
    ensures ClosePass(snap, live, a).ticket == live && DonePass(snap, live, a).ticket == live && SeatPass(registry, snap, live, a).ticket == live
  {
    hide HasState;
    if DONE in snap.labels {
      DoneIsState(snap);
    }
  }

  lemma EnrolledStands(t: Ticket, b: Boot)
    requires b.Enroll? && StartsWith(b.stateLabel, "state:") && b.stateLabel != DONE && (b.swap.Some? ==> StartsWith(b.swap.value, "wf:"))
    requires HasWorkflow(t) && !HasState(t) && !NativelyTerminal(t)
    ensures var e := Enrolled(t, b); e != t && (StandingOf(e) == Ownerless || StandingOf(e) == Owned)
  {
    hide FirstStarting, IsTerminalIssueState;
    var e := Enrolled(t, b);
    assert e.labels[|e.labels| - 1] == b.stateLabel && b.stateLabel in e.labels;
    if b.swap.Some? {
      assert b.swap.value in e.labels;
    }
    NativeKindIsActive(t);
    if DONE in t.labels {
      DoneIsState(t);
    }
    assert DONE !in e.labels by {
      if b.swap.Some? {
        assert b.swap.value[..3] == "wf:" && b.swap.value[..3][0] == 'w' && DONE[0] == 's';
      }
    }
  }

  lemma NativeKindIsActive(t: Ticket)
    requires !NativelyTerminal(t)
    ensures Lower(t.native.kind) !in TERMINAL_TYPES
  {
  }

  lemma StrippedIsUnmanaged(t: Ticket)
    ensures !HasWorkflow(Stripped(t)) && !HasWorkflow(Stripped(t).(labels := []))
    ensures !HasState(Stripped(t))
    ensures HasWorkflow(t) ==> Stripped(t) != t && Stripped(t).(labels := []) != t
  {
  }

  lemma SweepOfUnenrolled(registry: Registry, t: Ticket, a: Answers)
    requires GoodAnswers(a) && HasWorkflow(t) && !HasState(t)
    ensures Settles(registry, t, a)
  {
    hide HasWorkflow, HasState, NativelyTerminal, Enrolled, Stripped, ClosePass, DonePass, SeatPass, StartsWith;
    var t1 := EnrollPass(t, t, a).ticket;
    UnenrolledIsLeftAlone(registry, t, t1, a);
    FirstPass(registry, t, a);
    if t1 != t {
      if a.boot.Enroll? {
        EnrolledStands(t, a.boot);
      } else {
        StrippedIsUnmanaged(t);
      }
      UnmanagedStands(t1);
      UnenrolledStands(t);
    }
  }

  lemma UnmanagedStands(t: Ticket)
    ensures !HasWorkflow(t) ==> StandingOf(t) == Unmanaged
  {
  }

  lemma UnenrolledStands(t: Ticket)
    requires HasWorkflow(t) && !HasState(t)
    ensures StandingOf(t) == if NativelyTerminal(t) then Retired else Unenrolled
  {
  }

  /** After the first pass changed something, or nothing, what the other passes do is all there is to see. */
  lemma FirstPass(registry: Registry, t: Ticket, a: Answers)
    ensures var t1 := EnrollPass(t, t, a).ticket;
            var t3 := ClosePass(t, t1, a).ticket;
            var t4 := DonePass(t, t3, a).ticket;
            var t5 := SeatPass(registry, t, t4, a).ticket;
            && SweepTicket(registry, t, a) == t5
            && Changes(registry, t, a) ==
                 (if t1 == t then [] else [if a.boot.Enroll? then Enrolling else Rejecting])
                 + (if t3 == t1 then [] else [Closing])
                 + (if t4 == t3 then [] else [if IsFinishedKind(t3.native.kind) then ClearingStray else Reconciling])
                 + (if t5 == t4 then [] else [Seating])
  {
    hide EnrollPass, ClosePass, DonePass, SeatPass, IsFinishedKind;
    var t1 := EnrollPass(t, t, a).ticket;
    var t3 := ClosePass(t, t1, a).ticket;
    var t4 := DonePass(t, t3, a).ticket;
    assert Through(1, registry, t, a) == t1 by { assert Through(0, registry, t, a) == t; }
    assert Through(2, registry, t, a) == t1;
    assert Through(3, registry, t, a) == t3;
    assert Through(4, registry, t, a) == t4;
    assert ChangesThrough(0, registry, t, a) == [];
    var c1 := ChangesThrough(1, registry, t, a);
    assert c1 == if t1 == t then [] else [if a.boot.Enroll? then Enrolling else Rejecting];
    assert ChangesThrough(2, registry, t, a) == c1;
    var c3 := ChangesThrough(3, registry, t, a);
    assert c3 == c1 + (if t3 == t1 then [] else [Closing]);
    var c4 := ChangesThrough(4, registry, t, a);
    assert c4 == c3 + (if t4 == t3 then [] else [if IsFinishedKind(t3.native.kind) then ClearingStray else Reconciling]);
  }

  /** A sweep makes no change, or exactly one, between two standings that fit it. */
  predicate Settles(registry: Registry, t: Ticket, a: Answers) {
    var r, cs := SweepTicket(registry, t, a), Changes(registry, t, a);
    (cs == [] && r == t) || (|cs| == 1 && r != t && Moves(StandingOf(t), cs[0], StandingOf(r)))
  }

  lemma EnrolledSkipsFirstPass(t: Ticket, a: Answers)
    requires HasState(t)
    ensures EnrollPass(t, t, a).ticket == t
  {
  }

  lemma CloseThenNothing(registry: Registry, t: Ticket, a: Answers)
    requires Canonical(t) && HasWorkflow(t) && HasState(t) && ClosePass(t, t, a).ticket != t
    ensures var closed := ClosePass(t, t, a).ticket;
            && DonePass(t, closed, a).ticket == closed && SeatPass(registry, t, closed, a).ticket == closed
            && StandingOf(closed) == Unmanaged
            && (StandingOf(t) == Leftover || StandingOf(t) == DoneSeated || StandingOf(t) == DoneClosable)
  {
    hide FirstStarting, IsTerminalStateLabel, Lower;
    StrippedIsUnmanaged(t);
    assert Lower(t.native.kind) in TERMINAL_TYPES;
  }

  lemma DoneThenNothing(registry: Registry, t: Ticket, a: Answers)
    requires GoodAnswers(a) && Canonical(t) && HasWorkflow(t) && HasState(t)
    requires ClosePass(t, t, a).ticket == t && DonePass(t, t, a).ticket != t
    ensures var healed := DonePass(t, t, a).ticket;
            && SeatPass(registry, t, healed, a).ticket == healed
            && (if IsFinishedKind(t.native.kind) then StandingOf(t) == DoneSeated && (StandingOf(healed) == DoneClosable || StandingOf(healed) == DoneCanceled)
                else StandingOf(t) == DoneActive && StandingOf(healed) == DoneClosable)
  {
    hide FirstStarting, IsTerminalStateLabel, Lower, IsTerminalIssueState, ClosePass, StartsWith;
    DoneIsState(t);
  }

  lemma SeatStands(registry: Registry, t: Ticket, a: Answers)
    requires HasWorkflow(t) && HasState(t) && SeatPass(registry, t, t, a).ticket != t
    ensures StandingOf(t) == Ownerless && StandingOf(SeatPass(registry, t, t, a).ticket) == Owned
  {
    hide FirstStarting, IsTerminalStateLabel;
    NativeKindIsActive(t);
    if DONE in t.labels {
      DoneIsState(t);
    }
  }

  lemma SweepOfEnrolled(registry: Registry, t: Ticket, a: Answers)
    requires GoodAnswers(a) && Canonical(t) && HasWorkflow(t) && HasState(t)
    ensures Settles(registry, t, a)
  {
    hide HasWorkflow, HasState, EnrollPass, ClosePass, DonePass, SeatPass, StandingOf, GoodAnswers, Canonical, IsFinishedKind;
    FirstPass(registry, t, a);
    EnrolledSkipsFirstPass(t, a);
    if ClosePass(t, t, a).ticket != t {
      CloseThenNothing(registry, t, a);
    } else if DonePass(t, t, a).ticket != t {
      DoneThenNothing(registry, t, a);
    } else if SeatPass(registry, t, t, a).ticket != t {
      SeatStands(registry, t, a);
    }
  }

  /** At most one pass changes a ticket in a sweep, and none undoes another's change. */
  lemma AtMostOnePassChanges(registry: Registry, t: Ticket, a: Answers)
    requires GoodAnswers(a) && Canonical(t) && HasWorkflow(t)
    ensures Settles(registry, t, a)
  {
    hide Settles, HasState, HasWorkflow, GoodAnswers, Canonical;
    if HasState(t) {
      SweepOfEnrolled(registry, t, a);
    } else {
      SweepOfUnenrolled(registry, t, a);
    }
  }

  lemma DoneKeepsCanonical(snap: Ticket, live: Ticket, a: Answers)
    requires GoodAnswers(a) && Canonical(live)
    ensures Canonical(DonePass(snap, live, a).ticket)
  {
    assert Lower("completed") == "completed";
  }

  lemma SweepKeepsCanonical(registry: Registry, t: Ticket, a: Answers)
    requires GoodAnswers(a) && Canonical(t)
    ensures Canonical(Swept(registry, t, a))
  {
    FirstPass(registry, t, a);
    DoneKeepsCanonical(t, ClosePass(t, EnrollPass(t, t, a).ticket, a).ticket, a);
  }

  /** One sweep: no change, or one change that uses up what remains. */
  lemma SweepStep(registry: Registry, t: Ticket, a: Answers)
    requires GoodAnswers(a) && Canonical(t)
    ensures var r, cs := Swept(registry, t, a), SweptChanges(registry, t, a);
            (cs == [] && r == t) || (|cs| == 1 && r != t && Moves(StandingOf(t), cs[0], StandingOf(r)))
    ensures Remaining(StandingOf(Swept(registry, t, a))) + |SweptChanges(registry, t, a)| <= Remaining(StandingOf(t)) <= 2
  {
    hide StandingOf, HasWorkflow, SweepTicket, Changes;
    if HasWorkflow(t) {
      AtMostOnePassChanges(registry, t, a);
    }
  }

  // ---- Runs ----

  predicate AllGood(sweeps: seq<Answers>) {
    forall a :: a in sweeps ==> GoodAnswers(a)
  }

  lemma {:induction false} RunUsesUpWhatRemains(registry: Registry, t: Ticket, sweeps: seq<Answers>)
    requires AllGood(sweeps) && Canonical(t)
    ensures Canonical(Run(registry, t, sweeps))
    ensures Remaining(StandingOf(Run(registry, t, sweeps))) + |History(registry, t, sweeps)| <= Remaining(StandingOf(t)) <= 2
  {
    hide StandingOf, Canonical, GoodAnswers, Swept, SweptChanges, Remaining;
    if sweeps != [] {
      var before, a := sweeps[..|sweeps| - 1], sweeps[|sweeps| - 1];
      RunUsesUpWhatRemains(registry, t, before);
      SweepStep(registry, Run(registry, t, before), a);
      SweepKeepsCanonical(registry, Run(registry, t, before), a);
    } else {
      RemainingIsSmall(StandingOf(t));
    }
  }

  lemma RemainingIsSmall(s: Standing)
    ensures Remaining(s) <= 2
  {
  }

  /** Over any run of sweeps, whatever fails in between, the repair changes a ticket at most twice. */
  lemma AtMostTwoChanges(registry: Registry, t: Ticket, sweeps: seq<Answers>)
    requires AllGood(sweeps) && Canonical(t)
    ensures |History(registry, t, sweeps)| <= 2
  {
    RunUsesUpWhatRemains(registry, t, sweeps);
  }

  predicate Possible(h: seq<Change>) {
    h in [[], [Enrolling], [Enrolling, Seating], [Seating], [Closing], [Rejecting], [ClearingStray], [ClearingStray, Closing], [Reconciling], [Reconciling, Closing]]
  }

  /** Where a ticket stands after a history. */
  predicate StandsAfter(start: Standing, h: seq<Change>, s: Standing) {
    if h == [] then s == start
    else if h == [Enrolling] then s == Ownerless || s == Owned
    else if h == [Enrolling, Seating] || h == [Seating] then s == Owned
    else if h == [ClearingStray] then s == DoneClosable || s == DoneCanceled
    else if h == [Reconciling] then s == DoneClosable
    else s == Unmanaged
  }

  lemma HistoryGrows(start: Standing, h: seq<Change>, s: Standing, c: Change, r: Standing)
    requires Possible(h) && StandsAfter(start, h, s) && Moves(s, c, r)
    ensures Possible(h + [c]) && StandsAfter(start, h + [c], r)
  {
    var g := h + [c];
    if h == [] {
      assert g == [c];
    } else {
      assert |h| == 1 && g == [h[0], c];
    }
  }

  /** No history but the ten can happen, and each leaves the ticket where `StandsAfter` says. */
  lemma {:induction false} OnlyTenHistories(registry: Registry, t: Ticket, sweeps: seq<Answers>)
    requires AllGood(sweeps) && Canonical(t)
    ensures Possible(History(registry, t, sweeps))
    ensures StandsAfter(StandingOf(t), History(registry, t, sweeps), StandingOf(Run(registry, t, sweeps)))
  {
    hide StandingOf, Canonical, GoodAnswers, Swept, SweptChanges, Remaining, Moves, Possible, StandsAfter;
    if sweeps != [] {
      var before, a := sweeps[..|sweeps| - 1], sweeps[|sweeps| - 1];
      OnlyTenHistories(registry, t, before);
      RunUsesUpWhatRemains(registry, t, before);
      var u := Run(registry, t, before);
      SweepStep(registry, u, a);
      var h, cs := History(registry, t, before), SweptChanges(registry, u, a);
      if cs == [] {
        assert h + cs == h;
      } else {
        assert h + cs == h + [cs[0]];
        HistoryGrows(StandingOf(t), h, StandingOf(u), cs[0], StandingOf(Swept(registry, u, a)));
      }
    } else {
      EmptyHistory(StandingOf(t));
    }
  }

  lemma EmptyHistory(s: Standing)
    ensures Possible([]) && StandsAfter(s, [], s)
  {
    var hs: seq<seq<Change>> := [[], [Enrolling], [Enrolling, Seating], [Seating], [Closing], [Rejecting], [ClearingStray], [ClearingStray, Closing], [Reconciling], [Reconciling, Closing]];
    assert hs[0] == [];
  }

  // ---- Each of the ten happens ----

  /** A sweep in which every read fails and nothing is due. */
  const QUIET := Answers(false, false, NoBoot, false, false, false, false, false, LabelsRead, false, false, false, None, false, false, None, false, false)

  const ENROLLING := QUIET.(pastGrace := true, contextRead := true, boot := Enroll("state:a", None, None, true))
  const REJECTING := QUIET.(pastGrace := true, contextRead := true, boot := Reject(true))
  const CLOSING := QUIET.(closeRead := true, merged := true, closeAccepted := true)
  const CLEARING := QUIET.(doneRead := true, clearAccepted := true)
  const RECONCILING := QUIET.(doneRead := true, completed := Some(NativeState("Done", "completed")), reconcileAccepted := true)
  const SEATING := QUIET.(body := Some("x"), seatAccepted := true)

  lemma EnrollingIsPossible(registry: Registry, t: Ticket)
    requires StandingOf(t) == Unenrolled
    ensures GoodAnswers(ENROLLING)
    ensures SweptChanges(registry, t, ENROLLING) == [Enrolling] && Swept(registry, t, ENROLLING) == t.(labels := t.labels + ["state:a"])
  {
    hide HasWorkflow, HasState, NativelyTerminal, ClosePass, DonePass, SeatPass;
    var a := ENROLLING;
    assert StartsWith(a.boot.stateLabel, "state:") && |a.boot.stateLabel| != |DONE|;
    EnrolledStands(t, a.boot);
    UnenrolledIsLeftAlone(registry, t, Enrolled(t, a.boot), a);
    FirstPass(registry, t, a);
  }

  lemma RejectingIsPossible(registry: Registry, t: Ticket)
    requires StandingOf(t) == Unenrolled
    ensures GoodAnswers(REJECTING) && SweptChanges(registry, t, REJECTING) == [Rejecting]
  {
    hide HasWorkflow, HasState, NativelyTerminal, ClosePass, DonePass, SeatPass, Stripped;
    StrippedIsUnmanaged(t);
    UnenrolledIsLeftAlone(registry, t, Stripped(t), REJECTING);
    FirstPass(registry, t, REJECTING);
  }

  lemma ClosingIsPossible(registry: Registry, t: Ticket)
    requires Canonical(t) && (StandingOf(t) == DoneClosable || (StandingOf(t) == Leftover && t.native.kind == "canceled"))
    ensures GoodAnswers(CLOSING) && SweptChanges(registry, t, CLOSING) == [Closing]
  {
    hide HasWorkflow, HasState, NativelyTerminal, DonePass, SeatPass, Stripped;
    assert Closable(t, t, CLOSING);
    StrippedIsUnmanaged(t);
    EnrolledSkipsFirstPass(t, CLOSING);
    assert ClosePass(t, t, CLOSING).ticket == Stripped(t) != t;
    CloseThenNothing(registry, t, CLOSING);
    FirstPass(registry, t, CLOSING);
  }

  lemma ClearingIsPossible(registry: Registry, t: Ticket)
    requires Canonical(t) && StandingOf(t) == DoneSeated
    ensures GoodAnswers(CLEARING)
    ensures SweptChanges(registry, t, CLEARING) == [ClearingStray] && Swept(registry, t, CLEARING) == t.(delegate := None)
  {
    hide HasWorkflow, HasState, NativelyTerminal, SeatPass;
    EnrolledSkipsFirstPass(t, CLEARING);
    DoneThenNothing(registry, t, CLEARING);
    FirstPass(registry, t, CLEARING);
  }

  lemma ReconcilingIsPossible(registry: Registry, t: Ticket)
    requires Canonical(t) && StandingOf(t) == DoneActive
    ensures GoodAnswers(RECONCILING)
    ensures SweptChanges(registry, t, RECONCILING) == [Reconciling]
    ensures Canonical(Swept(registry, t, RECONCILING)) && StandingOf(Swept(registry, t, RECONCILING)) == DoneClosable
  {
    hide HasWorkflow, HasState, NativelyTerminal, SeatPass;
    EnrolledSkipsFirstPass(t, RECONCILING);
    DoneThenNothing(registry, t, RECONCILING);
    FirstPass(registry, t, RECONCILING);
    DoneKeepsCanonical(t, t, RECONCILING);
  }

  lemma SeatingIsPossible(registry: Registry, t: Ticket)
    requires StandingOf(t) == Ownerless && !NativelyTerminal(t) && !IsTerminalStateLabel(t.labels) && Actionable(registry, t)
    ensures GoodAnswers(SEATING) && SweptChanges(registry, t, SEATING) == [Seating]
  {
    hide HasWorkflow, HasState, NativelyTerminal, IsTerminalStateLabel, Actionable;
    EnrolledSkipsFirstPass(t, SEATING);
    FirstPass(registry, t, SEATING);
  }

  /** Any state has an owner. */
  function EveryStateOwned(): Registry {
    (workflow: string, state: string) => true
  }

  /** A ticket of the given labels and native type. */
  function ATicket(labels: seq<string>, kind: string, delegate: Option<string>): Ticket {
    Ticket(labels, NativeState("N", kind), delegate)
  }

  ghost predicate Happens(h: seq<Change>) {
    exists registry: Registry, t: Ticket, sweeps: seq<Answers> :: AllGood(sweeps) && Canonical(t) && History(registry, t, sweeps) == h
  }

  lemma HappensInOne(registry: Registry, t: Ticket, a: Answers)
    requires GoodAnswers(a) && Canonical(t)
    ensures Happens(SweptChanges(registry, t, a))
  {
    hide GoodAnswers, Canonical, SweptChanges, Swept;
    OneSweepHistory(registry, t, a);
  }

  lemma OneSweepHistory(registry: Registry, t: Ticket, a: Answers)
    ensures Run(registry, t, [a]) == Swept(registry, t, a) && History(registry, t, [a]) == SweptChanges(registry, t, a)
  {
    hide SweptChanges, Swept;
    var one := [a];
    assert one[..|one| - 1] == [] && Run(registry, t, []) == t && History(registry, t, []) == [];
  }

  lemma HappensInTwo(registry: Registry, t: Ticket, a: Answers, b: Answers)
    requires GoodAnswers(a) && GoodAnswers(b) && Canonical(t)
    ensures Happens(SweptChanges(registry, t, a) + SweptChanges(registry, Swept(registry, t, a), b))
  {
    hide GoodAnswers, Canonical, SweptChanges, Swept;
    OneSweepHistory(registry, t, a);
    var two := [a, b];
    assert two[..|two| - 1] == [a];
    assert History(registry, t, two) == SweptChanges(registry, t, a) + SweptChanges(registry, Swept(registry, t, a), b);
  }

  lemma KindsSpelled()
    ensures Lower("unstarted") == "unstarted" && Lower("completed") == "completed" && Lower("canceled") == "canceled" && Lower("N") == "n"
    ensures "unstarted" !in TERMINAL_TYPES && !IsFinishedKind("unstarted") && "canceled" in TERMINAL_TYPES && "completed" in TERMINAL_TYPES
    ensures "n" !in TERMINAL_NAMES && "state:a" != DONE
  {
    assert |"state:a"| == 7 && |DONE| == 10;
    assert |"unstarted"| == 9 && "unstarted"[0] == 'u';
    assert "completed"[0] == 'c' && "duplicate"[0] == 'd';
  }

  lemma LabelsSpelled(state: string)
    requires state == "state:a" || state == DONE
    ensures FirstStarting(["wf:a", state], "wf:") == Some("wf:a") && FirstStarting(["wf:a", state], "state:") == Some(state)
    ensures FirstStarting(["wf:a"], "wf:") == Some("wf:a") && FirstStarting(["wf:a"], "state:") == None
    ensures DONE !in ["wf:a"] && (DONE in ["wf:a", state] <==> state == DONE)
    ensures state != DONE ==> !IsTerminalStateLabel(["wf:a", state])
  {
    assert StartsWith("wf:a", "wf:") && !StartsWith("wf:a", "state:") && StartsWith(state, "state:") && "wf:a"[0] != DONE[0];
    var ls := ["wf:a", state];
    assert ls[1..] == [state] && ls[0] == "wf:a";
    if state != DONE {
      assert |state| == 7 && |DONE| == 10 && |TERMINAL_STATE_LABEL_PREFIXES[1]| == 12 && |TERMINAL_STATE_LABEL_PREFIXES[2]| == 14;
    }
  }

  /** Tickets to start from. */
  lemma Starts()
    ensures StandingOf(ATicket(["wf:a"], "unstarted", None)) == Unenrolled && Canonical(ATicket(["wf:a"], "unstarted", None))
    ensures var t := ATicket(["wf:a", "state:a"], "unstarted", None);
            StandingOf(t) == Ownerless && Canonical(t) && !NativelyTerminal(t) && !IsTerminalStateLabel(t.labels) && Actionable(EveryStateOwned(), t)
    ensures StandingOf(ATicket(["wf:a", "state:a"], "canceled", None)) == Leftover && Canonical(ATicket(["wf:a", "state:a"], "canceled", None))
    ensures StandingOf(ATicket(["wf:a", DONE], "completed", Some("x"))) == DoneSeated && Canonical(ATicket(["wf:a", DONE], "completed", Some("x")))
    ensures StandingOf(ATicket(["wf:a", DONE], "completed", None)) == DoneClosable && Canonical(ATicket(["wf:a", DONE], "completed", None))
    ensures StandingOf(ATicket(["wf:a", DONE], "unstarted", None)) == DoneActive && Canonical(ATicket(["wf:a", DONE], "unstarted", None))
  {
    hide FirstStarting, Lower, IsTerminalStateLabel, TERMINAL_TYPES, TERMINAL_NAMES, DONE;
    KindsSpelled();
    LabelsSpelled("state:a");
    LabelsSpelled(DONE);
  }

  lemma EachHappensInOne()
    ensures Happens([Enrolling]) && Happens([Rejecting]) && Happens([Seating]) && Happens([Closing]) && Happens([ClearingStray]) && Happens([Reconciling])
    ensures Happens([])
  {
    hide StandingOf, Canonical, NativelyTerminal, IsTerminalStateLabel, Actionable, Happens, SweptChanges, Swept, GoodAnswers, DONE;
    Starts();
    var g := EveryStateOwned();
    var unenrolled, ownerless := ATicket(["wf:a"], "unstarted", None), ATicket(["wf:a", "state:a"], "unstarted", None);
    EnrollingIsPossible(g, unenrolled);
    HappensInOne(g, unenrolled, ENROLLING);
    RejectingIsPossible(g, unenrolled);
    HappensInOne(g, unenrolled, REJECTING);
    SeatingIsPossible(g, ownerless);
    HappensInOne(g, ownerless, SEATING);
    var closable, seated, active := ATicket(["wf:a", DONE], "completed", None), ATicket(["wf:a", DONE], "completed", Some("x")), ATicket(["wf:a", DONE], "unstarted", None);
    ClosingIsPossible(g, closable);
    HappensInOne(g, closable, CLOSING);
    ClearingIsPossible(g, seated);
    HappensInOne(g, seated, CLEARING);
    ReconcilingIsPossible(g, active);
    HappensInOne(g, active, RECONCILING);
    NoSweepHappens(g, active);
  }

  lemma NoSweepHappens(registry: Registry, t: Ticket)
    requires Canonical(t)
    ensures Happens([])
  {
    hide Canonical;
    assert AllGood([]) && History(registry, t, []) == [];
  }

  lemma EachHappensInTwo()
    ensures Happens([Enrolling, Seating]) && Happens([ClearingStray, Closing]) && Happens([Reconciling, Closing])
  {
    hide StandingOf, Canonical, NativelyTerminal, IsTerminalStateLabel, Actionable, Happens, SweptChanges, Swept, GoodAnswers, DONE;
    Starts();
    var g := EveryStateOwned();
    var unenrolled, ownerless := ATicket(["wf:a"], "unstarted", None), ATicket(["wf:a", "state:a"], "unstarted", None);
    EnrollingIsPossible(g, unenrolled);
    assert Swept(g, unenrolled, ENROLLING) == ownerless;
    SeatingIsPossible(g, ownerless);
    HappensInTwo(g, unenrolled, ENROLLING, SEATING);
    assert [Enrolling] + [Seating] == [Enrolling, Seating];
    var seated, active := ATicket(["wf:a", DONE], "completed", Some("x")), ATicket(["wf:a", DONE], "unstarted", None);
    ClearingIsPossible(g, seated);
    ClosingIsPossible(g, Swept(g, seated, CLEARING));
    HappensInTwo(g, seated, CLEARING, CLOSING);
    assert [ClearingStray] + [Closing] == [ClearingStray, Closing];
    ReconcilingIsPossible(g, active);
    ClosingIsPossible(g, Swept(g, active, RECONCILING));
    HappensInTwo(g, active, RECONCILING, CLOSING);
    assert [Reconciling] + [Closing] == [Reconciling, Closing];
  }

  /** The histories that happen are the ten, and each of the ten does. */
  lemma HistoriesExactly(h: seq<Change>)
    ensures Happens(h) <==> Possible(h)
  {
    hide History, Canonical, AllGood;
    if Happens(h) {
      var registry: Registry, t: Ticket, sweeps: seq<Answers> :| AllGood(sweeps) && Canonical(t) && History(registry, t, sweeps) == h;
      OnlyTenHistories(registry, t, sweeps);
    }
    EachHappensInOne();
    EachHappensInTwo();
  }

  /** With the same answers every time, two sweeps bring a ticket to rest: no later sweep changes anything. */
  lemma TwoSweepsSettle(registry: Registry, t: Ticket, a: Answers)
    requires GoodAnswers(a) && Canonical(t)
    ensures var twice := Swept(registry, Swept(registry, t, a), a); Swept(registry, twice, a) == twice
  {
    hide StandingOf, Canonical, GoodAnswers, Swept, SweptChanges, Moves, Remaining;
    var once := Swept(registry, t, a);
    var twice := Swept(registry, once, a);
    SweepStep(registry, t, a);
    SweepKeepsCanonical(registry, t, a);
    SweepStep(registry, once, a);
    SweepKeepsCanonical(registry, once, a);
    SweepStep(registry, twice, a);
  }

  // ---- Races, and what a close really keeps ----

  /**
   * However the live ticket has moved on since the snapshot, a successful re-read keeps the seat off a ticket that has
   * an owner, is natively finished or carries a terminal label.
   */
  lemma SeatRespectsTheLiveTicket(registry: Registry, snap: Ticket, live: Ticket, a: Answers)
    requires a.seatRead && SeatPass(registry, snap, live, a).ticket != live
    ensures live.delegate.None? && !IsFinishedKind(live.native.kind) && !IsTerminalStateLabel(live.labels)
  {
    hide IsTerminalStateLabel, NativelyTerminal, Actionable;
  }

  /** A ticket that was signed off after the snapshot gets an owner exactly when the re-read fails and the seat itself goes through. */
  lemma SignedOffTicketIsSeatedExactly(registry: Registry, snap: Ticket, live: Ticket, a: Answers)
    requires !NativelyTerminal(snap) && snap.delegate.None? && !IsTerminalStateLabel(snap.labels) && Actionable(registry, snap)
    requires DONE in live.labels && live.delegate.None?
    ensures SeatPass(registry, snap, live, a).ticket != live <==> !a.seatRead && a.body.Some? && a.seatAccepted
  {
    hide NativelyTerminal, Actionable, IsTerminalStateLabel;
    DoneIsState(live);
  }

  /**
   * The done pass leaves the native state of a natively terminal ticket alone exactly when its type is spelled
   * `completed` or `canceled`: a duplicate labelled `state:done` is moved to the completed state.
   */
  lemma FinishedNativeStateIsKeptExactly(t: Ticket, a: Answers)
    requires GoodAnswers(a) && DONE in t.labels && a.doneRead && a.completed.Some? && a.reconcileAccepted
    ensures DonePass(t, t, a).ticket.native == t.native <==> IsFinishedKind(t.native.kind)
  {
  }

  /** Closing keeps exactly the labels that are no workflow facets, if the label read had data or there was nothing to keep. */
  lemma CloseKeepsOtherLabelsExactly(snap: Ticket, live: Ticket, a: Answers)
    requires ClosePass(snap, live, a).tally == HEALED
    ensures (forall l :: l in ClosePass(snap, live, a).ticket.labels <==> l in live.labels && !IsManaged(l))
            <==> a.closeLabels.LabelsRead? || forall l :: l in live.labels ==> IsManaged(l)
  {
    hide Closable, IsManaged;
  }

  // ---- What a run keeps ----

  /** Which pass can touch the native state, and how. */
  lemma NativeInPasses(registry: Registry, t: Ticket, a: Answers)
    requires GoodAnswers(a)
    ensures var r, cs := Swept(registry, t, a), SweptChanges(registry, t, a);
            if Reconciling in cs then r.native.kind == "completed" && !IsFinishedKind(t.native.kind) else r.native == t.native
  {
    hide HasWorkflow, HasState, NativelyTerminal, Closable, Actionable, IsTerminalStateLabel, SeatVetoed, Without, WithoutManaged, FirstStarting, StartsWith;
    FirstPass(registry, t, a);
    var t1 := EnrollPass(t, t, a).ticket;
    var t3 := ClosePass(t, t1, a).ticket;
    var t4 := DonePass(t, t3, a).ticket;
    var t5 := SeatPass(registry, t, t4, a).ticket;
    assert t1.native == t.native && t3.native == t1.native && t5.native == t4.native;
  }

  /**
   * Over any run a ticket keeps its native state exactly when it is never reconciled; and reconciling takes any type but
   * `completed` and `canceled`, in exactly this spelling, to the completed state, a duplicate too.
   */
  lemma {:induction false} NativeStateIsKeptExactly(registry: Registry, t: Ticket, sweeps: seq<Answers>)
    requires AllGood(sweeps)
    ensures var r := Run(registry, t, sweeps);
            && (r.native == t.native <==> Reconciling !in History(registry, t, sweeps))
            && (Reconciling in History(registry, t, sweeps) ==> r.native.kind == "completed" && !IsFinishedKind(t.native.kind))
  {
    hide GoodAnswers, Swept, SweptChanges;
    if sweeps != [] {
      var before, a := sweeps[..|sweeps| - 1], sweeps[|sweeps| - 1];
      NativeStateIsKeptExactly(registry, t, before);
      NativeInPasses(registry, Run(registry, t, before), a);
    }
  }

  /** The close pass writes over labels it could not read. */
  predicate Blanks(t: Ticket, a: Answers) {
    HasWorkflow(t) && HasState(t) && a.closeRead && Closable(t, t, a) && a.closeAccepted && a.closeLabels.EmptyAnswer?
  }

  ghost predicate SameOthers(a: Ticket, b: Ticket) {
    forall l :: !IsManaged(l) ==> (l in a.labels <==> l in b.labels)
  }

  predicate HasOthers(t: Ticket) {
    exists l :: l in t.labels && !IsManaged(l)
  }

  lemma EnrollKeepsOthers(t: Ticket, a: Answers)
    requires GoodAnswers(a)
    ensures SameOthers(t, EnrollPass(t, t, a).ticket)
  {
    hide StartsWith, NativelyTerminal;
  }

  lemma SweepKeepsOthersExactly(registry: Registry, t: Ticket, a: Answers)
    requires GoodAnswers(a)
    ensures if Blanks(t, a) then Swept(registry, t, a).labels == [] else SameOthers(t, Swept(registry, t, a))
  {
    hide HasState, NativelyTerminal, Closable, Actionable, IsTerminalStateLabel, SeatVetoed, StartsWith, IsFinishedKind, GoodAnswers, EnrollPass, HasWorkflow, IsManaged;
    FirstPass(registry, t, a);
    EnrollKeepsOthers(t, a);
    if HasState(t) {
      EnrolledSkipsFirstPass(t, a);
    }
  }

  lemma NothingLeftToBlank(registry: Registry, t: Ticket, a: Answers)
    requires t.labels == []
    ensures Swept(registry, t, a) == t && !Blanks(t, a)
  {
  }

  lemma {:induction false} OthersAfter(registry: Registry, t: Ticket, sweeps: seq<Answers>)
    requires AllGood(sweeps)
    ensures var r := Run(registry, t, sweeps);
            if SweepsWhere(registry, t, sweeps, Blanks) == 0 then SameOthers(t, r) else r.labels == []
  {
    hide GoodAnswers, Swept, Blanks, IsManaged;
    if sweeps != [] {
      var before, a := sweeps[..|sweeps| - 1], sweeps[|sweeps| - 1];
      OthersAfter(registry, t, before);
      var u := Run(registry, t, before);
      SweepKeepsOthersExactly(registry, u, a);
      if u.labels == [] {
        NothingLeftToBlank(registry, u, a);
      }
    }
  }

  /**
   * Over any run a ticket keeps exactly its labels that are no workflow facets, if it has none or no close went ahead on
   * a label answer without data.
   */
  lemma OtherLabelsAreKeptExactly(registry: Registry, t: Ticket, sweeps: seq<Answers>)
    requires AllGood(sweeps)
    ensures SameOthers(t, Run(registry, t, sweeps)) <==> !HasOthers(t) || SweepsWhere(registry, t, sweeps, Blanks) == 0
  {
    hide IsManaged, Run, SweepsWhere, GoodAnswers;
    OthersAfter(registry, t, sweeps);
  }

  // ---- What the counters say of the changes ----

  /** Bootstrap is reached in this sweep. */
  predicate Boots(t: Ticket, a: Answers) {
    HasWorkflow(t) && !HasState(t) && !NativelyTerminal(t) && a.pastGrace && a.contextRead
  }

  /** A heal that is counted although its write was not accepted. */
  predicate HollowHeal(t: Ticket, a: Answers) {
    Boots(t, a) && a.boot.Enroll? && !a.boot.accepted
  }

  /** A change nobody counts. */
  predicate SilentReject(t: Ticket, a: Answers) {
    Boots(t, a) && a.boot.Reject? && a.boot.accepted
  }

  function Counted(y: Tally): nat {
    y.healed + y.seated
  }

  function SweptTally(registry: Registry, t: Ticket, a: Answers): Tally {
    if HasWorkflow(t) then TicketTally(5, registry, t, a) else NOTHING
  }

  function Bit(b: bool): nat {
    if b then 1 else 0
  }

  lemma EnrollCounts(t: Ticket, a: Answers)
    requires GoodAnswers(a) && HasWorkflow(t)
    ensures Counted(EnrollPass(t, t, a).tally) + Bit(SilentReject(t, a)) == Bit(EnrollPass(t, t, a).ticket != t) + Bit(HollowHeal(t, a))
  {
    hide HasWorkflow, HasState, NativelyTerminal, Enrolled, Stripped, StartsWith;
    if Boots(t, a) && a.boot.Enroll? {
      EnrolledStands(t, a.boot);
    }
    StrippedIsUnmanaged(t);
  }

  lemma CloseCounts(t: Ticket, live: Ticket, a: Answers)
    requires HasWorkflow(t) && (HasState(t) ==> live == t)
    ensures Counted(ClosePass(t, live, a).tally) == Bit(ClosePass(t, live, a).ticket != live)
  {
    hide HasWorkflow, HasState, Closable, Stripped;
    StrippedIsUnmanaged(t);
  }

  lemma DoneCounts(t: Ticket, live: Ticket, a: Answers)
    requires GoodAnswers(a)
    ensures Counted(DonePass(t, live, a).tally) == Bit(DonePass(t, live, a).ticket != live)
  {
    hide StartsWith;
  }

  lemma SeatCounts(registry: Registry, t: Ticket, live: Ticket, a: Answers)
    requires HasState(t) && t.delegate.None? ==> live.delegate.None?
    ensures Counted(SeatPass(registry, t, live, a).tally) == Bit(SeatPass(registry, t, live, a).ticket != live)
  {
    hide HasState, HasWorkflow, NativelyTerminal, IsTerminalStateLabel;
  }

  /** How far the earlier passes can have taken the live ticket. */
  lemma PassesKeep(registry: Registry, t: Ticket, a: Answers)
    requires HasState(t)
    ensures Through(2, registry, t, a) == t
    ensures t.delegate.None? ==> Through(4, registry, t, a).delegate.None?
  {
    hide HasState, IsTerminalIssueState, Closable, WithoutManaged;
    assert Through(0, registry, t, a) == t && Through(1, registry, t, a) == t;
    assert Through(2, registry, t, a) == t;
    assert Through(3, registry, t, a) == ClosePass(t, t, a).ticket;
    assert Through(4, registry, t, a) == DonePass(t, Through(3, registry, t, a), a).ticket;
  }

  lemma NoPassYet(registry: Registry, t: Ticket, a: Answers)
    ensures Through(0, registry, t, a) == t
  {
  }

  lemma PassCounts(p: nat, registry: Registry, t: Ticket, a: Answers)
    requires GoodAnswers(a) && HasWorkflow(t) && 1 <= p <= 5
    ensures var live := Through(p - 1, registry, t, a);
            Counted(Pass(p, registry, t, live, a).tally) + Bit(p == 1 && SilentReject(t, a))
            == Bit(ChangeBy(p, registry, t, live, a).Some?) + Bit(p == 1 && HollowHeal(t, a))
  {
    hide HasWorkflow, HasState, GoodAnswers, EnrollPass, ClosePass, DonePass, SeatPass, Through, SilentReject, HollowHeal, IsFinishedKind;
    var live := Through(p - 1, registry, t, a);
    if HasState(t) {
      PassesKeep(registry, t, a);
    }
    if p == 1 {
      assert live == t by { NoPassYet(registry, t, a); }
      EnrollCounts(t, a);
    } else if p == 3 {
      CloseCounts(t, live, a);
    } else if p == 4 {
      DoneCounts(t, live, a);
    } else if p == 5 {
      SeatCounts(registry, t, live, a);
    }
  }

  lemma NothingChanged(registry: Registry, t: Ticket, a: Answers)
    ensures TicketTally(0, registry, t, a) == NOTHING && ChangesThrough(0, registry, t, a) == []
  {
  }

  lemma ChangesStep(p: nat, registry: Registry, t: Ticket, a: Answers)
    ensures |ChangesThrough(p + 1, registry, t, a)|
            == |ChangesThrough(p, registry, t, a)| + Bit(ChangeBy(p + 1, registry, t, Through(p, registry, t, a), a).Some?)
  {
    hide ChangeBy, Through;
  }

  lemma {:induction false} CountsThrough(p: nat, registry: Registry, t: Ticket, a: Answers)
    requires GoodAnswers(a) && HasWorkflow(t) && p <= 5
    ensures Counted(TicketTally(p, registry, t, a)) + Bit(p > 0 && SilentReject(t, a))
            == |ChangesThrough(p, registry, t, a)| + Bit(p > 0 && HollowHeal(t, a))
  {
    hide HasWorkflow, GoodAnswers, Pass, Through, ChangeBy, SilentReject, HollowHeal, TicketTally, ChangesThrough;
    if p == 0 {
      NothingChanged(registry, t, a);
    } else {
      CountsThrough(p - 1, registry, t, a);
      TicketTallyStep(p - 1, registry, t, a);
      ChangesStep(p - 1, registry, t, a);
      PassCounts(p, registry, t, a);
    }
  }

  lemma SweepCounts(registry: Registry, t: Ticket, a: Answers)
    requires GoodAnswers(a)
    ensures Counted(SweptTally(registry, t, a)) + Bit(SilentReject(t, a)) == |SweptChanges(registry, t, a)| + Bit(HollowHeal(t, a))
  {
    hide HasWorkflow, GoodAnswers, TicketTally, ChangesThrough, HasState, NativelyTerminal;
    if HasWorkflow(t) {
      CountsThrough(5, registry, t, a);
    }
  }

  /** How many sweeps of a run meet a condition on the ticket as they find it. */
  function SweepsWhere(registry: Registry, t: Ticket, sweeps: seq<Answers>, p: (Ticket, Answers) -> bool): nat {
    if sweeps == [] then 0
    else
      var before := sweeps[..|sweeps| - 1];
      SweepsWhere(registry, t, before, p) + Bit(p(Run(registry, t, before), sweeps[|sweeps| - 1]))
  }

  function RunCounted(registry: Registry, t: Ticket, sweeps: seq<Answers>): nat {
    if sweeps == [] then 0
    else
      var before := sweeps[..|sweeps| - 1];
      RunCounted(registry, t, before) + Counted(SweptTally(registry, Run(registry, t, before), sweeps[|sweeps| - 1]))
  }

  /**
   * What a run counts as healed or seated is what it changed, but for each heal whose write was refused, which is counted,
   * and each rejected authoring attempt, which is not.
   */
  lemma {:induction false} CountsAreChangesExactly(registry: Registry, t: Ticket, sweeps: seq<Answers>)
    requires AllGood(sweeps)
    ensures RunCounted(registry, t, sweeps) + SweepsWhere(registry, t, sweeps, SilentReject)
            == |History(registry, t, sweeps)| + SweepsWhere(registry, t, sweeps, HollowHeal)
  {
    hide GoodAnswers, Swept, SweptTally, SweptChanges, SilentReject, HollowHeal, Counted;
    if sweeps != [] {
      var before, a := sweeps[..|sweeps| - 1], sweeps[|sweeps| - 1];
      CountsAreChangesExactly(registry, t, before);
      var u := Run(registry, t, before);
      SweepCounts(registry, u, a);
      assert |History(registry, t, sweeps)| == |History(registry, t, before)| + |SweptChanges(registry, u, a)|;
    }
  }

  /** A ticket that the first pass counts as healed is changed exactly when the bootstrap's write was accepted. */
  lemma HealedMeansChangedExactly(registry: Registry, t: Ticket, a: Answers)
    requires GoodAnswers(a) && HasWorkflow(t) && EnrollPass(t, t, a).tally == HEALED
    ensures SweepTicket(registry, t, a) != t <==> a.boot.accepted
  {
    hide HasWorkflow, HasState, NativelyTerminal, ClosePass, DonePass, SeatPass, StartsWith, Enrolled;
    UnenrolledIsLeftAlone(registry, t, EnrollPass(t, t, a).ticket, a);
    FirstPass(registry, t, a);
    if a.boot.accepted {
      EnrolledStands(t, a.boot);
    }
  }
}
