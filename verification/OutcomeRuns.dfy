/** Overlapping calls on the outcome store: when a reading is the last record, and when a record survives a restart. */
module OutcomeRuns {
  import opened Prelude
  import opened FanoutOutcomeStore

  /** What callers asked to be remembered, on top of what was remembered at the start; loads and restarts change nothing. */
  function Wanted(w: Records, es: seq<Event>): Records {
    if es == [] then w
    else
      var before := Wanted(w, es[..|es| - 1]);
      match es[|es| - 1]
      case Recording(p, o) => before[p := o]
      case Removes(p) => before - {p}
      case _ => before
  }

  function OnFile(s: Store): Records {
    s.file.GetOr(map[])
  }

  predicate RightAt(s: Store, w: Records, parent: string) {
    Lookup(s.records, parent) == Lookup(w, parent)
  }

  // ---- Runs in which nothing overlaps a load ----

  /** The event finds no load in flight, writes land in order, and restarts leave no write behind. */
  predicate CalmStep(s: Store, e: Event) {
    match e
    case ReadsFile(readable) => readable
    case Gets(_) => s.loaded && s.load.Idle?
    case Recording(_, _) => s.loaded && s.load.Idle?
    case Removes(_) => s.loaded && s.load.Idle?
    case Lands(k, writable) => k == 0 && writable
    case Restarts => s.pending == []
    case _ => true
  }

  predicate Calm(s: Store, es: seq<Event>) {
    es == [] || (Calm(s, es[..|es| - 1]) && CalmStep(Run(s, es[..|es| - 1]), es[|es| - 1]))
  }

  /** Memory is right when there is no load in flight, and the file is right once the last write has landed. */
  predicate Settled(s: Store, w: Records) {
    && (s.loaded && s.load.Idle? ==> s.records == w)
    && (s.loaded && !s.load.Idle? ==> s.records == map[] && s.pending == [])
    && (s.load.Fetched? ==> s.load.content == w)
    && (!s.loaded ==> s.load.Idle? && s.pending == [] && s.records == map[])
    && (if s.pending == [] then OnFile(s) == w else s.pending[|s.pending| - 1] == w)
  }

  lemma CalmStepSettles(s: Store, w: Records, e: Event)
    requires Settled(s, w) && CalmStep(s, e)
    ensures Settled(Step(s, e), match e case Recording(p, o) => w[p := o] case Removes(p) => w - {p} case _ => w)
  {
    if e.Removes? && e.parent !in w {
      assert w - {e.parent} == w;
    }
    if e.FinishesLoad? && s.load.Fetched? {
      assert map[] + s.load.content == s.load.content;
    }
  }

  lemma {:induction false} CalmRunSettles(file: Option<Records>, es: seq<Event>)
    requires Calm(Started(file), es)
    ensures Settled(Run(Started(file), es), Wanted(file.GetOr(map[]), es))
  {
    if es != [] {
      CalmRunSettles(file, es[..|es| - 1]);
      CalmStepSettles(Run(Started(file), es[..|es| - 1]), Wanted(file.GetOr(map[]), es[..|es| - 1]), es[|es| - 1]);
    }
  }

  /** While no call falls into a load and reads and writes succeed in order, every reading is the last record, restarts anywhere. */
  lemma ReadingIsLastRecord(file: Option<Records>, es: seq<Event>, parent: string)
    requires Calm(Started(file), es) && CalmStep(Run(Started(file), es), Gets(parent))
    ensures RightAt(Run(Started(file), es), Wanted(file.GetOr(map[]), es), parent)
  {
    CalmRunSettles(file, es);
  }

  // ---- Inside a load ----

  /** Calls, file read and landing writes while a load is in flight. */
  predicate DuringLoad(mid: seq<Event>) {
    forall e :: e in mid ==> e.Gets? || e.Recording? || e.Removes? || e.Lands? || e.ReadsFile?
  }

  function Touched(mid: seq<Event>): set<string> {
    if mid == [] then {}
    else
      var e := mid[|mid| - 1];
      Touched(mid[..|mid| - 1]) + if e.Recording? || e.Removes? then {e.parent} else {}
  }

  /** The last thing asked for a parent during the load. */
  function LastFor(mid: seq<Event>, parent: string): Option<FanoutOutcome> {
    if mid == [] then None
    else
      var e := mid[|mid| - 1];
      if e.Recording? && e.parent == parent then Some(e.outcome)
      else if e.Removes? && e.parent == parent then None
      else LastFor(mid[..|mid| - 1], parent)
  }

  lemma {:induction false} WantedDuringLoad(w: Records, mid: seq<Event>, parent: string)
    ensures Lookup(Wanted(w, mid), parent) == if parent in Touched(mid) then LastFor(mid, parent) else Lookup(w, parent)
  {
    if mid != [] {
      WantedDuringLoad(w, mid[..|mid| - 1], parent);
    }
  }

  function Within(file: Records, mid: seq<Event>): Store {
    Run(Claim(Started(Some(file))), mid)
  }

  /** During a load the memory holds what was recorded since it began and nothing else. */
  ghost predicate Partial(v: Store, file: Records, mid: seq<Event>) {
    && v.loaded && !v.load.Idle?
    && (forall p :: Lookup(v.records, p) == if p in Touched(mid) then LastFor(mid, p) else None)
    && (forall k, p :: 0 <= k < |v.pending| && p in v.pending[k] ==> p in Touched(mid))
    && (v.file == Some(file) || (v.file.Some? && forall p :: p in v.file.value ==> p in Touched(mid)))
    && (v.load.Fetched? ==> v.load.content == file || forall p :: p in v.load.content ==> p in Touched(mid))
  }

  lemma TouchedStep(mid: seq<Event>, e: Event, parent: string)
    ensures Touched(mid + [e]) == Touched(mid) + if e.Recording? || e.Removes? then {e.parent} else {}
    ensures LastFor(mid + [e], parent) ==
              if (e.Recording? || e.Removes?) && e.parent == parent then (if e.Recording? then Some(e.outcome) else None) else LastFor(mid, parent)
  {
    assert (mid + [e])[..|mid|] == mid;
  }

  lemma PartialCall(v: Store, file: Records, mid: seq<Event>, e: Event)
    requires Partial(v, file, mid) && (e.Recording? || e.Removes?)
    ensures Partial(Step(v, e), file, mid + [e])
  {
    hide Touched, LastFor;
    var t, all := Step(v, e), mid + [e];
    TouchedStep(mid, e, e.parent);
    forall p
      ensures Lookup(t.records, p) == if p in Touched(all) then LastFor(all, p) else None
    {
      TouchedStep(mid, e, p);
      assert Lookup(v.records, p) == if p in Touched(mid) then LastFor(mid, p) else None;
    }
    forall k, p | 0 <= k < |t.pending| && p in t.pending[k]
      ensures p in Touched(all)
    {
      if k < |v.pending| {
        assert t.pending[k] == v.pending[k];
      } else {
        assert Lookup(t.records, p).Some?;
      }
    }
  }

  lemma PartialStep(v: Store, file: Records, mid: seq<Event>, e: Event)
    requires Partial(v, file, mid) && (e.Gets? || e.Recording? || e.Removes? || e.Lands? || (e.ReadsFile? && (e.readable || v.load.Fetched?)))
    ensures Partial(Step(v, e), file, mid + [e])
  {
    hide Touched, LastFor;
    if e.Recording? || e.Removes? {
      PartialCall(v, file, mid, e);
    } else {
      forall p
        ensures Touched(mid + [e]) == Touched(mid) && LastFor(mid + [e], p) == LastFor(mid, p)
      {
        TouchedStep(mid, e, p);
      }
      if e.Lands? && e.k < |v.pending| {
        var left := Step(v, e).pending;
        assert forall i :: 0 <= i < |left| ==> left[i] == if i < e.k then v.pending[i] else v.pending[i + 1];
      }
    }
  }

  /** The file can be read throughout. */
  predicate ReadsSucceed(mid: seq<Event>) {
    forall e :: e in mid && e.ReadsFile? ==> e.readable
  }

  lemma {:induction false} WithinIsPartial(file: Records, mid: seq<Event>)
    requires DuringLoad(mid) && ReadsSucceed(mid)
    ensures Partial(Within(file, mid), file, mid)
  {
    if mid != [] {
      assert mid[|mid| - 1] in mid;
      WithinIsPartial(file, mid[..|mid| - 1]);
      PartialStep(Within(file, mid[..|mid| - 1]), file, mid[..|mid| - 1], mid[|mid| - 1]);
      assert mid == mid[..|mid| - 1] + [mid[|mid| - 1]];
    }
  }

  /** A reading taken inside a load is the last record exactly for a parent recorded or removed since it began, or never on file. */
  lemma ReadingInsideALoadExactly(file: Records, mid: seq<Event>, parent: string)
    requires DuringLoad(mid) && ReadsSucceed(mid)
    ensures RightAt(Within(file, mid), Wanted(file, mid), parent) <==> parent in Touched(mid) || parent !in file
  {
    WithinIsPartial(file, mid);
    WantedDuringLoad(file, mid, parent);
  }

  /**
   * Once the load is over, a parent reads as its last record exactly when the file's content did not overwrite it with
   * something else, and, if the content says nothing about it, when it was recorded or removed meanwhile or never on file.
   */
  lemma LoadedReadingExactly(file: Records, mid: seq<Event>, parent: string)
    requires DuringLoad(mid) && ReadsSucceed(mid) && Within(file, mid).load.Fetched?
    ensures var content := Within(file, mid).load.content;
            RightAt(Fill(Within(file, mid)), Wanted(file, mid), parent) <==>
              if parent in content then Lookup(Wanted(file, mid), parent) == Some(content[parent])
              else parent in Touched(mid) || parent !in file
  {
    WithinIsPartial(file, mid);
    WantedDuringLoad(file, mid, parent);
  }

  predicate IsCall(e: Event) {
    e.Gets? || e.Recording? || e.Removes?
  }

  /** Every reading taken inside the load, and every reading after it, is the last record. */
  ghost predicate EverythingRight(file: Records, mid: seq<Event>) {
    && (forall k :: 0 <= k < |mid| && mid[k].Gets? ==> RightAt(Within(file, mid[..k]), Wanted(file, mid[..k]), mid[k].parent))
    && (forall p :: RightAt(Fill(Within(file, mid)), Wanted(file, mid), p))
  }

  lemma {:induction false} NoCallsNoChange(file: Records, mid: seq<Event>)
    requires DuringLoad(mid) && ReadsSucceed(mid) && forall e :: e in mid ==> !IsCall(e)
    ensures var v := Within(file, mid);
            v.records == map[] && v.pending == [] && v.file == Some(file) && Wanted(file, mid) == file && (v.load.Fetched? ==> v.load.content == file)
  {
    if mid != [] {
      assert mid[|mid| - 1] in mid;
      NoCallsNoChange(file, mid[..|mid| - 1]);
    }
  }

  /** There is always a parent that a finite set does not hold. */
  lemma {:induction false} SomeoneElse(s: set<string>) returns (q: string, n: nat)
    ensures q !in s && |q| == n && forall x :: x in s ==> |x| < n
    decreases s
  {
    if s == {} {
      q, n := "", 0;
    } else {
      var x :| x in s;
      var _, m := SomeoneElse(s - {x});
      n := if |x| < m then m else |x| + 1;
      assert forall y :: y in s ==> y == x || y in s - {x};
      q := seq(n, i => 'a');
      assert q in s ==> |q| < n;
    }
  }

  lemma {:induction false} TouchedGrows(mid: seq<Event>, k: nat)
    requires k <= |mid|
    ensures Touched(mid[..k]) <= Touched(mid)
  {
    if k < |mid| {
      TouchedGrows(mid[..|mid| - 1], k);
      assert mid[..|mid| - 1][..k] == mid[..k];
    } else {
      assert mid[..k] == mid;
    }
  }

  lemma {:induction false} CallIsTouched(mid: seq<Event>, e: Event)
    requires e in mid && (e.Recording? || e.Removes?)
    ensures e.parent in Touched(mid)
  {
    if e != mid[|mid| - 1] {
      assert mid == mid[..|mid| - 1] + [mid[|mid| - 1]];
      CallIsTouched(mid[..|mid| - 1], e);
    }
  }

  /** An outcome other than the one given. */
  function Another(o: Option<FanoutOutcome>): (r: FanoutOutcome)
    ensures o != Some(r)
  {
    if o == Some(FanoutOutcome(Refused, None)) then FanoutOutcome(Failed, None) else FanoutOutcome(Refused, None)
  }

  /** A call inside the load goes wrong for some file. */
  lemma CallInsideLoadGoesWrong(mid: seq<Event>, e: Event)
    requires DuringLoad(mid) && ReadsSucceed(mid) && Within(map[], mid).load.Fetched?
    requires e in mid && IsCall(e)
    ensures exists file :: !EverythingRight(file, mid)
  {
    var q, _ := SomeoneElse(Touched(mid));
    var p := e.parent;
    var k :| 0 <= k < |mid| && mid[k] == e;
    if e.Gets? && p !in Touched(mid) {
      var file: Records := map[p := Another(None)];
      TouchedGrows(mid, k);
      assert forall x :: x in mid[..k] ==> x in mid;
      ReadingInsideALoadExactly(file, mid[..k], p);
      assert !EverythingRight(file, mid);
    } else {
      if !e.Gets? {
        CallIsTouched(mid, e);
      }
      var file: Records := map[p := Another(LastFor(mid, p)), q := Another(None)];
      FetchedWhatever(map[], file, mid);
      WithinIsPartial(file, mid);
      LoadedReadingExactly(file, mid, p);
      LoadedReadingExactly(file, mid, q);
      WantedDuringLoad(file, mid, p);
      assert !(RightAt(Fill(Within(file, mid)), Wanted(file, mid), p) && RightAt(Fill(Within(file, mid)), Wanted(file, mid), q));
      assert !EverythingRight(file, mid);
    }
  }

  lemma {:induction false} FetchedWhatever(a: Records, b: Records, mid: seq<Event>)
    requires DuringLoad(mid)
    ensures Within(a, mid).load.Fetched? <==> Within(b, mid).load.Fetched?
    ensures !Within(a, mid).load.Idle? && !Within(b, mid).load.Idle?
  {
    if mid != [] {
      assert mid[|mid| - 1] in mid;
      FetchedWhatever(a, b, mid[..|mid| - 1]);
    }
  }

  /**
   * Whatever the file held, every reading inside a load and after it is the last record exactly when no reading, record or
   * removal fell into the load. No read or write fails in any of this.
   */
  lemma LoadIsSafeExactly(mid: seq<Event>)
    requires DuringLoad(mid) && ReadsSucceed(mid) && Within(map[], mid).load.Fetched?
    ensures (forall file :: EverythingRight(file, mid)) <==> forall e :: e in mid ==> !IsCall(e)
  {
    if e :| e in mid && IsCall(e) {
      CallInsideLoadGoesWrong(mid, e);
    } else {
      forall file
        ensures EverythingRight(file, mid)
      {
        NoCallsNoChange(file, mid);
        FetchedWhatever(map[], file, mid);
        assert forall k :: 0 <= k < |mid| ==> mid[k] in mid;
        assert map[] + file == file;
      }
    }
  }

  /** Right after a restart, with a refusal on file: the second caller reads nothing while the first one's load is in flight. */
  lemma SecondCallerMissesTheRefusal(parent: string, others: Records)
    ensures var refused := FanoutOutcome(Refused, None);
            var s := Run(Started(Some(others[parent := refused])), [BeginsLoad, BeginsLoad]);
            && CalmStep(s, ReadsFile(true)) && s.loaded && Lookup(s.records, parent) == None
            && Lookup(Run(s, [ReadsFile(true), FinishesLoad]).records, parent) == Some(refused)
  {
    var file := others[parent := FanoutOutcome(Refused, None)];
    var s0 := Started(Some(file));
    var es := [BeginsLoad, BeginsLoad];
    assert es[..1][..0] == [] && es[..1] == [BeginsLoad];
    assert Run(s0, es[..1]) == Claim(s0) && Run(s0, es) == Claim(s0);
    var rest := [ReadsFile(true), FinishesLoad];
    assert rest[..1][..0] == [] && rest[..1] == [ReadsFile(true)];
    assert Run(Claim(s0), rest[..1]) == Scan(Claim(s0), true);
    assert Run(Claim(s0), rest) == Fill(Scan(Claim(s0), true));
  }

  // ---- Surviving a restart ----

  /** Of the pending writes the first `earlier` were started before the record; `saved` says which kind reached the file last. */
  datatype Track = Track(earlier: nat, saved: bool)

  /** Follows the writes after a record: the file has it exactly while the last write to land was started at or after it. */
  function Follow(s: Store, t: Track, e: Event): Track {
    if e.Lands? && e.k < |s.pending| then
      if e.k < t.earlier then Track(t.earlier - 1, t.saved && !e.writable) else t.(saved := t.saved || e.writable)
    else t
  }

  function Tracked(s: Store, es: seq<Event>): Track {
    if es == [] then Track(if s.pending == [] then 0 else |s.pending| - 1, false)
    else Follow(Run(s, es[..|es| - 1]), Tracked(s, es[..|es| - 1]), es[|es| - 1])
  }

  /** The rest of the process: no restart, and nothing more about that parent. */
  predicate LeavesAlone(es: seq<Event>, parent: string) {
    forall e :: e in es ==> !e.Restarts? && (e.Recording? || e.Removes? ==> e.parent != parent)
  }

  predicate Has(w: Records, parent: string, outcome: FanoutOutcome) {
    Lookup(w, parent) == Some(outcome)
  }

  /** The outcome is new: neither the file nor a write on its way has it for that parent. */
  predicate IsNew(s: Store, parent: string, outcome: FanoutOutcome) {
    !Has(OnFile(s), parent, outcome) && forall k :: 0 <= k < |s.pending| ==> !Has(s.pending[k], parent, outcome)
  }

  predicate TrackHolds(s: Store, t: Track, parent: string, outcome: FanoutOutcome) {
    && s.loaded && s.load.Idle? && Has(s.records, parent, outcome) && t.earlier <= |s.pending|
    && (forall k :: 0 <= k < |s.pending| ==> (Has(s.pending[k], parent, outcome) <==> k >= t.earlier))
    && (Has(OnFile(s), parent, outcome) <==> t.saved)
  }

  lemma FollowHolds(s: Store, t: Track, e: Event, parent: string, outcome: FanoutOutcome)
    requires TrackHolds(s, t, parent, outcome) && !e.Restarts? && (e.Recording? || e.Removes? ==> e.parent != parent)
    ensures TrackHolds(Step(s, e), Follow(s, t, e), parent, outcome)
  {
    if e.Lands? && e.k < |s.pending| {
      var left := Step(s, e).pending;
      assert forall i :: 0 <= i < |left| ==> left[i] == if i < e.k then s.pending[i] else s.pending[i + 1];
    }
  }

  lemma {:induction false} TrackedHolds(s: Store, es: seq<Event>, parent: string, outcome: FanoutOutcome)
    requires s.loaded && s.load.Idle? && IsNew(s, parent, outcome) && LeavesAlone(es, parent)
    ensures var r := Put(s, parent, outcome); TrackHolds(Run(r, es), Tracked(r, es), parent, outcome)
  {
    var r := Put(s, parent, outcome);
    if es != [] {
      assert es[|es| - 1] in es;
      TrackedHolds(s, es[..|es| - 1], parent, outcome);
      FollowHolds(Run(r, es[..|es| - 1]), Tracked(r, es[..|es| - 1]), es[|es| - 1], parent, outcome);
    }
  }

  /** The reading a restarted process takes when nothing overlaps its load. */
  function ReadingAfterRestart(s: Store, parent: string): Option<FanoutOutcome> {
    Lookup(Fill(Scan(Claim(Started(s.file)), true)).records, parent)
  }

  /** A new record survives a restart exactly when the last write to land before it was started at or after the record, its own or a later one. */
  lemma RecordSurvivesExactly(s: Store, es: seq<Event>, parent: string, outcome: FanoutOutcome)
    requires s.loaded && s.load.Idle? && IsNew(s, parent, outcome) && LeavesAlone(es, parent)
    ensures var r := Put(s, parent, outcome);
            && Lookup(Run(r, es).records, parent) == Some(outcome)
            && (ReadingAfterRestart(Run(r, es), parent) == Some(outcome) <==> Tracked(r, es).saved)
  {
    TrackedHolds(s, es, parent, outcome);
    var v := Run(Put(s, parent, outcome), es);
    assert map[] + OnFile(v) == OnFile(v);
  }

  /** Some write that was on its way reaches the file. */
  predicate SomeWriteLands(s: Store, es: seq<Event>) {
    es != [] && (SomeWriteLands(s, es[..|es| - 1])
                 || (es[|es| - 1].Lands? && es[|es| - 1].writable && es[|es| - 1].k < |Run(s, es[..|es| - 1]).pending|))
  }

  lemma {:induction false} SavedIsLanded(s: Store, es: seq<Event>)
    requires |s.pending| == 1
    ensures Tracked(s, es).earlier == 0 && (Tracked(s, es).saved <==> SomeWriteLands(s, es))
  {
    if es != [] {
      SavedIsLanded(s, es[..|es| - 1]);
    }
  }

  /** With no earlier write on its way, that is exactly when some write after the record succeeds, whoever started it. */
  lemma RecordSurvivesIfAnyWriteLands(s: Store, es: seq<Event>, parent: string, outcome: FanoutOutcome)
    requires s.loaded && s.load.Idle? && s.pending == [] && !Has(OnFile(s), parent, outcome) && LeavesAlone(es, parent)
    ensures ReadingAfterRestart(Run(Put(s, parent, outcome), es), parent) == Some(outcome) <==> SomeWriteLands(Put(s, parent, outcome), es)
  {
    RecordSurvivesExactly(s, es, parent, outcome);
    SavedIsLanded(Put(s, parent, outcome), es);
  }
}
