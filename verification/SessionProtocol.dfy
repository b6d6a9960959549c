/** src/agent-session.ts: session creation as atomic segments between awaits, interleaved arbitrarily. */
module SessionProtocol {
  import opened Prelude

  type Issue = string
  type Agent = string

  const SESSION_DEDUP_WINDOW_MS := 30000

  datatype Recent = Recent(timestamp: int, session: string)

  /** What the synchronous head of a session request decides. */
  datatype Admission = Join(owner: nat) | Skip(session: string) | Create

  function LockKey(issue: Issue, agent: Agent): string {
    issue + ":" + agent
  }

  function Admit(inFlight: map<string, nat>, recent: map<Issue, Recent>, issue: Issue, agent: Agent, now: int): Admission {
    if LockKey(issue, agent) in inFlight then Join(inFlight[LockKey(issue, agent)])
    else if issue in recent && now - recent[issue].timestamp < SESSION_DEDUP_WINDOW_MS then Skip(recent[issue].session)
    else Create
  }

  /** The two module-level maps, and the segments that read and write them. */
  class SessionDesk {
    var recentSessions: map<Issue, Recent>
    var sessionCreationInFlight: map<string, nat>

    constructor ()
      ensures recentSessions == map[] && sessionCreationInFlight == map[]
    {
      recentSessions := map[];
      sessionCreationInFlight := map[];
    }

    /** Up to the first await: look at the lock, then at the dedup window, then take the lock. */
    method Begin(request: nat, issue: Issue, agent: Agent, now: int) returns (a: Admission)
      modifies this
      ensures a == Admit(old(sessionCreationInFlight), recentSessions, issue, agent, now)
      ensures sessionCreationInFlight == if a.Create? then old(sessionCreationInFlight)[LockKey(issue, agent) := request]
                                         else old(sessionCreationInFlight)
      ensures recentSessions == old(recentSessions)
    {
      var lockKey := LockKey(issue, agent);
      if lockKey in sessionCreationInFlight {
        return Join(sessionCreationInFlight[lockKey]);
      }
      if issue in recentSessions {
        var existing := recentSessions[issue];
        if now - existing.timestamp < SESSION_DEDUP_WINDOW_MS {
          return Skip(existing.session);
        }
      }
      sessionCreationInFlight := sessionCreationInFlight[lockKey := request];
      return Create;
    }

    /** The creation call answered with a session id. */
    method Record(issue: Issue, session: string, now: int)
      modifies this
      ensures recentSessions == old(recentSessions)[issue := Recent(now, session)]
      ensures sessionCreationInFlight == old(sessionCreationInFlight)
    {
      recentSessions := recentSessions[issue := Recent(now, session)];
    }

    /** The `finally` block. */
    method Release(issue: Issue, agent: Agent)
      modifies this
      ensures sessionCreationInFlight == old(sessionCreationInFlight) - {LockKey(issue, agent)}
      ensures recentSessions == old(recentSessions)
    {
      sessionCreationInFlight := sessionCreationInFlight - {LockKey(issue, agent)};
    }
  }

  // ---- The interleaved protocol ----

  datatype Phase =
    | Waiting
    | Creating
    | Emitting(session: string)
    | Settled(result: Option<string>)
    | Done(result: Option<string>)

  /** `admittedAfter` is how many creations had been recorded when the request was admitted. */
  datatype Request = Request(issue: Issue, agent: Agent, key: string, phase: Phase, joined: Option<nat>, admittedAt: int, admittedAfter: nat) {
    predicate HoldsLock() { phase.Creating? || phase.Emitting? || phase.Settled? }
  }

  /** A creation written to the dedup map. */
  datatype Creation = Creation(issue: Issue, agent: Agent, key: string, session: string, at: int, admittedAt: int, admittedAfter: nat)

  datatype State = State(
    now: int,
    recent: map<Issue, Recent>,
    inFlight: map<string, nat>,
    requests: seq<Request>,
    log: seq<Creation>)

  datatype Event =
    | Tick(elapsed: nat)
    | Arrive(issue: Issue, agent: Agent, hasToken: bool)
    | Reply(id: nat, session: Option<string>)
    | ThoughtAnswered(id: nat)
    | Unlock(id: nat)
    | Resume(id: nat)

  function Init(now: int): State {
    State(now, map[], map[], [], [])
  }

  function SetPhase(s: State, id: nat, p: Phase): State
    requires id < |s.requests|
  {
    s.(requests := s.requests[id := s.requests[id].(phase := p)])
  }

  /** One atomic segment; an event that is not enabled changes nothing. */
  function Step(s: State, e: Event): State {
    match e
    case Tick(d) => s.(now := s.now + d)
    case Arrive(issue, agent, hasToken) =>
      var key := LockKey(issue, agent);
      var r := Request(issue, agent, key, Creating, None, s.now, |s.log|);
      (match Admit(s.inFlight, s.recent, issue, agent, s.now)
       case Join(owner) => s.(requests := s.requests + [r.(phase := Waiting, joined := Some(owner))])
       case Skip(session) => s.(requests := s.requests + [r.(phase := Done(Some(session)))])
       case Create =>
         s.(requests := s.requests + [if hasToken then r else r.(phase := Settled(None))],
            inFlight := s.inFlight[key := |s.requests|]))
    case Reply(id, session) =>
      if id < |s.requests| && s.requests[id].phase.Creating? then
        var r := s.requests[id];
        if Truthy(session) then
          SetPhase(s, id, Emitting(session.value)).(
            recent := s.recent[r.issue := Recent(s.now, session.value)],
            log := s.log + [Creation(r.issue, r.agent, r.key, session.value, s.now, r.admittedAt, r.admittedAfter)])
        else SetPhase(s, id, Settled(None))
      else s
    case ThoughtAnswered(id) =>
      if id < |s.requests| && s.requests[id].phase.Emitting? then
        SetPhase(s, id, Settled(Some(s.requests[id].phase.session)))
      else s
    case Unlock(id) =>
      if id < |s.requests| && s.requests[id].phase.Settled? then
        SetPhase(s, id, Done(s.requests[id].phase.result)).(inFlight := s.inFlight - {s.requests[id].key})
      else s
    case Resume(id) =>
      if id < |s.requests| && s.requests[id].phase.Waiting? && s.requests[id].joined.Some?
         && s.requests[id].joined.value < |s.requests| then
        var owner := s.requests[s.requests[id].joined.value].phase;
        if owner.Settled? || owner.Done? then SetPhase(s, id, Done(owner.result)) else s
      else s
  }

  function Run(start: int, es: seq<Event>): State {
    if es == [] then Init(start) else Step(Run(start, es[..|es| - 1]), es[|es| - 1])
  }

  /** The lock map names exactly the requests that are between admission and their `finally`. */
  predicate LocksExact(s: State) {
    && (forall i :: 0 <= i < |s.requests| && s.requests[i].HoldsLock() ==>
          s.requests[i].key in s.inFlight && s.inFlight[s.requests[i].key] == i)
    && (forall k :: k in s.inFlight ==>
          s.inFlight[k] < |s.requests| && s.requests[s.inFlight[k]].HoldsLock() && s.requests[s.inFlight[k]].key == k)
  }

  predicate Joins(s: State, i: nat)
    requires i < |s.requests|
  {
    s.requests[i].joined.Some? ==>
      var o := s.requests[i].joined.value;
      && o < i && s.requests[o].key == s.requests[i].key && s.requests[o].joined.None?
      && (s.requests[i].phase.Waiting? || s.requests[i].phase.Done?)
      && (s.requests[i].phase.Done? ==>
            (s.requests[o].phase.Settled? || s.requests[o].phase.Done?) && s.requests[o].phase.result == s.requests[i].phase.result)
  }

  /** A creation at `at` on `c.issue`, admitted when the first `after` entries of the log existed, kept its distance from them. */
  predicate Apart(log: seq<Creation>, issue: Issue, admittedAt: int, after: nat) {
    after <= |log| && forall p :: 0 <= p < after && log[p].issue == issue ==> admittedAt >= log[p].at + SESSION_DEDUP_WINDOW_MS
  }

  predicate Named(log: seq<Creation>, issue: Issue, r: Recent) {
    exists p :: 0 <= p < |log| && log[p].issue == issue && log[p].at == r.timestamp && log[p].session == r.session
  }

  predicate RecentCoversLog(s: State) {
    && (forall p :: 0 <= p < |s.log| ==> s.log[p].issue in s.recent && s.log[p].at <= s.recent[s.log[p].issue].timestamp)
    && (forall i :: i in s.recent ==> Named(s.log, i, s.recent[i]))
    && (forall p, q :: 0 <= p < q < |s.log| ==> s.log[p].at <= s.log[q].at)
    && (forall p :: 0 <= p < |s.log| ==> s.log[p].admittedAt <= s.log[p].at <= s.now)
  }

  predicate CreatorApart(log: seq<Creation>, now: int, r: Request) {
    && r.admittedAt <= now && Apart(log, r.issue, r.admittedAt, r.admittedAfter)
    && (forall p :: 0 <= p < |log| && log[p].key == r.key ==> p < r.admittedAfter)
  }

  predicate CreatorsApart(s: State) {
    forall i :: 0 <= i < |s.requests| && s.requests[i].phase.Creating? ==> CreatorApart(s.log, s.now, s.requests[i])
  }

  predicate LogApart(log: seq<Creation>) {
    && (forall q :: 0 <= q < |log| ==> log[q].admittedAfter <= q
                                       && Apart(log, log[q].issue, log[q].admittedAt, log[q].admittedAfter))
    && (forall p, q :: 0 <= p < q < |log| && log[p].key == log[q].key ==> p < log[q].admittedAfter)
  }

  predicate KeysMatch(s: State) {
    && (forall i :: 0 <= i < |s.requests| ==> s.requests[i].key == LockKey(s.requests[i].issue, s.requests[i].agent))
    && (forall p :: 0 <= p < |s.log| ==> s.log[p].key == LockKey(s.log[p].issue, s.log[p].agent))
  }

  predicate Inv(s: State) {
    KeysMatch(s) && LocksExact(s) && RecentCoversLog(s) && CreatorsApart(s) && LogApart(s.log)
    && forall i :: 0 <= i < |s.requests| ==> Joins(s, i)
  }

  lemma StepKeepsKeys(s: State, e: Event)
    requires KeysMatch(s)
    ensures KeysMatch(Step(s, e))
  {
  }

  lemma ArrivalKeepsLocks(s: State, e: Event)
    requires LocksExact(s) && e.Arrive?
    ensures LocksExact(Step(s, e))
  {
    hide LockKey;
    var t := Step(s, e);
    assert t.requests[..|s.requests|] == s.requests && |t.requests| == |s.requests| + 1;
    assert forall i :: 0 <= i < |s.requests| ==> t.requests[i] == s.requests[i];
  }

  lemma PhaseKeepsLocks(s: State, id: nat, p: Phase)
    requires LocksExact(s) && id < |s.requests|
    requires s.requests[id].HoldsLock() <==> s.requests[id].(phase := p).HoldsLock()
    ensures LocksExact(SetPhase(s, id, p))
  {
    var t := SetPhase(s, id, p);
    assert forall i :: 0 <= i < |s.requests| ==> t.requests[i].key == s.requests[i].key && (t.requests[i].HoldsLock() <==> s.requests[i].HoldsLock());
  }

  lemma UnlockKeepsLocks(s: State, id: nat, p: Phase)
    requires LocksExact(s) && id < |s.requests| && s.requests[id].HoldsLock() && !s.requests[id].(phase := p).HoldsLock()
    ensures LocksExact(SetPhase(s, id, p).(inFlight := s.inFlight - {s.requests[id].key}))
  {
    var t := SetPhase(s, id, p);
    assert forall i :: 0 <= i < |s.requests| && i != id ==> t.requests[i] == s.requests[i];
  }

  lemma StepKeepsLocks(s: State, e: Event)
    requires LocksExact(s)
    ensures LocksExact(Step(s, e))
  {
    if e.Arrive? {
      ArrivalKeepsLocks(s, e);
    } else if !e.Tick? && e.id < |s.requests| {
      var t := Step(s, e);
      if t.requests != s.requests {
        var p := t.requests[e.id].phase;
        assert t.requests == SetPhase(s, e.id, p).requests;
        if e.Unlock? {
          UnlockKeepsLocks(s, e.id, p);
        } else {
          PhaseKeepsLocks(s, e.id, p);
        }
      }
    }
  }

  lemma NamedStill(log: seq<Creation>, c: Creation, issue: Issue, r: Recent)
    requires Named(log, issue, r)
    ensures Named(log + [c], issue, r)
  {
    var p :| 0 <= p < |log| && log[p].issue == issue && log[p].at == r.timestamp && log[p].session == r.session;
    assert (log + [c])[p] == log[p];
  }

  /** Recording a creation now keeps the dedup map in step with the log. */
  lemma RecordKeepsRecent(s: State, c: Creation)
    requires RecentCoversLog(s) && c.admittedAt <= c.at == s.now
    ensures RecentCoversLog(s.(recent := s.recent[c.issue := Recent(s.now, c.session)], log := s.log + [c]))
  {
    var recent, log := s.recent[c.issue := Recent(s.now, c.session)], s.log + [c];
    forall i | i in recent
      ensures Named(log, i, recent[i])
    {
      if i == c.issue {
        assert log[|s.log|] == c;
      } else {
        NamedStill(s.log, c, i, recent[i]);
      }
    }
  }

  lemma QuietStep(s: State, e: Event)
    requires !(e.Reply? && e.id < |s.requests| && s.requests[e.id].phase.Creating? && Truthy(e.session))
    ensures Step(s, e).log == s.log && Step(s, e).recent == s.recent && Step(s, e).now >= s.now
  {
  }

  lemma LaterCoversLog(s: State, t: State)
    requires RecentCoversLog(s) && t.log == s.log && t.recent == s.recent && t.now >= s.now
    ensures RecentCoversLog(t)
  {
    hide Named;
  }

  lemma StepKeepsRecent(s: State, e: Event)
    requires RecentCoversLog(s) && CreatorsApart(s)
    ensures RecentCoversLog(Step(s, e))
  {
    hide RecentCoversLog;
    if e.Reply? && e.id < |s.requests| && s.requests[e.id].phase.Creating? && Truthy(e.session) {
      var r := s.requests[e.id];
      assert CreatorApart(s.log, s.now, r);
      var c := Creation(r.issue, r.agent, r.key, e.session.value, s.now, r.admittedAt, r.admittedAfter);
      RecordKeepsRecent(s, c);
      LaterCoversLog(s.(recent := s.recent[c.issue := Recent(s.now, c.session)], log := s.log + [c]), Step(s, e));
    } else {
      QuietStep(s, e);
      LaterCoversLog(s, Step(s, e));
    }
  }

  lemma AppendKeepsCreator(log: seq<Creation>, c: Creation, now: int, r: Request)
    requires CreatorApart(log, now, r) && c.key != r.key
    ensures CreatorApart(log + [c], now, r)
  {
    assert forall p :: 0 <= p < |log| ==> (log + [c])[p] == log[p];
  }

  lemma AdmittedCreatorApart(s: State, r: Request)
    requires RecentCoversLog(s)
    requires r.issue in s.recent ==> s.now - s.recent[r.issue].timestamp >= SESSION_DEDUP_WINDOW_MS
    requires r.admittedAt == s.now && r.admittedAfter == |s.log|
    ensures CreatorApart(s.log, s.now, r)
  {
  }

  /** What a segment does to the log and to the requests that are creating. */
  lemma CreatingStep(s: State, e: Event)
    ensures var t := Step(s, e);
            && (if e.Reply? && e.id < |s.requests| && s.requests[e.id].phase.Creating? && Truthy(e.session)
                then |t.log| == |s.log| + 1 && t.log[..|s.log|] == s.log && t.log[|s.log|].key == s.requests[e.id].key
                else t.log == s.log)
            && t.now >= s.now && |s.requests| <= |t.requests| <= |s.requests| + 1
            && (forall i :: 0 <= i < |s.requests| && t.requests[i].phase.Creating? ==> t.requests[i] == s.requests[i] && (e.Reply? ==> i != e.id))
            && (|t.requests| > |s.requests| && t.requests[|s.requests|].phase.Creating? ==>
                  var r := t.requests[|s.requests|];
                  && t.log == s.log && r.admittedAt == s.now == t.now && r.admittedAfter == |s.log|
                  && (r.issue in s.recent ==> s.now - s.recent[r.issue].timestamp >= SESSION_DEDUP_WINDOW_MS))
  {
  }

  lemma LaterCreatorApart(log: seq<Creation>, now: int, later: int, r: Request)
    requires CreatorApart(log, now, r) && now <= later
    ensures CreatorApart(log, later, r)
  {
  }

  lemma StepKeepsCreators(s: State, e: Event)
    requires LocksExact(s) && RecentCoversLog(s) && CreatorsApart(s)
    ensures CreatorsApart(Step(s, e))
  {
    hide Step, CreatorApart, RecentCoversLog;
    var t := Step(s, e);
    CreatingStep(s, e);
    forall i | 0 <= i < |t.requests| && t.requests[i].phase.Creating?
      ensures CreatorApart(t.log, t.now, t.requests[i])
    {
      if i == |s.requests| {
        AdmittedCreatorApart(s, t.requests[i]);
      } else {
        assert s.requests[i].HoldsLock();
        if t.log != s.log {
          assert s.requests[e.id].HoldsLock() && t.log == s.log + [t.log[|s.log|]];
          AppendKeepsCreator(s.log, t.log[|s.log|], s.now, s.requests[i]);
        }
        LaterCreatorApart(t.log, s.now, t.now, s.requests[i]);
      }
    }
  }

  lemma AppendKeepsLogApart(log: seq<Creation>, c: Creation)
    requires LogApart(log) && Apart(log, c.issue, c.admittedAt, c.admittedAfter)
    requires forall p :: 0 <= p < |log| && log[p].key == c.key ==> p < c.admittedAfter
    ensures LogApart(log + [c])
  {
    var grown := log + [c];
    assert forall p :: 0 <= p < |log| ==> grown[p] == log[p];
    assert grown[|log|] == c;
  }

  lemma StepKeepsLogApart(s: State, e: Event)
    requires CreatorsApart(s) && LogApart(s.log)
    ensures LogApart(Step(s, e).log)
  {
    if e.Reply? && e.id < |s.requests| && s.requests[e.id].phase.Creating? && Truthy(e.session) {
      var r := s.requests[e.id];
      assert CreatorApart(s.log, s.now, r);
      AppendKeepsLogApart(s.log, Creation(r.issue, r.agent, r.key, e.session.value, s.now, r.admittedAt, r.admittedAfter));
    }
  }

  /** A request keeps its identity, and once settled it keeps its result. */
  lemma StepKeepsResults(s: State, e: Event, i: nat)
    requires i < |s.requests|
    ensures var r, t := s.requests[i], Step(s, e).requests;
            && i < |t| && t[i].key == r.key && t[i].joined == r.joined
            && (r.phase.Settled? || r.phase.Done? ==> (t[i].phase.Settled? || t[i].phase.Done?) && t[i].phase.result == r.phase.result)
            && (t[i].phase.Waiting? ==> r.phase.Waiting?)
            && (r.phase.Waiting? && !t[i].phase.Waiting? ==>
                  e == Resume(i) && r.joined.Some? && r.joined.value < |s.requests| && t[i].phase.Done?
                  && (s.requests[r.joined.value].phase.Settled? || s.requests[r.joined.value].phase.Done?)
                  && t[i].phase.result == s.requests[r.joined.value].phase.result)
            && (r.phase.Done? ==> t[i].phase.Done?)
  {
  }

  lemma StepKeepsJoins(s: State, e: Event, i: nat)
    requires Inv(s) && i < |Step(s, e).requests|
    ensures Joins(Step(s, e), i)
  {
    if i < |s.requests| {
      assert Joins(s, i);
      StepKeepsResults(s, e, i);
      if s.requests[i].joined.Some? {
        StepKeepsResults(s, e, s.requests[i].joined.value);
      }
    } else if Step(s, e).requests[i].joined.Some? {
      assert Joins(s, Step(s, e).requests[i].joined.value);
    }
  }

  lemma {:induction false} InvAlways(start: int, es: seq<Event>)
    ensures Inv(Run(start, es))
  {
    if es != [] {
      var s, e := Run(start, es[..|es| - 1]), es[|es| - 1];
      InvAlways(start, es[..|es| - 1]);
      StepKeepsKeys(s, e);
      StepKeepsLocks(s, e);
      StepKeepsRecent(s, e);
      StepKeepsCreators(s, e);
      StepKeepsLogApart(s, e);
      forall i | 0 <= i < |Step(s, e).requests| ensures Joins(Step(s, e), i) {
        StepKeepsJoins(s, e, i);
      }
    }
  }

  /** In every interleaving, at most one creation per (issue, agent) is in flight. */
  lemma AtMostOneInFlight(start: int, es: seq<Event>, i: nat, j: nat)
    requires var s := Run(start, es);
             && i < |s.requests| && j < |s.requests| && s.requests[i].HoldsLock() && s.requests[j].HoldsLock()
             && s.requests[i].issue == s.requests[j].issue && s.requests[i].agent == s.requests[j].agent
    ensures i == j
  {
    InvAlways(start, es);
  }

  /**
   * In every interleaving, two recorded creations by the same agent on the same issue are at least the dedup window
   * apart, even when other agents overwrite the issue's entry in between.
   */
  lemma SameAgentCreationsApart(start: int, es: seq<Event>, p: nat, q: nat)
    requires var log := Run(start, es).log;
             p < q < |log| && log[p].issue == log[q].issue && log[p].agent == log[q].agent
    ensures Run(start, es).log[q].at >= Run(start, es).log[p].at + SESSION_DEDUP_WINDOW_MS
  {
    InvAlways(start, es);
  }

  /**
   * Between different agents the window is only kept when the later request arrived after the earlier creation was
   * recorded: two creations on one issue closer than the window must have overlapped.
   */
  lemma CloseCreationsOverlap(start: int, es: seq<Event>, p: nat, q: nat)
    requires var log := Run(start, es).log;
             p < q < |log| && log[p].issue == log[q].issue && log[q].at < log[p].at + SESSION_DEDUP_WINDOW_MS
    ensures Run(start, es).log[q].admittedAfter <= p && Run(start, es).log[p].agent != Run(start, es).log[q].agent
  {
    InvAlways(start, es);
    if Run(start, es).log[p].agent == Run(start, es).log[q].agent {
      SameAgentCreationsApart(start, es, p, q);
    }
  }

  lemma OneMoreStep(start: int, es: seq<Event>, e: Event)
    ensures Run(start, es + [e]) == Step(Run(start, es), e)
  {
    assert (es + [e])[..|es|] == es;
  }

  lemma KeysDiffer(issue: Issue, a: Agent, b: Agent)
    ensures LockKey(issue, a) == LockKey(issue, b) <==> a == b
  {
    assert LockKey(issue, a)[|issue| + 1..] == a && LockKey(issue, b)[|issue| + 1..] == b;
  }

  /** Some run records a creation by `a` and later, `gap` milliseconds after it, one by `b`, on the issue. */
  ghost predicate GapHappens(issue: Issue, a: Agent, b: Agent, gap: int) {
    exists start: int, es: seq<Event>, p: nat, q: nat :: GapIn(Run(start, es).log, p, q, issue, a, b, gap)
  }

  predicate GapIn(log: seq<Creation>, p: nat, q: nat, issue: Issue, a: Agent, b: Agent, gap: int) {
    p < q < |log| && log[p].issue == log[q].issue == issue && log[p].agent == a && log[q].agent == b && log[q].at == log[p].at + gap
  }

  /** Both ask before either is recorded. */
  lemma OverlappingCreations(issue: Issue, a: Agent, b: Agent, gap: nat)
    requires a != b
    ensures GapHappens(issue, a, b, gap)
  {
    KeysDiffer(issue, a, b);
    var s1, es1 := Step(Init(0), Arrive(issue, a, true)), [] + [Arrive(issue, a, true)];
    OneMoreStep(0, [], Arrive(issue, a, true));
    var s2, es2 := Step(s1, Arrive(issue, b, true)), es1 + [Arrive(issue, b, true)];
    OneMoreStep(0, es1, Arrive(issue, b, true));
    assert s2.requests[0].phase.Creating? && s2.requests[1].phase.Creating? && s2.log == [];
    var s3, es3 := Step(s2, Reply(0, Some("s"))), es2 + [Reply(0, Some("s"))];
    OneMoreStep(0, es2, Reply(0, Some("s")));
    var s4, es4 := Step(s3, Tick(gap)), es3 + [Tick(gap)];
    OneMoreStep(0, es3, Tick(gap));
    var s5, es5 := Step(s4, Reply(1, Some("s"))), es4 + [Reply(1, Some("s"))];
    OneMoreStep(0, es4, Reply(1, Some("s")));
    assert GapIn(Run(0, es5).log, 0, 1, issue, a, b, gap);
  }

  /** One creation by itself, to the end: the lock is free again and the issue's entry is there. */
  lemma OneCreation(issue: Issue, a: Agent) returns (es: seq<Event>)
    ensures var s := Run(0, es);
            && s.now == 0 && s.inFlight == map[] && s.recent == map[issue := Recent(0, "s")] && |s.requests| == 1
            && |s.log| == 1 && s.log[0].issue == issue && s.log[0].agent == a && s.log[0].at == 0
  {
    var s1 := Step(Init(0), Arrive(issue, a, true));
    OneMoreStep(0, [], Arrive(issue, a, true));
    assert s1.requests[0].phase.Creating? && s1.requests[0].issue == issue && s1.requests[0].agent == a && s1.inFlight.Keys == {s1.requests[0].key};
    var s2 := AnsweredAndDone(s1);
    es := [] + [Arrive(issue, a, true)];
    OneMoreStep(0, es, Reply(0, Some("s")));
    es := es + [Reply(0, Some("s"))];
    OneMoreStep(0, es, ThoughtAnswered(0));
    es := es + [ThoughtAnswered(0)];
    OneMoreStep(0, es, Unlock(0));
    es := es + [Unlock(0)];
    assert Run(0, es) == s2;
  }

  lemma AnsweredAndDone(s: State) returns (t: State)
    requires |s.requests| == 1 && s.requests[0].phase.Creating? && s.inFlight.Keys == {s.requests[0].key} && s.recent == map[] && s.log == []
    ensures t == Step(Step(Step(s, Reply(0, Some("s"))), ThoughtAnswered(0)), Unlock(0))
    ensures var r := s.requests[0];
            && t.now == s.now && t.inFlight == map[] && |t.requests| == 1 && t.recent == map[r.issue := Recent(s.now, "s")]
            && t.log == [Creation(r.issue, r.agent, r.key, "s", s.now, r.admittedAt, r.admittedAfter)]
  {
    var u := Step(s, Reply(0, Some("s")));
    var v := Step(u, ThoughtAnswered(0));
    assert v.requests[0].phase == Settled(Some("s")) && v.requests[0].key == s.requests[0].key;
    t := Step(v, Unlock(0));
  }

  /** The second asks when the window of the first is over. */
  lemma CreationsInTurn(issue: Issue, a: Agent, b: Agent, gap: nat)
    requires gap >= SESSION_DEDUP_WINDOW_MS
    ensures GapHappens(issue, a, b, gap)
  {
    hide Run, LockKey;
    var es := OneCreation(issue, a);
    var s := Run(0, es);
    var t := Step(s, Tick(gap));
    OneMoreStep(0, es, Tick(gap));
    var u := Step(t, Arrive(issue, b, true));
    OneMoreStep(0, es + [Tick(gap)], Arrive(issue, b, true));
    assert u.requests[1].phase.Creating? && u.requests[1].issue == issue && u.requests[1].agent == b;
    var v := Step(u, Reply(1, Some("s")));
    OneMoreStep(0, es + [Tick(gap)] + [Arrive(issue, b, true)], Reply(1, Some("s")));
    assert GapIn(v.log, 0, 1, issue, a, b, gap);
  }

  /** The gaps that happen between two creations on one issue: at least the window for one agent, any at all for two. */
  lemma CreationGapsExactly(issue: Issue, a: Agent, b: Agent, gap: int)
    ensures GapHappens(issue, a, b, gap) <==> gap >= 0 && (a != b || gap >= SESSION_DEDUP_WINDOW_MS)
  {
    hide Step;
    if GapHappens(issue, a, b, gap) {
      var start: int, es: seq<Event>, p: nat, q: nat :| GapIn(Run(start, es).log, p, q, issue, a, b, gap);
      InvAlways(start, es);
      if a == b {
        SameAgentCreationsApart(start, es, p, q);
      }
    }
    if gap >= 0 && a != b {
      OverlappingCreations(issue, a, b, gap);
    } else if gap >= SESSION_DEDUP_WINDOW_MS {
      CreationsInTurn(issue, a, b, gap);
    }
  }

  /** A request that joined another one ends with exactly that request's session, or its failure. */
  lemma JoinedRequestsShareTheResult(start: int, es: seq<Event>, i: nat)
    requires i < |Run(start, es).requests| && Run(start, es).requests[i].joined.Some? && Run(start, es).requests[i].phase.Done?
    ensures var rs := Run(start, es).requests;
            var o := rs[i].joined.value;
            && o < i && rs[o].key == rs[i].key
            && (rs[o].phase.Settled? || rs[o].phase.Done?) && rs[o].phase.result == rs[i].phase.result
  {
    InvAlways(start, es);
    assert Joins(Run(start, es), i);
  }

  /** A request turned away by the dedup window is handed a session really recorded on its issue less than a window ago. */
  lemma SkippedRequestsNameARecentSession(start: int, es: seq<Event>, issue: Issue, agent: Agent)
    requires Admit(Run(start, es).inFlight, Run(start, es).recent, issue, agent, Run(start, es).now).Skip?
    ensures var s := Run(start, es);
            exists p :: 0 <= p < |s.log| && s.log[p].issue == issue && s.now - s.log[p].at < SESSION_DEDUP_WINDOW_MS
                        && s.log[p].session == Admit(s.inFlight, s.recent, issue, agent, s.now).session
  {
    InvAlways(start, es);
    assert Named(Run(start, es).log, issue, Run(start, es).recent[issue]);
  }
}
