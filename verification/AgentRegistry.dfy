/** src/agents.ts: the in-memory agent registry and the operations that change it. */
module AgentRegistry {
  import opened Prelude
  import opened Text

  datatype Status = Active | OffLinear | NeverOnboarded

  datatype Failure = Failure(at: int, status: int, retriable: bool, reason: string)

  datatype Agent = Agent(
    name: string, linearUserId: string, accessToken: string, refreshToken: string,
    displayName: Option<string>, openclawAgent: Option<string>, proxyToken: Option<string>, proxyUrl: Option<string>,
    status: Option<Status>, expiresAt: Option<int>, lastRefreshOkAt: Option<int>, lastFailure: Option<Failure>)

  /** A configuration to be merged in; `None` is a key that is not there. */
  datatype Config = Config(
    name: string, linearUserId: Option<string>, accessToken: Option<string>, refreshToken: Option<string>,
    displayName: Option<string>, openclawAgent: Option<string>, proxyToken: Option<string>, proxyUrl: Option<string>,
    status: Option<Status>)

  datatype Metadata = Metadata(openclawAgent: Option<string>, linearUserId: Option<string>, displayName: Option<string>, status: Option<Status>)

  function Effective(a: Agent): Status {
    a.status.GetOr(Active)
  }

  /** A stored status that contradicts the credential is corrected; a decommissioned agent is left alone. */
  function ReconcileStatusWithCredential(a: Agent): Agent {
    if a.status == Some(OffLinear) then a
    else if Effective(a) == Active && a.refreshToken == "" then a.(status := Some(NeverOnboarded))
    else if Effective(a) == NeverOnboarded && a.refreshToken != "" then a.(status := Some(Active))
    else a
  }

  predicate NeedsProxyToken(a: Agent) {
    !Truthy(a.proxyToken) && Trim(a.accessToken) != ""
  }

  /** `minted` is the new opaque token, `url` the default proxy URL. */
  function WithProxyToken(a: Agent, minted: string, url: Option<string>): Agent {
    if NeedsProxyToken(a) then a.(proxyToken := Some(minted), proxyUrl := if Truthy(a.proxyUrl) then a.proxyUrl else url) else a
  }

  function Or<T>(patch: Option<T>, stored: Option<T>): Option<T> {
    if patch.Some? then patch else stored
  }

  function Merge(a: Agent, c: Config): Agent {
    a.(name := c.name, linearUserId := c.linearUserId.GetOr(a.linearUserId), accessToken := c.accessToken.GetOr(a.accessToken),
       refreshToken := c.refreshToken.GetOr(a.refreshToken), displayName := Or(c.displayName, a.displayName),
       openclawAgent := Or(c.openclawAgent, a.openclawAgent), proxyToken := Or(c.proxyToken, a.proxyToken),
       proxyUrl := Or(c.proxyUrl, a.proxyUrl), status := Or(c.status, a.status))
  }

  const BLANK := Agent("", "", "", "", None, None, None, None, None, None, None, None)

  /** The position of the first agent of that name. */
  function FindName(s: seq<Agent>, name: string): (r: Option<nat>)
    ensures r.Some? ==> r.value < |s| && s[r.value].name == name
    ensures r.None? <==> forall i :: 0 <= i < |s| ==> s[i].name != name
  {
    if s == [] then None
    else if s[0].name == name then Some(0)
    else
      var r := FindName(s[1..], name);
      if r.Some? then Some(1 + r.value) else None
  }

  function FindUser(s: seq<Agent>, user: string): (r: Option<nat>)
    ensures r.Some? ==> r.value < |s| && s[r.value].linearUserId == user
    ensures r.None? <==> forall i :: 0 <= i < |s| ==> s[i].linearUserId != user
  {
    if s == [] then None
    else if s[0].linearUserId == user then Some(0)
    else
      var r := FindUser(s[1..], user);
      if r.Some? then Some(1 + r.value) else None
  }

  /** By name first; by Linear user id only when the configuration has a non-empty one. */
  function Existing(s: seq<Agent>, c: Config): (r: Option<nat>)
    ensures r.Some? ==> r.value < |s|
  {
    if FindName(s, c.name).Some? then FindName(s, c.name)
    else if Truthy(c.linearUserId) then FindUser(s, c.linearUserId.value)
    else None
  }

  function Upserted(s: seq<Agent>, c: Config, minted: string, url: Option<string>): seq<Agent> {
    match Existing(s, c)
    case Some(i) => s[i := WithProxyToken(ReconcileStatusWithCredential(Merge(s[i], c)), minted, url)]
    case None => s + [ReconcileStatusWithCredential(WithProxyToken(Merge(BLANK, c), minted, url))]
  }

  function MetadataUpdated(s: seq<Agent>, name: string, m: Metadata): seq<Agent> {
    match FindName(s, name)
    case None => s
    case Some(i) =>
      var a := s[i];
      s[i := ReconcileStatusWithCredential(
               a.(openclawAgent := Or(m.openclawAgent, a.openclawAgent), linearUserId := m.linearUserId.GetOr(a.linearUserId),
                  displayName := Or(m.displayName, a.displayName), status := Or(m.status, a.status)))]
  }

  function WithTokens(a: Agent, access: string, refresh: string, expiresAt: Option<int>, now: int): Agent {
    a.(accessToken := access, refreshToken := refresh, expiresAt := Or(expiresAt, a.expiresAt), lastRefreshOkAt := Some(now), lastFailure := None)
  }

  function TokensUpdated(s: seq<Agent>, name: string, access: string, refresh: string, expiresAt: Option<int>, now: int): (r: seq<Agent>)
    ensures |r| == |s| && forall i :: 0 <= i < |s| ==> r[i] == if s[i].name == name then WithTokens(s[i], access, refresh, expiresAt, now) else s[i]
  {
    seq(|s|, i requires 0 <= i < |s| => if s[i].name == name then WithTokens(s[i], access, refresh, expiresAt, now) else s[i])
  }

  function FailureRecorded(s: seq<Agent>, name: string, f: Failure): (r: seq<Agent>)
    ensures |r| == |s| && forall i :: 0 <= i < |s| ==> r[i] == if s[i].name == name then s[i].(lastFailure := Some(f)) else s[i]
  {
    seq(|s|, i requires 0 <= i < |s| => if s[i].name == name then s[i].(lastFailure := Some(f)) else s[i])
  }

  class Registry {
    var agents: seq<Agent>

    constructor (agents: seq<Agent>)
      ensures this.agents == agents
    {
      this.agents := agents;
    }

    method UpsertAgent(c: Config, minted: string, url: Option<string>) returns (isNew: bool)
      modifies this
      ensures agents == Upserted(old(agents), c, minted, url)
      ensures isNew <==> Existing(old(agents), c).None?
      ensures |agents| == |old(agents)| + (if isNew then 1 else 0)
    {
      hide NeedsProxyToken;
      var existing := FindName(agents, c.name);
      if existing.None? && Truthy(c.linearUserId) {
        existing := FindUser(agents, c.linearUserId.value);
      }
      if existing.Some? {
        var merged := ReconcileStatusWithCredential(Merge(agents[existing.value], c));
        if NeedsProxyToken(merged) {
          merged := merged.(proxyToken := Some(minted));
          if !Truthy(merged.proxyUrl) {
            merged := merged.(proxyUrl := url);
          }
        }
        agents := agents[existing.value := merged];
        return false;
      }
      agents := agents + [ReconcileStatusWithCredential(WithProxyToken(Merge(BLANK, c), minted, url))];
      return true;
    }

    method UpdateAgentMetadata(name: string, m: Metadata) returns (updated: Option<Agent>)
      modifies this
      ensures agents == MetadataUpdated(old(agents), name, m)
      ensures updated == if FindName(old(agents), name).Some? then Some(agents[FindName(old(agents), name).value]) else None
    {
      var idx := FindName(agents, name);
      if idx.None? { return None; }
      var current := agents[idx.value];
      var merged := ReconcileStatusWithCredential(
        current.(openclawAgent := Or(m.openclawAgent, current.openclawAgent), linearUserId := m.linearUserId.GetOr(current.linearUserId),
                 displayName := Or(m.displayName, current.displayName), status := Or(m.status, current.status)));
      agents := agents[idx.value := merged];
      return Some(merged);
    }

    method UpdateTokens(name: string, access: string, refresh: string, expiresAt: Option<int>, now: int)
      modifies this
      ensures agents == TokensUpdated(old(agents), name, access, refresh, expiresAt, now)
    {
      agents := TokensUpdated(agents, name, access, refresh, expiresAt, now);
    }

    method RecordTokenFailure(name: string, f: Failure)
      modifies this
      ensures agents == FailureRecorded(old(agents), name, f)
    {
      agents := FailureRecorded(agents, name, f);
    }
  }

  // ---- Reconciliation ----

  /** After reconciling, an agent that is not decommissioned is effectively active exactly when it has a refresh token. */
  lemma ReconciledExactly(a: Agent)
    ensures var r := ReconcileStatusWithCredential(a);
            && Effective(r) == (if a.status == Some(OffLinear) then OffLinear else if a.refreshToken != "" then Active else NeverOnboarded)
            && r.(status := a.status) == a && ReconcileStatusWithCredential(r) == r
  {
  }

  // ---- Invariants over runs ----

  datatype Event =
    | Upsert(config: Config, minted: string, url: Option<string>)
    | Edit(name: string, metadata: Metadata)
    | Tokens(name: string, access: string, refresh: string, expiresAt: Option<int>, now: int)
    | Fail(name: string, failure: Failure)

  function Step(s: seq<Agent>, e: Event): seq<Agent> {
    match e
    case Upsert(c, minted, url) => Upserted(s, c, minted, url)
    case Edit(name, m) => MetadataUpdated(s, name, m)
    case Tokens(name, access, refresh, expiresAt, now) => TokensUpdated(s, name, access, refresh, expiresAt, now)
    case Fail(name, f) => FailureRecorded(s, name, f)
  }

  function Run(s: seq<Agent>, es: seq<Event>): seq<Agent> {
    if es == [] then s else Step(Run(s, es[..|es| - 1]), es[|es| - 1])
  }

  predicate UniqueNames(s: seq<Agent>) {
    forall i, j :: 0 <= i < j < |s| ==> s[i].name != s[j].name
  }

  predicate Credentialed(a: Agent) {
    Effective(a) == Active ==> a.refreshToken != ""
  }

  predicate NoBareActive(s: seq<Agent>) {
    forall i :: 0 <= i < |s| ==> Credentialed(s[i])
  }

  lemma UpsertKeepsNames(s: seq<Agent>, c: Config, minted: string, url: Option<string>)
    requires UniqueNames(s)
    ensures UniqueNames(Upserted(s, c, minted, url))
    ensures exists i :: 0 <= i < |Upserted(s, c, minted, url)| && Upserted(s, c, minted, url)[i].name == c.name
  {
    hide NeedsProxyToken, FindName, FindUser;
    var t := Upserted(s, c, minted, url);
    var at := Existing(s, c).GetOr(|s|);
    assert t[at].name == c.name;
    assert forall i :: 0 <= i < |s| && i != at ==> t[i] == s[i] && s[i].name != c.name;
  }

  lemma StepKeepsNames(s: seq<Agent>, e: Event)
    requires UniqueNames(s)
    ensures UniqueNames(Step(s, e))
  {
    hide Upserted, FindName;
    match e
    case Upsert(c, minted, url) => UpsertKeepsNames(s, c, minted, url);
    case Edit(name, m) => assert forall i :: 0 <= i < |s| ==> MetadataUpdated(s, name, m)[i].name == s[i].name;
    case _ => assert forall i :: 0 <= i < |s| ==> Step(s, e)[i].name == s[i].name;
  }

  /** Over any run, names stay unique, also when a record is found by its Linear user id and renamed. */
  lemma {:induction false} NamesStayUnique(s: seq<Agent>, es: seq<Event>)
    requires UniqueNames(s)
    ensures UniqueNames(Run(s, es))
  {
    if es != [] {
      NamesStayUnique(s, es[..|es| - 1]);
      StepKeepsNames(Run(s, es[..|es| - 1]), es[|es| - 1]);
    }
  }

  /** An empty refresh token is stored on an agent that is effectively active. */
  predicate Strips(s: seq<Agent>, e: Event) {
    e.Tokens? && e.refresh == "" && exists i :: 0 <= i < |s| && s[i].name == e.name && Effective(s[i]) == Active
  }

  /**
   * One operation keeps every active agent credentialed, unless it stores an empty refresh token on an agent that is
   * effectively active.
   */
  lemma StepKeepsCredentialsExactly(s: seq<Agent>, e: Event)
    requires NoBareActive(s)
    ensures NoBareActive(Step(s, e)) <==> !Strips(s, e)
  {
    hide NeedsProxyToken, FindName, FindUser, Merge;
    match e
    case Upsert(c, minted, url) =>
      var t := Upserted(s, c, minted, url);
      assert forall i :: 0 <= i < |s| && i != Existing(s, c).GetOr(|s|) ==> t[i] == s[i];
    case Edit(name, m) =>
      var t := MetadataUpdated(s, name, m);
      assert forall i :: 0 <= i < |s| && i != FindName(s, name).GetOr(|s|) ==> t[i] == s[i];
    case Tokens(name, access, refresh, expiresAt, now) =>
      var t := Step(s, e);
      assert forall i :: 0 <= i < |s| ==> Effective(t[i]) == Effective(s[i]);
      assert forall i :: 0 <= i < |s| && s[i].name == name ==> t[i].refreshToken == refresh;
      assert forall i :: 0 <= i < |s| && Credentialed(t[i]) && s[i].name == name && Effective(s[i]) == Active ==> refresh != "";
    case Fail(name, f) =>
      assert forall i :: 0 <= i < |s| ==> Credentialed(Step(s, e)[i]) == Credentialed(s[i]);
  }

  /** The invariant holds after every event of the run. */
  predicate AlwaysCredentialed(s: seq<Agent>, es: seq<Event>) {
    NoBareActive(Run(s, es)) && (es != [] ==> AlwaysCredentialed(s, es[..|es| - 1]))
  }

  predicate NeverStrips(s: seq<Agent>, es: seq<Event>) {
    es == [] || (!Strips(Run(s, es[..|es| - 1]), es[|es| - 1]) && NeverStrips(s, es[..|es| - 1]))
  }

  /**
   * Over any run, no effectively active agent ever lacks a refresh token exactly when no event stores an empty one on an
   * active agent.
   */
  lemma {:induction false} ActiveAgentsHaveCredentialsExactly(s: seq<Agent>, es: seq<Event>)
    requires NoBareActive(s)
    ensures AlwaysCredentialed(s, es) <==> NeverStrips(s, es)
  {
    hide NoBareActive, Step, Strips;
    if es != [] {
      ActiveAgentsHaveCredentialsExactly(s, es[..|es| - 1]);
      if AlwaysCredentialed(s, es[..|es| - 1]) {
        StepKeepsCredentialsExactly(Run(s, es[..|es| - 1]), es[|es| - 1]);
      }
    }
  }

  /** Storing tokens never promotes an agent: it stays never-onboarded until an upsert or an edit touches it. */
  lemma TokensDoNotPromote(s: seq<Agent>, i: nat, access: string, refresh: string, expiresAt: Option<int>, now: int)
    requires UniqueNames(s) && i < |s| && s[i].status == Some(NeverOnboarded) && refresh != ""
    ensures var t := TokensUpdated(s, s[i].name, access, refresh, expiresAt, now);
            t[i].status == Some(NeverOnboarded) && MetadataUpdated(t, s[i].name, Metadata(None, None, None, None))[i].status == Some(Active)
  {
    hide WithTokens;
    var t := TokensUpdated(s, s[i].name, access, refresh, expiresAt, now);
    assert WithTokens(s[i], access, refresh, expiresAt, now).status == s[i].status by { TokensKeepIdentity(s[i], access, refresh, expiresAt, now); }
    forall j | 0 <= j < |s|
      ensures t[j].name == s[j].name
    {
      TokensKeepIdentity(s[j], access, refresh, expiresAt, now);
    }
    TokensKeepIdentity(s[i], access, refresh, expiresAt, now);
    assert FindName(t, s[i].name) == Some(i);
  }

  lemma TokensKeepIdentity(a: Agent, access: string, refresh: string, expiresAt: Option<int>, now: int)
    ensures var r := WithTokens(a, access, refresh, expiresAt, now); r.name == a.name && r.status == a.status && r.refreshToken == refresh
  {
  }

  // ---- Brokered credentials ----

  /** An agent with an upstream token has a proxy token to publish in its place. */
  predicate Brokered(a: Agent) {
    Trim(a.accessToken) != "" ==> Truthy(a.proxyToken)
  }

  predicate AllBrokered(s: seq<Agent>) {
    forall i :: 0 <= i < |s| ==> Brokered(s[i])
  }

  /** An upsert leaves the agent it touches brokered. */
  lemma UpsertBrokers(s: seq<Agent>, c: Config, minted: string, url: Option<string>)
    requires minted != "" && AllBrokered(s)
    ensures AllBrokered(Upserted(s, c, minted, url))
  {
    hide Trim, Merge, FindName, FindUser;
    var t := Upserted(s, c, minted, url);
    assert forall i :: 0 <= i < |s| && i != Existing(s, c).GetOr(|s|) ==> t[i] == s[i];
  }

  /** A token update mints nothing: the agent stays brokered exactly when it had a proxy token or the new token is blank. */
  lemma TokensKeepBrokeredExactly(a: Agent, access: string, refresh: string, expiresAt: Option<int>, now: int)
    ensures Brokered(WithTokens(a, access, refresh, expiresAt, now)) <==> Truthy(a.proxyToken) || Trim(access) == ""
  {
    hide Trim;
  }

  /** A token is stored on an agent that has no proxy token. */
  predicate Exposes(s: seq<Agent>, e: Event) {
    e.Tokens? && Trim(e.access) != "" && exists i :: 0 <= i < |s| && s[i].name == e.name && !Truthy(s[i].proxyToken)
  }

  lemma TokensExpose(s: seq<Agent>, e: Event)
    requires e.Tokens? && AllBrokered(s)
    ensures AllBrokered(Step(s, e)) <==> !Exposes(s, e)
  {
    hide Trim, WithTokens, Brokered;
    var t := Step(s, e);
    forall i | 0 <= i < |s| && s[i].name == e.name
      ensures Brokered(t[i]) <==> Truthy(s[i].proxyToken) || Trim(e.access) == ""
    {
      TokensKeepBrokeredExactly(s[i], e.access, e.refresh, e.expiresAt, e.now);
    }
  }

  lemma StepBrokersExactly(s: seq<Agent>, e: Event)
    requires AllBrokered(s) && (e.Upsert? ==> e.minted != "")
    ensures AllBrokered(Step(s, e)) <==> !Exposes(s, e)
  {
    hide Trim, FindName, Upserted, WithTokens, TokensUpdated;
    match e
    case Upsert(c, minted, url) => UpsertBrokers(s, c, minted, url);
    case Edit(name, m) =>
      var t := MetadataUpdated(s, name, m);
      assert forall i :: 0 <= i < |s| ==> t[i].accessToken == s[i].accessToken && t[i].proxyToken == s[i].proxyToken;
    case Tokens(_, _, _, _, _) => TokensExpose(s, e);
    case Fail(name, f) =>
      assert forall i :: 0 <= i < |s| ==> Brokered(Step(s, e)[i]) == Brokered(s[i]);
  }

  predicate AlwaysBrokered(s: seq<Agent>, es: seq<Event>) {
    AllBrokered(Run(s, es)) && (es != [] ==> AlwaysBrokered(s, es[..|es| - 1]))
  }

  predicate NeverExposes(s: seq<Agent>, es: seq<Event>) {
    es == [] || (!Exposes(Run(s, es[..|es| - 1]), es[|es| - 1]) && NeverExposes(s, es[..|es| - 1]))
  }

  /** Over any run, every upstream token always has a proxy token in front of it exactly when no token update meets an agent without one. */
  lemma {:induction false} CredentialsStayBrokeredExactly(s: seq<Agent>, es: seq<Event>)
    requires AllBrokered(s) && forall e :: e in es && e.Upsert? ==> e.minted != ""
    ensures AlwaysBrokered(s, es) <==> NeverExposes(s, es)
  {
    hide AllBrokered, Step, Exposes;
    if es != [] {
      assert es[|es| - 1] in es;
      CredentialsStayBrokeredExactly(s, es[..|es| - 1]);
      if AlwaysBrokered(s, es[..|es| - 1]) {
        StepBrokersExactly(Run(s, es[..|es| - 1]), es[|es| - 1]);
      }
    }
  }
}
