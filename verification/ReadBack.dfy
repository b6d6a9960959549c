/** src/fanout.ts: the description a child is minted with, and what is read back from it. */
module ReadBack {
  import opened Prelude
  import opened Text
  import opened SpecSections

  datatype Node = Node(
    identifier: string, title: Option<string>, description: Option<string>, stateName: Option<string>, labels: seq<string>)

  datatype ExistingChild = ExistingChild(
    identifier: string, specEntryId: string, state: Option<string>, title: Option<string>, childWorkflow: Option<string>)

  type Derive = (string, string) -> string

  const SPEC_ENTRY_KEY := "ai-1994:spec-entry-id:"
  const CHILD_WORKFLOW_KEY := "inf-32:child-workflow:"

  // ---- Legacy markers ----

  /** A comment `<!-- key value -->` at the start of a text: its length and its value. */
  datatype Marker = Marker(length: nat, value: string)

  /** The shortest run of `n` or more characters other than white space that is followed by the closing arrow. */
  function ValueLength(s: string, n: nat): (r: Option<nat>)
    requires n <= |s|
    ensures r.Some? ==> 0 < r.value <= |s| && StartsWith(TrimStart(s[r.value..]), "-->")
    decreases |s| - n
  {
    if n > 0 && IsSpace(s[n - 1]) then None
    else if n > 0 && StartsWith(TrimStart(s[n..]), "-->") then Some(n)
    else if n == |s| then None
    else ValueLength(s, n + 1)
  }

  function MarkerAt(s: string, key: string): Option<Marker> {
    if !StartsWith(s, "<!--") then None
    else
      var named := TrimStart(s[4..]);
      if !StartsWith(named, key) then None
      else
        var rest := TrimStart(named[|key|..]);
        var n := ValueLength(rest, 0);
        if n.None? then None
        else Some(Marker(|s| - |TrimStart(rest[n.value..])| + 3, rest[..n.value]))
  }

  datatype Found = Found(at: nat, marker: Marker)

  function FindMarker(s: string, key: string): Option<Found> {
    if s == [] then None
    else if MarkerAt(s, key).Some? then Some(Found(0, MarkerAt(s, key).value))
    else
      var r := FindMarker(s[1..], key);
      if r.Some? then Some(Found(1 + r.value.at, r.value.marker)) else None
  }

  function SliceTo(s: string, n: nat): string {
    if n <= |s| then s[..n] else s
  }

  function SliceFrom(s: string, n: nat): string {
    if n <= |s| then s[n..] else ""
  }

  function WithoutMarker(s: string, key: string): string {
    var f := FindMarker(s, key);
    if f.None? then s else SliceTo(s, f.value.at) + SliceFrom(s, f.value.at + f.value.marker.length)
  }

  // ---- The parent line ----

  function LineRun(s: string): (n: nat)
    ensures n <= |s| && SingleLine(s[..n]) && (n < |s| ==> IsLineEnd(s[n]))
  {
    if s != [] && !IsLineEnd(s[0]) then
      var n := LineRun(s[1..]);
      assert s[..n + 1] == [s[0]] + s[1..][..n];
      1 + n
    else 0
  }

  /** Where the text of the line starts: after as much white space as leaves a character on the line. */
  function LineStart(s: string, k: nat): (r: Option<nat>)
    requires k <= |s|
    ensures r.Some? ==> r.value <= k && r.value < |s| && !IsLineEnd(s[r.value])
  {
    if k < |s| && !IsLineEnd(s[k]) then Some(k)
    else if k == 0 then None
    else LineStart(s, k - 1)
  }

  /** How much of the text a leading `Parent:` line takes, with one newline. */
  function ParentLine(s: string): (r: Option<nat>)
    ensures r.Some? ==> r.value <= |s|
  {
    if !StartsWithFolded(s, "parent:") then None
    else
      var rest := s[7..];
      var k := LineStart(rest, SpaceRun(rest));
      if k.None? then None
      else
        var end := k.value + LineRun(rest[k.value..]);
        Some(7 + end + (if end < |rest| && rest[end] == '\n' then 1 else 0))
  }

  function OrNone(s: string): Option<string> {
    if s == "" then None else Some(s)
  }

  function CleanSpawnChildDescription(description: Option<string>): Option<string> {
    var unmarked := WithoutMarker(WithoutMarker(description.GetOr(""), SPEC_ENTRY_KEY), CHILD_WORKFLOW_KEY);
    var line := ParentLine(unmarked);
    OrNone(Trim(if line.Some? then unmarked[line.value..] else unmarked))
  }

  // ---- Reading children back ----

  predicate IsWorkflowLabel(l: string) {
    StartsWith(l, "wf:") && |l| > 3 && !IsLineEnd(l[3])
  }

  function WfLabel(labels: seq<string>): Option<string> {
    if labels == [] then None else if IsWorkflowLabel(labels[0]) then Some(labels[0]) else WfLabel(labels[1..])
  }

  /** The entry id: the legacy marker's, or derived from title and description of a child with a parent line. */
  function SpecEntryId(derive: Derive, n: Node): Option<string> {
    var text := n.description.GetOr("");
    var m := FindMarker(text, SPEC_ENTRY_KEY);
    if m.Some? then Some(m.value.marker.value)
    else if ParentLine(text).Some? && Truthy(n.title) then
      Some(derive(n.title.value, CleanSpawnChildDescription(n.description).GetOr("")))
    else None
  }

  function ReadNode(derive: Derive, n: Node): Option<ExistingChild> {
    var id := SpecEntryId(derive, n);
    var wfLabel := WfLabel(n.labels);
    var m := FindMarker(n.description.GetOr(""), CHILD_WORKFLOW_KEY);
    if !Truthy(id) || wfLabel.None? then None
    else Some(ExistingChild(n.identifier, id.value, n.stateName, n.title, Some(if m.Some? then m.value.marker.value else wfLabel.value)))
  }

  function ReadNodes(derive: Derive, ns: seq<Node>): seq<ExistingChild> {
    if ns == [] then []
    else
      var c := ReadNode(derive, ns[|ns| - 1]);
      ReadNodes(derive, ns[..|ns| - 1]) + (if c.Some? then [c.value] else [])
  }

  /** A failed read gives the same answer as no children. */
  method FetchExistingSpawnChildren(derive: Derive, read: Option<seq<Node>>) returns (children: seq<ExistingChild>)
    ensures children == ReadNodes(derive, read.GetOr([]))
  {
    hide FindMarker, CleanSpawnChildDescription, ParentLine;
    children := [];
    var nodes := read.GetOr([]);
    for i := 0 to |nodes|
      invariant children == ReadNodes(derive, nodes[..i])
    {
      var n := nodes[i];
      assert nodes[..i + 1][..i] == nodes[..i];
      var text := n.description.GetOr("");
      var m := FindMarker(text, SPEC_ENTRY_KEY);
      var wfMarker := FindMarker(text, CHILD_WORKFLOW_KEY);
      var wfLabel := WfLabel(n.labels);
      var hasParentRef := ParentLine(text).Some?;
      var clean := CleanSpawnChildDescription(n.description);
      var specEntryId: Option<string> :=
        if m.Some? then Some(m.value.marker.value)
        else if hasParentRef && Truthy(n.title) then Some(derive(n.title.value, clean.GetOr("")))
        else None;
      if !Truthy(specEntryId) || wfLabel.None? { continue; }
      children := children + [ExistingChild(n.identifier, specEntryId.value, n.stateName, n.title,
        Some(if wfMarker.Some? then wfMarker.value.marker.value else wfLabel.value))];
    }
    assert nodes[..|nodes|] == nodes;
  }

  lemma {:induction false} ReadNodesExactly(derive: Derive, ns: seq<Node>, c: ExistingChild)
    ensures c in ReadNodes(derive, ns) <==> exists i :: 0 <= i < |ns| && ReadNode(derive, ns[i]) == Some(c)
  {
    hide ReadNode;
    if ns != [] {
      ReadNodesExactly(derive, ns[..|ns| - 1], c);
    }
  }

  /** Every child that is read back has a workflow and a `wf:*` label, so no id-only match can ever come from a read. */
  lemma ReadChildrenHaveWorkflows(derive: Derive, ns: seq<Node>, c: ExistingChild)
    requires c in ReadNodes(derive, ns)
    ensures c.childWorkflow.Some? && exists i :: 0 <= i < |ns| && ReadNode(derive, ns[i]) == Some(c) && WfLabel(ns[i].labels).Some?
  {
    ReadNodesExactly(derive, ns, c);
  }

  // ---- Minting ----

  function ChildDescription(parent: string, description: Option<string>): string {
    "Parent: " + parent + (if Truthy(description) then "\n\n" + description.value else "")
  }

  /** An issue identifier: one line, not starting with white space, without an angle bracket. */
  predicate GoodParent(parent: string) {
    parent != "" && SingleLine(parent) && !IsSpace(parent[0]) && '<' !in parent
  }

  predicate MarkerFree(d: string) {
    FindMarker(d, SPEC_ENTRY_KEY).None? && FindMarker(d, CHILD_WORKFLOW_KEY).None?
  }

  /** A marker starts with an angle bracket. */
  lemma {:induction false} NoMarkerBefore(a: string, d: string, key: string)
    requires '<' !in a && FindMarker(d, key).None?
    ensures FindMarker(a + d, key).None?
  {
    if a == [] {
      assert a + d == d;
    } else {
      assert (a + d)[1..] == a[1..] + d && (a + d)[0] == a[0] && a[0] in a;
      assert !StartsWith(a + d, "<!--") by {
        if |a + d| >= 4 {
          assert (a + d)[..4][0] == a[0] && "<!--"[0] == '<';
        }
      }
      NoMarkerBefore(a[1..], d, key);
    }
  }

  lemma {:induction false} NoBracketNoMarker(a: string, key: string)
    requires '<' !in a
    ensures FindMarker(a, key).None?
  {
    NoMarkerBefore(a, "", key);
    assert a + "" == a;
  }

  lemma {:induction false} LineRunIs(s: string, n: nat)
    requires n <= |s| && SingleLine(s[..n]) && (n < |s| ==> IsLineEnd(s[n]))
    ensures LineRun(s) == n
  {
    if n > 0 {
      assert s[0] == s[..n][0] && s[..n][1..] == s[1..][..n - 1];
      LineRunIs(s[1..], n - 1);
    }
  }

  /** The parent line of a minted description is exactly the one the minter wrote. */
  lemma ParentLineIsTheMintersLine(parent: string, tail: string)
    requires GoodParent(parent) && (tail == "" || (|tail| >= 2 && tail[0] == '\n'))
    ensures ParentLine("Parent: " + parent + tail) == Some(8 + |parent| + (if tail == "" then 0 else 1))
  {
    hide LineRun, SpaceRun;
    var s := "Parent: " + parent + tail;
    assert s[..7] == "Parent:" && Lower("Parent:") == "parent:";
    var rest := s[7..];
    assert rest == " " + (parent + tail) && rest[..1] == " ";
    OneSpace(rest);
    assert rest[1] == parent[0];
    var line := rest[1..];
    assert line == parent + tail && line[..|parent|] == parent;
    LineRunIs(line, |parent|);
  }

  lemma OneSpace(s: string)
    requires |s| >= 2 && IsSpace(s[0]) && !IsSpace(s[1])
    ensures SpaceRun(s) == 1
  {
  }

  /** Taking the parent line off a minted description leaves exactly the trimmed original, whatever the original says. */
  lemma StrippingUndoesMinting(parent: string, description: Option<string>)
    requires GoodParent(parent) && MarkerFree(description.GetOr(""))
    ensures CleanSpawnChildDescription(Some(ChildDescription(parent, description))) == OrNone(Trim(description.GetOr("")))
  {
    hide FindMarker, ParentLine, Trim;
    var tail := if Truthy(description) then "\n\n" + description.value else "";
    var s := ChildDescription(parent, description);
    assert s == "Parent: " + parent + tail;
    MintedIsMarkerFree(parent, description);
    ParentLineIsTheMintersLine(parent, tail);
    if Truthy(description) {
      assert s[9 + |parent|..] == "\n" + description.value;
      NewlineTrims(description.value);
    } else {
      assert s[8 + |parent|..] == "";
    }
  }

  lemma NewlineTrims(d: string)
    ensures Trim("\n" + d) == Trim(d)
  {
    hide TrimStart, TrimEnd;
    TrimStartSkipsBlank("\n", d);
  }

  lemma MintedIsMarkerFree(parent: string, description: Option<string>)
    requires GoodParent(parent) && MarkerFree(description.GetOr(""))
    ensures MarkerFree(ChildDescription(parent, description))
  {
    hide FindMarker;
    var head := "Parent: " + parent;
    assert forall c :: c in head ==> c in "Parent: " || c in parent;
    if Truthy(description) {
      var front := head + "\n\n";
      assert forall c :: c in front ==> c in head || c in "\n\n";
      assert ChildDescription(parent, description) == front + description.value;
      NoMarkerBefore(front, description.value, SPEC_ENTRY_KEY);
      NoMarkerBefore(front, description.value, CHILD_WORKFLOW_KEY);
    } else {
      assert ChildDescription(parent, description) == head;
      NoBracketNoMarker(head, SPEC_ENTRY_KEY);
      NoBracketNoMarker(head, CHILD_WORKFLOW_KEY);
    }
  }

  /** A child as it is created for an entry. */
  predicate IsMinted(n: Node, parent: string, title: string, description: Option<string>, workflow: string) {
    && n.title == Some(title) && n.description == Some(ChildDescription(parent, description))
    && WfLabel(n.labels) == Some(workflow)
  }

  /**
   * A minted child reads back with its own workflow and with the id of its title and trimmed description, which is the
   * minting entry's own id when its description is trimmed, as extraction leaves it.
   */
  lemma MintedChildReadsBack(derive: Derive, n: Node, parent: string, title: string, description: Option<string>, workflow: string)
    requires GoodParent(parent) && title != "" && MarkerFree(description.GetOr("")) && IsMinted(n, parent, title, description, workflow)
    requires derive(title, Trim(description.GetOr(""))) != ""
    ensures ReadNode(derive, n) ==
              Some(ExistingChild(n.identifier, derive(title, Trim(description.GetOr(""))), n.stateName, Some(title), Some(workflow)))
    ensures Trimmed(description.GetOr("")) ==> ReadNode(derive, n).value.specEntryId == derive(title, description.GetOr(""))
  {
    hide FindMarker, ParentLine, Trim, CleanSpawnChildDescription;
    StrippingUndoesMinting(parent, description);
    MintedIsMarkerFree(parent, description);
    var tail := if Truthy(description) then "\n\n" + description.value else "";
    assert ChildDescription(parent, description) == "Parent: " + parent + tail;
    ParentLineIsTheMintersLine(parent, tail);
    if Trimmed(description.GetOr("")) {
      TrimmedIsFixed(description.GetOr(""));
    }
  }
}
