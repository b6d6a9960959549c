/** src/fanout.ts: findings extracted from a description, and derived findings printed into one. */
module SpecRoundTrip {
  import opened Prelude
  import opened Text
  import opened SpecSections

  datatype Finding = Finding(
    title: string, description: Option<string>,
    childWorkflow: Option<string>, targetState: Option<string>, delegate: Option<string>, id: string)

  /** A per-entry `[wf:...]` mark at the start of a title, and how much of the title it takes. */
  datatype Marker = Marker(workflow: string, targetState: Option<string>, delegate: Option<string>, length: nat)

  /** The parts of extraction this model does not open: the mark's grammar, the JSON fallback, and the content hash. */
  datatype Reader = Reader(marker: string -> Option<Marker>, json: string -> seq<Finding>, derive: (string, string) -> string)

  /** An optional backslash, a bracket, white space, `wf:`. */
  predicate LeadsWithMarker(title: string) {
    var t := if title != [] && title[0] == '\\' then title[1..] else title;
    t != [] && t[0] == '[' && StartsWith(TrimStart(t[1..]), "wf:")
  }

  ghost predicate ReadsMarkers(reader: Reader) {
    forall t :: reader.marker(t).Some? ==> LeadsWithMarker(t)
  }

  function DeriveId(reader: Reader, title: string, description: Option<string>): string {
    reader.derive(title, description.GetOr(""))
  }

  /** One trailing colon goes, with the white space behind it. */
  function StripColon(t: string): string {
    var r := TrimEnd(t);
    if r != "" && r[|r| - 1] == ':' then r[..|r| - 1] else t
  }

  function SliceFrom(s: string, n: nat): string {
    if n <= |s| then s[n..] else ""
  }

  function ToFinding(reader: Reader, title: string, description: Option<string>): Finding {
    match reader.marker(title)
    case None => Finding(title, description, None, None, None, DeriveId(reader, title, description))
    case Some(m) =>
      var rest := SliceFrom(title, m.length);
      Finding(rest, description, Some("wf:" + m.workflow), m.targetState, m.delegate, DeriveId(reader, rest, description))
  }

  function Findings(reader: Reader, es: seq<Entry>): seq<Finding> {
    if es == [] then []
    else
      var e := es[|es| - 1];
      var title := StripColon(e.title);
      Findings(reader, es[..|es| - 1]) + (if title == "" then [] else [ToFinding(reader, title, e.description)])
  }

  function SectionFindings(reader: Reader, text: string, name: string): seq<Finding> {
    var body := SectionBody(text, name);
    if body.Some? then Findings(reader, Entries(body.value)) else []
  }

  function ExtractedFindings(reader: Reader, description: Option<string>, name: string): seq<Finding> {
    if !Truthy(description) || name == "" then []
    else
      var found := SectionFindings(reader, description.value, name);
      if found != [] then found else reader.json(description.value)
  }

  method ExtractSpecFindings(reader: Reader, description: Option<string>, name: string) returns (findings: seq<Finding>)
    ensures findings == ExtractedFindings(reader, description, name)
  {
    hide Entries, SectionBody, StripColon;
    findings := [];
    if !Truthy(description) || name == "" { return; }
    var body := SectionBody(description.value, name);
    if body.Some? {
      var entries := ParseSpecEntries(body.value);
      for i := 0 to |entries|
        invariant findings == Findings(reader, entries[..i])
      {
        assert entries[..i + 1][..i] == entries[..i];
        var title := StripColon(entries[i].title);
        if title == "" { continue; }
        var marker := reader.marker(title);
        var rest := if marker.Some? then SliceFrom(title, marker.value.length) else title;
        var finding := Finding(rest, entries[i].description, None, None, None, DeriveId(reader, rest, entries[i].description));
        if marker.Some? {
          finding := finding.(childWorkflow := Some("wf:" + marker.value.workflow), targetState := marker.value.targetState, delegate := marker.value.delegate);
        }
        findings := findings + [finding];
      }
      assert entries[..|entries|] == entries;
    }
    if findings == [] {
      findings := reader.json(description.value);
    }
  }

  // ---- Printing ----

  const AUTO_DERIVED_SPEC_MARKER := "<!-- inf-115:auto-derived"
  const MARKER_ORIGIN := " — derived from completed prior-phase children"
  const MARKER_ADVICE := "; review/edit before spawning -->"
  const MARKER_LINE := AUTO_DERIVED_SPEC_MARKER + MARKER_ORIGIN + MARKER_ADVICE

  function WithoutStars(s: string): string {
    if s == [] then [] else (if s[0] == '*' then [] else [s[0]]) + WithoutStars(s[1..])
  }

  function SpecLine(f: Finding): string {
    "- **" + Trim(WithoutStars(f.title)) + "**" + (if Truthy(f.description) then ": " + f.description.value else "")
  }

  function SpecLines(fs: seq<Finding>): (r: seq<string>)
    ensures |r| == |fs| && forall i :: 0 <= i < |fs| ==> r[i] == SpecLine(fs[i])
  {
    seq(|fs|, i requires 0 <= i < |fs| => SpecLine(fs[i]))
  }

  function Heading(name: string): string {
    "## " + (if name == "" then "" else [UpperChar(name[0])] + name[1..])
  }

  function DerivedSection(name: string, fs: seq<Finding>): string {
    Heading(name) + "\n\n" + MARKER_LINE + "\n\n" + JoinLines(SpecLines(fs)) + "\n"
  }

  function UpsertDerivedSpecSection(reader: Reader, description: Option<string>, name: string, fs: seq<Finding>): Option<string> {
    if fs == [] then None
    else if ExtractedFindings(reader, description, name) != [] then None
    else
      var base := TrimEnd(description.GetOr(""));
      Some(if base != "" then base + "\n\n" + DerivedSection(name, fs) else DerivedSection(name, fs))
  }

  // ---- One line round trip ----

  predicate CleanTitle(t: string) {
    && t != "" && Trimmed(t) && SingleLine(t) && '*' !in t && t[|t| - 1] != ':' && !LeadsWithMarker(t)
  }

  predicate CleanDescription(d: string) {
    d != "" && Trimmed(d) && SingleLine(d) && !IsSeparator(d[0])
  }

  predicate Clean(f: Finding) {
    CleanTitle(f.title) && (f.description.Some? ==> CleanDescription(f.description.value))
  }

  lemma {:induction false} NoStarsIsFixed(s: string)
    requires '*' !in s
    ensures WithoutStars(s) == s
  {
    if s != [] {
      assert s[0] in s;
      NoStarsIsFixed(s[1..]);
    }
  }

  lemma {:induction false} BoldFromFinds(title: string, tail: string, n: nat)
    requires title != "" && SingleLine(title) && '*' !in title && BoldTail(tail).Some? && n <= |title|
    ensures BoldFrom(title + "**" + tail, n) ==
              Some(Bullet(Trim(title), if Trim(BoldTail(tail).value) == "" then None else Some(Trim(BoldTail(tail).value))))
    decreases |title| - n
  {
    hide Trim, BoldTail;
    var s := title + "**" + tail;
    assert SingleLine(s[..n]) by {
      assert s[..n] == title[..n];
    }
    if n < |title| {
      assert s[n] == title[n] && title[n] in title;
      assert s[n..n + 2][0] != '*';
      BoldFromFinds(title, tail, n + 1);
    } else {
      assert s[n..n + 2] == "**" && s[n + 2..] == tail && s[..n] == title;
    }
  }

  function TailOf(f: Finding): string {
    if Truthy(f.description) then ": " + f.description.value else ""
  }

  lemma TailReads(f: Finding)
    requires Clean(f)
    ensures BoldTail(TailOf(f)) == Some(f.description.GetOr(""))
  {
    if f.description.Some? {
      var d := f.description.value;
      var t := ": " + d;
      assert t[1..] == " " + d && (" " + d)[1..] == d;
      assert SkipSeparators(t) == SkipSeparators(" " + d) == SkipSeparators(d) == d;
    }
  }

  lemma MarkOf(rest: string)
    requires StartsWith(rest, "**")
    ensures AfterMark("- " + rest) == Some(rest)
  {
    hide TrimStart;
    var line := "- " + rest;
    assert line[1..] == " " + rest && line[0] == '-' && line[1] == ' ';
    assert rest[0] == rest[..2][0] == '*';
    SolidStartIsFixed(rest);
    TrimStartSkipsBlank(" ", rest);
  }

  lemma {:induction false} JoinIsSingle(a: string, b: string)
    requires NoNewline(a) && NoNewline(b)
    ensures NoNewline(a + b)
  {
    assert forall c :: c in a + b ==> c in a || c in b;
  }

  lemma LineHasNoNewline(f: Finding)
    requires Clean(f)
    ensures NoNewline("- **" + f.title + "**" + TailOf(f))
  {
    hide LeadsWithMarker, IsSpace;
    assert NoNewline(f.title) && NoNewline(TailOf(f)) by {
      if f.description.Some? {
        assert NoNewline(f.description.value);
        JoinIsSingle(": ", f.description.value);
      }
    }
    JoinIsSingle("- **", f.title);
    JoinIsSingle("- **" + f.title, "**");
    JoinIsSingle("- **" + f.title + "**", TailOf(f));
  }

  lemma BoldLineReads(f: Finding)
    requires Clean(f)
    ensures BulletOf("- " + ("**" + (f.title + "**" + TailOf(f)))) == Some(Bullet(f.title, f.description))
  {
    hide LeadsWithMarker, SingleLine, BoldFrom, BoldTail, AfterMark, PlainBullet, NumberedBullet, Trim, TailOf;
    TrimmedIsFixed(f.title);
    TailReads(f);
    var rest := "**" + (f.title + "**" + TailOf(f));
    MarkOf(rest);
    assert rest[2..] == f.title + "**" + TailOf(f);
    BoldFromFinds(f.title, TailOf(f), 0);
    if f.description.Some? {
      TrimmedIsFixed(f.description.value);
    } else {
      BlankTrims("");
    }
  }

  lemma Regroup(title: string, tail: string)
    ensures "- **" + title + "**" + tail == "- " + ("**" + (title + "**" + tail))
  {
    assert "- **" == "- " + "**";
  }

  lemma SpecLineIs(f: Finding)
    requires Clean(f)
    ensures SpecLine(f) == "- **" + f.title + "**" + TailOf(f)
  {
    hide Trim, WithoutStars, LeadsWithMarker, SingleLine, CleanDescription;
    NoStarsIsFixed(f.title);
    TrimmedIsFixed(f.title);
  }

  lemma LineReads(f: Finding)
    requires Clean(f)
    ensures BulletOf(SpecLine(f)) == Some(Bullet(f.title, f.description))
    ensures NoNewline(SpecLine(f))
  {
    hide Clean, BulletOf, SpecLine, TailOf;
    SpecLineIs(f);
    Regroup(f.title, TailOf(f));
    BoldLineReads(f);
    LineHasNoNewline(f);
  }

  // ---- Many lines ----

  lemma LineIsPushed(raw: seq<RawEntry>, f: Finding)
    requires Clean(f)
    ensures Push(raw, SpecLine(f)) == raw + [RawOf(f)]
  {
    hide BulletOf, SpecLine, LeadsWithMarker;
    LineReads(f);
  }

  lemma {:induction false} LinesRead(prefix: seq<string>, fs: seq<Finding>)
    requires RawEntries(prefix) == [] && forall f :: f in fs ==> Clean(f)
    ensures var raw := RawEntries(prefix + SpecLines(fs));
            |raw| == |fs| && forall i :: 0 <= i < |fs| ==> raw[i] == RawOf(fs[i])
  {
    hide Push, SpecLine, Clean, RawOf;
    if fs == [] {
      assert prefix + SpecLines(fs) == prefix;
    } else {
      var f := fs[|fs| - 1];
      var lines := prefix + SpecLines(fs);
      LinesRead(prefix, fs[..|fs| - 1]);
      assert lines[..|lines| - 1] == prefix + SpecLines(fs[..|fs| - 1]) && lines[|lines| - 1] == SpecLine(f);
      LineIsPushed(RawEntries(lines[..|lines| - 1]), f);
    }
  }

  function RawOf(f: Finding): RawEntry {
    RawEntry(f.title, if f.description.Some? then [f.description.value] else [])
  }

  /** Lines that are no bullets, before any bullet, make no entry. */
  lemma {:induction false} ProseMakesNoEntry(lines: seq<string>)
    requires forall l :: l in lines ==> !StartsEntry(l)
    ensures RawEntries(lines) == []
  {
    hide StartsEntry;
    if lines != [] {
      assert lines[|lines| - 1] in lines;
      ProseMakesNoEntry(lines[..|lines| - 1]);
    }
  }

  function Derived(reader: Reader, f: Finding): Finding {
    Finding(f.title, f.description, None, None, None, DeriveId(reader, f.title, f.description))
  }

  /** The same titles and descriptions in the same order, with ids derived from them. */
  predicate SameFindings(reader: Reader, got: seq<Finding>, fs: seq<Finding>) {
    |got| == |fs| && forall i :: 0 <= i < |fs| ==> got[i] == Derived(reader, fs[i])
  }

  lemma CleanTitleIsKept(reader: Reader, f: Finding)
    requires ReadsMarkers(reader) && CleanTitle(f.title)
    ensures StripColon(f.title) == f.title && ToFinding(reader, f.title, f.description) == Derived(reader, f)
  {
    hide LeadsWithMarker;
    assert TrimEnd(f.title) == f.title;
    assert reader.marker(f.title).None?;
  }

  lemma {:induction false} EntriesBecomeFindings(reader: Reader, es: seq<Entry>, fs: seq<Finding>)
    requires ReadsMarkers(reader) && |es| == |fs|
    requires forall i :: 0 <= i < |fs| ==> CleanTitle(fs[i].title) && es[i] == Entry(fs[i].title, fs[i].description)
    ensures SameFindings(reader, Findings(reader, es), fs)
  {
    hide ReadsMarkers, CleanTitle, StripColon, ToFinding, Derived;
    if es != [] {
      var f := fs[|fs| - 1];
      EntriesBecomeFindings(reader, es[..|es| - 1], fs[..|fs| - 1]);
      CleanTitleIsKept(reader, f);
      assert f.title != "" by {
        CleanTitleIsNotEmpty(f.title);
      }
    }
  }

  lemma CleanTitleIsNotEmpty(t: string)
    requires CleanTitle(t)
    ensures t != ""
  {
  }

  lemma MarkerIsProse()
    ensures !StartsEntry(MARKER_LINE) && !StartsEntry("") && NoNewline(MARKER_LINE)
  {
    hide BulletOf, NoNewline;
    MarkerIsOneLine();
    assert MARKER_LINE[0] == '<';
    NoBullet(MARKER_LINE);
    NoBullet("");
  }

  lemma NoBullet(line: string)
    requires line == "" || line[0] == '<'
    ensures BulletOf(line) == None
  {
  }

  lemma MarkerIsOneLine()
    ensures NoNewline(MARKER_LINE)
  {
    hide NoNewline, AUTO_DERIVED_SPEC_MARKER, MARKER_ORIGIN, MARKER_ADVICE;
    NameIsOneLine();
    OriginIsOneLine();
    AdviceIsOneLine();
    JoinIsSingle(AUTO_DERIVED_SPEC_MARKER, MARKER_ORIGIN);
    JoinIsSingle(AUTO_DERIVED_SPEC_MARKER + MARKER_ORIGIN, MARKER_ADVICE);
  }

  lemma NameIsOneLine()
    ensures NoNewline(AUTO_DERIVED_SPEC_MARKER)
  {
  }

  lemma AdviceIsOneLine()
    ensures NoNewline(MARKER_ADVICE)
  {
  }

  lemma OriginIsOneLine()
    ensures NoNewline(MARKER_ORIGIN)
  {
    var a, b := " — derived from completed", " prior-phase children";
    assert NoNewline(a);
    assert NoNewline(b);
    assert MARKER_ORIGIN == a + b;
    JoinIsSingle(a, b);
  }

  /** A body of prose lines, the mark and printed lines reads back as the printed findings. */
  lemma BodyReads(reader: Reader, prose: seq<string>, fs: seq<Finding>)
    requires ReadsMarkers(reader) && fs != [] && forall f :: f in fs ==> Clean(f)
    requires forall l :: l in prose ==> NoNewline(l) && !StartsEntry(l)
    ensures SameFindings(reader, Findings(reader, Entries(JoinLines(prose + SpecLines(fs)))), fs)
  {
    hide StartsEntry, Findings, JoinLines, RawEntries, SplitLines, SpecLine;
    var lines := prose + SpecLines(fs);
    forall l | l in lines
      ensures NoNewline(l)
    {
      if l !in prose {
        var i :| 0 <= i < |fs| && l == SpecLines(fs)[i];
        LineReads(fs[i]);
      }
    }
    SplitJoined(lines);
    ProseMakesNoEntry(prose);
    LinesRead(prose, fs);
    var es := Entries(JoinLines(lines));
    forall i | 0 <= i < |fs|
      ensures CleanTitle(fs[i].title) && es[i] == Entry(fs[i].title, fs[i].description)
    {
      FinishReads(fs[i]);
    }
    EntriesBecomeFindings(reader, es, fs);
  }

  lemma FinishReads(f: Finding)
    requires Clean(f)
    ensures Finish(RawOf(f)) == Entry(f.title, f.description)
  {
    if f.description.Some? {
      TrimmedIsFixed(f.description.value);
    }
  }

  lemma {:induction false} FindingsKeepDescriptions(reader: Reader, es: seq<Entry>, f: Finding)
    requires f in Findings(reader, es)
    ensures f.id == DeriveId(reader, f.title, f.description)
    ensures exists e :: e in es && e.description == f.description
  {
    hide StripColon;
    if f in Findings(reader, es[..|es| - 1]) {
      FindingsKeepDescriptions(reader, es[..|es| - 1], f);
      assert es == es[..|es| - 1] + [es[|es| - 1]];
    }
  }

  /** Whatever the section says, its findings have trimmed descriptions and ids derived from title and description. */
  lemma ExtractedFindingsAreTrimmed(reader: Reader, text: string, name: string, f: Finding)
    requires f in SectionFindings(reader, text, name)
    ensures Trimmed(f.description.GetOr("")) && f.id == DeriveId(reader, f.title, f.description)
  {
    hide Findings, SectionBody, RawEntries;
    var es := Entries(SectionBody(text, name).value);
    FindingsKeepDescriptions(reader, es, f);
    var i :| 0 <= i < |es| && es[i].description == f.description;
    TrimIsTrimmed(JoinLines(RawEntries(SplitLines(SectionBody(text, name).value))[i].descLines));
  }
}
