/**
 * src/fanout.ts: appending a derived spec section and reading it back. The round trip holds exactly when the
 * description has no earlier heading of that name with text behind it.
 */
module SpecUpsert {
  import opened Prelude
  import opened Text
  import opened SpecSections
  import opened SpecRoundTrip

  predicate GoodName(name: string) {
    name != "" && SingleLine(name) && name[0] != '#' && !IsSpace(name[0])
  }

  // ---- Headings are decided locally ----

  lemma {:induction false} SpaceRunIs(s: string, n: nat)
    requires n <= |s| && Blank(s[..n]) && (n < |s| ==> !IsSpace(s[n]))
    ensures SpaceRun(s) == n
  {
    if n > 0 {
      assert s[0] == s[..n][0] && s[..n][1..] == s[1..][..n - 1];
      SpaceRunIs(s[1..], n - 1);
    }
  }

  lemma {:induction false} HashRunIs(s: string, n: nat)
    requires n <= |s| && (forall i :: 0 <= i < n ==> s[i] == '#') && (n < |s| ==> s[n] != '#')
    ensures HashRun(s) == n
  {
    if n > 0 {
      HashRunIs(s[1..], n - 1);
    }
  }

  lemma NameNeedsItsFirstChar(s: string, name: string)
    requires GoodName(name) && (s == [] || IsSpace(s[0]) || s[0] == '#')
    ensures !NameAt(s, name)
  {
    assert name[0] == name[0];
  }

  lemma NameEndNeedsItsFirstChar(s: string, name: string)
    requires GoodName(name) && (s == [] || IsSpace(s[0]) || s[0] == '#')
    ensures NameEnd(s, name).None?
  {
    NameNeedsItsFirstChar(s, name);
  }

  /** Of the white space before a name only all of it can be skipped. */
  lemma {:induction false} OnlyAllSpace(s: string, name: string, k: nat)
    requires GoodName(name) && k <= |s| && Blank(s[..k])
    ensures NameAfterSpace(s, name, k) == if k > 0 && NameEnd(s[k..], name).Some? then Some(k + NameEnd(s[k..], name).value) else None
    decreases k
  {
    hide NameEnd;
    if k > 1 {
      assert s[k - 1..][0] == s[..k][k - 1];
      NameEndNeedsItsFirstChar(s[k - 1..], name);
      assert forall i :: 0 <= i < k - 1 ==> s[..k - 1][i] == s[..k][i];
      OnlyAllSpace(s, name, k - 1);
    }
  }

  /** Where the name of a heading has to start. */
  function NameStart(s: string): (n: nat)
    ensures n <= |s|
  {
    HashRun(s) + SpaceRun(s[HashRun(s)..])
  }

  /** One to four hashes, white space, the name. */
  lemma HeadingShape(s: string, name: string)
    requires GoodName(name)
    ensures var at := NameStart(s);
            HeadingAt(s, name) ==
              if 1 <= HashRun(s) <= 4 && at > HashRun(s) && NameEnd(s[at..], name).Some? then Some(at + NameEnd(s[at..], name).value) else None
  {
    hide NameEnd, NameAfterSpace, HashRun, SpaceRun;
    var h := HashRun(s);
    assert s[h..][SpaceRun(s[h..])..] == s[NameStart(s)..];
    OnlyAllSpace(s[h..], name, SpaceRun(s[h..]));
  }

  /** Neither a hash in a run of spaces nor a space in a run of hashes: what follows `u` cannot change how `u` starts. */
  lemma StartUnaffected(u: string, z: string)
    requires HashRun(u) < |u| && z != "" && !IsSpace(z[0])
    ensures HashRun(u + z) == HashRun(u) && NameStart(u + z) == NameStart(u)
  {
    hide HashRun, SpaceRun;
    var h := HashRun(u);
    HashRunIs(u + z, h);
    assert (u + z)[h..] == u[h..] + z;
    SpacesUnaffected(u[h..], z);
  }

  lemma SpacesUnaffected(u: string, z: string)
    requires z != "" && !IsSpace(z[0])
    ensures SpaceRun(u + z) == SpaceRun(u)
  {
    hide SpaceRun;
    var n := SpaceRun(u);
    assert (u + z)[..n] == u[..n];
    SpaceRunIs(u + z, n);
  }

  predicate EndsInNewline(u: string) {
    u != "" && u[|u| - 1] == '\n'
  }

  lemma NameEndUnaffected(v: string, z: string, name: string)
    requires GoodName(name) && (v == "" || EndsInNewline(v)) && z != "" && z[0] == '#'
    ensures NameEnd(v + z, name) == NameEnd(v, name)
  {
    hide SpaceRun;
    if v == "" {
      assert v + z == z;
      NameNeedsItsFirstChar(z, name);
      NameNeedsItsFirstChar(v, name);
    } else if |name| >= |v| {
      NewlineIsNoName(v, name, |v| - 1);
      NewlineIsNoName(v + z, name, |v| - 1);
    } else {
      assert NameAt(v + z, name) == NameAt(v, name);
      var w := v[|name|..];
      assert (v + z)[|name|..] == w + z;
      SpacesUnaffected(w, z);
      assert (w + z)[..SpaceRun(w)] == w[..SpaceRun(w)];
    }
  }

  lemma NewlineIsNoName(s: string, name: string, i: nat)
    requires GoodName(name) && i < |name| && i < |s| && s[i] == '\n'
    ensures !NameAt(s, name)
  {
    assert !IsLineEnd(name[i]);
  }

  /** Text appended after a newline cannot complete or break a heading before it, if it starts with a hash. */
  lemma HeadingUnaffected(u: string, z: string, name: string)
    requires GoodName(name) && EndsInNewline(u) && z != "" && z[0] == '#'
    ensures HeadingAt(u + z, name) == HeadingAt(u, name)
  {
    hide NameEnd, HeadingAt, HashRun, NameStart;
    assert HashRun(u) < |u|;
    StartUnaffected(u, z);
    HeadingShape(u, name);
    HeadingShape(u + z, name);
    assert (u + z)[NameStart(u)..] == u[NameStart(u)..] + z;
    NameEndUnaffected(u[NameStart(u)..], z, name);
  }

  predicate EndsSolid(u: string) {
    u != "" && !IsSpace(u[|u| - 1])
  }

  lemma SolidStopsSpaces(w: string, z: string)
    requires EndsSolid(w)
    ensures SpaceRun(w) < |w| && SpaceRun(w + z) == SpaceRun(w)
  {
    hide SpaceRun;
    var n := SpaceRun(w);
    assert forall i :: 0 <= i < n ==> w[i] == w[..n][i];
    assert (w + z)[..n] == w[..n];
    SpaceRunIs(w + z, n);
  }

  /** With two newlines more, a name ends inside `v` as before, or it is all of `v` and the newlines complete the heading. */
  lemma NameEndWithoutNewlines(v: string, name: string)
    requires GoodName(name) && EndsSolid(v)
    ensures var long := NameEnd(v + "\n\n", name);
            NameEnd(v, name) == (if long.Some? && long.value <= |v| then long else None)
            && (long.Some? ==> long.value < |v| || long.value == |v| + 2)
  {
    hide SpaceRun;
    var z := "\n\n";
    if |name| > |v| {
      NewlineIsNoName(v + z, name, |v|);
    } else {
      assert NameAt(v + z, name) == NameAt(v, name);
      var w := v[|name|..];
      assert (v + z)[|name|..] == w + z;
      if w == "" {
        assert w + z == z && z[..2] == z && Blank(z);
        SpaceRunIs(z, 2);
      } else {
        SolidStopsSpaces(w, z);
        assert (w + z)[..SpaceRun(w)] == w[..SpaceRun(w)];
      }
    }
  }

  lemma HashesOnlyIsNoHeading(u: string, name: string)
    requires GoodName(name) && HashRun(u) == |u|
    ensures HeadingAt(u, name).None? && HeadingAt(u + "\n\n", name).None?
  {
    hide NameEnd, HeadingAt, HashRun, SpaceRun;
    var z := "\n\n";
    HashRunIs(u + z, |u|);
    assert (u + z)[|u|..] == z && z[..2] == z && Blank(z);
    SpaceRunIs(z, 2);
    HeadingShape(u, name);
    HeadingShape(u + z, name);
    assert u[|u|..] == "" && (u + z)[|u| + 2..] == "" && ""[..0] == "";
    SpaceRunIs("", 0);
    NameEndOfNothing(name);
  }

  lemma NameEndOfNothing(name: string)
    requires GoodName(name)
    ensures NameEnd("", name).None?
  {
    NameEndNeedsItsFirstChar("", name);
  }

  lemma HeadingWithoutNewlines(u: string, name: string)
    requires GoodName(name) && EndsSolid(u)
    ensures var long := HeadingAt(u + "\n\n", name);
            HeadingAt(u, name) == (if long.Some? && long.value <= |u| then long else None)
            && (long.Some? ==> long.value < |u| || long.value == |u| + 2)
  {
    hide NameEnd, HeadingAt, HashRun, SpaceRun;
    var z := "\n\n";
    var h := HashRun(u);
    if h == |u| {
      HashesOnlyIsNoHeading(u, name);
    } else {
      HashRunIs(u + z, h);
      assert (u + z)[h..] == u[h..] + z;
      SolidStopsSpaces(u[h..], z);
      var at := NameStart(u);
      assert NameStart(u + z) == at && (u + z)[at..] == u[at..] + z;
      HeadingShape(u, name);
      HeadingShape(u + z, name);
      NameEndWithoutNewlines(u[at..], name);
    }
  }

  // ---- The appended section ----

  lemma ShownNameReads(name: string, rest: string)
    requires GoodName(name) && rest != "" && !IsSpace(rest[0])
    ensures NameEnd([UpperChar(name[0])] + name[1..] + "\n\n" + rest, name) == Some(|name| + 2)
  {
    hide SpaceRun;
    var named := [UpperChar(name[0])] + name[1..] + "\n\n" + rest;
    assert NameAt(named, name);
    var tail := named[|name|..];
    assert tail == "\n\n" + rest && tail[..2] == "\n\n" && Blank(tail[..2]);
    SpaceRunIs(tail, 2);
  }

  lemma HeadingReads(name: string, rest: string)
    requires GoodName(name) && rest != "" && !IsSpace(rest[0])
    ensures var s := Heading(name) + "\n\n" + rest;
            HeadingAt(s, name) == Some(|Heading(name)| + 2) && s[..2] == "##" && s[2] == ' ' && HashRun(s) == 2
  {
    hide HashRun, SpaceRun, NameEnd, HeadingAt;
    var named := [UpperChar(name[0])] + name[1..] + "\n\n" + rest;
    var s := Heading(name) + "\n\n" + rest;
    assert s == "## " + named;
    HashRunIs(s, 2);
    assert s[2..] == " " + named && s[2..][..1] == " ";
    SpaceRunIs(s[2..], 1);
    assert s[3..] == named;
    ShownNameReads(name, rest);
    HeadingShape(s, name);
  }

  predicate NoHashAfterNewline(s: string) {
    forall j :: 0 <= j < |s| - 1 && s[j] == '\n' ==> s[j + 1] != '#'
  }

  predicate StartsWithHash(s: string) {
    s != "" && s[0] == '#'
  }

  lemma {:induction false} JoinedHasNoHeading(ls: seq<string>)
    requires ls != [] && forall i :: 0 <= i < |ls| ==> NoNewline(ls[i]) && (i > 0 ==> !StartsWithHash(ls[i]))
    ensures NoHashAfterNewline(JoinLines(ls))
    ensures StartsWithHash(JoinLines(ls)) ==> StartsWithHash(ls[0])
    ensures ls[|ls| - 1] != "" ==> JoinLines(ls) != "" && JoinLines(ls)[|JoinLines(ls)| - 1] != '\n'
  {
    if |ls| == 1 {
      assert forall j :: 0 <= j < |ls[0]| ==> ls[0][j] in ls[0];
    } else {
      JoinedHasNoHeading(ls[1..]);
      var a, b := ls[0], JoinLines(ls[1..]);
      var s := a + "\n" + b;
      assert forall i :: 0 <= i < |a| ==> s[i] == a[i] && a[i] in a;
      forall j | 0 <= j < |s| - 1 && s[j] == '\n'
        ensures s[j + 1] != '#'
      {
        if j > |a| {
          assert s[j] == b[j - |a| - 1] && s[j + 1] == b[j - |a|];
        } else {
          assert s[j + 1] == b[0];
        }
      }
    }
  }

  lemma SectionEndsAtLastNewline(s: string)
    requires s != "" && s[|s| - 1] != '\n' && NoHashAfterNewline(s)
    ensures SectionLength(s + "\n") == |s|
  {
    var r := s + "\n";
    assert r[|s|..] == "\n";
    forall j | 0 <= j < |s|
      ensures !EndsHere(r[j..])
    {
      var t := r[j..];
      assert t[|s| - 1 - j] == s[|s| - 1];
      if t[0] == '\n' {
        assert t[1..][0] == r[j + 1] && r[j + 1] == s[j + 1];
      }
    }
    SectionLengthIs(r, |s|);
  }

  lemma SpecLineIsDashed(f: Finding)
    ensures SpecLine(f) != "" && !StartsWithHash(SpecLine(f)) && !IsSpace(SpecLine(f)[0])
  {
    assert SpecLine(f)[0] == '-';
  }

  /** From its start on, a section of prose lines and printed lines reads back whole. */
  lemma SectionReads(reader: Reader, text: string, name: string, at: nat, prose: seq<string>, fs: seq<Finding>)
    requires ReadsMarkers(reader) && fs != [] && forall f :: f in fs ==> Clean(f)
    requires forall i :: 0 <= i < |prose| ==> NoNewline(prose[i]) && !StartsEntry(prose[i]) && (i > 0 ==> !StartsWithHash(prose[i]))
    requires SectionStart(text, name) == Some(at) && at <= |text| && text[at..] == JoinLines(prose + SpecLines(fs)) + "\n"
    ensures SameFindings(reader, SectionFindings(reader, text, name), fs)
  {
    hide Clean, SpecLine, JoinLines, SectionStart, StartsEntry, Findings, Entries;
    var lines := prose + SpecLines(fs);
    forall i | 0 <= i < |lines|
      ensures NoNewline(lines[i]) && (i > 0 ==> !StartsWithHash(lines[i])) && (i >= |prose| ==> lines[i] != "")
    {
      if i >= |prose| {
        LineReads(fs[i - |prose|]);
        SpecLineIsDashed(fs[i - |prose|]);
      }
    }
    JoinedHasNoHeading(lines);
    SectionEndsAtLastNewline(JoinLines(lines));
    assert text[at..][..|JoinLines(lines)|] == JoinLines(lines);
    BodyReads(reader, prose, fs);
  }

  lemma JoinBehind(a: string, b: string, ls: seq<string>)
    requires ls != []
    ensures JoinLines([a, b] + ls) == a + "\n" + (b + "\n" + JoinLines(ls))
  {
    var both := [a, b] + ls;
    assert both[1..] == [b] + ls && ([b] + ls)[1..] == ls;
  }

  /** The section as lines. */
  lemma SectionAsLines(name: string, fs: seq<Finding>)
    requires fs != []
    ensures DerivedSection(name, fs) == Heading(name) + "\n\n" + (JoinLines([MARKER_LINE, ""] + SpecLines(fs)) + "\n")
    ensures DerivedSection(name, fs) == JoinLines([Heading(name), "", MARKER_LINE, ""] + SpecLines(fs)) + "\n"
  {
    hide JoinLines, MARKER_LINE, Heading, SpecLines;
    var lines := SpecLines(fs);
    var two := [MARKER_LINE, ""] + lines;
    JoinBehind(MARKER_LINE, "", lines);
    JoinBehind(Heading(name), "", two);
    assert [Heading(name), "", MARKER_LINE, ""] + lines == [Heading(name), ""] + two;
    assert JoinLines(two) == MARKER_LINE + "\n\n" + JoinLines(lines);
  }

  lemma MarkerOpens(fs: seq<Finding>)
    requires fs != []
    ensures var rest := JoinLines([MARKER_LINE, ""] + SpecLines(fs)) + "\n"; rest != "" && !IsSpace(rest[0])
  {
    var two := [MARKER_LINE, ""] + SpecLines(fs);
    var line := MARKER_LINE;
    assert line[0] == '<';
    assert JoinLines(two) == two[0] + "\n" + JoinLines(two[1..]);
  }

  /** What is appended to: the trimmed description and a blank line, or nothing. */
  function Before(base: string): string {
    if base == "" then "" else base + "\n\n"
  }

  /** No heading of that name, or the heading is the very last thing. */
  predicate NothingBehindHeading(base: string, name: string) {
    var before := Before(base);
    SectionStart(before, name) == None || SectionStart(before, name) == Some(|before|)
  }

  lemma {:induction false} NothingInNothing(name: string)
    ensures SectionStart("", name).None?
  {
    HeadingIsInside("", name);
  }

  /** The first heading of the appended text: an earlier one stays first, otherwise the appended one is. */
  lemma FirstHeadingAfterAppend(base: string, name: string, fs: seq<Finding>)
    requires GoodName(name) && EndsSolid(base) && fs != []
    ensures var before := Before(base);
            SectionStart(before + DerivedSection(name, fs), name) ==
              if SectionStart(before, name).Some? then SectionStart(before, name) else Some(|before| + |Heading(name)| + 2)
  {
    hide HeadingAt, SectionStart, JoinLines, SpecLines, Heading, MARKER_LINE;
    var before, z := base + "\n\n", DerivedSection(name, fs);
    SectionAsLines(name, fs);
    MarkerOpens(fs);
    HeadingReads(name, JoinLines([MARKER_LINE, ""] + SpecLines(fs)) + "\n");
    assert z[0] == z[..2][0] == '#';
    forall j: nat | j < |before|
      ensures HeadingAt((before + z)[j..], name) == HeadingAt(before[j..], name)
    {
      assert (before + z)[j..] == before[j..] + z;
      HeadingUnaffected(before[j..], z, name);
    }
    SectionStartIsFirst(before, name);
    if SectionStart(before, name).Some? {
      var at := SectionStart(before, name).value;
      var p: nat :| FirstHeading(before, name, p, at);
      assert FirstHeading(before + z, name, p, at);
      SectionStartAt(before + z, name, p, at);
    } else {
      var p: nat := |before|;
      assert (before + z)[p..] == z;
      assert FirstHeading(before + z, name, p, p + |Heading(name)| + 2);
      SectionStartAt(before + z, name, p, p + |Heading(name)| + 2);
    }
  }

  /** Appending under a description that ends in a heading of that name, or has none, reads back exactly what was printed. */
  lemma AppendedSectionReads(reader: Reader, base: string, name: string, fs: seq<Finding>)
    requires ReadsMarkers(reader) && GoodName(name) && fs != [] && forall f :: f in fs ==> Clean(f)
    requires base == "" || EndsSolid(base)
    requires NothingBehindHeading(base, name)
    ensures SameFindings(reader, SectionFindings(reader, Before(base) + DerivedSection(name, fs), name), fs)
  {
    hide HeadingAt, SectionStart, JoinLines, SpecLine, SpecLines, Heading, MARKER_LINE, Clean, SectionFindings, StartsEntry, DerivedSection;
    var before, z := Before(base), DerivedSection(name, fs);
    SectionAsLines(name, fs);
    MarkerOpens(fs);
    MarkerIsProse();
    var rest := JoinLines([MARKER_LINE, ""] + SpecLines(fs)) + "\n";
    HeadingReads(name, rest);
    var headed := |Heading(name)| + 2;
    assert z[headed..] == rest;
    if base == "" {
      assert before + z == z && z[0..] == z;
      var p: nat := 0;
      assert FirstHeading(z, name, p, headed);
      SectionStartAt(z, name, p, headed);
      SectionReads(reader, z, name, headed, [MARKER_LINE, ""], fs);
    } else {
      FirstHeadingAfterAppend(base, name, fs);
      if SectionStart(before, name).None? {
        assert (before + z)[|before| + headed..] == rest;
        SectionReads(reader, before + z, name, |before| + headed, [MARKER_LINE, ""], fs);
      } else {
        assert (before + z)[|before|..] == z;
        HeadingIsProse(name);
        MarkerHasNoHash();
        SectionReads(reader, before + z, name, |before|, [Heading(name), "", MARKER_LINE, ""], fs);
      }
    }
  }

  lemma MarkerHasNoHash()
    ensures !StartsWithHash(MARKER_LINE)
  {
    var line := MARKER_LINE;
    assert line[0] == '<';
  }

  lemma HeadingIsProse(name: string)
    requires GoodName(name)
    ensures NoNewline(Heading(name)) && !StartsEntry(Heading(name))
  {
    var shown := [UpperChar(name[0])] + name[1..];
    assert Heading(name) == "## " + shown && Heading(name)[0] == '#';
    assert NoNewline(shown) by {
      forall i | 0 <= i < |shown|
        ensures shown[i] != '\n'
      {
      }
    }
    JoinIsSingle("## ", shown);
  }

  // ---- A heading with text behind it hides what is appended ----

  lemma {:induction false} SplitAtNewline(a: string, b: string)
    ensures SplitLines(a + "\n" + b) == SplitLines(a) + SplitLines(b)
  {
    var s := a + "\n" + b;
    if a == [] {
      assert s[1..] == b && SplitLines("") == [""];
    } else {
      assert s[1..] == a[1..] + "\n" + b && s[0] == a[0];
      SplitAtNewline(a[1..], b);
      var x, y := SplitLines(a[1..]), SplitLines(b);
      if a[0] == '\n' {
        assert [""] + (x + y) == ([""] + x) + y;
      } else {
        assert [[a[0]] + (x + y)[0]] + (x + y)[1..] == ([[a[0]] + x[0]] + x[1..]) + y;
      }
    }
  }

  /** The entries of more lines have the earlier titles first. */
  predicate TitlesPrefix(a: seq<RawEntry>, b: seq<RawEntry>) {
    |a| <= |b| && forall i :: 0 <= i < |a| ==> a[i].title == b[i].title
  }

  lemma {:induction false} TitlesGrow(a: seq<string>, b: seq<string>)
    ensures TitlesPrefix(RawEntries(a), RawEntries(a + b))
  {
    hide StartsEntry, Continues, BulletOf;
    if b == [] {
      assert a + b == a;
    } else {
      TitlesGrow(a, b[..|b| - 1]);
      assert (a + b)[..|a + b| - 1] == a + b[..|b| - 1] && (a + b)[|a + b| - 1] == b[|b| - 1];
    }
  }

  lemma {:induction false} NoFindings(reader: Reader, es: seq<Entry>)
    ensures Findings(reader, es) == [] <==> forall i :: 0 <= i < |es| ==> StripColon(es[i].title) == ""
  {
    hide StripColon, ToFinding;
    if es != [] {
      NoFindings(reader, es[..|es| - 1]);
    }
  }

  lemma FewerLinesFewerFindings(reader: Reader, a: string, b: string)
    requires Findings(reader, Entries(a + "\n" + b)) == []
    ensures Findings(reader, Entries(a)) == []
  {
    hide Findings, RawEntries, SplitLines, StripColon;
    SplitAtNewline(a, b);
    TitlesGrow(SplitLines(a), SplitLines(b));
    NoFindings(reader, Entries(a));
    NoFindings(reader, Entries(a + "\n" + b));
    var some, all := Entries(a), Entries(a + "\n" + b);
    assert forall i :: 0 <= i < |some| ==> some[i].title == all[i].title;
  }

  lemma BlankLineKeepsTitles(raw: seq<RawEntry>)
    ensures |Push(raw, "")| == |raw| && TitlesPrefix(raw, Push(raw, ""))
  {
  }

  lemma BlankLineAddsNothing(reader: Reader, a: string)
    requires Findings(reader, Entries(a)) == []
    ensures Findings(reader, Entries(a + "\n")) == []
  {
    hide Findings, SplitLines, StripColon, Push, Finish;
    SplitAtNewline(a, "");
    assert a + "\n" + "" == a + "\n";
    var lines := SplitLines(a);
    SplitOne("");
    assert (lines + [""])[..|lines|] == lines;
    BlankLineKeepsTitles(RawEntries(lines));
    SameTitlesSameFindings(reader, a, a + "\n");
  }

  lemma SameTitlesSameFindings(reader: Reader, a: string, b: string)
    requires Findings(reader, Entries(a)) == []
    requires |RawEntries(SplitLines(b))| == |RawEntries(SplitLines(a))| && TitlesPrefix(RawEntries(SplitLines(a)), RawEntries(SplitLines(b)))
    ensures Findings(reader, Entries(b)) == []
  {
    hide Findings, SplitLines, StripColon, RawEntries;
    NoFindings(reader, Entries(a));
    NoFindings(reader, Entries(b));
    var one, two := Entries(a), Entries(b);
    assert forall i :: 0 <= i < |one| ==> one[i].title == two[i].title;
  }

  lemma HeadingStaysNext(u: string, z: string)
    requires NextHeading(u)
    ensures NextHeading(u + z)
  {
    hide HashRun;
    assert (u + z)[1..] == u[1..] + z;
    HashRunIs(u[1..] + z, HashRun(u[1..]));
  }

  lemma AppendedHeadingIsNext(z: string)
    requires |z| > 2 && HashRun(z) == 2 && z[2] == ' '
    ensures NextHeading("\n" + z)
  {
    assert ("\n" + z)[1..] == z;
  }

  /** In the appended text the section is no longer than it was, except for one newline when it ran to the end. */
  lemma SectionLengthAfterAppend(c: string, z: string)
    requires EndsSolid(c) && |z| > 2 && HashRun(z) == 2 && z[2] == ' '
    ensures var r := c + "\n\n" + z;
            var n, m := SectionLength(c), SectionLength(r);
            (m <= n || (n == |c| && m == |c| + 1)) && m < |r| && r[m] == '\n'
  {
    hide HashRun, SectionLength, NextHeading;
    var r := c + "\n\n" + z;
    var n, m := SectionLength(c), SectionLength(r);
    assert r[|c| + 1..] == "\n" + z;
    AppendedHeadingIsNext(z);
    assert m <= |c| + 1;
    if n < |c| {
      assert c[n..][|c| - 1 - n] == c[|c| - 1];
      assert r[n..] == c[n..] + ("\n\n" + z);
      HeadingStaysNext(c[n..], "\n\n" + z);
    }
    assert r[m..][|c| + 2 - m] == z[0] && HashRun(z) == 2;
    assert NextHeading(r[m..]);
    NextHeadingStarts(r[m..]);
  }

  lemma NextHeadingStarts(s: string)
    requires NextHeading(s)
    ensures s != "" && s[0] == '\n'
  {
  }

  lemma AppendLeavesSectionEmpty(reader: Reader, c: string, z: string)
    requires EndsSolid(c) && |z| > 2 && HashRun(z) == 2 && z[2] == ' '
    requires Findings(reader, Entries(c[..SectionLength(c)])) == []
    ensures var r := c + "\n\n" + z; Findings(reader, Entries(r[..SectionLength(r)])) == []
  {
    hide HashRun, SectionLength, Findings, Entries;
    var r := c + "\n\n" + z;
    var n, m := SectionLength(c), SectionLength(r);
    SectionLengthAfterAppend(c, z);
    if m < n {
      assert c[..n] == r[..m] + "\n" + c[m + 1..n];
      FewerLinesFewerFindings(reader, r[..m], c[m + 1..n]);
    } else if m == n {
      assert r[..m] == c[..n];
    } else {
      assert c[..n] == c && r[..m] == c + "\n";
      BlankLineAddsNothing(reader, c);
    }
  }

  lemma HeadingInTrimmed(base: string, name: string)
    requires GoodName(name) && EndsSolid(base) && SectionStart(Before(base), name).Some? && SectionStart(Before(base), name).value != |base| + 2
    ensures SectionStart(base, name) == SectionStart(Before(base), name) && SectionStart(base, name).value < |base|
  {
    hide HeadingAt, SectionStart;
    var before := Before(base);
    var at := SectionStart(before, name).value;
    SectionStartIsFirst(before, name);
    var p: nat :| FirstHeading(before, name, p, at);
    assert p < |base| by {
      if p >= |base| {
        NewlinesStartNoHeading(before, name, p);
      }
    }
    forall j: nat | j <= p
      ensures var long := HeadingAt(before[j..], name);
              HeadingAt(base[j..], name) == (if long.Some? && long.value <= |base| - j then long else None)
              && (long.Some? ==> long.value < |base| - j || long.value == |base| - j + 2)
    {
      assert before[j..] == base[j..] + "\n\n";
      HeadingWithoutNewlines(base[j..], name);
    }
    assert FirstHeading(base, name, p, at);
    SectionStartAt(base, name, p, at);
  }

  lemma NewlinesStartNoHeading(s: string, name: string, p: nat)
    requires p < |s| && s[p] == '\n'
    ensures HeadingAt(s[p..], name).None?
  {
    HashRunIs(s[p..], 0);
  }

  /** With text behind an earlier, empty section of that name, the appended entries are never found. */
  lemma AppendedSectionIsHidden(reader: Reader, base: string, name: string, fs: seq<Finding>)
    requires GoodName(name) && fs != [] && EndsSolid(base) && !NothingBehindHeading(base, name)
    requires SectionFindings(reader, base, name) == []
    ensures SectionFindings(reader, Before(base) + DerivedSection(name, fs), name) == []
  {
    hide HeadingAt, SectionStart, JoinLines, SpecLines, Heading, MARKER_LINE, Findings, Entries, SectionLength, DerivedSection, HashRun;
    var before, z := Before(base), DerivedSection(name, fs);
    HeadingInTrimmed(base, name);
    FirstHeadingAfterAppend(base, name, fs);
    SectionAsLines(name, fs);
    MarkerOpens(fs);
    HeadingReads(name, JoinLines([MARKER_LINE, ""] + SpecLines(fs)) + "\n");
    var at := SectionStart(base, name).value;
    assert (before + z)[at..] == base[at..] + "\n\n" + z;
    AppendLeavesSectionEmpty(reader, base[at..], z);
  }

  /**
   * A derived section appended to a description without entries of its own reads back as printed, exactly when the
   * description has no earlier heading of that name with text behind it.
   */
  lemma AppendReadsBackExactly(reader: Reader, base: string, name: string, fs: seq<Finding>)
    requires ReadsMarkers(reader) && GoodName(name) && fs != [] && forall f :: f in fs ==> Clean(f)
    requires base == "" || EndsSolid(base)
    requires SectionFindings(reader, base, name) == []
    ensures SameFindings(reader, SectionFindings(reader, Before(base) + DerivedSection(name, fs), name), fs) <==> NothingBehindHeading(base, name)
  {
    hide SectionFindings, DerivedSection, Clean, SectionStart;
    NothingInNothing(name);
    if NothingBehindHeading(base, name) {
      AppendedSectionReads(reader, base, name, fs);
    } else {
      AppendedSectionIsHidden(reader, base, name, fs);
    }
  }

  /** Printing and reading back: the same entries in the same order, and a second upsert has nothing to do. */
  lemma UpsertRoundTrip(reader: Reader, description: Option<string>, name: string, fs: seq<Finding>, more: seq<Finding>)
    requires ReadsMarkers(reader) && GoodName(name) && forall f :: f in fs ==> Clean(f)
    requires UpsertDerivedSpecSection(reader, description, name, fs).Some?
    requires NothingBehindHeading(TrimEnd(description.GetOr("")), name)
    ensures var text := UpsertDerivedSpecSection(reader, description, name, fs);
            && SameFindings(reader, ExtractedFindings(reader, text, name), fs)
            && UpsertDerivedSpecSection(reader, text, name, more) == None
  {
    hide SectionFindings, DerivedSection, Clean, SectionStart;
    var base := TrimEnd(description.GetOr(""));
    AppendedSectionReads(reader, base, name, fs);
    assert "" + DerivedSection(name, fs) == DerivedSection(name, fs);
    DerivedSectionIsNotEmpty(name, fs);
  }

  lemma DerivedSectionIsNotEmpty(name: string, fs: seq<Finding>)
    ensures DerivedSection(name, fs) != ""
  {
    assert |DerivedSection(name, fs)| >= |"\n"|;
  }

  /** With text behind an empty heading and no JSON block to fall back on, every upsert appends the section once more. */
  lemma UpsertNeverConverges(reader: Reader, base: string, name: string, fs: seq<Finding>)
    requires GoodName(name) && fs != [] && EndsSolid(base) && !NothingBehindHeading(base, name)
    requires ExtractedFindings(reader, Some(base), name) == []
    ensures var text := Before(base) + DerivedSection(name, fs);
            && UpsertDerivedSpecSection(reader, Some(base), name, fs) == Some(text)
            && (reader.json(text) == [] ==> UpsertDerivedSpecSection(reader, Some(text), name, fs).Some?)
  {
    hide SectionFindings, DerivedSection, SectionStart;
    AppendedSectionIsHidden(reader, base, name, fs);
    assert TrimEnd(base) == base;
  }

  /** Such a description: an empty section, and a sentence under it. */
  lemma ProseUnderHeadingExample(reader: Reader)
    requires reader.json("## findings" + "\n\n" + "None yet.") == []
    ensures var base := "## findings" + "\n\n" + "None yet.";
            EndsSolid(base) && !NothingBehindHeading(base, "findings") && ExtractedFindings(reader, Some(base), "findings") == []
  {
    hide HeadingAt, SectionStart, Findings, Entries, SectionLength;
    var rest := "None yet.";
    var base, name := "## findings" + "\n\n" + rest, "findings";
    var before := Before(base);
    assert before == "## findings" + "\n\n" + (rest + "\n\n");
    ExampleStart(rest);
    ExampleStart(rest + "\n\n");
    assert base[13..] == rest;
    ExampleBody(reader, rest);
  }

  lemma ExampleStart(rest: string)
    requires rest != "" && !IsSpace(rest[0])
    ensures SectionStart("## findings" + "\n\n" + rest, "findings") == Some(13)
  {
    hide HeadingAt, SectionStart;
    var s := "## findings" + "\n\n" + rest;
    ExampleHeading(rest);
    var p: nat := 0;
    assert s[p..] == s && |s| >= 13;
    SectionStartAt(s, "findings", p, 13);
  }

  lemma ExampleHeading(rest: string)
    requires rest != "" && !IsSpace(rest[0])
    ensures HeadingAt("## findings" + "\n\n" + rest, "findings") == Some(13)
  {
    hide HashRun, SpaceRun, HeadingAt, NameEnd;
    var name, s := "findings", "## findings" + "\n\n" + rest;
    HashRunIs(s, 2);
    assert s[2..] == " findings\n\n" + rest && s[2..][..1] == " ";
    SpaceRunIs(s[2..], 1);
    assert s[3..] == name + ("\n\n" + rest);
    PlainNameReads(name, rest);
    HeadingShape(s, name);
  }

  lemma PlainNameReads(name: string, rest: string)
    requires GoodName(name) && rest != "" && !IsSpace(rest[0])
    ensures NameEnd(name + ("\n\n" + rest), name) == Some(|name| + 2)
  {
    hide SpaceRun;
    var named := name + ("\n\n" + rest);
    assert NameAt(named, name);
    var tail := named[|name|..];
    assert tail == "\n\n" + rest && tail[..2] == "\n\n" && Blank(tail[..2]);
    SpaceRunIs(tail, 2);
  }

  /** Text without a newline in it and not starting like a bullet has no entries. */
  lemma ExampleBody(reader: Reader, rest: string)
    requires rest != "" && rest[0] == 'N' && NoNewline(rest)
    ensures Findings(reader, Entries(rest[..SectionLength(rest)])) == []
  {
    hide SectionLength;
    var body := rest[..SectionLength(rest)];
    assert forall c :: c in body ==> c in rest;
    SplitOne(body);
    assert !StartsEntry(body) by {
      if body != "" {
        assert body[0] == 'N';
      }
    }
    ProseMakesNoEntry([body]);
  }
}
