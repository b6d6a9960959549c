/** src/fanout.ts: reading the entries of a spec section out of a ticket description. */
module SpecSections {
  import opened Prelude
  import opened Text

  // ---- Lines ----

  function SplitLines(s: string): (r: seq<string>)
    ensures r != []
  {
    if s == [] then [""]
    else
      var rest := SplitLines(s[1..]);
      if s[0] == '\n' then [""] + rest else [[s[0]] + rest[0]] + rest[1..]
  }

  function JoinLines(ls: seq<string>): string {
    if ls == [] then "" else if |ls| == 1 then ls[0] else ls[0] + "\n" + JoinLines(ls[1..])
  }

  predicate NoNewline(s: string) {
    '\n' !in s
  }

  lemma {:induction false} SplitFirst(a: string, rest: string)
    requires NoNewline(a)
    ensures SplitLines(a + "\n" + rest) == [a] + SplitLines(rest)
  {
    var s := a + "\n" + rest;
    if a == [] {
      assert s[1..] == rest;
    } else {
      assert s[1..] == a[1..] + "\n" + rest && s[0] == a[0] && a[0] in a;
      SplitFirst(a[1..], rest);
      assert SplitLines(s[1..])[0] == a[1..] && [a[0]] + a[1..] == a;
    }
  }

  lemma {:induction false} SplitOne(a: string)
    requires NoNewline(a)
    ensures SplitLines(a) == [a]
  {
    if a != [] {
      assert a[0] in a && [a[0]] + a[1..] == a;
      SplitOne(a[1..]);
    }
  }

  /** Splitting is the inverse of joining lines that hold no newline. */
  lemma {:induction false} SplitJoined(ls: seq<string>)
    requires ls != [] && forall l :: l in ls ==> NoNewline(l)
    ensures SplitLines(JoinLines(ls)) == ls
  {
    if |ls| == 1 {
      SplitOne(ls[0]);
    } else {
      SplitJoined(ls[1..]);
      SplitFirst(ls[0], JoinLines(ls[1..]));
    }
  }

  // ---- Bullets ----

  /** A recognised bullet: its title, and the description on the same line of a bold one. */
  datatype Bullet = Bullet(title: string, inlineDesc: Option<string>)

  predicate IsSeparator(c: char) {
    c == ':' || c == '-' || IsSpace(c)
  }

  function SkipSeparators(s: string): string {
    if s != [] && IsSeparator(s[0]) then SkipSeparators(s[1..]) else s
  }

  /** What may follow the closing `**`: nothing, or separators and the rest of the line. */
  function BoldTail(s: string): Option<string> {
    if s == [] then Some("")
    else if IsSeparator(s[0]) && SingleLine(SkipSeparators(s)) then Some(SkipSeparators(s))
    else None
  }

  /** The shortest title of at least `n` characters that is followed by `**` and an acceptable tail. */
  function BoldFrom(s: string, n: nat): Option<Bullet>
    decreases |s| - n
  {
    if n + 2 > |s| || !SingleLine(s[..n]) then None
    else if n > 0 && s[n..n + 2] == "**" && BoldTail(s[n + 2..]).Some? then
      var inlineDesc := Trim(BoldTail(s[n + 2..]).value);
      Some(Bullet(Trim(s[..n]), if inlineDesc == "" then None else Some(inlineDesc)))
    else BoldFrom(s, n + 1)
  }

  /** What follows a list mark: white space, at least one character of it, is skipped. */
  function AfterMark(line: string): Option<string> {
    if line == [] || !(line[0] == '-' || line[0] == '*') || |line| == 1 || !IsSpace(line[1]) then None
    else Some(TrimStart(line[1..]))
  }

  function BoldBullet(line: string): Option<Bullet> {
    var rest := AfterMark(line);
    if rest.Some? && StartsWith(rest.value, "**") then BoldFrom(rest.value[2..], 0) else None
  }

  /** One line of text up to trailing white space; an empty title makes no entry. */
  function PlainTitle(rest: string): Option<Bullet> {
    var title := TrimEnd(rest);
    if title == "" || !SingleLine(title) then None else Some(Bullet(title, None))
  }

  function PlainBullet(line: string): Option<Bullet> {
    var rest := AfterMark(line);
    if rest.Some? then PlainTitle(rest.value) else None
  }

  function SkipDigits(s: string): string {
    if s != [] && IsDigit(s[0]) then SkipDigits(s[1..]) else s
  }

  function NumberedBullet(line: string): Option<Bullet> {
    var rest := SkipDigits(line);
    if line != [] && IsDigit(line[0]) && |rest| >= 2 && rest[0] == '.' && IsSpace(rest[1]) then PlainTitle(TrimStart(rest[1..]))
    else None
  }

  function BulletOf(line: string): Option<Bullet> {
    if line == [] || IsSpace(line[0]) then None
    else if BoldBullet(line).Some? then BoldBullet(line)
    else if PlainBullet(line).Some? then PlainBullet(line)
    else NumberedBullet(line)
  }

  // ---- Entries ----

  datatype RawEntry = RawEntry(title: string, descLines: seq<string>)

  datatype Entry = Entry(title: string, description: Option<string>)

  predicate StartsEntry(line: string) {
    BulletOf(line).Some? && BulletOf(line).value.title != ""
  }

  /** Blank and indented lines belong to the entry they follow. */
  predicate Continues(line: string) {
    Trim(line) == "" || (line != [] && IsSpace(line[0]))
  }

  function Push(es: seq<RawEntry>, line: string): seq<RawEntry> {
    if StartsEntry(line) then
      var b := BulletOf(line).value;
      es + [RawEntry(b.title, if b.inlineDesc.Some? then [b.inlineDesc.value] else [])]
    else if es != [] && Continues(line) then
      es[..|es| - 1] + [RawEntry(es[|es| - 1].title, es[|es| - 1].descLines + [line])]
    else es
  }

  function RawEntries(lines: seq<string>): seq<RawEntry> {
    if lines == [] then [] else Push(RawEntries(lines[..|lines| - 1]), lines[|lines| - 1])
  }

  function Finish(e: RawEntry): Entry {
    var d := Trim(JoinLines(e.descLines));
    Entry(e.title, if d == "" then None else Some(d))
  }

  function Entries(body: string): seq<Entry> {
    var raw := RawEntries(SplitLines(body));
    seq(|raw|, i requires 0 <= i < |raw| => Finish(raw[i]))
  }

  /** The three bullet patterns, one after the other. */
  method ReadBullet(line: string) returns (bullet: Option<Bullet>)
    ensures bullet == BulletOf(line)
  {
    hide BoldBullet, PlainBullet, NumberedBullet;
    if line == [] || IsSpace(line[0]) { return None; }
    bullet := BoldBullet(line);
    if bullet.None? {
      bullet := PlainBullet(line);
      if bullet.None? {
        bullet := NumberedBullet(line);
      }
    }
  }

  /** The line loop, with the entry being read kept apart from the finished ones. */
  method ParseSpecEntries(body: string) returns (result: seq<Entry>)
    ensures result == Entries(body)
  {
    hide SplitLines, BulletOf, Finish, Trim;
    var lines := SplitLines(body);
    var entries: seq<RawEntry> := [];
    var current: Option<RawEntry> := None;
    for i := 0 to |lines|
      invariant RawEntries(lines[..i]) == if current.Some? then entries + [current.value] else entries
      invariant current.None? ==> entries == []
    {
      var line := lines[i];
      assert lines[..i + 1][..i] == lines[..i] && RawEntries(lines[..i + 1]) == Push(RawEntries(lines[..i]), line);
      var bullet := ReadBullet(line);
      if bullet.Some? && bullet.value.title != "" {
        if current.Some? {
          entries := entries + [current.value];
        }
        current := Some(RawEntry(bullet.value.title, if bullet.value.inlineDesc.Some? then [bullet.value.inlineDesc.value] else []));
      } else if current.Some? && (Trim(line) == "" || (line != [] && IsSpace(line[0]))) {
        current := Some(current.value.(descLines := current.value.descLines + [line]));
      }
    }
    assert lines[..|lines|] == lines;
    if current.Some? {
      entries := entries + [current.value];
    }
    result := seq(|entries|, i requires 0 <= i < |entries| => Finish(entries[i]));
  }

  // ---- Sections ----

  function HashRun(s: string): (n: nat)
    ensures n <= |s| && (forall i :: 0 <= i < n ==> s[i] == '#') && (n < |s| ==> s[n] != '#')
  {
    if s != [] && s[0] == '#' then 1 + HashRun(s[1..]) else 0
  }

  function SpaceRun(s: string): (n: nat)
    ensures n <= |s| && Blank(s[..n]) && (n < |s| ==> !IsSpace(s[n]))
  {
    if s != [] && IsSpace(s[0]) then
      var n := SpaceRun(s[1..]);
      assert s[..n + 1] == [s[0]] + s[1..][..n];
      1 + n
    else 0
  }

  /** One past the last newline. */
  function AfterLastNewline(s: string): (r: Option<nat>)
    ensures r.Some? ==> 0 < r.value <= |s| && s[r.value - 1] == '\n' && forall i :: r.value <= i < |s| ==> s[i] != '\n'
    ensures r.None? <==> forall i :: 0 <= i < |s| ==> s[i] != '\n'
  {
    if s == [] then None
    else if s[|s| - 1] == '\n' then Some(|s|)
    else AfterLastNewline(s[..|s| - 1])
  }

  /** The name in any letter case. */
  predicate NameAt(s: string, name: string) {
    |name| <= |s| && forall i :: 0 <= i < |name| ==> LowerChar(s[i]) == LowerChar(name[i])
  }

  /** The rest of a heading after its name: white space with a newline in it; the section starts after the last one. */
  function NameEnd(s: string, name: string): Option<nat> {
    if !NameAt(s, name) then None
    else
      var rest := s[|name|..];
      var nl := AfterLastNewline(rest[..SpaceRun(rest)]);
      if nl.Some? then Some(|name| + nl.value) else None
  }

  /** The name may follow any number from `k` down to 1 of white-space characters. */
  function NameAfterSpace(s: string, name: string, k: nat): Option<nat>
    requires k <= |s|
  {
    if k == 0 then None
    else if NameEnd(s[k..], name).Some? then Some(k + NameEnd(s[k..], name).value)
    else NameAfterSpace(s, name, k - 1)
  }

  /** If `s` starts with a heading of that name, where its section starts. */
  function HeadingAt(s: string, name: string): Option<nat> {
    var h := HashRun(s);
    if h == 0 || h > 4 then None
    else
      var rest := s[h..];
      var r := NameAfterSpace(rest, name, SpaceRun(rest));
      if r.Some? then Some(h + r.value) else None
  }

  /** The first heading of that name, anywhere in the text, wins. */
  function SectionStart(s: string, name: string): Option<nat> {
    if HeadingAt(s, name).Some? then HeadingAt(s, name)
    else if s == [] then None
    else
      var r := SectionStart(s[1..], name);
      if r.Some? then Some(1 + r.value) else None
  }

  predicate AllNewlines(s: string) {
    forall i :: 0 <= i < |s| ==> s[i] == '\n'
  }

  predicate NextHeading(s: string) {
    s != [] && s[0] == '\n' && var h := HashRun(s[1..]); 1 <= h <= 4 && 1 + h < |s| && IsSpace(s[1 + h])
  }

  predicate EndsHere(s: string) {
    AllNewlines(s) || NextHeading(s)
  }

  /** A section runs to the next heading, or to the newlines that end the text. */
  function SectionLength(s: string): (n: nat)
    ensures n <= |s| && EndsHere(s[n..]) && forall j :: 0 <= j < n ==> !EndsHere(s[j..])
  {
    if EndsHere(s) then
      assert s[0..] == s;
      0
    else
      var n := SectionLength(s[1..]);
      assert s[1..][n..] == s[n + 1..];
      assert forall j :: 1 <= j < n + 1 ==> s[1..][j - 1..] == s[j..];
      assert s[0..] == s;
      1 + n
  }

  lemma {:induction false} HeadingIsInside(s: string, name: string)
    ensures HeadingAt(s, name).Some? ==> 0 < HeadingAt(s, name).value <= |s|
  {
    var rest := s[HashRun(s)..];
    NameIsInside(rest, name, SpaceRun(rest));
  }

  lemma {:induction false} NameIsInside(s: string, name: string, k: nat)
    requires k <= |s|
    ensures NameAfterSpace(s, name, k).Some? ==> 0 < NameAfterSpace(s, name, k).value <= |s|
    decreases k
  {
    if k > 0 {
      NameIsInside(s, name, k - 1);
    }
  }

  /** The heading at `p` is the leftmost, and its section starts at `at`. */
  predicate FirstHeading(s: string, name: string, p: nat, at: nat) {
    p < at <= |s| && HeadingAt(s[p..], name) == Some(at - p) && forall j: nat :: j < p ==> HeadingAt(s[j..], name).None?
  }

  lemma FirstHeadingBehind(s: string, name: string, p: nat, at: nat)
    requires s != [] && HeadingAt(s, name).None? && FirstHeading(s[1..], name, p, at)
    ensures FirstHeading(s, name, p + 1, at + 1)
  {
    hide HeadingAt;
    assert s[1..][p..] == s[p + 1..];
    forall j: nat | j < p + 1
      ensures HeadingAt(s[j..], name).None?
    {
      if j == 0 {
        assert s[0..] == s;
      } else {
        assert s[1..][j - 1..] == s[j..];
      }
    }
  }

  /** The section starts after the leftmost heading. */
  lemma {:induction false} SectionStartIsFirst(s: string, name: string)
    ensures match SectionStart(s, name)
            case Some(at) => exists p: nat :: FirstHeading(s, name, p, at)
            case None => forall j: nat :: j < |s| ==> HeadingAt(s[j..], name).None?
  {
    hide HeadingAt, FirstHeading;
    HeadingIsInside(s, name);
    assert s[0..] == s;
    if HeadingAt(s, name).Some? {
      var p: nat := 0;
      HeadingFirstIsLeftmost(s, name, p);
      assert SectionStart(s, name) == HeadingAt(s, name);
      assert FirstHeading(s, name, p, SectionStart(s, name).value);
    } else if s != [] {
      SectionStartIsFirst(s[1..], name);
      var r := SectionStart(s[1..], name);
      if r.Some? {
        var p: nat :| FirstHeading(s[1..], name, p, r.value);
        FirstHeadingBehind(s, name, p, r.value);
        assert SectionStart(s, name) == Some(r.value + 1);
        var q: nat := p + 1;
        assert FirstHeading(s, name, q, SectionStart(s, name).value);
      } else {
        assert forall j: nat :: 1 <= j < |s| ==> s[1..][j - 1..] == s[j..];
      }
    }
  }

  lemma HeadingFirstIsLeftmost(s: string, name: string, p: nat)
    requires HeadingAt(s, name).Some? && p == 0
    ensures FirstHeading(s, name, p, HeadingAt(s, name).value)
  {
    HeadingIsInside(s, name);
    assert s[0..] == s;
  }

  lemma SectionStartAt(s: string, name: string, p: nat, at: nat)
    requires FirstHeading(s, name, p, at)
    ensures SectionStart(s, name) == Some(at)
  {
    hide HeadingAt, SectionStart;
    SectionStartIsFirst(s, name);
    if SectionStart(s, name).Some? {
      var q: nat :| FirstHeading(s, name, q, SectionStart(s, name).value);
      assert q == p;
    }
  }

  lemma SectionLengthIs(s: string, n: nat)
    requires n <= |s| && EndsHere(s[n..]) && forall j :: 0 <= j < n ==> !EndsHere(s[j..])
    ensures SectionLength(s) == n
  {
    var m := SectionLength(s);
    assert !(m < n) && !(n < m);
  }

  function SectionBody(s: string, name: string): Option<string> {
    var at := SectionStart(s, name);
    if at.Some? && at.value <= |s| then Some(s[at.value..][..SectionLength(s[at.value..])]) else None
  }
}
