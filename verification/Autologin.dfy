/**
 The rewrite of the terminal's own settings file, which makes the algo-trading switch
 survive a relaunch. Text is modelled after decoding; lines and white space follow Python.
 */
module Autologin {
  import opened Wrappers
  import opened Text

  // ---------------------------------------------------------------------------------------
  // Lines
  // ---------------------------------------------------------------------------------------

  predicate IsBreak(c: char) {
    || '\U{0A}' <= c <= '\U{0D}'
    || '\U{1C}' <= c <= '\U{1E}'
    || c == '\U{85}' || c == '\U{2028}' || c == '\U{2029}'
  }

  /** Position of the first line break, or the end. */
  function NextBreak(text: string): (n: nat)
    ensures n <= |text|
    ensures n < |text| ==> IsBreak(text[n])
    ensures forall i :: 0 <= i < n ==> !IsBreak(text[i])
  {
    if text == "" || IsBreak(text[0]) then 0 else 1 + NextBreak(text[1..])
  }

  /** How many characters the break at `n` takes: a carriage return swallows its line feed. */
  function BreakLength(text: string, n: nat): (k: nat)
    requires n < |text|
    ensures 1 <= k <= |text| - n
  {
    if text[n] == '\r' && n + 1 < |text| && text[n + 1] == '\n' then 2 else 1
  }

  function SplitLines(text: string): seq<string>
    decreases |text|
  {
    if text == "" then []
    else
      var n := NextBreak(text);
      if n == |text| then [text] else [text[..n]] + SplitLines(text[n + BreakLength(text, n)..])
  }

  /** What reading in text mode does first: every carriage return becomes a line feed. */
  function Universal(text: string): string {
    if text == "" then ""
    else if text[0] != '\r' then [text[0]] + Universal(text[1..])
    else if |text| > 1 && text[1] == '\n' then "\n" + Universal(text[2..])
    else "\n" + Universal(text[1..])
  }

  /** Every line with its CRLF; for at least one line, what joining and a final CRLF give. */
  function Render(lines: seq<string>): string {
    if lines == [] then "" else lines[0] + "\r\n" + Render(lines[1..])
  }

  predicate OneLine(s: string) {
    forall i :: 0 <= i < |s| ==> !IsBreak(s[i])
  }

  predicate OneLineEach(lines: seq<string>) {
    forall i :: 0 <= i < |lines| ==> OneLine(lines[i])
  }

  /** Exactly the characters at which Python's `splitlines` ends a line. */
  lemma BreaksAreExactly(c: char)
    ensures IsBreak(c) <==> c in "\n\U{0B}\U{0C}\r\U{1C}\U{1D}\U{1E}\U{85}\U{2028}\U{2029}"
  {
  }

  lemma NextBreakIs(text: string, n: nat)
    requires n < |text| && IsBreak(text[n]) && forall i :: 0 <= i < n ==> !IsBreak(text[i])
    ensures NextBreak(text) == n
  {
  }

  lemma {:induction false} SplitGivesLines(text: string)
    ensures OneLineEach(SplitLines(text))
    decreases |text|
  {
    if text != "" {
      var n := NextBreak(text);
      if n < |text| {
        SplitGivesLines(text[n + BreakLength(text, n)..]);
      }
    }
  }

  /** The lines, each followed by its mark. */
  function Joined(lines: seq<string>, marks: seq<string>): string
    requires |marks| == |lines|
  {
    if lines == [] then "" else lines[0] + marks[0] + Joined(lines[1..], marks[1..])
  }

  predicate IsMark(mark: string) {
    mark == "\r\n" || (|mark| == 1 && IsBreak(mark[0]))
  }

  /** Line `i` ends with a mark, or is the rest of the text; a CRLF is one mark. */
  predicate EndsRight(lines: seq<string>, marks: seq<string>, i: int)
    requires 0 <= i < |lines| == |marks|
  {
    && (IsMark(marks[i]) || (i == |lines| - 1 && marks[i] == "" && lines[i] != ""))
    && (marks[i] == "\r" && i + 1 < |lines| ==> lines[i + 1] != "" || !("\n" <= marks[i + 1]))
  }

  lemma {:induction false} FirstMark(text: string, n: nat)
    requires text != "" && n == NextBreak(text) < |text|
    ensures var mark := text[n..n + BreakLength(text, n)];
      IsMark(mark) && (mark == "\r" ==> n + 1 == |text| || text[n + 1] != '\n')
  {
  }

  /** The text is these lines with these marks between them. */
  ghost predicate Splits(text: string, lines: seq<string>, marks: seq<string>) {
    && |marks| == |lines| && Joined(lines, marks) == text
    && forall i :: 0 <= i < |lines| ==> EndsRight(lines, marks, i)
  }

  lemma {:induction false} SplitsOneMore(rest: string, lines: seq<string>, marks: seq<string>, line: string, mark: string)
    requires Splits(rest, lines, marks) && IsMark(mark) && (mark == "\r" ==> !("\n" <= rest))
    ensures Splits(line + mark + rest, [line] + lines, [mark] + marks)
  {
    var lines', marks' := [line] + lines, [mark] + marks;
    assert lines'[1..] == lines && marks'[1..] == marks;
    forall i | 0 <= i < |lines'| ensures EndsRight(lines', marks', i) {
      if i > 0 {
        assert EndsRight(lines, marks, i - 1);
      } else if lines != [] && lines[0] == "" && "\n" <= marks[0] {
        assert rest[0] == '\n';
      }
    }
  }

  /** Splitting loses nothing and cuts nothing but at marks. */
  lemma {:induction false} SplitJoins(text: string) returns (marks: seq<string>)
    ensures Splits(text, SplitLines(text), marks)
    decreases |text|
  {
    marks := [];
    if text != "" {
      var n := NextBreak(text);
      if n == |text| {
        marks := [""];
      } else {
        var k := n + BreakLength(text, n);
        FirstMark(text, n);
        marks := SplitJoins(text[k..]);
        SplitsOneMore(text[k..], SplitLines(text[k..]), marks, text[..n], text[n..k]);
        assert text == text[..n] + text[n..k] + text[k..];
        marks := [text[n..k]] + marks;
      }
    }
  }

  /** How a text that starts with one clean line and a break is split. */
  lemma {:induction false} SplitFirst(text: string, line: string, mark: string, rest: string)
    requires text == line + mark + rest && OneLine(line)
    requires mark == "\r\n" || (|mark| == 1 && IsBreak(mark[0]) && mark[0] != '\r')
    ensures SplitLines(text) == [line] + SplitLines(rest)
  {
    var n := |line|;
    assert forall i :: 0 <= i < n ==> text[i] == line[i];
    assert text[n] == mark[0];
    NextBreakIs(text, n);
    assert text[..n] == line;
    assert text[n + |mark|..] == rest;
    assert BreakLength(text, n) == |mark|;
  }

  /** Splitting rendered lines gives back exactly those lines. */
  lemma {:induction false} SplitUndoesRender(lines: seq<string>)
    requires OneLineEach(lines)
    ensures SplitLines(Render(lines)) == lines
  {
    if lines != [] {
      SplitFirst(Render(lines), lines[0], "\r\n", Render(lines[1..]));
      SplitUndoesRender(lines[1..]);
    }
  }

  lemma {:induction false} UniversalPrefix(text: string, n: nat)
    requires n <= |text| && forall i :: 0 <= i < n ==> !IsBreak(text[i])
    ensures Universal(text) == text[..n] + Universal(text[n..])
  {
    if n == 0 {
      assert text[n..] == text;
    } else {
      UniversalPrefix(text[1..], n - 1);
      assert text[1..][..n - 1] == text[1..n];
      assert text[1..][n - 1..] == text[n..];
      assert text[..n] == [text[0]] + text[1..n];
    }
  }

  lemma {:induction false} UniversalBreak(text: string)
    requires text != "" && IsBreak(text[0])
    ensures Universal(text) == [if text[0] == '\r' then '\n' else text[0]] + Universal(text[BreakLength(text, 0)..])
  {
  }

  lemma {:induction false} UniversalAtBreak(text: string, n: nat)
    requires n < |text| && IsBreak(text[n]) && forall i :: 0 <= i < n ==> !IsBreak(text[i])
    ensures var mark := if text[n] == '\r' then '\n' else text[n];
      Universal(text) == text[..n] + ([mark] + Universal(text[n + BreakLength(text, n)..]))
  {
    var here := text[n..];
    var k := BreakLength(text, n);
    assert Universal(text) == text[..n] + Universal(here) by {
      UniversalPrefix(text, n);
    }
    assert here[k..] == text[n + k..];
    assert BreakLength(here, 0) == k;
    assert Universal(here) == [if text[n] == '\r' then '\n' else text[n]] + Universal(here[k..]) by {
      UniversalBreak(here);
    }
  }

  /** Reading in text mode does not move a single line boundary. */
  lemma {:induction false} UniversalKeepsLines(text: string)
    ensures SplitLines(Universal(text)) == SplitLines(text)
    decreases |text|
  {
    if text != "" {
      var n := NextBreak(text);
      if n == |text| {
        UniversalPrefix(text, n);
        assert Universal(text) == text;
      } else {
        var rest := text[n + BreakLength(text, n)..];
        UniversalAtBreak(text, n);
        assert OneLine(text[..n]);
        SplitFirst(Universal(text), text[..n], [if text[n] == '\r' then '\n' else text[n]], Universal(rest));
        UniversalKeepsLines(rest);
      }
    }
  }

  // ---------------------------------------------------------------------------------------
  // Headers and keys
  // ---------------------------------------------------------------------------------------

  predicate IsHeader(line: string) {
    var stripped := Strip(line);
    stripped != "" && stripped[0] == '['
  }

  const EXPERTS := "[experts]"
  const EXPERTS_HEADER := "[Experts]"

  function SectionName(line: string): string {
    Lower(Strip(line))
  }

  predicate IsExpertsHeader(line: string) {
    IsHeader(line) && SectionName(line) == EXPERTS
  }

  /** The part before the first equals sign. */
  function BeforeEquals(s: string): string {
    if s == "" || s[0] == '=' then "" else [s[0]] + BeforeEquals(s[1..])
  }

  const ALLOW := "AllowLiveTrading"
  const ENABLED := "Enabled"
  const ACCOUNT := "Account"

  predicate IsWanted(line: string) {
    var key := BeforeEquals(Strip(line));
    key == ALLOW || key == ENABLED || key == ACCOUNT
  }

  lemma {:induction false} KeyBefore(s: string, key: string)
    requires '=' !in key
    ensures BeforeEquals(s) == key <==> s == key || (|s| > |key| && s[..|key|] == key && s[|key|] == '=')
  {
    if key == "" {
    } else if s != "" && s[0] == key[0] {
      KeyBefore(s[1..], key[1..]);
      assert BeforeEquals(s) == [s[0]] + BeforeEquals(s[1..]);
      assert key == [key[0]] + key[1..];
      if |s| > |key| {
        assert s[..|key|] == [s[0]] + s[1..][..|key| - 1];
      }
    }
  }

  /** `line`, stripped, is `key`, alone or with a value. */
  predicate Sets(line: string, key: string) {
    var s := Strip(line);
    s == key || (|s| > |key| && s[..|key|] == key && s[|key|] == '=')
  }

  /** The settings the rewrite replaces are these three, wherever the line is padded. */
  lemma {:induction false} WantedExactly(line: string)
    ensures IsWanted(line)
       <==> Sets(line, "AllowLiveTrading") || Sets(line, "Enabled") || Sets(line, "Account")
  {
    KeyBefore(Strip(line), "AllowLiveTrading");
    KeyBefore(Strip(line), "Enabled");
    KeyBefore(Strip(line), "Account");
  }

  /** An Experts header is `[experts]` in any case, padded or not; a header is what starts with a bracket. */
  lemma {:induction false} HeadersExactly(line: string)
    ensures IsHeader(line) <==> "[" <= Strip(line)
    ensures IsExpertsHeader(line) <==> SameIgnoringCase(Strip(line), "[experts]")
  {
    LowerIgnoresCase(Strip(line), "[experts]");
    LowerIsLower("[experts]");
    assert Lower("[experts]") == "[experts]";
  }

  function Settings(enabled: bool): seq<string> {
    var on := if enabled then "1" else "0";
    [ALLOW + "=" + on, ENABLED + "=" + on, ACCOUNT + "=" + "0"]
  }

  // ---------------------------------------------------------------------------------------
  // The rewrite
  // ---------------------------------------------------------------------------------------

  /** Whether the line after `line` is in an Experts section. */
  function InAfter(line: string, inExperts: bool): bool {
    if IsHeader(line) then IsExpertsHeader(line) else inExperts
  }

  function Kept(lines: seq<string>, inExperts: bool): seq<string> {
    if lines == [] then []
    else
      var here := InAfter(lines[0], inExperts);
      if here then Kept(lines[1..], here) else [lines[0]] + Kept(lines[1..], here)
  }

  function Others(lines: seq<string>, inExperts: bool): seq<string> {
    if lines == [] then []
    else
      var here := InAfter(lines[0], inExperts);
      if here && !IsHeader(lines[0]) && !IsWanted(lines[0]) then [lines[0]] + Others(lines[1..], here)
      else Others(lines[1..], here)
  }

  function Rewrite(lines: seq<string>, enabled: bool): seq<string> {
    Kept(lines, false) + [EXPERTS_HEADER] + Settings(enabled) + Others(lines, false)
  }

  function Persisted(existing: Option<string>, enabled: bool): string {
    var text := if existing.Some? then Universal(existing.value) else "";
    Render(Rewrite(SplitLines(text), enabled))
  }

  /** The lists built from the first `n` lines, when the rest is read from `inExperts` on. */
  ghost predicate Progress(lines: seq<string>, n: nat, inExperts: bool, kept: seq<string>, others: seq<string>) {
    && n <= |lines|
    && kept + Kept(lines[n..], inExperts) == Kept(lines, false)
    && others + Others(lines[n..], inExperts) == Others(lines, false)
  }

  lemma {:induction false} ProgressStep(lines: seq<string>, n: nat, inExperts: bool, kept: seq<string>, others: seq<string>)
    requires n < |lines| && Progress(lines, n, inExperts, kept, others)
    ensures var line, here := lines[n], InAfter(lines[n], inExperts);
      Progress(lines, n + 1, here,
               if here then kept else kept + [line],
               if here && !IsHeader(line) && !IsWanted(line) then others + [line] else others)
  {
    var line, here := lines[n], InAfter(lines[n], inExperts);
    assert lines[n..][1..] == lines[n + 1..];
    var restKept, restOthers := Kept(lines[n + 1..], here), Others(lines[n + 1..], here);
    assert kept + ([line] + restKept) == (kept + [line]) + restKept;
    assert others + ([line] + restOthers) == (others + [line]) + restOthers;
  }

  lemma {:induction false} ProgressEnds(lines: seq<string>, inExperts: bool, kept: seq<string>, others: seq<string>)
    requires Progress(lines, |lines|, inExperts, kept, others)
    ensures kept == Kept(lines, false) && others == Others(lines, false)
  {
    assert lines[|lines|..] == [];
  }

  method PersistAlgoTrading(existing: Option<string>, enabled: bool) returns (text: string)
    ensures text == Persisted(existing, enabled)
    ensures SwitchIs(ExpertsOf(text), if existing.Some? then ExpertsOf(existing.value) else [], enabled)
  {
    FileCarriesSwitch(existing, enabled);
    var lines := SplitLines(if existing.Some? then Universal(existing.value) else "");
    var kept, otherExperts := FilterExperts(lines);
    text := Render(kept + [EXPERTS_HEADER] + Settings(enabled) + otherExperts);
  }

  /** The section-aware loop of the rewrite. */
  method FilterExperts(lines: seq<string>) returns (kept: seq<string>, otherExperts: seq<string>)
    ensures kept == Kept(lines, false) && otherExperts == Others(lines, false)
  {
    kept, otherExperts := [], [];
    var inExperts := false;
    assert lines[0..] == lines;
    for n := 0 to |lines|
      invariant Progress(lines, n, inExperts, kept, otherExperts)
    {
      var line := lines[n];
      ProgressStep(lines, n, inExperts, kept, otherExperts);
      if IsHeader(line) {
        inExperts := SectionName(line) == EXPERTS;
        if inExperts {
          continue;
        }
      }
      if !inExperts {
        kept := kept + [line];
      } else if !IsWanted(line) {
        otherExperts := otherExperts + [line];
      }
    }
    ProgressEnds(lines, inExperts, kept, otherExperts);
  }

  // ---------------------------------------------------------------------------------------
  // What the file means: its headers, and the lines under each section
  // ---------------------------------------------------------------------------------------

  function Headers(lines: seq<string>): seq<string> {
    if lines == [] then []
    else if IsHeader(lines[0]) then [lines[0]] + Headers(lines[1..])
    else Headers(lines[1..])
  }

  /** The lines under the sections called `section`, starting inside section `current`. */
  function Body(lines: seq<string>, current: string, section: string): seq<string> {
    if lines == [] then []
    else if IsHeader(lines[0]) then Body(lines[1..], SectionName(lines[0]), section)
    else if current == section then [lines[0]] + Body(lines[1..], current, section)
    else Body(lines[1..], current, section)
  }

  function WithoutExperts(headers: seq<string>): seq<string> {
    if headers == [] then []
    else if IsExpertsHeader(headers[0]) then WithoutExperts(headers[1..])
    else [headers[0]] + WithoutExperts(headers[1..])
  }

  function WithoutWanted(lines: seq<string>): seq<string> {
    if lines == [] then []
    else if IsWanted(lines[0]) then WithoutWanted(lines[1..])
    else [lines[0]] + WithoutWanted(lines[1..])
  }

  predicate NoHeaders(lines: seq<string>) {
    forall i :: 0 <= i < |lines| ==> !IsHeader(lines[i])
  }

  predicate NoneWanted(lines: seq<string>) {
    forall i :: 0 <= i < |lines| ==> !IsWanted(lines[i])
  }

  predicate NoExpertsHeader(lines: seq<string>) {
    forall i :: 0 <= i < |lines| ==> !IsExpertsHeader(lines[i])
  }

  function CurrentAfter(lines: seq<string>, current: string): string {
    if lines == [] then current
    else CurrentAfter(lines[1..], if IsHeader(lines[0]) then SectionName(lines[0]) else current)
  }

  lemma {:induction false} BodyConcat(a: seq<string>, b: seq<string>, current: string, section: string)
    ensures Body(a + b, current, section) == Body(a, current, section) + Body(b, CurrentAfter(a, current), section)
  {
    if a == [] {
      assert a + b == b;
    } else {
      assert (a + b)[1..] == a[1..] + b;
      BodyConcat(a[1..], b, if IsHeader(a[0]) then SectionName(a[0]) else current, section);
    }
  }

  lemma {:induction false} HeadersConcat(a: seq<string>, b: seq<string>)
    ensures Headers(a + b) == Headers(a) + Headers(b)
  {
    if a == [] {
      assert a + b == b;
    } else {
      assert (a + b)[1..] == a[1..] + b;
      HeadersConcat(a[1..], b);
    }
  }

  /** A stretch without headers is all body. */
  lemma {:induction false} PlainBody(lines: seq<string>, current: string, section: string)
    requires NoHeaders(lines)
    ensures Body(lines, current, section) == if current == section then lines else []
    ensures CurrentAfter(lines, current) == current
    ensures Headers(lines) == []
  {
    if lines != [] {
      PlainBody(lines[1..], current, section);
    }
  }

  lemma {:induction false} KeptIsPlain(lines: seq<string>, inExperts: bool, current: string)
    requires current != EXPERTS
    ensures NoExpertsHeader(Kept(lines, inExperts))
    ensures CurrentAfter(Kept(lines, inExperts), current) != EXPERTS
  {
    if lines != [] {
      var here := InAfter(lines[0], inExperts);
      var next := if !here && IsHeader(lines[0]) then SectionName(lines[0]) else current;
      KeptIsPlain(lines[1..], here, next);
      if !here {
        var rest := Kept(lines[1..], here);
        assert ([lines[0]] + rest)[1..] == rest;
      }
    }
  }

  lemma {:induction false} OthersArePlain(lines: seq<string>, inExperts: bool)
    ensures NoHeaders(Others(lines, inExperts)) && NoneWanted(Others(lines, inExperts))
  {
    if lines != [] {
      OthersArePlain(lines[1..], InAfter(lines[0], inExperts));
    }
  }

  lemma {:induction false} KeptBody(lines: seq<string>, current: string, shown: string, section: string)
    requires shown != EXPERTS && (current != EXPERTS ==> shown == current)
    ensures Body(Kept(lines, current == EXPERTS), shown, section)
         == if section == EXPERTS then [] else Body(lines, current, section)
    ensures Headers(Kept(lines, current == EXPERTS)) == WithoutExperts(Headers(lines))
  {
    if lines != [] {
      var header := IsHeader(lines[0]);
      var next := if header then SectionName(lines[0]) else current;
      var here := next == EXPERTS;
      assert here == InAfter(lines[0], current == EXPERTS);
      KeptBody(lines[1..], next, if here then shown else next, section);
      var rest := Kept(lines[1..], here);
      if !here {
        assert ([lines[0]] + rest)[1..] == rest;
      }
      if header {
        assert ([lines[0]] + Headers(lines[1..]))[1..] == Headers(lines[1..]);
      }
    }
  }

  lemma {:induction false} OthersBody(lines: seq<string>, current: string)
    ensures Others(lines, current == EXPERTS) == WithoutWanted(Body(lines, current, EXPERTS))
  {
    if lines != [] {
      var next := if IsHeader(lines[0]) then SectionName(lines[0]) else current;
      OthersBody(lines[1..], next);
      if !IsHeader(lines[0]) && current == EXPERTS {
        var rest := Body(lines[1..], current, EXPERTS);
        assert ([lines[0]] + rest)[1..] == rest;
      }
    }
  }

  // ---------------------------------------------------------------------------------------
  // The lines the rewrite adds
  // ---------------------------------------------------------------------------------------

  predicate Tight(s: string) {
    s != "" && !IsSpace(s[0]) && !IsSpace(s[|s| - 1])
  }

  lemma {:induction false} TightStays(s: string)
    requires Tight(s)
    ensures Strip(s) == s
  {
  }

  lemma {:induction false} KeyOfSetting(key: string, value: string)
    requires '=' !in key
    ensures BeforeEquals(key + "=" + value) == key
  {
    var s := key + "=" + value;
    if key != "" {
      assert s[1..] == key[1..] + "=" + value;
      KeyOfSetting(key[1..], value);
    }
  }

  lemma {:induction false} SettingLine(key: string, value: string)
    requires key != "" && !IsSpace(key[0]) && key[0] != '[' && '=' !in key && OneLine(key)
    requires value == "0" || value == "1"
    ensures var line := key + "=" + value; !IsHeader(line) && OneLine(line)
    ensures key == ALLOW || key == ENABLED || key == ACCOUNT ==> IsWanted(key + "=" + value)
  {
    var line := key + "=" + value;
    assert line[0] == key[0] && line[|line| - 1] == value[0];
    TightStays(line);
    KeyOfSetting(key, value);
  }

  /** Lines fit to follow the Experts header: settings only. */
  predicate AreSettings(lines: seq<string>) {
    && NoHeaders(lines)
    && OneLineEach(lines)
    && forall i :: 0 <= i < |lines| ==> IsWanted(lines[i])
  }

  lemma {:induction false} AreSettings3(a: string, b: string, c: string)
    requires AreSettings([a]) && AreSettings([b]) && AreSettings([c])
    ensures AreSettings([a, b, c])
  {
    assert [a][0] == a && [b][0] == b && [c][0] == c;
  }

  lemma {:induction false} SettingsAreSettings(enabled: bool)
    ensures AreSettings(Settings(enabled))
  {
    var on := if enabled then "1" else "0";
    SettingLine(ALLOW, on);
    SettingLine(ENABLED, on);
    SettingLine(ACCOUNT, "0");
    AreSettings3(ALLOW + "=" + on, ENABLED + "=" + on, ACCOUNT + "=" + "0");
  }

  lemma {:induction false} AllWanted(lines: seq<string>)
    requires forall i :: 0 <= i < |lines| ==> IsWanted(lines[i])
    ensures WithoutWanted(lines) == []
  {
    if lines != [] {
      AllWanted(lines[1..]);
    }
  }

  lemma {:induction false} ExpertsHeaderIsHeader()
    ensures IsExpertsHeader(EXPERTS_HEADER) && OneLine(EXPERTS_HEADER) && SectionName(EXPERTS_HEADER) == EXPERTS
  {
    TightStays(EXPERTS_HEADER);
    assert Lower(EXPERTS_HEADER) == EXPERTS;
  }

  // ---------------------------------------------------------------------------------------
  // What the rewrite promises
  // ---------------------------------------------------------------------------------------

  /** One header with the lines under it, seen from section `current`. */
  lemma {:induction false} OneSection(header: string, under: seq<string>, current: string, section: string)
    requires IsHeader(header) && NoHeaders(under)
    ensures Body([header] + under, current, section) == if SectionName(header) == section then under else []
    ensures Headers([header] + under) == [header]
  {
    assert ([header] + under)[1..] == under;
    PlainBody(under, SectionName(header), section);
  }

  lemma {:induction false} SectionsOf(lines: seq<string>, header: string, settings: seq<string>, section: string)
    requires IsExpertsHeader(header) && AreSettings(settings)
    ensures var written := Kept(lines, false) + ([header] + (settings + Others(lines, false)));
      && Body(written, "", section)
         == (if section == EXPERTS then settings + WithoutWanted(Body(lines, "", EXPERTS)) else Body(lines, "", section))
      && Headers(written) == WithoutExperts(Headers(lines)) + [header]
  {
    var kept, under := Kept(lines, false), settings + Others(lines, false);
    KeptBody(lines, "", "", section);
    OthersBody(lines, "");
    OthersArePlain(lines, false);
    OneSection(header, under, CurrentAfter(kept, ""), section);
    BodyConcat(kept, [header] + under, "", section);
    HeadersConcat(kept, [header] + under);
  }

  /**
   Every section but Experts reads exactly as before, order included; Experts reads as the
   three settings followed by everything else it held, in order. The headers are the old ones
   in order, minus every Experts header, plus one at the end.
   */
  lemma {:induction false} RewriteKeepsSections(lines: seq<string>, enabled: bool, section: string)
    ensures Body(Rewrite(lines, enabled), "", section)
         == if section == EXPERTS then Settings(enabled) + WithoutWanted(Body(lines, "", EXPERTS))
            else Body(lines, "", section)
    ensures Headers(Rewrite(lines, enabled)) == WithoutExperts(Headers(lines)) + ["[Experts]"]
  {
    ExpertsHeaderIsHeader();
    SettingsAreSettings(enabled);
    SectionsOf(lines, EXPERTS_HEADER, Settings(enabled), section);
    assert Rewrite(lines, enabled) == Kept(lines, false) + ([EXPERTS_HEADER] + (Settings(enabled) + Others(lines, false)));
  }

  lemma {:induction false} SettingsWritten(enabled: bool)
    ensures Settings(enabled) == if enabled then ["AllowLiveTrading=1", "Enabled=1", "Account=0"]
                                 else ["AllowLiveTrading=0", "Enabled=0", "Account=0"]
  {
    assert ALLOW + "=" + "1" == "AllowLiveTrading=1" && ALLOW + "=" + "0" == "AllowLiveTrading=0";
    assert ENABLED + "=" + "1" == "Enabled=1" && ENABLED + "=" + "0" == "Enabled=0";
    assert ACCOUNT + "=" + "0" == "Account=0";
  }

  lemma {:induction false} WithoutWantedIsForeign(lines: seq<string>)
    ensures NoneWanted(WithoutWanted(lines))
  {
    if lines != [] {
      WithoutWantedIsForeign(lines[1..]);
    }
  }

  /** `section` reads: the three settings with the switch as asked, then other lines only, those of `before`. */
  ghost predicate SwitchIs(section: seq<string>, before: seq<string>, enabled: bool) {
    && section == (if enabled then ["AllowLiveTrading=1", "Enabled=1", "Account=0"]
                   else ["AllowLiveTrading=0", "Enabled=0", "Account=0"]) + WithoutWanted(before)
    && NoneWanted(WithoutWanted(before))
  }

  /** The Experts section holds each setting once, with the value asked for, and what else it held before. */
  lemma {:induction false} SwitchIsWritten(lines: seq<string>, enabled: bool)
    ensures SwitchIs(Body(Rewrite(lines, enabled), "", "[experts]"), Body(lines, "", "[experts]"), enabled)
  {
    RewriteKeepsSections(lines, enabled, "[experts]");
    SettingsWritten(enabled);
    WithoutWantedIsForeign(Body(lines, "", EXPERTS));
  }

  // ---------------------------------------------------------------------------------------
  // Where every line goes
  // ---------------------------------------------------------------------------------------

  /** Line `h` is the last header at or before line `i`. */
  ghost predicate Governs(lines: seq<string>, h: int, i: int) {
    0 <= h <= i < |lines| && IsHeader(lines[h]) && forall k :: h < k <= i ==> !IsHeader(lines[k])
  }

  /** The header that governs line `i` is one of Experts. */
  ghost predicate InExperts(lines: seq<string>, i: int) {
    exists h :: Governs(lines, h, i) && IsExpertsHeader(lines[h])
  }

  /** Line `i` belongs before the new section, or else into it. */
  ghost predicate Goes(lines: seq<string>, i: int, before: bool)
    requires 0 <= i < |lines|
  {
    if before then !InExperts(lines, i) else InExperts(lines, i) && !IsHeader(lines[i]) && !IsWanted(lines[i])
  }

  /** From line `n` on, exactly the lines at `places`, in order, go to this side, and `part` is those lines. */
  ghost predicate Picks(lines: seq<string>, n: nat, before: bool, places: seq<int>, part: seq<string>) {
    && |places| == |part|
    && (forall j, k :: 0 <= j < k < |places| ==> places[j] < places[k])
    && (forall k :: 0 <= k < |places| ==>
          n <= places[k] < |lines| && part[k] == lines[places[k]] && Goes(lines, places[k], before))
    && (forall i :: n <= i < |lines| && Goes(lines, i, before) ==> i in places)
  }

  lemma {:induction false} FlagIsGoverned(lines: seq<string>, n: nat)
    requires n < |lines|
    ensures InAfter(lines[n], n > 0 && InExperts(lines, n - 1)) <==> InExperts(lines, n)
  {
    if IsHeader(lines[n]) {
      assert Governs(lines, n, n);
    } else {
      forall h | 0 <= h < n ensures Governs(lines, h, n) <==> Governs(lines, h, n - 1) {
      }
    }
  }

  lemma {:induction false} PicksThis(lines: seq<string>, n: nat, before: bool, places: seq<int>, part: seq<string>)
    requires n < |lines| && Picks(lines, n + 1, before, places, part) && Goes(lines, n, before)
    ensures Picks(lines, n, before, [n] + places, [lines[n]] + part)
  {
    var places', part' := [n] + places, [lines[n]] + part;
    forall k | 0 <= k < |places'|
      ensures n <= places'[k] < |lines| && part'[k] == lines[places'[k]] && Goes(lines, places'[k], before)
    {
      assert k > 0 ==> places'[k] == places[k - 1] && part'[k] == part[k - 1];
    }
    forall i | n <= i < |lines| && Goes(lines, i, before) ensures i in places' {
      assert places'[0] == n;
      assert i > n ==> i in places;
    }
  }

  lemma {:induction false} PicksNext(lines: seq<string>, n: nat, before: bool, places: seq<int>, part: seq<string>)
    requires n < |lines| && Picks(lines, n + 1, before, places, part)
    ensures if Goes(lines, n, before) then Picks(lines, n, before, [n] + places, [lines[n]] + part)
            else Picks(lines, n, before, places, part)
  {
    if Goes(lines, n, before) {
      PicksThis(lines, n, before, places, part);
    }
  }

  lemma {:induction false} PartsPicked(lines: seq<string>, n: nat) returns (kept: seq<int>, others: seq<int>)
    requires n <= |lines|
    ensures var flag := n > 0 && InExperts(lines, n - 1);
      Picks(lines, n, true, kept, Kept(lines[n..], flag)) && Picks(lines, n, false, others, Others(lines[n..], flag))
    decreases |lines| - n
  {
    kept, others := [], [];
    if n < |lines| {
      kept, others := PartsPicked(lines, n + 1);
      var here := InExperts(lines, n);
      assert lines[n..][1..] == lines[n + 1..];
      FlagIsGoverned(lines, n);
      PicksNext(lines, n, true, kept, Kept(lines[n + 1..], here));
      PicksNext(lines, n, false, others, Others(lines[n + 1..], here));
      kept := if Goes(lines, n, true) then [n] + kept else kept;
      others := if Goes(lines, n, false) then [n] + others else others;
    }
  }

  /**
   No line changes places: before the new Experts header stand exactly the lines not governed
   by an Experts header, in order, and after the settings exactly the foreign lines that are.
   */
  lemma {:induction false} RewritePlacesLines(lines: seq<string>, enabled: bool)
    returns (kept: seq<int>, others: seq<int>, part: seq<string>, rest: seq<string>)
    ensures Rewrite(lines, enabled) == part + [EXPERTS_HEADER] + Settings(enabled) + rest
    ensures Picks(lines, 0, true, kept, part) && Picks(lines, 0, false, others, rest)
  {
    kept, others := PartsPicked(lines, 0);
    assert lines[0..] == lines;
    part, rest := Kept(lines, false), Others(lines, false);
  }

  lemma {:induction false} KeptOthersConcat(a: seq<string>, b: seq<string>, inExperts: bool)
    requires NoExpertsHeader(a) && !inExperts
    ensures Kept(a + b, inExperts) == a + Kept(b, false)
    ensures Others(a + b, inExperts) == Others(b, false)
  {
    if a == [] {
      assert a + b == b;
    } else {
      assert (a + b)[1..] == a[1..] + b;
      KeptOthersConcat(a[1..], b, false);
    }
  }

  lemma {:induction false} InsideExperts(lines: seq<string>)
    requires NoHeaders(lines)
    ensures Kept(lines, true) == [] && Others(lines, true) == WithoutWanted(lines)
  {
    if lines != [] {
      InsideExperts(lines[1..]);
    }
  }

  lemma {:induction false} NothingWanted(lines: seq<string>)
    requires NoneWanted(lines)
    ensures WithoutWanted(lines) == lines
  {
    if lines != [] {
      NothingWanted(lines[1..]);
    }
  }

  lemma {:induction false} WithoutWantedConcat(a: seq<string>, b: seq<string>)
    ensures WithoutWanted(a + b) == WithoutWanted(a) + WithoutWanted(b)
  {
    if a == [] {
      assert a + b == b;
    } else {
      assert (a + b)[1..] == a[1..] + b;
      WithoutWantedConcat(a[1..], b);
    }
  }

  /** The section the rewrite writes, when it is read again. */
  lemma {:induction false} WrittenSection(lines: seq<string>, header: string, settings: seq<string>)
    requires IsExpertsHeader(header) && AreSettings(settings)
    ensures var whole := [header] + (settings + Others(lines, false));
      Kept(whole, false) == [] && Others(whole, false) == Others(lines, false)
  {
    var others := Others(lines, false);
    var under := settings + others;
    OthersArePlain(lines, false);
    assert ([header] + under)[1..] == under;
    InsideExperts(under);
    AllWanted(settings);
    WithoutWantedConcat(settings, others);
    NothingWanted(others);
  }

  lemma {:induction false} RewrittenAgain(lines: seq<string>, header: string, settings: seq<string>)
    requires IsExpertsHeader(header) && AreSettings(settings)
    ensures var written := Kept(lines, false) + ([header] + (settings + Others(lines, false)));
      Kept(written, false) == Kept(lines, false) && Others(written, false) == Others(lines, false)
  {
    var kept, whole := Kept(lines, false), [header] + (settings + Others(lines, false));
    WrittenSection(lines, header, settings);
    KeptIsPlain(lines, false, "");
    KeptOthersConcat(kept, whole, false);
  }

  /** Only the last of several rewrites shows; in particular repeating one changes nothing. */
  lemma {:induction false} LastRewriteWins(lines: seq<string>, first: bool, last: bool)
    ensures Rewrite(Rewrite(lines, first), last) == Rewrite(lines, last)
  {
    ExpertsHeaderIsHeader();
    SettingsAreSettings(first);
    RewrittenAgain(lines, EXPERTS_HEADER, Settings(first));
    assert Rewrite(lines, first) == Kept(lines, false) + ([EXPERTS_HEADER] + (Settings(first) + Others(lines, false)));
  }

  lemma {:induction false} PartsAreLines(lines: seq<string>, inExperts: bool)
    requires OneLineEach(lines)
    ensures OneLineEach(Kept(lines, inExperts)) && OneLineEach(Others(lines, inExperts))
  {
    if lines != [] {
      PartsAreLines(lines[1..], InAfter(lines[0], inExperts));
    }
  }

  /** The written file, read back, has exactly the lines that were written. */
  lemma {:induction false} FileReadsBack(existing: Option<string>, enabled: bool)
    ensures var lines := SplitLines(if existing.Some? then Universal(existing.value) else "");
      SplitLines(Universal(Persisted(existing, enabled))) == Rewrite(lines, enabled)
  {
    var text := if existing.Some? then Universal(existing.value) else "";
    var lines := SplitLines(text);
    SplitGivesLines(text);
    PartsAreLines(lines, false);
    SettingsAreSettings(enabled);
    ExpertsHeaderIsHeader();
    SplitUndoesRender(Rewrite(lines, enabled));
    UniversalKeepsLines(Persisted(existing, enabled));
  }

  /** The Experts section of a whole file, as the terminal will read it. */
  function ExpertsOf(file: string): seq<string> {
    Body(SplitLines(Universal(file)), "", "[experts]")
  }

  /** On files: whatever the file held, the switch it carries afterwards is the one asked for. */
  lemma {:induction false} FileCarriesSwitch(existing: Option<string>, enabled: bool)
    ensures SwitchIs(ExpertsOf(Persisted(existing, enabled)), if existing.Some? then ExpertsOf(existing.value) else [], enabled)
  {
    FileReadsBack(existing, enabled);
    SwitchIsWritten(SplitLines(if existing.Some? then Universal(existing.value) else ""), enabled);
  }

  /** On files: writing the switch again, to whatever value, leaves only the last write. */
  lemma {:induction false} LastPersistWins(existing: Option<string>, first: bool, last: bool)
    ensures Persisted(Some(Persisted(existing, first)), last) == Persisted(existing, last)
  {
    FileReadsBack(existing, first);
    LastRewriteWins(SplitLines(if existing.Some? then Universal(existing.value) else ""), first, last);
  }
}
