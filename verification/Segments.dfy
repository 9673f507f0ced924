/** Cutting a document into what a translator may change and what it may not. */
module Segments {
  import F = Frontmatter
  import R = FrontmatterRoundTrip

  datatype Segment = Segment(text: string, translatable: bool)

  // --------------------------------------------------------------------- lines

  /** Where the first line break is, or the length. */
  function Eol(text: string): (n: nat)
    ensures n <= |text|
    ensures n < |text| ==> text[n] == '\n'
    ensures '\n' !in text[..n]
  {
    if text == "" || text[0] == '\n' then 0 else 1 + Eol(text[1..])
  }

  /** The lines without their line breaks, a `\r` before a break dropped too. */
  function LinesOf(text: string): seq<string> {
    if text == "" then []
    else
      var n := Eol(text);
      if n == |text| then [text] else [F.StripCr(text[..n])] + LinesOf(text[n + 1..])
  }

  function WithBreaks(lines: seq<string>): string {
    if lines == [] then "" else lines[0] + "\n" + WithBreaks(lines[1..])
  }

  /** LF-only text that is empty or ends with a line break. */
  predicate CleanText(text: string) {
    && (text == "" || text[|text| - 1] == '\n')
    && forall i | 0 < i < |text| && text[i] == '\n' :: text[i - 1] != '\r'
  }

  lemma {:induction false} BreaksAppend(a: seq<string>, b: seq<string>)
    ensures WithBreaks(a + b) == WithBreaks(a) + WithBreaks(b)
  {
    if a == [] {
      assert a + b == b;
    } else {
      assert (a + b)[1..] == a[1..] + b;
      BreaksAppend(a[1..], b);
    }
  }

  lemma CleanSplits(text: string, n: nat)
    requires n < |text| && text[n] == '\n' && '\n' !in text[..n]
    ensures CleanText(text) <==> (n == 0 || text[n - 1] != '\r') && CleanText(text[n + 1..])
  {
    var rest := text[n + 1..];
    if (n == 0 || text[n - 1] != '\r') && CleanText(rest) {
      forall i | 0 < i < |text| && text[i] == '\n'
        ensures text[i - 1] != '\r'
      {
        assert forall j | 0 <= j < n :: text[j] in text[..n];
        if i > n + 1 {
          assert rest[i - n - 1] == text[i] && rest[i - n - 2] == text[i - 1];
        }
      }
    }
    if CleanText(text) {
      forall i | 0 < i < |rest| && rest[i] == '\n'
        ensures rest[i - 1] != '\r'
      {
        assert text[n + 1 + i] == '\n';
      }
    }
  }

  lemma UnfinishedLineGrows(text: string)
    requires text != "" && Eol(text) == |text|
    ensures WithBreaks(LinesOf(text)) != text && !CleanText(text)
  {
    assert |WithBreaks([text])| == |text| + 1;
    assert text[|text| - 1] in text[..Eol(text)];
  }

  lemma CutAt(text: string, n: nat)
    requires n < |text|
    ensures text == text[..n] + [text[n]] + text[n + 1..]
  {
  }

  lemma FirstOf(lines: seq<string>, first: string, rest: seq<string>)
    requires lines == [first] + rest
    ensures WithBreaks(lines) == first + "\n" + WithBreaks(rest)
  {
    assert lines[1..] == rest;
  }

  lemma FirstLineAndRest(text: string)
    requires Eol(text) < |text|
    ensures var n := Eol(text);
            && text == text[..n] + "\n" + text[n + 1..]
            && WithBreaks(LinesOf(text)) == F.StripCr(text[..n]) + "\n" + WithBreaks(LinesOf(text[n + 1..]))
  {
    var n := Eol(text);
    CutAt(text, n);
    FirstOf(LinesOf(text), F.StripCr(text[..n]), LinesOf(text[n + 1..]));
  }

  lemma SameRest(a: string, b: string, c: string)
    ensures a + b == a + c <==> b == c
  {
    assert (a + b)[|a|..] == b && (a + c)[|a|..] == c;
  }

  /** A carriage return before the break is lost, whatever follows. */
  lemma LostReturn(line: string, again: string, rest: string)
    requires line != "" && line[|line| - 1] == '\r'
    ensures F.StripCr(line) + "\n" + again != line + "\n" + rest
  {
    var n := |line| - 1;
    assert (F.StripCr(line) + "\n" + again)[n] == '\n' && (line + "\n" + rest)[n] == '\r';
  }

  /** Cutting into lines and joining again gives the text back exactly when it is
      clean. */
  lemma {:induction false} LinesLosslessIff(text: string)
    ensures WithBreaks(LinesOf(text)) == text <==> CleanText(text)
    decreases |text|
  {
    var n := Eol(text);
    if text == "" {
    } else if n == |text| {
      UnfinishedLineGrows(text);
    } else {
      var line, rest := text[..n], text[n + 1..];
      LinesLosslessIff(rest);
      CleanSplits(text, n);
      FirstLineAndRest(text);
      if n > 0 && text[n - 1] == '\r' {
        LostReturn(line, WithBreaks(LinesOf(rest)), rest);
      } else {
        SameRest(line + "\n", WithBreaks(LinesOf(rest)), rest);
      }
    }
  }

  // ------------------------------------------------------------- what is protected

  const MACHINE_SECTIONS: set<string> := {"Check", "Children", "Inputs", "Approvals", "Ref"}

  /** What matters about a line: whether it is a fence, a heading, the heading of a
      section, and of a machine section. */
  datatype Mark = Mark(fence: bool, heading: bool, section: bool, machine: bool)

  function MarkOf(line: string): Mark {
    var t := F.TrimStart(line);
    Mark("```" <= t, F.Prefixed(t, '#'), "## " <= t, "## " <= t && F.Trim(t[3..]) in MACHINE_SECTIONS)
  }

  /** Three backticks make a fence, a hash a heading, two hashes and a space a section;
      the machine's sections are known by their names. */
  lemma MarkIs(t: string)
    requires t == "" || !F.IsSpace(t[0])
    ensures MarkOf(t).fence <==> |t| >= 3 && t[0] == t[1] == t[2] == '`'
    ensures MarkOf(t).heading <==> t != "" && t[0] == '#'
    ensures MarkOf(t).section <==> |t| >= 3 && t[0] == t[1] == '#' && t[2] == ' '
    ensures MarkOf(t).machine <==>
            && MarkOf(t).section
            && (F.Trim(t[3..]) == "Check" || F.Trim(t[3..]) == "Children" || F.Trim(t[3..]) == "Inputs"
                || F.Trim(t[3..]) == "Approvals" || F.Trim(t[3..]) == "Ref")
  {
  }

  lemma IndentDoesNotMatter(t: string)
    ensures MarkOf(" " + t) == MarkOf(t)
  {
    assert (" " + t)[1..] == t;
  }

  function Marks(lines: seq<string>): (ms: seq<Mark>)
    ensures |ms| == |lines|
  {
    seq(|lines|, i requires 0 <= i < |lines| => MarkOf(lines[i]))
  }

  function FencesBefore(ms: seq<Mark>, k: nat): nat
    requires k <= |ms|
  {
    if k == 0 then 0 else FencesBefore(ms, k - 1) + if ms[k - 1].fence then 1 else 0
  }

  /** An odd number of fences is open above the line. */
  predicate InFence(ms: seq<Mark>, k: nat)
    requires k <= |ms|
  {
    FencesBefore(ms, k) % 2 == 1
  }

  /** A heading that counts: not a fence and not fenced. */
  predicate StartsSection(ms: seq<Mark>, j: nat)
    requires j < |ms|
  {
    !InFence(ms, j) && !ms[j].fence && ms[j].section
  }

  /** The nearest section heading above line `k` is a machine section's. */
  predicate InMachine(ms: seq<Mark>, k: nat)
    requires k <= |ms|
  {
    exists j | 0 <= j < k :: StartsSection(ms, j) && ms[j].machine && NoSectionBetween(ms, j + 1, k)
  }

  predicate NoSectionBetween(ms: seq<Mark>, from: nat, k: nat)
    requires k <= |ms|
  {
    forall i | from <= i < k :: !StartsSection(ms, i)
  }

  /** Fences, fenced lines, headings and the lines of machine sections. */
  predicate Protected(ms: seq<Mark>, k: nat)
    requires k < |ms|
  {
    ms[k].fence || InFence(ms, k) || ms[k].heading || InMachine(ms, k)
  }

  // ---------------------------------------------------------------------- segments

  function Push(out: seq<Segment>, line: string, translatable: bool): seq<Segment> {
    if out != [] && out[|out| - 1].translatable == translatable then
      out[..|out| - 1] + [Segment(out[|out| - 1].text + line + "\n", translatable)]
    else out + [Segment(line + "\n", translatable)]
  }

  /** Neighbouring lines of a kind together. */
  function Grouped(lines: seq<string>, ms: seq<Mark>, k: nat): seq<Segment>
    requires k <= |lines| == |ms|
  {
    if k == 0 then [] else Push(Grouped(lines, ms, k - 1), lines[k - 1], !Protected(ms, k - 1))
  }

  function Texts(out: seq<Segment>): string {
    if out == [] then "" else Texts(out[..|out| - 1]) + out[|out| - 1].text
  }

  lemma {:induction false} GroupedTexts(lines: seq<string>, ms: seq<Mark>, k: nat)
    requires k <= |lines| == |ms|
    ensures Texts(Grouped(lines, ms, k)) == WithBreaks(lines[..k])
  {
    if k > 0 {
      GroupedTexts(lines, ms, k - 1);
      var before, line := Grouped(lines, ms, k - 1), lines[k - 1];
      BreaksAppend(lines[..k - 1], [line]);
      assert lines[..k] == lines[..k - 1] + [line];
      assert WithBreaks([line]) == line + "\n";
      PushAdds(before, line, !Protected(ms, k - 1));
    }
  }

  lemma PushAdds(out: seq<Segment>, line: string, translatable: bool)
    ensures Texts(Push(out, line, translatable)) == Texts(out) + (line + "\n")
  {
    var pushed := Push(out, line, translatable);
    if out != [] && out[|out| - 1].translatable == translatable {
      var init, last := out[..|out| - 1], out[|out| - 1];
      assert pushed[..|pushed| - 1] == init;
      assert last.text + line + "\n" == last.text + (line + "\n");
      assert Texts(init) + (last.text + (line + "\n")) == Texts(init) + last.text + (line + "\n");
    } else {
      assert pushed[..|pushed| - 1] == out;
    }
  }

  /** Every segment is a run of neighbouring lines of its own kind: no translatable
      one holds a protected line, and no two neighbours could be joined. */
  ghost predicate IsRun(lines: seq<string>, ms: seq<Mark>, s: Segment, from: nat, to: nat) {
    && from < to <= |lines| == |ms| && s.text == WithBreaks(lines[from..to])
    && forall k | from <= k < to :: Protected(ms, k) == !s.translatable
  }

  lemma RunGrows(lines: seq<string>, ms: seq<Mark>, s: Segment, from: nat, to: nat)
    requires IsRun(lines, ms, s, from, to) && to < |lines| && Protected(ms, to) == !s.translatable
    ensures IsRun(lines, ms, Segment(s.text + lines[to] + "\n", s.translatable), from, to + 1)
  {
    NextLine(lines, from, to);
    assert s.text + lines[to] + "\n" == s.text + (lines[to] + "\n");
  }

  lemma NextLine(lines: seq<string>, from: nat, to: nat)
    requires from <= to < |lines|
    ensures WithBreaks(lines[from..to + 1]) == WithBreaks(lines[from..to]) + (lines[to] + "\n")
  {
    BreaksAppend(lines[from..to], [lines[to]]);
    assert lines[from..to + 1] == lines[from..to] + [lines[to]];
    OneBreak(lines[to]);
  }

  lemma OneBreak(line: string)
    ensures WithBreaks([line]) == line + "\n"
  {
  }

  lemma RunStarts(lines: seq<string>, ms: seq<Mark>, to: nat)
    requires to < |lines| == |ms|
    ensures IsRun(lines, ms, Segment(lines[to] + "\n", !Protected(ms, to)), to, to + 1)
  {
    assert lines[to..to + 1] == [lines[to]];
    OneBreak(lines[to]);
  }

  ghost predicate AreRuns(lines: seq<string>, ms: seq<Mark>, out: seq<Segment>, starts: seq<nat>, k: nat) {
    && |starts| == |out| + 1 && starts[0] == 0 && starts[|out|] == k
    && (forall i | 0 <= i < |out| :: IsRun(lines, ms, out[i], starts[i], starts[i + 1]))
    && (forall i | 0 <= i < |out| - 1 :: out[i].translatable != out[i + 1].translatable)
  }

  lemma ReplaceLast(lines: seq<string>, ms: seq<Mark>, out: seq<Segment>, starts: seq<nat>, k: nat, s: Segment)
    requires AreRuns(lines, ms, out, starts, k) && out != []
    requires IsRun(lines, ms, s, starts[|out| - 1], k + 1) && s.translatable == out[|out| - 1].translatable
    ensures AreRuns(lines, ms, out[..|out| - 1] + [s], starts[..|out|] + [k + 1], k + 1)
  {
    var longer, ends := out[..|out| - 1] + [s], starts[..|out|] + [k + 1];
    forall i | 0 <= i < |longer|
      ensures IsRun(lines, ms, longer[i], ends[i], ends[i + 1])
    {
      if i < |out| - 1 {
        assert IsRun(lines, ms, out[i], starts[i], starts[i + 1]);
      }
    }
  }

  lemma AppendRun(lines: seq<string>, ms: seq<Mark>, out: seq<Segment>, starts: seq<nat>, k: nat, s: Segment)
    requires AreRuns(lines, ms, out, starts, k)
    requires IsRun(lines, ms, s, k, k + 1) && (out == [] || s.translatable != out[|out| - 1].translatable)
    ensures AreRuns(lines, ms, out + [s], starts + [k + 1], k + 1)
  {
    var longer, ends := out + [s], starts + [k + 1];
    forall i | 0 <= i < |longer|
      ensures IsRun(lines, ms, longer[i], ends[i], ends[i + 1])
    {
      if i < |out| {
        assert IsRun(lines, ms, out[i], starts[i], starts[i + 1]);
      }
    }
  }

  lemma PushKeepsRuns(lines: seq<string>, ms: seq<Mark>, out: seq<Segment>, starts: seq<nat>, k: nat)
    returns (starts': seq<nat>)
    requires k < |lines| == |ms| && AreRuns(lines, ms, out, starts, k)
    ensures AreRuns(lines, ms, Push(out, lines[k], !Protected(ms, k)), starts', k + 1)
  {
    var kind := !Protected(ms, k);
    if out != [] && out[|out| - 1].translatable == kind {
      var last := |out| - 1;
      RunGrows(lines, ms, out[last], starts[last], k);
      ReplaceLast(lines, ms, out, starts, k, Segment(out[last].text + lines[k] + "\n", kind));
      starts' := starts[..|out|] + [k + 1];
    } else {
      RunStarts(lines, ms, k);
      AppendRun(lines, ms, out, starts, k, Segment(lines[k] + "\n", kind));
      starts' := starts + [k + 1];
    }
  }

  /** The segments of a document are its maximal runs of lines of one kind. */
  lemma {:induction false} SegmentsAreRuns(lines: seq<string>, ms: seq<Mark>, k: nat) returns (starts: seq<nat>)
    requires k <= |lines| == |ms|
    ensures AreRuns(lines, ms, Grouped(lines, ms, k), starts, k)
  {
    if k == 0 {
      starts := [0];
    } else {
      starts := SegmentsAreRuns(lines, ms, k - 1);
      starts := PushKeepsRuns(lines, ms, Grouped(lines, ms, k - 1), starts, k - 1);
    }
  }

  // ------------------------------------------------------------------ front matter

  datatype Cut = Cut(front: string, body: string)

  /** Where a line `---` ends the front matter, or the length. */
  function FrontEnd(s: string): (n: nat)
    ensures n <= |s|
    ensures n < |s| ==> "\n---\n" <= s[n..]
  {
    if s == "" then 0 else if "\n---\n" <= s then assert s[0..] == s; 0 else 1 + FrontEnd(s[1..])
  }

  /** The front matter with its delimiters, empty when there is none. */
  function SplitFront(content: string): (c: Cut)
    ensures c.front + c.body == content
  {
    if !("---\n" <= content) then Cut("", content)
    else
      var end := FrontEnd(content[4..]);
      if end == |content| - 4 then Cut("", content)
      else
        assert "\n---\n" <= content[4..][end..];
        Cut(content[..end + 9], content[end + 9..])
  }

  /** The one schema version this build understands. */
  predicate KnownSchema(o: F.Oracle, content: string) {
    var fm := F.ParseFrontMatter(o, content);
    fm.Obj? && F.Entry("schema_version", F.Int(1)) in fm.entries
  }

  function SegmentsOf(o: F.Oracle, content: string): seq<Segment> {
    var cut := SplitFront(content);
    var lines := LinesOf(cut.body);
    if cut.front == "" then Grouped(lines, Marks(lines), |lines|)
    else if !KnownSchema(o, content) then [Segment(content, false)]
    else [Segment(cut.front, false)] + Grouped(lines, Marks(lines), |lines|)
  }

  lemma TextsLast(out: seq<Segment>, last: Segment)
    ensures Texts(out + [last]) == Texts(out) + last.text
  {
    assert (out + [last])[..|out|] == out;
  }

  lemma {:induction false} TextsFirst(s: Segment, out: seq<Segment>)
    ensures Texts([s] + out) == s.text + Texts(out)
  {
    if out == [] {
      assert [s] + out == [] + [s];
      TextsLast([], s);
    } else {
      var init, last := out[..|out| - 1], out[|out| - 1];
      TextsFirst(s, init);
      assert out == init + [last];
      assert [s] + (init + [last]) == [s] + init + [last];
      TextsLast([s] + init, last);
      assert s.text + Texts(init) + last.text == s.text + (Texts(init) + last.text);
    }
  }

  // ------------------------------------------------------------ what is translated

  function Translated(out: seq<Segment>): string {
    if out == [] then ""
    else
      var last := out[|out| - 1];
      Translated(out[..|out| - 1]) + if last.translatable then last.text else ""
  }

  /** The lines that nothing protects. */
  function Unprotected(lines: seq<string>, ms: seq<Mark>, k: nat): seq<string>
    requires k <= |lines| == |ms|
  {
    if k == 0 then []
    else Unprotected(lines, ms, k - 1) + if Protected(ms, k - 1) then [] else [lines[k - 1]]
  }

  lemma TranslatedLast(out: seq<Segment>, last: Segment)
    ensures Translated(out + [last]) == Translated(out) + if last.translatable then last.text else ""
  {
    assert (out + [last])[..|out|] == out;
  }

  lemma PushTranslates(out: seq<Segment>, line: string, translatable: bool)
    ensures Translated(Push(out, line, translatable)) == Translated(out) + if translatable then line + "\n" else ""
  {
    if out != [] && out[|out| - 1].translatable == translatable {
      var init, last := out[..|out| - 1], out[|out| - 1];
      TranslatedLast(init, Segment(last.text + line + "\n", translatable));
      assert last.text + line + "\n" == last.text + (line + "\n");
      assert Translated(init) + (last.text + (line + "\n")) == Translated(init) + last.text + (line + "\n");
    } else {
      TranslatedLast(out, Segment(line + "\n", translatable));
    }
  }

  lemma GroupedGrows(lines: seq<string>, ms: seq<Mark>, k: nat)
    requires k < |lines| == |ms|
    ensures Translated(Grouped(lines, ms, k + 1)) ==
            Translated(Grouped(lines, ms, k)) + if Protected(ms, k) then "" else lines[k] + "\n"
  {
    PushTranslates(Grouped(lines, ms, k), lines[k], !Protected(ms, k));
  }

  lemma UnprotectedGrows(lines: seq<string>, ms: seq<Mark>, k: nat)
    requires k < |lines| == |ms|
    ensures WithBreaks(Unprotected(lines, ms, k + 1)) ==
            WithBreaks(Unprotected(lines, ms, k)) + if Protected(ms, k) then "" else lines[k] + "\n"
  {
    var before, line := Unprotected(lines, ms, k), lines[k];
    if Protected(ms, k) {
      assert before + [] == before;
    } else {
      BreaksAppend(before, [line]);
      assert WithBreaks([line]) == line + "\n";
    }
  }

  lemma GroupedTranslates(lines: seq<string>, ms: seq<Mark>, n: nat)
    requires n <= |lines| == |ms|
    ensures Translated(Grouped(lines, ms, n)) == WithBreaks(Unprotected(lines, ms, n))
  {
    for k := 0 to n
      invariant Translated(Grouped(lines, ms, k)) == WithBreaks(Unprotected(lines, ms, k))
    {
      GroupedGrows(lines, ms, k);
      UnprotectedGrows(lines, ms, k);
    }
  }

  lemma {:induction false} FirstIsKept(s: Segment, out: seq<Segment>)
    requires !s.translatable
    ensures Translated([s] + out) == Translated(out)
  {
    if out == [] {
      TranslatedLast([], s);
      assert [] + [s] == [s] + out;
    } else {
      var init, last := out[..|out| - 1], out[|out| - 1];
      FirstIsKept(s, init);
      assert [s] + out == [s] + init + [last];
      TranslatedLast([s] + init, last);
    }
  }

  /** What a translator gets: exactly the unprotected lines of the body, in order; and
      nothing of a document whose front matter is of an unknown schema. */
  lemma TranslatedIs(o: F.Oracle, content: string)
    ensures var cut := SplitFront(content);
            var lines := LinesOf(cut.body);
            Translated(SegmentsOf(o, content)) ==
            if cut.front != "" && !KnownSchema(o, content) then ""
            else WithBreaks(Unprotected(lines, Marks(lines), |lines|))
  {
    var cut := SplitFront(content);
    var lines := LinesOf(cut.body);
    GroupedTranslates(lines, Marks(lines), |lines|);
    if cut.front != "" {
      FirstIsKept(Segment(cut.front, false), Grouped(lines, Marks(lines), |lines|));
      TranslatedLast([], Segment(content, false));
      assert [] + [Segment(content, false)] == [Segment(content, false)];
    }
  }

  /** Only version 1 is known: a document with any other is left alone as a whole. */
  lemma KnownSchemaIff(o: F.Oracle, version: int, body: string)
    requires F.GoodOracle(o) && -F.MAX_SAFE <= version <= F.MAX_SAFE
    ensures KnownSchema(o, F.BuildMarkdown(o, [F.Entry("schema_version", F.Int(version))], body)) <==> version == 1
  {
    SchemaKeyIsSafe();
    SingleEntryReads(o, "schema_version", version, body);
  }

  lemma SchemaKeyIsSafe()
    ensures R.SafeKey("schema_version")
  {
  }

  lemma SingleEntryReads(o: F.Oracle, key: string, i: int, body: string)
    requires F.GoodOracle(o) && R.SafeKey(key) && -F.MAX_SAFE <= i <= F.MAX_SAFE
    ensures F.ParseFrontMatter(o, F.BuildMarkdown(o, [F.Entry(key, F.Int(i))], body)) == F.Obj([F.Entry(key, F.Int(i))])
  {
    var es := [F.Entry(key, F.Int(i))];
    assert es[1..] == [] && R.SafeEntries(o, es[1..]) && !R.HasKey(es[1..], key);
    R.MarkdownReads(o, es, body);
  }

  /** Nothing is lost exactly when the body is clean, or nothing is translated. */
  lemma LosslessIff(o: F.Oracle, content: string)
    ensures Texts(SegmentsOf(o, content)) == content <==>
            CleanText(SplitFront(content).body) || (SplitFront(content).front != "" && !KnownSchema(o, content))
  {
    var cut := SplitFront(content);
    var lines := LinesOf(cut.body);
    LinesLosslessIff(cut.body);
    GroupedTexts(lines, Marks(lines), |lines|);
    assert lines[..|lines|] == lines;
    if cut.front == "" {
      assert cut.body == content;
    } else if !KnownSchema(o, content) {
      TextsFirst(Segment(content, false), []);
      assert [Segment(content, false)] + [] == [Segment(content, false)];
    } else {
      TextsFirst(Segment(cut.front, false), Grouped(lines, Marks(lines), |lines|));
      SameRest(cut.front, WithBreaks(lines), cut.body);
    }
  }

  // ---------------------------------------------------- is front matter protected?

  predicate FenceAt(s: string, i: nat) {
    i <= |s| && "\n---\n" <= s[i..]
  }

  /** An opening line `---` and a later line `---`, both ended by a bare line feed. */
  predicate ExactFront(content: string) {
    "---\n" <= content && exists i | 0 <= i < |content| - 4 :: FenceAt(content[4..], i)
  }

  lemma {:induction false} FrontEndIsFirst(s: string, i: nat)
    requires FenceAt(s, i)
    ensures FrontEnd(s) <= i && i + 5 <= |s|
  {
    if i > 0 {
      assert s[1..][i - 1..] == s[i..];
      FrontEndIsFirst(s[1..], i - 1);
    } else {
      assert s[0..] == s;
    }
  }

  lemma {:induction false} FenceIsFirst(s: string, i: nat)
    requires i <= |s| && F.StartsWith(s[i..], "\n---")
    ensures F.Fence(s) <= i
  {
    if i > 0 {
      assert s[1..][i - 1..] == s[i..];
      FenceIsFirst(s[1..], i - 1);
    } else {
      assert s[0..] == s;
    }
  }

  lemma {:induction false} FenceStarts(s: string)
    requires F.Fence(s) < |s|
    ensures F.StartsWith(s[F.Fence(s)..], "\n---")
  {
    if F.StartsWith(s, "\n---") {
      assert s[0..] == s;
    } else {
      FenceStarts(s[1..]);
    }
  }

  lemma ExactIsLoose(s: string)
    ensures "\n---\n" <= s <==> F.StartsWith(s, "\n---") && "\n" <= s[4..]
  {
    if F.StartsWith(s, "\n---") && "\n" <= s[4..] {
      assert s[4] == s[4..][0];
      assert s[..5] == "\n---\n";
    }
    if "\n---\n" <= s {
      assert s[..4] == "\n---\n"[..4] == "\n---";
    }
  }

  lemma ExactFrontIff(content: string)
    ensures SplitFront(content).front != "" <==> ExactFront(content)
  {
    if "---\n" <= content {
      var s := content[4..];
      assert FrontEnd(s) < |s| ==> FenceAt(s, FrontEnd(s));
      if ExactFront(content) {
        var i :| 0 <= i < |content| - 4 && FenceAt(s, i);
        FrontEndIsFirst(s, i);
      }
    }
  }

  /** What the parser takes for front matter, with its delimiters. */
  function Matter(content: string): string
    requires F.SplitFrontMatter(content).Some?
  {
    content[..|content| - |F.SplitFrontMatter(content).value.rest|]
  }

  lemma FenceIsNotAfterFrontEnd(content: string)
    requires ExactFront(content)
    ensures F.Fence(content[4..]) <= FrontEnd(content[4..]) <= |content| - 9
    ensures F.SplitFrontMatter(content).Some? && |Matter(content)| == F.Fence(content[4..]) + 8
  {
    var s := content[4..];
    var i :| 0 <= i < |content| - 4 && FenceAt(s, i);
    FrontEndIsFirst(s, i);
    var n := FrontEnd(s);
    FrontEndIsFirst(s, n);
    ExactIsLoose(s[n..]);
    FenceIsFirst(s, n);
    assert content[3] == '\n';
  }

  lemma FenceIsExact(s: string)
    requires F.Fence(s) + 4 <= |s| && "\n" <= s[F.Fence(s) + 4..]
    ensures FenceAt(s, F.Fence(s)) && FrontEnd(s) <= F.Fence(s)
  {
    var n := F.Fence(s);
    FenceStarts(s);
    assert s[n..][4..] == s[n + 4..];
    ExactIsLoose(s[n..]);
    FrontEndIsFirst(s, n);
  }

  lemma ParserSplit(content: string)
    requires F.SplitFrontMatter(content).Some? && "---\n" <= content
    ensures var s, n := content[4..], F.Fence(content[4..]);
            n + 4 <= |s| && F.SplitFrontMatter(content).value.rest == s[n + 4..]
  {
    assert content[3] == '\n';
  }

  lemma SameEnd(content: string)
    requires F.SplitFrontMatter(content).Some? && "---\n" <= content
    requires "\n" <= F.SplitFrontMatter(content).value.rest
    ensures ExactFront(content) && FrontEnd(content[4..]) == F.Fence(content[4..])
    ensures F.SplitFrontMatter(content).value.rest == content[4..][F.Fence(content[4..]) + 4..]
  {
    ParserSplit(content);
    FenceIsExact(content[4..]);
    assert ExactFront(content);
    FenceIsNotAfterFrontEnd(content);
  }

  /** The parser and the segmenter end the front matter at the same line exactly when
      it opens with `---` and a line feed and nothing follows the closing `---`. */
  lemma SplitsAgreeIff(content: string)
    requires F.SplitFrontMatter(content).Some?
    ensures "\n" + SplitFront(content).body == F.SplitFrontMatter(content).value.rest <==>
            "---\n" <= content && "\n" <= F.SplitFrontMatter(content).value.rest
  {
    var rest := F.SplitFrontMatter(content).value.rest;
    if "---\n" <= content && "\n" <= rest {
      SameEnd(content);
      var n := F.Fence(content[4..]);
      assert SplitFront(content).body == content[n + 9..];
      assert rest == content[n + 8..];
      FirstChar(rest, '\n');
      assert rest[1..] == content[n + 9..];
    }
  }

  lemma FirstChar(s: string, c: char)
    requires [c] <= s
    ensures s == [c] + s[1..]
  {
  }

  /** All of the front matter is in a first segment that is not translatable. */
  predicate IsProtected(segments: seq<Segment>, matter: string) {
    segments != [] && !segments[0].translatable && matter <= segments[0].text
  }

  lemma {:induction false} FirstSegment(lines: seq<string>, ms: seq<Mark>, k: nat)
    requires 0 < k <= |lines| == |ms|
    ensures Grouped(lines, ms, k) != [] && Grouped(lines, ms, k)[0].translatable == !Protected(ms, 0)
  {
    if k > 1 {
      FirstSegment(lines, ms, k - 1);
    }
  }

  lemma DashesAreProse(lines: seq<string>)
    requires lines != [] && lines[0] == "---"
    ensures !Protected(Marks(lines), 0)
  {
    var dashes := "---";
    assert dashes[0] == '-' && F.TrimStart(dashes) == dashes;
    assert !("```" <= dashes) && !("## " <= dashes);
  }

  lemma {:induction false} EolIs(text: string, n: nat)
    requires n < |text| && text[n] == '\n' && '\n' !in text[..n]
    ensures Eol(text) == n
  {
    if n > 0 {
      assert text[..n][0] == text[0] && text[1..][..n - 1] == text[..n][1..];
      EolIs(text[1..], n - 1);
    }
  }

  lemma OpeningLine(content: string)
    requires "---\n" <= content || "---\r\n" <= content
    ensures LinesOf(content) != [] && LinesOf(content)[0] == "---"
  {
    if "---\n" <= content {
      assert content[3] == '\n' && content[..3] == "---";
      EolIs(content, 3);
    } else {
      assert content[4] == '\n' && content[..4] == "---\r";
      EolIs(content, 4);
    }
  }

  lemma OpeningLineIsProse(o: F.Oracle, content: string)
    requires "---\n" <= content || "---\r\n" <= content
    requires SplitFront(content).front == ""
    ensures SegmentsOf(o, content) != [] && SegmentsOf(o, content)[0].translatable
  {
    var lines := LinesOf(content);
    OpeningLine(content);
    DashesAreProse(lines);
    FirstSegment(lines, Marks(lines), |lines|);
  }

  lemma ExactIsProtected(o: F.Oracle, content: string)
    requires ExactFront(content)
    ensures F.SplitFrontMatter(content).Some? && IsProtected(SegmentsOf(o, content), Matter(content))
    ensures IsProtected(SegmentsOf(o, content), SplitFront(content).front)
  {
    ExactFrontIff(content);
    FenceIsNotAfterFrontEnd(content);
    assert Matter(content) <= SplitFront(content).front <= content;
  }

  /** Front matter is protected exactly when the segmenter's own, stricter split finds
      it; only then is a file of an unknown schema left alone. Otherwise its first
      line already goes to the translator. */
  lemma FrontMatterIsProtectedIff(o: F.Oracle, content: string)
    requires F.SplitFrontMatter(content).Some?
    ensures IsProtected(SegmentsOf(o, content), Matter(content)) <==> ExactFront(content)
    ensures ExactFront(content) ==> IsProtected(SegmentsOf(o, content), SplitFront(content).front)
    ensures ExactFront(content) && !KnownSchema(o, content) ==>
              forall i | 0 <= i < |SegmentsOf(o, content)| :: !SegmentsOf(o, content)[i].translatable
    ensures !ExactFront(content) ==> SegmentsOf(o, content) != [] && SegmentsOf(o, content)[0].translatable
  {
    ExactFrontIff(content);
    if ExactFront(content) {
      ExactIsProtected(o, content);
    } else {
      OpeningLineIsProse(o, content);
    }
  }

  lemma PushProse(out: seq<Segment>, text: string, line: string)
    requires out == [Segment(text, true)]
    ensures Push(out, line, true) == [Segment(text + (line + "\n"), true)]
  {
    assert text + line + "\n" == text + (line + "\n");
  }

  lemma {:induction false} AllProse(lines: seq<string>, ms: seq<Mark>, k: nat)
    requires 0 < k <= |lines| == |ms| && forall i | 0 <= i < |ms| :: !Protected(ms, i)
    ensures Grouped(lines, ms, k) == [Segment(WithBreaks(lines[0..k]), true)]
  {
    if k == 1 {
      assert lines[0..1] == [lines[0]];
      OneBreak(lines[0]);
    } else {
      AllProse(lines, ms, k - 1);
      NextLine(lines, 0, k - 1);
      PushProse(Grouped(lines, ms, k - 1), WithBreaks(lines[0..k - 1]), lines[k - 1]);
    }
  }

  predicate IsLine(l: string) {
    '\n' !in l && F.StripCr(l) == l
  }

  lemma LinesStart(line: string, rest: string)
    requires IsLine(line)
    ensures LinesOf(line + "\n" + rest) == [line] + LinesOf(rest)
  {
    var text := line + "\n" + rest;
    assert text[|line|] == '\n' && text[..|line|] == line && text[|line| + 1..] == rest;
    EolIs(text, |line|);
  }

  /** Joining lines and cutting again gives the lines back. */
  lemma {:induction false} JoinedLines(lines: seq<string>)
    requires forall i | 0 <= i < |lines| :: IsLine(lines[i])
    ensures LinesOf(WithBreaks(lines)) == lines
  {
    if lines != [] {
      JoinedLines(lines[1..]);
      LinesStart(lines[0], WithBreaks(lines[1..]));
      assert lines == [lines[0]] + lines[1..];
    }
  }

  const LOOSE := "---\na\n--- \nx\n"

  lemma LooseIsJoined()
    ensures WithBreaks(["---", "a", "--- ", "x"]) == LOOSE
  {
    OneBreak("x");
    FirstOf(["--- ", "x"], "--- ", ["x"]);
    FirstOf(["a", "--- ", "x"], "a", ["--- ", "x"]);
    FirstOf(["---", "a", "--- ", "x"], "---", ["a", "--- ", "x"]);
  }

  lemma LooseIsNotExact()
    ensures !ExactFront(LOOSE)
  {
    var s := LOOSE[4..];
    assert s == "a\n--- \nx\n";
    forall i | 0 <= i < |s|
      ensures !FenceAt(s, i)
    {
      if i + 5 <= |s| {
        assert s[i..][0] == s[i] && s[i..][4] == s[i + 4];
      }
    }
  }

  const PROSE := Mark(false, false, false, false)

  lemma PlainLine(line: string)
    requires line != "" && !F.IsSpace(line[0]) && line[0] != '`' && line[0] != '#'
    ensures MarkOf(line) == PROSE
  {
    assert F.TrimStart(line) == line;
  }

  lemma {:induction false} ProseIsNotProtected(ms: seq<Mark>, k: nat)
    requires k < |ms| && forall i | 0 <= i < |ms| :: ms[i] == PROSE
    ensures !Protected(ms, k) && FencesBefore(ms, k) == 0
  {
    if k > 0 {
      ProseIsNotProtected(ms, k - 1);
    }
  }

  lemma OneWordIsNoMapping(o: F.Oracle, word: string)
    requires word != "" && ':' !in word && '\n' !in word && word[|word| - 1] != '\r'
    ensures F.Parse(o, word) == F.Obj([])
  {
    OneLine(word);
    assert F.StripAll([word]) == [word];
    NoColon(word);
    assert F.ParseLines(o, [word][1..], []) == [];
  }

  lemma {:induction false} NoColon(word: string)
    requires ':' !in word
    ensures F.Colon(word) == |word|
  {
    if word != "" {
      assert word[0] in word && word == [word[0]] + word[1..];
      NoColon(word[1..]);
    }
  }

  lemma {:induction false} OneLine(word: string)
    requires '\n' !in word
    ensures F.Split(word) == [word]
  {
    if word != "" {
      OneLine(word[1..]);
      assert word == [word[0]] + word[1..];
    }
  }

  lemma LooseMatter(o: F.Oracle)
    ensures F.SplitFrontMatter(LOOSE).Some? && !KnownSchema(o, LOOSE)
  {
    var after := LOOSE[4..];
    assert after == "a\n--- \nx\n" && LOOSE[3] == '\n';
    assert after[1..] == "\n--- \nx\n";
    assert F.StartsWith(after[1..], "\n---");
    FenceIsFirst(after, 1);
    assert after[0] == 'a' && !F.StartsWith(after, "\n---");
    assert F.Fence(after) == 1 && after[..1] == "a";
    OneWordIsNoMapping(o, "a");
  }

  /** Lines of prose are one segment. */
  lemma ProseIsOneSegment(lines: seq<string>, ms: seq<Mark>)
    requires |lines| == |ms| > 0 && forall i | 0 <= i < |ms| :: ms[i] == PROSE
    ensures Grouped(lines, ms, |lines|) == [Segment(WithBreaks(lines), true)]
  {
    forall i | 0 <= i < |ms|
      ensures !Protected(ms, i)
    {
      ProseIsNotProtected(ms, i);
    }
    AllProse(lines, ms, |lines|);
    assert lines[0..|lines|] == lines;
  }

  lemma WithoutFront(o: F.Oracle, content: string)
    requires SplitFront(content).front == ""
    ensures SegmentsOf(o, content) == Grouped(LinesOf(content), Marks(LinesOf(content)), |LinesOf(content)|)
  {
    assert SplitFront(content).body == content;
  }

  lemma ProseDocument(o: F.Oracle, content: string, lines: seq<string>)
    requires !ExactFront(content) && content == WithBreaks(lines) && LinesOf(content) == lines != []
    requires forall i | 0 <= i < |lines| :: Marks(lines)[i] == PROSE
    ensures SegmentsOf(o, content) == [Segment(content, true)]
  {
    ExactFrontIff(content);
    WithoutFront(o, content);
    ProseIsOneSegment(lines, Marks(lines));
  }

  lemma LooseLines() returns (lines: seq<string>)
    ensures WithBreaks(lines) == LOOSE && lines != []
    ensures forall i | 0 <= i < |lines| :: IsLine(lines[i]) && Marks(lines)[i] == PROSE
  {
    lines := ["---", "a", "--- ", "x"];
    LooseIsJoined();
    PlainLine("---");
    PlainLine("a");
    PlainLine("--- ");
    PlainLine("x");
  }

  /** A space after the closing `---` is enough: the parser has front matter, no
      schema is looked for, and all of the file is handed to the translator. */
  lemma LooseFenceIsTranslated(o: F.Oracle)
    ensures F.SplitFrontMatter(LOOSE).Some? && !KnownSchema(o, LOOSE)
    ensures SegmentsOf(o, LOOSE) == [Segment(LOOSE, true)]
  {
    LooseMatter(o);
    LooseIsNotExact();
    var lines := LooseLines();
    JoinedLines(lines);
    ProseDocument(o, LOOSE, lines);
  }

  // ---------------------------------------------------------------- implementation

  lemma MachineAfterSection(ms: seq<Mark>, k: nat)
    requires k < |ms| && StartsSection(ms, k)
    ensures InMachine(ms, k + 1) <==> ms[k].machine
  {
    assert NoSectionBetween(ms, k + 1, k + 1);
  }

  lemma MachineGoesOn(ms: seq<Mark>, k: nat)
    requires k < |ms| && !StartsSection(ms, k)
    ensures InMachine(ms, k + 1) <==> InMachine(ms, k)
  {
    if InMachine(ms, k) {
      var j :| 0 <= j < k && StartsSection(ms, j) && ms[j].machine && NoSectionBetween(ms, j + 1, k);
      assert NoSectionBetween(ms, j + 1, k + 1);
    }
    if InMachine(ms, k + 1) {
      var j :| 0 <= j < k + 1 && StartsSection(ms, j) && ms[j].machine && NoSectionBetween(ms, j + 1, k + 1);
      assert NoSectionBetween(ms, j + 1, k);
    }
  }

  /** One line: whether it may be translated, and the flags for the next one. */
  method ReadLine(line: string, inFence: bool, inMachine: bool)
    returns (translatable: bool, inFence': bool, inMachine': bool)
    ensures translatable <==> !(MarkOf(line).fence || inFence || MarkOf(line).heading || inMachine)
    ensures inFence' <==> inFence != MarkOf(line).fence
    ensures inMachine' <==>
            if !inFence && !MarkOf(line).fence && MarkOf(line).section then MarkOf(line).machine else inMachine
  {
    var trimmed := F.TrimStart(line);
    if "```" <= trimmed {
      return false, !inFence, inMachine;
    }
    if inFence {
      return false, true, inMachine;
    }
    if "## " <= trimmed {
      assert trimmed[0] == '#';
      return false, false, F.Trim(trimmed[3..]) in MACHINE_SECTIONS;
    }
    if trimmed != "" && trimmed[0] == '#' {
      return false, false, inMachine;
    }
    return !inMachine, false, inMachine;
  }

  lemma FlagsStep(ms: seq<Mark>, k: nat)
    requires k < |ms|
    ensures InFence(ms, k + 1) <==> InFence(ms, k) != ms[k].fence
    ensures InMachine(ms, k + 1) <==> if StartsSection(ms, k) then ms[k].machine else InMachine(ms, k)
  {
    if StartsSection(ms, k) {
      MachineAfterSection(ms, k);
    } else {
      MachineGoesOn(ms, k);
    }
  }

  /** One pass with two flags does what the definition of protected lines says. */
  method SegmentBody(body: string) returns (out: seq<Segment>)
    ensures var lines := LinesOf(body); out == Grouped(lines, Marks(lines), |lines|)
  {
    var lines := LinesOf(body);
    ghost var ms := Marks(lines);
    var inMachine, inFence := false, false;
    out := [];
    for k := 0 to |lines|
      invariant out == Grouped(lines, ms, k)
      invariant inFence == InFence(ms, k) && inMachine == InMachine(ms, k)
    {
      FlagsStep(ms, k);
      var translatable;
      translatable, inFence, inMachine := ReadLine(lines[k], inFence, inMachine);
      out := Push(out, lines[k], translatable);
    }
  }

  method SegmentDocument(o: F.Oracle, content: string) returns (out: seq<Segment>)
    ensures out == SegmentsOf(o, content)
  {
    var cut := SplitFront(content);
    if cut.front == "" {
      out := SegmentBody(cut.body);
    } else if !KnownSchema(o, content) {
      out := [Segment(content, false)];
    } else {
      var rest := SegmentBody(cut.body);
      out := [Segment(cut.front, false)] + rest;
    }
  }
}
