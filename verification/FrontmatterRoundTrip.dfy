/** Reading back what the serializer wrote. */
module FrontmatterRoundTrip {
  import opened Common
  import opened Frontmatter

  // ----------------------------------------------------------------- trimming

  lemma {:induction false} TrimStartShrinks(s: string)
    ensures |TrimStart(s)| <= |s|
    ensures |TrimStart(s)| == |s| ==> TrimStart(s) == s && (s != "" ==> !IsSpace(s[0]))
  {
    if s != "" && IsSpace(s[0]) {
      TrimStartShrinks(s[1..]);
    }
  }

  lemma {:induction false} TrimEndShrinks(s: string)
    ensures |TrimEnd(s)| <= |s|
    ensures |TrimEnd(s)| == |s| ==> TrimEnd(s) == s && (s != "" ==> !IsSpace(s[|s| - 1]))
  {
    if s != "" && IsSpace(s[|s| - 1]) {
      TrimEndShrinks(s[..|s| - 1]);
    }
  }

  predicate Tight(s: string) {
    s == "" || (!IsSpace(s[0]) && !IsSpace(s[|s| - 1]))
  }

  lemma TightIff(s: string)
    ensures Trim(s) == s <==> Tight(s)
  {
    TrimStartShrinks(s);
    TrimEndShrinks(TrimStart(s));
  }

  lemma {:induction false} SomethingStays(s: string, i: nat)
    requires i < |s| && !IsSpace(s[i])
    ensures !Blank(s)
  {
    if IsSpace(s[0]) {
      SomethingStays(s[1..], i - 1);
    } else {
      SomethingStaysAtEnd(s);
    }
  }

  lemma {:induction false} SomethingStaysAtEnd(s: string)
    requires s != "" && !IsSpace(s[0])
    ensures TrimEnd(s) != ""
  {
    if IsSpace(s[|s| - 1]) {
      SomethingStaysAtEnd(s[..|s| - 1]);
    }
  }

  lemma SpaceBefore(t: string)
    requires t != "" && Tight(t)
    ensures Trim(" " + t) == t
  {
    assert (" " + t)[1..] == t;
    TightIff(t);
  }

  // ------------------------------------------------------------------ numbers

  lemma {:induction false} DigitsRead(n: nat)
    ensures AllDigits(DigitsOf(n)) && Decimal(DigitsOf(n)) == n
  {
    var s := DigitsOf(n);
    if n < 10 {
      assert s[..0] == "";
      assert Decimal(s) == 10 * Decimal("") + DigitValue(s[0]);
    } else {
      DigitsRead(n / 10);
      assert s[..|s| - 1] == DigitsOf(n / 10);
    }
  }

  lemma IntegerReads(i: int)
    ensures PlainInteger(IntText(i)) && IntegerValue(IntText(i)) == i
  {
    if i < 0 {
      DigitsRead(-i);
      assert IntText(i)[1..] == DigitsOf(-i);
      assert !IsDigit(IntText(i)[0]);
    } else {
      DigitsRead(i);
    }
  }

  /** No sign without need, no leading zero. */
  lemma IntegerTextIsPlain(i: int)
    ensures var t := IntText(i); (t != "" && t[0] == '-') <==> i < 0
    ensures var digits := if i < 0 then IntText(i)[1..] else IntText(i);
            digits != "" && (digits[0] == '0' ==> digits == "0")
  {
    NoLeadingZero(if i < 0 then -i else i);
    if i < 0 {
      assert IntText(i)[1..] == DigitsOf(-i);
    }
  }

  lemma {:induction false} NoLeadingZero(n: nat)
    ensures var t := DigitsOf(n); t != "" && t[0] != '-' && (t[0] == '0' ==> n == 0 && t == "0")
  {
    if n >= 10 {
      NoLeadingZero(n / 10);
      assert DigitsOf(n)[0] == DigitsOf(n / 10)[0];
    }
  }

  // ------------------------------------------------------------------ scalars

  predicate PlainText(o: Oracle, s: string) {
    s != "true" && s != "false" && s != "null" && s != "~" && !Quoted(s) && Number(o, s).None?
  }

  /** A string that survives: not empty, on one line, and either free of `"` where
      it gets quoted or not mistaken for something else where it does not. */
  predicate SafeText(o: Oracle, s: string) {
    s != "" && '\n' !in s && if NeedsQuotes(s) then '"' !in s else PlainText(o, s)
  }

  predicate SafeScalar(o: Oracle, v: Value) {
    match v
    case Null => true
    case Bool(_) => true
    case Int(i) => -MAX_SAFE <= i <= MAX_SAFE
    case Str(s) => SafeText(o, s)
    case _ => false
  }

  /** What the rest of the parser needs to know about a written scalar. */
  predicate GoodText(t: string) {
    t != "" && Tight(t) && '\n' !in t && !LooksLikeMapping(t)
  }

  lemma {:induction false} NothingToEscape(s: string)
    requires '"' !in s
    ensures Escape(s) == s
  {
    if s != "" {
      NothingToEscape(s[1..]);
    }
  }

  lemma QuotedReads(o: Oracle, s: string)
    requires GoodOracle(o)
    ensures Scalar(o, "\"" + s + "\"") == Str(s)
    ensures '\n' !in s ==> GoodText("\"" + s + "\"")
  {
    var t := "\"" + s + "\"";
    assert t[0] == '"' && t[|t| - 1] == '"' && t[1..|t| - 1] == s;
    assert !PlainInteger(t);
    assert o.number(t).None?;
    var idx := Colon(t);
    assert idx > 0 && t[..idx][0] == '"';
  }

  lemma PlainReads(o: Oracle, s: string)
    requires s != "" && !NeedsQuotes(s)
    ensures PlainText(o, s) ==> Scalar(o, s) == Str(s)
    ensures GoodText(s)
  {
    TightIff(s);
    assert !Special(s[0]);
    assert forall i | 0 <= i < |s| :: !Special(s[i]);
  }

  /** When a string gets quoted: it holds a character that could be mistaken, or begins or
      ends with white space. */
  lemma NeedsQuotesIff(s: string)
    ensures NeedsQuotes(s) <==> (exists c :: c in s && c in ":#[]{},\n") || !Tight(s)
  {
    TightIff(s);
    assert forall c :: Special(c) <==> c in ":#[]{},\n";
  }

  /** The white space of Unicode. */
  lemma SpaceIs(c: char)
    ensures IsSpace(c) <==>
            || c in "\t\n\U{B}\U{C}\r \U{85}\U{A0}\U{1680}\U{2028}\U{2029}\U{202F}\U{205F}\U{3000}"
            || 0x2000 <= c as int < 0x200B
  {
  }

  /** Inline collections are read by their own reader, whatever they hold. */
  lemma InlineReads(o: Oracle, s: string)
    ensures Scalar(o, "[" + s + "]") == o.flow("[" + s + "]")
    ensures Scalar(o, "{" + s + "}") == o.flow("{" + s + "}")
  {
    var a, b := "[" + s + "]", "{" + s + "}";
    assert a[0] == '[' && a[|a| - 1] == ']' && b[0] == '{' && b[|b| - 1] == '}';
  }

  /** The words and numbers that are not strings; everything else is its own text, less
      one pair of quotes. */
  lemma ScalarIs(o: Oracle, s: string)
    requires s != "" && s[0] != '[' && s[0] != '{' && Number(o, s).None?
    ensures Scalar(o, s) ==
            if s == "true" then Bool(true)
            else if s == "false" then Bool(false)
            else if s == "null" || s == "~" then Null
            else if |s| >= 2 && s[0] == s[|s| - 1] && (s[0] == '"' || s[0] == '\'') then Str(s[1..|s| - 1])
            else Str(s)
  {
  }

  lemma IntegerTextIsGood(i: int)
    ensures GoodText(IntText(i))
  {
    IntegerReads(i);
    var t := IntText(i);
    assert forall k | 0 < k < |t| :: t[1..][k - 1] == t[k];
    assert forall k | 0 <= k < |t| :: IsDigit(t[k]) || t[k] == '-';
    assert !IsSpace(t[0]) && !IsSpace(t[|t| - 1]);
    assert Colon(t) == |t|;
  }

  lemma IntegerScalarReads(o: Oracle, i: int)
    requires -MAX_SAFE <= i <= MAX_SAFE
    ensures GoodText(IntText(i)) && Scalar(o, IntText(i)) == Int(i)
  {
    IntegerReads(i);
    IntegerTextIsGood(i);
    var t := IntText(i);
    assert IsDigit(t[0]) || t[0] == '-';
    assert t[0] != 't' && t[0] != 'f' && t[0] != 'n' && t[0] != '~' && t[0] != '[' && t[0] != '{';
  }

  lemma WordReads(o: Oracle)
    ensures GoodText("true") && GoodText("false") && GoodText("null")
  {
    LettersRead("true");
    LettersRead("false");
    LettersRead("null");
  }

  lemma LettersRead(s: string)
    requires s != "" && forall i | 0 <= i < |s| :: 'a' <= s[i] <= 'z'
    ensures GoodText(s)
  {
    NoMapping(s);
  }

  lemma NoMapping(s: string)
    requires ':' !in s
    ensures !LooksLikeMapping(s)
  {
  }

  lemma ScalarReads(o: Oracle, v: Value)
    requires GoodOracle(o) && SafeScalar(o, v)
    ensures GoodText(ScalarText(o, v)) && Scalar(o, ScalarText(o, v)) == v
  {
    match v {
      case Str(s) =>
        if NeedsQuotes(s) {
          NothingToEscape(s);
          QuotedReads(o, s);
        } else {
          PlainReads(o, s);
        }
      case Int(i) =>
        IntegerScalarReads(o, i);
      case _ =>
        WordReads(o);
    }
  }

  // ---------------------------------------------------------- lines of a block

  predicate SafeKey(k: string) {
    && Tight(k) && ':' !in k && '\n' !in k
    && !Prefixed(k, '#') && !(|k| >= 2 && k[0] == '-' && k[1] == ' ')
  }

  predicate SafeValue(o: Oracle, v: Value) {
    match v
    case Arr(items) => items != [] && forall i | 0 <= i < |items| :: SafeScalar(o, items[i])
    case Obj(es) => es != [] && SafeEntries(o, es)
    case _ => SafeScalar(o, v)
  }

  predicate HasKey(es: seq<Entry>, k: string) {
    exists i | 0 <= i < |es| :: es[i].key == k
  }

  /** Distinct safe keys, every leaf safe, nothing empty below the top. */
  predicate SafeEntries(o: Oracle, es: seq<Entry>) {
    es == [] ||
    (SafeKey(es[0].key) && SafeValue(o, es[0].value) && !HasKey(es[1..], es[0].key) && SafeEntries(o, es[1..]))
  }

  function EntryLines(o: Oracle, e: Entry, level: nat): seq<string>
    decreases e, 0
  {
    match e.value
    case Null => [Pad(level) + e.key + ":"]
    case Arr(items) => [Pad(level) + e.key + ":"] + ItemLines(o, items, level)
    case Obj(es) => [Pad(level) + e.key + ":"] + Lines(o, es, level + 1)
    case _ => [Pad(level) + e.key + ": " + ScalarText(o, e.value)]
  }

  /** The serialized text line by line. */
  function Lines(o: Oracle, es: seq<Entry>, level: nat): seq<string>
    decreases es, 1
  {
    if es == [] then [] else EntryLines(o, es[0], level) + Lines(o, es[1..], level)
  }

  predicate GoodLine(l: string) {
    !Blank(l) && '\n' !in l && StripCr(l) == l
  }

  predicate GoodLines(ls: seq<string>) {
    forall i | 0 <= i < |ls| :: GoodLine(ls[i])
  }

  lemma KeyLineStarts(k: string, tail: string)
    requires SafeKey(k) && (tail == "" || tail[0] == ' ')
    ensures var l := k + ":" + tail;
            && Indent(l) == 0 && Colon(l) == |k| && !IsDash(l) && TrimStart(l) == l && !Prefixed(l, '#')
            && Trim(l[..|k|]) == k && l[|k| + 1..] == tail
  {
    var l := k + ":" + tail;
    ColonAfter(k, tail);
    assert l[..|k|] == k && l[|k| + 1..] == tail;
    TightIff(k);
    assert l[0] == if k == "" then ':' else k[0];
  }

  lemma {:induction false} ColonAfter(k: string, tail: string)
    requires ':' !in k
    ensures Colon(k + ":" + tail) == |k|
  {
    if k == "" {
      assert ("" + ":" + tail)[0] == ':';
    } else {
      assert (k + ":" + tail)[1..] == k[1..] + ":" + tail;
      ColonAfter(k[1..], tail);
    }
  }

  lemma SpaceStep(l: string)
    ensures Indent(" " + l) == 1 + Indent(l) && TrimStart(" " + l) == TrimStart(l)
  {
    assert (" " + l)[1..] == l;
  }

  lemma TwoSpaces(l: string)
    ensures Indent("  " + l) == 2 + Indent(l) && TrimStart("  " + l) == TrimStart(l)
  {
    SpaceStep(l);
    SpaceStep(" " + l);
    assert " " + (" " + l) == "  " + l;
  }

  lemma ItemLineReads(t: string)
    requires GoodText(t)
    ensures var l := "  - " + t;
            GoodLine(l) && Indent(l) == 2 && StartsItem(l, 2) && ItemText(l) == t && IsDash(TrimStart(l))
  {
    DashReads(t);
    TwoSpaces("- " + t);
    assert "  " + ("- " + t) == "  - " + t;
    LineIsGood("  - ", 2, t);
  }

  lemma LineIsGood(before: string, i: nat, t: string)
    requires i < |before| && !IsSpace(before[i]) && '\n' !in before && '\n' !in t
    requires if t == "" then before[|before| - 1] != '\r' else Tight(t)
    ensures GoodLine(before + t)
  {
    var l := before + t;
    SomethingStays(l, i);
    if t != "" {
      assert l[|l| - 1] == t[|t| - 1];
    }
  }

  lemma DashReads(t: string)
    requires t != "" && Tight(t)
    ensures TrimStart("- " + t) == "- " + t && IsDash("- " + t) && Indent("- " + t) == 0
    ensures Trim(Drop("- " + t, 1)) == t
  {
    assert ("- " + t)[1..] == " " + t;
    SpaceBefore(t);
  }

  lemma ShiftedLine(l: string)
    requires GoodLine(l)
    ensures GoodLine("  " + l) && Deep("  " + l) && Indent("  " + l) == 2 + Indent(l) && Drop("  " + l, 2) == l
    ensures TrimStart("  " + l) == TrimStart(l)
  {
    var m := "  " + l;
    TwoSpaces(l);
    assert m[2..] == l && m[|m| - 1] == l[|l| - 1];
  }

  /** The same lines two spaces further in. */
  predicate TwoFurther(own: seq<string>, below: seq<string>) {
    |below| == |own| && forall i | 0 <= i < |own| :: below[i] == "  " + own[i]
  }

  lemma {:induction false} LinesShift(o: Oracle, es: seq<Entry>, level: nat)
    ensures TwoFurther(Lines(o, es, level), Lines(o, es, level + 1))
    decreases es, 1
  {
    if es != [] {
      EntryLinesShift(o, es[0], level);
      LinesShift(o, es[1..], level);
    }
  }

  lemma PadShifts(level: nat, rest: string)
    ensures Pad(level + 1) + rest == "  " + (Pad(level) + rest)
  {
  }

  lemma {:induction false} EntryLinesShift(o: Oracle, e: Entry, level: nat)
    ensures TwoFurther(EntryLines(o, e, level), EntryLines(o, e, level + 1))
    decreases e, 0
  {
    PadShifts(level, e.key + ":");
    match e.value {
      case Obj(es) =>
        LinesShift(o, es, level + 1);
      case Arr(items) =>
        ItemLinesShift(o, items, level);
      case Null =>
      case _ =>
        PadShifts(level, e.key + ": " + ScalarText(o, e.value));
        assert EntryLines(o, e, level) == [Pad(level) + e.key + ": " + ScalarText(o, e.value)];
        assert EntryLines(o, e, level + 1) == [Pad(level + 1) + e.key + ": " + ScalarText(o, e.value)];
    }
  }

  lemma ItemLinesShift(o: Oracle, items: seq<Value>, level: nat)
    ensures forall i | 0 <= i < |items| :: ItemLines(o, items, level + 1)[i] == "  " + ItemLines(o, items, level)[i]
  {
    forall i | 0 <= i < |items|
      ensures ItemLines(o, items, level + 1)[i] == "  " + ItemLines(o, items, level)[i]
    {
      PadShifts(level, "  - " + ScalarText(o, items[i]));
    }
  }

  /** The first line is that of a key, `n` spaces in. */
  predicate StartsAt(lines: seq<string>, n: nat) {
    lines != [] && Indent(lines[0]) == n && !IsDash(TrimStart(lines[0]))
  }

  lemma {:induction false} LinesAreGood(o: Oracle, es: seq<Entry>)
    requires GoodOracle(o) && SafeEntries(o, es)
    ensures GoodLines(Lines(o, es, 0))
    ensures es != [] ==> StartsAt(Lines(o, es, 0), 0)
    decreases es, 1
  {
    if es != [] {
      EntryLinesAreGood(o, es[0]);
      LinesAreGood(o, es[1..]);
    }
  }

  /** What stands below the key, seen from the key. */
  function Below(o: Oracle, v: Value): seq<string> {
    match v
    case Arr(items) => ItemLines(o, items, 0)
    case Obj(es) => Lines(o, es, 1)
    case _ => []
  }

  function KeyLine(o: Oracle, e: Entry): string {
    if e.value.Null? || e.value.Arr? || e.value.Obj? then e.key + ":" else e.key + ": " + ScalarText(o, e.value)
  }

  lemma EntryLinesSplit(o: Oracle, e: Entry)
    ensures EntryLines(o, e, 0) == [KeyLine(o, e)] + Below(o, e.value)
  {
    assert Pad(0) + e.key == e.key;
  }

  /** `l` is a line for `key` with `raw` behind the colon. */
  predicate IsKeyLine(l: string, key: string, raw: string) {
    && !Skipped(l) && Indent(l) == 0 && GoodLine(l) && !IsDash(l) && TrimStart(l) == l
    && Colon(l) == |key| < |l| && Trim(l[..|key|]) == key && Trim(l[|key| + 1..]) == raw
  }

  lemma BareKeyLine(key: string)
    requires SafeKey(key)
    ensures IsKeyLine(key + ":", key, "")
  {
    assert key + ":" + "" == key + ":";
    KeyLineStarts(key, "");
    LineIsGood(key + ":", |key|, "");
  }

  lemma FullKeyLine(key: string, t: string)
    requires SafeKey(key) && t != "" && Tight(t) && '\n' !in t
    ensures IsKeyLine(key + ": " + t, key, t)
  {
    assert key + ":" + (" " + t) == key + ": " + t;
    KeyLineStarts(key, " " + t);
    SpaceBefore(t);
    LineIsGood(key + ": ", |key|, t);
  }

  lemma KeyLineIsGood(o: Oracle, e: Entry)
    requires GoodOracle(o) && SafeKey(e.key) && SafeValue(o, e.value)
    ensures IsKeyLine(KeyLine(o, e), e.key,
                      if e.value.Null? || e.value.Arr? || e.value.Obj? then "" else ScalarText(o, e.value))
  {
    if e.value.Null? || e.value.Arr? || e.value.Obj? {
      BareKeyLine(e.key);
    } else {
      ScalarReads(o, e.value);
      FullKeyLine(e.key, ScalarText(o, e.value));
    }
  }

  lemma {:induction false} EntryLinesAreGood(o: Oracle, e: Entry)
    requires GoodOracle(o) && SafeKey(e.key) && SafeValue(o, e.value)
    ensures GoodLines(EntryLines(o, e, 0))
    ensures Indent(EntryLines(o, e, 0)[0]) == 0 && !IsDash(TrimStart(EntryLines(o, e, 0)[0]))
    decreases e, 0
  {
    EntryLinesSplit(o, e);
    KeyLineIsGood(o, e);
    BelowIsGood(o, e.value);
  }

  lemma {:induction false} BelowIsGood(o: Oracle, v: Value)
    requires GoodOracle(o) && SafeValue(o, v)
    ensures GoodLines(Below(o, v)) && forall i | 0 <= i < |Below(o, v)| :: Deep(Below(o, v)[i])
    ensures Below(o, v) != [] ==> !Blank(Below(o, v)[0])
    decreases v, 3
  {
    match v {
      case Arr(items) => ItemLinesRead(o, items);
      case Obj(es) => BelowObject(o, es);
      case _ =>
    }
  }

  lemma ItemLinesRead(o: Oracle, items: seq<Value>)
    requires GoodOracle(o) && forall i | 0 <= i < |items| :: SafeScalar(o, items[i])
    ensures forall i | 0 <= i < |items| ::
              var l := ItemLines(o, items, 0)[i];
              && GoodLine(l) && Indent(l) == 2 && Deep(l) && StartsItem(l, 2) && IsDash(TrimStart(l))
              && ItemText(l) == ScalarText(o, items[i])
  {
    forall i | 0 <= i < |items|
      ensures var l := ItemLines(o, items, 0)[i];
              && GoodLine(l) && Indent(l) == 2 && Deep(l) && StartsItem(l, 2) && IsDash(TrimStart(l))
              && ItemText(l) == ScalarText(o, items[i])
    {
      ScalarReads(o, items[i]);
      ItemLineReads(ScalarText(o, items[i]));
      assert Pad(0) + "  - " == "  - ";
    }
  }

  predicate IsShifted(own: seq<string>, below: seq<string>) {
    && GoodLines(below) && Dedent(below, 2) == own && StripAll(own) == own
    && forall i | 0 <= i < |below| :: Deep(below[i])
  }

  lemma ShiftedLines(own: seq<string>, below: seq<string>)
    requires GoodLines(own) && TwoFurther(own, below)
    ensures IsShifted(own, below)
    ensures StartsAt(own, 0) ==> StartsAt(below, 2)
  {
    forall i | 0 <= i < |below|
      ensures GoodLine(below[i]) && Deep(below[i]) && Drop(below[i], 2) == own[i]
      ensures TrimStart(below[i]) == TrimStart(own[i]) && Indent(below[i]) == 2 + Indent(own[i])
    {
      ShiftedLine(own[i]);
    }
  }

  /** A nested object is its own lines, two spaces further in. */
  lemma {:induction false} BelowObject(o: Oracle, es: seq<Entry>)
    requires GoodOracle(o) && SafeEntries(o, es)
    ensures IsShifted(Lines(o, es, 0), Lines(o, es, 1))
    ensures es != [] ==> StartsAt(Lines(o, es, 1), 2)
    decreases es, 2
  {
    LinesAreGood(o, es);
    LinesShift(o, es, 0);
    ShiftedLines(Lines(o, es, 0), Lines(o, es, 1));
  }

  // ------------------------------------------------------------ reading a block

  lemma {:induction false} BlockEnds(block: seq<string>, after: seq<string>)
    requires forall i | 0 <= i < |block| :: Deep(block[i])
    requires after == [] || !Deep(after[0])
    ensures BlockSize(block + after) == |block|
  {
    if block == [] {
      assert block + after == after;
    } else {
      assert (block + after)[1..] == block[1..] + after;
      BlockEnds(block[1..], after);
    }
  }

  lemma {:induction false} NothingBlank(lines: seq<string>)
    requires GoodLines(lines)
    ensures NonBlank(lines) == lines
  {
    if lines != [] {
      NothingBlank(lines[1..]);
    }
  }

  lemma {:induction false} OneGroupEach(lines: seq<string>, indent: nat)
    requires forall i | 0 <= i < |lines| :: StartsItem(lines[i], indent)
    ensures |Groups(lines, indent)| == |lines|
    ensures forall i | 0 <= i < |lines| :: Groups(lines, indent)[i] == [ItemText(lines[i])]
  {
    if lines != [] {
      OneGroupEach(lines[..|lines| - 1], indent);
    }
  }

  lemma {:induction false} ItemsRead(o: Oracle, gs: seq<seq<string>>, bound: nat, items: seq<Value>)
    requires |gs| == |items| && bound >= 1
    requires forall i | 0 <= i < |gs| :: gs[i] == [ScalarText(o, items[i])]
    requires GoodOracle(o) && forall i | 0 <= i < |items| :: SafeScalar(o, items[i])
    ensures FinishAll(o, gs, bound) == items
  {
    if gs != [] {
      var last := |gs| - 1;
      ScalarReads(o, items[last]);
      assert FinishItem(o, gs[last]) == items[last];
      ItemsRead(o, gs[..last], bound, items[..last]);
    }
  }

  lemma ListReads(o: Oracle, items: seq<Value>)
    requires GoodOracle(o) && items != [] && forall i | 0 <= i < |items| :: SafeScalar(o, items[i])
    ensures Block(o, ItemLines(o, items, 0)) == Arr(items)
  {
    var block := ItemLines(o, items, 0);
    ItemLinesRead(o, items);
    NothingBlank(block);
    OneGroupEach(block, 2);
    ItemsRead(o, Groups(block, 2), |block|, items);
  }

  lemma {:induction false} InsertsAtEnd(es: seq<Entry>, key: string, v: Value)
    requires !HasKey(es, key)
    ensures Insert(es, key, v) == es + [Entry(key, v)]
  {
    if es != [] {
      assert forall i | 0 <= i < |es[1..]| :: es[1..][i] == es[i + 1];
      InsertsAtEnd(es[1..], key, v);
    }
  }

  /** A key that comes again replaces the value and stays where it was. */
  lemma {:induction false} InsertsInPlace(es: seq<Entry>, i: nat, v: Value)
    requires i < |es| && forall j | 0 <= j < i :: es[j].key != es[i].key
    ensures Insert(es, es[i].key, v) == es[i := Entry(es[i].key, v)]
  {
    if i > 0 {
      InsertsInPlace(es[1..], i - 1, v);
      assert es[i := Entry(es[i].key, v)] == [es[0]] + es[1..][i - 1 := Entry(es[i].key, v)];
    } else {
      assert es[0 := Entry(es[0].key, v)] == [Entry(es[0].key, v)] + es[1..];
    }
  }

  predicate Apart(acc: seq<Entry>, es: seq<Entry>) {
    forall i | 0 <= i < |es| :: !HasKey(acc, es[i].key)
  }

  lemma ApartMoves(acc: seq<Entry>, es: seq<Entry>)
    requires es != [] && Apart(acc, es) && !HasKey(es[1..], es[0].key)
    ensures Apart(acc + [es[0]], es[1..]) && !HasKey(acc, es[0].key)
  {
    forall i | 0 <= i < |es[1..]|
      ensures !HasKey(acc + [es[0]], es[1..][i].key)
    {
      assert !HasKey(acc, es[i + 1].key);
    }
  }

  predicate IsBlock(below: seq<string>) {
    && below != [] && !Blank(below[0]) && Indent(below[0]) > 0
    && forall i | 0 <= i < |below| :: Deep(below[i])
  }

  /** One step of the parser: a key with a value on its line. */
  lemma LeafStep(o: Oracle, line: string, after: seq<string>, acc: seq<Entry>)
    requires !Skipped(line) && Trim(line[Colon(line) + 1..]) != ""
    ensures ParseLines(o, [line] + after, acc)
            == ParseLines(o, after, Insert(acc, Trim(line[..Colon(line)]), Scalar(o, Trim(line[Colon(line) + 1..]))))
  {
    assert ([line] + after)[1..] == after;
  }

  lemma NullStep(o: Oracle, line: string, after: seq<string>, acc: seq<Entry>)
    requires !Skipped(line) && Trim(line[Colon(line) + 1..]) == ""
    requires after == [] || Indent(after[0]) == 0
    ensures ParseLines(o, [line] + after, acc) == ParseLines(o, after, Insert(acc, Trim(line[..Colon(line)]), Null))
  {
    assert ([line] + after)[1..] == after;
  }

  /** One step of the parser: a key with a block below it. */
  lemma BlockStep(o: Oracle, line: string, below: seq<string>, after: seq<string>, acc: seq<Entry>)
    requires !Skipped(line) && Trim(line[Colon(line) + 1..]) == ""
    requires IsBlock(below)
    requires after == [] || !Deep(after[0])
    ensures ParseLines(o, [line] + below + after, acc)
            == ParseLines(o, after, Insert(acc, Trim(line[..Colon(line)]), Block(o, below)))
  {
    BlockEnds(below, after);
    BlockTaken(o, line, below + after, acc);
    Cut(below, after);
    assert [line] + (below + after) == [line] + below + after;
  }

  lemma BlockTaken(o: Oracle, line: string, rest: seq<string>, acc: seq<Entry>)
    requires !Skipped(line) && Trim(line[Colon(line) + 1..]) == ""
    requires rest != [] && !Blank(rest[0]) && Indent(rest[0]) > 0
    ensures BlockSize(rest) > 0
    ensures ParseLines(o, [line] + rest, acc)
            == ParseLines(o, rest[BlockSize(rest)..],
                          Insert(acc, Trim(line[..Colon(line)]), Block(o, rest[..BlockSize(rest)])))
  {
    BlockStarts(rest);
    var lines := [line] + rest;
    assert lines[0] == line && lines[1..] == rest;
  }

  lemma BlockStarts(rest: seq<string>)
    requires rest != [] && !Blank(rest[0]) && Indent(rest[0]) > 0
    ensures BlockSize(rest) > 0
  {
  }

  lemma Cut(a: seq<string>, b: seq<string>)
    ensures (a + b)[..|a|] == a && (a + b)[|a|..] == b
  {
  }

  lemma {:induction false} EntryReads(o: Oracle, e: Entry, after: seq<string>, acc: seq<Entry>)
    requires GoodOracle(o) && SafeKey(e.key) && SafeValue(o, e.value) && !HasKey(acc, e.key)
    requires after == [] || !Deep(after[0])
    ensures ParseLines(o, EntryLines(o, e, 0) + after, acc) == ParseLines(o, after, acc + [e])
    decreases e, 4
  {
    EntryLinesSplit(o, e);
    InsertsAtEnd(acc, e.key, e.value);
    if e.value.Arr? || e.value.Obj? {
      BlockReads(o, e.value);
      NodeReads(o, e, after, acc);
    } else {
      LeafReads(o, e, after, acc);
    }
  }

  lemma NodeReads(o: Oracle, e: Entry, after: seq<string>, acc: seq<Entry>)
    requires GoodOracle(o) && SafeKey(e.key) && SafeValue(o, e.value) && (e.value.Arr? || e.value.Obj?)
    requires IsBlock(Below(o, e.value)) && Block(o, Below(o, e.value)) == e.value
    requires after == [] || !Deep(after[0])
    ensures ParseLines(o, [KeyLine(o, e)] + Below(o, e.value) + after, acc)
            == ParseLines(o, after, Insert(acc, e.key, e.value))
  {
    KeyLineIsGood(o, e);
    BlockStep(o, KeyLine(o, e), Below(o, e.value), after, acc);
  }

  lemma KeyLineLeaf(o: Oracle, line: string, key: string, raw: string, after: seq<string>, acc: seq<Entry>)
    requires IsKeyLine(line, key, raw) && raw != ""
    ensures ParseLines(o, [line] + after, acc) == ParseLines(o, after, Insert(acc, key, Scalar(o, raw)))
  {
    LeafStep(o, line, after, acc);
  }

  lemma KeyLineNull(o: Oracle, line: string, key: string, after: seq<string>, acc: seq<Entry>)
    requires IsKeyLine(line, key, "") && (after == [] || !Deep(after[0]))
    ensures ParseLines(o, [line] + after, acc) == ParseLines(o, after, Insert(acc, key, Null))
  {
    NullStep(o, line, after, acc);
  }

  lemma LeafReads(o: Oracle, e: Entry, after: seq<string>, acc: seq<Entry>)
    requires GoodOracle(o) && SafeKey(e.key) && SafeScalar(o, e.value)
    requires after == [] || !Deep(after[0])
    ensures ParseLines(o, [KeyLine(o, e)] + Below(o, e.value) + after, acc)
            == ParseLines(o, after, Insert(acc, e.key, e.value))
  {
    assert [KeyLine(o, e)] + Below(o, e.value) == [KeyLine(o, e)];
    if e.value.Null? {
      BareKeyLine(e.key);
      KeyLineNull(o, KeyLine(o, e), e.key, after, acc);
    } else {
      ScalarReads(o, e.value);
      FullKeyLine(e.key, ScalarText(o, e.value));
      KeyLineLeaf(o, KeyLine(o, e), e.key, ScalarText(o, e.value), after, acc);
    }
  }

  /** Of two lines with the same key the later one counts. */
  lemma LaterKeyCounts(o: Oracle, key: string, a: Value, b: Value, after: seq<string>, acc: seq<Entry>)
    requires GoodOracle(o) && SafeKey(key) && !HasKey(acc, key)
    requires SafeScalar(o, a) && SafeScalar(o, b)
    ensures ParseLines(o, [key + ": " + ScalarText(o, a)] + ([key + ": " + ScalarText(o, b)] + after), acc)
            == ParseLines(o, after, acc + [Entry(key, b)])
  {
    var once := acc + [Entry(key, a)];
    ScalarLineReads(o, key, a, [key + ": " + ScalarText(o, b)] + after, acc);
    InsertsAtEnd(acc, key, a);
    ScalarLineReads(o, key, b, after, once);
    assert forall j | 0 <= j < |acc| :: once[j] == acc[j];
    InsertsInPlace(once, |acc|, b);
    assert once[|acc| := Entry(key, b)] == acc + [Entry(key, b)];
  }

  lemma ScalarLineReads(o: Oracle, key: string, v: Value, after: seq<string>, acc: seq<Entry>)
    requires GoodOracle(o) && SafeKey(key) && SafeScalar(o, v)
    ensures ParseLines(o, [key + ": " + ScalarText(o, v)] + after, acc) == ParseLines(o, after, Insert(acc, key, v))
  {
    ScalarReads(o, v);
    FullKeyLine(key, ScalarText(o, v));
    KeyLineLeaf(o, key + ": " + ScalarText(o, v), key, ScalarText(o, v), after, acc);
  }

  lemma {:induction false} BlockReads(o: Oracle, v: Value)
    requires GoodOracle(o) && SafeValue(o, v) && (v.Arr? || v.Obj?)
    ensures IsBlock(Below(o, v)) && Block(o, Below(o, v)) == v
    decreases v, 5
  {
    BelowIsGood(o, v);
    match v {
      case Arr(items) =>
        ItemLinesRead(o, items);
        ListReads(o, items);
      case Obj(es) =>
        BelowObject(o, es);
        NothingBlank(Lines(o, es, 1));
        ReadsBack(o, es, []);
    }
  }

  lemma FirstLineEndsBlock(o: Oracle, es: seq<Entry>)
    requires GoodOracle(o) && SafeEntries(o, es)
    ensures Lines(o, es, 0) == [] || !Deep(Lines(o, es, 0)[0])
  {
    LinesAreGood(o, es);
  }

  lemma Regroup(acc: seq<Entry>, es: seq<Entry>)
    requires es != []
    ensures acc + [es[0]] + es[1..] == acc + es
  {
  }

  /** The parser reads the lines of an object as that object. */
  lemma {:induction false} ReadsBack(o: Oracle, es: seq<Entry>, acc: seq<Entry>)
    requires GoodOracle(o) && SafeEntries(o, es) && Apart(acc, es)
    ensures ParseLines(o, Lines(o, es, 0), acc) == acc + es
    decreases es, 4
  {
    if es == [] {
      assert acc + es == acc;
    } else {
      ApartMoves(acc, es);
      FirstLineEndsBlock(o, es[1..]);
      EntryReads(o, es[0], Lines(o, es[1..], 0), acc);
      ReadsBack(o, es[1..], acc + [es[0]]);
      Regroup(acc, es);
    }
  }

  // ------------------------------------------------------------- text and lines

  lemma {:induction false} SplitFirst(l: string, rest: string)
    requires '\n' !in l
    ensures Split(l) == [l]
    ensures Split(l + "\n" + rest) == [l] + Split(rest)
  {
    if l == "" {
      assert (l + "\n" + rest)[1..] == rest;
    } else {
      SplitFirst(l[1..], rest);
      assert (l + "\n" + rest)[1..] == l[1..] + "\n" + rest;
      assert l == [l[0]] + l[1..];
    }
  }

  lemma {:induction false} SplitJoin(lines: seq<string>)
    requires lines != [] && forall i | 0 <= i < |lines| :: '\n' !in lines[i]
    ensures Split(Join(lines)) == lines
  {
    SplitFirst(lines[0], Join(lines[1..]));
    if |lines| > 1 {
      SplitJoin(lines[1..]);
    }
  }

  lemma {:induction false} JoinAppend(a: seq<string>, b: seq<string>)
    requires a != [] && b != []
    ensures Join(a + b) == Join(a) + "\n" + Join(b)
  {
    if |a| == 1 {
      assert (a + b)[1..] == b;
    } else {
      assert (a + b)[1..] == a[1..] + b;
      JoinAppend(a[1..], b);
    }
  }

  lemma {:induction false} SerializedLines(o: Oracle, es: seq<Entry>, level: nat)
    requires SafeEntries(o, es)
    ensures Serialize(o, es, level) == Join(Lines(o, es, level))
    ensures es != [] ==> Lines(o, es, level) != [] && AllPieces(o, es, level) != []
    decreases es, 2
  {
    if es != [] {
      PiecesAreLines(o, es[0], level);
      SerializedLines(o, es[1..], level);
      if es[1..] == [] {
        assert AllPieces(o, es, level) == Pieces(o, es[0], level);
        assert Lines(o, es, level) == EntryLines(o, es[0], level);
      } else {
        JoinAppend(Pieces(o, es[0], level), AllPieces(o, es[1..], level));
        JoinAppend(EntryLines(o, es[0], level), Lines(o, es[1..], level));
      }
    }
  }

  lemma {:induction false} PiecesAreLines(o: Oracle, e: Entry, level: nat)
    requires SafeValue(o, e.value)
    ensures Pieces(o, e, level) != [] && EntryLines(o, e, level) != []
    ensures Join(Pieces(o, e, level)) == Join(EntryLines(o, e, level))
    decreases e, 1
  {
    if e.value.Obj? {
      var es := e.value.entries;
      var head := [Pad(level) + e.key + ":"];
      SerializedLines(o, es, level + 1);
      JoinAppend(head, [Serialize(o, es, level + 1)]);
      JoinAppend(head, Lines(o, es, level + 1));
      assert Pieces(o, e, level) == head + [Serialize(o, es, level + 1)];
    }
  }

  lemma NothingReads(o: Oracle)
    ensures Parse(o, Serialize(o, [], 0)) == Obj([])
  {
    assert Serialize(o, [], 0) == "";
    assert StripAll([""]) == [""] && Skipped("");
  }

  lemma ParseJoined(o: Oracle, lines: seq<string>, es: seq<Entry>)
    requires lines != [] && GoodLines(lines) && ParseLines(o, lines, []) == es
    ensures Parse(o, Join(lines)) == Obj(es)
  {
    SplitJoin(lines);
    assert StripAll(lines) == lines;
  }

  lemma SomethingReads(o: Oracle, es: seq<Entry>)
    requires GoodOracle(o) && es != [] && SafeEntries(o, es)
    ensures Parse(o, Join(Lines(o, es, 0))) == Obj(es)
  {
    LinesAreGood(o, es);
    ReadsBack(o, es, []);
    ParseJoined(o, Lines(o, es, 0), es);
  }

  /** Reading back a written object gives the object. */
  lemma ParseSerialize(o: Oracle, es: seq<Entry>)
    requires GoodOracle(o) && SafeEntries(o, es)
    ensures Parse(o, Serialize(o, es, 0)) == Obj(es)
  {
    if es == [] {
      NothingReads(o);
    } else {
      SerializedLines(o, es, 0);
      SomethingReads(o, es);
    }
  }

  // ------------------------------------------------------ which strings survive

  predicate OneLine(v: Value) {
    v.Str? ==> '\n' !in v.s
  }

  predicate OneLiners(es: seq<Entry>) {
    forall i | 0 <= i < |es| :: OneLine(es[i].value)
  }

  lemma {:induction false} TrimKeepsToOneLine(s: string)
    requires '\n' !in s
    ensures '\n' !in TrimStart(s) && '\n' !in TrimEnd(s)
  {
    if s != "" {
      TrimKeepsToOneLine(s[1..]);
      TrimKeepsToOneLine(s[..|s| - 1]);
    }
  }

  lemma {:induction false} InsertKeepsOneLiners(es: seq<Entry>, key: string, v: Value)
    requires OneLiners(es) && OneLine(v)
    ensures OneLiners(Insert(es, key, v))
  {
    if es != [] && es[0].key != key {
      InsertKeepsOneLiners(es[1..], key, v);
    }
  }

  lemma ScalarIsOneLine(o: Oracle, s: string)
    requires GoodOracle(o) && '\n' !in s
    ensures OneLine(Scalar(o, Trim(s)))
  {
    TrimKeepsToOneLine(s);
    TrimKeepsToOneLine(TrimStart(s));
  }

  lemma {:induction false} LinesGiveOneLiners(o: Oracle, lines: seq<string>, acc: seq<Entry>)
    requires GoodOracle(o) && OneLiners(acc) && forall i | 0 <= i < |lines| :: '\n' !in lines[i]
    ensures OneLiners(ParseLines(o, lines, acc))
    decreases |lines|
  {
    if lines != [] {
      if Skipped(lines[0]) {
        LinesGiveOneLiners(o, lines[1..], acc);
      } else {
        var raw, rest := RawOf(lines[0]), lines[1..];
        ScalarIsOneLine(o, lines[0][Colon(lines[0]) + 1..]);
        InsertKeepsOneLiners(acc, KeyOf(lines[0]), Given(o, raw, rest));
        OneStep(o, lines, acc);
        LinesGiveOneLiners(o, rest[Taken(raw, rest)..], Insert(acc, KeyOf(lines[0]), Given(o, raw, rest)));
      }
    }
  }

  lemma NewlinesAreLost(o: Oracle, text: string, k: string, s: string)
    requires GoodOracle(o) && '\n' in s
    ensures Parse(o, text) != Obj([Entry(k, Str(s))])
  {
    LinesGiveOneLiners(o, StripAll(Split(text)), []);
    var es := Parse(o, text).entries;
    assert es != [] ==> OneLine(es[0].value);
  }

  lemma OneLineReads(o: Oracle, k: string, t: string)
    requires SafeKey(k) && t != "" && Tight(t) && '\n' !in t
    ensures Parse(o, k + ": " + t) == Obj([Entry(k, Scalar(o, t))])
  {
    var line := k + ": " + t;
    FullKeyLine(k, t);
    SplitFirst(line, "");
    assert StripAll([line]) == [line] + [];
    LeafStep(o, line, [], []);
  }

  lemma EmptyLineReads(k: string)
    requires SafeKey(k)
    ensures var l := k + ": ";
            !Skipped(l) && Colon(l) == |k| && Trim(l[..|k|]) == k && Trim(l[|k| + 1..]) == "" && '\n' !in l
  {
    assert k + ":" + " " == k + ": ";
    KeyLineStarts(k, " ");
    SomethingStays(k + ": ", |k|);
    OneSpace();
  }

  lemma OneSpace()
    ensures Trim(" ") == ""
  {
    assert " "[1..] == "";
  }

  lemma EmptyReads(o: Oracle, k: string)
    requires SafeKey(k)
    ensures Parse(o, k + ": ") == Obj([Entry(k, Null)])
  {
    var line := k + ": ";
    EmptyLineReads(k);
    SplitFirst(line, "");
    assert StripAll([line]) == [line] + [];
    NullStep(o, line, [], []);
  }

  lemma {:induction false} EscapeGrows(s: string)
    ensures |Escape(s)| >= |s| && ('"' in s ==> |Escape(s)| > |s|)
    ensures '\n' !in s ==> '\n' !in Escape(s)
  {
    if s != "" {
      EscapeGrows(s[1..]);
    }
  }

  lemma MistakenScalar(o: Oracle, s: string)
    requires GoodOracle(o)
    ensures Scalar(o, s) == Str(s) ==> PlainText(o, s)
  {
  }

  lemma SerializeOne(o: Oracle, k: string, s: string)
    ensures Serialize(o, [Entry(k, Str(s))], 0) == k + ": " + ScalarText(o, Str(s))
  {
    var e := Entry(k, Str(s));
    assert AllPieces(o, [e], 0) == Pieces(o, e, 0) + AllPieces(o, [], 0) == Pieces(o, e, 0);
    assert Pad(0) + k == k;
  }

  /** Exactly the safe strings come back as they were written. */
  lemma StringSurvivesIff(o: Oracle, k: string, s: string)
    requires GoodOracle(o) && SafeKey(k)
    ensures Parse(o, Serialize(o, [Entry(k, Str(s))], 0)) == Obj([Entry(k, Str(s))]) <==> SafeText(o, s)
  {
    SerializeOne(o, k, s);
    var t := ScalarText(o, Str(s));
    if '\n' in s {
      NewlinesAreLost(o, k + ": " + t, k, s);
    } else if NeedsQuotes(s) {
      EscapeGrows(s);
      QuotedReads(o, Escape(s));
      OneLineReads(o, k, t);
      if '"' !in s {
        NothingToEscape(s);
      }
    } else if s == "" {
      assert k + ": " + t == k + ": ";
      EmptyReads(o, k);
    } else {
      PlainReads(o, s);
      MistakenScalar(o, s);
      OneLineReads(o, k, s);
    }
  }

  // ------------------------------------------------------------ front matter

  predicate DashKey(k: string) {
    StartsWith(k, "---")
  }

  /** No key but the first looks like a closing fence. */
  predicate NoFenceKey(es: seq<Entry>) {
    forall i | 1 <= i < |es| :: !DashKey(es[i].key)
  }

  predicate FenceFree(lines: seq<string>) {
    forall i | 0 <= i < |lines| :: '\n' !in lines[i] && (i > 0 ==> !StartsWith(lines[i], "---"))
  }

  lemma {:induction false} FenceSkipsLine(l: string, rest: string)
    requires '\n' !in l
    ensures Fence(l + rest) == |l| + Fence(rest)
  {
    if l == "" {
      assert l + rest == rest;
    } else {
      assert (l + rest)[1..] == l[1..] + rest;
      assert (l + rest)[0] == l[0] != "\n---"[0];
      FenceSkipsLine(l[1..], rest);
    }
  }

  lemma NoDashes(l: string, more: string)
    requires !StartsWith(l, "---") && (more == "" || more[0] != '-')
    ensures !StartsWith(l + more, "---")
  {
    var t := l + more;
    if |l| >= 3 {
      assert t[..3] == l[..3];
    } else if |t| >= 3 {
      assert t[|l|] == more[0];
    }
  }

  lemma NotAFence(l: string, more: string)
    requires !StartsWith(l, "---") && (more == "" || more[0] == '\n')
    ensures Fence("\n" + (l + more)) == 1 + Fence(l + more)
  {
    NoDashes(l, more);
    NoFenceAt(l + more);
    assert ("\n" + (l + more))[1..] == l + more;
  }

  lemma NoFenceAt(u: string)
    requires !StartsWith(u, "---")
    ensures !StartsWith("\n" + u, "\n---")
  {
    if |u| >= 3 {
      assert u[..3] != "---";
      var i :| 0 <= i < 3 && u[i] != "---"[i];
      assert ("\n" + u)[i + 1] == u[i];
    }
  }

  /** What follows the first line of `lines` and the closing fence. */
  function Remainder(lines: seq<string>, tail: string): string
    requires lines != []
  {
    if |lines| == 1 then "\n---" + tail else "\n" + (Join(lines[1..]) + "\n---" + tail)
  }

  lemma HeadOf(lines: seq<string>, tail: string)
    requires lines != []
    ensures Join(lines) + "\n---" + tail == lines[0] + Remainder(lines, tail)
    ensures Remainder(lines, tail)[0] == '\n'
  {
    if |lines| == 1 {
      assert lines[0] + "\n---" + tail == lines[0] + ("\n---" + tail);
    } else {
      LineFirst(lines[0], Join(lines[1..]), "\n---", tail);
    }
  }

  lemma LineFirst(line: string, rest: string, fence: string, tail: string)
    ensures line + "\n" + rest + fence + tail == line + ("\n" + (rest + fence + tail))
  {
  }

  /** The fence is found right behind the lines. */
  lemma {:induction false} FenceBehind(lines: seq<string>, tail: string)
    requires lines != [] && FenceFree(lines)
    ensures Fence(Join(lines) + "\n---" + tail) == |Join(lines)|
    decreases lines, 1
  {
    HeadOf(lines, tail);
    FenceSkipsLine(lines[0], Remainder(lines, tail));
    if |lines| == 1 {
      assert StartsWith("\n---" + tail, "\n---");
    } else {
      FenceBehindRest(lines, tail);
    }
  }

  lemma {:induction false} FenceBehindRest(lines: seq<string>, tail: string)
    requires |lines| > 1 && FenceFree(lines)
    ensures Fence(Remainder(lines, tail)) == 1 + |Join(lines[1..])|
    decreases lines, 0
  {
    var rest := lines[1..];
    assert !StartsWith(lines[1], "---");
    assert FenceFree(rest);
    FenceBehind(rest, tail);
    HeadOf(rest, tail);
    NotAFence(rest[0], Remainder(rest, tail));
  }

  /** Reading a document whose front matter is `lines`. */
  lemma DocumentSplits(lines: seq<string>, tail: string)
    requires lines != [] && FenceFree(lines) && StripCr(Join(lines)) == Join(lines)
    ensures SplitFrontMatter("---\n" + Join(lines) + "\n---" + tail) == Some(Document(Join(lines), tail))
  {
    var after := Join(lines) + "\n---" + tail;
    var text := "---\n" + Join(lines) + "\n---" + tail;
    assert text == "---\n" + after && text[3] == '\n';
    assert text[4..] == after;
    FenceBehind(lines, tail);
    assert after[..|Join(lines)|] == Join(lines) && after[|Join(lines)| + 4..] == tail;
  }

  lemma {:induction false} JoinEndsGood(lines: seq<string>)
    requires lines != [] && GoodLines(lines)
    ensures Join(lines) != "" && StripCr(Join(lines)) == Join(lines)
  {
    if |lines| > 1 {
      JoinEndsGood(lines[1..]);
      assert Join(lines)[|Join(lines)| - 1] == Join(lines[1..])[|Join(lines[1..])| - 1];
    } else {
      assert lines[0] != "";
    }
  }

  lemma {:induction false} LinesConcat(o: Oracle, a: seq<Entry>, b: seq<Entry>, level: nat)
    ensures Lines(o, a + b, level) == Lines(o, a, level) + Lines(o, b, level)
    decreases |a|
  {
    if a == [] {
      assert a + b == b;
    } else {
      assert (a + b)[1..] == a[1..] + b;
      LinesConcat(o, a[1..], b, level);
    }
  }

  lemma {:induction false} PrefixIsSafe(o: Oracle, a: seq<Entry>, b: seq<Entry>)
    requires SafeEntries(o, a + b)
    ensures SafeEntries(o, a) && SafeEntries(o, b)
    decreases |a|
  {
    if a == [] {
      assert a + b == b;
    } else {
      assert (a + b)[1..] == a[1..] + b;
      PrefixIsSafe(o, a[1..], b);
      forall i | 0 <= i < |a[1..]|
        ensures a[1..][i].key != a[0].key
      {
        assert (a + b)[1..][i].key != a[0].key;
      }
    }
  }

  lemma LateLineIsNoFence(o: Oracle, e: Entry, i: nat)
    requires GoodOracle(o) && SafeKey(e.key) && SafeValue(o, e.value) && i < |EntryLines(o, e, 0)|
    requires i > 0 || !DashKey(e.key)
    ensures !StartsWith(EntryLines(o, e, 0)[i], "---")
  {
    EntryLinesSplit(o, e);
    if i > 0 {
      BelowIsGood(o, e.value);
      var l := Below(o, e.value)[i - 1];
      assert GoodLine(l) && Deep(l);
      assert l[0] == ' ';
    } else {
      NoDashes(e.key, KeyLine(o, e)[|e.key|..]);
      assert KeyLine(o, e) == e.key + KeyLine(o, e)[|e.key|..];
    }
  }

  lemma {:induction false} LinesAreFenceFree(o: Oracle, es: seq<Entry>)
    requires GoodOracle(o) && SafeEntries(o, es) && NoFenceKey(es)
    ensures FenceFree(Lines(o, es, 0))
    ensures es != [] && !DashKey(es[0].key) ==> Lines(o, es, 0) != [] && !StartsWith(Lines(o, es, 0)[0], "---")
    decreases |es|
  {
    if es != [] {
      var own, rest := EntryLines(o, es[0], 0), es[1..];
      EntryLinesAreGood(o, es[0]);
      assert forall i | 1 <= i < |rest| :: rest[i] == es[i + 1];
      LinesAreFenceFree(o, rest);
      forall i | 0 <= i < |own|
        ensures '\n' !in own[i] && (i > 0 || !DashKey(es[0].key) ==> !StartsWith(own[i], "---"))
      {
        assert GoodLine(own[i]);
        if i > 0 || !DashKey(es[0].key) {
          LateLineIsNoFence(o, es[0], i);
        }
      }
      assert rest != [] ==> rest[0] == es[1];
    }
  }

  lemma MarkdownIs(o: Oracle, es: seq<Entry>, body: string)
    ensures BuildMarkdown(o, es, body) == "---\n" + Serialize(o, es, 0) + "\n---" + ("\n\n" + body)
  {
    FiveLines(Serialize(o, es, 0), body);
  }

  lemma TwoParts(a: string, rest: seq<string>)
    requires rest != []
    ensures Join([a] + rest) == a + "\n" + Join(rest)
  {
    assert ([a] + rest)[1..] == rest;
  }

  lemma FiveLines(yaml: string, body: string)
    ensures Join(["---", yaml, "---", "", body]) == "---\n" + yaml + "\n---" + ("\n\n" + body)
  {
    TwoParts("---", [yaml, "---", "", body]);
    TwoParts(yaml, ["---", "", body]);
    TwoParts("---", ["", body]);
    TwoParts("", [body]);
    assert ["---"] + [yaml, "---", "", body] == ["---", yaml, "---", "", body];
    assert [yaml] + ["---", "", body] == [yaml, "---", "", body];
    assert ["---"] + ["", body] == ["---", "", body];
    assert [""] + [body] == ["", body];
  }

  lemma DocumentReads(o: Oracle, lines: seq<string>, body: string)
    requires lines != [] && FenceFree(lines) && StripCr(Join(lines)) == Join(lines)
    ensures var text := "---\n" + Join(lines) + "\n---" + ("\n\n" + body);
            ParseFrontMatter(o, text) == Parse(o, Join(lines)) && Body(text) == TrimStart(body)
  {
    DocumentSplits(lines, "\n\n" + body);
    EmptyLinesAreTrimmed(body);
    SplitReads(o, "---\n" + Join(lines) + "\n---" + ("\n\n" + body), Join(lines), "\n\n" + body);
  }

  lemma EmptyLinesAreTrimmed(body: string)
    ensures TrimStart("\n\n" + body) == TrimStart(body)
  {
    var tail := "\n\n" + body;
    assert tail[1..] == "\n" + body && tail[1..][1..] == body;
  }

  lemma SplitReads(o: Oracle, text: string, front: string, rest: string)
    requires SplitFrontMatter(text) == Some(Document(front, rest))
    ensures ParseFrontMatter(o, text) == Parse(o, front) && Body(text) == TrimStart(rest)
  {
  }

  /** The text of an object as lines of a document. */
  lemma FrontLines(o: Oracle, es: seq<Entry>) returns (lines: seq<string>)
    requires GoodOracle(o) && SafeEntries(o, es) && NoFenceKey(es)
    ensures lines != [] && FenceFree(lines) && Join(lines) == Serialize(o, es, 0) && StripCr(Join(lines)) == Join(lines)
  {
    if es == [] {
      lines := [""];
      assert Serialize(o, es, 0) == "";
    } else {
      lines := Lines(o, es, 0);
      SerializedLines(o, es, 0);
      LinesAreGood(o, es);
      JoinEndsGood(lines);
      LinesAreFenceFree(o, es);
    }
  }

  /** Writing a document and reading it back gives both parts. */
  lemma MarkdownReads(o: Oracle, es: seq<Entry>, body: string)
    requires GoodOracle(o) && SafeEntries(o, es) && NoFenceKey(es)
    ensures ParseFrontMatter(o, BuildMarkdown(o, es, body)) == Obj(es)
    ensures Body(BuildMarkdown(o, es, body)) == TrimStart(body)
  {
    var lines := FrontLines(o, es);
    MarkdownIs(o, es, body);
    DocumentReads(o, lines, body);
    ParseSerialize(o, es);
  }

  lemma FirstFenceKey(es: seq<Entry>) returns (j: nat)
    requires !NoFenceKey(es)
    ensures 1 <= j < |es| && DashKey(es[j].key) && NoFenceKey(es[..j])
  {
    j := 1;
    while !DashKey(es[j].key)
      invariant 1 <= j < |es| && NoFenceKey(es[..j])
      invariant exists i :: j <= i < |es| && DashKey(es[i].key)
      decreases |es| - j
    {
      j := j + 1;
    }
  }

  lemma FenceLineStarts(o: Oracle, es: seq<Entry>, level: nat) returns (rest: string)
    requires es != [] && DashKey(es[0].key) && SafeEntries(o, es)
    ensures Lines(o, es, 0) != [] && Join(Lines(o, es, 0)) == "---" + rest
  {
    EntryLinesSplit(o, es[0]);
    var l := Lines(o, es, 0)[0];
    assert l == KeyLine(o, es[0]) && "---" <= es[0].key <= l;
    var all := Join(Lines(o, es, 0));
    assert l <= all;
    DashesFirst(all);
    rest := all[3..];
  }

  lemma DashesFirst(s: string)
    requires StartsWith(s, "---")
    ensures |s| >= 3 && s == "---" + s[3..]
  {
  }

  /** A later key that starts with `---` ends the front matter early: exactly the
      documents without one keep all their entries. */
  lemma MarkdownSurvivesIff(o: Oracle, es: seq<Entry>, body: string)
    requires GoodOracle(o) && SafeEntries(o, es)
    ensures ParseFrontMatter(o, BuildMarkdown(o, es, body)) == Obj(es) <==> NoFenceKey(es)
  {
    if NoFenceKey(es) {
      MarkdownReads(o, es, body);
    } else {
      var a, b := AtFenceKey(es);
      CutShort(o, a, b, body);
    }
  }

  /** The entries before the first such key, and the others. */
  lemma AtFenceKey(es: seq<Entry>) returns (a: seq<Entry>, b: seq<Entry>)
    requires !NoFenceKey(es)
    ensures es == a + b && a != [] && b != [] && a != es
    ensures NoFenceKey(a) && DashKey(b[0].key)
  {
    var j := FirstFenceKey(es);
    a, b := es[..j], es[j..];
  }

  lemma CutShort(o: Oracle, a: seq<Entry>, b: seq<Entry>, body: string)
    requires GoodOracle(o) && SafeEntries(o, a + b) && a != [] && b != []
    requires NoFenceKey(a) && DashKey(b[0].key)
    ensures ParseFrontMatter(o, BuildMarkdown(o, a + b, body)) == Obj(a)
  {
    PrefixIsSafe(o, a, b);
    var tail := CutText(o, a, b, body);
    LinesAreGood(o, a);
    JoinEndsGood(Lines(o, a, 0));
    LinesAreFenceFree(o, a);
    DocumentSplits(Lines(o, a, 0), tail);
    SomethingReads(o, a);
  }

  lemma CutText(o: Oracle, a: seq<Entry>, b: seq<Entry>, body: string) returns (tail: string)
    requires SafeEntries(o, a + b) && SafeEntries(o, a) && SafeEntries(o, b) && a != [] && b != [] && DashKey(b[0].key)
    ensures BuildMarkdown(o, a + b, body) == "---\n" + Join(Lines(o, a, 0)) + "\n---" + tail
  {
    MarkdownIs(o, a + b, body);
    SerializedLines(o, a + b, 0);
    SerializedLines(o, a, 0);
    LinesConcat(o, a, b, 0);
    var rest := FenceLineStarts(o, b, 0);
    JoinAppend(Lines(o, a, 0), Lines(o, b, 0));
    var behind := "\n---" + ("\n\n" + body);
    tail := rest + behind;
    Regrouped(Join(Lines(o, a, 0)), rest, behind);
  }

  lemma Regrouped(a: string, rest: string, behind: string)
    ensures "---\n" + (a + "\n" + ("---" + rest)) + behind == "---\n" + a + "\n---" + (rest + behind)
  {
  }
}
