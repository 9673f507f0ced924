/** The YAML subset of the task files: what the serializer writes and what the
    parser reads. */
module Frontmatter {
  import opened Common

  datatype Entry = Entry(key: string, value: Value)

  /** Objects keep their insertion order. */
  datatype Value =
    | Null
    | Bool(b: bool)
    | Int(i: int)
    | Float(r: real)
    | Str(s: string)
    | Arr(items: seq<Value>)
    | Obj(entries: seq<Entry>)

  /** What is not modelled of scalars: reading numbers that are not plain decimal
      integers, reading inline `[...]` and `{...}` collections, and the text of
      fractions and of collections inside a list. */
  datatype Oracle = Oracle(number: string -> Option<Value>, flow: string -> Value, text: Value -> string)

  const MAX_SAFE := 9007199254740992

  ghost predicate GoodOracle(o: Oracle) {
    && (forall s :: o.number(s).Some? ==>
          s != "" && StartsNumber(s[0]) && (o.number(s).value.Int? || o.number(s).value.Float?))
    && (forall s :: o.flow(s).Arr? || o.flow(s).Obj?)
  }

  predicate StartsNumber(c: char) {
    '0' <= c <= '9' || c == '-' || c == '+' || c == '.'
  }

  // ------------------------------------------------------------------ strings

  predicate IsSpace(c: char) {
    || '\t' <= c <= '\r' || c == ' ' || c == '\U{85}' || c == '\U{A0}' || c == '\U{1680}'
    || '\U{2000}' <= c <= '\U{200A}' || c == '\U{2028}' || c == '\U{2029}' || c == '\U{202F}'
    || c == '\U{205F}' || c == '\U{3000}'
  }

  function TrimStart(s: string): string {
    if s != "" && IsSpace(s[0]) then TrimStart(s[1..]) else s
  }

  function TrimEnd(s: string): string {
    if s != "" && IsSpace(s[|s| - 1]) then TrimEnd(s[..|s| - 1]) else s
  }

  function Trim(s: string): string {
    TrimEnd(TrimStart(s))
  }

  predicate Blank(line: string) {
    Trim(line) == ""
  }

  function Indent(line: string): (n: nat)
    ensures n <= |line|
  {
    if line != "" && line[0] == ' ' then 1 + Indent(line[1..]) else 0
  }

  /** Where the first `:` is, or the length. */
  function Colon(s: string): (n: nat)
    ensures n <= |s|
    ensures n < |s| ==> s[n] == ':'
    ensures ':' !in s[..n]
  {
    if s == "" || s[0] == ':' then 0 else 1 + Colon(s[1..])
  }

  function Join(lines: seq<string>): string {
    if lines == [] then ""
    else if |lines| == 1 then lines[0]
    else lines[0] + "\n" + Join(lines[1..])
  }

  /** Splitting at newlines; never empty. */
  function Split(text: string): (lines: seq<string>)
    ensures lines != []
    ensures forall i | 0 <= i < |lines| :: '\n' !in lines[i]
  {
    if text == "" then [""]
    else
      var rest := Split(text[1..]);
      if text[0] == '\n' then [""] + rest else [[text[0]] + rest[0]] + rest[1..]
  }

  function StripCr(line: string): string {
    if line != "" && line[|line| - 1] == '\r' then line[..|line| - 1] else line
  }

  function StripAll(lines: seq<string>): (r: seq<string>)
    ensures |r| == |lines|
    ensures forall i | 0 <= i < |lines| :: r[i] == StripCr(lines[i])
  {
    seq(|lines|, i requires 0 <= i < |lines| => StripCr(lines[i]))
  }

  function Drop(line: string, n: nat): string {
    if n <= |line| then line[n..] else ""
  }

  // ------------------------------------------------------------------ numbers

  predicate IsDigit(c: char) {
    '0' <= c <= '9'
  }

  predicate AllDigits(s: string) {
    s != "" && forall i | 0 <= i < |s| :: IsDigit(s[i])
  }

  function DigitValue(c: char): nat {
    if IsDigit(c) then c as int - '0' as int else 0
  }

  function Decimal(s: string): nat {
    if s == "" then 0 else 10 * Decimal(s[..|s| - 1]) + DigitValue(s[|s| - 1])
  }

  predicate PlainInteger(s: string) {
    AllDigits(s) || (s != "" && s[0] == '-' && AllDigits(s[1..]))
  }

  function IntegerValue(s: string): int
    requires PlainInteger(s)
  {
    if AllDigits(s) then Decimal(s) else -(Decimal(s[1..]) as int)
  }

  /** A number where the text is one. */
  function Number(o: Oracle, s: string): Option<Value> {
    if PlainInteger(s) && -MAX_SAFE <= IntegerValue(s) <= MAX_SAFE then Some(Int(IntegerValue(s))) else o.number(s)
  }

  // ------------------------------------------------------------------ parsing

  predicate Wrapped(s: string, open: char, close: char) {
    |s| >= 2 && s[0] == open && s[|s| - 1] == close
  }

  predicate Quoted(s: string) {
    Wrapped(s, '"', '"') || Wrapped(s, '\'', '\'')
  }

  function Scalar(o: Oracle, s: string): Value {
    if s == "true" then Bool(true)
    else if s == "false" then Bool(false)
    else if s == "null" || s == "~" then Null
    else if Wrapped(s, '[', ']') || Wrapped(s, '{', '}') then o.flow(s)
    else if Number(o, s).Some? then Number(o, s).value
    else if Quoted(s) then Str(s[1..|s| - 1])
    else Str(s)
  }

  /** `key: value` or `key:`, with nothing odd in the key. */
  predicate LooksLikeMapping(s: string) {
    var idx := Colon(s);
    && 0 < idx < |s|
    && ' ' !in s[..idx] && '"' !in s[..idx] && '\'' !in s[..idx]
    && (idx + 1 == |s| || s[idx + 1] == ' ')
  }

  /** Adds an entry, or replaces the value where the key already is. */
  function Insert(es: seq<Entry>, key: string, v: Value): seq<Entry> {
    if es == [] then [Entry(key, v)]
    else if es[0].key == key then [Entry(key, v)] + es[1..]
    else [es[0]] + Insert(es[1..], key, v)
  }

  predicate Skipped(line: string) {
    Blank(line) || Prefixed(TrimStart(line), '#') || Indent(line) > 0 || Colon(line) == |line|
  }

  predicate Prefixed(s: string, c: char) {
    s != "" && s[0] == c
  }

  /** A line that belongs to the block of the key above it. */
  predicate Deep(line: string) {
    Blank(line) || Indent(line) > 0
  }

  function BlockSize(lines: seq<string>): (n: nat)
    ensures n <= |lines|
  {
    if lines == [] || !Deep(lines[0]) then 0 else 1 + BlockSize(lines[1..])
  }

  function NonBlank(lines: seq<string>): (r: seq<string>)
    ensures |r| <= |lines|
  {
    if lines == [] then []
    else if Blank(lines[0]) then NonBlank(lines[1..])
    else [lines[0]] + NonBlank(lines[1..])
  }

  function Dedent(lines: seq<string>, n: nat): (r: seq<string>)
    ensures |r| == |lines|
    ensures forall i | 0 <= i < |lines| :: r[i] == Drop(lines[i], n)
  {
    seq(|lines|, i requires 0 <= i < |lines| => Drop(lines[i], n))
  }

  predicate IsDash(t: string) {
    t == "-" || (|t| >= 2 && t[0] == '-' && t[1] == ' ')
  }

  predicate StartsItem(line: string, indent: nat) {
    Indent(line) <= indent && IsDash(TrimStart(line))
  }

  function ItemText(line: string): string {
    Trim(Drop(TrimStart(line), 1))
  }

  /** The lines of each list item; lines before the first item are dropped. */
  function Groups(lines: seq<string>, indent: nat): (gs: seq<seq<string>>)
    ensures forall i | 0 <= i < |gs| :: 0 < |gs[i]| <= |lines|
  {
    if lines == [] then [] else
      var before, last := Groups(lines[..|lines| - 1], indent), lines[|lines| - 1];
      if StartsItem(last, indent) then before + [[ItemText(last)]]
      else if before == [] then []
      else before[..|before| - 1] + [before[|before| - 1] + [TrimStart(last)]]
  }

  function FinishItem(o: Oracle, lines: seq<string>): Value
    requires lines != []
    decreases |lines|, 1
  {
    if |lines| == 1 && lines[0] == "" then Obj([])
    else if |lines| == 1 && !LooksLikeMapping(lines[0]) then Scalar(o, lines[0])
    else Obj(ParseLines(o, StripAll(lines), []))
  }

  function FinishAll(o: Oracle, gs: seq<seq<string>>, bound: nat): (vs: seq<Value>)
    requires forall i | 0 <= i < |gs| :: 0 < |gs[i]| <= bound
    ensures |vs| == |gs|
    decreases bound, 2, |gs|
  {
    if gs == [] then []
    else FinishAll(o, gs[..|gs| - 1], bound) + [FinishItem(o, gs[|gs| - 1])]
  }

  /** What the block under a key means: a list, or an object one level down. */
  function Block(o: Oracle, block: seq<string>): Value
    requires block != []
    decreases |block|, 3
  {
    if IsDash(TrimStart(block[0])) then
      Arr(FinishAll(o, Groups(NonBlank(block), Indent(block[0])), |block|))
    else
      Obj(ParseLines(o, StripAll(Dedent(NonBlank(block), Indent(block[0]))), []))
  }

  /** The entries of a block of lines, added to what was read before it. */
  function ParseLines(o: Oracle, lines: seq<string>, acc: seq<Entry>): seq<Entry>
    decreases |lines|, 0
  {
    if lines == [] then acc
    else if Skipped(lines[0]) then ParseLines(o, lines[1..], acc)
    else
      var colon := Colon(lines[0]);
      var key, raw := Trim(lines[0][..colon]), Trim(lines[0][colon + 1..]);
      var rest := lines[1..];
      if raw != "" then ParseLines(o, rest, Insert(acc, key, Scalar(o, raw)))
      else if rest == [] || Blank(rest[0]) || Indent(rest[0]) == 0 then ParseLines(o, rest, Insert(acc, key, Null))
      else
        var n := BlockSize(rest);
        ParseLines(o, rest[n..], Insert(acc, key, Block(o, rest[..n])))
  }

  function Parse(o: Oracle, text: string): Value {
    Obj(ParseLines(o, StripAll(Split(text)), []))
  }

  // -------------------------------------------------------------- serializing

  predicate Special(c: char) {
    c == ':' || c == '#' || c == '[' || c == ']' || c == '{' || c == '}' || c == ',' || c == '\n'
  }

  predicate NeedsQuotes(s: string) {
    (exists i | 0 <= i < |s| :: Special(s[i])) || Trim(s) != s
  }

  function Escape(s: string): string {
    if s == "" then "" else (if s[0] == '"' then "\\\"" else [s[0]]) + Escape(s[1..])
  }

  function DigitsOf(n: nat): string {
    if n < 10 then [('0' as int + n) as char] else DigitsOf(n / 10) + [('0' as int + n % 10) as char]
  }

  function IntText(i: int): string {
    if i < 0 then "-" + DigitsOf(-i) else DigitsOf(i)
  }

  function ScalarText(o: Oracle, v: Value): string {
    match v
    case Str(s) => if NeedsQuotes(s) then "\"" + Escape(s) + "\"" else s
    case Bool(b) => if b then "true" else "false"
    case Int(i) => IntText(i)
    case Null => "null"
    case _ => o.text(v)
  }

  function Pad(level: nat): string {
    if level == 0 then "" else "  " + Pad(level - 1)
  }

  function ItemLines(o: Oracle, items: seq<Value>, level: nat): (r: seq<string>)
    ensures |r| == |items|
  {
    seq(|items|, i requires 0 <= i < |items| => Pad(level) + "  - " + ScalarText(o, items[i]))
  }

  /** The pieces an entry adds, the last of which may be a whole nested text. */
  function Pieces(o: Oracle, e: Entry, level: nat): seq<string>
    decreases e, 0
  {
    match e.value
    case Null => [Pad(level) + e.key + ":"]
    case Arr(items) => [Pad(level) + e.key + ":"] + ItemLines(o, items, level)
    case Obj(es) => [Pad(level) + e.key + ":", Serialize(o, es, level + 1)]
    case _ => [Pad(level) + e.key + ": " + ScalarText(o, e.value)]
  }

  function AllPieces(o: Oracle, es: seq<Entry>, level: nat): seq<string>
    decreases es, 1
  {
    if es == [] then [] else Pieces(o, es[0], level) + AllPieces(o, es[1..], level)
  }

  function Serialize(o: Oracle, es: seq<Entry>, level: nat): string
    decreases es, 2
  {
    Join(AllPieces(o, es, level))
  }

  // ----------------------------------------------------------------- markdown

  predicate StartsWith(s: string, p: string) {
    p <= s
  }

  /** Where the first line break followed by `---` is, or the length. */
  function Fence(s: string): (n: nat)
    ensures n <= |s|
  {
    if s == "" || StartsWith(s, "\n---") then 0 else 1 + Fence(s[1..])
  }

  datatype Document = Document(front: string, rest: string)

  /** The front matter and what follows its closing `---`. */
  function SplitFrontMatter(text: string): Option<Document> {
    var open := if StartsWith(text, "---\r\n") then 5 else if StartsWith(text, "---\n") then 4 else 0;
    var after := text[open..];
    var idx := Fence(after);
    if open == 0 || idx + 4 > |after| then None else Some(Document(StripCr(after[..idx]), after[idx + 4..]))
  }

  function ParseFrontMatter(o: Oracle, text: string): Value {
    var d := SplitFrontMatter(text);
    if d.Some? then Parse(o, d.value.front) else Obj([])
  }

  function Body(text: string): string {
    var d := SplitFrontMatter(text);
    if d.Some? then TrimStart(d.value.rest) else text
  }

  function BuildMarkdown(o: Oracle, es: seq<Entry>, body: string): string {
    Join(["---", Serialize(o, es, 0), "---", "", body])
  }

  // ----------------------------------------------------------- the index loops

  lemma {:induction false} NonBlankAppend(lines: seq<string>, l: string)
    ensures NonBlank(lines + [l]) == NonBlank(lines) + if Blank(l) then [] else [l]
  {
    if lines == [] {
      assert [] + [l] == [l] && [l][1..] == [];
    } else {
      assert (lines + [l])[1..] == lines[1..] + [l];
      NonBlankAppend(lines[1..], l);
    }
  }

  lemma {:induction false} BoundDoesNotMatter(o: Oracle, gs: seq<seq<string>>, b: nat, c: nat)
    requires forall i | 0 <= i < |gs| :: 0 < |gs[i]| <= b && |gs[i]| <= c
    ensures FinishAll(o, gs, b) == FinishAll(o, gs, c)
  {
    if gs != [] {
      BoundDoesNotMatter(o, gs[..|gs| - 1], b, c);
    }
  }

  lemma {:induction false} BlockIs(lines: seq<string>, start: nat, i: nat)
    requires start <= i <= |lines| && forall j | start <= j < i :: Deep(lines[j])
    requires i == |lines| || !Deep(lines[i])
    ensures start + BlockSize(lines[start..]) == i
    decreases i - start
  {
    if start < i {
      BlockIs(lines, start + 1, i);
      assert lines[start..][1..] == lines[start + 1..];
    }
  }

  method FinishListItem(o: Oracle, lines: seq<string>) returns (v: Value)
    requires lines != []
    ensures v == FinishItem(o, lines)
    decreases |lines|, 3
  {
    if |lines| == 1 {
      if lines[0] == "" {
        return Obj([]);
      }
      if !LooksLikeMapping(lines[0]) {
        return Scalar(o, lines[0]);
      }
    }
    var es := ParseYamlBlock(o, StripAll(lines));
    return Obj(es);
  }

  lemma NonBlankGrows(lines: seq<string>, i: nat)
    requires i < |lines|
    ensures NonBlank(lines[..i + 1]) ==
            if Blank(lines[i]) then NonBlank(lines[..i]) else NonBlank(lines[..i]) + [lines[i]]
  {
    assert lines[..i + 1] == lines[..i] + [lines[i]];
    NonBlankAppend(lines[..i], lines[i]);
  }

  /** The items finished so far and the one still open, after these lines. */
  ghost predicate ListState(o: Oracle, read: seq<string>, indent: nat, items: seq<Value>, item: Option<seq<string>>,
                            bound: nat) {
    |read| <= bound &&
    var gs := Groups(read, indent);
    match item
    case None => gs == [] && items == []
    case Some(current) => gs != [] && current == gs[|gs| - 1] && items == FinishAll(o, gs[..|gs| - 1], bound)
  }

  lemma GroupsAppend(read: seq<string>, l: string, indent: nat)
    ensures Groups(read + [l], indent) ==
            var before := Groups(read, indent);
            if StartsItem(l, indent) then before + [[ItemText(l)]]
            else if before == [] then []
            else before[..|before| - 1] + [before[|before| - 1] + [TrimStart(l)]]
  {
    assert (read + [l])[..|read|] == read;
  }

  /** The items once the open one is finished. */
  function Closed(o: Oracle, items: seq<Value>, item: Option<seq<string>>): seq<Value>
    requires item.Some? ==> item.value != []
  {
    if item.Some? then items + [FinishItem(o, item.value)] else items
  }

  lemma NextItem(o: Oracle, read: seq<string>, l: string, indent: nat, items: seq<Value>, item: Option<seq<string>>,
                 bound: nat)
    requires ListState(o, read, indent, items, item, bound) && |read| < bound && StartsItem(l, indent)
    ensures item.Some? ==> 0 < |item.value| <= bound
    ensures ListState(o, read + [l], indent, Closed(o, items, item), Some([ItemText(l)]), bound)
  {
    GroupsAppend(read, l, indent);
    var gs, grown := Groups(read, indent), Groups(read + [l], indent);
    assert grown[..|grown| - 1] == gs;
  }

  lemma SameItem(o: Oracle, read: seq<string>, l: string, indent: nat, items: seq<Value>, item: Option<seq<string>>,
                 bound: nat)
    requires ListState(o, read, indent, items, item, bound) && |read| < bound && !StartsItem(l, indent)
    ensures ListState(o, read + [l], indent, items,
                      if item.Some? then Some(item.value + [TrimStart(l)]) else None, bound)
  {
    GroupsAppend(read, l, indent);
    var gs, grown := Groups(read, indent), Groups(read + [l], indent);
    if gs != [] {
      assert grown[..|grown| - 1] == gs[..|gs| - 1];
    }
  }

  lemma AllClosed(o: Oracle, read: seq<string>, indent: nat, items: seq<Value>, item: Option<seq<string>>, bound: nat)
    requires ListState(o, read, indent, items, item, bound)
    ensures item.Some? ==> 0 < |item.value| <= bound
    ensures Closed(o, items, item) == FinishAll(o, Groups(read, indent), bound)
  {
  }

  method Close(o: Oracle, items: seq<Value>, item: Option<seq<string>>, ghost bound: nat) returns (all: seq<Value>)
    requires item.Some? ==> 0 < |item.value| <= bound
    ensures all == Closed(o, items, item)
    decreases bound, 4
  {
    all := items;
    if item.Some? {
      var done := FinishListItem(o, item.value);
      all := items + [done];
    }
  }

  method ReadListLine(o: Oracle, block: seq<string>, i: nat, indent: nat, items: seq<Value>, item: Option<seq<string>>)
    returns (items': seq<Value>, item': Option<seq<string>>)
    requires i < |block| && ListState(o, block[..i], indent, items, item, |block|)
    ensures ListState(o, block[..i + 1], indent, items', item', |block|)
    decreases |block|, 5
  {
    items', item' := items, item;
    var l := block[i];
    assert block[..i + 1] == block[..i] + [l];
    if StartsItem(l, indent) {
      NextItem(o, block[..i], l, indent, items, item, |block|);
      items' := Close(o, items, item, |block|);
      item' := Some([ItemText(l)]);
    } else {
      SameItem(o, block[..i], l, indent, items, item, |block|);
      if item.Some? {
        item' := Some(item.value + [TrimStart(l)]);
      }
    }
  }

  /** Where the block that starts at line `start` ends. */
  method BlockEnd(lines: seq<string>, start: nat) returns (i: nat)
    requires start <= |lines|
    ensures i == start + BlockSize(lines[start..]) <= |lines|
  {
    i := start;
    while i < |lines| && Deep(lines[i])
      invariant start <= i <= |lines| && forall j | start <= j < i :: Deep(lines[j])
    {
      i := i + 1;
    }
    BlockIs(lines, start, i);
  }

  method TakeNonBlank(lines: seq<string>) returns (block: seq<string>)
    ensures block == NonBlank(lines)
  {
    block := [];
    for i := 0 to |lines|
      invariant block == NonBlank(lines[..i])
    {
      NonBlankGrows(lines, i);
      if !Blank(lines[i]) {
        block := block + [lines[i]];
      }
    }
    assert lines[..|lines|] == lines;
  }

  method ReadItems(o: Oracle, block: seq<string>, indent: nat) returns (items: seq<Value>)
    ensures items == FinishAll(o, Groups(block, indent), |block|)
    decreases |block|, 6
  {
    items := [];
    var item: Option<seq<string>> := None;
    for i := 0 to |block|
      invariant ListState(o, block[..i], indent, items, item, |block|)
    {
      items, item := ReadListLine(o, block, i, indent, items, item);
    }
    assert block[..|block|] == block;
    AllClosed(o, block, indent, items, item, |block|);
    items := Close(o, items, item, |block|);
  }

  /** Reads whatever stands below a key. */
  method ReadBlock(o: Oracle, below: seq<string>) returns (v: Value)
    requires below != []
    ensures v == Block(o, below)
    decreases |below|, 7
  {
    var block := TakeNonBlank(below);
    var indent := Indent(below[0]);
    if IsDash(TrimStart(below[0])) {
      var items := ReadItems(o, block, indent);
      BoundDoesNotMatter(o, Groups(block, indent), |block|, |below|);
      v := Arr(items);
    } else {
      var es := ParseYamlBlock(o, StripAll(Dedent(block, indent)));
      v := Obj(es);
    }
  }

  /** How many of the lines below it a key with `raw` behind the colon uses up. */
  function Taken(raw: string, rest: seq<string>): (n: nat)
    ensures n <= |rest|
  {
    if raw == "" && rest != [] && !Blank(rest[0]) && Indent(rest[0]) > 0 then BlockSize(rest) else 0
  }

  function Given(o: Oracle, raw: string, rest: seq<string>): Value {
    if raw != "" then Scalar(o, raw)
    else if Taken(raw, rest) > 0 then Block(o, rest[..Taken(raw, rest)])
    else Null
  }

  function KeyOf(line: string): string {
    Trim(line[..Colon(line)])
  }

  function RawOf(line: string): string
    requires !Skipped(line)
  {
    Trim(line[Colon(line) + 1..])
  }

  lemma OneStep(o: Oracle, lines: seq<string>, acc: seq<Entry>)
    requires lines != []
    ensures ParseLines(o, lines, acc) ==
            if Skipped(lines[0]) then ParseLines(o, lines[1..], acc)
            else
              var raw := RawOf(lines[0]);
              ParseLines(o, lines[1..][Taken(raw, lines[1..])..],
                         Insert(acc, KeyOf(lines[0]), Given(o, raw, lines[1..])))
  {
  }

  /** The value of a key, and the line to go on with. */
  method ReadValue(o: Oracle, lines: seq<string>, start: nat, raw: string) returns (v: Value, next: nat)
    requires start <= |lines|
    ensures next == start + Taken(raw, lines[start..]) <= |lines| && v == Given(o, raw, lines[start..])
    decreases |lines| - start, 8
  {
    next := start;
    if raw != "" {
      v := Scalar(o, raw);
    } else if start == |lines| || Blank(lines[start]) || Indent(lines[start]) == 0 {
      v := Null;
    } else {
      next := BlockEnd(lines, start);
      assert lines[start..][..next - start] == lines[start..next];
      v := ReadBlock(o, lines[start..next]);
    }
  }

  method ReadEntry(o: Oracle, lines: seq<string>, i: nat, acc: seq<Entry>) returns (result: seq<Entry>, next: nat)
    requires i < |lines|
    ensures i < next <= |lines| && ParseLines(o, lines[next..], result) == ParseLines(o, lines[i..], acc)
    decreases |lines|, 1
  {
    OneStep(o, lines[i..], acc);
    assert lines[i..][1..] == lines[i + 1..];
    if Skipped(lines[i]) {
      return acc, i + 1;
    }
    var raw, v := RawOf(lines[i]), Null;
    v, next := ReadValue(o, lines, i + 1, raw);
    assert lines[i + 1..][next - i - 1..] == lines[next..];
    result := Insert(acc, KeyOf(lines[i]), v);
  }

  /** The parser as it runs: one index over the lines, the map filled as it goes. */
  method ParseYamlBlock(o: Oracle, lines: seq<string>) returns (result: seq<Entry>)
    ensures result == ParseLines(o, lines, [])
    decreases |lines|, 2
  {
    result := [];
    var i := 0;
    while i < |lines|
      invariant 0 <= i <= |lines|
      invariant ParseLines(o, lines[i..], result) == ParseLines(o, lines, [])
    {
      result, i := ReadEntry(o, lines, i, result);
    }
  }

  method SerializeItems(o: Oracle, items: seq<Value>, level: nat) returns (lines: seq<string>)
    ensures lines == ItemLines(o, items, level)
  {
    lines := [];
    for j := 0 to |items|
      invariant |lines| == j && forall k | 0 <= k < j :: lines[k] == ItemLines(o, items, level)[k]
    {
      lines := lines + [Pad(level) + "  - " + ScalarText(o, items[j])];
    }
  }

  method SerializeEntry(o: Oracle, e: Entry, level: nat) returns (lines: seq<string>)
    ensures lines == Pieces(o, e, level)
    decreases e, 0
  {
    match e.value {
      case Null =>
        lines := [Pad(level) + e.key + ":"];
      case Arr(items) =>
        var below := SerializeItems(o, items, level);
        lines := [Pad(level) + e.key + ":"] + below;
      case Obj(nested) =>
        var below := SerializeYaml(o, nested, level + 1);
        lines := [Pad(level) + e.key + ":", below];
      case _ =>
        lines := [Pad(level) + e.key + ": " + ScalarText(o, e.value)];
    }
  }

  /** The serializer as it runs. */
  method SerializeYaml(o: Oracle, es: seq<Entry>, level: nat) returns (text: string)
    ensures text == Serialize(o, es, level)
    decreases es, 1
  {
    var lines := [];
    for i := 0 to |es|
      invariant lines + AllPieces(o, es[i..], level) == AllPieces(o, es, level)
    {
      assert es[i..][0] == es[i] && es[i..][1..] == es[i + 1..];
      var added := SerializeEntry(o, es[i], level);
      lines := lines + added;
    }
    assert es[|es|..] == [] && lines + [] == lines;
    return Join(lines);
  }
}
