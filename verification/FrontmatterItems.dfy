/** Lists whose items are mappings over several lines, or scalars, as they are
    written by hand: `- key: value` with further fields on the lines below it. */
module FrontmatterItems {
  import opened Common
  import opened Frontmatter
  import opened FrontmatterRoundTrip

  function Spaces(n: nat): string {
    if n == 0 then "" else " " + Spaces(n - 1)
  }

  function Field(o: Oracle, e: Entry): string {
    e.key + ": " + ScalarText(o, e.value)
  }

  function Fields(o: Oracle, es: seq<Entry>): (r: seq<string>)
    ensures |r| == |es| && forall i | 0 <= i < |es| :: r[i] == Field(o, es[i])
  {
    seq(|es|, i requires 0 <= i < |es| => Field(o, es[i]))
  }

  /** An item line by line, without its indentation; an empty mapping is a bare dash. */
  function ItemTexts(o: Oracle, v: Value): (r: seq<string>)
    ensures r != []
  {
    if !v.Obj? then [ScalarText(o, v)] else if v.entries == [] then [""] else Fields(o, v.entries)
  }

  function Indented(n: nat, texts: seq<string>): (r: seq<string>)
    ensures |r| == |texts| && forall i | 0 <= i < |texts| :: r[i] == Spaces(n) + texts[i]
  {
    seq(|texts|, i requires 0 <= i < |texts| => Spaces(n) + texts[i])
  }

  /** The dash stands `a` spaces in, the lines that carry an item on `b` spaces. */
  function LinesOfItem(o: Oracle, v: Value, a: nat, b: nat): seq<string> {
    [Spaces(a) + "- " + ItemTexts(o, v)[0]] + Indented(b, ItemTexts(o, v)[1..])
  }

  function LinesOfItems(o: Oracle, items: seq<Value>, a: nat, b: nat): seq<string> {
    if items == [] then []
    else LinesOfItems(o, items[..|items| - 1], a, b) + LinesOfItem(o, items[|items| - 1], a, b)
  }

  /** A key that a single field can have and still be told from a scalar. */
  predicate BareKey(k: string) {
    k != "" && ' ' !in k && '"' !in k && '\'' !in k
  }

  predicate Flat(o: Oracle, es: seq<Entry>) {
    forall i | 0 <= i < |es| :: SafeKey(es[i].key) && SafeScalar(o, es[i].value)
  }

  predicate Distinct(es: seq<Entry>) {
    forall i, j | 0 <= i < j < |es| :: es[i].key != es[j].key
  }

  /** A safe scalar, or a mapping of distinct safe keys to safe scalars. */
  predicate SafeItem(o: Oracle, v: Value) {
    if v.Obj? then Flat(o, v.entries) && Distinct(v.entries) && (|v.entries| == 1 ==> BareKey(v.entries[0].key))
    else SafeScalar(o, v)
  }

  predicate SafeItems(o: Oracle, items: seq<Value>) {
    forall i | 0 <= i < |items| :: SafeItem(o, items[i])
  }

  // ------------------------------------------------------------- single lines

  lemma {:induction false} SpacesIndent(n: nat, t: string)
    ensures Indent(Spaces(n) + t) == n + Indent(t) && TrimStart(Spaces(n) + t) == TrimStart(t)
  {
    if n == 0 {
      assert Spaces(0) + t == t;
    } else {
      assert Spaces(n) + t == " " + (Spaces(n - 1) + t);
      SpaceStep(Spaces(n - 1) + t);
      SpacesIndent(n - 1, t);
    }
  }

  lemma {:induction false} OnlySpaces(n: nat)
    ensures |Spaces(n)| == n && forall i | 0 <= i < n :: Spaces(n)[i] == ' '
  {
    if n > 0 {
      OnlySpaces(n - 1);
    }
  }

  predicate IsField(l: string, e: Entry, o: Oracle) {
    && IsKeyLine(l, e.key, ScalarText(o, e.value)) && ScalarText(o, e.value) != ""
    && Scalar(o, ScalarText(o, e.value)) == e.value
  }

  lemma FieldReads(o: Oracle, e: Entry)
    requires GoodOracle(o) && SafeKey(e.key) && SafeScalar(o, e.value)
    ensures IsField(Field(o, e), e, o) && Tight(Field(o, e))
  {
    ScalarReads(o, e.value);
    FullKeyLine(e.key, ScalarText(o, e.value));
    FieldIsTight(e.key, ScalarText(o, e.value));
  }

  lemma FieldIsTight(k: string, t: string)
    requires SafeKey(k) && t != "" && Tight(t)
    ensures Tight(k + ": " + t)
  {
    var l := k + ": " + t;
    assert l[|l| - 1] == t[|t| - 1];
    assert l[0] == if k == "" then ':' else k[0];
  }

  lemma FieldLooksLikeMapping(k: string, t: string)
    requires SafeKey(k)
    ensures LooksLikeMapping(k + ": " + t) <==> BareKey(k)
  {
    var l := k + ": " + t;
    assert l == k + ":" + (" " + t);
    ColonAfter(k, " " + t);
    assert l[..|k|] == k && l[|k| + 1] == ' ';
  }

  /** Without a space behind the colon it is no field. */
  lemma TightColonIsNoField(k: string, t: string)
    requires ':' !in k && t != "" && t[0] != ' '
    ensures !LooksLikeMapping(k + ":" + t)
  {
    ColonAfter(k, t);
    assert (k + ":" + t)[|k| + 1] == t[0];
  }

  /** Every line of an item is tight, on one line, and no dash of its own. */
  lemma ItemTextsAreGood(o: Oracle, v: Value, i: nat)
    requires GoodOracle(o) && SafeItem(o, v) && i < |ItemTexts(o, v)|
    ensures var t := ItemTexts(o, v)[i];
            Tight(t) && '\n' !in t && StripCr(t) == t && (v != Obj([]) ==> t != "")
    ensures i > 0 ==> GoodLine(ItemTexts(o, v)[i]) && TrimStart(ItemTexts(o, v)[i]) == ItemTexts(o, v)[i]
                      && !IsDash(ItemTexts(o, v)[i])
  {
    if v.Obj? {
      if v.entries != [] {
        FieldReads(o, v.entries[i]);
      }
    } else {
      ScalarReads(o, v);
    }
  }

  lemma DashLine(a: nat, t: string)
    requires a >= 1 && Tight(t) && '\n' !in t
    ensures var l := Spaces(a) + "- " + t;
            && GoodLine(l) && Deep(l) && Indent(l) == a && StartsItem(l, a) && ItemText(l) == t && IsDash(TrimStart(l))
  {
    var l := Spaces(a) + "- " + t;
    assert l == Spaces(a) + ("- " + t);
    SpacesIndent(a, "- " + t);
    OnlySpaces(a);
    assert l[a] == '-' && l[|l| - 1] == if t == "" then ' ' else t[|t| - 1];
    SomethingStays(l, a);
    if t == "" {
      assert "- " + t == "- ";
      assert Drop("- ", 1) == " ";
      OneSpace();
    } else {
      DashReads(t);
    }
  }

  lemma FurtherLine(b: nat, t: string, a: nat)
    requires b >= 1 && GoodLine(t) && TrimStart(t) == t && !IsDash(t)
    ensures var l := Spaces(b) + t;
            GoodLine(l) && Deep(l) && !StartsItem(l, a) && TrimStart(l) == t
  {
    var l := Spaces(b) + t;
    SpacesIndent(b, t);
    OnlySpaces(b);
    assert l[|l| - 1] == t[|t| - 1];
    TrimmedStays(t);
    SomethingStays(l, b);
  }

  lemma TrimmedStays(t: string)
    requires t != "" && TrimStart(t) == t
    ensures !IsSpace(t[0])
  {
    TrimStartShrinks(t[1..]);
  }

  // ---------------------------------------------------------- items from lines

  lemma FieldsMove(o: Oracle, es: seq<Entry>, acc: seq<Entry>)
    requires es != [] && Flat(o, es)
    ensures Flat(o, es[1..]) && acc + [es[0]] + es[1..] == acc + es
  {
  }

  lemma {:induction false} FieldsRead(o: Oracle, es: seq<Entry>, acc: seq<Entry>)
    requires GoodOracle(o) && Flat(o, es) && Distinct(acc + es)
    ensures ParseLines(o, Fields(o, es), acc) == acc + es
    decreases |es|
  {
    if es == [] {
      assert acc + es == acc;
    } else {
      FirstFieldReads(o, es, acc);
      FieldsMove(o, es, acc);
      FieldsRead(o, es[1..], acc + [es[0]]);
    }
  }

  lemma FieldStep(o: Oracle, e: Entry, rest: seq<string>, acc: seq<Entry>)
    requires GoodOracle(o) && SafeKey(e.key) && SafeScalar(o, e.value) && !HasKey(acc, e.key)
    ensures ParseLines(o, [Field(o, e)] + rest, acc) == ParseLines(o, rest, acc + [e])
  {
    FieldReads(o, e);
    KeyLineLeaf(o, Field(o, e), e.key, ScalarText(o, e.value), rest, acc);
    InsertsAtEnd(acc, e.key, e.value);
  }

  lemma FirstFieldReads(o: Oracle, es: seq<Entry>, acc: seq<Entry>)
    requires GoodOracle(o) && es != [] && Flat(o, es) && Distinct(acc + es)
    ensures ParseLines(o, Fields(o, es), acc) == ParseLines(o, Fields(o, es[1..]), acc + [es[0]])
  {
    assert Fields(o, es) == [Field(o, es[0])] + Fields(o, es[1..]);
    NotAmong(acc, es);
    FieldStep(o, es[0], Fields(o, es[1..]), acc);
  }

  lemma NotAmong(acc: seq<Entry>, es: seq<Entry>)
    requires es != [] && Distinct(acc + es)
    ensures !HasKey(acc, es[0].key)
  {
    assert (acc + es)[|acc|] == es[0];
    forall i | 0 <= i < |acc|
      ensures acc[i].key != es[0].key
    {
      assert (acc + es)[i] == acc[i];
    }
  }

  lemma ItemFinishes(o: Oracle, v: Value)
    requires GoodOracle(o) && SafeItem(o, v)
    ensures FinishItem(o, ItemTexts(o, v)) == v
  {
    if !v.Obj? {
      ScalarReads(o, v);
    } else if v.entries != [] {
      var es, texts := v.entries, ItemTexts(o, v);
      forall i | 0 <= i < |texts|
        ensures StripCr(texts[i]) == texts[i]
      {
        ItemTextsAreGood(o, v, i);
      }
      assert StripAll(texts) == texts;
      assert [] + es == es;
      FieldsRead(o, es, []);
      FieldLooksLikeMapping(es[0].key, ScalarText(o, es[0].value));
      ItemTextsAreGood(o, v, 0);
    }
  }

  /** A line that starts an item, and lines that carry it on, with what they say. */
  predicate IsItem(lines: seq<string>, texts: seq<string>, a: nat) {
    && |lines| == |texts| > 0 && StartsItem(lines[0], a) && ItemText(lines[0]) == texts[0]
    && forall i | 0 < i < |lines| :: !StartsItem(lines[i], a) && TrimStart(lines[i]) == texts[i]
  }

  lemma DashedLines(o: Oracle, v: Value, a: nat, b: nat)
    requires GoodOracle(o) && SafeItem(o, v) && a >= 1 && b >= 1
    ensures IsItem(LinesOfItem(o, v, a, b), ItemTexts(o, v), a)
  {
    var lines, texts := LinesOfItem(o, v, a, b), ItemTexts(o, v);
    ItemTextsAreGood(o, v, 0);
    DashLine(a, texts[0]);
    forall i | 0 < i < |lines|
      ensures !StartsItem(lines[i], a) && TrimStart(lines[i]) == texts[i]
    {
      ItemTextsAreGood(o, v, i);
      assert lines[i] == Spaces(b) + texts[i];
      FurtherLine(b, texts[i], a);
    }
  }

  lemma GroupStarts(read: seq<string>, l: string, a: nat)
    requires StartsItem(l, a)
    ensures Groups(read + [l], a) == Groups(read, a) + [[ItemText(l)]]
  {
    GroupsAppend(read, l, a);
  }

  lemma GroupContinues(read: seq<string>, l: string, a: nat, gs: seq<seq<string>>, current: seq<string>)
    requires Groups(read, a) == gs + [current] && !StartsItem(l, a)
    ensures Groups(read + [l], a) == gs + [current + [TrimStart(l)]]
  {
    GroupsAppend(read, l, a);
    assert (gs + [current])[..|gs|] == gs;
  }

  /** One more line of an item, after its first ones. */
  lemma LineJoinsGroup(before: seq<string>, ls: seq<string>, l: string, ts: seq<string>, a: nat)
    requires Groups(before + ls, a) == Groups(before, a) + [ts] && !StartsItem(l, a)
    ensures Groups(before + (ls + [l]), a) == Groups(before, a) + [ts + [TrimStart(l)]]
  {
    GroupContinues(before + ls, l, a, Groups(before, a), ts);
    assert before + (ls + [l]) == before + ls + [l];
  }

  lemma FirstOfItem(before: seq<string>, lines: seq<string>, texts: seq<string>, a: nat)
    requires IsItem(lines, texts, a) && |lines| == 1
    ensures Groups(before + lines, a) == Groups(before, a) + [texts]
  {
    GroupStarts(before, lines[0], a);
    assert lines == [lines[0]] && texts == [texts[0]];
  }

  lemma ButLast(lines: seq<string>, texts: seq<string>, a: nat)
    requires IsItem(lines, texts, a) && |lines| > 1
    ensures var n := |lines| - 1;
            && IsItem(lines[..n], texts[..n], a) && !StartsItem(lines[n], a)
            && lines == lines[..n] + [lines[n]] && texts == texts[..n] + [TrimStart(lines[n])]
  {
  }

  /** The lines of one more item make one more group. */
  lemma {:induction false} ItemIsAGroup(lines: seq<string>, texts: seq<string>, before: seq<string>, a: nat)
    requires IsItem(lines, texts, a)
    ensures Groups(before + lines, a) == Groups(before, a) + [texts]
    decreases |lines|
  {
    if |lines| == 1 {
      FirstOfItem(before, lines, texts, a);
    } else {
      var n := |lines| - 1;
      ButLast(lines, texts, a);
      ItemIsAGroup(lines[..n], texts[..n], before, a);
      LineJoinsGroup(before, lines[..n], lines[n], texts[..n], a);
    }
  }

  lemma OneMoreItem(o: Oracle, v: Value, before: seq<string>, a: nat, b: nat)
    requires GoodOracle(o) && SafeItem(o, v) && a >= 1 && b >= 1
    ensures Groups(before + LinesOfItem(o, v, a, b), a) == Groups(before, a) + [ItemTexts(o, v)]
  {
    var lines, texts := LinesOfItem(o, v, a, b), ItemTexts(o, v);
    DashedLines(o, v, a, b);
    ItemIsAGroup(lines, texts, before, a);
  }

  predicate GroupsAre(o: Oracle, gs: seq<seq<string>>, items: seq<Value>) {
    |gs| == |items| && forall i | 0 <= i < |items| :: gs[i] == ItemTexts(o, items[i])
  }

  lemma GroupsAreMore(o: Oracle, gs: seq<seq<string>>, items: seq<Value>)
    requires items != [] && GroupsAre(o, gs, items[..|items| - 1])
    ensures GroupsAre(o, gs + [ItemTexts(o, items[|items| - 1])], items)
  {
  }

  lemma {:induction false} ItemsAreGroups(o: Oracle, items: seq<Value>, a: nat, b: nat)
    requires GoodOracle(o) && SafeItems(o, items) && a >= 1 && b >= 1
    ensures GroupsAre(o, Groups(LinesOfItems(o, items, a, b), a), items)
    decreases |items|
  {
    if items != [] {
      var init, before := items[..|items| - 1], LinesOfItems(o, items[..|items| - 1], a, b);
      assert SafeItem(o, items[|items| - 1]);
      ItemsAreGroups(o, init, a, b);
      OneMoreItem(o, items[|items| - 1], before, a, b);
      GroupsAreMore(o, Groups(before, a), items);
    }
  }

  predicate Bounded(gs: seq<seq<string>>, bound: nat) {
    forall i | 0 <= i < |gs| :: 0 < |gs[i]| <= bound
  }

  lemma LastFinishes(o: Oracle, gs: seq<seq<string>>, bound: nat)
    requires gs != [] && Bounded(gs, bound)
    ensures Bounded(gs[..|gs| - 1], bound)
    ensures FinishAll(o, gs, bound) == FinishAll(o, gs[..|gs| - 1], bound) + [FinishItem(o, gs[|gs| - 1])]
  {
  }

  lemma FewerGroups(o: Oracle, gs: seq<seq<string>>, items: seq<Value>)
    requires items != [] && GroupsAre(o, gs, items) && SafeItems(o, items)
    ensures var n := |items| - 1;
            && GroupsAre(o, gs[..n], items[..n]) && SafeItems(o, items[..n])
            && gs[n] == ItemTexts(o, items[n]) && SafeItem(o, items[n]) && items == items[..n] + [items[n]]
  {
  }

  lemma {:induction false} GroupsFinish(o: Oracle, gs: seq<seq<string>>, bound: nat, items: seq<Value>)
    requires GoodOracle(o) && SafeItems(o, items) && GroupsAre(o, gs, items) && Bounded(gs, bound)
    ensures FinishAll(o, gs, bound) == items
    decreases |gs|
  {
    if gs != [] {
      var last := |gs| - 1;
      LastFinishes(o, gs, bound);
      FewerGroups(o, gs, items);
      ItemFinishes(o, items[last]);
      GroupsFinish(o, gs[..last], bound, items[..last]);
    }
  }

  predicate GoodBlock(lines: seq<string>) {
    GoodLines(lines) && forall i | 0 <= i < |lines| :: Deep(lines[i])
  }

  lemma ItemLineIsGood(o: Oracle, v: Value, a: nat, b: nat, i: nat)
    requires GoodOracle(o) && SafeItem(o, v) && a >= 1 && b >= 1 && i < |ItemTexts(o, v)|
    ensures var l := LinesOfItem(o, v, a, b)[i];
            GoodLine(l) && Deep(l) && (i == 0 ==> Indent(l) == a && IsDash(TrimStart(l)))
  {
    if i == 0 {
      FirstLineIsGood(o, v, a, b);
    } else {
      LaterLineIsGood(o, v, a, b, i);
    }
  }

  lemma FirstLineIsGood(o: Oracle, v: Value, a: nat, b: nat)
    requires GoodOracle(o) && SafeItem(o, v) && a >= 1
    ensures var l := LinesOfItem(o, v, a, b)[0];
            GoodLine(l) && Deep(l) && Indent(l) == a && IsDash(TrimStart(l))
  {
    var t := ItemTexts(o, v)[0];
    ItemTextsAreGood(o, v, 0);
    assert LinesOfItem(o, v, a, b)[0] == Spaces(a) + "- " + t;
    DashLine(a, t);
  }

  lemma LaterLineIsGood(o: Oracle, v: Value, a: nat, b: nat, i: nat)
    requires GoodOracle(o) && SafeItem(o, v) && b >= 1 && 1 <= i < |ItemTexts(o, v)|
    ensures var l := LinesOfItem(o, v, a, b)[i];
            GoodLine(l) && Deep(l)
  {
    var t := ItemTexts(o, v)[i];
    ItemTextsAreGood(o, v, i);
    assert LinesOfItem(o, v, a, b)[i] == Spaces(b) + t;
    FurtherLine(b, t, a);
  }

  lemma ItemIsGood(o: Oracle, v: Value, a: nat, b: nat)
    requires GoodOracle(o) && SafeItem(o, v) && a >= 1 && b >= 1
    ensures GoodBlock(LinesOfItem(o, v, a, b))
    ensures Indent(LinesOfItem(o, v, a, b)[0]) == a && IsDash(TrimStart(LinesOfItem(o, v, a, b)[0]))
  {
    var lines := LinesOfItem(o, v, a, b);
    forall i | 0 <= i < |lines|
      ensures GoodLine(lines[i]) && Deep(lines[i])
    {
      ItemLineIsGood(o, v, a, b, i);
    }
    ItemLineIsGood(o, v, a, b, 0);
  }

  lemma {:induction false} ItemsAreGood(o: Oracle, items: seq<Value>, a: nat, b: nat)
    requires GoodOracle(o) && SafeItems(o, items) && a >= 1 && b >= 1
    ensures GoodBlock(LinesOfItems(o, items, a, b))
    ensures items != [] ==>
              var lines := LinesOfItems(o, items, a, b);
              lines != [] && Indent(lines[0]) == a && IsDash(TrimStart(lines[0]))
    decreases |items|
  {
    if items != [] {
      ItemIsGood(o, items[|items| - 1], a, b);
      ItemsAreGood(o, items[..|items| - 1], a, b);
    }
  }

  lemma ItemsBlock(o: Oracle, items: seq<Value>, a: nat, b: nat)
    requires GoodOracle(o) && items != [] && SafeItems(o, items) && a >= 1 && b >= 1
    ensures IsBlock(LinesOfItems(o, items, a, b))
    ensures Block(o, LinesOfItems(o, items, a, b)) == Arr(items)
  {
    var lines := LinesOfItems(o, items, a, b);
    ItemsAreGood(o, items, a, b);
    assert GoodLine(lines[0]);
    NothingBlank(lines);
    ItemsAreGroups(o, items, a, b);
    GroupsFinish(o, Groups(lines, a), |lines|, items);
  }

  // ------------------------------------------------------------- main results

  /** A key with such items below it reads as the list of exactly these items,
      whatever follows. */
  lemma ItemsRead(o: Oracle, key: string, items: seq<Value>, a: nat, b: nat, after: seq<string>, acc: seq<Entry>)
    requires GoodOracle(o) && SafeKey(key) && items != [] && SafeItems(o, items) && a >= 1 && b >= 1
    requires after == [] || !Deep(after[0])
    ensures ParseLines(o, [key + ":"] + LinesOfItems(o, items, a, b) + after, acc)
            == ParseLines(o, after, Insert(acc, key, Arr(items)))
  {
    BareKeyLine(key);
    ItemsBlock(o, items, a, b);
    BlockStep(o, key + ":", LinesOfItems(o, items, a, b), after, acc);
  }

  /** The text of such a list reads as the list. */
  lemma ListOfMappingsReads(o: Oracle, key: string, items: seq<Value>, a: nat, b: nat)
    requires GoodOracle(o) && SafeKey(key) && items != [] && SafeItems(o, items) && a >= 1 && b >= 1
    ensures Parse(o, Join([key + ":"] + LinesOfItems(o, items, a, b))) == Obj([Entry(key, Arr(items))])
  {
    var lines := [key + ":"] + LinesOfItems(o, items, a, b);
    ItemsRead(o, key, items, a, b, [], []);
    assert lines + [] == lines;
    ItemsAreGood(o, items, a, b);
    BareKeyLine(key);
    assert GoodLines(lines);
    ParseJoined(o, lines, [Entry(key, Arr(items))]);
  }

  /** The end of a written scalar closes no bracket, so a field is not an inline collection. */
  lemma FieldIsNoFlow(o: Oracle, k: string, v: Value)
    requires GoodOracle(o) && SafeScalar(o, v)
    ensures var l := k + ": " + ScalarText(o, v);
            !Wrapped(l, '[', ']') && !Wrapped(l, '{', '}') && l != "null" && l != "~"
  {
    var l, t := k + ": " + ScalarText(o, v), ScalarText(o, v);
    ScalarReads(o, v);
    assert l[|l| - 1] == t[|t| - 1] && l[|k|] == ':' && l[|k| + 1] == ' ';
    ScalarTextEnds(o, v);
  }

  lemma ScalarTextEnds(o: Oracle, v: Value)
    requires GoodOracle(o) && SafeScalar(o, v)
    ensures var t := ScalarText(o, v); t != "" && t[|t| - 1] != ']' && t[|t| - 1] != '}'
  {
    match v {
      case Int(i) =>
        IntegerReads(i);
        var t := IntText(i);
        assert i < 0 ==> t[1..][|t| - 2] == t[|t| - 1];
        assert IsDigit(t[|t| - 1]);
      case Str(s) =>
        if !NeedsQuotes(s) {
          assert !Special(s[|s| - 1]);
        }
      case _ =>
    }
  }

  lemma NoMappingIsScalar(o: Oracle, e: Entry)
    requires GoodOracle(o) && SafeKey(e.key) && SafeScalar(o, e.value) && !BareKey(e.key)
    ensures FinishItem(o, [Field(o, e)]) == Scalar(o, Field(o, e)) && !Scalar(o, Field(o, e)).Obj?
  {
    FieldLooksLikeMapping(e.key, ScalarText(o, e.value));
    FieldReads(o, e);
    FieldIsNoFlow(o, e.key, e.value);
  }

  lemma LoneGroup(l: string, a: nat)
    requires StartsItem(l, a)
    ensures Groups([l], a) == [[ItemText(l)]]
  {
    GroupStarts([], l, a);
    assert [] + [l] == [l];
  }

  lemma LoneItem(o: Oracle, t: string)
    ensures FinishAll(o, [[t]], 1) == [FinishItem(o, [t])]
  {
    assert [[t]][..0] == [];
  }

  lemma LoneBlock(o: Oracle, e: Entry, a: nat)
    requires GoodOracle(o) && SafeKey(e.key) && SafeScalar(o, e.value) && a >= 1
    ensures var block := [Spaces(a) + "- " + Field(o, e)];
            IsBlock(block) && GoodLines(block) && Block(o, block) == Arr([FinishItem(o, [Field(o, e)])])
  {
    var l, t := Spaces(a) + "- " + Field(o, e), Field(o, e);
    FieldReads(o, e);
    DashLine(a, t);
    NothingBlank([l]);
    LoneGroup(l, a);
    LoneItem(o, t);
  }

  /** A single field behind a dash reads as a mapping exactly when its key is bare: not
      empty, without a space and without quotes. Otherwise it is one scalar. */
  lemma LoneFieldIff(o: Oracle, key: string, e: Entry, a: nat)
    requires GoodOracle(o) && SafeKey(key) && SafeKey(e.key) && SafeScalar(o, e.value) && a >= 1
    ensures Parse(o, Join([key + ":", Spaces(a) + "- " + e.key + ": " + ScalarText(o, e.value)]))
            == Obj([Entry(key, Arr([Obj([e])]))])
            <==> BareKey(e.key)
  {
    var block := [Spaces(a) + "- " + Field(o, e)];
    assert Spaces(a) + "- " + e.key + ": " + ScalarText(o, e.value) == block[0];
    LoneListReads(o, key, e, a);
    if BareKey(e.key) {
      assert ItemTexts(o, Obj([e])) == [Field(o, e)];
      ItemFinishes(o, Obj([e]));
    } else {
      NoMappingIsScalar(o, e);
    }
  }

  lemma LoneListReads(o: Oracle, key: string, e: Entry, a: nat)
    requires GoodOracle(o) && SafeKey(key) && SafeKey(e.key) && SafeScalar(o, e.value) && a >= 1
    ensures Parse(o, Join([key + ":", Spaces(a) + "- " + Field(o, e)]))
            == Obj([Entry(key, Arr([FinishItem(o, [Field(o, e)])]))])
  {
    var block := [Spaces(a) + "- " + Field(o, e)];
    var lines := [key + ":"] + block;
    LoneBlock(o, e, a);
    BareKeyLine(key);
    BlockStep(o, key + ":", block, [], []);
    assert lines + [] == lines && lines == [key + ":", block[0]];
    ParseJoined(o, lines, [Entry(key, Block(o, block))]);
  }
}
