/** Empty lists and objects below the top of a written tree. */
module FrontmatterEmpty {
  import opened Common
  import opened Frontmatter
  import opened FrontmatterRoundTrip

  /** The same value with null wherever a list or an object is empty. */
  function Nulled(v: Value): Value
    decreases v, 1
  {
    match v
    case Arr(items) => if items == [] then Null else v
    case Obj(es) => if es == [] then Null else Obj(NulledAll(es))
    case _ => v
  }

  function NulledAll(es: seq<Entry>): (r: seq<Entry>)
    ensures |r| == |es| && forall i | 0 <= i < |es| :: r[i].key == es[i].key
    decreases es, 0
  {
    if es == [] then [] else [Entry(es[0].key, Nulled(es[0].value))] + NulledAll(es[1..])
  }

  predicate Full(v: Value)
    decreases v, 1
  {
    match v
    case Arr(items) => items != []
    case Obj(es) => es != [] && AllFull(es)
    case _ => true
  }

  /** Nothing empty at any depth below these entries. */
  predicate AllFull(es: seq<Entry>)
    decreases es, 0
  {
    es == [] || (Full(es[0].value) && AllFull(es[1..]))
  }

  lemma {:induction false} FullIffSame(es: seq<Entry>)
    ensures NulledAll(es) == es <==> AllFull(es)
    decreases es, 0
  {
    if es != [] {
      FullIffSameValue(es[0].value);
      FullIffSame(es[1..]);
      assert NulledAll(es)[1..] == NulledAll(es[1..]);
      assert NulledAll(es)[0] == Entry(es[0].key, Nulled(es[0].value));
      assert es == [es[0]] + es[1..];
    }
  }

  lemma {:induction false} FullIffSameValue(v: Value)
    ensures Nulled(v) == v <==> Full(v)
    decreases v, 1
  {
    if v.Obj? {
      FullIffSame(v.entries);
    }
  }

  // ------------------------------------------------------- the lines as written

  function TextOfEntry(o: Oracle, e: Entry, level: nat): seq<string>
    decreases e, 1
  {
    match e.value
    case Obj(es) => [Pad(level) + e.key + ":"] + if es == [] then [""] else TextLines(o, es, level + 1)
    case _ => Pieces(o, e, level)
  }

  /** The serialized text line by line: an empty object leaves an empty line. */
  function TextLines(o: Oracle, es: seq<Entry>, level: nat): seq<string>
    decreases es, 0
  {
    if es == [] then [] else TextOfEntry(o, es[0], level) + TextLines(o, es[1..], level)
  }

  lemma {:induction false} SerializedText(o: Oracle, es: seq<Entry>, level: nat)
    requires es != []
    ensures TextLines(o, es, level) != [] && AllPieces(o, es, level) != []
    ensures Serialize(o, es, level) == Join(TextLines(o, es, level))
    decreases es, 0
  {
    EntryText(o, es[0], level);
    if es[1..] == [] {
      assert AllPieces(o, es, level) == Pieces(o, es[0], level);
      assert TextLines(o, es, level) == TextOfEntry(o, es[0], level);
    } else {
      SerializedText(o, es[1..], level);
      JoinAppend(Pieces(o, es[0], level), AllPieces(o, es[1..], level));
      JoinAppend(TextOfEntry(o, es[0], level), TextLines(o, es[1..], level));
    }
  }

  lemma {:induction false} EntryText(o: Oracle, e: Entry, level: nat)
    ensures Pieces(o, e, level) != [] && TextOfEntry(o, e, level) != []
    ensures Join(Pieces(o, e, level)) == Join(TextOfEntry(o, e, level))
    decreases e, 1
  {
    if e.value.Obj? && e.value.entries != [] {
      SerializedText(o, e.value.entries, level + 1);
      HeadJoins(Pad(level) + e.key + ":", Serialize(o, e.value.entries, level + 1),
                TextLines(o, e.value.entries, level + 1));
    }
  }

  lemma HeadJoins(head: string, nested: string, below: seq<string>)
    requires below != [] && Join(below) == nested
    ensures Join([head, nested]) == Join([head] + below)
  {
    TwoParts(head, [nested]);
    TwoParts(head, below);
    assert [head] + [nested] == [head, nested];
  }

  function NonEmpty(lines: seq<string>): seq<string> {
    if lines == [] then [] else (if lines[0] == "" then [] else [lines[0]]) + NonEmpty(lines[1..])
  }

  lemma {:induction false} NonEmptyConcat(a: seq<string>, b: seq<string>)
    ensures NonEmpty(a + b) == NonEmpty(a) + NonEmpty(b)
  {
    if a == [] {
      assert a + b == b;
    } else {
      assert (a + b)[1..] == a[1..] + b;
      NonEmptyConcat(a[1..], b);
    }
  }

  lemma {:induction false} AllStay(lines: seq<string>)
    requires forall i | 0 <= i < |lines| :: lines[i] != ""
    ensures NonEmpty(lines) == lines
  {
    if lines != [] {
      AllStay(lines[1..]);
    }
  }

  /** But for the empty lines, the text is that of the tree with nulls. */
  lemma {:induction false} TextThins(o: Oracle, es: seq<Entry>, level: nat)
    ensures NonEmpty(TextLines(o, es, level)) == Lines(o, NulledAll(es), level)
    decreases es, 0
  {
    if es != [] {
      EntryThins(o, es[0], level);
      TextThins(o, es[1..], level);
      NonEmptyConcat(TextOfEntry(o, es[0], level), TextLines(o, es[1..], level));
      assert NulledAll(es)[1..] == NulledAll(es[1..]);
    }
  }

  lemma {:induction false} EntryThins(o: Oracle, e: Entry, level: nat)
    ensures NonEmpty(TextOfEntry(o, e, level)) == EntryLines(o, Entry(e.key, Nulled(e.value)), level)
    decreases e, 1
  {
    match e.value {
      case Obj(es) =>
        var head := Pad(level) + e.key + ":";
        var below := if es == [] then [""] else TextLines(o, es, level + 1);
        NonEmptyConcat([head], below);
        AllStay([head]);
        TextThins(o, es, level + 1);
      case _ =>
        SameUnlessObject(o, e, level);
        AllStay(TextOfEntry(o, e, level));
    }
  }

  lemma SameUnlessObject(o: Oracle, e: Entry, level: nat)
    requires !e.value.Obj?
    ensures TextOfEntry(o, e, level) == EntryLines(o, Entry(e.key, Nulled(e.value)), level)
    ensures forall i | 0 <= i < |TextOfEntry(o, e, level)| :: TextOfEntry(o, e, level)[i] != ""
  {
  }

  predicate EmptyOrGood(lines: seq<string>) {
    forall i | 0 <= i < |lines| :: lines[i] == "" || GoodLine(lines[i])
  }

  lemma {:induction false} ThinnedIsGood(lines: seq<string>)
    requires GoodLines(NonEmpty(lines))
    ensures EmptyOrGood(lines) && NonBlank(lines) == NonEmpty(lines)
  {
    if lines != [] {
      var first := if lines[0] == "" then [] else [lines[0]];
      assert NonEmpty(lines) == first + NonEmpty(lines[1..]);
      assert forall i | 0 <= i < |NonEmpty(lines[1..])| ::
          NonEmpty(lines[1..])[i] == NonEmpty(lines)[|first| + i];
      ThinnedIsGood(lines[1..]);
      assert lines[0] != "" ==> GoodLine(NonEmpty(lines)[0]);
    }
  }

  // -------------------------------------------------------------- reading it

  lemma FirstTextLine(o: Oracle, es: seq<Entry>, level: nat)
    requires es != []
    ensures TextLines(o, es, level) != [] && Lines(o, NulledAll(es), level) != []
    ensures TextLines(o, es, level)[0] == Lines(o, NulledAll(es), level)[0]
  {
    EntryText(o, es[0], level);
    TextThins(o, es, level);
    var text := TextLines(o, es, level);
    assert text[0] == TextOfEntry(o, es[0], level)[0] != "";
  }

  lemma NestedReads(o: Oracle, es: seq<Entry>)
    requires GoodOracle(o) && es != [] && SafeEntries(o, NulledAll(es))
    ensures IsBlock(TextLines(o, es, 1)) && Block(o, TextLines(o, es, 1)) == Obj(NulledAll(es))
  {
    var text, lines := TextLines(o, es, 1), Lines(o, NulledAll(es), 1);
    FirstTextLine(o, es, 1);
    TextThins(o, es, 1);
    BelowObject(o, NulledAll(es));
    ThinnedIsGood(text);
    NothingBlank(lines);
    BlockReads(o, Obj(NulledAll(es)));
    TextIsDeep(text);
    assert !IsDash(TrimStart(lines[0]));
  }

  lemma {:induction false} TextIsDeep(text: seq<string>)
    requires forall i | 0 <= i < |NonEmpty(text)| :: Deep(NonEmpty(text)[i])
    ensures forall i | 0 <= i < |text| :: Deep(text[i])
  {
    if text != [] {
      var first := if text[0] == "" then [] else [text[0]];
      assert forall i | 0 <= i < |NonEmpty(text[1..])| :: NonEmpty(text[1..])[i] == NonEmpty(text)[|first| + i];
      TextIsDeep(text[1..]);
      assert text[0] != "" ==> Deep(NonEmpty(text)[0]);
    }
  }

  lemma EmptyObjectReads(o: Oracle, key: string, after: seq<string>, acc: seq<Entry>)
    requires SafeKey(key)
    ensures ParseLines(o, [key + ":"] + [""] + after, acc) == ParseLines(o, after, Insert(acc, key, Null))
  {
    BareKeyLine(key);
    assert [key + ":"] + [""] + after == [key + ":"] + ([""] + after);
    NullStep(o, key + ":", [""] + after, acc);
    assert ([""] + after)[1..] == after;
  }

  lemma ObjectReads(o: Oracle, key: string, es: seq<Entry>, after: seq<string>, acc: seq<Entry>)
    requires GoodOracle(o) && SafeKey(key) && es != [] && SafeEntries(o, NulledAll(es))
    requires after == [] || !Deep(after[0])
    ensures ParseLines(o, [key + ":"] + TextLines(o, es, 1) + after, acc)
            == ParseLines(o, after, Insert(acc, key, Obj(NulledAll(es))))
  {
    BareKeyLine(key);
    NestedReads(o, es);
    BlockStep(o, key + ":", TextLines(o, es, 1), after, acc);
  }

  lemma EntryTextReads(o: Oracle, e: Entry, after: seq<string>, acc: seq<Entry>)
    requires GoodOracle(o) && SafeKey(e.key) && SafeValue(o, Nulled(e.value)) && !HasKey(acc, e.key)
    requires after == [] || !Deep(after[0])
    ensures ParseLines(o, TextOfEntry(o, e, 0) + after, acc)
            == ParseLines(o, after, acc + [Entry(e.key, Nulled(e.value))])
  {
    InsertsAtEnd(acc, e.key, Nulled(e.value));
    assert Pad(0) + e.key + ":" == e.key + ":";
    match e.value {
      case Obj(es) =>
        if es == [] {
          EmptyObjectReads(o, e.key, after, acc);
        } else {
          ObjectReads(o, e.key, es, after, acc);
        }
      case _ =>
        SameUnlessObject(o, e, 0);
        EntryReads(o, Entry(e.key, Nulled(e.value)), after, acc);
    }
  }

  lemma TextEndsBlock(o: Oracle, es: seq<Entry>)
    requires GoodOracle(o) && SafeEntries(o, NulledAll(es))
    ensures TextLines(o, es, 0) == [] || !Deep(TextLines(o, es, 0)[0])
  {
    if es != [] {
      FirstTextLine(o, es, 0);
      FirstLineEndsBlock(o, NulledAll(es));
    }
  }

  /** The parser reads the written lines as the tree with nulls. */
  lemma {:induction false} TextReads(o: Oracle, es: seq<Entry>, acc: seq<Entry>)
    requires GoodOracle(o) && SafeEntries(o, NulledAll(es)) && Apart(acc, NulledAll(es))
    ensures ParseLines(o, TextLines(o, es, 0), acc) == acc + NulledAll(es)
    decreases |es|
  {
    if es == [] {
      assert acc + NulledAll(es) == acc;
    } else {
      var nulled := NulledAll(es);
      assert nulled[1..] == NulledAll(es[1..]);
      ApartMoves(acc, nulled);
      TextEndsBlock(o, es[1..]);
      EntryTextReads(o, es[0], TextLines(o, es[1..], 0), acc);
      TextReads(o, es[1..], acc + [nulled[0]]);
      Regroup(acc, nulled);
    }
  }

  lemma TextIsGood(o: Oracle, es: seq<Entry>)
    requires GoodOracle(o) && SafeEntries(o, NulledAll(es))
    ensures EmptyOrGood(TextLines(o, es, 0))
  {
    TextThins(o, es, 0);
    LinesAreGood(o, NulledAll(es));
    ThinnedIsGood(TextLines(o, es, 0));
  }

  lemma ParseText(o: Oracle, text: seq<string>, es: seq<Entry>)
    requires text != [] && EmptyOrGood(text) && ParseLines(o, text, []) == es
    ensures Parse(o, Join(text)) == Obj(es)
  {
    SplitJoin(text);
    assert StripAll(text) == text;
  }

  /** Whatever is empty below the top is read back as null, and nothing else changes. */
  lemma EmptyReadsAsNull(o: Oracle, es: seq<Entry>)
    requires GoodOracle(o) && SafeEntries(o, NulledAll(es))
    ensures Parse(o, Serialize(o, es, 0)) == Obj(NulledAll(es))
  {
    if es == [] {
      NothingReads(o);
    } else {
      SerializedText(o, es, 0);
      TextIsGood(o, es);
      TextReads(o, es, []);
      ParseText(o, TextLines(o, es, 0), NulledAll(es));
    }
  }

  /** A tree with safe keys and leaves survives exactly when nothing below the top is empty. */
  lemma TreeSurvivesIff(o: Oracle, es: seq<Entry>)
    requires GoodOracle(o) && SafeEntries(o, NulledAll(es))
    ensures Parse(o, Serialize(o, es, 0)) == Obj(es) <==> AllFull(es)
  {
    EmptyReadsAsNull(o, es);
    FullIffSame(es);
  }
}
