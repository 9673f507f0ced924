/** Masking secret values in the output of a run. */
module Masker {
  const MASK := "***"

  // ------------------------------------------------------------- occurrences

  predicate OccursAt(text: string, p: nat, v: string) {
    p + |v| <= |text| && forall i | 0 <= i < |v| :: v[i] == text[p + i]
  }

  predicate Contains(text: string, v: string) {
    v <= text || (text != "" && Contains(text[1..], v))
  }

  lemma OccursAtStart(text: string, v: string)
    ensures OccursAt(text, 0, v) <==> v <= text
  {
    if OccursAt(text, 0, v) {
      assert v == text[..|v|];
    }
  }

  lemma OccursIff(text: string, p: nat, v: string)
    ensures OccursAt(text, p, v) <==> p + |v| <= |text| && text[p..p + |v|] == v
  {
    if OccursAt(text, p, v) {
      assert text[p..p + |v|] == v;
    } else if p + |v| <= |text| {
      var i :| 0 <= i < |v| && v[i] != text[p + i];
      assert text[p..p + |v|][i] == text[p + i];
    }
  }

  lemma {:induction false} ContainsIff(text: string, v: string)
    ensures Contains(text, v) <==> exists p :: 0 <= p <= |text| && OccursAt(text, p, v)
  {
    OccursAtStart(text, v);
    if text != "" {
      ContainsIff(text[1..], v);
      if Contains(text[1..], v) {
        var p :| 0 <= p <= |text[1..]| && OccursAt(text[1..], p, v);
        assert OccursAt(text, p + 1, v);
      }
      if p :| 0 < p <= |text| && OccursAt(text, p, v) {
        assert OccursAt(text[1..], p - 1, v);
      }
    }
  }

  // ------------------------------------------------------------- replacement

  /** Leftmost non-overlapping occurrences of `v`, each replaced by the mask. */
  function Replace(text: string, v: string): string
    requires v != ""
    decreases |text|
  {
    if text == "" then ""
    else if v <= text then MASK + Replace(text[|v|..], v)
    else [text[0]] + Replace(text[1..], v)
  }

  predicate NonEmpty(values: seq<string>) {
    forall i | 0 <= i < |values| :: values[i] != ""
  }

  /** All values in turn, each on the result of the ones before it. */
  function Masked(values: seq<string>, text: string): string
    requires NonEmpty(values)
  {
    if values == [] then text
    else Replace(Masked(values[..|values| - 1], text), values[|values| - 1])
  }

  lemma {:induction false} ReplaceNothing(text: string, v: string)
    requires v != "" && !Contains(text, v)
    ensures Replace(text, v) == text
  {
    if text != "" {
      ReplaceNothing(text[1..], v);
    }
  }

  lemma {:induction false} ReplaceSkips(text: string, v: string, k: nat)
    requires v != "" && k <= |text| && forall p | 0 <= p < k :: !OccursAt(text, p, v)
    ensures Replace(text, v) == text[..k] + Replace(text[k..], v)
  {
    if k == 0 {
      assert text[0..] == text;
    } else {
      assert !OccursAt(text, 0, v);
      forall p | 0 <= p < k - 1
        ensures !OccursAt(text[1..], p, v)
      {
        assert !OccursAt(text, p + 1, v);
      }
      ReplaceSkips(text[1..], v, k - 1);
      assert text[1..][k - 1..] == text[k..];
      assert text[..k] == [text[0]] + text[1..][..k - 1];
    }
  }

  lemma {:induction false} ShortContainsNothing(text: string, v: string)
    requires |text| < |v|
    ensures !Contains(text, v)
  {
    if text != "" {
      ShortContainsNothing(text[1..], v);
    }
  }

  // ------------------------------------------------------- what can be masked

  predicate MaskAt(v: string, p: nat) {
    p + 3 <= |v| && v[p] == '*' && v[p + 1] == '*' && v[p + 2] == '*'
  }

  /** A value that a mask cannot help to spell: no `*` at either end, no `***`. */
  predicate Maskable(v: string) {
    v != "" && v[0] != '*' && v[|v| - 1] != '*' && forall p | 0 <= p < |v| :: !MaskAt(v, p)
  }

  lemma MaskIsNoPrefix(u: string, rest: string)
    requires u != "" && u[|u| - 1] != '*' && !MaskAt(u, 0)
    ensures !(u <= MASK + rest)
  {
    var out := MASK + rest;
    if |u| < 3 {
      assert out[|u| - 1] == '*';
    } else {
      assert out[0] == out[1] == out[2] == '*';
    }
  }

  /** A piece of the result that ends before the next mask was there already. */
  lemma {:induction false} PrefixWasThere(text: string, w: string, u: string)
    requires w != "" && u <= Replace(text, w)
    requires u != "" ==> u[|u| - 1] != '*'
    requires forall p | 0 <= p < |u| :: !MaskAt(u, p)
    ensures u <= text
    decreases |text|
  {
    if u != "" && text != "" {
      if w <= text {
        MaskIsNoPrefix(u, Replace(text[|w|..], w));
      } else {
        assert forall p | 0 <= p < |u[1..]| :: MaskAt(u[1..], p) ==> MaskAt(u, p + 1);
        PrefixWasThere(text[1..], w, u[1..]);
      }
    }
  }

  lemma NotAcrossAStar(rest: string, v: string)
    requires v != "" && v[0] != '*' && !Contains(rest, v)
    ensures !Contains("*" + rest, v)
  {
    assert ("*" + rest)[1..] == rest && ("*" + rest)[0] == '*';
  }

  lemma NotAcrossTheMask(rest: string, v: string)
    requires v != "" && v[0] != '*' && !Contains(rest, v)
    ensures !Contains(MASK + rest, v)
  {
    NotAcrossAStar(rest, v);
    NotAcrossAStar("*" + rest, v);
    NotAcrossAStar("*" + ("*" + rest), v);
    assert "*" + ("*" + ("*" + rest)) == MASK + rest;
  }

  lemma DropContains(text: string, k: nat, v: string)
    requires k <= |text| && Contains(text[k..], v)
    ensures Contains(text, v)
  {
    ContainsIff(text[k..], v);
    var p :| 0 <= p <= |text[k..]| && OccursAt(text[k..], p, v);
    assert OccursAt(text, k + p, v);
    ContainsIff(text, v);
  }

  /** One pass removes its own value and brings no maskable value back. */
  lemma {:induction false} PassLeavesNone(text: string, w: string, v: string)
    requires w != "" && Maskable(v) && (w == v || !Contains(text, v))
    ensures !Contains(Replace(text, w), v)
    decreases |text|
  {
    if text != "" && w <= text {
      var rest := text[|w|..];
      if Contains(rest, v) {
        DropContains(text, |w|, v);
      }
      PassLeavesNone(rest, w, v);
      NotAcrossTheMask(Replace(rest, w), v);
    } else if text != "" {
      PassLeavesNone(text[1..], w, v);
      assert Replace(text, w)[1..] == Replace(text[1..], w);
      if v <= Replace(text, w) {
        PrefixWasThere(text, w, v);
      }
    }
  }

  /** Masking is complete: whatever the text and whatever other values there are,
      however they overlap, no maskable value is left. */
  lemma {:induction false} MaskedLeavesNone(values: seq<string>, text: string, v: string)
    requires NonEmpty(values) && v in values && Maskable(v)
    ensures !Contains(Masked(values, text), v)
  {
    var init, last := values[..|values| - 1], values[|values| - 1];
    if last != v {
      assert values == init + [last];
      MaskedLeavesNone(init, text, v);
    }
    assert NonEmpty(init);
    PassLeavesNone(Masked(init, text), last, v);
  }

  /** The first `***` in `v`, or its end. */
  function FirstMask(v: string, from: nat): (k: nat)
    requires from <= |v|
    ensures from <= k <= |v|
    ensures k < |v| ==> MaskAt(v, k)
    ensures forall p | from <= p < k :: !MaskAt(v, p)
    decreases |v| - from
  {
    if from == |v| || MaskAt(v, from) then from else FirstMask(v, from + 1)
  }

  lemma LeadingStarReveals(v: string)
    requires v != "" && v[0] == '*'
    ensures Contains(Replace(v + v[1..], v), v)
  {
    var text := v + v[1..];
    assert v <= text && text[|v|..] == v[1..];
    ShortContainsNothing(v[1..], v);
    ReplaceNothing(v[1..], v);
    var out := MASK + v[1..];
    assert OccursAt(out, 2, v);
    ContainsIff(out, v);
  }

  lemma ReplaceInside(x: string, v: string, y: string)
    requires v != "" && |y| < |v|
    requires forall p | 0 <= p < |x| :: !OccursAt(x + v + y, p, v)
    ensures Replace(x + v + y, v) == x + MASK + y
  {
    var text := x + v + y;
    ReplaceSkips(text, v, |x|);
    assert text[|x|..] == v + y && (v + y)[|v|..] == y && text[..|x|] == x;
    ShortContainsNothing(y, v);
    ReplaceNothing(y, v);
    assert x + (MASK + y) == x + MASK + y;
  }

  lemma TrailingStarReveals(v: string)
    requires v != "" && v[0] != '*' && v[|v| - 1] == '*'
    ensures Contains(Replace(v[..|v| - 1] + v + "", v), v)
  {
    var x := v[..|v| - 1];
    forall p | 0 <= p < |x|
      ensures !OccursAt(x + v + "", p, v)
    {
      NotBeforeTheStar(v, p);
    }
    ReplaceInside(x, v, "");
    StarFromTheMask(v);
  }

  lemma StarFromTheMask(v: string)
    requires v != "" && v[|v| - 1] == '*'
    ensures Contains(v[..|v| - 1] + MASK + "", v)
  {
    var out := v[..|v| - 1] + MASK + "";
    assert OccursAt(out, 0, v);
    ContainsIff(out, v);
  }

  lemma NotBeforeTheStar(v: string, p: nat)
    requires p + 1 < |v| && v[0] != '*' && v[|v| - 1] == '*'
    ensures !OccursAt(v[..|v| - 1] + v + "", p, v)
  {
    var x := v[..|v| - 1];
    var text := x + v + "";
    assert text[p] == v[p] && text[p + |x|] == v[p];
  }

  lemma NotBeforeTheMask(v: string, k: nat, text: string, p: nat)
    requires MaskAt(v, k) && p < k && !MaskAt(v, p)
    requires v[..k] + v <= text
    ensures !OccursAt(text, p, v)
  {
    var i := if v[p] != '*' then 0 else if v[p + 1] != '*' then 1 else 2;
    assert text[p + (k + i)] == (v[..k] + v)[p + (k + i)] == v[p + i];
  }

  lemma MaskSplits(v: string, k: nat)
    requires MaskAt(v, k)
    ensures v[..k] + MASK + v[k + 3..] == v
  {
    assert v[k..k + 3] == MASK;
    assert v == v[..k] + v[k..k + 3] + v[k + 3..];
  }

  lemma InnerMaskReveals(v: string, k: nat)
    requires v != "" && v[0] != '*' && MaskAt(v, k) && forall p | 0 <= p < k :: !MaskAt(v, p)
    ensures Contains(Replace(v[..k] + v + v[k + 3..], v), v)
  {
    var x, y := v[..k], v[k + 3..];
    var text := x + v + y;
    forall p | 0 <= p < k
      ensures !OccursAt(text, p, v)
    {
      NotBeforeTheMask(v, k, text, p);
    }
    ReplaceInside(x, v, y);
    MaskSplits(v, k);
    assert OccursAt(v, 0, v);
    ContainsIff(v, v);
  }

  ghost predicate AlwaysMasked(v: string)
    requires v != ""
  {
    forall text :: !Contains(Replace(text, v), v)
  }

  /** Masking a value is safe exactly when it neither starts nor ends with `*` and
      has no `***` inside. */
  lemma MaskableIff(v: string)
    requires v != ""
    ensures Maskable(v) <==> AlwaysMasked(v)
  {
    if Maskable(v) {
      forall text
        ensures !Contains(Replace(text, v), v)
      {
        PassLeavesNone(text, v, v);
      }
    } else if v[0] == '*' {
      LeadingStarReveals(v);
    } else if v[|v| - 1] == '*' {
      TrailingStarReveals(v);
    } else {
      var k := FirstMask(v, 0);
      InnerMaskReveals(v, k);
    }
  }

  // -------------------------------------------------------- what masking keeps

  /** A text as it reads before (`Source`) and after (`Shown`) masking. */
  datatype Piece = Keep(c: char) | Hide(v: string)

  function Source(ps: seq<Piece>): string {
    if ps == [] then "" else (if ps[0].Keep? then [ps[0].c] else ps[0].v) + Source(ps[1..])
  }

  function Shown(ps: seq<Piece>): string {
    if ps == [] then "" else (if ps[0].Keep? then [ps[0].c] else MASK) + Shown(ps[1..])
  }

  predicate HidesOnly(ps: seq<Piece>, values: seq<string>) {
    forall i | 0 <= i < |ps| && ps[i].Hide? :: ps[i].v in values
  }

  function Kept(text: string): seq<Piece> {
    seq(|text|, i requires 0 <= i < |text| => Keep(text[i]))
  }

  lemma {:induction false} KeptReads(text: string)
    ensures Source(Kept(text)) == text && Shown(Kept(text)) == text
  {
    if text != "" {
      KeptReads(text[1..]);
      assert Kept(text)[1..] == Kept(text[1..]);
    }
  }

  lemma ReplacePastAStar(rest: string, w: string)
    requires w != "" && w[0] != '*'
    ensures Replace("*" + rest, w) == "*" + Replace(rest, w)
  {
    assert ("*" + rest)[1..] == rest && ("*" + rest)[0] == '*';
  }

  lemma ReplacePastTheMask(rest: string, w: string)
    requires w != "" && w[0] != '*'
    ensures Replace(MASK + rest, w) == MASK + Replace(rest, w)
  {
    ReplacePastAStar(rest, w);
    ReplacePastAStar("*" + rest, w);
    ReplacePastAStar("*" + ("*" + rest), w);
    assert "*" + ("*" + ("*" + rest)) == MASK + rest;
  }

  lemma PutBack(u: string, rest: string)
    requires u != ""
    ensures [u[0]] + (u[1..] + rest) == u + rest
  {
  }

  lemma NoMaskInTail(u: string)
    requires u != "" && forall p | 0 <= p < |u| :: !MaskAt(u, p)
    ensures forall p | 0 <= p < |u[1..]| :: !MaskAt(u[1..], p)
  {
    forall p | 0 <= p < |u[1..]|
      ensures !MaskAt(u[1..], p)
    {
      assert !MaskAt(u, p + 1);
    }
  }

  /** A maskable value is only ever found in what was kept. */
  lemma {:induction false} FoundIsKept(ps: seq<Piece>, u: string)
    requires u <= Shown(ps)
    requires u != "" ==> u[|u| - 1] != '*'
    requires forall p | 0 <= p < |u| :: !MaskAt(u, p)
    ensures |u| <= |ps|
    ensures Source(ps) == u + Source(ps[|u|..]) && Shown(ps) == u + Shown(ps[|u|..])
  {
    if u != "" {
      if ps[0].Hide? {
        MaskIsNoPrefix(u, Shown(ps[1..]));
      }
      NoMaskInTail(u);
      assert Shown(ps)[1..] == Shown(ps[1..]);
      FoundIsKept(ps[1..], u[1..]);
      assert ps[1..][|u[1..]|..] == ps[|u|..];
      PutBack(u, Source(ps[|u|..]));
      PutBack(u, Shown(ps[|u|..]));
    } else {
      assert ps[0..] == ps;
    }
  }

  lemma {:induction false} PassRedacts(ps: seq<Piece>, values: seq<string>, w: string) returns (qs: seq<Piece>)
    requires HidesOnly(ps, values) && w in values && Maskable(w)
    ensures Source(qs) == Source(ps) && Shown(qs) == Replace(Shown(ps), w) && HidesOnly(qs, values)
    decreases |ps|
  {
    if ps == [] {
      qs := [];
    } else if ps[0].Hide? {
      var rest := PassRedacts(ps[1..], values, w);
      ReplacePastTheMask(Shown(ps[1..]), w);
      qs := [ps[0]] + rest;
    } else if w <= Shown(ps) {
      FoundIsKept(ps, w);
      var rest := PassRedacts(ps[|w|..], values, w);
      assert Shown(ps)[|w|..] == Shown(ps[|w|..]);
      qs := [Hide(w)] + rest;
    } else {
      var rest := PassRedacts(ps[1..], values, w);
      assert Shown(ps)[1..] == Shown(ps[1..]);
      qs := [ps[0]] + rest;
    }
  }

  predicate AllMaskable(values: seq<string>) {
    forall i | 0 <= i < |values| :: Maskable(values[i])
  }

  /** The output is the input with some disjoint occurrences of secrets replaced
      by the mask and every other character kept in place. */
  lemma {:induction false} MaskedRedacts(values: seq<string>, text: string, all: seq<string>) returns (ps: seq<Piece>)
    requires NonEmpty(values) && AllMaskable(values) && forall v | v in values :: v in all
    ensures Source(ps) == text && Shown(ps) == Masked(values, text) && HidesOnly(ps, all)
  {
    if values == [] {
      ps := Kept(text);
      KeptReads(text);
    } else {
      var init, last := values[..|values| - 1], values[|values| - 1];
      assert values == init + [last];
      ps := MaskedRedacts(init, text, all);
      ps := PassRedacts(ps, all, last);
    }
  }

  lemma {:induction false} NothingToMask(values: seq<string>, text: string)
    requires NonEmpty(values) && forall v | v in values :: !Contains(text, v)
    ensures Masked(values, text) == text
  {
    if values != [] {
      var init, last := values[..|values| - 1], values[|values| - 1];
      assert values == init + [last];
      NothingToMask(init, text);
      ReplaceNothing(text, last);
    }
  }

  lemma MaskingTwiceIsMaskingOnce(values: seq<string>, text: string)
    requires NonEmpty(values) && AllMaskable(values)
    ensures Masked(values, Masked(values, text)) == Masked(values, text)
  {
    forall v | v in values
      ensures !Contains(Masked(values, text), v)
    {
      MaskedLeavesNone(values, text, v);
    }
    NothingToMask(values, Masked(values, text));
  }

  /** Replacing a value changes the length in one direction. */
  lemma {:induction false} ReplaceResizes(text: string, v: string)
    requires v != ""
    ensures |v| >= |MASK| ==> |Replace(text, v)| <= |text|
    ensures |v| <= |MASK| ==> |Replace(text, v)| >= |text|
    ensures Contains(text, v) && |v| != |MASK| ==> |Replace(text, v)| != |text|
  {
    if v <= text {
      ReplaceResizes(text[|v|..], v);
    } else if text != "" {
      ReplaceResizes(text[1..], v);
    }
  }

  lemma {:induction false} ReplaceRewrites(text: string, v: string)
    requires |v| == |MASK| && v != MASK && Contains(text, v)
    ensures Replace(text, v) != text
  {
    if v <= text {
      assert Replace(text, v)[..|MASK|] == MASK && text[..|v|] == v;
    } else {
      ReplaceRewrites(text[1..], v);
      assert Replace(text, v)[1..] == Replace(text[1..], v);
    }
  }

  ghost predicate OnceIsEnough(v: string)
    requires v != ""
  {
    forall text :: Replace(Replace(text, v), v) == Replace(text, v)
  }

  /** Masking one secret again changes nothing, in any text, exactly when the secret
      is maskable or is the mask itself. */
  lemma OnceIsEnoughIff(v: string)
    requires v != ""
    ensures OnceIsEnough(v) <==> Maskable(v) || v == MASK
  {
    MaskableIff(v);
    if Maskable(v) {
      forall text
        ensures Replace(Replace(text, v), v) == Replace(text, v)
      {
        ReplaceNothing(Replace(text, v), v);
      }
    } else if v == MASK {
      forall text
        ensures Replace(text, v) == text
      {
        MaskForMask(text);
      }
    } else {
      var text :| Contains(Replace(text, v), v);
      ReplaceResizes(Replace(text, v), v);
      if |v| == |MASK| {
        ReplaceRewrites(Replace(text, v), v);
      }
    }
  }

  lemma {:induction false} MaskForMask(text: string)
    ensures Replace(text, MASK) == text
  {
    if MASK <= text {
      MaskForMask(text[|MASK|..]);
      assert text == MASK + text[|MASK|..];
    } else if text != "" {
      MaskForMask(text[1..]);
    }
  }

  // --------------------------------------------------------------- longest first

  /** Bytes of a character in UTF-8. */
  function Width(c: char): nat {
    if c as int < 0x80 then 1 else if c as int < 0x800 then 2 else if c as int < 0x10000 then 3 else 4
  }

  /** One byte up to 7 bits, two up to 11, three up to 16, four beyond. */
  lemma WidthIs(c: char)
    ensures 1 <= Width(c) <= 4
    ensures Width(c) == 1 <==> c <= '\U{7F}'
    ensures Width(c) <= 2 <==> c <= '\U{7FF}'
    ensures Width(c) <= 3 <==> c <= '\U{FFFF}'
  {
  }

  function ByteLen(s: string): nat {
    if s == "" then 0 else Width(s[0]) + ByteLen(s[1..])
  }

  lemma {:induction false} ByteLenAdds(a: string, b: string)
    ensures ByteLen(a + b) == ByteLen(a) + ByteLen(b)
    ensures a != "" ==> ByteLen(a) > 0
  {
    if a == "" {
      assert a + b == b;
    } else {
      assert (a + b)[1..] == a[1..] + b;
      ByteLenAdds(a[1..], b);
    }
  }

  lemma PartIsShorter(part: string, whole: string)
    requires Contains(whole, part) && part != whole
    ensures ByteLen(part) < ByteLen(whole)
  {
    ContainsIff(whole, part);
    var p :| 0 <= p <= |whole| && OccursAt(whole, p, part);
    var before, behind := whole[..p], whole[p + |part|..];
    assert whole[p..p + |part|] == part;
    assert whole == before + (part + behind);
    ByteLenAdds(before, part + behind);
    ByteLenAdds(part, behind);
    ByteLenAdds(behind, "");
    assert before + (part + "") == part || before != "" || behind != "";
  }

  predicate Descending(vs: seq<string>) {
    forall i, j | 0 <= i < j < |vs| :: ByteLen(vs[i]) >= ByteLen(vs[j])
  }

  /** One step of a stable sort, longest first. */
  function Insert(vs: seq<string>, v: string): seq<string> {
    if vs == [] || ByteLen(vs[|vs| - 1]) >= ByteLen(v) then vs + [v]
    else Insert(vs[..|vs| - 1], v) + [vs[|vs| - 1]]
  }

  function Sorted(vs: seq<string>): seq<string> {
    if vs == [] then [] else Insert(Sorted(vs[..|vs| - 1]), vs[|vs| - 1])
  }

  predicate Precedes(vs: seq<string>, a: string, b: string) {
    exists k, l :: 0 <= k < l < |vs| && vs[k] == a && vs[l] == b
  }

  /** Secrets of the same length stay in the order they came in. */
  predicate KeepsTies(vs: seq<string>, out: seq<string>) {
    forall i, j | 0 <= i < j < |out| && ByteLen(out[i]) == ByteLen(out[j]) :: Precedes(vs, out[i], out[j])
  }

  lemma PrecedesStill(vs: seq<string>, v: string, a: string, b: string)
    requires Precedes(vs, a, b) || (a in vs && b == v)
    ensures Precedes(vs + [v], a, b)
  {
    var longer := vs + [v];
    if Precedes(vs, a, b) {
      var k, l :| 0 <= k < l < |vs| && vs[k] == a && vs[l] == b;
      assert longer[k] == a && longer[l] == b;
    } else {
      var k :| 0 <= k < |vs| && vs[k] == a;
      assert longer[k] == a && longer[|vs|] == b;
    }
  }

  lemma {:induction false} InsertKeepsTies(vs: seq<string>, out: seq<string>, v: string)
    requires Descending(out) && KeepsTies(vs, out) && forall u | u in out :: u in vs
    ensures KeepsTies(vs + [v], Insert(out, v))
    decreases |out|
  {
    var placed := Insert(out, v);
    if out == [] {
    } else if ByteLen(out[|out| - 1]) >= ByteLen(v) {
      forall i, j | 0 <= i < j < |placed| && ByteLen(placed[i]) == ByteLen(placed[j])
        ensures Precedes(vs + [v], placed[i], placed[j])
      {
        PrecedesStill(vs, v, placed[i], placed[j]);
      }
    } else {
      var init, last := out[..|out| - 1], out[|out| - 1];
      InsertKeepsTies(vs, init, v);
      InsertAdds(init, v);
      forall i | 0 <= i < |placed| - 1 && ByteLen(placed[i]) == ByteLen(last)
        ensures Precedes(vs + [v], placed[i], last)
      {
        assert placed[i] == Insert(init, v)[i] && placed[i] in multiset(Insert(init, v));
        assert placed[i] != v && placed[i] in init;
        var k :| 0 <= k < |init| && init[k] == placed[i];
        assert out[k] == placed[i];
        PrecedesStill(vs, v, placed[i], last);
      }
    }
  }

  lemma SortedAreThose(vs: seq<string>)
    ensures forall u | u in Sorted(vs) :: u in vs
  {
    SortedSorts(vs);
    forall u | u in Sorted(vs)
      ensures u in vs
    {
      assert u in multiset(Sorted(vs));
    }
  }

  lemma {:induction false} SortedKeepsTies(vs: seq<string>)
    ensures KeepsTies(vs, Sorted(vs))
  {
    if vs != [] {
      var init, last := vs[..|vs| - 1], vs[|vs| - 1];
      SortedKeepsTies(init);
      SortedSorts(init);
      SortedAreThose(init);
      InsertKeepsTies(init, Sorted(init), last);
      assert vs == init + [last];
    }
  }

  /** Drops repetitions that stand next to each other. */
  function Dedup(vs: seq<string>): seq<string> {
    if |vs| < 2 then vs
    else if vs[|vs| - 1] == vs[|vs| - 2] then Dedup(vs[..|vs| - 1])
    else Dedup(vs[..|vs| - 1]) + [vs[|vs| - 1]]
  }

  predicate NoTwins(vs: seq<string>) {
    forall i | 0 <= i < |vs| - 1 :: vs[i] != vs[i + 1]
  }

  function Values(env: seq<(string, string)>): seq<string> {
    if env == [] then []
    else Values(env[..|env| - 1]) + if env[|env| - 1].1 != "" then [env[|env| - 1].1] else []
  }

  lemma {:induction false} InsertAdds(vs: seq<string>, v: string)
    ensures multiset(Insert(vs, v)) == multiset(vs) + multiset{v}
  {
    if vs != [] && ByteLen(vs[|vs| - 1]) < ByteLen(v) {
      InsertAdds(vs[..|vs| - 1], v);
      assert vs == vs[..|vs| - 1] + [vs[|vs| - 1]];
    }
  }

  lemma {:induction false} InsertSorts(vs: seq<string>, v: string)
    requires Descending(vs)
    ensures Descending(Insert(vs, v))
    ensures forall i | 0 <= i < |Insert(vs, v)| ::
              || ByteLen(Insert(vs, v)[i]) >= ByteLen(v)
              || (vs != [] && ByteLen(Insert(vs, v)[i]) >= ByteLen(vs[|vs| - 1]))
  {
    if vs != [] && ByteLen(vs[|vs| - 1]) < ByteLen(v) {
      var init := vs[..|vs| - 1];
      InsertSorts(init, v);
      assert init != [] ==> ByteLen(init[|init| - 1]) >= ByteLen(vs[|vs| - 1]);
    }
  }

  lemma {:induction false} SortedSorts(vs: seq<string>)
    ensures Descending(Sorted(vs)) && multiset(Sorted(vs)) == multiset(vs)
  {
    if vs != [] {
      SortedSorts(vs[..|vs| - 1]);
      InsertAdds(Sorted(vs[..|vs| - 1]), vs[|vs| - 1]);
      InsertSorts(Sorted(vs[..|vs| - 1]), vs[|vs| - 1]);
      assert vs == vs[..|vs| - 1] + [vs[|vs| - 1]];
    }
  }

  lemma {:induction false} DedupKeeps(vs: seq<string>)
    requires Descending(vs)
    ensures Descending(Dedup(vs)) && forall v :: v in Dedup(vs) <==> v in vs
  {
    if |vs| >= 2 {
      var init, last := vs[..|vs| - 1], vs[|vs| - 1];
      assert vs == init + [last];
      DedupKeeps(init);
      forall i | 0 <= i < |Dedup(init)|
        ensures ByteLen(Dedup(init)[i]) >= ByteLen(last)
      {
        assert Dedup(init)[i] in init;
      }
    }
  }

  lemma {:induction false} DedupLeavesNoTwins(vs: seq<string>)
    ensures NoTwins(Dedup(vs)) && (vs != [] ==> Dedup(vs) != [] && Dedup(vs)[|Dedup(vs)| - 1] == vs[|vs| - 1])
  {
    if |vs| >= 2 {
      DedupLeavesNoTwins(vs[..|vs| - 1]);
    }
  }

  predicate IsSecret(env: seq<(string, string)>, v: string) {
    v != "" && exists i | 0 <= i < |env| :: env[i].1 == v
  }

  lemma {:induction false} ValuesAre(env: seq<(string, string)>, v: string)
    ensures v in Values(env) <==> IsSecret(env, v)
  {
    if env != [] {
      var init := env[..|env| - 1];
      ValuesAre(init, v);
      assert env == init + [env[|env| - 1]];
    }
  }

  /** The masker's list: every non-empty secret, a secret always after those it
      is part of. */
  function NewMasker(env: seq<(string, string)>): seq<string> {
    Dedup(Sorted(Values(env)))
  }

  lemma MembersAreNonEmpty(vs: seq<string>)
    ensures (forall v | v in vs :: v != "") ==> NonEmpty(vs)
  {
    assert forall i | 0 <= i < |vs| :: vs[i] in vs;
  }

  lemma NewMaskerHolds(env: seq<(string, string)>)
    ensures NonEmpty(NewMasker(env)) && Descending(NewMasker(env)) && NoTwins(NewMasker(env))
    ensures forall v :: v in NewMasker(env) <==> IsSecret(env, v)
  {
    SortedSorts(Values(env));
    DedupKeeps(Sorted(Values(env)));
    DedupLeavesNoTwins(Sorted(Values(env)));
    forall v
      ensures v in NewMasker(env) <==> IsSecret(env, v)
    {
      ValuesAre(env, v);
      assert v in Sorted(Values(env)) <==> v in multiset(Sorted(Values(env)));
    }
    MembersAreNonEmpty(NewMasker(env));
  }

  /** Longest first pays off: when the turn of a secret comes, no longer secret
      that contains it is left in the text, so none is ever cut into pieces. */
  lemma NoSecretIsCut(env: seq<(string, string)>, text: string, i: nat, whole: string)
    requires i < |NewMasker(env)| && IsSecret(env, whole) && Maskable(whole)
    requires Contains(whole, NewMasker(env)[i]) && whole != NewMasker(env)[i]
    ensures NonEmpty(NewMasker(env)[..i])
    ensures !Contains(Masked(NewMasker(env)[..i], text), whole)
  {
    NewMaskerHolds(env);
    var vs := NewMasker(env);
    PartIsShorter(vs[i], whole);
    assert whole in vs;
    var k :| 0 <= k < |vs| && vs[k] == whole;
    assert k < i;
    assert vs[..i][k] == whole;
    MaskedLeavesNone(vs[..i], text, whole);
  }

  // -------------------------------------------------------------- implementation

  method FindValue(text: string, v: string) returns (found: bool)
    ensures found == Contains(text, v)
  {
    ContainsIff(text, v);
    for p := 0 to |text| + 1
      invariant forall q | 0 <= q < p :: !OccursAt(text, q, v)
    {
      OccursIff(text, p, v);
      if p + |v| <= |text| && text[p..p + |v|] == v {
        return true;
      }
    }
    return false;
  }

  /** Masks a text with the secrets of a run. */
  method Apply(values: seq<string>, text: string) returns (out: string)
    requires NonEmpty(values)
    ensures out == Masked(values, text)
    ensures forall v | v in values && Maskable(v) :: !Contains(out, v)
  {
    out := text;
    for i := 0 to |values|
      invariant out == Masked(values[..i], text)
    {
      assert values[..i + 1][..i] == values[..i];
      var found := FindValue(out, values[i]);
      if found {
        out := Replace(out, values[i]);
      } else {
        ReplaceNothing(out, values[i]);
      }
    }
    assert values[..|values|] == values;
    forall v | v in values && Maskable(v)
      ensures !Contains(out, v)
    {
      MaskedLeavesNone(values, text, v);
    }
  }

  /** No secret of the run that can be masked survives in its output. */
  method MaskOutput(env: seq<(string, string)>, text: string) returns (out: string)
    ensures forall v | IsSecret(env, v) && Maskable(v) :: !Contains(out, v)
    ensures (forall v | IsSecret(env, v) :: !Contains(text, v)) ==> out == text
    ensures NonEmpty(NewMasker(env)) && out == Masked(NewMasker(env), text)
  {
    NewMaskerHolds(env);
    var values := NewMasker(env);
    out := Apply(values, text);
    if forall v | v in values :: !Contains(text, v) {
      NothingToMask(values, text);
    }
  }
}
