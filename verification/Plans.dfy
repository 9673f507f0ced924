/** The latest plan of a node and the two readers of its decision: the scan of the
    tree, which decides whether the node is held back, and a run of the node. */
module Plans {
  import opened Common
  import opened Frontmatter

  /** Whether the decision reads as composite, to either of them. */
  datatype Decision = Decision(scan: bool, runner: bool)

  datatype Plan = Plan(decision: Decision, approved: bool, rejected: bool)

  datatype Stage = NotHeld | Review | Children

  /** An undecided composite plan is up for review, an approved one with children is
      spawned; a rejected one holds nothing back. */
  function StageOf(plan: Option<Plan>, children: bool): Stage {
    if plan.None? || !plan.value.decision.scan then NotHeld
    else if !plan.value.approved && !plan.value.rejected then Review
    else if plan.value.approved && children then Children
    else NotHeld
  }

  /** A run of such a node ends before its executor is called. */
  predicate RunsAsComposite(plan: Option<Plan>) {
    plan.Some? && plan.value.decision.runner
  }

  function NewPlan(d: Decision): Plan {
    Plan(d, false, false)
  }

  // ---------------------------------------------------------------- the text

  function LowerChar(c: char): char {
    if 'A' <= c <= 'Z' then (c as int - 'A' as int + 'a' as int) as char else c
  }

  function Lower(s: string): string {
    seq(|s|, i requires 0 <= i < |s| => LowerChar(s[i]))
  }

  /** Latin capitals become the small letters of the same place, nothing else changes. */
  lemma LowerIs(c: char)
    ensures c in "ABCDEFGHIJKLMNOPQRSTUVWXYZ" <==> LowerChar(c) != c
    ensures LowerChar(c) != c ==> LowerChar(c) as int == c as int + 32
  {
  }

  /** `raw` is the text after the key. The scan takes it as it is; a run reads it as
      a scalar and ignores case. */
  function ReadDecision(o: Oracle, raw: string): Decision {
    var v := Scalar(o, Trim(raw));
    Decision(Trim(raw) == "composite", v.Str? && Lower(Trim(v.s)) == "composite")
  }

  lemma TrimKeeps(s: string)
    requires s != "" && !IsSpace(s[0]) && !IsSpace(s[|s| - 1])
    ensures Trim(s) == s
  {
  }

  lemma NotASpecialScalar(o: Oracle, s: string)
    requires GoodOracle(o) && s != "" && !StartsNumber(s[0])
    requires s != "true" && s != "false" && s != "null" && s != "~"
    requires s[0] != '[' && s[0] != '{'
    ensures Scalar(o, s) == Str(if Quoted(s) then s[1..|s| - 1] else s)
  {
    assert AllDigits(s) ==> IsDigit(s[0]);
    assert o.number(s).None?;
  }

  /** What the scan takes for composite a run does too. */
  lemma ScanImpliesRunner(o: Oracle, raw: string)
    requires GoodOracle(o)
    ensures ReadDecision(o, raw).scan ==> ReadDecision(o, raw).runner
  {
    if Trim(raw) == "composite" {
      NotASpecialScalar(o, "composite");
      LowersTo("composite");
    }
  }

  /** Any spelling that only differs in case is composite to a run. */
  lemma LowersTo(s: string)
    requires Lower(s) == "composite"
    ensures Trim(s) == s
  {
    assert |s| == 9;
    assert LowerChar(s[0]) == Lower(s)[0] == 'c';
    assert LowerChar(s[8]) == Lower(s)[8] == 'e';
    TrimKeeps(s);
  }

  /** Another case of the letters is composite to a run, and to the scan only when
      it is the very word. */
  lemma CaseMatters(o: Oracle, s: string)
    requires GoodOracle(o) && Lower(s) == "composite"
    ensures ReadDecision(o, s) == Decision(s == "composite", true)
  {
    LowersTo(s);
    assert LowerChar(s[0]) == Lower(s)[0] == 'c';
    assert LowerChar(s[1]) == Lower(s)[1] == 'o';
    NotASpecialScalar(o, s);
  }

  /** For example a capital at the beginning. */
  lemma CapitalMatters(o: Oracle)
    requires GoodOracle(o)
    ensures ReadDecision(o, "Composite") == Decision(false, true)
  {
    assert Lower("Composite") == "composite";
    CaseMatters(o, "Composite");
  }

  /** The other decision is composite to neither. */
  lemma AtomicIsNot(o: Oracle)
    requires GoodOracle(o)
    ensures ReadDecision(o, "atomic") == Decision(false, false)
  {
    NotASpecialScalar(o, "atomic");
    TrimKeeps("atomic");
    assert Lower("atomic")[0] == 'a';
  }

  /** So is the word in quotes. */
  lemma QuotesMatter(o: Oracle, s: string)
    requires GoodOracle(o) && Lower(s) == "composite"
    ensures ReadDecision(o, "\"" + s + "\"") == Decision(false, true)
  {
    var quoted := "\"" + s + "\"";
    LowersTo(s);
    assert |s| == |Lower(s)| == 9;
    assert quoted[0] == '"' && quoted[|quoted| - 1] == '"';
    TrimKeeps(quoted);
    assert quoted[1..|quoted| - 1] == s;
    assert quoted[0] != "composite"[0];
    NotASpecialScalar(o, quoted);
  }
}
