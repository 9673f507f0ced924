/** The commit graph behind the refs. A commit id is modelled by the commit
    itself, so that two ids are equal exactly when parent and contents are. */
module Commits {
  type Node = string
  type Token = nat
  type Patch = nat

  /** The fields of `.mt-claim.yml` that tell two claim commits apart. */
  datatype ClaimFields = ClaimFields(
    node: Node, runner: nat, token: Token, generation: nat, claimedAt: nat, leaseUntil: nat, interactive: bool)

  datatype Sha =
    | Genesis
    | Work(parent: Sha, patch: Patch)
    | Claim(parent: Sha, fields: ClaimFields)

  /** `a` is `d` or one of its ancestors. */
  predicate Descends(d: Sha, a: Sha) {
    d == a || (!d.Genesis? && Descends(d.parent, a))
  }

  function Depth(s: Sha): nat {
    if s.Genesis? then 0 else 1 + Depth(s.parent)
  }

  lemma {:induction false} AncestorIsShallower(d: Sha, a: Sha)
    requires Descends(d, a)
    ensures Depth(a) <= Depth(d)
    ensures d != a ==> Depth(a) < Depth(d)
  {
    if d != a {
      AncestorIsShallower(d.parent, a);
    }
  }

  lemma {:induction false} DescendsTransitive(x: Sha, y: Sha, z: Sha)
    requires Descends(x, y) && Descends(y, z)
    ensures Descends(x, z)
  {
    if x != y {
      DescendsTransitive(x.parent, y, z);
    }
  }

  lemma DescendsAntisymmetric(x: Sha, y: Sha)
    requires Descends(x, y) && Descends(y, x)
    ensures x == y
  {
    AncestorIsShallower(x, y);
    AncestorIsShallower(y, x);
  }

  /** Replaying a list of patches on top of a commit, oldest first. */
  function Stack(onto: Sha, patches: seq<Patch>): Sha
    decreases |patches|
  {
    if patches == [] then onto else Stack(Work(onto, patches[0]), patches[1..])
  }

  /** No claim commit in the history: what `main` is made of. */
  predicate Plain(s: Sha) {
    match s
    case Genesis => true
    case Work(p, _) => Plain(p)
    case Claim(_, _) => false
  }

  lemma {:induction false} StackDescends(onto: Sha, patches: seq<Patch>)
    ensures Descends(Stack(onto, patches), onto)
    ensures Plain(onto) ==> Plain(Stack(onto, patches))
    decreases |patches|
  {
    if patches != [] {
      var next := Work(onto, patches[0]);
      StackDescends(next, patches[1..]);
      DescendsTransitive(Stack(onto, patches), next, onto);
    }
  }

  /** The claim commit at the bottom of a chain of renewals and takeovers. */
  function Acquisition(c: Sha): Sha {
    if c.Claim? && c.parent.Claim? then Acquisition(c.parent) else c
  }

  lemma {:induction false} AcquisitionIsAncestor(c: Sha)
    ensures Descends(c, Acquisition(c))
    ensures c.Claim? ==> Acquisition(c).Claim?
  {
    if c.Claim? && c.parent.Claim? {
      AcquisitionIsAncestor(c.parent);
    }
  }

  /** Every token that occurs in the history of a commit. */
  function Tokens(s: Sha): set<Token> {
    match s
    case Genesis => {}
    case Work(p, _) => Tokens(p)
    case Claim(p, f) => Tokens(p) + {f.token}
  }

  /** Exactly the histories without a claim carry no token. */
  lemma {:induction false} PlainHasNoTokens(s: Sha)
    ensures Plain(s) <==> Tokens(s) == {}
  {
    if s.Work? {
      PlainHasNoTokens(s.parent);
    } else if s.Claim? {
      assert s.fields.token in Tokens(s);
    }
  }

  /** However often a claim is renewed or taken over, it goes back to the one commit
      that was made on plain history. */
  lemma {:induction false} RenewalKeepsAcquisition(c: Sha, fields: ClaimFields)
    requires c.Claim?
    ensures Acquisition(Claim(c, fields)) == Acquisition(c)
    ensures Acquisition(c).Claim? && !Acquisition(c).parent.Claim?
  {
    if c.parent.Claim? {
      RenewalKeepsAcquisition(c.parent, fields);
    }
  }

  lemma {:induction false} AncestorTokens(d: Sha, a: Sha)
    requires Descends(d, a)
    ensures Tokens(a) <= Tokens(d)
  {
    if d != a {
      AncestorTokens(d.parent, a);
    }
  }
}
