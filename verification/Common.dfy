/** What several parts of the model need. */
module Common {
  datatype Option<+T> = None | Some(value: T)

  lemma {:induction false} SubsetSize<T>(a: set<T>, b: set<T>)
    requires a <= b
    ensures |a| <= |b|
  {
    if a != {} {
      var x :| x in a;
      SubsetSize(a - {x}, b - {x});
    }
  }

  lemma Outside<T>(a: set<T>, b: set<T>) returns (x: T)
    requires a < b
    ensures x in b && x !in a
  {
    x :| x in b && x !in a;
  }

  lemma ProperSubsetSize<T>(a: set<T>, b: set<T>)
    requires a < b
    ensures |a| < |b|
  {
    var x := Outside(a, b);
    SubsetSize(a, b - {x});
  }
}
