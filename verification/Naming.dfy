/** An endless supply of names, for runs that are written out. */
module Naming {
  /** Names differ by their lengths. */
  function Name(n: nat): (s: string)
    ensures |s| == n
  {
    seq(n, i => 'x')
  }

  lemma NamesDiffer(m: nat, n: nat)
    ensures Name(m) == Name(n) <==> m == n
  {
    assert |Name(m)| == m && |Name(n)| == n;
  }

  function Names(n: nat): set<string> { set i | 0 <= i < n :: Name(i) }

  lemma NamesUpTo(n: nat, m: nat)
    ensures Name(m) in Names(n) <==> m < n
  {
    forall i: nat ensures Name(i) == Name(m) <==> i == m { NamesDiffer(i, m); }
  }

  lemma ThreeMore(n: nat)
    ensures Names(n + 3) == Names(n) + {Name(n), Name(n + 1), Name(n + 2)}
  {
  }
}
