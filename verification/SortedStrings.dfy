/** Python's `sorted` on a set of strings: code points, left to right. */
module SortedStrings {

  predicate Le(a: string, b: string) {
    a == [] || (b != [] && (a[0] < b[0] || (a[0] == b[0] && Le(a[1..], b[1..]))))
  }

  predicate Lt(a: string, b: string) {
    Le(a, b) && a != b
  }

  /** `a` has the lower character where the two first differ. */
  predicate LowerAt(a: string, b: string, k: nat) {
    k < |a| && k < |b| && a[..k] == b[..k] && a[k] < b[k]
  }

  /** The order of a dictionary: a prefix comes first, else the first difference decides. */
  lemma {:induction false} LeTells(a: string, b: string)
    ensures Le(a, b) <==> a <= b || exists k: nat :: LowerAt(a, b, k)
  {
    if a != [] && b != [] && a[0] == b[0] {
      LeTells(a[1..], b[1..]);
      assert a == [a[0]] + a[1..] && b == [b[0]] + b[1..];
      if k: nat :| LowerAt(a[1..], b[1..], k) {
        assert a[..k + 1] == [a[0]] + a[1..][..k] && b[..k + 1] == [b[0]] + b[1..][..k];
        assert LowerAt(a, b, k + 1);
      }
      if k: nat :| LowerAt(a, b, k) {
        assert a[1..][..k - 1] == a[..k][1..] && b[1..][..k - 1] == b[..k][1..];
        assert LowerAt(a[1..], b[1..], k - 1);
      }
    } else if a != [] && b != [] {
      assert a[..0] == b[..0];
      assert a[0] < b[0] ==> LowerAt(a, b, 0);
      assert forall k: nat :: LowerAt(a, b, k) ==> k == 0 || a[..k][0] == b[..k][0];
    }
  }

  lemma {:induction false} LeReflexive(a: string)
    ensures Le(a, a)
  {
    if a != [] { LeReflexive(a[1..]); }
  }

  lemma {:induction false} LeTotal(a: string, b: string)
    ensures Le(a, b) || Le(b, a)
  {
    if a != [] && b != [] { LeTotal(a[1..], b[1..]); }
  }

  lemma {:induction false} LeAntisymmetric(a: string, b: string)
    requires Le(a, b) && Le(b, a)
    ensures a == b
  {
    if a != [] {
      LeAntisymmetric(a[1..], b[1..]);
      assert a == [a[0]] + a[1..] && b == [b[0]] + b[1..];
    }
  }

  lemma {:induction false} LeTransitive(a: string, b: string, c: string)
    requires Le(a, b) && Le(b, c)
    ensures Le(a, c)
  {
    if a != [] && a[0] == b[0] == c[0] { LeTransitive(a[1..], b[1..], c[1..]); }
  }

  /** A longer common prefix leaves the order to the rest. */
  lemma {:induction false} LePrefix(p: string, a: string, b: string)
    ensures Le(p + a, p + b) <==> Le(a, b)
  {
    if p == [] {
      assert p + a == a && p + b == b;
    } else {
      assert (p + a)[1..] == p[1..] + a && (p + b)[1..] == p[1..] + b;
      LePrefix(p[1..], a, b);
    }
  }

  lemma {:induction false} LeastExists(s: set<string>) returns (m: string)
    requires s != {}
    ensures m in s && forall x :: x in s ==> Le(m, x)
    decreases |s|
  {
    m :| m in s;
    LeReflexive(m);
    if s != {m} {
      var n := LeastExists(s - {m});
      LeTotal(m, n);
      forall x | x in s
        ensures Le(if Le(m, n) then m else n, x)
      {
        if x != m && Le(m, n) { LeTransitive(m, n, x); }
      }
      if !Le(m, n) { m := n; }
    }
  }

  predicate IsLeast(s: set<string>, m: string) {
    m in s && forall x :: x in s ==> Le(m, x)
  }

  lemma LeastIsUnique(s: set<string>)
    requires s != {}
    ensures exists m :: IsLeast(s, m)
    ensures forall m, n :: IsLeast(s, m) && IsLeast(s, n) ==> m == n
  {
    var least := LeastExists(s);
    assert IsLeast(s, least);
    forall m, n | IsLeast(s, m) && IsLeast(s, n)
      ensures m == n
    {
      LeAntisymmetric(m, n);
    }
  }

  predicate Ascending(ss: seq<string>) {
    forall i, j :: 0 <= i < j < |ss| ==> Lt(ss[i], ss[j])
  }

  /** The set as an ascending list. */
  function Sorted(s: set<string>): (ss: seq<string>)
    ensures forall x :: x in ss <==> x in s
    ensures Ascending(ss)
    decreases |s|
  {
    if s == {} then [] else
    LeastIsUnique(s);
    var m :| m in s && IsLeast(s, m);
    [m] + Sorted(s - {m})
  }

  /** The set of a list's elements. */
  function Members(ss: seq<string>): set<string> {
    set x | x in ss
  }

  lemma FirstIsLeast(ss: seq<string>, x: string)
    requires Ascending(ss) && x in ss
    ensures Le(ss[0], x)
  {
    var j :| 0 <= j < |ss| && ss[j] == x;
    LeReflexive(x);
    if j > 0 { assert Lt(ss[0], ss[j]); }
  }

  lemma MembersOfRest(ss: seq<string>)
    requires Ascending(ss) && ss != []
    ensures Members(ss[1..]) == Members(ss) - {ss[0]}
  {
    assert forall x :: x in Members(ss) <==> x == ss[0] || x in ss[1..];
    assert forall j :: 0 <= j < |ss[1..]| ==> Lt(ss[0], ss[j + 1]) && ss[1..][j] == ss[j + 1];
  }

  lemma SortedStep(s: set<string>, m: string)
    requires IsLeast(s, m)
    ensures Sorted(s) == [m] + Sorted(s - {m})
  {
    LeastIsUnique(s);
  }

  /** An ascending list is the sorted form of its own elements. */
  lemma {:induction false} AscendingIsSorted(ss: seq<string>)
    requires Ascending(ss)
    ensures Sorted(Members(ss)) == ss
  {
    if ss == [] {
      assert Members(ss) == {};
    } else {
      forall x | x in Members(ss)
        ensures Le(ss[0], x)
      {
        FirstIsLeast(ss, x);
      }
      SortedStep(Members(ss), ss[0]);
      MembersOfRest(ss);
      AscendingIsSorted(ss[1..]);
      assert ss == [ss[0]] + ss[1..];
    }
  }
}
