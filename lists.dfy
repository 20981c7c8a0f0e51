/** List comprehensions `[x for x in s if f(x)]` and the facts the engine uses about them. */
module Lists {

  function Filter<T>(s: seq<T>, f: T -> bool): (r: seq<T>)
    ensures |r| <= |s|
    ensures forall x <- r {:trigger x in r} :: x in s && f(x)
    ensures forall x <- s {:trigger x in s} :: f(x) ==> x in r
  {
    if s == [] then []
    else
      assert forall x <- s {:trigger x in s} :: x == s[0] || x in s[1..];
      (if f(s[0]) then [s[0]] else []) + Filter(s[1..], f)
  }

  /** The element at `i`; the pairwise check below is stated over it. */
  function Elem<T>(s: seq<T>, i: nat): T
    requires i < |s|
  {
    s[i]
  }

  predicate Distinct<T(==)>(s: seq<T>) {
    forall i, j :: 0 <= i < j < |s| ==> Elem(s, i) != Elem(s, j)
  }

  /** In a list of distinct elements, an element sits at one place only. */
  lemma DistinctAt<T>(s: seq<T>, i: nat, j: nat)
    requires Distinct(s) && i < |s| && j < |s|
    ensures s[i] == s[j] ==> i == j
  {
    if i < j { assert Elem(s, i) != Elem(s, j); }
    if j < i { assert Elem(s, j) != Elem(s, i); }
  }

  /** The head of a list of distinct elements is not in its tail, which is itself distinct. */
  lemma DistinctTail<T>(s: seq<T>)
    requires Distinct(s) && s != []
    ensures Distinct(s[1..]) && s[0] !in s[1..]
  {
    var t := s[1..];
    forall i, j | 0 <= i < j < |t| ensures Elem(t, i) != Elem(t, j) {
      assert Elem(s, i + 1) != Elem(s, j + 1);
    }
    if s[0] in t {
      var i :| 0 <= i < |t| && t[i] == s[0];
      DistinctAt(s, 0, i + 1);
    }
  }

  /** The last element of a list of distinct elements is not among the others, which are distinct. */
  lemma DistinctInit<T>(s: seq<T>)
    requires Distinct(s) && s != []
    ensures Distinct(s[..|s| - 1]) && s[|s| - 1] !in s[..|s| - 1]
  {
    var t := s[..|s| - 1];
    forall i, j | 0 <= i < j < |t| ensures Elem(t, i) != Elem(t, j) {
      assert Elem(s, i) != Elem(s, j);
    }
    if s[|s| - 1] in t {
      var i :| 0 <= i < |t| && t[i] == s[|s| - 1];
      DistinctAt(s, i, |s| - 1);
    }
  }

  /** Joining two lists of distinct elements with nothing in common gives distinct elements. */
  lemma DistinctAppend<T>(s: seq<T>, t: seq<T>)
    requires Distinct(s) && Distinct(t)
    requires forall x <- s :: x !in t
    ensures Distinct(s + t)
  {
    var u := s + t;
    forall i, j | 0 <= i < j < |u| ensures Elem(u, i) != Elem(u, j) {
      if j < |s| {
        assert Elem(s, i) != Elem(s, j);
      } else if i >= |s| {
        assert Elem(t, i - |s|) != Elem(t, j - |s|);
      } else {
        assert u[i] in s && u[j] == t[j - |s|];
      }
    }
  }

  /** Filtering a list of distinct elements that keeps all but one of them drops exactly one. */
  lemma {:induction false} FilterDropsOne<T>(s: seq<T>, f: T -> bool, x: T)
    requires Distinct(s) && x in s
    requires forall y <- s :: f(y) <==> y != x
    ensures |Filter(s, f)| == |s| - 1
  {
    DistinctTail(s);
    if s[0] == x {
      FilterKeepsAll(s[1..], f);
    } else {
      FilterDropsOne(s[1..], f, x);
    }
  }

  /** A comprehension keeps the order of its input: filtering a join joins the filtered parts. */
  lemma {:induction false} FilterAppend<T>(s: seq<T>, t: seq<T>, f: T -> bool)
    ensures Filter(s + t, f) == Filter(s, f) + Filter(t, f)
  {
    if s == [] {
      assert s + t == t;
    } else {
      var u := s + t;
      var head := if f(s[0]) then [s[0]] else [];
      assert u[0] == s[0] && u[1..] == s[1..] + t;
      FilterAppend(s[1..], t, f);
      calc {
        Filter(u, f);
        head + Filter(s[1..] + t, f);
        head + (Filter(s[1..], f) + Filter(t, f));
        (head + Filter(s[1..], f)) + Filter(t, f);
      }
    }
  }

  /** The first element a comprehension keeps is the first element of its input that passes the test. */
  lemma {:induction false} FilterFirst<T>(s: seq<T>, f: T -> bool)
    requires Filter(s, f) != []
    ensures exists k :: 0 <= k < |s| && s[k] == Filter(s, f)[0] && f(s[k]) && forall j :: 0 <= j < k ==> !f(s[j])
  {
    if !f(s[0]) {
      FilterFirst(s[1..], f);
      var k :| 0 <= k < |s[1..]| && s[1..][k] == Filter(s[1..], f)[0] && f(s[1..][k])
               && forall j :: 0 <= j < k ==> !f(s[1..][j]);
      assert s[k + 1] == Filter(s, f)[0];
      forall j | 0 <= j < k + 1 ensures !f(s[j]) {
        if j > 0 { assert s[j] == s[1..][j - 1]; }
      }
    } else {
      assert s[0] == Filter(s, f)[0];
    }
  }

  lemma {:induction false} FilterKeepsAll<T>(s: seq<T>, f: T -> bool)
    requires forall y <- s :: f(y)
    ensures Filter(s, f) == s
  {
    if s != [] {
      FilterKeepsAll(s[1..], f);
    }
  }
}
