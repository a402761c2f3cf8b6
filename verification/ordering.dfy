/**
 * The default order of JavaScript's `Array.prototype.sort` on strings
 * (character by character, a proper prefix first) and the sort itself.
 */
module Ordering {

  /** `a` sorts no later than `b` under the default string comparison. */
  predicate LexLe(a: string, b: string)
  {
    a == [] || (b != [] && (a[0] < b[0] || (a[0] == b[0] && LexLe(a[1..], b[1..]))))
  }

  lemma {:induction false} LexLeReflexive(a: string)
    ensures LexLe(a, a)
  {
    if a != [] {
      LexLeReflexive(a[1..]);
    }
  }

  lemma {:induction false} LexLeTotal(a: string, b: string)
    ensures LexLe(a, b) || LexLe(b, a)
  {
    if a != [] && b != [] && a[0] == b[0] {
      LexLeTotal(a[1..], b[1..]);
    }
  }

  lemma {:induction false} LexLeAntisymmetric(a: string, b: string)
    requires LexLe(a, b) && LexLe(b, a)
    ensures a == b
  {
    if a != [] {
      LexLeAntisymmetric(a[1..], b[1..]);
      assert a == [a[0]] + a[1..];
      assert b == [b[0]] + b[1..];
    }
  }

  lemma {:induction false} LexLeTransitive(a: string, b: string, c: string)
    requires LexLe(a, b) && LexLe(b, c)
    ensures LexLe(a, c)
  {
    if a != [] && b != [] && c != [] && a[0] == b[0] == c[0] {
      LexLeTransitive(a[1..], b[1..], c[1..]);
    }
  }

  /**
   * Comparing `p + a` with `q + b` where `p` and `q` have the same length:
   * the first parts decide unless they are equal.
   */
  lemma {:induction false} LexLeAppend(p: string, q: string, a: string, b: string)
    requires |p| == |q|
    ensures LexLe(p + a, q + b) <==> (p != q && LexLe(p, q)) || (p == q && LexLe(a, b))
  {
    if p != [] {
      assert (p + a)[1..] == p[1..] + a;
      assert (q + b)[1..] == q[1..] + b;
      LexLeAppend(p[1..], q[1..], a, b);
      assert p == [p[0]] + p[1..];
      assert q == [q[0]] + q[1..];
      assert (p + a)[0] == p[0] && (q + b)[0] == q[0];
      assert LexLe(p + a, q + b) <==> p[0] < q[0] || (p[0] == q[0] && LexLe(p[1..] + a, q[1..] + b));
      assert LexLe(p, q) <==> p[0] < q[0] || (p[0] == q[0] && LexLe(p[1..], q[1..]));
      if p[0] == q[0] {
        assert p == q <==> p[1..] == q[1..];
      }
    } else {
      assert p + a == a && q + b == b;
    }
  }

  /** Every pair of positions is in order. */
  predicate Sorted(s: seq<string>)
  {
    forall i, j :: 0 <= i < j < |s| ==> LexLe(s[i], s[j])
  }

  /** Places `x` before the first element it does not sort after. */
  function Insert(x: string, s: seq<string>): (r: seq<string>)
    ensures multiset(r) == multiset(s) + multiset{x}
  {
    if s == [] || LexLe(x, s[0]) then [x] + s
    else
      assert s == [s[0]] + s[1..];
      [s[0]] + Insert(x, s[1..])
  }

  lemma {:induction false} InsertSorted(x: string, s: seq<string>)
    requires Sorted(s)
    ensures Sorted(Insert(x, s))
  {
    var r := Insert(x, s);
    if s == [] {
    } else if LexLe(x, s[0]) {
      forall i, j | 0 <= i < j < |r| ensures LexLe(r[i], r[j]) {
        if i == 0 && j > 1 {
          LexLeTransitive(x, s[0], s[j - 1]);
        }
      }
    } else {
      LexLeTotal(x, s[0]);
      InsertSorted(x, s[1..]);
      var t := Insert(x, s[1..]);
      assert r == [s[0]] + t;
      forall j | 0 <= j < |t| ensures LexLe(s[0], t[j]) {
        assert t[j] in multiset(t);
        assert t[j] == x || t[j] in multiset(s[1..]);
        if t[j] != x {
          var k :| 0 <= k < |s[1..]| && s[1..][k] == t[j];
          assert s[k + 1] == t[j];
        }
      }
    }
  }

  /**
   * `Array.prototype.sort()` without a comparator, on strings. Any stable
   * sort gives this result; equal strings cannot be told apart.
   */
  function SortStrings(s: seq<string>): (r: seq<string>)
    ensures multiset(r) == multiset(s)
    ensures |r| == |s|
  {
    if s == [] then []
    else
      assert s == [s[0]] + s[1..];
      Insert(s[0], SortStrings(s[1..]))
  }

  lemma {:induction false} SortStringsSorted(s: seq<string>)
    ensures Sorted(SortStrings(s))
  {
    if s != [] {
      SortStringsSorted(s[1..]);
      InsertSorted(s[0], SortStrings(s[1..]));
    }
  }

  /** A sorted permutation is unique: any correct sort returns `SortStrings(s)`. */
  lemma {:induction false} SortedPermutationUnique(r: seq<string>, t: seq<string>)
    requires Sorted(r) && Sorted(t) && multiset(r) == multiset(t)
    ensures r == t
  {
    if r != [] {
      SameHead(r, t);
      SortedPermutationUnique(r[1..], t[1..]);
      assert r == [r[0]] + r[1..] && t == [t[0]] + t[1..];
    }
  }

  /** Two sorted permutations start with the same string and go on with sorted permutations. */
  lemma SameHead(r: seq<string>, t: seq<string>)
    requires Sorted(r) && Sorted(t) && multiset(r) == multiset(t) && r != []
    ensures t != [] && r[0] == t[0]
    ensures Sorted(r[1..]) && Sorted(t[1..]) && multiset(r[1..]) == multiset(t[1..])
  {
    assert |t| == |multiset(t)| == |multiset(r)| == |r|;
    HeadIsLeast(t, r[0]);
    HeadIsLeast(r, t[0]);
    LexLeAntisymmetric(r[0], t[0]);
    MultisetTail(r);
    MultisetTail(t);
  }

  /** The first element of a sorted sequence sorts no later than any element. */
  lemma HeadIsLeast(s: seq<string>, x: string)
    requires Sorted(s) && x in multiset(s)
    ensures s != [] && LexLe(s[0], x)
  {
    var i :| 0 <= i < |s| && s[i] == x;
    if i == 0 {
      LexLeReflexive(x);
    }
  }

  lemma MultisetTail(s: seq<string>)
    requires s != []
    ensures multiset(s[1..]) == multiset(s) - multiset{s[0]}
  {
    assert s == [s[0]] + s[1..];
  }
}
