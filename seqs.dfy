/** Python list behaviour used by the maintenance utilities: `dict.fromkeys`, `collections.Counter`
    and `list.remove`, with the order facts that make them predictable. */
module Seqs {

  predicate NoDup<T(==)>(s: seq<T>) {
    forall i, j :: 0 <= i < j < |s| ==> s[i] != s[j]
  }

  /** `s.index(x)`: the position of the first occurrence of `x`. */
  function FirstIndex<T(==)>(s: seq<T>, x: T): (k: nat)
    requires x in s
    ensures k < |s| && s[k] == x && x !in s[..k]
  {
    if s[0] == x then 0 else 1 + FirstIndex(s[1..], x)
  }

  /** The one position that holds `x` with no `x` before it is the first index of `x`. */
  lemma {:induction false} FirstIndexIs<T>(s: seq<T>, x: T, k: nat)
    requires k < |s| && s[k] == x
    requires forall j :: 0 <= j < k ==> s[j] != x
    ensures FirstIndex(s, x) == k
  {
    if k > 0 {
      FirstIndexIs(s[1..], x, k - 1);
    }
  }

  /** Appending an element does not move the first occurrence of a value already present. */
  lemma {:induction false} FirstIndexAppend<T>(s: seq<T>, x: T, y: T)
    requires y in s
    ensures FirstIndex(s + [x], y) == FirstIndex(s, y)
  {
    if s[0] != y {
      assert (s + [x])[1..] == s[1..] + [x];
      FirstIndexAppend(s[1..], x, y);
    }
  }

  /** `list(dict.fromkeys(s))`: each value of `s` once, kept where it first occurs. */
  function FromKeys<T(==)>(s: seq<T>): (d: seq<T>)
    ensures forall i :: 0 <= i < |d| ==> d[i] in s
    ensures forall i :: 0 <= i < |s| ==> s[i] in d
    ensures NoDup(d)
  {
    if s == [] then []
    else
      var init := FromKeys(s[..|s| - 1]);
      assert s == s[..|s| - 1] + [s[|s| - 1]];
      if s[|s| - 1] in init then init else init + [s[|s| - 1]]
  }

  /** Every value of `s` is a key of `dict.fromkeys(s)`, and every key is a value of `s`. */
  lemma FromKeysHas<T>(s: seq<T>, x: T)
    ensures x in FromKeys(s) <==> x in s
  {
    if x in s {
      var i :| 0 <= i < |s| && s[i] == x;
    }
    if x in FromKeys(s) {
      var d := FromKeys(s);
      var i :| 0 <= i < |d| && d[i] == x;
    }
  }

  /** Adding a value to the end adds a key unless the value is already one. */
  lemma FromKeysAppend<T>(s: seq<T>, x: T)
    ensures FromKeys(s + [x]) == if x in FromKeys(s) then FromKeys(s) else FromKeys(s) + [x]
  {
    assert (s + [x])[..|s|] == s;
  }

  /** The values of `list(dict.fromkeys(s))` are in the order of their first occurrence in `s`. */
  lemma {:induction false} FromKeysFirstOccurrenceOrder<T>(s: seq<T>)
    ensures forall i, j :: 0 <= i < j < |FromKeys(s)| ==>
      FirstIndex(s, FromKeys(s)[i]) < FirstIndex(s, FromKeys(s)[j])
  {
    if s != [] {
      var init := s[..|s| - 1];
      var x := s[|s| - 1];
      assert s == init + [x];
      FromKeysFirstOccurrenceOrder(init);
      var d := FromKeys(init);
      forall y | y in d
        ensures FirstIndex(s, y) == FirstIndex(init, y)
      {
        FirstIndexAppend(init, x, y);
      }
      if x !in d {
        assert FirstIndex(s, x) == |init|;
        forall i, j | 0 <= i < j < |FromKeys(s)|
          ensures FirstIndex(s, FromKeys(s)[i]) < FirstIndex(s, FromKeys(s)[j])
        {
          assert FromKeys(s)[i] == d[i];
          if j < |d| {
            assert FromKeys(s)[j] == d[j];
          }
        }
      }
    }
  }

  /** The values of `d` that occur more than once in `s`, in the order of `d`. */
  function Repeated<T(==)>(d: seq<T>, s: seq<T>): (r: seq<T>)
    ensures forall i :: 0 <= i < |r| ==> r[i] in d && multiset(s)[r[i]] > 1
    ensures forall i :: 0 <= i < |d| && multiset(s)[d[i]] > 1 ==> d[i] in r
  {
    if d == [] then []
    else (if multiset(s)[d[0]] > 1 then [d[0]] else []) + Repeated(d[1..], s)
  }

  /** `y` is `x` with some elements left out, the rest in their original order. */
  predicate IsSubsequence<T(==)>(x: seq<T>, y: seq<T>)
    decreases |y|
  {
    if x == [] then true
    else if y == [] then false
    else (x[0] == y[0] && IsSubsequence(x[1..], y[1..])) || IsSubsequence(x, y[1..])
  }

  lemma {:induction false} SubsequenceRefl<T>(x: seq<T>)
    ensures IsSubsequence(x, x)
  {
    if x != [] {
      SubsequenceRefl(x[1..]);
    }
  }

  lemma {:induction false} SubsequenceTrans<T>(a: seq<T>, b: seq<T>, c: seq<T>)
    requires IsSubsequence(a, b) && IsSubsequence(b, c)
    ensures IsSubsequence(a, c)
    decreases |c|
  {
    if a != [] {
      if IsSubsequence(b, c[1..]) {
        SubsequenceTrans(a, b, c[1..]);
      } else if a[0] == b[0] && IsSubsequence(a[1..], b[1..]) {
        SubsequenceTrans(a[1..], b[1..], c[1..]);
      } else {
        SubsequenceTrans(a, b[1..], c[1..]);
      }
    }
  }

  /** `Repeated` keeps the order of `d`. */
  lemma {:induction false} RepeatedIsSubsequence<T>(d: seq<T>, s: seq<T>)
    ensures IsSubsequence(Repeated(d, s), d)
  {
    if d != [] {
      RepeatedIsSubsequence(d[1..], s);
      var r := Repeated(d, s);
      if multiset(s)[d[0]] > 1 {
        assert r[0] == d[0] && r[1..] == Repeated(d[1..], s);
      } else {
        assert r == Repeated(d[1..], s);
      }
    }
  }

  /** A listing without repeats stays without repeats when elements are dropped. */
  lemma {:induction false} SubsequenceNoDup<T>(x: seq<T>, y: seq<T>)
    requires IsSubsequence(x, y) && NoDup(y)
    ensures NoDup(x)
    decreases |y|
  {
    if x != [] {
      if x[0] == y[0] && IsSubsequence(x[1..], y[1..]) {
        SubsequenceNoDup(x[1..], y[1..]);
        SubsequenceMembers(x[1..], y[1..]);
        assert x[0] !in y[1..];
        forall i, j | 0 <= i < j < |x| ensures x[i] != x[j] {
          if i > 0 {
            assert x[i] == x[1..][i - 1] && x[j] == x[1..][j - 1];
          } else {
            assert x[j] in x[1..];
          }
        }
      } else {
        SubsequenceNoDup(x, y[1..]);
      }
    }
  }

  lemma {:induction false} SubsequenceMembers<T>(x: seq<T>, y: seq<T>)
    requires IsSubsequence(x, y)
    ensures forall v :: v in x ==> v in y
    decreases |y|
  {
    if x != [] {
      if x[0] == y[0] && IsSubsequence(x[1..], y[1..]) {
        SubsequenceMembers(x[1..], y[1..]);
        assert x == [x[0]] + x[1..];
      } else {
        SubsequenceMembers(x, y[1..]);
      }
    }
  }

  /** `s.remove(x)` when `x` is present: the first `x` is taken out. */
  function RemoveFirst<T(==)>(s: seq<T>, x: T): (r: seq<T>)
    requires x in s
    ensures |r| == |s| - 1
    ensures multiset(r) == multiset(s) - multiset{x}
    ensures exists k :: 0 <= k < |s| && s[k] == x && x !in s[..k] && r == s[..k] + s[k + 1..]
  {
    var k := FirstIndex(s, x);
    assert s == s[..k] + [x] + s[k + 1..];
    s[..k] + s[k + 1..]
  }

  /** Removing an element leaves the others in their order. */
  lemma RemoveFirstIsSubsequence<T>(s: seq<T>, x: T)
    requires x in s
    ensures IsSubsequence(RemoveFirst(s, x), s)
  {
    var k := FirstIndex(s, x);
    SkipOneIsSubsequence(s, k);
  }

  lemma {:induction false} SkipOneIsSubsequence<T>(s: seq<T>, k: nat)
    requires k < |s|
    ensures IsSubsequence(s[..k] + s[k + 1..], s)
  {
    if k == 0 {
      assert s[..k] + s[k + 1..] == s[1..];
      SubsequenceRefl(s[1..]);
    } else {
      SkipOneIsSubsequence(s[1..], k - 1);
      var r := s[..k] + s[k + 1..];
      assert r[0] == s[0];
      assert r[1..] == s[1..][..k - 1] + s[1..][k..];
    }
  }

  /** The elements of `s` that are not in `excluded`, in order. */
  function Without<T(==)>(s: seq<T>, excluded: set<T>): seq<T> {
    if s == [] then [] else (if s[0] in excluded then [] else [s[0]]) + Without(s[1..], excluded)
  }

  lemma {:induction false} WithoutConcat<T>(a: seq<T>, b: seq<T>, excluded: set<T>)
    ensures Without(a + b, excluded) == Without(a, excluded) + Without(b, excluded)
  {
    if a == [] {
      assert a + b == b;
    } else {
      assert (a + b)[1..] == a[1..] + b;
      WithoutConcat(a[1..], b, excluded);
    }
  }

  /** Removing an excluded value does not disturb the values that are not excluded. */
  lemma RemoveFirstWithout<T>(s: seq<T>, x: T, excluded: set<T>)
    requires x in s && x in excluded
    ensures Without(RemoveFirst(s, x), excluded) == Without(s, excluded)
  {
    var k := FirstIndex(s, x);
    var before, after := s[..k], s[k + 1..];
    assert RemoveFirst(s, x) == before + after;
    assert s == before + ([x] + after);
    WithoutConcat(before, [x] + after, excluded);
    WithoutConcat(before, after, excluded);
    assert ([x] + after)[1..] == after;
    assert Without([x] + after, excluded) == Without(after, excluded);
  }

  lemma {:induction false} FirstIndexPrefix<T>(a: seq<T>, b: seq<T>, y: T)
    requires y in a
    ensures FirstIndex(a + b, y) == FirstIndex(a, y)
  {
    if a[0] != y {
      assert (a + b)[1..] == a[1..] + b;
      FirstIndexPrefix(a[1..], b, y);
    }
  }

  /** Removing a value present in a prefix leaves the rest of the sequence alone. */
  lemma RemoveFirstAppend<T>(a: seq<T>, b: seq<T>, x: T)
    requires x in a
    ensures RemoveFirst(a + b, x) == RemoveFirst(a, x) + b
  {
    var k := FirstIndex(a, x);
    FirstIndexPrefix(a, b, x);
    assert (a + b)[..k] == a[..k];
    assert (a + b)[k + 1..] == a[k + 1..] + b;
  }

  /** The position of the last occurrence of `x`. */
  function LastIndexOf<T(==)>(s: seq<T>, x: T): (k: nat)
    requires x in s
    ensures k < |s| && s[k] == x
    ensures forall j :: k < j < |s| ==> s[j] != x
  {
    if s[|s| - 1] == x then |s| - 1
    else
      assert x in s[..|s| - 1] by {
        var j :| 0 <= j < |s| && s[j] == x;
        assert s[..|s| - 1][j] == x;
      }
      LastIndexOf(s[..|s| - 1], x)
  }

  /** Appending an element moves the last occurrence only of that element. */
  lemma LastIndexOfAppend<T>(s: seq<T>, y: T, x: T)
    requires x in s + [y]
    ensures x == y ==> LastIndexOf(s + [y], x) == |s|
    ensures x != y ==> x in s && LastIndexOf(s + [y], x) == LastIndexOf(s, x)
  {
    assert (s + [y])[..|s|] == s;
  }

  /** Slices of a sequence that grew by one element at the end. */
  lemma SliceOfAppend<T>(a: seq<T>, x: T, i: nat, j: nat)
    requires i <= j <= |a|
    ensures (a + [x])[i..j] == a[i..j]
    ensures (a + [x])[i..|a| + 1] == a[i..] + [x]
  {
  }

  /** Two appends in a row are one append of the two parts. */
  lemma AppendTwice<T>(start: seq<T>, middle: seq<T>, end: seq<T>, part: seq<T>, rest: seq<T>, whole: seq<T>)
    requires middle == start + part && end == middle + rest && whole == part + rest
    ensures end == start + whole
  {
  }

  /** A prefix of a part after a start is a prefix of the start, the part and what follows. */
  lemma PrefixOfAppend<T>(start: seq<T>, part: seq<T>, rest: seq<T>, n: nat)
    requires n <= |part|
    ensures start + part[..n] == (start + (part + rest))[..|start| + n]
  {
  }

  /** A non-empty sequence is its initial part followed by its last element. */
  lemma InitLast<T>(s: seq<T>)
    requires s != []
    ensures s == s[..|s| - 1] + [s[|s| - 1]]
  {
  }
}
