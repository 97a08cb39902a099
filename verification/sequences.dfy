/** Duplicate-free sequences, and pandas' drop_duplicates (the first occurrence of each row is
    kept, in the original order). */
module Sequences {

  predicate Distinct<T(==)>(s: seq<T>) {
    forall i, j :: 0 <= i < j < |s| ==> s[i] != s[j]
  }

  lemma {:induction false} DistinctCard<T>(s: seq<T>)
    requires Distinct(s)
    ensures |set x | x in s| == |s|
  {
    if s != [] {
      DistinctCard(s[1..]);
      assert (set x | x in s) == {s[0]} + (set x | x in s[1..]);
      assert s[0] !in s[1..];
    }
  }

  /** Keeps the first occurrence of every element. */
  function Dedup<T(==)>(s: seq<T>): seq<T> {
    if s == [] then []
    else
      var d := Dedup(s[..|s| - 1]);
      if s[|s| - 1] in d then d else d + [s[|s| - 1]]
  }

  /** The index of the first occurrence of `x`. */
  function FirstIndex<T(==)>(s: seq<T>, x: T): (k: nat)
    requires x in s
    ensures k < |s| && s[k] == x && x !in s[..k]
  {
    if s[0] == x then 0
    else
      var k := FirstIndex(s[1..], x);
      assert s[..k + 1] == [s[0]] + s[1..][..k];
      k + 1
  }

  /** drop_duplicates leaves no duplicate, loses no element, and keeps the elements in the order
      of their first occurrences. */
  lemma {:induction false} DedupMeaning<T>(s: seq<T>)
    ensures Distinct(Dedup(s))
    ensures forall x :: x in Dedup(s) <==> x in s
    ensures forall i, j :: 0 <= i < j < |Dedup(s)| ==> FirstIndex(s, Dedup(s)[i]) < FirstIndex(s, Dedup(s)[j])
  {
    if s != [] {
      var front, x := s[..|s| - 1], s[|s| - 1];
      DedupMeaning(front);
      assert s == front + [x];
      var d := Dedup(front);
      forall y | y in front ensures FirstIndex(s, y) == FirstIndex(front, y) {
        var k := FirstIndex(front, y);
        assert s[..k] == front[..k];
      }
      if x !in d {
        var e := d + [x];
        forall i, j | 0 <= i < j < |e| ensures FirstIndex(s, e[i]) < FirstIndex(s, e[j]) {
          if j == |d| {
            assert e[i] == d[i] && d[i] in d;
            assert x !in front;
            assert s[..|front|] == front;
          }
        }
      }
    }
  }

  /** A duplicate-free sequence is its own drop_duplicates. */
  lemma {:induction false} DedupDistinct<T>(s: seq<T>)
    requires Distinct(s)
    ensures Dedup(s) == s
  {
    if s != [] {
      var front := s[..|s| - 1];
      DedupDistinct(front);
      DedupMeaning(front);
      assert s == front + [s[|s| - 1]];
    }
  }

  /** A permutation of a duplicate-free sequence is duplicate-free. */
  lemma PermutationDistinct<T>(s: seq<T>, r: seq<T>)
    requires Distinct(s) && multiset(r) == multiset(s)
    ensures Distinct(r)
  {
    forall x ensures multiset(s)[x] <= 1 {
      DistinctCount(s, x);
    }
    forall i, j | 0 <= i < j < |r| ensures r[i] != r[j] {
      if r[i] == r[j] {
        TwoCopies(r, i, j);
      }
    }
  }

  lemma {:induction false} DistinctCount<T>(s: seq<T>, x: T)
    requires Distinct(s)
    ensures multiset(s)[x] <= 1
  {
    if s != [] {
      assert s == [s[0]] + s[1..];
      assert Distinct(s[1..]);
      DistinctCount(s[1..], x);
      if x == s[0] {
        assert x !in s[1..];
      }
    }
  }

  lemma TwoCopies<T>(r: seq<T>, i: nat, j: nat)
    requires i < j < |r| && r[i] == r[j]
    ensures multiset(r)[r[i]] >= 2
  {
    assert r == r[..i] + [r[i]] + r[i + 1..j] + [r[j]] + r[j + 1..];
  }

  /** A sequence has at most as many distinct elements as it has elements. */
  lemma {:induction false} CardAtMost<T>(s: seq<T>)
    ensures |set x | x in s| <= |s|
  {
    if s != [] {
      CardAtMost(s[1..]);
      assert (set x | x in s) == {s[0]} + (set x | x in s[1..]);
    }
  }

  /** A non-empty sequence holds its first element. */
  lemma HeadIn<T>(s: seq<T>)
    ensures s != [] ==> s[0] in s
  {
  }

  /** An occurrence with no earlier one is the first occurrence. */
  /** The last element of a sequence without repetition does not occur before it. */
  lemma DistinctLast<T>(s: seq<T>, x: T)
    ensures Distinct(s + [x]) ==> x !in s
  {
    if x in s {
      var k :| 0 <= k < |s| && s[k] == x;
      assert (s + [x])[k] == (s + [x])[|s|];
    }
  }

  lemma FirstIndexUnique<T>(s: seq<T>, x: T, k: nat)
    requires k < |s| && s[k] == x && x !in s[..k]
    ensures FirstIndex(s, x) == k
  {
  }

  /** Appending after the first occurrence of an element does not move it; an element first met
      in the appended part is found after the prefix. */
  lemma FirstIndexAppend<T>(s: seq<T>, t: seq<T>, x: T)
    requires x in s + t
    ensures x in s ==> FirstIndex(s + t, x) == FirstIndex(s, x)
    ensures x !in s ==> FirstIndex(s + t, x) == |s| + FirstIndex(t, x)
  {
    if x in s {
      var j := FirstIndex(s, x);
      assert (s + t)[..j] == s[..j];
      FirstIndexUnique(s + t, x, j);
    } else {
      assert x in t;
      var j := FirstIndex(t, x);
      assert (s + t)[..|s| + j] == s + t[..j];
      FirstIndexUnique(s + t, x, |s| + j);
    }
  }

  /** The same suffix on two sequences can be cancelled. */
  lemma AppendCancel<T>(a: seq<T>, b: seq<T>, t: seq<T>)
    ensures a + t == b + t ==> a == b
  {
    if a + t == b + t {
      assert a == (a + t)[..|a|];
      assert b == (b + t)[..|b|];
    }
  }

  /** pd.concat of a list of tables: their rows one after the other. */
  function Flatten<T>(ss: seq<seq<T>>): seq<T> {
    if ss == [] then [] else ss[0] + Flatten(ss[1..])
  }

  /** Everything in a flattened sequence comes from one of its parts, and conversely. */
  lemma {:induction false} FlattenMembers<T>(ss: seq<seq<T>>, x: T)
    ensures x in Flatten(ss) <==> exists k :: 0 <= k < |ss| && x in ss[k]
  {
    if ss != [] {
      FlattenMembers(ss[1..], x);
      if exists k :: 0 <= k < |ss| && x in ss[k] {
        var k :| 0 <= k < |ss| && x in ss[k];
        if k > 0 {
          assert x in ss[1..][k - 1];
        }
      }
      if exists k :: 0 <= k < |ss[1..]| && x in ss[1..][k] {
        var k :| 0 <= k < |ss[1..]| && x in ss[1..][k];
        assert x in ss[k + 1];
      }
    }
  }

  /** Appending elements only appends to what drop_duplicates keeps. */
  lemma {:induction false} DedupPrefix<T>(a: seq<T>, b: seq<T>)
    ensures Dedup(a) <= Dedup(a + b)
  {
    if b == [] {
      assert a + b == a;
    } else {
      var front := b[..|b| - 1];
      DedupPrefix(a, front);
      assert (a + b)[..|a + b| - 1] == a + front;
    }
  }

  /** Deduplicating in two stages gives what deduplicating once does. */
  lemma {:induction false} DedupAppend<T>(a: seq<T>, b: seq<T>)
    ensures Dedup(Dedup(a) + b) == Dedup(a + b)
  {
    if b == [] {
      assert Dedup(a) + b == Dedup(a) && a + b == a;
      DedupMeaning(a);
      DedupDistinct(Dedup(a));
    } else {
      var front, y := b[..|b| - 1], b[|b| - 1];
      DedupAppend(a, front);
      assert Dedup(a) + b == (Dedup(a) + front) + [y];
      assert a + b == (a + front) + [y];
      assert (Dedup(a) + b)[..|Dedup(a) + b| - 1] == Dedup(a) + front;
      assert (a + b)[..|a + b| - 1] == a + front;
    }
  }
}
