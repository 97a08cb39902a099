/** Python string operations used by the generator, on ASCII text: case mapping, str.title,
    str.isupper, str.split/str.join on a one-character separator, str.strip, string order and sorted(). */
module Text {

  // ---------------------------------------------------------------------------
  // Characters

  predicate IsLowerChar(c: char) { 'a' <= c <= 'z' }
  predicate IsUpperChar(c: char) { 'A' <= c <= 'Z' }

  /** A cased character in the sense of Python's str.title and str.isupper. */
  predicate IsCased(c: char) { IsLowerChar(c) || IsUpperChar(c) }

  function UpperChar(c: char): char {
    if IsLowerChar(c) then (c as int - 32) as char else c
  }

  function LowerChar(c: char): char {
    if IsUpperChar(c) then (c as int + 32) as char else c
  }

  /** Python's whitespace characters in the ASCII range (what str.strip() removes). */
  predicate IsSpace(c: char) {
    c == ' ' || '\t' <= c <= '\r' || '\U{1c}' <= c <= '\U{1f}'
  }

  // ---------------------------------------------------------------------------
  // Whole strings

  function Upper(s: string): string {
    seq(|s|, i requires 0 <= i < |s| => UpperChar(s[i]))
  }

  function Lower(s: string): string {
    seq(|s|, i requires 0 <= i < |s| => LowerChar(s[i]))
  }

  /** Python's str.isupper: at least one upper-case letter and no lower-case letter. */
  predicate IsUpperWord(w: string) {
    (exists i :: 0 <= i < |w| && IsUpperChar(w[i])) && forall i :: 0 <= i < |w| ==> !IsLowerChar(w[i])
  }

  predicate EndsWith(s: string, suffix: string) {
    |suffix| <= |s| && s[|s| - |suffix|..] == suffix
  }

  function TitleChar(c: char, afterCased: bool): char {
    if !IsCased(c) then c else if afterCased then LowerChar(c) else UpperChar(c)
  }

  /** str.title applied to `s` when the character before it was cased iff `afterCased`.
      Title-casing changes the case of letters and nothing else. */
  function TitleFrom(s: string, afterCased: bool): (r: string)
    ensures |r| == |s|
    ensures forall k :: 0 <= k < |s| && !IsCased(s[k]) ==> r[k] == s[k]
    ensures forall k :: 0 <= k < |s| ==> (IsCased(r[k]) <==> IsCased(s[k]))
    ensures forall k :: 0 <= k < |s| ==> UpperChar(r[k]) == UpperChar(s[k])
    decreases |s|
  {
    if s == [] then [] else [TitleChar(s[0], afterCased)] + TitleFrom(s[1..], IsCased(s[0]))
  }

  /** Python's str.title: a letter is upper-cased when it follows an uncased character, lower-cased otherwise. */
  function Title(s: string): string {
    TitleFrom(s, false)
  }

  /** Title-casing twice is title-casing once. */
  lemma {:induction false} TitleFromIdempotent(s: string, afterCased: bool)
    ensures TitleFrom(TitleFrom(s, afterCased), afterCased) == TitleFrom(s, afterCased)
    decreases |s|
  {
    if s != [] {
      var t := TitleFrom(s, afterCased);
      assert t[1..] == TitleFrom(s[1..], IsCased(s[0]));
      TitleFromIdempotent(s[1..], IsCased(s[0]));
    }
  }

  /** An uncased separator restarts title-casing, so str.title works word by word. */
  lemma {:induction false} TitleAcrossSeparator(a: string, b: string, sep: char, afterCased: bool)
    requires !IsCased(sep)
    ensures TitleFrom(a + [sep] + b, afterCased) == TitleFrom(a, afterCased) + [sep] + TitleFrom(b, false)
    decreases |a|
  {
    if a == [] {
      assert a + [sep] + b == [sep] + b;
      assert ([sep] + b)[1..] == b;
    } else {
      assert (a + [sep] + b)[1..] == a[1..] + [sep] + b;
      TitleAcrossSeparator(a[1..], b, sep, IsCased(a[0]));
    }
  }

  // ---------------------------------------------------------------------------
  // split / join on a one-character separator

  function IndexOf(s: string, c: char): (i: nat)
    requires c in s
    ensures i < |s| && s[i] == c && c !in s[..i]
  {
    if s[0] == c then 0 else
      var j := IndexOf(s[1..], c);
      assert s[..j + 1] == [s[0]] + s[1..][..j];
      j + 1
  }

  lemma IndexOfAfterPrefix(x: string, c: char, y: string)
    requires c !in x
    ensures c in x + [c] + y && IndexOf(x + [c] + y, c) == |x|
  {
    var s := x + [c] + y;
    assert s[|x|] == c;
    assert forall k :: 0 <= k < |x| ==> s[k] == x[k];
  }

  /** Splitting at the first separator. */
  lemma SplitAfterPrefix(x: string, sep: char, y: string)
    requires sep !in x
    ensures Split(x + [sep] + y, sep) == [x] + Split(y, sep)
  {
    var s := x + [sep] + y;
    IndexOfAfterPrefix(x, sep, y);
    assert s[..|x|] == x;
    assert s[|x| + 1..] == y;
  }

  /** Python's s.split(sep) with an explicit one-character separator: every occurrence splits
      and empty pieces are kept. */
  function Split(s: string, sep: char): (r: seq<string>)
    ensures |r| >= 1
    ensures forall k :: 0 <= k < |r| ==> sep !in r[k]
    decreases |s|
  {
    if sep !in s then [s]
    else
      var i := IndexOf(s, sep);
      [s[..i]] + Split(s[i + 1..], sep)
  }

  /** Python's sep.join(words). */
  function Join(words: seq<string>, sep: char): string {
    if words == [] then []
    else if |words| == 1 then words[0]
    else words[0] + [sep] + Join(words[1..], sep)
  }

  lemma JoinCons(w: string, rest: seq<string>, sep: char)
    requires |rest| >= 1
    ensures Join([w] + rest, sep) == w + [sep] + Join(rest, sep)
  {
    assert ([w] + rest)[1..] == rest;
  }

  /** Splitting and joining again gives the original string. */
  lemma {:induction false} JoinSplit(s: string, sep: char)
    ensures Join(Split(s, sep), sep) == s
    decreases |s|
  {
    if sep in s {
      var i := IndexOf(s, sep);
      var x, y := s[..i], s[i + 1..];
      assert s == x + [sep] + y;
      SplitAfterPrefix(x, sep, y);
      JoinSplit(y, sep);
      JoinCons(x, Split(y, sep), sep);
    }
  }

  /** Joining words free of the separator and splitting again gives the words back. */
  lemma {:induction false} SplitJoin(words: seq<string>, sep: char)
    requires |words| >= 1
    requires forall k :: 0 <= k < |words| ==> sep !in words[k]
    ensures Split(Join(words, sep), sep) == words
    decreases |words|
  {
    if |words| > 1 {
      var rest := Join(words[1..], sep);
      assert Join(words, sep) == words[0] + [sep] + rest;
      SplitJoin(words[1..], sep);
      SplitAfterPrefix(words[0], sep, rest);
      assert words == [words[0]] + words[1..];
    }
  }

  lemma TitleKeepsUncased(s: string, c: char)
    requires !IsCased(c)
    ensures c in Title(s) <==> c in s
  {
    var t := Title(s);
    if c in s {
      var k :| 0 <= k < |s| && s[k] == c;
      assert t[k] == c;
    }
    if c in t {
      var k :| 0 <= k < |t| && t[k] == c;
      assert s[k] == c;
    }
  }

  /** str.title commutes with splitting on an uncased separator. */
  lemma {:induction false} SplitTitle(s: string, sep: char)
    requires !IsCased(sep)
    ensures |Split(Title(s), sep)| == |Split(s, sep)|
    ensures forall k :: 0 <= k < |Split(s, sep)| ==> Split(Title(s), sep)[k] == Title(Split(s, sep)[k])
    decreases |s|
  {
    var t := Title(s);
    if sep in s {
      var i := IndexOf(s, sep);
      var a, b := s[..i], s[i + 1..];
      assert s == a + [sep] + b;
      SplitAfterPrefix(a, sep, b);
      TitleAcrossSeparator(a, b, sep, false);
      TitleKeepsUncased(a, sep);
      SplitAfterPrefix(Title(a), sep, Title(b));
      SplitTitle(b, sep);
      var ws, ts := Split(s, sep), Split(t, sep);
      assert ws == [a] + Split(b, sep) && ts == [Title(a)] + Split(Title(b), sep);
      forall k | 0 <= k < |ws| ensures ts[k] == Title(ws[k]) {
        if k > 0 {
          assert ws[k] == Split(b, sep)[k - 1] && ts[k] == Split(Title(b), sep)[k - 1];
        }
      }
    } else {
      TitleKeepsUncased(s, sep);
    }
  }

  // ---------------------------------------------------------------------------
  // strip

  function TrimLeft(s: string): string {
    if s != [] && IsSpace(s[0]) then TrimLeft(s[1..]) else s
  }

  function TrimRight(s: string): string {
    if s != [] && IsSpace(s[|s| - 1]) then TrimRight(s[..|s| - 1]) else s
  }

  /** Python's str.strip() with no argument. */
  function Strip(s: string): string {
    TrimRight(TrimLeft(s))
  }

  // ---------------------------------------------------------------------------
  // Python's string order (code point by code point) and sorted()

  /** a < b for Python strings. */
  predicate Below(a: string, b: string)
    decreases |a|
  {
    if a == [] then b != []
    else if b == [] then false
    else if a[0] != b[0] then a[0] < b[0]
    else Below(a[1..], b[1..])
  }

  lemma {:induction false} BelowIrreflexive(a: string)
    ensures !Below(a, a)
    decreases |a|
  {
    if a != [] { BelowIrreflexive(a[1..]); }
  }

  lemma {:induction false} BelowTransitive(a: string, b: string, c: string)
    requires Below(a, b) && Below(b, c)
    ensures Below(a, c)
    decreases |a|
  {
    if a != [] && b != [] && c != [] && a[0] == b[0] && b[0] == c[0] {
      BelowTransitive(a[1..], b[1..], c[1..]);
    }
  }

  lemma {:induction false} BelowTotal(a: string, b: string)
    ensures a == b || Below(a, b) || Below(b, a)
    decreases |a|
  {
    if a != [] && b != [] && a[0] == b[0] {
      BelowTotal(a[1..], b[1..]);
      if a[1..] == b[1..] {
        assert a == [a[0]] + a[1..] && b == [b[0]] + b[1..];
      }
    }
  }

  /** Non-decreasing in Python's string order. */
  predicate Sorted(s: seq<string>) {
    forall i, j :: 0 <= i < j < |s| ==> !Below(s[j], s[i])
  }

  function Insert(x: string, s: seq<string>): (r: seq<string>)
    requires Sorted(s)
    ensures Sorted(r) && multiset(r) == multiset(s) + multiset{x}
  {
    if s == [] then [x]
    else if Below(s[0], x) then
      var tail := Insert(x, s[1..]);
      assert s == [s[0]] + s[1..];
      assert forall k :: 0 <= k < |tail| ==> !Below(tail[k], s[0]) by {
        forall k | 0 <= k < |tail| ensures !Below(tail[k], s[0]) {
          assert tail[k] in multiset(s[1..]) + multiset{x};
          if tail[k] == x {
            if Below(x, s[0]) { BelowTransitive(x, s[0], x); BelowIrreflexive(x); }
          } else {
            assert tail[k] in s[1..];
          }
        }
      }
      [s[0]] + tail
    else
      assert forall k :: 0 <= k < |s| ==> !Below(s[k], x) by {
        forall k | 0 <= k < |s| ensures !Below(s[k], x) {
          BelowTotal(x, s[0]);
          if Below(s[k], x) {
            if x == s[0] {
            } else {
              BelowTransitive(s[k], x, s[0]);
            }
          }
        }
      }
      [x] + s
  }

  /** Python's sorted() on a list of strings: an ordered permutation of its input. */
  function Sort(s: seq<string>): (r: seq<string>)
    ensures Sorted(r)
    ensures multiset(r) == multiset(s)
  {
    if s == [] then []
    else
      assert s == [s[0]] + s[1..];
      Insert(s[0], Sort(s[1..]))
  }

  /** sorted() leaves an ordered list as it is. */
  lemma {:induction false} SortOfSorted(s: seq<string>)
    requires Sorted(s)
    ensures Sort(s) == s
  {
    if s != [] {
      assert Sorted(s[1..]);
      SortOfSorted(s[1..]);
      if |s| > 1 {
        assert !Below(s[1..][0], s[0]);
      }
    }
  }
}
