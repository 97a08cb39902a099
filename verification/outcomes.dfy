/** The loop shape shared by the rule validators: each element is either kept, skipped,
    collected for a later error message, or fails at once. A scan keeps going past collected
    elements and stops at the first failure it meets. */
module Outcomes {
  import opened Wrappers

  datatype Outcome<T, N, F> = Keep(value: T) | Skip | Collect(name: N) | Fail(failure: F)

  /** The kept values, in order. */
  function Kept<T, N, F>(os: seq<Outcome<T, N, F>>): seq<T> {
    if os == [] then []
    else (if os[0].Keep? then [os[0].value] else []) + Kept(os[1..])
  }

  /** The collected names, in order. */
  function Collected<T, N, F>(os: seq<Outcome<T, N, F>>): seq<N> {
    if os == [] then []
    else (if os[0].Collect? then [os[0].name] else []) + Collected(os[1..])
  }

  /** The failure met first when reading from the front. */
  function FirstFail<T, N, F>(os: seq<Outcome<T, N, F>>): Option<F> {
    if os == [] then None
    else if os[0].Fail? then Some(os[0].failure)
    else FirstFail(os[1..])
  }

  /** The failure met first when reading from the back. */
  function LastFail<T, N, F>(os: seq<Outcome<T, N, F>>): Option<F> {
    if os == [] then None
    else if os[|os| - 1].Fail? then Some(os[|os| - 1].failure)
    else LastFail(os[..|os| - 1])
  }

  function Reverse<T>(s: seq<T>): (r: seq<T>)
    ensures |r| == |s| && forall k :: 0 <= k < |s| ==> r[k] == s[|s| - 1 - k]
  {
    if s == [] then [] else Reverse(s[1..]) + [s[0]]
  }

  /** A front-to-back scan from position `i`, with what was kept and collected so far. */
  function ScanForward<T, N, F>(os: seq<Outcome<T, N, F>>, i: nat, kept: seq<T>, collected: seq<N>)
    : Result<(seq<T>, seq<N>), F>
    requires i <= |os|
    decreases |os| - i
  {
    if i == |os| then Ok((kept, collected))
    else match os[i]
      case Keep(x) => ScanForward(os, i + 1, kept + [x], collected)
      case Skip => ScanForward(os, i + 1, kept, collected)
      case Collect(n) => ScanForward(os, i + 1, kept, collected + [n])
      case Fail(f) => Err(f)
  }

  /** A scan that pops elements off the back of `rest` until it is empty. */
  function ScanBackward<T, N, F>(rest: seq<Outcome<T, N, F>>, kept: seq<T>, collected: seq<N>)
    : Result<(seq<T>, seq<N>), F>
    decreases |rest|
  {
    if rest == [] then Ok((kept, collected))
    else match rest[|rest| - 1]
      case Keep(x) => ScanBackward(rest[..|rest| - 1], kept + [x], collected)
      case Skip => ScanBackward(rest[..|rest| - 1], kept, collected)
      case Collect(n) => ScanBackward(rest[..|rest| - 1], kept, collected + [n])
      case Fail(f) => Err(f)
  }

  /** A forward scan fails with the first failure; otherwise it has kept and collected
      everything, in order. */
  lemma {:induction false} ScanForwardMeaning<T, N, F>(os: seq<Outcome<T, N, F>>, i: nat, kept: seq<T>, collected: seq<N>)
    requires i <= |os|
    ensures ScanForward(os, i, kept, collected) ==
      match FirstFail(os[i..])
      case Some(f) => Err(f)
      case None => Ok((kept + Kept(os[i..]), collected + Collected(os[i..])))
    decreases |os| - i
  {
    if i == |os| {
      assert os[i..] == [];
      assert kept + [] == kept && collected + [] == collected;
    } else {
      var rest := os[i..];
      assert rest[0] == os[i] && rest[1..] == os[i + 1..];
      match os[i]
      case Keep(x) =>
        ScanForwardMeaning(os, i + 1, kept + [x], collected);
        assert Kept(rest) == [x] + Kept(os[i + 1..]);
        assert Collected(rest) == [] + Collected(os[i + 1..]) == Collected(os[i + 1..]);
        assert kept + [x] + Kept(os[i + 1..]) == kept + Kept(rest);
      case Skip =>
        ScanForwardMeaning(os, i + 1, kept, collected);
        assert Kept(rest) == [] + Kept(os[i + 1..]) == Kept(os[i + 1..]);
        assert Collected(rest) == [] + Collected(os[i + 1..]) == Collected(os[i + 1..]);
      case Collect(n) =>
        ScanForwardMeaning(os, i + 1, kept, collected + [n]);
        assert Kept(rest) == [] + Kept(os[i + 1..]) == Kept(os[i + 1..]);
        assert Collected(rest) == [n] + Collected(os[i + 1..]);
        assert collected + [n] + Collected(os[i + 1..]) == collected + Collected(rest);
      case Fail(f) =>
    }
  }

  lemma KeptSnoc<T, N, F>(os: seq<Outcome<T, N, F>>, o: Outcome<T, N, F>)
    ensures Kept(os + [o]) == Kept(os) + (if o.Keep? then [o.value] else [])
    ensures Collected(os + [o]) == Collected(os) + (if o.Collect? then [o.name] else [])
    ensures o.Fail? ==> LastFail(os + [o]) == Some(o.failure)
    ensures !o.Fail? ==> LastFail(os + [o]) == LastFail(os)
  {
    assert (os + [o])[..|os|] == os;
    KeptAppend(os, o);
    CollectedAppend(os, o);
  }

  lemma {:induction false} KeptAppend<T, N, F>(os: seq<Outcome<T, N, F>>, o: Outcome<T, N, F>)
    ensures Kept(os + [o]) == Kept(os) + (if o.Keep? then [o.value] else [])
  {
    if os != [] {
      assert (os + [o])[1..] == os[1..] + [o];
      KeptAppend(os[1..], o);
    }
  }

  lemma {:induction false} CollectedAppend<T, N, F>(os: seq<Outcome<T, N, F>>, o: Outcome<T, N, F>)
    ensures Collected(os + [o]) == Collected(os) + (if o.Collect? then [o.name] else [])
  {
    if os != [] {
      assert (os + [o])[1..] == os[1..] + [o];
      CollectedAppend(os[1..], o);
    }
  }

  /** A backward scan fails with the failure nearest the back; otherwise it has appended the kept
      and the collected elements in reverse order. */
  lemma {:induction false} ScanBackwardMeaning<T, N, F>(rest: seq<Outcome<T, N, F>>, kept: seq<T>, collected: seq<N>)
    ensures ScanBackward(rest, kept, collected) ==
      match LastFail(rest)
      case Some(f) => Err(f)
      case None => Ok((kept + Reverse(Kept(rest)), collected + Reverse(Collected(rest))))
    decreases |rest|
  {
    if rest == [] {
      assert kept + [] == kept && collected + [] == collected;
    } else {
      var front, o := rest[..|rest| - 1], rest[|rest| - 1];
      assert rest == front + [o];
      KeptSnoc(front, o);
      match o
      case Keep(x) =>
        ScanBackwardMeaning(front, kept + [x], collected);
        assert Collected(rest) == Collected(front) + [] == Collected(front);
        ReverseSnoc(Kept(front), [x]);
        assert kept + [x] + Reverse(Kept(front)) == kept + Reverse(Kept(rest));
      case Skip =>
        ScanBackwardMeaning(front, kept, collected);
        assert Kept(rest) == Kept(front) + [] == Kept(front);
        assert Collected(rest) == Collected(front) + [] == Collected(front);
      case Collect(n) =>
        ScanBackwardMeaning(front, kept, collected + [n]);
        assert Kept(rest) == Kept(front) + [] == Kept(front);
        ReverseSnoc(Collected(front), [n]);
        assert collected + [n] + Reverse(Collected(front)) == collected + Reverse(Collected(rest));
      case Fail(f) =>
    }
  }

  lemma ReverseSnoc<T>(s: seq<T>, t: seq<T>)
    requires |t| <= 1
    ensures Reverse(s + t) == t + Reverse(s)
  {
  }

  lemma {:induction false} KeptMembers<T, N, F>(os: seq<Outcome<T, N, F>>)
    ensures forall x :: x in Kept(os) ==> Keep(x) in os
    ensures forall n :: n in Collected(os) <==> Collect(n) in os
    ensures FirstFail(os).None? <==> forall k :: 0 <= k < |os| ==> !os[k].Fail?
    ensures LastFail(os).None? <==> FirstFail(os).None?
  {
    KeptIn(os);
    CollectedIn(os);
    FirstFailNone(os);
    LastFailNone(os);
  }

  lemma {:induction false} KeptIn<T, N, F>(os: seq<Outcome<T, N, F>>)
    ensures forall x :: x in Kept(os) ==> Keep(x) in os
  {
    if os != [] {
      KeptIn(os[1..]);
      assert os == [os[0]] + os[1..];
    }
  }

  lemma {:induction false} CollectedIn<T, N, F>(os: seq<Outcome<T, N, F>>)
    ensures forall n :: n in Collected(os) <==> Collect(n) in os
  {
    if os != [] {
      CollectedIn(os[1..]);
      assert os == [os[0]] + os[1..];
    }
  }

  lemma {:induction false} FirstFailNone<T, N, F>(os: seq<Outcome<T, N, F>>)
    ensures FirstFail(os).None? <==> forall k :: 0 <= k < |os| ==> !os[k].Fail?
  {
    if os != [] {
      FirstFailNone(os[1..]);
      assert forall k :: 1 <= k < |os| ==> os[1..][k - 1] == os[k];
    }
  }

  lemma {:induction false} LastFailNone<T, N, F>(os: seq<Outcome<T, N, F>>)
    ensures LastFail(os).None? <==> forall k :: 0 <= k < |os| ==> !os[k].Fail?
  {
    if os != [] {
      var front := os[..|os| - 1];
      LastFailNone(front);
      assert forall k :: 0 <= k < |front| ==> front[k] == os[k];
    }
  }

  /** When every element is kept, the kept values are the elements' values, position by position. */
  lemma {:induction false} AllKept<T, N, F>(os: seq<Outcome<T, N, F>>)
    requires forall k :: 0 <= k < |os| ==> os[k].Keep?
    ensures |Kept(os)| == |os| && forall k :: 0 <= k < |os| ==> Kept(os)[k] == os[k].value
    ensures Collected(os) == []
  {
    if os != [] {
      AllKept(os[1..]);
    }
  }

  /** The first failure belongs to an element preceded only by elements that do not fail. */
  lemma {:induction false} FirstFailWitness<T, N, F>(os: seq<Outcome<T, N, F>>)
    requires FirstFail(os).Some?
    ensures exists k :: 0 <= k < |os| && os[k] == Fail(FirstFail(os).value) &&
                        forall j :: 0 <= j < k ==> !os[j].Fail?
  {
    if !os[0].Fail? {
      FirstFailWitness(os[1..]);
      var k :| 0 <= k < |os[1..]| && os[1..][k] == Fail(FirstFail(os[1..]).value) &&
               forall j :: 0 <= j < k ==> !os[1..][j].Fail?;
      assert os[k + 1] == Fail(FirstFail(os).value);
      forall j | 0 <= j < k + 1 ensures !os[j].Fail? {
        if j > 0 { assert os[j] == os[1..][j - 1]; }
      }
    }
  }

  /** The failure nearest the back belongs to an element followed only by elements that do not fail. */
  lemma {:induction false} LastFailWitness<T, N, F>(os: seq<Outcome<T, N, F>>)
    requires LastFail(os).Some?
    ensures exists k :: 0 <= k < |os| && os[k] == Fail(LastFail(os).value) &&
                        forall j :: k < j < |os| ==> !os[j].Fail?
  {
    var front := os[..|os| - 1];
    if !os[|os| - 1].Fail? {
      LastFailWitness(front);
      var k :| 0 <= k < |front| && front[k] == Fail(LastFail(front).value) &&
               forall j :: k < j < |front| ==> !front[j].Fail?;
      assert os[k] == front[k];
      forall j | k < j < |os| ensures !os[j].Fail? {
        if j < |front| { assert os[j] == front[j]; }
      }
    }
  }

  /** With nothing collected along the way, the collected names are empty. */
  lemma {:induction false} NoCollect<T, N, F>(os: seq<Outcome<T, N, F>>)
    requires forall k :: 0 <= k < |os| ==> !os[k].Collect?
    ensures Collected(os) == []
  {
    if os != [] {
      NoCollect(os[1..]);
    }
  }
}
