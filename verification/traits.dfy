/** The trait-name helpers of restriction_code.py: which files are traits, how a filename becomes
    a trait name, the "Title Style" re-styling, and the per-layer record that map_assets keeps. */
module Traits {
  import opened Wrappers
  import opened Text
  import opened Sequences

  const Png := ".png"

  /** The reserved name of a layer's absence. */
  const Absence := "none"

  /** restriction_code.py:38-52; the os.path.isdir answer is supplied as `isDir`. */
  predicate IsValidTrait(filename: string, isDir: bool) {
    !isDir && EndsWith(filename, Png) && filename[0] != '.'
  }

  datatype FileError = ReservedName(filename: string)

  function StripPng(f: string): string {
    if EndsWith(f, Png) then f[..|f| - |Png|] else f
  }

  /** fix_trait: drops one trailing ".png" and refuses every capitalisation of "none". */
  function FixTrait(filename: string): (r: Result<string, FileError>)
    ensures r.Ok? <==> Lower(StripPng(filename)) != Absence
    ensures r.Ok? ==> Lower(r.value) != Absence
    ensures r.Ok? ==> r.value + (if EndsWith(filename, Png) then Png else "") == filename
  {
    var t := StripPng(filename);
    if Lower(t) == Absence then Err(ReservedName(filename)) else Ok(t)
  }

  /** Exactly one ".png" is removed: a trait file name round-trips through fix_trait. */
  lemma FixTraitRoundTrip(t: string)
    ensures FixTrait(t + Png) == if Lower(t) == Absence then Err(ReservedName(t + Png)) else Ok(t)
  {
    var f := t + Png;
    assert EndsWith(f, Png) && f[..|f| - |Png|] == t;
  }

  /** title_style (restriction_code.py:69-77): str.title, then every word that was all upper case
      in the input is upper-cased again. */
  function TitleStyle(name: string): string {
    var words := Split(name, ' ');
    var titled := Split(Title(name), ' ');
    Join(seq(|titled|, i requires 0 <= i < |titled| =>
      if i < |words| && IsUpperWord(words[i]) then Upper(titled[i]) else titled[i]), ' ')
  }

  lemma UpperWordKept(w: string)
    requires IsUpperWord(w)
    ensures Upper(w) == w
  {
  }

  /** How title_style re-styles one word. */
  function StyleWord(w: string): string {
    if IsUpperWord(w) then w else Title(w)
  }

  lemma StyleWordIdempotent(w: string)
    ensures StyleWord(StyleWord(w)) == StyleWord(w)
  {
    if !IsUpperWord(w) {
      TitleFromIdempotent(w, false);
    }
  }

  /** title_style keeps the number of space-separated words; an all-upper-case word comes back
      unchanged and every other word comes back in str.title form. */
  lemma TitleStyleWords(name: string)
    ensures |Split(TitleStyle(name), ' ')| == |Split(name, ' ')|
    ensures forall i :: 0 <= i < |Split(name, ' ')| ==>
      var w := Split(name, ' ')[i];
      Split(TitleStyle(name), ' ')[i] == StyleWord(w)
  {
    var words := Split(name, ' ');
    var titled := Split(Title(name), ' ');
    SplitTitle(name, ' ');
    var styled := seq(|titled|, i requires 0 <= i < |titled| =>
      if i < |words| && IsUpperWord(words[i]) then Upper(titled[i]) else titled[i]);
    forall i | 0 <= i < |words|
      ensures styled[i] == StyleWord(words[i])
      ensures ' ' !in styled[i]
    {
      var w := words[i];
      assert titled[i] == Title(w);
      assert forall k :: 0 <= k < |w| ==> w[k] != ' ';
      if IsUpperWord(w) {
        assert Upper(Title(w)) == Upper(w);
        UpperWordKept(w);
      }
    }
    SplitJoin(styled, ' ');
  }

  /** Re-styling a re-styled name changes nothing, so a resolved trait name resolves to itself. */
  lemma TitleStyleIdempotent(name: string)
    ensures TitleStyle(TitleStyle(name)) == TitleStyle(name)
  {
    var x := TitleStyle(name);
    var y := TitleStyle(x);
    TitleStyleWords(name);
    TitleStyleWords(x);
    var ws := Split(name, ' ');
    forall i | 0 <= i < |ws| ensures Split(y, ' ')[i] == Split(x, ' ')[i] {
      StyleWordIdempotent(ws[i]);
    }
    assert Split(y, ' ') == Split(x, ' ');
    JoinSplit(x, ' ');
    JoinSplit(y, ' ');
  }

  // ---------------------------------------------------------------------------
  // map_assets, for one layer (restriction_code.py:131-145)

  /** NAMES[name]: the layer's trait names, their count, and whether the layer is required. */
  datatype LayerNames = LayerNames(traits: set<string>, n: nat, required: bool)

  /** The values a combination may hold for a layer: its traits, and "none" if it is optional. */
  function Values(layer: LayerNames): set<string> {
    layer.traits + (if layer.required then {} else {Absence})
  }

  /** What map_assets guarantees: no trait is spelled "none", and `n` counts the traits. */
  predicate WellFormed(layer: LayerNames) {
    layer.n == |layer.traits| && forall t :: t in layer.traits ==> Lower(t) != Absence
  }

  function ValidFiles(listing: seq<(string, bool)>): seq<string> {
    if listing == [] then []
    else (if IsValidTrait(listing[0].0, listing[0].1) then [listing[0].0] else []) + ValidFiles(listing[1..])
  }

  function FixAll(files: seq<string>): Result<seq<string>, FileError> {
    if files == [] then Ok([])
    else match FixTrait(files[0])
      case Err(e) => Err(e)
      case Ok(t) =>
        match FixAll(files[1..])
        case Err(e) => Err(e)
        case Ok(ts) => Ok([t] + ts)
  }

  /** The record map_assets stores for one layer, from its folder listing of (name, is-a-directory). */
  function LayerEntry(listing: seq<(string, bool)>, required: bool): Result<LayerNames, FileError> {
    var files := ValidFiles(listing);
    match FixAll(files)
    case Err(e) => Err(e)
    case Ok(ts) => Ok(LayerNames(set t | t in ts, |files|, required))
  }

  lemma {:induction false} ValidFilesProperties(listing: seq<(string, bool)>)
    ensures forall f :: f in ValidFiles(listing) ==> EndsWith(f, Png)
    ensures (forall i, j :: 0 <= i < j < |listing| ==> listing[i].0 != listing[j].0) ==> Distinct(ValidFiles(listing))
  {
    if listing != [] {
      ValidFilesProperties(listing[1..]);
      if forall i, j :: 0 <= i < j < |listing| ==> listing[i].0 != listing[j].0 {
        var rest := ValidFiles(listing[1..]);
        assert forall i, j :: 0 <= i < j < |listing[1..]| ==> listing[1..][i].0 != listing[1..][j].0 by {
          forall i, j | 0 <= i < j < |listing[1..]| ensures listing[1..][i].0 != listing[1..][j].0 {
            assert listing[1..][i] == listing[i + 1] && listing[1..][j] == listing[j + 1];
          }
        }
        forall f | f in rest ensures f != listing[0].0 {
          ValidFilesFrom(listing[1..], f);
          var j :| 0 <= j < |listing[1..]| && listing[1..][j].0 == f;
          assert listing[j + 1].0 == f;
        }
        var all := ValidFiles(listing);
        if IsValidTrait(listing[0].0, listing[0].1) {
          assert all == [listing[0].0] + rest;
          forall i, j | 0 <= i < j < |all| ensures all[i] != all[j] {
            assert all[j] == rest[j - 1] && rest[j - 1] in rest;
            if i > 0 { assert all[i] == rest[i - 1]; }
          }
        }
      }
    }
  }

  lemma {:induction false} ValidFilesFrom(listing: seq<(string, bool)>, f: string)
    requires f in ValidFiles(listing)
    ensures exists j :: 0 <= j < |listing| && listing[j].0 == f
  {
    if listing[0].0 != f || !IsValidTrait(listing[0].0, listing[0].1) {
      ValidFilesFrom(listing[1..], f);
      var j :| 0 <= j < |listing[1..]| && listing[1..][j].0 == f;
      assert listing[j + 1].0 == f;
    }
  }

  lemma {:induction false} FixAllProperties(files: seq<string>)
    requires FixAll(files).Ok?
    ensures |FixAll(files).value| == |files|
    ensures forall k :: 0 <= k < |files| ==> FixTrait(files[k]) == Ok(FixAll(files).value[k])
  {
    if files != [] {
      FixAllProperties(files[1..]);
    }
  }

  /** For a folder listing (whose names are distinct), map_assets's count `n` is the number of
      distinct trait names and no trait is spelled "none". */
  lemma LayerEntryWellFormed(listing: seq<(string, bool)>, required: bool)
    requires forall i, j :: 0 <= i < j < |listing| ==> listing[i].0 != listing[j].0
    requires LayerEntry(listing, required).Ok?
    ensures WellFormed(LayerEntry(listing, required).value)
    ensures LayerEntry(listing, required).value.required == required
  {
    var files := ValidFiles(listing);
    ValidFilesProperties(listing);
    FixAllProperties(files);
    var ts := FixAll(files).value;
    forall i, j | 0 <= i < j < |ts| ensures ts[i] != ts[j] {
      assert files[i] != files[j];
    }
    DistinctCard(ts);
  }
}
