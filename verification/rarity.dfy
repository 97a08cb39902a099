/** The layer set-up of nft.py: the traits of each layer and their rarity weights
    (parse_config, nft.py:39-96), with weights read from a per-layer CSV table
    (get_rarities_from_csv, nft.py:123-185). The directory listing, the CSV table and the random
    numbers are inputs; the normalisation and cumulative sums of the weights are not modelled. */
module Rarity {
  import opened Wrappers
  import opened Text
  import opened Sequences
  import opened Traits

  /** A layer's value in a combination: a trait, or None for an optional layer's absence. */
  type TraitValue = Option<string>

  /** Only the first value of a trait list may be None. */
  predicate TraitList(traits: seq<TraitValue>) {
    forall k :: 0 < k < |traits| ==> traits[k].Some?
  }

  function Names(traits: seq<TraitValue>): (r: seq<string>)
    requires forall k :: 0 <= k < |traits| ==> traits[k].Some?
    ensures |r| == |traits| && forall k :: 0 <= k < |traits| ==> traits[k] == Some(r[k])
  {
    seq(|traits|, k requires 0 <= k < |traits| => traits[k].value)
  }

  // ---------------------------------------------------------------------------
  // get_value_from_none_key (nft.py:101-119)

  /** Bit j of the 4-digit binary numeral of i, most significant digit first. */
  predicate BitSet(i: nat, j: nat)
    requires i < 16 && j < 4
  {
    (if j == 0 then i / 8 else if j == 1 then i / 4 else if j == 2 then i / 2 else i) % 2 == 1
  }

  /** The i-th capitalisation of "none": letter j is upper-cased when bit j of i is set. */
  function NoneVariant(i: nat): string
    requires i < 16
  {
    seq(4, j requires 0 <= j < 4 => if BitSet(i, j) then UpperChar(Absence[j]) else Absence[j])
  }

  /** The value of the first capitalisation of "none", from the i-th on, that is a key. */
  function NoneKeyValue(wd: map<string, real>, i: nat): Option<real>
    requires i <= 16
    decreases 16 - i
  {
    if i == 16 then None
    else if NoneVariant(i) in wd then Some(wd[NoneVariant(i)])
    else NoneKeyValue(wd, i + 1)
  }

  /** get_value_from_none_key: None stands for its KeyError. */
  method GetValueFromNoneKey(wd: map<string, real>) returns (r: Option<real>)
    ensures r == NoneKeyValue(wd, 0)
  {
    for i := 0 to 16
      invariant NoneKeyValue(wd, i) == NoneKeyValue(wd, 0)
    {
      var noneStr := NoneVariant(i);
      if noneStr in wd {
        return Some(wd[noneStr]);
      }
    }
    return None;
  }

  /** The value found is that of the first capitalisation present, and there is none exactly when
      no capitalisation is a key. */
  lemma {:induction false} NoneKeyValueMeaning(wd: map<string, real>, i: nat)
    requires i <= 16
    ensures NoneKeyValue(wd, i).None? <==> forall j :: i <= j < 16 ==> NoneVariant(j) !in wd
    ensures NoneKeyValue(wd, i).Some? ==>
      exists j :: i <= j < 16 && NoneVariant(j) in wd && NoneKeyValue(wd, i).value == wd[NoneVariant(j)] &&
        forall j' :: i <= j' < j ==> NoneVariant(j') !in wd
    decreases 16 - i
  {
    if i < 16 && NoneVariant(i) !in wd {
      NoneKeyValueMeaning(wd, i + 1);
    }
  }

  lemma NoneVariantChars(i: nat, j: nat)
    requires i < 16 && j < 4
    ensures NoneVariant(i)[j] == if BitSet(i, j) then UpperChar(Absence[j]) else Absence[j]
  {
  }

  /** The number whose binary digits are b0 b1 b2 b3. */
  lemma BitsOfNumber(b0: nat, b1: nat, b2: nat, b3: nat)
    requires b0 <= 1 && b1 <= 1 && b2 <= 1 && b3 <= 1
    ensures var i := 8 * b0 + 4 * b1 + 2 * b2 + b3;
      i < 16 && (BitSet(i, 0) <==> b0 == 1) && (BitSet(i, 1) <==> b1 == 1) &&
      (BitSet(i, 2) <==> b2 == 1) && (BitSet(i, 3) <==> b3 == 1)
  {
  }

  /** Every variant spells "none" in some capitalisation. */
  lemma NoneVariantLower(i: nat)
    requires i < 16
    ensures Lower(NoneVariant(i)) == Absence
  {
    forall j | 0 <= j < 4 ensures Lower(NoneVariant(i))[j] == Absence[j] {
      NoneVariantChars(i, j);
      assert IsLowerChar(Absence[j]);
    }
  }

  /** Every capitalisation of "none" is one of the variants. */
  lemma CapitalisationIsVariant(s: string)
    requires Lower(s) == Absence
    ensures exists i :: 0 <= i < 16 && NoneVariant(i) == s
  {
    assert |s| == 4;
    var b := seq(4, j requires 0 <= j < 4 => if s[j] == Absence[j] then 0 else 1);
    forall j | 0 <= j < 4 ensures b[j] <= 1 && (b[j] == 1 ==> s[j] == UpperChar(Absence[j])) {
      assert LowerChar(s[j]) == Lower(s)[j];
    }
    BitsOfNumber(b[0], b[1], b[2], b[3]);
    var i := 8 * b[0] + 4 * b[1] + 2 * b[2] + b[3];
    forall j | 0 <= j < 4 ensures NoneVariant(i)[j] == s[j] {
      NoneVariantChars(i, j);
    }
    assert NoneVariant(i) == s;
  }

  /** The sixteen variants are exactly the spellings of "none" in any capitalisation. */
  lemma NoneVariantsAreCapitalisations(s: string)
    ensures (exists i :: 0 <= i < 16 && NoneVariant(i) == s) <==> Lower(s) == Absence
  {
    if exists i :: 0 <= i < 16 && NoneVariant(i) == s {
      var i :| 0 <= i < 16 && NoneVariant(i) == s;
      NoneVariantLower(i);
    }
    if Lower(s) == Absence {
      CapitalisationIsVariant(s);
    }
  }

  /** The variant tried first is "none" itself. */
  lemma FirstVariant()
    ensures NoneVariant(0) == Absence
  {
    forall j | 0 <= j < 4 ensures NoneVariant(0)[j] == Absence[j] {
      NoneVariantChars(0, j);
    }
  }

  // ---------------------------------------------------------------------------
  // get_rarities_from_csv (nft.py:123-185)

  datatype RarityError =
    | EmptyLayer                       // traits[0] of an empty trait list (IndexError)
    | SizeMismatch(traits: nat, rows: nat)
    | Unsortable                       // sorted() over None and strings, or joining None (TypeError)
    | Mismatch(missing: seq<string>)

  /** What the CSV step yields: a fresh table to be written, or the weights read from the table. */
  datatype CsvWeights =
    | Created(filename: string, rows: seq<(string, real)>, weights: seq<real>)
    | Loaded(weights: seq<real>)

  /** The fresh table of nft.py:139-147: 'none' for an optional layer's None, then its traits,
      all of weight 1. */
  function NewTable(name: string, traits: seq<TraitValue>): Result<CsvWeights, RarityError>
    requires TraitList(traits)
  {
    if traits == [] then Err(EmptyLayer)
    else
      var column := if traits[0].None? then [Absence] + Names(traits[1..]) else Names(traits);
      Ok(Created(name + ".csv", seq(|column|, k requires 0 <= k < |column| => (column[k], 1.0)),
                 seq(|traits|, _ => 1.0)))
  }

  /** The weights of the traits that have a row, in order. */
  function WeightsOf(ts: seq<string>, wd: map<string, real>): seq<real> {
    if ts == [] then []
    else WeightsOf(ts[..|ts| - 1], wd) + (if ts[|ts| - 1] in wd then [wd[ts[|ts| - 1]]] else [])
  }

  /** The traits that have no row, in order. */
  function MissingOf(ts: seq<string>, wd: map<string, real>): seq<string> {
    if ts == [] then []
    else MissingOf(ts[..|ts| - 1], wd) + (if ts[|ts| - 1] in wd then [] else [ts[|ts| - 1]])
  }

  /** Nothing is missing exactly when every trait has a row; then there is one weight per trait. */
  lemma {:induction false} WeightsOfMeaning(ts: seq<string>, wd: map<string, real>)
    ensures forall t :: t in MissingOf(ts, wd) <==> t in ts && t !in wd
    ensures MissingOf(ts, wd) == [] ==>
      |WeightsOf(ts, wd)| == |ts| && forall k :: 0 <= k < |ts| ==> ts[k] in wd && WeightsOf(ts, wd)[k] == wd[ts[k]]
  {
    if ts != [] {
      var front := ts[..|ts| - 1];
      WeightsOfMeaning(front, wd);
      assert ts == front + [ts[|ts| - 1]];
      if MissingOf(ts, wd) == [] {
        assert MissingOf(front, wd) == [];
      }
    }
  }

  /** The lines as written: the none weight is taken whenever some capitalisation of "none" is a
      row, and then the first trait is skipped, whether or not it is the layer's None. */
  function RaritiesAsWritten(traits: seq<TraitValue>, wd: map<string, real>): Result<seq<real>, RarityError>
    requires TraitList(traits)
  {
    if |traits| != |wd| then Err(SizeMismatch(|traits|, |wd|))
    else
      var noneValue := NoneKeyValue(wd, 0);
      var init := if noneValue.Some? then 1 else 0;
      if init == 0 && traits != [] && traits[0].None? then Err(Unsortable)
      else
        var rest := Sort(Names(traits[if init <= |traits| then init else |traits|..]));
        var head := if noneValue.Some? then [noneValue.value] else [];
        if MissingOf(rest, wd) != [] then Err(Mismatch(MissingOf(rest, wd)))
        else Ok(head + WeightsOf(rest, wd))
  }

  /** The weights as intended: the none weight belongs to the optional layer's None and only to it. */
  function Rarities(traits: seq<TraitValue>, wd: map<string, real>): Result<seq<real>, RarityError>
    requires TraitList(traits)
  {
    if |traits| != |wd| then Err(SizeMismatch(|traits|, |wd|))
    else
      var optional := traits != [] && traits[0].None?;
      var noneValue := NoneKeyValue(wd, 0);
      var rest := Sort(Names(traits[if optional then 1 else 0..]));
      var missing := (if optional && noneValue.None? then [Absence] else []) + MissingOf(rest, wd);
      if missing != [] then Err(Mismatch(missing))
      else Ok((if optional then [noneValue.value] else []) + WeightsOf(rest, wd))
  }

  function RaritiesFromCsv(name: string, traits: seq<TraitValue>, csv: Option<map<string, real>>): Result<CsvWeights, RarityError>
    requires TraitList(traits)
  {
    match csv
    case None => NewTable(name, traits)
    case Some(wd) =>
      match RaritiesAsWritten(traits, wd)
      case Err(e) => Err(e)
      case Ok(ws) => Ok(Loaded(ws))
  }

  /** get_rarities_from_csv: `csv` is the table read from the layer's CSV file, None when there is
      no file yet. */
  method GetRaritiesFromCsv(name: string, traits: seq<TraitValue>, csv: Option<map<string, real>>)
    returns (r: Result<CsvWeights, RarityError>)
    requires TraitList(traits)
    ensures r == RaritiesFromCsv(name, traits, csv)
  {
    if csv.None? {
      return NewTable(name, traits);
    }
    var wd := csv.value;
    if |traits| != |wd| {
      return Err(SizeMismatch(|traits|, |wd|));
    }
    var noneValue := GetValueFromNoneKey(wd);
    var weights: seq<real> := [];
    var init := 0;
    if noneValue.Some? {
      weights := [noneValue.value];
      init := 1;
    }
    if init == 0 && traits != [] && traits[0].None? {
      return Err(Unsortable);
    }
    NoneRowIsRow(wd);
    var rest := Sort(Names(traits[init..]));
    var missmatch: seq<string>;
    weights, missmatch := CollectWeights(rest, wd, weights, []);
    assert missmatch == MissingOf(rest, wd);
    assert RaritiesAsWritten(traits, wd) ==
      if missmatch != [] then Err(Mismatch(missmatch)) else Ok(weights);
    if missmatch != [] {
      return Err(Mismatch(missmatch));
    }
    return Ok(Loaded(weights));
  }

  /** A table with a "none" row is not empty. */
  lemma NoneRowIsRow(wd: map<string, real>)
    ensures NoneKeyValue(wd, 0).Some? ==> |wd| > 0
  {
    NoneKeyValueMeaning(wd, 0);
    if NoneKeyValue(wd, 0).Some? {
      var j :| 0 <= j < 16 && NoneVariant(j) in wd;
      assert wd != map[];
    }
  }

  /** The loop of nft.py:173-179: each trait's weight is appended, or the trait is recorded as
      missing. */
  method CollectWeights(rest: seq<string>, wd: map<string, real>, head: seq<real>, lead: seq<string>)
    returns (weights: seq<real>, missmatch: seq<string>)
    ensures weights == head + WeightsOf(rest, wd) && missmatch == lead + MissingOf(rest, wd)
  {
    weights, missmatch := head, lead;
    for k := 0 to |rest|
      invariant weights == head + WeightsOf(rest[..k], wd)
      invariant missmatch == lead + MissingOf(rest[..k], wd)
    {
      assert rest[..k + 1][..k] == rest[..k];
      if rest[k] in wd {
        weights := weights + [wd[rest[k]]];
      } else {
        missmatch := missmatch + [rest[k]];
      }
    }
    assert rest[..|rest|] == rest;
  }

  /** The weight a table gives to one value of the layer. */
  function WeightOf(wd: map<string, real>, v: TraitValue): real
    requires v.None? ==> NoneKeyValue(wd, 0).Some?
    requires v.Some? ==> v.value in wd
  {
    if v.None? then NoneKeyValue(wd, 0).value else wd[v.value]
  }

  /** The trait list parse_config builds: None first iff the layer is optional, then trait names
      in order. */
  predicate BuiltList(traits: seq<TraitValue>) {
    TraitList(traits) &&
    var init := if traits != [] && traits[0].None? then 1 else 0;
    Sorted(Names(traits[init..]))
  }

  /** A table fits a list of values when it has one row per value, a "none" row if None is a
      value, and a row for every trait. */
  predicate TableFits(traits: seq<TraitValue>, wd: map<string, real>) {
    |traits| == |wd| &&
    (forall k :: 0 <= k < |traits| && traits[k].None? ==> NoneKeyValue(wd, 0).Some?) &&
    (forall k :: 0 <= k < |traits| && traits[k].Some? ==> traits[k].value in wd)
  }

  /** For a list parse_config builds, a table is accepted exactly when it fits. */
  lemma RaritiesAccepted(traits: seq<TraitValue>, wd: map<string, real>)
    requires BuiltList(traits)
    ensures Rarities(traits, wd).Ok? <==> TableFits(traits, wd)
  {
    if TableFits(traits, wd) {
      FitsAccepted(traits, wd);
    }
    if Rarities(traits, wd).Ok? {
      AcceptedFits(traits, wd);
    }
  }

  lemma FitsAccepted(traits: seq<TraitValue>, wd: map<string, real>)
    requires BuiltList(traits) && TableFits(traits, wd)
    ensures Rarities(traits, wd).Ok?
  {
    var optional := traits != [] && traits[0].None?;
    var init := if optional then 1 else 0;
    var names := Names(traits[init..]);
    SortOfSorted(names);
    WeightsOfMeaning(names, wd);
    NamesOfTail(traits, init);
    TailInTable(traits, init, names, wd);
    if optional {
      assert traits[0].None?;
    }
    HeadIn(MissingOf(names, wd));
    var lead := if optional && NoneKeyValue(wd, 0).None? then [Absence] else [];
    assert lead == [] && MissingOf(names, wd) == [];
    assert lead + MissingOf(names, wd) == [];
  }

  lemma TailInTable(traits: seq<TraitValue>, init: nat, names: seq<string>, wd: map<string, real>)
    requires init <= |traits| && |names| == |traits| - init
    requires forall k :: init <= k < |traits| ==> traits[k] == Some(names[k - init])
    requires forall k :: 0 <= k < |traits| && traits[k].Some? ==> traits[k].value in wd
    ensures forall t :: t in names ==> t in wd
  {
    forall t | t in names ensures t in wd {
      var j :| 0 <= j < |names| && names[j] == t;
      assert traits[j + init] == Some(t);
    }
  }

  lemma AcceptedFits(traits: seq<TraitValue>, wd: map<string, real>)
    requires BuiltList(traits) && Rarities(traits, wd).Ok?
    ensures TableFits(traits, wd)
  {
    var optional := traits != [] && traits[0].None?;
    var init := if optional then 1 else 0;
    var names := Names(traits[init..]);
    SortOfSorted(names);
    WeightsOfMeaning(names, wd);
    NamesOfTail(traits, init);
    var lead := if optional && NoneKeyValue(wd, 0).None? then [Absence] else [];
    assert |traits| == |wd| && lead + MissingOf(names, wd) == [];
    assert |lead + MissingOf(names, wd)| == |lead| + |MissingOf(names, wd)|;
    forall k | 0 <= k < |traits| && traits[k].Some? ensures traits[k].value in wd {
      if k >= init {
        assert names[k - init] in names;
      }
    }
  }

  /** An accepted table's weights line up with the values one by one. */
  lemma RaritiesAligned(traits: seq<TraitValue>, wd: map<string, real>)
    requires BuiltList(traits) && Rarities(traits, wd).Ok?
    ensures forall k :: 0 <= k < |traits| ==>
      (traits[k].None? ==> NoneKeyValue(wd, 0).Some?) && (traits[k].Some? ==> traits[k].value in wd)
    ensures var ws := Rarities(traits, wd).value;
      |ws| == |traits| && forall k :: 0 <= k < |traits| ==> ws[k] == WeightOf(wd, traits[k])
  {
    RaritiesOk(traits, wd);
    WeightsAligned(traits, wd, Rarities(traits, wd).value);
  }

  /** The none weight followed by the weights of the sorted names lines up with the values. */
  lemma WeightsAligned(traits: seq<TraitValue>, wd: map<string, real>, ws: seq<real>)
    requires BuiltList(traits)
    requires var optional := traits != [] && traits[0].None?;
      var rest := Sort(Names(traits[if optional then 1 else 0..]));
      MissingOf(rest, wd) == [] && (optional ==> NoneKeyValue(wd, 0).Some?) &&
      ws == (if optional then [NoneKeyValue(wd, 0).value] else []) + WeightsOf(rest, wd)
    ensures forall k :: 0 <= k < |traits| ==>
      (traits[k].None? ==> NoneKeyValue(wd, 0).Some?) && (traits[k].Some? ==> traits[k].value in wd)
    ensures |ws| == |traits| && forall k :: 0 <= k < |traits| ==> ws[k] == WeightOf(wd, traits[k])
  {
    var optional := traits != [] && traits[0].None?;
    var init := if optional then 1 else 0;
    var names := Names(traits[init..]);
    var head := if optional then [NoneKeyValue(wd, 0).value] else [];
    SortOfSorted(names);
    RestAligned(traits, init, names, wd, head, ws);
    forall k | 0 <= k < |traits| ensures ws[k] == WeightOf(wd, traits[k]) {
      if k < init {
        assert k == 0 && ws[0] == head[0];
      }
    }
  }

  lemma RestAligned(traits: seq<TraitValue>, init: nat, names: seq<string>, wd: map<string, real>, head: seq<real>, ws: seq<real>)
    requires init <= |traits| && forall k :: init <= k < |traits| ==> traits[k].Some?
    requires names == Names(traits[init..]) && MissingOf(names, wd) == []
    requires ws == head + WeightsOf(names, wd) && |head| == init
    ensures |ws| == |traits|
    ensures forall k :: init <= k < |traits| ==> traits[k].Some? && traits[k].value in wd && ws[k] == wd[traits[k].value]
  {
    WeightsOfMeaning(names, wd);
    NamesOfTail(traits, init);
    AlignTail(traits, init, names, wd, WeightsOf(names, wd), head, ws);
  }

  /** What an accepted table gives: no trait without a row, a none row for an optional layer,
      and the none weight followed by the weights of the sorted traits. */
  lemma RaritiesOk(traits: seq<TraitValue>, wd: map<string, real>)
    requires TraitList(traits) && Rarities(traits, wd).Ok?
    ensures var optional := traits != [] && traits[0].None?;
      var rest := Sort(Names(traits[if optional then 1 else 0..]));
      MissingOf(rest, wd) == [] && (optional ==> NoneKeyValue(wd, 0).Some?) &&
      Rarities(traits, wd).value == (if optional then [NoneKeyValue(wd, 0).value] else []) + WeightsOf(rest, wd)
  {
    var optional := traits != [] && traits[0].None?;
    var rest := Sort(Names(traits[if optional then 1 else 0..]));
    var lead := if optional && NoneKeyValue(wd, 0).None? then [Absence] else [];
    assert |lead + MissingOf(rest, wd)| == |lead| + |MissingOf(rest, wd)|;
  }

  lemma NamesOfTail(traits: seq<TraitValue>, init: nat)
    requires init <= |traits| && forall k :: init <= k < |traits| ==> traits[k].Some?
    ensures |Names(traits[init..])| == |traits| - init
    ensures forall k :: init <= k < |traits| ==> traits[k] == Some(Names(traits[init..])[k - init])
  {
    forall k | init <= k < |traits| ensures traits[k] == Some(Names(traits[init..])[k - init]) {
      assert traits[init..][k - init] == traits[k];
    }
  }

  lemma AlignTail(traits: seq<TraitValue>, init: nat, names: seq<string>, wd: map<string, real>,
                  wn: seq<real>, head: seq<real>, ws: seq<real>)
    requires init <= |traits| && |names| == |traits| - init
    requires forall k :: init <= k < |traits| ==> traits[k] == Some(names[k - init])
    requires |wn| == |names| && forall j :: 0 <= j < |names| ==> names[j] in wd && wn[j] == wd[names[j]]
    requires ws == head + wn && |head| == init
    ensures forall k :: init <= k < |traits| ==> traits[k].Some? && traits[k].value in wd && ws[k] == wd[traits[k].value]
  {
    forall k | init <= k < |traits| ensures traits[k].Some? && traits[k].value in wd && ws[k] == wd[traits[k].value] {
      assert ws[k] == wn[k - init];
    }
  }

  /** A fresh table has a row of weight 1 for every value of the layer, 'none' standing for None,
      and every weight is 1. */
  lemma NewTableMeaning(name: string, traits: seq<TraitValue>)
    requires TraitList(traits) && traits != []
    ensures NewTable(name, traits).Ok?
    ensures var c := NewTable(name, traits).value;
      c.Created? && c.filename == name + ".csv" &&
      |c.rows| == |traits| && |c.weights| == |traits| &&
      forall k :: 0 <= k < |traits| ==>
        c.weights[k] == 1.0 && c.rows[k] == (if traits[k].None? then Absence else traits[k].value, 1.0)
  {
    if traits[0].None? {
      forall k | 1 <= k < |traits| ensures traits[1..][k - 1] == traits[k] { }
    }
  }

  /** The weights a read table gives as nft.py:162-182 are written: one per value, an optional
      layer only with a "none" row, and each value its own row's weight, except that a "none" row
      in a required layer's table takes the place of the first trait's weight. */
  predicate ReadWeights(traits: seq<TraitValue>, wd: map<string, real>, ws: seq<real>)
    requires TraitList(traits)
  {
    |ws| == |traits| &&
    (traits != [] && traits[0].None? ==> NoneKeyValue(wd, 0).Some?) &&
    if NoneKeyValue(wd, 0).Some? && !(traits != [] && traits[0].None?) then
      traits != [] && ws[0] == NoneKeyValue(wd, 0).value &&
      forall k :: 1 <= k < |traits| ==> traits[k].value in wd && ws[k] == wd[traits[k].value]
    else
      forall k :: 0 <= k < |traits| ==> (traits[k].Some? ==> traits[k].value in wd) && ws[k] == WeightOf(wd, traits[k])
  }

  /** Every table the written lines accept gives the weights ReadWeights describes. */
  lemma RaritiesAsWrittenAligned(traits: seq<TraitValue>, wd: map<string, real>)
    requires BuiltList(traits) && RaritiesAsWritten(traits, wd).Ok?
    ensures ReadWeights(traits, wd, RaritiesAsWritten(traits, wd).value)
  {
    var optional := traits != [] && traits[0].None?;
    var nv := NoneKeyValue(wd, 0);
    if optional == nv.Some? {
      RaritiesAgree(traits, wd);
      RaritiesAligned(traits, wd);
    } else if nv.Some? {
      NoneRowIsRow(wd);
      ShiftedWeights(traits, wd, RaritiesAsWritten(traits, wd).value);
    }
  }

  /** A required layer read with a "none" row: the "none" weight, then the sorted traits after
      the first. */
  lemma ShiftedWeights(traits: seq<TraitValue>, wd: map<string, real>, ws: seq<real>)
    requires BuiltList(traits) && traits != [] && traits[0].Some? && NoneKeyValue(wd, 0).Some?
    requires var rest := Sort(Names(traits[1..]));
      MissingOf(rest, wd) == [] && ws == [NoneKeyValue(wd, 0).value] + WeightsOf(rest, wd)
    ensures |ws| == |traits| && ws[0] == NoneKeyValue(wd, 0).value
    ensures forall k :: 1 <= k < |traits| ==> traits[k].value in wd && ws[k] == wd[traits[k].value]
  {
    var names := Names(traits[1..]);
    SortedTail(traits, names);
    SortOfSorted(names);
    RestAligned(traits, 1, names, wd, [NoneKeyValue(wd, 0).value], ws);
  }

  lemma SortedTail(traits: seq<TraitValue>, names: seq<string>)
    requires BuiltList(traits) && traits != [] && traits[0].Some? && names == Names(traits[1..])
    ensures Sorted(names)
  {
    var all := Names(traits[0..]);
    assert Sorted(all);
    forall i, j | 0 <= i < j < |names| ensures !Below(names[j], names[i]) {
      assert traits[1..][i] == traits[0..][i + 1] && traits[1..][j] == traits[0..][j + 1];
      assert names[i] == all[i + 1] && names[j] == all[j + 1];
    }
  }

  /** An optional layer whose table has no "none" row is refused by sorted() over None; when the
      "none" row and the layer's None go together, a table is accepted exactly when it fits. */
  lemma RaritiesAsWrittenAccepted(traits: seq<TraitValue>, wd: map<string, real>)
    requires BuiltList(traits)
    ensures |traits| == |wd| && traits != [] && traits[0].None? && NoneKeyValue(wd, 0).None? ==>
      RaritiesAsWritten(traits, wd) == Err(Unsortable)
    ensures ((traits != [] && traits[0].None?) <==> NoneKeyValue(wd, 0).Some?) ==>
      (RaritiesAsWritten(traits, wd).Ok? <==> TableFits(traits, wd))
  {
    if (traits != [] && traits[0].None?) <==> NoneKeyValue(wd, 0).Some? {
      RaritiesAgree(traits, wd);
      RaritiesAccepted(traits, wd);
    }
  }

  /** Where the layer's None and the "none" row go together, the written lines compute the
      intended weights. */
  lemma RaritiesAgree(traits: seq<TraitValue>, wd: map<string, real>)
    requires TraitList(traits)
    requires (traits != [] && traits[0].None?) <==> NoneKeyValue(wd, 0).Some?
    ensures RaritiesAsWritten(traits, wd) == Rarities(traits, wd)
  {
    if |traits| == |wd| {
      var optional := traits != [] && traits[0].None?;
      var init := if optional then 1 else 0;
      assert (if init <= |traits| then init else |traits|) == init;
      var noneValue := NoneKeyValue(wd, 0);
      var rest := Sort(Names(traits[init..]));
      var lead := if optional && noneValue.None? then [Absence] else [];
      assert lead == [];
      assert lead + MissingOf(rest, wd) == MissingOf(rest, wd);
    }
  }

  /** A required layer with traits A and B and a table with rows 'none' and 'B': the written lines
      give A the 'none' weight and never notice that A has no row. */
  lemma NoneRowInRequiredLayer()
    ensures RaritiesAsWritten([Some("A"), Some("B")], map["none" := 5.0, "B" := 1.0]) == Ok([5.0, 1.0])
    ensures Rarities([Some("A"), Some("B")], map["none" := 5.0, "B" := 1.0]) == Err(Mismatch(["A"]))
  {
    NoneRowAsWritten();
    NoneRowCorrected();
  }

  /** The facts about the example both versions need. */
  lemma NoneRowExample()
    ensures var wd := map["none" := 5.0, "B" := 1.0];
      NoneKeyValue(wd, 0) == Some(5.0) && |wd| == 2 &&
      MissingOf(["B"], wd) == [] && WeightsOf(["B"], wd) == [1.0] && MissingOf(["A", "B"], wd) == ["A"]
  {
    var wd := map["none" := 5.0, "B" := 1.0];
    FirstVariant();
    assert wd.Keys == {"none"} + {"B"};
    assert ["B"][..0] == [];
    assert ["A", "B"][..1] == ["A"];
    assert ["A"][..0] == [];
  }

  lemma NoneRowAsWritten()
    ensures RaritiesAsWritten([Some("A"), Some("B")], map["none" := 5.0, "B" := 1.0]) == Ok([5.0, 1.0])
  {
    var traits := [Some("A"), Some("B")];
    var wd := map["none" := 5.0, "B" := 1.0];
    NoneRowExample();
    assert Names(traits[1..]) == ["B"];
    assert Sort(["B"]) == ["B"];
    assert [5.0] + [1.0] == [5.0, 1.0];
    assert RaritiesAsWritten(traits, wd) == Ok([5.0] + WeightsOf(Sort(Names(traits[1..])), wd));
  }

  lemma NoneRowCorrected()
    ensures Rarities([Some("A"), Some("B")], map["none" := 5.0, "B" := 1.0]) == Err(Mismatch(["A"]))
  {
    var traits := [Some("A"), Some("B")];
    var wd := map["none" := 5.0, "B" := 1.0];
    NoneRowExample();
    assert traits[0..] == traits;
    assert Names(traits) == ["A", "B"];
    OrderedPair();
    assert [] + ["A"] == ["A"];
    assert Rarities(traits, wd) == Err(Mismatch([] + MissingOf(Sort(Names(traits[0..])), wd)));
  }

  lemma OrderedPair()
    ensures Sort(["A", "B"]) == ["A", "B"]
  {
    assert Sorted(["A", "B"]) by {
      assert Below("A", "B");
      assert !Below("B", "A");
    }
    SortOfSorted(["A", "B"]);
  }

  // ---------------------------------------------------------------------------
  // parse_config, one layer at a time (nft.py:44-94)

  /** A layer's 'rarity_weights' setting; a random-number source stands for random.random(). */
  datatype WeightSpec =
    | Uniform                          // None
    | RandomWeights(draw: nat -> real) // 'random'
    | FromFile(csv: Option<map<string, real>>)  // 'file', with the CSV table if it exists
    | Explicit(weights: seq<real>)     // any other value, as a list

  datatype LayerInput = LayerInput(name: string, listing: seq<(string, bool)>, required: bool, spec: WeightSpec)

  /** A configured layer: its 'Title Style' name, its values, their (unnormalised) weights, and the
      trait-name to PNG-filename map. */
  datatype Layer = Layer(name: string, traits: seq<TraitValue>, weights: seq<real>, traitFile: map<string, string>)

  datatype LayerError = BadFile(fileError: FileError) | WeightCount(expected: nat, given: nat) | BadCsv(csvError: RarityError)

  /** The trait name a PNG file stands for: its fixed name, re-styled. */
  function TraitKey(f: string): (r: Result<string, FileError>)
    ensures r.Ok? <==> FixTrait(f).Ok?
    ensures r.Ok? ==> r.value == TitleStyle(FixTrait(f).value)
  {
    match FixTrait(f)
    case Err(e) => Err(e)
    case Ok(t) => Ok(TitleStyle(t))
  }

  /** The dictionary comprehension of nft.py:54-57, each file under the name `key` gives it: a
      later file overwrites an earlier one with the same name. */
  function TraitFiles(files: seq<string>, key: string -> Result<string, FileError>): Result<map<string, string>, FileError> {
    if files == [] then Ok(map[])
    else
      match TraitFiles(files[..|files| - 1], key)
      case Err(e) => Err(e)
      case Ok(m) =>
        match key(files[|files| - 1])
        case Err(e) => Err(e)
        case Ok(t) => Ok(m[t := files[|files| - 1]])
  }

  /** The name of every file, in listing order. */
  function StyledNames(files: seq<string>, key: string -> Result<string, FileError>): seq<string>
    requires TraitFiles(files, key).Ok?
  {
    if files == [] then []
    else StyledNames(files[..|files| - 1], key) + [key(files[|files| - 1]).value]
  }

  /** The k-th name is the k-th file's. */
  lemma {:induction false} StyledNameAt(files: seq<string>, key: string -> Result<string, FileError>, k: nat)
    requires TraitFiles(files, key).Ok? && k < |files|
    ensures |StyledNames(files, key)| == |files|
    ensures key(files[k]).Ok? && StyledNames(files, key)[k] == key(files[k]).value
  {
    var front := files[..|files| - 1];
    if k < |front| {
      StyledNameAt(front, key, k);
      assert files[k] == front[k];
    } else if front != [] {
      StyledNameAt(front, key, 0);
    }
  }

  /** One name per file, in listing order, and they are exactly the map's keys. */
  lemma StyledNamesMeaning(files: seq<string>, key: string -> Result<string, FileError>)
    requires TraitFiles(files, key).Ok?
    ensures |StyledNames(files, key)| == |files|
    ensures forall k :: 0 <= k < |files| ==> key(files[k]).Ok? && StyledNames(files, key)[k] == key(files[k]).value
    ensures TraitFiles(files, key).value.Keys == set t | t in StyledNames(files, key)
  {
    if files != [] {
      StyledNameAt(files, key, 0);
    }
    forall k | 0 <= k < |files| ensures key(files[k]).Ok? && StyledNames(files, key)[k] == key(files[k]).value {
      StyledNameAt(files, key, k);
    }
    StyledKeys(files, key);
  }

  lemma {:induction false} StyledKeys(files: seq<string>, key: string -> Result<string, FileError>)
    requires TraitFiles(files, key).Ok?
    ensures TraitFiles(files, key).value.Keys == set t | t in StyledNames(files, key)
  {
    if files != [] {
      var front := files[..|files| - 1];
      StyledKeys(front, key);
      var s := StyledNames(files, key);
      assert s == StyledNames(front, key) + [key(files[|files| - 1]).value];
    }
  }

  /** Each name is mapped to the last file carrying it. */
  lemma {:induction false} TraitFilesLast(files: seq<string>, key: string -> Result<string, FileError>, t: string)
    requires TraitFiles(files, key).Ok? && t in TraitFiles(files, key).value
    ensures |StyledNames(files, key)| == |files|
    ensures exists k ::
      0 <= k < |files| && files[k] == TraitFiles(files, key).value[t] && StyledNames(files, key)[k] == t &&
      (forall k' :: k < k' < |files| ==> StyledNames(files, key)[k'] != t)
  {
    StyledNameAt(files, key, 0);
    var front := files[..|files| - 1];
    var m := TraitFiles(files, key).value;
    var s := StyledNames(files, key);
    var last := |files| - 1;
    assert s == StyledNames(front, key) + [s[last]];
    if t == s[last] {
      assert files[last] == m[t];
    } else {
      TraitFilesLast(front, key, t);
      var k :| 0 <= k < |front| && front[k] == TraitFiles(front, key).value[t] && StyledNames(front, key)[k] == t &&
        (forall k' :: k < k' < |front| ==> StyledNames(front, key)[k'] != t);
      assert files[k] == m[t] && s[k] == t;
      forall k' | k < k' < |files| ensures s[k'] != t {
        if k' < last {
          assert s[k'] == StyledNames(front, key)[k'];
        }
      }
    }
  }

  /** Each file of the map carries its key as its name. */
  lemma TraitFilesFrom(files: seq<string>, key: string -> Result<string, FileError>)
    requires TraitFiles(files, key).Ok?
    ensures var m := TraitFiles(files, key).value;
      forall t :: t in m ==> m[t] in files && key(m[t]) == Ok(t)
  {
    var m := TraitFiles(files, key).value;
    forall t | t in m ensures m[t] in files && key(m[t]) == Ok(t) {
      TraitFilesLast(files, key, t);
      var k :| 0 <= k < |files| && files[k] == m[t] && StyledNames(files, key)[k] == t &&
        (forall k' :: k < k' < |files| ==> StyledNames(files, key)[k'] != t);
      StyledNameAt(files, key, k);
    }
  }

  function Somes(ts: seq<string>): (r: seq<TraitValue>)
    ensures |r| == |ts| && forall k :: 0 <= k < |ts| ==> r[k] == Some(ts[k])
  {
    seq(|ts|, k requires 0 <= k < |ts| => Some(ts[k]))
  }

  /** The layer's values: the sorted keys of its trait-to-file map, after a None iff it is
      optional. */
  function LayerTraits(names: seq<string>, required: bool): (r: seq<TraitValue>)
    ensures TraitList(r)
  {
    var traits := Somes(Sort(Dedup(names)));
    if required then traits else [None] + traits
  }

  /** The values of a layer: None first iff it is optional, then the names sorted and without
      repetition, each name once. */
  lemma LayerTraitsMeaning(names: seq<string>, required: bool)
    ensures var traits := LayerTraits(names, required);
      var init := if required then 0 else 1;
      |traits| >= init && (!required ==> traits[0].None?) &&
      (forall k :: init <= k < |traits| ==> traits[k].Some?) &&
      BuiltList(traits) && Distinct(Names(traits[init..])) &&
      (set k | init <= k < |traits| :: traits[k].value) == set t | t in names
  {
    var sorted := Sort(Dedup(names));
    SortedNames(names, sorted);
    PrefixedShape(LayerTraits(names, required), required, sorted);
  }

  /** Sorting the names without repetition keeps each name once. */
  lemma SortedNames(names: seq<string>, sorted: seq<string>)
    requires sorted == Sort(Dedup(names))
    ensures Sorted(sorted) && Distinct(sorted)
    ensures (set t | t in sorted) == set t | t in names
  {
    DedupMeaning(names);
    PermutationDistinct(Dedup(names), sorted);
    forall t ensures t in sorted <==> t in names {
      assert t in sorted <==> t in multiset(sorted);
      assert t in Dedup(names) <==> t in multiset(Dedup(names));
    }
  }

  lemma PrefixedShape(traits: seq<TraitValue>, required: bool, sorted: seq<string>)
    requires Sorted(sorted) && Distinct(sorted)
    requires traits == if required then Somes(sorted) else [None] + Somes(sorted)
    ensures var init := if required then 0 else 1;
      |traits| >= init && (!required ==> traits[0].None?) &&
      (forall k :: init <= k < |traits| ==> traits[k].Some?) &&
      BuiltList(traits) && Distinct(Names(traits[init..])) &&
      (set k | init <= k < |traits| :: traits[k].value) == set t | t in sorted
  {
    var init := if required then 0 else 1;
    assert traits[init..] == Somes(sorted);
    assert Names(traits[init..]) == sorted;
    SetOfTail(traits, init, sorted);
  }

  lemma SetOfTail(traits: seq<TraitValue>, init: nat, sorted: seq<string>)
    requires init <= |traits| && traits[init..] == Somes(sorted)
    ensures (set k | init <= k < |traits| :: traits[k].value) == set t | t in sorted
  {
    forall t | t in sorted ensures t in set k | init <= k < |traits| :: traits[k].value {
      var j :| 0 <= j < |sorted| && sorted[j] == t;
      assert traits[init..][j] == traits[j + init];
    }
    forall k | init <= k < |traits| ensures traits[k].value in sorted {
      assert traits[init..][k - init] == traits[k];
    }
  }

  /** The weights of nft.py:67-88 for a layer's values, with the name of a newly created CSV file.
      The test at nft.py:83 is `type(...)` of a boolean, which is always true, so every value
      other than None, 'random' and 'file' is taken as an explicit list and the ValueError of
      nft.py:87 is never raised. */
  function LayerWeights(name: string, traits: seq<TraitValue>, spec: WeightSpec): Result<(seq<real>, Option<string>), LayerError>
    requires TraitList(traits)
  {
    match spec
    case Uniform => Ok((seq(|traits|, _ => 1.0), None))
    case RandomWeights(draw) => Ok((seq(|traits|, k requires 0 <= k < |traits| => draw(k)), None))
    case FromFile(csv) =>
      (match RaritiesFromCsv(name, traits, csv)
       case Err(e) => Err(BadCsv(e))
       case Ok(c) => if c.Created? then Ok((c.weights, Some(c.filename))) else Ok((c.weights, None)))
    case Explicit(ws) =>
      if |traits| != |ws| then Err(WeightCount(|traits|, |ws|)) else Ok((ws, None))
  }

  /** One layer of parse_config, with the name of a newly created CSV file, if any. */
  function ParseLayer(input: LayerInput): Result<(Layer, Option<string>), LayerError> {
    var name := TitleStyle(input.name);
    var files := ValidFiles(input.listing);
    match TraitFiles(files, TraitKey)
    case Err(e) => Err(BadFile(e))
    case Ok(traitFile) =>
      var traits := LayerTraits(StyledNames(files, TraitKey), input.required);
      match LayerWeights(name, traits, input.spec)
      case Err(e) => Err(e)
      case Ok((ws, newCsv)) => Ok((Layer(name, traits, ws, traitFile), newCsv))
  }

  /** One weight per value: uniform weights are 1, random ones are the draws in order, explicit
      ones are taken as given, a fresh table gives 1 to every value and is reported as new, and a
      read table gives the weights ReadWeights describes. */
  lemma LayerWeightsMeaning(name: string, traits: seq<TraitValue>, spec: WeightSpec)
    requires BuiltList(traits) && LayerWeights(name, traits, spec).Ok?
    ensures var (ws, newCsv) := LayerWeights(name, traits, spec).value;
      |ws| == |traits| &&
      (spec.Uniform? ==> forall k :: 0 <= k < |ws| ==> ws[k] == 1.0) &&
      (spec.RandomWeights? ==> forall k :: 0 <= k < |ws| ==> ws[k] == spec.draw(k)) &&
      (spec.Explicit? ==> ws == spec.weights) &&
      (newCsv.Some? <==> spec.FromFile? && spec.csv.None?) &&
      (spec.FromFile? && spec.csv.None? ==> newCsv == Some(name + ".csv") && forall k :: 0 <= k < |ws| ==> ws[k] == 1.0)
    ensures spec.FromFile? && spec.csv.Some? ==>
      ReadWeights(traits, spec.csv.value, LayerWeights(name, traits, spec).value.0)
  {
    if spec.FromFile? {
      if spec.csv.None? {
        NewTableMeaning(name, traits);
      } else {
        RaritiesAsWrittenAligned(traits, spec.csv.value);
      }
    }
  }

  /** A configured layer: its name re-styled, its values as LayerTraits builds them, its
      trait-to-file map as TraitFiles builds it, and weights as LayerWeights gives them. */
  lemma ParseLayerMeaning(input: LayerInput)
    requires ParseLayer(input).Ok?
    ensures var files := ValidFiles(input.listing);
      TraitFiles(files, TraitKey).Ok? &&
      var traits := LayerTraits(StyledNames(files, TraitKey), input.required);
      var (layer, newCsv) := ParseLayer(input).value;
      layer.name == TitleStyle(input.name) && layer.traits == traits &&
      layer.traitFile == TraitFiles(files, TraitKey).value &&
      LayerWeights(layer.name, traits, input.spec) == Ok((layer.weights, newCsv))
  {
  }

  /** One more layer of parse_config after the ones before it. */
  function ParseStep(before: Result<(seq<Layer>, seq<string>), LayerError>, parsed: Result<(Layer, Option<string>), LayerError>): Result<(seq<Layer>, seq<string>), LayerError> {
    if before.Err? then before
    else if parsed.Err? then Err(parsed.error)
    else
      var newCsv := parsed.value.1;
      Ok((before.value.0 + [parsed.value.0], if newCsv.Some? then before.value.1 + [newCsv.value] else before.value.1))
  }

  /** The outcome of parse_config from the outcome of each layer in turn: the configured layers and
      the names of the CSV files created, or the first layer's error. */
  function Collect(parsed: seq<Result<(Layer, Option<string>), LayerError>>): Result<(seq<Layer>, seq<string>), LayerError> {
    if parsed == [] then Ok(([], [])) else ParseStep(Collect(parsed[..|parsed| - 1]), parsed[|parsed| - 1])
  }

  function ParseAll(inputs: seq<LayerInput>): (r: seq<Result<(Layer, Option<string>), LayerError>>)
    ensures |r| == |inputs| && forall k :: 0 <= k < |inputs| ==> r[k] == ParseLayer(inputs[k])
  {
    seq(|inputs|, k requires 0 <= k < |inputs| => ParseLayer(inputs[k]))
  }

  /** parse_config over every layer. */
  function ParseLayers(inputs: seq<LayerInput>): Result<(seq<Layer>, seq<string>), LayerError> {
    Collect(ParseAll(inputs))
  }

  /** parse_config's loop. */
  method ParseConfig(inputs: seq<LayerInput>) returns (r: Result<(seq<Layer>, seq<string>), LayerError>)
    ensures r == ParseLayers(inputs)
  {
    ghost var all := ParseAll(inputs);
    var layers: seq<Layer> := [];
    var newCsvs: seq<string> := [];
    for i := 0 to |inputs|
      invariant Collect(all[..i]) == Ok((layers, newCsvs))
    {
      var parsed := ParseLayer(inputs[i]);
      CollectPrefix(all, i);
      if parsed.Err? {
        CollectErr(all, i + 1);
        return Err(parsed.error);
      }
      var layer := parsed.value.0;
      var newCsv := parsed.value.1;
      layers := layers + [layer];
      if newCsv.Some? {
        newCsvs := newCsvs + [newCsv.value];
      }
    }
    assert all[..|inputs|] == all;
    return Ok((layers, newCsvs));
  }

  lemma CollectPrefix(parsed: seq<Result<(Layer, Option<string>), LayerError>>, i: nat)
    requires i < |parsed|
    ensures Collect(parsed[..i + 1]) == ParseStep(Collect(parsed[..i]), parsed[i])
  {
    assert parsed[..i + 1][..i] == parsed[..i];
  }

  /** An error among the first layers is the outcome of the whole. */
  lemma {:induction false} CollectErr(parsed: seq<Result<(Layer, Option<string>), LayerError>>, i: nat)
    requires i <= |parsed| && Collect(parsed[..i]).Err?
    ensures Collect(parsed) == Collect(parsed[..i])
    decreases |parsed| - i
  {
    if i < |parsed| {
      assert parsed[..i + 1][..i] == parsed[..i];
      CollectErr(parsed, i + 1);
    } else {
      assert parsed[..i] == parsed;
    }
  }

  /** A successful outcome has every layer's outcome successful, and the k-th layer is the k-th
      outcome's. */
  lemma {:induction false} CollectAt(parsed: seq<Result<(Layer, Option<string>), LayerError>>, k: nat)
    requires Collect(parsed).Ok? && k < |parsed|
    ensures |Collect(parsed).value.0| == |parsed|
    ensures parsed[k].Ok? && Collect(parsed).value.0[k] == parsed[k].value.0
  {
    var front := parsed[..|parsed| - 1];
    if front == [] {
    } else if k < |front| {
      CollectAt(front, k);
    } else {
      CollectAt(front, 0);
    }
  }

  /** The created CSV files are those of the layers whose table was created, in order. */
  lemma {:induction false} CollectNewFiles(parsed: seq<Result<(Layer, Option<string>), LayerError>>)
    requires Collect(parsed).Ok?
    ensures forall f :: f in Collect(parsed).value.1 <==>
      exists k :: 0 <= k < |parsed| && parsed[k].Ok? && parsed[k].value.1 == Some(f)
  {
    if parsed != [] {
      var front := parsed[..|parsed| - 1];
      CollectNewFiles(front);
      assert forall k :: 0 <= k < |front| ==> parsed[k] == front[k];
    }
  }

  /** Every configured layer is the one its input yields, in order, and the new CSV files are those
      the layers created. */
  lemma ParseLayersMeaning(inputs: seq<LayerInput>)
    requires ParseLayers(inputs).Ok?
    ensures |ParseLayers(inputs).value.0| == |inputs|
    ensures forall k :: 0 <= k < |inputs| ==>
      ParseLayer(inputs[k]).Ok? && ParseLayers(inputs).value.0[k] == ParseLayer(inputs[k]).value.0
    ensures forall f :: f in ParseLayers(inputs).value.1 <==>
      exists k :: 0 <= k < |inputs| && ParseLayer(inputs[k]).Ok? && ParseLayer(inputs[k]).value.1 == Some(f)
  {
    var all := ParseAll(inputs);
    if inputs != [] {
      CollectAt(all, 0);
    }
    forall k | 0 <= k < |inputs|
      ensures ParseLayer(inputs[k]).Ok? && ParseLayers(inputs).value.0[k] == ParseLayer(inputs[k]).value.0
    {
      CollectAt(all, k);
    }
    CollectNewFiles(all);
  }
}
