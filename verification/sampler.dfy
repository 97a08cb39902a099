/** How nft.py draws combinations and keeps the valid, distinct ones: select_index
    (nft.py:225-233), generate_trait_set_from_config (nft.py:237-254), is_image_invalid
    (nft.py:271-302), the filter and drop_duplicates of generate_imgs_table (nft.py:306-354), the
    accumulate/dedup/truncate skeleton of generate_exact_imgs_table (nft.py:358-482) and
    get_total_combinations (nft.py:216-221). Random numbers and generated tables are inputs. */
module Sampler {
  import opened Wrappers
  import opened Sequences
  import opened Traits
  import opened Compiler
  import RuleParser

  // ---------------------------------------------------------------------------
  // select_index (nft.py:225-233)

  /** r falls in the i-th interval [c[i], c[i+1]]. */
  predicate Hit(c: seq<real>, r: real, i: nat)
    requires i + 1 < |c|
  {
    c[i] <= r <= c[i + 1]
  }

  /** The first interval, from the i-th on, that holds r. */
  function FirstHit(c: seq<real>, r: real, i: nat): Option<nat>
    decreases |c| - i
  {
    if i + 1 >= |c| then None
    else if Hit(c, r, i) then Some(i)
    else FirstHit(c, r, i + 1)
  }

  /** The cumulative weights with the 0 that select_index puts in front. */
  function Bounds(cum: seq<real>): seq<real> {
    [0.0] + cum
  }

  /** select_index: None stands for the function's final `return None`. */
  method SelectIndex(cum: seq<real>, rand: real) returns (idx: Option<nat>)
    ensures idx == FirstHit(Bounds(cum), rand, 0)
  {
    var c := Bounds(cum);
    for i := 0 to |c| - 1
      invariant FirstHit(c, rand, i) == FirstHit(c, rand, 0)
    {
      if rand >= c[i] && rand <= c[i + 1] {
        return Some(i);
      }
    }
    return None;
  }

  /** The index found is that of the first interval holding r, and there is none only when no
      interval holds it. */
  lemma {:induction false} FirstHitMeaning(c: seq<real>, r: real, i: nat)
    ensures FirstHit(c, r, i).Some? ==>
      var k := FirstHit(c, r, i).value;
      i <= k && k + 1 < |c| && Hit(c, r, k) && forall j :: i <= j < k ==> !Hit(c, r, j)
    ensures FirstHit(c, r, i).None? <==> forall j :: i <= j && j + 1 < |c| ==> !Hit(c, r, j)
    decreases |c| - i
  {
    if i + 1 < |c| && !Hit(c, r, i) {
      FirstHitMeaning(c, r, i + 1);
    }
  }

  /** A number between the first and the last bound always falls in some interval. */
  lemma {:induction false} FirstHitFound(c: seq<real>, r: real, i: nat)
    requires i + 1 < |c| && c[i] <= r <= c[|c| - 1]
    ensures FirstHit(c, r, i).Some?
    decreases |c| - i
  {
    if !Hit(c, r, i) {
      FirstHitFound(c, r, i + 1);
    }
  }

  /** select_index finds an index below the number of weights for every draw between 0 and the
      total weight. */
  lemma SelectIndexFound(cum: seq<real>, rand: real)
    requires cum != [] && 0.0 <= rand <= cum[|cum| - 1]
    ensures FirstHit(Bounds(cum), rand, 0).Some? && FirstHit(Bounds(cum), rand, 0).value < |cum|
  {
    FirstHitFound(Bounds(cum), rand, 0);
    FirstHitMeaning(Bounds(cum), rand, 0);
  }

  // ---------------------------------------------------------------------------
  // generate_trait_set_from_config (nft.py:237-254)

  /** A configured layer as the sampler sees it: its name, its values (None for absence) and the
      cumulative sums of its normalised weights. */
  datatype Configured = Configured(name: string, traits: seq<Option<string>>, cum: seq<real>)

  /** traits[None] raises TypeError; an index past the values raises IndexError. */
  datatype SampleError = NoIndex(layer: string) | BadIndex(layer: string) | RaggedColumns

  /** The value drawn for one layer. */
  function Pick(layer: Configured, rand: real): Result<Option<string>, SampleError> {
    match FirstHit(Bounds(layer.cum), rand, 0)
    case None => Err(NoIndex(layer.name))
    case Some(k) => if k < |layer.traits| then Ok(layer.traits[k]) else Err(BadIndex(layer.name))
  }

  /** One value per layer, in layer order, the k-th drawn with the k-th random number. */
  function TraitSet(layers: seq<Configured>, draws: seq<real>): Result<seq<Option<string>>, SampleError>
    requires |draws| == |layers|
  {
    if layers == [] then Ok([])
    else
      match Pick(layers[0], draws[0])
      case Err(e) => Err(e)
      case Ok(t) =>
        match TraitSet(layers[1..], draws[1..])
        case Err(e) => Err(e)
        case Ok(ts) => Ok([t] + ts)
  }

  /** A prefix already drawn, followed by what the remaining layers give. */
  function After(prefix: seq<Option<string>>, rest: Result<seq<Option<string>>, SampleError>): Result<seq<Option<string>>, SampleError> {
    match rest
    case Err(e) => Err(e)
    case Ok(ts) => Ok(prefix + ts)
  }

  /** generate_trait_set_from_config, with random.random() replaced by the supplied draws. */
  method GenerateTraitSet(layers: seq<Configured>, draws: seq<real>) returns (r: Result<seq<Option<string>>, SampleError>)
    requires |draws| == |layers|
    ensures r == TraitSet(layers, draws)
  {
    var traitSet: seq<Option<string>> := [];
    assert layers[0..] == layers && draws[0..] == draws;
    AfterEmpty(TraitSet(layers, draws));
    for i := 0 to |layers|
      invariant TraitSet(layers, draws) == After(traitSet, TraitSet(layers[i..], draws[i..]))
    {
      var idx := SelectIndex(layers[i].cum, draws[i]);
      if idx.None? {
        return Err(NoIndex(layers[i].name));
      }
      if idx.value >= |layers[i].traits| {
        return Err(BadIndex(layers[i].name));
      }
      assert layers[i..][1..] == layers[i + 1..] && draws[i..][1..] == draws[i + 1..];
      assert Pick(layers[i], draws[i]) == Ok(layers[i].traits[idx.value]);
      AfterStep(traitSet, layers[i].traits[idx.value], TraitSet(layers[i + 1..], draws[i + 1..]));
      traitSet := traitSet + [layers[i].traits[idx.value]];
    }
    assert traitSet + [] == traitSet;
    r := Ok(traitSet);
  }

  lemma AfterEmpty(rest: Result<seq<Option<string>>, SampleError>)
    ensures After([], rest) == rest
  {
    if rest.Ok? {
      assert [] + rest.value == rest.value;
    }
  }

  lemma AfterStep(prefix: seq<Option<string>>, t: Option<string>, rest: Result<seq<Option<string>>, SampleError>)
    ensures After(prefix, After([t], rest)) == After(prefix + [t], rest)
  {
    if rest.Ok? {
      assert prefix + ([t] + rest.value) == (prefix + [t]) + rest.value;
    }
  }

  /** A layer the sampler can always draw from: one cumulative weight per value, and draws
      between 0 and the total weight. */
  predicate Drawable(layer: Configured, rand: real) {
    |layer.cum| == |layer.traits| && layer.cum != [] && 0.0 <= rand <= layer.cum[|layer.cum| - 1]
  }

  /** With such layers a trait set has one value per layer, and each is the value of that layer
      whose interval holds the draw. */
  lemma {:induction false} TraitSetMeaning(layers: seq<Configured>, draws: seq<real>)
    requires |draws| == |layers|
    requires forall k :: 0 <= k < |layers| ==> Drawable(layers[k], draws[k])
    ensures TraitSet(layers, draws).Ok?
    ensures var ts := TraitSet(layers, draws).value;
      |ts| == |layers| &&
      forall k :: 0 <= k < |layers| ==>
        FirstHit(Bounds(layers[k].cum), draws[k], 0).Some? &&
        FirstHit(Bounds(layers[k].cum), draws[k], 0).value < |layers[k].traits| &&
        ts[k] == layers[k].traits[FirstHit(Bounds(layers[k].cum), draws[k], 0).value]
  {
    if layers != [] {
      SelectIndexFound(layers[0].cum, draws[0]);
      assert forall k :: 0 <= k < |layers| - 1 ==> layers[1..][k] == layers[k + 1] && draws[1..][k] == draws[k + 1];
      TraitSetMeaning(layers[1..], draws[1..]);
      var ts := TraitSet(layers, draws).value;
      forall k | 1 <= k < |layers|
        ensures FirstHit(Bounds(layers[k].cum), draws[k], 0).Some? &&
          FirstHit(Bounds(layers[k].cum), draws[k], 0).value < |layers[k].traits| &&
          ts[k] == layers[k].traits[FirstHit(Bounds(layers[k].cum), draws[k], 0).value]
      {
        assert layers[1..][k - 1] == layers[k] && draws[1..][k - 1] == draws[k];
      }
    }
  }

  // ---------------------------------------------------------------------------
  // is_image_invalid (nft.py:271-302)

  /** A combination, as the dictionary from layer name to value that is_image_invalid builds;
      "none" stands for absence. */
  type Record = map<string, string>

  /** Some value of the combination forbids the value of another of its layers. */
  predicate Invalid(idx: Index, row: Record) {
    exists l, m :: l in row && m in row && Forbids(idx, l, row[l], m, row[m])
  }

  /** is_image_invalid: true exactly when some value forbids another; an empty index accepts
      every combination. */
  method IsImageInvalid(idx: Index, row: Record) returns (invalid: bool)
    ensures invalid <==> Invalid(idx, row)
    ensures idx == map[] ==> !invalid
  {
    var names := row.Keys;
    var todo := names;
    while todo != {}
      invariant todo <= names
      invariant forall l, m :: l in names && l !in todo && m in names ==> !Forbids(idx, l, row[l], m, row[m])
      decreases |todo|
    {
      var name :| name in todo;
      todo := todo - {name};
      var value := row[name];
      if name in idx && value in idx[name] {
        var restrictedNames := idx[name][value];
        var others := names - {name};
        while others != {}
          invariant others <= names - {name}
          invariant forall m :: m in names && m !in others ==> !Forbids(idx, name, value, m, row[m])
          decreases |others|
        {
          var otherName :| otherName in others;
          others := others - {otherName};
          if otherName in restrictedNames {
            var restrTraits := restrictedNames[otherName];
            var otherTrait := row[otherName];
            if restrTraits.restrictAll && otherTrait != Absence {
              assert Forbids(idx, name, row[name], otherName, row[otherName]);
              return true;
            }
            if otherTrait in restrTraits.restricted {
              assert Forbids(idx, name, row[name], otherName, row[otherName]);
              return true;
            }
          }
        }
      }
    }
    return false;
  }

  /** Checked against a compiled rule list, a combination is invalid exactly when some rule has
      one of its values as a setter and restricts the value of another of its layers. */
  lemma InvalidCompiled(names: RuleParser.Names, rules: seq<RuleParser.Rule>, row: Record)
    requires forall k :: 0 <= k < |rules| ==> LayersKnown(names, rules[k].setters)
    ensures Invalid(Compile(names, rules), row) <==>
      exists l, m, k :: l in row && m in row && l != m && 0 <= k < |rules| &&
        RuleForbids(names, rules[k], l, row[l], m, row[m])
  {
    if Invalid(Compile(names, rules), row) {
      var l, m :| l in row && m in row && Forbids(Compile(names, rules), l, row[l], m, row[m]);
      CompileMeaning(names, rules, l, row[l], m, row[m]);
    }
    if exists l, m, k :: l in row && m in row && l != m && 0 <= k < |rules| &&
        RuleForbids(names, rules[k], l, row[l], m, row[m])
    {
      var l, m, k :| l in row && m in row && l != m && 0 <= k < |rules| &&
        RuleForbids(names, rules[k], l, row[l], m, row[m]);
      CompileMeaning(names, rules, l, row[l], m, row[m]);
    }
  }

  // ---------------------------------------------------------------------------
  // generate_imgs_table (nft.py:306-354)

  /** A row of the rarity table: one value per layer, in layer order, "none" for absence. */
  type Row = seq<string>

  /** The column names of the table: the layer names, in layer order. */
  function Columns(layers: seq<Configured>): (cols: seq<string>)
    ensures |cols| == |layers| && forall k :: 0 <= k < |layers| ==> cols[k] == layers[k].name
  {
    seq(|layers|, k requires 0 <= k < |layers| => layers[k].name)
  }

  /** The row recorded for a trait set: None becomes "none". */
  function RowOf(ts: seq<Option<string>>): (row: Row)
    ensures |row| == |ts|
    ensures forall k :: 0 <= k < |ts| ==> row[k] == (if ts[k].Some? then ts[k].value else Absence)
  {
    seq(|ts|, k requires 0 <= k < |ts| => if ts[k].Some? then ts[k].value else Absence)
  }

  /** dict(zip(columns, row)): zip stops at the shorter of the two, and a later column of the
      same name overrides an earlier one. */
  function RecordOf(cols: seq<string>, row: Row): Record
    decreases |cols|
  {
    var n := if |cols| <= |row| then |cols| else |row|;
    if n == 0 then map[]
    else RecordOf(cols[..n - 1], row[..n - 1])[cols[n - 1] := row[n - 1]]
  }

  /** For a row of one value per column, the record has exactly the columns as keys. */
  lemma {:induction false} RecordOfKeys(cols: seq<string>, row: Row)
    requires |cols| == |row|
    ensures RecordOf(cols, row).Keys == set c | c in cols
  {
    if cols != [] {
      var n := |cols| - 1;
      RecordOfKeys(cols[..n], row[..n]);
      assert cols == cols[..n] + [cols[n]];
    }
  }

  /** A column that is not repeated later maps to its own value. */
  lemma {:induction false} RecordOfAt(cols: seq<string>, row: Row, k: nat)
    requires |cols| == |row| && k < |cols| && cols[k] !in cols[k + 1..]
    ensures cols[k] in RecordOf(cols, row) && RecordOf(cols, row)[cols[k]] == row[k]
  {
    var n := |cols| - 1;
    if k < n {
      assert cols[n] in cols[k + 1..];
      assert cols[..n][k + 1..] == cols[k + 1..n];
      RecordOfAt(cols[..n], row[..n], k);
    }
  }

  /** The rows drawn, one per set of draws; the first failing draw stops the table. */
  function RawRows(layers: seq<Configured>, draws: seq<seq<real>>): Result<seq<Row>, SampleError>
    requires forall i :: 0 <= i < |draws| ==> |draws[i]| == |layers|
  {
    if draws == [] then Ok([])
    else
      match RawRows(layers, draws[..|draws| - 1])
      case Err(e) => Err(e)
      case Ok(rows) =>
        match TraitSet(layers, draws[|draws| - 1])
        case Err(e) => Err(e)
        case Ok(ts) => Ok(rows + [RowOf(ts)])
  }

  /** The rows that break no restriction, in their order. */
  function ValidRows(idx: Index, cols: seq<string>, rows: seq<Row>): seq<Row>
  {
    if rows == [] then []
    else
      var front := ValidRows(idx, cols, rows[..|rows| - 1]);
      if Invalid(idx, RecordOf(cols, rows[|rows| - 1])) then front else front + [rows[|rows| - 1]]
  }

  /** The filter keeps exactly the valid rows and keeps their order. */
  lemma {:induction false} ValidRowsMeaning(idx: Index, cols: seq<string>, rows: seq<Row>)
    ensures forall x :: x in ValidRows(idx, cols, rows) <==> x in rows && !Invalid(idx, RecordOf(cols, x))
    ensures |ValidRows(idx, cols, rows)| <= |rows|
    ensures idx == map[] ==> ValidRows(idx, cols, rows) == rows
  {
    if rows != [] {
      var front := rows[..|rows| - 1];
      ValidRowsMeaning(idx, cols, front);
      assert rows == front + [rows[|rows| - 1]];
    }
  }

  /** Whether some layer names occur more often than others. The dictionary of nft.py:314-331
      has one list per distinct name, and every drawn row appends to it once per layer of that
      name, so its lists then differ in length and pd.DataFrame raises ValueError. */
  predicate Ragged(cols: seq<string>) {
    exists i, j :: 0 <= i < |cols| && 0 <= j < |cols| && multiset(cols)[cols[i]] != multiset(cols)[cols[j]]
  }

  /** Distinct layer names never make the lists ragged ... */
  lemma DistinctNotRagged(cols: seq<string>)
    requires Distinct(cols)
    ensures !Ragged(cols)
  {
    forall i | 0 <= i < |cols| ensures multiset(cols)[cols[i]] == 1 {
      DistinctCount(cols, cols[i]);
      assert cols[i] in multiset(cols);
    }
  }

  /** ... while a repeated name beside a name that occurs once does. */
  lemma RepeatedNameRagged(cols: seq<string>, i: nat, j: nat, k: nat)
    requires i < j < |cols| && cols[i] == cols[j]
    requires k < |cols| && multiset(cols)[cols[k]] == 1
    ensures Ragged(cols)
  {
    TwoCopies(cols, i, j);
  }

  /** The table generate_imgs_table returns: the drawn rows without the invalid ones and without
      repetitions. */
  function ImgsTable(layers: seq<Configured>, draws: seq<seq<real>>, idx: Index): Result<seq<Row>, SampleError>
    requires forall i :: 0 <= i < |draws| ==> |draws[i]| == |layers|
  {
    match RawRows(layers, draws)
    case Err(e) => Err(e)
    case Ok(rows) =>
      if rows != [] && Ragged(Columns(layers)) then Err(RaggedColumns)
      else Ok(Dedup(ValidRows(idx, Columns(layers), rows)))
  }

  /** Every drawn row has one value per layer. */
  lemma {:induction false} RawRowsShape(layers: seq<Configured>, draws: seq<seq<real>>)
    requires forall i :: 0 <= i < |draws| ==> |draws[i]| == |layers|
    ensures RawRows(layers, draws).Ok? ==>
      |RawRows(layers, draws).value| == |draws| &&
      forall i :: 0 <= i < |draws| ==> |RawRows(layers, draws).value[i]| == |layers|
  {
    if draws != [] {
      var front := draws[..|draws| - 1];
      RawRowsShape(layers, front);
      if RawRows(layers, draws).Ok? {
        TraitSetLength(layers, draws[|draws| - 1]);
      }
    }
  }

  lemma {:induction false} TraitSetLength(layers: seq<Configured>, draws: seq<real>)
    requires |draws| == |layers|
    ensures TraitSet(layers, draws).Ok? ==> |TraitSet(layers, draws).value| == |layers|
  {
    if layers != [] {
      TraitSetLength(layers[1..], draws[1..]);
    }
  }

  /** Drawing a whole table succeeds for drawable layers, and each row is the row of the trait set
      of its draws. */
  lemma {:induction false} RawRowsMeaning(layers: seq<Configured>, draws: seq<seq<real>>)
    requires forall i :: 0 <= i < |draws| ==> |draws[i]| == |layers|
    requires forall i, k :: 0 <= i < |draws| && 0 <= k < |layers| ==> Drawable(layers[k], draws[i][k])
    ensures RawRows(layers, draws).Ok? && |RawRows(layers, draws).value| == |draws|
    ensures forall i :: 0 <= i < |draws| ==>
      TraitSet(layers, draws[i]).Ok? && RawRows(layers, draws).value[i] == RowOf(TraitSet(layers, draws[i]).value)
  {
    if draws != [] {
      var n := |draws| - 1;
      RawRowsMeaning(layers, draws[..n]);
      TraitSetMeaning(layers, draws[n]);
    }
  }

  /** generate_imgs_table, with the random numbers of each row supplied: the rows are drawn, the
      invalid ones dropped and the repetitions removed. */
  method GenerateImgsTable(layers: seq<Configured>, draws: seq<seq<real>>, idx: Index) returns (r: Result<seq<Row>, SampleError>)
    requires forall i :: 0 <= i < |draws| ==> |draws[i]| == |layers|
    ensures r == ImgsTable(layers, draws, idx)
  {
    var rows: seq<Row> := [];
    for i := 0 to |draws|
      invariant RawRows(layers, draws[..i]) == Ok(rows)
    {
      assert draws[..i + 1][..i] == draws[..i];
      var ts := GenerateTraitSet(layers, draws[i]);
      if ts.Err? {
        RawRowsErr(layers, draws, i + 1);
        return Err(ts.error);
      }
      rows := rows + [RowOf(ts.value)];
    }
    assert draws[..|draws|] == draws;
    var cols := Columns(layers);
    if rows != [] && Ragged(cols) {
      return Err(RaggedColumns);
    }
    var valid: seq<Row> := [];
    for i := 0 to |rows|
      invariant ValidRows(idx, cols, rows[..i]) == valid
    {
      assert rows[..i + 1][..i] == rows[..i];
      var invalid := IsImageInvalid(idx, RecordOf(cols, rows[i]));
      if !invalid {
        valid := valid + [rows[i]];
      }
    }
    assert rows[..|rows|] == rows;
    r := Ok(Dedup(valid));
  }

  /** A failing draw fails the whole table. */
  lemma {:induction false} RawRowsErr(layers: seq<Configured>, draws: seq<seq<real>>, i: nat)
    requires forall i :: 0 <= i < |draws| ==> |draws[i]| == |layers|
    requires 0 < i <= |draws| && RawRows(layers, draws[..i]).Err?
    ensures RawRows(layers, draws) == RawRows(layers, draws[..i])
    decreases |draws| - i
  {
    if i < |draws| {
      assert draws[..i + 1][..i] == draws[..i];
      RawRowsErr(layers, draws, i + 1);
    } else {
      assert draws[..i] == draws;
    }
  }

  /** Filtering and then dropping duplicates leaves no repeated row and exactly the valid
      rows. */
  lemma PurgeMeaning(idx: Index, cols: seq<string>, rows: seq<Row>)
    ensures var table := Dedup(ValidRows(idx, cols, rows));
      Distinct(table) && |table| <= |rows| &&
      forall x :: x in table <==> x in rows && !Invalid(idx, RecordOf(cols, x))
  {
    var valid := ValidRows(idx, cols, rows);
    ValidRowsMeaning(idx, cols, rows);
    DedupMeaning(valid);
    var table := Dedup(valid);
    DistinctCard(table);
    assert (set x | x in table) <= (set x | x in valid);
    CardAtMost(valid);
  }

  /** The table exists when every draw lands and the frame can be built; it then has no repeated
      row, at most one row per draw, and holds exactly the drawn rows that break no restriction. */
  lemma ImgsTableMeaning(layers: seq<Configured>, draws: seq<seq<real>>, idx: Index)
    requires forall i :: 0 <= i < |draws| ==> |draws[i]| == |layers|
    ensures ImgsTable(layers, draws, idx).Ok? <==>
      RawRows(layers, draws).Ok? && !(draws != [] && Ragged(Columns(layers)))
    ensures ImgsTable(layers, draws, idx).Ok? ==>
      var table := ImgsTable(layers, draws, idx).value;
      Distinct(table) && |table| <= |draws| &&
      forall x :: x in table <==> x in RawRows(layers, draws).value && !Invalid(idx, RecordOf(Columns(layers), x))
  {
    if RawRows(layers, draws).Ok? {
      RawRowsShape(layers, draws);
      PurgeMeaning(idx, Columns(layers), RawRows(layers, draws).value);
    }
  }

  /** The rows of the table come in the order in which they were first drawn. */
  lemma ImgsTableOrder(layers: seq<Configured>, draws: seq<seq<real>>, idx: Index)
    requires forall i :: 0 <= i < |draws| ==> |draws[i]| == |layers|
    requires ImgsTable(layers, draws, idx).Ok?
    ensures var rows := RawRows(layers, draws).value;
      var table := ImgsTable(layers, draws, idx).value;
      forall i, j :: 0 <= i < j < |table| ==>
        table[i] in rows && table[j] in rows && FirstIndex(rows, table[i]) < FirstIndex(rows, table[j])
  {
    var rows := RawRows(layers, draws).value;
    var cols := Columns(layers);
    var valid := ValidRows(idx, cols, rows);
    ValidRowsMeaning(idx, cols, rows);
    DedupMeaning(valid);
    var table := Dedup(valid);
    forall i, j | 0 <= i < j < |table|
      ensures table[i] in rows && table[j] in rows && FirstIndex(rows, table[i]) < FirstIndex(rows, table[j])
    {
      ValidRowsOrder(idx, cols, rows, table[i], table[j]);
    }
  }

  /** Filtering keeps the relative order of the rows it keeps. */
  lemma {:induction false} ValidRowsOrder(idx: Index, cols: seq<string>, rows: seq<Row>, x: Row, y: Row)
    requires x in ValidRows(idx, cols, rows) && y in ValidRows(idx, cols, rows)
    requires FirstIndex(ValidRows(idx, cols, rows), x) < FirstIndex(ValidRows(idx, cols, rows), y)
    ensures x in rows && y in rows && FirstIndex(rows, x) < FirstIndex(rows, y)
  {
    var n := |rows| - 1;
    var front, z := rows[..n], rows[n];
    assert rows == front + [z];
    var vf := ValidRows(idx, cols, front);
    var valid := ValidRows(idx, cols, rows);
    ValidRowsMeaning(idx, cols, front);
    if x in vf && y in vf {
      assert valid == vf || valid == vf + [z];
      if valid != vf {
        FirstIndexAppend(vf, [z], x);
        FirstIndexAppend(vf, [z], y);
      }
      FirstIndexAppend(front, [z], x);
      FirstIndexAppend(front, [z], y);
      ValidRowsOrder(idx, cols, front, x, y);
    } else if x in vf {
      assert valid == vf + [z] && y == z && y !in front;
      FirstIndexAppend(vf, [z], x);
      FirstIndexAppend(front, [z], x);
      FirstIndexAppend(front, [z], y);
    } else {
      assert false;
    }
  }

  /** With distinct layer names, a row is invalid exactly when the value of one of its columns
      forbids the value of another. */
  lemma InvalidRow(idx: Index, cols: seq<string>, row: Row)
    requires |cols| == |row| && Distinct(cols)
    ensures Invalid(idx, RecordOf(cols, row)) <==>
      exists i, j :: 0 <= i < |cols| && 0 <= j < |cols| && Forbids(idx, cols[i], row[i], cols[j], row[j])
  {
    var rec := RecordOf(cols, row);
    RecordOfKeys(cols, row);
    forall k | 0 <= k < |cols| ensures rec[cols[k]] == row[k] {
      assert cols[k] !in cols[k + 1..];
      RecordOfAt(cols, row, k);
    }
    if Invalid(idx, rec) {
      var l, m :| l in rec && m in rec && Forbids(idx, l, rec[l], m, rec[m]);
      assert l in cols && m in cols;
      var i :| 0 <= i < |cols| && cols[i] == l;
      var j :| 0 <= j < |cols| && cols[j] == m;
      assert Forbids(idx, cols[i], row[i], cols[j], row[j]);
    }
    if exists i, j :: 0 <= i < |cols| && 0 <= j < |cols| && Forbids(idx, cols[i], row[i], cols[j], row[j]) {
      var i, j :| 0 <= i < |cols| && 0 <= j < |cols| && Forbids(idx, cols[i], row[i], cols[j], row[j]);
      assert cols[i] in rec && cols[j] in rec;
      assert Forbids(idx, cols[i], rec[cols[i]], cols[j], rec[cols[j]]);
    }
  }

  // ---------------------------------------------------------------------------
  // generate_exact_imgs_table (nft.py:358-482)

  /** The number of statistical samples and of rows drawn for each (nft.py:366-367). */
  const Samples := 10
  const SampleSize := 1000
  /** The number of attempts to fill the table after the samples (nft.py:434). */
  const Attempts := 10

  /** How the function ends: quit() because no sample kept a row, quit() because the user
      declined to go on after a low acceptance rate, or the table. */
  datatype ExactOutcome = Impossible | Declined | Table(rows: seq<Row>)

  /** The sampling loop (nft.py:370-394) from sample i on: each sample is appended to the
      accumulated table; once that reaches `count` rows it is deduplicated, and the loop stops if
      it still has `count` rows. Gives the table, whether the loop stopped early, and the total
      size of the samples whose rate was recorded. */
  function ProbePhase(count: nat, master: seq<Row>, probes: seq<seq<Row>>, i: nat, total: nat): (seq<Row>, bool, nat)
    decreases |probes| - i
  {
    if i >= |probes| then (master, false, total)
    else
      var m := master + probes[i];
      if |m| >= count then
        var d := Dedup(m);
        if |d| >= count then (d, true, total)
        else ProbePhase(count, d, probes, i + 1, total + |probes[i]|)
      else ProbePhase(count, m, probes, i + 1, total + |probes[i]|)
  }

  /** The mean acceptance rate of the samples, each a fraction of SampleSize. */
  function MeanRate(total: nat): real {
    (total as real) / ((Samples * SampleSize) as real)
  }

  /** The attempt loop (nft.py:434-466) from attempt i on: each new table is appended and the
      result deduplicated, until it has `count` rows or the attempts run out. */
  function Converge(count: nat, master: seq<Row>, batches: seq<seq<Row>>, i: nat): seq<Row>
    decreases |batches| - i
  {
    if i >= |batches| then master
    else
      var d := Dedup(master + batches[i]);
      if |d| >= count then d else Converge(count, d, batches, i + 1)
  }

  /** The first `count` rows (nft.py:468-480). */
  function Take(rows: seq<Row>, count: nat): seq<Row> {
    if count <= |rows| then rows[..count] else rows
  }

  /** generate_exact_imgs_table, with the tables generate_imgs_table returns given as `probes`
      (the samples) and `batches` (the attempts), and the user's answer to the low-rate prompt
      as `proceed`. */
  function ExactTable(count: nat, probes: seq<seq<Row>>, batches: seq<seq<Row>>, proceed: bool): ExactOutcome
    requires |probes| == Samples && |batches| == Attempts
  {
    var (master, stopped, total) := ProbePhase(count, [], probes, 0, 0);
    if stopped then Table(Take(master, count))
    else if MeanRate(total) == 0.0 then Impossible
    else if MeanRate(total) < 0.05 && !proceed then Declined
    else Table(Take(Converge(count, master, batches, 0), count))
  }

  /** generate_exact_imgs_table, as a method with the loops and the early exits of the source. */
  method GenerateExactTable(count: nat, probes: seq<seq<Row>>, batches: seq<seq<Row>>, proceed: bool) returns (r: ExactOutcome)
    requires |probes| == Samples && |batches| == Attempts
    ensures r == ExactTable(count, probes, batches, proceed)
  {
    var master: seq<Row> := [];
    var total: nat := 0;
    var stopped := false;
    var i := 0;
    while i < Samples && !stopped
      invariant 0 <= i <= Samples
      invariant !stopped ==> ProbePhase(count, [], probes, 0, 0) == ProbePhase(count, master, probes, i, total)
      invariant stopped ==> ProbePhase(count, [], probes, 0, 0) == (master, true, total)
      decreases Samples - i, if stopped then 0 else 1
    {
      var rt := probes[i];
      master := master + rt;
      if |master| >= count {
        master := Dedup(master);
        stopped := |master| >= count;
      }
      if !stopped {
        total := total + |rt|;
        i := i + 1;
      }
    }
    if !stopped {
      var mean := MeanRate(total);
      if mean == 0.0 {
        return Impossible;
      } else if mean < 0.05 && !proceed {
        return Declined;
      }
      ghost var sampled := master;
      var j := 0;
      var reached := false;
      while j < Attempts && !reached
        invariant 0 <= j <= Attempts
        invariant !reached ==> Converge(count, sampled, batches, 0) == Converge(count, master, batches, j)
        invariant reached ==> Converge(count, sampled, batches, 0) == master
      {
        master := Dedup(master + batches[j]);
        reached := |master| >= count;
        j := j + 1;
      }
    }
    if count < |master| {
      master := master[..count];
    }
    r := Table(master);
  }

  /** No sample kept anything. */
  lemma {:induction false} ProbeNothing(count: nat, master: seq<Row>, probes: seq<seq<Row>>, i: nat, total: nat)
    requires count > |master| && forall k :: i <= k < |probes| ==> probes[k] == []
    ensures ProbePhase(count, master, probes, i, total) == (master, false, total)
    decreases |probes| - i
  {
    if i < |probes| {
      assert master + probes[i] == master;
      ProbeNothing(count, master, probes, i + 1, total);
    }
  }

  /** The recorded total only grows, and stays put only when every remaining sample is empty. */
  lemma {:induction false} ProbeTotal(count: nat, master: seq<Row>, probes: seq<seq<Row>>, i: nat, total: nat)
    ensures ProbePhase(count, master, probes, i, total).2 >= total
    ensures !ProbePhase(count, master, probes, i, total).1 && ProbePhase(count, master, probes, i, total).2 == total ==>
      forall k :: i <= k < |probes| ==> probes[k] == []
    decreases |probes| - i
  {
    if i < |probes| {
      var m := master + probes[i];
      ProbeTotal(count, m, probes, i + 1, total + |probes[i]|);
      ProbeTotal(count, Dedup(m), probes, i + 1, total + |probes[i]|);
    }
  }

  /** The rows the sampling loop ends with come from the table it started with or from the
      samples; when it stops early they are distinct and at least `count`; when it does not, they
      hold, up to repetition, everything sampled. */
  lemma {:induction false} ProbeRows(count: nat, master: seq<Row>, probes: seq<seq<Row>>, i: nat, total: nat)
    requires i <= |probes|
    ensures var (m, stopped, _) := ProbePhase(count, master, probes, i, total);
      (forall x :: x in m ==> x in master + Flatten(probes[i..])) &&
      (stopped ==> Distinct(m) && |m| >= count) &&
      (!stopped ==> Dedup(m) == Dedup(master + Flatten(probes[i..])))
    decreases |probes| - i
  {
    if i == |probes| {
      assert probes[i..] == [];
      assert master + [] == master;
    } else {
      var m := master + probes[i];
      var rest := Flatten(probes[i + 1..]);
      assert probes[i..][1..] == probes[i + 1..];
      assert master + Flatten(probes[i..]) == m + rest;
      DedupMeaning(m);
      if |m| >= count {
        var d := Dedup(m);
        ProbeRows(count, d, probes, i + 1, total + |probes[i]|);
        DedupAppend(m, rest);
      } else {
        ProbeRows(count, m, probes, i + 1, total + |probes[i]|);
      }
    }
  }

  /** The attempt loop ends with rows from the table it started with or from the new tables,
      without repetition, and when it ends short of `count` rows with everything deduplicated. */
  lemma {:induction false} ConvergeRows(count: nat, master: seq<Row>, batches: seq<seq<Row>>, i: nat)
    requires i < |batches|
    ensures var c := Converge(count, master, batches, i);
      Distinct(c) && (forall x :: x in c ==> x in master + Flatten(batches[i..])) &&
      (|c| < count ==> c == Dedup(master + Flatten(batches[i..])))
    decreases |batches| - i
  {
    var d := Dedup(master + batches[i]);
    var rest := Flatten(batches[i + 1..]);
    assert batches[i..][1..] == batches[i + 1..];
    assert master + Flatten(batches[i..]) == (master + batches[i]) + rest;
    DedupMeaning(master + batches[i]);
    if |d| < count {
      if i + 1 < |batches| {
        ConvergeRows(count, d, batches, i + 1);
        DedupAppend(master + batches[i], rest);
      } else {
        assert batches[i + 1..] == [];
        assert (master + batches[i]) + [] == master + batches[i];
      }
    }
  }

  /** When the sampling loop stops early, its table is the beginning of everything it could
      have sampled, deduplicated. */
  lemma {:induction false} ProbePrefix(count: nat, master: seq<Row>, probes: seq<seq<Row>>, i: nat, total: nat)
    requires i <= |probes|
    ensures var (m, stopped, _) := ProbePhase(count, master, probes, i, total);
      stopped ==> m <= Dedup(master + Flatten(probes[i..]))
    decreases |probes| - i
  {
    if i < |probes| {
      var m := master + probes[i];
      var rest := Flatten(probes[i + 1..]);
      assert probes[i..][1..] == probes[i + 1..];
      assert master + Flatten(probes[i..]) == m + rest;
      if |m| >= count {
        DedupPrefix(m, rest);
        ProbePrefix(count, Dedup(m), probes, i + 1, total + |probes[i]|);
        DedupAppend(m, rest);
      } else {
        ProbePrefix(count, m, probes, i + 1, total + |probes[i]|);
      }
    }
  }

  /** The attempt loop's table is the beginning of everything it could have added, deduplicated. */
  lemma {:induction false} ConvergePrefix(count: nat, master: seq<Row>, batches: seq<seq<Row>>, i: nat)
    requires i < |batches|
    ensures Converge(count, master, batches, i) <= Dedup(master + Flatten(batches[i..]))
    decreases |batches| - i
  {
    var m := master + batches[i];
    var rest := Flatten(batches[i + 1..]);
    assert batches[i..][1..] == batches[i + 1..];
    assert master + Flatten(batches[i..]) == m + rest;
    if |Dedup(m)| >= count || i + 1 == |batches| {
      DedupPrefix(m, rest);
    } else {
      ConvergePrefix(count, Dedup(m), batches, i + 1);
      DedupAppend(m, rest);
    }
  }

  /** The function gives up as impossible exactly when rows are asked for and every sample came
      back empty. */
  lemma ExactImpossible(count: nat, probes: seq<seq<Row>>, batches: seq<seq<Row>>, proceed: bool)
    requires |probes| == Samples && |batches| == Attempts
    ensures ExactTable(count, probes, batches, proceed) == Impossible <==>
      count > 0 && forall k :: 0 <= k < |probes| ==> probes[k] == []
  {
    var (master, stopped, total) := ProbePhase(count, [], probes, 0, 0);
    ProbeTotal(count, [], probes, 0, 0);
    if count == 0 {
      assert stopped;
    }
    if count > 0 && forall k :: 0 <= k < |probes| ==> probes[k] == [] {
      ProbeNothing(count, [], probes, 0, 0);
    }
  }

  /** The table has no repeated row, at most `count` rows, and only rows of the samples and the
      new tables; it falls short of `count` only when all of them together hold fewer distinct
      rows, and then it holds every one of them. */
  lemma ExactTableMeaning(count: nat, probes: seq<seq<Row>>, batches: seq<seq<Row>>, proceed: bool)
    requires |probes| == Samples && |batches| == Attempts
    ensures ExactTable(count, probes, batches, proceed).Table? ==>
      var rows := ExactTable(count, probes, batches, proceed).rows;
      Distinct(rows) && |rows| <= count &&
      (forall x :: x in rows ==> x in Flatten(probes) + Flatten(batches)) &&
      (|rows| < count ==> rows == Dedup(Flatten(probes) + Flatten(batches)))
  {
    var (master, stopped, total) := ProbePhase(count, [], probes, 0, 0);
    ProbeRows(count, [], probes, 0, 0);
    assert probes[0..] == probes && batches[0..] == batches;
    assert [] + Flatten(probes) == Flatten(probes);
    if ExactTable(count, probes, batches, proceed).Table? {
      var rows := ExactTable(count, probes, batches, proceed).rows;
      if !stopped {
        var c := Converge(count, master, batches, 0);
        ConvergeRows(count, master, batches, 0);
        assert rows == Take(c, count);
        forall x | x in rows ensures x in Flatten(probes) + Flatten(batches) {
          assert x in c;
        }
        if |rows| < count {
          DedupAppend(master, Flatten(batches));
          DedupAppend(Flatten(probes), Flatten(batches));
        }
      }
    }
  }

  /** The table is exactly the first `count` distinct rows, in the order they were first drawn,
      of the samples followed by the new tables: truncation keeps the first rows, and the table
      has `count` rows whenever that many distinct rows were drawn. */
  lemma ExactTableRows(count: nat, probes: seq<seq<Row>>, batches: seq<seq<Row>>, proceed: bool)
    requires |probes| == Samples && |batches| == Attempts
    ensures ExactTable(count, probes, batches, proceed).Table? ==>
      ExactTable(count, probes, batches, proceed).rows == Take(Dedup(Flatten(probes) + Flatten(batches)), count)
  {
    var (master, stopped, total) := ProbePhase(count, [], probes, 0, 0);
    assert probes[0..] == probes && batches[0..] == batches;
    assert [] + Flatten(probes) == Flatten(probes);
    ProbeRows(count, [], probes, 0, 0);
    if stopped {
      assert ExactTable(count, probes, batches, proceed) == Table(Take(master, count));
      ProbePrefix(count, [], probes, 0, 0);
      StoppedTake(count, master, Flatten(probes), Flatten(batches));
    } else {
      var c := Converge(count, master, batches, 0);
      assert ExactTable(count, probes, batches, proceed).Table? ==> ExactTable(count, probes, batches, proceed).rows == Take(c, count);
      ConvergeRows(count, master, batches, 0);
      ConvergePrefix(count, master, batches, 0);
      ConvergedTake(count, master, c, Flatten(probes), Flatten(batches));
    }
  }

  /** A table that stopped the sampling loop, cut to `count`. */
  lemma StoppedTake(count: nat, master: seq<Row>, sampled: seq<Row>, added: seq<Row>)
    requires master <= Dedup(sampled) && |master| >= count
    ensures Take(master, count) == Take(Dedup(sampled + added), count)
  {
    DedupPrefix(sampled, added);
    assert master[..count] == Dedup(sampled + added)[..count];
  }

  /** The attempt loop's table, cut to `count`. */
  lemma ConvergedTake(count: nat, master: seq<Row>, c: seq<Row>, sampled: seq<Row>, added: seq<Row>)
    requires Dedup(master) == Dedup(sampled)
    requires c <= Dedup(master + added) && (|c| < count ==> c == Dedup(master + added))
    ensures Take(c, count) == Take(Dedup(sampled + added), count)
  {
    DedupAppend(master, added);
    DedupAppend(sampled, added);
    if |c| >= count {
      assert c[..count] == Dedup(sampled + added)[..count];
    }
  }

  // ---------------------------------------------------------------------------
  // get_total_combinations (nft.py:216-221)

  /** The product of the numbers of values of the layers. */
  function Product(layers: seq<Configured>): nat {
    if layers == [] then 1 else |layers[0].traits| * Product(layers[1..])
  }

  /** Every value v put in front of every combination of rest. */
  function Prefixed(v: Option<string>, rest: seq<seq<Option<string>>>): (r: seq<seq<Option<string>>>)
    ensures |r| == |rest| && forall k :: 0 <= k < |rest| ==> r[k] == [v] + rest[k]
  {
    seq(|rest|, k requires 0 <= k < |rest| => [v] + rest[k])
  }

  /** Each of the values put in front of every combination of rest, value by value. */
  function Extend(values: seq<Option<string>>, rest: seq<seq<Option<string>>>): seq<seq<Option<string>>> {
    if values == [] then [] else Prefixed(values[0], rest) + Extend(values[1..], rest)
  }

  /** Every way of picking one value per layer, in layer order. */
  function Combos(layers: seq<Configured>): seq<seq<Option<string>>> {
    if layers == [] then [[]] else Extend(layers[0].traits, Combos(layers[1..]))
  }

  /** get_total_combinations. */
  method TotalCombinations(layers: seq<Configured>) returns (total: nat)
    ensures total == |Combos(layers)|
  {
    total := 1;
    for i := 0 to |layers|
      invariant total * Product(layers[i..]) == Product(layers)
    {
      assert layers[i..][1..] == layers[i + 1..];
      MulAssoc(total, |layers[i].traits|, Product(layers[i + 1..]));
      total := total * |layers[i].traits|;
    }
    assert layers[0..] == layers;
    CombosCount(layers);
  }

  lemma MulAssoc(a: nat, b: nat, c: nat)
    ensures a * (b * c) == (a * b) * c
  {
  }

  lemma {:induction false} ExtendCount(values: seq<Option<string>>, rest: seq<seq<Option<string>>>)
    ensures |Extend(values, rest)| == |values| * |rest|
  {
    if values != [] {
      ExtendCount(values[1..], rest);
    }
  }

  /** There are as many combinations as the product of the numbers of values. */
  lemma {:induction false} CombosCount(layers: seq<Configured>)
    ensures |Combos(layers)| == Product(layers)
  {
    if layers != [] {
      CombosCount(layers[1..]);
      ExtendCount(layers[0].traits, Combos(layers[1..]));
    }
  }

  lemma {:induction false} ExtendMembers(values: seq<Option<string>>, rest: seq<seq<Option<string>>>, c: seq<Option<string>>)
    ensures c in Extend(values, rest) <==> c != [] && c[0] in values && c[1..] in rest
  {
    if values != [] {
      ExtendMembers(values[1..], rest, c);
      if c in Prefixed(values[0], rest) {
        var k :| 0 <= k < |rest| && Prefixed(values[0], rest)[k] == c;
        assert c[1..] == rest[k];
      }
      if c != [] && c[0] == values[0] && c[1..] in rest {
        var k :| 0 <= k < |rest| && rest[k] == c[1..];
        assert c == [values[0]] + rest[k];
        assert Prefixed(values[0], rest)[k] == c;
      }
    }
  }

  /** A combination is exactly a sequence with one value of each layer, in layer order. */
  lemma {:induction false} CombosMembers(layers: seq<Configured>, c: seq<Option<string>>)
    ensures c in Combos(layers) <==> |c| == |layers| && forall k :: 0 <= k < |c| ==> c[k] in layers[k].traits
  {
    if layers != [] {
      ExtendMembers(layers[0].traits, Combos(layers[1..]), c);
      if c != [] {
        CombosMembers(layers[1..], c[1..]);
        if |c| == |layers| && forall k :: 0 <= k < |c| ==> c[k] in layers[k].traits {
          forall k | 0 <= k < |c| - 1 ensures c[1..][k] in layers[1..][k].traits {
            assert c[1..][k] == c[k + 1];
          }
        }
        if c[0] in layers[0].traits && c[1..] in Combos(layers[1..]) {
          forall k | 0 <= k < |c| ensures c[k] in layers[k].traits {
            if k > 0 {
              assert c[k] == c[1..][k - 1];
            }
          }
        }
      }
    }
  }

  lemma {:induction false} ExtendDistinct(values: seq<Option<string>>, rest: seq<seq<Option<string>>>)
    requires Distinct(values) && Distinct(rest)
    ensures Distinct(Extend(values, rest))
  {
    if values != [] {
      ExtendDistinct(values[1..], rest);
      var p := Prefixed(values[0], rest);
      var e := Extend(values[1..], rest);
      forall i, j | 0 <= i < j < |p + e| ensures (p + e)[i] != (p + e)[j] {
        if j < |p| {
          assert p[i][1..] == rest[i] && p[j][1..] == rest[j];
        } else if i < |p| {
          ExtendMembers(values[1..], rest, e[j - |p|]);
          assert values[0] !in values[1..];
        }
      }
    }
  }

  /** When no layer repeats a value, no combination is listed twice, so the product is the
      number of distinct combinations. */
  lemma {:induction false} CombosDistinct(layers: seq<Configured>)
    requires forall k :: 0 <= k < |layers| ==> Distinct(layers[k].traits)
    ensures Distinct(Combos(layers))
    ensures |set c | c in Combos(layers)| == Product(layers)
  {
    if layers != [] {
      CombosDistinct(layers[1..]);
      ExtendDistinct(layers[0].traits, Combos(layers[1..]));
    }
    CombosCount(layers);
    DistinctCard(Combos(layers));
  }
}
