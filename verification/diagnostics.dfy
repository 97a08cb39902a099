/** The ALL/None diagnostics (restriction_code.py:652-789): in the compiled index, find the traits
    that can never appear in a combination, because they forbid every value of another layer
    (getter side) or because every value of another layer forbids them (setter side). The
    report is returned instead of being printed and confirmed at a prompt. */
module Diagnostics {
  import opened Text
  import opened Traits
  import opened RuleParser
  import opened Compiler

  datatype IssueSide = Getter | Setter

  /** One reported issue: the (layer, trait) pair that cannot appear, and the layer provoking it. */
  datatype Issue = Issue(pair: (string, string), provoker: string, side: IssueSide)

  /** Every layer the index mentions has an entry in the collection, and every setter layer has at
      least one setter trait; a compiled index always has both (CompiledIndexKnown). */
  predicate IndexKnown(names: Names, idx: Index) {
    (forall l :: l in idx ==> l in names && idx[l] != map[]) &&
    (forall l, t, m :: l in idx && t in idx[l] && m in idx[l][t] ==> m in names)
  }

  /** Whether an index entry excludes the value `u` of its restricted layer (the test
      is_image_invalid applies, see Compiler.Forbids). */
  predicate Blocks(e: Entry, u: string) {
    (e.restrictAll && u != Absence) || u in e.restricted
  }

  lemma {:induction false} SubsetCard<T>(a: set<T>, b: set<T>)
    requires a <= b
    ensures |a| <= |b|
    ensures |a| == |b| ==> a == b
    decreases |a|
  {
    if a != {} {
      var x :| x in a;
      SubsetCard(a - {x}, b - {x});
      assert a == (a - {x}) + {x} && b == (b - {x}) + {x};
    } else if |b| == 0 {
      assert b == {};
    }
  }

  /** A well-formed layer never names a trait "none", so it has n values plus absence if optional. */
  lemma ValuesCard(layer: LayerNames)
    requires WellFormed(layer)
    ensures Absence !in layer.traits
    ensures |Values(layer)| == layer.n + (if layer.required then 0 else 1)
  {
    assert Lower(Absence) == Absence;
  }

  // ---------------------------------------------------------------------------
  // Getter side (restriction_code.py:669-706)

  /** The red flag as written at restriction_code.py:684: the size of 'Restricted' is compared with
      the number of real traits, although 'Restricted' may hold "none" as well. */
  predicate GetterIssueAsWritten(e: Entry, layer: LayerNames) {
    (e.restrictAll || |e.restricted| >= layer.n) && (Absence in e.restricted || layer.required)
  }

  /** The red flag as intended: every real trait of the layer is restricted. */
  predicate GetterIssue(e: Entry, layer: LayerNames) {
    (e.restrictAll || layer.traits <= e.restricted) && (Absence in e.restricted || layer.required)
  }

  /** An issue is raised for an entry exactly when it excludes every value the layer can take. */
  lemma GetterIssueMeaning(e: Entry, layer: LayerNames)
    requires WellFormed(layer)
    ensures GetterIssue(e, layer) <==> forall u :: u in Values(layer) ==> Blocks(e, u)
  {
    ValuesCard(layer);
    if forall u :: u in Values(layer) ==> Blocks(e, u) {
      if !layer.required {
        assert Blocks(e, Absence);
      }
      if !e.restrictAll {
        forall u | u in layer.traits ensures u in e.restricted {
          assert Blocks(e, u);
        }
      }
    }
  }

  /** The written check raises every issue the intended one raises ... */
  lemma GetterIssueAsWrittenComplete(e: Entry, layer: LayerNames)
    requires WellFormed(layer)
    ensures GetterIssue(e, layer) ==> GetterIssueAsWritten(e, layer)
  {
    if GetterIssue(e, layer) && !e.restrictAll {
      SubsetCard(layer.traits, e.restricted);
    }
  }

  /** ... and no other as long as "none" is not restricted: only an optional layer's "none" in
      'Restricted' makes the count overshoot. */
  lemma GetterIssueAsWrittenSound(e: Entry, layer: LayerNames)
    requires WellFormed(layer)
    requires e.restricted <= Values(layer) && Absence !in e.restricted
    ensures GetterIssueAsWritten(e, layer) ==> GetterIssue(e, layer)
  {
    if GetterIssueAsWritten(e, layer) && !e.restrictAll {
      assert e.restricted <= layer.traits;
      SubsetCard(e.restricted, layer.traits);
    }
  }

  /** An optional layer with traits A and B, of which a rule restricts "none" and A: the written
      check reports that the whole layer is excluded, although B is still allowed. */
  lemma GetterRedFlagOvercounts()
    ensures var layer := LayerNames({"A", "B"}, 2, false);
      var e := Entry(false, {Absence, "A"});
      WellFormed(layer) && GetterIssueAsWritten(e, layer) && !GetterIssue(e, layer) &&
      "B" in Values(layer) && !Blocks(e, "B")
  {
    var layer := LayerNames({"A", "B"}, 2, false);
    var e := Entry(false, {Absence, "A"});
    assert Lower("A") == "a" && Lower("B") == "b";
    assert "A" != "B";
    assert |layer.traits| == 2;
    assert Absence != "A";
    assert |e.restricted| == 2;
    assert "B" !in e.restricted;
  }

  predicate IsGetterIssue(names: Names, idx: Index, i: Issue)
    requires IndexKnown(names, idx)
  {
    i.side == Getter && HasTarget(idx, i.pair.0, i.pair.1, i.provoker) &&
    GetterIssueAsWritten(idx[i.pair.0][i.pair.1][i.provoker], names[i.provoker])
  }

  /** Whenever the trait t of l forbids every value of another layer m, so that no combination can
      hold t, the getter issue (l, t) / m is reported; and a reported issue means exactly that as
      long as the entry does not restrict "none" (GetterRedFlagOvercounts shows the other case). */
  lemma GetterIssueNeverAppears(names: Names, idx: Index, l: string, t: string, m: string)
    requires IndexKnown(names, idx)
    requires HasTarget(idx, l, t, m) && l != m && WellFormed(names[m])
    ensures (forall u :: u in Values(names[m]) ==> Forbids(idx, l, t, m, u)) ==>
      IsGetterIssue(names, idx, Issue((l, t), m, Getter))
    ensures idx[l][t][m].restricted <= Values(names[m]) && Absence !in idx[l][t][m].restricted ==>
      (IsGetterIssue(names, idx, Issue((l, t), m, Getter)) <==>
        forall u :: u in Values(names[m]) ==> Forbids(idx, l, t, m, u))
  {
    var e := idx[l][t][m];
    GetterIssueMeaning(e, names[m]);
    GetterIssueAsWrittenComplete(e, names[m]);
    if e.restricted <= Values(names[m]) && Absence !in e.restricted {
      GetterIssueAsWrittenSound(e, names[m]);
    }
  }

  /** The innermost loop: the restricted layers of one setter trait. */
  method TargetsGetterIssues(names: Names, l: string, t: string, targets: Targets) returns (r: seq<Issue>)
    requires forall m :: m in targets ==> m in names
    ensures forall i :: i in r <==>
      i.side == Getter && i.pair == (l, t) && i.provoker in targets && GetterIssueAsWritten(targets[i.provoker], names[i.provoker])
  {
    r := [];
    var todo := targets.Keys;
    while todo != {}
      invariant todo <= targets.Keys
      invariant forall i :: i in r <==>
        i.side == Getter && i.pair == (l, t) && i.provoker in targets && i.provoker !in todo &&
        GetterIssueAsWritten(targets[i.provoker], names[i.provoker])
      decreases |todo|
    {
      var m :| m in todo;
      todo := todo - {m};
      var e := targets[m];
      var redFlag := e.restrictAll;
      redFlag := redFlag || |e.restricted| >= names[m].n;
      var issueFound := redFlag && Absence in e.restricted;
      if redFlag && !issueFound {
        issueFound := names[m].required;
      }
      if issueFound {
        r := r + [Issue((l, t), m, Getter)];
      }
    }
  }

  /** The middle loop: the setter traits of one setter layer. */
  method RowGetterIssues(names: Names, l: string, row: map<string, Targets>) returns (r: seq<Issue>)
    requires forall t, m :: t in row && m in row[t] ==> m in names
    ensures forall i :: i in r <==>
      i.side == Getter && i.pair.0 == l && i.pair.1 in row && i.provoker in row[i.pair.1] &&
      GetterIssueAsWritten(row[i.pair.1][i.provoker], names[i.provoker])
  {
    r := [];
    var todo := row.Keys;
    while todo != {}
      invariant todo <= row.Keys
      invariant forall i :: i in r <==>
        i.side == Getter && i.pair.0 == l && i.pair.1 in row && i.pair.1 !in todo && i.provoker in row[i.pair.1] &&
        GetterIssueAsWritten(row[i.pair.1][i.provoker], names[i.provoker])
      decreases |todo|
    {
      var t :| t in todo;
      todo := todo - {t};
      var found := TargetsGetterIssues(names, l, t, row[t]);
      r := r + found;
    }
  }

  /** The getter-side search over the whole index. */
  method GetterIssues(names: Names, idx: Index) returns (r: seq<Issue>)
    requires IndexKnown(names, idx)
    ensures forall i :: i in r <==> IsGetterIssue(names, idx, i)
  {
    r := [];
    var todo := idx.Keys;
    while todo != {}
      invariant todo <= idx.Keys
      invariant forall i :: i in r <==> IsGetterIssue(names, idx, i) && i.pair.0 !in todo
      decreases |todo|
    {
      var l :| l in todo;
      todo := todo - {l};
      var found := RowGetterIssues(names, l, idx[l]);
      r := r + found;
    }
  }

  // ---------------------------------------------------------------------------
  // Setter side (restriction_code.py:718-748)

  /** The (layer, trait) pairs one entry restricts: its 'Restricted' traits, and with 'Restrict All'
      every real trait of the layer. */
  function EntryPairs(names: Names, m: string, e: Entry): set<(string, string)>
    requires m in names
  {
    (set u | u in e.restricted :: (m, u)) + (if e.restrictAll then set u | u in names[m].traits :: (m, u) else {})
  }

  /** The pairs one setter trait restricts, over all its restricted layers. */
  function TraitPairs(names: Names, targets: Targets): set<(string, string)>
    requires forall m :: m in targets ==> m in names
  {
    set m, p | m in targets && p in EntryPairs(names, m, targets[m]) :: p
  }

  predicate RowKnown(names: Names, row: map<string, Targets>) {
    forall t, m :: t in row && m in row[t] ==> m in names
  }

  /** The pairs restricted by the setter traits in `keys`, all of them. */
  function PairsOfAll(names: Names, row: map<string, Targets>, keys: set<string>): set<(string, string)>
    requires RowKnown(names, row)
  {
    set t, p | t in row && p in TraitPairs(names, row[t]) && forall t' :: t' in keys && t' in row ==> p in TraitPairs(names, row[t']) :: p
  }

  /** Python's set.intersection over every setter trait of the layer. */
  function CommonPairs(names: Names, row: map<string, Targets>): set<(string, string)>
    requires RowKnown(names, row)
  {
    PairsOfAll(names, row, row.Keys)
  }

  /** The red flag of the setter side: every value of the layer restricts something. */
  predicate Saturated(names: Names, l: string, row: map<string, Targets>)
    requires l in names
  {
    |row.Keys| == names[l].n + (if names[l].required then 0 else 1)
  }

  predicate IsSetterIssue(names: Names, idx: Index, i: Issue)
    requires IndexKnown(names, idx)
  {
    i.side == Setter && i.provoker in idx && Saturated(names, i.provoker, idx[i.provoker]) &&
    i.pair in CommonPairs(names, idx[i.provoker])
  }

  /** The union of one setter trait's pairs (restriction_code.py:728-732 and 737). */
  method TargetPairs(names: Names, targets: Targets) returns (s: set<(string, string)>)
    requires forall m :: m in targets ==> m in names
    ensures s == TraitPairs(names, targets)
  {
    s := {};
    var todo := targets.Keys;
    while todo != {}
      invariant todo <= targets.Keys
      invariant s == set m, p | m in targets && m !in todo && p in EntryPairs(names, m, targets[m]) :: p
      decreases |todo|
    {
      var m :| m in todo;
      todo := todo - {m};
      s := s + EntryPairs(names, m, targets[m]);
    }
  }

  lemma PairsOfOne(names: Names, row: map<string, Targets>, t0: string)
    requires RowKnown(names, row) && t0 in row
    ensures PairsOfAll(names, row, {t0}) == TraitPairs(names, row[t0])
  {
    forall p | p in TraitPairs(names, row[t0]) ensures p in PairsOfAll(names, row, {t0}) {
      assert forall t' :: t' in {t0} && t' in row ==> p in TraitPairs(names, row[t']);
    }
  }

  lemma PairsOfMore(names: Names, row: map<string, Targets>, keys: set<string>, t: string)
    requires RowKnown(names, row) && keys <= row.Keys && keys != {} && t in row
    ensures PairsOfAll(names, row, keys + {t}) == PairsOfAll(names, row, keys) * TraitPairs(names, row[t])
  {
    var t0 :| t0 in keys;
    forall p | p in PairsOfAll(names, row, keys) * TraitPairs(names, row[t])
      ensures p in PairsOfAll(names, row, keys + {t})
    {
      assert p in TraitPairs(names, row[t0]);
    }
  }

  /** The intersection over all setter traits of the layer (restriction_code.py:741-748). */
  method IntersectPairs(names: Names, row: map<string, Targets>) returns (s: set<(string, string)>)
    requires RowKnown(names, row) && row != map[]
    ensures s == CommonPairs(names, row)
  {
    var t0 :| t0 in row;
    s := TargetPairs(names, row[t0]);
    PairsOfOne(names, row, t0);
    var todo := row.Keys - {t0};
    assert row.Keys - todo == {t0};
    while todo != {}
      invariant todo <= row.Keys && t0 !in todo
      invariant s == PairsOfAll(names, row, row.Keys - todo)
      decreases |todo|
    {
      var t :| t in todo;
      var pairs := TargetPairs(names, row[t]);
      PairsOfMore(names, row, row.Keys - todo, t);
      assert row.Keys - (todo - {t}) == (row.Keys - todo) + {t};
      todo := todo - {t};
      s := s * pairs;
    }
    assert row.Keys - todo == row.Keys;
  }

  /** Each common pair becomes an issue provoked by the layer. */
  method PairIssues(pairs: set<(string, string)>, l: string) returns (r: seq<Issue>)
    ensures forall i :: i in r <==> i.side == Setter && i.provoker == l && i.pair in pairs
  {
    r := [];
    var todo := pairs;
    while todo != {}
      invariant todo <= pairs
      invariant forall i :: i in r <==> i.side == Setter && i.provoker == l && i.pair in pairs - todo
      decreases |todo|
    {
      var p :| p in todo;
      todo := todo - {p};
      r := r + [Issue(p, l, Setter)];
    }
  }

  /** The setter-side search over the whole index. */
  method SetterIssues(names: Names, idx: Index) returns (r: seq<Issue>)
    requires IndexKnown(names, idx)
    ensures forall i :: i in r <==> IsSetterIssue(names, idx, i)
  {
    r := [];
    var todo := idx.Keys;
    while todo != {}
      invariant todo <= idx.Keys
      invariant forall i :: i in r <==> IsSetterIssue(names, idx, i) && i.provoker !in todo
      decreases |todo|
    {
      var l :| l in todo;
      todo := todo - {l};
      var row := idx[l];
      if |row.Keys| == names[l].n + (if names[l].required then 0 else 1) {
        var common := IntersectPairs(names, row);
        var found := PairIssues(common, l);
        r := r + found;
      }
    }
  }

  /** check_for_all_none_issues, returning its list of issues instead of printing it. */
  method CheckForAllNoneIssues(names: Names, idx: Index) returns (issues: seq<Issue>)
    requires IndexKnown(names, idx)
    ensures forall i :: i in issues <==> IsGetterIssue(names, idx, i) || IsSetterIssue(names, idx, i)
  {
    var getters := GetterIssues(names, idx);
    var setters := SetterIssues(names, idx);
    issues := getters + setters;
  }

  /** A reported setter issue is forbidden alongside every value of its provoking layer. */
  lemma SetterIssueForbidden(names: Names, idx: Index, l: string, m: string, u: string, v: string)
    requires IndexKnown(names, idx)
    requires l in idx && l != m
    requires forall t :: t in idx[l] ==> t in Values(names[l])
    requires WellFormed(names[l]) && m in names && WellFormed(names[m])
    requires IsSetterIssue(names, idx, Issue((m, u), l, Setter))
    requires v in Values(names[l])
    ensures Forbids(idx, l, v, m, u)
  {
    var row := idx[l];
    SaturatedCovers(names[l], row.Keys, v);
    CommonPairsAt(names, row, (m, u), v);
    PairBlocks(names, row[v], m, u);
  }

  /** A saturated row holds every value of its layer. */
  lemma SaturatedCovers(layer: LayerNames, keys: set<string>, v: string)
    requires WellFormed(layer) && keys <= Values(layer) && v in Values(layer)
    requires |keys| == layer.n + (if layer.required then 0 else 1)
    ensures v in keys
  {
    ValuesCard(layer);
    SubsetCard(keys, Values(layer));
  }

  lemma CommonPairsAt(names: Names, row: map<string, Targets>, p: (string, string), v: string)
    requires RowKnown(names, row) && p in CommonPairs(names, row) && v in row
    ensures p in TraitPairs(names, row[v])
  {
  }

  /** A pair one setter trait restricts is blocked by that trait's entry for the pair's layer. */
  lemma PairBlocks(names: Names, targets: Targets, m: string, u: string)
    requires forall m' :: m' in targets ==> m' in names
    requires m in names && WellFormed(names[m]) && (m, u) in TraitPairs(names, targets)
    ensures m in targets && Blocks(targets[m], u)
  {
    ValuesCard(names[m]);
    var m', p :| m' in targets && p in EntryPairs(names, m', targets[m']) && p == (m, u);
  }

  lemma ForbiddenPair(names: Names, idx: Index, l: string, t: string, m: string, u: string)
    requires IndexKnown(names, idx)
    requires m in names && WellFormed(names[m]) && u in Values(names[m])
    requires Forbids(idx, l, t, m, u)
    ensures (m, u) in TraitPairs(names, idx[l][t])
  {
    ValuesCard(names[m]);
    assert (m, u) in EntryPairs(names, m, idx[l][t][m]);
  }

  /** A value of another layer forbidden alongside every value of the layer is reported. */
  lemma SetterIssueReported(names: Names, idx: Index, l: string, m: string, u: string)
    requires IndexKnown(names, idx)
    requires l in idx && l != m
    requires forall t :: t in idx[l] ==> t in Values(names[l])
    requires WellFormed(names[l]) && m in names && WellFormed(names[m]) && u in Values(names[m])
    requires forall v :: v in Values(names[l]) ==> Forbids(idx, l, v, m, u)
    ensures IsSetterIssue(names, idx, Issue((m, u), l, Setter))
  {
    var row := idx[l];
    ValuesCard(names[l]);
    forall v | v in Values(names[l]) ensures v in row.Keys {
      assert Forbids(idx, l, v, m, u);
    }
    assert row.Keys == Values(names[l]);
    assert Saturated(names, l, row);
    forall t | t in row ensures (m, u) in TraitPairs(names, row[t]) {
      ForbiddenPair(names, idx, l, t, m, u);
    }
    var t0 :| t0 in row;
    assert (m, u) in PairsOfAll(names, row, row.Keys);
  }

  /** A setter issue (m, u) / l is reported exactly when every value of the layer l forbids the
      value u of another layer m, so no combination can hold u. */
  lemma SetterIssueNeverAppears(names: Names, idx: Index, l: string, m: string, u: string)
    requires IndexKnown(names, idx)
    requires l in idx && l != m
    requires forall t :: t in idx[l] ==> t in Values(names[l])
    requires WellFormed(names[l]) && m in names && WellFormed(names[m]) && u in Values(names[m])
    ensures IsSetterIssue(names, idx, Issue((m, u), l, Setter)) <==>
      forall v :: v in Values(names[l]) ==> Forbids(idx, l, v, m, u)
  {
    if IsSetterIssue(names, idx, Issue((m, u), l, Setter)) {
      forall v | v in Values(names[l]) ensures Forbids(idx, l, v, m, u) {
        SetterIssueForbidden(names, idx, l, m, u, v);
      }
    }
    if forall v :: v in Values(names[l]) ==> Forbids(idx, l, v, m, u) {
      SetterIssueReported(names, idx, l, m, u);
    }
  }

  // ---------------------------------------------------------------------------
  // The compiled index meets IndexKnown

  lemma MergeRowsNonEmpty(a: Index, b: Index, l: string)
    requires l in MergeIndex(a, b)
    requires l in a ==> a[l] != map[]
    requires l in b ==> b[l] != map[]
    ensures MergeIndex(a, b)[l] != map[]
  {
    if l in a && l in b {
      var t :| t in a[l];
      assert t in MergeTraits(a[l], b[l]);
    }
  }

  lemma {:induction false} MergeAllRowsNonEmpty(dicts: seq<Index>)
    requires forall k, l :: 0 <= k < |dicts| && l in dicts[k] ==> dicts[k][l] != map[]
    ensures forall l :: l in MergeAll(dicts) ==> MergeAll(dicts)[l] != map[]
  {
    if dicts != [] {
      var front := dicts[..|dicts| - 1];
      MergeAllRowsNonEmpty(front);
      forall l | l in MergeAll(dicts) ensures MergeAll(dicts)[l] != map[] {
        MergeRowsNonEmpty(MergeAll(front), dicts[|dicts| - 1], l);
      }
    }
  }

  lemma RuleRowsNonEmpty(names: Names, rule: Rule, l: string)
    requires LayersKnown(names, rule.setters)
    requires l in RuleIndex(names, rule)
    ensures RuleIndex(names, rule)[l] != map[]
  {
    var setters := SetterPairs(names, rule.setters);
    var p :| p in setters && p.0 == l;
    assert p.1 in SetterTraits(setters, l);
    SetterIndexMeaning(setters, GetterMap(GetterPairs(rule.getters)), l, p.1);
  }

  /** The index compiled from checked rules satisfies IndexKnown, and its setter traits are values
      of their layers: the preconditions of the diagnostics and of their meaning lemmas. */
  lemma CompiledIndexKnown(names: Names, rules: seq<Rule>)
    requires forall k :: 0 <= k < |rules| ==> RuleWithin(names, rules[k])
    ensures forall k :: 0 <= k < |rules| ==> LayersKnown(names, rules[k].setters)
    ensures IndexKnown(names, Compile(names, rules))
    ensures forall l, t :: HasPath(Compile(names, rules), l, t) ==> t in Values(names[l])
  {
    RulesKnown(names, rules);
    var idx := Compile(names, rules);
    var dicts: seq<Index> := seq(|rules|, k requires 0 <= k < |rules| => RuleIndex(names, rules[k]));
    forall k, l | 0 <= k < |dicts| && l in dicts[k] ensures dicts[k][l] != map[] {
      RuleRowsNonEmpty(names, rules[k], l);
    }
    MergeAllRowsNonEmpty(dicts);
    forall l | l in idx ensures l in names {
      var t :| t in idx[l];
      CompilePathsWithin(names, rules, l, t);
    }
    forall l, t, m | l in idx && t in idx[l] && m in idx[l][t] ensures m in names {
      CompileTargetsWithin(names, rules, l, t, m);
    }
    forall l, t | HasPath(idx, l, t) ensures t in Values(names[l]) {
      CompilePathsWithin(names, rules, l, t);
    }
  }
}
