/** The restriction compiler (restriction_code.py:401-648): each checked rule becomes a set of
    (layer, trait) pairs per side and a four-level "workable dictionary"; the dictionaries of all
    rules are merged into one index, which answers "does the trait `t` of layer `L` forbid the
    value `u` of layer `M`?". */
module Compiler {
  import opened Traits
  import opened Text
  import opened RuleParser

  /** A restriction getter's reference: one trait, or `True` for the whole layer. */
  datatype Ref = Trait(name: string) | AllTraits

  /** What one (setter layer, setter trait) pair restricts in one layer: 'Restrict All' and 'Restricted'. */
  datatype Entry = Entry(restrictAll: bool, restricted: set<string>)

  /** Restricted layer -> entry. */
  type Targets = map<string, Entry>

  /** The workable dictionary: setter layer -> setter trait -> restricted layer -> entry. */
  type Index = map<string, map<string, Targets>>

  // ---------------------------------------------------------------------------
  // get_trait_pairs_set (restriction_code.py:401-484)

  /** The traits a selector names explicitly (nothing for `{'all': True}`). */
  function Named(sel: Selector): set<string> {
    match sel
    case Every => {}
    case Single(t) => {t}
    case Listed(ts) => set t | t in ts
    case Unordered(s) => s
  }

  predicate LayersKnown(names: Names, side: Side) {
    forall k :: 0 <= k < |side| ==> side[k].0 in names
  }

  /** The setter side's pairs: `{'all': True}` stands for every real trait of its layer. */
  function SetterPairs(names: Names, side: Side): set<(string, string)>
    requires LayersKnown(names, side)
  {
    set k, t | 0 <= k < |side| && t in (if side[k].1.Every? then names[side[k].0].traits else Named(side[k].1)) :: (side[k].0, t)
  }

  function GetterRefs(sel: Selector): set<Ref> {
    if sel.Every? then {AllTraits} else set t | t in Named(sel) :: Trait(t)
  }

  /** The getter side's pairs: `{'all': True}` becomes (layer, True). */
  function GetterPairs(side: Side): set<(string, Ref)> {
    set k, r | 0 <= k < |side| && r in GetterRefs(side[k].1) :: (side[k].0, r)
  }

  /** A setter pair comes from an entry of its layer: from the layer's real traits for
      `{'all': True}`, otherwise from a trait the entry names; so absence only enters explicitly. */
  lemma SetterPairsMeaning(names: Names, side: Side, l: string, t: string)
    requires LayersKnown(names, side)
    ensures (l, t) in SetterPairs(names, side) <==>
      exists k :: 0 <= k < |side| && side[k].0 == l &&
                  if side[k].1.Every? then t in names[l].traits else t in Named(side[k].1)
    ensures LayerWellFormed(names, l) && (l, Absence) in SetterPairs(names, side) ==>
      exists k :: 0 <= k < |side| && side[k].0 == l && Absence in Named(side[k].1)
  {
    if (l, t) in SetterPairs(names, side) {
      var k, t' :| 0 <= k < |side| && t' in (if side[k].1.Every? then names[side[k].0].traits else Named(side[k].1)) && (side[k].0, t') == (l, t);
    }
    if LayerWellFormed(names, l) && (l, Absence) in SetterPairs(names, side) {
      var k, t' :| 0 <= k < |side| && t' in (if side[k].1.Every? then names[side[k].0].traits else Named(side[k].1)) && (side[k].0, t') == (l, Absence);
    }
  }

  predicate LayerWellFormed(names: Names, l: string) {
    l in names && WellFormed(names[l])
  }

  /** A getter pair (l, True) comes exactly from a `{'all': True}` entry of `l`; (l, t) from an
      entry of `l` that names `t`. */
  lemma GetterPairsMeaning(side: Side, l: string, t: string)
    ensures (l, AllTraits) in GetterPairs(side) <==> exists k :: 0 <= k < |side| && side[k] == (l, Every)
    ensures (l, Trait(t)) in GetterPairs(side) <==> exists k :: 0 <= k < |side| && side[k].0 == l && t in Named(side[k].1)
  {
    if (l, AllTraits) in GetterPairs(side) {
      var k, r :| 0 <= k < |side| && r in GetterRefs(side[k].1) && (side[k].0, r) == (l, AllTraits);
    }
    if exists k :: 0 <= k < |side| && side[k] == (l, Every) {
      var k :| 0 <= k < |side| && side[k] == (l, Every);
      assert AllTraits in GetterRefs(side[k].1);
    }
    if (l, Trait(t)) in GetterPairs(side) {
      var k, r :| 0 <= k < |side| && r in GetterRefs(side[k].1) && (side[k].0, r) == (l, Trait(t));
    }
    if exists k :: 0 <= k < |side| && side[k].0 == l && t in Named(side[k].1) {
      var k :| 0 <= k < |side| && side[k].0 == l && t in Named(side[k].1);
      assert Trait(t) in GetterRefs(side[k].1);
    }
  }

  /** For a checked rule, every pair names a layer of the collection and a value that layer has. */
  lemma PairsWithin(names: Names, rule: Rule, l: string, t: string, r: Ref)
    requires RuleWithin(names, rule)
    ensures LayersKnown(names, rule.setters)
    ensures (l, t) in SetterPairs(names, rule.setters) ==> l in names && t in Values(names[l])
    ensures (l, r) in GetterPairs(rule.getters) ==> l in names && (r.Trait? ==> r.name in Values(names[l]))
  {
    if (l, t) in SetterPairs(names, rule.setters) {
      SetterPairsMeaning(names, rule.setters, l, t);
      var k :| 0 <= k < |rule.setters| && rule.setters[k].0 == l &&
               if rule.setters[k].1.Every? then t in names[l].traits else t in Named(rule.setters[k].1);
      assert SelectorWithin(names[l], rule.setters[k].1);
    }
    if (l, r) in GetterPairs(rule.getters) {
      var k, r' :| 0 <= k < |rule.getters| && r' in GetterRefs(rule.getters[k].1) && (rule.getters[k].0, r') == (l, r);
      assert SelectorWithin(names[l], rule.getters[k].1);
    }
  }

  // ---------------------------------------------------------------------------
  // get_wble_dictionaries (restriction_code.py:488-595)

  function PairLayers<R(==)>(pairs: set<(string, R)>): set<string> {
    set p | p in pairs :: p.0
  }

  /** The third and fourth levels built from a rule's getter pairs. */
  function GetterMap(getters: set<(string, Ref)>): Targets {
    map l | l in PairLayers(getters) ::
      Entry((l, AllTraits) in getters, set p | p in getters && p.0 == l && p.1.Trait? :: p.1.name)
  }

  lemma GetterMapAdd(done: set<(string, Ref)>, p: (string, Ref))
    ensures var m := GetterMap(done); var e := if p.0 in m then m[p.0] else Entry(false, {});
      GetterMap(done + {p}) == m[p.0 := if p.1.AllTraits? then e.(restrictAll := true) else e.(restricted := e.restricted + {p.1.name})]
  {
    var m := GetterMap(done);
    var e := if p.0 in m then m[p.0] else Entry(false, {});
    var m' := m[p.0 := if p.1.AllTraits? then e.(restrictAll := true) else e.(restricted := e.restricted + {p.1.name})];
    assert PairLayers(done + {p}) == PairLayers(done) + {p.0};
    forall l | l in m' ensures l in GetterMap(done + {p}) && GetterMap(done + {p})[l] == m'[l] {
      if l == p.0 {
        if p.0 !in m {
          assert forall q :: q in done ==> q.0 != l;
        }
      }
    }
  }

  /** The loop that drains a rule's getter pairs into `wd_getters`. */
  method DrainGetters(getters: set<(string, Ref)>) returns (wd: Targets)
    ensures wd == GetterMap(getters)
  {
    var rest := getters;
    ghost var done: set<(string, Ref)> := {};
    wd := map[];
    while rest != {}
      invariant rest <= getters && done == getters - rest
      invariant wd == GetterMap(done)
      decreases |rest|
    {
      var p :| p in rest;
      var name, ref := p.0, p.1;
      ghost var before := wd;
      if name !in wd {
        wd := wd[name := Entry(false, {})];
      }
      match ref {
        case AllTraits => wd := wd[name := wd[name].(restrictAll := true)];
        case Trait(t) => wd := wd[name := wd[name].(restricted := wd[name].restricted + {t})];
      }
      GetterStep(getters, rest, done, p, before, wd);
      rest := rest - {p};
      done := done + {p};
    }
    GetterDone(getters, rest, done);
  }

  lemma GetterStep(getters: set<(string, Ref)>, rest: set<(string, Ref)>, done: set<(string, Ref)>,
                   p: (string, Ref), before: Targets, after: Targets)
    requires p in rest && rest <= getters && done == getters - rest && before == GetterMap(done)
    requires var e := if p.0 in before then before[p.0] else Entry(false, {});
      after == before[p.0 := if p.1.AllTraits? then e.(restrictAll := true) else e.(restricted := e.restricted + {p.1.name})]
    ensures rest - {p} <= getters && done + {p} == getters - (rest - {p})
    ensures after == GetterMap(done + {p})
  {
    GetterMapAdd(done, p);
  }

  lemma GetterDone(getters: set<(string, Ref)>, rest: set<(string, Ref)>, done: set<(string, Ref)>)
    requires rest == {} && done == getters - rest
    ensures done == getters
  {
  }

  /** A getter layer's entry says 'Restrict All' iff the rule restricts the whole layer, and lists
      exactly the traits the rule restricts by name. */
  lemma GetterMapMeaning(getters: set<(string, Ref)>, l: string, u: string)
    ensures l in GetterMap(getters) <==> (exists r :: (l, r) in getters)
    ensures l in GetterMap(getters) ==>
      (GetterMap(getters)[l].restrictAll <==> (l, AllTraits) in getters) &&
      (u in GetterMap(getters)[l].restricted <==> (l, Trait(u)) in getters)
  {
    if exists r :: (l, r) in getters {
      var r :| (l, r) in getters;
      assert l in PairLayers(getters);
    }
    if l in GetterMap(getters) && (l, Trait(u)) in getters {
      var p := (l, Trait(u));
      assert p in getters && p.0 == l && p.1.Trait?;
    }
  }

  function SetterTraits(setters: set<(string, string)>, l: string): set<string> {
    set p | p in setters && p.0 == l :: p.1
  }

  /** The first and second levels: every setter pair leads to the rule's getter map. */
  function SetterIndex(setters: set<(string, string)>, targets: Targets): Index {
    map l | l in PairLayers(setters) :: map t | t in SetterTraits(setters, l) :: targets
  }

  lemma PairLayersAdd<R>(done: set<(string, R)>, p: (string, R))
    ensures PairLayers(done + {p}) == PairLayers(done) + {p.0}
  {
  }

  lemma SetterTraitsAdd(done: set<(string, string)>, p: (string, string), l: string)
    ensures SetterTraits(done + {p}, l) == SetterTraits(done, l) + (if l == p.0 then {p.1} else {})
    ensures l !in PairLayers(done) ==> SetterTraits(done, l) == {}
  {
  }

  lemma SetterIndexAdd(done: set<(string, string)>, p: (string, string), targets: Targets)
    ensures var m := SetterIndex(done, targets); var row := if p.0 in m then m[p.0] else map[];
      SetterIndex(done + {p}, targets) == m[p.0 := row[p.1 := targets]]
  {
    var m := SetterIndex(done, targets);
    var row := if p.0 in m then m[p.0] else map[];
    var m' := m[p.0 := row[p.1 := targets]];
    var n := SetterIndex(done + {p}, targets);
    PairLayersAdd(done, p);
    assert n.Keys == m'.Keys;
    forall l | l in m' ensures n[l] == m'[l] {
      SetterTraitsAdd(done, p, l);
      assert n[l] == map t | t in SetterTraits(done + {p}, l) :: targets;
    }
  }

  /** The loop that drains a rule's setter pairs into `wd_setters`. */
  method DrainSetters(setters: set<(string, string)>, targets: Targets) returns (wd: Index)
    ensures wd == SetterIndex(setters, targets)
  {
    var rest := setters;
    wd := map[];
    while rest != {}
      invariant rest <= setters
      invariant wd == SetterIndex(setters - rest, targets)
      decreases |rest|
    {
      var p :| p in rest;
      SetterIndexAdd(setters - rest, p, targets);
      assert setters - (rest - {p}) == (setters - rest) + {p};
      rest := rest - {p};
      var name, t := p.0, p.1;
      if name !in wd {
        wd := wd[name := map[]];
      }
      wd := wd[name := wd[name][t := targets]];
    }
    assert setters - rest == setters;
  }

  /** The per-rule dictionary has a path for exactly the rule's setter pairs, each leading to the
      getter map. */
  lemma SetterIndexMeaning(setters: set<(string, string)>, targets: Targets, l: string, t: string)
    ensures (l in SetterIndex(setters, targets) && t in SetterIndex(setters, targets)[l]) <==> (l, t) in setters
    ensures (l, t) in setters ==> SetterIndex(setters, targets)[l][t] == targets
  {
    if (l, t) in setters {
      assert l in PairLayers(setters);
      assert t in SetterTraits(setters, l);
    }
  }

  /** The single workable dictionary of one rule. */
  function RuleIndex(names: Names, rule: Rule): Index
    requires LayersKnown(names, rule.setters)
  {
    SetterIndex(SetterPairs(names, rule.setters), GetterMap(GetterPairs(rule.getters)))
  }

  /** The layers that occur on both sides of a rule (a collision). */
  function Common(names: Names, rule: Rule): set<string>
    requires LayersKnown(names, rule.setters)
  {
    PairLayers(SetterPairs(names, rule.setters)) * PairLayers(GetterPairs(rule.getters))
  }

  lemma DrainedKeys(setters: set<(string, string)>, getters: set<(string, Ref)>, targets: Targets)
    ensures GetterMap(getters).Keys == PairLayers(getters)
    ensures SetterIndex(setters, targets).Keys == PairLayers(setters)
  {
  }

  /** One pass of get_wble_dictionaries' loop: the rule's dictionary and its collision layers. */
  method WbleDictionary(names: Names, rule: Rule) returns (wd: Index, common: set<string>)
    requires LayersKnown(names, rule.setters)
    ensures wd == RuleIndex(names, rule)
    ensures common == Common(names, rule)
  {
    var setters := SetterPairs(names, rule.setters);
    var getters := GetterPairs(rule.getters);
    var wdGetters := DrainGetters(getters);
    wd := DrainSetters(setters, wdGetters);
    DrainedKeys(setters, getters, wdGetters);
    common := wdGetters.Keys * wd.Keys;
  }

  /** get_wble_dictionaries without its prompt: one dictionary per rule, and each collision as
      (rule index, layers on both sides). */
  method GetWbleDictionaries(names: Names, rules: seq<Rule>) returns (dicts: seq<Index>, collisions: seq<(nat, set<string>)>)
    requires forall k :: 0 <= k < |rules| ==> LayersKnown(names, rules[k].setters)
    ensures |dicts| == |rules| && forall k :: 0 <= k < |rules| ==> dicts[k] == RuleIndex(names, rules[k])
    ensures forall c :: c in collisions ==> c.0 < |rules| && c.1 == Common(names, rules[c.0]) && c.1 != {}
    ensures forall k :: 0 <= k < |rules| && Common(names, rules[k]) != {} ==> (k, Common(names, rules[k])) in collisions
  {
    dicts := [];
    collisions := [];
    var idx := 0;
    while idx < |rules|
      invariant 0 <= idx <= |rules|
      invariant |dicts| == idx && forall k :: 0 <= k < idx ==> dicts[k] == RuleIndex(names, rules[k])
      invariant forall c :: c in collisions ==> c.0 < idx && c.1 == Common(names, rules[c.0]) && c.1 != {}
      invariant forall k :: 0 <= k < idx && Common(names, rules[k]) != {} ==> (k, Common(names, rules[k])) in collisions
    {
      var wdSetters, commNames := WbleDictionary(names, rules[idx]);
      if commNames != {} {
        collisions := collisions + [(idx, commNames)];
      }
      dicts := dicts + [wdSetters];
      idx := idx + 1;
    }
  }

  // ---------------------------------------------------------------------------
  // get_final_wd_dictionary (restriction_code.py:599-648)

  /** Keys of either map; a key in both gets the two values combined by `f`. */
  function Combine<K, V>(a: map<K, V>, b: map<K, V>, f: (V, V) -> V): map<K, V> {
    map k | k in a.Keys + b.Keys :: if k in a && k in b then f(a[k], b[k]) else if k in a then a[k] else b[k]
  }

  function Restrict<K, V>(b: map<K, V>, keys: set<K>): map<K, V> {
    map k | k in b && k in keys :: b[k]
  }

  /** One step of a merge loop: folding key `k` of `b` into the partial result `r`. */
  lemma CombineStep<K, V>(a: map<K, V>, b: map<K, V>, done: set<K>, k: K, f: (V, V) -> V, r: map<K, V>, v: V)
    requires r == Combine(a, Restrict(b, done), f)
    requires k in b && k !in done
    requires v == if k in r then f(r[k], b[k]) else b[k]
    ensures r[k := v] == Combine(a, Restrict(b, done + {k}), f)
  {
    assert Restrict(b, done + {k}).Keys == Restrict(b, done).Keys + {k};
  }

  lemma CombineNone<K, V>(a: map<K, V>, b: map<K, V>, f: (V, V) -> V)
    ensures Combine(a, Restrict(b, {}), f) == a
  {
  }

  /** Once every key of `b` is folded in, the partial result is the whole combination. */
  lemma CombineDone<K, V>(a: map<K, V>, b: map<K, V>, done: set<K>, f: (V, V) -> V)
    requires done == b.Keys
    ensures Combine(a, Restrict(b, done), f) == Combine(a, b, f)
  {
    assert Restrict(b, done) == b;
  }

  /** The fourth level: 'Restrict All' is or-ed and 'Restricted' is united. */
  function MergeEntry(x: Entry, y: Entry): Entry {
    Entry(x.restrictAll || y.restrictAll, x.restricted + y.restricted)
  }

  function MergeTargets(a: Targets, b: Targets): Targets {
    Combine(a, b, MergeEntry)
  }

  function MergeTraits(a: map<string, Targets>, b: map<string, Targets>): map<string, Targets> {
    Combine(a, b, MergeTargets)
  }

  function MergeIndex(a: Index, b: Index): Index {
    Combine(a, b, MergeTraits)
  }

  /** All the rules' dictionaries merged, in order. */
  function MergeAll(dicts: seq<Index>): Index {
    if dicts == [] then map[] else MergeIndex(MergeAll(dicts[..|dicts| - 1]), dicts[|dicts| - 1])
  }

  /** The innermost level of the merge loop: entries of the same restricted layer are combined. */
  method MergeTargetsInto(a: Targets, b: Targets) returns (r: Targets)
    ensures r == MergeTargets(a, b)
  {
    r := a;
    var todo := b.Keys;
    ghost var done: set<string> := {};
    CombineNone(a, b, MergeEntry);
    while todo != {}
      invariant todo <= b.Keys && done == b.Keys - todo
      invariant r == Combine(a, Restrict(b, done), MergeEntry)
      decreases |todo|
    {
      var name :| name in todo;
      var v: Entry;
      if name !in r {
        v := b[name];
      } else {
        v := Entry(r[name].restrictAll || b[name].restrictAll, r[name].restricted + b[name].restricted);
      }
      CombineStep(a, b, done, name, MergeEntry, r, v);
      r := r[name := v];
      done := done + {name};
      todo := todo - {name};
    }
    CombineDone(a, b, done, MergeEntry);
  }

  /** One pass of the middle-level loop: the targets of setter trait `t` of `b` folded into `r`. */
  method MergeTraitStep(a: map<string, Targets>, b: map<string, Targets>, ghost done: set<string>, t: string, r: map<string, Targets>)
    returns (r': map<string, Targets>)
    requires r == Combine(a, Restrict(b, done), MergeTargets)
    requires t in b && t !in done
    ensures r' == Combine(a, Restrict(b, done + {t}), MergeTargets)
  {
    var v: Targets;
    if t !in r {
      v := b[t];
    } else {
      v := MergeTargetsInto(r[t], b[t]);
    }
    CombineStep(a, b, done, t, MergeTargets, r, v);
    r' := r[t := v];
  }

  /** The middle level: target maps of the same setter trait are merged. */
  method MergeTraitsInto(a: map<string, Targets>, b: map<string, Targets>) returns (r: map<string, Targets>)
    ensures r == MergeTraits(a, b)
  {
    r := a;
    var todo := b.Keys;
    ghost var done: set<string> := {};
    CombineNone(a, b, MergeTargets);
    while todo != {}
      invariant todo <= b.Keys && done == b.Keys - todo
      invariant r == Combine(a, Restrict(b, done), MergeTargets)
      decreases |todo|
    {
      var t :| t in todo;
      r := MergeTraitStep(a, b, done, t, r);
      done := done + {t};
      todo := todo - {t};
    }
    CombineDone(a, b, done, MergeTargets);
  }

  /** One pass of the outer loop: the traits of setter layer `name` of `b` folded into `r`. */
  method MergeLayerStep(a: Index, b: Index, ghost done: set<string>, name: string, r: Index) returns (r': Index)
    requires r == Combine(a, Restrict(b, done), MergeTraits)
    requires name in b && name !in done
    ensures r' == Combine(a, Restrict(b, done + {name}), MergeTraits)
  {
    var v: map<string, Targets>;
    if name !in r {
      v := b[name];
    } else {
      v := MergeTraitsInto(r[name], b[name]);
    }
    CombineStep(a, b, done, name, MergeTraits, r, v);
    r' := r[name := v];
  }

  /** The outer level: trait maps of the same setter layer are merged. */
  method MergeIndexInto(a: Index, b: Index) returns (r: Index)
    ensures r == MergeIndex(a, b)
  {
    r := a;
    var todo := b.Keys;
    ghost var done: set<string> := {};
    CombineNone(a, b, MergeTraits);
    while todo != {}
      invariant todo <= b.Keys && done == b.Keys - todo
      invariant r == Combine(a, Restrict(b, done), MergeTraits)
      decreases |todo|
    {
      var name :| name in todo;
      r := MergeLayerStep(a, b, done, name, r);
      done := done + {name};
      todo := todo - {name};
    }
    CombineDone(a, b, done, MergeTraits);
  }

  /** get_final_wd_dictionary: the per-rule dictionaries merged into one index. */
  method GetFinalWdDictionary(dicts: seq<Index>) returns (wd: Index)
    ensures wd == MergeAll(dicts)
  {
    wd := map[];
    var i := 0;
    while i < |dicts|
      invariant 0 <= i <= |dicts|
      invariant wd == MergeAll(dicts[..i])
    {
      assert dicts[..i + 1][..i] == dicts[..i];
      wd := MergeIndexInto(wd, dicts[i]);
      i := i + 1;
    }
    assert dicts[..|dicts|] == dicts;
  }

  // ---------------------------------------------------------------------------
  // What the merged index means

  predicate HasPath(idx: Index, l: string, t: string) {
    l in idx && t in idx[l]
  }

  predicate HasTarget(idx: Index, l: string, t: string, m: string) {
    HasPath(idx, l, t) && m in idx[l][t]
  }

  /** The merge of two dictionaries: paths of either; at a common path 'Restrict All' is the or and
      'Restricted' the union. */
  lemma MergeIndexMeaning(a: Index, b: Index, l: string, t: string, m: string, u: string)
    ensures HasPath(MergeIndex(a, b), l, t) <==> HasPath(a, l, t) || HasPath(b, l, t)
    ensures HasTarget(MergeIndex(a, b), l, t, m) <==> HasTarget(a, l, t, m) || HasTarget(b, l, t, m)
    ensures HasTarget(MergeIndex(a, b), l, t, m) ==>
      (MergeIndex(a, b)[l][t][m].restrictAll <==>
        (HasTarget(a, l, t, m) && a[l][t][m].restrictAll) || (HasTarget(b, l, t, m) && b[l][t][m].restrictAll)) &&
      (u in MergeIndex(a, b)[l][t][m].restricted <==>
        (HasTarget(a, l, t, m) && u in a[l][t][m].restricted) || (HasTarget(b, l, t, m) && u in b[l][t][m].restricted))
  {
  }

  /** Every setter pair of every rule is a path of the merged index, and nothing else is. */
  lemma {:induction false} MergeAllPaths(dicts: seq<Index>, l: string, t: string)
    ensures HasPath(MergeAll(dicts), l, t) <==> exists k :: 0 <= k < |dicts| && HasPath(dicts[k], l, t)
  {
    if dicts != [] {
      var front, last := dicts[..|dicts| - 1], dicts[|dicts| - 1];
      MergeAllPaths(front, l, t);
      MergeIndexMeaning(MergeAll(front), last, l, t, "", "");
      if HasPath(MergeAll(front), l, t) {
        var k :| 0 <= k < |front| && HasPath(front[k], l, t);
        assert dicts[k] == front[k];
      }
      if exists k :: 0 <= k < |dicts| && HasPath(dicts[k], l, t) {
        var k :| 0 <= k < |dicts| && HasPath(dicts[k], l, t);
        if k < |front| {
          assert dicts[k] == front[k];
        }
      }
    }
  }

  /** A restricted layer appears under a path iff some rule restricts it there. */
  lemma {:induction false} MergeAllTargets(dicts: seq<Index>, l: string, t: string, m: string)
    ensures HasTarget(MergeAll(dicts), l, t, m) <==> exists k :: 0 <= k < |dicts| && HasTarget(dicts[k], l, t, m)
  {
    if dicts != [] {
      var front, last := dicts[..|dicts| - 1], dicts[|dicts| - 1];
      MergeAllTargets(front, l, t, m);
      MergeIndexMeaning(MergeAll(front), last, l, t, m, "");
      if HasTarget(MergeAll(front), l, t, m) {
        var k :| 0 <= k < |front| && HasTarget(front[k], l, t, m);
        assert dicts[k] == front[k];
      }
      if exists k :: 0 <= k < |dicts| && HasTarget(dicts[k], l, t, m) {
        var k :| 0 <= k < |dicts| && HasTarget(dicts[k], l, t, m);
        if k < |front| {
          assert dicts[k] == front[k];
        }
      }
    }
  }

  predicate RestrictsAll(idx: Index, l: string, t: string, m: string) {
    HasTarget(idx, l, t, m) && idx[l][t][m].restrictAll
  }

  predicate RestrictsTrait(idx: Index, l: string, t: string, m: string, u: string) {
    HasTarget(idx, l, t, m) && u in idx[l][t][m].restricted
  }

  /** 'Restrict All' in the merged index is the or over the rules. */
  lemma {:induction false} MergeAllRestrictAll(dicts: seq<Index>, l: string, t: string, m: string)
    ensures RestrictsAll(MergeAll(dicts), l, t, m) <==> exists k :: 0 <= k < |dicts| && RestrictsAll(dicts[k], l, t, m)
  {
    if dicts != [] {
      var front, last := dicts[..|dicts| - 1], dicts[|dicts| - 1];
      MergeAllRestrictAll(front, l, t, m);
      MergeIndexMeaning(MergeAll(front), last, l, t, m, "");
      if RestrictsAll(MergeAll(front), l, t, m) {
        var k :| 0 <= k < |front| && RestrictsAll(front[k], l, t, m);
        assert dicts[k] == front[k];
      }
      if exists k :: 0 <= k < |dicts| && RestrictsAll(dicts[k], l, t, m) {
        var k :| 0 <= k < |dicts| && RestrictsAll(dicts[k], l, t, m);
        if k < |front| {
          assert dicts[k] == front[k];
        }
      }
    }
  }

  /** 'Restricted' in the merged index is the union over the rules. */
  lemma {:induction false} MergeAllRestricted(dicts: seq<Index>, l: string, t: string, m: string, u: string)
    ensures RestrictsTrait(MergeAll(dicts), l, t, m, u) <==> exists k :: 0 <= k < |dicts| && RestrictsTrait(dicts[k], l, t, m, u)
  {
    if dicts != [] {
      var front, last := dicts[..|dicts| - 1], dicts[|dicts| - 1];
      MergeAllRestricted(front, l, t, m, u);
      MergeIndexMeaning(MergeAll(front), last, l, t, m, u);
      if RestrictsTrait(MergeAll(front), l, t, m, u) {
        var k :| 0 <= k < |front| && RestrictsTrait(front[k], l, t, m, u);
        assert dicts[k] == front[k];
      }
      if exists k :: 0 <= k < |dicts| && RestrictsTrait(dicts[k], l, t, m, u) {
        var k :| 0 <= k < |dicts| && RestrictsTrait(dicts[k], l, t, m, u);
        if k < |front| {
          assert dicts[k] == front[k];
        }
      }
    }
  }

  /** One rule's dictionary restricts the whole of `m` (or the trait `u` of `m`) under the path
      (l, t) exactly when (l, t) is a setter pair and (m, True) (or (m, u)) a getter pair. */
  lemma RuleIndexMeaning(names: Names, rule: Rule, l: string, t: string, m: string, u: string)
    requires LayersKnown(names, rule.setters)
    ensures HasTarget(RuleIndex(names, rule), l, t, m) <==>
      (l, t) in SetterPairs(names, rule.setters) && exists r :: (m, r) in GetterPairs(rule.getters)
    ensures RestrictsAll(RuleIndex(names, rule), l, t, m) <==>
      (l, t) in SetterPairs(names, rule.setters) && (m, AllTraits) in GetterPairs(rule.getters)
    ensures RestrictsTrait(RuleIndex(names, rule), l, t, m, u) <==>
      (l, t) in SetterPairs(names, rule.setters) && (m, Trait(u)) in GetterPairs(rule.getters)
  {
    var getters := GetterPairs(rule.getters);
    SetterIndexMeaning(SetterPairs(names, rule.setters), GetterMap(getters), l, t);
    GetterMapMeaning(getters, m, u);
  }

  /** is_image_invalid's test for one pair of columns: the trait `t` of layer `l` forbids the
      value `u` of another layer `m`. */
  predicate Forbids(idx: Index, l: string, t: string, m: string, u: string) {
    l != m && ((RestrictsAll(idx, l, t, m) && u != Absence) || RestrictsTrait(idx, l, t, m, u))
  }

  /** Whether one checked rule forbids `u` of `m` alongside `t` of `l`. */
  predicate RuleForbids(names: Names, rule: Rule, l: string, t: string, m: string, u: string)
    requires LayersKnown(names, rule.setters)
  {
    (l, t) in SetterPairs(names, rule.setters) &&
    (((m, AllTraits) in GetterPairs(rule.getters) && u != Absence) || (m, Trait(u)) in GetterPairs(rule.getters))
  }

  function Compile(names: Names, rules: seq<Rule>): Index
    requires forall k :: 0 <= k < |rules| ==> LayersKnown(names, rules[k].setters)
  {
    MergeAll(seq(|rules|, k requires 0 <= k < |rules| => RuleIndex(names, rules[k])))
  }

  /** The compiled index forbids a combination of two different layers exactly when some rule
      has the first as a setter pair and restricts the second, by name or as a whole layer
      (a whole-layer restriction never covers absence). */
  lemma CompileMeaning(names: Names, rules: seq<Rule>, l: string, t: string, m: string, u: string)
    requires forall k :: 0 <= k < |rules| ==> LayersKnown(names, rules[k].setters)
    ensures Forbids(Compile(names, rules), l, t, m, u) <==>
      l != m && exists k :: 0 <= k < |rules| && RuleForbids(names, rules[k], l, t, m, u)
  {
    var dicts: seq<Index> := seq(|rules|, k requires 0 <= k < |rules| => RuleIndex(names, rules[k]));
    MergeAllRestrictAll(dicts, l, t, m);
    MergeAllRestricted(dicts, l, t, m, u);
    forall k | 0 <= k < |rules|
      ensures RestrictsAll(dicts[k], l, t, m) <==>
        (l, t) in SetterPairs(names, rules[k].setters) && (m, AllTraits) in GetterPairs(rules[k].getters)
      ensures RestrictsTrait(dicts[k], l, t, m, u) <==>
        (l, t) in SetterPairs(names, rules[k].setters) && (m, Trait(u)) in GetterPairs(rules[k].getters)
    {
      RuleIndexMeaning(names, rules[k], l, t, m, u);
    }
  }

  lemma RulesKnown(names: Names, rules: seq<Rule>)
    requires forall k :: 0 <= k < |rules| ==> RuleWithin(names, rules[k])
    ensures forall k :: 0 <= k < |rules| ==> LayersKnown(names, rules[k].setters)
  {
    forall k | 0 <= k < |rules| ensures LayersKnown(names, rules[k].setters) {
      PairsWithin(names, rules[k], "", "", AllTraits);
    }
  }

  /** Compiled from checked rules, the index's setter paths are layers of the collection and
      values those layers have. */
  lemma CompilePathsWithin(names: Names, rules: seq<Rule>, l: string, t: string)
    requires forall k :: 0 <= k < |rules| ==> RuleWithin(names, rules[k])
    ensures forall k :: 0 <= k < |rules| ==> LayersKnown(names, rules[k].setters)
    ensures HasPath(Compile(names, rules), l, t) ==> l in names && t in Values(names[l])
  {
    RulesKnown(names, rules);
    var dicts: seq<Index> := seq(|rules|, k requires 0 <= k < |rules| => RuleIndex(names, rules[k]));
    MergeAllPaths(dicts, l, t);
    if HasPath(Compile(names, rules), l, t) {
      var k :| 0 <= k < |dicts| && HasPath(dicts[k], l, t);
      assert dicts[k] == RuleIndex(names, rules[k]);
      SetterIndexMeaning(SetterPairs(names, rules[k].setters), GetterMap(GetterPairs(rules[k].getters)), l, t);
      PairsWithin(names, rules[k], l, t, AllTraits);
    }
  }

  /** ... the layers it restricts are layers of the collection ... */
  lemma CompileTargetsWithin(names: Names, rules: seq<Rule>, l: string, t: string, m: string)
    requires forall k :: 0 <= k < |rules| ==> RuleWithin(names, rules[k])
    ensures forall k :: 0 <= k < |rules| ==> LayersKnown(names, rules[k].setters)
    ensures HasTarget(Compile(names, rules), l, t, m) ==> m in names
  {
    RulesKnown(names, rules);
    var dicts: seq<Index> := seq(|rules|, k requires 0 <= k < |rules| => RuleIndex(names, rules[k]));
    MergeAllTargets(dicts, l, t, m);
    if HasTarget(Compile(names, rules), l, t, m) {
      var k :| 0 <= k < |dicts| && HasTarget(dicts[k], l, t, m);
      assert dicts[k] == RuleIndex(names, rules[k]);
      RuleIndexMeaning(names, rules[k], l, t, m, "");
      var r :| (m, r) in GetterPairs(rules[k].getters);
      PairsWithin(names, rules[k], m, t, r);
    }
  }

  /** ... and the traits it restricts by name are values those layers have. */
  lemma CompileRestrictedWithin(names: Names, rules: seq<Rule>, l: string, t: string, m: string, u: string)
    requires forall k :: 0 <= k < |rules| ==> RuleWithin(names, rules[k])
    ensures forall k :: 0 <= k < |rules| ==> LayersKnown(names, rules[k].setters)
    ensures RestrictsTrait(Compile(names, rules), l, t, m, u) ==> m in names && u in Values(names[m])
  {
    RulesKnown(names, rules);
    var dicts: seq<Index> := seq(|rules|, k requires 0 <= k < |rules| => RuleIndex(names, rules[k]));
    MergeAllRestricted(dicts, l, t, m, u);
    if RestrictsTrait(Compile(names, rules), l, t, m, u) {
      var k :| 0 <= k < |dicts| && RestrictsTrait(dicts[k], l, t, m, u);
      assert dicts[k] == RuleIndex(names, rules[k]);
      RuleIndexMeaning(names, rules[k], l, t, m, u);
      assert (m, Trait(u)) in GetterPairs(rules[k].getters);
      PairsWithin(names, rules[k], m, t, Trait(u));
    }
  }

  /** Adding a rule never allows a combination that was forbidden before. */
  lemma CompileMonotone(names: Names, rules: seq<Rule>, rule: Rule, l: string, t: string, m: string, u: string)
    requires forall k :: 0 <= k < |rules| ==> LayersKnown(names, rules[k].setters)
    requires LayersKnown(names, rule.setters)
    requires Forbids(Compile(names, rules), l, t, m, u)
    ensures Forbids(Compile(names, rules + [rule]), l, t, m, u)
  {
    var more := rules + [rule];
    CompileMeaning(names, rules, l, t, m, u);
    CompileMeaning(names, more, l, t, m, u);
    var k :| 0 <= k < |rules| && RuleForbids(names, rules[k], l, t, m, u);
    assert more[k] == rules[k];
  }
}
