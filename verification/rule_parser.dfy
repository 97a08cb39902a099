/** Validation of the restriction list and the rewriting of its selectors into explicit trait
    references (restriction_code.py:84-117, 159-391, 797-821). The layer map `names` plays the
    part of the module-level NAMES; the restriction list is a loosely typed Python value. */
module RuleParser {
  import opened Wrappers
  import opened Text
  import opened PyValues
  import opened Traits
  import opened Outcomes

  /** NAMES: every layer's record, by layer name. */
  type Names = map<string, LayerNames>

  /** The exceptions other than ValueError that escape the parser unwrapped. */
  datatype Fault = TypeErr | AttributeErr

  /** Why the parser raises a ValueError. */
  datatype Reason =
    | NotListOrDict
    | EmptySide
    | UnknownLayers(layers: seq<string>)
    | BareString(s: string)
    | NotAPair(size: nat)
    | SelectorSize(size: nat)
    | AllNotBool
    | SelectorKey
    | NotASequence
    | MissingTraits(layer: string, traits: seq<string>)
    | AbsenceInRequired(layer: string)
    | TraitNotFound(styled: string)

  datatype Failure = Invalid(reason: Reason) | Crash(fault: Fault)

  /** A side's reference to a layer's traits once it has been checked and rewritten:
      `{'all': True}`, one trait (list sides only), a list of traits, or what `{'A': ...}` leaves. */
  datatype Selector = Every | Single(value: string) | Listed(traits: seq<string>) | Unordered(members: set<string>)

  /** A checked side of a rule: (layer, selector) entries. */
  type Side = seq<(string, Selector)>

  /** A checked rule: its restriction setters (left) and restriction getters (right). */
  datatype Rule = Rule(setters: Side, getters: Side)

  datatype Position = Left | Right

  /** What parse_restrictions raises. ValueErrors name the rule and the side they come from. */
  datatype ConfigError =
    | NotAListOrTuple
    | RuleNotAList(index: nat)
    | RuleWrongLength(index: nat, length: nat)
    | InRule(index: nat, side: Position, reason: Reason)
    | Uncaught(fault: Fault)

  // ---------------------------------------------------------------------------
  // fix_trait_name (restriction_code.py:84-117)

  /** None, or a string that lower-cases to "none". */
  predicate IsAbsence(v: PyValue) {
    v.PyNone? || (v.PyStr? && Lower(v.s) == Absence)
  }

  /** A rule's reference to one trait of `layer`, resolved to the layer's own spelling. */
  function FixTraitName(names: Names, layer: string, v: PyValue): (r: Result<string, Failure>)
    requires layer in names
    ensures r.Ok? ==> r.value in Values(names[layer])
    ensures r.Err? ==> r.error.Crash? || r.error.reason.AbsenceInRequired? || r.error.reason.TraitNotFound?
  {
    if IsAbsence(v) then
      if names[layer].required then Err(Invalid(AbsenceInRequired(layer))) else Ok(Absence)
    else if !v.PyStr? then
      Err(Crash(AttributeErr))
    else
      var t := TitleStyle(v.s);
      if t in names[layer].traits then Ok(t) else Err(Invalid(TraitNotFound(t)))
  }

  /** Absence (None or any spelling of 'none') is accepted as 'none' exactly in an optional layer;
      a real trait is accepted exactly when its re-styled name is one of the layer's traits, and is
      then that name; a string that is not found fails naming its re-styled form; anything else
      fails on `.lower()`. */
  lemma FixTraitNameMeaning(names: Names, layer: string, v: PyValue)
    requires layer in names && WellFormed(names[layer])
    ensures FixTraitName(names, layer, v) == Ok(Absence) <==> IsAbsence(v) && !names[layer].required
    ensures FixTraitName(names, layer, v) == Err(Invalid(AbsenceInRequired(layer))) <==> IsAbsence(v) && names[layer].required
    ensures FixTraitName(names, layer, v) == Err(Crash(AttributeErr)) <==> !IsAbsence(v) && !v.PyStr?
    ensures v.PyStr? && !IsAbsence(v) ==>
      var r := FixTraitName(names, layer, v);
      (r.Ok? <==> TitleStyle(v.s) in names[layer].traits) &&
      (r.Ok? ==> r.value == TitleStyle(v.s) && r.value != Absence) &&
      (r.Err? ==> r.error == Invalid(TraitNotFound(TitleStyle(v.s))))
  {
    if !IsAbsence(v) && v.PyStr? && TitleStyle(v.s) in names[layer].traits {
      assert Lower(TitleStyle(v.s)) != Absence;
      assert Lower(Absence) == Absence;
    }
  }

  /** A resolved name resolves to itself, so rewriting an already rewritten rule changes nothing. */
  lemma FixTraitNameResolved(names: Names, layer: string, v: PyValue)
    requires layer in names && WellFormed(names[layer])
    requires FixTraitName(names, layer, v).Ok?
    ensures FixTraitName(names, layer, PyStr(FixTraitName(names, layer, v).value)) == FixTraitName(names, layer, v)
  {
    var t := FixTraitName(names, layer, v).value;
    if IsAbsence(v) {
      assert t == Absence && Lower(Absence) == Absence;
    } else {
      assert v.PyStr? && t == TitleStyle(v.s) && t in names[layer].traits;
      TitleStyleIdempotent(v.s);
      assert !IsAbsence(PyStr(t));
    }
  }

  // ---------------------------------------------------------------------------
  // check_traits_sequence (restriction_code.py:159-206)

  /** The type test at restriction_code.py:162 as written: the third alternative compares a fresh
      list with the type `set` by identity and is never true, and building that list raises
      TypeError when the value is not iterable. */
  function SequenceCheckAsWritten(v: PyValue): (r: Result<seq<PyValue>, Failure>)
    ensures r.Ok? <==> v.PyList? || v.PyTuple?
    ensures r.Ok? ==> Iterate(v) == Some(r.value)
    ensures r == Err(Crash(TypeErr)) <==> Iterate(v).None?
    ensures r.Err? && Iterate(v).Some? ==> r.error == Invalid(NotASequence)
  {
    if v.PyList? || v.PyTuple? then Ok(v.items)
    else if Iterate(v).Some? then Err(Invalid(NotASequence))
    else Err(Crash(TypeErr))
  }

  /** The type test as its error message states it: a list, a tuple or a set. */
  function SequenceCheck(v: PyValue): (r: Result<seq<PyValue>, Failure>)
    ensures r.Ok? <==> v.PyList? || v.PyTuple? || v.PySet?
    ensures r.Ok? ==> Iterate(v) == Some(r.value)
    ensures r.Err? ==> r.error == Invalid(NotASequence)
  {
    if v.PyList? || v.PyTuple? || v.PySet? then Ok(v.items) else Err(Invalid(NotASequence))
  }

  /** A set of trait names is refused as written, although the message asks for one. */
  lemma SetRejectedAsWritten()
    ensures SequenceCheckAsWritten(PySet([PyStr("Blue")])) == Err(Invalid(NotASequence))
    ensures SequenceCheck(PySet([PyStr("Blue")])) == Ok([PyStr("Blue")])
  {
  }

  /** The two tests agree on lists, tuples and every other iterable except sets. */
  lemma SequenceChecksAgree(v: PyValue)
    requires !v.PySet? && Iterate(v).Some?
    ensures SequenceCheckAsWritten(v) == SequenceCheck(v)
  {
  }

  /** One element of check_traits_sequence's loop: resolved, collected as missing, or raised. */
  function TraitOutcome(names: Names, layer: string, v: PyValue): Outcome<string, string, Failure>
    requires layer in names
  {
    match FixTraitName(names, layer, v)
    case Ok(t) => Keep(t)
    case Err(Invalid(TraitNotFound(t))) => Collect(t)
    case Err(f) => Fail(f)
  }

  function TraitOutcomes(names: Names, layer: string, items: seq<PyValue>): seq<Outcome<string, string, Failure>>
    requires layer in names
  {
    seq(|items|, k requires 0 <= k < |items| => TraitOutcome(names, layer, items[k]))
  }

  /** check_traits_sequence: every trait resolved in input order, or every missing one named. */
  function TraitsSequence(names: Names, layer: string, v: PyValue): Result<seq<string>, Failure>
    requires layer in names
  {
    match SequenceCheckAsWritten(v)
    case Err(f) => Err(f)
    case Ok(items) =>
      match ScanForward(TraitOutcomes(names, layer, items), 0, [], [])
      case Err(f) => Err(f)
      case Ok((found, missing)) =>
        if missing != [] then Err(Invalid(MissingTraits(layer, missing))) else Ok(found)
  }

  method CheckTraitsSequence(names: Names, layer: string, v: PyValue) returns (r: Result<seq<string>, Failure>)
    requires layer in names
    ensures r == TraitsSequence(names, layer, v)
  {
    var items: seq<PyValue>;
    match SequenceCheckAsWritten(v) {
      case Err(f) => return Err(f);
      case Ok(xs) => items := xs;
    }
    assert items == v.items && (v.PyList? || v.PyTuple?);
    ghost var os := TraitOutcomes(names, layer, items);
    var newTraits: seq<string> := [];
    var noTraits: seq<string> := [];
    var i := 0;
    while i < |items|
      invariant 0 <= i <= |items|
      invariant ScanForward(os, i, newTraits, noTraits) == ScanForward(os, 0, [], [])
    {
      assert os[i] == TraitOutcome(names, layer, items[i]);
      match FixTraitName(names, layer, items[i]) {
        case Ok(t) =>
          newTraits := newTraits + [t];
        case Err(Invalid(TraitNotFound(t))) =>
          noTraits := noTraits + [t];
        case Err(f) =>
          TraitsSequenceFromFail(names, layer, v, f);
          return Err(f);
      }
      i := i + 1;
    }
    TraitsSequenceFromScan(names, layer, v, newTraits, noTraits);
    if noTraits != [] {
      return Err(Invalid(MissingTraits(layer, noTraits)));
    }
    return Ok(newTraits);
  }

  lemma TraitsSequenceFromScan(names: Names, layer: string, v: PyValue, found: seq<string>, missing: seq<string>)
    requires layer in names && (v.PyList? || v.PyTuple?)
    requires ScanForward(TraitOutcomes(names, layer, v.items), 0, [], []) == Ok((found, missing))
    ensures TraitsSequence(names, layer, v) ==
      if missing != [] then Err(Invalid(MissingTraits(layer, missing))) else Ok(found)
  {
  }

  lemma TraitsSequenceFromFail(names: Names, layer: string, v: PyValue, f: Failure)
    requires layer in names && (v.PyList? || v.PyTuple?)
    requires ScanForward(TraitOutcomes(names, layer, v.items), 0, [], []) == Err(f)
    ensures TraitsSequence(names, layer, v) == Err(f)
  {
  }

  predicate NotFound(r: Result<string, Failure>) {
    r.Err? && r.error.Invalid? && r.error.reason.TraitNotFound?
  }

  lemma TraitOutcomeFacts(names: Names, layer: string, x: PyValue)
    requires layer in names
    ensures TraitOutcome(names, layer, x).Keep? <==> FixTraitName(names, layer, x).Ok?
    ensures TraitOutcome(names, layer, x).Keep? ==> FixTraitName(names, layer, x) == Ok(TraitOutcome(names, layer, x).value)
    ensures !TraitOutcome(names, layer, x).Fail? <==> FixTraitName(names, layer, x).Ok? || NotFound(FixTraitName(names, layer, x))
    ensures forall m :: TraitOutcome(names, layer, x) == Collect(m) <==> FixTraitName(names, layer, x) == Err(Invalid(TraitNotFound(m)))
    ensures TraitOutcome(names, layer, x).Fail? ==> FixTraitName(names, layer, x) == Err(TraitOutcome(names, layer, x).failure)
  {
  }

  /** check_traits_sequence succeeds iff it is given a list or a tuple whose every element
      resolves, and then returns the resolved names in input order. Any other iterable, a set
      included, is refused with the ValueError of line 163; a value that is not iterable makes
      `list(traits)` raise TypeError. */
  lemma TraitsSequenceOk(names: Names, layer: string, v: PyValue)
    requires layer in names
    ensures TraitsSequence(names, layer, v).Ok? <==>
      (v.PyList? || v.PyTuple?) && forall k :: 0 <= k < |v.items| ==> FixTraitName(names, layer, v.items[k]).Ok?
    ensures !(v.PyList? || v.PyTuple?) ==>
      TraitsSequence(names, layer, v) == if Iterate(v).Some? then Err(Invalid(NotASequence)) else Err(Crash(TypeErr))
    ensures TraitsSequence(names, layer, v).Ok? ==>
      var ts := TraitsSequence(names, layer, v).value;
      |ts| == |v.items| && forall k :: 0 <= k < |ts| ==> FixTraitName(names, layer, v.items[k]) == Ok(ts[k])
  {
    if v.PyList? || v.PyTuple? {
      var items := v.items;
      var os := TraitOutcomes(names, layer, items);
      ScanForwardMeaning(os, 0, [], []);
      assert os[0..] == os;
      KeptMembers(os);
      forall k | 0 <= k < |items| ensures os[k] == TraitOutcome(names, layer, items[k]) {
      }
      forall k | 0 <= k < |items| {
        TraitOutcomeFacts(names, layer, items[k]);
      }
      if forall k :: 0 <= k < |items| ==> os[k].Keep? {
        AllKept(os);
      }
    }
  }

  /** Missing traits are reported only when every element either resolves or is missing, and the
      report names exactly the missing ones, re-styled. */
  lemma TraitsSequenceMissing(names: Names, layer: string, v: PyValue, l: string, ms: seq<string>)
    requires layer in names
    requires TraitsSequence(names, layer, v) == Err(Invalid(MissingTraits(l, ms)))
    ensures l == layer && ms != []
    ensures forall k :: 0 <= k < |v.items| ==> FixTraitName(names, layer, v.items[k]).Ok? || NotFound(FixTraitName(names, layer, v.items[k]))
    ensures forall m :: m in ms <==> exists k :: 0 <= k < |v.items| && FixTraitName(names, layer, v.items[k]) == Err(Invalid(TraitNotFound(m)))
  {
    var items := v.items;
    assert SequenceCheckAsWritten(v) == Ok(items);
    var os := TraitOutcomes(names, layer, items);
    ScanForwardMeaning(os, 0, [], []);
    assert os[0..] == os;
    if FirstFail(os).Some? {
      FirstFailWitness(os);
      var k :| 0 <= k < |os| && os[k] == Fail(FirstFail(os).value) && forall j :: 0 <= j < k ==> !os[j].Fail?;
      TraitOutcomeFacts(names, layer, items[k]);
      assert false;
    }
    assert ms == Collected(os);
    KeptMembers(os);
    forall k | 0 <= k < |items|
      ensures FixTraitName(names, layer, items[k]).Ok? || NotFound(FixTraitName(names, layer, items[k]))
      ensures forall m :: os[k] == Collect(m) <==> FixTraitName(names, layer, items[k]) == Err(Invalid(TraitNotFound(m)))
    {
      assert os[k] == TraitOutcome(names, layer, items[k]);
      TraitOutcomeFacts(names, layer, items[k]);
    }
  }

  /** Any other error of check_traits_sequence is raised by the first element that raises one. */
  lemma TraitsSequenceFirstError(names: Names, layer: string, v: PyValue)
    requires layer in names && (v.PyList? || v.PyTuple?)
    requires TraitsSequence(names, layer, v).Err? && !(TraitsSequence(names, layer, v).error.Invalid? && TraitsSequence(names, layer, v).error.reason.MissingTraits?)
    ensures exists k :: 0 <= k < |v.items| && FixTraitName(names, layer, v.items[k]) == Err(TraitsSequence(names, layer, v).error) &&
                        forall j :: 0 <= j < k ==> FixTraitName(names, layer, v.items[j]).Ok? || NotFound(FixTraitName(names, layer, v.items[j]))
  {
    var items := v.items;
    var os := TraitOutcomes(names, layer, items);
    ScanForwardMeaning(os, 0, [], []);
    assert os[0..] == os;
    FirstFailWitness(os);
    var k :| 0 <= k < |os| && os[k] == Fail(FirstFail(os).value) && forall j :: 0 <= j < k ==> !os[j].Fail?;
    TraitOutcomeFacts(names, layer, items[k]);
    forall j | 0 <= j < k ensures FixTraitName(names, layer, items[j]).Ok? || NotFound(FixTraitName(names, layer, items[j])) {
      assert os[j] == TraitOutcome(names, layer, items[j]);
      TraitOutcomeFacts(names, layer, items[j]);
    }
  }

  // ---------------------------------------------------------------------------
  // get_traits_from_one_item_dict (restriction_code.py:210-262)

  /** The strings a `{'R': s}` or `{'A': s}` selector names: `s` cut at commas, each piece stripped. */
  function CommaItems(s: string): seq<PyValue> {
    var pieces := Split(s, ',');
    seq(|pieces|, k requires 0 <= k < |pieces| => PyStr(Strip(pieces[k])))
  }

  /** A one-item selector dictionary of `layer`, rewritten: Some(selector), or None for `{'all': False}`. */
  function OneItemSelector(names: Names, layer: string, d: seq<(string, PyValue)>): Result<Option<Selector>, Failure>
    requires layer in names
  {
    if |d| != 1 then Err(Invalid(SelectorSize(|d|)))
    else
      var key, value := d[0].0, d[0].1;
      if key == "all" then
        if !value.PyBool? then Err(Invalid(AllNotBool))
        else if value.b then Ok(Some(Every))
        else Ok(None)
      else if key != "R" && key != "A" then Err(Invalid(SelectorKey))
      else if !value.PyStr? then Err(Crash(AttributeErr))
      else
        match TraitsSequence(names, layer, PyList(CommaItems(value.s)))
        case Err(f) => Err(f)
        case Ok(ts) =>
          if key == "R" then Ok(Some(Listed(ts)))
          else Ok(Some(Unordered(names[layer].traits - set t | t in ts)))
  }

  /** Only a one-entry dictionary keyed 'all', 'R' or 'A' is accepted, and 'all' takes a bool:
      True gives the `{'all': True}` marker, False gives nothing. */
  lemma OneItemSelectorShape(names: Names, layer: string, d: seq<(string, PyValue)>)
    requires layer in names
    ensures OneItemSelector(names, layer, d).Ok? ==> |d| == 1 && d[0].0 in {"all", "R", "A"}
    ensures |d| == 1 && d[0].0 == "all" ==>
      (OneItemSelector(names, layer, d) == Ok(Some(Every)) <==> d[0].1 == PyBool(true)) &&
      (OneItemSelector(names, layer, d) == Ok(None) <==> d[0].1 == PyBool(false)) &&
      (OneItemSelector(names, layer, d).Err? <==> !d[0].1.PyBool?)
  {
  }

  /** `{'R': s}` gives exactly the traits listed in `s`, resolved, in order. */
  lemma OneItemSelectorRestricted(names: Names, layer: string, d: seq<(string, PyValue)>, ts: seq<string>)
    requires layer in names
    requires OneItemSelector(names, layer, d) == Ok(Some(Listed(ts)))
    ensures d[0].0 == "R" && d[0].1.PyStr?
    ensures var items := CommaItems(d[0].1.s);
      |ts| == |items| && forall k :: 0 <= k < |ts| ==> FixTraitName(names, layer, items[k]) == Ok(ts[k])
  {
    TraitsSequenceOk(names, layer, PyList(CommaItems(d[0].1.s)));
  }

  /** `{'A': s}` gives the layer's real traits that `s` does not list, so never "none". */
  lemma OneItemSelectorAllowed(names: Names, layer: string, d: seq<(string, PyValue)>, s: set<string>)
    requires layer in names
    requires OneItemSelector(names, layer, d) == Ok(Some(Unordered(s)))
    ensures d[0].0 == "A" && d[0].1.PyStr?
    ensures var items := CommaItems(d[0].1.s);
      (forall k :: 0 <= k < |items| ==> FixTraitName(names, layer, items[k]).Ok?) &&
      forall t :: t in s <==> t in names[layer].traits && forall k :: 0 <= k < |items| ==> FixTraitName(names, layer, items[k]) != Ok(t)
    ensures WellFormed(names[layer]) ==> Absence !in s
  {
    UnorderedShape(names, layer, d, s);
    AllowedTraits(names, layer, CommaItems(d[0].1.s), s);
  }

  lemma UnorderedShape(names: Names, layer: string, d: seq<(string, PyValue)>, s: set<string>)
    requires layer in names
    requires OneItemSelector(names, layer, d) == Ok(Some(Unordered(s)))
    ensures |d| == 1 && d[0].0 == "A" && d[0].1.PyStr?
    ensures TraitsSequence(names, layer, PyList(CommaItems(d[0].1.s))).Ok?
    ensures s == names[layer].traits - set t | t in TraitsSequence(names, layer, PyList(CommaItems(d[0].1.s))).value
  {
  }

  lemma AllowedTraits(names: Names, layer: string, items: seq<PyValue>, s: set<string>)
    requires layer in names && TraitsSequence(names, layer, PyList(items)).Ok?
    requires s == names[layer].traits - set t | t in TraitsSequence(names, layer, PyList(items)).value
    ensures (forall k :: 0 <= k < |items| ==> FixTraitName(names, layer, items[k]).Ok?) &&
      forall t :: t in s <==> t in names[layer].traits && forall k :: 0 <= k < |items| ==> FixTraitName(names, layer, items[k]) != Ok(t)
    ensures WellFormed(names[layer]) ==> Absence !in s
  {
    TraitsSequenceOk(names, layer, PyList(items));
    var ts := TraitsSequence(names, layer, PyList(items)).value;
    ListedTraits(names, layer, items, ts, s);
  }

  lemma ListedTraits(names: Names, layer: string, items: seq<PyValue>, ts: seq<string>, s: set<string>)
    requires layer in names
    requires |ts| == |items| && forall k :: 0 <= k < |ts| ==> FixTraitName(names, layer, items[k]) == Ok(ts[k])
    requires s == names[layer].traits - set t | t in ts
    ensures forall t :: t in s <==> t in names[layer].traits && forall k :: 0 <= k < |items| ==> FixTraitName(names, layer, items[k]) != Ok(t)
    ensures WellFormed(names[layer]) ==> Absence !in s
  {
    forall t ensures t in ts <==> exists k :: 0 <= k < |items| && FixTraitName(names, layer, items[k]) == Ok(t) {
      if t in ts {
        var k :| 0 <= k < |ts| && ts[k] == t;
      }
    }
  }

  // ---------------------------------------------------------------------------
  // check_subrestrictions_dict (restriction_code.py:266-307)

  /** One entry of a dictionary side: rewritten, dropped (`{'all': False}`), collected as an
      unknown layer, or raised. */
  function DictEntryOutcome(names: Names, entry: (string, PyValue)): Outcome<(string, Selector), string, Failure> {
    var name, value := entry.0, entry.1;
    if name !in names then Collect(name)
    else if value.PyDict? then
      match OneItemSelector(names, name, value.entries)
      case Err(f) => Fail(f)
      case Ok(None) => Skip
      case Ok(Some(sel)) => Keep((name, sel))
    else
      match TraitsSequence(names, name, value)
      case Err(f) => Fail(f)
      case Ok(ts) => Keep((name, Listed(ts)))
  }

  function DictOutcomes(names: Names, entries: seq<(string, PyValue)>): seq<Outcome<(string, Selector), string, Failure>> {
    seq(|entries|, k requires 0 <= k < |entries| => DictEntryOutcome(names, entries[k]))
  }

  /** A dictionary side after check_subrestrictions_dict. */
  function DictSide(names: Names, entries: seq<(string, PyValue)>): Result<Side, Failure> {
    match ScanForward(DictOutcomes(names, entries), 0, [], [])
    case Err(f) => Err(f)
    case Ok((kept, unknown)) => if unknown != [] then Err(Invalid(UnknownLayers(unknown))) else Ok(kept)
  }

  /** The loop of check_subrestrictions_dict; `{'all': False}` entries are left out as they are met. */
  method CheckSubrestrictionsDict(names: Names, entries: seq<(string, PyValue)>) returns (r: Result<Side, Failure>)
    ensures r == DictSide(names, entries)
  {
    ghost var os := DictOutcomes(names, entries);
    var rewritten: Side := [];
    var noNames: seq<string> := [];
    var i := 0;
    while i < |entries|
      invariant 0 <= i <= |entries|
      invariant ScanForward(os, i, rewritten, noNames) == ScanForward(os, 0, [], [])
    {
      match DictEntryOutcome(names, entries[i]) {
        case Keep(entry) => rewritten := rewritten + [entry];
        case Skip =>
        case Collect(name) => noNames := noNames + [name];
        case Fail(f) => return Err(f);
      }
      i := i + 1;
    }
    if noNames != [] {
      return Err(Invalid(UnknownLayers(noNames)));
    }
    return Ok(rewritten);
  }

  // ---------------------------------------------------------------------------
  // check_subrestriction_list (restriction_code.py:311-363)

  /** One (layer, traits) item of a list side. */
  function ListItemOutcome(names: Names, item: PyValue): Outcome<(string, Selector), PyValue, Failure> {
    if item.PyStr? then Fail(Invalid(BareString(item.s)))
    else
      match Iterate(item)
      case None => Fail(Crash(TypeErr))
      case Some(parts) =>
        if |parts| != 2 then Fail(Invalid(NotAPair(|parts|)))
        else
          var name, traits := parts[0], parts[1];
          if !IsHashable(name) then Fail(Crash(TypeErr))
          else if !name.PyStr? || name.s !in names then Collect(name)
          else if traits.PyDict? then
            match OneItemSelector(names, name.s, traits.entries)
            case Err(f) => Fail(f)
            case Ok(None) => Skip
            case Ok(Some(sel)) => Keep((name.s, sel))
          else if traits.PyStr? || traits.PyNone? then
            match FixTraitName(names, name.s, traits)
            case Err(f) => Fail(f)
            case Ok(t) => Keep((name.s, Single(t)))
          else
            match TraitsSequence(names, name.s, traits)
            case Err(f) => Fail(f)
            case Ok(ts) => Keep((name.s, Listed(ts)))
  }

  function ListOutcomes(names: Names, items: seq<PyValue>): seq<Outcome<(string, Selector), PyValue, Failure>> {
    seq(|items|, k requires 0 <= k < |items| => ListItemOutcome(names, items[k]))
  }

  /** The error for unknown layers: joining their names raises TypeError unless all are strings. */
  function UnknownLayersError(unknown: seq<PyValue>): Failure {
    if forall k :: 0 <= k < |unknown| ==> unknown[k].PyStr? then
      Invalid(UnknownLayers(seq(|unknown|, k requires 0 <= k < |unknown| => if unknown[k].PyStr? then unknown[k].s else "")))
    else Crash(TypeErr)
  }

  /** A list side after check_subrestriction_list: it is drained from the back and refilled. */
  function ListSide(names: Names, items: seq<PyValue>): Result<Side, Failure> {
    match ScanBackward(ListOutcomes(names, items), [], [])
    case Err(f) => Err(f)
    case Ok((kept, unknown)) => if unknown != [] then Err(UnknownLayersError(unknown)) else Ok(kept)
  }

  method CheckSubrestrictionList(names: Names, items: seq<PyValue>) returns (r: Result<Side, Failure>)
    ensures r == ListSide(names, items)
  {
    var rest := items;
    var newSubr: Side := [];
    var noNames: seq<PyValue> := [];
    while rest != []
      invariant ScanBackward(ListOutcomes(names, rest), newSubr, noNames) == ScanBackward(ListOutcomes(names, items), [], [])
      decreases |rest|
    {
      var item := rest[|rest| - 1];
      assert ListOutcomes(names, rest[..|rest| - 1]) == ListOutcomes(names, rest)[..|rest| - 1];
      rest := rest[..|rest| - 1];
      match ListItemOutcome(names, item) {
        case Keep(entry) => newSubr := newSubr + [entry];
        case Skip =>
        case Collect(name) => noNames := noNames + [name];
        case Fail(f) => return Err(f);
      }
    }
    if noNames != [] {
      return Err(UnknownLayersError(noNames));
    }
    return Ok(newSubr);
  }

  /** A list side is accepted iff no item raises and no layer is unknown; it comes back in
      reverse order, without its `{'all': False}` items. Of several raising items, the one
      nearest the end is reported. */
  lemma ListSideMeaning(names: Names, items: seq<PyValue>)
    ensures ListSide(names, items).Ok? <==>
      forall k :: 0 <= k < |items| ==> ListOutcomes(names, items)[k].Keep? || ListOutcomes(names, items)[k].Skip?
    ensures ListSide(names, items).Ok? ==> ListSide(names, items).value == Reverse(Kept(ListOutcomes(names, items)))
    ensures LastFail(ListOutcomes(names, items)).Some? ==> ListSide(names, items) == Err(LastFail(ListOutcomes(names, items)).value)
  {
    var os := ListOutcomes(names, items);
    ScanBackwardMeaning(os, [], []);
    KeptMembers(os);
    assert [] + Reverse(Kept(os)) == Reverse(Kept(os));
    if forall k :: 0 <= k < |items| ==> os[k].Keep? || os[k].Skip? {
      NoCollect(os);
    }
  }

  /** A dictionary side is accepted iff no entry raises and no layer is unknown; it keeps its
      order, without its `{'all': False}` entries. Of several raising entries, the first is reported. */
  lemma DictSideMeaning(names: Names, entries: seq<(string, PyValue)>)
    ensures DictSide(names, entries).Ok? <==>
      forall k :: 0 <= k < |entries| ==> DictOutcomes(names, entries)[k].Keep? || DictOutcomes(names, entries)[k].Skip?
    ensures DictSide(names, entries).Ok? ==> DictSide(names, entries).value == Kept(DictOutcomes(names, entries))
    ensures FirstFail(DictOutcomes(names, entries)).Some? ==> DictSide(names, entries) == Err(FirstFail(DictOutcomes(names, entries)).value)
  {
    var os := DictOutcomes(names, entries);
    ScanForwardMeaning(os, 0, [], []);
    assert os[0..] == os;
    KeptMembers(os);
    assert [] + Kept(os) == Kept(os);
    if forall k :: 0 <= k < |entries| ==> os[k].Keep? || os[k].Skip? {
      NoCollect(os);
    }
  }

  // ---------------------------------------------------------------------------
  // parse_single_restriction and parse_restrictions (restriction_code.py:367-391, 797-821)

  /** One side of a rule: a non-empty list or dictionary, checked by the matching routine. */
  function ParseSide(names: Names, v: PyValue): Result<Side, Failure> {
    match v
    case PyList(items) => if items == [] then Err(Invalid(EmptySide)) else ListSide(names, items)
    case PyDict(entries) => if entries == [] then Err(Invalid(EmptySide)) else DictSide(names, entries)
    case _ => Err(Invalid(NotListOrDict))
  }

  method ParseSideMethod(names: Names, v: PyValue) returns (r: Result<Side, Failure>)
    ensures r == ParseSide(names, v)
  {
    match v {
      case PyList(items) =>
        if items == [] { return Err(Invalid(EmptySide)); }
        r := CheckSubrestrictionList(names, items);
      case PyDict(entries) =>
        if entries == [] { return Err(Invalid(EmptySide)); }
        r := CheckSubrestrictionsDict(names, entries);
      case _ =>
        return Err(Invalid(NotListOrDict));
    }
  }

  /** A two-sided rule; the left side is checked completely before the right one. */
  function SingleRestriction(names: Names, left: PyValue, right: PyValue): Result<Rule, (Position, Failure)> {
    match ParseSide(names, left)
    case Err(f) => Err((Left, f))
    case Ok(setters) =>
      match ParseSide(names, right)
      case Err(f) => Err((Right, f))
      case Ok(getters) => Ok(Rule(setters, getters))
  }

  /** Rule number `index` of the restriction list; a ValueError is reported with the rule's
      index and side, other exceptions pass through. */
  function RuleResult(names: Names, index: nat, rule: PyValue): Result<Rule, ConfigError> {
    if !rule.PyList? then Err(RuleNotAList(index))
    else if |rule.items| != 2 then Err(RuleWrongLength(index, |rule.items|))
    else
      match SingleRestriction(names, rule.items[0], rule.items[1])
      case Ok(r) => Ok(r)
      case Err((side, Invalid(reason))) => Err(InRule(index, side, reason))
      case Err((_, Crash(fault))) => Err(Uncaught(fault))
  }

  /** A rule must be a list of exactly two sides; the left side is checked before the right one,
      and a ValueError raised while checking a side is reported with the rule's index and that
      side. */
  lemma RuleResultMeaning(names: Names, index: nat, rule: PyValue)
    ensures !rule.PyList? ==> RuleResult(names, index, rule) == Err(RuleNotAList(index))
    ensures rule.PyList? && |rule.items| != 2 ==> RuleResult(names, index, rule) == Err(RuleWrongLength(index, |rule.items|))
    ensures RuleResult(names, index, rule).Ok? <==>
      rule.PyList? && |rule.items| == 2 && ParseSide(names, rule.items[0]).Ok? && ParseSide(names, rule.items[1]).Ok?
    ensures RuleResult(names, index, rule).Ok? ==>
      RuleResult(names, index, rule).value == Rule(ParseSide(names, rule.items[0]).value, ParseSide(names, rule.items[1]).value)
    ensures var r := RuleResult(names, index, rule);
      r.Err? && r.error.InRule? ==>
        r.error.index == index && rule.PyList? && |rule.items| == 2 &&
        if r.error.side == Left then ParseSide(names, rule.items[0]) == Err(Invalid(r.error.reason))
        else ParseSide(names, rule.items[0]).Ok? && ParseSide(names, rule.items[1]) == Err(Invalid(r.error.reason))
  {
  }

  function RuleOutcome(names: Names, index: nat, rule: PyValue): (o: Outcome<Rule, (), ConfigError>)
    ensures o.Keep? <==> RuleResult(names, index, rule).Ok?
    ensures o.Keep? ==> RuleResult(names, index, rule) == Ok(o.value)
    ensures o.Fail? <==> RuleResult(names, index, rule).Err?
    ensures o.Fail? ==> RuleResult(names, index, rule) == Err(o.failure)
  {
    match RuleResult(names, index, rule) case Ok(r) => Keep(r) case Err(e) => Fail(e)
  }

  function RuleOutcomes(names: Names, rules: seq<PyValue>): seq<Outcome<Rule, (), ConfigError>> {
    seq(|rules|, k requires 0 <= k < |rules| => RuleOutcome(names, k, rules[k]))
  }

  /** parse_restrictions: the checked rules, or the error of the first rule that fails. */
  function ParseRestrictions(names: Names, config: PyValue): Result<seq<Rule>, ConfigError> {
    if !(config.PyList? || config.PyTuple?) then Err(NotAListOrTuple)
    else
      match ScanForward(RuleOutcomes(names, config.items), 0, [], [])
      case Err(e) => Err(e)
      case Ok((rules, _)) => Ok(rules)
  }

  method ParseRestrictionsMethod(names: Names, config: PyValue) returns (r: Result<seq<Rule>, ConfigError>)
    ensures r == ParseRestrictions(names, config)
  {
    if !(config.PyList? || config.PyTuple?) {
      return Err(NotAListOrTuple);
    }
    var rules := config.items;
    ghost var os := RuleOutcomes(names, rules);
    var checked: seq<Rule> := [];
    var idx := 0;
    while idx < |rules|
      invariant 0 <= idx <= |rules|
      invariant ScanForward(os, idx, checked, []) == ScanForward(os, 0, [], [])
    {
      var rule := rules[idx];
      if !rule.PyList? {
        return Err(RuleNotAList(idx));
      }
      if |rule.items| != 2 {
        return Err(RuleWrongLength(idx, |rule.items|));
      }
      var left := ParseSideMethod(names, rule.items[0]);
      if left.Err? {
        return if left.error.Invalid? then Err(InRule(idx, Left, left.error.reason)) else Err(Uncaught(left.error.fault));
      }
      var right := ParseSideMethod(names, rule.items[1]);
      if right.Err? {
        return if right.error.Invalid? then Err(InRule(idx, Right, right.error.reason)) else Err(Uncaught(right.error.fault));
      }
      checked := checked + [Rule(left.value, right.value)];
      idx := idx + 1;
    }
    return Ok(checked);
  }

  // ---------------------------------------------------------------------------
  // What a checked rule list guarantees

  /** A selector refers only to values the layer can take. */
  predicate SelectorWithin(layer: LayerNames, sel: Selector) {
    match sel
    case Every => true
    case Single(t) => t in Values(layer)
    case Listed(ts) => forall k :: 0 <= k < |ts| ==> ts[k] in Values(layer)
    case Unordered(s) => s <= layer.traits
  }

  predicate SideWithin(names: Names, side: Side) {
    forall k :: 0 <= k < |side| ==> side[k].0 in names && SelectorWithin(names[side[k].0], side[k].1)
  }

  predicate RuleWithin(names: Names, rule: Rule) {
    SideWithin(names, rule.setters) && SideWithin(names, rule.getters)
  }

  lemma TraitsSequenceWithin(names: Names, layer: string, v: PyValue)
    requires layer in names && TraitsSequence(names, layer, v).Ok?
    ensures SelectorWithin(names[layer], Listed(TraitsSequence(names, layer, v).value))
  {
    TraitsSequenceOk(names, layer, v);
  }

  lemma OneItemSelectorWithin(names: Names, layer: string, d: seq<(string, PyValue)>)
    requires layer in names && OneItemSelector(names, layer, d).Ok? && OneItemSelector(names, layer, d).value.Some?
    ensures SelectorWithin(names[layer], OneItemSelector(names, layer, d).value.value)
  {
    if d[0].0 != "all" {
      TraitsSequenceWithin(names, layer, PyList(CommaItems(d[0].1.s)));
    }
  }

  lemma ParseSideWithin(names: Names, v: PyValue)
    requires ParseSide(names, v).Ok?
    ensures SideWithin(names, ParseSide(names, v).value)
  {
    var items := if v.PyList? then v.items else [];
    var entries := if v.PyDict? then v.entries else [];
    ListSideMeaning(names, items);
    DictSideMeaning(names, entries);
    var side := ParseSide(names, v).value;
    if v.PyList? {
      var os := ListOutcomes(names, items);
      KeptMembers(os);
      forall k | 0 <= k < |side| ensures side[k].0 in names && SelectorWithin(names[side[k].0], side[k].1) {
        assert side[k] in Kept(os);
        var j :| 0 <= j < |os| && os[j] == Keep(side[k]);
        ListItemWithin(names, items[j]);
      }
    } else {
      var os := DictOutcomes(names, entries);
      KeptMembers(os);
      forall k | 0 <= k < |side| ensures side[k].0 in names && SelectorWithin(names[side[k].0], side[k].1) {
        assert side[k] in Kept(os);
        var j :| 0 <= j < |os| && os[j] == Keep(side[k]);
        DictEntryWithin(names, entries[j]);
      }
    }
  }

  lemma ListItemWithin(names: Names, item: PyValue)
    requires ListItemOutcome(names, item).Keep?
    ensures var e := ListItemOutcome(names, item).value; e.0 in names && SelectorWithin(names[e.0], e.1)
  {
    var parts := Iterate(item).value;
    var name, traits := parts[0], parts[1];
    if traits.PyDict? {
      OneItemSelectorWithin(names, name.s, traits.entries);
    } else if !(traits.PyStr? || traits.PyNone?) {
      TraitsSequenceWithin(names, name.s, traits);
    }
  }

  lemma DictEntryWithin(names: Names, entry: (string, PyValue))
    requires DictEntryOutcome(names, entry).Keep?
    ensures var e := DictEntryOutcome(names, entry).value; e.0 in names && SelectorWithin(names[e.0], e.1)
  {
    if entry.1.PyDict? {
      OneItemSelectorWithin(names, entry.0, entry.1.entries);
    } else {
      TraitsSequenceWithin(names, entry.0, entry.1);
    }
  }

  /** The restriction list itself must be a list or a tuple. */
  lemma ParseRestrictionsType(names: Names, config: PyValue)
    ensures !(config.PyList? || config.PyTuple?) <==> ParseRestrictions(names, config) == Err(NotAListOrTuple)
  {
    if (config.PyList? || config.PyTuple?) && ParseRestrictions(names, config).Err? {
      ParseRestrictionsFirstError(names, config);
    }
  }

  /** parse_restrictions succeeds iff every rule does, and keeps the rules in order. */
  lemma ParseRestrictionsOk(names: Names, config: PyValue)
    requires config.PyList? || config.PyTuple?
    ensures ParseRestrictions(names, config).Ok? <==>
      forall k :: 0 <= k < |config.items| ==> RuleResult(names, k, config.items[k]).Ok?
    ensures ParseRestrictions(names, config).Ok? ==>
      var rules := ParseRestrictions(names, config).value;
      |rules| == |config.items| && forall k :: 0 <= k < |rules| ==> RuleResult(names, k, config.items[k]) == Ok(rules[k])
  {
    var os := RuleOutcomes(names, config.items);
    ScanForwardMeaning(os, 0, [], []);
    assert os[0..] == os;
    KeptMembers(os);
    forall k | 0 <= k < |os| ensures os[k].Keep? <==> RuleResult(names, k, config.items[k]).Ok? {
      assert os[k] == RuleOutcome(names, k, config.items[k]);
    }
    if forall k :: 0 <= k < |os| ==> os[k].Keep? {
      AllKept(os);
      forall k | 0 <= k < |os| ensures RuleResult(names, k, config.items[k]) == Ok(Kept(os)[k]) {
        assert os[k] == RuleOutcome(names, k, config.items[k]);
      }
    }
  }

  /** Otherwise it raises the error of the first failing rule. */
  lemma ParseRestrictionsFirstError(names: Names, config: PyValue)
    requires config.PyList? || config.PyTuple?
    requires ParseRestrictions(names, config).Err?
    ensures exists k :: 0 <= k < |config.items| && RuleResult(names, k, config.items[k]) == Err(ParseRestrictions(names, config).error) &&
                        forall j :: 0 <= j < k ==> RuleResult(names, j, config.items[j]).Ok?
  {
    var os := RuleOutcomes(names, config.items);
    ScanForwardMeaning(os, 0, [], []);
    assert os[0..] == os;
    FirstFailWitness(os);
    var k :| 0 <= k < |os| && os[k] == Fail(FirstFail(os).value) && forall j :: 0 <= j < k ==> !os[j].Fail?;
    assert RuleResult(names, k, config.items[k]) == Err(FirstFail(os).value);
    forall j | 0 <= j < k ensures RuleResult(names, j, config.items[j]).Ok? {
      assert !os[j].Fail?;
    }
  }

  /** Every layer and trait a checked rule list mentions exists. */
  lemma ParseRestrictionsWithin(names: Names, config: PyValue)
    requires ParseRestrictions(names, config).Ok?
    ensures forall r :: r in ParseRestrictions(names, config).value ==> RuleWithin(names, r)
  {
    ParseRestrictionsOk(names, config);
    var rules := ParseRestrictions(names, config).value;
    forall k | 0 <= k < |rules| ensures RuleWithin(names, rules[k]) {
      var rule := config.items[k];
      assert RuleResult(names, k, rule) == Ok(rules[k]);
      ParseSideWithin(names, rule.items[0]);
      ParseSideWithin(names, rule.items[1]);
    }
  }
}
