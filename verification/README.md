# Restricted generative-art NFTs in Dafny

A model of the core of a Python generator of layered NFT avatars ("Scrappy Squirrels") whose
trait combinations obey user-written restrictions.

- **Restriction engine** (`restriction_code.py`).
  - Trait file names become trait names (`fix_trait`, `title_style`, `map_assets` for one layer).
  - The restriction list is validated and rewritten into explicit trait references
    (`fix_trait_name` … `parse_restrictions`).
  - Each rule is compiled into a nested lookup dictionary, and the rules' dictionaries are merged
    into the final one (`get_trait_pairs_set`, `get_wble_dictionaries`,
    `get_final_wd_dictionary`).
  - The merged dictionary is searched for traits that can never appear
    (`check_for_all_none_issues`).
- **Selection, validation and deduplication** (`nft.py`).
  - Layers and their rarity weights are read (`parse_config`, `get_value_from_none_key`,
    `get_rarities_from_csv`).
  - One trait per layer is drawn from the cumulative weights (`select_index`,
    `generate_trait_set_from_config`).
  - A combination that a restriction forbids is rejected (`is_image_invalid`).
  - Tables of combinations are filtered and deduplicated (`generate_imgs_table`,
    `generate_exact_imgs_table`).
  - `get_total_combinations` counts the combinations.
  - Output files are named with zero padding, or with the padding stripped.
- **Metadata** (`metadata.py`).
  - Column names are cleaned (`clean_attributes`).
  - Each avatar's JSON item is filled in: name, image, edition, and the attributes that are not
    `'none'`.

Files, one module each:

- `wrappers.dfy`: Option and Result.
- `text.dfy`: ASCII case mapping, `str.title`, split and join, strip, and the string order used by
  `sorted`.
- `digits.dfy`: `str` of a natural number, `zfill`, `lstrip('0')`.
- `sequences.dfy`: `drop_duplicates` as `Dedup`, and sequence facts.
- `pyvalues.dfy`: the loosely typed values a restriction list is written in.
- `traits.dfy`: trait file names and the per-layer record.
- `outcomes.dfy`: the shape shared by the validation loops. Each element is kept, skipped, collected
  for a later error, or fails.
- `rule_parser.dfy`: validation and rewriting of the rules.
- `compiler.dfy`: the per-rule dictionaries, their merge, and what the merged dictionary forbids.
- `diagnostics.dfy`: the ALL/None issues.
- `rarity.dfy`: layer construction and weights.
- `sampler.dfy`: selection, validation, the tables, and the combination count.
- `output.dfy`: image names, attribute names, and the JSON items.

How effects are modelled:

- Directory listings, CSV contents, random numbers, the tables `generate_imgs_table` returns
  inside `generate_exact_imgs_table`, and the user's answers to prompts are all parameters.
- A Python exception is an `Err` value. `ValueError` becomes `Invalid`, with the reason it states.
  `TypeError` and `AttributeError` escape unwrapped as `Crash`. An `assert` of the source is an
  error value.
- Every loop of the source is a method with a `while` or `for` loop. Its postcondition ties the
  result to a specification function, and the lemmas state what the source promises about that
  function.
- The source changes a restriction's sides in place (`sub_restr[name] = …`, `sub_restr.extend`).
  The model returns the rewritten side as a typed value: `Side`, a sequence of
  (layer, `Selector`) pairs.

Where the code and its own documentation disagree, the model follows the code:

- **Duplicate trait names.** Two files of one layer can give the same trait name after
  `title_style`. The dictionary comprehension of `nft.py:54-57` then silently keeps the LAST file.
  It raises no error (`Rarity.TraitFilesLast`).
- **`rarity_weights`.** The test at `nft.py:83` is `type(<bool>)`, which is always truthy. Every
  `rarity_weights` value other than None, `'random'` and `'file'` is taken as a list. The
  `ValueError` of `nft.py:87` can never be raised.
- **Counting combinations.** `get_total_combinations` multiplies the number of values per layer,
  None included. It does not count combinations the restrictions allow
  (`Sampler.CombosCount`, `Sampler.CombosMembers`).
- **The three defects under "## Findings".** The model computes what the code computes:
  - the container test of `check_traits_sequence` (`RuleParser.SequenceCheckAsWritten`);
  - the getter red flag of `check_for_all_none_issues` (`Diagnostics.GetterIssueAsWritten`);
  - the 'none' row of `get_rarities_from_csv` (`Rarity.RaritiesAsWritten`).

  Each corrected definition is stated and proved beside the code's version, together with
  lemmas that say where the two agree and where they differ. The rest of the model is built on
  the code's version.

## Model

| member | source | states |
|---|---|---|
| `Text.TitleFrom` | restriction_code.py:72 | `str.title`: same length; uncased characters unchanged; every character keeps its casedness and its letter. |
| `Text.TitleFromIdempotent` | restriction_code.py:72 | Title-casing a title-cased string changes nothing. |
| `Text.SplitTitle` | restriction_code.py:70-73 | Splitting the title-cased name at spaces gives the title-cased words of the name. |
| `Text.JoinSplit` | restriction_code.py:73-76 | `' '.join(s.split(' ')) == s` for every string. |
| `Text.SplitJoin` | restriction_code.py:73-76 | Splitting joined words without the separator gives the words back. |
| `Text.Sort` | nft.py:63 | `sorted`: the result is ordered and a permutation of the input. |
| `Text.SortOfSorted` | nft.py:172 | Sorting a list that is already sorted returns it unchanged. |
| `Digits.NatToString` | nft.py:521 | `str(i)`: at least one character, all decimal digits, leading '0' exactly for 0. |
| `Digits.NatToStringRoundTrip` | nft.py:521 | The digits of `str(i)` read back to `i`, so distinct indexes get distinct names. |
| `Digits.DigitCountMonotone` | nft.py:505 | A smaller number never has more digits: every index below count fits the width of `count - 1`. |
| `Digits.LStripZerosPrefix` | nft.py:534 | `lstrip('0')` removes exactly the padding zeros in front of a number that does not start with '0'. |
| `Sequences.DedupMeaning` | nft.py:347 | `drop_duplicates`: no repetition, the same members, and the first occurrences kept in their order. |
| `Sequences.DedupDistinct` | nft.py:389 | A table without repetitions is unchanged by `drop_duplicates`. |
| `Sequences.DedupAppend` | nft.py:450-451 | Deduplicating after every concatenation equals deduplicating the whole concatenation once. |
| `Sequences.DedupPrefix` | nft.py:450-451 | Deduplicating a longer table keeps the deduplicated shorter one as its beginning. |
| `Sequences.FlattenMembers` | nft.py:383 | A row is in the concatenated tables exactly when it is in one of them. |
| `Outcomes.ScanForwardMeaning` | restriction_code.py:172-206 | A front-to-back scan fails with the FIRST failure; otherwise it gives the kept and the collected elements in order. |
| `Outcomes.ScanBackwardMeaning` | restriction_code.py:320-356 | A scan that pops from the back fails with the LAST failure; otherwise it gives the kept and the collected elements reversed. |
| `Traits.FixTrait` | restriction_code.py:56-65 | Succeeds exactly when the name without one trailing '.png' is no capitalisation of 'none'; the result plus the removed '.png' is the file name. |
| `Traits.FixTraitRoundTrip` | restriction_code.py:56-65 | `fix_trait(t + '.png')` is `t`, or the reserved-name error when `t` is a spelling of 'none'. |
| `Traits.TitleStyleWords` | restriction_code.py:69-77 | title_style keeps the number of words; a word that was all upper case stays as it was, and any other word is title-cased. |
| `Traits.TitleStyleIdempotent` | restriction_code.py:69-77 | Re-styling a re-styled name changes nothing. |
| `Traits.ValidFilesProperties` | restriction_code.py:131 | Every kept file name ends in '.png', and a listing without repeated names gives distinct files. |
| `Traits.FixAllProperties` | restriction_code.py:134-137 | When no file is rejected, the names are the files' fixed names, one per file, in order. |
| `Traits.LayerEntryWellFormed` | restriction_code.py:125-145 | The layer record counts its traits, spells none of them 'none', and keeps the layer's `required` flag. |
| `RuleParser.FixTraitName` | restriction_code.py:84-117 | A resolved name is a value of the layer. The only errors are: None in a required layer, a trait not found, or AttributeError on a non-string. |
| `RuleParser.FixTraitNameMeaning` | restriction_code.py:92-117 | Absence (None or any spelling of 'none') gives 'none' exactly in an optional layer and the required-layer error exactly in a required one. A string is accepted exactly when its re-styled name is a trait, and is then that name. Otherwise the error names the re-styled form. Any other value fails on `.lower()`. |
| `RuleParser.FixTraitNameResolved` | restriction_code.py:84-117 | Resolving an already resolved name gives the same name. |
| `RuleParser.SequenceCheckAsWritten` | restriction_code.py:161-163 | As written: accepts exactly lists and tuples, with their own elements. Any other iterable, a set included, gets the ValueError. A value that is not iterable makes `list(traits)` raise TypeError. |
| `RuleParser.SequenceCheck` | restriction_code.py:161-163 | The corrected test accepts exactly lists, tuples and sets, as the error message states. The accepted elements are the container's own. |
| `RuleParser.SetRejectedAsWritten` | restriction_code.py:162 | As written, the test rejects the set `{'Blue'}`; the corrected test accepts it. |
| `RuleParser.SequenceChecksAgree` | restriction_code.py:162 | The written and the corrected test agree on every iterable value that is not a set. |
| `RuleParser.CheckTraitsSequence` | restriction_code.py:159-206 | The loop computes `TraitsSequence`. |
| `RuleParser.TraitOutcomeFacts` | restriction_code.py:175-198 | Each element is kept when it resolves, collected exactly when the trait is not found, and otherwise re-raised with its own error. |
| `RuleParser.TraitsSequenceOk` | restriction_code.py:159-206 | Succeeds exactly when given a list or a tuple whose every element resolves; the result is the resolved elements in order. Any other iterable, a set included, gets the ValueError of line 163; a non-iterable value gets TypeError. |
| `RuleParser.TraitsSequenceMissing` | restriction_code.py:200-203 | The missing-traits error comes only when every element resolves or is missing. It lists exactly the missing names. |
| `RuleParser.TraitsSequenceFirstError` | restriction_code.py:188-194 | Any other error is the error of the first element that neither resolves nor is missing. |
| `RuleParser.OneItemSelectorShape` | restriction_code.py:218-238 | Only a one-entry dict keyed 'all', 'R' or 'A' passes. `{'all': True}` gives Every, `{'all': False}` gives nothing, and a non-bool is an error. |
| `RuleParser.OneItemSelectorRestricted` | restriction_code.py:240-262 | `{'R': s}` gives the resolved comma-separated items of `s`, in order. |
| `RuleParser.OneItemSelectorAllowed` | restriction_code.py:240-262 | `{'A': s}` gives exactly the layer's traits that no item of `s` resolves to. It never contains 'none'. |
| `RuleParser.CheckSubrestrictionsDict` | restriction_code.py:266-307 | The dictionary-side loop computes `DictSide`. |
| `RuleParser.DictSideMeaning` | restriction_code.py:266-307 | Succeeds exactly when no entry fails and no layer is unknown. Then the result is the kept entries in order. The first failing entry's error wins over the unknown-layer error. |
| `RuleParser.CheckSubrestrictionList` | restriction_code.py:311-363 | The list-side loop computes `ListSide`. |
| `RuleParser.ListSideMeaning` | restriction_code.py:311-363 | Succeeds exactly when no item fails and no layer is unknown. Then the result is the kept items in reverse order, as pop and extend leave them. The last failing item's error wins. |
| `RuleParser.ParseSideMethod` | restriction_code.py:376-391 | The method computes `ParseSide`: a side must be a non-empty list or dict and is checked by the matching routine. |
| `RuleParser.ParseSideWithin` | restriction_code.py:266-363 | A checked side names only known layers, and only values of those layers. |
| `RuleParser.RuleResultMeaning` | restriction_code.py:803-818 | A rule that is not a list, or not of length 2, fails with its index. Otherwise it succeeds exactly when both sides check, the left one first. A side's ValueError is reported with the rule index and that side. |
| `RuleParser.ParseRestrictionsMethod` | restriction_code.py:797-821 | The loop over the rules computes `ParseRestrictions`. |
| `RuleParser.ParseRestrictionsType` | restriction_code.py:799-800 | The list-or-tuple error comes exactly when the restriction list is neither a list nor a tuple. |
| `RuleParser.ParseRestrictionsOk` | restriction_code.py:797-821 | Succeeds exactly when every rule's own check succeeds (a two-item list whose sides both check); the checked rules come one per rule, in order. |
| `RuleParser.ParseRestrictionsFirstError` | restriction_code.py:803-818 | A failure is the error of the first failing rule, and every earlier rule checks. |
| `RuleParser.ParseRestrictionsWithin` | restriction_code.py:797-821 | Every checked rule names only known layers and their values. |
| `Compiler.SetterPairsMeaning` | restriction_code.py:401-484 | (l, t) is a setter pair exactly when an entry of l restricts all of l with t a trait of l, or names t. A 'none' pair needs an explicit None. |
| `Compiler.GetterPairsMeaning` | restriction_code.py:436-482 | (l, True) is a getter pair exactly for an `{'all': True}` entry of l; (l, t) exactly when an entry of l names t. |
| `Compiler.PairsWithin` | restriction_code.py:401-484 | Every pair of a checked rule names a known layer and one of its values. |
| `Compiler.GetterMapAdd` | restriction_code.py:514-530 | One popped getter pair changes only its layer's entry: created empty if absent, then 'Restrict All' set or the trait added. |
| `Compiler.DrainGetters` | restriction_code.py:511-530 | The popping loop builds `GetterMap` of all getter pairs, whatever order the pairs come out of the set. |
| `Compiler.GetterMapMeaning` | restriction_code.py:511-530 | wd_getters has l exactly when a pair names l. 'Restrict All' is set exactly for (l, True), and 'Restricted' holds exactly the traits paired with l. |
| `Compiler.SetterIndexAdd` | restriction_code.py:538-545 | One popped setter pair sets exactly `wd_setters[l][t]` to the getter map. |
| `Compiler.DrainSetters` | restriction_code.py:535-545 | The popping loop builds `SetterIndex` of all setter pairs. |
| `Compiler.SetterIndexMeaning` | restriction_code.py:535-545 | `wd_setters[l][t]` exists exactly for the setter pairs, and each holds the rule's getter map. |
| `Compiler.DrainedKeys` | restriction_code.py:518-542 | Both maps have as keys exactly the layers their pairs name. |
| `Compiler.WbleDictionary` | restriction_code.py:503-558 | One rule gives `RuleIndex`, and `comm_names` is the set of layers present on both sides. |
| `Compiler.GetWbleDictionaries` | restriction_code.py:488-595 | One dictionary per rule, in order. The warnings list exactly the rules with a layer on both sides, with those layers. |
| `Compiler.MergeTargetsInto` | restriction_code.py:632-646 | Merging one setter trait's targets gives `MergeTargets`. |
| `Compiler.MergeTraitStep` | restriction_code.py:621-646 | One iteration over a layer's setter traits folds exactly that trait into the partial merge. |
| `Compiler.MergeTraitsInto` | restriction_code.py:621-646 | Merging one layer's setter traits gives `MergeTraits`. |
| `Compiler.MergeLayerStep` | restriction_code.py:610-646 | One iteration over a rule's layers folds exactly that layer into the partial merge. |
| `Compiler.MergeIndexInto` | restriction_code.py:607-646 | Merging one rule's dictionary gives `MergeIndex`. |
| `Compiler.GetFinalWdDictionary` | restriction_code.py:599-648 | The loop over the rules' dictionaries gives `MergeAll`. |
| `Compiler.MergeIndexMeaning` | restriction_code.py:607-646 | Paths and targets of a merge are the union of both. 'Restrict All' is the or, and 'Restricted' is the union. |
| `Compiler.MergeAllPaths` | restriction_code.py:599-648 | (l, t) is in the final dictionary exactly when it is in some rule's dictionary. |
| `Compiler.MergeAllTargets` | restriction_code.py:599-648 | (l, t) → m is in the final dictionary exactly when it is in some rule's dictionary. |
| `Compiler.MergeAllRestrictAll` | restriction_code.py:642-643 | The final 'Restrict All' is set exactly when some rule sets it. |
| `Compiler.MergeAllRestricted` | restriction_code.py:646 | The final 'Restricted' is the union of the rules' sets. |
| `Compiler.RuleIndexMeaning` | restriction_code.py:500-558 | A rule's dictionary has (l, t) → m exactly for its setter pairs and getter layers. It restricts all or u of m exactly as its getter pairs say. |
| `Compiler.CompileMeaning` | restriction_code.py:599-648 | The final dictionary forbids u of m beside t of l exactly when l ≠ m and some rule does. A rule does so when (l, t) is a setter pair and it restricts u of m by name, or restricts all of m and u is not 'none'. |
| `Compiler.CompilePathsWithin` | restriction_code.py:599-648 | Every (layer, trait) key of the final dictionary is a known layer and one of its values. |
| `Compiler.CompileTargetsWithin` | restriction_code.py:599-648 | Every restricted layer of the final dictionary is known. |
| `Compiler.CompileRestrictedWithin` | restriction_code.py:599-648 | Every trait restricted by name in the final dictionary is a value of its layer. |
| `Compiler.CompileMonotone` | restriction_code.py:599-648 | Adding a rule never lifts a prohibition. |
| `Diagnostics.ValuesCard` | restriction_code.py:723 | A well-formed layer has n values, plus one for None when optional: the count compared at line 723. |
| `Diagnostics.GetterIssueMeaning` | restriction_code.py:681-693 | The corrected getter test holds exactly when the entry blocks every value the layer can take. |
| `Diagnostics.GetterIssueAsWrittenComplete` | restriction_code.py:681-693 | The written test reports every entry the corrected test reports. |
| `Diagnostics.GetterIssueAsWrittenSound` | restriction_code.py:684 | When 'Restricted' holds no 'none', the written test reports nothing more than the corrected one. |
| `Diagnostics.GetterRedFlagOvercounts` | restriction_code.py:684 | An optional layer {A, B} with 'Restricted' = {none, A} is reported although B is still allowed. |
| `Diagnostics.GetterIssueNeverAppears` | restriction_code.py:669-706 | If t of l forbids every value of m, the getter issue (l, t) / m is reported. When the entry's 'Restricted' holds only values of m and no 'none', the issue is reported exactly in that case. |
| `Diagnostics.TargetsGetterIssues` | restriction_code.py:675-706 | The innermost loop reports exactly the restricted layers whose entry passes the written test: ('Restrict All' or `len(Restricted) >= n`) and ('none' restricted or the layer required). |
| `Diagnostics.RowGetterIssues` | restriction_code.py:672-706 | The middle loop reports exactly the (trait, layer) entries of one layer that pass the written test. |
| `Diagnostics.GetterIssues` | restriction_code.py:669-706 | The getter loops report exactly the entries of the final dictionary that pass the written test of lines 681-693. |
| `Diagnostics.TargetPairs` | restriction_code.py:729-737 | One setter trait's pairs are the union over its targets of the named traits and, under 'Restrict All', all traits. |
| `Diagnostics.PairsOfOne` | restriction_code.py:741-747 | The intersection over one setter trait is that trait's pairs. |
| `Diagnostics.PairsOfMore` | restriction_code.py:741-747 | Adding a setter trait intersects with its pairs. |
| `Diagnostics.IntersectPairs` | restriction_code.py:737-747 | The loop computes `set.intersection` of every setter trait's pairs. |
| `Diagnostics.PairIssues` | restriction_code.py:741-748 | One setter issue per common pair, with the layer as provoker. |
| `Diagnostics.SetterIssues` | restriction_code.py:718-748 | The setter loop reports exactly the setter issues. |
| `Diagnostics.CheckForAllNoneIssues` | restriction_code.py:652-749 | The issues are exactly the getter issues (by the written test) and the setter issues. |
| `Diagnostics.SetterIssueForbidden` | restriction_code.py:718-748 | A reported setter issue (m, u) / l is forbidden beside every value of l. |
| `Diagnostics.ForbiddenPair` | restriction_code.py:729-733 | A forbidden value of m is among the pairs computed for that setter trait. |
| `Diagnostics.SetterIssueReported` | restriction_code.py:718-748 | A value forbidden beside every value of l is reported. |
| `Diagnostics.SetterIssueNeverAppears` | restriction_code.py:718-748 | The setter issue (m, u) / l is reported exactly when u of m is forbidden beside every value of l. |
| `Diagnostics.CompiledIndexKnown` | restriction_code.py:599-648 | The final dictionary of checked rules names only known layers, has no empty layer entry, and keys every layer's entry by its values. |
| `Rarity.GetValueFromNoneKey` | nft.py:101-119 | The loop over the 16 spellings computes `NoneKeyValue`. |
| `Rarity.NoneKeyValueMeaning` | nft.py:104-119 | The result is the weight of the first spelling in binary order that is a row. It is None exactly when none of the 16 is. |
| `Rarity.NoneVariantChars` | nft.py:104-110 | Character j of spelling i is upper-cased exactly when bit j of i, most significant first, is set. |
| `Rarity.NoneVariantsAreCapitalisations` | nft.py:104-110 | The 16 spellings tried are exactly the capitalisations of 'none'. |
| `Rarity.WeightsOfMeaning` | nft.py:171-182 | The missing traits are exactly those without a row. With none missing, the weights are the traits' rows, in order. |
| `Rarity.CollectWeights` | nft.py:171-179 | The loop appends exactly `WeightsOf` and `MissingOf` of the sorted traits. |
| `Rarity.GetRaritiesFromCsv` | nft.py:123-185 | The method computes `RaritiesFromCsv`: a fresh table when there is no CSV, otherwise the weights read as the lines are written (`RaritiesAsWritten`). |
| `Rarity.RaritiesAsWrittenAligned` | nft.py:158-182 | Every table the written lines accept gives one weight per value, and an optional layer is accepted only with a 'none' row. Each value gets its own row's weight, except in a required layer's table with a 'none' row: there the first weight is the 'none' row's weight, and each later trait gets its own row's weight. |
| `Rarity.RaritiesAsWrittenAccepted` | nft.py:158-182 | As written, an optional layer whose table has no 'none' row fails in `sorted` over None. When the 'none' row and the layer's None go together, a table is accepted exactly when it fits. |
| `Rarity.NewTableMeaning` | nft.py:139-147 | A fresh table is `<name>.csv`, has one row per value ('none' for None), and gives weight 1 to every value. |
| `Rarity.RaritiesAccepted` | nft.py:158-182 | The corrected reading succeeds exactly when the table fits: one row per value, a 'none' row for None, and a row for every trait. |
| `Rarity.RaritiesAligned` | nft.py:162-182 | The weights align with the values: None gets the 'none' row's weight, and every trait its own row's weight. |
| `Rarity.RaritiesAgree` | nft.py:162-168 | When the table has a 'none' spelling exactly for an optional layer, the written and the corrected reading agree. |
| `Rarity.NoneRowInRequiredLayer` | nft.py:162-172 | A required layer [A, B] with rows none, B is accepted as written, and A gets the 'none' weight. The corrected reading reports A missing. |
| `Rarity.NoneRowAsWritten` | nft.py:162-172 | As written, that table gives the weights [5, 1]. |
| `Rarity.NoneRowCorrected` | nft.py:162-182 | The corrected reading of that table reports A as missing. |
| `Rarity.TraitKey` | nft.py:55 | A file's key exists exactly when `fix_trait` accepts it, and it is the re-styled fixed name. |
| `Rarity.StyledNamesMeaning` | nft.py:54-57 | One styled name per file, in listing order. The map's keys are exactly those names. |
| `Rarity.TraitFilesLast` | nft.py:54-57 | Each trait name maps to the LAST listed file with that name. |
| `Rarity.TraitFilesFrom` | nft.py:54-57 | Every mapped file is a listed file whose key is that name. |
| `Rarity.LayerTraitsMeaning` | nft.py:63-67 | A layer's values: None first exactly when optional, then every trait name once, sorted. |
| `Rarity.LayerWeightsMeaning` | nft.py:70-88 | One weight per value: 1 for None settings, the draws for 'random', the list as given, 1 for a fresh CSV (reported as new). A read CSV gives the weights `RaritiesAsWrittenAligned` describes. |
| `Rarity.ParseLayerMeaning` | nft.py:45-94 | One layer is its styled name, its values, its name-to-file map, and its weights from the layer's setting. |
| `Rarity.ParseConfig` | nft.py:39-96 | The loop over the layers computes `ParseLayers`. |
| `Rarity.CollectErr` | nft.py:45-94 | An error in one layer is the outcome of the whole. |
| `Rarity.ParseLayersMeaning` | nft.py:39-96 | One configured layer per input, in order. The new CSV files are exactly those the layers created. |
| `Sampler.SelectIndex` | nft.py:225-233 | The loop computes `FirstHit` over `[0] + cum`. |
| `Sampler.FirstHitMeaning` | nft.py:227-233 | The index is the smallest i with `c[i] <= rand <= c[i+1]`. It is None exactly when there is no such i. |
| `Sampler.SelectIndexFound` | nft.py:225-233 | For `0 <= rand <= cum[-1]` an index is found, and it is below `len(cum)`. |
| `Sampler.GenerateTraitSet` | nft.py:237-254 | The loop over the layers computes `TraitSet`. |
| `Sampler.TraitSetMeaning` | nft.py:237-254 | When every draw lands in its layer's range, the k-th trait is the value the k-th draw selects, for every layer. |
| `Sampler.IsImageInvalid` | nft.py:271-302 | True exactly when some layer's trait forbids another layer's trait of the row; never true with no restrictions. |
| `Sampler.InvalidCompiled` | nft.py:271-302 | A row is invalid under the compiled rules exactly when some rule forbids one of its traits beside another. |
| `Sampler.InvalidRow` | nft.py:274-299 | With distinct column names, a row is invalid exactly when two of its positions form a forbidden pair. |
| `Sampler.RowOf` | nft.py:327-331 | One entry per layer; None becomes 'none'. |
| `Sampler.RecordOfKeys` | nft.py:274 | `dict(zip(index, row))` has exactly the column names as keys. |
| `Sampler.RecordOfAt` | nft.py:274 | A column that does not occur later maps to its own cell. |
| `Sampler.RawRowsMeaning` | nft.py:321-331 | When every draw lands, row i is the trait set of draw i, with None written 'none'. |
| `Sampler.ValidRowsMeaning` | nft.py:342-344 | The filter keeps exactly the drawn rows that are not invalid, and keeps all of them when there are no restrictions. |
| `Sampler.GenerateImgsTable` | nft.py:306-354 | The method computes `ImgsTable`, including the error when repeated layer names make the dictionary's lists differ in length. |
| `Sampler.PurgeMeaning` | nft.py:342-347 | After the filter and `drop_duplicates`, the rows are distinct, no more than were drawn, and exactly the valid drawn rows. |
| `Sampler.DistinctNotRagged` | nft.py:314-339 | Distinct layer names give lists of equal length. |
| `Sampler.RepeatedNameRagged` | nft.py:314-339 | A repeated layer name beside a name that occurs once gives lists of unequal length, which `pd.DataFrame` refuses. |
| `Sampler.ImgsTableMeaning` | nft.py:306-354 | The table exists exactly when every draw lands and, with at least one row drawn, the layer names do not make the lists ragged. It is then distinct, no larger than the number of draws, and holds exactly the valid drawn rows. |
| `Sampler.ImgsTableOrder` | nft.py:342-347 | The table keeps the order in which the rows were first drawn. |
| `Sampler.GenerateExactTable` | nft.py:358-482 | The method, with its early exits, computes `ExactTable`. |
| `Sampler.ProbeNothing` | nft.py:376-394 | Samples that keep nothing leave the table and the rate unchanged. |
| `Sampler.ProbeTotal` | nft.py:376-394 | The recorded size only grows. It stays unchanged without an early stop only when every later sample is empty. |
| `Sampler.ProbeRows` | nft.py:376-394 | The table holds only sampled rows. An early stop leaves at least count distinct rows. Otherwise the table deduplicates to all the samples deduplicated. |
| `Sampler.ConvergeRows` | nft.py:434-466 | After the attempts the table is distinct and holds only drawn rows. Short of count, it is all of them deduplicated. |
| `Sampler.ProbePrefix` | nft.py:376-394 | When the sampling loop stops early, its table is the beginning of all the samples, deduplicated. |
| `Sampler.ConvergePrefix` | nft.py:434-466 | The attempt loop's table is the beginning of everything it could add, deduplicated. |
| `Sampler.ExactImpossible` | nft.py:399-410 | The run is aborted as impossible exactly when count > 0 and every sample kept nothing. |
| `Sampler.ExactTableMeaning` | nft.py:358-482 | The table is distinct, has at most count rows, and holds only drawn rows. Short of count, it holds every distinct drawn row. |
| `Sampler.ExactTableRows` | nft.py:474-480 | The table is exactly the first count distinct rows of the samples followed by the attempts' tables, in order of first appearance. Truncation keeps the first rows, and the table has count rows whenever that many distinct rows were drawn. |
| `Sampler.TotalCombinations` | nft.py:216-221 | The product loop gives the number of combinations. |
| `Sampler.CombosCount` | nft.py:216-221 | The number of combinations is the product of the layers' value counts. |
| `Sampler.CombosMembers` | nft.py:216-221 | A combination is exactly one value per layer, in layer order. |
| `Sampler.CombosDistinct` | nft.py:216-221 | With distinct values per layer, the combinations are distinct, so the product counts distinct combinations. |
| `Output.ImageNameWidth` | nft.py:505-521 | For i below count, the name starts with `str(i).zfill(w)`, where w is the width of `str(count - 1)`, and has exactly four more characters: '.png'. |
| `Output.UnpaddedDigits` | nft.py:530-538 | Stripping the zeros in front of zeros + digits + '.png' gives digits + '.png' for digits without a leading zero, '0' included. |
| `Output.UnpaddedImageName` | nft.py:526-541 | With `ZEROS_PAD` off, the i-th image ends up named `str(i) + '.png'`. |
| `Output.ImageNamesDistinct` | nft.py:505-541 | Distinct images get distinct names, padded and unpadded. |
| `Output.CleanAttributes` | metadata.py:63-73 | The character loop computes `Cleaned`. |
| `Output.CleanedMeaning` | metadata.py:63-73 | Same length and no '_'. Upper case at the start and after every space. Every other character that was not '_' is kept. |
| `Output.CleanedIdempotent` | metadata.py:63-73 | Cleaning a cleaned name changes nothing. |
| `Output.PadWidth` | metadata.py:87 | A padding width is given exactly when `ZEROS_PAD` is on. |
| `Output.RowAttributes` | metadata.py:139-145 | The loop over a row computes `Attributes`. |
| `Output.AttributesMeaning` | metadata.py:142-145 | (c, v) is an attribute exactly when column c holds v and v is not 'none'. |
| `Output.AttributesOrder` | metadata.py:142-145 | There are no more attributes than columns; each is named after a column; with distinct column names they come in column order. |
| `Output.GenerateMetadata` | metadata.py:121-155 | One JSON file per row i: its name from the padded or plain number, and an item named `BASE_NAME + str(i)` with image, edition i, and the row's attributes. |
| `Output.StemsCoincide` | metadata.py:127-152 | Each JSON item's image is the image generate_images wrote for that row, padded or not, and JSON file names are distinct. |

## Left out

- Reading and writing files, and `os.listdir`, `os.rename` and `os.path.isdir`, are not modelled. Listings and CSV contents are parameters, and `Output.Unpadded` gives the new name of one file.
- `rename_traits_filenames`, `setup_restrictions`, `main`, `manage_new_CSVs`, `generate_paths`, `generate_paths_set_from_traits`, `generate_single_image`, `get_attribute_metadata`'s CSV read, and the JSON writes are left out. They are file and image I/O, or prompts around the modelled calls.
- `get_weighted_rarities` and `np.cumsum` are not modelled: floating-point arithmetic. The model works with the cumulative weights as given reals.
- Sampler.GenerateExactTable: the size of each attempt's table (`nft.py:437`, from the mean and the standard deviation of the sample rates) is not computed. The attempts' tables are inputs, so the 97.5% estimate is not modelled.
- Sampler.GenerateExactTable: the prompt at `nft.py:412-431` is the `proceed` parameter, and `quit()` is the `Impossible` or `Declined` outcome. The collision prompt of `get_wble_dictionaries` and the prompt of `check_for_all_none_issues` are not modelled: the model returns the warnings and issues, and the caller decides.
- Printing and progress bars are not modelled.
- Sampler.IsImageInvalid and Sampler.RecordOf: a row becomes a dictionary with `dict(zip(...))`, where a repeated column name keeps its last cell. The lemmas that go back to positions assume distinct layer names, as a pandas table with unique columns has.
- Output.GenerateMetadata and Output.Attributes take the cleaned column names as given and in order. Two columns that clean to the same name would make pandas return a Series for that label; this is not modelled.
- Compiler.GetWbleDictionaries: `wd_getters.copy()` is shallow, so setter traits of one rule share the same inner entry objects. `get_final_wd_dictionary` then updates those entries in place. The model merges by value, with fresh entries at every merge, so it does not show that aliasing. The program can therefore forbid more than `Compiler.CompileMeaning` states. Take rule 1 with setters {l: [t1, t2]} and getters {m: [x]}, then rule 2 with setters {l: [t1]} and getters {m: [y]}. Merging rule 2 at `restriction_code.py:646` updates the entry that t1 and t2 share through `restriction_code.py:545` and `:615`. So the program also forbids y of m beside t2 of l, and the model does not.
- Sampler.GenerateImgsTable: when layer names repeat but every name occurs equally often, the dictionary's lists have equal length, and pandas builds a table with one column per distinct name and more rows than draws. The model keeps one column per layer instead. A repeated name beside a name with a different count gives the `RaggedColumns` error, as `pd.DataFrame` raises ValueError.
- Rarity.RaritiesFromCsv: the CSV is a map from trait name to weight, after `dict(zip(...))`. Rows with a repeated trait name collapse, as in the source, and the corrupted-file exception of `nft.py:150-156` is not modelled.
- Unicode case mapping is not modelled. `str.lower`, `str.upper`, `str.title`, `str.isupper` and `sorted` work on ASCII letters, and every other character counts as uncased.
- Restriction sides that are dictionaries are modelled with string keys only. Any other key type is not a known layer name.
- Compiler.SetterPairsMeaning and Compiler.GetterPairsMeaning are stated over the checked, rewritten sides (`RuleParser.Side`). The raw Python values those sides come from are not re-read.

## Findings

| source | as written | input that shows it | evidently intended | confidence | as-written member | corrected member |
|---|---|---|---|---|---|---|
| restriction_code.py:162 | `list(traits) is set` is never true, so a set of traits is rejected (and a non-iterable value raises TypeError from `list(traits)`) | traits `{'Blue'}` for a layer that has a trait Blue | accept lists, tuples and sets, as the error message says | not executed | `RuleParser.SetRejectedAsWritten` | `RuleParser.SequenceCheck` |
| restriction_code.py:684 | the red flag compares `len(Restricted)` with the number of real traits, but 'Restricted' may contain 'none' | optional layer with traits {A, B}; a rule restricts 'none' and A of it | flag only when every real trait is restricted | not executed | `Diagnostics.GetterRedFlagOvercounts` | `Diagnostics.GetterIssueMeaning` |
| nft.py:162-172 | a 'none' row makes `init = 1` even for a required layer, so the first trait takes the 'none' weight and its missing row goes unreported | required layer [A, B] whose CSV has rows none = 5 and B = 1 | use the 'none' weight only for an optional layer's None, and report A as missing | not executed | `Rarity.NoneRowInRequiredLayer` | `Rarity.RaritiesAligned` |
