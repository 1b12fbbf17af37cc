# flexible: EAF ⇄ flextext conversion, modelled in Dafny

This project models the core of a pair of batch scripts. They convert between
ELAN annotation documents (EAF) and FLEx interlinear texts (flextext).

- **EAF:** time slots, tiers, and alignable and reference annotations.
- **flextext:** paragraph → phrase → word → morph, each level carrying typed items.

The XML trees are abstracted as Dafny datatypes. The scripts' loops become
methods proved against specification functions. The properties the scripts rely
on are proved as lemmas.

**Modules.**

- `Common` holds Option/Result, decimal rendering and parsing of numbers,
  Python's `str.strip`, and `split(".")[0]`.
- `Dict` models a Python dict as a sequence of pairs in insertion order.
  Assigning to a present key keeps its position.
- `Flexible` models the helper library `flexible.py`:
  - tokenising;
  - building word elements;
  - the time-slot map and the time order;
  - removing constrained tiers;
  - emitting one association annotation.
- flextext → EAF (`eaf_construction.py`):
  - `Elan` holds the output document. `EafDocument` is a class whose `log`
    records, in append order, every annotation appended to a tier.
  - `EafSchema`: the linguistic-type catalog and the per-speaker tier template.
  - `EafMerge`: merging of phrases that share a segnum prefix.
  - `EafSegments`: per-phrase extraction of times, translations, notes, words
    and morphs, threading `aID_count`.
  - `EafPairing`: pairing Target segments with Phonetic ones.
  - `EafEmit`: annotation emission, as a plan of steps run against the document.
  - `EafEmitFacts`: id allocation and the `PREVIOUS_ANNOTATION` chains.
  - `EafConvert`: the whole run, and the theorem on `lastUsedAnnotationId`.
- EAF → flextext (`flextext_construction.py`):
  - `Flextext`: the flextext datatypes.
  - `FlexTiers`: the partition into top tiers and their child tiers.
  - `FlexAnnotations`: the annotation map with its child fields.
  - `FlexParagraphs`: note classification and paragraph construction.
  - `FlexOrder`: the stable sort by begin offset and segnum numbering.
  - `FlexConvert`: the whole run.

**Where the EAF side can fail.** The Python `KeyError`, `IndexError` and
`AttributeError`-on-`None` failures are modelled as `Err` results. The
conditions under which the script would crash or reuse stale loop variables
become the preconditions:

- every phrase is Phonetic or Target (`EafConvert.Marked`);
- every Target has a matching Phonetic (`EafPairing.Pairable`).

**Quirks reproduced.** The model follows the code, including these behaviours:

- `tokenize` drops a run of `"."` at the end of a phrase; the loop has no flush
  after it.
- `morph_type` is overwritten by the item lookup, because it is also in
  `morph_keys`.
- The merge's `.//item[@type!='segnum']` also collects the word and morph items
  of later parts.
- Segments are emitted in first-occurrence order of their prefix.
- A phrase offset resolves to the *first* slot with that value.
- An annotation with a target child gets the marker note `"Target"` on its
  original phrase too.
- Association annotations are emitted even when their value is `""`.
- The base tier of emission is built from the speaker *code* noted on the
  phrase. The template names tiers after `speaker["name"]`, so where the two
  differ the model, like the script, finds no tier. That is a `MissingElement`
  error.

## Model

| member | source | states |
|---|---|---|
| Common.NatToStringInjective | eaf_construction.py:362 | distinct counter values render to distinct decimal strings, so the `"a"+str(n)` ids differ exactly when the counters differ |
| Common.PrefixedNatInjective | eaf_construction.py:362-364 | `prefix + str(m) == prefix + str(n)` implies `m == n` |
| Common.DecimalValueOfNatToString | eaf_construction.py:432 | the decimal rendering of n consists of digits and reads back as n |
| Common.ParseIntOfNatToString | flextext_construction.py:189-191 | `int(str(n)) == n`, so a segnum text reads back as its number |
| Common.ParseIntGrouped | flextext_construction.py:189 | `int("1_000") == 1000`: digits grouped by underscores are read as Python reads them |
| Common.ParseIntOfGroups | flextext_construction.py:189 | a numeral of digits grouped by single underscores parses to the value of its digits |
| Common.ParseIntDoubleUnderscore | flextext_construction.py:189 | a numeral with two underscores in a row, such as `"1__0"`, is a ValueError |
| Common.TrimLeft | flexible.py:26 | removes a whitespace prefix: the result is a suffix of the input and does not start with whitespace |
| Common.TrimRight | flexible.py:26 | removes a whitespace suffix: the result is a prefix of the input and does not end with whitespace |
| Common.StripEnds | flexible.py:26 | a non-empty stripped string neither starts nor ends with whitespace |
| Common.StripUnchanged | flexible.py:26 | stripping a string that neither starts nor ends with whitespace leaves it unchanged |
| Common.BeforeDot | eaf_construction.py:171-174 | `k.split(".")[0]` is the longest prefix of k without a `"."`, followed in k by a `"."` when it is shorter |
| Dict.GetPut | eaf_construction.py:172-174 | after `d[k] = v`, looking up k gives v and every other key is unchanged |
| Dict.PutKeys | eaf_construction.py:172-174 | assignment appends a new key at the end and keeps the order when the key is present |
| Dict.GetPutAll | flexible.py:57-59 | after a sequence of assignments, a key holds its last assigned value, or its earlier value when never assigned |
| Dict.LastValueAppend | flexible.py:57-59 | in a concatenation of assignments, the later block wins for the keys it assigns |
| Dict.KeysPutAll | flexible.py:57-59 | after a sequence of assignments the keys are the old keys and the assigned ones, and the dict stays duplicate-free |
| Dict.PutAllFresh | eaf_construction.py:26-69 | assigning distinct fresh keys to an empty dict gives exactly those pairs in order |
| Dict.PutTwice | eaf_construction.py:220-223 | assigning a key twice equals assigning only the second value |
| Dict.PutNew | eaf_construction.py:172 | assigning a fresh key appends the pair |
| Flexible.CharsFor | flexible.py:11-14 | the word-forming table knows exactly the main and child languages; other languages fail with KeyError |
| Flexible.FragmentsShape | flexible.py:26 | splitting on the non-word-forming pattern with a capture group alternates maximal word-forming runs (possibly empty) with single non-word-forming characters |
| Flexible.FragmentsConcat | flexible.py:26 | the split fragments concatenate back to the phrase |
| Flexible.StripAll | flexible.py:26 | each fragment is stripped, in order |
| Flexible.NonEmptyIn | flexible.py:26 | the filter keeps exactly the non-empty strings |
| Flexible.RawTokensStripped | flexible.py:26 | every raw token is non-empty and neither starts nor ends with whitespace |
| Flexible.Tokenize | flexible.py:16-39 | the token loop computes Tokens; a falsy phrase gives `[]` without looking the language up |
| Flexible.CoalesceTokens | flexible.py:27-37 | the loop with the `punct_chars` accumulator computes Coalesce from an empty run |
| Flexible.CoalesceTurn | flexible.py:29-36 | one loop turn: a `"."` extends the run; another token first flushes a pending run as `" " + run`, then is kept |
| Flexible.TokensClean | flexible.py:26-31 | no token is empty and none equals `"."` |
| Flexible.CoalesceClean | flexible.py:29-36 | coalescing non-empty tokens produces no empty token and no lone `"."` |
| Flexible.CoalesceDots | flexible.py:30-31 | k `"."` tokens only extend the pending run by k dots |
| Flexible.CoalesceRun | flexible.py:29-36 | k consecutive `"."` tokens followed by a token t yield exactly `" " + "."*k` immediately before t, and nothing when k is 0 |
| Flexible.CoalesceTrailing | flexible.py:29-37 | `"."` tokens at the end of the input are not emitted: there is no flush |
| Flexible.CoalesceKeepsTokens | flexible.py:29-36 | removing the flushed runs from the output leaves exactly the input tokens other than `"."`, in order |
| Flexible.DropRunsAppend | flexible.py:34 | dropping flushed runs distributes over concatenation |
| Flexible.TokensKeepWords | flexible.py:25-37 | the tokens of a phrase, without the flushed runs, are its raw tokens other than `"."` |
| Flexible.WordElements | flexible.py:73-83 | one word per token, in order; each has one item with the token as text, the language, and type `"punct"` iff the token contains a non-word-forming character, else `"txt"` |
| Flexible.AddWordEl | flexible.py:61-84 | appends exactly one `words` child holding WordElements of the tokens; an unknown language is a KeyError and changes nothing |
| Flexible.TimeValues | flexible.py:49-59 | the map's keys are exactly the slot ids; a slot without a value raises KeyError |
| Flexible.TimeValuesLastWins | flexible.py:57-59 | for a repeated slot id, the last slot's value wins |
| Flexible.TimedOffsets | flexible.py:109-117 | the phrases that produce slots are those carrying both offsets |
| Flexible.Attr | flexible.py:111-112 | the attribute value where the phrase has the attribute |
| Flexible.SlotPairsAt | flexible.py:111-115 | the j-th timed phrase gives slots 2j and 2j+1 |
| Flexible.SlotPairsIds | flexible.py:108-113 | slot k is named `ts(k+1)` |
| Flexible.SlotPairsFacts | flexible.py:108-117 | each timed phrase gives a begin slot `ts(2j+1)` and an end slot `ts(2j+2)` with its offsets; all slot ids are distinct |
| Flexible.MakeTimes | flexible.py:98-118 | the counter loop emits, for each phrase with both offsets, in order, a begin slot `tsN` and an end slot `tsN+1`; phrases missing either offset add nothing and consume no id; ids are pairwise distinct |
| Flexible.TypesWithConstraint | flexible.py:94 | exactly the ids of the types whose CONSTRAINTS equal c |
| Flexible.KeepTiers | flexible.py:95-96 | exactly the tiers whose type is not removed survive, in order |
| Flexible.KeepTiersAppend | flexible.py:94-96 | filtering distributes over concatenation of tier lists |
| Flexible.KeepTiersStep | flexible.py:94-96 | removing one more type after a filter equals filtering by the extended list |
| Flexible.RemoveTiersOfType | flexible.py:95-96 | the in-place removal leaves exactly the tiers not of that type; types and slots are unchanged |
| Flexible.RemoveConstraint | flexible.py:86-96 | afterwards no tier references a type whose CONSTRAINTS equal c; other tiers stay in order; types and slots are unchanged |
| Flexible.KeepTiersIdempotent | flexible.py:94-96 | a second removal with the same constraint removes nothing |
| Flexible.KeepTiersNone | flexible.py:94 | with no constrained type nothing is removed |
| Flexible.MakeAssocAnnotation | flexible.py:153-188 | returns `aID_count + 1` and appends exactly one reference annotation `aID_count` to `parent` on tier `base-tierType`, even with value `""`; a missing key raises KeyError and leaves the tiers unchanged; a missing tier fails and appends nothing |
| Elan.AnnotationsOnAppend | eaf_construction.py:345-397 | a tier's annotations after more appends are its earlier annotations followed by the new ones on that tier |
| Elan.EafDocument.Append | eaf_construction.py:345-346 | `eaf.find(TIER_ID=t).append(ann)`: appends to the log iff a tier has that id, and changes nothing else |
| Elan.EafDocument.SetLastUsed | eaf_construction.py:432 | sets the `lastUsedAnnotationId` text iff the header has that property |
| EafSchema.TnsAssignments | eaf_construction.py:40-46 | one `tns-l` association type per translation language, in order |
| EafSchema.DataAssignments | eaf_construction.py:47-53 | association types `notes`, `target`, `gls`, `pos` |
| EafSchema.MorphAssignments | eaf_construction.py:55-69 | one `morph-k` type per morph key, a subdivision for `txt` and an association otherwise |
| EafSchema.AddTnsTypes | eaf_construction.py:40-46 | the translation loop assigns the translation types in order |
| EafSchema.AddDataTypes | eaf_construction.py:47-53 | the data-type loop assigns its four types in order |
| EafSchema.AddMorphTypes | eaf_construction.py:55-69 | the morph-key loop assigns the morph types in order |
| EafSchema.BuildTypes | eaf_construction.py:26-69 | the catalog built by the literal and the three loops |
| EafSchema.LaterAllShaped | eaf_construction.py:32-69 | every type after the language's is not time-alignable; `words` and `morph-txt` are subdivisions, all others associations |
| EafSchema.CatalogClassification | eaf_construction.py:26-69 | the catalog's keys are the language and the later keys; only the language type is time-alignable and unconstrained (unless a later key overwrote it); `words` and `morph-txt` are Symbolic_Subdivision; every other type is Symbolic_Association |
| EafSchema.TnsTiers | eaf_construction.py:88-94 | one translation tier per translation language |
| EafSchema.SpeakerTiers | eaf_construction.py:76-158 | the tier loop of one speaker builds the speaker's template |
| EafSchema.BranchTiers | eaf_construction.py:113-127 | the gls/pos/morph-txt tiers followed by the morph tiers of one branch |
| EafSchema.ParentsAppend | eaf_construction.py:81-157 | appending tiers whose parents are already present keeps every parent earlier |
| EafSchema.BranchParents | eaf_construction.py:113-127 | a branch's data and morph tiers name earlier tiers as parents |
| EafSchema.PhoneticParents | eaf_construction.py:81-127 | the phonetic tiers start with the phonetic tier, and every parent is earlier |
| EafSchema.KidParents | eaf_construction.py:128-157 | the kid tiers name earlier tiers as parents |
| EafSchema.SpeakerTemplateParents | eaf_construction.py:76-158 | every `PARENT_REF` of a speaker's tiers names an earlier tier of the same list |
| EafSchema.TemplateTail | eaf_construction.py:88-157 | after the phonetic tier come the translation, notes/xds, words, branch and (for a kid) target tiers, in that order |
| EafSchema.KidOwned | eaf_construction.py:128-157 | the kid tiers have a parent and belong to the speaker |
| EafSchema.OwnedBlocks | eaf_construction.py:88-157 | every tier after the phonetic one has a parent and belongs to the speaker |
| EafSchema.SpeakerTemplateShape | eaf_construction.py:76-158 | each speaker gets 13 + \|translations\| tiers, plus 11 iff kid; only the phonetic tier lacks `PARENT_REF`; every `PARENT_REF` names an earlier tier of the same list; all tiers carry the speaker's name |
| EafSchema.LaterKeysHave | eaf_construction.py:40-69 | the catalog has a type for each translation and each morph key |
| EafSchema.BranchTypes | eaf_construction.py:111-127 | the branch tiers use catalog types |
| EafSchema.TemplateTypesIn | eaf_construction.py:76-158 | every tier of the template refers to a type key of the catalog |
| EafSchema.SpeakerTemplateTypes | eaf_construction.py:26-158 | every template tier's `LINGUISTIC_TYPE_REF` names a type present in the catalog |
| EafSchema.MakeSpeakerTiers | eaf_construction.py:76-163 | all speakers' tiers in speaker order; a KeyError exactly when a speaker code is missing from the configuration |
| EafSchema.AllTemplatesErr | eaf_construction.py:78 | once a speaker code fails, the loop's result is that failure |
| EafMerge.Keyed | eaf_construction.py:167 | every phrase paired with its first item's text; a failure where some phrase has none |
| EafMerge.AllPhrasesLastWins | eaf_construction.py:167 | in the segnum dict, a repeated segnum keeps the last phrase |
| EafMerge.AllPhrasesKeys | eaf_construction.py:167 | the dict's keys are exactly the phrases' segnums |
| EafMerge.GroupedKeys | eaf_construction.py:169-174 | the groups are the segnum prefixes in first-occurrence order |
| EafMerge.GroupedMembers | eaf_construction.py:169-174 | each group holds, in dict order, the phrases whose segnum has that prefix |
| EafMerge.PrefixesDistinct | eaf_construction.py:169-174 | no prefix has two groups |
| EafMerge.Group | eaf_construction.py:169-174 | the grouping loop computes Grouped |
| EafMerge.CopiedItems | eaf_construction.py:188 | the items `.//item[@type!='segnum']` selects: those with a type other than `segnum` |
| EafMerge.AppendWords | eaf_construction.py:185-186 | appends the words to the first `words` child and changes nothing else; fails when there are words to append but no `words` child |
| EafMerge.AppendWordsTwice | eaf_construction.py:183-186 | appending two word lists one after the other equals appending their concatenation |
| EafMerge.MergeStepFacts | eaf_construction.py:183-189 | one later part appends its words to the first `words` child and its descendant non-segnum items at the end |
| EafMerge.MergeRestOk | eaf_construction.py:183-189 | the merge succeeds iff every later part has a `words` child, and the first part has one whenever there are words to append |
| EafMerge.MergeRestShape | eaf_construction.py:183-189 | the merged children are the first part's, with all later words appended to its `words` child, then all later items in order |
| EafMerge.MergeParts | eaf_construction.py:178-191 | the merge loop over a group computes Merged |
| EafMerge.MergedFacts | eaf_construction.py:178-191 | the first part keeps its words with later parts' words appended in order, the attributes come from the last part, and segnum is set to the prefix |
| EafMerge.GroupResults | eaf_construction.py:178-193 | one result per group, in group order |
| EafMerge.Collect | eaf_construction.py:193 | all results gathered in order, else a failure |
| EafMerge.MergeAll | eaf_construction.py:178-193 | the merged dict keeps the group keys in order; each value is its group's phrase; it fails iff some group fails |
| EafMerge.MergeGroups | eaf_construction.py:178-193 | the loop over the groups computes MergeAll |
| EafMerge.GroupsNonEmpty | eaf_construction.py:171-174 | no group is empty |
| EafSegments.FirstSlot | eaf_construction.py:209-214 | the index of the first slot with the given value, or none |
| EafSegments.ResolveTime | eaf_construction.py:207-216 | KeyError without the offset attribute; an error iff no slot has the value; otherwise the *first* slot with that value |
| EafSegments.TnsValueErr | eaf_construction.py:221-223 | the gls scan fails exactly on a gls item without `lang` |
| EafSegments.TnsValueLastWins | eaf_construction.py:219-223 | a translation defaults to `""`; among the matching gls items the last wins |
| EafSegments.TnsEntries | eaf_construction.py:219-223 | one entry per translation language, in order; the only failure is KeyError on `lang` |
| EafSegments.TnsEntriesErr | eaf_construction.py:219-223 | a failure iff there is some translation language and some gls item lacks `lang` |
| EafSegments.TnsMapGet | eaf_construction.py:219-223 | `phrase_dict["tns-l"]` holds the scanned value for each translation language |
| EafSegments.Translations | eaf_construction.py:218-223 | the translation loop computes TnsMap |
| EafSegments.ScanGls | eaf_construction.py:220-223 | the gls scan for one language sets `tns-l` to its value |
| EafSegments.ClassifyNotes | eaf_construction.py:226-250 | the note loop computes Classify from the initial fields |
| EafSegments.ClassifyErr | eaf_construction.py:239 | once a note fails, the loop's result is that failure |
| EafSegments.Others | eaf_construction.py:246-250 | the notes concatenated are the non-empty unclassified ones |
| EafSegments.ClassifyOk | eaf_construction.py:231-250 | the note loop fails exactly on a note `"a"` alone (`note.text[1]`) |
| EafSegments.ClassifyJoin | eaf_construction.py:246-250 | the notes field is the unclassified notes joined with `"; "`; empty notes are skipped |
| EafSegments.ClassifyCount | eaf_construction.py:234-238 | the counter grows by the number of Phonetic notes; the alignable id is the last one taken |
| EafSegments.ClassifyLast | eaf_construction.py:234-244 | precedence marker, then `"a"`+digit as `orig_aID`, then speaker key, then xds; the last note of each kind wins |
| EafSegments.PhoneticHasId | eaf_construction.py:236-238 | a Phonetic phrase has its alignable id allocated |
| EafSegments.KeyEntries | eaf_construction.py:287-291 | one entry per key with the first matching item's text, else `""` |
| EafSegments.MorphRecordShape | eaf_construction.py:282-291 | the morph record's keys are `morph_type` then the morph keys; each value is the item lookup, so `morph_type` is overwritten |
| EafSegments.MorphEntriesAt | eaf_construction.py:283-291 | `morph_type` is first set from the type attribute and then overwritten by the lookup |
| EafSegments.MorphInfo | eaf_construction.py:280-292 | the morph loop computes MorphRecord |
| EafSegments.WordText | eaf_construction.py:263-272 | the main-language item first; else the child-language item, only for a Phonetic phrase (KeyError otherwise); else `""` |
| EafSegments.MorphRecords | eaf_construction.py:280-294 | one record per morph, in order |
| EafSegments.WordInfo | eaf_construction.py:261-295 | the word loop body computes WordRecord |
| EafSegments.RecordsFacts | eaf_construction.py:259-297 | the list succeeds iff every element succeeds, and then holds each element's value in order |
| EafSegments.RecordsErr | eaf_construction.py:259-297 | once a word fails, the loop's result is that failure |
| EafSegments.WordRecordsFacts | eaf_construction.py:259-297 | the word list succeeds iff every word does, and then holds each word's record in order |
| EafSegments.WordList | eaf_construction.py:259-297 | the word loop computes WordRecords |
| EafSegments.ExtractPhrase | eaf_construction.py:203-298 | one segment iteration computes ExtractOne |
| EafSegments.ExtractAllErr | eaf_construction.py:203-298 | once a phrase fails, the loop's result is that failure |
| EafSegments.ExtractSegments | eaf_construction.py:196-300 | the segment loop over the merged phrases computes ExtractAll |
| EafSegments.ExtractOneFacts | eaf_construction.py:203-298 | a segment keeps its segnum, the counter never decreases, an alignable id is taken from the counter, and nothing is paired yet |
| EafSegments.ExtractAllShape | eaf_construction.py:203-300 | one segment per merged phrase, in order, with its segnum |
| EafSegments.ExtractAllIds | eaf_construction.py:196-238 | the alignable ids are increasing and lie between 1 and the final counter |
| EafPairing.LastMatch | eaf_construction.py:305-310 | the last Phonetic segment with the same `orig_aID`, or none |
| EafPairing.PairWithClosed | eaf_construction.py:305-310 | the inner loop advances the counter once per match; the last match sets `ann_ref`, `ref_aID` and speaker |
| EafPairing.PairAll | eaf_construction.py:303-310 | one segment out per segment in |
| EafPairing.Scan | eaf_construction.py:305-310 | the inner loop computes PairWith |
| EafPairing.PairTargets | eaf_construction.py:303-310 | the pairing loop computes Pair |
| EafPairing.PairWithKeeps | eaf_construction.py:305-310 | pairing keeps the marker and `orig_aID`; the counter never decreases |
| EafPairing.PairAllAt | eaf_construction.py:303-310 | each segment is paired against the segments as they stand |
| EafPairing.PairAllCount | eaf_construction.py:308-310 | pairing never lowers the counter |
| EafPairing.PairAllIds | eaf_construction.py:308-310 | the `ref_aID`s are increasing and lie between the counter before and after pairing |
| EafPairing.PairReady | eaf_construction.py:303-310 | with the preconditions, each Target gets a fresh `ref_aID`, an `ann_ref` equal to the matching Phonetic's alignable id, and that Phonetic's speaker; other segments are unchanged |
| EafEmit.FirstErrorNone | eaf_construction.py:317-404 | the plan succeeds iff no step fails |
| EafEmit.FirstErrorConcat | eaf_construction.py:317-404 | the first error of two plans run one after the other |
| EafEmit.EntriesConcat | eaf_construction.py:317-404 | the appended annotations of two plans run one after the other |
| EafEmit.MorphDictKeys | eaf_construction.py:398 | the morph dict's keys are `morph-`-prefixed and none is `morph-txt` |
| EafEmit.MorphOne | eaf_construction.py:380-403 | one morph gives the subdivision and one association per morph-dict key |
| EafEmit.WordOne | eaf_construction.py:356-404 | one word gives its subdivision, pos, gls and its morphs' steps |
| EafEmit.WordAssocsFromRecord | eaf_construction.py:376-377 | the pos and gls associations of a word record |
| EafEmit.PhraseKeys | eaf_construction.py:349-350 | the phrase-level tiers: notes, xds, then one `tns-l` per translation |
| EafEmit.EmitAssocs | eaf_construction.py:350-352 | the association loop: fails iff some step fails (with the first error); otherwise it appends the plan's annotations and advances the counter by the number of keys |
| EafEmit.EmitMorph | eaf_construction.py:380-403 | one morph iteration runs its plan MorphOne: the first error, or all its annotations and the counter advanced by its length |
| EafEmit.RunTurn | eaf_construction.py:356-404 | one turn of an item loop: the turn's first error is the plan's, or the loop goes on with the previous-id set to this item |
| EafEmit.EmitMorphs | eaf_construction.py:378-403 | the morph loop runs MorphSteps from no previous morph |
| EafEmit.EmitWord | eaf_construction.py:356-403 | one word iteration runs its plan WordOne |
| EafEmit.EmitWords | eaf_construction.py:355-404 | the word loop runs WordSteps from no previous word |
| EafEmit.EmitBaseline | eaf_construction.py:322-346 | the baseline annotation on the base tier: alignable for Phonetic, a reference to `ann_ref` for Target; returns the text id |
| EafEmit.EmitRest | eaf_construction.py:348-404 | the phrase associations and then the words |
| EafEmit.EmitSegment | eaf_construction.py:321-404 | one segment iteration runs SegmentSteps |
| EafEmit.AllCons | eaf_construction.py:317 | the whole plan is the first segment's steps followed by the rest's |
| EafEmit.EmitAll | eaf_construction.py:317-404 | the emission loop runs AllSteps: the first error, or every annotation of the plan appended in order and the counter at AllNext |
| EafEmitFacts.PlanIdsOfEntries | eaf_construction.py:317-404 | the ids the document receives are the plan's ids |
| EafEmitFacts.MorphOneConsecutive | eaf_construction.py:382-401 | one morph's annotations take consecutive ids from the counter |
| EafEmitFacts.RunConsecutive | eaf_construction.py:356-404 | a loop of items that each take consecutive ids takes consecutive ids |
| EafEmitFacts.MorphStepsConsecutive | eaf_construction.py:380-403 | the morphs of a word take consecutive ids |
| EafEmitFacts.WordOneConsecutive | eaf_construction.py:357-401 | one word's annotations take consecutive ids |
| EafEmitFacts.WordStepsConsecutive | eaf_construction.py:356-404 | the words of a segment take consecutive ids |
| EafEmitFacts.RestConsecutive | eaf_construction.py:350-404 | a segment's annotations after the baseline take consecutive ids from the counter |
| EafEmitFacts.SegmentIds | eaf_construction.py:330-338 | a segment's ids are its text id followed by the counted ids |
| EafEmitFacts.LoopIds | eaf_construction.py:317-404 | over a loop of segments with fresh text ids, the ids are distinct; each is a counted id or one of the text ids |
| EafEmitFacts.AllStepsIds | eaf_construction.py:317-404 | every emitted id is distinct, and each is either in the counter range from c up to AllNext or one of the segments' text ids |
| EafEmitFacts.FreshTail | eaf_construction.py:330-338 | the remaining segments keep fresh text ids distinct from the first one |
| EafEmitFacts.ChainCons | eaf_construction.py:361-364 | a first subdivision naming `prev`, followed by a chain starting from it, is a chain |
| EafEmitFacts.OnlyHead | eaf_construction.py:373-397 | an item that writes its subdivision first and nothing else to that tier contributes exactly that annotation |
| EafEmitFacts.MorphOneTiers | eaf_construction.py:381-401 | a morph writes to `base-morph-txt` first, then only to longer tier names |
| EafEmitFacts.RunTiers | eaf_construction.py:380-403 | a loop of such items writes only to longer names |
| EafEmitFacts.MorphStepsTiers | eaf_construction.py:380-403 | the morph loop writes only to tiers with names longer than the base |
| EafEmitFacts.RunChain | eaf_construction.py:361-388 | a loop whose items each put one subdivision on a tier, naming the previous item, leaves there a chain of the items' values |
| EafEmitFacts.MorphChain | eaf_construction.py:380-403 | within a word, the morph-txt annotations refer to the word's id, hold the morphs' `txt` in order, and each later one names the previous as `PREVIOUS_ANNOTATION`; the first names none |
| EafEmitFacts.WordChain | eaf_construction.py:355-365 | within a phrase, every word annotation refers to the phrase's id; the first has no `PREVIOUS_ANNOTATION` and each later one names the preceding word |
| EafEmitFacts.WordOneTiers | eaf_construction.py:359-401 | a word writes its subdivision to `base-words` first and nothing else there |
| EafConvert.PairKeepsMarker | eaf_construction.py:303-310 | pairing keeps every segment's marker |
| EafConvert.PreparedCount | eaf_construction.py:196-310 | the counter is at least 1 after extraction and pairing |
| EafConvert.AllNextGrows | eaf_construction.py:317-404 | emission never lowers the counter |
| EafConvert.PrepareSegments | eaf_construction.py:167-310 | merge, extraction and pairing compute Prepare |
| EafConvert.Convert | eaf_construction.py:13-432 | the run on one text: the type catalog, and the document Build describes, or its error |
| EafConvert.Finish | eaf_construction.py:317-432 | emission, then `lastUsedAnnotationId = str(aID_count - 1)`, or the first error |
| EafConvert.FreshFromParts | eaf_construction.py:237-310 | the alignable ids and `ref_aID`s together are distinct and below the counter |
| EafConvert.PreparedFresh | eaf_construction.py:196-310 | after pairing, each segment's text id is distinct and below the counter |
| EafConvert.OutcomeIds | eaf_construction.py:317-432 | every annotation id in the output is distinct and lies between 1 and the recorded `lastUsedAnnotationId` |
| EafConvert.BuildIds | eaf_construction.py:196-432 | in a successful run `lastUsedAnnotationId` is a decimal numeral, and every annotation id in the document is distinct and lies between 1 and its value |
| Flextext.ItemsOfType | eaf_construction.py:218-231 | `findall("./item[@type=t]")`: exactly the items of that type |
| Flextext.ItemsOfTypeConcat | eaf_construction.py:218-231 | the filter keeps document order: it distributes over concatenation |
| Flextext.FirstOfType | eaf_construction.py:275-276 | `find("./item[@type=t]")`: the first item of that type, if any |
| Flextext.FirstOfLang | eaf_construction.py:263-267 | `find("./item[@lang=l]")`: the first item with that language, if any |
| Flextext.FirstWordsIndex | eaf_construction.py:185-186 | the first `words` child, if any |
| Flextext.SetInItemsAt | eaf_construction.py:182 | setting the segnum text changes exactly the first segnum item |
| Flextext.SetInItemsSome | eaf_construction.py:182 | it succeeds iff some item is a segnum |
| Flextext.SetInItemsConcat | eaf_construction.py:182 | the first segnum of a concatenation is in the first part when present there |
| Flextext.SetInChildrenFlat | eaf_construction.py:182 | `find(".//item[@type='segnum']")` on the tree acts on the first segnum of the document-order item list |
| FlexTiers.TargetTiers | flextext_construction.py:58 | exactly the ids of tiers whose type is a target type |
| FlexTiers.TopFilter | flextext_construction.py:63-64 | exactly the tiers with no `PARENT_REF` and an id and type not excluded, in document order |
| FlexTiers.TopsFacts | flextext_construction.py:61-70 | one top entry per top tier, in document order; a KeyError iff a top tier has no participant |
| FlexTiers.TopTiers | flextext_construction.py:61-70 | the loop computes Tops |
| FlexTiers.TopsErr | flextext_construction.py:63-70 | once a tier fails, the loop's result is that failure |
| FlexTiers.FirstTop | flextext_construction.py:76-80 | the first top tier with that id, if any |
| FlexTiers.Attach | flextext_construction.py:73-80 | the top tiers' ids, participants and tiers are unchanged |
| FlexTiers.ChildrenOf | flextext_construction.py:73-80 | exactly the qualifying child tiers whose `PARENT_REF` first matches the j-th top tier |
| FlexTiers.AttachChildren | flextext_construction.py:73-80 | each top tier receives, in document order, exactly the qualifying child tiers whose `PARENT_REF` first matches it |
| FlexTiers.DroppedChild | flextext_construction.py:76-80 | a child tier whose parent is not a top tier is dropped |
| FlexTiers.AttachChildTiers | flextext_construction.py:73-80 | the loop with its inner search computes Attach |
| FlexTiers.FindTop | flextext_construction.py:76-80 | the inner search with `break` computes FirstTop |
| FlexAnnotations.FirstUnplaced | flextext_construction.py:85-91 | the first annotation that is not alignable or names an unknown slot |
| FlexAnnotations.Entries | flextext_construction.py:85-96 | one entry per annotation, keyed by its id, with offsets from the slot map |
| FlexAnnotations.AddParentsFacts | flextext_construction.py:84-96 | the keys added are exactly the annotation ids; other keys are unchanged; each id holds its last annotation's entry |
| FlexAnnotations.EntryKeys | flextext_construction.py:87 | the entries' keys are the annotation ids |
| FlexAnnotations.AddParentsFrom | flextext_construction.py:85-96 | every added key holds the entry of some annotation with that id |
| FlexAnnotations.FirstUnresolved | flextext_construction.py:99-105 | the first child annotation that is not a reference to a known annotation |
| FlexAnnotations.StoreRefs | flextext_construction.py:99-105 | storing the child fields keeps the keys |
| FlexAnnotations.LastRefSpec | flextext_construction.py:99-105 | within one child tier, the last annotation referring to a parent wins |
| FlexAnnotations.StoreRefsValues | flextext_construction.py:98-105 | afterwards each entry has the tier's field set to the last referring annotation's value and translation label, and is otherwise unchanged |
| FlexAnnotations.StoreRefsHeads | flextext_construction.py:99-105 | child fields never change an entry's offsets, text or speaker |
| FlexAnnotations.FirstBadTier | flextext_construction.py:98-105 | the first child tier with an unresolved annotation |
| FlexAnnotations.StoreTiers | flextext_construction.py:98-105 | storing all child tiers keeps the keys |
| FlexAnnotations.StoreTiersHeads | flextext_construction.py:98-105 | after all child tiers the entries' own fields are unchanged |
| FlexAnnotations.AnnotationsFacts | flextext_construction.py:83-105 | the map succeeds iff every slot ref and every `ANNOTATION_REF` resolves (KeyError otherwise); its keys are exactly the top annotations' ids, and each entry's offsets, text and speaker come from a top annotation with that id |
| FlexAnnotations.AddTopFacts | flextext_construction.py:84-105 | one more top tier keeps the map's invariant |
| FlexAnnotations.AnnotationsErr | flextext_construction.py:84-105 | once a top tier fails, the loop's result is that failure |
| FlexAnnotations.EnterParents | flextext_construction.py:85-96 | the loop over a top tier's annotations computes AddParents |
| FlexAnnotations.FillChildTier | flextext_construction.py:99-105 | the loop over one child tier computes FillRefs |
| FlexAnnotations.FillChildTiers | flextext_construction.py:98-105 | the loop over the child tiers computes FillTiers |
| FlexAnnotations.CollectAnnotations | flextext_construction.py:83-105 | the outer loop computes Annotations |
| FlexParagraphs.ClassifyTarget | flextext_construction.py:120-128 | a target text exists iff some non-translation field is on a target tier; it is the last such field's text |
| FlexParagraphs.ClassifyItems | flextext_construction.py:120-134 | the items are exactly `NonTargetItems`: one per field that is not a target, in field order (a translation field a gls item with its language, any other a note); a target field makes no item |
| FlexParagraphs.CollectNotes | flextext_construction.py:118-134 | the notes loop computes Classify |
| FlexParagraphs.PhraseAttrsAt | flextext_construction.py:116 | the phrase carries the entry's offsets and speaker and the media guid |
| FlexParagraphs.ItemChildren | flextext_construction.py:154-155 | appended notes are direct items and add no words |
| FlexParagraphs.PhraseOf | flextext_construction.py:152-155 | a phrase of one `words` element followed by notes has those words and those items |
| FlexParagraphs.EntryParagraphsFacts | flextext_construction.py:108-182 | two paragraphs with a target (the original text tokenised in the child language with the non-target field items in field order, then the marker, id and speaker notes; the target text in the main language with only the id and `"Target"` notes), otherwise one paragraph in the main language; every phrase has the entry's offsets, speaker and media guid |
| FlexParagraphs.WordsPhrase | flextext_construction.py:151-152 | a phrase holding the tokenised utterance |
| FlexParagraphs.AppendItems | flextext_construction.py:154-155 | appending the notes keeps the phrase's earlier children |
| FlexParagraphs.MakeParagraphs | flextext_construction.py:108-182 | the loop body computes EntryParagraphs |
| FlexParagraphs.ConcatFrom | flextext_construction.py:108-182 | the paragraphs are exactly those of some entry |
| FlexParagraphs.ParagraphsFrom | flextext_construction.py:108-182 | every paragraph comes from an annotation entry |
| FlexParagraphs.ParagraphsCount | flextext_construction.py:149-182 | one paragraph per annotation plus one per annotation with a target |
| FlexParagraphs.BuildParagraphs | flextext_construction.py:108-182 | the paragraph loop computes Paragraphs |
| FlexOrder.FirstFailing | flextext_construction.py:189 | the first paragraph whose begin offset is not an integer |
| FlexOrder.InsertPerm | flextext_construction.py:189 | insertion adds exactly the one paragraph |
| FlexOrder.SortPerm | flextext_construction.py:189 | sorting is a permutation |
| FlexOrder.InsertOrdered | flextext_construction.py:189 | insertion keeps the order |
| FlexOrder.SortOrdered | flextext_construction.py:189 | the result is ordered by begin offset ascending |
| FlexOrder.InsertWithKey | flextext_construction.py:189 | insertion keeps the relative order of equal keys, placing the new one last |
| FlexOrder.SortStable | flextext_construction.py:189 | the sort is stable: paragraphs with equal keys keep their order |
| FlexOrder.SortByBeginFacts | flextext_construction.py:189 | the sort succeeds iff every begin offset parses as an integer (else ValueError at the first one that does not); then the result is an ordered, stable permutation |
| FlexOrder.Numbered | flextext_construction.py:189-194 | one paragraph out per paragraph in |
| FlexOrder.StrippedNumbered | flextext_construction.py:193 | removing the inserted segnum item gives back the paragraphs |
| FlexOrder.SegnumValue | flextext_construction.py:190-191 | the segnum item is of type segnum and its text reads back as its number |
| FlexOrder.NumberedAt | flextext_construction.py:185-194 | paragraph i gets segnum `str(i+1)` as the first child of its phrase; everything else is unchanged |
| FlexOrder.NumberedKeys | flextext_construction.py:189-194 | numbering keeps every begin offset, and with it the order |
| FlexOrder.NumberParagraphs | flextext_construction.py:185-194 | the `seg_count` loop computes Numbered |
| FlexConvert.PrunedKeeps | flextext_construction.py:47-48 | after removal by every excluded constraint, exactly the tiers whose type is not so constrained remain |
| FlexConvert.ConversionFacts | flextext_construction.py:47-194 | the run fails exactly where a stage fails; otherwise its paragraphs, without segnums, are an ordered, stable permutation of the unsorted ones, numbered from 1 |
| FlexConvert.ToFlextext | flextext_construction.py:46-194 | the run removes the constrained tiers in place and computes Conversion |

## Left out

- Reading the configuration and the command line, parsing and writing XML and
  JSON, `ET.indent`, and date-based file names and titles: these are I/O. The
  configuration is a parameter, `Config` or `FlexConfig`.
- The `uuid4` guids are random, so they are not modelled. The media guid is a
  parameter of `FlexParagraphs.Style`.
- The speaker codes come from a Python set, whose iteration order is
  unspecified. They are a parameter sequence. `EafConvert.Convert` requires
  them to be distinct, as a set's elements are; the functions under it accept
  any sequence and would build a repeated code's tiers twice.
- Input tiers are assumed schema-valid: `TIER_ID` and `LINGUISTIC_TYPE_REF`
  are mandatory fields of `Elan.InTier`, so the KeyError the script raises at
  flextext_construction.py:58-75 for a tier without one is not modelled.
  `PARTICIPANT`, which the schema does not require, is optional and its
  KeyError is modelled.
- Progress printing is not modelled: `print_el_info`, the milestone counter
  (including its `int(segnum)`), and the KeyError message. `parse_phrase` is not
  modelled either, since it has no effect.
- Passthroughs are not modelled. These are the header and media descriptors
  copied from the original EAF, and its languages, constraints and controlled
  vocabularies. The same goes for the languages and media elements of the
  flextext, the title regex on the file path, and the final loop that re-adds
  tiers already present.
- Regular expressions are modelled as character predicates. The word-forming
  table holds only the main and child languages, as in the configuration.
- Element text that is `None` is modelled as `""`. So `" ".join` over a `None`
  word text, which would raise, is not reproduced.
- Where the script raises part-way, the model states only the error. The
  partial document the script leaves behind is not stated.
- The flextext tree is modelled as values. The script's in-place edits (the
  merge's attribute and segnum changes, `add_word_el`, the inserted segnum
  item, the `translation` attribute set on input elements) return new values.
- The `id_note` element is shared between the original and the target phrase.
  The model holds it as two equal items, so aliasing is not captured.
- Flexible.Tokenize: whitespace for `strip` is the Unicode whitespace set of
  Python's `str.isspace`, and no other case folding or normalisation is
  modelled.
- Common.ParseInt: reads ASCII digits only (with sign, surrounding whitespace
  and single underscores between digits). Python's `int` also accepts the other
  Unicode decimal digits, such as Arabic-Indic or fullwidth ones. On a begin offset
  written with those, the model reports ValueError where the script sorts, so
  FlexOrder.SortByBeginFacts and FlexConvert.ConversionFacts promise success on
  a narrower set of offsets.
- EafMerge.Keyed: when a phrase's first child is a `words` element, the model
  fails with MissingElement. The script instead takes that element's text as
  the key, and raises AttributeError at `k.split` only when the text is None.
  A segnum item whose text is None gives the model the key `""`, where the
  script raises AttributeError at `k.split`.
- EafConvert.Convert: the script reads `orig[0][0].attrib["MEDIA_URL"]` before
  the first segment. An EAF whose header's first child is not a media
  descriptor stops it with KeyError, and an empty header with IndexError. The
  model is not given the original header, and Build succeeds on such input.
- FlexConvert.ConversionFacts: `media_descriptor[0]` raises IndexError on an
  EAF without a media descriptor. The model is not given the descriptors, and
  Conversion succeeds on such input.
- EafMerge.CopiedItems: an item without a `type` attribute and one with
  `type=""` are both modelled as type `""`, and neither is copied.
  ElementTree's `[@type!='segnum']` does copy the one with `type=""`.
