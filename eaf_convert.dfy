/** The flextext-to-EAF conversion of one text, end to end: the time order,
    the type catalog, the speakers' tiers, the phrase merge, segment
    extraction, pairing, the annotations and the final
    `lastUsedAnnotationId`.  The whole run is described by the function
    `Build`, and the theorem `BuildIds` states that every annotation id the
    document receives is distinct and at most the recorded last id. */
module EafConvert {
  import opened Common
  import opened Dict
  import opened Flextext
  import opened Elan
  import opened EafSchema
  import opened EafMerge
  import opened EafSegments
  import opened EafPairing
  import opened EafEmit
  import opened EafEmitFacts
  import Flexible

  /** The TIME_ORDER the script builds from the phrase elements. */
  function TimeOrder(phrases: seq<Phrase>): seq<TimeSlot> {
    Flexible.SlotPairs(Flexible.Timed(phrases))
  }

  // ---------------------------------------------------------------------------
  // Segments

  /** The segments before and after pairing, with the counter after each. */
  datatype Prepared = Prepared(segs: seq<Segment>, afterExtract: nat, paired: seq<Segment>, afterPair: nat)

  /** The merged phrases of the text, in first-occurrence order of their
      segnum prefix. */
  function MergedPhrases(phrases: seq<Phrase>): Result<Dict<Phrase>> {
    var d :- AllPhrases(phrases);
    GroupsNonEmpty(d);
    MergeAll(Grouped(d))
  }

  /** Extraction from `aID_count = 1`, then pairing. */
  function Prepare(cfg: Config, slots: seq<TimeSlot>, phrases: seq<Phrase>): Result<Prepared> {
    var merged :- MergedPhrases(phrases);
    var ex :- ExtractAll(cfg, slots, merged, 1);
    var (paired, c) := Pair(ex.0, ex.1);
    Ok(Prepared(ex.0, ex.1, paired, c))
  }

  /** Every phrase carries a Phonetic or Target marker note: the emission loop
      relies on it, since otherwise it reads the tier name and baseline of an
      earlier phrase, or none at all. */
  ghost predicate Marked(cfg: Config, phrases: seq<Phrase>) {
    var p := Prepare(cfg, TimeOrder(phrases), phrases);
    p.Ok? ==> forall i :: 0 <= i < |p.value.segs| ==> p.value.segs[i].marker != NoMarker
  }

  /** Pairing keeps every segment's marker. */
  lemma PairKeepsMarker(segs: seq<Segment>, c: nat, i: nat)
    requires i < |segs|
    ensures |Pair(segs, c).0| == |segs| && Pair(segs, c).0[i].marker == segs[i].marker
  {
    PairAllAt(segs, |segs|, c, i);
    if segs[i].marker == Target {
      PairWithKeeps(segs, |segs|, segs[i], PairAll(segs, i, c).1);
    }
  }

  // ---------------------------------------------------------------------------
  // The whole run

  /** The document as the script leaves it: the tier skeleton, the time order,
      the annotations in the order they were appended and the text of
      `lastUsedAnnotationId`. */
  datatype Built = Built(tiers: seq<Tier>, timeOrder: seq<TimeSlot>, log: seq<Entry>, lastUsed: string)

  /** The counter after extraction and pairing is at least 1. */
  lemma PreparedCount(cfg: Config, slots: seq<TimeSlot>, phrases: seq<Phrase>)
    requires Prepare(cfg, slots, phrases).Ok?
    ensures 1 <= Prepare(cfg, slots, phrases).value.afterExtract <= Prepare(cfg, slots, phrases).value.afterPair
  {
    var merged := MergedPhrases(phrases).value;
    ExtractAllIds(cfg, slots, merged, 1);
    var ex := ExtractAll(cfg, slots, merged, 1).value;
    PairAllCount(ex.0, |ex.0|, ex.1);
  }

  /** The emission loop never lowers the counter. */
  lemma {:induction false} AllNextGrows(cfg: Config, segs: seq<Segment>, c: nat)
    ensures c <= AllNext(cfg, segs, c)
    decreases |segs|
  {
    if segs != [] {
      AllNextGrows(cfg, segs[1..], c + |SegmentRest(cfg, segs[0], c)|);
    }
  }

  /** What happens once the tiers and the paired segments are known: the
      emission plan's first failing step, else a header without the
      `lastUsedAnnotationId` property, else the document with its annotations
      and `str(aID_count - 1)` as the last id. */
  function Outcome(cfg: Config, tiers: seq<Tier>, slots: seq<TimeSlot>, paired: seq<Segment>, c: nat,
                   lastUsed: Option<string>): Result<Built>
    requires 1 <= c
  {
    var plan := AllSteps(cfg, paired, c);
    var err := FirstError(plan, TierIds(tiers));
    if err.Some? then Err(err.value)
    else if lastUsed.None? then Err(MissingElement("lastUsedAnnotationId"))
    else
      AllNextGrows(cfg, paired, c);
      Ok(Built(tiers, slots, Entries(plan), NatToString(AllNext(cfg, paired, c) - 1)))
  }

  /** The run of the script on one text: the speakers' tiers (KeyError for a
      speaker code the configuration lacks), the time order, the segments and
      the outcome of emitting them. */
  function Build(cfg: Config, codes: seq<string>, phrases: seq<Phrase>, lastUsed: Option<string>): Result<Built> {
    var tiers :- AllTemplates(codes, cfg.speakers, cfg.language, cfg.translations);
    var slots := TimeOrder(phrases);
    var p :- Prepare(cfg, slots, phrases);
    PreparedCount(cfg, slots, phrases);
    Outcome(cfg, tiers, slots, p.paired, p.afterPair, lastUsed)
  }

  /** Merge, extraction and pairing, as the script runs them. */
  method PrepareSegments(cfg: Config, slots: seq<TimeSlot>, phrases: seq<Phrase>) returns (r: Result<Prepared>)
    ensures r == Prepare(cfg, slots, phrases)
  {
    var d := AllPhrases(phrases);
    if d.Err? {
      return Err(d.error);
    }
    var g := Group(d.value);
    GroupsNonEmpty(d.value);
    var merged := MergeGroups(g);
    if merged.Err? {
      return Err(merged.error);
    }
    var ex := ExtractSegments(cfg, slots, merged.value, 1);
    if ex.Err? {
      return Err(ex.error);
    }
    var paired, c := PairTargets(ex.value.0, ex.value.1);
    return Ok(Prepared(ex.value.0, ex.value.1, paired, c));
  }

  /** The script's main loop body for one text: `types`, the document built
      from `orig`'s speaker codes (`codes`, the iteration order of the
      script's set), the flextext's phrase elements in document order and the
      original header's `lastUsedAnnotationId`, if it has one. */
  method Convert(cfg: Config, codes: seq<string>, phrases: seq<Phrase>, lastUsed: Option<string>)
    returns (types: Dict<LinguisticType>, r: Result<EafDocument>)
    requires Distinct(codes)
    requires Marked(cfg, phrases)
    ensures types == Catalog(cfg.language, cfg.translations)
    ensures r.Err? <==> Build(cfg, codes, phrases, lastUsed).Err?
    ensures r.Err? ==> r.error == Build(cfg, codes, phrases, lastUsed).error
    ensures r.Ok? ==> var b := Build(cfg, codes, phrases, lastUsed).value;
      && fresh(r.value)
      && r.value.tiers == b.tiers && r.value.timeOrder == b.timeOrder && r.value.log == b.log
      && r.value.lastUsedAnnotationId == Some(b.lastUsed)
  {
    var slots := Flexible.MakeTimes(phrases);
    types := BuildTypes(cfg.language, cfg.translations);
    var tiers := MakeSpeakerTiers(codes, cfg.speakers, cfg.language, cfg.translations);
    if tiers.Err? {
      return types, Err(tiers.error);
    }
    var eaf := new EafDocument(slots, tiers.value, lastUsed);

    var p := PrepareSegments(cfg, slots, phrases);
    if p.Err? {
      return types, Err(p.error);
    }
    var paired, c := p.value.paired, p.value.afterPair;
    forall i | 0 <= i < |paired|
      ensures paired[i].marker != NoMarker
    {
      PairKeepsMarker(p.value.segs, p.value.afterExtract, i);
    }
    PreparedCount(cfg, slots, phrases);
    r := Finish(cfg, paired, c, lastUsed, eaf);
  }

  /** The emission loop and the final-id property on the document built so
      far. */
  method Finish(cfg: Config, paired: seq<Segment>, c: nat, lastUsed: Option<string>, eaf: EafDocument)
    returns (r: Result<EafDocument>)
    requires 1 <= c && eaf.log == [] && eaf.lastUsedAnnotationId == lastUsed
    requires forall i :: 0 <= i < |paired| ==> paired[i].marker != NoMarker
    modifies eaf
    ensures var o := Outcome(cfg, old(eaf.tiers), old(eaf.timeOrder), paired, c, lastUsed);
      && (r.Err? <==> o.Err?)
      && (r.Err? ==> r.error == o.error)
      && (r.Ok? ==> r.value == eaf && eaf.tiers == o.value.tiers && eaf.timeOrder == o.value.timeOrder
                    && eaf.log == o.value.log && eaf.lastUsedAnnotationId == Some(o.value.lastUsed))
  {
    var res := EmitAll(cfg, paired, c, eaf);
    if res.Err? {
      return Err(res.error);
    }
    AllNextGrows(cfg, paired, c);
    var found := eaf.SetLastUsed(NatToString(res.value - 1));
    if !found {
      return Err(MissingElement("lastUsedAnnotationId"));
    }
    return Ok(eaf);
  }

  // ---------------------------------------------------------------------------
  // Annotation ids

  /** The script's preconditions on the text: every (merged) phrase is
      Phonetic or Target, and every Target has a Phonetic phrase with the same
      `orig_aID`. */
  ghost predicate Paired(cfg: Config, phrases: seq<Phrase>) {
    var p := Prepare(cfg, TimeOrder(phrases), phrases);
    p.Ok? ==> Pairable(p.value.segs)
  }

  /** Alignable ids come from `[1, c1)` and reference ids from `[c1, c2)`, so
      the baseline ids of the paired segments are distinct and below `c2`. */
  lemma FreshFromParts(segs: seq<Segment>, paired: seq<Segment>, c1: nat, c2: nat)
    requires |paired| == |segs| && 1 <= c1 <= c2
    requires forall i :: 0 <= i < |segs| ==>
      && paired[i].marker == segs[i].marker
      && (segs[i].marker == Phonetic || segs[i].marker == Target)
      && (segs[i].marker == Phonetic ==> segs[i].alignable.Some? && paired[i].alignable == segs[i].alignable)
      && (segs[i].marker == Target ==> paired[i].refId.Some?)
    requires IdsAllocated(segs, 1, c1) && RefIdsAllocated(paired, c1, c2)
    ensures FreshTextIds(paired, c2)
    ensures forall x :: x in TextIdSet(paired) ==> 1 <= x
  {
    forall x | x in TextIdSet(paired)
      ensures 1 <= x
    {
      TextIdSetHas(paired, x);
    }
  }

  /** What extraction and pairing leave behind under the preconditions. */
  lemma PreparedFresh(cfg: Config, slots: seq<TimeSlot>, phrases: seq<Phrase>)
    requires Prepare(cfg, slots, phrases).Ok? && Pairable(Prepare(cfg, slots, phrases).value.segs)
    ensures var p := Prepare(cfg, slots, phrases).value;
      && 1 <= p.afterPair
      && FreshTextIds(p.paired, p.afterPair)
      && forall x :: x in TextIdSet(p.paired) ==> 1 <= x
  {
    var merged := MergedPhrases(phrases).value;
    ExtractAllIds(cfg, slots, merged, 1);
    PreparedCount(cfg, slots, phrases);
    var p := Prepare(cfg, slots, phrases).value;
    var segs := p.segs;
    assert forall i :: 0 <= i < |segs| ==> Unpaired(segs[i]);
    PairAllIds(segs, |segs|, p.afterExtract);
    forall i | 0 <= i < |segs|
      ensures p.paired[i].marker == segs[i].marker
      ensures segs[i].marker == Phonetic ==> p.paired[i].alignable == segs[i].alignable
      ensures segs[i].marker == Target ==> p.paired[i].refId.Some?
    {
      PairReady(segs, p.afterExtract, i);
      PairKeepsMarker(segs, p.afterExtract, i);
    }
    FreshFromParts(segs, p.paired, p.afterExtract, p.afterPair);
  }

  /** The ids property of a document whose segments have distinct baseline
      ids between 1 and the counter. */
  ghost predicate IdsBelowLast(b: Built) {
    && AllDigits(b.lastUsed)
    && Distinct(Ids(b.log))
    && forall i :: 0 <= i < |b.log| ==> 1 <= b.log[i].ann.id <= DecimalValue(b.lastUsed)
  }

  lemma OutcomeIds(cfg: Config, tiers: seq<Tier>, slots: seq<TimeSlot>, paired: seq<Segment>, c: nat,
                   lastUsed: Option<string>)
    requires 1 <= c && FreshTextIds(paired, c) && forall x :: x in TextIdSet(paired) ==> 1 <= x
    requires Outcome(cfg, tiers, slots, paired, c, lastUsed).Ok?
    ensures IdsBelowLast(Outcome(cfg, tiers, slots, paired, c, lastUsed).value)
  {
    AllStepsIds(cfg, paired, c);
    var plan := AllSteps(cfg, paired, c);
    PlanIdsOfEntries(plan);
    DecimalValueOfNatToString(AllNext(cfg, paired, c) - 1);
  }

  /** Every annotation id in the finished document is distinct and lies
      between 1 and the recorded `lastUsedAnnotationId`. `Paired` adds no
      restriction beyond a successful build, since an unpaired Target fails
      emission at its missing `ref_aID`; it is stated because the proof goes
      through the pairing facts it gives. */
  lemma BuildIds(cfg: Config, codes: seq<string>, phrases: seq<Phrase>, lastUsed: Option<string>)
    requires Paired(cfg, phrases) && Build(cfg, codes, phrases, lastUsed).Ok?
    ensures IdsBelowLast(Build(cfg, codes, phrases, lastUsed).value)
  {
    var slots := TimeOrder(phrases);
    var tiers := AllTemplates(codes, cfg.speakers, cfg.language, cfg.translations).value;
    var p := Prepare(cfg, slots, phrases).value;
    PreparedFresh(cfg, slots, phrases);
    OutcomeIds(cfg, tiers, slots, p.paired, p.afterPair, lastUsed);
  }
}
