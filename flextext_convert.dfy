/** The EAF-to-flextext direction as a whole: the tiers of excluded
    constraints are removed from the parsed EAF, the annotation table is
    built from the remaining tiers, and its paragraphs are sorted by start
    time and numbered. */
module FlexConvert {
  import opened Common
  import opened Dict
  import opened Flextext
  import opened Elan
  import opened Flexible
  import opened FlexTiers
  import opened FlexAnnotations
  import opened FlexParagraphs
  import opened FlexOrder

  /** The configuration values the conversion reads. */
  datatype FlexConfig = FlexConfig(
    style: Style,
    excludeConstraints: seq<string>,
    excludeIds: seq<string>,
    excludeTypes: seq<string>,
    translationTiers: map<string, string>,
    targetTypes: seq<string>)

  /** The tiers left by `remove_constraint` for each constraint in turn. */
  function Pruned(tiers: seq<InTier>, types: seq<InType>, cs: seq<string>): seq<InTier> {
    if cs == [] then tiers
    else
      var n := |cs| - 1;
      KeepTiers(Pruned(tiers, types, cs[..n]), TypesWithConstraint(types, cs[n]))
  }

  /** A linguistic type whose CONSTRAINTS is one of cs. */
  predicate Constrained(typeId: string, types: seq<InType>, cs: seq<string>) {
    exists t :: t in types && t.id == typeId && t.constraints.Some? && t.constraints.value in cs
  }

  /** A tier survives exactly when its type is not constrained by any of cs. */
  lemma {:induction false} PrunedKeeps(tiers: seq<InTier>, types: seq<InType>, cs: seq<string>)
    ensures forall t :: t in Pruned(tiers, types, cs) <==> t in tiers && !Constrained(t.typeRef, types, cs)
  {
    if cs != [] {
      var n := |cs| - 1;
      PrunedKeeps(tiers, types, cs[..n]);
      assert forall c :: c in cs <==> c in cs[..n] || c == cs[n];
    }
  }

  /** The paragraphs of the annotation table, before sorting. */
  function Unsorted(cfg: FlexConfig, slots: seq<InSlot>, types: seq<InType>, tiers: seq<InTier>)
    : Result<seq<Paragraph>>
  {
    var kept := Pruned(tiers, types, cfg.excludeConstraints);
    var times :- TimeValues(slots);
    var tops :- Tops(kept, cfg.excludeIds, cfg.excludeTypes);
    var table :- Annotations(Attach(tops, kept, cfg.excludeIds, cfg.excludeTypes), times, cfg.translationTiers);
    Ok(Paragraphs(cfg.style, table, TargetTiers(kept, cfg.targetTypes)))
  }

  /** The numbered paragraphs the flextext receives. */
  function Conversion(cfg: FlexConfig, slots: seq<InSlot>, types: seq<InType>, tiers: seq<InTier>)
    : Result<seq<Paragraph>>
  {
    var ps :- Unsorted(cfg, slots, types, tiers);
    var sorted :- SortByBegin(ps);
    Ok(Numbered(sorted, cfg.style.flexLanguage))
  }

  /** The conversion succeeds exactly when the table can be built and every
      paragraph has an integer start time.  Its paragraphs are then those of
      the table, each with its segment number, in order of start time, ties
      in table order, and the i-th carries segment number i + 1 as its first
      item. */
  lemma ConversionFacts(cfg: FlexConfig, slots: seq<InSlot>, types: seq<InType>, tiers: seq<InTier>)
    ensures Conversion(cfg, slots, types, tiers).Ok? <==>
      Unsorted(cfg, slots, types, tiers).Ok? && Keyed(Unsorted(cfg, slots, types, tiers).value)
    ensures Conversion(cfg, slots, types, tiers).Ok? ==>
      var r := Conversion(cfg, slots, types, tiers).value;
      var u := Unsorted(cfg, slots, types, tiers).value;
      && multiset(Stripped(r)) == multiset(u)
      && Ordered(r, StartTime)
      && (forall k :: WithKey(Stripped(r), StartTime, k) == WithKey(u, StartTime, k))
      && forall i :: 0 <= i < |r| ==>
           DirectItems(r[i].phrase) == [Segnum(i + 1, cfg.style.flexLanguage)] + DirectItems(Stripped(r)[i].phrase)
  {
    var u := Unsorted(cfg, slots, types, tiers);
    if u.Ok? {
      SortByBeginFacts(u.value);
      if Keyed(u.value) {
        var sorted := SortByBegin(u.value).value;
        var fl := cfg.style.flexLanguage;
        var r := Numbered(sorted, fl);
        StrippedNumbered(sorted, fl);
        NumberedKeys(sorted, fl);
        forall i | 0 <= i < |r|
          ensures DirectItems(r[i].phrase) == [Segnum(i + 1, fl)] + DirectItems(Stripped(r)[i].phrase)
        {
          NumberedAt(sorted, fl, i);
        }
      }
    }
  }

  /** The whole script on one parsed EAF: the tiers of excluded constraints
      leave the EAF in place, and the rest is read from what remains. */
  method ToFlextext(cfg: FlexConfig, root: EafRoot) returns (r: Result<seq<Paragraph>>)
    modifies root
    ensures root.tiers == Pruned(old(root.tiers), root.types, cfg.excludeConstraints)
    ensures root.types == old(root.types) && root.timeSlots == old(root.timeSlots)
    ensures r == Conversion(cfg, root.timeSlots, root.types, old(root.tiers))
  {
    var cs := cfg.excludeConstraints;
    ghost var original := root.tiers;
    for k := 0 to |cs|
      invariant root.tiers == Pruned(original, root.types, cs[..k])
      invariant root.types == old(root.types) && root.timeSlots == old(root.timeSlots)
    {
      RemoveConstraint(cs[k], root);
      assert cs[..k + 1][..k] == cs[..k];
    }
    assert cs[..|cs|] == cs;
    var times :- TimeValues(root.timeSlots);
    var targetTiers := TargetTiers(root.tiers, cfg.targetTypes);
    var tops :- TopTiers(root.tiers, cfg.excludeIds, cfg.excludeTypes);
    tops := AttachChildTiers(tops, root.tiers, cfg.excludeIds, cfg.excludeTypes);
    var table :- CollectAnnotations(tops, times, cfg.translationTiers);
    var paragraphs := BuildParagraphs(cfg.style, table, targetTiers);
    var sorted :- SortByBegin(paragraphs);
    var numbered := NumberParagraphs(sorted, cfg.style.flexLanguage);
    return Ok(numbered);
  }
}
