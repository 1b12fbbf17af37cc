/** The ELAN annotation document (EAF) as the converters see it.

    Output side: the document the flextext-to-EAF script builds, a class whose
    annotation log grows as annotations are appended to tiers.  Annotation
    identifiers are the numbers n of the `"a" + str(n)` strings ELAN stores.

    Input side: the parts of an existing EAF that the EAF-to-flextext script
    reads (time slots, linguistic types, tiers and their annotations). */
module Elan {
  import opened Common

  // ---------------------------------------------------------------------------
  // Output document

  /** `<TIME_SLOT TIME_SLOT_ID=.. TIME_VALUE=..>`. */
  datatype TimeSlot = TimeSlot(id: string, value: string)

  /** The stereotype of a linguistic type (`CONSTRAINTS`). */
  datatype Constraint = SymbolicSubdivision | SymbolicAssociation

  /** `<LINGUISTIC_TYPE>`; GRAPHIC_REFERENCES is always "false" and not kept. */
  datatype LinguisticType = LinguisticType(id: string, timeAlignable: bool, constraint: Option<Constraint>)

  /** `<TIER TIER_ID LINGUISTIC_TYPE_REF PARENT_REF? PARTICIPANT>`. */
  datatype Tier = Tier(id: string, typeRef: string, parentRef: Option<string>, participant: string)

  /** The three annotation forms the converter writes:
      an ALIGNABLE_ANNOTATION between two time slots, a REF_ANNOTATION of a
      symbolic-association tier, and a REF_ANNOTATION of a
      symbolic-subdivision tier, which names the previous sibling (if any). */
  datatype Annotation =
    | Alignable(id: nat, slot1: string, slot2: string, value: string)
    | Association(id: nat, ref: nat, value: string)
    | Subdivision(id: nat, ref: nat, previous: Option<nat>, value: string)

  /** One annotation appended to the tier whose id is `tier`.  A lookup by
      TIER_ID finds the first tier with that id, so every entry for a name
      belongs to that tier. */
  datatype Entry = Entry(tier: string, ann: Annotation)

  function TierIds(ts: seq<Tier>): (r: seq<string>)
    ensures |r| == |ts| && forall i :: 0 <= i < |ts| ==> r[i] == ts[i].id
  {
    seq(|ts|, i requires 0 <= i < |ts| => ts[i].id)
  }

  function Ids(es: seq<Entry>): (r: seq<nat>)
    ensures |r| == |es| && forall i :: 0 <= i < |es| ==> r[i] == es[i].ann.id
  {
    seq(|es|, i requires 0 <= i < |es| => es[i].ann.id)
  }

  /** The annotations a tier holds, in the order they were appended. */
  function AnnotationsOn(log: seq<Entry>, tier: string): (r: seq<Annotation>)
    ensures |r| <= |log|
  {
    if log == [] then []
    else AnnotationsOn(log[..|log| - 1], tier)
         + (if log[|log| - 1].tier == tier then [log[|log| - 1].ann] else [])
  }

  /** Appending to one tier leaves every other tier as it was. */
  lemma {:induction false} AnnotationsOnAppend(log: seq<Entry>, more: seq<Entry>, tier: string)
    ensures AnnotationsOn(log + more, tier) == AnnotationsOn(log, tier) + AnnotationsOn(more, tier)
    decreases |more|
  {
    if more == [] {
      assert log + more == log;
    } else {
      var n := |more| - 1;
      assert (log + more)[..|log + more| - 1] == log + more[..n];
      AnnotationsOnAppend(log, more[..n], tier);
    }
  }

  /** The document under construction: the time order, the tier skeleton, the
      annotations appended so far and the `lastUsedAnnotationId` header
      property, if the header has one. */
  class EafDocument {
    var timeOrder: seq<TimeSlot>
    var tiers: seq<Tier>
    var log: seq<Entry>
    var lastUsedAnnotationId: Option<string>

    constructor (timeOrder: seq<TimeSlot>, tiers: seq<Tier>, lastUsed: Option<string>)
      ensures this.timeOrder == timeOrder && this.tiers == tiers && log == []
      ensures lastUsedAnnotationId == lastUsed
    {
      this.timeOrder := timeOrder;
      this.tiers := tiers;
      this.log := [];
      this.lastUsedAnnotationId := lastUsed;
    }

    /** `eaf.find(".//TIER[@TIER_ID=t]").append(ann)`: false, and nothing
        appended, where no tier has that id (the script would fail there). */
    method Append(tier: string, ann: Annotation) returns (found: bool)
      modifies this
      ensures found <==> tier in TierIds(tiers)
      ensures log == if found then old(log) + [Entry(tier, ann)] else old(log)
      ensures tiers == old(tiers) && timeOrder == old(timeOrder)
      ensures lastUsedAnnotationId == old(lastUsedAnnotationId)
    {
      found := tier in TierIds(tiers);
      if found {
        log := log + [Entry(tier, ann)];
      }
    }

    /** Sets the text of the `lastUsedAnnotationId` property; false where the
        header has none. */
    method SetLastUsed(text: string) returns (found: bool)
      modifies this
      ensures found <==> old(lastUsedAnnotationId).Some?
      ensures lastUsedAnnotationId == if found then Some(text) else old(lastUsedAnnotationId)
      ensures tiers == old(tiers) && timeOrder == old(timeOrder) && log == old(log)
    {
      found := lastUsedAnnotationId.Some?;
      if found {
        lastUsedAnnotationId := Some(text);
      }
    }
  }

  // ---------------------------------------------------------------------------
  // Input document

  /** A time slot as read; unaligned slots have no TIME_VALUE. */
  datatype InSlot = InSlot(id: string, value: Option<string>)

  /** The first child of an `<ANNOTATION>`: alignable (two slot refs) or a
      reference annotation (ANNOTATION_REF); `value` is its ANNOTATION_VALUE. */
  datatype InAnnotation =
    | InAlignable(id: string, slot1: string, slot2: string, value: string)
    | InRef(id: string, ref: string, value: string)

  datatype InTier = InTier(id: string, typeRef: string, parentRef: Option<string>,
                           participant: Option<string>, annotations: seq<InAnnotation>)

  /** A linguistic type as read: its id and its CONSTRAINTS attribute. */
  datatype InType = InType(id: string, constraints: Option<string>)

  /** The parsed EAF root: only the tiers are changed in place (by the removal
      of constrained tiers). */
  class EafRoot {
    var timeSlots: seq<InSlot>
    var types: seq<InType>
    var tiers: seq<InTier>

    constructor (timeSlots: seq<InSlot>, types: seq<InType>, tiers: seq<InTier>)
      ensures this.timeSlots == timeSlots && this.types == types && this.tiers == tiers
    {
      this.timeSlots := timeSlots;
      this.types := types;
      this.tiers := tiers;
    }
  }
}
