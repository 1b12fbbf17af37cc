/** The annotation table of the EAF-to-flextext direction.  For every
    top-level tier in order, each of its annotations becomes an entry keyed by
    its ANNOTATION_ID (begin and end time values, text, the tier's
    participant); then every annotation of the tier's child tiers is stored
    under the entry its ANNOTATION_REF names, in a per-entry table keyed by
    the child tier's id, together with the translation language configured
    for that tier ("" when there is none).  The table is a Python dict, so it
    keeps first-insertion order and a repeated key keeps its place. */
module FlexAnnotations {
  import opened Common
  import opened Dict
  import opened Elan
  import opened FlexTiers

  /** A child tier's annotation value and the tier's translation language. */
  datatype Field = Field(text: string, translation: string)

  /** One entry of the table: begin and end time values, text, speaker and the
      child fields by child tier id.  The entry's guid and the media guid are
      not part of this model. */
  datatype Content = Content(begin: string, end: string, text: string, speaker: string, children: Dict<Field>)

  /** The entry without its child fields. */
  function Head(c: Content): Content {
    c.(children := [])
  }

  // ---------------------------------------------------------------------------
  // Entries of the top-level tiers

  /** An annotation that makes an entry: alignable, with both time slots known. */
  predicate Placed(a: InAnnotation, times: map<string, string>) {
    a.InAlignable? && a.slot1 in times && a.slot2 in times
  }

  /** The KeyError an annotation that cannot be placed raises: a reference
      annotation has no TIME_SLOT_REF1, otherwise the first unknown slot. */
  function PlaceError(a: InAnnotation, times: map<string, string>): Error {
    if a.InRef? then KeyError("TIME_SLOT_REF1")
    else if a.slot1 !in times then KeyError(a.slot1)
    else KeyError(a.slot2)
  }

  /** The entry a placed annotation makes, before any child field. */
  function EntryOf(a: InAnnotation, times: map<string, string>, speaker: string): (string, Content)
    requires Placed(a, times)
  {
    (a.id, Content(times[a.slot1], times[a.slot2], a.value, speaker, []))
  }

  /** The position of the first annotation that cannot be placed. */
  function FirstUnplaced(anns: seq<InAnnotation>, times: map<string, string>): (r: Option<nat>)
    ensures r.None? <==> forall i :: 0 <= i < |anns| ==> Placed(anns[i], times)
    ensures r.Some? ==>
      r.value < |anns| && !Placed(anns[r.value], times) && forall j :: 0 <= j < r.value ==> Placed(anns[j], times)
  {
    if anns == [] then None
    else
      var n := |anns| - 1;
      assert forall i :: 0 <= i < n ==> anns[..n][i] == anns[i];
      var p := FirstUnplaced(anns[..n], times);
      if p.Some? then p
      else if !Placed(anns[n], times) then Some(n)
      else None
  }

  /** The entries of placed annotations, in order. */
  function Entries(anns: seq<InAnnotation>, times: map<string, string>, speaker: string): (es: seq<(string, Content)>)
    requires forall i :: 0 <= i < |anns| ==> Placed(anns[i], times)
    ensures |es| == |anns| && forall i :: 0 <= i < |anns| ==> es[i] == EntryOf(anns[i], times, speaker)
  {
    seq(|anns|, i requires 0 <= i < |anns| => EntryOf(anns[i], times, speaker))
  }

  /** The table after one top-level tier's annotations are entered; the first
      annotation that cannot be placed raises its KeyError. */
  function AddParents(d: Dict<Content>, anns: seq<InAnnotation>, times: map<string, string>, speaker: string)
    : Result<Dict<Content>>
  {
    match FirstUnplaced(anns, times)
    case Some(i) => Err(PlaceError(anns[i], times))
    case None => Ok(PutAll(d, Entries(anns, times, speaker)))
  }

  /** The ANNOTATION_IDs of some annotations. */
  function AnnIds(anns: seq<InAnnotation>): set<string> {
    set i | 0 <= i < |anns| :: anns[i].id
  }

  /** Entering a tier adds exactly its ids as keys and keeps the table valid;
      an id the tier does not use keeps its entry, and an id it uses holds the
      entry of the last annotation with that id, with its child fields gone. */
  lemma AddParentsFacts(d: Dict<Content>, anns: seq<InAnnotation>, times: map<string, string>, speaker: string)
    requires AddParents(d, anns, times, speaker).Ok?
    ensures var r := AddParents(d, anns, times, speaker).value;
      && (forall k :: k in Keys(r) <==> k in Keys(d) || k in AnnIds(anns))
      && (Valid(d) ==> Valid(r))
      && (forall k :: k !in AnnIds(anns) ==> Get(r, k) == Get(d, k))
      && (forall i :: 0 <= i < |anns| && (forall j :: i < j < |anns| ==> anns[j].id != anns[i].id)
            ==> Get(r, anns[i].id) == Some(EntryOf(anns[i], times, speaker).1))
  {
    var es := Entries(anns, times, speaker);
    var r := PutAll(d, es);
    assert AddParents(d, anns, times, speaker).value == r;
    KeysPutAll(d, es);
    EntryKeys(anns, times, speaker);
    forall k | k !in AnnIds(anns) ensures Get(r, k) == Get(d, k) {
      GetPutAll(d, es, k);
    }
    forall i | 0 <= i < |anns| && (forall j :: i < j < |anns| ==> anns[j].id != anns[i].id)
      ensures Get(r, anns[i].id) == Some(EntryOf(anns[i], times, speaker).1)
    {
      GetPutAll(d, es, anns[i].id);
      assert Keys(es)[i] == anns[i].id;
      LastValueAt(es, i);
    }
  }

  lemma EntryKeys(anns: seq<InAnnotation>, times: map<string, string>, speaker: string)
    requires forall i :: 0 <= i < |anns| ==> Placed(anns[i], times)
    ensures forall k :: k in Keys(Entries(anns, times, speaker)) <==> k in AnnIds(anns)
  {
    var es := Entries(anns, times, speaker);
    forall k | k in Keys(es) ensures k in AnnIds(anns) {
      var i :| 0 <= i < |es| && Keys(es)[i] == k;
      assert anns[i].id == k;
    }
    forall k | k in AnnIds(anns) ensures k in Keys(es) {
      var i :| 0 <= i < |anns| && anns[i].id == k;
      assert Keys(es)[i] == k;
    }
  }

  /** Every entry a tier makes is the entry of one of its annotations. */
  lemma AddParentsFrom(d: Dict<Content>, anns: seq<InAnnotation>, times: map<string, string>, speaker: string, k: string)
    requires AddParents(d, anns, times, speaker).Ok? && k in AnnIds(anns)
    ensures exists i ::
      && 0 <= i < |anns| && anns[i].id == k && Placed(anns[i], times)
      && Get(AddParents(d, anns, times, speaker).value, k) == Some(EntryOf(anns[i], times, speaker).1)
  {
    var es := Entries(anns, times, speaker);
    assert AddParents(d, anns, times, speaker).value == PutAll(d, es);
    var i0 :| 0 <= i0 < |anns| && anns[i0].id == k;
    assert Keys(es)[i0] == k;
    GetPutAll(d, es, k);
    LastValueIn(es, k);
    var i :| 0 <= i < |es| && es[i] == (k, LastValue(es, k).value);
    assert anns[i].id == k;
  }

  // ---------------------------------------------------------------------------
  // Child fields

  /** The translation language configured for a child tier, or "". */
  function TranslationOf(tierId: string, translationTiers: map<string, string>): string {
    if tierId in translationTiers then translationTiers[tierId] else ""
  }

  /** A child annotation that can be stored: a reference annotation whose
      ANNOTATION_REF is among the keys. */
  predicate Resolves(a: InAnnotation, keys: seq<string>) {
    a.InRef? && a.ref in keys
  }

  /** The KeyError a child annotation that cannot be stored raises. */
  function RefError(a: InAnnotation): Error {
    if a.InAlignable? then KeyError("ANNOTATION_REF") else KeyError(a.ref)
  }

  /** The position of the first child annotation that cannot be stored. */
  function FirstUnresolved(anns: seq<InAnnotation>, keys: seq<string>): (r: Option<nat>)
    ensures r.None? <==> forall i :: 0 <= i < |anns| ==> Resolves(anns[i], keys)
    ensures r.Some? ==>
      r.value < |anns| && !Resolves(anns[r.value], keys) && forall j :: 0 <= j < r.value ==> Resolves(anns[j], keys)
  {
    if anns == [] then None
    else
      var n := |anns| - 1;
      assert forall i :: 0 <= i < n ==> anns[..n][i] == anns[i];
      var p := FirstUnresolved(anns[..n], keys);
      if p.Some? then p
      else if !Resolves(anns[n], keys) then Some(n)
      else None
  }

  /** The child annotations stored in order under the entries they refer to;
      the keys never change. */
  function StoreRefs(d: Dict<Content>, tierId: string, tl: string, anns: seq<InAnnotation>): (r: Dict<Content>)
    requires forall i :: 0 <= i < |anns| ==> Resolves(anns[i], Keys(d))
    ensures Keys(r) == Keys(d)
  {
    if anns == [] then d
    else
      var n := |anns| - 1;
      assert forall i :: 0 <= i < n ==> anns[..n][i] == anns[i];
      var cur := StoreRefs(d, tierId, tl, anns[..n]);
      var a := anns[n];
      assert Resolves(a, Keys(cur));
      var c := Get(cur, a.ref).value;
      var c' := c.(children := Put(c.children, tierId, Field(a.value, tl)));
      PutKeys(cur, a.ref, c');
      Put(cur, a.ref, c')
  }

  /** One child tier: the first annotation that cannot be stored raises its
      KeyError, otherwise all are stored. */
  function FillRefs(d: Dict<Content>, tierId: string, tl: string, anns: seq<InAnnotation>): Result<Dict<Content>> {
    match FirstUnresolved(anns, Keys(d))
    case Some(i) => Err(RefError(anns[i]))
    case None => Ok(StoreRefs(d, tierId, tl, anns))
  }

  predicate RefersTo(a: InAnnotation, k: string) {
    a.InRef? && a.ref == k
  }

  /** The value of the last annotation referring to k (`LastRefSpec`). */
  function LastRef(anns: seq<InAnnotation>, k: string): Option<string> {
    if anns == [] then None
    else
      var n := |anns| - 1;
      if RefersTo(anns[n], k) then Some(anns[n].value) else LastRef(anns[..n], k)
  }

  /** `LastRef` finds a value exactly when some annotation refers to k, and
      then it is the value of one that no later annotation follows with the
      same reference. */
  lemma {:induction false} LastRefSpec(anns: seq<InAnnotation>, k: string)
    ensures LastRef(anns, k).Some? <==> exists i :: 0 <= i < |anns| && RefersTo(anns[i], k)
    ensures LastRef(anns, k).Some? ==>
      exists i :: 0 <= i < |anns| && RefersTo(anns[i], k) && anns[i].value == LastRef(anns, k).value
        && forall j :: i < j < |anns| ==> !RefersTo(anns[j], k)
    decreases |anns|
  {
    if anns != [] {
      var n := |anns| - 1;
      if !RefersTo(anns[n], k) {
        LastRefSpec(anns[..n], k);
        assert forall i :: 0 <= i < n ==> anns[..n][i] == anns[i];
        if LastRef(anns, k).Some? {
          var i :| 0 <= i < n && RefersTo(anns[..n][i], k) && anns[..n][i].value == LastRef(anns, k).value
            && forall j :: i < j < n ==> !RefersTo(anns[..n][j], k);
          assert RefersTo(anns[i], k) && anns[i].value == LastRef(anns, k).value;
        }
      }
    }
  }

  /** An entry with the child field of one tier set, when some value is given. */
  function Filled(c: Content, tierId: string, tl: string, v: Option<string>): Content {
    if v.None? then c else c.(children := Put(c.children, tierId, Field(v.value, tl)))
  }

  /** After a child tier is stored, each entry has the tier's field set to
      the value of the last annotation referring to it, and is otherwise
      unchanged. */
  lemma {:induction false} StoreRefsValues(d: Dict<Content>, tierId: string, tl: string, anns: seq<InAnnotation>)
    requires forall i :: 0 <= i < |anns| ==> Resolves(anns[i], Keys(d))
    ensures forall k :: k in Keys(d) ==>
      Get(StoreRefs(d, tierId, tl, anns), k) == Some(Filled(Get(d, k).value, tierId, tl, LastRef(anns, k)))
    decreases |anns|
  {
    if anns != [] {
      var n := |anns| - 1;
      assert forall i :: 0 <= i < n ==> anns[..n][i] == anns[i];
      StoreRefsValues(d, tierId, tl, anns[..n]);
      StoreRefsStep(d, tierId, tl, anns);
    }
  }

  lemma StoreRefsStep(d: Dict<Content>, tierId: string, tl: string, anns: seq<InAnnotation>)
    requires anns != [] && forall i :: 0 <= i < |anns| ==> Resolves(anns[i], Keys(d))
    requires forall k :: k in Keys(d) ==>
      Get(StoreRefs(d, tierId, tl, anns[..|anns| - 1]), k)
        == Some(Filled(Get(d, k).value, tierId, tl, LastRef(anns[..|anns| - 1], k)))
    ensures forall k :: k in Keys(d) ==>
      Get(StoreRefs(d, tierId, tl, anns), k) == Some(Filled(Get(d, k).value, tierId, tl, LastRef(anns, k)))
  {
    var n := |anns| - 1;
    var a := anns[n];
    var base := Get(d, a.ref).value;
    var cur := StoreRefs(d, tierId, tl, anns[..n]);
    var c := Get(cur, a.ref).value;
    var c' := c.(children := Put(c.children, tierId, Field(a.value, tl)));
    forall k | k in Keys(d) {
      GetPut(cur, a.ref, c', k);
    }
    match LastRef(anns[..n], a.ref)
    case None =>
    case Some(v0) =>
      PutTwice(base.children, tierId, Field(v0, tl), Field(a.value, tl));
  }

  /** Storing a child tier keeps every entry's times, text and speaker. */
  lemma StoreRefsHeads(d: Dict<Content>, tierId: string, tl: string, anns: seq<InAnnotation>)
    requires forall i :: 0 <= i < |anns| ==> Resolves(anns[i], Keys(d))
    ensures forall k :: k in Keys(d) ==> Head(Get(StoreRefs(d, tierId, tl, anns), k).value) == Head(Get(d, k).value)
  {
    StoreRefsValues(d, tierId, tl, anns);
  }

  /** The first child tier with an annotation that cannot be stored, and that
      annotation's position in it. */
  function FirstBadTier(tiers: seq<InTier>, keys: seq<string>): (r: Option<(nat, nat)>)
    ensures r.None? <==>
      forall j, i :: 0 <= j < |tiers| && 0 <= i < |tiers[j].annotations| ==> Resolves(tiers[j].annotations[i], keys)
    ensures r.Some? ==>
      && r.value.0 < |tiers|
      && FirstUnresolved(tiers[r.value.0].annotations, keys) == Some(r.value.1)
      && forall j :: 0 <= j < r.value.0 ==> FirstUnresolved(tiers[j].annotations, keys).None?
  {
    if tiers == [] then None
    else
      var n := |tiers| - 1;
      assert forall j :: 0 <= j < n ==> tiers[..n][j] == tiers[j];
      var p := FirstBadTier(tiers[..n], keys);
      if p.Some? then p
      else match FirstUnresolved(tiers[n].annotations, keys)
        case Some(i) => Some((n, i))
        case None => None
  }

  /** The child tiers stored in order; the keys never change. */
  function StoreTiers(d: Dict<Content>, tiers: seq<InTier>, tt: map<string, string>): (r: Dict<Content>)
    requires forall j, i :: 0 <= j < |tiers| && 0 <= i < |tiers[j].annotations| ==> Resolves(tiers[j].annotations[i], Keys(d))
    ensures Keys(r) == Keys(d)
  {
    if tiers == [] then d
    else
      var n := |tiers| - 1;
      assert forall j :: 0 <= j < n ==> tiers[..n][j] == tiers[j];
      var cur := StoreTiers(d, tiers[..n], tt);
      StoreRefs(cur, tiers[n].id, TranslationOf(tiers[n].id, tt), tiers[n].annotations)
  }

  /** The child tiers of one top-level tier: the first annotation that
      cannot be stored raises its KeyError, otherwise all are stored. */
  function FillTiers(d: Dict<Content>, tiers: seq<InTier>, tt: map<string, string>): Result<Dict<Content>> {
    match FirstBadTier(tiers, Keys(d))
    case Some(p) => Err(RefError(tiers[p.0].annotations[p.1]))
    case None => Ok(StoreTiers(d, tiers, tt))
  }

  /** Storing child tiers keeps every entry's times, text and speaker. */
  lemma {:induction false} StoreTiersHeads(d: Dict<Content>, tiers: seq<InTier>, tt: map<string, string>)
    requires forall j, i :: 0 <= j < |tiers| && 0 <= i < |tiers[j].annotations| ==> Resolves(tiers[j].annotations[i], Keys(d))
    ensures forall k :: k in Keys(d) ==> Head(Get(StoreTiers(d, tiers, tt), k).value) == Head(Get(d, k).value)
    decreases |tiers|
  {
    if tiers != [] {
      var n := |tiers| - 1;
      assert forall j :: 0 <= j < n ==> tiers[..n][j] == tiers[j];
      StoreTiersHeads(d, tiers[..n], tt);
      var cur := StoreTiers(d, tiers[..n], tt);
      StoreRefsHeads(cur, tiers[n].id, TranslationOf(tiers[n].id, tt), tiers[n].annotations);
      assert StoreTiers(d, tiers, tt) == StoreRefs(cur, tiers[n].id, TranslationOf(tiers[n].id, tt), tiers[n].annotations);
      assert Keys(cur) == Keys(d);
    }
  }

  // ---------------------------------------------------------------------------
  // The whole table

  /** One top-level tier: its entries, then its child tiers. */
  function AddTop(d: Dict<Content>, top: TopTier, times: map<string, string>, tt: map<string, string>)
    : Result<Dict<Content>>
  {
    var p :- AddParents(d, top.tier.annotations, times, top.participant);
    FillTiers(p, top.children, tt)
  }

  /** The annotation table built from the top-level tiers in order. */
  function Annotations(tops: seq<TopTier>, times: map<string, string>, tt: map<string, string>)
    : Result<Dict<Content>>
  {
    if tops == [] then Ok([])
    else
      var n := |tops| - 1;
      var cur :- Annotations(tops[..n], times, tt);
      AddTop(cur, tops[n], times, tt)
  }

  /** The ANNOTATION_IDs of the top-level tiers. */
  function TopIds(tops: seq<TopTier>): set<string> {
    set j, i | 0 <= j < |tops| && 0 <= i < |tops[j].tier.annotations| :: tops[j].tier.annotations[i].id
  }

  /** What building the table needs of tier j: every annotation of the tier is
      alignable with known slots, and every annotation of its child tiers
      refers to an annotation of this or an earlier top-level tier. */
  ghost predicate TopReady(tops: seq<TopTier>, j: nat, times: map<string, string>)
    requires j < |tops|
  {
    && (forall i :: 0 <= i < |tops[j].tier.annotations| ==> Placed(tops[j].tier.annotations[i], times))
    && (forall c, i :: 0 <= c < |tops[j].children| && 0 <= i < |tops[j].children[c].annotations| ==>
          tops[j].children[c].annotations[i].InRef?
          && tops[j].children[c].annotations[i].ref in TopIds(tops[..j + 1]))
  }

  ghost predicate WellFormed(tops: seq<TopTier>, times: map<string, string>) {
    forall j :: 0 <= j < |tops| ==> TopReady(tops, j, times)
  }

  /** Every entry's times, text and speaker are those of an annotation of a
      top-level tier with its key. */
  ghost predicate HeadsFrom(r: Dict<Content>, tops: seq<TopTier>, times: map<string, string>) {
    forall k :: k in Keys(r) ==>
      exists j, i :: 0 <= j < |tops| && 0 <= i < |tops[j].tier.annotations|
        && tops[j].tier.annotations[i].id == k && Placed(tops[j].tier.annotations[i], times)
        && Head(Get(r, k).value) == EntryOf(tops[j].tier.annotations[i], times, tops[j].participant).1
  }

  /** Building the table succeeds exactly when every top-level tier is ready;
      the result is then a valid dict whose keys are the top-level
      ANNOTATION_IDs, and every entry carries the times, text and speaker of
      an annotation with its key. */
  lemma {:induction false} AnnotationsFacts(tops: seq<TopTier>, times: map<string, string>, tt: map<string, string>)
    ensures var r := Annotations(tops, times, tt);
      && (r.Ok? <==> WellFormed(tops, times))
      && (r.Ok? ==> Valid(r.value) && forall k :: k in Keys(r.value) <==> k in TopIds(tops))
      && (r.Ok? ==> HeadsFrom(r.value, tops, times))
    decreases |tops|
  {
    if tops != [] {
      var n := |tops| - 1;
      AnnotationsFacts(tops[..n], times, tt);
      WellFormedSnoc(tops, times);
      var pre := Annotations(tops[..n], times, tt);
      if pre.Ok? {
        AddTopFacts(tops, times, tt, pre.value);
      }
    }
  }

  lemma WellFormedSnoc(tops: seq<TopTier>, times: map<string, string>)
    requires tops != []
    ensures WellFormed(tops, times) <==>
      WellFormed(tops[..|tops| - 1], times) && TopReady(tops, |tops| - 1, times)
  {
    var n := |tops| - 1;
    forall j | 0 <= j < n
      ensures TopReady(tops, j, times) <==> TopReady(tops[..n], j, times)
    {
      assert tops[..n][..j + 1] == tops[..j + 1];
    }
  }

  lemma TopIdsSnoc(tops: seq<TopTier>)
    requires tops != []
    ensures TopIds(tops) == TopIds(tops[..|tops| - 1]) + AnnIds(tops[|tops| - 1].tier.annotations)
  {
    var n := |tops| - 1;
    assert forall j :: 0 <= j < n ==> tops[..n][j] == tops[j];
  }

  /** The step for the last top-level tier, given the facts for the others. */
  lemma AddTopFacts(tops: seq<TopTier>, times: map<string, string>, tt: map<string, string>, cur: Dict<Content>)
    requires tops != []
    requires Annotations(tops[..|tops| - 1], times, tt) == Ok(cur)
    requires Valid(cur) && forall k :: k in Keys(cur) <==> k in TopIds(tops[..|tops| - 1])
    requires HeadsFrom(cur, tops[..|tops| - 1], times)
    ensures var r := Annotations(tops, times, tt);
      && (r.Ok? <==> TopReady(tops, |tops| - 1, times))
      && (r.Ok? ==> Valid(r.value) && forall k :: k in Keys(r.value) <==> k in TopIds(tops))
      && (r.Ok? ==> HeadsFrom(r.value, tops, times))
  {
    var n := |tops| - 1;
    var t := tops[n];
    var anns := t.tier.annotations;
    TopIdsSnoc(tops);
    assert tops[..n + 1] == tops;
    var ap := AddParents(cur, anns, times, t.participant);
    if ap.Ok? {
      var p := ap.value;
      AddParentsFacts(cur, anns, times, t.participant);
      assert forall k :: k in Keys(p) <==> k in TopIds(tops);
      var r := FillTiers(p, t.children, tt);
      assert r.Ok? <==> TopReady(tops, n, times);
      if r.Ok? {
        StoreTiersHeads(p, t.children, tt);
        HeadsStep(tops, times, cur, p, r.value);
      }
    }
  }

  lemma HeadsStep(tops: seq<TopTier>, times: map<string, string>, cur: Dict<Content>, p: Dict<Content>, r: Dict<Content>)
    requires tops != []
    requires HeadsFrom(cur, tops[..|tops| - 1], times)
    requires AddParents(cur, tops[|tops| - 1].tier.annotations, times, tops[|tops| - 1].participant) == Ok(p)
    requires forall k :: k in Keys(p) <==> k in Keys(cur) || k in AnnIds(tops[|tops| - 1].tier.annotations)
    requires forall k :: k !in AnnIds(tops[|tops| - 1].tier.annotations) ==> Get(p, k) == Get(cur, k)
    requires Keys(r) == Keys(p) && forall k :: k in Keys(p) ==> Head(Get(r, k).value) == Head(Get(p, k).value)
    ensures HeadsFrom(r, tops, times)
  {
    var n := |tops| - 1;
    var t := tops[n];
    forall k | k in Keys(r)
      ensures exists j, i ::
        && 0 <= j < |tops| && 0 <= i < |tops[j].tier.annotations|
        && tops[j].tier.annotations[i].id == k && Placed(tops[j].tier.annotations[i], times)
        && Head(Get(r, k).value) == EntryOf(tops[j].tier.annotations[i], times, tops[j].participant).1
    {
      if k in AnnIds(t.tier.annotations) {
        AddParentsFrom(cur, t.tier.annotations, times, t.participant, k);
        var i :| 0 <= i < |t.tier.annotations| && t.tier.annotations[i].id == k && Placed(t.tier.annotations[i], times)
          && Get(p, k) == Some(EntryOf(t.tier.annotations[i], times, t.participant).1);
        assert Head(Get(r, k).value) == EntryOf(tops[n].tier.annotations[i], times, tops[n].participant).1;
      } else {
        var j, i :| 0 <= j < n && 0 <= i < |tops[..n][j].tier.annotations|
          && tops[..n][j].tier.annotations[i].id == k && Placed(tops[..n][j].tier.annotations[i], times)
          && Head(Get(cur, k).value) == EntryOf(tops[..n][j].tier.annotations[i], times, tops[..n][j].participant).1;
        assert tops[..n][j] == tops[j];
      }
    }
  }

  /** Once a prefix of the top-level tiers fails, the whole fails the same way. */
  lemma {:induction false} AnnotationsErr(tops: seq<TopTier>, k: nat, times: map<string, string>, tt: map<string, string>)
    requires k <= |tops| && Annotations(tops[..k], times, tt).Err?
    ensures Annotations(tops, times, tt) == Annotations(tops[..k], times, tt)
    decreases |tops| - k
  {
    if k < |tops| {
      AnnotationsErrStep(tops, k, times, tt);
      AnnotationsErr(tops, k + 1, times, tt);
    } else {
      assert tops[..k] == tops;
    }
  }

  lemma AnnotationsErrStep(tops: seq<TopTier>, k: nat, times: map<string, string>, tt: map<string, string>)
    requires k < |tops| && Annotations(tops[..k], times, tt).Err?
    ensures Annotations(tops[..k + 1], times, tt) == Annotations(tops[..k], times, tt)
  {
    assert tops[..k + 1][..k] == tops[..k];
  }

  // ---------------------------------------------------------------------------
  // The loops

  /** The first failure is the one the loops stop at. */
  lemma FirstUnplacedAt(anns: seq<InAnnotation>, times: map<string, string>, i: nat)
    requires i < |anns| && !Placed(anns[i], times) && forall j :: 0 <= j < i ==> Placed(anns[j], times)
    ensures FirstUnplaced(anns, times) == Some(i)
  {
  }

  lemma FirstUnresolvedAt(anns: seq<InAnnotation>, keys: seq<string>, i: nat)
    requires i < |anns| && !Resolves(anns[i], keys) && forall j :: 0 <= j < i ==> Resolves(anns[j], keys)
    ensures FirstUnresolved(anns, keys) == Some(i)
  {
  }

  lemma FirstBadTierAt(tiers: seq<InTier>, keys: seq<string>, i: nat)
    requires i < |tiers| && FirstUnresolved(tiers[i].annotations, keys).Some?
    requires forall j, k :: 0 <= j < i && 0 <= k < |tiers[j].annotations| ==> Resolves(tiers[j].annotations[k], keys)
    ensures FirstBadTier(tiers, keys) == Some((i, FirstUnresolved(tiers[i].annotations, keys).value))
  {
    var r := FirstBadTier(tiers, keys);
    forall j | 0 <= j < i ensures FirstUnresolved(tiers[j].annotations, keys).None? {
      assert forall k :: 0 <= k < |tiers[j].annotations| ==> Resolves(tiers[j].annotations[k], keys);
    }
  }

  /** The loop over one top-level tier's annotations. */
  method EnterParents(d0: Dict<Content>, anns: seq<InAnnotation>, times: map<string, string>, speaker: string)
    returns (r: Result<Dict<Content>>)
    ensures r == AddParents(d0, anns, times, speaker)
  {
    var d := d0;
    for i := 0 to |anns|
      invariant forall j :: 0 <= j < i ==> Placed(anns[j], times)
      invariant d == PutAll(d0, Entries(anns[..i], times, speaker))
    {
      var a := anns[i];
      if !Placed(a, times) {
        FirstUnplacedAt(anns, times, i);
      }
      if a.InRef? {
        return Err(KeyError("TIME_SLOT_REF1"));
      }
      if a.slot1 !in times {
        return Err(KeyError(a.slot1));
      }
      if a.slot2 !in times {
        return Err(KeyError(a.slot2));
      }
      EntriesSnoc(anns, times, speaker, i);
      PutAllSnoc(d0, Entries(anns[..i], times, speaker), a.id, EntryOf(a, times, speaker).1);
      d := Put(d, a.id, Content(times[a.slot1], times[a.slot2], a.value, speaker, []));
    }
    assert anns[..|anns|] == anns;
    r := Ok(d);
  }

  lemma EntriesSnoc(anns: seq<InAnnotation>, times: map<string, string>, speaker: string, i: nat)
    requires i < |anns| && forall j :: 0 <= j <= i ==> Placed(anns[j], times)
    ensures Entries(anns[..i + 1], times, speaker)
      == Entries(anns[..i], times, speaker) + [EntryOf(anns[i], times, speaker)]
  {
  }

  lemma StoreRefsSnoc(d: Dict<Content>, tierId: string, tl: string, anns: seq<InAnnotation>, i: nat)
    requires i < |anns| && forall j :: 0 <= j < i ==> Resolves(anns[j], Keys(d))
    requires anns[i].InRef? && Get(StoreRefs(d, tierId, tl, anns[..i]), anns[i].ref).Some?
    ensures forall j :: 0 <= j < i + 1 ==> Resolves(anns[j], Keys(d))
    ensures var cur := StoreRefs(d, tierId, tl, anns[..i]);
      var c := Get(cur, anns[i].ref).value;
      StoreRefs(d, tierId, tl, anns[..i + 1])
        == Put(cur, anns[i].ref, c.(children := Put(c.children, tierId, Field(anns[i].value, tl))))
  {
    assert anns[..i + 1][..i] == anns[..i];
  }

  /** The loop over one child tier's annotations. */
  method FillChildTier(d0: Dict<Content>, t: InTier, tt: map<string, string>) returns (r: Result<Dict<Content>>)
    ensures r == FillRefs(d0, t.id, TranslationOf(t.id, tt), t.annotations)
  {
    var tl := if t.id in tt then tt[t.id] else "";
    var anns := t.annotations;
    var d := d0;
    for i := 0 to |anns|
      invariant forall j :: 0 <= j < i ==> Resolves(anns[j], Keys(d0))
      invariant d == StoreRefs(d0, t.id, tl, anns[..i])
    {
      var a := anns[i];
      if !Resolves(a, Keys(d0)) {
        FirstUnresolvedAt(anns, Keys(d0), i);
      }
      if a.InAlignable? {
        return Err(KeyError("ANNOTATION_REF"));
      }
      var c := Get(d, a.ref);
      if c.None? {
        return Err(KeyError(a.ref));
      }
      StoreRefsSnoc(d0, t.id, tl, anns, i);
      d := Put(d, a.ref, c.value.(children := Put(c.value.children, t.id, Field(a.value, tl))));
    }
    assert anns[..|anns|] == anns;
    r := Ok(d);
  }

  lemma StoreTiersSnoc(d: Dict<Content>, tiers: seq<InTier>, tt: map<string, string>, i: nat)
    requires i < |tiers|
    requires forall j, k :: 0 <= j < i && 0 <= k < |tiers[j].annotations| ==> Resolves(tiers[j].annotations[k], Keys(d))
    requires forall k :: 0 <= k < |tiers[i].annotations| ==> Resolves(tiers[i].annotations[k], Keys(d))
    ensures forall j, k :: 0 <= j < i + 1 && 0 <= k < |tiers[j].annotations| ==> Resolves(tiers[j].annotations[k], Keys(d))
    ensures StoreTiers(d, tiers[..i + 1], tt)
      == StoreRefs(StoreTiers(d, tiers[..i], tt), tiers[i].id, TranslationOf(tiers[i].id, tt), tiers[i].annotations)
  {
    assert tiers[..i + 1][..i] == tiers[..i];
  }

  /** The loop over one top-level tier's child tiers. */
  method FillChildTiers(d0: Dict<Content>, tiers: seq<InTier>, tt: map<string, string>) returns (r: Result<Dict<Content>>)
    ensures r == FillTiers(d0, tiers, tt)
  {
    var d := d0;
    for i := 0 to |tiers|
      invariant forall j, k :: 0 <= j < i && 0 <= k < |tiers[j].annotations| ==> Resolves(tiers[j].annotations[k], Keys(d0))
      invariant d == StoreTiers(d0, tiers[..i], tt)
    {
      var s := FillChildTier(d, tiers[i], tt);
      if s.Err? {
        FirstBadTierAt(tiers, Keys(d0), i);
        return s;
      }
      StoreTiersSnoc(d0, tiers, tt, i);
      d := s.value;
    }
    assert tiers[..|tiers|] == tiers;
    r := Ok(d);
  }

  /** The loop that builds the annotation table. */
  method CollectAnnotations(tops: seq<TopTier>, times: map<string, string>, tt: map<string, string>)
    returns (r: Result<Dict<Content>>)
    ensures r == Annotations(tops, times, tt)
  {
    var d: Dict<Content> := [];
    for j := 0 to |tops|
      invariant Annotations(tops[..j], times, tt) == Ok(d)
    {
      assert tops[..j + 1][..j] == tops[..j];
      var p := EnterParents(d, tops[j].tier.annotations, times, tops[j].participant);
      if p.Err? {
        AnnotationsErr(tops, j + 1, times, tt);
        return p;
      }
      var s := FillChildTiers(p.value, tops[j].children, tt);
      if s.Err? {
        AnnotationsErr(tops, j + 1, times, tt);
        return s;
      }
      d := s.value;
    }
    assert tops[..|tops|] == tops;
    r := Ok(d);
  }
}
