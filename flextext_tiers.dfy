/** The EAF-to-flextext direction, first step: which tiers become phrases and
    which become their notes.  A top tier has no PARENT_REF; a child tier has
    one and is attached to the first top tier with that id.  Tiers excluded by
    id or by linguistic type take part in neither. */
module FlexTiers {
  import opened Common
  import opened Elan

  /** One entry of `top_tiers`: the tier's id, its participant, the tier
      itself and the child tiers attached to it so far. */
  datatype TopTier = TopTier(id: string, participant: string, tier: InTier, children: seq<InTier>)

  predicate Excluded(t: InTier, excludeIds: seq<string>, excludeTypes: seq<string>) {
    t.id in excludeIds || t.typeRef in excludeTypes
  }

  predicate IsTop(t: InTier, excludeIds: seq<string>, excludeTypes: seq<string>) {
    t.parentRef.None? && !Excluded(t, excludeIds, excludeTypes)
  }

  predicate IsChild(t: InTier, excludeIds: seq<string>, excludeTypes: seq<string>) {
    t.parentRef.Some? && !Excluded(t, excludeIds, excludeTypes)
  }

  // ---------------------------------------------------------------------------
  // Target tiers

  /** The ids of the tiers of one linguistic type, in document order. */
  function TiersOfType(tiers: seq<InTier>, typeId: string): (r: seq<string>)
    ensures forall x :: x in r <==> exists t :: t in tiers && t.typeRef == typeId && t.id == x
  {
    if tiers == [] then []
    else (if tiers[0].typeRef == typeId then [tiers[0].id] else []) + TiersOfType(tiers[1..], typeId)
  }

  /** `target_tiers`: for each target utterance type in turn, the ids of the
      tiers of that type. */
  function TargetTiers(tiers: seq<InTier>, targetTypes: seq<string>): (r: seq<string>)
    ensures forall x :: x in r <==> exists t :: t in tiers && t.typeRef in targetTypes && t.id == x
  {
    if targetTypes == [] then []
    else
      var rest := TargetTiers(tiers, targetTypes[1..]);
      assert forall y :: y in targetTypes <==> y == targetTypes[0] || y in targetTypes[1..];
      TiersOfType(tiers, targetTypes[0]) + rest
  }

  // ---------------------------------------------------------------------------
  // Top tiers

  /** The tiers that qualify as top tiers, in document order. */
  function TopFilter(tiers: seq<InTier>, excludeIds: seq<string>, excludeTypes: seq<string>): (r: seq<InTier>)
    ensures forall t :: t in r <==> t in tiers && IsTop(t, excludeIds, excludeTypes)
  {
    if tiers == [] then []
    else
      var n := |tiers| - 1;
      assert forall t :: t in tiers <==> t in tiers[..n] || t == tiers[n];
      TopFilter(tiers[..n], excludeIds, excludeTypes) + (if IsTop(tiers[n], excludeIds, excludeTypes) then [tiers[n]] else [])
  }

  /** The first loop over the tiers; reading PARTICIPANT raises KeyError on a
      top tier without one. */
  function Tops(tiers: seq<InTier>, excludeIds: seq<string>, excludeTypes: seq<string>): Result<seq<TopTier>> {
    if tiers == [] then Ok([])
    else
      var n := |tiers| - 1;
      var pre :- Tops(tiers[..n], excludeIds, excludeTypes);
      var t := tiers[n];
      if !IsTop(t, excludeIds, excludeTypes) then Ok(pre)
      else if t.participant.None? then Err(KeyError("PARTICIPANT"))
      else Ok(pre + [TopTier(t.id, t.participant.value, t, [])])
  }

  /** A top tier as the first loop records it. */
  function Fresh(t: InTier): TopTier
    requires t.participant.Some?
  {
    TopTier(t.id, t.participant.value, t, [])
  }

  /** The first loop fails exactly when a qualifying tier has no participant;
      otherwise it keeps the qualifying tiers in document order, each with no
      children yet. */
  lemma {:induction false} TopsFacts(tiers: seq<InTier>, excludeIds: seq<string>, excludeTypes: seq<string>)
    ensures var r := Tops(tiers, excludeIds, excludeTypes);
      && (r.Ok? <==> forall t :: t in tiers && IsTop(t, excludeIds, excludeTypes) ==> t.participant.Some?)
      && (r.Ok? ==> var f := TopFilter(tiers, excludeIds, excludeTypes);
            |r.value| == |f| && forall i :: 0 <= i < |f| ==> f[i].participant.Some? && r.value[i] == Fresh(f[i]))
    decreases |tiers|
  {
    if tiers != [] {
      var n := |tiers| - 1;
      TopsFacts(tiers[..n], excludeIds, excludeTypes);
      assert forall t :: t in tiers <==> t in tiers[..n] || t == tiers[n];
    }
  }

  method TopTiers(tiers: seq<InTier>, excludeIds: seq<string>, excludeTypes: seq<string>)
    returns (r: Result<seq<TopTier>>)
    ensures r == Tops(tiers, excludeIds, excludeTypes)
  {
    var tops: seq<TopTier> := [];
    for i := 0 to |tiers|
      invariant Tops(tiers[..i], excludeIds, excludeTypes) == Ok(tops)
    {
      assert tiers[..i + 1][..i] == tiers[..i];
      var t := tiers[i];
      if IsTop(t, excludeIds, excludeTypes) {
        if t.participant.None? {
          TopsErr(tiers, i + 1, excludeIds, excludeTypes);
          return Err(KeyError("PARTICIPANT"));
        }
        tops := tops + [TopTier(t.id, t.participant.value, t, [])];
      }
    }
    assert tiers[..|tiers|] == tiers;
    return Ok(tops);
  }

  lemma {:induction false} TopsErr(tiers: seq<InTier>, i: nat, excludeIds: seq<string>, excludeTypes: seq<string>)
    requires i <= |tiers| && Tops(tiers[..i], excludeIds, excludeTypes).Err?
    ensures Tops(tiers, excludeIds, excludeTypes) == Tops(tiers[..i], excludeIds, excludeTypes)
    decreases |tiers| - i
  {
    if i == |tiers| {
      assert tiers[..i] == tiers;
    } else {
      assert tiers[..i + 1][..i] == tiers[..i];
      TopsErr(tiers, i + 1, excludeIds, excludeTypes);
    }
  }

  // ---------------------------------------------------------------------------
  // Child tiers

  /** The position of the first top tier with the given id. */
  function FirstTop(tops: seq<TopTier>, id: string): (r: Option<nat>)
    ensures r.Some? ==> r.value < |tops| && tops[r.value].id == id
                        && forall k :: 0 <= k < r.value ==> tops[k].id != id
    ensures r.None? ==> forall k :: 0 <= k < |tops| ==> tops[k].id != id
  {
    if tops == [] then None
    else if tops[0].id == id then Some(0)
    else
      var r := FirstTop(tops[1..], id);
      if r.Some? then Some(r.value + 1) else None
  }

  /** Top tiers with the same ids in the same places find the same first
      top tier. */
  lemma FirstTopSameIds(a: seq<TopTier>, b: seq<TopTier>, id: string)
    requires |a| == |b| && forall k :: 0 <= k < |a| ==> a[k].id == b[k].id
    ensures FirstTop(a, id) == FirstTop(b, id)
  {
  }

  /** The second loop over the tiers: each qualifying child tier is appended
      to the children of the first top tier whose id is its PARENT_REF, if
      there is one. */
  function Attach(tops: seq<TopTier>, tiers: seq<InTier>, excludeIds: seq<string>, excludeTypes: seq<string>)
    : (r: seq<TopTier>)
    ensures |r| == |tops|
    ensures forall k :: 0 <= k < |tops| ==>
      r[k].id == tops[k].id && r[k].participant == tops[k].participant && r[k].tier == tops[k].tier
  {
    if tiers == [] then tops
    else
      var n := |tiers| - 1;
      var pre := Attach(tops, tiers[..n], excludeIds, excludeTypes);
      var t := tiers[n];
      if !IsChild(t, excludeIds, excludeTypes) then pre
      else
        var j := FirstTop(pre, t.parentRef.value);
        if j.None? then pre
        else pre[j.value := pre[j.value].(children := pre[j.value].children + [t])]
  }

  /** The qualifying child tiers whose first matching top tier is `tops[j]`,
      in document order. */
  function ChildrenOf(tops: seq<TopTier>, tiers: seq<InTier>, excludeIds: seq<string>, excludeTypes: seq<string>,
                      j: nat): (r: seq<InTier>)
    ensures forall t :: t in r <==>
      t in tiers && IsChild(t, excludeIds, excludeTypes) && FirstTop(tops, t.parentRef.value) == Some(j)
  {
    if tiers == [] then []
    else
      var n := |tiers| - 1;
      var t := tiers[n];
      assert forall x :: x in tiers <==> x in tiers[..n] || x == t;
      ChildrenOf(tops, tiers[..n], excludeIds, excludeTypes, j)
        + (if IsChild(t, excludeIds, excludeTypes) && FirstTop(tops, t.parentRef.value) == Some(j) then [t] else [])
  }

  /** After the second loop every top tier holds, after the children it had,
      exactly the qualifying child tiers whose PARENT_REF first matches it, in
      document order. */
  lemma {:induction false} AttachChildren(tops: seq<TopTier>, tiers: seq<InTier>, excludeIds: seq<string>,
                                          excludeTypes: seq<string>, j: nat)
    requires j < |tops|
    ensures Attach(tops, tiers, excludeIds, excludeTypes)[j].children
            == tops[j].children + ChildrenOf(tops, tiers, excludeIds, excludeTypes, j)
    decreases |tiers|
  {
    if tiers != [] {
      var n := |tiers| - 1;
      var t := tiers[n];
      AttachChildren(tops, tiers[..n], excludeIds, excludeTypes, j);
      var pre := Attach(tops, tiers[..n], excludeIds, excludeTypes);
      var before := ChildrenOf(tops, tiers[..n], excludeIds, excludeTypes, j);
      if IsChild(t, excludeIds, excludeTypes) {
        FirstTopSameIds(pre, tops, t.parentRef.value);
        if FirstTop(tops, t.parentRef.value) == Some(j) {
          assert ChildrenOf(tops, tiers, excludeIds, excludeTypes, j) == before + [t];
          assert Attach(tops, tiers, excludeIds, excludeTypes)[j].children == pre[j].children + [t];
        } else {
          assert ChildrenOf(tops, tiers, excludeIds, excludeTypes, j) == before + [];
          assert Attach(tops, tiers, excludeIds, excludeTypes)[j].children == pre[j].children;
        }
      } else {
        assert ChildrenOf(tops, tiers, excludeIds, excludeTypes, j) == before + [];
      }
    }
  }

  /** A child tier whose PARENT_REF names no top tier is dropped. */
  lemma DroppedChild(tops: seq<TopTier>, tiers: seq<InTier>, excludeIds: seq<string>, excludeTypes: seq<string>,
                     t: InTier)
    requires IsChild(t, excludeIds, excludeTypes)
    requires forall k :: 0 <= k < |tops| ==> tops[k].id != t.parentRef.value
    ensures forall k :: 0 <= k < |tops| ==>
      (t in Attach(tops, tiers, excludeIds, excludeTypes)[k].children <==> t in tops[k].children)
  {
    forall k | 0 <= k < |tops|
      ensures t in Attach(tops, tiers, excludeIds, excludeTypes)[k].children <==> t in tops[k].children
    {
      AttachChildren(tops, tiers, excludeIds, excludeTypes, k);
    }
  }

  /** The loop over the tiers with the inner search of `top_tiers` for the
      parent. */
  method AttachChildTiers(tops0: seq<TopTier>, tiers: seq<InTier>, excludeIds: seq<string>, excludeTypes: seq<string>)
    returns (tops: seq<TopTier>)
    ensures tops == Attach(tops0, tiers, excludeIds, excludeTypes)
  {
    tops := tops0;
    for i := 0 to |tiers|
      invariant tops == Attach(tops0, tiers[..i], excludeIds, excludeTypes)
    {
      assert tiers[..i + 1][..i] == tiers[..i];
      var t := tiers[i];
      if IsChild(t, excludeIds, excludeTypes) {
        var j := FindTop(tops, t.parentRef.value);
        if j.Some? {
          tops := tops[j.value := tops[j.value].(children := tops[j.value].children + [t])];
        }
      }
    }
    assert tiers[..|tiers|] == tiers;
  }

  /** `for j in top_tiers: if j["PARENT_TIER_ID"] == parent: ... break`. */
  method FindTop(tops: seq<TopTier>, id: string) returns (r: Option<nat>)
    ensures r == FirstTop(tops, id)
  {
    for k := 0 to |tops|
      invariant forall m :: 0 <= m < k ==> tops[m].id != id
    {
      if tops[k].id == id {
        FirstTopAt(tops, id, k);
        return Some(k);
      }
    }
    FirstTopNone(tops, id);
    return None;
  }

  lemma {:induction false} FirstTopAt(tops: seq<TopTier>, id: string, k: nat)
    requires k < |tops| && tops[k].id == id && forall m :: 0 <= m < k ==> tops[m].id != id
    ensures FirstTop(tops, id) == Some(k)
  {
    if k > 0 {
      FirstTopAt(tops[1..], id, k - 1);
    }
  }

  lemma {:induction false} FirstTopNone(tops: seq<TopTier>, id: string)
    requires forall m :: 0 <= m < |tops| ==> tops[m].id != id
    ensures FirstTop(tops, id) == None
  {
    if tops != [] {
      FirstTopNone(tops[1..], id);
    }
  }
}
