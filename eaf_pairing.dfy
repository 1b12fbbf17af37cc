/** Pairing in the flextext-to-EAF direction: every Target segment is linked
    to the Phonetic segments that carry the same `orig_aID` note.  Each match
    takes a fresh reference id from the counter and overwrites the target's
    `ann_ref` (the Phonetic segment's alignable id), `ref_aID` and speaker, so
    the last match wins. */
module EafPairing {
  import opened Common
  import opened EafSegments

  /** The inner loop's test: same `orig_aID`, and the other segment is Phonetic. */
  predicate IsMatch(t: Segment, p: Segment) {
    p.orig == t.orig && p.marker == Phonetic
  }

  /** The inner loop over `segs[..k]` for the target `t`, from counter `c`. */
  function PairWith(segs: seq<Segment>, k: nat, t: Segment, c: nat): (Segment, nat)
    requires k <= |segs|
  {
    if k == 0 then (t, c)
    else
      var (cur, c1) := PairWith(segs, k - 1, t, c);
      var p := segs[k - 1];
      if IsMatch(t, p) then (cur.(annRef := p.alignable, refId := Some(c1), speaker := p.speaker), c1 + 1)
      else (cur, c1)
  }

  /** How many of `segs[..k]` match `t`. */
  function MatchCount(segs: seq<Segment>, k: nat, t: Segment): nat
    requires k <= |segs|
  {
    if k == 0 then 0
    else MatchCount(segs, k - 1, t) + if IsMatch(t, segs[k - 1]) then 1 else 0
  }

  /** The position of the last match among `segs[..k]`. */
  function LastMatch(segs: seq<Segment>, k: nat, t: Segment): (r: Option<nat>)
    requires k <= |segs|
    ensures r.Some? ==> r.value < k && IsMatch(t, segs[r.value])
    ensures r.Some? ==> forall j :: r.value < j < k ==> !IsMatch(t, segs[j])
    ensures r.None? ==> forall j :: 0 <= j < k ==> !IsMatch(t, segs[j])
  {
    if k == 0 then None
    else if IsMatch(t, segs[k - 1]) then Some(k - 1)
    else LastMatch(segs, k - 1, t)
  }

  /** The inner loop in closed form: without a match the target is unchanged;
      otherwise every match took one id, and `ann_ref`, `ref_aID` and the
      speaker come from the last match and the last id taken. */
  lemma {:induction false} PairWithClosed(segs: seq<Segment>, k: nat, t: Segment, c: nat)
    requires k <= |segs|
    ensures PairWith(segs, k, t, c).1 == c + MatchCount(segs, k, t)
    ensures (MatchCount(segs, k, t) == 0) == LastMatch(segs, k, t).None?
    ensures LastMatch(segs, k, t).None? ==> PairWith(segs, k, t, c).0 == t
    ensures LastMatch(segs, k, t).Some? ==>
      var p := segs[LastMatch(segs, k, t).value];
      PairWith(segs, k, t, c).0
        == t.(annRef := p.alignable, refId := Some(c + MatchCount(segs, k, t) - 1), speaker := p.speaker)
  {
    if k > 0 {
      PairWithClosed(segs, k - 1, t, c);
    }
  }

  /** The outer loop over `segs[..k]`: the segments as they stand afterwards
      and the counter. */
  function PairAll(segs: seq<Segment>, k: nat, c: nat): (r: (seq<Segment>, nat))
    requires k <= |segs|
    ensures |r.0| == k
  {
    if k == 0 then ([], c)
    else
      var (pre, c1) := PairAll(segs, k - 1, c);
      var s := segs[k - 1];
      if s.marker == Target then
        var (s2, c2) := PairWith(segs, |segs|, s, c1);
        (pre + [s2], c2)
      else (pre + [s], c1)
  }

  /** The pairing loop. */
  function Pair(segs: seq<Segment>, c: nat): (seq<Segment>, nat) {
    PairAll(segs, |segs|, c)
  }

  /** What the loops never change: every segment keeps its marker and
      `orig_aID`, and every non-Target segment is left as it was. */
  ghost predicate Untouched(segs: seq<Segment>, cur: seq<Segment>) {
    |cur| == |segs|
    && forall j :: 0 <= j < |segs| ==>
         cur[j].marker == segs[j].marker && cur[j].orig == segs[j].orig
         && (segs[j].marker != Target ==> cur[j] == segs[j])
  }

  /** The inner loop, reading the segments as they currently stand. */
  method Scan(segs: seq<Segment>, cur: seq<Segment>, t0: Segment, c0: nat) returns (t: Segment, count: nat)
    requires Untouched(segs, cur)
    ensures (t, count) == PairWith(segs, |segs|, t0, c0)
  {
    t := t0;
    count := c0;
    for j := 0 to |cur|
      invariant (t, count) == PairWith(segs, j, t0, c0)
    {
      if t0.orig == cur[j].orig && cur[j].marker == Phonetic {
        t := t.(annRef := cur[j].alignable, refId := Some(count), speaker := cur[j].speaker);
        count := count + 1;
      }
    }
  }

  method PairTargets(segs: seq<Segment>, c0: nat) returns (out: seq<Segment>, count: nat)
    ensures (out, count) == Pair(segs, c0)
  {
    out := segs;
    count := c0;
    for i := 0 to |segs|
      invariant |out| == |segs|
      invariant out[..i] == PairAll(segs, i, c0).0 && count == PairAll(segs, i, c0).1
      invariant out[i..] == segs[i..]
      invariant Untouched(segs, out)
    {
      assert out[i] == segs[i];
      if out[i].marker == Target {
        var t, c := Scan(segs, out, out[i], count);
        PairWithKeeps(segs, |segs|, segs[i], count);
        out := out[i := t];
        count := c;
      }
      assert out[..i + 1] == out[..i] + [out[i]];
      assert out[i + 1..] == segs[i + 1..];
    }
    assert out[..|segs|] == out;
  }

  /** The inner loop changes only `ann_ref`, `ref_aID` and the speaker. */
  lemma {:induction false} PairWithKeeps(segs: seq<Segment>, k: nat, t: Segment, c: nat)
    requires k <= |segs|
    ensures PairWith(segs, k, t, c).0.marker == t.marker
    ensures PairWith(segs, k, t, c).0.orig == t.orig
    ensures PairWith(segs, k, t, c).1 >= c
  {
    if k > 0 {
      PairWithKeeps(segs, k - 1, t, c);
    }
  }

  /** Where the outer loop leaves segment i: a non-Target unchanged, a Target
      as its inner loop made it, starting from the counter the segments
      before it left. */
  lemma {:induction false} PairAllAt(segs: seq<Segment>, k: nat, c: nat, i: nat)
    requires i < k <= |segs|
    ensures PairAll(segs, k, c).0[i]
            == if segs[i].marker == Target then PairWith(segs, |segs|, segs[i], PairAll(segs, i, c).1).0
               else segs[i]
    decreases k
  {
    if i < k - 1 {
      PairAllAt(segs, k - 1, c, i);
    }
  }

  /** The counter never goes down. */
  lemma {:induction false} PairAllCount(segs: seq<Segment>, k: nat, c: nat)
    requires k <= |segs|
    ensures c <= PairAll(segs, k, c).1
    decreases k
  {
    if k > 0 {
      PairAllCount(segs, k - 1, c);
      PairWithKeeps(segs, |segs|, segs[k - 1], PairAll(segs, k - 1, c).1);
    }
  }

  /** `ref_aID`s lie in `[lo, hi)` and grow strictly with the segment order. */
  ghost predicate RefIdsAllocated(segs: seq<Segment>, lo: nat, hi: nat) {
    && (forall i :: 0 <= i < |segs| && segs[i].refId.Some? ==> lo <= segs[i].refId.value < hi)
    && (forall i, j :: 0 <= i < j < |segs| && segs[i].refId.Some? && segs[j].refId.Some?
          ==> segs[i].refId.value < segs[j].refId.value)
  }

  /** Starting from segments without reference ids, the pairing loop takes
      every `ref_aID` it hands out from the counter, in segment order, so no
      two segments share one. */
  lemma {:induction false} PairAllIds(segs: seq<Segment>, k: nat, c: nat)
    requires k <= |segs| && forall i :: 0 <= i < |segs| ==> segs[i].refId.None?
    ensures c <= PairAll(segs, k, c).1
    ensures RefIdsAllocated(PairAll(segs, k, c).0, c, PairAll(segs, k, c).1)
    decreases k
  {
    if k > 0 {
      PairAllIds(segs, k - 1, c);
      var (pre, c1) := PairAll(segs, k - 1, c);
      var s := segs[k - 1];
      var (s2, c2) := if s.marker == Target then PairWith(segs, |segs|, s, c1) else (s, c1);
      assert PairAll(segs, k, c) == (pre + [s2], c2);
      PairWithClosed(segs, |segs|, s, c1);
      assert s2.refId.Some? ==> c1 <= s2.refId.value < c2;
      RefIdsSnoc(pre, s2, c, c1, c2);
    }
  }

  lemma RefIdsSnoc(pre: seq<Segment>, s: Segment, lo: nat, mid: nat, hi: nat)
    requires RefIdsAllocated(pre, lo, mid) && lo <= mid <= hi
    requires s.refId.Some? ==> mid <= s.refId.value < hi
    ensures RefIdsAllocated(pre + [s], lo, hi)
  {
    var segs := pre + [s];
    forall i | 0 <= i < |segs| && segs[i].refId.Some?
      ensures lo <= segs[i].refId.value < hi
    {
      if i < |pre| {
        assert segs[i] == pre[i];
      }
    }
    assert forall i :: 0 <= i < |pre| ==> segs[i] == pre[i];
  }

  /** The script's own preconditions on the segments: every phrase is
      Phonetic or Target, and every Target has a Phonetic original. */
  ghost predicate Pairable(segs: seq<Segment>) {
    forall i :: 0 <= i < |segs| ==>
      && Unpaired(segs[i])
      && (segs[i].marker == Phonetic || segs[i].marker == Target)
      && (segs[i].marker == Target ==> exists j :: 0 <= j < |segs| && IsMatch(segs[i], segs[j]))
  }

  /** What emission needs of a segment: a Phonetic one has its alignable id,
      a Target one its reference id and the id it refers to. */
  predicate Ready(s: Segment) {
    || (s.marker == Phonetic && s.alignable.Some?)
    || (s.marker == Target && s.refId.Some? && s.annRef.Some?)
  }

  /** Under those preconditions every paired segment is ready for emission,
      and each Target refers to the alignable id of the last Phonetic segment
      with its `orig_aID`, whose speaker it takes. */
  lemma PairReady(segs: seq<Segment>, c: nat, i: nat)
    requires Pairable(segs) && i < |segs|
    ensures Ready(Pair(segs, c).0[i])
    ensures segs[i].marker == Target ==>
      var m := LastMatch(segs, |segs|, segs[i]);
      && m.Some?
      && Pair(segs, c).0[i].annRef == segs[m.value].alignable
      && Pair(segs, c).0[i].speaker == segs[m.value].speaker
    ensures segs[i].marker != Target ==> Pair(segs, c).0[i] == segs[i]
  {
    PairAllAt(segs, |segs|, c, i);
    if segs[i].marker == Target {
      var c1 := PairAll(segs, i, c).1;
      PairWithClosed(segs, |segs|, segs[i], c1);
      var j :| 0 <= j < |segs| && IsMatch(segs[i], segs[j]);
      var m := LastMatch(segs, |segs|, segs[i]);
      assert m.Some?;
      assert Unpaired(segs[m.value]);
    }
  }
}
