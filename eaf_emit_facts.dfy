/** What the emission loop promises about the annotations it writes: every
    id after a baseline annotation is taken from the counter in order, no two
    annotations share an id, and the word and morph subdivisions form the
    `PREVIOUS_ANNOTATION` chains ELAN requires. */
module EafEmitFacts {
  import opened Common
  import opened Dict
  import opened Elan
  import opened EafSegments
  import opened EafEmit

  // ---------------------------------------------------------------------------
  // Ids taken from the counter

  /** The annotation ids of a plan, in order. */
  function PlanIds(plan: seq<Step>): (r: seq<nat>)
    ensures |r| == |plan| && forall i :: 0 <= i < |plan| ==> r[i] == plan[i].entry.ann.id
  {
    seq(|plan|, i requires 0 <= i < |plan| => plan[i].entry.ann.id)
  }

  lemma PlanIdsConcat(a: seq<Step>, b: seq<Step>)
    ensures PlanIds(a + b) == PlanIds(a) + PlanIds(b)
  {
  }

  /** The ids of a plan are the ids of the entries it appends. */
  lemma PlanIdsOfEntries(plan: seq<Step>)
    ensures Ids(Entries(plan)) == PlanIds(plan)
  {
  }

  /** The ids of `plan` are `c, c + 1, …`. */
  ghost predicate Consecutive(plan: seq<Step>, c: nat) {
    forall i :: 0 <= i < |plan| ==> plan[i].entry.ann.id == c + i
  }

  lemma ConsecutiveConcat(a: seq<Step>, b: seq<Step>, c: nat)
    requires Consecutive(a, c) && Consecutive(b, c + |a|)
    ensures Consecutive(a + b, c)
  {
  }

  lemma MorphOneConsecutive(base: string, m: Dict<string>, wordId: nat, prev: Option<nat>, c: nat)
    ensures Consecutive(MorphOne(base, m, wordId, prev, c), c)
  {
    var md := MorphDict(m);
    ConsecutiveConcat([MorphTxtStep(base, m, wordId, prev, c)], AssocSteps(base, Keys(md), md, c, c + 1), c);
  }

  /** A `Run` loop whose items each take the ids from the counter on, one
      per step, does the same. */
  lemma {:induction false} RunConsecutive<X>(one: (X, Option<nat>, nat) -> seq<Step>, xs: seq<X>,
                                             prev: Option<nat>, c: nat)
    requires forall x, p, k :: Consecutive(one(x, p, k), k)
    ensures Consecutive(Run(one, xs, prev, c), c)
    decreases |xs|
  {
    if xs != [] {
      var o := one(xs[0], prev, c);
      RunConsecutive(one, xs[1..], Some(c), c + |o|);
      ConsecutiveConcat(o, Run(one, xs[1..], Some(c), c + |o|), c);
    }
  }

  /** The morphs of a word take the ids from `c` on, one per step. */
  lemma MorphStepsConsecutive(base: string, ms: seq<Dict<string>>, wordId: nat, prev: Option<nat>, c: nat)
    ensures Consecutive(MorphSteps(base, ms, wordId, prev, c), c)
  {
    forall m, p, k
      ensures Consecutive(MorphOf(base, wordId)(m, p, k), k)
    {
      MorphOneConsecutive(base, m, wordId, p, k);
    }
    RunConsecutive(MorphOf(base, wordId), ms, prev, c);
  }

  lemma WordOneConsecutive(base: string, w: WordRec, textId: nat, prev: Option<nat>, c: nat)
    ensures Consecutive(WordOne(base, w, textId, prev, c), c)
  {
    var head := [Step(Entry(base + "-words", Subdivision(c, textId, prev, w.text)), None)] + WordAssocs(base, w, c);
    MorphStepsConsecutive(base, w.morphs, c, None, c + 3);
    ConsecutiveConcat(head, MorphSteps(base, w.morphs, c, None, c + 3), c);
  }

  /** The words of a segment take the ids from `c` on, one per step. */
  lemma WordStepsConsecutive(base: string, ws: seq<WordRec>, textId: nat, prev: Option<nat>, c: nat)
    ensures Consecutive(WordSteps(base, ws, textId, prev, c), c)
  {
    forall w, p, k
      ensures Consecutive(WordOf(base, textId)(w, p, k), k)
    {
      WordOneConsecutive(base, w, textId, p, k);
    }
    RunConsecutive(WordOf(base, textId), ws, prev, c);
  }

  /** Everything a segment writes after its baseline annotation takes its id
      from the counter, in order. */
  lemma RestConsecutive(cfg: Config, s: Segment, c: nat)
    ensures Consecutive(SegmentRest(cfg, s, c), c)
  {
    var tid := if TextId(s).Some? then TextId(s).value else 0;
    var keys := PhraseKeys(cfg);
    RestStepsConsecutive(s.speaker, BaseTier(cfg, s), keys, PhraseContent(s), tid, s.words, c);
  }

  lemma RestStepsConsecutive(speaker: string, base: string, keys: seq<string>, content: Dict<string>,
                             tid: nat, ws: seq<WordRec>, c: nat)
    ensures Consecutive(RestSteps(speaker, base, keys, content, tid, ws, c), c)
  {
    WordStepsConsecutive(base, ws, tid, None, c + |keys|);
    ConsecutiveConcat(AssocSteps(speaker, keys, content, tid, c), WordSteps(base, ws, tid, None, c + |keys|), c);
  }

  /** The ids the segments' baseline annotations carry. */
  ghost function TextIdSet(segs: seq<Segment>): set<nat>
    decreases |segs|
  {
    if segs == [] then {}
    else (if TextId(segs[0]).Some? then {TextId(segs[0]).value} else {}) + TextIdSet(segs[1..])
  }

  lemma {:induction false} TextIdSetHas(segs: seq<Segment>, x: nat)
    requires x in TextIdSet(segs)
    ensures exists k :: 0 <= k < |segs| && TextId(segs[k]) == Some(x)
    decreases |segs|
  {
    if TextId(segs[0]) != Some(x) {
      TextIdSetHas(segs[1..], x);
      var k :| 0 <= k < |segs[1..]| && TextId(segs[1..][k]) == Some(x);
      assert TextId(segs[k + 1]) == Some(x);
    }
  }

  lemma {:induction false} TextIdSetLacks(segs: seq<Segment>, x: nat)
    requires forall k :: 0 <= k < |segs| ==> TextId(segs[k]) != Some(x)
    ensures x !in TextIdSet(segs)
    decreases |segs|
  {
    if segs != [] {
      assert forall k :: 0 <= k < |segs[1..]| ==> segs[1..][k] == segs[k + 1];
      TextIdSetLacks(segs[1..], x);
    }
  }

  /** Every segment has its baseline id, below `c`, and no two share one: what
      extraction and pairing leave behind. */
  ghost predicate FreshTextIds(segs: seq<Segment>, c: nat) {
    && (forall i :: 0 <= i < |segs| ==> TextId(segs[i]).Some? && TextId(segs[i]).value < c)
    && (forall i, j :: 0 <= i < j < |segs| ==> TextId(segs[i]) != TextId(segs[j]))
  }

  lemma FreshTail(segs: seq<Segment>, c: nat, c1: nat)
    requires segs != [] && FreshTextIds(segs, c) && c <= c1
    ensures FreshTextIds(segs[1..], c1)
    ensures TextId(segs[0]).value !in TextIdSet(segs[1..])
    ensures forall x :: x in TextIdSet(segs[1..]) ==> x < c
  {
    var tail := segs[1..];
    assert forall i :: 0 <= i < |tail| ==> tail[i] == segs[i + 1];
    TextIdSetLacks(tail, TextId(segs[0]).value);
    forall x | x in TextIdSet(tail)
      ensures x < c
    {
      TextIdSetHas(tail, x);
    }
  }

  /** Distinct ids below `hi`, each from `[lo, hi)` or from `earlier`. */
  ghost predicate IdsWithin(ids: seq<nat>, lo: nat, hi: nat, earlier: set<nat>) {
    && Distinct(ids)
    && forall i :: 0 <= i < |ids| ==> ids[i] < hi && (lo <= ids[i] || ids[i] in earlier)
  }

  /** One segment's ids in front of the rest: its baseline id, fresh ids from
      `[c, c1)`, then ids from `[c1, hi)` or earlier baselines. */
  lemma IdsJoin(t0: nat, r: seq<nat>, t: seq<nat>, c: nat, c1: nat, hi: nat, earlier: set<nat>)
    requires t0 < c <= c1 <= hi && t0 !in earlier && forall x :: x in earlier ==> x < c
    requires |r| == c1 - c && forall i :: 0 <= i < |r| ==> r[i] == c + i
    requires IdsWithin(t, c1, hi, earlier)
    ensures IdsWithin([t0] + r + t, c, hi, {t0} + earlier)
  {
    var ids := [t0] + r + t;
    forall i, j | 0 <= i < j < |ids|
      ensures ids[i] != ids[j]
    {
      if j <= |r| {
        assert ids[j] == r[j - 1];
        if i > 0 {
          assert ids[i] == r[i - 1];
        }
      } else {
        assert ids[j] == t[j - 1 - |r|];
        if i > |r| {
          assert ids[i] == t[i - 1 - |r|];
        } else if i > 0 {
          assert ids[i] == r[i - 1];
        }
      }
    }
    forall i | 0 <= i < |ids|
      ensures ids[i] < hi && (c <= ids[i] || ids[i] in {t0} + earlier)
    {
      if 0 < i <= |r| {
        assert ids[i] == r[i - 1];
      } else if i > |r| {
        assert ids[i] == t[i - 1 - |r|];
      }
    }
  }

  lemma BaselineId(cfg: Config, s: Segment)
    requires TextId(s).Some?
    ensures BaselineStep(cfg, s).entry.ann.id == TextId(s).value
  {
  }

  /** A segment's ids: its baseline id, then those of the rest. */
  lemma SegmentIds(cfg: Config, s: Segment, c: nat)
    requires TextId(s).Some?
    ensures PlanIds(SegmentSteps(cfg, s, c)) == [TextId(s).value] + PlanIds(SegmentRest(cfg, s, c))
  {
    BaselineId(cfg, s);
    PlanIdsConcat([BaselineStep(cfg, s)], SegmentRest(cfg, s, c));
    assert PlanIds([BaselineStep(cfg, s)]) == [TextId(s).value];
  }

  /** The id `t0`, then the `n` ids `k, k + 1, …`. */
  ghost predicate BaselineThenCounted(ids: seq<nat>, t0: nat, k: nat, n: nat) {
    |ids| == n + 1 && ids[0] == t0 && forall i :: 1 <= i <= n ==> ids[i] == k + i - 1
  }

  /** What one segment of the emission loop writes: its baseline id, then one
      id per step from the counter on. */
  lemma SegmentShape(cfg: Config, s: Segment, k: nat)
    requires TextId(s).Some?
    ensures BaselineThenCounted(PlanIds(SegmentOf(cfg)(s, k)), TextId(s).value, k, UsedOf(cfg)(s, k))
  {
    SegmentIds(cfg, s, k);
    RestConsecutive(cfg, s, k);
  }

  /** For segments whose baseline ids are distinct and below `c`, no two
      annotations of a `Loop` share an id, and every id is below the final
      counter: a baseline id, or one taken from `[c, LoopNext)`. */
  lemma {:induction false} LoopIds(one: (Segment, nat) -> seq<Step>, used: (Segment, nat) -> nat,
                                   segs: seq<Segment>, c: nat)
    requires FreshTextIds(segs, c)
    requires forall s, k :: TextId(s).Some? ==> BaselineThenCounted(PlanIds(one(s, k)), TextId(s).value, k, used(s, k))
    ensures c <= LoopNext(used, segs, c)
    ensures IdsWithin(PlanIds(Loop(one, used, segs, c)), c, LoopNext(used, segs, c), TextIdSet(segs))
    decreases |segs|
  {
    if segs == [] {
      assert PlanIds(Loop(one, used, segs, c)) == [];
    } else {
      var c1 := c + used(segs[0], c);
      FreshTail(segs, c, c1);
      LoopIds(one, used, segs[1..], c1);
      LoopIdsStep(one, used, segs, c);
    }
  }

  /** The induction step of `LoopIds`. */
  lemma LoopIdsStep(one: (Segment, nat) -> seq<Step>, used: (Segment, nat) -> nat, segs: seq<Segment>, c: nat)
    requires segs != [] && FreshTextIds(segs, c)
    requires BaselineThenCounted(PlanIds(one(segs[0], c)), TextId(segs[0]).value, c, used(segs[0], c))
    requires var c1 := c + used(segs[0], c);
      && c1 <= LoopNext(used, segs[1..], c1)
      && IdsWithin(PlanIds(Loop(one, used, segs[1..], c1)), c1, LoopNext(used, segs[1..], c1), TextIdSet(segs[1..]))
    ensures c <= LoopNext(used, segs, c)
    ensures IdsWithin(PlanIds(Loop(one, used, segs, c)), c, LoopNext(used, segs, c), TextIdSet(segs))
  {
    var s := segs[0];
    var c1 := c + used(s, c);
    FreshTail(segs, c, c1);
    var o := one(s, c);
    var more := Loop(one, used, segs[1..], c1);
    var t0 := TextId(s).value;
    var r := PlanIds(o)[1..];
    var t := PlanIds(more);
    var hi := LoopNext(used, segs[1..], c1);
    assert PlanIds(o) == [t0] + r;
    PlanIdsConcat(o, more);
    assert TextIdSet(segs) == {t0} + TextIdSet(segs[1..]);
    IdsJoin(t0, r, t, c, c1, hi, TextIdSet(segs[1..]));
  }

  /** For segments whose baseline ids are distinct and below `c`, no two
      annotations of the emission loop share an id, and every id is below
      the final counter: a baseline id, or one taken from `[c, AllNext)`. */
  lemma AllStepsIds(cfg: Config, segs: seq<Segment>, c: nat)
    requires FreshTextIds(segs, c)
    ensures c <= AllNext(cfg, segs, c)
    ensures IdsWithin(PlanIds(AllSteps(cfg, segs, c)), c, AllNext(cfg, segs, c), TextIdSet(segs))
  {
    forall s, k | TextId(s).Some?
      ensures BaselineThenCounted(PlanIds(SegmentOf(cfg)(s, k)), TextId(s).value, k, UsedOf(cfg)(s, k))
    {
      SegmentShape(cfg, s, k);
    }
    LoopIds(SegmentOf(cfg), UsedOf(cfg), segs, c);
  }

  // ---------------------------------------------------------------------------
  // Subdivision chains

  /** The annotations of a symbolic-subdivision tier under one parent: each
      refers to `parent`, holds its value, and names the annotation before it
      as `PREVIOUS_ANNOTATION`; the first names `prev`. */
  ghost predicate Chain(anns: seq<Annotation>, parent: nat, prev: Option<nat>, values: seq<string>) {
    |anns| == |values|
    && forall i {:trigger anns[i]} :: 0 <= i < |anns| ==>
         && anns[i].Subdivision? && anns[i].ref == parent && anns[i].value == values[i]
         && anns[i].previous == (if i == 0 then prev else Some(anns[i - 1].id))
  }

  lemma ChainCons(a: Annotation, rest: seq<Annotation>, parent: nat, prev: Option<nat>, v: string, vs: seq<string>)
    requires a == Subdivision(a.id, parent, prev, v)
    requires Chain(rest, parent, Some(a.id), vs)
    ensures Chain([a] + rest, parent, prev, [v] + vs)
  {
    var anns := [a] + rest;
    var values := [v] + vs;
    forall i | 0 <= i < |anns|
      ensures && anns[i].Subdivision? && anns[i].ref == parent && anns[i].value == values[i]
              && anns[i].previous == (if i == 0 then prev else Some(anns[i - 1].id))
    {
      if i == 0 {
        assert anns[0] == a;
      } else if i == 1 {
        assert anns[1] == rest[0] && anns[0] == a && values[1] == vs[0];
      } else {
        assert anns[i] == rest[i - 1] && anns[i - 1] == rest[i - 2] && values[i] == vs[i - 1];
      }
    }
  }

  /** A tier that none of the entries names holds none of them. */
  lemma {:induction false} AnnotationsOnNone(es: seq<Entry>, tier: string)
    requires forall i :: 0 <= i < |es| ==> es[i].tier != tier
    ensures AnnotationsOn(es, tier) == []
    decreases |es|
  {
    if es != [] {
      AnnotationsOnNone(es[..|es| - 1], tier);
    }
  }

  lemma AnnotationsOnCons(e: Entry, es: seq<Entry>, tier: string)
    ensures AnnotationsOn([e] + es, tier) == (if e.tier == tier then [e.ann] else []) + AnnotationsOn(es, tier)
  {
    AnnotationsOnAppend([e], es, tier);
    assert [e][..0] == [];
  }

  /** A run of steps of which only the first writes to `tier`. */
  lemma OnlyHead(one: seq<Step>, rest: seq<Step>, tier: string)
    requires one != [] && one[0].entry.tier == tier
    requires forall i :: 1 <= i < |one| ==> one[i].entry.tier != tier
    ensures AnnotationsOn(Entries(one + rest), tier) == [one[0].entry.ann] + AnnotationsOn(Entries(rest), tier)
  {
    var mid := Entries(one[1..]);
    assert Entries(one + rest) == [one[0].entry] + (mid + Entries(rest));
    assert forall i :: 0 <= i < |mid| ==> mid[i] == one[i + 1].entry;
    AnnotationsOnNone(mid, tier);
    AnnotationsOnAppend(mid, Entries(rest), tier);
    AnnotationsOnCons(one[0].entry, mid + Entries(rest), tier);
  }

  /** The morph loop writes to `base-morph-txt` and to `base-` followed by a
      morph-dict key, which is at least six characters long and never
      `morph-txt`. */
  lemma MorphOneTiers(base: string, m: Dict<string>, wordId: nat, prev: Option<nat>, c: nat)
    ensures var one := MorphOne(base, m, wordId, prev, c);
      && one[0].entry.tier == base + "-morph-txt"
      && forall i :: 1 <= i < |one| ==> |one[i].entry.tier| >= |base| + 7 && one[i].entry.tier != base + "-morph-txt"
  {
    var md := MorphDict(m);
    var one := MorphOne(base, m, wordId, prev, c);
    MorphDictKeys(m);
    forall i | 1 <= i < |one|
      ensures |one[i].entry.tier| >= |base| + 7 && one[i].entry.tier != base + "-morph-txt"
    {
      var key := md[i - 1].0;
      assert one[i].entry.tier == base + "-" + key;
      assert key == (base + "-" + key)[|base| + 1..];
      assert (base + "-morph-txt")[|base| + 1..] == "morph-txt";
    }
  }

  /** Every step of `p` writes to a tier whose name is longer than `n`. */
  ghost predicate TiersLonger(p: seq<Step>, n: nat) {
    forall i :: 0 <= i < |p| ==> |p[i].entry.tier| > n
  }

  lemma TiersLongerConcat(a: seq<Step>, b: seq<Step>, n: nat)
    requires TiersLonger(a, n) && TiersLonger(b, n)
    ensures TiersLonger(a + b, n)
  {
  }

  /** A `Run` loop whose items write only to tiers longer than `n` does the
      same. */
  lemma {:induction false} RunTiers<X>(one: (X, Option<nat>, nat) -> seq<Step>, xs: seq<X>,
                                       prev: Option<nat>, c: nat, n: nat)
    requires forall x, p, k :: TiersLonger(one(x, p, k), n)
    ensures TiersLonger(Run(one, xs, prev, c), n)
    decreases |xs|
  {
    if xs != [] {
      var o := one(xs[0], prev, c);
      RunTiers(one, xs[1..], Some(c), c + |o|, n);
      TiersLongerConcat(o, Run(one, xs[1..], Some(c), c + |o|), n);
    }
  }

  lemma MorphOneLonger(base: string, m: Dict<string>, wordId: nat, prev: Option<nat>, c: nat)
    ensures TiersLonger(MorphOne(base, m, wordId, prev, c), |base| + 6)
  {
    MorphOneTiers(base, m, wordId, prev, c);
    assert |base + "-morph-txt"| == |base| + 10;
  }

  /** Every tier the morph loop writes to is longer than `base-words`. */
  lemma MorphStepsTiers(base: string, ms: seq<Dict<string>>, wordId: nat, prev: Option<nat>, c: nat)
    ensures TiersLonger(MorphSteps(base, ms, wordId, prev, c), |base| + 6)
  {
    forall m, p, k
      ensures TiersLonger(MorphOf(base, wordId)(m, p, k), |base| + 6)
    {
      MorphOneLonger(base, m, wordId, p, k);
    }
    RunTiers(MorphOf(base, wordId), ms, prev, c, |base| + 6);
  }

  /** The value `val` gives each item, in order. */
  function Texts<X>(val: X -> string, xs: seq<X>): seq<string> {
    seq(|xs|, i requires 0 <= i < |xs| => val(xs[i]))
  }

  /** The steps of one item: a subdivision `a` on `tier` first, and nothing
      else on that tier. */
  ghost predicate HeadOn(o: seq<Step>, tier: string, a: Annotation) {
    o != [] && o[0].entry == Entry(tier, a) && forall i :: 1 <= i < |o| ==> o[i].entry.tier != tier
  }

  /** A `Run` loop whose items each put one subdivision of `parent` on
      `tier`, naming the previous item, leaves there a chain of the items'
      values. */
  lemma {:induction false} RunChain<X>(one: (X, Option<nat>, nat) -> seq<Step>, xs: seq<X>, prev: Option<nat>,
                                       c: nat, tier: string, parent: nat, val: X -> string)
    requires forall x, p, k :: HeadOn(one(x, p, k), tier, Subdivision(k, parent, p, val(x)))
    ensures Chain(AnnotationsOn(Entries(Run(one, xs, prev, c)), tier), parent, prev, Texts(val, xs))
    decreases |xs|
  {
    if xs == [] {
      assert Entries(Run(one, xs, prev, c)) == [];
    } else {
      var o := one(xs[0], prev, c);
      RunChain(one, xs[1..], Some(c), c + |o|, tier, parent, val);
      RunChainStep(one, xs, prev, c, tier, parent, val);
    }
  }

  /** The induction step of `RunChain`. */
  lemma RunChainStep<X>(one: (X, Option<nat>, nat) -> seq<Step>, xs: seq<X>, prev: Option<nat>,
                        c: nat, tier: string, parent: nat, val: X -> string)
    requires xs != [] && HeadOn(one(xs[0], prev, c), tier, Subdivision(c, parent, prev, val(xs[0])))
    requires var o := one(xs[0], prev, c);
      Chain(AnnotationsOn(Entries(Run(one, xs[1..], Some(c), c + |o|)), tier), parent, Some(c), Texts(val, xs[1..]))
    ensures Chain(AnnotationsOn(Entries(Run(one, xs, prev, c)), tier), parent, prev, Texts(val, xs))
  {
    var o := one(xs[0], prev, c);
    var rest := Run(one, xs[1..], Some(c), c + |o|);
    OnlyHead(o, rest, tier);
    assert Texts(val, xs) == [val(xs[0])] + Texts(val, xs[1..]);
    ChainCons(o[0].entry.ann, AnnotationsOn(Entries(rest), tier), parent, prev, val(xs[0]), Texts(val, xs[1..]));
  }

  /** A morph's `txt` value, `""` where it has none. */
  function MorphTxt(m: Dict<string>): string {
    ValueOr(Get(m, "txt"))
  }

  /** Within one word, the morph-txt annotations refer to the word, hold the
      morphs' `txt` values in order, and each names the one before it; the
      first names `prev` (None: the chain restarts with every word). */
  lemma MorphChain(base: string, ms: seq<Dict<string>>, wordId: nat, prev: Option<nat>, c: nat)
    ensures Chain(AnnotationsOn(Entries(MorphSteps(base, ms, wordId, prev, c)), base + "-morph-txt"),
                  wordId, prev, Texts(MorphTxt, ms))
  {
    var tier := base + "-morph-txt";
    forall m, p, k
      ensures HeadOn(MorphOf(base, wordId)(m, p, k), tier, Subdivision(k, wordId, p, MorphTxt(m)))
    {
      MorphOneTiers(base, m, wordId, p, k);
    }
    RunChain(MorphOf(base, wordId), ms, prev, c, tier, wordId, MorphTxt);
  }

  /** A word's text. */
  function WordText(w: WordRec): string {
    w.text
  }

  /** Within one segment, the word annotations refer to the baseline
      annotation `textId`, hold the words' texts in order, and each names the
      one before it; the first names `prev`. */
  lemma WordChain(base: string, ws: seq<WordRec>, textId: nat, prev: Option<nat>, c: nat)
    ensures Chain(AnnotationsOn(Entries(WordSteps(base, ws, textId, prev, c)), base + "-words"),
                  textId, prev, Texts(WordText, ws))
  {
    var tier := base + "-words";
    forall w, p, k
      ensures HeadOn(WordOf(base, textId)(w, p, k), tier, Subdivision(k, textId, p, WordText(w)))
    {
      WordOneTiers(base, w, textId, p, k);
    }
    RunChain(WordOf(base, textId), ws, prev, c, tier, textId, WordText);
  }

  /** A word writes to `base-words` first and then only to longer names. */
  lemma WordOneTiers(base: string, w: WordRec, textId: nat, prev: Option<nat>, c: nat)
    ensures var one := WordOne(base, w, textId, prev, c);
      && one[0] == Step(Entry(base + "-words", Subdivision(c, textId, prev, w.text)), None)
      && forall i :: 1 <= i < |one| ==> one[i].entry.tier != base + "-words"
  {
    var one := WordOne(base, w, textId, prev, c);
    var morphs := MorphSteps(base, w.morphs, c, None, c + 3);
    MorphStepsTiers(base, w.morphs, c, None, c + 3);
    assert |base + "-words"| == |base| + 6;
    forall i | 1 <= i < |one|
      ensures one[i].entry.tier != base + "-words"
    {
      if i >= 3 {
        assert one[i] == morphs[i - 3];
        assert |morphs[i - 3].entry.tier| > |base| + 6;
      } else {
        assert one[i].entry.tier == base + (if i == 1 then "-pos" else "-gls");
      }
    }
  }
}
