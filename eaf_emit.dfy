/** Writing the annotations of the flextext-to-EAF conversion.
    What the script appends is described first as a plan: the steps it takes
    in order, each the entry it appends and, where the lookup of a dictionary
    key fails before the entry is built, that key.  The emission methods are
    proved to append exactly the entries of their plan, or to stop at the
    plan's first failing step with its error. */
module EafEmit {
  import opened Common
  import opened Dict
  import opened Elan
  import opened EafSegments
  import Flexible

  // ---------------------------------------------------------------------------
  // Plans

  /** The entry one step appends, and the key whose lookup raises KeyError
      before it (the entry then holds "" for the missing value). */
  datatype Step = Step(entry: Entry, missing: Option<string>)

  function ValueOr(v: Option<string>): string {
    if v.Some? then v.value else ""
  }

  /** The error a step raises: KeyError for the missing key, else the tier
      lookup that finds nothing. */
  function StepError(s: Step, ids: seq<string>): Option<Error> {
    if s.missing.Some? then Some(KeyError(s.missing.value))
    else if s.entry.tier !in ids then Some(MissingElement(s.entry.tier))
    else None
  }

  /** The error of the first failing step of a plan. */
  function FirstError(plan: seq<Step>, ids: seq<string>): Option<Error> {
    if plan == [] then None
    else if StepError(plan[0], ids).Some? then StepError(plan[0], ids)
    else FirstError(plan[1..], ids)
  }

  /** A plan fails exactly when one of its steps does. */
  lemma {:induction false} FirstErrorNone(plan: seq<Step>, ids: seq<string>)
    ensures FirstError(plan, ids).None? <==> forall i :: 0 <= i < |plan| ==> StepError(plan[i], ids).None?
    decreases |plan|
  {
    if plan != [] {
      FirstErrorNone(plan[1..], ids);
      assert forall i :: 0 < i < |plan| ==> plan[i] == plan[1..][i - 1];
    }
  }

  function Entries(plan: seq<Step>): seq<Entry> {
    seq(|plan|, i requires 0 <= i < |plan| => plan[i].entry)
  }

  lemma {:induction false} FirstErrorConcat(a: seq<Step>, b: seq<Step>, ids: seq<string>)
    ensures FirstError(a + b, ids) == if FirstError(a, ids).Some? then FirstError(a, ids) else FirstError(b, ids)
    decreases |a|
  {
    if a == [] {
      assert a + b == b;
    } else {
      assert (a + b)[1..] == a[1..] + b;
      FirstErrorConcat(a[1..], b, ids);
    }
  }

  lemma EntriesConcat(a: seq<Step>, b: seq<Step>)
    ensures Entries(a + b) == Entries(a) + Entries(b)
  {
  }

  /** `make_assoc_annotation(base, key, content, parent, id)` as a step. */
  function AssocStep(base: string, key: string, content: Dict<string>, parent: nat, id: nat): Step {
    var v := Get(content, key);
    Step(Entry(base + "-" + key, Association(id, parent, ValueOr(v))), if v.None? then Some(key) else None)
  }

  /** The association annotations for `keys`, one id each from `c`. */
  function AssocSteps(base: string, keys: seq<string>, content: Dict<string>, parent: nat, c: nat)
    : seq<Step>
  {
    seq(|keys|, i requires 0 <= i < |keys| => AssocStep(base, keys[i], content, parent, c + i))
  }

  /** `{"morph-" + k: v for k, v in morph if k != "txt"}`. */
  function MorphDict(m: Dict<string>): Dict<string> {
    if m == [] then []
    else (if m[0].0 != "txt" then [("morph-" + m[0].0, m[0].1)] else []) + MorphDict(m[1..])
  }

  /** Every key of a morph dict is `"morph-" + k` for a key k other than txt. */
  lemma {:induction false} MorphDictKeys(m: Dict<string>)
    ensures forall i :: 0 <= i < |MorphDict(m)| ==> |MorphDict(m)[i].0| >= 6 && MorphDict(m)[i].0 != "morph-txt"
    decreases |m|
  {
    if m != [] {
      var k := m[0].0;
      assert k != "txt" ==> ("morph-" + k)[6..] == k;
      MorphDictKeys(m[1..]);
    }
  }

  /** The morph-txt subdivision of one morph under the word `wordId`. */
  function MorphTxtStep(base: string, m: Dict<string>, wordId: nat, prev: Option<nat>, id: nat): Step {
    var v := Get(m, "txt");
    Step(Entry(base + "-morph-txt", Subdivision(id, wordId, prev, ValueOr(v))), if v.None? then Some("txt") else None)
  }

  /** A loop that emits `one(x, prev, c)` for each item `x` in turn: `c` is
      the counter, moved past the item's steps, and `prev` the first id of
      the previous item's steps (the first item gets the `prev` passed in). */
  function Run<X>(one: (X, Option<nat>, nat) -> seq<Step>, xs: seq<X>, prev: Option<nat>, c: nat): seq<Step>
    decreases |xs|
  {
    if xs == [] then []
    else
      var o := one(xs[0], prev, c);
      o + Run(one, xs[1..], Some(c), c + |o|)
  }

  /** The steps of one morph of the word `wordId`, by morph, previous morph
      and counter. */
  function MorphOf(base: string, wordId: nat): (Dict<string>, Option<nat>, nat) -> seq<Step> {
    (m: Dict<string>, p: Option<nat>, k: nat) => MorphOne(base, m, wordId, p, k)
  }

  /** The morph loop of one word: each morph's subdivision, which names the
      previous morph of the word, then one association per key of its
      morph dict. */
  function MorphSteps(base: string, ms: seq<Dict<string>>, wordId: nat, prev: Option<nat>, c: nat)
    : seq<Step>
  {
    Run(MorphOf(base, wordId), ms, prev, c)
  }

  /** One morph: its subdivision, then one association per key of its morph
      dict, each with the subdivision as parent. */
  function MorphOne(base: string, m: Dict<string>, wordId: nat, prev: Option<nat>, c: nat): (r: seq<Step>)
    ensures |r| == 1 + |MorphDict(m)|
  {
    var md := MorphDict(m);
    [MorphTxtStep(base, m, wordId, prev, c)] + AssocSteps(base, Keys(md), md, c, c + 1)
  }

  /** The word record as the dictionary `make_assoc_annotation` reads. */
  function WordContent(w: WordRec): Dict<string> {
    [("word_text", w.text), ("pos", w.pos), ("gls", w.gls)]
  }

  const WordKeys: seq<string> := ["pos", "gls"]

  /** The word loop of one segment: each word's subdivision of the baseline
      annotation `textId`, naming the previous word, its pos and gls
      associations, then its morphs. */
  function WordSteps(base: string, ws: seq<WordRec>, textId: nat, prev: Option<nat>, c: nat): seq<Step> {
    Run(WordOf(base, textId), ws, prev, c)
  }

  /** The steps of one word of the baseline annotation `textId`. */
  function WordOf(base: string, textId: nat): (WordRec, Option<nat>, nat) -> seq<Step> {
    (w: WordRec, p: Option<nat>, k: nat) => WordOne(base, w, textId, p, k)
  }

  /** One word: its subdivision, its pos and gls associations, its morphs. */
  function WordOne(base: string, w: WordRec, textId: nat, prev: Option<nat>, c: nat): (r: seq<Step>)
    ensures |r| == 3 + |MorphSteps(base, w.morphs, c, None, c + 3)|
  {
    [Step(Entry(base + "-words", Subdivision(c, textId, prev, w.text)), None)]
    + WordAssocs(base, w, c)
    + MorphSteps(base, w.morphs, c, None, c + 3)
  }

  /** The pos and gls associations of the word `c`; both keys are always in
      the word record, so neither lookup fails. */
  function WordAssocs(base: string, w: WordRec, c: nat): seq<Step> {
    [Step(Entry(base + "-pos", Association(c + 1, c, w.pos)), None),
     Step(Entry(base + "-gls", Association(c + 2, c, w.gls)), None)]
  }

  lemma WordAssocsFromRecord(base: string, w: WordRec, c: nat)
    ensures AssocSteps(base, WordKeys, WordContent(w), c, c + 1) == WordAssocs(base, w, c)
  {
    var d := WordContent(w);
    assert d[1..] == [("pos", w.pos), ("gls", w.gls)] && d[1..][1..] == [("gls", w.gls)];
    assert d[0].0 == "word_text" && d[1..][0].0 == "pos";
    assert Get(d, "pos") == Some(w.pos);
    assert "pos" != "gls" && "word_text" != "gls";
    assert Get(d[1..][1..], "gls") == Some(w.gls);
    assert Get(d[1..], "gls") == Some(w.gls);
    assert Get(d, "gls") == Some(w.gls);
    var a := AssocSteps(base, WordKeys, d, c, c + 1);
    assert a[0] == WordAssocs(base, w, c)[0] && a[1] == WordAssocs(base, w, c)[1];
  }

  /** `speaker-language-target` or `speaker-language-phonetic`. */
  function BaseTier(cfg: Config, s: Segment): string {
    s.speaker + "-" + cfg.language + (if s.marker == Target then "-target" else "-phonetic")
  }

  /** The id words refer to: the alignable id of a Phonetic segment, the
      reference id of a Target one. */
  function TextId(s: Segment): Option<nat> {
    if s.marker == Phonetic then s.alignable else s.refId
  }

  /** The baseline annotation: alignable between the segment's time slots for
      a Phonetic segment, a reference to the Phonetic original for a Target. */
  function BaselineStep(cfg: Config, s: Segment): Step {
    var tier := BaseTier(cfg, s);
    if s.marker == Phonetic then
      Step(Entry(tier, Alignable(if s.alignable.Some? then s.alignable.value else 0, s.begin.id, s.end.id, s.fullText)),
           if s.alignable.None? then Some("alignable_aID") else None)
    else
      Step(Entry(tier, Association(if s.refId.Some? then s.refId.value else 0,
                                   if s.annRef.Some? then s.annRef.value else 0, s.fullText)),
           if s.refId.None? then Some("ref_aID") else if s.annRef.None? then Some("ann_ref") else None)
  }

  /** `["notes", "xds"]` and one `tns-` key per configured translation. */
  function PhraseKeys(cfg: Config): (r: seq<string>)
    ensures |r| == 2 + |cfg.translations| && r[0] == "notes" && r[1] == "xds"
    ensures forall i :: 0 <= i < |cfg.translations| ==> r[2 + i] == TnsKey(cfg.translations[i])
  {
    ["notes", "xds"] + seq(|cfg.translations|, i requires 0 <= i < |cfg.translations| => TnsKey(cfg.translations[i]))
  }

  /** The segment record as the dictionary `make_assoc_annotation` reads. */
  function PhraseContent(s: Segment): Dict<string> {
    [("notes", s.notes), ("xds", s.xds)] + s.tns
  }

  /** What follows the baseline: the phrase-level associations on the
      speaker's tiers, then the words. */
  function SegmentRest(cfg: Config, s: Segment, c: nat): seq<Step> {
    var tid := if TextId(s).Some? then TextId(s).value else 0;
    RestSteps(s.speaker, BaseTier(cfg, s), PhraseKeys(cfg), PhraseContent(s), tid, s.words, c)
  }

  function RestSteps(speaker: string, base: string, keys: seq<string>, content: Dict<string>,
                     tid: nat, ws: seq<WordRec>, c: nat): seq<Step> {
    AssocSteps(speaker, keys, content, tid, c) + WordSteps(base, ws, tid, None, c + |keys|)
  }

  function SegmentSteps(cfg: Config, s: Segment, c: nat): seq<Step> {
    [BaselineStep(cfg, s)] + SegmentRest(cfg, s, c)
  }

  /** A loop that emits `one(s, c)` for each segment `s` in turn, with the
      counter `c` moved on by `used(s, c)`. */
  function Loop(one: (Segment, nat) -> seq<Step>, used: (Segment, nat) -> nat, segs: seq<Segment>, c: nat)
    : seq<Step>
    decreases |segs|
  {
    if segs == [] then []
    else one(segs[0], c) + Loop(one, used, segs[1..], c + used(segs[0], c))
  }

  /** The counter after such a loop. */
  function LoopNext(used: (Segment, nat) -> nat, segs: seq<Segment>, c: nat): nat
    decreases |segs|
  {
    if segs == [] then c
    else LoopNext(used, segs[1..], c + used(segs[0], c))
  }

  function SegmentOf(cfg: Config): (Segment, nat) -> seq<Step> {
    (s: Segment, c: nat) => SegmentSteps(cfg, s, c)
  }

  /** The ids a segment takes from the counter: one per step after its
      baseline annotation. */
  function UsedOf(cfg: Config): (Segment, nat) -> nat {
    (s: Segment, c: nat) => |SegmentRest(cfg, s, c)|
  }

  /** The emission loop over the segments, from counter `c`. */
  function AllSteps(cfg: Config, segs: seq<Segment>, c: nat): seq<Step> {
    Loop(SegmentOf(cfg), UsedOf(cfg), segs, c)
  }

  /** The counter after the emission loop. */
  function AllNext(cfg: Config, segs: seq<Segment>, c: nat): nat {
    LoopNext(UsedOf(cfg), segs, c)
  }

  // ---------------------------------------------------------------------------
  // Emission
  //
  // Each method appends the entries of its plan and returns the counter after
  // it, or stops with the plan's first error (the entries appended before the
  // failing step stay in the log).

  /** A plan that starts with one step: it fails where that step does, else
      where the rest does. */
  lemma HeadParts(a: Step, x: seq<Step>, ids: seq<string>)
    ensures FirstError([a] + x, ids) == if StepError(a, ids).Some? then StepError(a, ids) else FirstError(x, ids)
    ensures Entries([a] + x) == [a.entry] + Entries(x)
  {
    assert ([a] + x)[1..] == x;
  }

  lemma ThreeParts(a: Step, x: seq<Step>, y: seq<Step>, ids: seq<string>)
    ensures FirstError([a] + (x + y), ids)
            == if StepError(a, ids).Some? then StepError(a, ids)
               else if FirstError(x, ids).Some? then FirstError(x, ids) else FirstError(y, ids)
    ensures Entries([a] + (x + y)) == [a.entry] + Entries(x) + Entries(y)
  {
    HeadParts(a, x + y, ids);
    FirstErrorConcat(x, y, ids);
    EntriesConcat(x, y);
  }

  /** One turn of an emission loop: with `done` written without error, the
      rest of the plan fails where `one` does, else where `more` does. */
  lemma PlanTurn(done: seq<Step>, one: seq<Step>, more: seq<Step>, ids: seq<string>)
    requires FirstError(done, ids).None?
    ensures FirstError(done + (one + more), ids)
            == if FirstError(one, ids).Some? then FirstError(one, ids) else FirstError(more, ids)
    ensures FirstError(one, ids).None? ==> FirstError(done + one, ids).None?
    ensures done + (one + more) == (done + one) + more
  {
    FirstErrorConcat(done, one + more, ids);
    FirstErrorConcat(one, more, ids);
    FirstErrorConcat(done, one, ids);
  }

  /** The log after one entry and then two runs of entries. */
  lemma LogThree(log0: seq<Entry>, a: Step, x: seq<Step>, y: seq<Step>,
                 log1: seq<Entry>, log2: seq<Entry>, log3: seq<Entry>)
    requires log1 == log0 + [a.entry] && log2 == log1 + Entries(x) && log3 == log2 + Entries(y)
    ensures log3 == log0 + Entries([a] + (x + y))
  {
    ThreeParts(a, x, y, []);
  }

  /** The log after writing `one`, then `more`. */
  lemma LogTurn(log0: seq<Entry>, one: seq<Step>, more: seq<Step>, log1: seq<Entry>, log2: seq<Entry>)
    requires log1 == log0 + Entries(one) && log2 == log1 + Entries(more)
    ensures log2 == log0 + Entries(one + more)
  {
    EntriesConcat(one, more);
  }

  /** A loop of `make_assoc_annotation` calls over `keys`. */
  method EmitAssocs(base: string, keys: seq<string>, content: Dict<string>, parent: nat, c0: nat,
                    eaf: EafDocument) returns (r: Result<nat>)
    modifies eaf
    ensures r.Ok? <==> FirstError(AssocSteps(base, keys, content, parent, c0), TierIds(eaf.tiers)).None?
    ensures r.Ok? ==> r.value == c0 + |keys|
                      && eaf.log == old(eaf.log) + Entries(AssocSteps(base, keys, content, parent, c0))
    ensures r.Err? ==> Some(r.error) == FirstError(AssocSteps(base, keys, content, parent, c0), TierIds(eaf.tiers))
    ensures eaf.tiers == old(eaf.tiers) && eaf.timeOrder == old(eaf.timeOrder)
    ensures eaf.lastUsedAnnotationId == old(eaf.lastUsedAnnotationId)
  {
    ghost var plan := AssocSteps(base, keys, content, parent, c0);
    ghost var ids := TierIds(eaf.tiers);
    var count: nat := c0;
    for i := 0 to |keys|
      invariant count == c0 + i
      invariant eaf.tiers == old(eaf.tiers) && eaf.timeOrder == old(eaf.timeOrder)
      invariant eaf.lastUsedAnnotationId == old(eaf.lastUsedAnnotationId)
      invariant FirstError(plan[..i], ids).None? && eaf.log == old(eaf.log) + Entries(plan[..i])
    {
      var res := Flexible.MakeAssocAnnotation(base, keys[i], content, parent, count, eaf);
      assert plan[..i + 1] == plan[..i] + [plan[i]];
      FirstErrorConcat(plan[..i], [plan[i]], ids);
      if res.Err? {
        FirstErrorConcat(plan[..i + 1], plan[i + 1..], ids);
        assert plan[..i + 1] + plan[i + 1..] == plan;
        return Err(res.error);
      }
      count := res.value;
    }
    assert plan[..|keys|] == plan;
    return Ok(count);
  }

  /** One turn of the morph loop. */
  method EmitMorph(base: string, m: Dict<string>, wordId: nat, prev: Option<nat>, c: nat, eaf: EafDocument)
    returns (r: Result<nat>)
    modifies eaf
    ensures r.Ok? <==> FirstError(MorphOne(base, m, wordId, prev, c), TierIds(eaf.tiers)).None?
    ensures r.Ok? ==> r.value == c + |MorphOne(base, m, wordId, prev, c)|
                      && eaf.log == old(eaf.log) + Entries(MorphOne(base, m, wordId, prev, c))
    ensures r.Err? ==> Some(r.error) == FirstError(MorphOne(base, m, wordId, prev, c), TierIds(eaf.tiers))
    ensures eaf.tiers == old(eaf.tiers) && eaf.timeOrder == old(eaf.timeOrder)
    ensures eaf.lastUsedAnnotationId == old(eaf.lastUsedAnnotationId)
  {
    var md := MorphDict(m);
    ghost var ids := TierIds(eaf.tiers);
    ghost var step := MorphTxtStep(base, m, wordId, prev, c);
    ghost var assocs := AssocSteps(base, Keys(md), md, c, c + 1);
    HeadParts(step, assocs, ids);
    var txt := Get(m, "txt");
    if txt.None? {
      return Err(KeyError("txt"));
    }
    var found := eaf.Append(base + "-morph-txt", Subdivision(c, wordId, prev, txt.value));
    if !found {
      return Err(MissingElement(base + "-morph-txt"));
    }
    ghost var log1 := eaf.log;
    r := EmitAssocs(base, Keys(md), md, c, c + 1, eaf);
    if r.Ok? {
      assert eaf.log == old(eaf.log) + ([step.entry] + Entries(assocs));
    }
  }

  /** One turn of a `Run` loop: with `done` written without error, the plan
      fails where the item's steps do, else it goes on with the next item. */
  lemma RunTurn<X>(ids: seq<string>, plan: seq<Step>, done: seq<Step>, one: (X, Option<nat>, nat) -> seq<Step>,
                   xs: seq<X>, j: nat, prev: Option<nat>, count: nat, c1: nat)
    requires j < |xs| && FirstError(done, ids).None?
    requires done + Run(one, xs[j..], prev, count) == plan
    ensures var o := one(xs[j], prev, count);
      && (FirstError(o, ids).Some? ==> FirstError(plan, ids) == FirstError(o, ids))
      && (FirstError(o, ids).None? && c1 == count + |o| ==>
            FirstError(done + o, ids).None?
            && (done + o) + Run(one, xs[j + 1..], Some(count), c1) == plan)
  {
    assert xs[j..][0] == xs[j] && xs[j..][1..] == xs[j + 1..];
    var o := one(xs[j], prev, count);
    PlanTurn(done, o, Run(one, xs[j + 1..], Some(count), count + |o|), ids);
  }

  /** The morph loop of one word. */
  method EmitMorphs(base: string, ms: seq<Dict<string>>, wordId: nat, c0: nat, eaf: EafDocument)
    returns (r: Result<nat>)
    modifies eaf
    ensures r.Ok? <==> FirstError(MorphSteps(base, ms, wordId, None, c0), TierIds(eaf.tiers)).None?
    ensures r.Ok? ==> r.value == c0 + |MorphSteps(base, ms, wordId, None, c0)|
                      && eaf.log == old(eaf.log) + Entries(MorphSteps(base, ms, wordId, None, c0))
    ensures r.Err? ==> Some(r.error) == FirstError(MorphSteps(base, ms, wordId, None, c0), TierIds(eaf.tiers))
    ensures eaf.tiers == old(eaf.tiers) && eaf.timeOrder == old(eaf.timeOrder)
    ensures eaf.lastUsedAnnotationId == old(eaf.lastUsedAnnotationId)
  {
    ghost var plan := MorphSteps(base, ms, wordId, None, c0);
    ghost var ids := TierIds(eaf.tiers);
    ghost var done: seq<Step> := [];
    var count: nat := c0;
    var prev: Option<nat> := None;
    for j := 0 to |ms|
      invariant eaf.tiers == old(eaf.tiers) && eaf.timeOrder == old(eaf.timeOrder)
      invariant eaf.lastUsedAnnotationId == old(eaf.lastUsedAnnotationId)
      invariant done + MorphSteps(base, ms[j..], wordId, prev, count) == plan
      invariant count == c0 + |done|
      invariant FirstError(done, ids).None? && eaf.log == old(eaf.log) + Entries(done)
    {
      ghost var one := MorphOne(base, ms[j], wordId, prev, count);
      ghost var log1 := eaf.log;
      var res := EmitMorph(base, ms[j], wordId, prev, count, eaf);
      RunTurn(ids, plan, done, MorphOf(base, wordId), ms, j, prev, count, if res.Ok? then res.value else 0);
      if res.Err? {
        return Err(res.error);
      }
      LogTurn(old(eaf.log), done, one, log1, eaf.log);
      done := done + one;
      prev := Some(count);
      count := res.value;
    }
    assert ms[|ms|..] == [];
    assert done + [] == done;
    return Ok(count);
  }

  /** One turn of the word loop. */
  method EmitWord(base: string, w: WordRec, textId: nat, prev: Option<nat>, c: nat, eaf: EafDocument)
    returns (r: Result<nat>)
    modifies eaf
    ensures r.Ok? <==> FirstError(WordOne(base, w, textId, prev, c), TierIds(eaf.tiers)).None?
    ensures r.Ok? ==> r.value == c + |WordOne(base, w, textId, prev, c)|
                      && eaf.log == old(eaf.log) + Entries(WordOne(base, w, textId, prev, c))
    ensures r.Err? ==> Some(r.error) == FirstError(WordOne(base, w, textId, prev, c), TierIds(eaf.tiers))
    ensures eaf.tiers == old(eaf.tiers) && eaf.timeOrder == old(eaf.timeOrder)
    ensures eaf.lastUsedAnnotationId == old(eaf.lastUsedAnnotationId)
  {
    ghost var ids := TierIds(eaf.tiers);
    ghost var step := Step(Entry(base + "-words", Subdivision(c, textId, prev, w.text)), None);
    ghost var assocs := WordAssocs(base, w, c);
    ghost var morphs := MorphSteps(base, w.morphs, c, None, c + 3);
    WordAssocsFromRecord(base, w, c);
    assert WordOne(base, w, textId, prev, c) == [step] + (assocs + morphs);
    ThreeParts(step, assocs, morphs, ids);
    var found := eaf.Append(base + "-words", Subdivision(c, textId, prev, w.text));
    if !found {
      return Err(MissingElement(base + "-words"));
    }
    ghost var log1 := eaf.log;
    var res := EmitAssocs(base, WordKeys, WordContent(w), c, c + 1, eaf);
    if res.Err? {
      return Err(res.error);
    }
    ghost var log2 := eaf.log;
    r := EmitMorphs(base, w.morphs, c, res.value, eaf);
    if r.Ok? {
      LogThree(old(eaf.log), step, assocs, morphs, log1, log2, eaf.log);
    }
  }

  /** The word loop of one segment. */
  method EmitWords(base: string, ws: seq<WordRec>, textId: nat, c0: nat, eaf: EafDocument)
    returns (r: Result<nat>)
    modifies eaf
    ensures r.Ok? <==> FirstError(WordSteps(base, ws, textId, None, c0), TierIds(eaf.tiers)).None?
    ensures r.Ok? ==> r.value == c0 + |WordSteps(base, ws, textId, None, c0)|
                      && eaf.log == old(eaf.log) + Entries(WordSteps(base, ws, textId, None, c0))
    ensures r.Err? ==> Some(r.error) == FirstError(WordSteps(base, ws, textId, None, c0), TierIds(eaf.tiers))
    ensures eaf.tiers == old(eaf.tiers) && eaf.timeOrder == old(eaf.timeOrder)
    ensures eaf.lastUsedAnnotationId == old(eaf.lastUsedAnnotationId)
  {
    ghost var plan := WordSteps(base, ws, textId, None, c0);
    ghost var ids := TierIds(eaf.tiers);
    ghost var done: seq<Step> := [];
    var count: nat := c0;
    var prev: Option<nat> := None;
    for j := 0 to |ws|
      invariant eaf.tiers == old(eaf.tiers) && eaf.timeOrder == old(eaf.timeOrder)
      invariant eaf.lastUsedAnnotationId == old(eaf.lastUsedAnnotationId)
      invariant done + WordSteps(base, ws[j..], textId, prev, count) == plan
      invariant count == c0 + |done|
      invariant FirstError(done, ids).None? && eaf.log == old(eaf.log) + Entries(done)
    {
      ghost var one := WordOne(base, ws[j], textId, prev, count);
      ghost var log1 := eaf.log;
      var res := EmitWord(base, ws[j], textId, prev, count, eaf);
      RunTurn(ids, plan, done, WordOf(base, textId), ws, j, prev, count, if res.Ok? then res.value else 0);
      if res.Err? {
        return Err(res.error);
      }
      LogTurn(old(eaf.log), done, one, log1, eaf.log);
      done := done + one;
      prev := Some(count);
      count := res.value;
    }
    assert ws[|ws|..] == [];
    assert done + [] == done;
    return Ok(count);
  }

  /** The baseline annotation of a segment; on success, the id its
      phrase-level associations and words refer to. */
  method EmitBaseline(cfg: Config, s: Segment, eaf: EafDocument) returns (r: Result<nat>)
    requires s.marker != NoMarker
    modifies eaf
    ensures r.Ok? <==> StepError(BaselineStep(cfg, s), TierIds(eaf.tiers)).None?
    ensures r.Ok? ==> Some(r.value) == TextId(s) && eaf.log == old(eaf.log) + [BaselineStep(cfg, s).entry]
    ensures r.Err? ==> Some(r.error) == StepError(BaselineStep(cfg, s), TierIds(eaf.tiers))
    ensures eaf.tiers == old(eaf.tiers) && eaf.timeOrder == old(eaf.timeOrder)
    ensures eaf.lastUsedAnnotationId == old(eaf.lastUsedAnnotationId)
  {
    var base: string;
    if s.marker == Target {
      base := s.speaker + "-" + cfg.language + "-target";
    } else {
      base := s.speaker + "-" + cfg.language + "-phonetic";
    }
    var ann: Annotation;
    if s.marker == Phonetic {
      if s.alignable.None? {
        return Err(KeyError("alignable_aID"));
      }
      ann := Alignable(s.alignable.value, s.begin.id, s.end.id, s.fullText);
      r := Ok(s.alignable.value);
    } else {
      if s.refId.None? {
        return Err(KeyError("ref_aID"));
      }
      if s.annRef.None? {
        return Err(KeyError("ann_ref"));
      }
      ann := Association(s.refId.value, s.annRef.value, s.fullText);
      r := Ok(s.refId.value);
    }
    assert BaselineStep(cfg, s).entry == Entry(base, ann);
    var found := eaf.Append(base, ann);
    if !found {
      r := Err(MissingElement(base));
    }
  }

  /** The phrase-level associations on the speaker's tiers, then the words. */
  method EmitRest(speaker: string, base: string, keys: seq<string>, content: Dict<string>,
                  tid: nat, ws: seq<WordRec>, c: nat, eaf: EafDocument) returns (r: Result<nat>)
    modifies eaf
    ensures r.Ok? <==> FirstError(RestSteps(speaker, base, keys, content, tid, ws, c), TierIds(eaf.tiers)).None?
    ensures r.Ok? ==> r.value == c + |RestSteps(speaker, base, keys, content, tid, ws, c)|
                      && eaf.log == old(eaf.log) + Entries(RestSteps(speaker, base, keys, content, tid, ws, c))
    ensures r.Err? ==> Some(r.error) == FirstError(RestSteps(speaker, base, keys, content, tid, ws, c), TierIds(eaf.tiers))
    ensures eaf.tiers == old(eaf.tiers) && eaf.timeOrder == old(eaf.timeOrder)
    ensures eaf.lastUsedAnnotationId == old(eaf.lastUsedAnnotationId)
  {
    ghost var ids := TierIds(eaf.tiers);
    ghost var assocs := AssocSteps(speaker, keys, content, tid, c);
    ghost var words := WordSteps(base, ws, tid, None, c + |keys|);
    FirstErrorConcat(assocs, words, ids);
    var res := EmitAssocs(speaker, keys, content, tid, c, eaf);
    if res.Err? {
      return Err(res.error);
    }
    ghost var log1 := eaf.log;
    r := EmitWords(base, ws, tid, res.value, eaf);
    if r.Ok? {
      LogTurn(old(eaf.log), assocs, words, log1, eaf.log);
    }
  }

  /** One turn of the segment loop: the baseline annotation, then the rest.
      Only Phonetic and Target segments can be written: for any other the
      script has no base tier name. */
  method EmitSegment(cfg: Config, s: Segment, c: nat, eaf: EafDocument) returns (r: Result<nat>)
    requires s.marker != NoMarker
    modifies eaf
    ensures r.Ok? <==> FirstError(SegmentSteps(cfg, s, c), TierIds(eaf.tiers)).None?
    ensures r.Ok? ==> r.value == c + |SegmentRest(cfg, s, c)|
                      && eaf.log == old(eaf.log) + Entries(SegmentSteps(cfg, s, c))
    ensures r.Err? ==> Some(r.error) == FirstError(SegmentSteps(cfg, s, c), TierIds(eaf.tiers))
    ensures eaf.tiers == old(eaf.tiers) && eaf.timeOrder == old(eaf.timeOrder)
    ensures eaf.lastUsedAnnotationId == old(eaf.lastUsedAnnotationId)
  {
    HeadParts(BaselineStep(cfg, s), SegmentRest(cfg, s, c), TierIds(eaf.tiers));
    var tid := EmitBaseline(cfg, s, eaf);
    if tid.Err? {
      return Err(tid.error);
    }
    r := EmitRest(s.speaker, BaseTier(cfg, s), PhraseKeys(cfg), PhraseContent(s), tid.value, s.words, c, eaf);
  }

  /** The segment loop's plan from segment `j` on: segment `j`, then the rest. */
  lemma AllUnfold(cfg: Config, segs: seq<Segment>, j: nat, count: nat, c1: nat)
    requires j < |segs| && c1 == count + |SegmentRest(cfg, segs[j], count)|
    ensures AllSteps(cfg, segs[j..], count) == SegmentSteps(cfg, segs[j], count) + AllSteps(cfg, segs[j + 1..], c1)
    ensures AllNext(cfg, segs[j..], count) == AllNext(cfg, segs[j + 1..], c1)
  {
    var rest := segs[j..];
    assert rest[0] == segs[j] && rest[1..] == segs[j + 1..];
    AllCons(cfg, rest, count);
  }

  /** A segment that fails makes the whole remaining plan fail with its error. */
  lemma AllTurnErr(ids: seq<string>, plan: seq<Step>, done: seq<Step>, cfg: Config, segs: seq<Segment>,
                   j: nat, count: nat)
    requires j < |segs| && FirstError(done, ids).None?
    requires done + AllSteps(cfg, segs[j..], count) == plan
    requires FirstError(SegmentSteps(cfg, segs[j], count), ids).Some?
    ensures FirstError(plan, ids) == FirstError(SegmentSteps(cfg, segs[j], count), ids)
  {
    var c1 := count + |SegmentRest(cfg, segs[j], count)|;
    AllUnfold(cfg, segs, j, count, c1);
    ConsTurn(ids, plan, done, SegmentSteps(cfg, segs[j], count), AllSteps(cfg, segs[j..], count),
             AllSteps(cfg, segs[j + 1..], c1));
  }

  /** A segment written without error moves the loop on to segment `j + 1`. */
  lemma AllTurnOk(ids: seq<string>, plan: seq<Step>, done: seq<Step>, cfg: Config, segs: seq<Segment>,
                  j: nat, count: nat, c1: nat)
    requires j < |segs| && FirstError(done, ids).None?
    requires done + AllSteps(cfg, segs[j..], count) == plan
    requires FirstError(SegmentSteps(cfg, segs[j], count), ids).None?
    requires c1 == count + |SegmentRest(cfg, segs[j], count)|
    ensures FirstError(done + SegmentSteps(cfg, segs[j], count), ids).None?
    ensures (done + SegmentSteps(cfg, segs[j], count)) + AllSteps(cfg, segs[j + 1..], c1) == plan
    ensures AllNext(cfg, segs[j..], count) == AllNext(cfg, segs[j + 1..], c1)
  {
    AllUnfold(cfg, segs, j, count, c1);
    ConsTurn(ids, plan, done, SegmentSteps(cfg, segs[j], count), AllSteps(cfg, segs[j..], count),
             AllSteps(cfg, segs[j + 1..], c1));
  }

  /** A loop turn in general: the part of the plan still to come is `one`
      followed by `tail`. */
  lemma ConsTurn(ids: seq<string>, plan: seq<Step>, done: seq<Step>, one: seq<Step>, more: seq<Step>, tail: seq<Step>)
    requires FirstError(done, ids).None? && done + more == plan && more == one + tail
    ensures FirstError(one, ids).Some? ==> FirstError(plan, ids) == FirstError(one, ids)
    ensures FirstError(one, ids).None? ==> FirstError(done + one, ids).None? && (done + one) + tail == plan
  {
    PlanTurn(done, one, tail, ids);
  }

  lemma AllCons(cfg: Config, segs: seq<Segment>, c: nat)
    requires segs != []
    ensures AllSteps(cfg, segs, c) == SegmentSteps(cfg, segs[0], c) + AllSteps(cfg, segs[1..], c + |SegmentRest(cfg, segs[0], c)|)
    ensures AllNext(cfg, segs, c) == AllNext(cfg, segs[1..], c + |SegmentRest(cfg, segs[0], c)|)
  {
  }

  /** The emission loop over all segments. */
  method EmitAll(cfg: Config, segs: seq<Segment>, c0: nat, eaf: EafDocument) returns (r: Result<nat>)
    requires forall i :: 0 <= i < |segs| ==> segs[i].marker != NoMarker
    modifies eaf
    ensures r.Ok? <==> FirstError(AllSteps(cfg, segs, c0), TierIds(eaf.tiers)).None?
    ensures r.Ok? ==> r.value == AllNext(cfg, segs, c0)
                      && eaf.log == old(eaf.log) + Entries(AllSteps(cfg, segs, c0))
    ensures r.Err? ==> Some(r.error) == FirstError(AllSteps(cfg, segs, c0), TierIds(eaf.tiers))
    ensures eaf.tiers == old(eaf.tiers) && eaf.timeOrder == old(eaf.timeOrder)
    ensures eaf.lastUsedAnnotationId == old(eaf.lastUsedAnnotationId)
  {
    ghost var plan := AllSteps(cfg, segs, c0);
    ghost var ids := TierIds(eaf.tiers);
    ghost var done: seq<Step> := [];
    var count: nat := c0;
    for j := 0 to |segs|
      invariant eaf.tiers == old(eaf.tiers) && eaf.timeOrder == old(eaf.timeOrder)
      invariant eaf.lastUsedAnnotationId == old(eaf.lastUsedAnnotationId)
      invariant done + AllSteps(cfg, segs[j..], count) == plan
      invariant AllNext(cfg, segs[j..], count) == AllNext(cfg, segs, c0)
      invariant FirstError(done, ids).None? && eaf.log == old(eaf.log) + Entries(done)
    {
      ghost var one := SegmentSteps(cfg, segs[j], count);
      ghost var log1 := eaf.log;
      var res := EmitSegment(cfg, segs[j], count, eaf);
      if res.Err? {
        AllTurnErr(ids, plan, done, cfg, segs, j, count);
        return Err(res.error);
      }
      AllTurnOk(ids, plan, done, cfg, segs, j, count, res.value);
      LogTurn(old(eaf.log), done, one, log1, eaf.log);
      done := done + one;
      count := res.value;
    }
    assert segs[|segs|..] == [];
    assert done + [] == done;
    return Ok(count);
  }
}
