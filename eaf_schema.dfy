/** The fixed part of the EAF the flextext-to-EAF script writes: the catalog of
    linguistic types and, for every speaker, the template of tiers that the
    annotations are later appended to. */
module EafSchema {
  import opened Common
  import opened Dict
  import opened Elan

  /** The morph fields copied to ELAN, in the order the script lists them. */
  const MorphKeys: seq<string> := ["txt", "cf", "gls", "msa", "variantTypes", "hn", "morph_type"]

  /** The association types made for phrase- and word-level data. */
  const DataTypes: seq<string> := ["notes", "target", "gls", "pos"]

  /** The word-level tier kinds under each words tier. */
  const WordDataTypes: seq<string> := ["gls", "pos", "morph-txt"]

  function AssocType(id: string): LinguisticType {
    LinguisticType(id, false, Some(SymbolicAssociation))
  }

  function SubdivType(id: string): LinguisticType {
    LinguisticType(id, false, Some(SymbolicSubdivision))
  }

  // ---------------------------------------------------------------------------
  // Linguistic types

  function TnsAssignments(translations: seq<string>): (r: seq<(string, LinguisticType)>)
    ensures |r| == |translations|
    ensures forall i :: 0 <= i < |r| ==> r[i] == ("tns-" + translations[i], AssocType("tns-" + translations[i]))
  {
    if translations == [] then []
    else
      var n := |translations| - 1;
      TnsAssignments(translations[..n]) + [("tns-" + translations[n], AssocType("tns-" + translations[n]))]
  }

  function DataAssignments(): (r: seq<(string, LinguisticType)>)
    ensures |r| == |DataTypes|
    ensures forall i :: 0 <= i < |r| ==> r[i] == (DataTypes[i], AssocType(DataTypes[i]))
  {
    seq(|DataTypes|, i requires 0 <= i < |DataTypes| => (DataTypes[i], AssocType(DataTypes[i])))
  }

  function MorphTypeOf(k: string): LinguisticType {
    if k == "txt" then SubdivType("morph-" + k) else AssocType("morph-" + k)
  }

  function MorphAssignments(): (r: seq<(string, LinguisticType)>)
    ensures |r| == |MorphKeys|
    ensures forall i :: 0 <= i < |r| ==> r[i] == ("morph-" + MorphKeys[i], MorphTypeOf(MorphKeys[i]))
  {
    seq(|MorphKeys|, i requires 0 <= i < |MorphKeys| => ("morph-" + MorphKeys[i], MorphTypeOf(MorphKeys[i])))
  }

  /** The assignments after the dict literal's first entry, in program order. */
  function LaterAssignments(translations: seq<string>): seq<(string, LinguisticType)> {
    [("words", SubdivType("words"))] + TnsAssignments(translations) + DataAssignments() + MorphAssignments()
  }

  /** Every assignment to `types`, in program order; a later assignment to the
      same key replaces the earlier value in place. */
  function CatalogAssignments(language: string, translations: seq<string>): seq<(string, LinguisticType)> {
    [(language, LinguisticType(language, true, None))] + LaterAssignments(translations)
  }

  function Catalog(language: string, translations: seq<string>): Dict<LinguisticType> {
    PutAll([], CatalogAssignments(language, translations))
  }

  lemma PutAllSnoc<V>(d: Dict<V>, es: seq<(string, V)>, k: string, v: V)
    ensures PutAll(d, es + [(k, v)]) == Put(PutAll(d, es), k, v)
  {
    assert (es + [(k, v)])[..|es|] == es;
  }

  lemma PutAllTwo<V>(a: (string, V), b: (string, V))
    ensures PutAll([], [a, b]) == Put(Put([], a.0, a.1), b.0, b.1)
  {
    assert [a, b][..1] == [a];
    assert [a][..0] == [];
    assert PutAll([], [a]) == Put([], a.0, a.1);
  }

  /** The assignments grouped as the script makes them: the dict literal,
      then the three loops. */
  lemma CatalogParts(language: string, translations: seq<string>)
    ensures CatalogAssignments(language, translations)
      == [(language, LinguisticType(language, true, None)), ("words", SubdivType("words"))]
         + TnsAssignments(translations) + DataAssignments() + MorphAssignments()
  {
  }

  lemma {:induction false} PutAllConcat<V>(d: Dict<V>, es: seq<(string, V)>, fs: seq<(string, V)>)
    ensures PutAll(d, es + fs) == PutAll(PutAll(d, es), fs)
    decreases |fs|
  {
    if fs == [] {
      assert es + fs == es;
    } else {
      var n := |fs| - 1;
      assert (es + fs)[..|es + fs| - 1] == es + fs[..n];
      PutAllConcat(d, es, fs[..n]);
    }
  }

  lemma PutAllPrefix<V>(d: Dict<V>, es: seq<(string, V)>, i: nat)
    requires i < |es|
    ensures PutAll(d, es[..i + 1]) == Put(PutAll(d, es[..i]), es[i].0, es[i].1)
  {
    assert es[..i + 1][..i] == es[..i];
  }

  /** The loop over the translation languages. */
  method AddTnsTypes(types0: Dict<LinguisticType>, translations: seq<string>) returns (types: Dict<LinguisticType>)
    ensures types == PutAll(types0, TnsAssignments(translations))
  {
    ghost var es := TnsAssignments(translations);
    types := types0;
    for i := 0 to |translations|
      invariant types == PutAll(types0, es[..i])
    {
      var key := "tns-" + translations[i];
      PutAllPrefix(types0, es, i);
      types := Put(types, key, AssocType(key));
    }
    assert es[..|translations|] == es;
  }

  /** The loop over the phrase- and word-level data types. */
  method AddDataTypes(types0: Dict<LinguisticType>) returns (types: Dict<LinguisticType>)
    ensures types == PutAll(types0, DataAssignments())
  {
    ghost var es := DataAssignments();
    types := types0;
    for i := 0 to |DataTypes|
      invariant types == PutAll(types0, es[..i])
    {
      var key := DataTypes[i];
      PutAllPrefix(types0, es, i);
      types := Put(types, key, AssocType(key));
    }
    assert es[..|DataTypes|] == es;
  }

  /** The loop over the morph keys: "morph-txt" subdivides, the rest associate. */
  method AddMorphTypes(types0: Dict<LinguisticType>) returns (types: Dict<LinguisticType>)
    ensures types == PutAll(types0, MorphAssignments())
  {
    ghost var es := MorphAssignments();
    types := types0;
    for i := 0 to |MorphKeys|
      invariant types == PutAll(types0, es[..i])
    {
      var key := MorphKeys[i];
      var t := if key == "txt" then SubdivType("morph-" + key) else AssocType("morph-" + key);
      PutAllPrefix(types0, es, i);
      types := Put(types, "morph-" + key, t);
    }
    assert es[..|MorphKeys|] == es;
  }

  /** The script's construction of `types`: the dict literal, then one loop
      over the translation languages, one over the data types and one over
      the morph keys. */
  method BuildTypes(language: string, translations: seq<string>) returns (types: Dict<LinguisticType>)
    ensures types == Catalog(language, translations)
  {
    ghost var head := [(language, LinguisticType(language, true, None)), ("words", SubdivType("words"))];
    types := Put(Put([], language, LinguisticType(language, true, None)), "words", SubdivType("words"));
    PutAllTwo(head[0], head[1]);
    types := AddTnsTypes(types, translations);
    PutAllConcat([], head, TnsAssignments(translations));
    types := AddDataTypes(types);
    PutAllConcat([], head + TnsAssignments(translations), DataAssignments());
    types := AddMorphTypes(types);
    PutAllConcat([], head + TnsAssignments(translations) + DataAssignments(), MorphAssignments());
    CatalogParts(language, translations);
  }

  /** What every later assignment puts in: a non-alignable type named by its
      key, a subdivision exactly for "words" and "morph-txt", otherwise an
      association. */
  predicate LaterShape(e: (string, LinguisticType)) {
    e.1.id == e.0 && !e.1.timeAlignable
    && e.1.constraint == (if e.0 == "words" || e.0 == "morph-txt" then Some(SymbolicSubdivision) else Some(SymbolicAssociation))
  }

  lemma PrefixCancel(p: string, a: string, b: string)
    requires p + a == p + b
    ensures a == b
  {
    assert a == (p + a)[|p|..];
    assert b == (p + b)[|p|..];
  }

  lemma LaterAllShaped(translations: seq<string>)
    ensures forall e :: e in LaterAssignments(translations) ==> LaterShape(e)
  {
    forall e | e in TnsAssignments(translations) ensures LaterShape(e) {
      var i :| 0 <= i < |translations| && TnsAssignments(translations)[i] == e;
      assert e.0[0] == 't';
    }
    forall e | e in DataAssignments() ensures LaterShape(e) {
      var i :| 0 <= i < |DataTypes| && DataAssignments()[i] == e;
      assert i == 0 || i == 1 || i == 2 || i == 3;
    }
    forall e | e in MorphAssignments() ensures LaterShape(e) {
      var i :| 0 <= i < |MorphKeys| && MorphAssignments()[i] == e;
      var mk := MorphKeys[i];
      assert e.0 == "morph-" + mk;
      assert e.0[0] == 'm';
      if e.0 == "morph-txt" {
        assert "morph-txt" == "morph-" + "txt";
        PrefixCancel("morph-", mk, "txt");
      }
    }
  }

  lemma {:induction false} LastValueIn<V>(es: seq<(string, V)>, k: string)
    ensures LastValue(es, k).Some? ==> (k, LastValue(es, k).value) in es
  {
    if es != [] && es[|es| - 1].0 != k {
      LastValueIn(es[..|es| - 1], k);
    }
  }

  lemma KeysConcat<V>(a: seq<(string, V)>, b: seq<(string, V)>)
    ensures Keys(a + b) == Keys(a) + Keys(b)
  {
  }

  function LaterKeys(translations: seq<string>): seq<string> {
    Keys(LaterAssignments(translations))
  }

  /** The catalog: a type exists for the language and for every later key;
      each is named by its key; only the language's own type is
      time-alignable and unconstrained, and only when no later key equals the
      language; "words" and "morph-txt" are symbolic subdivisions and every
      other type is a symbolic association. */
  lemma CatalogClassification(language: string, translations: seq<string>, k: string)
    ensures Get(Catalog(language, translations), k).Some? <==> k == language || k in LaterKeys(translations)
    ensures Get(Catalog(language, translations), k).Some? ==>
      var t := Get(Catalog(language, translations), k).value;
      t.id == k
      && (t.timeAlignable <==> k !in LaterKeys(translations))
      && (t.constraint.None? <==> k !in LaterKeys(translations))
      && (k in LaterKeys(translations) ==>
            t.constraint == if k == "words" || k == "morph-txt" then Some(SymbolicSubdivision) else Some(SymbolicAssociation))
  {
    var first := [(language, LinguisticType(language, true, None))];
    var later := LaterAssignments(translations);
    assert CatalogAssignments(language, translations) == first + later;
    KeysConcat(first, later);
    GetPutAll([], first + later, k);
    LastValueAppend(first, later, k);
    if k in Keys(later) {
      LastValueIn(later, k);
      LaterAllShaped(translations);
    }
  }

  // ---------------------------------------------------------------------------
  // Tier template

  /** `config["speakers"][code]`. */
  datatype SpeakerConfig = SpeakerConfig(name: string, kid: bool)

  /** The gls, pos and morph-txt tiers under `base + branch + "-words"`. */
  function DataTiers(name: string, base: string, branch: string): seq<Tier> {
    seq(|WordDataTypes|, i requires 0 <= i < |WordDataTypes| =>
      Tier(base + branch + "-" + WordDataTypes[i], WordDataTypes[i], Some(base + branch + "-words"), name))
  }

  /** One tier per morph key after "txt", under `base + branch + "-morph-txt"`. */
  function MorphTiers(name: string, base: string, branch: string): seq<Tier> {
    seq(|MorphKeys| - 1, i requires 0 <= i < |MorphKeys| - 1 =>
      Tier(base + branch + "-morph-" + MorphKeys[i + 1], "morph-" + MorphKeys[i + 1],
           Some(base + branch + "-morph-txt"), name))
  }

  function TnsTiers(name: string, parent: string, translations: seq<string>): (r: seq<Tier>)
    ensures |r| == |translations|
  {
    seq(|translations|, i requires 0 <= i < |translations| =>
      Tier(name + "-tns-" + translations[i], "tns-" + translations[i], Some(parent), name))
  }

  const NoteTypes: seq<string> := ["notes", "xds"]

  /** The notes and xds tiers under the phonetic tier. */
  function NoteTiers(name: string, parent: string): seq<Tier> {
    seq(|NoteTypes|, i requires 0 <= i < |NoteTypes| => Tier(name + "-" + NoteTypes[i], "notes", Some(parent), name))
  }

  function KidTiers(name: string, base: string): seq<Tier> {
    [Tier(base + "target", "target", Some(base + "phonetic"), name),
     Tier(base + "target-words", "words", Some(base + "target"), name)]
    + DataTiers(name, base, "target") + MorphTiers(name, base, "target")
  }

  /** The tiers the script makes for one speaker, in order. */
  function SpeakerTemplate(s: SpeakerConfig, language: string, translations: seq<string>): seq<Tier> {
    var base := s.name + "-" + language + "-";
    var phonetic := base + "phonetic";
    [Tier(phonetic, language, None, s.name)]
    + TnsTiers(s.name, phonetic, translations)
    + NoteTiers(s.name, phonetic)
    + [Tier(base + "phonetic-words", "words", Some(phonetic), s.name)]
    + DataTiers(s.name, base, "phonetic") + MorphTiers(s.name, base, "phonetic")
    + (if s.kid then KidTiers(s.name, base) else [])
  }

  /** The body of the script's loop over speakers, for one speaker. */
  method SpeakerTiers(s: SpeakerConfig, language: string, translations: seq<string>) returns (tiers: seq<Tier>)
    ensures tiers == SpeakerTemplate(s, language, translations)
  {
    var base := s.name + "-" + language + "-";
    tiers := [Tier(base + "phonetic", language, None, s.name)];
    for i := 0 to |translations|
      invariant tiers == [Tier(base + "phonetic", language, None, s.name)] + TnsTiers(s.name, base + "phonetic", translations[..i])
    {
      tiers := tiers + [Tier(s.name + "-tns-" + translations[i], "tns-" + translations[i], Some(base + "phonetic"), s.name)];
      assert TnsTiers(s.name, base + "phonetic", translations[..i + 1])
          == TnsTiers(s.name, base + "phonetic", translations[..i])
             + [Tier(s.name + "-tns-" + translations[i], "tns-" + translations[i], Some(base + "phonetic"), s.name)];
    }
    assert translations[..|translations|] == translations;
    ghost var pre := tiers;
    for i := 0 to |NoteTypes|
      invariant tiers == pre + NoteTiers(s.name, base + "phonetic")[..i]
    {
      tiers := tiers + [Tier(s.name + "-" + NoteTypes[i], "notes", Some(base + "phonetic"), s.name)];
      assert NoteTiers(s.name, base + "phonetic")[..i + 1] == NoteTiers(s.name, base + "phonetic")[..i] + [NoteTiers(s.name, base + "phonetic")[i]];
    }
    assert NoteTiers(s.name, base + "phonetic")[..|NoteTypes|] == NoteTiers(s.name, base + "phonetic");
    tiers := tiers + [Tier(base + "phonetic-words", "words", Some(base + "phonetic"), s.name)];
    var branch := BranchTiers(s.name, base, "phonetic");
    tiers := tiers + branch;
    if s.kid {
      tiers := tiers + [Tier(base + "target", "target", Some(base + "phonetic"), s.name)];
      tiers := tiers + [Tier(base + "target-words", "words", Some(base + "target"), s.name)];
      branch := BranchTiers(s.name, base, "target");
      tiers := tiers + branch;
    }
  }

  /** The two loops that make the word-level and morph-level tiers of one
      branch ("phonetic" or "target"). */
  method BranchTiers(name: string, base: string, branch: string) returns (tiers: seq<Tier>)
    ensures tiers == DataTiers(name, base, branch) + MorphTiers(name, base, branch)
  {
    tiers := [];
    for i := 0 to |WordDataTypes|
      invariant tiers == DataTiers(name, base, branch)[..i]
    {
      tiers := tiers + [Tier(base + branch + "-" + WordDataTypes[i], WordDataTypes[i], Some(base + branch + "-words"), name)];
    }
    ghost var data := tiers;
    for i := 1 to |MorphKeys|
      invariant tiers == data + MorphTiers(name, base, branch)[..i - 1]
    {
      tiers := tiers + [Tier(base + branch + "-morph-" + MorphKeys[i], "morph-" + MorphKeys[i], Some(base + branch + "-morph-txt"), name)];
    }
    assert MorphTiers(name, base, branch)[..|MorphKeys| - 1] == MorphTiers(name, base, branch);
  }

  /** Every PARENT_REF names a tier that comes earlier in the list. */
  predicate ParentsEarlier(ts: seq<Tier>) {
    forall i :: 0 <= i < |ts| && ts[i].parentRef.Some? ==> ts[i].parentRef.value in TierIds(ts[..i])
  }

  lemma ParentsAppend(a: seq<Tier>, b: seq<Tier>)
    requires ParentsEarlier(a)
    requires forall t :: t in b && t.parentRef.Some? ==> t.parentRef.value in TierIds(a)
    ensures ParentsEarlier(a + b)
  {
    var ab := a + b;
    forall i | 0 <= i < |ab| && ab[i].parentRef.Some?
      ensures ab[i].parentRef.value in TierIds(ab[..i])
    {
      if i < |a| {
        assert ab[..i] == a[..i];
      } else {
        assert ab[i] in b;
        var j :| 0 <= j < |a| && TierIds(a)[j] == ab[i].parentRef.value;
        assert TierIds(ab[..i])[j] == a[j].id;
      }
    }
  }

  lemma IdIn(ts: seq<Tier>, i: nat)
    requires i < |ts|
    ensures ts[i].id in TierIds(ts)
  {
    assert TierIds(ts)[i] == ts[i].id;
  }

  lemma IdPrefix(a: seq<Tier>, b: seq<Tier>, x: string)
    requires x in TierIds(a)
    ensures x in TierIds(a + b)
  {
    var j :| 0 <= j < |a| && TierIds(a)[j] == x;
    assert TierIds(a + b)[j] == x;
  }

  /** Every tier of a block has a parent and belongs to `name`. */
  predicate Owned(b: seq<Tier>, name: string) {
    forall i :: 0 <= i < |b| ==> b[i].parentRef.Some? && b[i].participant == name
  }

  lemma OwnedAppend(a: seq<Tier>, b: seq<Tier>, name: string)
    requires Owned(a, name) && Owned(b, name)
    ensures Owned(a + b, name)
  {
    forall i | 0 <= i < |a + b|
      ensures (a + b)[i].parentRef.Some? && (a + b)[i].participant == name
    {
      if i < |a| {
        assert (a + b)[i] == a[i];
      } else {
        assert (a + b)[i] == b[i - |a|];
      }
    }
  }

  lemma BranchParents(pre: seq<Tier>, name: string, base: string, branch: string)
    requires ParentsEarlier(pre) && base + branch + "-words" in TierIds(pre)
    ensures ParentsEarlier(pre + DataTiers(name, base, branch) + MorphTiers(name, base, branch))
  {
    var data := DataTiers(name, base, branch);
    ParentsAppend(pre, data);
    IdIn(pre + data, |pre| + 2);
    assert (pre + data)[|pre| + 2].id == base + branch + "-morph-txt";
    ParentsAppend(pre + data, MorphTiers(name, base, branch));
  }

  function PhoneticTiers(s: SpeakerConfig, language: string, translations: seq<string>): seq<Tier> {
    var base := s.name + "-" + language + "-";
    var phonetic := base + "phonetic";
    [Tier(phonetic, language, None, s.name)]
    + TnsTiers(s.name, phonetic, translations)
    + NoteTiers(s.name, phonetic)
    + [Tier(base + "phonetic-words", "words", Some(phonetic), s.name)]
    + DataTiers(s.name, base, "phonetic") + MorphTiers(s.name, base, "phonetic")
  }

  lemma PhoneticParents(s: SpeakerConfig, language: string, translations: seq<string>)
    ensures ParentsEarlier(PhoneticTiers(s, language, translations))
    ensures PhoneticTiers(s, language, translations)[0].id == s.name + "-" + language + "-phonetic"
  {
    var base := s.name + "-" + language + "-";
    var ph := base + "phonetic";
    var b0 := [Tier(ph, language, None, s.name)];
    var tns := TnsTiers(s.name, ph, translations);
    var notes := NoteTiers(s.name, ph);
    var words := [Tier(base + "phonetic-words", "words", Some(ph), s.name)];
    IdIn(b0, 0);
    assert ParentsEarlier(b0);
    ParentsAppend(b0, tns);
    IdPrefix(b0, tns, ph);
    ParentsAppend(b0 + tns, notes);
    IdPrefix(b0 + tns, notes, ph);
    ParentsAppend(b0 + tns + notes, words);
    var pre := b0 + tns + notes + words;
    IdIn(pre, |pre| - 1);
    assert pre[|pre| - 1].id == base + "phonetic" + "-words";
    BranchParents(pre, s.name, base, "phonetic");
  }

  lemma KidParents(ph1: seq<Tier>, name: string, base: string)
    requires ParentsEarlier(ph1) && base + "phonetic" in TierIds(ph1)
    ensures ParentsEarlier(ph1 + KidTiers(name, base))
  {
    var k := KidTiers(name, base);
    var t0 := [k[0]];
    ParentsAppend(ph1, t0);
    IdIn(ph1 + t0, |ph1|);
    ParentsAppend(ph1 + t0, [k[1]]);
    IdIn(ph1 + t0 + [k[1]], |ph1| + 1);
    assert (ph1 + t0 + [k[1]])[|ph1| + 1].id == base + "target" + "-words";
    BranchParents(ph1 + t0 + [k[1]], name, base, "target");
    assert ph1 + k == ph1 + t0 + [k[1]] + DataTiers(name, base, "target") + MorphTiers(name, base, "target");
  }

  lemma SpeakerTemplateParents(s: SpeakerConfig, language: string, translations: seq<string>)
    ensures ParentsEarlier(SpeakerTemplate(s, language, translations))
  {
    var ph1 := PhoneticTiers(s, language, translations);
    PhoneticParents(s, language, translations);
    assert SpeakerTemplate(s, language, translations)
        == ph1 + (if s.kid then KidTiers(s.name, s.name + "-" + language + "-") else []);
    if s.kid {
      IdIn(ph1, 0);
      assert s.name + "-" + language + "-phonetic" == (s.name + "-" + language + "-") + "phonetic";
      KidParents(ph1, s.name, s.name + "-" + language + "-");
    } else {
      assert ph1 + [] == ph1;
    }
  }

  /** A speaker's tiers after the first. */
  lemma TemplateTail(s: SpeakerConfig, language: string, translations: seq<string>)
    ensures var base := s.name + "-" + language + "-";
      SpeakerTemplate(s, language, translations)[1..]
        == TnsTiers(s.name, base + "phonetic", translations) + NoteTiers(s.name, base + "phonetic")
           + [Tier(base + "phonetic-words", "words", Some(base + "phonetic"), s.name)]
           + DataTiers(s.name, base, "phonetic") + MorphTiers(s.name, base, "phonetic")
           + (if s.kid then KidTiers(s.name, base) else [])
  {
    var base := s.name + "-" + language + "-";
    var rest := TnsTiers(s.name, base + "phonetic", translations) + NoteTiers(s.name, base + "phonetic")
           + [Tier(base + "phonetic-words", "words", Some(base + "phonetic"), s.name)]
           + DataTiers(s.name, base, "phonetic") + MorphTiers(s.name, base, "phonetic")
           + (if s.kid then KidTiers(s.name, base) else []);
    assert SpeakerTemplate(s, language, translations) == [Tier(base + "phonetic", language, None, s.name)] + rest;
  }

  lemma KidOwned(name: string, base: string)
    ensures Owned(KidTiers(name, base), name)
  {
    var two := [Tier(base + "target", "target", Some(base + "phonetic"), name),
                Tier(base + "target-words", "words", Some(base + "target"), name)];
    OwnedAppend(two, DataTiers(name, base, "target"), name);
    OwnedAppend(two + DataTiers(name, base, "target"), MorphTiers(name, base, "target"), name);
  }

  /** Every tier after the first has a parent and belongs to the speaker. */
  lemma OwnedBlocks(s: SpeakerConfig, language: string, translations: seq<string>)
    ensures Owned(SpeakerTemplate(s, language, translations)[1..], s.name)
  {
    var base := s.name + "-" + language + "-";
    var ph := base + "phonetic";
    var tns := TnsTiers(s.name, ph, translations);
    var notes := NoteTiers(s.name, ph);
    var words := [Tier(base + "phonetic-words", "words", Some(ph), s.name)];
    var data := DataTiers(s.name, base, "phonetic");
    var morphs := MorphTiers(s.name, base, "phonetic");
    var kid := if s.kid then KidTiers(s.name, base) else [];
    if s.kid {
      KidOwned(s.name, base);
    }
    OwnedAppend(tns, notes, s.name);
    OwnedAppend(tns + notes, words, s.name);
    OwnedAppend(tns + notes + words, data, s.name);
    OwnedAppend(tns + notes + words + data, morphs, s.name);
    OwnedAppend(tns + notes + words + data + morphs, kid, s.name);
    TemplateTail(s, language, translations);
  }

  /** The shape of one speaker's tiers: 13 + |translations| tiers, 11 more for
      a child speaker; the first (the phonetic transcription, of the language
      type) is the only one without PARENT_REF; every PARENT_REF names an
      earlier tier of the same list; every tier belongs to the speaker. */
  lemma SpeakerTemplateShape(s: SpeakerConfig, language: string, translations: seq<string>)
    ensures var ts := SpeakerTemplate(s, language, translations);
      |ts| == 13 + |translations| + (if s.kid then 11 else 0)
      && ts[0] == Tier(s.name + "-" + language + "-phonetic", language, None, s.name)
      && (forall i :: 1 <= i < |ts| ==> ts[i].parentRef.Some?)
      && ParentsEarlier(ts)
      && (forall i :: 0 <= i < |ts| ==> ts[i].participant == s.name)
  {
    var ts := SpeakerTemplate(s, language, translations);
    SpeakerTemplateParents(s, language, translations);
    OwnedBlocks(s, language, translations);
    assert s.name + "-" + language + "-phonetic" == (s.name + "-" + language + "-") + "phonetic";
    forall i | 1 <= i < |ts| ensures ts[i].parentRef.Some? && ts[i].participant == s.name {
      assert ts[i] == ts[1..][i - 1];
    }
  }

  /** The later keys, block by block. */
  lemma LaterKeysParts(translations: seq<string>)
    ensures LaterKeys(translations)
         == ["words"] + Keys(TnsAssignments(translations)) + DataTypes + Keys(MorphAssignments())
  {
    var w := [("words", SubdivType("words"))];
    var t := TnsAssignments(translations);
    var d := DataAssignments();
    var m := MorphAssignments();
    KeysConcat(w, t);
    KeysConcat(w + t, d);
    KeysConcat(w + t + d, m);
    assert Keys(d) == DataTypes;
  }

  lemma LaterKeysHave(translations: seq<string>)
    ensures var lk := LaterKeys(translations);
      "words" in lk && "notes" in lk && "target" in lk && "gls" in lk && "pos" in lk
      && (forall l :: l in translations ==> "tns-" + l in lk)
      && (forall mk :: mk in MorphKeys ==> "morph-" + mk in lk)
  {
    LaterKeysParts(translations);
    var tk := Keys(TnsAssignments(translations));
    var mks := Keys(MorphAssignments());
    forall l | l in translations ensures "tns-" + l in tk {
      var i :| 0 <= i < |translations| && translations[i] == l;
      assert tk[i] == "tns-" + l;
    }
    forall mk | mk in MorphKeys ensures "morph-" + mk in mks {
      var i :| 0 <= i < |MorphKeys| && MorphKeys[i] == mk;
      assert mks[i] == "morph-" + mk;
    }
    assert DataTypes[0] == "notes" && DataTypes[1] == "target" && DataTypes[2] == "gls" && DataTypes[3] == "pos";
  }

  predicate TypesIn(b: seq<Tier>, keys: seq<string>) {
    forall t :: t in b ==> t.typeRef in keys
  }

  lemma TypesInAppend(a: seq<Tier>, b: seq<Tier>, keys: seq<string>)
    requires TypesIn(a, keys) && TypesIn(b, keys)
    ensures TypesIn(a + b, keys)
  {
  }

  lemma BranchTypes(name: string, base: string, branch: string, lk: seq<string>)
    requires "gls" in lk && "pos" in lk && forall mk :: mk in MorphKeys ==> "morph-" + mk in lk
    ensures TypesIn(DataTiers(name, base, branch), lk) && TypesIn(MorphTiers(name, base, branch), lk)
  {
    assert "morph-txt" == "morph-" + MorphKeys[0];
    forall t | t in MorphTiers(name, base, branch) ensures t.typeRef in lk {
      var i :| 0 <= i < |MorphKeys| - 1 && MorphTiers(name, base, branch)[i] == t;
      assert MorphKeys[i + 1] in MorphKeys;
    }
  }

  /** Every tier's type is the language or a later key. */
  lemma TemplateTypesIn(s: SpeakerConfig, language: string, translations: seq<string>)
    ensures TypesIn(SpeakerTemplate(s, language, translations), [language] + LaterKeys(translations))
  {
    var keys := [language] + LaterKeys(translations);
    LaterKeysHave(translations);
    var base := s.name + "-" + language + "-";
    var ph := base + "phonetic";
    var tns := TnsTiers(s.name, ph, translations);
    var notes := NoteTiers(s.name, ph);
    var words := [Tier(base + "phonetic-words", "words", Some(ph), s.name)];
    var data := DataTiers(s.name, base, "phonetic");
    var morphs := MorphTiers(s.name, base, "phonetic");
    var kid := if s.kid then KidTiers(s.name, base) else [];
    BranchTypes(s.name, base, "phonetic", keys);
    forall t | t in tns ensures t.typeRef in keys {
      var i :| 0 <= i < |translations| && tns[i] == t;
      assert translations[i] in translations;
    }
    assert TypesIn(notes, keys) by {
      assert notes == [notes[0], notes[1]];
    }
    if s.kid {
      BranchTypes(s.name, base, "target", keys);
      var two := [Tier(base + "target", "target", Some(base + "phonetic"), s.name),
                  Tier(base + "target-words", "words", Some(base + "target"), s.name)];
      TypesInAppend(two, DataTiers(s.name, base, "target"), keys);
      TypesInAppend(two + DataTiers(s.name, base, "target"), MorphTiers(s.name, base, "target"), keys);
    }
    var b0 := [Tier(ph, language, None, s.name)];
    TypesInAppend(b0, tns, keys);
    TypesInAppend(b0 + tns, notes, keys);
    TypesInAppend(b0 + tns + notes, words, keys);
    TypesInAppend(b0 + tns + notes + words, data, keys);
    TypesInAppend(b0 + tns + notes + words + data, morphs, keys);
    TypesInAppend(b0 + tns + notes + words + data + morphs, kid, keys);
  }

  /** Every tier's linguistic type is in the catalog. */
  lemma SpeakerTemplateTypes(s: SpeakerConfig, language: string, translations: seq<string>)
    ensures forall t :: t in SpeakerTemplate(s, language, translations) ==>
      Get(Catalog(language, translations), t.typeRef).Some?
  {
    TemplateTypesIn(s, language, translations);
    forall t | t in SpeakerTemplate(s, language, translations)
      ensures Get(Catalog(language, translations), t.typeRef).Some?
    {
      CatalogClassification(language, translations, t.typeRef);
    }
  }

  // ---------------------------------------------------------------------------
  // All speakers

  /** All speakers' tiers in the iteration order of the speaker codes;
      KeyError for a code the configuration does not list. */
  function AllTemplates(codes: seq<string>, speakers: map<string, SpeakerConfig>,
                        language: string, translations: seq<string>): (r: Result<seq<Tier>>)
  {
    if codes == [] then Ok([])
    else
      var n := |codes| - 1;
      var pre :- AllTemplates(codes[..n], speakers, language, translations);
      if codes[n] !in speakers then Err(KeyError(codes[n]))
      else Ok(pre + SpeakerTemplate(speakers[codes[n]], language, translations))
  }

  /** The loop over speakers (tiers are kept per speaker code and then all
      appended in that order). */
  method MakeSpeakerTiers(codes: seq<string>, speakers: map<string, SpeakerConfig>,
                          language: string, translations: seq<string>) returns (r: Result<seq<Tier>>)
    ensures r == AllTemplates(codes, speakers, language, translations)
    ensures r.Err? <==> exists c :: c in codes && c !in speakers
  {
    var tiers: seq<Tier> := [];
    for i := 0 to |codes|
      invariant AllTemplates(codes[..i], speakers, language, translations) == Ok(tiers)
      invariant forall c :: c in codes[..i] ==> c in speakers
    {
      assert codes[..i + 1][..i] == codes[..i];
      if codes[i] !in speakers {
        AllTemplatesErr(codes, i + 1, speakers, language, translations);
        return Err(KeyError(codes[i]));
      }
      var mine := SpeakerTiers(speakers[codes[i]], language, translations);
      tiers := tiers + mine;
    }
    assert codes[..|codes|] == codes;
    return Ok(tiers);
  }

  /** A failure for a prefix of the codes is the failure for all of them. */
  lemma {:induction false} AllTemplatesErr(codes: seq<string>, i: nat, speakers: map<string, SpeakerConfig>,
                                           language: string, translations: seq<string>)
    requires i <= |codes| && AllTemplates(codes[..i], speakers, language, translations).Err?
    ensures AllTemplates(codes, speakers, language, translations) == AllTemplates(codes[..i], speakers, language, translations)
    decreases |codes| - i
  {
    if i < |codes| {
      assert codes[..i + 1][..i] == codes[..i];
      AllTemplatesErr(codes, i + 1, speakers, language, translations);
    } else {
      assert codes[..i] == codes;
    }
  }
}
