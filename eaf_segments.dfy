/** Segment extraction in the flextext-to-EAF direction: every merged phrase
    becomes a segment record holding its baseline text, its two time slots, its
    translations, its classified notes and one record per word and morph.  The
    annotation id of a Phonetic phrase is drawn from the shared counter while
    its notes are read. */
module EafSegments {
  import opened Common
  import opened Dict
  import opened Flextext
  import opened Elan
  import EafSchema

  /** The parts of the configuration this step reads: the main and the child
      language, the translation languages, the speaker codes and the xds terms. */
  datatype Config = Config(language: string, childLanguage: string, translations: seq<string>,
                           speakers: map<string, EafSchema.SpeakerConfig>, xds: seq<string>)

  /** `phon_tar`: "", "Phonetic" or "Target". */
  datatype Marker = NoMarker | Phonetic | Target

  // ---------------------------------------------------------------------------
  // Time slots

  /** `TIME_SLOT_ID` and `TIME_VALUE` of the slot a phrase offset resolves to. */
  datatype SlotRef = SlotRef(id: string, time: string)

  /** `find(".//TIME_SLOT[@TIME_VALUE=v]")`: the position of the first slot
      with that value. */
  function FirstSlot(slots: seq<TimeSlot>, v: string): (r: Option<nat>)
    ensures r.Some? ==> r.value < |slots| && slots[r.value].value == v
    ensures r.Some? ==> forall j :: 0 <= j < r.value ==> slots[j].value != v
    ensures r.None? ==> forall j :: 0 <= j < |slots| ==> slots[j].value != v
  {
    if slots == [] then None
    else if slots[0].value == v then Some(0)
    else match FirstSlot(slots[1..], v)
      case None => None
      case Some(j) => Some(j + 1)
  }

  /** The slot a phrase offset names: KeyError without the offset attribute,
      a missing element when no slot has that value (the script fails on
      `None.attrib`), otherwise the first slot with that value. */
  function ResolveTime(attrs: map<string, string>, key: string, slots: seq<TimeSlot>): (r: Result<SlotRef>)
    ensures key !in attrs ==> r == Err(KeyError(key))
    ensures key in attrs ==>
      (r.Err? <==> forall j :: 0 <= j < |slots| ==> slots[j].value != attrs[key])
    ensures r.Ok? ==> r.value.time == attrs[key]
    ensures r.Ok? ==> exists j :: 0 <= j < |slots| && slots[j] == TimeSlot(r.value.id, attrs[key])
                        && forall k :: 0 <= k < j ==> slots[k].value != attrs[key]
  {
    if key !in attrs then Err(KeyError(key))
    else match FirstSlot(slots, attrs[key])
      case None => Err(MissingElement("TIME_SLOT"))
      case Some(j) => Ok(SlotRef(slots[j].id, slots[j].value))
  }

  // ---------------------------------------------------------------------------
  // Translations

  /** Some gls item has no lang attribute (`gls.attrib["lang"]` fails). */
  predicate LangMissing(glss: seq<Item>) {
    exists i :: 0 <= i < |glss| && glss[i].lang.None?
  }

  /** `phrase_dict["tns-" + lang]` after the scan over the gls items. */
  function TnsValue(glss: seq<Item>, lang: string): (r: Result<string>)
    ensures r.Err? ==> r.error == KeyError("lang")
  {
    if glss == [] then Ok("")
    else
      var n := |glss| - 1;
      var v :- TnsValue(glss[..n], lang);
      if glss[n].lang.None? then Err(KeyError("lang"))
      else if glss[n].lang == Some(lang) then Ok(glss[n].text)
      else Ok(v)
  }

  /** The scan fails exactly on a gls item without lang. */
  lemma {:induction false} TnsValueErr(glss: seq<Item>, lang: string)
    ensures TnsValue(glss, lang).Err? <==> LangMissing(glss)
    decreases |glss|
  {
    if glss != [] {
      var n := |glss| - 1;
      TnsValueErr(glss[..n], lang);
      if LangMissing(glss[..n]) {
        var i :| 0 <= i < n && glss[..n][i].lang.None?;
        assert glss[i].lang.None?;
      }
      if LangMissing(glss) && glss[n].lang.Some? {
        var i :| 0 <= i < |glss| && glss[i].lang.None?;
        assert glss[..n][i].lang.None?;
      }
    }
  }

  /** The value is "" unless a gls item has the language; then the last such
      item wins. */
  lemma {:induction false} TnsValueLastWins(glss: seq<Item>, lang: string)
    requires TnsValue(glss, lang).Ok?
    ensures (forall i :: 0 <= i < |glss| ==> glss[i].lang != Some(lang)) ==> TnsValue(glss, lang).value == ""
    ensures forall i :: 0 <= i < |glss| && glss[i].lang == Some(lang)
              && (forall j :: i < j < |glss| ==> glss[j].lang != Some(lang))
              ==> TnsValue(glss, lang).value == glss[i].text
    decreases |glss|
  {
    if glss != [] {
      var n := |glss| - 1;
      TnsValueLastWins(glss[..n], lang);
      assert forall i :: 0 <= i < n ==> glss[..n][i] == glss[i];
    }
  }

  function TnsKey(lang: string): string {
    "tns-" + lang
  }

  /** The `tns-` assignments, one per configured translation language. */
  function TnsEntries(glss: seq<Item>, translations: seq<string>): (r: Result<seq<(string, string)>>)
    ensures r.Err? ==> r.error == KeyError("lang")
    ensures r.Ok? ==> |r.value| == |translations|
    ensures r.Ok? ==> forall i :: 0 <= i < |translations| ==>
      TnsValue(glss, translations[i]).Ok? && r.value[i] == (TnsKey(translations[i]), TnsValue(glss, translations[i]).value)
  {
    if translations == [] then Ok([])
    else
      var n := |translations| - 1;
      var pre :- TnsEntries(glss, translations[..n]);
      var v :- TnsValue(glss, translations[n]);
      Ok(pre + [(TnsKey(translations[n]), v)])
  }

  /** The loops fail exactly when some language is configured and some gls
      item has no lang. */
  lemma {:induction false} TnsEntriesErr(glss: seq<Item>, translations: seq<string>)
    ensures TnsEntries(glss, translations).Err? <==> translations != [] && LangMissing(glss)
    decreases |translations|
  {
    if translations != [] {
      var n := |translations| - 1;
      TnsEntriesErr(glss, translations[..n]);
      TnsValueErr(glss, translations[n]);
    }
  }

  /** The translation entries of the phrase record. */
  function TnsMap(glss: seq<Item>, translations: seq<string>): Result<Dict<string>> {
    var es :- TnsEntries(glss, translations);
    Ok(PutAll([], es))
  }

  /** Every configured language has its entry, holding its `TnsValue`. */
  lemma TnsMapGet(glss: seq<Item>, translations: seq<string>, i: nat)
    requires TnsMap(glss, translations).Ok? && i < |translations|
    ensures TnsValue(glss, translations[i]).Ok?
    ensures Get(TnsMap(glss, translations).value, TnsKey(translations[i]))
            == Some(TnsValue(glss, translations[i]).value)
  {
    var es := TnsEntries(glss, translations).value;
    var k := TnsKey(translations[i]);
    assert Keys(es)[i] == k;
    GetPutAll([], es, k);
    var j := LastIndex(Keys(es), k);
    LastValueAt(es, j);
    assert "tns-" + translations[j] == "tns-" + translations[i];
    assert translations[j] == ("tns-" + translations[j])[4..];
    assert translations[i] == ("tns-" + translations[i])[4..];
  }

  /** The last occurrence of a value in a sequence. */
  lemma {:induction false} LastIndex(ks: seq<string>, k: string) returns (j: nat)
    requires k in ks
    ensures j < |ks| && ks[j] == k && forall l :: j < l < |ks| ==> ks[l] != k
    decreases |ks|
  {
    var n := |ks| - 1;
    if ks[n] == k {
      j := n;
    } else {
      assert k in ks[..n];
      j := LastIndex(ks[..n], k);
      assert ks[j] == ks[..n][j];
    }
  }

  /** The translation loops: every language first gets "", then each gls item
      of that language overwrites it. */
  method Translations(glss: seq<Item>, translations: seq<string>) returns (r: Result<Dict<string>>)
    ensures r == TnsMap(glss, translations)
  {
    var d: Dict<string> := [];
    for i := 0 to |translations|
      invariant TnsEntries(glss, translations[..i]).Ok?
      invariant d == PutAll([], TnsEntries(glss, translations[..i]).value)
    {
      var next := ScanGls(d, glss, translations[i]);
      if next.Err? {
        TnsEntriesErr(glss, translations);
        TnsValueErr(glss, translations[i]);
        return Err(KeyError("lang"));
      }
      TnsMapStep(glss, translations, i);
      d := next.value;
    }
    assert translations[..|translations|] == translations;
    return Ok(d);
  }

  lemma TnsMapStep(glss: seq<Item>, translations: seq<string>, i: nat)
    requires i < |translations| && TnsEntries(glss, translations[..i]).Ok?
    requires TnsValue(glss, translations[i]).Ok?
    ensures TnsEntries(glss, translations[..i + 1]).Ok?
    ensures PutAll([], TnsEntries(glss, translations[..i + 1]).value)
            == Put(PutAll([], TnsEntries(glss, translations[..i]).value), TnsKey(translations[i]),
                   TnsValue(glss, translations[i]).value)
  {
    assert translations[..i + 1][..i] == translations[..i];
    var pre := TnsEntries(glss, translations[..i]).value;
    var e := (TnsKey(translations[i]), TnsValue(glss, translations[i]).value);
    assert TnsEntries(glss, translations[..i + 1]) == Ok(pre + [e]);
    assert (pre + [e])[..|pre|] == pre;
  }

  /** The inner loop for one language, writing into the record `d`. */
  method ScanGls(d: Dict<string>, glss: seq<Item>, lang: string) returns (r: Result<Dict<string>>)
    ensures r.Ok? <==> TnsValue(glss, lang).Ok?
    ensures r.Ok? ==> r.value == Put(d, TnsKey(lang), TnsValue(glss, lang).value)
  {
    var key := TnsKey(lang);
    var cur := Put(d, key, "");
    for j := 0 to |glss|
      invariant TnsValue(glss[..j], lang).Ok?
      invariant cur == Put(d, key, TnsValue(glss[..j], lang).value)
    {
      assert glss[..j + 1][..j] == glss[..j];
      if glss[j].lang.None? {
        TnsValueErr(glss, lang);
        return Err(KeyError("lang"));
      }
      if glss[j].lang == Some(lang) {
        PutTwice(d, key, TnsValue(glss[..j], lang).value, glss[j].text);
        cur := Put(cur, key, glss[j].text);
      }
    }
    assert glss[..|glss|] == glss;
    return Ok(cur);
  }

  // ---------------------------------------------------------------------------
  // Notes

  /** How one note item is read, in the order the script tests it. */
  datatype NoteKind =
    | Skip              // no text
    | MarkerNote(m: Marker)
    | BadNote           // "a" alone: `note.text[1]` fails
    | OrigNote          // "a" followed by a digit
    | SpeakerNote       // a configured speaker code
    | XdsNote           // a configured xds term
    | OtherNote         // anything else, kept in the notes tier

  function KindOf(cfg: Config, text: string): NoteKind {
    if text == "" then Skip
    else if text == "Phonetic" then MarkerNote(Phonetic)
    else if text == "Target" then MarkerNote(Target)
    else if text[0] == 'a' && |text| < 2 then BadNote
    else if text[0] == 'a' && IsDigit(text[1]) then OrigNote
    else if text in cfg.speakers then SpeakerNote
    else if text in cfg.xds then XdsNote
    else OtherNote
  }

  /** The loop variables of the note loop; `count` is `aID_count`. */
  datatype NoteState = NoteState(marker: Marker, alignable: Option<nat>, count: nat, orig: string,
                                 speaker: string, xds: string, notes: string)

  /** The fields as the script initialises them for each phrase. */
  function Initial(count: nat): NoteState {
    NoteState(NoMarker, None, count, "", "", "", "")
  }

  /** One note: a "Phonetic" note takes the next annotation id. */
  function NoteStep(cfg: Config, st: NoteState, text: string): Result<NoteState> {
    match KindOf(cfg, text)
    case Skip => Ok(st)
    case MarkerNote(m) =>
      if m == Phonetic then Ok(st.(marker := m, alignable := Some(st.count), count := st.count + 1))
      else Ok(st.(marker := m))
    case BadNote => Err(IndexError("note.text[1]"))
    case OrigNote => Ok(st.(orig := text))
    case SpeakerNote => Ok(st.(speaker := text))
    case XdsNote => Ok(st.(xds := text))
    case OtherNote => Ok(st.(notes := if |st.notes| == 0 then text else st.notes + "; " + text))
  }

  /** The note loop over the phrase's own note items. */
  function Classify(cfg: Config, st0: NoteState, texts: seq<string>): Result<NoteState> {
    if texts == [] then Ok(st0)
    else
      var n := |texts| - 1;
      var st :- Classify(cfg, st0, texts[..n]);
      NoteStep(cfg, st, texts[n])
  }

  lemma {:induction false} ClassifyErr(cfg: Config, st0: NoteState, texts: seq<string>, i: nat)
    requires i <= |texts| && Classify(cfg, st0, texts[..i]).Err?
    ensures Classify(cfg, st0, texts) == Classify(cfg, st0, texts[..i])
    decreases |texts| - i
  {
    if i == |texts| {
      assert texts[..i] == texts;
    } else {
      assert texts[..i + 1][..i] == texts[..i];
      ClassifyErr(cfg, st0, texts, i + 1);
    }
  }

  method ClassifyNotes(cfg: Config, count: nat, texts: seq<string>) returns (r: Result<NoteState>)
    ensures r == Classify(cfg, Initial(count), texts)
  {
    var st := Initial(count);
    for i := 0 to |texts|
      invariant Classify(cfg, Initial(count), texts[..i]) == Ok(st)
    {
      assert texts[..i + 1][..i] == texts[..i];
      var text := texts[i];
      if text == "" {
        continue;
      }
      if text == "Phonetic" || text == "Target" {
        if text == "Phonetic" {
          st := st.(marker := Phonetic, alignable := Some(st.count), count := st.count + 1);
        } else {
          st := st.(marker := Target);
        }
      } else if text[0] == 'a' && (|text| < 2 || IsDigit(text[1])) {
        if |text| < 2 {
          ClassifyErr(cfg, Initial(count), texts, i + 1);
          return Err(IndexError("note.text[1]"));
        }
        st := st.(orig := text);
      } else if text in cfg.speakers {
        st := st.(speaker := text);
      } else if text in cfg.xds {
        st := st.(xds := text);
      } else if |st.notes| == 0 {
        st := st.(notes := text);
      } else {
        st := st.(notes := st.notes + "; " + text);
      }
    }
    assert texts[..|texts|] == texts;
    return Ok(st);
  }

  // Reference definitions of what the note loop leaves behind.

  /** The notes that fall through to the notes tier, in order. */
  function Others(cfg: Config, texts: seq<string>): (r: seq<string>)
    ensures forall i :: 0 <= i < |r| ==> r[i] != ""
  {
    if texts == [] then []
    else
      var n := |texts| - 1;
      Others(cfg, texts[..n]) + if KindOf(cfg, texts[n]) == OtherNote then [texts[n]] else []
  }

  /** How many "Phonetic" notes there are. */
  function PhoneticCount(cfg: Config, texts: seq<string>): nat {
    if texts == [] then 0
    else
      var n := |texts| - 1;
      PhoneticCount(cfg, texts[..n]) + if KindOf(cfg, texts[n]) == MarkerNote(Phonetic) then 1 else 0
  }

  /** The text of the last note of a kind, or "" where there is none. */
  function LastOfKind(cfg: Config, texts: seq<string>, k: NoteKind): string {
    if texts == [] then ""
    else
      var n := |texts| - 1;
      if KindOf(cfg, texts[n]) == k then texts[n] else LastOfKind(cfg, texts[..n], k)
  }

  /** The marker of the last marker note. */
  function LastMarker(cfg: Config, texts: seq<string>): Marker {
    if texts == [] then NoMarker
    else
      var n := |texts| - 1;
      match KindOf(cfg, texts[n])
      case MarkerNote(m) => m
      case _ => LastMarker(cfg, texts[..n])
  }

  /** A join of non-empty parts is empty only when there are no parts. */
  lemma JoinEmpty(sep: string, parts: seq<string>)
    requires forall i :: 0 <= i < |parts| ==> parts[i] != ""
    ensures Join(sep, parts) == "" <==> parts == []
  {
    if |parts| > 1 {
      var n := |parts| - 1;
      assert |Join(sep, parts)| >= |parts[n]|;
    }
  }

  /** The note loop fails exactly on a lone "a". */
  lemma {:induction false} ClassifyOk(cfg: Config, count: nat, texts: seq<string>)
    ensures Classify(cfg, Initial(count), texts).Ok?
            <==> forall i :: 0 <= i < |texts| ==> KindOf(cfg, texts[i]) != BadNote
    decreases |texts|
  {
    if texts != [] {
      var n := |texts| - 1;
      ClassifyOk(cfg, count, texts[..n]);
      assert forall i :: 0 <= i < n ==> texts[..n][i] == texts[i];
    }
  }

  /** The notes tier holds the notes of no other kind, joined by "; ". */
  lemma {:induction false} ClassifyJoin(cfg: Config, count: nat, texts: seq<string>)
    requires Classify(cfg, Initial(count), texts).Ok?
    ensures Classify(cfg, Initial(count), texts).value.notes == Join("; ", Others(cfg, texts))
    decreases |texts|
  {
    if texts != [] {
      var n := |texts| - 1;
      var pre := texts[..n];
      ClassifyJoin(cfg, count, pre);
      var os := Others(cfg, pre);
      var st := Classify(cfg, Initial(count), pre).value;
      assert Classify(cfg, Initial(count), texts) == NoteStep(cfg, st, texts[n]);
      if KindOf(cfg, texts[n]) == OtherNote {
        JoinOne(os, texts[n]);
      } else {
        assert Others(cfg, texts) == os + [];
        assert os + [] == os;
      }
    }
  }

  /** Appending one non-empty note, as the script's `len(notes) == 0` test does. */
  lemma JoinOne(os: seq<string>, t: string)
    requires forall i :: 0 <= i < |os| ==> os[i] != ""
    ensures Join("; ", os + [t]) == if |Join("; ", os)| == 0 then t else Join("; ", os) + "; " + t
  {
    JoinEmpty("; ", os);
    if os == [] {
      assert os + [t] == [t];
    } else {
      assert (os + [t])[..|os|] == os;
    }
  }

  /** Each "Phonetic" note consumes one id, and the last one taken is the
      phrase's alignable id. */
  lemma {:induction false} ClassifyCount(cfg: Config, count: nat, texts: seq<string>)
    requires Classify(cfg, Initial(count), texts).Ok?
    ensures var st := Classify(cfg, Initial(count), texts).value;
      && st.count == count + PhoneticCount(cfg, texts)
      && (st.alignable.Some? <==> PhoneticCount(cfg, texts) > 0)
      && (st.alignable.Some? ==> st.alignable.value == st.count - 1)
    decreases |texts|
  {
    if texts != [] {
      ClassifyCount(cfg, count, texts[..|texts| - 1]);
    }
  }

  /** Marker, orig_aID, speaker and xds come from the last note of their kind. */
  lemma {:induction false} ClassifyLast(cfg: Config, count: nat, texts: seq<string>)
    requires Classify(cfg, Initial(count), texts).Ok?
    ensures var st := Classify(cfg, Initial(count), texts).value;
      && st.marker == LastMarker(cfg, texts)
      && st.orig == LastOfKind(cfg, texts, OrigNote)
      && st.speaker == LastOfKind(cfg, texts, SpeakerNote)
      && st.xds == LastOfKind(cfg, texts, XdsNote)
    decreases |texts|
  {
    if texts != [] {
      ClassifyLast(cfg, count, texts[..|texts| - 1]);
    }
  }

  /** The marker is Phonetic only after a "Phonetic" note, so such a phrase
      always has its alignable id. */
  lemma {:induction false} PhoneticHasId(cfg: Config, texts: seq<string>)
    ensures LastMarker(cfg, texts) == Phonetic ==> PhoneticCount(cfg, texts) > 0
    decreases |texts|
  {
    if texts != [] {
      PhoneticHasId(cfg, texts[..|texts| - 1]);
    }
  }

  // ---------------------------------------------------------------------------
  // Words and morphs

  /** `x.find("item[@type=t]").text`, or "" where there is no such item. */
  function ItemText(items: seq<Item>, t: string): string {
    match FirstOfType(items, t)
    case None => ""
    case Some(it) => it.text
  }

  /** One assignment per key, each from the item of that type. */
  function KeyEntries(items: seq<Item>, ks: seq<string>): (r: seq<(string, string)>)
    ensures |r| == |ks| && forall i :: 0 <= i < |ks| ==> r[i] == (ks[i], ItemText(items, ks[i]))
  {
    seq(|ks|, i requires 0 <= i < |ks| => (ks[i], ItemText(items, ks[i])))
  }

  function TypeAttr(m: Morph): string {
    match m.morphType
    case None => ""
    case Some(t) => t
  }

  /** The assignments of the morph loop: `morph_type` from the attribute, then
      one entry per morph key. */
  function MorphEntries(m: Morph): seq<(string, string)> {
    [("morph_type", TypeAttr(m))] + KeyEntries(m.items, EafSchema.MorphKeys)
  }

  /** `this_morph`. */
  function MorphRecord(m: Morph): Dict<string> {
    PutAll([], MorphEntries(m))
  }

  /** The keys of a morph record, in insertion order. */
  const MorphRecordKeys: seq<string> := ["morph_type", "txt", "cf", "gls", "msa", "variantTypes", "hn"]

  /** The record of a morph: `morph_type` stays in first position but, like
      every other key, holds the text of the morph's item of that type (or ""),
      never the type attribute, because `"morph_type"` is itself one of the
      morph keys. */
  lemma MorphRecordShape(m: Morph)
    ensures Keys(MorphRecord(m)) == MorphRecordKeys
    ensures forall i :: 0 <= i < |MorphRecord(m)| ==> MorphRecord(m)[i].1 == ItemText(m.items, MorphRecord(m)[i].0)
  {
    var es := MorphEntries(m);
    MorphEntriesAt(m);
    var first := es[..7];
    var v := es[7].1;
    assert Keys(first) == MorphRecordKeys by {
      assert forall i :: 1 <= i < 7 ==> Keys(first)[i] == EafSchema.MorphKeys[i - 1];
    }
    RecordKeysDistinct();
    PutAllFresh(first);
    assert MorphRecord(m) == Put(first, "morph_type", v) by {
      assert es[..7] == first;
    }
    PutExisting(first, 0, v);
    var r := first[0 := ("morph_type", v)];
    assert Keys(r) == Keys(first) by {
      assert forall i :: 0 <= i < 7 ==> r[i].0 == first[i].0;
    }
  }

  lemma MorphEntriesAt(m: Morph)
    ensures |MorphEntries(m)| == 8 && MorphEntries(m)[0] == ("morph_type", TypeAttr(m))
    ensures MorphEntries(m)[7] == ("morph_type", ItemText(m.items, "morph_type"))
    ensures forall i :: 1 <= i < 8 ==>
      MorphEntries(m)[i] == (EafSchema.MorphKeys[i - 1], ItemText(m.items, EafSchema.MorphKeys[i - 1]))
  {
  }

  lemma RecordKeysDistinct()
    ensures Distinct(MorphRecordKeys)
  {
    var ks := MorphRecordKeys;
    assert forall i :: 0 <= i < 7 ==> |ks[i]| == [10, 3, 2, 3, 3, 12, 2][i];
    assert ks[2][0] != ks[6][0] && ks[1][0] != ks[3][0] && ks[1][0] != ks[4][0] && ks[3][0] != ks[4][0];
  }

  /** The morph loop body. */
  method MorphInfo(m: Morph) returns (d: Dict<string>)
    ensures d == MorphRecord(m)
  {
    d := Put([], "morph_type", if m.morphType.Some? then m.morphType.value else "");
    ghost var d0 := d;
    var ks := EafSchema.MorphKeys;
    for i := 0 to |ks|
      invariant d == PutAll(d0, KeyEntries(m.items, ks[..i]))
    {
      var k := ks[i];
      KeyEntriesStep(m.items, ks, i);
      d := Put(d, k, ItemText(m.items, k));
    }
    assert ks[..|ks|] == ks;
    MorphRecordSplit(m);
  }

  lemma KeyEntriesStep(items: seq<Item>, ks: seq<string>, i: nat)
    requires i < |ks|
    ensures KeyEntries(items, ks[..i + 1]) == KeyEntries(items, ks[..i]) + [(ks[i], ItemText(items, ks[i]))]
  {
  }

  lemma MorphRecordSplit(m: Morph)
    ensures MorphRecord(m) == PutAll(Put([], "morph_type", TypeAttr(m)), KeyEntries(m.items, EafSchema.MorphKeys))
  {
    var first := [("morph_type", TypeAttr(m))];
    EafSchema.PutAllConcat([], first, KeyEntries(m.items, EafSchema.MorphKeys));
    assert PutAll([], first) == Put([], "morph_type", TypeAttr(m)) by {
      assert first[..0] == [];
    }
  }

  /** The word-level record: its text, pos, gls and morph records. */
  datatype WordRec = WordRec(text: string, pos: string, gls: string, morphs: seq<Dict<string>>)

  /** The word's text: the main-language item if any; else the child-language
      item, which only a Phonetic phrase may use (KeyError otherwise); else "". */
  function WordText(cfg: Config, w: Word, marker: Marker): (r: Result<string>)
    ensures r.Err? <==> FirstOfLang(WordItems(w), cfg.language).None?
                        && FirstOfLang(WordItems(w), cfg.childLanguage).Some? && marker != Phonetic
    ensures r.Ok? && FirstOfLang(WordItems(w), cfg.language).Some? ==>
      r.value == FirstOfLang(WordItems(w), cfg.language).value.text
    ensures r.Ok? && FirstOfLang(WordItems(w), cfg.language).None? ==>
      r.value == match FirstOfLang(WordItems(w), cfg.childLanguage) case Some(it) => it.text case None => ""
  {
    match FirstOfLang(WordItems(w), cfg.language)
    case Some(it) => Ok(it.text)
    case None =>
      match FirstOfLang(WordItems(w), cfg.childLanguage)
      case Some(it) => if marker == Phonetic then Ok(it.text) else Err(KeyError(cfg.childLanguage))
      case None => Ok("")
  }

  function MorphRecords(ms: seq<Morph>): (r: seq<Dict<string>>)
    ensures |r| == |ms| && forall i :: 0 <= i < |ms| ==> r[i] == MorphRecord(ms[i])
  {
    seq(|ms|, i requires 0 <= i < |ms| => MorphRecord(ms[i]))
  }

  function WordRecord(cfg: Config, w: Word, marker: Marker): Result<WordRec> {
    var text :- WordText(cfg, w, marker);
    Ok(WordRec(text, ItemText(WordItems(w), "pos"), ItemText(WordItems(w), "gls"),
               MorphRecords(WordMorphs(w))))
  }

  /** The word loop body. */
  method WordInfo(cfg: Config, w: Word, marker: Marker) returns (r: Result<WordRec>)
    ensures r == WordRecord(cfg, w, marker)
  {
    var text := WordText(cfg, w, marker);
    if text.Err? {
      return Err(text.error);
    }
    var ms := WordMorphs(w);
    var records: seq<Dict<string>> := [];
    for i := 0 to |ms|
      invariant records == MorphRecords(ms[..i])
    {
      var d := MorphInfo(ms[i]);
      records := records + [d];
    }
    assert ms[..|ms|] == ms;
    return Ok(WordRec(text.value, ItemText(WordItems(w), "pos"), ItemText(WordItems(w), "gls"), records));
  }

  /** The results of f on the words in order, or the first error. */
  function Records(ws: seq<Word>, f: Word -> Result<WordRec>): Result<seq<WordRec>> {
    if ws == [] then Ok([])
    else
      var n := |ws| - 1;
      var pre :- Records(ws[..n], f);
      var w :- f(ws[n]);
      Ok(pre + [w])
  }

  lemma {:induction false} RecordsFacts(ws: seq<Word>, f: Word -> Result<WordRec>)
    ensures Records(ws, f).Ok? <==> forall i :: 0 <= i < |ws| ==> f(ws[i]).Ok?
    ensures Records(ws, f).Ok? ==>
      && |Records(ws, f).value| == |ws|
      && forall i :: 0 <= i < |ws| ==> Records(ws, f).value[i] == f(ws[i]).value
  {
    if ws != [] {
      var n := |ws| - 1;
      RecordsFacts(ws[..n], f);
      assert forall i :: 0 <= i < n ==> ws[..n][i] == ws[i];
    }
  }

  lemma {:induction false} RecordsErr(ws: seq<Word>, f: Word -> Result<WordRec>, i: nat)
    requires i <= |ws| && Records(ws[..i], f).Err?
    ensures Records(ws, f) == Records(ws[..i], f)
    decreases |ws| - i
  {
    if i == |ws| {
      assert ws[..i] == ws;
    } else {
      assert ws[..i + 1][..i] == ws[..i];
      RecordsErr(ws, f, i + 1);
    }
  }

  /** The records of the words, or the error of the first word that has none. */
  function WordRecords(cfg: Config, ws: seq<Word>, marker: Marker): Result<seq<WordRec>> {
    Records(ws, w => WordRecord(cfg, w, marker))
  }

  /** The records exist exactly when every word has one, and are then the
      words' records in order. */
  lemma WordRecordsFacts(cfg: Config, ws: seq<Word>, marker: Marker)
    ensures WordRecords(cfg, ws, marker).Ok? <==> forall i :: 0 <= i < |ws| ==> WordRecord(cfg, ws[i], marker).Ok?
    ensures WordRecords(cfg, ws, marker).Ok? ==>
      && |WordRecords(cfg, ws, marker).value| == |ws|
      && forall i :: 0 <= i < |ws| ==> WordRecords(cfg, ws, marker).value[i] == WordRecord(cfg, ws[i], marker).value
  {
    RecordsFacts(ws, w => WordRecord(cfg, w, marker));
  }

  method WordList(cfg: Config, ws: seq<Word>, marker: Marker) returns (r: Result<seq<WordRec>>)
    ensures r == WordRecords(cfg, ws, marker)
  {
    var list: seq<WordRec> := [];
    for i := 0 to |ws|
      invariant WordRecords(cfg, ws[..i], marker) == Ok(list)
    {
      assert ws[..i + 1][..i] == ws[..i];
      var w := WordInfo(cfg, ws[i], marker);
      if w.Err? {
        RecordsErr(ws, w => WordRecord(cfg, w, marker), i + 1);
        return Err(w.error);
      }
      list := list + [w.value];
    }
    assert ws[..|ws|] == ws;
    return Ok(list);
  }

  // ---------------------------------------------------------------------------
  // Segments

  /** `phrase_dict`, plus the fields the pairing step adds (`ann_ref`,
      `ref_aID`). */
  datatype Segment = Segment(segnum: string, fullText: string, begin: SlotRef, end: SlotRef,
                             tns: Dict<string>, marker: Marker, alignable: Option<nat>,
                             orig: string, speaker: string, xds: string, notes: string,
                             words: seq<WordRec>, annRef: Option<nat>, refId: Option<nat>)

  /** The texts of a phrase's own note items. */
  function NoteTexts(p: Phrase): seq<string> {
    Texts(ItemsOfType(DirectItems(p), "note"))
  }

  /** `" ".join` of the txt items of the phrase's words. */
  function FullText(p: Phrase): string {
    Join(" ", Texts(TxtItems(PhraseWords(p))))
  }

  /** One iteration of the segment loop: the record of the phrase and the
      counter after it. */
  function ExtractOne(cfg: Config, slots: seq<TimeSlot>, segnum: string, p: Phrase, count: nat)
    : Result<(Segment, nat)>
  {
    var begin :- ResolveTime(p.attrs, BeginOffset, slots);
    var end :- ResolveTime(p.attrs, EndOffset, slots);
    var tns :- TnsMap(ItemsOfType(DirectItems(p), "gls"), cfg.translations);
    var st :- Classify(cfg, Initial(count), NoteTexts(p));
    var words :- WordRecords(cfg, PhraseWords(p), st.marker);
    Ok((Segment(segnum, FullText(p), begin, end, tns, st.marker, st.alignable, st.orig, st.speaker,
                st.xds, st.notes, words, None, None), st.count))
  }

  /** The segment loop body. */
  method ExtractPhrase(cfg: Config, slots: seq<TimeSlot>, segnum: string, p: Phrase, count: nat)
    returns (r: Result<(Segment, nat)>)
    ensures r == ExtractOne(cfg, slots, segnum, p, count)
  {
    var begin := ResolveTime(p.attrs, BeginOffset, slots);
    if begin.Err? { return Err(begin.error); }
    var end := ResolveTime(p.attrs, EndOffset, slots);
    if end.Err? { return Err(end.error); }
    var tns := Translations(ItemsOfType(DirectItems(p), "gls"), cfg.translations);
    if tns.Err? { return Err(tns.error); }
    var st := ClassifyNotes(cfg, count, NoteTexts(p));
    if st.Err? { return Err(st.error); }
    var words := WordList(cfg, PhraseWords(p), st.value.marker);
    if words.Err? { return Err(words.error); }
    var s := st.value;
    return Ok((Segment(segnum, FullText(p), begin.value, end.value, tns.value, s.marker, s.alignable,
                       s.orig, s.speaker, s.xds, s.notes, words.value, None, None), s.count));
  }

  /** The segment loop over the merged phrases, in their order, threading
      `aID_count`. */
  function ExtractAll(cfg: Config, slots: seq<TimeSlot>, phrases: Dict<Phrase>, count: nat)
    : Result<(seq<Segment>, nat)>
  {
    if phrases == [] then Ok(([], count))
    else
      var n := |phrases| - 1;
      var pre :- ExtractAll(cfg, slots, phrases[..n], count);
      var one :- ExtractOne(cfg, slots, phrases[n].0, phrases[n].1, pre.1);
      Ok((pre.0 + [one.0], one.1))
  }

  lemma {:induction false} ExtractAllErr(cfg: Config, slots: seq<TimeSlot>, phrases: Dict<Phrase>,
                                         count: nat, i: nat)
    requires i <= |phrases| && ExtractAll(cfg, slots, phrases[..i], count).Err?
    ensures ExtractAll(cfg, slots, phrases, count) == ExtractAll(cfg, slots, phrases[..i], count)
    decreases |phrases| - i
  {
    if i == |phrases| {
      assert phrases[..i] == phrases;
    } else {
      assert phrases[..i + 1][..i] == phrases[..i];
      ExtractAllErr(cfg, slots, phrases, count, i + 1);
    }
  }

  method ExtractSegments(cfg: Config, slots: seq<TimeSlot>, phrases: Dict<Phrase>, count0: nat)
    returns (r: Result<(seq<Segment>, nat)>)
    ensures r == ExtractAll(cfg, slots, phrases, count0)
  {
    var segments: seq<Segment> := [];
    var count := count0;
    for i := 0 to |phrases|
      invariant ExtractAll(cfg, slots, phrases[..i], count0) == Ok((segments, count))
    {
      assert phrases[..i + 1][..i] == phrases[..i];
      var one := ExtractPhrase(cfg, slots, phrases[i].0, phrases[i].1, count);
      if one.Err? {
        ExtractAllErr(cfg, slots, phrases, count0, i + 1);
        return Err(one.error);
      }
      segments := segments + [one.value.0];
      count := one.value.1;
    }
    assert phrases[..|phrases|] == phrases;
    return Ok((segments, count));
  }

  // Properties of the extracted segments.

  /** A segment as extraction leaves it: not yet paired, and holding its
      alignable id if it is Phonetic. */
  predicate Unpaired(s: Segment) {
    (s.marker == Phonetic ==> s.alignable.Some?) && s.annRef.None? && s.refId.None?
  }

  /** What one phrase contributes: its alignable id, if any, is the last id it
      took from the counter, and a Phonetic phrase always has one. */
  lemma ExtractOneFacts(cfg: Config, slots: seq<TimeSlot>, segnum: string, p: Phrase, count: nat)
    requires ExtractOne(cfg, slots, segnum, p, count).Ok?
    ensures var (s, c) := ExtractOne(cfg, slots, segnum, p, count).value;
      && s.segnum == segnum && count <= c
      && (s.alignable.Some? ==> count <= s.alignable.value < c)
      && Unpaired(s)
  {
    var st := Classify(cfg, Initial(count), NoteTexts(p)).value;
    ClassifyCount(cfg, count, NoteTexts(p));
    ClassifyLast(cfg, count, NoteTexts(p));
    PhoneticHasId(cfg, NoteTexts(p));
  }

  /** Alignable ids lie in `[lo, hi)` and grow strictly with the segment order,
      so no two segments share one. */
  ghost predicate IdsAllocated(segs: seq<Segment>, lo: nat, hi: nat) {
    && (forall i :: 0 <= i < |segs| && segs[i].alignable.Some? ==> lo <= segs[i].alignable.value < hi)
    && (forall i, j :: 0 <= i < j < |segs| && segs[i].alignable.Some? && segs[j].alignable.Some?
          ==> segs[i].alignable.value < segs[j].alignable.value)
  }

  /** The segment loop keeps the segnums and their order, and every segment
      it makes is `Unpaired`. */
  lemma {:induction false} ExtractAllShape(cfg: Config, slots: seq<TimeSlot>, phrases: Dict<Phrase>, count: nat)
    requires ExtractAll(cfg, slots, phrases, count).Ok?
    ensures var segs := ExtractAll(cfg, slots, phrases, count).value.0;
      && |segs| == |phrases|
      && (forall i :: 0 <= i < |segs| ==> segs[i].segnum == phrases[i].0 && Unpaired(segs[i]))
    decreases |phrases|
  {
    if phrases != [] {
      var n := |phrases| - 1;
      ExtractAllShape(cfg, slots, phrases[..n], count);
      var (pre, c1) := ExtractAll(cfg, slots, phrases[..n], count).value;
      ExtractOneFacts(cfg, slots, phrases[n].0, phrases[n].1, c1);
      var s := ExtractOne(cfg, slots, phrases[n].0, phrases[n].1, c1).value.0;
      assert ExtractAll(cfg, slots, phrases, count).value.0 == pre + [s];
      SnocFacts(pre, s, phrases[..n], phrases);
    }
  }

  lemma SnocFacts(pre: seq<Segment>, s: Segment, ps: Dict<Phrase>, phrases: Dict<Phrase>)
    requires phrases != [] && |pre| == |ps| && ps == phrases[..|phrases| - 1]
    requires forall i :: 0 <= i < |pre| ==> pre[i].segnum == ps[i].0 && Unpaired(pre[i])
    requires s.segnum == phrases[|phrases| - 1].0 && Unpaired(s)
    ensures forall i :: 0 <= i < |pre| + 1 ==> (pre + [s])[i].segnum == phrases[i].0 && Unpaired((pre + [s])[i])
  {
    forall i | 0 <= i < |pre| + 1
      ensures (pre + [s])[i].segnum == phrases[i].0 && Unpaired((pre + [s])[i])
    {
      if i < |pre| {
        assert phrases[i] == ps[i];
      }
    }
  }

  /** The alignable ids are taken from the counter in segment order. */
  lemma {:induction false} ExtractAllIds(cfg: Config, slots: seq<TimeSlot>, phrases: Dict<Phrase>, count: nat)
    requires ExtractAll(cfg, slots, phrases, count).Ok?
    ensures var (segs, c) := ExtractAll(cfg, slots, phrases, count).value;
      count <= c && IdsAllocated(segs, count, c)
    decreases |phrases|
  {
    if phrases != [] {
      var n := |phrases| - 1;
      ExtractAllIds(cfg, slots, phrases[..n], count);
      var (pre, c1) := ExtractAll(cfg, slots, phrases[..n], count).value;
      ExtractOneFacts(cfg, slots, phrases[n].0, phrases[n].1, c1);
      var (s, c2) := ExtractOne(cfg, slots, phrases[n].0, phrases[n].1, c1).value;
      IdsAllocatedSnoc(pre, s, count, c1, c2);
    }
  }

  lemma IdsAllocatedSnoc(pre: seq<Segment>, s: Segment, lo: nat, mid: nat, hi: nat)
    requires IdsAllocated(pre, lo, mid) && lo <= mid <= hi
    requires s.alignable.Some? ==> mid <= s.alignable.value < hi
    ensures IdsAllocated(pre + [s], lo, hi)
  {
    var segs := pre + [s];
    forall i | 0 <= i < |segs| && segs[i].alignable.Some?
      ensures lo <= segs[i].alignable.value < hi
    {
      if i < |pre| {
        assert segs[i] == pre[i];
      }
    }
    assert forall i :: 0 <= i < |pre| ==> segs[i] == pre[i];
  }
}
