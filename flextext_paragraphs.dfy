/** The paragraphs the EAF-to-flextext direction makes from the annotation
    table.  Each entry gives one paragraph holding one phrase: its words (the
    tokenized text), then one item per child field (a `gls` item in the
    tier's translation language, else a note in the FLEx language), then
    three notes: "Phonetic" or "Target", the annotation id and the speaker.
    A field of a target-utterance tier that is not a translation is not a
    note: it makes the entry's text be tokenized in the child language and
    adds a second paragraph whose words are the target text in the main
    language, followed by the id note and a "Target" note. */
module FlexParagraphs {
  import opened Common
  import opened Dict
  import opened Flextext
  import opened Flexible
  import opened FlexAnnotations

  // ---------------------------------------------------------------------------
  // Notes

  /** A field of a target tier that is not a translation. */
  predicate IsTarget(e: (string, Field), targetTiers: seq<string>) {
    e.1.translation == "" && e.0 in targetTiers
  }

  /** The item a field that is not a target becomes: a `gls` item in its
      translation language, or a note in the FLEx language. */
  function NoteItem(f: Field, flexLanguage: string): Item {
    if f.translation != "" then Item("gls", Some(f.translation), f.text)
    else Item("note", Some(flexLanguage), f.text)
  }

  /** A note in the FLEx language. */
  function Note(text: string, flexLanguage: string): Item {
    Item("note", Some(flexLanguage), text)
  }

  /** The items of an entry's fields and the text of its target, if any. */
  datatype Notes = Notes(items: seq<Item>, target: Option<string>)

  /** The loop over an entry's fields in insertion order. */
  function Classify(fields: Dict<Field>, targetTiers: seq<string>, flexLanguage: string): Notes {
    if fields == [] then Notes([], None)
    else
      var n := |fields| - 1;
      var pre := Classify(fields[..n], targetTiers, flexLanguage);
      if IsTarget(fields[n], targetTiers) then pre.(target := Some(fields[n].1.text))
      else pre.(items := pre.items + [NoteItem(fields[n].1, flexLanguage)])
  }

  /** There is a target exactly when some field is a target field, and its
      text is that of the last such field. */
  lemma {:induction false} ClassifyTarget(fields: Dict<Field>, targetTiers: seq<string>, flexLanguage: string)
    ensures var r := Classify(fields, targetTiers, flexLanguage);
      && (r.target.Some? <==> exists i :: 0 <= i < |fields| && IsTarget(fields[i], targetTiers))
      && (r.target.Some? ==>
            exists i :: 0 <= i < |fields| && IsTarget(fields[i], targetTiers) && r.target.value == fields[i].1.text
              && forall j :: i < j < |fields| ==> !IsTarget(fields[j], targetTiers))
  {
    if fields != [] {
      var n := |fields| - 1;
      var pre := fields[..n];
      ClassifyTarget(pre, targetTiers, flexLanguage);
      assert forall i :: 0 <= i < n ==> pre[i] == fields[i];
      var r := Classify(fields, targetTiers, flexLanguage);
      if !IsTarget(fields[n], targetTiers) && r.target.Some? {
        var i :| 0 <= i < n && IsTarget(pre[i], targetTiers) && r.target.value == pre[i].1.text
          && forall j :: i < j < n ==> !IsTarget(pre[j], targetTiers);
        assert IsTarget(fields[i], targetTiers);
      }
    }
  }

  /** The item of each field that is not a target, in field order. */
  function NonTargetItems(fields: Dict<Field>, targetTiers: seq<string>, flexLanguage: string): seq<Item> {
    if fields == [] then []
    else
      (if IsTarget(fields[0], targetTiers) then [] else [NoteItem(fields[0].1, flexLanguage)])
        + NonTargetItems(fields[1..], targetTiers, flexLanguage)
  }

  /** Adding a field at the end adds its item, if any, at the end. */
  lemma {:induction false} NonTargetItemsSnoc(fields: Dict<Field>, e: (string, Field), targetTiers: seq<string>, flexLanguage: string)
    ensures NonTargetItems(fields + [e], targetTiers, flexLanguage)
      == NonTargetItems(fields, targetTiers, flexLanguage) + (if IsTarget(e, targetTiers) then [] else [NoteItem(e.1, flexLanguage)])
  {
    if fields != [] {
      assert (fields + [e])[1..] == fields[1..] + [e];
      NonTargetItemsSnoc(fields[1..], e, targetTiers, flexLanguage);
    }
  }

  /** The items are the items of the fields that are not targets, in field
      order and one per such field: each such field gives its item and every
      item comes from one; without a target field there is one item per
      field. */
  lemma {:induction false} ClassifyItems(fields: Dict<Field>, targetTiers: seq<string>, flexLanguage: string)
    ensures forall it :: it in Classify(fields, targetTiers, flexLanguage).items <==>
      exists i :: 0 <= i < |fields| && !IsTarget(fields[i], targetTiers) && it == NoteItem(fields[i].1, flexLanguage)
    ensures (forall i :: 0 <= i < |fields| ==> !IsTarget(fields[i], targetTiers)) ==>
      |Classify(fields, targetTiers, flexLanguage).items| == |fields|
      && forall i :: 0 <= i < |fields| ==> Classify(fields, targetTiers, flexLanguage).items[i] == NoteItem(fields[i].1, flexLanguage)
    ensures Classify(fields, targetTiers, flexLanguage).items == NonTargetItems(fields, targetTiers, flexLanguage)
  {
    if fields != [] {
      var n := |fields| - 1;
      var pre := fields[..n];
      ClassifyItems(pre, targetTiers, flexLanguage);
      assert forall i :: 0 <= i < n ==> pre[i] == fields[i];
      assert fields == pre + [fields[n]];
      NonTargetItemsSnoc(pre, fields[n], targetTiers, flexLanguage);
    }
  }

  /** The loop over the child fields of one entry. */
  method CollectNotes(fields: Dict<Field>, targetTiers: seq<string>, flexLanguage: string)
    returns (notes: seq<Item>, target: Option<string>)
    ensures Notes(notes, target) == Classify(fields, targetTiers, flexLanguage)
  {
    notes := [];
    target := None;
    for i := 0 to |fields|
      invariant Notes(notes, target) == Classify(fields[..i], targetTiers, flexLanguage)
    {
      assert fields[..i + 1][..i] == fields[..i];
      var (tierId, f) := fields[i];
      if f.translation != "" {
        notes := notes + [Item("gls", Some(f.translation), f.text)];
      } else if tierId in targetTiers {
        target := Some(f.text);
      } else {
        notes := notes + [Item("note", Some(flexLanguage), f.text)];
      }
    }
    assert fields[..|fields|] == fields;
  }

  // ---------------------------------------------------------------------------
  // One entry's paragraphs

  /** The configuration the paragraphs depend on.  The main and child
      languages are those of the word-forming table, so tokenizing in either
      one never raises. */
  datatype Style = Style(wordForming: WordForming, flexLanguage: string, mediaGuid: string)

  /** The attributes of an entry's phrases; the guid is not part of this model. */
  function PhraseAttrs(c: Content, mediaGuid: string): map<string, string> {
    map[BeginOffset := c.begin, EndOffset := c.end, "speaker" := c.speaker, "media-file" := mediaGuid]
  }

  /** Each attribute has the value it was given. */
  lemma PhraseAttrsAt(c: Content, mediaGuid: string)
    ensures var a := PhraseAttrs(c, mediaGuid);
      && a[BeginOffset] == c.begin && a[EndOffset] == c.end
      && a["speaker"] == c.speaker && a["media-file"] == mediaGuid
  {
    var a := PhraseAttrs(c, mediaGuid);
    assert |BeginOffset| == 17 && |EndOffset| == 15 && |"speaker"| == 7 && |"media-file"| == 10;
  }

  function AsChildren(items: seq<Item>): (r: seq<PhraseChild>)
    ensures |r| == |items| && forall i :: 0 <= i < |items| ==> r[i] == PhraseItem(items[i])
  {
    seq(|items|, i requires 0 <= i < |items| => PhraseItem(items[i]))
  }

  /** The words `add_word_el(tokenize(text, lg), phrase, lg)` appends in a
      language of the word-forming table. */
  function Utterance(text: string, w: WordForming, lg: string): seq<Word>
    requires lg == w.mainLanguage || lg == w.childLanguage
  {
    WordElements(Tokens(text, w, lg).value, CharsFor(w, lg).value, lg)
  }

  /** The three notes after the field items. */
  function MetaNotes(target: bool, aId: string, speaker: string, flexLanguage: string): seq<Item> {
    [Note(if target then "Target" else "Phonetic", flexLanguage), Note(aId, flexLanguage), Note(speaker, flexLanguage)]
  }

  /** The paragraphs of the entry aId. */
  function EntryParagraphs(st: Style, aId: string, c: Content, targetTiers: seq<string>): seq<Paragraph> {
    var w := st.wordForming;
    var ns := Classify(c.children, targetTiers, st.flexLanguage);
    var notes := ns.items + MetaNotes(ns.target.Some?, aId, c.speaker, st.flexLanguage);
    var attrs := PhraseAttrs(c, st.mediaGuid);
    if ns.target.Some? then
      [Paragraph(Phrase(attrs, [Words(Utterance(c.text, w, w.childLanguage))] + AsChildren(notes))),
       Paragraph(Phrase(attrs, [Words(Utterance(ns.target.value, w, w.mainLanguage)),
                                PhraseItem(Note(aId, st.flexLanguage)), PhraseItem(Note("Target", st.flexLanguage))]))]
    else
      [Paragraph(Phrase(attrs, [Words(Utterance(c.text, w, w.mainLanguage))] + AsChildren(notes)))]
  }

  lemma {:induction false} ItemChildren(items: seq<Item>)
    ensures DirectItemsOf(AsChildren(items)) == items
    ensures WordsOf(AsChildren(items)) == []
  {
    if items != [] {
      assert AsChildren(items)[1..] == AsChildren(items[1..]);
      ItemChildren(items[1..]);
      assert items == [items[0]] + items[1..];
    }
  }

  lemma PhraseOf(ws: seq<Word>, items: seq<Item>)
    ensures DirectItemsOf([Words(ws)] + AsChildren(items)) == items
    ensures WordsOf([Words(ws)] + AsChildren(items)) == ws
  {
    var cs := [Words(ws)] + AsChildren(items);
    assert cs[1..] == AsChildren(items);
    ItemChildren(items);
  }

  /** Read back through the phrase queries: an entry without a target gives one
      paragraph whose words are its text in the main language and whose items
      are the field items and the notes "Phonetic", aId and the speaker; with a
      target, the first paragraph has its text in the child language and the
      notes "Target", aId and the speaker, and a second paragraph has the
      target text in the main language and the notes aId and "Target".  Every
      phrase carries the entry's times, speaker and media guid. */
  lemma EntryParagraphsFacts(st: Style, aId: string, c: Content, targetTiers: seq<string>)
    ensures var ps := EntryParagraphs(st, aId, c, targetTiers);
      var ns := Classify(c.children, targetTiers, st.flexLanguage);
      var w := st.wordForming;
      && |ps| == (if ns.target.Some? then 2 else 1)
      && (forall p :: p in ps ==>
            && p.phrase.attrs[BeginOffset] == c.begin && p.phrase.attrs[EndOffset] == c.end
            && p.phrase.attrs["speaker"] == c.speaker && p.phrase.attrs["media-file"] == st.mediaGuid)
      && DirectItems(ps[0].phrase) == NonTargetItems(c.children, targetTiers, st.flexLanguage)
           + MetaNotes(ns.target.Some?, aId, c.speaker, st.flexLanguage)
      && PhraseWords(ps[0].phrase) == Utterance(c.text, w, if ns.target.Some? then w.childLanguage else w.mainLanguage)
      && (ns.target.Some? ==>
            && DirectItems(ps[1].phrase) == [Note(aId, st.flexLanguage), Note("Target", st.flexLanguage)]
            && PhraseWords(ps[1].phrase) == Utterance(ns.target.value, w, w.mainLanguage))
  {
    var w := st.wordForming;
    var ns := Classify(c.children, targetTiers, st.flexLanguage);
    var notes := ns.items + MetaNotes(ns.target.Some?, aId, c.speaker, st.flexLanguage);
    PhraseAttrsAt(c, st.mediaGuid);
    ClassifyItems(c.children, targetTiers, st.flexLanguage);
    PhraseOf(Utterance(c.text, w, if ns.target.Some? then w.childLanguage else w.mainLanguage), notes);
    if ns.target.Some? {
      var tail := [Note(aId, st.flexLanguage), Note("Target", st.flexLanguage)];
      PhraseOf(Utterance(ns.target.value, w, w.mainLanguage), tail);
      assert AsChildren(tail) == [PhraseItem(tail[0]), PhraseItem(tail[1])];
    }
  }

  /** `add_word_el(tokenize(text, lg), phrase, lg)` on a phrase without children. */
  method WordsPhrase(attrs: map<string, string>, text: string, w: WordForming, lg: string) returns (phrase: Phrase)
    requires lg == w.mainLanguage || lg == w.childLanguage
    ensures phrase == Phrase(attrs, [Words(Utterance(text, w, lg))])
  {
    var tokens := Tokenize(text, w, lg);
    var filled := AddWordEl(tokens.value, Phrase(attrs, []), w, lg);
    phrase := filled.value;
  }

  /** `for i in notes: phrase.append(i)`. */
  method AppendItems(phrase0: Phrase, items: seq<Item>) returns (phrase: Phrase)
    ensures phrase == Phrase(phrase0.attrs, phrase0.children + AsChildren(items))
  {
    phrase := phrase0;
    for i := 0 to |items|
      invariant phrase == Phrase(phrase0.attrs, phrase0.children + AsChildren(items[..i]))
    {
      assert AsChildren(items[..i + 1]) == AsChildren(items[..i]) + [PhraseItem(items[i])];
      phrase := phrase.(children := phrase.children + [PhraseItem(items[i])]);
    }
    assert items[..|items|] == items;
  }

  /** One iteration of the main loop: notes, then the phrase or phrases. */
  method MakeParagraphs(st: Style, aId: string, c: Content, targetTiers: seq<string>) returns (ps: seq<Paragraph>)
    ensures ps == EntryParagraphs(st, aId, c, targetTiers)
  {
    var w := st.wordForming;
    var fl := st.flexLanguage;
    var notes, target := CollectNotes(c.children, targetTiers, fl);
    ghost var ns := Classify(c.children, targetTiers, fl);
    notes := notes + [Note(if target.Some? then "Target" else "Phonetic", fl)];
    var idNote := Note(aId, fl);
    notes := notes + [idNote];
    notes := notes + [Note(c.speaker, fl)];
    assert notes == ns.items + MetaNotes(ns.target.Some?, aId, c.speaker, fl);
    var attrs := PhraseAttrs(c, st.mediaGuid);
    var lg := if target.Some? then w.childLanguage else w.mainLanguage;
    var phrase := WordsPhrase(attrs, c.text, w, lg);
    phrase := AppendItems(phrase, notes);
    ps := [Paragraph(phrase)];
    if target.Some? {
      var targetPhrase := WordsPhrase(attrs, target.value, w, w.mainLanguage);
      targetPhrase := targetPhrase.(children := targetPhrase.children + [PhraseItem(idNote)]);
      targetPhrase := targetPhrase.(children := targetPhrase.children + [PhraseItem(Note("Target", fl))]);
      assert targetPhrase.children == [Words(Utterance(ns.target.value, w, w.mainLanguage)),
                                       PhraseItem(Note(aId, fl)), PhraseItem(Note("Target", fl))];
      ps := ps + [Paragraph(targetPhrase)];
    }
  }

  // ---------------------------------------------------------------------------
  // The whole table

  /** The paragraphs f makes of each entry, concatenated in table order. */
  function Concat(d: Dict<Content>, f: (string, Content) -> seq<Paragraph>): seq<Paragraph> {
    if d == [] then []
    else
      var n := |d| - 1;
      Concat(d[..n], f) + f(d[n].0, d[n].1)
  }

  lemma {:induction false} ConcatFrom(d: Dict<Content>, f: (string, Content) -> seq<Paragraph>)
    ensures forall p :: p in Concat(d, f) <==> exists i :: 0 <= i < |d| && p in f(d[i].0, d[i].1)
  {
    if d != [] {
      var n := |d| - 1;
      ConcatFrom(d[..n], f);
      assert forall i :: 0 <= i < n ==> d[..n][i] == d[i];
    }
  }

  /** The paragraphs of all entries, in table order. */
  function Paragraphs(st: Style, d: Dict<Content>, targetTiers: seq<string>): seq<Paragraph> {
    Concat(d, (k, c) => EntryParagraphs(st, k, c, targetTiers))
  }

  /** A paragraph is made exactly when it is one of some entry's paragraphs. */
  lemma ParagraphsFrom(st: Style, d: Dict<Content>, targetTiers: seq<string>)
    ensures forall p :: p in Paragraphs(st, d, targetTiers) <==>
      exists i :: 0 <= i < |d| && p in EntryParagraphs(st, d[i].0, d[i].1, targetTiers)
  {
    ConcatFrom(d, (k, c) => EntryParagraphs(st, k, c, targetTiers));
  }

  /** Every entry yields at least one paragraph, one more when it has a target. */
  lemma {:induction false} ParagraphsCount(st: Style, d: Dict<Content>, targetTiers: seq<string>)
    ensures |Paragraphs(st, d, targetTiers)| == |d| + |TargetEntries(d, targetTiers, st.flexLanguage)|
  {
    if d != [] {
      var n := |d| - 1;
      ParagraphsCount(st, d[..n], targetTiers);
    }
  }

  /** The ids of the entries that have a target, in table order. */
  function TargetEntries(d: Dict<Content>, targetTiers: seq<string>, flexLanguage: string): seq<string> {
    if d == [] then []
    else
      var n := |d| - 1;
      TargetEntries(d[..n], targetTiers, flexLanguage)
        + if Classify(d[n].1.children, targetTiers, flexLanguage).target.Some? then [d[n].0] else []
  }

  /** The main loop over the table. */
  method BuildParagraphs(st: Style, d: Dict<Content>, targetTiers: seq<string>) returns (ps: seq<Paragraph>)
    ensures ps == Paragraphs(st, d, targetTiers)
  {
    ps := [];
    for i := 0 to |d|
      invariant ps == Paragraphs(st, d[..i], targetTiers)
    {
      assert d[..i + 1][..i] == d[..i];
      var more := MakeParagraphs(st, d[i].0, d[i].1, targetTiers);
      ps := ps + more;
    }
    assert d[..|d|] == d;
  }
}
