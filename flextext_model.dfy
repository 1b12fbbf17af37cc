/** The FLEx interlinear-text (flextext) tree, as far as the converters read and
    write it: a phrase holds `item` children and a `words` element; a word holds
    `item` children and a `morphemes` element; a morph holds `item` children.
    The functions below are the ElementTree path queries the scripts use. */
module Flextext {
  import opened Common

  /** `<item type=.. lang=..>text</item>`; an absent type attribute is "". */
  datatype Item = Item(itemType: string, lang: Option<string>, text: string)

  /** `<morph type=..>` and its items. */
  datatype Morph = Morph(morphType: Option<string>, items: seq<Item>)

  datatype WordChild = WordItem(item: Item) | Morphemes(morphs: seq<Morph>)

  datatype Word = Word(children: seq<WordChild>)

  datatype PhraseChild = PhraseItem(item: Item) | Words(words: seq<Word>)

  /** `<phrase ...attrs>` with its children in document order. */
  datatype Phrase = Phrase(attrs: map<string, string>, children: seq<PhraseChild>)

  /** `<paragraph><phrases><phrase/></phrases></paragraph>`: every paragraph the
      converter writes holds exactly one phrase. */
  datatype Paragraph = Paragraph(phrase: Phrase)

  const BeginOffset := "begin-time-offset"
  const EndOffset := "end-time-offset"

  // ---------------------------------------------------------------------------
  // Item lists

  /** The items of a given type, in order (`item[@type=t]`). */
  function ItemsOfType(items: seq<Item>, t: string): (r: seq<Item>)
    ensures |r| <= |items|
    ensures forall x :: x in r <==> x in items && x.itemType == t
  {
    if items == [] then []
    else (if items[0].itemType == t then [items[0]] else []) + ItemsOfType(items[1..], t)
  }

  /** The filter keeps document order: it distributes over concatenation. */
  lemma {:induction false} ItemsOfTypeConcat(a: seq<Item>, b: seq<Item>, t: string)
    ensures ItemsOfType(a + b, t) == ItemsOfType(a, t) + ItemsOfType(b, t)
    decreases |a|
  {
    if a == [] {
      assert a + b == b;
    } else {
      assert (a + b)[0] == a[0] && (a + b)[1..] == a[1..] + b;
      ItemsOfTypeConcat(a[1..], b, t);
    }
  }

  /** A single item is kept exactly when it has the type. */
  lemma ItemsOfTypeOne(x: Item, t: string)
    ensures ItemsOfType([x], t) == if x.itemType == t then [x] else []
  {
    assert [x][1..] == [];
  }

  /** The items whose type differs from t (`item[@type!=t]`). */
  function ItemsNotOfType(items: seq<Item>, t: string): (r: seq<Item>)
    ensures forall x :: x in r <==> x in items && x.itemType != t
  {
    if items == [] then []
    else (if items[0].itemType != t then [items[0]] else []) + ItemsNotOfType(items[1..], t)
  }

  /** `find("item[@type=t]")`. */
  function FirstOfType(items: seq<Item>, t: string): (r: Option<Item>)
    ensures r.Some? <==> exists x :: x in items && x.itemType == t
    ensures r.Some? ==> r.value in items && r.value.itemType == t
  {
    if items == [] then None
    else if items[0].itemType == t then Some(items[0])
    else FirstOfType(items[1..], t)
  }

  /** `find("item[@lang=l]")`. */
  function FirstOfLang(items: seq<Item>, l: string): (r: Option<Item>)
    ensures r.Some? <==> exists x :: x in items && x.lang == Some(l)
    ensures r.Some? ==> r.value in items && r.value.lang == Some(l)
  {
    if items == [] then None
    else if items[0].lang == Some(l) then Some(items[0])
    else FirstOfLang(items[1..], l)
  }

  // ---------------------------------------------------------------------------
  // Descendants in document order (`.//item`, `.//word`, `.//morph`)

  function MorphsItems(ms: seq<Morph>): seq<Item> {
    if ms == [] then [] else ms[0].items + MorphsItems(ms[1..])
  }

  function WordChildItems(c: WordChild): seq<Item> {
    match c
    case WordItem(it) => [it]
    case Morphemes(ms) => MorphsItems(ms)
  }

  function WordChildrenItems(cs: seq<WordChild>): seq<Item> {
    if cs == [] then [] else WordChildItems(cs[0]) + WordChildrenItems(cs[1..])
  }

  function WordsItems(ws: seq<Word>): seq<Item> {
    if ws == [] then [] else WordChildrenItems(ws[0].children) + WordsItems(ws[1..])
  }

  function PhraseChildItems(c: PhraseChild): seq<Item> {
    match c
    case PhraseItem(it) => [it]
    case Words(ws) => WordsItems(ws)
  }

  function ChildrenItems(cs: seq<PhraseChild>): seq<Item> {
    if cs == [] then [] else PhraseChildItems(cs[0]) + ChildrenItems(cs[1..])
  }

  /** `phrase.findall(".//item")`. */
  function DescendantItems(p: Phrase): seq<Item> {
    ChildrenItems(p.children)
  }

  function DirectItemsOf(cs: seq<PhraseChild>): seq<Item> {
    if cs == [] then []
    else (if cs[0].PhraseItem? then [cs[0].item] else []) + DirectItemsOf(cs[1..])
  }

  /** `phrase.findall("./item")`. */
  function DirectItems(p: Phrase): seq<Item> {
    DirectItemsOf(p.children)
  }

  function WordsOf(cs: seq<PhraseChild>): seq<Word> {
    if cs == [] then []
    else (if cs[0].Words? then cs[0].words else []) + WordsOf(cs[1..])
  }

  /** `phrase.findall(".//word")`. */
  function PhraseWords(p: Phrase): seq<Word> {
    WordsOf(p.children)
  }

  /** Position of `phrase.find(".//words")`, the first words element. */
  function FirstWordsIndex(cs: seq<PhraseChild>): (r: Option<nat>)
    ensures r.Some? ==> r.value < |cs| && cs[r.value].Words?
    ensures r.Some? ==> forall j :: 0 <= j < r.value ==> !cs[j].Words?
    ensures r.None? ==> forall j :: 0 <= j < |cs| ==> !cs[j].Words?
  {
    if cs == [] then None
    else if cs[0].Words? then Some(0)
    else match FirstWordsIndex(cs[1..])
      case None => None
      case Some(i) => Some(i + 1)
  }

  function WordItemsOf(cs: seq<WordChild>): seq<Item> {
    if cs == [] then []
    else (if cs[0].WordItem? then [cs[0].item] else []) + WordItemsOf(cs[1..])
  }

  /** `word.findall("./item")`. */
  function WordItems(w: Word): seq<Item> {
    WordItemsOf(w.children)
  }

  function MorphsOf(cs: seq<WordChild>): seq<Morph> {
    if cs == [] then []
    else (if cs[0].Morphemes? then cs[0].morphs else []) + MorphsOf(cs[1..])
  }

  /** `word.findall(".//morph")`. */
  function WordMorphs(w: Word): seq<Morph> {
    MorphsOf(w.children)
  }

  /** `phrase.findall(".//word/item[@type='txt']")`: the txt items directly
      under the phrase's words. */
  function TxtItems(ws: seq<Word>): seq<Item> {
    if ws == [] then [] else ItemsOfType(WordItems(ws[0]), "txt") + TxtItems(ws[1..])
  }

  function Texts(items: seq<Item>): (r: seq<string>)
    ensures |r| == |items| && forall i :: 0 <= i < |items| ==> r[i] == items[i].text
  {
    seq(|items|, i requires 0 <= i < |items| => items[i].text)
  }

  // ---------------------------------------------------------------------------
  // `phrase.find(".//item[@type='segnum']").text = s`: the first segnum item in
  // document order gets the new text; None where there is no segnum item.

  function SetInItems(items: seq<Item>, s: string): (r: Option<seq<Item>>)
  {
    if items == [] then None
    else if items[0].itemType == "segnum" then Some([items[0].(text := s)] + items[1..])
    else match SetInItems(items[1..], s)
      case None => None
      case Some(t) => Some([items[0]] + t)
  }

  function SetInMorphs(ms: seq<Morph>, s: string): Option<seq<Morph>> {
    if ms == [] then None
    else match SetInItems(ms[0].items, s)
      case Some(t) => Some([ms[0].(items := t)] + ms[1..])
      case None =>
        match SetInMorphs(ms[1..], s)
        case None => None
        case Some(t) => Some([ms[0]] + t)
  }

  function SetInWordChild(c: WordChild, s: string): Option<WordChild> {
    match c
    case WordItem(it) => if it.itemType == "segnum" then Some(WordItem(it.(text := s))) else None
    case Morphemes(ms) =>
      match SetInMorphs(ms, s)
      case None => None
      case Some(t) => Some(Morphemes(t))
  }

  function SetInWordChildren(cs: seq<WordChild>, s: string): Option<seq<WordChild>> {
    if cs == [] then None
    else match SetInWordChild(cs[0], s)
      case Some(c) => Some([c] + cs[1..])
      case None =>
        match SetInWordChildren(cs[1..], s)
        case None => None
        case Some(t) => Some([cs[0]] + t)
  }

  function SetInWords(ws: seq<Word>, s: string): Option<seq<Word>> {
    if ws == [] then None
    else match SetInWordChildren(ws[0].children, s)
      case Some(t) => Some([Word(t)] + ws[1..])
      case None =>
        match SetInWords(ws[1..], s)
        case None => None
        case Some(t) => Some([ws[0]] + t)
  }

  function SetInPhraseChild(c: PhraseChild, s: string): Option<PhraseChild> {
    match c
    case PhraseItem(it) => if it.itemType == "segnum" then Some(PhraseItem(it.(text := s))) else None
    case Words(ws) =>
      match SetInWords(ws, s)
      case None => None
      case Some(t) => Some(Words(t))
  }

  function SetInChildren(cs: seq<PhraseChild>, s: string): (r: Option<seq<PhraseChild>>)
  {
    if cs == [] then None
    else match SetInPhraseChild(cs[0], s)
      case Some(c) => Some([c] + cs[1..])
      case None =>
        match SetInChildren(cs[1..], s)
        case None => None
        case Some(t) => Some([cs[0]] + t)
  }

  // ---------------------------------------------------------------------------
  // The nested search agrees with the search over the flattened item list.

  /** Only the first segnum item changes, and it gets the new text. */
  lemma {:induction false} SetInItemsAt(items: seq<Item>, s: string) returns (i: nat)
    requires SetInItems(items, s).Some?
    ensures i < |items| && items[i].itemType == "segnum"
    ensures forall j :: 0 <= j < i ==> items[j].itemType != "segnum"
    ensures SetInItems(items, s).value == items[i := items[i].(text := s)]
    decreases |items|
  {
    if items[0].itemType == "segnum" {
      i := 0;
    } else {
      var k := SetInItemsAt(items[1..], s);
      i := k + 1;
    }
  }

  /** Setting the first segnum item of a + b: in a if a has one, else in b. */
  predicate ConcatLaw(a: seq<Item>, b: seq<Item>, s: string) {
    && (SetInItems(a, s).Some? ==> SetInItems(a + b, s) == Some(SetInItems(a, s).value + b))
    && (SetInItems(a, s).None? && SetInItems(b, s).None? ==> SetInItems(a + b, s).None?)
    && (SetInItems(a, s).None? && SetInItems(b, s).Some? ==> SetInItems(a + b, s) == Some(a + SetInItems(b, s).value))
  }

  /** There is a segnum item to set exactly when the list has one. */
  lemma {:induction false} SetInItemsSome(items: seq<Item>, s: string)
    ensures SetInItems(items, s).Some? <==> exists i :: 0 <= i < |items| && items[i].itemType == "segnum"
    decreases |items|
  {
    if items != [] && items[0].itemType != "segnum" {
      SetInItemsSome(items[1..], s);
      assert forall i :: 0 < i < |items| ==> items[1..][i - 1] == items[i];
    }
  }

  lemma {:induction false} SetInItemsConcat(a: seq<Item>, b: seq<Item>, s: string)
    ensures ConcatLaw(a, b, s)
    decreases |a|
  {
    if a == [] {
      assert a + b == b;
      if SetInItems(b, s).Some? {
        assert a + SetInItems(b, s).value == SetInItems(b, s).value;
      }
    } else {
      assert [a[0]] + a[1..] == a;
      if a[0].itemType == "segnum" {
        SegnumHead(a[0], a[1..], b, s);
      } else {
        SetInItemsConcat(a[1..], b, s);
        SkipHead(a[0], a[1..], b, s);
      }
    }
  }

  lemma SegnumHead(x: Item, r: seq<Item>, b: seq<Item>, s: string)
    requires x.itemType == "segnum"
    ensures ConcatLaw([x] + r, b, s)
  {
    assert ([x] + r) + b == [x] + (r + b);
    assert ([x] + (r + b))[1..] == r + b;
    assert ([x] + r)[1..] == r;
    assert [x.(text := s)] + (r + b) == ([x.(text := s)] + r) + b;
  }

  lemma SkipHead(x: Item, r: seq<Item>, b: seq<Item>, s: string)
    requires x.itemType != "segnum" && ConcatLaw(r, b, s)
    ensures ConcatLaw([x] + r, b, s)
  {
    assert ([x] + r) + b == [x] + (r + b);
    SkipCons(x, r, s);
    SkipCons(x, r + b, s);
    if SetInItems(r, s).Some? {
      var t := SetInItems(r, s).value;
      assert [x] + (t + b) == ([x] + t) + b;
    } else if SetInItems(b, s).Some? {
      var t := SetInItems(b, s).value;
      assert [x] + (r + t) == ([x] + r) + t;
    }
  }

  lemma SkipCons(x: Item, r: seq<Item>, s: string)
    requires x.itemType != "segnum"
    ensures SetInItems([x] + r, s) == if SetInItems(r, s).None? then None else Some([x] + SetInItems(r, s).value)
  {
    assert ([x] + r)[1..] == r;
  }

  lemma {:induction false} SetInMorphsFlat(ms: seq<Morph>, s: string)
    ensures SetInMorphs(ms, s).Some? <==> SetInItems(MorphsItems(ms), s).Some?
    ensures SetInMorphs(ms, s).Some? ==> MorphsItems(SetInMorphs(ms, s).value) == SetInItems(MorphsItems(ms), s).value
    decreases |ms|
  {
    if ms != [] {
      SetInItemsConcat(ms[0].items, MorphsItems(ms[1..]), s);
      SetInMorphsFlat(ms[1..], s);
      match SetInItems(ms[0].items, s)
      case Some(t) =>
        assert ([ms[0].(items := t)] + ms[1..])[1..] == ms[1..];
      case None =>
        match SetInMorphs(ms[1..], s)
        case None =>
        case Some(t) => assert ([ms[0]] + t)[1..] == t;
    }
  }

  lemma SetInWordChildFlat(c: WordChild, s: string)
    ensures SetInWordChild(c, s).Some? <==> SetInItems(WordChildItems(c), s).Some?
    ensures SetInWordChild(c, s).Some? ==> WordChildItems(SetInWordChild(c, s).value) == SetInItems(WordChildItems(c), s).value
  {
    match c
    case WordItem(it) =>
      assert [it][1..] == [];
    case Morphemes(ms) => SetInMorphsFlat(ms, s);
  }

  lemma {:induction false} SetInWordChildrenFlat(cs: seq<WordChild>, s: string)
    ensures SetInWordChildren(cs, s).Some? <==> SetInItems(WordChildrenItems(cs), s).Some?
    ensures SetInWordChildren(cs, s).Some? ==> WordChildrenItems(SetInWordChildren(cs, s).value) == SetInItems(WordChildrenItems(cs), s).value
    decreases |cs|
  {
    if cs != [] {
      SetInItemsConcat(WordChildItems(cs[0]), WordChildrenItems(cs[1..]), s);
      SetInWordChildFlat(cs[0], s);
      SetInWordChildrenFlat(cs[1..], s);
      match SetInWordChild(cs[0], s)
      case Some(c) => assert ([c] + cs[1..])[1..] == cs[1..];
      case None =>
        match SetInWordChildren(cs[1..], s)
        case None =>
        case Some(t) => assert ([cs[0]] + t)[1..] == t;
    }
  }

  lemma {:induction false} SetInWordsFlat(ws: seq<Word>, s: string)
    ensures SetInWords(ws, s).Some? <==> SetInItems(WordsItems(ws), s).Some?
    ensures SetInWords(ws, s).Some? ==> WordsItems(SetInWords(ws, s).value) == SetInItems(WordsItems(ws), s).value
    decreases |ws|
  {
    if ws != [] {
      SetInItemsConcat(WordChildrenItems(ws[0].children), WordsItems(ws[1..]), s);
      SetInWordChildrenFlat(ws[0].children, s);
      SetInWordsFlat(ws[1..], s);
      match SetInWordChildren(ws[0].children, s)
      case Some(t) => assert ([Word(t)] + ws[1..])[1..] == ws[1..];
      case None =>
        match SetInWords(ws[1..], s)
        case None =>
        case Some(t) => assert ([ws[0]] + t)[1..] == t;
    }
  }

  lemma SetInPhraseChildFlat(c: PhraseChild, s: string)
    ensures SetInPhraseChild(c, s).Some? <==> SetInItems(PhraseChildItems(c), s).Some?
    ensures SetInPhraseChild(c, s).Some? ==> PhraseChildItems(SetInPhraseChild(c, s).value) == SetInItems(PhraseChildItems(c), s).value
  {
    match c
    case PhraseItem(it) =>
      assert [it][1..] == [];
    case Words(ws) => SetInWordsFlat(ws, s);
  }

  /** Setting the first segnum item of a phrase's children is setting the
      first segnum item of the phrase's descendant items (`.//item`). */
  lemma {:induction false} SetInChildrenFlat(cs: seq<PhraseChild>, s: string)
    ensures SetInChildren(cs, s).Some? <==> SetInItems(ChildrenItems(cs), s).Some?
    ensures SetInChildren(cs, s).Some? ==> ChildrenItems(SetInChildren(cs, s).value) == SetInItems(ChildrenItems(cs), s).value
    decreases |cs|
  {
    if cs != [] {
      SetInItemsConcat(PhraseChildItems(cs[0]), ChildrenItems(cs[1..]), s);
      SetInPhraseChildFlat(cs[0], s);
      SetInChildrenFlat(cs[1..], s);
      match SetInPhraseChild(cs[0], s)
      case Some(c) => assert ([c] + cs[1..])[1..] == cs[1..];
      case None =>
        match SetInChildren(cs[1..], s)
        case None =>
        case Some(t) => assert ([cs[0]] + t)[1..] == t;
    }
  }
}
