/** The first stage of the flextext-to-EAF script: every phrase of the flextext
    is filed under the text of its first child (its segment number), and the
    parts of a phrase that FLEx numbered "3.1", "3.2", ... are merged into one
    phrase "3". */
module EafMerge {
  import opened Common
  import opened Dict
  import opened Flextext

  // ---------------------------------------------------------------------------
  // all_phrases

  /** `phrase[0].text`: FLEx writes the segnum item as a phrase's first child.
      A phrase without children fails with IndexError; a first child that is a
      words element is outside this model and fails too. */
  function SegKey(p: Phrase): Result<string> {
    if p.children == [] then Err(IndexError("phrase[0]"))
    else if p.children[0].Words? then Err(MissingElement("phrase[0]"))
    else Ok(p.children[0].item.text)
  }

  /** Each phrase paired with its key, failing at the first phrase without one. */
  function Keyed(ps: seq<Phrase>): (r: Result<seq<(string, Phrase)>>)
    ensures r.Ok? <==> forall i :: 0 <= i < |ps| ==> SegKey(ps[i]).Ok?
    ensures r.Ok? ==> |r.value| == |ps| && forall i :: 0 <= i < |ps| ==> r.value[i] == (SegKey(ps[i]).value, ps[i])
  {
    if ps == [] then Ok([])
    else
      var n := |ps| - 1;
      assert forall i :: 0 <= i < n ==> ps[..n][i] == ps[i];
      var es :- Keyed(ps[..n]);
      var k :- SegKey(ps[n]);
      Ok(es + [(k, ps[n])])
  }

  /** `{phrase[0].text: phrase for phrase in flextext.findall(...)}` over every
      phrase element: keys in first-occurrence order, and a repeated key keeps
      its place but takes the later phrase. */
  function AllPhrases(ps: seq<Phrase>): Result<Dict<Phrase>> {
    var es :- Keyed(ps);
    Ok(PutAll([], es))
  }

  /** The phrase dict has one entry per distinct key, and a key holds the last
      phrase that carries it. */
  lemma AllPhrasesLastWins(ps: seq<Phrase>, i: nat, k: string)
    requires i < |ps| && SegKey(ps[i]) == Ok(k)
    requires forall j :: i < j < |ps| ==> SegKey(ps[j]) != Ok(k)
    ensures AllPhrases(ps).Ok? <==> forall j :: 0 <= j < |ps| ==> SegKey(ps[j]).Ok?
    ensures AllPhrases(ps).Ok? ==> Valid(AllPhrases(ps).value) && Get(AllPhrases(ps).value, k) == Some(ps[i])
  {
    if Keyed(ps).Ok? {
      var es := Keyed(ps).value;
      KeysPutAll([], es);
      GetPutAll([], es, k);
      assert Keys(es)[i] == k;
      LastValueAt(es, i);
    }
  }

  /** Every phrase's key, and nothing else, is a key of the phrase dict. */
  lemma AllPhrasesKeys(ps: seq<Phrase>, k: string)
    requires AllPhrases(ps).Ok?
    ensures k in Keys(AllPhrases(ps).value) <==> exists i :: 0 <= i < |ps| && SegKey(ps[i]) == Ok(k)
  {
    var es := Keyed(ps).value;
    KeysPutAll([], es);
    if k in Keys(es) {
      var i :| 0 <= i < |es| && Keys(es)[i] == k;
      assert SegKey(ps[i]) == Ok(k);
    }
    if exists i :: 0 <= i < |ps| && SegKey(ps[i]) == Ok(k) {
      var i :| 0 <= i < |ps| && SegKey(ps[i]) == Ok(k);
      assert Keys(es)[i] == k;
    }
  }

  // ---------------------------------------------------------------------------
  // combined_phrases

  /** The phrases, in dict order, whose key has the given prefix before its
      first ".". */
  function Members(d: Dict<Phrase>, prefix: string): seq<Phrase> {
    if d == [] then []
    else
      var n := |d| - 1;
      Members(d[..n], prefix) + (if BeforeDot(d[n].0) == prefix then [d[n].1] else [])
  }

  /** The key prefixes in first-occurrence order. */
  function Prefixes(d: Dict<Phrase>): seq<string> {
    if d == [] then []
    else
      var n := |d| - 1;
      var p := BeforeDot(d[n].0);
      if p in Prefixes(d[..n]) then Prefixes(d[..n]) else Prefixes(d[..n]) + [p]
  }

  /** What the grouping loop builds, one key at a time. */
  function Grouped(d: Dict<Phrase>): Dict<seq<Phrase>> {
    if d == [] then []
    else
      var n := |d| - 1;
      var g := Grouped(d[..n]);
      var p := BeforeDot(d[n].0);
      match Get(g, p)
      case None => Put(g, p, [d[n].1])
      case Some(vs) => Put(g, p, vs + [d[n].1])
  }

  /** The groups are the prefixes in first-occurrence order. */
  lemma {:induction false} GroupedKeys(d: Dict<Phrase>)
    ensures Keys(Grouped(d)) == Prefixes(d)
    decreases |d|
  {
    if d != [] {
      var n := |d| - 1;
      GroupedKeys(d[..n]);
      var g := Grouped(d[..n]);
      var p := BeforeDot(d[n].0);
      var v := if Get(g, p).None? then [d[n].1] else Get(g, p).value + [d[n].1];
      assert Grouped(d) == Put(g, p, v);
      PutKeys(g, p, v);
    }
  }

  /** Each group holds exactly the phrases with its prefix, in order. */
  lemma {:induction false} GroupedMembers(d: Dict<Phrase>, prefix: string)
    ensures Get(Grouped(d), prefix) == if Members(d, prefix) == [] then None else Some(Members(d, prefix))
    decreases |d|
  {
    if d != [] {
      var n := |d| - 1;
      var g := Grouped(d[..n]);
      var p := BeforeDot(d[n].0);
      GroupedMembers(d[..n], prefix);
      if p == prefix {
        var v := if Get(g, p).None? then [d[n].1] else Get(g, p).value + [d[n].1];
        assert Grouped(d) == Put(g, p, v);
        GetPut(g, p, v, prefix);
        assert Members(d, prefix) == Members(d[..n], prefix) + [d[n].1];
        if Members(d[..n], prefix) == [] {
          assert v == Members(d, prefix);
        }
      } else {
        var v := if Get(g, p).None? then [d[n].1] else Get(g, p).value + [d[n].1];
        assert Grouped(d) == Put(g, p, v);
        GetPut(g, p, v, prefix);
        assert Members(d, prefix) == Members(d[..n], prefix);
      }
    }
  }

  lemma {:induction false} PrefixesDistinct(d: Dict<Phrase>)
    ensures Distinct(Prefixes(d))
    decreases |d|
  {
    if d != [] {
      PrefixesDistinct(d[..|d| - 1]);
    }
  }

  /** `combined_phrases`, built by the script's loop. */
  method Group(d: Dict<Phrase>) returns (g: Dict<seq<Phrase>>)
    ensures g == Grouped(d)
  {
    g := [];
    for i := 0 to |d|
      invariant g == Grouped(d[..i])
    {
      assert d[..i + 1][..i] == d[..i];
      var p := BeforeDot(d[i].0);
      if p !in Keys(g) {
        g := Put(g, p, [d[i].1]);
      } else {
        g := Put(g, p, Get(g, p).value + [d[i].1]);
      }
    }
    assert d[..|d|] == d;
  }

  // ---------------------------------------------------------------------------
  // Merging the parts of one phrase

  /** `extra_tier.findall(".//item[@type!='segnum']")`: ElementTree selects only
      items that carry a type attribute (an absent type is "" here). */
  function CopiedItems(items: seq<Item>): (r: seq<Item>)
    ensures forall x :: x in r <==> x in items && x.itemType != "" && x.itemType != "segnum"
  {
    if items == [] then []
    else (if items[0].itemType != "" && items[0].itemType != "segnum" then [items[0]] else []) + CopiedItems(items[1..])
  }

  function AsChildren(items: seq<Item>): (r: seq<PhraseChild>)
    ensures |r| == |items| && forall i :: 0 <= i < |items| ==> r[i] == PhraseItem(items[i])
  {
    seq(|items|, i requires 0 <= i < |items| => PhraseItem(items[i]))
  }

  /** The words of `phrase.find(".//words")`, or none where there is no words
      element. */
  function FirstWords(cs: seq<PhraseChild>): seq<Word> {
    match FirstWordsIndex(cs)
    case None => []
    case Some(i) => cs[i].words
  }

  lemma {:induction false} DirectItemsUpdate(cs: seq<PhraseChild>, i: nat, ws: seq<Word>)
    requires i < |cs| && cs[i].Words?
    ensures DirectItemsOf(cs[i := Words(ws)]) == DirectItemsOf(cs)
    decreases |cs|
  {
    if i > 0 {
      assert cs[i := Words(ws)][1..] == cs[1..][i - 1 := Words(ws)];
      DirectItemsUpdate(cs[1..], i - 1, ws);
    }
  }

  lemma DirectItemsConcat(a: seq<PhraseChild>, b: seq<PhraseChild>)
    ensures DirectItemsOf(a + b) == DirectItemsOf(a) + DirectItemsOf(b)
  {
    if a != [] {
      assert (a + b)[1..] == a[1..] + b;
      DirectItemsConcat(a[1..], b);
    } else {
      assert a + b == b;
    }
  }

  lemma {:induction false} DirectItemsOfItems(items: seq<Item>)
    ensures DirectItemsOf(AsChildren(items)) == items
    decreases |items|
  {
    if items != [] {
      assert AsChildren(items)[1..] == AsChildren(items[1..]);
      DirectItemsOfItems(items[1..]);
    }
  }

  lemma FirstWordsConcat(a: seq<PhraseChild>, items: seq<Item>)
    ensures FirstWords(a + AsChildren(items)) == FirstWords(a)
    ensures FirstWordsIndex(a + AsChildren(items)) == FirstWordsIndex(a)
  {
    var c := a + AsChildren(items);
    assert forall j :: 0 <= j < |a| ==> c[j] == a[j];
    assert forall j :: |a| <= j < |c| ==> !c[j].Words?;
  }

  lemma {:induction false} FirstWordsIndexAt(cs: seq<PhraseChild>, i: nat)
    requires i < |cs| && cs[i].Words? && forall j :: 0 <= j < i ==> !cs[j].Words?
    ensures FirstWordsIndex(cs) == Some(i)
    decreases i
  {
    if i > 0 {
      FirstWordsIndexAt(cs[1..], i - 1);
    }
  }

  /** `for word in extra_tier.find(".//words"): full_tier.find(".//words").append(word)`:
      nothing happens for no words; otherwise the first words element takes
      them at its end, and the script fails where there is none. */
  function AppendWords(cs: seq<PhraseChild>, ws: seq<Word>): (r: Result<seq<PhraseChild>>)
    ensures r.Ok? <==> ws == [] || FirstWordsIndex(cs).Some?
    ensures r.Ok? ==> |r.value| == |cs| && FirstWordsIndex(r.value) == FirstWordsIndex(cs)
    ensures r.Ok? ==> FirstWords(r.value) == FirstWords(cs) + ws
    ensures r.Ok? ==> DirectItemsOf(r.value) == DirectItemsOf(cs)
  {
    if ws == [] then
      assert FirstWords(cs) + ws == FirstWords(cs);
      Ok(cs)
    else
      match FirstWordsIndex(cs)
      case None => Err(MissingElement(".//words"))
      case Some(i) =>
        var r := cs[i := Words(cs[i].words + ws)];
        DirectItemsUpdate(cs, i, cs[i].words + ws);
        FirstWordsIndexAt(r, i);
        Ok(r)
  }

  /** Merging one later part into the phrase: its words go after the words of
      the phrase, then its typed non-segnum descendant items become direct
      children. A later part without a words element fails (the script
      iterates None). */
  function MergeStep(full: Phrase, extra: Phrase): Result<Phrase> {
    match FirstWordsIndex(extra.children)
    case None => Err(MissingElement(".//words"))
    case Some(ei) =>
      var cs :- AppendWords(full.children, extra.children[ei].words);
      Ok(Phrase(full.attrs, cs + AsChildren(CopiedItems(DescendantItems(extra)))))
  }

  function MergeRest(full: Phrase, extras: seq<Phrase>): Result<Phrase>
    decreases |extras|
  {
    if extras == [] then Ok(full)
    else
      var f :- MergeStep(full, extras[0]);
      MergeRest(f, extras[1..])
  }

  /** The merged phrase: the first part with the attributes of the last part
      and its first segnum item set to the prefix, merged with every later
      part in order. The script fails where the first part has no segnum
      item. */
  function Merged(parts: seq<Phrase>, segnum: string): Result<Phrase>
    requires |parts| >= 1
  {
    match SetInChildren(parts[0].children, segnum)
    case None => Err(MissingElement(".//item[@type='segnum']"))
    case Some(cs) => MergeRest(Phrase(parts[|parts| - 1].attrs, cs), parts[1..])
  }

  /** The words of the later parts, in order. */
  function LaterWords(extras: seq<Phrase>): seq<Word> {
    if extras == [] then [] else FirstWords(extras[0].children) + LaterWords(extras[1..])
  }

  /** The items the later parts contribute, in order. */
  function LaterItems(extras: seq<Phrase>): seq<Item> {
    if extras == [] then [] else CopiedItems(DescendantItems(extras[0])) + LaterItems(extras[1..])
  }

  /** One merge step keeps the attributes and the position of the first
      words element, appends the part's words there and its items at the end. */
  lemma MergeStepFacts(full: Phrase, e: Phrase)
    ensures MergeStep(full, e).Ok? <==>
      FirstWordsIndex(e.children).Some? && (FirstWords(e.children) != [] ==> FirstWordsIndex(full.children).Some?)
    ensures MergeStep(full, e).Ok? ==>
      MergeStep(full, e).value.attrs == full.attrs
      && MergeStep(full, e).value.children
         == AppendWords(full.children, FirstWords(e.children)).value + AsChildren(CopiedItems(DescendantItems(e)))
  {
  }

  lemma AppendWordsTwice(cs: seq<PhraseChild>, ws: seq<Word>, more: seq<Word>)
    requires AppendWords(cs, ws).Ok?
    ensures AppendWords(cs, ws + more).Ok? <==> AppendWords(AppendWords(cs, ws).value, more).Ok?
    ensures AppendWords(cs, ws + more).Ok? ==> AppendWords(cs, ws + more) == AppendWords(AppendWords(cs, ws).value, more)
  {
    if ws == [] {
      assert ws + more == more;
    } else if more == [] {
      assert ws + more == ws;
    } else {
      var i := FirstWordsIndex(cs).value;
      var a := cs[i := Words(cs[i].words + ws)];
      assert AppendWords(cs, ws).value == a;
      assert FirstWordsIndex(a) == Some(i);
      assert a[i].words + more == cs[i].words + (ws + more);
      assert a[i := Words(a[i].words + more)] == cs[i := Words(cs[i].words + (ws + more))];
    }
  }

  lemma AppendWordsPast(cs: seq<PhraseChild>, tail: seq<PhraseChild>, ws: seq<Word>)
    requires forall j :: 0 <= j < |tail| ==> !tail[j].Words?
    ensures AppendWords(cs + tail, ws).Ok? <==> AppendWords(cs, ws).Ok?
    ensures AppendWords(cs, ws).Ok? ==> AppendWords(cs + tail, ws).value == AppendWords(cs, ws).value + tail
  {
    var c := cs + tail;
    assert forall j :: 0 <= j < |cs| ==> c[j] == cs[j];
    if ws != [] {
      match FirstWordsIndex(cs)
      case None =>
        assert forall j :: 0 <= j < |c| ==> !c[j].Words?;
      case Some(i) =>
        FirstWordsIndexAt(c, i);
        assert c[i := Words(c[i].words + ws)] == cs[i := Words(cs[i].words + ws)] + tail;
    }
  }

  lemma AsChildrenConcat(a: seq<Item>, b: seq<Item>)
    ensures AsChildren(a + b) == AsChildren(a) + AsChildren(b)
  {
  }

  lemma ChildrenAlgebra(c0: seq<PhraseChild>, w0: seq<Word>, items: seq<Item>, ws: seq<Word>,
                        more: seq<Item>, mc: seq<PhraseChild>)
    requires AppendWords(c0, w0).Ok?
    requires AppendWords(AppendWords(c0, w0).value + AsChildren(items), ws).Ok?
    requires mc == AppendWords(AppendWords(c0, w0).value + AsChildren(items), ws).value + AsChildren(more)
    ensures AppendWords(c0, w0 + ws).Ok?
    ensures mc == AppendWords(c0, w0 + ws).value + AsChildren(items + more)
  {
    var aw := AppendWords(c0, w0).value;
    AppendWordsPast(aw, AsChildren(items), ws);
    AppendWordsTwice(c0, w0, ws);
    AsChildrenConcat(items, more);
  }

  /** Merging later parts succeeds exactly when every later part has a words
      element and, if any of them brings words, the phrase has one too. */
  lemma {:induction false} MergeRestOk(full: Phrase, extras: seq<Phrase>)
    ensures MergeRest(full, extras).Ok? <==>
      (forall j :: 0 <= j < |extras| ==> FirstWordsIndex(extras[j].children).Some?)
      && (LaterWords(extras) != [] ==> FirstWordsIndex(full.children).Some?)
    decreases |extras|
  {
    if extras != [] {
      var e := extras[0];
      if MergeStep(full, e).Ok? {
        MergeRestOk(MergeStep(full, e).value, extras[1..]);
      }
      MergeRestOkStep(full, extras);
    }
  }

  /** Every part of `extras` has a words element. */
  predicate AllHaveWords(extras: seq<Phrase>) {
    forall j :: 0 <= j < |extras| ==> FirstWordsIndex(extras[j].children).Some?
  }

  lemma AllHaveWordsCons(extras: seq<Phrase>)
    requires extras != []
    ensures AllHaveWords(extras) <==> FirstWordsIndex(extras[0].children).Some? && AllHaveWords(extras[1..])
  {
    assert forall j :: 1 <= j < |extras| ==> extras[1..][j - 1] == extras[j];
  }

  /** The induction step of `MergeRestOk`. */
  lemma MergeRestOkStep(full: Phrase, extras: seq<Phrase>)
    requires extras != []
    requires MergeStep(full, extras[0]).Ok? ==>
      var f := MergeStep(full, extras[0]).value;
      (MergeRest(f, extras[1..]).Ok? <==>
         AllHaveWords(extras[1..]) && (LaterWords(extras[1..]) != [] ==> FirstWordsIndex(f.children).Some?))
    ensures MergeRest(full, extras).Ok? <==>
      AllHaveWords(extras) && (LaterWords(extras) != [] ==> FirstWordsIndex(full.children).Some?)
  {
    var e := extras[0];
    var rest := extras[1..];
    AllHaveWordsCons(extras);
    MergeStepFacts(full, e);
    assert LaterWords(extras) == FirstWords(e.children) + LaterWords(rest);
    assert MergeRest(full, extras) == if MergeStep(full, e).Err? then Err(MergeStep(full, e).error)
                                      else MergeRest(MergeStep(full, e).value, rest);
    if MergeStep(full, e).Ok? {
      FirstWordsConcat(AppendWords(full.children, FirstWords(e.children)).value, CopiedItems(DescendantItems(e)));
    }
  }

  /** A successful merge keeps the attributes; the phrase's first words
      element is followed by every later part's words, and the later parts'
      items follow the phrase's own children. */
  lemma {:induction false} MergeRestShape(full: Phrase, extras: seq<Phrase>)
    requires MergeRest(full, extras).Ok?
    ensures AppendWords(full.children, LaterWords(extras)).Ok?
    ensures MergeRest(full, extras).value.attrs == full.attrs
    ensures MergeRest(full, extras).value.children
         == AppendWords(full.children, LaterWords(extras)).value + AsChildren(LaterItems(extras))
    decreases |extras|
  {
    if extras == [] {
      assert full.children + AsChildren([]) == full.children;
    } else {
      var e := extras[0];
      var rest := extras[1..];
      MergeStepFacts(full, e);
      var w0 := FirstWords(e.children);
      var items := CopiedItems(DescendantItems(e));
      var f := MergeStep(full, e).value;
      assert MergeRest(full, extras) == MergeRest(f, rest);
      MergeRestShape(f, rest);
      ChildrenAlgebra(full.children, w0, items, LaterWords(rest), LaterItems(rest), MergeRest(f, rest).value.children);
      assert LaterWords(extras) == w0 + LaterWords(rest);
      assert LaterItems(extras) == items + LaterItems(rest);
    }
  }

  /** The merge loop for one group, updating the first part. */
  method MergeParts(parts: seq<Phrase>, segnum: string) returns (r: Result<Phrase>)
    requires |parts| >= 1
    ensures r == Merged(parts, segnum)
  {
    var full := parts[0];
    full := full.(attrs := parts[|parts| - 1].attrs);
    var withSegnum := SetInChildren(full.children, segnum);
    if withSegnum.None? {
      return Err(MissingElement(".//item[@type='segnum']"));
    }
    full := full.(children := withSegnum.value);
    var i := 1;
    while i < |parts|
      invariant 1 <= i <= |parts|
      invariant MergeRest(full, parts[i..]) == Merged(parts, segnum)
    {
      MergeRestAt(full, parts, i);
      var step := MergeStep(full, parts[i]);
      if step.Err? {
        return Err(step.error);
      }
      full := step.value;
      i := i + 1;
    }
    assert parts[i..] == [];
    return Ok(full);
  }

  /** One turn of the merge loop. */
  lemma MergeRestAt(full: Phrase, parts: seq<Phrase>, i: nat)
    requires i < |parts|
    ensures MergeStep(full, parts[i]).Err? ==> MergeRest(full, parts[i..]) == Err(MergeStep(full, parts[i]).error)
    ensures MergeStep(full, parts[i]).Ok? ==>
      MergeRest(full, parts[i..]) == MergeRest(MergeStep(full, parts[i]).value, parts[i + 1..])
  {
    assert parts[i..][0] == parts[i] && parts[i..][1..] == parts[i + 1..];
  }

  /** After merging, the phrase holds the last part's attributes; its
      children are the first part's, with the first segnum item among their
      descendant items set to the prefix and the later parts' words appended
      to the first words element, followed by the later parts' typed
      non-segnum items. It fails exactly when the first part has no segnum
      item, a later part has no words element, or later words have no words
      element to go to. */
  lemma MergedFacts(parts: seq<Phrase>, segnum: string)
    requires |parts| >= 1
    ensures SetInChildren(parts[0].children, segnum).Some? <==> SetInItems(DescendantItems(parts[0]), segnum).Some?
    ensures SetInChildren(parts[0].children, segnum).Some? ==>
      ChildrenItems(SetInChildren(parts[0].children, segnum).value) == SetInItems(DescendantItems(parts[0]), segnum).value
    ensures Merged(parts, segnum).Ok? <==>
      SetInChildren(parts[0].children, segnum).Some?
      && (forall j :: 1 <= j < |parts| ==> FirstWordsIndex(parts[j].children).Some?)
      && (LaterWords(parts[1..]) != [] ==> FirstWordsIndex(SetInChildren(parts[0].children, segnum).value).Some?)
    ensures Merged(parts, segnum).Ok? ==>
      Merged(parts, segnum).value.attrs == parts[|parts| - 1].attrs
      && Merged(parts, segnum).value.children
         == AppendWords(SetInChildren(parts[0].children, segnum).value, LaterWords(parts[1..])).value
            + AsChildren(LaterItems(parts[1..]))
  {
    SetInChildrenFlat(parts[0].children, segnum);
    assert forall j :: 1 <= j < |parts| ==> parts[1..][j - 1] == parts[j];
    match SetInChildren(parts[0].children, segnum)
    case None =>
    case Some(cs) =>
      var full := Phrase(parts[|parts| - 1].attrs, cs);
      MergeRestOk(full, parts[1..]);
      if MergeRest(full, parts[1..]).Ok? {
        MergeRestShape(full, parts[1..]);
      }
  }

  // ---------------------------------------------------------------------------
  // phrases

  /** The phrase a group becomes: a lone part unchanged, several parts merged. */
  function GroupPhrase(segnum: string, parts: seq<Phrase>): Result<Phrase>
    requires parts != []
  {
    if |parts| > 1 then Merged(parts, segnum) else Ok(parts[0])
  }

  /** The outcome for each group, under its key. */
  function GroupResults(g: Dict<seq<Phrase>>): (r: seq<(string, Result<Phrase>)>)
    requires forall i :: 0 <= i < |g| ==> g[i].1 != []
    ensures |r| == |g|
    ensures forall i :: 0 <= i < |g| ==> r[i] == (g[i].0, GroupPhrase(g[i].0, g[i].1))
  {
    seq(|g|, i requires 0 <= i < |g| => (g[i].0, GroupPhrase(g[i].0, g[i].1)))
  }

  /** Keyed outcomes gathered into a dictionary; the first failure is the
      outcome of the whole. */
  function Collect<V>(rs: seq<(string, Result<V>)>): (r: Result<Dict<V>>)
    ensures r.Ok? <==> forall i :: 0 <= i < |rs| ==> rs[i].1.Ok?
    ensures r.Ok? ==> |r.value| == |rs|
    ensures r.Ok? ==> forall i :: 0 <= i < |rs| ==> r.value[i] == (rs[i].0, rs[i].1.value)
  {
    if rs == [] then Ok([])
    else
      var n := |rs| - 1;
      assert forall i :: 0 <= i < n ==> rs[..n][i] == rs[i];
      match Collect(rs[..n])
      case Err(e) => Err(e)
      case Ok(d) =>
        match rs[n].1
        case Err(e) => Err(e)
        case Ok(p) => Ok(d + [(rs[n].0, p)])
  }

  /** A failure on a prefix is the failure of the whole. */
  lemma {:induction false} CollectErr<V>(rs: seq<(string, Result<V>)>, i: nat)
    requires i <= |rs| && Collect(rs[..i]).Err?
    ensures Collect(rs) == Collect(rs[..i])
    decreases |rs| - i
  {
    if i == |rs| {
      assert rs[..i] == rs;
    } else {
      assert rs[..i + 1][..i] == rs[..i];
      CollectErr(rs, i + 1);
    }
  }

  /** Every group turned into its phrase, keys kept in order. */
  function MergeAll(g: Dict<seq<Phrase>>): (r: Result<Dict<Phrase>>)
    requires forall i :: 0 <= i < |g| ==> g[i].1 != []
    ensures r.Ok? <==> forall i :: 0 <= i < |g| ==> GroupPhrase(g[i].0, g[i].1).Ok?
    ensures r.Ok? ==> Keys(r.value) == Keys(g)
    ensures r.Ok? ==> forall i :: 0 <= i < |g| ==> r.value[i].1 == GroupPhrase(g[i].0, g[i].1).value
  {
    var rs := GroupResults(g);
    var r := Collect(rs);
    assert r.Ok? <==> forall i :: 0 <= i < |g| ==> rs[i].1.Ok?;
    r
  }

  /** The loop over the groups with several parts, followed by `{k: v[0]}`. */
  method MergeGroups(g: Dict<seq<Phrase>>) returns (r: Result<Dict<Phrase>>)
    requires forall i :: 0 <= i < |g| ==> g[i].1 != []
    ensures r == MergeAll(g)
  {
    ghost var rs := GroupResults(g);
    var d: Dict<Phrase> := [];
    for i := 0 to |g|
      invariant Collect(rs[..i]) == Ok(d)
    {
      assert rs[..i + 1][..i] == rs[..i];
      var p: Result<Phrase>;
      if |g[i].1| > 1 {
        p := MergeParts(g[i].1, g[i].0);
      } else {
        p := Ok(g[i].1[0]);
      }
      assert rs[..i + 1][i] == (g[i].0, p);
      if p.Err? {
        CollectErr(rs, i + 1);
        return Err(p.error);
      }
      d := d + [(g[i].0, p.value)];
    }
    assert rs[..|g|] == rs;
    return Ok(d);
  }

  /** Every group holds at least one phrase. */
  lemma GroupsNonEmpty(d: Dict<Phrase>)
    ensures forall i :: 0 <= i < |Grouped(d)| ==> Grouped(d)[i].1 != []
  {
    var g := Grouped(d);
    GroupedKeys(d);
    PrefixesDistinct(d);
    assert Valid(g);
    forall i | 0 <= i < |g| ensures g[i].1 != [] {
      GetAt(g, i);
      GroupedMembers(d, g[i].0);
    }
  }
}
