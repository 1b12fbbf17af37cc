/** The helper library shared by both converters: tokenizing an utterance by a
    language's word-forming characters, filling a phrase with word elements,
    reading and minting time slots, removing constrained tiers, and appending a
    symbolic-association annotation while counting annotation ids.

    The compiled regular expression `([^chars])` of each language is modelled
    by the predicate `chars` that holds of the language's word-forming
    characters. */
module Flexible {
  import opened Common
  import opened Dict
  import opened Flextext
  import opened Elan

  // ---------------------------------------------------------------------------
  // Word-forming character sets

  /** The `word_forming` table: one character set for the main language and
      one for the child language. */
  datatype WordForming = WordForming(mainLanguage: string, mainChars: char -> bool,
                                     childLanguage: string, childChars: char -> bool)

  /** `word_forming[lg]`.  The table is a dict literal whose second key is the
      child language, so where the two languages coincide the child set wins. */
  function CharsFor(w: WordForming, lg: string): (r: Result<char -> bool>)
    ensures r.Ok? <==> lg == w.mainLanguage || lg == w.childLanguage
    ensures lg == w.childLanguage ==> r == Ok(w.childChars)
    ensures lg == w.mainLanguage && lg != w.childLanguage ==> r == Ok(w.mainChars)
  {
    if lg == w.childLanguage then Ok(w.childChars)
    else if lg == w.mainLanguage then Ok(w.mainChars)
    else Err(KeyError(lg))
  }

  // ---------------------------------------------------------------------------
  // tokenize

  /** `re.split("([^chars])", s)`: maximal runs of word-forming characters
      (possibly empty) alternating with the single characters that separate
      them, which the capture group keeps. */
  function Fragments(s: string, wf: char -> bool): seq<string> {
    if s == [] then [""]
    else if !wf(s[0]) then ["", [s[0]]] + Fragments(s[1..], wf)
    else
      var t := Fragments(s[1..], wf);
      [[s[0]] + t[0]] + t[1..]
  }

  /** Fragments that alternate: an odd number of them, word-forming runs at
      the even positions, single separators at the odd ones. */
  ghost predicate Alternating(r: seq<string>, wf: char -> bool) {
    && |r| % 2 == 1
    && (forall i :: 0 <= i < |r| && i % 2 == 1 ==> |r[i]| == 1 && !wf(r[i][0]))
    && (forall i, j :: 0 <= i < |r| && i % 2 == 0 && 0 <= j < |r[i]| ==> wf(r[i][j]))
  }

  /** What `re.split` gives alternates. */
  lemma {:induction false} FragmentsShape(s: string, wf: char -> bool)
    ensures Alternating(Fragments(s, wf), wf)
  {
    if s != [] {
      FragmentsShape(s[1..], wf);
      if !wf(s[0]) {
        AlternatingSep(s[0], Fragments(s[1..], wf), wf);
      } else {
        AlternatingRun(s[0], Fragments(s[1..], wf), wf);
      }
    }
  }

  lemma AlternatingSep(c: char, t: seq<string>, wf: char -> bool)
    requires !wf(c) && Alternating(t, wf)
    ensures Alternating(["", [c]] + t, wf)
  {
    var r := ["", [c]] + t;
    assert forall i :: 2 <= i < |r| ==> r[i] == t[i - 2] && (i % 2 == (i - 2) % 2);
  }

  lemma AlternatingRun(c: char, t: seq<string>, wf: char -> bool)
    requires wf(c) && Alternating(t, wf)
    ensures Alternating([[c] + t[0]] + t[1..], wf)
  {
    var r := [[c] + t[0]] + t[1..];
    assert forall i :: 1 <= i < |r| ==> r[i] == t[i];
    forall j | 0 <= j < |r[0]|
      ensures wf(r[0][j])
    {
      if j > 0 {
        assert r[0][j] == t[0][j - 1];
      }
    }
  }

  function Concat(parts: seq<string>): string {
    if parts == [] then "" else parts[0] + Concat(parts[1..])
  }

  /** Splitting loses nothing: the fragments put back together are the input. */
  lemma {:induction false} FragmentsConcat(s: string, wf: char -> bool)
    ensures Concat(Fragments(s, wf)) == s
  {
    if s != [] {
      var t := Fragments(s[1..], wf);
      FragmentsConcat(s[1..], wf);
      if !wf(s[0]) {
        assert (["", [s[0]]] + t)[1..] == [[s[0]]] + t;
        assert ([[s[0]]] + t)[1..] == t;
      } else {
        assert t == [t[0]] + t[1..];
        assert ([[s[0]] + t[0]] + t[1..])[1..] == t[1..];
      }
    }
  }

  function StripAll(parts: seq<string>): (r: seq<string>)
    ensures |r| == |parts| && forall i :: 0 <= i < |parts| ==> r[i] == Strip(parts[i])
  {
    seq(|parts|, i requires 0 <= i < |parts| => Strip(parts[i]))
  }

  function NonEmpty(parts: seq<string>): seq<string> {
    if parts == [] then []
    else (if parts[0] != "" then [parts[0]] else []) + NonEmpty(parts[1..])
  }

  /** `NonEmpty` keeps exactly the non-empty parts. */
  lemma {:induction false} NonEmptyIn(parts: seq<string>)
    ensures forall x :: x in NonEmpty(parts) <==> x in parts && x != ""
  {
    if parts != [] {
      NonEmptyIn(parts[1..]);
      assert parts == [parts[0]] + parts[1..];
    }
  }

  /** `[j for j in [i.strip() for i in split(phrase)] if j]`. */
  function RawTokens(phrase: string, wf: char -> bool): seq<string> {
    NonEmpty(StripAll(Fragments(phrase, wf)))
  }

  /** Every raw token is non-empty and neither starts nor ends with space. */
  lemma RawTokensStripped(phrase: string, wf: char -> bool)
    ensures forall t :: t in RawTokens(phrase, wf) ==>
      t != "" && !IsSpace(t[0]) && !IsSpace(t[|t| - 1])
  {
    var fs := Fragments(phrase, wf);
    NonEmptyIn(StripAll(fs));
    forall t | t in RawTokens(phrase, wf)
      ensures t != "" && !IsSpace(t[0]) && !IsSpace(t[|t| - 1])
    {
      var i :| 0 <= i < |fs| && StripAll(fs)[i] == t;
      StripEnds(fs[i]);
    }
  }

  /** The token loop: `"."` tokens accumulate in `pending`; any other token
      first flushes a pending run as `" " + run`, then is kept.  A run still
      pending when the tokens end is dropped. */
  function Coalesce(tokens: seq<string>, pending: string): seq<string> {
    if tokens == [] then []
    else if tokens[0] == "." then Coalesce(tokens[1..], pending + ".")
    else (if pending != "" then [" " + pending] else []) + [tokens[0]] + Coalesce(tokens[1..], "")
  }

  /** `tokenize(phrase, lg)`; a falsy phrase gives no tokens without looking
      the language up. */
  function Tokens(phrase: string, w: WordForming, lg: string): Result<seq<string>> {
    if phrase == "" then Ok([])
    else
      var wf :- CharsFor(w, lg);
      Ok(Coalesce(RawTokens(phrase, wf), ""))
  }

  method Tokenize(phrase: string, w: WordForming, lg: string) returns (r: Result<seq<string>>)
    ensures r == Tokens(phrase, w, lg)
    ensures phrase == "" ==> r == Ok([])
  {
    if phrase == "" {
      return Ok([]);
    }
    var chars := CharsFor(w, lg);
    if chars.Err? {
      return Err(chars.error);
    }
    var tokens := RawTokens(phrase, chars.value);
    var collected := CoalesceTokens(tokens);
    return Ok(collected);
  }

  /** The token loop of `tokenize`. */
  method CoalesceTokens(tokens: seq<string>) returns (collected: seq<string>)
    ensures collected == Coalesce(tokens, "")
  {
    collected := [];
    var punct := "";
    var i := 0;
    while i < |tokens|
      invariant 0 <= i <= |tokens|
      invariant collected + Coalesce(tokens[i..], punct) == Coalesce(tokens, "")
    {
      var token := tokens[i];
      CoalesceTurn(collected, tokens, i, punct);
      if token == "." {
        punct := punct + token;
      } else {
        if punct != "" {
          collected := collected + [" " + punct];
        }
        collected := collected + [token];
        punct := "";
      }
      i := i + 1;
    }
    assert Coalesce(tokens[i..], punct) == [];
  }

  /** One turn of the token loop keeps its invariant. */
  lemma CoalesceTurn(collected: seq<string>, tokens: seq<string>, i: nat, pending: string)
    requires i < |tokens| && collected + Coalesce(tokens[i..], pending) == Coalesce(tokens, "")
    ensures tokens[i] == "." ==> collected + Coalesce(tokens[i + 1..], pending + ".") == Coalesce(tokens, "")
    ensures tokens[i] != "." && pending != "" ==>
      (collected + [" " + pending]) + [tokens[i]] + Coalesce(tokens[i + 1..], "") == Coalesce(tokens, "")
    ensures tokens[i] != "." && pending == "" ==>
      collected + [tokens[i]] + Coalesce(tokens[i + 1..], "") == Coalesce(tokens, "")
  {
    var t := tokens[i];
    var rest := tokens[i + 1..];
    assert tokens[i..][0] == t && tokens[i..][1..] == rest;
    if t == "." {
      assert Coalesce(tokens[i..], pending) == Coalesce(rest, pending + ".");
    } else if pending != "" {
      assert Coalesce(tokens[i..], pending) == [" " + pending] + [t] + Coalesce(rest, "");
      assert collected + ([" " + pending] + [t] + Coalesce(rest, ""))
          == (collected + [" " + pending]) + [t] + Coalesce(rest, "");
    } else {
      assert Coalesce(tokens[i..], pending) == [] + [t] + Coalesce(rest, "");
      assert [] + [t] + Coalesce(rest, "") == [t] + Coalesce(rest, "");
      assert collected + ([t] + Coalesce(rest, "")) == collected + [t] + Coalesce(rest, "");
    }
  }

  /** No token is empty, and none is a lone `"."`. */
  lemma {:induction false} CoalesceClean(tokens: seq<string>, pending: string)
    requires forall t :: t in tokens ==> t != ""
    ensures forall t :: t in Coalesce(tokens, pending) ==> t != "" && t != "."
  {
    if tokens != [] {
      assert forall t :: t in tokens[1..] ==> t in tokens;
      assert tokens[0] in tokens;
      var p := if tokens[0] == "." then pending + "." else "";
      CoalesceClean(tokens[1..], p);
      assert (" " + pending)[0] == ' ';
    }
  }

  lemma TokensClean(phrase: string, w: WordForming, lg: string)
    ensures Tokens(phrase, w, lg).Ok? ==>
      forall t :: t in Tokens(phrase, w, lg).value ==> t != "" && t != "."
  {
    if phrase != "" && CharsFor(w, lg).Ok? {
      var wf := CharsFor(w, lg).value;
      RawTokensStripped(phrase, wf);
      CoalesceClean(RawTokens(phrase, wf), "");
    }
  }

  /** A run of k `"."` tokens only extends the pending run. */
  lemma {:induction false} CoalesceDots(k: nat, rest: seq<string>, pending: string)
    ensures Coalesce(Repeat(".", k) + rest, pending) == Coalesce(rest, pending + Dots(k))
    decreases k
  {
    if k == 0 {
      assert Repeat(".", k) + rest == rest;
      assert pending + Dots(k) == pending;
    } else {
      assert (Repeat(".", k) + rest)[1..] == Repeat(".", k - 1) + rest;
      CoalesceDots(k - 1, rest, pending + ".");
      assert pending + "." + Dots(k - 1) == pending + Dots(k);
    }
  }

  /** k consecutive `"."` tokens followed by another token t yield exactly
      `" " + "."*k` immediately before t (nothing when k is 0). */
  lemma CoalesceRun(k: nat, t: string, rest: seq<string>)
    requires t != "."
    ensures Coalesce(Repeat(".", k) + [t] + rest, "")
         == (if k > 0 then [" " + Dots(k)] else []) + [t] + Coalesce(rest, "")
  {
    assert Repeat(".", k) + [t] + rest == Repeat(".", k) + ([t] + rest);
    CoalesceDots(k, [t] + rest, "");
    assert "" + Dots(k) == Dots(k);
    assert ([t] + rest)[1..] == rest;
  }

  /** `"."` tokens at the end of the input are not emitted. */
  lemma {:induction false} CoalesceTrailing(ts: seq<string>, k: nat, pending: string)
    ensures Coalesce(ts + Repeat(".", k), pending) == Coalesce(ts, pending)
    decreases |ts|
  {
    if ts == [] {
      assert ts + Repeat(".", k) == Repeat(".", k) + [];
      CoalesceDots(k, [], pending);
    } else {
      assert (ts + Repeat(".", k))[1..] == ts[1..] + Repeat(".", k);
      var p := if ts[0] == "." then pending + "." else "";
      CoalesceTrailing(ts[1..], k, p);
    }
  }

  function DropRuns(ts: seq<string>): seq<string> {
    if ts == [] then []
    else (if ts[0] != "" && ts[0][0] == ' ' then [] else [ts[0]]) + DropRuns(ts[1..])
  }

  function NonDots(ts: seq<string>): seq<string> {
    if ts == [] then [] else (if ts[0] == "." then [] else [ts[0]]) + NonDots(ts[1..])
  }

  /** Apart from the inserted `" ..."` runs, the output is exactly the input
      tokens other than `"."`, in order. */
  lemma {:induction false} CoalesceKeepsTokens(ts: seq<string>, pending: string)
    requires forall t :: t in ts ==> t != "" && t[0] != ' '
    ensures DropRuns(Coalesce(ts, pending)) == NonDots(ts)
  {
    if ts != [] {
      assert forall t :: t in ts[1..] ==> t in ts;
      if ts[0] == "." {
        CoalesceKeepsTokens(ts[1..], pending + ".");
      } else {
        CoalesceKeepsTokens(ts[1..], "");
        var run := if pending != "" then [" " + pending] else [];
        DropRunsAppend(run, [ts[0]] + Coalesce(ts[1..], ""));
        DropRunsAppend([ts[0]], Coalesce(ts[1..], ""));
        assert run + [ts[0]] + Coalesce(ts[1..], "") == run + ([ts[0]] + Coalesce(ts[1..], ""));
      }
    }
  }

  lemma {:induction false} DropRunsAppend(a: seq<string>, b: seq<string>)
    ensures DropRuns(a + b) == DropRuns(a) + DropRuns(b)
  {
    if a == [] {
      assert a + b == b;
    } else {
      var h := if a[0] != "" && a[0][0] == ' ' then [] else [a[0]];
      assert (a + b)[0] == a[0] && (a + b)[1..] == a[1..] + b;
      assert DropRuns(a + b) == h + DropRuns(a[1..] + b);
      DropRunsAppend(a[1..], b);
      assert DropRuns(a) == h + DropRuns(a[1..]);
      assert h + (DropRuns(a[1..]) + DropRuns(b)) == (h + DropRuns(a[1..])) + DropRuns(b);
    }
  }

  lemma TokensKeepWords(phrase: string, w: WordForming, lg: string)
    requires phrase != "" && CharsFor(w, lg).Ok?
    ensures DropRuns(Tokens(phrase, w, lg).value) == NonDots(RawTokens(phrase, CharsFor(w, lg).value))
  {
    var wf := CharsFor(w, lg).value;
    RawTokensStripped(phrase, wf);
    forall t | t in RawTokens(phrase, wf) ensures t != "" && t[0] != ' ' {
      assert !IsSpace(t[0]);
    }
    CoalesceKeepsTokens(RawTokens(phrase, wf), "");
  }

  // ---------------------------------------------------------------------------
  // add_word_el

  /** `word_forming[lg].search(token)`: the token holds a character outside
      the language's word-forming set. */
  predicate HasNonWordForming(t: string, wf: char -> bool) {
    exists j :: 0 <= j < |t| && !wf(t[j])
  }

  function TokenWord(t: string, wf: char -> bool, lg: string): Word {
    Word([WordItem(Item(if HasNonWordForming(t, wf) then "punct" else "txt", Some(lg), t))])
  }

  /** One word per token, in token order, each holding a single item in
      language lg whose text is the token; the item is typed "punct" exactly
      when the token holds a non-word-forming character, else "txt". */
  function WordElements(tokens: seq<string>, wf: char -> bool, lg: string): (r: seq<Word>)
    ensures |r| == |tokens|
    ensures forall i :: 0 <= i < |tokens| ==>
      |r[i].children| == 1 && r[i].children[0].WordItem?
      && r[i].children[0].item.text == tokens[i] && r[i].children[0].item.lang == Some(lg)
      && (r[i].children[0].item.itemType == "punct" <==> HasNonWordForming(tokens[i], wf))
      && (r[i].children[0].item.itemType == "txt" <==> !HasNonWordForming(tokens[i], wf))
  {
    seq(|tokens|, i requires 0 <= i < |tokens| => TokenWord(tokens[i], wf, lg))
  }

  /** `add_word_el(tokens, phrase, lg)`: the phrase with one `words` element
      appended after its existing children; KeyError for an unknown language,
      raised before anything is added. */
  method AddWordEl(tokens: seq<string>, phrase: Phrase, w: WordForming, lg: string) returns (r: Result<Phrase>)
    ensures r.Err? <==> CharsFor(w, lg).Err?
    ensures r.Ok? ==>
      r.value == Phrase(phrase.attrs, phrase.children + [Words(WordElements(tokens, CharsFor(w, lg).value, lg))])
  {
    var chars := CharsFor(w, lg);
    if chars.Err? {
      return Err(chars.error);
    }
    var wf := chars.value;
    var words: seq<Word> := [];
    for i := 0 to |tokens|
      invariant words == WordElements(tokens[..i], wf, lg)
    {
      var token := tokens[i];
      var itemType := if HasNonWordForming(token, wf) then "punct" else "txt";
      words := words + [Word([WordItem(Item(itemType, Some(lg), token))])];
      assert WordElements(tokens[..i + 1], wf, lg) == WordElements(tokens[..i], wf, lg) + [TokenWord(token, wf, lg)];
    }
    assert tokens[..|tokens|] == tokens;
    return Ok(Phrase(phrase.attrs, phrase.children + [Words(words)]));
  }

  // ---------------------------------------------------------------------------
  // time_values

  /** `{slot.TIME_SLOT_ID: slot.TIME_VALUE for slot in slots}`; a slot
      without a value raises KeyError. */
  function TimeValues(slots: seq<InSlot>): (r: Result<map<string, string>>)
    ensures r.Ok? <==> forall i :: 0 <= i < |slots| ==> slots[i].value.Some?
    ensures r.Ok? ==> forall id :: id in r.value <==> exists i :: 0 <= i < |slots| && slots[i].id == id
  {
    if slots == [] then Ok(map[])
    else
      var n := |slots| - 1;
      var m :- TimeValues(slots[..n]);
      assert forall i :: 0 <= i < n ==> slots[..n][i] == slots[i];
      if slots[n].value.None? then Err(KeyError("TIME_VALUE"))
      else Ok(m[slots[n].id := slots[n].value.value])
  }

  /** Where several slots share an id, the last one's value is kept. */
  lemma {:induction false} TimeValuesLastWins(slots: seq<InSlot>, i: nat)
    requires i < |slots| && TimeValues(slots).Ok?
    requires forall j :: i < j < |slots| ==> slots[j].id != slots[i].id
    ensures TimeValues(slots).value[slots[i].id] == slots[i].value.value
    decreases |slots|
  {
    var n := |slots| - 1;
    if i < n {
      assert slots[..n][i] == slots[i];
      TimeValuesLastWins(slots[..n], i);
    }
  }

  // ---------------------------------------------------------------------------
  // make_times

  predicate HasOffsets(p: Phrase) {
    BeginOffset in p.attrs && EndOffset in p.attrs
  }

  /** The phrases that carry both offsets, in order: the ones that get slots. */
  function Timed(phrases: seq<Phrase>): (r: seq<Phrase>)
    ensures |r| <= |phrases|
  {
    if phrases == [] then []
    else
      var n := |phrases| - 1;
      Timed(phrases[..n]) + (if HasOffsets(phrases[n]) then [phrases[n]] else [])
  }

  /** Every timed phrase has both offsets. */
  lemma {:induction false} TimedOffsets(phrases: seq<Phrase>)
    ensures forall j :: 0 <= j < |Timed(phrases)| ==> HasOffsets(Timed(phrases)[j])
  {
    if phrases != [] {
      TimedOffsets(phrases[..|phrases| - 1]);
    }
  }

  function SlotId(n: nat): string {
    "ts" + NatToString(n)
  }

  /** An attribute of a phrase, or "" when it is absent. */
  function Attr(p: Phrase, key: string): (v: string)
    ensures key in p.attrs ==> v == p.attrs[key]
  {
    if key in p.attrs then p.attrs[key] else ""
  }

  /** The slots minted for the timed phrases: numbers 2j+1 and 2j+2 for the
      j-th. */
  function SlotPairs(ts: seq<Phrase>): (r: seq<TimeSlot>)
    ensures |r| == 2 * |ts|
  {
    if ts == [] then []
    else
      var n := |ts| - 1;
      SlotPairs(ts[..n]) + SlotPair(n, ts[n])
  }

  /** The begin and end slots of the j-th timed phrase. */
  function SlotPair(j: nat, p: Phrase): seq<TimeSlot> {
    [TimeSlot(SlotId(2 * j + 1), Attr(p, BeginOffset)), TimeSlot(SlotId(2 * j + 2), Attr(p, EndOffset))]
  }

  lemma {:induction false} SlotPairsAt(ts: seq<Phrase>, j: nat)
    requires j < |ts|
    ensures SlotPairs(ts)[2 * j] == SlotPair(j, ts[j])[0]
    ensures SlotPairs(ts)[2 * j + 1] == SlotPair(j, ts[j])[1]
  {
    var n := |ts| - 1;
    var pre := SlotPairs(ts[..n]);
    var last := SlotPair(n, ts[n]);
    assert SlotPairs(ts) == pre + last;
    if j < n {
      SlotPairsAt(ts[..n], j);
      assert ts[..n][j] == ts[j];
      assert SlotPairs(ts)[2 * j] == pre[2 * j] && SlotPairs(ts)[2 * j + 1] == pre[2 * j + 1];
    } else {
      assert SlotPairs(ts)[2 * j] == last[0] && SlotPairs(ts)[2 * j + 1] == last[1];
    }
  }

  lemma {:induction false} SlotPairsIds(ts: seq<Phrase>, k: nat)
    requires k < 2 * |ts|
    ensures SlotPairs(ts)[k].id == SlotId(k + 1)
  {
    var n := |ts| - 1;
    if k < 2 * n {
      SlotPairsIds(ts[..n], k);
    }
  }

  /** `make_times`: a begin slot `ts(2j+1)` and an end slot `ts(2j+2)` for
      the j-th phrase that has both offsets; phrases missing either offset add
      nothing and use no number.  All slot ids differ. */
  method MakeTimes(phrases: seq<Phrase>) returns (slots: seq<TimeSlot>)
    ensures slots == SlotPairs(Timed(phrases))
    ensures |slots| == 2 * |Timed(phrases)|
    ensures forall j :: 0 <= j < |Timed(phrases)| ==>
      HasOffsets(Timed(phrases)[j])
      && slots[2 * j] == TimeSlot(SlotId(2 * j + 1), Timed(phrases)[j].attrs[BeginOffset])
      && slots[2 * j + 1] == TimeSlot(SlotId(2 * j + 2), Timed(phrases)[j].attrs[EndOffset])
    ensures forall a, b :: 0 <= a < b < |slots| ==> slots[a].id != slots[b].id
  {
    slots := [];
    var tsN := 1;
    ghost var ts: seq<Phrase> := [];
    for i := 0 to |phrases|
      invariant ts == Timed(phrases[..i])
      invariant slots == SlotPairs(ts) && tsN == |slots| + 1
    {
      var p := phrases[i];
      TimedSnoc(phrases, i);
      if BeginOffset in p.attrs && EndOffset in p.attrs {
        var begin := TimeSlot(SlotId(tsN), p.attrs[BeginOffset]);
        var end := TimeSlot(SlotId(tsN + 1), p.attrs[EndOffset]);
        MakeTimesStep(ts, p, slots);
        tsN := tsN + 2;
        slots := slots + [begin, end];
        ts := ts + [p];
      }
    }
    assert phrases[..|phrases|] == phrases;
    TimedOffsets(phrases);
    SlotPairsFacts(ts);
  }

  lemma TimedSnoc(phrases: seq<Phrase>, i: nat)
    requires i < |phrases|
    ensures Timed(phrases[..i + 1]) == Timed(phrases[..i]) + (if HasOffsets(phrases[i]) then [phrases[i]] else [])
  {
    assert phrases[..i + 1][..i] == phrases[..i];
  }

  /** One phrase with both offsets adds the next two slot numbers. */
  lemma MakeTimesStep(ts: seq<Phrase>, p: Phrase, slots: seq<TimeSlot>)
    requires HasOffsets(p) && slots == SlotPairs(ts)
    ensures SlotPairs(ts + [p]) == slots
      + [TimeSlot(SlotId(|slots| + 1), p.attrs[BeginOffset]), TimeSlot(SlotId(|slots| + 2), p.attrs[EndOffset])]
  {
    assert (ts + [p])[..|ts|] == ts;
    assert SlotPairs(ts + [p]) == slots + SlotPair(|ts|, p);
  }

  lemma SlotPairsFacts(t: seq<Phrase>)
    requires forall j :: 0 <= j < |t| ==> BeginOffset in t[j].attrs && EndOffset in t[j].attrs
    ensures forall j :: 0 <= j < |t| ==>
      SlotPairs(t)[2 * j] == TimeSlot(SlotId(2 * j + 1), t[j].attrs[BeginOffset])
      && SlotPairs(t)[2 * j + 1] == TimeSlot(SlotId(2 * j + 2), t[j].attrs[EndOffset])
    ensures forall a, b :: 0 <= a < b < |SlotPairs(t)| ==> SlotPairs(t)[a].id != SlotPairs(t)[b].id
  {
    var slots := SlotPairs(t);
    forall j | 0 <= j < |t|
      ensures slots[2 * j] == TimeSlot(SlotId(2 * j + 1), t[j].attrs[BeginOffset])
      ensures slots[2 * j + 1] == TimeSlot(SlotId(2 * j + 2), t[j].attrs[EndOffset])
    {
      SlotPairsAt(t, j);
    }
    forall a, b | 0 <= a < b < |slots| ensures slots[a].id != slots[b].id {
      SlotPairsIds(t, a);
      SlotPairsIds(t, b);
      if slots[a].id == slots[b].id {
        PrefixedNatInjective("ts", a + 1, b + 1);
      }
    }
  }

  // ---------------------------------------------------------------------------
  // remove_constraint

  /** The ids of the linguistic types whose CONSTRAINTS equal c, in order. */
  function TypesWithConstraint(types: seq<InType>, c: string): (r: seq<string>)
    ensures forall id :: id in r <==> exists t :: t in types && t.constraints == Some(c) && t.id == id
  {
    if types == [] then []
    else (if types[0].constraints == Some(c) then [types[0].id] else []) + TypesWithConstraint(types[1..], c)
  }

  /** The tiers whose linguistic type is not among `bad`, in order. */
  function KeepTiers(tiers: seq<InTier>, bad: seq<string>): (r: seq<InTier>)
    ensures forall t :: t in r <==> t in tiers && t.typeRef !in bad
    ensures |r| <= |tiers|
  {
    if tiers == [] then []
    else (if tiers[0].typeRef in bad then [] else [tiers[0]]) + KeepTiers(tiers[1..], bad)
  }

  lemma {:induction false} KeepTiersStep(tiers: seq<InTier>, bad: seq<string>, x: string)
    ensures KeepTiers(KeepTiers(tiers, bad), [x]) == KeepTiers(tiers, bad + [x])
  {
    if tiers != [] {
      KeepTiersStep(tiers[1..], bad, x);
      var head := if tiers[0].typeRef in bad then [] else [tiers[0]];
      KeepTiersAppend(head, KeepTiers(tiers[1..], bad), [x]);
    }
  }

  lemma KeepTiersSnoc(ts: seq<InTier>, i: nat, bad: seq<string>)
    requires i < |ts|
    ensures KeepTiers(ts[..i + 1], bad)
      == KeepTiers(ts[..i], bad) + if ts[i].typeRef in bad then [] else [ts[i]]
  {
    KeepTiersAppend(ts[..i], [ts[i]], bad);
    assert ts[..i + 1] == ts[..i] + [ts[i]];
    assert [ts[i]][1..] == [];
  }

  lemma {:induction false} KeepTiersAppend(a: seq<InTier>, b: seq<InTier>, bad: seq<string>)
    ensures KeepTiers(a + b, bad) == KeepTiers(a, bad) + KeepTiers(b, bad)
  {
    if a == [] {
      assert a + b == b;
    } else {
      assert (a + b)[1..] == a[1..] + b;
      KeepTiersAppend(a[1..], b, bad);
    }
  }

  /** `for bad_tier in eaf.findall(...[@LINGUISTIC_TYPE_REF=typeId]):
      eaf.remove(bad_tier)`: the tiers of one linguistic type go. */
  method RemoveTiersOfType(typeId: string, root: EafRoot)
    modifies root
    ensures root.tiers == KeepTiers(old(root.tiers), [typeId])
    ensures root.types == old(root.types) && root.timeSlots == old(root.timeSlots)
  {
    var kept: seq<InTier> := [];
    var ts := root.tiers;
    for i := 0 to |ts|
      invariant kept == KeepTiers(ts[..i], [typeId])
      invariant root.tiers == ts && root.types == old(root.types) && root.timeSlots == old(root.timeSlots)
    {
      KeepTiersSnoc(ts, i, [typeId]);
      if ts[i].typeRef != typeId {
        kept := kept + [ts[i]];
      }
    }
    assert ts[..|ts|] == ts;
    root.tiers := kept;
  }

  /** `remove_constraint(c, eaf)`: every tier of a type constrained by c goes;
      the other tiers stay, in order. */
  method RemoveConstraint(c: string, root: EafRoot)
    modifies root
    ensures root.tiers == KeepTiers(old(root.tiers), TypesWithConstraint(root.types, c))
    ensures root.types == old(root.types) && root.timeSlots == old(root.timeSlots)
  {
    var bad := TypesWithConstraint(root.types, c);
    ghost var original := root.tiers;
    KeepTiersNone(original);
    for k := 0 to |bad|
      invariant root.tiers == KeepTiers(original, bad[..k])
      invariant root.types == old(root.types) && root.timeSlots == old(root.timeSlots)
    {
      RemoveTiersOfType(bad[k], root);
      KeepTiersStep(original, bad[..k], bad[k]);
      assert bad[..k + 1] == bad[..k] + [bad[k]];
    }
    assert bad[..|bad|] == bad;
  }

  lemma {:induction false} KeepTiersNone(tiers: seq<InTier>)
    ensures KeepTiers(tiers, []) == tiers
  {
    if tiers != [] {
      KeepTiersNone(tiers[1..]);
    }
  }

  /** A second removal with the same constraint removes nothing. */
  lemma {:induction false} KeepTiersIdempotent(tiers: seq<InTier>, bad: seq<string>)
    ensures KeepTiers(KeepTiers(tiers, bad), bad) == KeepTiers(tiers, bad)
  {
    if tiers != [] {
      KeepTiersIdempotent(tiers[1..], bad);
      var head := if tiers[0].typeRef in bad then [] else [tiers[0]];
      KeepTiersAppend(head, KeepTiers(tiers[1..], bad), bad);
    }
  }

  // ---------------------------------------------------------------------------
  // make_assoc_annotation

  /** `make_assoc_annotation(base, tierType, content, parent, count, eaf)`:
     - KeyError, and nothing appended, when `content` has no `tierType` key
       (looked up before the tier is used);
     - the script fails, and nothing is appended, when there is no tier
       `base + "-" + tierType`;
     - otherwise one reference annotation `"a" + str(count)` pointing at the
       parent and holding `content[tierType]` (even where that is "") is
       appended to that tier, and the next free id `count + 1` is returned. */
  method MakeAssocAnnotation(base: string, tierType: string, content: Dict<string>, parent: nat,
                             count: nat, eaf: EafDocument) returns (r: Result<nat>)
    modifies eaf
    ensures Get(content, tierType).None? ==> r == Err(KeyError(tierType)) && eaf.log == old(eaf.log)
    ensures Get(content, tierType).Some? && base + "-" + tierType !in TierIds(eaf.tiers) ==>
      r == Err(MissingElement(base + "-" + tierType)) && eaf.log == old(eaf.log)
    ensures Get(content, tierType).Some? && base + "-" + tierType in TierIds(eaf.tiers) ==>
      r == Ok(count + 1)
      && eaf.log == old(eaf.log) + [Entry(base + "-" + tierType, Association(count, parent, Get(content, tierType).value))]
    ensures eaf.tiers == old(eaf.tiers) && eaf.timeOrder == old(eaf.timeOrder)
    ensures eaf.lastUsedAnnotationId == old(eaf.lastUsedAnnotationId)
  {
    var id := count;
    var tierName := base + "-" + tierType;
    var value := Get(content, tierType);
    if value.None? {
      return Err(KeyError(tierType));
    }
    var found := eaf.Append(tierName, Association(id, parent, value.value));
    if !found {
      return Err(MissingElement(tierName));
    }
    return Ok(count + 1);
  }
}
