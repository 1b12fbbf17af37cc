/** The last step of the EAF-to-flextext direction: the paragraphs are sorted
    by the integer value of their phrase's begin-time-offset with Python's
    stable `sorted`, and each phrase gets a `segnum` item, numbered from 1 in
    sorted order, as its first child. */
module FlexOrder {
  import opened Common
  import opened Flextext

  // ---------------------------------------------------------------------------
  // Sort keys

  /** `int(para[0][0].attrib["begin-time-offset"])`. */
  function BeginKey(p: Paragraph): Result<int> {
    if BeginOffset in p.phrase.attrs then ParseInt(p.phrase.attrs[BeginOffset])
    else Err(KeyError(BeginOffset))
  }

  predicate HasKey(p: Paragraph) {
    BeginKey(p).Ok?
  }

  /** Every paragraph has a sort key. */
  predicate Keyed(ps: seq<Paragraph>) {
    forall i :: 0 <= i < |ps| ==> HasKey(ps[i])
  }

  /** The integer start time (0 for a paragraph without one, which is never
      sorted). */
  function StartTime(p: Paragraph): int {
    match BeginKey(p)
    case Ok(v) => v
    case Err(_) => 0
  }

  /** The position of the first paragraph that fails ok. */
  function FirstFailing(ps: seq<Paragraph>, ok: Paragraph -> bool): (r: Option<nat>)
    ensures r.None? <==> forall i :: 0 <= i < |ps| ==> ok(ps[i])
    ensures r.Some? ==> r.value < |ps| && !ok(ps[r.value]) && forall j :: 0 <= j < r.value ==> ok(ps[j])
  {
    if ps == [] then None
    else
      var n := |ps| - 1;
      assert forall i :: 0 <= i < n ==> ps[..n][i] == ps[i];
      var r := FirstFailing(ps[..n], ok);
      if r.Some? then r
      else if !ok(ps[n]) then Some(n)
      else None
  }

  // ---------------------------------------------------------------------------
  // Stable sort by a key

  /** Non-decreasing keys. */
  predicate Ordered(ps: seq<Paragraph>, key: Paragraph -> int) {
    forall i, j :: 0 <= i < j < |ps| ==> key(ps[i]) <= key(ps[j])
  }

  /** Insertion after every paragraph whose key is not larger. */
  function Insert(p: Paragraph, s: seq<Paragraph>, key: Paragraph -> int): seq<Paragraph> {
    if s == [] || key(p) < key(s[0]) then [p] + s
    else [s[0]] + Insert(p, s[1..], key)
  }

  /** Python's stable `sorted` with a key. */
  function SortBy(ps: seq<Paragraph>, key: Paragraph -> int): seq<Paragraph> {
    if ps == [] then []
    else
      var n := |ps| - 1;
      Insert(ps[n], SortBy(ps[..n], key), key)
  }

  /** Inserting adds exactly the one paragraph. */
  lemma {:induction false} InsertPerm(p: Paragraph, s: seq<Paragraph>, key: Paragraph -> int)
    ensures multiset(Insert(p, s, key)) == multiset(s) + multiset{p}
  {
    if s != [] && key(p) >= key(s[0]) {
      assert s == [s[0]] + s[1..];
      InsertPerm(p, s[1..], key);
    }
  }

  /** Sorting permutes the paragraphs. */
  lemma {:induction false} SortPerm(ps: seq<Paragraph>, key: Paragraph -> int)
    ensures multiset(SortBy(ps, key)) == multiset(ps)
  {
    if ps != [] {
      var n := |ps| - 1;
      assert ps == ps[..n] + [ps[n]];
      SortPerm(ps[..n], key);
      InsertPerm(ps[n], SortBy(ps[..n], key), key);
    }
  }

  /** The subsequence of the paragraphs whose key is k. */
  function WithKey(ps: seq<Paragraph>, key: Paragraph -> int, k: int): seq<Paragraph> {
    if ps == [] then []
    else (if key(ps[0]) == k then [ps[0]] else []) + WithKey(ps[1..], key, k)
  }

  lemma {:induction false} InsertOrdered(p: Paragraph, s: seq<Paragraph>, key: Paragraph -> int)
    requires Ordered(s, key)
    ensures Ordered(Insert(p, s, key), key)
  {
    if s == [] || key(p) < key(s[0]) {
      ConsOrdered(p, s, key);
    } else {
      var t := s[1..];
      assert Ordered(t, key) by {
        assert forall i :: 0 <= i < |t| ==> t[i] == s[i + 1];
      }
      InsertOrdered(p, t, key);
      var u := Insert(p, t, key);
      assert key(s[0]) <= key(u[0]) by {
        if t != [] && key(p) >= key(t[0]) {
          assert u[0] == t[0] == s[1];
        }
      }
      ConsOrdered(s[0], u, key);
    }
  }

  /** A paragraph whose key is not larger than the first of an ordered list
      can go in front. */
  lemma ConsOrdered(x: Paragraph, s: seq<Paragraph>, key: Paragraph -> int)
    requires Ordered(s, key) && (s != [] ==> key(x) <= key(s[0]))
    ensures Ordered([x] + s, key)
  {
    var r := [x] + s;
    forall i, j | 0 <= i < j < |r| ensures key(r[i]) <= key(r[j]) {
      assert r[j] == s[j - 1];
      if i > 0 {
        assert r[i] == s[i - 1];
      }
    }
  }

  /** The sorted paragraphs are in key order. */
  lemma {:induction false} SortOrdered(ps: seq<Paragraph>, key: Paragraph -> int)
    ensures Ordered(SortBy(ps, key), key)
  {
    if ps != [] {
      var n := |ps| - 1;
      SortOrdered(ps[..n], key);
      InsertOrdered(ps[n], SortBy(ps[..n], key), key);
    }
  }

  lemma {:induction false} WithKeyNone(s: seq<Paragraph>, key: Paragraph -> int, k: int)
    requires forall j :: 0 <= j < |s| ==> key(s[j]) != k
    ensures WithKey(s, key, k) == []
  {
    if s != [] {
      WithKeyNone(s[1..], key, k);
    }
  }

  lemma {:induction false} WithKeySnoc(s: seq<Paragraph>, x: Paragraph, key: Paragraph -> int, k: int)
    ensures WithKey(s + [x], key, k) == WithKey(s, key, k) + if key(x) == k then [x] else []
  {
    if s != [] {
      assert (s + [x])[1..] == s[1..] + [x];
      WithKeySnoc(s[1..], x, key, k);
    }
  }

  lemma {:induction false} InsertWithKey(p: Paragraph, s: seq<Paragraph>, key: Paragraph -> int, k: int)
    requires Ordered(s, key)
    ensures WithKey(Insert(p, s, key), key, k) == WithKey(s, key, k) + if key(p) == k then [p] else []
  {
    if s == [] {
    } else if key(p) < key(s[0]) {
      assert Insert(p, s, key) == [p] + s;
      WithKeyCons(p, s, key, k);
      if key(p) == k {
        WithKeyNone(s, key, k);
      }
    } else {
      var t := s[1..];
      assert Ordered(t, key) by {
        assert forall i :: 0 <= i < |t| ==> t[i] == s[i + 1];
      }
      InsertWithKey(p, t, key, k);
      InsertWithKeyStep(p, s, key, k);
    }
  }

  lemma InsertWithKeyStep(p: Paragraph, s: seq<Paragraph>, key: Paragraph -> int, k: int)
    requires s != [] && key(p) >= key(s[0])
    requires WithKey(Insert(p, s[1..], key), key, k) == WithKey(s[1..], key, k) + if key(p) == k then [p] else []
    ensures WithKey(Insert(p, s, key), key, k) == WithKey(s, key, k) + if key(p) == k then [p] else []
  {
    var t := s[1..];
    var u := Insert(p, t, key);
    assert Insert(p, s, key) == [s[0]] + u;
    WithKeyCons(s[0], u, key, k);
    WithKeyCons(s[0], t, key, k);
    assert [s[0]] + t == s;
    var h := if key(s[0]) == k then [s[0]] else [];
    var e := if key(p) == k then [p] else [];
    assert h + (WithKey(t, key, k) + e) == (h + WithKey(t, key, k)) + e;
  }

  lemma WithKeyCons(x: Paragraph, s: seq<Paragraph>, key: Paragraph -> int, k: int)
    ensures WithKey([x] + s, key, k) == (if key(x) == k then [x] else []) + WithKey(s, key, k)
  {
    assert ([x] + s)[1..] == s;
  }

  /** Paragraphs with equal keys keep their relative order. */
  lemma {:induction false} SortStable(ps: seq<Paragraph>, key: Paragraph -> int, k: int)
    ensures WithKey(SortBy(ps, key), key, k) == WithKey(ps, key, k)
  {
    if ps != [] {
      var n := |ps| - 1;
      var pre := ps[..n];
      assert pre + [ps[n]] == ps;
      var sorted := SortBy(pre, key);
      assert SortBy(ps, key) == Insert(ps[n], sorted, key);
      SortOrdered(pre, key);
      InsertWithKey(ps[n], sorted, key, k);
      SortStable(pre, key, k);
      WithKeySnoc(pre, ps[n], key, k);
    }
  }

  /** `sorted(paragraphs, key=...)`: `sorted` computes the keys in list order,
      so the first paragraph without an integer start time raises its error. */
  function SortByBegin(ps: seq<Paragraph>): Result<seq<Paragraph>> {
    match FirstFailing(ps, HasKey)
    case Some(i) => Err(BeginKey(ps[i]).error)
    case None => Ok(SortBy(ps, StartTime))
  }

  /** Sorting succeeds exactly when every paragraph has an integer start time,
      and otherwise raises the error of the first that has none; the result is
      a permutation of the paragraphs, in order of start time, with equal
      start times in their original relative order. */
  lemma SortByBeginFacts(ps: seq<Paragraph>)
    ensures SortByBegin(ps).Ok? <==> Keyed(ps)
    ensures SortByBegin(ps).Err? ==>
      exists i :: 0 <= i < |ps| && BeginKey(ps[i]).Err? && SortByBegin(ps).error == BeginKey(ps[i]).error
        && forall j :: 0 <= j < i ==> BeginKey(ps[j]).Ok?
    ensures SortByBegin(ps).Ok? ==>
      var r := SortByBegin(ps).value;
      && multiset(r) == multiset(ps) && Ordered(r, StartTime)
      && forall k :: WithKey(r, StartTime, k) == WithKey(ps, StartTime, k)
  {
    var f := FirstFailing(ps, HasKey);
    if Keyed(ps) {
      SortPerm(ps, StartTime);
      SortOrdered(ps, StartTime);
      forall k ensures WithKey(SortBy(ps, StartTime), StartTime, k) == WithKey(ps, StartTime, k) {
        SortStable(ps, StartTime, k);
      }
    }
  }

  // ---------------------------------------------------------------------------
  // Segment numbers

  function Segnum(n: nat, flexLanguage: string): Item {
    Item("segnum", Some(flexLanguage), NatToString(n))
  }

  /** The paragraphs with their segment numbers, 1 upwards. */
  function Numbered(ps: seq<Paragraph>, flexLanguage: string): (r: seq<Paragraph>)
    ensures |r| == |ps|
  {
    seq(|ps|, i requires 0 <= i < |ps| =>
      Paragraph(ps[i].phrase.(children := [PhraseItem(Segnum(i + 1, flexLanguage))] + ps[i].phrase.children)))
  }

  /** The paragraph with the first child of its phrase removed. */
  function Unnumbered(p: Paragraph): Paragraph {
    if p.phrase.children == [] then p
    else Paragraph(p.phrase.(children := p.phrase.children[1..]))
  }

  function Stripped(ps: seq<Paragraph>): (r: seq<Paragraph>)
    ensures |r| == |ps|
  {
    seq(|ps|, i requires 0 <= i < |ps| => Unnumbered(ps[i]))
  }

  /** Removing the segment numbers gives back the paragraphs. */
  lemma StrippedNumbered(ps: seq<Paragraph>, flexLanguage: string)
    ensures Stripped(Numbered(ps, flexLanguage)) == ps
  {
    var r := Numbered(ps, flexLanguage);
    forall i | 0 <= i < |ps| ensures Stripped(r)[i] == ps[i] {
      assert r[i].phrase.children[1..] == ps[i].phrase.children;
    }
  }

  /** A segment number's text reads back as the number. */
  lemma SegnumValue(n: nat, flexLanguage: string)
    ensures Segnum(n, flexLanguage).itemType == "segnum"
    ensures ParseInt(Segnum(n, flexLanguage).text) == Ok(n)
  {
    ParseIntOfNatToString(n);
  }

  /** The i-th paragraph keeps its attributes, words and items and gains, as
      its first item, the segment number i + 1. */
  lemma NumberedAt(ps: seq<Paragraph>, flexLanguage: string, i: nat)
    requires i < |ps|
    ensures var p := Numbered(ps, flexLanguage)[i].phrase;
      && p.attrs == ps[i].phrase.attrs
      && PhraseWords(p) == PhraseWords(ps[i].phrase)
      && DirectItems(p) == [Segnum(i + 1, flexLanguage)] + DirectItems(ps[i].phrase)
  {
    var p := Numbered(ps, flexLanguage)[i].phrase;
    assert p.children[1..] == ps[i].phrase.children;
  }

  /** Numbering keeps the start times, so the order too. */
  lemma NumberedKeys(ps: seq<Paragraph>, flexLanguage: string)
    ensures forall i :: 0 <= i < |ps| ==>
      BeginKey(Numbered(ps, flexLanguage)[i]) == BeginKey(ps[i])
    ensures Ordered(ps, StartTime) ==> Ordered(Numbered(ps, flexLanguage), StartTime)
  {
    var r := Numbered(ps, flexLanguage);
    assert forall i :: 0 <= i < |ps| ==> r[i].phrase.attrs == ps[i].phrase.attrs;
  }

  /** The loop over the sorted paragraphs with its counter `seg_count`. */
  method NumberParagraphs(ps: seq<Paragraph>, flexLanguage: string) returns (out: seq<Paragraph>)
    ensures out == Numbered(ps, flexLanguage)
  {
    var segCount: nat := 1;
    out := [];
    for i := 0 to |ps|
      invariant segCount == i + 1
      invariant out == Numbered(ps[..i], flexLanguage)
    {
      var phrase := ps[i].phrase;
      var segnum := Segnum(segCount, flexLanguage);
      segCount := segCount + 1;
      out := out + [Paragraph(phrase.(children := [PhraseItem(segnum)] + phrase.children))];
      assert ps[..i + 1][..i] == ps[..i];
    }
    assert ps[..|ps|] == ps;
  }
}
