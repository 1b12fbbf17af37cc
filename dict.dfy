/** Python `dict` semantics as the scripts use them: keys are kept in first
    insertion order, and assigning to an existing key replaces its value in
    place without moving it. */
module Dict {
  import opened Common

  type Dict<V> = seq<(string, V)>

  function Keys<V>(d: Dict<V>): (ks: seq<string>)
    ensures |ks| == |d|
    ensures forall i :: 0 <= i < |d| ==> ks[i] == d[i].0
  {
    seq(|d|, i requires 0 <= i < |d| => d[i].0)
  }

  function Values<V>(d: Dict<V>): (vs: seq<V>)
    ensures |vs| == |d|
    ensures forall i :: 0 <= i < |d| ==> vs[i] == d[i].1
  {
    seq(|d|, i requires 0 <= i < |d| => d[i].1)
  }

  predicate Distinct<T(==)>(s: seq<T>) {
    forall i, j :: 0 <= i < j < |s| ==> s[i] != s[j]
  }

  /** Every key occurs once. */
  predicate Valid<V>(d: Dict<V>) {
    Distinct(Keys(d))
  }

  /** `d[k]`, or None where Python raises KeyError. */
  function Get<V>(d: Dict<V>, k: string): (r: Option<V>)
    ensures r.Some? <==> k in Keys(d)
  {
    if d == [] then None
    else if d[0].0 == k then Some(d[0].1)
    else
      assert Keys(d) == [d[0].0] + Keys(d[1..]);
      Get(d[1..], k)
  }

  /** What `Get` finds is an entry of the dict. */
  lemma {:induction false} GetIn<V>(d: Dict<V>, k: string)
    requires Get(d, k).Some?
    ensures (k, Get(d, k).value) in d
    decreases |d|
  {
    if d[0].0 != k {
      GetIn(d[1..], k);
    }
  }

  /** In a valid dict the entry at position i is what `Get` finds for its key. */
  lemma GetAt<V>(d: Dict<V>, i: nat)
    requires Valid(d) && i < |d|
    ensures Get(d, d[i].0) == Some(d[i].1)
  {
    if i > 0 {
      assert d[0].0 != d[i].0;
      assert Keys(d[1..]) == Keys(d)[1..];
      GetAt(d[1..], i - 1);
    }
  }

  /** `d[k] = v`: an existing key keeps its place, a new one goes last
      (`PutKeys`), and k then maps to v while the other keys keep their
      values (`GetPut`). */
  function Put<V>(d: Dict<V>, k: string, v: V): Dict<V> {
    if d == [] then [(k, v)]
    else if d[0].0 == k then [(k, v)] + d[1..]
    else [d[0]] + Put(d[1..], k, v)
  }

  lemma KeysCons<V>(e: (string, V), rest: Dict<V>)
    ensures Keys([e] + rest) == [e.0] + Keys(rest)
  {
  }

  lemma {:induction false} PutKeys<V>(d: Dict<V>, k: string, v: V)
    ensures Keys(Put(d, k, v)) == if k in Keys(d) then Keys(d) else Keys(d) + [k]
    decreases |d|
  {
    if d != [] {
      var ks := Keys(d[1..]);
      KeysCons(d[0], d[1..]);
      assert [d[0]] + d[1..] == d;
      if d[0].0 == k {
        KeysCons((k, v), d[1..]);
      } else {
        PutKeys(d[1..], k, v);
        KeysCons(d[0], Put(d[1..], k, v));
        assert k in Keys(d) <==> k in ks;
        assert k !in ks ==> [d[0].0] + (ks + [k]) == ([d[0].0] + ks) + [k];
      }
    }
  }

  /** After `d[k] = v`, k maps to v and every other key maps to what it
      mapped to before. */
  lemma {:induction false} GetPut<V>(d: Dict<V>, k: string, v: V, k': string)
    ensures Get(Put(d, k, v), k') == if k' == k then Some(v) else Get(d, k')
    decreases |d|
  {
    if d == [] {
      GetCons((k, v), [], k');
    } else {
      assert d == [d[0]] + d[1..];
      GetCons(d[0], d[1..], k');
      if d[0].0 == k {
        GetCons((k, v), d[1..], k');
      } else {
        GetPut(d[1..], k, v, k');
        GetCons(d[0], Put(d[1..], k, v), k');
      }
    }
  }

  /** `GetPut` for all keys at once. */
  lemma GetPutOthers<V>(d: Dict<V>, k: string, v: V)
    ensures forall k' :: k' != k ==> Get(Put(d, k, v), k') == Get(d, k')
  {
    forall k' | k' != k ensures Get(Put(d, k, v), k') == Get(d, k') {
      GetPut(d, k, v, k');
    }
  }

  lemma GetCons<V>(e: (string, V), rest: Dict<V>, k: string)
    ensures Get([e] + rest, k) == if e.0 == k then Some(e.1) else Get(rest, k)
  {
    assert ([e] + rest)[1..] == rest;
  }

  lemma PutCons<V>(e: (string, V), rest: Dict<V>, k: string, v: V)
    requires e.0 != k
    ensures Put([e] + rest, k, v) == [e] + Put(rest, k, v)
  {
    assert ([e] + rest)[1..] == rest;
  }

  lemma KeysTail<V>(d: Dict<V>)
    requires d != []
    ensures Keys(d) == [d[0].0] + Keys(d[1..])
  {
    KeysCons(d[0], d[1..]);
    assert [d[0]] + d[1..] == d;
  }

  /** Assigning a new key appends it. */
  lemma {:induction false} PutNew<V>(d: Dict<V>, k: string, v: V)
    requires k !in Keys(d)
    ensures Put(d, k, v) == d + [(k, v)]
    decreases |d|
  {
    if d != [] {
      KeysTail(d);
      PutNew(d[1..], k, v);
      PutNewStep(d, k, v);
    }
  }

  lemma PutNewStep<V>(d: Dict<V>, k: string, v: V)
    requires d != [] && k != d[0].0
    requires Put(d[1..], k, v) == d[1..] + [(k, v)]
    ensures Put(d, k, v) == d + [(k, v)]
  {
    assert [d[0]] + d[1..] == d;
    PutCons(d[0], d[1..], k, v);
    ConsSnoc(d[0], d[1..], (k, v));
  }

  lemma ConsSnoc<T>(x: T, s: seq<T>, y: T)
    ensures [x] + (s + [y]) == ([x] + s) + [y]
  {
  }

  /** Assigning distinct keys into an empty dict lists them in order. */
  lemma {:induction false} PutAllFresh<V>(es: seq<(string, V)>)
    requires Distinct(Keys(es))
    ensures PutAll([], es) == es
    decreases |es|
  {
    if es != [] {
      var n := |es| - 1;
      assert Keys(es[..n]) == Keys(es)[..n];
      PutAllFresh(es[..n]);
      assert es[n].0 !in Keys(es[..n]);
      PutNew(es[..n], es[n].0, es[n].1);
      assert es[..n] + [es[n]] == es;
    }
  }

  lemma PutValid<V>(d: Dict<V>, k: string, v: V)
    requires Valid(d)
    ensures Valid(Put(d, k, v))
  {
    PutKeys(d, k, v);
    var ks := Keys(d);
    if k !in ks {
      assert Keys(Put(d, k, v)) == ks + [k];
    }
  }

  lemma ValidTail<V>(d: Dict<V>)
    requires Valid(d) && d != []
    ensures Valid(d[1..]) && d[0].0 !in Keys(d[1..])
  {
    KeysTail(d);
    var ks := Keys(d);
    assert Keys(d[1..]) == ks[1..];
    forall j | 0 <= j < |ks| - 1 ensures ks[1..][j] != d[0].0 {
      assert ks[0] != ks[j + 1];
    }
  }

  /** Replacing an existing key keeps every entry where it was. */
  lemma {:induction false} PutExisting<V>(d: Dict<V>, i: nat, v: V)
    requires Valid(d) && i < |d|
    ensures Put(d, d[i].0, v) == d[i := (d[i].0, v)]
    decreases i
  {
    if i == 0 {
      assert [(d[0].0, v)] + d[1..] == d[0 := (d[0].0, v)];
    } else {
      assert Keys(d)[0] != Keys(d)[i];
      ValidTail(d);
      assert d[1..][i - 1] == d[i];
      PutExisting(d[1..], i - 1, v);
      PutExistingStep(d, i, d[i].0, v);
    }
  }

  lemma PutExistingStep<V>(d: Dict<V>, i: nat, k: string, v: V)
    requires 0 < i < |d| && d[0].0 != k
    requires Put(d[1..], k, v) == d[1..][i - 1 := (k, v)]
    ensures Put(d, k, v) == d[i := (k, v)]
  {
    var t := d[1..];
    assert [d[0]] + t == d;
    PutCons(d[0], t, k, v);
    assert [d[0]] + t[i - 1 := (k, v)] == d[i := (k, v)];
  }

  lemma PutTwice<V>(d: Dict<V>, k: string, v: V, w: V)
    ensures Put(Put(d, k, v), k, w) == Put(d, k, w)
  {
    if d != [] && d[0].0 != k {
      PutTwice(d[1..], k, v, w);
    }
  }

  /** Successive assignments `d[k1] = v1; d[k2] = v2; ...`. */
  function PutAll<V>(d: Dict<V>, es: seq<(string, V)>): Dict<V>
  {
    if es == [] then d
    else Put(PutAll(d, es[..|es| - 1]), es[|es| - 1].0, es[|es| - 1].1)
  }

  lemma PutAllSnoc<V>(d: Dict<V>, es: seq<(string, V)>, k: string, v: V)
    ensures PutAll(d, es + [(k, v)]) == Put(PutAll(d, es), k, v)
  {
    assert (es + [(k, v)])[..|es|] == es;
  }

  /** The value assigned last to k among es. */
  function LastValue<V>(es: seq<(string, V)>, k: string): (r: Option<V>)
    ensures r.Some? <==> k in Keys(es)
  {
    if es == [] then None
    else if es[|es| - 1].0 == k then Some(es[|es| - 1].1)
    else
      assert Keys(es) == Keys(es[..|es| - 1]) + [es[|es| - 1].0];
      LastValue(es[..|es| - 1], k)
  }

  /** The value assigned last is that of the last assignment to the key. */
  lemma {:induction false} LastValueAt<V>(es: seq<(string, V)>, i: nat)
    requires i < |es| && forall j :: i < j < |es| ==> es[j].0 != es[i].0
    ensures LastValue(es, es[i].0) == Some(es[i].1)
    decreases |es|
  {
    if i < |es| - 1 {
      LastValueAt(es[..|es| - 1], i);
    }
  }

  /** The value assigned last was assigned to that key. */
  lemma {:induction false} LastValueIn<V>(es: seq<(string, V)>, k: string)
    requires LastValue(es, k).Some?
    ensures (k, LastValue(es, k).value) in es
    decreases |es|
  {
    var n := |es| - 1;
    if es[n].0 != k {
      LastValueIn(es[..n], k);
      assert es[..n] <= es;
    }
  }

  lemma {:induction false} LastValueAppend<V>(es: seq<(string, V)>, fs: seq<(string, V)>, k: string)
    ensures LastValue(es + fs, k) == if k in Keys(fs) then LastValue(fs, k) else LastValue(es, k)
    decreases |fs|
  {
    if fs != [] {
      var n := |fs| - 1;
      assert (es + fs)[..|es + fs| - 1] == es + fs[..n];
      assert Keys(fs) == Keys(fs[..n]) + [fs[n].0];
      if fs[n].0 != k {
        LastValueAppend(es, fs[..n], k);
      }
    } else {
      assert es + fs == es;
    }
  }

  /** After a run of assignments each key holds the value assigned last, and
      keys never assigned keep their old value. */
  lemma {:induction false} GetPutAll<V>(d: Dict<V>, es: seq<(string, V)>, k: string)
    ensures Get(PutAll(d, es), k) == if k in Keys(es) then LastValue(es, k) else Get(d, k)
    decreases |es|
  {
    if es != [] {
      var n := |es| - 1;
      assert Keys(es) == Keys(es[..n]) + [es[n].0];
      GetPutAll(d, es[..n], k);
      GetPut(PutAll(d, es[..n]), es[n].0, es[n].1, k);
    }
  }

  /** The keys after a run of assignments are the old keys together with the
      assigned ones, without duplicates (the order of a single step is
      PutKeys). */
  lemma {:induction false} KeysPutAll<V>(d: Dict<V>, es: seq<(string, V)>)
    ensures forall k :: k in Keys(PutAll(d, es)) <==> k in Keys(d) || k in Keys(es)
    ensures Valid(d) ==> Valid(PutAll(d, es))
    decreases |es|
  {
    if es != [] {
      var n := |es| - 1;
      assert Keys(es) == Keys(es[..n]) + [es[n].0];
      KeysPutAll(d, es[..n]);
      PutKeys(PutAll(d, es[..n]), es[n].0, es[n].1);
      if Valid(d) {
        PutValid(PutAll(d, es[..n]), es[n].0, es[n].1);
      }
    }
  }
}
