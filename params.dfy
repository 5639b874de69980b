/** The ordered parameter dictionaries (Python `OrderedDict`s) that a template
    call builds and a module function receives: their items in insertion
    order, each key at most once. */
module Params {
  import opened Outcomes

  type Params = seq<(string, string)>

  /** The keys of `p`, in order (`list(d)`). */
  function Keys(p: Params): seq<string> {
    seq(|p|, i requires 0 <= i < |p| => p[i].0)
  }

  predicate DistinctKeys(p: Params) {
    forall i, j :: 0 <= i < j < |p| ==> p[i].0 != p[j].0
  }

  /** `d[k]` (`None` where Python raises `KeyError`): the value of the first
      item with key `k`. */
  function Get(p: Params, k: string): (r: Option<string>)
    ensures r.Some? <==> k in Keys(p)
  {
    if p == [] then None
    else if p[0].0 == k then
      assert Keys(p)[0] == k;
      Some(p[0].1)
    else
      assert Keys(p) == [p[0].0] + Keys(p[1..]);
      Get(p[1..], k)
  }

  lemma {:induction false} GetAt(p: Params, i: nat)
    requires DistinctKeys(p) && i < |p|
    ensures Get(p, p[i].0) == Some(p[i].1)
  {
    if i > 0 {
      assert p[0].0 != p[i].0;
      assert p[1..][i - 1] == p[i];
      GetAt(p[1..], i - 1);
    }
  }

  lemma KeysCons(p: Params)
    requires p != []
    ensures Keys(p) == [p[0].0] + Keys(p[1..])
  {
  }

  /** `d[k] = v`: an existing key keeps its position and takes the new value;
      a new key is appended. */
  function Put(p: Params, k: string, v: string): (r: Params)
    ensures Get(r, k) == Some(v)
    ensures Keys(r) == if k in Keys(p) then Keys(p) else Keys(p) + [k]
  {
    if p == [] then
      assert Keys([(k, v)]) == [k];
      [(k, v)]
    else if p[0].0 == k then
      var r := [(k, v)] + p[1..];
      assert r[1..] == p[1..];
      KeysCons(p);
      KeysCons(r);
      r
    else
      var rest := Put(p[1..], k, v);
      var r := [p[0]] + rest;
      assert r[1..] == rest;
      KeysCons(p);
      KeysCons(r);
      assert k in Keys(p) <==> k in Keys(p[1..]);
      r
  }

  /** Putting leaves the values of the other keys alone. */
  lemma {:induction false} PutOther(p: Params, k: string, v: string, k': string)
    requires k' != k
    ensures Get(Put(p, k, v), k') == Get(p, k')
  {
    if p != [] && p[0].0 != k {
      PutOther(p[1..], k, v, k');
      assert Put(p, k, v)[1..] == Put(p[1..], k, v);
    }
  }

  /** Putting keeps every key unique. */
  lemma PutDistinct(p: Params, k: string, v: string)
    requires DistinctKeys(p)
    ensures DistinctKeys(Put(p, k, v))
  {
    var r := Put(p, k, v);
    var ks := Keys(r);
    assert forall i :: 0 <= i < |r| ==> r[i].0 == ks[i];
    if k !in Keys(p) {
      assert forall i :: 0 <= i < |p| ==> ks[i] == p[i].0;
    }
  }

  /** The dictionary built by assigning `d[k] = v` for each pair in turn,
      starting from an empty one. */
  function FromPairs(pairs: seq<(string, string)>): Params
  {
    if pairs == [] then []
    else
      var last := pairs[|pairs| - 1];
      Put(FromPairs(pairs[..|pairs| - 1]), last.0, last.1)
  }

  /** The value of the last pair with key `k`. */
  function LastValue(pairs: seq<(string, string)>, k: string): Option<string>
  {
    if pairs == [] then None
    else if pairs[|pairs| - 1].0 == k then Some(pairs[|pairs| - 1].1)
    else LastValue(pairs[..|pairs| - 1], k)
  }

  /** The keys in order of first occurrence. */
  function Dedup(ks: seq<string>): (d: seq<string>)
    ensures forall k :: k in d <==> k in ks
  {
    if ks == [] then []
    else
      var init := Dedup(ks[..|ks| - 1]);
      assert forall k :: k in ks <==> k in ks[..|ks| - 1] || k == ks[|ks| - 1];
      if ks[|ks| - 1] in init then init else init + [ks[|ks| - 1]]
  }

  /** Later assignments win: each key holds the value of its last pair. */
  lemma {:induction false} FromPairsGet(pairs: seq<(string, string)>, k: string)
    ensures Get(FromPairs(pairs), k) == LastValue(pairs, k)
  {
    if pairs != [] {
      var last := pairs[|pairs| - 1];
      FromPairsGet(pairs[..|pairs| - 1], k);
      if last.0 != k {
        PutOther(FromPairs(pairs[..|pairs| - 1]), last.0, last.1, k);
      }
    }
  }

  /** Keys keep the position of their first assignment. */
  lemma {:induction false} FromPairsKeys(pairs: seq<(string, string)>)
    ensures Keys(FromPairs(pairs)) == Dedup(Keys(pairs))
  {
    if pairs != [] {
      var init := pairs[..|pairs| - 1];
      FromPairsKeys(init);
      assert Keys(pairs)[..|pairs| - 1] == Keys(init);
    }
  }

  /** Every key occurs once. */
  lemma {:induction false} FromPairsDistinct(pairs: seq<(string, string)>)
    ensures DistinctKeys(FromPairs(pairs))
  {
    if pairs != [] {
      FromPairsDistinct(pairs[..|pairs| - 1]);
      var last := pairs[|pairs| - 1];
      PutDistinct(FromPairs(pairs[..|pairs| - 1]), last.0, last.1);
    }
  }

  /** With distinct keys, building a dictionary keeps the pairs as they are. */
  lemma {:induction false} FromPairsDistinctKeys(pairs: seq<(string, string)>)
    requires DistinctKeys(pairs)
    ensures FromPairs(pairs) == pairs
  {
    if pairs != [] {
      var init := pairs[..|pairs| - 1];
      var last := pairs[|pairs| - 1];
      assert DistinctKeys(init);
      FromPairsDistinctKeys(init);
      assert last.0 !in Keys(init);
      PutAbsent(init, last.0, last.1);
      assert init + [last] == pairs;
    }
  }

  /** Putting a new key appends it. */
  lemma {:induction false} PutAbsent(p: Params, k: string, v: string)
    requires k !in Keys(p)
    ensures Put(p, k, v) == p + [(k, v)]
  {
    if p != [] {
      assert Keys(p)[0] == p[0].0;
      assert p[0].0 != k;
      assert Put(p, k, v) == [p[0]] + Put(p[1..], k, v);
      assert k !in Keys(p[1..]) by {
        assert Keys(p[1..]) == Keys(p)[1..];
      }
      PutAbsent(p[1..], k, v);
      assert [p[0]] + (p[1..] + [(k, v)]) == p + [(k, v)];
    }
  }

  /** `d.popitem(last=False)`: the first item and the rest, or `None` where
      Python raises `KeyError` on an empty dictionary. */
  function PopFirst(p: Params): (r: Option<((string, string), Params)>)
    ensures r.None? <==> p == []
    ensures r.Some? ==> [r.value.0] + r.value.1 == p
  {
    if p == [] then None else Some((p[0], p[1..]))
  }
}
