/** Python dictionaries with string keys, as the launcher uses them: an
    entry sequence in insertion order. Assigning to an existing key keeps
    that key's position; a new key is appended. */
module Dicts {
  import opened Wrappers

  type Dict<V> = seq<(string, V)>

  function Keys<V>(d: Dict<V>): seq<string>
  {
    seq(|d|, i requires 0 <= i < |d| => d[i].0)
  }

  /** The values of `d`, in key order (`d.values()`). */
  function Values<V>(d: Dict<V>): seq<V>
  {
    seq(|d|, i requires 0 <= i < |d| => d[i].1)
  }

  predicate Distinct(s: seq<string>)
  {
    forall i, j :: 0 <= i < j < |s| ==> s[i] != s[j]
  }

  /** `d.get(k)`: the value stored under `k`, if any. */
  function Find<V>(d: Dict<V>, k: string): Option<V>
  {
    if d == [] then None
    else if d[0].0 == k then Some(d[0].1)
    else Find(d[1..], k)
  }

  /** `d[k] = v` */
  function Put<V>(d: Dict<V>, k: string, v: V): Dict<V>
  {
    if d == [] then [(k, v)]
    else if d[0].0 == k then [(k, v)] + d[1..]
    else [d[0]] + Put(d[1..], k, v)
  }

  /** `d.update(e)`: every entry of `e`, in order, is assigned into `d`. */
  function Update<V>(d: Dict<V>, e: Dict<V>): Dict<V>
  {
    if e == [] then d
    else Put(Update(d, e[..|e| - 1]), e[|e| - 1].0, e[|e| - 1].1)
  }

  /** `s` with every repeated element dropped: each element keeps the
      position of its first occurrence. */
  function Dedup(s: seq<string>): seq<string>
  {
    if s == [] then []
    else if s[|s| - 1] in s[..|s| - 1] then Dedup(s[..|s| - 1])
    else Dedup(s[..|s| - 1]) + [s[|s| - 1]]
  }

  /** `{k: f(v) for k, v in d.items()}` */
  function MapValues<V, W>(d: Dict<V>, f: V -> W): Dict<W>
  {
    seq(|d|, i requires 0 <= i < |d| => (d[i].0, f(d[i].1)))
  }

  lemma KeysCons<V>(d: Dict<V>)
    requires d != []
    ensures Keys(d) == [d[0].0] + Keys(d[1..])
  {
  }

  lemma KeysSnoc<V>(d: Dict<V>)
    requires d != []
    ensures Keys(d) == Keys(d[..|d| - 1]) + [d[|d| - 1].0]
  {
  }

  /** A key is found exactly when it is one of the keys. */
  lemma {:induction false} FindSomeIff<V>(d: Dict<V>, k: string)
    ensures Find(d, k).Some? <==> k in Keys(d)
  {
    if d != [] {
      FindSomeIff(d[1..], k);
      KeysCons(d);
    }
  }

  /** With distinct keys, the entry at position `i` is what its key finds. */
  lemma {:induction false} FindAt<V>(d: Dict<V>, i: nat)
    requires Distinct(Keys(d)) && i < |d|
    ensures Find(d, d[i].0) == Some(d[i].1)
  {
    if i > 0 {
      KeysCons(d);
      assert Keys(d)[0] != Keys(d)[i];
      assert Keys(d[1..]) == Keys(d)[1..];
      assert Distinct(Keys(d[1..]));
      FindAt(d[1..], i - 1);
    }
  }

  /** After `d[k] = v`, `k` finds `v` and every other key finds what it did. */
  lemma {:induction false} PutFind<V>(d: Dict<V>, k: string, v: V, j: string)
    ensures Find(Put(d, k, v), j) == if j == k then Some(v) else Find(d, j)
  {
    if d != [] && d[0].0 != k {
      PutFind(d[1..], k, v, j);
    }
  }

  /** `d[k] = v` keeps the keys distinct. */
  lemma PutDistinct<V>(d: Dict<V>, k: string, v: V)
    requires Distinct(Keys(d))
    ensures Distinct(Keys(Put(d, k, v)))
  {
    PutKeys(d, k, v);
  }

  /** Every value after `d[k] = v` is `v` or was already a value of `d`. */
  lemma {:induction false} PutValues<V>(d: Dict<V>, k: string, v: V)
    ensures forall x :: x in Values(Put(d, k, v)) ==> x == v || x in Values(d)
  {
    if d != [] {
      assert Values(d) == [d[0].1] + Values(d[1..]);
      if d[0].0 != k {
        PutValues(d[1..], k, v);
        assert Values(Put(d, k, v)) == [d[0].1] + Values(Put(d[1..], k, v));
      } else {
        assert Values(Put(d, k, v)) == [v] + Values(d[1..]);
      }
    }
  }

  /** `d[k] = v` leaves the key order alone when `k` is present and
      appends `k` otherwise. */
  lemma {:induction false} PutKeys<V>(d: Dict<V>, k: string, v: V)
    ensures Keys(Put(d, k, v)) == if k in Keys(d) then Keys(d) else Keys(d) + [k]
  {
    if d != [] {
      KeysCons(d);
      if d[0].0 != k {
        PutKeys(d[1..], k, v);
        KeysCons(Put(d, k, v));
      } else {
        KeysCons(Put(d, k, v));
      }
    }
  }

  /** Finding in `e + [(k', v')]`: an earlier entry of `e` wins. */
  lemma {:induction false} FindSnoc<V>(e: Dict<V>, k': string, v': V, k: string)
    ensures Find(e + [(k', v')], k) ==
      if Find(e, k).Some? then Find(e, k) else if k == k' then Some(v') else None
  {
    if e != [] {
      assert (e + [(k', v')])[1..] == e[1..] + [(k', v')];
      FindSnoc(e[1..], k', v', k);
    }
  }

  /** `d.update(e)`: a key of `e` takes its value from `e`, every other key
      keeps the value it had in `d`. */
  lemma {:induction false} UpdateFind<V>(d: Dict<V>, e: Dict<V>, k: string)
    requires Distinct(Keys(e))
    ensures Find(Update(d, e), k) == if Find(e, k).Some? then Find(e, k) else Find(d, k)
  {
    if e != [] {
      var e', last := e[..|e| - 1], e[|e| - 1];
      KeysSnoc(e);
      assert Keys(e') == Keys(e)[..|e| - 1];
      assert Distinct(Keys(e'));
      UpdateFind(d, e', k);
      PutFind(Update(d, e'), last.0, last.1, k);
      assert e == e' + [(last.0, last.1)];
      FindSnoc(e', last.0, last.1, k);
      if k == last.0 {
        assert forall i :: 0 <= i < |e'| ==> Keys(e')[i] != Keys(e)[|e| - 1];
        assert k !in Keys(e');
        FindSomeIff(e', k);
      }
    }
  }

  /** `d.update(e)` keeps the keys of `d` in place and appends the new keys
      of `e` in the order `e` first has them. */
  lemma {:induction false} UpdateKeys<V>(d: Dict<V>, e: Dict<V>)
    requires Distinct(Keys(d))
    ensures Keys(Update(d, e)) == Dedup(Keys(d) + Keys(e))
  {
    if e == [] {
      assert Keys(d) + Keys(e) == Keys(d);
      DedupOfDistinct(Keys(d));
    } else {
      var e', last := e[..|e| - 1], e[|e| - 1];
      UpdateKeys(d, e');
      KeysSnoc(e);
      var s := Keys(d) + Keys(e');
      assert Keys(d) + Keys(e) == s + [last.0];
      assert (s + [last.0])[..|s|] == s;
      PutKeys(Update(d, e'), last.0, last.1);
      DedupMembers(s);
    }
  }

  /** A dictionary's keys stay distinct under `update`. */
  lemma UpdateDistinct<V>(d: Dict<V>, e: Dict<V>)
    requires Distinct(Keys(d))
    ensures Distinct(Keys(Update(d, e)))
  {
    UpdateKeys(d, e);
    DedupDistinct(Keys(d) + Keys(e));
  }

  /** Dropping repeats neither loses nor invents elements. */
  lemma {:induction false} DedupMembers(s: seq<string>)
    ensures forall x :: x in Dedup(s) <==> x in s
  {
    if s != [] {
      DedupMembers(s[..|s| - 1]);
      assert s == s[..|s| - 1] + [s[|s| - 1]];
    }
  }

  /** Dropping repeats leaves nothing only of nothing. */
  lemma DedupEmpty(s: seq<string>)
    ensures Dedup(s) == [] <==> s == []
  {
    DedupMembers(s);
    if s != [] {
      assert s[0] in s;
    }
  }

  /** After dropping repeats, no element occurs twice. */
  lemma {:induction false} DedupDistinct(s: seq<string>)
    ensures Distinct(Dedup(s))
  {
    if s != [] {
      DedupDistinct(s[..|s| - 1]);
      DedupMembers(s[..|s| - 1]);
    }
  }

  /** A sequence without repeats is its own deduplication. */
  lemma {:induction false} DedupOfDistinct(s: seq<string>)
    requires Distinct(s)
    ensures Dedup(s) == s
  {
    if s != [] {
      assert Distinct(s[..|s| - 1]);
      DedupOfDistinct(s[..|s| - 1]);
      assert s[|s| - 1] !in s[..|s| - 1];
      assert s == s[..|s| - 1] + [s[|s| - 1]];
    }
  }

  /** Deduplicating a prefix first changes nothing. */
  lemma {:induction false} DedupOfDedupPrefix(s: seq<string>, t: seq<string>)
    ensures Dedup(Dedup(s) + t) == Dedup(s + t)
  {
    if t == [] {
      assert Dedup(s) + t == Dedup(s);
      assert s + t == s;
      DedupDistinct(s);
      DedupOfDistinct(Dedup(s));
    } else {
      var t', x := t[..|t| - 1], t[|t| - 1];
      DedupOfDedupPrefix(s, t');
      assert Dedup(s) + t == (Dedup(s) + t') + [x];
      assert (Dedup(s) + t)[..|Dedup(s) + t| - 1] == Dedup(s) + t';
      assert s + t == (s + t') + [x];
      assert (s + t)[..|s + t| - 1] == s + t';
      DedupMembers(s);
    }
  }

  /** `{k: f(v) ...}` keeps the keys, in order. */
  lemma MapValuesKeys<V, W>(d: Dict<V>, f: V -> W)
    ensures Keys(MapValues(d, f)) == Keys(d)
  {
  }

  /** `{k: f(v) ...}` maps what each key finds. */
  lemma {:induction false} MapValuesFind<V, W>(d: Dict<V>, f: V -> W, k: string)
    ensures Find(MapValues(d, f), k) == if Find(d, k).Some? then Some(f(Find(d, k).value)) else None
  {
    if d != [] {
      assert MapValues(d, f)[1..] == MapValues(d[1..], f);
      MapValuesFind(d[1..], f, k);
    }
  }

  /** The loop that rewrites every value of a dictionary in place:
      `for key, value in d.items(): d[key] = f(value)`. */
  method ConvertValues<V, W>(d: Dict<V>, f: V -> W) returns (r: Dict<W>)
    ensures r == MapValues(d, f)
  {
    r := [];
    for i := 0 to |d|
      invariant r == MapValues(d[..i], f)
    {
      r := r + [(d[i].0, f(d[i].1))];
    }
    assert d[..|d|] == d;
  }
}
