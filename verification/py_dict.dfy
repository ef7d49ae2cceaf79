/**
 * Python's `dict` as the modelled code uses it: a key-value map that remembers
 * insertion order. Assigning to a present key keeps its position, deleting a
 * key drops it from the order, and iteration (`.keys()`, `.values()`) follows
 * the order. Used for the context map, the game-state map and the plugin map.
 */
module PyDict {
  import opened Wrappers

  datatype Dict<V> = Dict(order: seq<string>, items: map<string, V>)

  predicate Distinct(s: seq<string>) {
    forall i, j :: 0 <= i < j < |s| ==> s[i] != s[j]
  }

  /** The order lists every key exactly once and nothing else. */
  ghost predicate Valid<V>(d: Dict<V>) {
    && Distinct(d.order)
    && (forall k :: k in d.items <==> k in d.order)
  }

  /** `{}` */
  function Empty<V>(): (d: Dict<V>)
    ensures Valid(d)
    ensures d.items == map[] && d.order == []
  {
    Dict([], map[])
  }

  /** `d.get(k)` */
  function Get<V>(d: Dict<V>, k: string): (r: Option<V>)
    ensures r.Some? <==> k in d.items
    ensures r.Some? ==> r.value == d.items[k]
  {
    if k in d.items then Some(d.items[k]) else None
  }

  /** `d[k] = v`: a new key goes to the end, a present key keeps its place. */
  function Put<V>(d: Dict<V>, k: string, v: V): (r: Dict<V>)
    ensures Valid(d) ==> Valid(r)
    ensures r.items.Keys == d.items.Keys + {k}
    ensures r.items[k] == v
    ensures forall j :: j in d.items && j != k ==> j in r.items && r.items[j] == d.items[j]
    ensures k in d.items ==> r.order == d.order
    ensures k !in d.items ==> r.order == d.order + [k]
  {
    if k in d.items then Dict(d.order, d.items[k := v])
    else Dict(d.order + [k], d.items[k := v])
  }

  /** `s` with every occurrence of `k` dropped, the rest in their order. */
  function Without(s: seq<string>, k: string): (r: seq<string>)
    ensures forall x :: x in r <==> x in s && x != k
    ensures Distinct(s) ==> Distinct(r)
    ensures k !in s ==> r == s
    ensures |r| <= |s|
  {
    if s == [] then []
    else if s[0] == k then Without(s[1..], k)
    else
      var rest := Without(s[1..], k);
      assert Distinct(s) ==> Distinct(s[1..]) && s[0] !in s[1..] by {
        if Distinct(s) {
          forall i, j | 0 <= i < j < |s[1..]| ensures s[1..][i] != s[1..][j] {
            assert s[1..][i] == s[i + 1] && s[1..][j] == s[j + 1];
          }
        }
      }
      [s[0]] + rest
  }

  /**
   * In a sequence without repeats, dropping a key cuts out its one
   * occurrence: everything before and after it stays, in order.
   */
  lemma {:induction false} WithoutSplice(s: seq<string>, k: string, i: nat)
    requires Distinct(s)
    requires i < |s| && s[i] == k
    ensures Without(s, k) == s[..i] + s[i + 1..]
  {
    if i == 0 {
      assert k !in s[1..] by {
        forall j | 0 <= j < |s[1..]| ensures s[1..][j] != k {
          assert s[1..][j] == s[j + 1];
        }
      }
      assert s[..0] + s[1..] == s[1..];
    } else {
      var t := s[1..];
      assert Distinct(t) by {
        forall a, b | 0 <= a < b < |t| ensures t[a] != t[b] {
          assert t[a] == s[a + 1] && t[b] == s[b + 1];
        }
      }
      assert s[0] != k;
      assert t[i - 1] == k;
      WithoutSplice(t, k, i - 1);
      assert s[..i] == [s[0]] + t[..i - 1];
      assert s[i + 1..] == t[i..];
    }
  }

  /** `del d[k]` (the caller checks `k in d` first). */
  function Remove<V>(d: Dict<V>, k: string): (r: Dict<V>)
    ensures Valid(d) ==> Valid(r)
    ensures r.items.Keys == d.items.Keys - {k}
    ensures forall j :: j in r.items ==> r.items[j] == d.items[j]
    ensures forall x :: x in r.order <==> x in d.order && x != k
    ensures Valid(d) ==> forall i :: 0 <= i < |d.order| && d.order[i] == k ==> r.order == d.order[..i] + d.order[i + 1..]
  {
    assert Valid(d) ==> forall i :: 0 <= i < |d.order| && d.order[i] == k ==> Without(d.order, k) == d.order[..i] + d.order[i + 1..] by {
      if Valid(d) {
        forall i | 0 <= i < |d.order| && d.order[i] == k ensures Without(d.order, k) == d.order[..i] + d.order[i + 1..] {
          WithoutSplice(d.order, k, i);
        }
      }
    }
    Dict(Without(d.order, k), d.items - {k})
  }

  /** `list(d.values())` */
  function Values<V>(d: Dict<V>): (r: seq<V>)
    requires Valid(d)
    ensures |r| == |d.order|
    ensures forall i :: 0 <= i < |r| ==> d.order[i] in d.items && r[i] == d.items[d.order[i]]
  {
    seq(|d.order|, i requires 0 <= i < |d.order| => d.items[d.order[i]])
  }

  /** Appending a fresh key and then deleting it gives back the dict. */
  lemma {:induction false} PutRemoveFresh<V>(d: Dict<V>, k: string, v: V)
    requires Valid(d)
    requires k !in d.items
    ensures Remove(Put(d, k, v), k) == d
  {
    WithoutAppended(d.order, k);
    assert d.items[k := v] - {k} == d.items;
  }

  lemma {:induction false} WithoutAppended(s: seq<string>, k: string)
    requires k !in s
    ensures Without(s + [k], k) == s
  {
    if s == [] {
      assert s + [k] == [k];
    } else {
      assert (s + [k])[1..] == s[1..] + [k];
      WithoutAppended(s[1..], k);
    }
  }
}
