/**
 * A PHP array used as a dictionary of strings: its entries in insertion order.
 * `parse_str` builds one, `unset` removes from one, `foreach` walks one in order,
 * and the literal argument arrays of the client are written as one.
 */
module Assoc {
  import opened Wrappers

  type Entry = (string, string)
  type Assoc = seq<Entry>

  function Keys(a: Assoc): (ks: seq<string>)
    ensures |ks| == |a|
    ensures forall i :: 0 <= i < |a| ==> ks[i] == a[i].0
  {
    if a == [] then [] else [a[0].0] + Keys(a[1..])
  }

  /** The entries as `foreach ($a as $v)` visits them. */
  function Values(a: Assoc): (vs: seq<string>)
    ensures |vs| == |a|
    ensures forall i :: 0 <= i < |a| ==> vs[i] == a[i].1
  {
    if a == [] then [] else [a[0].1] + Values(a[1..])
  }

  /** No key occurs twice: every PHP array has this shape. */
  predicate Distinct(a: Assoc) {
    a == [] || (a[0].0 !in Keys(a[1..]) && Distinct(a[1..]))
  }

  /** `$a[$k]` when it is set. */
  function Find(a: Assoc, k: string): (r: Option<string>)
    ensures r.None? <==> k !in Keys(a)
    ensures r.Some? ==> (k, r.value) in a
  {
    if a == [] then None
    else if a[0].0 == k then Some(a[0].1)
    else Find(a[1..], k)
  }

  lemma FindFirst(a: Assoc, k: string)
    requires a != []
    ensures Find(a, k) == if a[0].0 == k then Some(a[0].1) else Find(a[1..], k)
  {
  }

  /** `$a[$k]` read as PHP reads it: an index that is not set yields NULL, which is "" as a string. */
  function Field(a: Assoc, k: string): string {
    Find(a, k).GetOr("")
  }

  /** `$a[$k] = $v`: a key already present keeps its place, a new key goes last. */
  function Put(a: Assoc, k: string, v: string): (r: Assoc)
    ensures Find(r, k) == Some(v)
    ensures forall k' :: k' != k ==> Find(r, k') == Find(a, k')
  {
    if a == [] then [(k, v)]
    else if a[0].0 == k then [(k, v)] + a[1..]
    else
      var rest := Put(a[1..], k, v);
      assert ([a[0]] + rest)[1..] == rest;
      [a[0]] + rest
  }

  lemma {:induction false} PutNewKey(a: Assoc, k: string, v: string)
    requires k !in Keys(a)
    ensures Put(a, k, v) == a + [(k, v)]
  {
    if a != [] {
      assert a == [a[0]] + a[1..];
      KeysCons(a[0], a[1..]);
      PutNewKey(a[1..], k, v);
      assert Put(a, k, v) == [a[0]] + (a[1..] + [(k, v)]);
    }
  }

  /** A key already present keeps its place; a new key goes last. */
  lemma PutKeys(a: Assoc, k: string, v: string)
    ensures Keys(Put(a, k, v)) == if k in Keys(a) then Keys(a) else Keys(a) + [k]
  {
    if k in Keys(a) {
      PutKeysPresent(a, k, v);
    } else {
      PutNewKey(a, k, v);
      KeysAppend(a, (k, v));
    }
  }

  lemma {:induction false} PutKeysPresent(a: Assoc, k: string, v: string)
    requires k in Keys(a)
    ensures Keys(Put(a, k, v)) == Keys(a)
  {
    KeysCons(a[0], a[1..]);
    assert a == [a[0]] + a[1..];
    if a[0].0 == k {
      KeysCons((k, v), a[1..]);
    } else {
      PutKeysPresent(a[1..], k, v);
      KeysCons(a[0], Put(a[1..], k, v));
    }
  }

  lemma {:induction false} KeysAppend(a: Assoc, e: Entry)
    ensures Keys(a + [e]) == Keys(a) + [e.0]
  {
  }

  lemma KeysCons(e: Entry, rest: Assoc)
    ensures Keys([e] + rest) == [e.0] + Keys(rest)
  {
    assert ([e] + rest)[1..] == rest;
  }

  lemma {:induction false} PutKeepsDistinct(a: Assoc, k: string, v: string)
    requires Distinct(a)
    ensures Distinct(Put(a, k, v))
  {
    if a != [] && a[0].0 != k {
      PutKeepsDistinct(a[1..], k, v);
      var rest := Put(a[1..], k, v);
      assert ([a[0]] + rest)[1..] == rest;
      assert Find(rest, a[0].0) == Find(a[1..], a[0].0);
    }
  }

  /** `unset($a[$k])`: every other entry stays, in the same order. */
  function Remove(a: Assoc, k: string): (r: Assoc)
    ensures forall k' :: Find(r, k') == if k' == k then None else Find(a, k')
    ensures forall e :: e in r <==> e in a && e.0 != k
    ensures Distinct(a) ==> Distinct(r)
    ensures k !in Keys(a) ==> r == a
  {
    if a == [] then []
    else if a[0].0 == k then Remove(a[1..], k)
    else
      var rest := Remove(a[1..], k);
      assert ([a[0]] + rest)[1..] == rest;
      [a[0]] + rest
  }

  /** `unset` keeps the order of the remaining entries: it works entry by entry. */
  lemma {:induction false} RemoveAppend(a: Assoc, b: Assoc, k: string)
    ensures Remove(a + b, k) == Remove(a, k) + Remove(b, k)
  {
    if a == [] {
      assert a + b == b;
    } else if a[0].0 == k {
      calc {
        Remove(a + b, k);
        { assert a + b == [a[0]] + (a[1..] + b); RemoveCons(a[0], a[1..] + b, k); }
        Remove(a[1..] + b, k);
        { RemoveAppend(a[1..], b, k); }
        Remove(a[1..], k) + Remove(b, k);
        { assert a == [a[0]] + a[1..]; RemoveCons(a[0], a[1..], k); }
        Remove(a, k) + Remove(b, k);
      }
    } else {
      calc {
        Remove(a + b, k);
        { assert a + b == [a[0]] + (a[1..] + b); RemoveCons(a[0], a[1..] + b, k); }
        [a[0]] + Remove(a[1..] + b, k);
        { RemoveAppend(a[1..], b, k); }
        [a[0]] + (Remove(a[1..], k) + Remove(b, k));
        ([a[0]] + Remove(a[1..], k)) + Remove(b, k);
        { assert a == [a[0]] + a[1..]; RemoveCons(a[0], a[1..], k); }
        Remove(a, k) + Remove(b, k);
      }
    }
  }

  lemma RemoveCons(e: Entry, rest: Assoc, k: string)
    ensures Remove([e] + rest, k) == if e.0 == k then Remove(rest, k) else [e] + Remove(rest, k)
  {
    assert ([e] + rest)[0] == e && ([e] + rest)[1..] == rest;
  }

  /** Removing a key that occurs once leaves the entries before and after it, in order. */
  lemma RemoveOnce(pre: Assoc, e: Entry, post: Assoc)
    requires e.0 !in Keys(pre) && e.0 !in Keys(post)
    ensures Remove(pre + [e] + post, e.0) == pre + post
  {
    calc {
      Remove(pre + [e] + post, e.0);
      { assert pre + [e] + post == pre + ([e] + post); }
      Remove(pre + ([e] + post), e.0);
      { RemoveAppend(pre, [e] + post, e.0); }
      Remove(pre, e.0) + Remove([e] + post, e.0);
      { RemoveCons(e, post, e.0); }
      Remove(pre, e.0) + Remove(post, e.0);
      pre + post;
    }
  }
}
