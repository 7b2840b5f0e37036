/**
 * The string library calls the client relies on, in simplified form: `urlencode`,
 * `urldecode`, `trim`, `explode` and `parse_str`, together with the tracker's side of the
 * query-string format so that round trips can be stated.
 */
module UrlCodec {
  import opened Wrappers
  import opened Assoc

  // ---------------------------------------------------------------- percent codec

  predicate IsAlnum(c: char) {
    'A' <= c <= 'Z' || 'a' <= c <= 'z' || '0' <= c <= '9'
  }

  /** The characters `urlencode` leaves alone. */
  predicate IsUnreserved(c: char) {
    IsAlnum(c) || c == '-' || c == '_' || c == '.'
  }

  predicate IsHexDigit(c: char) {
    '0' <= c <= '9' || 'A' <= c <= 'F' || 'a' <= c <= 'f'
  }

  function HexValue(c: char): (n: nat)
    requires IsHexDigit(c)
    ensures n < 16
  {
    if '0' <= c <= '9' then c as int - '0' as int
    else if 'A' <= c <= 'F' then c as int - 'A' as int + 10
    else c as int - 'a' as int + 10
  }

  /** Upper-case hexadecimal digit, as `urlencode` writes it. */
  function HexDigit(n: nat): (c: char)
    requires n < 16
    ensures IsHexDigit(c) && HexValue(c) == n
  {
    if n < 10 then ('0' as int + n) as char else ('A' as int + n - 10) as char
  }

  /** Every character an encoder may emit. */
  predicate IsWireSafe(c: char) {
    IsUnreserved(c) || c == '+' || c == '%' || c as int >= 256
  }

  function EncodeChar(c: char): (e: string)
    ensures forall i :: 0 <= i < |e| ==> IsWireSafe(e[i])
  {
    if IsUnreserved(c) || c as int >= 256 then [c]
    else if c == ' ' then "+"
    else ['%', HexDigit(c as int / 16), HexDigit(c as int % 16)]
  }

  /** `urlencode`: a space becomes '+', every other reserved character a '%XX' escape. */
  function UrlEncode(s: string): (e: string)
    ensures forall i :: 0 <= i < |e| ==> IsWireSafe(e[i])
  {
    if s == [] then [] else EncodeChar(s[0]) + UrlEncode(s[1..])
  }

  /** `urldecode`: '+' is a space, '%XX' a character, and anything else (a stray '%') itself. */
  function UrlDecode(s: string): string {
    if s == [] then []
    else if s[0] == '+' then [' '] + UrlDecode(s[1..])
    else if s[0] == '%' && |s| >= 3 && IsHexDigit(s[1]) && IsHexDigit(s[2]) then
      [(HexValue(s[1]) * 16 + HexValue(s[2])) as char] + UrlDecode(s[3..])
    else [s[0]] + UrlDecode(s[1..])
  }

  lemma DecodeEncodedChar(c: char, t: string)
    ensures UrlDecode(EncodeChar(c) + t) == [c] + UrlDecode(t)
  {
    var e := EncodeChar(c) + t;
    if !(IsUnreserved(c) || c as int >= 256) && c != ' ' {
      assert e[3..] == t;
      assert e[0] == '%' && e[1] == HexDigit(c as int / 16) && e[2] == HexDigit(c as int % 16);
    } else {
      assert e[1..] == t;
    }
  }

  lemma {:induction false} UrlDecodeEncode(s: string)
    ensures UrlDecode(UrlEncode(s)) == s
  {
    if s != [] {
      DecodeEncodedChar(s[0], UrlEncode(s[1..]));
      UrlDecodeEncode(s[1..]);
    }
  }

  // ---------------------------------------------------------------- trim

  /** The characters PHP's `trim` strips by default: " \t\n\r\0\x0B". */
  predicate IsTrimmed(c: char) {
    c == ' ' || c == '\t' || c == '\n' || c == '\r' || c as int == 0 || c as int == 11
  }

  function TrimLeft(s: string): (r: string)
    ensures |r| <= |s| && r == s[|s| - |r|..]
    ensures forall i :: 0 <= i < |s| - |r| ==> IsTrimmed(s[i])
    ensures r == [] || !IsTrimmed(r[0])
  {
    if s != [] && IsTrimmed(s[0]) then
      var r := TrimLeft(s[1..]);
      assert s[1..][|s| - 1 - |r|..] == s[|s| - |r|..];
      r
    else s
  }

  function TrimRight(s: string): (r: string)
    ensures |r| <= |s| && r == s[..|r|]
    ensures forall i :: |r| <= i < |s| ==> IsTrimmed(s[i])
    ensures r == [] || !IsTrimmed(r[|r| - 1])
  {
    if s != [] && IsTrimmed(s[|s| - 1]) then
      var r := TrimRight(s[..|s| - 1]);
      assert s[..|s| - 1][..|r|] == s[..|r|];
      r
    else s
  }

  /** `trim`. */
  function Trim(s: string): string {
    TrimRight(TrimLeft(s))
  }

  lemma {:induction false} TrimLeftPadding(pad: string, t: string)
    requires forall i :: 0 <= i < |pad| ==> IsTrimmed(pad[i])
    requires t == [] || !IsTrimmed(t[0])
    ensures TrimLeft(pad + t) == t
  {
    if pad != [] {
      assert (pad + t)[1..] == pad[1..] + t;
      TrimLeftPadding(pad[1..], t);
    } else {
      assert pad + t == t;
    }
  }

  lemma {:induction false} TrimRightPadding(t: string, pad: string)
    requires forall i :: 0 <= i < |pad| ==> IsTrimmed(pad[i])
    requires t == [] || !IsTrimmed(t[|t| - 1])
    ensures TrimRight(t + pad) == t
  {
    if pad != [] {
      assert (t + pad)[..|t + pad| - 1] == t + pad[..|pad| - 1];
      TrimRightPadding(t, pad[..|pad| - 1]);
    } else {
      assert t + pad == t;
    }
  }

  /** Trimming removes exactly the padding around a text that has none of its own. */
  lemma TrimPadded(lead: string, t: string, pad: string)
    requires forall i :: 0 <= i < |lead| ==> IsTrimmed(lead[i])
    requires forall i :: 0 <= i < |pad| ==> IsTrimmed(pad[i])
    requires t == [] || (!IsTrimmed(t[0]) && !IsTrimmed(t[|t| - 1]))
    ensures Trim(lead + t + pad) == t
  {
    if t == [] {
      assert lead + t + pad == (lead + pad) + [];
      TrimLeftPadding(lead + pad, []);
    } else {
      assert lead + t + pad == lead + (t + pad);
      TrimLeftPadding(lead, t + pad);
      TrimRightPadding(t, pad);
    }
  }

  // ---------------------------------------------------------------- explode / implode

  /** `implode(d, ps)`. */
  function Join(ps: seq<string>, d: char): string
    requires |ps| >= 1
  {
    if |ps| == 1 then ps[0] else ps[0] + [d] + Join(ps[1..], d)
  }

  /** `explode(d, s)`: split at every `d`; an empty string gives one empty piece. */
  function Explode(s: string, d: char): (r: seq<string>)
    ensures |r| >= 1
    ensures forall i :: 0 <= i < |r| ==> d !in r[i]
    ensures Join(r, d) == s
  {
    if s == [] then [[]]
    else
      var rest := Explode(s[1..], d);
      if s[0] == d then
        assert ([[]] + rest)[1..] == rest;
        [[]] + rest
      else
        var r := [[s[0]] + rest[0]] + rest[1..];
        assert |rest| > 1 ==> r[1..] == rest[1..];
        r
  }

  lemma {:induction false} ExplodeNoSeparator(s: string, d: char)
    requires d !in s
    ensures Explode(s, d) == [s]
  {
    var r := Explode(s, d);
    if |r| > 1 {
      assert false;
    }
  }

  lemma {:induction false} ExplodeConcat(a: string, b: string, d: char)
    requires d !in a
    ensures Explode(a + [d] + b, d) == [a] + Explode(b, d)
  {
    if a == [] {
      assert (a + [d] + b)[1..] == b;
    } else {
      assert (a + [d] + b)[1..] == a[1..] + [d] + b;
      ExplodeConcat(a[1..], b, d);
      assert [a[0]] + a[1..] == a;
    }
  }

  /** `explode` undoes `implode` when no piece holds the separator. */
  lemma {:induction false} ExplodeJoin(ps: seq<string>, d: char)
    requires |ps| >= 1
    requires forall i :: 0 <= i < |ps| ==> d !in ps[i]
    ensures Explode(Join(ps, d), d) == ps
  {
    if |ps| == 1 {
      ExplodeNoSeparator(ps[0], d);
    } else {
      ExplodeJoin(ps[1..], d);
      ExplodeConcat(ps[0], Join(ps[1..], d), d);
      assert [ps[0]] + ps[1..] == ps;
    }
  }

  lemma {:induction false} JoinSnoc(ps: seq<string>, x: string, d: char)
    requires |ps| >= 1
    ensures Join(ps + [x], d) == Join(ps, d) + [d] + x
    decreases |ps|
  {
    if |ps| > 1 {
      assert (ps + [x])[1..] == ps[1..] + [x];
      JoinSnoc(ps[1..], x, d);
    }
  }

  /** A last piece without the separator is the last piece of the split. */
  lemma ExplodeSnoc(a: string, b: string, d: char)
    requires d !in b
    ensures Explode(a + [d] + b, d) == Explode(a, d) + [b]
  {
    var r := Explode(a, d) + [b];
    JoinSnoc(Explode(a, d), b, d);
    assert forall i :: 0 <= i < |r| ==> d !in r[i] by {
      forall i | 0 <= i < |r| ensures d !in r[i] {
        if i < |r| - 1 { assert r[i] == Explode(a, d)[i]; }
      }
    }
    ExplodeJoin(r, d);
  }

  /** The text before the first `d` and the text after it (all of `s` and "" when there is none). */
  function SplitFirst(s: string, d: char): (r: (string, string))
    ensures d !in r.0
    ensures if d in s then s == r.0 + [d] + r.1 else r == (s, "")
  {
    if s == [] then ([], [])
    else if s[0] == d then ([], s[1..])
    else
      var t := SplitFirst(s[1..], d);
      assert s == [s[0]] + s[1..];
      ([s[0]] + t.0, t.1)
  }

  lemma {:induction false} SplitFirstConcat(a: string, b: string, d: char)
    requires d !in a
    ensures SplitFirst(a + [d] + b, d) == (a, b)
  {
    if a == [] {
      assert (a + [d] + b)[1..] == b;
    } else {
      assert (a + [d] + b)[1..] == a[1..] + [d] + b;
      SplitFirstConcat(a[1..], b, d);
      assert [a[0]] + a[1..] == a;
    }
  }

  // ---------------------------------------------------------------- query strings

  /** One `k=v` pair as the tracker writes it. */
  function QueryPiece(k: string, v: string): string {
    UrlEncode(k) + "=" + UrlEncode(v)
  }

  function Pieces(f: Assoc): (ps: seq<string>)
    ensures |ps| == |f|
  {
    if f == [] then [] else [QueryPiece(f[0].0, f[0].1)] + Pieces(f[1..])
  }

  /** The tracker's encoding of a field dictionary: `k1=v1&k2=v2...`. */
  function BuildQuery(f: Assoc): string {
    if f == [] then "" else Join(Pieces(f), '&')
  }

  /** One step of `parse_str`: an empty piece or an empty key adds nothing; a repeated key is overwritten. */
  function AddPiece(acc: Assoc, piece: string): (r: Assoc)
    ensures Distinct(acc) && NonEmptyKeys(acc) ==> Distinct(r) && NonEmptyKeys(r)
  {
    var kv := SplitFirst(piece, '=');
    var key := UrlDecode(kv.0);
    if piece == [] || key == [] then acc
    else
      var r := Put(acc, key, UrlDecode(kv.1));
      PutNonEmptyKeys(acc, key, UrlDecode(kv.1));
      if Distinct(acc) then PutKeepsDistinct(acc, key, UrlDecode(kv.1)); r else r
  }

  lemma PutNonEmptyKeys(a: Assoc, k: string, v: string)
    requires k != []
    ensures NonEmptyKeys(a) ==> NonEmptyKeys(Put(a, k, v))
  {
    if NonEmptyKeys(a) {
      var r := Put(a, k, v);
      PutKeys(a, k, v);
      forall i | 0 <= i < |r| ensures r[i].0 != [] {
        assert Keys(r)[i] == r[i].0;
        if k !in Keys(a) && i == |a| {
        } else {
          assert Keys(r)[i] == Keys(a)[i] == a[i].0;
        }
      }
    }
  }

  function ParseFrom(acc: Assoc, ps: seq<string>): (r: Assoc)
    ensures Distinct(acc) && NonEmptyKeys(acc) ==> Distinct(r) && NonEmptyKeys(r)
    decreases |ps|
  {
    if ps == [] then acc else ParseFrom(AddPiece(acc, ps[0]), ps[1..])
  }

  /**
   * `parse_str` restricted to plain keys: split at '&', then each piece at its first '='.
   * Like every PHP array, the result has no repeated key, and no key is empty.
   */
  function ParseQuery(q: string): (r: Assoc)
    ensures Distinct(r) && NonEmptyKeys(r)
  {
    ParseFrom([], Explode(q, '&'))
  }

  predicate NonEmptyKeys(f: Assoc) {
    forall i :: 0 <= i < |f| ==> f[i].0 != []
  }

  predicate IsQueryChar(c: char) {
    IsWireSafe(c) || c == '=' || c == '&'
  }

  lemma QueryPieceShape(k: string, v: string)
    ensures '&' !in QueryPiece(k, v)
    ensures SplitFirst(QueryPiece(k, v), '=') == (UrlEncode(k), UrlEncode(v))
    ensures forall i :: 0 <= i < |QueryPiece(k, v)| ==> IsQueryChar(QueryPiece(k, v)[i])
  {
    var ek, ev := UrlEncode(k), UrlEncode(v);
    EncodedHasNoEquals(k);
    SplitFirstConcat(ek, ev, '=');
    PairChars(ek, ev);
  }

  lemma EncodedHasNoEquals(s: string)
    ensures '=' !in UrlEncode(s)
  {
    var e := UrlEncode(s);
    forall i | 0 <= i < |e| ensures e[i] != '=' {
      assert IsWireSafe(e[i]);
    }
  }

  lemma PairChars(ek: string, ev: string)
    requires forall i :: 0 <= i < |ek| ==> IsWireSafe(ek[i])
    requires forall i :: 0 <= i < |ev| ==> IsWireSafe(ev[i])
    ensures forall i :: 0 <= i < |ek + "=" + ev| ==> IsQueryChar((ek + "=" + ev)[i]) && (ek + "=" + ev)[i] != '&'
  {
    var p := ek + "=" + ev;
    forall i | 0 <= i < |p| ensures IsQueryChar(p[i]) && p[i] != '&' {
      if i < |ek| {
        assert p[i] == ek[i] && IsWireSafe(ek[i]);
      } else if i > |ek| {
        assert p[i] == ev[i - |ek| - 1] && IsWireSafe(ev[i - |ek| - 1]);
      }
    }
  }

  lemma {:induction false} PiecesShape(f: Assoc)
    ensures forall i :: 0 <= i < |Pieces(f)| ==> '&' !in Pieces(f)[i]
    ensures forall i, j :: 0 <= i < |Pieces(f)| && 0 <= j < |Pieces(f)[i]| ==> IsQueryChar(Pieces(f)[i][j])
  {
    if f != [] {
      PiecesShape(f[1..]);
      QueryPieceShape(f[0].0, f[0].1);
    }
  }

  lemma {:induction false} JoinQueryChars(ps: seq<string>)
    requires |ps| >= 1
    requires forall i, j :: 0 <= i < |ps| && 0 <= j < |ps[i]| ==> IsQueryChar(ps[i][j])
    ensures forall j :: 0 <= j < |Join(ps, '&')| ==> IsQueryChar(Join(ps, '&')[j])
  {
    if |ps| > 1 {
      JoinQueryChars(ps[1..]);
      var rest := Join(ps[1..], '&');
      assert forall j :: 0 <= j < |ps[0]| ==> IsQueryChar(ps[0][j]);
      assert Join(ps, '&') == ps[0] + ['&'] + rest;
    }
  }

  /** Nothing in a built query string is a space or a character `trim` strips. */
  lemma BuildQueryChars(f: Assoc)
    ensures forall j :: 0 <= j < |BuildQuery(f)| ==> IsQueryChar(BuildQuery(f)[j])
  {
    if f != [] {
      PiecesShape(f);
      JoinQueryChars(Pieces(f));
    }
  }

  lemma AddQueryPiece(acc: Assoc, k: string, v: string)
    requires k != []
    ensures AddPiece(acc, QueryPiece(k, v)) == Put(acc, k, v)
  {
    QueryPieceShape(k, v);
    UrlDecodeEncode(k);
    UrlDecodeEncode(v);
  }

  lemma ParseStep(acc: Assoc, f: Assoc)
    requires f != [] && f[0].0 != [] && f[0].0 !in Keys(acc)
    ensures ParseFrom(acc, Pieces(f)) == ParseFrom(acc + [f[0]], Pieces(f[1..]))
  {
    var k, v := f[0].0, f[0].1;
    AddQueryPiece(acc, k, v);
    PutNewKey(acc, k, v);
    var ps := Pieces(f);
    assert ps[0] == QueryPiece(k, v);
    assert ps[1..] == Pieces(f[1..]);
  }

  lemma FreshKeysStep(acc: Assoc, f: Assoc)
    requires f != [] && Distinct(f) && NonEmptyKeys(f)
    requires forall i :: 0 <= i < |f| ==> f[i].0 !in Keys(acc)
    ensures Distinct(f[1..]) && NonEmptyKeys(f[1..])
    ensures forall i :: 0 <= i < |f[1..]| ==> f[1..][i].0 !in Keys(acc + [f[0]])
  {
    var rest := f[1..];
    KeysAppend(acc, f[0]);
    assert f[0].0 !in Keys(rest);
    forall i | 0 <= i < |rest| ensures rest[i].0 !in Keys(acc + [f[0]]) && rest[i].0 != [] {
      assert rest[i] == f[i + 1];
      assert Keys(rest)[i] == rest[i].0;
    }
  }

  lemma AppendFirst(acc: Assoc, f: Assoc)
    requires f != []
    ensures acc + [f[0]] + f[1..] == acc + f
  {
    assert f == [f[0]] + f[1..];
  }

  lemma {:induction false} ParsePieces(acc: Assoc, f: Assoc)
    requires Distinct(f) && NonEmptyKeys(f)
    requires forall i :: 0 <= i < |f| ==> f[i].0 !in Keys(acc)
    ensures ParseFrom(acc, Pieces(f)) == acc + f
    decreases |f|
  {
    if f == [] {
      assert acc + f == acc;
    } else {
      ParseStep(acc, f);
      FreshKeysStep(acc, f);
      ParsePieces(acc + [f[0]], f[1..]);
      AppendFirst(acc, f);
    }
  }

  /** `parse_str` recovers exactly the dictionary the tracker encoded, order included. */
  lemma {:induction false} ParseFromSnoc(acc: Assoc, ps: seq<string>, p: string)
    ensures ParseFrom(acc, ps + [p]) == AddPiece(ParseFrom(acc, ps), p)
    decreases |ps|
  {
    if ps == [] {
      assert ps + [p] == [p] && [p][1..] == [];
    } else {
      assert (ps + [p])[0] == ps[0] && (ps + [p])[1..] == ps[1..] + [p];
      ParseFromSnoc(AddPiece(acc, ps[0]), ps[1..], p);
    }
  }

  /**
   * A repeated key: a later `k=v` piece gives `k` the value `v`, keeps `k` in the place it
   * already had (or puts it last), and leaves every other key as it was.
   */
  lemma ParseQueryLastValue(q: string, k: string, v: string)
    requires k != []
    ensures var before, r := ParseQuery(q), ParseQuery(q + "&" + QueryPiece(k, v));
      Find(r, k) == Some(v)
      && (forall k' :: k' != k ==> Find(r, k') == Find(before, k'))
      && Keys(r) == if k in Keys(before) then Keys(before) else Keys(before) + [k]
  {
    var p := QueryPiece(k, v);
    QueryPieceShape(k, v);
    ExplodeSnoc(q, p, '&');
    ParseFromSnoc([], Explode(q, '&'), p);
    AddQueryPiece(ParseQuery(q), k, v);
    PutKeys(ParseQuery(q), k, v);
  }

  lemma ParseBuildQuery(f: Assoc)
    requires Distinct(f) && NonEmptyKeys(f)
    ensures ParseQuery(BuildQuery(f)) == f
  {
    if f == [] {
      assert Explode("", '&') == [""];
    } else {
      PiecesShape(f);
      ExplodeJoin(Pieces(f), '&');
      ParsePieces([], f);
      assert [] + f == f;
    }
  }
}
