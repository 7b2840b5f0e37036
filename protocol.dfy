/**
 * The tracker's line protocol as the client speaks it: one request line
 * `CMD&k1=v1&k2=v2\n` out, one response line `OK <query>` or `ERR <code> <message>` back.
 */
module Protocol {
  import opened Wrappers
  import opened Assoc
  import opened UrlCodec

  // ---------------------------------------------------------------- requests

  /** The argument pieces `'&' . urlencode($key) . '=' . urlencode($value)`, in insertion order. */
  function EncodeArgs(args: Assoc): string {
    if args == [] then "" else "&" + QueryPiece(args[0].0, args[0].1) + EncodeArgs(args[1..])
  }

  /** The line `_do_request` writes to the socket. */
  function RequestLine(cmd: string, args: Assoc): string {
    cmd + EncodeArgs(args) + "\n"
  }

  /** `$params` built by the `foreach` over the arguments, then the line that is written. */
  method EncodeRequest(cmd: string, args: Assoc) returns (line: string)
    ensures line == RequestLine(cmd, args)
  {
    var params := "";
    var i := 0;
    while i < |args|
      invariant 0 <= i <= |args|
      invariant params + EncodeArgs(args[i..]) == EncodeArgs(args)
    {
      var piece := "&" + (UrlEncode(args[i].0) + "=" + UrlEncode(args[i].1));
      EncodeArgsStep(args, i, params, piece);
      params := params + piece;
      i := i + 1;
    }
    assert args[i..] == [];
    line := cmd + params + "\n";
  }

  lemma EncodeArgsStep(args: Assoc, i: nat, params: string, piece: string)
    requires i < |args|
    requires piece == "&" + QueryPiece(args[i].0, args[i].1)
    ensures params + EncodeArgs(args[i..]) == (params + piece) + EncodeArgs(args[i + 1..])
  {
    SliceTail(args, i);
    assert EncodeArgs(args[i..]) == piece + EncodeArgs(args[i + 1..]);
  }

  lemma SliceTail(args: Assoc, i: nat)
    requires i < |args|
    ensures args[i..] != [] && args[i..][0] == args[i] && args[i..][1..] == args[i + 1..]
  {
  }

  /** How a tracker reads a request line back: the command, then every `k=v` pair decoded. */
  function ParseRequestLine(line: string): Option<(string, Assoc)> {
    if line == [] || line[|line| - 1] != '\n' then None
    else
      var ps := Explode(line[..|line| - 1], '&');
      Some((ps[0], DecodePairs(ps[1..])))
  }

  function DecodePairs(ps: seq<string>): (a: Assoc)
    ensures |a| == |ps|
  {
    if ps == [] then []
    else
      var kv := SplitFirst(ps[0], '=');
      [(UrlDecode(kv.0), UrlDecode(kv.1))] + DecodePairs(ps[1..])
  }

  lemma {:induction false} EncodeArgsPieces(args: Assoc)
    ensures EncodeArgs(args) == Prefixed(Pieces(args), '&')
    decreases |args|
  {
    if args != [] {
      EncodeArgsPieces(args[1..]);
      assert Pieces(args)[1..] == Pieces(args[1..]);
    }
  }

  /** Each piece preceded by the separator. */
  function Prefixed(ps: seq<string>, d: char): string {
    if ps == [] then "" else [d] + ps[0] + Prefixed(ps[1..], d)
  }

  lemma {:induction false} JoinPrefixed(c: string, ps: seq<string>, d: char)
    ensures c + Prefixed(ps, d) == Join([c] + ps, d)
    decreases |ps|
  {
    if ps != [] {
      JoinPrefixed(ps[0], ps[1..], d);
      assert ([c] + ps)[1..] == [ps[0]] + ps[1..];
      assert [ps[0]] + ps[1..] == ps;
    }
  }

  lemma {:induction false} DecodePieces(args: Assoc)
    ensures DecodePairs(Pieces(args)) == args
  {
    if args != [] {
      var k, v := args[0].0, args[0].1;
      DecodeQueryPiece(k, v);
      var ps := Pieces(args);
      assert ps[0] == QueryPiece(k, v) && ps[1..] == Pieces(args[1..]);
      assert DecodePairs(ps) == [(k, v)] + DecodePairs(ps[1..]);
      DecodePieces(args[1..]);
      assert args == [args[0]] + args[1..];
    }
  }

  lemma DecodeQueryPiece(k: string, v: string)
    ensures DecodePairs([QueryPiece(k, v)]) == [(k, v)]
  {
    QueryPieceShape(k, v);
    UrlDecodeEncode(k);
    UrlDecodeEncode(v);
  }

  /** The tracker recovers the command and every argument, in order, from the line sent. */
  lemma RequestLineRoundTrip(cmd: string, args: Assoc)
    requires '&' !in cmd
    ensures ParseRequestLine(RequestLine(cmd, args)) == Some((cmd, args))
  {
    var line := RequestLine(cmd, args);
    assert line[..|line| - 1] == cmd + EncodeArgs(args);
    EncodeArgsPieces(args);
    JoinPrefixed(cmd, Pieces(args), '&');
    PiecesShape(args);
    var ps := [cmd] + Pieces(args);
    forall i | 0 <= i < |ps| ensures '&' !in ps[i] {
      if i > 0 { assert ps[i] == Pieces(args)[i - 1]; }
    }
    ExplodeJoin(ps, '&');
    assert ps[1..] == Pieces(args);
    DecodePieces(args);
  }

  // ---------------------------------------------------------------- responses

  /** A response line as `_do_request` classifies it. */
  datatype Response =
    | Ok(fields: Assoc)
    | Err(code: Option<string>, line: string)
    | Unrecognised

  /** `explode(' ', $line)`, then a switch on the first word; the line includes its terminator. */
  function DecodeResponse(line: string): Response {
    var words := Explode(line, ' ');
    if words[0] == "OK" then Ok(ParseQuery(Trim(if |words| > 1 then words[1] else "")))
    else if words[0] == "ERR" then Err(if |words| > 1 then Some(words[1]) else None, line)
    else Unrecognised
  }

  /** The line begins with the word `w`: it is `w` alone or `w` followed by a space. */
  predicate StartsWithWord(line: string, w: string) {
    line == w || (|line| > |w| && line[..|w| + 1] == w + " ")
  }

  lemma {:induction false} FirstWord(s: string, d: char, w: string)
    requires d !in w
    ensures Explode(s, d)[0] == w <==> s == w || (|s| > |w| && s[..|w| + 1] == w + [d])
  {
    var r := Explode(s, d);
    if |r| > 1 {
      assert s == r[0] + [d] + Join(r[1..], d);
      if |s| > |w| && s[..|w| + 1] == w + [d] {
        assert s == w + [d] + s[|w| + 1..];
        ExplodeConcat(w, s[|w| + 1..], d);
      }
      if s == w {
        ExplodeNoSeparator(s, d);
      }
    } else {
      assert s == r[0];
      NoSeparatorNoWord(s, w, d);
    }
  }

  lemma NoSeparatorNoWord(s: string, w: string, d: char)
    requires d !in s
    ensures |s| > |w| ==> s[..|w| + 1] != w + [d]
  {
    if |s| > |w| {
      assert s[..|w| + 1][|w|] == s[|w|] != d;
      assert (w + [d])[|w|] == d;
    }
  }

  /** The response kind is decided by the first word alone: exactly `OK`, exactly `ERR`, or neither. */
  lemma DecodeResponseKind(line: string)
    ensures DecodeResponse(line).Ok? <==> StartsWithWord(line, "OK")
    ensures DecodeResponse(line).Err? <==> StartsWithWord(line, "ERR")
    ensures DecodeResponse(line).Unrecognised? <==> !StartsWithWord(line, "OK") && !StartsWithWord(line, "ERR")
  {
    FirstWord(line, ' ', "OK");
    FirstWord(line, ' ', "ERR");
  }

  /** The success line a tracker sends for a dictionary of fields. */
  function OkLine(fields: Assoc): string {
    "OK " + BuildQuery(fields) + "\r\n"
  }

  lemma OkLineWords(q: string)
    requires ' ' !in q
    ensures Explode("OK " + q + "\r\n", ' ') == ["OK", q + "\r\n"]
  {
    assert "OK " + q + "\r\n" == "OK" + [' '] + (q + "\r\n");
    ExplodeConcat("OK", q + "\r\n", ' ');
    ExplodeNoSeparator(q + "\r\n", ' ');
  }

  lemma TrimQuery(q: string)
    requires forall i :: 0 <= i < |q| ==> IsQueryChar(q[i])
    ensures Trim(q + "\r\n") == q
  {
    assert q == [] || (!IsTrimmed(q[0]) && !IsTrimmed(q[|q| - 1])) by {
      if q != [] { assert IsQueryChar(q[0]) && IsQueryChar(q[|q| - 1]); }
    }
    TrimPadded("", q, "\r\n");
    assert "" + q + "\r\n" == q + "\r\n";
  }

  /** Decoding a tracker's `OK` line yields exactly the fields it encoded. */
  lemma OkLineRoundTrip(fields: Assoc)
    requires Distinct(fields) && NonEmptyKeys(fields)
    ensures DecodeResponse(OkLine(fields)) == Ok(fields)
  {
    var q := BuildQuery(fields);
    BuildQueryChars(fields);
    QueryHasNoSpace(q);
    OkLineWords(q);
    DecodeOkWords(OkLine(fields), q + "\r\n");
    TrimQuery(q);
    ParseBuildQuery(fields);
  }

  lemma QueryHasNoSpace(q: string)
    requires forall i :: 0 <= i < |q| ==> IsQueryChar(q[i])
    ensures ' ' !in q
  {
    forall i | 0 <= i < |q| ensures q[i] != ' ' {
      assert IsQueryChar(q[i]);
    }
  }

  lemma DecodeOkWords(line: string, w: string)
    requires Explode(line, ' ') == ["OK", w]
    ensures DecodeResponse(line) == Ok(ParseQuery(Trim(w)))
  {
  }

  /** An `ERR` line carries its second word as the error code and keeps the whole line. */
  lemma ErrLineCode(code: string, rest: string)
    requires ' ' !in code
    ensures DecodeResponse("ERR " + code + " " + rest) == Err(Some(code), "ERR " + code + " " + rest)
  {
    var line := "ERR " + code + " " + rest;
    assert line == "ERR" + [' '] + (code + [' '] + rest);
    ExplodeConcat("ERR", code + [' '] + rest, ' ');
    ExplodeConcat(code, rest, ' ');
  }
}
