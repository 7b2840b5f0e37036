/**
 * The tracker connection: endpoint addresses, the socket the client holds (`_socket`), and
 * `connect`, `disconnect` and `_do_request` as functions of the session state. The sockets
 * themselves are a scripted stand-in (`Net`): which trackers accept a connection, what each
 * write and read does, and a log of what the trackers received.
 */
module Tracker {
  import opened Wrappers
  import opened Assoc
  import opened UrlCodec
  import opened Decimal
  import opened Protocol
  import opened Errors

  // ---------------------------------------------------------------- endpoints

  datatype Endpoint = Endpoint(host: string, port: nat)

  /** The port used when a tracker address names none. */
  const DefaultPort: nat := 7001

  /** Where the run of digits that ends `s` begins. */
  function DigitsStart(s: string): (k: nat)
    ensures k <= |s|
    ensures AllDigits(s[k..])
    ensures k == 0 || !IsDigit(s[k - 1])
  {
    if s == [] || !IsDigit(s[|s| - 1]) then |s|
    else
      var k := DigitsStart(s[..|s| - 1]);
      assert s[k..] == s[..|s| - 1][k..] + [s[|s| - 1]];
      k
  }

  /**
   * A host name as the model recognises it inside an authority: non-empty, and free of ':' and
   * '/' and of '@', '?' and '#', which `parse_url` would read as user information, a query or
   * a fragment.
   */
  predicate ValidHost(h: string) {
    h != [] && ':' !in h && '/' !in h && '@' !in h && '?' !in h && '#' !in h
  }

  /** An endpoint `parse_url` can report: a valid host and a port from 1 to 65535. */
  predicate ValidEndpoint(e: Endpoint) {
    ValidHost(e.host) && 1 <= e.port <= 65535
  }

  /**
   * `fsockopen($parts['host'], 7001)` when `parse_url` reports no host: the host is NULL,
   * which is the empty string, and no tracker accepts it.
   */
  const NoHost := Endpoint("", DefaultPort)

  /** `host:port`, with one to five digits of port whose value is 1 to 65535; anything else is None. */
  function HostPort(a: string): (r: Option<Endpoint>)
    ensures r.Some? ==> ValidEndpoint(r.value)
  {
    var k := DigitsStart(a);
    if 1 < k < |a| && a[k - 1] == ':' && |a| - k <= 5 && ValidHost(a[..k - 1])
       && 1 <= DecimalValue(a[k..]) <= 65535
    then Some(Endpoint(a[..k - 1], DecimalValue(a[k..])))
    else None
  }

  /**
   * `$parts['host']` and `isset($parts['port']) ? $parts['port'] : 7001` for a tracker
   * address. `parse_url` reports a host for `host:port` and for `//host` or `//host:port`.
   * A bare word is a path, and a port of 0, above 65535 or of six digits makes `parse_url`
   * fail; in those cases there is no host.
   */
  function ParseTracker(s: string): Endpoint {
    if |s| >= 2 && s[..2] == "//" then
      var a := s[2..];
      if ValidHost(a) then Endpoint(a, DefaultPort)
      else HostPort(a).GetOr(NoHost)
    else HostPort(s).GetOr(NoHost)
  }

  /** Every address either names a valid host and port, or names no host at all. */
  lemma ParseTrackerShape(s: string)
    ensures ParseTracker(s).host != "" ==> ValidEndpoint(ParseTracker(s))
    ensures ParseTracker(s).host == "" ==> ParseTracker(s) == NoHost
  {
  }

  /** The address a configuration would write for an endpoint. */
  function RenderTracker(e: Endpoint): string {
    e.host + ":" + NatToDecimal(e.port)
  }

  lemma {:induction false} DigitsStartSuffix(a: string, b: string)
    requires a == [] || !IsDigit(a[|a| - 1])
    requires AllDigits(b)
    ensures DigitsStart(a + b) == |a|
    decreases |b|
  {
    if b == [] {
      assert a + b == a;
    } else {
      var s := a + b;
      assert s[..|s| - 1] == a + b[..|b| - 1];
      DigitsStartSuffix(a, b[..|b| - 1]);
    }
  }

  /** Parsing a rendered address gives the endpoint back, for every endpoint `parse_url` can report. */
  lemma ParseRenderTracker(e: Endpoint)
    requires ValidEndpoint(e)
    ensures ParseTracker(RenderTracker(e)) == e
  {
    var s := RenderTracker(e);
    HostPortRender(e);
    assert s[0] == e.host[0];
    assert e.host[0] != '/' by {
      assert e.host[0] in e.host;
    }
  }

  lemma HostPortRender(e: Endpoint)
    requires ValidEndpoint(e)
    ensures HostPort(RenderTracker(e)) == Some(e)
  {
    var a := e.host + ":";
    var digits := NatToDecimal(e.port);
    var s := a + digits;
    assert RenderTracker(e) == s;
    DigitsStartSuffix(a, digits);
    var k := |a|;
    assert DigitsStart(s) == k;
    assert 1 < k < |s| && s[k - 1] == ':';
    ShortDecimal(e.port);
    assert |s| - k <= 5;
    assert s[..k - 1] == e.host;
    assert s[k..] == digits;
    DecimalRoundTrip(e.port);
  }

  /** `//host` names that host on the default port 7001. */
  lemma ParseTrackerDefaultPort(h: string)
    requires ValidHost(h)
    ensures ParseTracker("//" + h) == Endpoint(h, DefaultPort)
  {
    var s := "//" + h;
    assert s[..2] == "//" && s[2..] == h;
  }

  /** A bare word names no host: `parse_url` reports it as a path, and the attempt fails. */
  lemma ParseTrackerNoHost(s: string, n: Net)
    requires ':' !in s
    requires !(|s| >= 2 && s[..2] == "//")
    ensures ParseTracker(s) == NoHost
    ensures !OpenAttempt(n, ParseTracker(s)).1
  {
    var k := DigitsStart(s);
    if 1 < k < |s| {
      assert s[k - 1] in s;
    }
  }

  /** A port of 0 makes `parse_url` fail, so the address names no host. */
  lemma ParseTrackerPortZero(h: string)
    requires ValidHost(h)
    ensures ParseTracker(h + ":0") == NoHost
  {
    var s := h + ":0";
    assert s[0] == h[0] && h[0] != '/' by {
      assert h[0] in h;
    }
    DigitsStartSuffix(h + ":", "0");
    assert s[|h| + 1..] == "0";
    assert DecimalValue("0") == 0 by {
      assert "0"[..0] == "";
    }
  }

  // ---------------------------------------------------------------- the sockets

  /** What happens to one request on the wire. */
  datatype Exchange =
    | WriteFails            // fwrite returns FALSE on a stream that is still open
    | WriteHitsEof          // fwrite returns FALSE because the tracker closed the stream
    | ReadFails             // fgets returns FALSE: an error or a timeout
    | ReadHitsEof           // fgets returns FALSE because the tracker closed the stream
    | Replies(line: string) // fgets returns this line, terminator included
    | RepliesThenEof(line: string) // fgets returns this line, and the tracker then closes the stream

  datatype Net = Net(
    reachable: set<Endpoint>,          // the trackers fsockopen can reach
    eof: bool,                         // feof on the open stream
    script: seq<Exchange>,             // what the coming requests meet, in order
    attempts: seq<Endpoint>,           // every fsockopen, in order
    received: seq<(Endpoint, string)>) // every line a tracker received, and which tracker

  /** The `_socket` field: NULL (or FALSE), or a stream to one tracker. */
  datatype Conn = Disconnected | Connected(endpoint: Endpoint)

  /** The client's connection together with the world it talks to. */
  datatype Session = Session(conn: Conn, net: Net)

  /** `connected()`: a socket is held and its stream has not reached end-of-file. */
  predicate IsConnected(s: Session) {
    s.conn.Connected? && !s.net.eof
  }

  /** The tracker at `e` accepts a connection: it names a host and is reachable. */
  predicate Accepts(up: set<Endpoint>, e: Endpoint) {
    e.host != "" && e in up
  }

  /** `fsockopen`: a reachable tracker yields a fresh stream; a NULL host never connects. */
  function OpenAttempt(n: Net, ep: Endpoint): (Net, bool) {
    var ok := Accepts(n.reachable, ep);
    (n.(attempts := n.attempts + [ep], eof := if ok then false else n.eof), ok)
  }

  /** `fwrite` of a whole line: it either fails, maybe at end-of-file, or the tracker receives the line. */
  function WriteLine(n: Net, ep: Endpoint, line: string): (Net, bool) {
    if n.script != [] && n.script[0] == WriteFails then (n.(script := n.script[1..]), false)
    else if n.script != [] && n.script[0] == WriteHitsEof then (n.(script := n.script[1..], eof := true), false)
    else (n.(received := n.received + [(ep, line)]), true)
  }

  /** `fgets`: the next scripted reply, or FALSE; an empty script is a read that times out. */
  function ReadReply(n: Net): (Net, Option<string>) {
    if n.script == [] then (n, None)
    else match n.script[0]
      case Replies(line) => (n.(script := n.script[1..]), Some(line))
      case RepliesThenEof(line) => (n.(script := n.script[1..], eof := true), Some(line))
      case ReadHitsEof => (n.(script := n.script[1..], eof := true), None)
      case _ => (n.(script := n.script[1..]), None)
  }

  // ---------------------------------------------------------------- connect / disconnect

  /** The endpoints the tracker addresses name, in configured order. */
  function Endpoints(ts: seq<string>): (es: seq<Endpoint>)
    ensures |es| == |ts|
    ensures forall i :: 0 <= i < |ts| ==> es[i] == ParseTracker(ts[i])
  {
    seq(|ts|, i requires 0 <= i < |ts| => ParseTracker(ts[i]))
  }

  /** The position of the first reachable tracker, or |ts| when there is none. */
  function FirstReachable(ts: seq<string>, up: set<Endpoint>): (k: nat)
    ensures k <= |ts|
    ensures forall j :: 0 <= j < k ==> !Accepts(up, ParseTracker(ts[j]))
    ensures k < |ts| ==> Accepts(up, ParseTracker(ts[k]))
  {
    if ts == [] then 0
    else if Accepts(up, ParseTracker(ts[0])) then 0
    else 1 + FirstReachable(ts[1..], up)
  }

  /**
   * `connect()`: nothing when already connected; otherwise one pass over the trackers in order
   * that stops at the first one accepting the connection. A failed `fsockopen` leaves FALSE in
   * `_socket`.
   */
  function ConnectSpec(ts: seq<string>, s: Session): (out: (Session, Outcome<MogileError>))
    ensures IsConnected(s) ==> out == (s, Pass)
    ensures out.1.Pass? ==> IsConnected(out.0)
    ensures out.1.Fail? ==> out.1.error == NoTracker && !IsConnected(out.0)
    ensures out.0.net.received == s.net.received && out.0.net.script == s.net.script
    ensures out.0.net.reachable == s.net.reachable
  {
    if IsConnected(s) then (s, Pass)
    else
      var k := FirstReachable(ts, s.net.reachable);
      if k < |ts| then
        (Session(Connected(ParseTracker(ts[k])),
                 s.net.(attempts := s.net.attempts + Endpoints(ts[..k + 1]), eof := false)),
         Pass)
      else
        (Session(if ts == [] then s.conn else Disconnected,
                 s.net.(attempts := s.net.attempts + Endpoints(ts))),
         Fail(NoTracker))
  }

  /** `disconnect()`: close and clear the socket, but only when `connected()` holds. */
  function DisconnectSpec(s: Session): (r: Session)
    ensures !IsConnected(r) && r.net == s.net
    ensures IsConnected(s) ==> r.conn == Disconnected
    ensures !IsConnected(s) ==> r == s
  {
    if IsConnected(s) then Session(Disconnected, s.net) else s
  }

  /** Ordered failover: the live tracker is the lowest-indexed reachable one, and each tracker before it was tried once. */
  lemma ConnectFailover(ts: seq<string>, s: Session)
    requires !IsConnected(s)
    ensures var out := ConnectSpec(ts, s);
      (out.1.Pass? <==> exists i :: 0 <= i < |ts| && Accepts(s.net.reachable, ParseTracker(ts[i])))
      && (out.1.Pass? ==>
            (exists k :: 0 <= k < |ts|
              && out.0.conn == Connected(ParseTracker(ts[k]))
              && (forall j :: 0 <= j < k ==> !Accepts(s.net.reachable, ParseTracker(ts[j])))
              && out.0.net.attempts == s.net.attempts + Endpoints(ts[..k + 1])))
      && (out.1.Fail? ==>
            (out.0.net.attempts == s.net.attempts + Endpoints(ts)
              && forall i :: 0 <= i < |ts| ==> !Accepts(s.net.reachable, ParseTracker(ts[i]))))
  {
    var k := FirstReachable(ts, s.net.reachable);
    if k < |ts| {
      assert Accepts(s.net.reachable, ParseTracker(ts[k]));
    }
  }

  /** Two trackers, the first unreachable: the client ends up on the second after trying both. */
  lemma FailoverToSecond(a: string, b: string, s: Session)
    requires !IsConnected(s)
    requires !Accepts(s.net.reachable, ParseTracker(a)) && Accepts(s.net.reachable, ParseTracker(b))
    ensures ConnectSpec([a, b], s).1 == Pass
    ensures ConnectSpec([a, b], s).0.conn == Connected(ParseTracker(b))
    ensures ConnectSpec([a, b], s).0.net.attempts == s.net.attempts + [ParseTracker(a), ParseTracker(b)]
  {
    assert FirstReachable([a, b], s.net.reachable) == 1 by {
      assert [a, b][1..] == [b];
    }
    assert [a, b][..2] == [a, b];
  }

  // ---------------------------------------------------------------- one request

  /**
   * `_do_request($cmd, $args)`: connect if needed, write the encoded line, read one line back
   * and decode it. A failed write, a failed read and an unrecognised status disconnect; an
   * `ERR` reply does not.
   */
  function RequestSpec(ts: seq<string>, cmd: string, args: Assoc, s: Session): (Session, Result<Assoc, MogileError>) {
    var (s1, c) := ConnectSpec(ts, s);
    if c.Fail? then (s1, Failure(c.error))
    else
      var ep := s1.conn.endpoint;
      var (n2, wrote) := WriteLine(s1.net, ep, RequestLine(cmd, args));
      if !wrote then (DisconnectSpec(Session(s1.conn, n2)), Failure(WriteFailed))
      else
        var (n3, reply) := ReadReply(n2);
        var s3 := Session(s1.conn, n3);
        if reply.None? then (DisconnectSpec(s3), Failure(ReadFailed))
        else match DecodeResponse(reply.value)
          case Ok(fields) => (s3, Success(fields))
          case Err(code, line) => (s3, Failure(MapError(code, line, Field(args, "key"))))
          case Unrecognised => (DisconnectSpec(s3), Failure(UnknownResponse))
  }

  /** No line is written without a live connection, and at most the one encoded line is written. */
  lemma RequestWritesOneLine(ts: seq<string>, cmd: string, args: Assoc, s: Session)
    ensures var out := RequestSpec(ts, cmd, args, s);
      var conn := ConnectSpec(ts, s);
      (conn.1.Fail? ==> out == (conn.0, Failure(NoTracker)))
      && out.0.net.attempts == conn.0.net.attempts
      && (out.0.net.received == s.net.received
          || (conn.1.Pass? && IsConnected(conn.0)
              && out.0.net.received == s.net.received + [(conn.0.conn.endpoint, RequestLine(cmd, args))]))
  {
  }

  /**
   * After a failed write or read the client is not connected: `disconnect()` cleared the
   * socket, or the stream is at end-of-file and `disconnect()` left the stale stream in place.
   */
  lemma TransportFailureDisconnects(ts: seq<string>, cmd: string, args: Assoc, s: Session)
    ensures var out := RequestSpec(ts, cmd, args, s);
      (out.1 == Failure(WriteFailed) || out.1 == Failure(ReadFailed)) ==>
        !IsConnected(out.0) && (out.0.conn == Disconnected || out.0.net.eof)
  {
  }

  /**
   * A connected client whose write or read fails: exactly the write failures raise
   * WriteFailed and exactly the read failures raise ReadFailed, no reply is decoded, and
   * the socket is cleared unless the stream reached end-of-file.
   */
  lemma ConnectedTransportFailure(ts: seq<string>, cmd: string, args: Assoc, s: Session)
    requires IsConnected(s)
    ensures var out := RequestSpec(ts, cmd, args, s);
      var x := s.net.script;
      var sent := s.net.received + [(s.conn.endpoint, RequestLine(cmd, args))];
      (out.1 == Failure(WriteFailed) <==> x != [] && (x[0] == WriteFails || x[0] == WriteHitsEof))
      && (out.1 == Failure(ReadFailed) <==> x == [] || x[0] == ReadFails || x[0] == ReadHitsEof)
      && (x != [] && x[0] == WriteFails ==>
            out.0 == Session(Disconnected, s.net.(script := x[1..])))
      && (x != [] && x[0] == WriteHitsEof ==>
            out.0 == Session(s.conn, s.net.(script := x[1..], eof := true)))
      && (x == [] ==> out.0 == Session(Disconnected, s.net.(received := sent)))
      && (x != [] && x[0] == ReadFails ==>
            out.0 == Session(Disconnected, s.net.(script := x[1..], received := sent)))
      && (x != [] && x[0] == ReadHitsEof ==>
            out.0 == Session(s.conn, s.net.(script := x[1..], received := sent, eof := true)))
  {
    var x := s.net.script;
    var ep, line := s.conn.endpoint, RequestLine(cmd, args);
    assert ConnectSpec(ts, s) == (s, Pass);
    if x == [] {
      assert WriteLine(s.net, ep, line) == (s.net.(received := s.net.received + [(ep, line)]), true);
    } else {
      match x[0]
      case WriteFails =>
      case WriteHitsEof =>
      case ReadFails =>
        assert WriteLine(s.net, ep, line).1;
      case ReadHitsEof =>
        assert WriteLine(s.net, ep, line).1;
      case Replies(l) =>
        ConnectedReply(ts, cmd, args, s, l);
      case RepliesThenEof(l) =>
        ConnectedReplyThenEof(ts, cmd, args, s, l);
    }
  }

  /** A client that is not connected reconnects before it writes: the first reachable tracker gets the line. */
  lemma RequestReconnects(ts: seq<string>, cmd: string, args: Assoc, s: Session)
    requires !IsConnected(s)
    ensures var out := RequestSpec(ts, cmd, args, s);
      var k := FirstReachable(ts, s.net.reachable);
      out.0.net.attempts == s.net.attempts + Endpoints(if k < |ts| then ts[..k + 1] else ts)
      && (|out.0.net.received| > |s.net.received| ==>
            k < |ts| && out.0.net.received == s.net.received + [(ParseTracker(ts[k]), RequestLine(cmd, args))])
  {
    var k := FirstReachable(ts, s.net.reachable);
    var conn := ConnectSpec(ts, s);
    ConnectFailover(ts, s);
    if k < |ts| {
      assert conn.0.conn == Connected(ParseTracker(ts[k]));
      RequestWritesOneLine(ts, cmd, args, s);
    } else {
      assert conn.1.Fail?;
    }
  }

  /**
   * Once `connect()` succeeds, a request from a client that was not connected goes on exactly
   * as one from the freshly connected client, so the lemmas about a connected client apply.
   */
  lemma RequestAfterConnect(ts: seq<string>, cmd: string, args: Assoc, s: Session)
    requires ConnectSpec(ts, s).1.Pass?
    ensures IsConnected(ConnectSpec(ts, s).0)
    ensures RequestSpec(ts, cmd, args, s) == RequestSpec(ts, cmd, args, ConnectSpec(ts, s).0)
  {
  }

  /** A connected client that meets the reply `line`: what it returns and what it keeps. */
  lemma ConnectedReply(ts: seq<string>, cmd: string, args: Assoc, s: Session, line: string)
    requires IsConnected(s)
    requires s.net.script != [] && s.net.script[0] == Replies(line)
    ensures var out := RequestSpec(ts, cmd, args, s);
      out.0.net.received == s.net.received + [(s.conn.endpoint, RequestLine(cmd, args))]
      && out.0.net.script == s.net.script[1..]
      && match DecodeResponse(line)
         case Ok(fields) => out.1 == Success(fields) && out.0 == Session(s.conn, out.0.net) && IsConnected(out.0)
         case Err(code, l) => out.1 == Failure(MapError(code, l, Field(args, "key"))) && out.0.conn == s.conn && IsConnected(out.0)
         case Unrecognised => out.1 == Failure(UnknownResponse) && out.0.conn == Disconnected
  {
  }

  /**
   * A connected client whose tracker answers `line` and then closes its end: the reply is
   * decoded as before, but `connected()` is now false, and since `disconnect()` returns at
   * once for an unrecognised reply the stale stream stays in `_socket` in every case.
   */
  lemma ConnectedReplyThenEof(ts: seq<string>, cmd: string, args: Assoc, s: Session, line: string)
    requires IsConnected(s)
    requires s.net.script != [] && s.net.script[0] == RepliesThenEof(line)
    ensures var out := RequestSpec(ts, cmd, args, s);
      out.0 == Session(s.conn, s.net.(script := s.net.script[1..], eof := true,
                                      received := s.net.received + [(s.conn.endpoint, RequestLine(cmd, args))]))
      && !IsConnected(out.0)
      && match DecodeResponse(line)
         case Ok(fields) => out.1 == Success(fields)
         case Err(code, l) => out.1 == Failure(MapError(code, l, Field(args, "key")))
         case Unrecognised => out.1 == Failure(UnknownResponse)
  {
    var sent := s.net.received + [(s.conn.endpoint, RequestLine(cmd, args))];
    assert ConnectSpec(ts, s) == (s, Pass);
    assert WriteLine(s.net, s.conn.endpoint, RequestLine(cmd, args)) == (s.net.(received := sent), true);
    assert ReadReply(s.net.(received := sent))
      == (s.net.(script := s.net.script[1..], eof := true, received := sent), Some(line));
  }

  /** The tracker's `OK` line hands back exactly the fields it encoded, and the connection stays. */
  lemma OkReplyReturnsFields(ts: seq<string>, cmd: string, args: Assoc, s: Session, fields: Assoc)
    requires IsConnected(s) && Distinct(fields) && NonEmptyKeys(fields)
    requires s.net.script != [] && s.net.script[0] == Replies(OkLine(fields))
    ensures RequestSpec(ts, cmd, args, s).1 == Success(fields)
    ensures IsConnected(RequestSpec(ts, cmd, args, s).0)
  {
    OkLineRoundTrip(fields);
    ConnectedReply(ts, cmd, args, s, OkLine(fields));
  }

  /** `ERR unknown_key ...` for a request about key k raises UnknownKey(k), naming k, and keeps the connection. */
  lemma UnknownKeyReply(ts: seq<string>, cmd: string, args: Assoc, s: Session, message: string)
    requires IsConnected(s)
    requires s.net.script != [] && s.net.script[0] == Replies("ERR unknown_key " + message)
    ensures RequestSpec(ts, cmd, args, s).1 == Failure(UnknownKey(Field(args, "key")))
    ensures Mentions(Message(UnknownKey(Field(args, "key"))), "'" + Field(args, "key") + "'")
    ensures RequestSpec(ts, cmd, args, s).0.conn == s.conn && IsConnected(RequestSpec(ts, cmd, args, s).0)
  {
    var line := "ERR unknown_key " + message;
    assert line == "ERR " + "unknown_key" + " " + message;
    ErrLineCode("unknown_key", message);
    ConnectedReply(ts, cmd, args, s, line);
    MessageNamesKey(UnknownKey(Field(args, "key")));
  }

  // ---------------------------------------------------------------- the socket stand-in

  /** The scripted sockets and trackers the client talks to. */
  class Network {
    var state: Net

    constructor (initial: Net)
      ensures state == initial
    {
      state := initial;
    }

    method Open(ep: Endpoint) returns (ok: bool)
      modifies this
      ensures (state, ok) == OpenAttempt(old(state), ep)
    {
      var (next, o) := OpenAttempt(state, ep);
      state, ok := next, o;
    }

    method Write(ep: Endpoint, line: string) returns (ok: bool)
      modifies this
      ensures (state, ok) == WriteLine(old(state), ep, line)
    {
      var (next, o) := WriteLine(state, ep, line);
      state, ok := next, o;
    }

    method ReadLine() returns (line: Option<string>)
      modifies this
      ensures (state, line) == ReadReply(old(state))
    {
      var (next, l) := ReadReply(state);
      state, line := next, l;
    }
  }
}
