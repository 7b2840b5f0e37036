/**
 * The `MogileFS` client: its configuration, the HTTP transfers it makes to storage nodes, the
 * operations `set`, `set_resource`, `get`, `get_paths`, `rename` and `delete` as functions of
 * the session, and the class whose methods carry them out against the tracker connection.
 */
module Client {
  import opened Wrappers
  import opened Assoc
  import opened Decimal
  import opened Protocol
  import opened Errors
  import opened Tracker

  /** The settings the client reads from its configuration. */
  datatype Config = Config(trackers: seq<string>, domain: string, defaultClass: string)

  // ---------------------------------------------------------------- HTTP transfers

  datatype HttpMethod = Get | Put

  datatype Body = NoBody | Text(text: string) | Stream(handle: nat)

  datatype HttpRequest = HttpRequest(url: string, verb: HttpMethod, contentLength: Option<nat>, body: Body)

  datatype HttpResponse = HttpResponse(status: int, body: string)

  /** What is stored: a string (`set`) or an open stream with an optional length (`set_resource`). */
  datatype Payload = Content(text: string) | Resource(handle: nat, length: Option<nat>)

  /** One externally visible action: a `_do_request` call or an HTTP request. */
  datatype Step = TrackerCall(cmd: string, args: Assoc) | Transfer(request: HttpRequest)

  /** The end state, the actions taken in order, and what the operation returned or raised. */
  datatype Run<T> = Run(session: Session, steps: seq<Step>, result: Result<T, MogileError>)

  /** The tracker commands among the steps, in order. */
  function Commands(steps: seq<Step>): (cs: seq<string>)
    ensures |cs| <= |steps|
  {
    if steps == [] then []
    else (if steps[0].TrackerCall? then [steps[0].cmd] else []) + Commands(steps[1..])
  }

  // ---------------------------------------------------------------- set / set_resource

  /** A NULL class means the configured default class. */
  function ClassOrDefault(cfg: Config, cls: Option<string>): string {
    cls.GetOr(cfg.defaultClass)
  }

  function OpenArgs(cfg: Config, key: string, cls: Option<string>): Assoc {
    [("key", key), ("domain", cfg.domain), ("class", ClassOrDefault(cfg, cls))]
  }

  /** `CREATE_CLOSE` names the key and hands back the location `CREATE_OPEN` returned. */
  function CloseArgs(cfg: Config, key: string, location: Assoc): Assoc {
    [("key", key), ("domain", cfg.domain),
     ("devid", Field(location, "devid")), ("fid", Field(location, "fid")), ("path", Field(location, "path"))]
  }

  /** The PUT to the storage path. `set` always sends the length of its content; `set_resource` only when given one. */
  function PutRequest(path: string, payload: Payload): (r: HttpRequest)
    ensures r.url == path && r.verb == Put
    ensures payload.Content? ==> r.contentLength == Some(|payload.text|) && r.body == Text(payload.text)
    ensures payload.Resource? ==> r.contentLength == payload.length && r.body == Stream(payload.handle)
  {
    match payload
    case Content(text) => HttpRequest(path, Put, Some(|text|), Text(text))
    case Resource(handle, length) => HttpRequest(path, Put, length, Stream(handle))
  }

  predicate IsSuccessStatus(status: int) {
    200 <= status <= 299
  }

  /** The two-phase write: `CREATE_OPEN`, the PUT, and `CREATE_CLOSE` only after a 2xx status. */
  function StoreSpec(cfg: Config, s: Session, key: string, cls: Option<string>, payload: Payload,
                     respond: HttpRequest -> HttpResponse): Run<()>
  {
    var openArgs := OpenArgs(cfg, key, cls);
    var (s1, openReply) := RequestSpec(cfg.trackers, "CREATE_OPEN", openArgs, s);
    if openReply.Failure? then Run(s1, [TrackerCall("CREATE_OPEN", openArgs)], Failure(openReply.error))
    else
      var request := PutRequest(Field(openReply.value, "path"), payload);
      var status := respond(request).status;
      if !IsSuccessStatus(status) then
        Run(s1, [TrackerCall("CREATE_OPEN", openArgs), Transfer(request)], Failure(BadStatus(status)))
      else
        var closeArgs := CloseArgs(cfg, key, openReply.value);
        var (s2, closed) := RequestSpec(cfg.trackers, "CREATE_CLOSE", closeArgs, s1);
        Run(s2, [TrackerCall("CREATE_OPEN", openArgs), Transfer(request), TrackerCall("CREATE_CLOSE", closeArgs)],
            if closed.Failure? then Failure(closed.error) else Success(()))
  }

  /** `CREATE_OPEN` carries the key, the domain and the class, defaulted when none is given. */
  lemma OpenArgsClass(cfg: Config, key: string, cls: Option<string>)
    ensures Find(OpenArgs(cfg, key, cls), "key") == Some(key)
    ensures Find(OpenArgs(cfg, key, cls), "domain") == Some(cfg.domain)
    ensures Find(OpenArgs(cfg, key, cls), "class") == Some(if cls.None? then cfg.defaultClass else cls.value)
  {
  }

  /** `CREATE_CLOSE` is requested if and only if `CREATE_OPEN` succeeded and the PUT returned a 2xx status. */
  lemma StoreClosesIffStored(cfg: Config, s: Session, key: string, cls: Option<string>, payload: Payload,
                             respond: HttpRequest -> HttpResponse)
    ensures var r := StoreSpec(cfg, s, key, cls, payload, respond);
      var openReply := RequestSpec(cfg.trackers, "CREATE_OPEN", OpenArgs(cfg, key, cls), s).1;
      ("CREATE_CLOSE" in Commands(r.steps)) <==>
        (openReply.Success? && IsSuccessStatus(respond(PutRequest(Field(openReply.value, "path"), payload)).status))
  {
    var r := StoreSpec(cfg, s, key, cls, payload, respond);
    var openArgs := OpenArgs(cfg, key, cls);
    var openReply := RequestSpec(cfg.trackers, "CREATE_OPEN", openArgs, s).1;
    var o := TrackerCall("CREATE_OPEN", openArgs);
    CommandsOne(o);
    if openReply.Failure? {
      assert r.steps == [o];
    } else {
      var request := PutRequest(Field(openReply.value, "path"), payload);
      CommandsOne(Transfer(request));
      if IsSuccessStatus(respond(request).status) {
        var c := TrackerCall("CREATE_CLOSE", CloseArgs(cfg, key, openReply.value));
        assert r.steps == [o, Transfer(request), c];
        CommandsOne(c);
        CommandsThree(o, Transfer(request), c);
        assert Commands(r.steps) == ["CREATE_OPEN", "CREATE_CLOSE"];
      } else {
        assert r.steps == [o, Transfer(request)];
        CommandsTwo(o, Transfer(request));
        assert Commands(r.steps) == ["CREATE_OPEN"];
      }
    }
  }

  lemma CommandsOne(a: Step)
    ensures Commands([a]) == if a.TrackerCall? then [a.cmd] else []
  {
    assert [a][1..] == [];
  }

  lemma CommandsTwo(a: Step, b: Step)
    ensures Commands([a, b]) == Commands([a]) + Commands([b])
  {
    assert [a, b][1..] == [b];
  }

  lemma CommandsThree(a: Step, b: Step, c: Step)
    ensures Commands([a, b, c]) == Commands([a]) + Commands([b]) + Commands([c])
  {
    assert [a, b, c][1..] == [b, c];
    CommandsTwo(b, c);
  }

  /** After a non-2xx PUT the error carries the status and the tracker hears nothing more. */
  lemma StoreBadStatus(cfg: Config, s: Session, key: string, cls: Option<string>, payload: Payload,
                       respond: HttpRequest -> HttpResponse)
    requires RequestSpec(cfg.trackers, "CREATE_OPEN", OpenArgs(cfg, key, cls), s).1.Success?
    requires !IsSuccessStatus(respond(PutRequest(
               Field(RequestSpec(cfg.trackers, "CREATE_OPEN", OpenArgs(cfg, key, cls), s).1.value, "path"), payload)).status)
    ensures var r := StoreSpec(cfg, s, key, cls, payload, respond);
      var openReply := RequestSpec(cfg.trackers, "CREATE_OPEN", OpenArgs(cfg, key, cls), s);
      var status := respond(PutRequest(Field(openReply.1.value, "path"), payload)).status;
      r.result == Failure(BadStatus(status)) && r.session == openReply.0 && |r.steps| == 2
  {
  }

  /** When `CREATE_CLOSE` is sent, it follows the PUT to the path `CREATE_OPEN` returned and hands back that location. */
  lemma StoreCloseCarriesLocation(cfg: Config, s: Session, key: string, cls: Option<string>, payload: Payload,
                                  respond: HttpRequest -> HttpResponse)
    ensures var r := StoreSpec(cfg, s, key, cls, payload, respond);
      var openReply := RequestSpec(cfg.trackers, "CREATE_OPEN", OpenArgs(cfg, key, cls), s).1;
      |r.steps| == 3 ==>
        openReply.Success?
        && r.steps[1] == Transfer(PutRequest(Field(openReply.value, "path"), payload))
        && r.steps[2] == TrackerCall("CREATE_CLOSE", CloseArgs(cfg, key, openReply.value))
  {
  }

  /** The `CREATE_CLOSE` arguments carry the key and exactly the devid, fid and path of the location. */
  lemma CloseArgsLocation(cfg: Config, key: string, location: Assoc)
    ensures Find(CloseArgs(cfg, key, location), "key") == Some(key)
    ensures Find(CloseArgs(cfg, key, location), "devid") == Some(Field(location, "devid"))
    ensures Find(CloseArgs(cfg, key, location), "fid") == Some(Field(location, "fid"))
    ensures Find(CloseArgs(cfg, key, location), "path") == Some(Field(location, "path"))
  {
    CloseFields(key, cfg.domain, Field(location, "devid"), Field(location, "fid"), Field(location, "path"));
  }

  lemma CloseFields(key: string, domain: string, devid: string, fid: string, path: string)
    ensures var c := [("key", key), ("domain", domain), ("devid", devid), ("fid", fid), ("path", path)];
      Find(c, "key") == Some(key) && Find(c, "devid") == Some(devid)
      && Find(c, "fid") == Some(fid) && Find(c, "path") == Some(path)
  {
    var c := [("key", key), ("domain", domain), ("devid", devid), ("fid", fid), ("path", path)];
    var c1, c2, c3, c4 := c[1..], c[2..], c[3..], c[4..];
    assert c1[0] == ("domain", domain) && c1[1..] == c2;
    assert c2[0] == ("devid", devid) && c2[1..] == c3;
    assert c3[0] == ("fid", fid) && c3[1..] == c4;
    assert c4[0] == ("path", path);
    FindFirst(c, "path");
    FindFirst(c1, "path");
    FindFirst(c2, "path");
    FindFirst(c3, "path");
    FindFirst(c4, "path");
    FindFirst(c, "fid");
    FindFirst(c1, "fid");
    FindFirst(c2, "fid");
    FindFirst(c3, "fid");
    FindFirst(c, "devid");
    FindFirst(c1, "devid");
    FindFirst(c2, "devid");
    FindFirst(c, "key");
  }

  // ---------------------------------------------------------------- get_paths / get

  /** `noverify` is the negation of `verify`, sent as 0 or 1. */
  function GetPathsArgs(cfg: Config, key: string, verify: bool): (a: Assoc)
    ensures Find(a, "noverify") == Some(if verify then "0" else "1")
    ensures Find(a, "key") == Some(key) && Find(a, "domain") == Some(cfg.domain)
  {
    [("key", key), ("noverify", if verify then "0" else "1"), ("domain", cfg.domain)]
  }

  /** `get_paths`: one `GET_PATHS` request; the `paths` count is removed from the reply. */
  function GetPathsSpec(cfg: Config, s: Session, key: string, verify: bool): Run<Assoc> {
    var args := GetPathsArgs(cfg, key, verify);
    var (s1, reply) := RequestSpec(cfg.trackers, "GET_PATHS", args, s);
    Run(s1, [TrackerCall("GET_PATHS", args)],
        if reply.Failure? then Failure(reply.error) else Success(Remove(reply.value, "paths")))
  }

  /** The result never holds a `paths` entry, and holds every other entry of the reply, in the reply's order. */
  lemma GetPathsStripsCount(cfg: Config, s: Session, key: string, verify: bool)
    ensures var r := GetPathsSpec(cfg, s, key, verify);
      var reply := RequestSpec(cfg.trackers, "GET_PATHS", GetPathsArgs(cfg, key, verify), s).1;
      (r.result.Success? <==> reply.Success?)
      && (r.result.Success? ==>
            "paths" !in Keys(r.result.value)
            && (forall k :: k != "paths" ==> Find(r.result.value, k) == Find(reply.value, k))
            && (forall e :: e in r.result.value <==> e in reply.value && e.0 != "paths"))
      && (r.result.Failure? ==> r.result.error == reply.error)
  {
    var reply := RequestSpec(cfg.trackers, "GET_PATHS", GetPathsArgs(cfg, key, verify), s).1;
    var r := GetPathsSpec(cfg, s, key, verify).result;
    assert r == if reply.Failure? then Failure(reply.error) else Success(Remove(reply.value, "paths"));
    if reply.Success? {
      assert Find(r.value, "paths") == None;
    }
  }

  /**
   * A reply that holds the `paths` count once comes back without it, with the path entries
   * in the order the tracker listed them; `get` tries the replicas in that order.
   */
  lemma GetPathsKeepsOrder(cfg: Config, s: Session, key: string, verify: bool, pre: Assoc, n: string, post: Assoc)
    requires RequestSpec(cfg.trackers, "GET_PATHS", GetPathsArgs(cfg, key, verify), s).1
      == Success(pre + [("paths", n)] + post)
    requires "paths" !in Keys(pre) && "paths" !in Keys(post)
    ensures GetPathsSpec(cfg, s, key, verify).result == Success(pre + post)
  {
    RemoveOnce(pre, ("paths", n), post);
  }

  /** A plain GET of one replica path. */
  function GetRequest(url: string): HttpRequest {
    HttpRequest(url, Get, None, NoBody)
  }

  /** The GETs of the paths, in order. */
  function Fetches(urls: seq<string>): (steps: seq<Step>)
    ensures |steps| == |urls|
    ensures forall i :: 0 <= i < |urls| ==> steps[i] == Transfer(GetRequest(urls[i]))
  {
    seq(|urls|, i requires 0 <= i < |urls| => Transfer(GetRequest(urls[i])))
  }

  /** The position of the first path whose GET returns status 200, or |urls| when none does. */
  function FirstOk(urls: seq<string>, respond: HttpRequest -> HttpResponse): (k: nat)
    ensures k <= |urls|
    ensures forall j :: 0 <= j < k ==> respond(GetRequest(urls[j])).status != 200
    ensures k < |urls| ==> respond(GetRequest(urls[k])).status == 200
  {
    if urls == [] then 0
    else if respond(GetRequest(urls[0])).status == 200 then 0
    else 1 + FirstOk(urls[1..], respond)
  }

  /** The walk over the replica paths: the GETs made, and the body of the first 200 if any. */
  function FetchSpec(urls: seq<string>, respond: HttpRequest -> HttpResponse): (seq<Step>, Option<string>) {
    var k := FirstOk(urls, respond);
    if k < |urls| then (Fetches(urls[..k + 1]), Some(respond(GetRequest(urls[k])).body))
    else (Fetches(urls), None)
  }

  /** `get`: the paths (verified), then a GET of each in turn until one returns 200. */
  function GetSpec(cfg: Config, s: Session, key: string, respond: HttpRequest -> HttpResponse): Run<string> {
    var p := GetPathsSpec(cfg, s, key, true);
    if p.result.Failure? then Run(p.session, p.steps, Failure(p.result.error))
    else
      var (fetches, body) := FetchSpec(Values(p.result.value), respond);
      Run(p.session, p.steps + fetches, if body.Some? then Success(body.value) else Failure(NotRetrieved(key)))
  }

  /**
   * The body found is that of the first path whose status is exactly 200; the paths before it
   * were each fetched once, in order, and no path after it was fetched. When none returns 200
   * every path was fetched.
   */
  lemma FetchFirstSuccess(urls: seq<string>, respond: HttpRequest -> HttpResponse)
    ensures var (fetches, body) := FetchSpec(urls, respond);
      (body.Some? ==>
         exists k :: 0 <= k < |urls|
           && respond(GetRequest(urls[k])).status == 200
           && body.value == respond(GetRequest(urls[k])).body
           && (forall j :: 0 <= j < k ==> respond(GetRequest(urls[j])).status != 200)
           && fetches == Fetches(urls[..k + 1]))
      && (body.None? <==> forall j :: 0 <= j < |urls| ==> respond(GetRequest(urls[j])).status != 200)
      && (body.None? ==> fetches == Fetches(urls))
  {
    var k := FirstOk(urls, respond);
    if k < |urls| {
      assert respond(GetRequest(urls[k])).status == 200;
    }
  }

  /** A failed `get_paths` is passed on; otherwise `get` returns the first 200 body or raises an error naming the key. */
  lemma GetOutcome(cfg: Config, s: Session, key: string, respond: HttpRequest -> HttpResponse)
    ensures var r := GetSpec(cfg, s, key, respond);
      var p := GetPathsSpec(cfg, s, key, true);
      r.session == p.session
      && (p.result.Failure? ==> r.result == Failure(p.result.error) && r.steps == p.steps)
      && (p.result.Success? ==>
            var f := FetchSpec(Values(p.result.value), respond);
            r.steps == p.steps + f.0
            && (r.result.Success? <==> f.1.Some?)
            && (r.result.Success? ==> r.result.value == f.1.value)
            && (r.result.Failure? ==>
                  (r.result.error == NotRetrieved(key) && Mentions(Message(r.result.error), "'" + key + "'"))))
  {
    MessageNamesKey(NotRetrieved(key));
  }

  // ---------------------------------------------------------------- rename / delete

  function RenameArgs(cfg: Config, fromKey: string, toKey: string): Assoc {
    [("from_key", fromKey), ("to_key", toKey), ("domain", cfg.domain)]
  }

  function DeleteArgs(cfg: Config, key: string): Assoc {
    [("key", key), ("domain", cfg.domain)]
  }

  /** A command whose reply fields are discarded: it succeeds exactly when the tracker answers `OK`. */
  function CommandSpec(cfg: Config, s: Session, cmd: string, args: Assoc): Run<()> {
    var (s1, reply) := RequestSpec(cfg.trackers, cmd, args, s);
    Run(s1, [TrackerCall(cmd, args)], if reply.Failure? then Failure(reply.error) else Success(()))
  }

  /** A command succeeds if and only if its request returns fields, fails with the request's own error, and changes the session as the request does. */
  lemma CommandOutcome(cfg: Config, s: Session, cmd: string, args: Assoc)
    ensures var r := CommandSpec(cfg, s, cmd, args);
      var req := RequestSpec(cfg.trackers, cmd, args, s);
      r.session == req.0 && Commands(r.steps) == [cmd]
      && (r.result.Success? <==> req.1.Success?)
      && (r.result.Failure? ==> r.result.error == req.1.error)
  {
    var r := CommandSpec(cfg, s, cmd, args);
    assert r.steps[1..] == [];
  }

  /** `delete` of a key the tracker does not know raises UnknownKey for that key and keeps the connection. */
  lemma DeleteUnknownKey(cfg: Config, s: Session, key: string, message: string)
    requires IsConnected(s)
    requires s.net.script != [] && s.net.script[0] == Replies("ERR unknown_key " + message)
    ensures CommandSpec(cfg, s, "DELETE", DeleteArgs(cfg, key)).result == Failure(UnknownKey(key))
    ensures IsConnected(CommandSpec(cfg, s, "DELETE", DeleteArgs(cfg, key)).session)
  {
    UnknownKeyReply(cfg.trackers, "DELETE", DeleteArgs(cfg, key), s, message);
  }

  // ---------------------------------------------------------------- the client object

  class MogileFS {
    const config: Config
    /** The sockets to the trackers. */
    const net: Network
    /** The HTTP transfer to storage nodes. */
    const transfer: HttpRequest -> HttpResponse
    /** `_socket`. */
    var socket: Conn
    /** Every `_do_request` call and HTTP request made so far, in order. */
    ghost var trace: seq<Step>

    function State(): Tracker.Session
      reads this`socket, net`state
    {
      Session(socket, net.state)
    }

    /** `connected()`. */
    predicate Connected()
      reads this`socket, net`state
    {
      IsConnected(State())
    }

    constructor (config: Config, net: Network, transfer: HttpRequest -> HttpResponse)
      ensures this.config == config && this.net == net && this.transfer == transfer
      ensures socket == Disconnected && trace == []
    {
      this.config := config;
      this.net := net;
      this.transfer := transfer;
      socket := Disconnected;
      trace := [];
    }

    /** `connect()`: ordered failover over the configured trackers. */
    method Connect() returns (outcome: Outcome<MogileError>)
      modifies this, net
      ensures (State(), outcome) == ConnectSpec(config.trackers, old(State()))
      ensures trace == old(trace)
    {
      if Connected() {
        return Pass;
      }
      outcome := Failover();
    }

    /** The `foreach` over the trackers in `connect()`: it stops at the first one that accepts. */
    method Failover() returns (outcome: Outcome<MogileError>)
      requires !Connected()
      modifies this, net
      ensures (State(), outcome) == ConnectSpec(config.trackers, old(State()))
      ensures trace == old(trace)
    {
      ghost var start := net.state;
      ghost var up := start.reachable;
      ghost var k := FirstReachable(config.trackers, up);
      var i := 0;
      while i < |config.trackers|
        invariant 0 <= i <= k
        invariant net.state == start.(attempts := start.attempts + Endpoints(config.trackers[..i]))
        invariant i == 0 ==> socket == old(socket)
        invariant 0 < i ==> socket == Disconnected
        invariant trace == old(trace)
      {
        var ep := ParseTracker(config.trackers[i]);
        OpenStep(config.trackers, start, i, net.state);
        var ok := net.Open(ep);
        socket := if ok then Conn.Connected(ep) else Disconnected;
        if ok {
          ConnectFound(config.trackers, old(State()));
          return Pass;
        }
        i := i + 1;
      }
      assert config.trackers[..i] == config.trackers;
      ConnectNone(config.trackers, old(State()));
      return Fail(NoTracker);
    }

    /** `disconnect()`. */
    method Disconnect()
      modifies this
      ensures State() == DisconnectSpec(old(State()))
      ensures trace == old(trace)
    {
      if Connected() {
        socket := Disconnected;
      }
    }

    /** `_do_request($cmd, $args)`. */
    method DoRequest(cmd: string, args: Assoc) returns (result: Result<Assoc, MogileError>)
      modifies this, net
      ensures (State(), result) == RequestSpec(config.trackers, cmd, args, old(State()))
      ensures trace == old(trace) + [TrackerCall(cmd, args)]
    {
      trace := trace + [TrackerCall(cmd, args)];
      if !Connected() {
        var c := Connect();
        if c.Fail? {
          return Failure(c.error);
        }
      }
      var line := EncodeRequest(cmd, args);
      var wrote := net.Write(socket.endpoint, line);
      if !wrote {
        Disconnect();
        return Failure(WriteFailed);
      }
      var reply := net.ReadLine();
      if reply.None? {
        Disconnect();
        return Failure(ReadFailed);
      }
      match DecodeResponse(reply.value)
      case Ok(fields) =>
        result := Success(fields);
      case Err(code, l) =>
        result := Failure(MapError(code, l, Field(args, "key")));
      case Unrecognised =>
        Disconnect();
        result := Failure(UnknownResponse);
    }

    /** The two-phase write shared by `set` and `set_resource`. */
    method Store(key: string, cls: Option<string>, payload: Payload) returns (result: Result<(), MogileError>)
      modifies this, net
      ensures var r := StoreSpec(config, old(State()), key, cls, payload, transfer);
        State() == r.session && trace == old(trace) + r.steps && result == r.result
    {
      ghost var s0 := State();
      ghost var r := StoreSpec(config, s0, key, cls, payload, transfer);
      ghost var o := TrackerCall("CREATE_OPEN", OpenArgs(config, key, cls));
      var location := DoRequest("CREATE_OPEN", OpenArgs(config, key, cls));
      ghost var s1 := State();
      assert (s1, location) == RequestSpec(config.trackers, "CREATE_OPEN", OpenArgs(config, key, cls), s0);
      if location.Failure? {
        assert r == Run(s1, [o], Failure(location.error));
        return Failure(location.error);
      }
      var request := PutRequest(Field(location.value, "path"), payload);
      trace := trace + [Transfer(request)];
      AppendTwo(old(trace), o, Transfer(request));
      var response := transfer(request);
      if response.status < 200 || response.status > 299 {
        assert r == Run(s1, [o, Transfer(request)], Failure(BadStatus(response.status)));
        return Failure(BadStatus(response.status));
      }
      ghost var c := TrackerCall("CREATE_CLOSE", CloseArgs(config, key, location.value));
      var closed := DoRequest("CREATE_CLOSE", CloseArgs(config, key, location.value));
      AppendThree(old(trace), o, Transfer(request), c);
      assert (State(), closed) == RequestSpec(config.trackers, "CREATE_CLOSE", CloseArgs(config, key, location.value), s1);
      assert r == Run(State(), [o, Transfer(request), c], if closed.Failure? then Failure(closed.error) else Success(()));
      if closed.Failure? {
        return Failure(closed.error);
      }
      return Success(());
    }

    /** `set($key, $content, $class)`. */
    method Set(key: string, content: string, cls: Option<string>) returns (result: Result<(), MogileError>)
      modifies this, net
      ensures var r := StoreSpec(config, old(State()), key, cls, Content(content), transfer);
        State() == r.session && trace == old(trace) + r.steps && result == r.result
    {
      result := Store(key, cls, Content(content));
    }

    /** `set_resource($key, $rh, $class, $length)`. */
    method SetResource(key: string, handle: nat, cls: Option<string>, length: Option<nat>)
      returns (result: Result<(), MogileError>)
      modifies this, net
      ensures var r := StoreSpec(config, old(State()), key, cls, Resource(handle, length), transfer);
        State() == r.session && trace == old(trace) + r.steps && result == r.result
    {
      result := Store(key, cls, Resource(handle, length));
    }

    /** `get_paths($key, $verify)`. */
    method GetPaths(key: string, verify: bool) returns (result: Result<Assoc, MogileError>)
      modifies this, net
      ensures var r := GetPathsSpec(config, old(State()), key, verify);
        State() == r.session && trace == old(trace) + r.steps && result == r.result
    {
      var reply := DoRequest("GET_PATHS", GetPathsArgs(config, key, verify));
      if reply.Failure? {
        return Failure(reply.error);
      }
      return Success(Remove(reply.value, "paths"));
    }

    /** `get($key)`. */
    method Get(key: string) returns (result: Result<string, MogileError>)
      modifies this, net
      ensures var r := GetSpec(config, old(State()), key, transfer);
        State() == r.session && trace == old(trace) + r.steps && result == r.result
    {
      ghost var s0 := State();
      ghost var p := GetPathsSpec(config, s0, key, true);
      GetSpecSteps(config, s0, key, transfer);
      var paths := GetPaths(key, true);
      assert paths == p.result && State() == p.session && trace == old(trace) + p.steps;
      if paths.Failure? {
        result := Failure(paths.error);
      } else {
        ghost var mid := trace;
        var body := Fetch(Values(paths.value));
        assert State() == p.session;
        AppendAssoc(old(trace), p.steps, FetchSpec(Values(paths.value), transfer).0);
        result := if body.Some? then Success(body.value) else Failure(NotRetrieved(key));
      }
    }

    /** The `foreach` over the paths in `get`, with its early return. */
    method Fetch(urls: seq<string>) returns (body: Option<string>)
      modifies this
      ensures trace == old(trace) + FetchSpec(urls, transfer).0 && body == FetchSpec(urls, transfer).1
      ensures socket == old(socket)
    {
      ghost var k := FirstOk(urls, transfer);
      var i := 0;
      while i < |urls|
        invariant 0 <= i <= k
        invariant trace == old(trace) + Fetches(urls[..i])
        invariant socket == old(socket)
      {
        var request := GetRequest(urls[i]);
        FetchesSnoc(urls, i);
        trace := trace + [Transfer(request)];
        var response := transfer(request);
        FirstOkStep(urls, transfer, i);
        if response.status == 200 {
          assert i == k && FetchSpec(urls, transfer) == (Fetches(urls[..i + 1]), Some(response.body));
          assert trace == old(trace) + Fetches(urls[..i + 1]);
          return Some(response.body);
        }
        i := i + 1;
      }
      assert urls[..i] == urls;
      return None;
    }

    /** `rename($from_key, $to_key)`. */
    method Rename(fromKey: string, toKey: string) returns (result: Result<(), MogileError>)
      modifies this, net
      ensures var r := CommandSpec(config, old(State()), "RENAME", RenameArgs(config, fromKey, toKey));
        State() == r.session && trace == old(trace) + r.steps && result == r.result
    {
      var reply := DoRequest("RENAME", RenameArgs(config, fromKey, toKey));
      result := if reply.Failure? then Failure(reply.error) else Success(());
    }

    /** `delete($key)`. */
    method Delete(key: string) returns (result: Result<(), MogileError>)
      modifies this, net
      ensures var r := CommandSpec(config, old(State()), "DELETE", DeleteArgs(config, key));
        State() == r.session && trace == old(trace) + r.steps && result == r.result
    {
      var reply := DoRequest("DELETE", DeleteArgs(config, key));
      result := if reply.Failure? then Failure(reply.error) else Success(());
    }
  }

  /** `connect()` from a client that is not connected, when some tracker accepts. */
  lemma ConnectFound(ts: seq<string>, s: Session)
    requires !IsConnected(s) && FirstReachable(ts, s.net.reachable) < |ts|
    ensures var k := FirstReachable(ts, s.net.reachable);
      ConnectSpec(ts, s)
        == (Session(Conn.Connected(ParseTracker(ts[k])),
                    s.net.(attempts := s.net.attempts + Endpoints(ts[..k + 1]), eof := false)),
            Pass)
  {
  }

  /** `connect()` from a client that is not connected, when no tracker accepts. */
  lemma ConnectNone(ts: seq<string>, s: Session)
    requires !IsConnected(s) && FirstReachable(ts, s.net.reachable) == |ts|
    ensures ConnectSpec(ts, s)
      == (Session(if ts == [] then s.conn else Disconnected, s.net.(attempts := s.net.attempts + Endpoints(ts))),
          Fail(NoTracker))
  {
  }

  /** One pass of the failover loop: the attempt is logged, and only the first reachable tracker accepts. */
  lemma OpenStep(ts: seq<string>, start: Net, i: nat, n: Net)
    requires i <= FirstReachable(ts, start.reachable) && i < |ts|
    requires n == start.(attempts := start.attempts + Endpoints(ts[..i]))
    ensures var (next, ok) := OpenAttempt(n, ParseTracker(ts[i]));
      (ok ==>
        (i == FirstReachable(ts, start.reachable)
         && next == start.(attempts := start.attempts + Endpoints(ts[..i + 1]), eof := false)))
      && (!ok ==>
        (i < FirstReachable(ts, start.reachable)
         && next == start.(attempts := start.attempts + Endpoints(ts[..i + 1]))))
  {
    EndpointsSnoc(ts, i);
  }

  lemma EndpointsSnoc(ts: seq<string>, i: nat)
    requires i < |ts|
    ensures Endpoints(ts[..i + 1]) == Endpoints(ts[..i]) + [ParseTracker(ts[i])]
  {
    var a, b := Endpoints(ts[..i + 1]), Endpoints(ts[..i]) + [ParseTracker(ts[i])];
    assert |a| == |b|;
    assert forall j :: 0 <= j < |a| ==> a[j] == b[j];
  }

  lemma GetSpecSteps(cfg: Config, s: Session, key: string, respond: HttpRequest -> HttpResponse)
    ensures var r := GetSpec(cfg, s, key, respond);
      var p := GetPathsSpec(cfg, s, key, true);
      r.session == p.session
      && (p.result.Failure? ==> r.steps == p.steps && r.result == Failure(p.result.error))
      && (p.result.Success? ==>
            var f := FetchSpec(Values(p.result.value), respond);
            r.steps == p.steps + f.0
            && r.result == if f.1.Some? then Success(f.1.value) else Failure(NotRetrieved(key)))
  {
  }

  lemma AppendAssoc(a: seq<Step>, b: seq<Step>, c: seq<Step>)
    ensures (a + b) + c == a + (b + c)
  {
  }

  lemma AppendTwo(a: seq<Step>, x: Step, y: Step)
    ensures a + [x] + [y] == a + [x, y]
  {
  }

  lemma AppendThree(a: seq<Step>, x: Step, y: Step, z: Step)
    ensures a + [x, y] + [z] == a + [x, y, z]
  {
  }

  lemma FirstOkStep(urls: seq<string>, respond: HttpRequest -> HttpResponse, i: nat)
    requires i <= FirstOk(urls, respond) && i < |urls|
    ensures respond(GetRequest(urls[i])).status == 200 ==> i == FirstOk(urls, respond)
    ensures respond(GetRequest(urls[i])).status != 200 ==> i < FirstOk(urls, respond)
  {
  }

  lemma FetchesSnoc(urls: seq<string>, i: nat)
    requires i < |urls|
    ensures Fetches(urls[..i + 1]) == Fetches(urls[..i]) + [Transfer(GetRequest(urls[i]))]
  {
    var a, b := Fetches(urls[..i + 1]), Fetches(urls[..i]) + [Transfer(GetRequest(urls[i]))];
    assert |a| == |b|;
    assert forall j :: 0 <= j < |a| ==> a[j] == b[j];
  }
}
