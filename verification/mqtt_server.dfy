/** The MQTT gateway (src/mqttServer/MqttServer.ts): who may connect over each of the
    three transports, which listeners `start` creates, where the TLS bundle comes
    from, and what `stop` closes.

    The broker is a foreign engine; what the gateway asks of it (handle a stream,
    publish a packet, close) and what it does to its own listeners are recorded as
    events in `trace`. Token verification is `JwtHandler.VerifyJwt`. */
module MqttGateway {
  import opened Wrappers
  import opened JsValues
  import opened JwtHandler

  // ---------------------------------------------------------------------------
  // Admission

  /** `isAuthenticated`: the verifier's verdict; the verifier never throws, so the
      `catch` branch is never taken. An `undefined` credential is refused. */
  function IsAuthenticated(v: Verifier, jwt: Option<string>): (ok: bool)
    ensures ok <==> jwt.Some? && AcceptedToken(v, jwt.value)
  {
    VerifyJwtAccepts(v, jwt);
    VerifyJwt(v, jwt)
  }

  /** What the broker knows of a connecting client: its id and `connDetails.ipAddress`. */
  datatype Peer = Peer(id: string, ipAddress: Option<string>)

  /** The callback the authenticate hook makes. `HookThrows` is the TypeError of
      reading `client.id` in the refusal branch when no client object was passed. */
  datatype AuthDecision = Allow | Deny(message: string) | HookThrows

  const LoopbackV6 := "::1"

  /** `aedes.authenticate`. The password arrives as a Buffer, which is truthy even
      when empty, so any password (as text) takes precedence over the username. */
  function AuthenticateHook(v: Verifier, client: Option<Peer>, username: Option<string>, password: Option<string>): (d: AuthDecision)
    ensures var jwt := if password.Some? then password else username;
      d.Allow? <==> (jwt.Some? && AcceptedToken(v, jwt.value)) || (client.Some? && client.value.ipAddress == Some(LoopbackV6))
    ensures !d.Allow? ==> d == if client.Some? then Deny("Authentication failed") else HookThrows
  {
    var jwt := if password.Some? then password else username;
    if IsAuthenticated(v, jwt) || (client.Some? && client.value.ipAddress == Some(LoopbackV6)) then Allow
    else if client.Some? then Deny("Authentication failed")
    else HookThrows
  }

  /** A client on the IPv6 loopback address is let in whatever it presents. */
  lemma LoopbackBypass(v: Verifier, id: string, username: Option<string>, password: Option<string>)
    ensures AuthenticateHook(v, Some(Peer(id, Some("::1"))), username, password) == Allow
  {
  }

  /** The bypass is exact: the IPv4 loopback address gets no exemption. */
  lemma NoBypassForIPv4Loopback(v: Verifier, id: string, username: Option<string>, password: Option<string>)
    requires !IsAuthenticated(v, if password.Some? then password else username)
    ensures AuthenticateHook(v, Some(Peer(id, Some("127.0.0.1"))), username, password) == Deny("Authentication failed")
  {
  }

  /** An empty password still shadows the username: a valid token sent as username
      alongside an empty password is refused away from the loopback address. */
  lemma EmptyPasswordShadowsUsername(v: Verifier, peer: Peer, username: string)
    requires peer.ipAddress != Some(LoopbackV6)
    ensures AuthenticateHook(v, Some(peer), Some(username), Some("")) == Deny("Authentication failed")
  {
  }

  /** A publish packet as handed to the broker. */
  datatype Packet = Packet(topic: string, payload: string, qos: nat, retain: bool)

  /** A subscription request. */
  datatype Subscription = Subscription(topic: string, qos: nat)

  /** `aedes.authorizePublish`: no error, whatever the client and packet. */
  function AuthorizePublish(client: Peer, packet: Packet): (error: Option<string>)
    ensures error == None
  {
    None
  }

  /** `aedes.authorizeSubscribe`: no error, and the subscription is granted as requested. */
  function AuthorizeSubscribe(client: Peer, sub: Subscription): (r: (Option<string>, Subscription))
    ensures r.0 == None && r.1 == sub
  {
    (None, sub)
  }

  /** The `if (!jwt || !this.isAuthenticated(jwt))` test, negated. */
  function Admits(v: Verifier, jwt: Option<string>): (ok: bool)
    ensures ok <==> jwt.Some? && AcceptedToken(v, jwt.value)
  {
    TruthyText(jwt) && IsAuthenticated(v, jwt)
  }

  /** Request headers, keyed by lower-case name. */
  type Headers = map<string, string>

  function Header(h: Headers, name: string): Option<string>
  {
    if name in h then Some(h[name]) else None
  }

  /** The plain WebSocket credential: `sec-websocket-protocol`, else `authorization`. */
  function WsCredential(h: Headers): Option<string>
  {
    OrElse(Header(h, "sec-websocket-protocol"), Header(h, "authorization"))
  }

  lemma WsCredentialChoice(v: Verifier, h: Headers)
    ensures Admits(v, WsCredential(h)) <==>
      if TruthyText(Header(h, "sec-websocket-protocol"))
      then AcceptedToken(v, h["sec-websocket-protocol"])
      else "authorization" in h && AcceptedToken(v, h["authorization"])
  {
  }

  /** A non-empty subprotocol header that is not a token (such as the "mqtt" a
      standard client offers) shadows a valid `authorization` header. */
  lemma ProtocolShadowsAuthorization(v: Verifier, h: Headers)
    requires "sec-websocket-protocol" in h && h["sec-websocket-protocol"] != ""
    requires !AcceptedToken(v, h["sec-websocket-protocol"])
    ensures !Admits(v, WsCredential(h))
  {
  }

  /** `request.url.split('?')[1]`: the text between the first and the second '?'. */
  function UrlQuery(url: string): Option<string>
  {
    var parts := Split(url, '?');
    if |parts| >= 2 then Some(parts[1]) else None
  }

  lemma UrlQueryBetweenMarks(path: string, q: string, tail: string)
    requires '?' !in path && '?' !in q
    ensures UrlQuery(path + "?" + q) == Some(q)
    ensures UrlQuery(path + "?" + q + "?" + tail) == Some(q)
  {
    SplitCons(path, '?', q);
    SplitNoSeparator(q, '?');
    assert path + "?" + q + "?" + tail == path + ['?'] + (q + ['?'] + tail);
    SplitCons(path, '?', q + ['?'] + tail);
    SplitCons(q, '?', tail);
  }

  lemma UrlWithoutQuery(url: string)
    requires '?' !in url
    ensures UrlQuery(url) == None
  {
    SplitNoSeparator(url, '?');
  }

  /** The value of one `name=value` pair: everything after the first '=', or "" without one. */
  function PairValue(pair: string): string
  {
    var k := |TakeUntil(pair, '=')|;
    if k < |pair| then pair[k + 1..] else ""
  }

  /** The value of the first non-empty pair whose name is `name`. */
  function FirstParam(pairs: seq<string>, name: string): Option<string>
  {
    if pairs == [] then None
    else if pairs[0] != "" && TakeUntil(pairs[0], '=') == name then Some(PairValue(pairs[0]))
    else FirstParam(pairs[1..], name)
  }

  /** `new URLSearchParams(q).get(name)`; `None` is `null`. */
  function QueryGet(q: Option<string>, name: string): Option<string>
  {
    if q.None? then None else FirstParam(Split(q.value, '&'), name)
  }

  /** The secure WebSocket credential: `authorization`, else the `token` query parameter. */
  function WssCredential(h: Headers, url: string): Option<string>
  {
    OrElse(Header(h, "authorization"), QueryGet(UrlQuery(url), "token"))
  }

  /** A leading `token=t` parameter is what the secure transport reads. */
  lemma TokenParameterRead(path: string, t: string, more: string)
    requires '?' !in path && '?' !in t && '?' !in more && '&' !in t
    ensures QueryGet(UrlQuery(path + "?" + "token" + "=" + t), "token") == Some(t)
    ensures QueryGet(UrlQuery(path + "?" + "token" + "=" + t + "&" + more), "token") == Some(t)
  {
    LeadingParam(path, "token", t, more);
  }

  /** `get(name)` returns the value of a leading `name=t` parameter. */
  lemma LeadingParam(path: string, name: string, t: string, more: string)
    requires '?' !in path && '?' !in name && '?' !in t && '?' !in more
    requires '=' !in name && '&' !in name && '&' !in t
    ensures QueryGet(UrlQuery(path + "?" + name + "=" + t), name) == Some(t)
    ensures QueryGet(UrlQuery(path + "?" + name + "=" + t + "&" + more), name) == Some(t)
  {
    var pair := name + "=" + t;
    PairRead(name, t);
    NotInConcat(name, "=", t, '?');
    NotInConcat(name, "=", t, '&');
    Concat3(path + "?", name, "=", t);
    UrlQueryBetweenMarks(path, pair, "");
    SplitNoSeparator(pair, '&');
    var q := pair + "&" + more;
    Concat3(path + "?", pair, "&", more);
    Concat3(path + "?", name, "=", t + "&" + more);
    Concat3(name, "=", t, "&" + more);
    UrlQueryBetweenMarks(path, q, "");
    SplitCons(pair, '&', more);
  }

  /** Proof step: a character missing from three texts is missing from their
      concatenation. */
  lemma NotInConcat(a: string, b: string, c: string, x: char)
    requires x !in a && x !in b && x !in c
    ensures x !in a + b + c
  {
  }

  /** The pair `name=t` has name `name` and value `t`. */
  lemma PairRead(name: string, t: string)
    requires '=' !in name
    ensures var pair := name + "=" + t;
      pair != "" && TakeUntil(pair, '=') == name && PairValue(pair) == t
  {
    var pair := name + "=" + t;
    assert pair == name + ['='] + t;
    IndexOfAt(name, '=', t);
    assert pair[|name| + 1..] == t;
  }

  /** A present `authorization` header wins over any query token. */
  lemma AuthorizationBeforeToken(h: Headers, url: string)
    requires TruthyText(Header(h, "authorization"))
    ensures WssCredential(h, url) == Some(h["authorization"])
  {
  }

  // ---------------------------------------------------------------------------
  // Paths and files

  /** A path segment `path.resolve` keeps. */
  predicate CleanSegment(s: string)
  {
    '/' !in s && s != "" && s != "." && s != ".."
  }

  /** Left-to-right segment normalisation: empty and "." segments vanish, ".." pops. */
  function Normalize(acc: seq<string>, segments: seq<string>): (r: seq<string>)
    requires forall s :: s in acc ==> CleanSegment(s)
    requires forall s :: s in segments ==> '/' !in s
    ensures forall s :: s in r ==> CleanSegment(s)
    decreases |segments|
  {
    if segments == [] then acc
    else
      var s := segments[0];
      assert forall x :: x in segments[1..] ==> x in segments;
      if s == "" || s == "." then Normalize(acc, segments[1..])
      else if s == ".." then Normalize(if acc == [] then [] else acc[..|acc| - 1], segments[1..])
      else Normalize(acc + [s], segments[1..])
  }

  /** `path.resolve(p)` on POSIX with working directory `cwd`. */
  function Resolve(cwd: string, p: string): (r: string)
    ensures |r| >= 1 && r[0] == '/'
  {
    var full := if |p| > 0 && p[0] == '/' then p else cwd + "/" + p;
    "/" + Join(Normalize([], Split(full, '/')), "/")
  }

  lemma {:induction false} NormalizeClean(acc: seq<string>, segments: seq<string>)
    requires forall s :: s in acc ==> CleanSegment(s)
    requires forall s :: s in segments ==> '/' !in s && CleanSegment(s)
    ensures Normalize(acc, segments) == acc + segments
    decreases |segments|
  {
    if segments != [] {
      assert forall x :: x in segments[1..] ==> x in segments;
      assert segments[0] in segments;
      NormalizeClean(acc + [segments[0]], segments[1..]);
      assert acc + [segments[0]] + segments[1..] == acc + segments;
    }
  }

  /** An absolute path made of clean segments resolves to itself. */
  lemma ResolveRooted(cwd: string, segs: seq<string>)
    requires forall s :: s in segs ==> CleanSegment(s)
    ensures Resolve(cwd, "/" + Join(segs, "/")) == "/" + Join(segs, "/")
  {
    var body := Join(segs, "/");
    var r := "/" + body;
    assert r[0] == '/';
    assert r == "" + ['/'] + body;
    SplitCons("", '/', body);
    var parts := Split(r, '/');
    if segs == [] {
      SplitNoSeparator(body, '/');
      assert parts == ["", ""];
      assert parts[1..] == [""];
      assert Normalize([], [""]) == Normalize([], []);
      assert Normalize([], parts) == [];
    } else {
      SplitJoin(segs, '/');
      assert parts == [""] + segs;
      NormalizeClean([], segs);
      assert parts[1..] == segs;
      assert Normalize([], parts) == segs;
    }
  }

  /** Resolving a resolved path changes nothing. */
  lemma ResolveIdempotent(cwd: string, p: string)
    ensures Resolve(cwd, Resolve(cwd, p)) == Resolve(cwd, p)
  {
    var full := if |p| > 0 && p[0] == '/' then p else cwd + "/" + p;
    var segs := Normalize([], Split(full, '/'));
    assert Resolve(cwd, p) == "/" + Join(segs, "/");
    ResolveRooted(cwd, segs);
  }

  datatype FileState = Readable(bytes: seq<bv8>) | Unreadable

  /** The process's view of the file system: its working directory and the files at
      their absolute paths. A file that exists but cannot be read is `Unreadable`. */
  datatype FileSystem = FileSystem(cwd: string, files: map<string, FileState>)

  /** `fs.existsSync(p)`. */
  predicate ExistsSync(fs: FileSystem, p: string)
  {
    Resolve(fs.cwd, p) in fs.files
  }

  /** `fs.readFileSync(p)`; `None` is a throw. */
  function ReadFileSync(fs: FileSystem, p: string): (r: Option<seq<bv8>>)
    ensures r.Some? ==> ExistsSync(fs, p)
  {
    var full := Resolve(fs.cwd, p);
    if full in fs.files && fs.files[full].Readable? then Some(fs.files[full].bytes) else None
  }

  // ---------------------------------------------------------------------------
  // TLS bundle

  /** `SSL_CERT_PATH`, `SSL_KEY_PATH`, `SSL_CHAIN_PATH`, `SSL_FULLCHAIN_PATH`. */
  datatype SslEnv = SslEnv(certPath: Option<string>, keyPath: Option<string>, chainPath: Option<string>, fullChainPath: Option<string>)

  datatype SslOptions = SslOptions(key: seq<bv8>, cert: seq<bv8>, ca: Option<seq<bv8>>)

  datatype KeyPair = KeyPair(key: string, cert: string)

  /** The common locations tried after the environment. */
  const FallbackPairs: seq<KeyPair> := [KeyPair("./ssl/server.key", "./ssl/server.crt")]

  /** The environment names a key and a certificate (the full chain or the plain one). */
  predicate EnvComplete(env: SslEnv)
  {
    TruthyText(env.keyPath) && (TruthyText(env.certPath) || TruthyText(env.fullChainPath))
  }

  /** The certificate path the environment names, full chain first. */
  function EnvCertSource(env: SslEnv): (p: string)
    requires EnvComplete(env)
    ensures p == if TruthyText(env.fullChainPath) then env.fullChainPath.value else env.certPath.value
  {
    OrElse(env.fullChainPath, env.certPath).value
  }

  /** The bundle read from the environment's paths, once both files exist. */
  function EnvOptions(env: SslEnv, fs: FileSystem): Option<SslOptions>
    requires EnvComplete(env)
  {
    var keyPath := Resolve(fs.cwd, env.keyPath.value);
    var certPath := Resolve(fs.cwd, EnvCertSource(env));
    var key :- ReadFileSync(fs, keyPath);
    var cert :- ReadFileSync(fs, certPath);
    if TruthyText(env.chainPath) && env.chainPath.value != certPath
       && ExistsSync(fs, Resolve(fs.cwd, env.chainPath.value)) then
      var ca :- ReadFileSync(fs, Resolve(fs.cwd, env.chainPath.value));
      Some(SslOptions(key, cert, Some(ca)))
    else Some(SslOptions(key, cert, None))
  }

  /** The fallback loop over `pairs`. */
  function FallbackOptions(fs: FileSystem, pairs: seq<KeyPair>): Option<SslOptions>
  {
    if pairs == [] then None
    else if ExistsSync(fs, pairs[0].key) && ExistsSync(fs, pairs[0].cert) then
      var key :- ReadFileSync(fs, pairs[0].key);
      var cert :- ReadFileSync(fs, pairs[0].cert);
      Some(SslOptions(key, cert, None))
    else FallbackOptions(fs, pairs[1..])
  }

  /** Whether the environment's two files are both there. */
  predicate EnvFilesPresent(env: SslEnv, fs: FileSystem)
  {
    EnvComplete(env)
    && ExistsSync(fs, Resolve(fs.cwd, env.keyPath.value))
    && ExistsSync(fs, Resolve(fs.cwd, EnvCertSource(env)))
  }

  /** What `getSSLOptions` returns; a throw anywhere is caught and gives `None`. */
  function SslSpec(env: SslEnv, fs: FileSystem): Option<SslOptions>
  {
    if EnvFilesPresent(env, fs) then EnvOptions(env, fs) else FallbackOptions(fs, FallbackPairs)
  }

  /** The file at `p` as the process sees it. */
  function FileAt(fs: FileSystem, p: string): Option<FileState>
  {
    var full := Resolve(fs.cwd, p);
    if full in fs.files then Some(fs.files[full]) else None
  }

  lemma FileAtResolved(fs: FileSystem, p: string)
    ensures FileAt(fs, Resolve(fs.cwd, p)) == FileAt(fs, p)
    ensures ExistsSync(fs, Resolve(fs.cwd, p)) <==> ExistsSync(fs, p)
    ensures ReadFileSync(fs, Resolve(fs.cwd, p)) == ReadFileSync(fs, p)
  {
    ResolveIdempotent(fs.cwd, p);
  }

  /** Environment paths come first: with both files readable the bundle is the key and
      the full chain (or, without one, the certificate) they name. */
  lemma SslFromEnvironment(env: SslEnv, fs: FileSystem)
    requires EnvComplete(env)
    requires FileAt(fs, env.keyPath.value).Some? && FileAt(fs, env.keyPath.value).value.Readable?
    requires FileAt(fs, EnvCertSource(env)).Some? && FileAt(fs, EnvCertSource(env)).value.Readable?
    ensures SslSpec(env, fs).Some? ==>
      SslSpec(env, fs).value.key == FileAt(fs, env.keyPath.value).value.bytes
      && SslSpec(env, fs).value.cert == FileAt(fs, EnvCertSource(env)).value.bytes
    ensures SslSpec(env, fs).None? <==>
      TruthyText(env.chainPath) && env.chainPath.value != Resolve(fs.cwd, EnvCertSource(env))
      && FileAt(fs, env.chainPath.value) == Some(Unreadable)
  {
    FileAtResolved(fs, env.keyPath.value);
    FileAtResolved(fs, EnvCertSource(env));
    if TruthyText(env.chainPath) {
      FileAtResolved(fs, env.chainPath.value);
    }
  }

  /** The chain is attached exactly when it is named, differs from the resolved
      certificate path, and exists; it is then the chain file's contents. */
  lemma SslChainRule(env: SslEnv, fs: FileSystem)
    requires EnvFilesPresent(env, fs)
    requires SslSpec(env, fs).Some?
    ensures SslSpec(env, fs).value.ca.Some? <==>
      TruthyText(env.chainPath) && env.chainPath.value != Resolve(fs.cwd, EnvCertSource(env))
      && ExistsSync(fs, env.chainPath.value)
    ensures SslSpec(env, fs).value.ca.Some? ==>
      FileAt(fs, env.chainPath.value) == Some(Readable(SslSpec(env, fs).value.ca.value))
  {
    if TruthyText(env.chainPath) {
      FileAtResolved(fs, env.chainPath.value);
    }
  }

  /** Without usable environment paths the `./ssl/server.key` / `./ssl/server.crt`
      pair is tried, and without it there is no bundle. */
  lemma SslFallback(env: SslEnv, fs: FileSystem)
    requires !EnvFilesPresent(env, fs)
    ensures SslSpec(env, fs) ==
      if ExistsSync(fs, "./ssl/server.key") && ExistsSync(fs, "./ssl/server.crt") then
        match (ReadFileSync(fs, "./ssl/server.key"), ReadFileSync(fs, "./ssl/server.crt"))
        case (Some(key), Some(cert)) => Some(SslOptions(key, cert, None))
        case _ => None
      else None
  {
    var pairs := FallbackPairs;
    assert pairs[0] == KeyPair("./ssl/server.key", "./ssl/server.crt");
    assert pairs[1..] == [];
    assert FallbackOptions(fs, pairs[1..]) == None;
  }

  /** A throw while reading the environment's files gives no bundle, even when the
      fallback pair would have been usable. */
  lemma SslReadFailureIsFinal(env: SslEnv, fs: FileSystem)
    requires EnvFilesPresent(env, fs)
    requires FileAt(fs, env.keyPath.value) == Some(Unreadable)
    ensures SslSpec(env, fs) == None
  {
    FileAtResolved(fs, env.keyPath.value);
  }

  /** The chain path is compared before resolution: a relative chain path naming the
      certificate file itself still attaches that file as `ca`. */
  lemma ChainComparedUnresolved(fs: FileSystem, keyPath: string, p: string, keyBytes: seq<bv8>, certBytes: seq<bv8>)
    requires p != "" && p[0] != '/'
    requires FileAt(fs, keyPath) == Some(Readable(keyBytes))
    requires FileAt(fs, p) == Some(Readable(certBytes))
    requires keyPath != ""
    ensures SslSpec(SslEnv(Some(p), Some(keyPath), Some(p), None), fs) == Some(SslOptions(keyBytes, certBytes, Some(certBytes)))
  {
    var env := SslEnv(Some(p), Some(keyPath), Some(p), None);
    FileAtResolved(fs, keyPath);
    FileAtResolved(fs, p);
    assert Resolve(fs.cwd, p)[0] != p[0];
  }

  /** `getSSLOptions`. A `:-` is a throw, which the `catch` turns into `null`. */
  method GetSSLOptions(env: SslEnv, fs: FileSystem) returns (options: Option<SslOptions>)
    ensures options == SslSpec(env, fs)
  {
    var sslCertPath := env.certPath;
    var sslKeyPath := env.keyPath;
    var sslChainPath := env.chainPath;
    var sslFullChainPath := env.fullChainPath;

    if TruthyText(sslKeyPath) && (TruthyText(sslCertPath) || TruthyText(sslFullChainPath)) {
      var keyPath := Resolve(fs.cwd, sslKeyPath.value);
      var certPath := Resolve(fs.cwd, OrElse(sslFullChainPath, sslCertPath).value);
      if ExistsSync(fs, keyPath) && ExistsSync(fs, certPath) {
        var key :- ReadFileSync(fs, keyPath);
        var cert :- ReadFileSync(fs, certPath);
        var ca: Option<seq<bv8>> := None;
        if TruthyText(sslChainPath) && sslChainPath.value != certPath {
          var chainPath := Resolve(fs.cwd, sslChainPath.value);
          if ExistsSync(fs, chainPath) {
            var chain :- ReadFileSync(fs, chainPath);
            ca := Some(chain);
          }
        }
        return Some(SslOptions(key, cert, ca));
      }
    }

    var i := 0;
    while i < |FallbackPairs|
      invariant 0 <= i <= |FallbackPairs|
      invariant SslSpec(env, fs) == FallbackOptions(fs, FallbackPairs[i..])
    {
      var pair := FallbackPairs[i];
      if ExistsSync(fs, pair.key) && ExistsSync(fs, pair.cert) {
        var key :- ReadFileSync(fs, pair.key);
        var cert :- ReadFileSync(fs, pair.cert);
        return Some(SslOptions(key, cert, None));
      }
      assert FallbackPairs[i..][1..] == FallbackPairs[i + 1..];
      i := i + 1;
    }
    return None;
  }

  // ---------------------------------------------------------------------------
  // Lifecycle

  datatype Listener = TcpServer | HttpServer | HttpsServer | WsServer | WssServer

  /** What the gateway does outside itself. */
  datatype GatewayEvent =
    | Listening(listener: Listener, port: int)
    | Closed(listener: Listener)
    | SocketClosed(transport: Listener)
    | BrokerHandle(transport: Listener)
    | BrokerPublish(packet: Packet)
    | BrokerClosed

  /** Which of the five handles exist. */
  datatype Handles = Handles(server: bool, httpServer: bool, httpsServer: bool, wsServer: bool, wssServer: bool)

  predicate Created(h: Handles, l: Listener)
  {
    match l
    case TcpServer => h.server
    case HttpServer => h.httpServer
    case HttpsServer => h.httpsServer
    case WsServer => h.wsServer
    case WssServer => h.wssServer
  }

  /** Whether `start` brings up the secure transport: a truthy port and a bundle. */
  predicate SecureEnabled(wssPort: Option<int>, tls: Option<SslOptions>)
  {
    TruthyInt(wssPort) && tls.Some?
  }

  /** The listeners `start` opens, in order. */
  function StartEvents(port: int, wsPort: int, wssPort: Option<int>, tls: Option<SslOptions>): seq<GatewayEvent>
  {
    [Listening(TcpServer, port), Listening(HttpServer, wsPort)]
    + if SecureEnabled(wssPort, tls) then [Listening(HttpsServer, wssPort.value)] else []
  }

  /** TCP and plain WebSocket always listen; the secure listener only with a truthy
      port and a bundle, and its absence changes nothing else. */
  lemma ListenerGating(port: int, wsPort: int, wssPort: Option<int>, tls: Option<SslOptions>)
    ensures StartEvents(port, wsPort, wssPort, tls)[..2] == [Listening(TcpServer, port), Listening(HttpServer, wsPort)]
    ensures (exists p :: Listening(HttpsServer, p) in StartEvents(port, wsPort, wssPort, tls))
            <==> TruthyInt(wssPort) && tls.Some?
  {
    if SecureEnabled(wssPort, tls) {
      assert Listening(HttpsServer, wssPort.value) in StartEvents(port, wsPort, wssPort, tls);
    }
  }

  /** The handle fields in the order `stop` visits them. */
  const FieldOrder: seq<Listener> := [TcpServer, HttpServer, HttpsServer, WsServer, WssServer]

  /** A close for each listener of `ls` that exists, in the order of `ls`. */
  function ClosesOf(ls: seq<Listener>, h: Handles): seq<GatewayEvent>
  {
    if ls == [] then []
    else ClosesOf(ls[..|ls| - 1], h) + (if Created(h, ls[|ls| - 1]) then [Closed(ls[|ls| - 1])] else [])
  }

  /** The events `stop` causes: a close for each existing handle in field order, then the broker's. */
  function StopEvents(h: Handles): seq<GatewayEvent>
  {
    ClosesOf(FieldOrder, h) + [BrokerClosed]
  }

  lemma {:induction false} ClosesOfMembers(ls: seq<Listener>, h: Handles)
    requires forall i, j :: 0 <= i < j < |ls| ==> ls[i] != ls[j]
    ensures forall e :: e in ClosesOf(ls, h) <==> e.Closed? && e.listener in ls && Created(h, e.listener)
    ensures forall i, j :: 0 <= i < j < |ClosesOf(ls, h)| ==> ClosesOf(ls, h)[i] != ClosesOf(ls, h)[j]
  {
    if ls != [] {
      var init := ls[..|ls| - 1];
      var last := ls[|ls| - 1];
      assert ls == init + [last];
      ClosesOfMembers(init, h);
      assert last !in init;
    }
  }

  /** `stop` closes exactly the handles that exist, each once, and closes the broker last. */
  lemma StopClosesCreated(h: Handles)
    ensures forall l :: Closed(l) in StopEvents(h) <==> Created(h, l)
    ensures StopEvents(h)[|StopEvents(h)| - 1] == BrokerClosed
    ensures forall i :: 0 <= i < |StopEvents(h)| - 1 ==> StopEvents(h)[i].Closed?
    ensures forall i, j :: 0 <= i < j < |StopEvents(h)| ==> StopEvents(h)[i] != StopEvents(h)[j]
  {
    ClosesOfMembers(FieldOrder, h);
    var c := ClosesOf(FieldOrder, h);
    forall l ensures l in FieldOrder {
      match l
      case TcpServer => assert FieldOrder[0] == l;
      case HttpServer => assert FieldOrder[1] == l;
      case HttpsServer => assert FieldOrder[2] == l;
      case WsServer => assert FieldOrder[3] == l;
      case WssServer => assert FieldOrder[4] == l;
    }
    assert forall i :: 0 <= i < |c| ==> c[i] in c;
    assert BrokerClosed !in c;
  }

  class MqttServer {
    const port: int
    const wsPort: int
    const wssPort: Option<int>
    var server: bool
    var httpServer: bool
    var httpsServer: bool
    var wsServer: bool
    var wssServer: bool
    /** The bundle the HTTPS server was created with. */
    var tls: Option<SslOptions>
    var trace: seq<GatewayEvent>

    function CurrentHandles(): Handles
      reads this
    {
      Handles(server, httpServer, httpsServer, wsServer, wssServer)
    }

    /** The SIGINT handler is process plumbing and is not part of this model. */
    constructor (port: int, wsPort: int, wssPort: Option<int>)
      ensures this.port == port && this.wsPort == wsPort && this.wssPort == wssPort
      ensures CurrentHandles() == Handles(false, false, false, false, false)
      ensures tls == None && trace == []
    {
      this.port := port;
      this.wsPort := wsPort;
      this.wssPort := wssPort;
      server, httpServer, httpsServer, wsServer, wssServer := false, false, false, false, false;
      tls := None;
      trace := [];
    }

    /** `start`; the hooks it installs are the functions above. */
    method Start(env: SslEnv, fs: FileSystem)
      modifies this
      ensures server && httpServer && wsServer
      ensures var secure := SecureEnabled(wssPort, if TruthyInt(wssPort) then SslSpec(env, fs) else None);
        && httpsServer == (old(httpsServer) || secure)
        && wssServer == (old(wssServer) || secure)
        && tls == (if secure then SslSpec(env, fs) else old(tls))
        && trace == old(trace) + StartEvents(port, wsPort, wssPort, if TruthyInt(wssPort) then SslSpec(env, fs) else None)
    {
      server := true;
      trace := trace + [Listening(TcpServer, port)];
      StartWebSocketServer();
      if TruthyInt(wssPort) {
        StartWebSocketSecureServer(env, fs);
      }
    }

    method StartWebSocketServer()
      modifies this`httpServer, this`wsServer, this`trace
      ensures httpServer && wsServer
      ensures trace == old(trace) + [Listening(HttpServer, wsPort)]
    {
      httpServer := true;
      wsServer := true;
      trace := trace + [Listening(HttpServer, wsPort)];
    }

    method StartWebSocketSecureServer(env: SslEnv, fs: FileSystem)
      requires TruthyInt(wssPort)
      modifies this`httpsServer, this`wssServer, this`tls, this`trace
      ensures SslSpec(env, fs).None? ==> unchanged(this)
      ensures SslSpec(env, fs).Some? ==>
        && httpsServer && wssServer && tls == SslSpec(env, fs)
        && trace == old(trace) + [Listening(HttpsServer, wssPort.value)]
    {
      var sslOptions := GetSSLOptions(env, fs);
      if sslOptions.None? {
        return;
      }
      httpsServer := true;
      tls := sslOptions;
      wssServer := true;
      trace := trace + [Listening(HttpsServer, wssPort.value)];
    }

    /** The plain WebSocket `'connection'` listener. */
    method OnWsConnection(v: Verifier, headers: Headers)
      requires wsServer
      modifies this`trace
      ensures trace == old(trace) + [if Admits(v, WsCredential(headers)) then BrokerHandle(WsServer) else SocketClosed(WsServer)]
    {
      var jwt := WsCredential(headers);
      if !TruthyText(jwt) || !IsAuthenticated(v, jwt) {
        trace := trace + [SocketClosed(WsServer)];
        return;
      }
      trace := trace + [BrokerHandle(WsServer)];
    }

    /** The secure WebSocket `'connection'` listener. */
    method OnWssConnection(v: Verifier, headers: Headers, url: string)
      requires wssServer
      modifies this`trace
      ensures trace == old(trace) + [if Admits(v, WssCredential(headers, url)) then BrokerHandle(WssServer) else SocketClosed(WssServer)]
    {
      var params := UrlQuery(url);
      var jwt := OrElse(Header(headers, "authorization"), QueryGet(params, "token"));
      if !TruthyText(jwt) || !IsAuthenticated(v, jwt) {
        trace := trace + [SocketClosed(WssServer)];
        return;
      }
      trace := trace + [BrokerHandle(WssServer)];
    }

    /** `stop`: the five `if (this.…)` tests, walked in field order. The handle fields
        are not cleared, so a second call closes them again. */
    method Stop()
      modifies this`trace
      ensures trace == old(trace) + StopEvents(CurrentHandles())
    {
      var h := CurrentHandles();
      var closes: seq<GatewayEvent> := [];
      for i := 0 to |FieldOrder|
        invariant closes == ClosesOf(FieldOrder[..i], h)
      {
        assert FieldOrder[..i + 1][..i] == FieldOrder[..i];
        var l := FieldOrder[i];
        if Created(h, l) {
          closes := closes + [Closed(l)];
        }
      }
      assert FieldOrder[..|FieldOrder|] == FieldOrder;
      trace := trace + (closes + [BrokerClosed]);
    }

    /** `publishMessage`; the TypeScript type limits `qos` to 0, 1 or 2. */
    method PublishMessage(topic: string, message: string, qos: nat := 0)
      requires qos <= 2
      modifies this`trace
      ensures trace == old(trace) + [BrokerPublish(Packet(topic, message, qos, false))]
    {
      trace := trace + [BrokerPublish(Packet(topic, message, qos, false))];
    }
  }
}
