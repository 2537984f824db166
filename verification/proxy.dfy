/**
 What the proxy does with each kind of request it receives: a plain HTTP
 request, a CONNECT request, or a request asking for a protocol upgrade.
 Each handler is a function from the configuration and the request to the
 Action it takes. Once a tunnel is open, copying bytes in both directions
 is recorded only as the `Tunnel` or `UpgradeTunnel` action.
 */
module Proxy {
  import opened Options
  import opened JsValues
  import opened Auth

  newtype byte = x: int | 0 <= x < 256

  /** An inbound request: its method (`verb`), request target, and headers. */
  datatype Request = Request(verb: string, url: string, headers: Headers)

  /** The `hostname` and `port` fields of a parsed URL: `null` or a string each. */
  datatype Url = Url(hostname: JsValue, port: JsValue)

  /** The library calls the handlers make, taken as given:
      `url.parse(input, parseQueryString, slashesDenoteHost)` and base64
      decoding. */
  datatype Env = Env(
    parseUrl: (string, bool, bool) -> Url,
    decodeBase64: Decoder)

  datatype Header = Header(name: string, value: string)

  /** Where a tunnel dials: the arguments of `net.connect(port, host)`. */
  datatype Target = Target(host: JsValue, port: JsValue)

  /** The options of the outbound `http.request`. */
  datatype OutboundRequest = OutboundRequest(
    port: JsValue, hostname: JsValue, verb: string, path: string, headers: Headers)

  datatype Action =
      /** `res.writeHead(status, headers)` then `res.end(body)` */
    | Respond(status: nat, headers: seq<Header>, body: string)
      /** `socket.write(data)` then `socket.end()` */
    | WriteAndEnd(data: string)
      /** nothing is written and the response stays open */
    | NoResponse
      /** dial `dial`; once connected write `established` to the client and
          `forward` to the server, then relay in both directions; if the
          dial later reports an error, end the client socket */
    | Tunnel(dial: Target, established: string, forward: seq<byte>)
      /** send `outbound`; on its upgrade write `switching` to the client,
          then relay in both directions; the origin's response head and
          the bytes it buffered after it are neither written nor relayed; if the request later reports an
          error, end the client socket */
    | UpgradeTunnel(outbound: OutboundRequest, switching: string)

  /** The events the server handles. */
  datatype Event =
    | Plain(req: Request)
    | Connect(req: Request, head: seq<byte>)
    | Upgrade(req: Request, head: seq<byte>)

  // The handler bodies spell these literals out again, as the source does,
  // so that their contracts check the literals against these names.
  const Unauthorized: string := "HTTP/1.1 401 Unauthorized\r\n\r\n"
  const ConnectionEstablished: string :=
    "HTTP/1.1 200 Connection Established\r\nProxy-agent: Node.js-Proxy\r\n\r\n"
  const SwitchingProtocols: string :=
    "HTTP/1.1 101 Switching Protocols\r\nUpgrade: websocket\r\nConnection: Upgrade\r\n\r\n"
  const AuthChallenge: Header := Header("WWW-Authenticate", "Basic realm=\"Proxy\"")
  const AuthRequiredBody: string := "Authentication required."
  const PlainTextType: Header := Header("Content-Type", "text/plain")
  const InfoBody: string := "This is an authenticated HTTP proxy server"

  predicate Authenticated(cfg: Config, env: Env, req: Request) {
    Authenticate(cfg, req.headers, env.decodeBase64)
  }

  /** The `request` handler: a 401 challenge when authentication fails, a
      fixed text reply for GET, and no response for any other method. */
  function HandleRequest(cfg: Config, env: Env, req: Request): (a: Action)
    ensures a.Respond? || a.NoResponse?
    ensures a == Respond(401, [AuthChallenge], AuthRequiredBody) <==> !Authenticated(cfg, env, req)
    ensures a == Respond(200, [PlainTextType], InfoBody) <==>
      Authenticated(cfg, env, req) && req.verb == "GET"
    ensures a.NoResponse? <==> Authenticated(cfg, env, req) && req.verb != "GET"
  {
    if !Authenticated(cfg, env, req) then
      Respond(401, [Header("WWW-Authenticate", "Basic realm=\"Proxy\"")], "Authentication required.")
    else if req.verb == "GET" then
      Respond(200, [Header("Content-Type", "text/plain")], "This is an authenticated HTTP proxy server")
    else
      NoResponse
  }

  /** The URL the `connect` handler parses: `//` followed by the request
      target, with slashes denoting the host. */
  function ConnectUrl(env: Env, req: Request): Url {
    env.parseUrl("//" + req.url, false, true)
  }

  /** The `connect` handler: a bare 401 line and end when authentication
      fails; otherwise a tunnel to the parsed host, on the parsed port or
      443, that first confirms the tunnel to the client and then forwards
      the already buffered `head` to the server. */
  function HandleConnect(cfg: Config, env: Env, req: Request, head: seq<byte>): (a: Action)
    ensures a.Tunnel? <==> Authenticated(cfg, env, req)
    ensures !a.Tunnel? ==> a == WriteAndEnd(Unauthorized)
    ensures a.Tunnel? ==> a.established == ConnectionEstablished && a.forward == head
    ensures a.Tunnel? ==> a.dial.host == ConnectUrl(env, req).hostname
    ensures a.Tunnel? && Truthy(ConnectUrl(env, req).port) ==> a.dial.port == ConnectUrl(env, req).port
    ensures a.Tunnel? && !Truthy(ConnectUrl(env, req).port) ==> a.dial.port == Num(443)
  {
    if !Authenticated(cfg, env, req) then
      WriteAndEnd("HTTP/1.1 401 Unauthorized\r\n\r\n")
    else
      var u := env.parseUrl("//" + req.url, false, true);
      Tunnel(Target(u.hostname, Or(u.port, Num(443))),
             "HTTP/1.1 200 Connection Established\r\nProxy-agent: Node.js-Proxy\r\n\r\n",
             head)
  }

  /** The URL the `upgrade` handler parses: the request target as is. */
  function UpgradeUrl(env: Env, req: Request): Url {
    env.parseUrl(req.url, false, false)
  }

  /** The `upgrade` handler: a bare 401 line and end when authentication
      fails; otherwise an outbound GET of `/` to the parsed host, on the
      parsed port or 80, with the inbound headers unchanged, answered to the
      client by a fixed 101 whatever the origin replied. The buffered `head`
      is not forwarded. */
  function HandleUpgrade(cfg: Config, env: Env, req: Request, head: seq<byte>): (a: Action)
    ensures a.UpgradeTunnel? <==> Authenticated(cfg, env, req)
    ensures !a.UpgradeTunnel? ==> a == WriteAndEnd(Unauthorized)
    ensures a.UpgradeTunnel? ==>
      a.outbound.verb == "GET" && a.outbound.path == "/" && a.outbound.headers == req.headers
    ensures a.UpgradeTunnel? ==> a.outbound.hostname == UpgradeUrl(env, req).hostname
    ensures a.UpgradeTunnel? && Truthy(UpgradeUrl(env, req).port) ==>
      a.outbound.port == UpgradeUrl(env, req).port
    ensures a.UpgradeTunnel? && !Truthy(UpgradeUrl(env, req).port) ==> a.outbound.port == Num(80)
    ensures a.UpgradeTunnel? ==> a.switching == SwitchingProtocols
  {
    if !Authenticated(cfg, env, req) then
      WriteAndEnd("HTTP/1.1 401 Unauthorized\r\n\r\n")
    else
      var u := env.parseUrl(req.url, false, false);
      var options := OutboundRequest(Or(u.port, Num(80)), u.hostname, "GET", "/", req.headers);
      UpgradeTunnel(options,
                    "HTTP/1.1 101 Switching Protocols\r\nUpgrade: websocket\r\nConnection: Upgrade\r\n\r\n")
  }

  /** The server: each event goes to its handler. */
  function Handle(cfg: Config, env: Env, ev: Event): (a: Action)
    ensures ev.Plain? ==> a.Respond? || a.NoResponse?
    ensures ev.Connect? ==> a.Tunnel? || a == WriteAndEnd(Unauthorized)
    ensures ev.Upgrade? ==> a.UpgradeTunnel? || a == WriteAndEnd(Unauthorized)
  {
    match ev
    case Plain(req) => HandleRequest(cfg, env, req)
    case Connect(req, head) => HandleConnect(cfg, env, req, head)
    case Upgrade(req, head) => HandleUpgrade(cfg, env, req, head)
  }

  /** The action opens a connection to an origin. */
  predicate OpensOutbound(a: Action) {
    a.Tunnel? || a.UpgradeTunnel?
  }

  /** The action is one of the two authentication refusals. */
  predicate Rejects(a: Action) {
    a == Respond(401, [AuthChallenge], AuthRequiredBody) || a == WriteAndEnd(Unauthorized)
  }

  /** A connection to an origin is opened exactly for authenticated CONNECT
      and upgrade requests. */
  lemma OutboundIffAuthenticated(cfg: Config, env: Env, ev: Event)
    ensures OpensOutbound(Handle(cfg, env, ev)) <==> !ev.Plain? && Authenticated(cfg, env, ev.req)
  {
  }

  /** Every kind of request is refused exactly when authentication fails. */
  lemma RejectsIffUnauthenticated(cfg: Config, env: Env, ev: Event)
    ensures Rejects(Handle(cfg, env, ev)) <==> !Authenticated(cfg, env, ev.req)
  {
  }

  /** Without credentials nothing is refused: CONNECT always tunnels and an
      upgrade always goes out. */
  lemma OpenWithoutCredentials(cfg: Config, env: Env, ev: Event)
    requires !AuthEnabled(cfg)
    ensures !Rejects(Handle(cfg, env, ev))
    ensures ev.Connect? ==> Handle(cfg, env, ev).Tunnel?
    ensures ev.Upgrade? ==> Handle(cfg, env, ev).UpgradeTunnel?
  {
  }

  /** With credentials on, a request without the header is refused, and no
      connection is opened for it. */
  lemma MissingHeaderRefused(cfg: Config, env: Env, ev: Event)
    requires AuthEnabled(cfg) && !HeaderPresent(ev.req.headers)
    ensures Rejects(Handle(cfg, env, ev)) && !OpensOutbound(Handle(cfg, env, ev))
  {
  }

  /** Which credential is configured never changes what the proxy does. */
  lemma CredentialNeverMatters(cfg1: Config, cfg2: Config, env: Env, ev: Event)
    requires AuthEnabled(cfg1) && AuthEnabled(cfg2)
    ensures Handle(cfg1, env, ev) == Handle(cfg2, env, ev)
  {
    CredentialIrrelevant(cfg1, cfg2, ev.req.headers, env.decodeBase64);
  }

  /** What the token decodes to never changes what the proxy does: only
      whether decoding fails matters. */
  lemma DecodedTextNeverMatters(cfg: Config, env1: Env, env2: Env, ev: Event)
    requires forall s, q, h :: env1.parseUrl(s, q, h) == env2.parseUrl(s, q, h)
    requires forall t :: env1.decodeBase64(t).Some? <==> env2.decodeBase64(t).Some?
    ensures Handle(cfg, env1, ev) == Handle(cfg, env2, ev)
  {
    DecodedTextIrrelevant(cfg, ev.req.headers, env1.decodeBase64, env2.decodeBase64);
  }

  /** The bytes buffered after an upgrade request never reach the origin and
      never change the action. */
  lemma UpgradeIgnoresHead(cfg: Config, env: Env, req: Request, head1: seq<byte>, head2: seq<byte>)
    ensures HandleUpgrade(cfg, env, req, head1) == HandleUpgrade(cfg, env, req, head2)
  {
  }

  /** The default ports apply only to a falsy parsed port: a missing port or
      an empty one. A parsed port is a string, so even `"0"` is kept. */
  lemma DefaultPorts(cfg: Config, env: Env, req: Request, head: seq<byte>)
    requires Authenticated(cfg, env, req)
    ensures ConnectUrl(env, req).port == Null ==> HandleConnect(cfg, env, req, head).dial.port == Num(443)
    ensures UpgradeUrl(env, req).port == Null ==> HandleUpgrade(cfg, env, req, head).outbound.port == Num(80)
    ensures ConnectUrl(env, req).port == Str("0") ==>
      HandleConnect(cfg, env, req, head).dial.port == Str("0")
    ensures UpgradeUrl(env, req).port == Str("0") ==>
      HandleUpgrade(cfg, env, req, head).outbound.port == Str("0")
  {
  }

}
