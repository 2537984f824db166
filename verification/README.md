# Authenticating forward proxy: decision logic

This project models the decision logic of a small Node.js forward proxy
(`proxy-server.js`). The proxy answers plain HTTP requests itself. It tunnels
CONNECT requests to the requested host, and passes WebSocket upgrade requests
on to the origin. A username/password pair taken from the command line can
gate all three.

Each handler is a pure function from the configuration and the request to an
`Action`:

- a response (status, headers, body);
- literal bytes written before the socket is ended;
- no response;
- a tunnel (dial a host and port, write a confirmation, forward the buffered
  bytes, then relay);
- an upgrade tunnel (send an outbound request, write a fixed 101, then relay).

Modules:

- `Options`: the optional value returned by library calls that may fail.
- `JsValues`: the JavaScript semantics the code relies on. This covers
  truthiness, `||`, `===`, reading an array past its end (`undefined`), and
  exceptions as completions.
- `JsStrings`: `split` on a one-character separator. It is proved to be the
  inverse of `Join` and the only way to cut a string into separator-free
  fields. Its second field is described directly as the text between the
  first separator and the next one.
- `Auth`: building the credential from the arguments, and `authenticate`.
- `Proxy`: the `request`, `connect` and `upgrade` handlers, the event routing
  `Handle`, and the lemmas about them.

The authentication check is kept as written. Line 33 compares each decoded
field with itself, so once credentials are on, the result depends only on
three things:

- whether the `proxy-authorization` header is present and non-empty;
- whether it contains a space;
- whether decoding its second space-separated token throws.

`Auth.AuthenticateExactly` states this. `Auth.CredentialIrrelevant` and
`Proxy.CredentialNeverMatters` prove that the configured credential never
changes the outcome. `Auth.DecodedTextIrrelevant` and
`Proxy.DecodedTextNeverMatters` prove the same for the decoded text. The
hardcoded outbound path `/` of the upgrade handler is kept too.

Two library calls are taken as parameters (`Proxy.Env`) and are not modelled:

- `url.parse(input, parseQueryString, slashesDenoteHost)`, which yields
  `hostname` and `port`, each `null` or a string;
- base64 decoding followed by `toString()`, a function that returns the
  decoded text or `None` when the library throws.

Behaviour of the code worth noting:

- On an authentication failure, the CONNECT handler writes only
  `HTTP/1.1 401 Unauthorized` and a blank line. There is no
  `WWW-Authenticate` header and no body.
- Decoded text without a `:` is accepted. The password field is then
  `undefined`, and `undefined === undefined` holds.
- The text is split on every `:`, not only the first. This makes no
  difference, because the fields are only compared with themselves.
- The buffered `head` of an upgrade request is dropped. It is not forwarded
  to the origin.
- When the origin answers an upgrade, its response (`proxyRes`) is ignored,
  so headers such as `Sec-WebSocket-Accept` never reach the client. The
  bytes the origin sent after its response head (`proxyHead`) are also
  dropped, not relayed.

## Model

| member | source | states |
|---|---|---|
| `Auth.ConfigFromArgs` | proxy-server.js:6-14 | authentication is on exactly when at least two arguments are given and both the first and second are non-empty; it then uses those two; with fewer than two, both values are null |
| `Auth.Authenticate` | proxy-server.js:17-38 | without credentials every request passes; with credentials, a missing or empty header fails, and so does anything the check throws (it never escapes) |
| `Auth.DecodeBase64` | proxy-server.js:29-30 | decoding succeeds only on a string token that the decoder accepts; an absent token (`undefined`) throws |
| `Auth.CheckHeaderOutcome` | proxy-server.js:23-33 | the try block yields false only for a missing header and never from the comparison; it yields true exactly when the header has a space and its token decodes; otherwise it throws |
| `Auth.AuthenticateExactly` | proxy-server.js:17-38 | reference statement of the decision: passes iff credentials are off, or the header is given, contains a space, and the text between the first space and the next one decodes |
| `Auth.NoSpaceRejected` | proxy-server.js:29-37 | with credentials on, a header without a space is rejected for every decoder (the missing token throws and is caught) |
| `Auth.CredentialIrrelevant` | proxy-server.js:33 | any two enabled credentials give the same decision on every request |
| `Auth.DecodedTextIrrelevant` | proxy-server.js:29-33 | decoders that fail on the same inputs give the same decision, whatever text they produce |
| `Auth.AnyDecodableTokenAccepted` | proxy-server.js:29-33 | a header `<scheme> <token>` whose token decodes is accepted, whatever the decoded text contains |
| `JsStrings.Split` | proxy-server.js:29-30 | `split` on one character yields at least one field and no field contains the separator |
| `JsStrings.JoinSplit` | proxy-server.js:29-30 | joining the fields of a split with the separator gives back the original string |
| `JsStrings.SplitJoin` | proxy-server.js:29-30 | splitting a join of separator-free fields gives back those fields |
| `JsStrings.SplitUnique` | proxy-server.js:29-30 | the split is the only decomposition into separator-free fields that joins back to the string |
| `JsStrings.SplitCount` | proxy-server.js:29-31 | there is one more field than separator occurrences, so index 1 exists exactly when the separator occurs |
| `JsStrings.SecondField` | proxy-server.js:29 | when the separator occurs, the second field is the text between its first occurrence and the next one or the end |
| `JsValues.Truthy` | proxy-server.js:18-24 | the falsy values are exactly `undefined`, `null`, `""` and `0` (the `!x` tests at lines 18 and 24, and the operand test of `\|\|` at lines 70 and 103) |
| `JsValues.StrictEquals` | proxy-server.js:33 | `===` holds exactly for equal values, so each field compared with itself at line 33 is always equal |
| `Auth.CheckHeader` | proxy-server.js:22-33 | the `try` block, including the self-comparison at line 33: it yields false exactly when the header is missing or empty, never from the comparison (fully characterised by `Auth.CheckHeaderOutcome`) |
| `JsValues.Or` | proxy-server.js:70 | `a \|\| b` is the left operand whenever that is truthy and the right one otherwise; its truthiness is that of either operand |
| `Proxy.HandleRequest` | proxy-server.js:41-56 | 401 with `WWW-Authenticate: Basic realm="Proxy"` and `Authentication required.` iff authentication fails; 200 `text/plain` with the fixed body iff authenticated GET; no response iff authenticated and not GET |
| `Proxy.HandleConnect` | proxy-server.js:59-77 | tunnels iff authenticated, else writes exactly the bare 401 line and ends; the tunnel dials the parsed host on the parsed port or 443, confirms with the fixed 200 / `Proxy-agent` preamble and forwards `head` |
| `Proxy.HandleUpgrade` | proxy-server.js:91-119 | goes out iff authenticated, else the bare 401 line and end; the outbound request is GET `/` to the parsed host on the parsed port or 80 with the inbound headers unchanged, answered with the fixed 101 websocket preamble |
| `Proxy.ConnectUrl` | proxy-server.js:66 | no contract; the `url.parse` call of the CONNECT handler, on `//` plus the target with slashes denoting the host; its fields feed the dial in `Proxy.HandleConnect` |
| `Proxy.UpgradeUrl` | proxy-server.js:98 | no contract; the `url.parse` call of the upgrade handler, on the target with the default flags; its fields feed the outbound request in `Proxy.HandleUpgrade` |
| `Proxy.Handle` | proxy-server.js:41-127 | each event goes to its listener: a plain request yields a response or none, a CONNECT a tunnel or the bare 401, an upgrade an outbound request or the bare 401 |
| `Proxy.OutboundIffAuthenticated` | proxy-server.js:41-127 | a connection to an origin is opened exactly for authenticated CONNECT and upgrade requests, never for plain ones |
| `Proxy.RejectsIffUnauthenticated` | proxy-server.js:41-96 | every kind of request is refused with its 401 exactly when authentication fails |
| `Proxy.OpenWithoutCredentials` | proxy-server.js:17-21 | without credentials nothing is refused, every CONNECT tunnels and every upgrade goes out |
| `Proxy.MissingHeaderRefused` | proxy-server.js:23-27 | with credentials on, a request without the header is refused and opens no connection |
| `Proxy.CredentialNeverMatters` | proxy-server.js:33 | any two enabled credentials lead to the same action for every event |
| `Proxy.DecodedTextNeverMatters` | proxy-server.js:29-33 | only whether decoding fails affects the action, never the decoded text |
| `Proxy.UpgradeIgnoresHead` | proxy-server.js:91-127 | the bytes buffered with an upgrade request never affect the action |
| `Proxy.DefaultPorts` | proxy-server.js:66-103 | a missing port becomes 443 for CONNECT and 80 for upgrades, while a parsed string port such as `"0"` is kept, because it is truthy |

## Left out

- The two-way `pipe` relays and the error handlers that end the peer socket are left out. They are stream concurrency inside Node's event loop, so they appear only as the opaque `Tunnel` and `UpgradeTunnel` actions.
- How Node's HTTP parser classifies a request as a plain request, CONNECT or an upgrade is left out. It is library behaviour, and the event kind is an input (`Proxy.Event`).
- The internals of `url.parse` and of base64 decoding are left out: they are library code, taken as parameters. An exception thrown by `url.parse` is not modelled either.
- A synchronous exception from `net.connect` or `http.request` is not modelled, for example for a parsed port outside 0-65535. Such an exception would escape the handler before any `'error'` listener is attached, so the client socket is not ended. Only errors reported later through those listeners are covered by the `Tunnel` and `UpgradeTunnel` actions.
- The headers Node adds to responses itself (`Date`, `Content-Length`, and so on) are left out, as library behaviour.
- Server startup, listening on port 3000, and all `console.log`/`console.error` output are left out. This is I/O with no decision in it.
- JavaScript's NaN is left out, because no value in this code can be NaN. Strings are compared as sequences of characters, and socket writes of the ASCII literals are not modelled as byte encoding.
