/**
 The proxy's credential and its authentication check. The credential comes
 from the first two command-line arguments; the check reads the
 `proxy-authorization` request header.

 The check compares each decoded field with itself, so it never looks at
 the configured credential or at what the header decodes to. This module
 keeps that behaviour and proves the independence.
 */
module Auth {
  import opened Options
  import opened JsValues
  import opened JsStrings

  /** Request headers as delivered by the HTTP parser: lower-case names, one
      string value per name. */
  type Headers = map<string, string>

  /** `new Buffer.from(t, 'base64').toString()` for a string `t`: the decoded
      text, or `None` when the library throws. */
  type Decoder = string -> Option<string>

  /** The configured username and password: `null` or the argument strings. */
  datatype Config = Config(username: JsValue, password: JsValue)

  const AuthorizationHeader: string := "proxy-authorization"

  /** Authentication is on when both configured values are truthy, that is,
      present and non-empty. */
  predicate AuthEnabled(cfg: Config) {
    Truthy(cfg.username) && Truthy(cfg.password)
  }

  /** The credential set up from `process.argv.slice(2)`: the first two
      arguments when there are at least two, `null` for both otherwise.
      Further arguments are ignored. */
  function ConfigFromArgs(args: seq<string>): (cfg: Config)
    ensures AuthEnabled(cfg) <==> |args| >= 2 && args[0] != "" && args[1] != ""
    ensures AuthEnabled(cfg) ==> cfg.username == Str(args[0]) && cfg.password == Str(args[1])
    ensures |args| < 2 ==> cfg.username == Null && cfg.password == Null
  {
    if |args| >= 2 then Config(Str(args[0]), Str(args[1])) else Config(Null, Null)
  }

  /** The header counts as given when it is present and non-empty
      (`!authheader` is true for `undefined` and for `""`). */
  predicate HeaderPresent(headers: Headers) {
    AuthorizationHeader in headers && headers[AuthorizationHeader] != ""
  }

  /** `new Buffer.from(arg, 'base64').toString()`: throws when `arg` is not a
      string (an absent token is `undefined`) or when the decoder throws.
      Applying `new` to `Buffer.from` yields the same buffer as calling it. */
  function DecodeBase64(arg: JsValue, decode: Decoder): (c: Completion<string>)
    ensures c.Normal? <==> arg.Str? && decode(arg.s).Some?
    ensures c.Normal? ==> c.value == decode(arg.s).value
  {
    match arg
    case Str(t) => if decode(t).Some? then Normal(decode(t).value) else Throw
    case _ => Throw
  }

  /** The body of the `try` block: look the header up, decode its second
      space-separated token, split the text on `:` and compare the user and
      password fields, each with itself. Since each field equals itself,
      the block yields false only when the header is missing or empty. */
  function CheckHeader(headers: Headers, decode: Decoder): (c: Completion<bool>)
    ensures c == Normal(false) <==> !HeaderPresent(headers)
  {
    if AuthorizationHeader !in headers || !Truthy(Str(headers[AuthorizationHeader])) then
      Normal(false)
    else
      var authheader := headers[AuthorizationHeader];
      match DecodeBase64(At(Split(authheader, ' '), 1), decode)
      case Throw => Throw
      case Normal(text) =>
        var auth := Split(text, ':');
        var user := At(auth, 0);
        var pass := At(auth, 1);
        Normal(StrictEquals(user, user) && StrictEquals(pass, pass))
  }

  /** `authenticate(req)`: true without credentials; otherwise the outcome
      of the `try` block, with anything it throws turned into false. */
  function Authenticate(cfg: Config, headers: Headers, decode: Decoder): (ok: bool)
    ensures !AuthEnabled(cfg) ==> ok
    ensures AuthEnabled(cfg) && !HeaderPresent(headers) ==> !ok
    ensures AuthEnabled(cfg) && CheckHeader(headers, decode).Throw? ==> !ok
  {
    if !Truthy(cfg.username) || !Truthy(cfg.password) then true
    else
      match CheckHeader(headers, decode)
      case Normal(b) => b
      case Throw => false
  }

  /** The token the check decodes, described directly: the text between the
      first space of the header and the next space (or the end). */
  function Token(authheader: string): string
    requires ' ' in authheader
  {
    Before(After(authheader, ' '), ' ')
  }

  /** The `try` block yields false only for a missing header, never from the
      comparison; it throws exactly when the header has no space or its token
      does not decode. */
  lemma CheckHeaderOutcome(headers: Headers, decode: Decoder)
    ensures CheckHeader(headers, decode) == Normal(false) <==> !HeaderPresent(headers)
    ensures CheckHeader(headers, decode) == Normal(true) <==>
      HeaderPresent(headers) && ' ' in headers[AuthorizationHeader]
      && decode(Token(headers[AuthorizationHeader])).Some?
    ensures CheckHeader(headers, decode).Throw? <==>
      HeaderPresent(headers) && (' ' !in headers[AuthorizationHeader]
      || decode(Token(headers[AuthorizationHeader])).None?)
  {
    if HeaderPresent(headers) {
      var h := headers[AuthorizationHeader];
      SplitCount(h, ' ');
      if ' ' in h {
        SecondField(h, ' ');
      }
    }
  }

  /** What `authenticate` decides, stated without the code's intermediate
      steps: with credentials on, a request passes exactly when the header
      is given, contains a space, and its token decodes. */
  lemma AuthenticateExactly(cfg: Config, headers: Headers, decode: Decoder)
    ensures Authenticate(cfg, headers, decode) <==>
      !AuthEnabled(cfg) ||
      (HeaderPresent(headers) && ' ' in headers[AuthorizationHeader]
       && decode(Token(headers[AuthorizationHeader])).Some?)
  {
    CheckHeaderOutcome(headers, decode);
  }

  /** A header without a space is rejected whatever the decoder does: the
      missing second token is `undefined`, decoding it throws, and the
      `catch` turns that into false. */
  lemma NoSpaceRejected(cfg: Config, headers: Headers, decode: Decoder)
    requires AuthEnabled(cfg)
    requires AuthorizationHeader in headers && ' ' !in headers[AuthorizationHeader]
    ensures !Authenticate(cfg, headers, decode)
  {
    SplitCount(headers[AuthorizationHeader], ' ');
  }

  /** Which credential is configured never changes the outcome. */
  lemma CredentialIrrelevant(cfg1: Config, cfg2: Config, headers: Headers, decode: Decoder)
    requires AuthEnabled(cfg1) && AuthEnabled(cfg2)
    ensures Authenticate(cfg1, headers, decode) == Authenticate(cfg2, headers, decode)
  {
  }

  /** What the token decodes to never changes the outcome: two decoders that
      fail on the same inputs give the same decisions. */
  lemma DecodedTextIrrelevant(cfg: Config, headers: Headers, decode1: Decoder, decode2: Decoder)
    requires forall t :: decode1(t).Some? <==> decode2(t).Some?
    ensures Authenticate(cfg, headers, decode1) == Authenticate(cfg, headers, decode2)
  {
    AuthenticateExactly(cfg, headers, decode1);
    AuthenticateExactly(cfg, headers, decode2);
  }

  /** With credentials on, any header of the form `<scheme> <token>` whose
      token decodes is accepted, whatever the decoded text holds, including
      text without a `:` (the password field is then `undefined`, and
      `undefined === undefined`). */
  lemma AnyDecodableTokenAccepted(cfg: Config, scheme: string, token: string, headers: Headers, decode: Decoder)
    requires ' ' !in scheme && ' ' !in token
    requires AuthorizationHeader in headers && headers[AuthorizationHeader] == scheme + " " + token
    requires decode(token).Some?
    ensures Authenticate(cfg, headers, decode)
  {
    var h := headers[AuthorizationHeader];
    assert h == Join([scheme, token], ' ');
    SplitUnique(h, ' ', [scheme, token]);
  }

}
