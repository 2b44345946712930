/**
 The session JWT of edc_translation/auth.py (compact form of RFC 7515, claims of RFC 7519).

 JSON, HMAC-SHA-256 and Python's `int(text)` and `str(value)` are parameters: `loads` is assumed to undo
 `dumps`, nothing is assumed of the others.
 */
module SessionTokens {
  import opened Wrappers
  import opened Bytes
  import opened SortedStrings
  import opened Base64Url
  import opened Principals

  datatype Claim = Text(s: string) | Number(n: int) | Texts(ss: seq<string>)

  type Claims = map<string, Claim>

  datatype Library = Library(
    dumps: Claims -> seq<Byte>,
    loads: seq<Byte> -> Option<Claims>,
    hmac: (string, string) -> seq<Byte>,
    parseInt: string -> Option<int>,
    show: Claim -> string)
  {
    function Str(c: Claim): string {
      if c.Text? then c.s else show(c)
    }

    function Int(c: Claim): Option<int> {
      match c
      case Number(n) => Some(n)
      case Text(s) => parseInt(s)
      case Texts(_) => None
    }

    ghost predicate JsonRoundTrips() {
      forall c :: loads(dumps(c)) == Some(c)
    }
  }

  function Header(): Claims {
    map["alg" := Text("HS256"), "typ" := Text("JWT")]
  }

  function Payload(p: Principal, ttl: int, now: int): Claims {
    map["sub" := Text(p.subject),
        "tenant_id" := Text(p.tenantId),
        "roles" := Texts(Sorted(p.roles)),
        "scopes" := Texts(Sorted(p.scopes)),
        "iat" := Number(now),
        "exp" := Number(now + ttl)]
  }

  function Sign(lib: Library, secret: string, signingInput: string): string {
    B64(lib.hmac(secret, signingInput))
  }

  /** `create_session_jwt`. */
  function Create(lib: Library, p: Principal, secret: string, ttl: int, now: int): string {
    var signingInput := B64(lib.dumps(Header())) + "." + B64(lib.dumps(Payload(p, ttl, now)));
    signingInput + "." + Sign(lib, secret, signingInput)
  }

  /** The position of the first dot at or after `from`. */
  function FirstDot(s: string, from: nat): (i: Option<nat>)
    requires from <= |s|
    ensures i.Some? ==> from <= i.value < |s| && s[i.value] == '.' && forall k :: from <= k < i.value ==> s[k] != '.'
    ensures i.None? ==> forall k :: from <= k < |s| ==> s[k] != '.'
    decreases |s| - from
  {
    if from == |s| then None else if s[from] == '.' then Some(from) else FirstDot(s, from + 1)
  }

  /** `token.split(".", 2)` when it has three parts. */
  function Split(token: string): Option<(string, string, string)> {
    var i := FirstDot(token, 0);
    if i.None? then None else
    var j := FirstDot(token, i.value + 1);
    if j.None? then None else
    Some((token[..i.value], token[i.value + 1..j.value], token[j.value + 1..]))
  }

  /** `_json_from_b64`; both a decoding error and invalid JSON end the parse. */
  function JsonFromB64(lib: Library, s: string): Option<Claims> {
    match Decode(s)
    case Failure(_) => None
    case Success(bytes) => lib.loads(bytes)
  }

  /** `frozenset(str(x) for x in claims.get(key, []))`; iterating over a text gives its characters. */
  function TextSet(claims: Claims, key: string): Option<set<string>> {
    if key !in claims then Some({})
    else
      match claims[key]
      case Texts(ss) => Some(set s | s in ss)
      case Text(s) => Some(set c | c in s :: [c])
      case Number(_) => None
  }

  function PrincipalFromClaims(lib: Library, c: Claims, now: int): Result<Principal, AuthError> {
    if "exp" !in c then Failure(MissingClaim) else
    var expiry := lib.Int(c["exp"]);
    if expiry.None? then Failure(Malformed)
    else if expiry.value <= now then Failure(Expired)
    else if "sub" !in c || "tenant_id" !in c then Failure(MissingClaim)
    else
      var roles, scopes := TextSet(c, "roles"), TextSet(c, "scopes");
      if roles.None? || scopes.None? then Failure(Malformed)
      else Success(Principal(lib.Str(c["sub"]), lib.Str(c["tenant_id"]), roles.value, scopes.value, "jwt", None))
  }

  /** `principal_from_session_jwt`. */
  function Parse(lib: Library, token: string, secret: string, now: int): Result<Principal, AuthError> {
    var parts := Split(token);
    if parts.None? then Failure(Segments) else
    var (h, p, signature) := parts.value;
    var signingInput := h + "." + p;
    if !Ascii(token) then Failure(Encoding)
    else if Sign(lib, secret, signingInput) != signature then Failure(BadSignature)
    else
      var header := JsonFromB64(lib, h);
      if header.None? then Failure(Malformed)
      else if "alg" !in header.value || header.value["alg"] != Text("HS256") then Failure(Algorithm)
      else
        var payload := JsonFromB64(lib, p);
        if payload.None? then Failure(Malformed) else PrincipalFromClaims(lib, payload.value, now)
  }

  predicate NoDot(s: string) {
    forall i :: 0 <= i < |s| ==> s[i] != '.'
  }

  lemma SplitUndoesJoin(h: string, p: string, signature: string)
    requires NoDot(h) && NoDot(p)
    ensures Split(h + "." + p + "." + signature) == Some((h, p, signature))
  {
    var token := h + "." + p + "." + signature;
    var i := FirstDot(token, 0);
    assert token[|h|] == '.';
    assert forall k :: 0 <= k < |h| ==> token[k] == h[k];
    assert i == Some(|h|);
    var j := FirstDot(token, |h| + 1);
    assert token[|h| + 1 + |p|] == '.';
    assert forall k :: |h| + 1 <= k < |h| + 1 + |p| ==> token[k] == p[k - |h| - 1];
    assert j == Some(|h| + 1 + |p|);
    assert token[..|h|] == h && token[|h| + 1..|h| + 1 + |p|] == p && token[|h| + |p| + 2..] == signature;
  }

  lemma AsciiConcat(a: string, b: string)
    requires Ascii(a) && Ascii(b)
    ensures Ascii(a + b)
  {
  }

  lemma TokenIsAscii(h: string, p: string, signature: string)
    requires Ascii(h) && Ascii(p) && Ascii(signature)
    ensures Ascii(h + "." + p + "." + signature)
  {
    AsciiConcat(h, ".");
    AsciiConcat(h + ".", p);
    AsciiConcat(h + "." + p, ".");
    AsciiConcat(h + "." + p + ".", signature);
  }

  lemma JsonSegment(lib: Library, c: Claims)
    requires lib.JsonRoundTrips()
    ensures JsonFromB64(lib, B64(lib.dumps(c))) == Some(c)
    ensures NoDot(B64(lib.dumps(c))) && Ascii(B64(lib.dumps(c)))
  {
    DecodeUndoesB64(lib.dumps(c));
    B64IsClean(lib.dumps(c));
  }

  lemma PayloadHolds(p: Principal, ttl: int, now: int)
    ensures var c := Payload(p, ttl, now);
      && c.Keys == {"sub", "tenant_id", "roles", "scopes", "iat", "exp"}
      && c["exp"] == Number(now + ttl) && c["iat"] == Number(now)
      && c["sub"] == Text(p.subject) && c["tenant_id"] == Text(p.tenantId)
      && c["roles"] == Texts(Sorted(p.roles)) && c["scopes"] == Texts(Sorted(p.scopes))
  {
  }

  lemma ClaimsRoundTrip(lib: Library, p: Principal, ttl: int, t: int, u: int)
    ensures PrincipalFromClaims(lib, Payload(p, ttl, t), u) ==
      if u < t + ttl then Success(p.(authType := "jwt", tokenId := None)) else Failure(Expired)
  {
    PayloadHolds(p, ttl, t);
    assert (set s | s in Sorted(p.roles)) == p.roles;
    assert (set s | s in Sorted(p.scopes)) == p.scopes;
  }

  /** A well-formed and properly signed token stands or falls with its claims. */
  lemma SignedTokenParses(lib: Library, h: string, p: string, secret: string, now: int)
    requires NoDot(h) && NoDot(p) && Ascii(h) && Ascii(p)
    requires JsonFromB64(lib, h) == Some(Header()) && JsonFromB64(lib, p).Some?
    ensures Parse(lib, h + "." + p + "." + Sign(lib, secret, h + "." + p), secret, now)
      == PrincipalFromClaims(lib, JsonFromB64(lib, p).value, now)
  {
    var signature := Sign(lib, secret, h + "." + p);
    B64IsClean(lib.hmac(secret, h + "." + p));
    SplitUndoesJoin(h, p, signature);
    TokenIsAscii(h, p, signature);
  }

  /**
   A session token gives back the same subject, tenant, roles and scopes at every time before it
   expires, and is rejected as expired from then on.
   */
  lemma SessionRoundTrip(lib: Library, p: Principal, secret: string, ttl: int, t: int, u: int)
    requires lib.JsonRoundTrips()
    ensures Parse(lib, Create(lib, p, secret, ttl, t), secret, u) ==
      if u < t + ttl then Success(p.(authType := "jwt", tokenId := None)) else Failure(Expired)
  {
    JsonSegment(lib, Header());
    JsonSegment(lib, Payload(p, ttl, t));
    SignedTokenParses(lib, B64(lib.dumps(Header())), B64(lib.dumps(Payload(p, ttl, t))), secret, u);
    ClaimsRoundTrip(lib, p, ttl, t, u);
  }

  lemma SplitParts(token: string)
    requires Split(token).Some?
    ensures var (h, p, signature) := Split(token).value;
      token == h + "." + p + "." + signature && NoDot(h) && NoDot(p)
  {
  }

  /** An accepted token is the only accepted token over its header and claims: no other signature passes. */
  lemma SignatureIsDetermined(lib: Library, a: string, b: string, secret: string, now: int, later: int)
    requires Parse(lib, a, secret, now).Success? && Parse(lib, b, secret, later).Success?
    requires Split(a).Some? && Split(b).Some?
    requires Split(a).value.0 == Split(b).value.0 && Split(a).value.1 == Split(b).value.1
    ensures a == b
  {
    SplitParts(a);
    SplitParts(b);
  }

  /** A token is accepted only with the signature that the secret gives its header and claims. */
  lemma AcceptedIsSigned(lib: Library, token: string, secret: string, now: int)
    requires Parse(lib, token, secret, now).Success?
    ensures Split(token).Some?
    ensures var (h, p, signature) := Split(token).value;
      signature == B64(lib.hmac(secret, h + "." + p))
  {
  }

  /** And only with an HS256 header and an expiry still ahead; the principal is the one its claims name. */
  lemma AcceptedIsAsClaimed(lib: Library, token: string, secret: string, now: int)
    requires Parse(lib, token, secret, now).Success?
    ensures Split(token).Some?
    ensures var (h, p, _) := Split(token).value;
      && JsonFromB64(lib, h).Some? && JsonFromB64(lib, p).Some?
      && var header, c, r := JsonFromB64(lib, h).value, JsonFromB64(lib, p).value, Parse(lib, token, secret, now).value;
      && "alg" in header && header["alg"] == Text("HS256")
      && "exp" in c && lib.Int(c["exp"]).Some? && now < lib.Int(c["exp"]).value
      && "sub" in c && r.subject == lib.Str(c["sub"]) && "tenant_id" in c && r.tenantId == lib.Str(c["tenant_id"])
      && r.authType == "jwt" && r.tokenId == None
      && ("roles" !in c ==> r.roles == {}) && ("scopes" !in c ==> r.scopes == {})
      && ("roles" in c && c["roles"].Texts? ==> forall x :: x in r.roles <==> x in c["roles"].ss)
      && ("scopes" in c && c["scopes"].Texts? ==> forall x :: x in r.scopes <==> x in c["scopes"].ss)
  {
  }

  lemma B64IsInjective(a: seq<Byte>, b: seq<Byte>)
    requires B64(a) == B64(b)
    ensures a == b
  {
    DecodeUndoesB64(a);
    DecodeUndoesB64(b);
  }

  /** What is signed: the header and the claims, each as stripped base64url of its JSON, with a dot between. */
  function SigningInput(lib: Library, p: Principal, ttl: int, t: int): string {
    B64(lib.dumps(Header())) + "." + B64(lib.dumps(Payload(p, ttl, t)))
  }

  /**
   Under another secret a token passes exactly when that secret happens to give the same signature; else it
   is rejected for its signature, whatever it claims.
   */
  lemma OtherSecretsReject(lib: Library, p: Principal, secret: string, other: string, ttl: int, t: int, u: int)
    requires lib.JsonRoundTrips()
    ensures Parse(lib, Create(lib, p, secret, ttl, t), other, u) ==
      if lib.hmac(other, SigningInput(lib, p, ttl, t)) == lib.hmac(secret, SigningInput(lib, p, ttl, t))
      then Parse(lib, Create(lib, p, secret, ttl, t), secret, u)
      else Failure(BadSignature)
  {
    var h, c := B64(lib.dumps(Header())), B64(lib.dumps(Payload(p, ttl, t)));
    JsonSegment(lib, Header());
    JsonSegment(lib, Payload(p, ttl, t));
    SignatureDecides(lib, h, c, secret, other, u);
  }

  lemma SignatureDecides(lib: Library, h: string, p: string, secret: string, other: string, now: int)
    requires NoDot(h) && NoDot(p) && Ascii(h) && Ascii(p)
    ensures var token := h + "." + p + "." + B64(lib.hmac(secret, h + "." + p));
      Parse(lib, token, other, now) ==
        if lib.hmac(other, h + "." + p) == lib.hmac(secret, h + "." + p) then Parse(lib, token, secret, now)
        else Failure(BadSignature)
  {
    var signature := B64(lib.hmac(secret, h + "." + p));
    B64IsClean(lib.hmac(secret, h + "." + p));
    SplitUndoesJoin(h, p, signature);
    TokenIsAscii(h, p, signature);
    if B64(lib.hmac(other, h + "." + p)) == signature {
      B64IsInjective(lib.hmac(other, h + "." + p), lib.hmac(secret, h + "." + p));
    }
  }

  /** A created token carries the header, six claims with the two lists sorted, and the secret's signature of both. */
  lemma CreatedTokenCarries(lib: Library, p: Principal, secret: string, ttl: int, t: int)
    requires lib.JsonRoundTrips()
    ensures var parts := Split(Create(lib, p, secret, ttl, t));
      && parts.Some?
      && var (h, c, signature) := parts.value;
      && signature == B64(lib.hmac(secret, h + "." + c))
      && JsonFromB64(lib, h) == Some(map["alg" := Text("HS256"), "typ" := Text("JWT")])
      && JsonFromB64(lib, c).Some?
      && var claims := JsonFromB64(lib, c).value;
      && claims.Keys == {"sub", "tenant_id", "roles", "scopes", "iat", "exp"}
      && claims["sub"] == Text(p.subject) && claims["tenant_id"] == Text(p.tenantId)
      && claims["roles"] == Texts(Sorted(p.roles)) && claims["scopes"] == Texts(Sorted(p.scopes))
      && claims["iat"] == Number(t) && claims["exp"] == Number(t + ttl)
  {
    var h, c := B64(lib.dumps(Header())), B64(lib.dumps(Payload(p, ttl, t)));
    JsonSegment(lib, Header());
    JsonSegment(lib, Payload(p, ttl, t));
    SplitUndoesJoin(h, c, B64(lib.hmac(secret, h + "." + c)));
    PayloadHolds(p, ttl, t);
  }

  /** The expiry an accepted token carries. */
  function Expiry(lib: Library, token: string): Option<int> {
    var parts := Split(token);
    if parts.None? then None else
    var c := JsonFromB64(lib, parts.value.1);
    if c.None? || "exp" !in c.value then None else lib.Int(c.value["exp"])
  }

  lemma ClaimsInTime(lib: Library, c: Claims, now: int, u: int)
    requires PrincipalFromClaims(lib, c, now).Success?
    ensures "exp" in c && lib.Int(c["exp"]).Some? && now < lib.Int(c["exp"]).value
    ensures PrincipalFromClaims(lib, c, u) ==
      if u < lib.Int(c["exp"]).value then PrincipalFromClaims(lib, c, now) else Failure(Expired)
  {
  }

  /** Time only ever takes an accepted token to rejected-as-expired, at the one instant its claims name. */
  lemma AcceptanceEndsAtExpiry(lib: Library, token: string, secret: string, now: int, u: int)
    requires Parse(lib, token, secret, now).Success?
    ensures Expiry(lib, token).Some? && now < Expiry(lib, token).value
    ensures Parse(lib, token, secret, u) ==
      if u < Expiry(lib, token).value then Parse(lib, token, secret, now) else Failure(Expired)
  {
    ClaimsInTime(lib, JsonFromB64(lib, Split(token).value.1).value, now, u);
  }
}
