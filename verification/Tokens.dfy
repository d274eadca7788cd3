/**
 Signed tokens: the printer (`Sign`), the parser (`Verify`), and the two
 decoders built on it. Hashing, JSON text and UUID text are library functions
 passed in as a `Library`; of them only reading back what was written is asked
 (`ReadsBack`), and only where a result needs it.
 */
module Tokens {
  import opened Wrappers
  import opened Base64Url

  // A double is mantissa * 2^exponent, written with an odd mantissa.
  datatype Dyadic = Dyadic(mantissa: int, exponent: int)

  type Double = d: Dyadic | d.mantissa % 2 == 1 || d == Dyadic(0, 0) witness Dyadic(0, 0)

  datatype Json =
    | Text(text: string)
    | Number(number: int)
    | Float(double: Double)
    | Boolean(truth: bool)
    | Null
    | List(items: seq<Json>)
    | Dict(fields: map<string, Json>)

  type Payload = map<string, Json>

  datatype Loaded = Object(body: Payload) | NotAnObject | Malformed

  type UserId = nat

  datatype Library = Library(
    mac: string -> seq<Byte>,
    dumps: Payload -> seq<Byte>,
    loads: seq<Byte> -> Loaded,
    showId: UserId -> string,
    readId: string -> Option<UserId>)

  // Reading undoes writing, for this payload and for this user id.
  predicate ReadsBack(lib: Library, body: Payload) {
    lib.loads(lib.dumps(body)) == Object(body)
  }

  predicate ReadsBackId(lib: Library, user: UserId) {
    lib.readId(lib.showId(user)) == Some(user)
  }

  function Power(n: nat): (p: int)
    ensures p > 0
  {
    if n == 0 then 1 else 2 * Power(n - 1)
  }

  function Value(d: Dyadic): real {
    if d.exponent >= 0 then (d.mantissa * Power(d.exponent)) as real
    else d.mantissa as real / Power(-d.exponent) as real
  }

  // What Python compares as a number: a boolean counts as 0 or 1.
  function Numeric(j: Json): Option<real> {
    match j
    case Number(n) => Some(n as real)
    case Float(d) => Some(Value(d))
    case Boolean(b) => Some(if b then 1.0 else 0.0)
    case _ => None
  }

  /** What a call may end in: a value, None, or an exception that leaves the function. */
  datatype Outcome<+T> = Accepted(value: T) | Rejected | Raised

  // ---------- splitting on the dot ----------

  // How many characters come before the first dot.
  function ToDot(s: string): (k: nat)
    ensures k <= |s|
    ensures forall i :: 0 <= i < k ==> s[i] != '.'
    ensures k < |s| ==> s[k] == '.'
  {
    if s == "" || s[0] == '.' then 0 else 1 + ToDot(s[1..])
  }

  function Split(s: string): (parts: seq<string>)
    ensures |parts| >= 1
    decreases |s|
  {
    var k := ToDot(s);
    if k == |s| then [s] else [s[..k]] + Split(s[k + 1..])
  }

  function Joined(parts: seq<string>): string
    requires |parts| >= 1
  {
    if |parts| == 1 then parts[0] else parts[0] + "." + Joined(parts[1..])
  }

  predicate Dotless(s: string) {
    forall i :: 0 <= i < |s| ==> s[i] != '.'
  }

  // ---------- sign and verify ----------

  const SEPARATOR: string := "."

  function Stamped(payload: Payload, ttl: int, issued: real): Payload {
    payload["exp" := Number(issued.Floor + ttl)]
  }

  /** sign_token; `issued` is the clock, which is never before 1970. */
  function Sign(lib: Library, payload: Payload, ttl: int, issued: real): string
    requires issued >= 0.0
  {
    var body := Encode(lib.dumps(Stamped(payload, ttl, issued)));
    body + SEPARATOR + Encode(lib.mac(body))
  }

  function CheckExpiry(body: Payload, now: real): Outcome<Payload> {
    var exp := if "exp" in body then body["exp"] else Number(0);
    match Numeric(exp)
    case Some(limit) => if limit < now then Rejected else Accepted(body)
    case None => Raised
  }

  /** verify_token. The signature is decoded before the try block that guards the body. */
  function Verify(lib: Library, token: string, now: real): Outcome<Payload> {
    var parts := Split(token);
    if |parts| != 2 then Rejected
    else
      var signature := Decode(parts[1]);
      if signature.None? then Raised
      else if signature.value != lib.mac(parts[0]) then Rejected
      else
        match Decode(parts[0])
        case None => Rejected
        case Some(bytes) =>
          match lib.loads(bytes)
          case Malformed => Rejected
          case NotAnObject => Raised
          case Object(body) => CheckExpiry(body, now)
  }

  // ---------- the kinds of token ----------

  const ACCESS_TTL: int := 15 * 60
  const EMAIL_VERIFICATION_TTL: int := 24 * 60 * 60
  const PASSWORD_RESET_TTL: int := 30 * 60

  datatype Kind = Access | VerifyEmail | ResetPassword

  function Lifetime(kind: Kind): int {
    match kind
    case Access => ACCESS_TTL
    case VerifyEmail => EMAIL_VERIFICATION_TTL
    case ResetPassword => PASSWORD_RESET_TTL
  }

  function Purpose(kind: Kind): string
    requires kind != Access
  {
    if kind == VerifyEmail then "verify_email" else "reset_password"
  }

  function Claims(lib: Library, kind: Kind, user: UserId): Payload {
    var sub := map["sub" := Text(lib.showId(user))];
    if kind == Access then sub["type" := Text("access")] else sub["purpose" := Text(Purpose(kind))]
  }

  /** create_access_token, create_email_verification_token, create_password_reset_token */
  function Create(lib: Library, kind: Kind, user: UserId, issued: real): string
    requires issued >= 0.0
  {
    Sign(lib, Claims(lib, kind, user), Lifetime(kind), issued)
  }

  function Subject(lib: Library, body: Payload): Outcome<UserId> {
    if "sub" !in body then Rejected
    else
      match body["sub"]
      case Text(text) =>
        (match lib.readId(text)
         case None => Rejected
         case Some(id) => Accepted(id))
      case _ => Raised
  }

  function DecodeClaim(lib: Library, token: string, claim: string, expected: string, now: real): Outcome<UserId> {
    match Verify(lib, token, now)
    case Raised => Raised
    case Rejected => Rejected
    case Accepted(body) =>
      if claim !in body || body[claim] != Text(expected) then Rejected else Subject(lib, body)
  }

  /** decode_access_token */
  function DecodeAccess(lib: Library, token: string, now: real): Outcome<UserId> {
    DecodeClaim(lib, token, "type", "access", now)
  }

  /** decode_purpose_token */
  function DecodePurpose(lib: Library, token: string, purpose: string, now: real): Outcome<UserId> {
    DecodeClaim(lib, token, "purpose", purpose, now)
  }

  // ---------- splitting undoes joining ----------

  lemma ToDotFinds(left: string, right: string)
    requires Dotless(left)
    ensures ToDot(left + SEPARATOR + right) == |left|
  {
    var s := left + SEPARATOR + right;
    assert s[|left|] == '.';
    assert forall i :: 0 <= i < |left| ==> s[i] == left[i] && s[i] != '.';
  }

  lemma ToDotMisses(s: string)
    requires Dotless(s)
    ensures ToDot(s) == |s|
  {
  }

  /** Splitting and joining are inverse: no part has a dot, and joining gives the text back. */
  lemma {:induction false} SplitJoined(s: string)
    ensures Joined(Split(s)) == s
    ensures forall i :: 0 <= i < |Split(s)| ==> Dotless(Split(s)[i])
    decreases |s|
  {
    var k := ToDot(s);
    if k < |s| {
      SplitJoined(s[k + 1..]);
      assert Split(s)[1..] == Split(s[k + 1..]);
      assert s == s[..k] + "." + s[k + 1..];
    }
  }

  lemma {:induction false} JoinedSplit(parts: seq<string>)
    requires |parts| >= 1
    requires forall i :: 0 <= i < |parts| ==> Dotless(parts[i])
    ensures Split(Joined(parts)) == parts
  {
    if |parts| == 1 {
      ToDotMisses(parts[0]);
    } else {
      var rest := Joined(parts[1..]);
      JoinedSplit(parts[1..]);
      ToDotFinds(parts[0], rest);
      assert Joined(parts) == parts[0] + SEPARATOR + rest;
      assert Joined(parts)[..|parts[0]|] == parts[0];
      assert Joined(parts)[|parts[0]| + 1..] == rest;
    }
  }

  lemma EncodedIsDotless(data: seq<Byte>)
    ensures Dotless(Encode(data))
  {
    EncodeShape(data);
  }

  /** A signed token splits into exactly its body and its signature. */
  lemma SignedHasTwoParts(lib: Library, payload: Payload, ttl: int, issued: real)
    requires issued >= 0.0
    ensures var parts := Split(Sign(lib, payload, ttl, issued));
            |parts| == 2
            && Decode(parts[0]) == Some(lib.dumps(Stamped(payload, ttl, issued)))
            && Decode(parts[1]) == Some(lib.mac(parts[0]))
  {
    var bytes := lib.dumps(Stamped(payload, ttl, issued));
    var body := Encode(bytes);
    var signature := Encode(lib.mac(body));
    EncodedIsDotless(bytes);
    EncodedIsDotless(lib.mac(body));
    JoinedSplit([body, signature]);
    assert Joined([body, signature]) == body + SEPARATOR + signature;
    RoundTrip(bytes);
    RoundTrip(lib.mac(body));
  }

  // ---------- main results ----------

  /**
   A token is accepted up to and including the whole second it was signed for,
   and gives back the payload with `exp` overwritten; after that it is rejected.
   All that is asked of the JSON library is that it reads this one body back.
   */
  lemma SignedTokenRoundTrips(lib: Library, payload: Payload, ttl: int, issued: real, now: real)
    requires ReadsBack(lib, Stamped(payload, ttl, issued)) && issued >= 0.0
    ensures Verify(lib, Sign(lib, payload, ttl, issued), now)
         == if now <= (issued.Floor + ttl) as real
            then Accepted(payload["exp" := Number(issued.Floor + ttl)])
            else Rejected
  {
    SignedHasTwoParts(lib, payload, ttl, issued);
  }

  // 15 minutes, a day, half an hour.
  function Seconds(kind: Kind): int {
    match kind
    case Access => 900
    case VerifyEmail => 86400
    case ResetPassword => 1800
  }

  /** The claims each kind of token carries, and for how long. */
  lemma TokensCarry(lib: Library, kind: Kind, user: UserId, issued: real, now: real)
    requires ReadsBack(lib, Stamped(Claims(lib, kind, user), Lifetime(kind), issued)) && issued >= 0.0
    ensures Verify(lib, Create(lib, kind, user, issued), now) ==
      var end := issued.Floor + Seconds(kind);
      var sub := Text(lib.showId(user));
      if now > end as real then Rejected
      else match kind
           case Access => Accepted(map["sub" := sub, "type" := Text("access"), "exp" := Number(end)])
           case VerifyEmail => Accepted(map["sub" := sub, "purpose" := Text("verify_email"), "exp" := Number(end)])
           case ResetPassword => Accepted(map["sub" := sub, "purpose" := Text("reset_password"), "exp" := Number(end)])
  {
    SignedTokenRoundTrips(lib, Claims(lib, kind, user), Lifetime(kind), issued, now);
  }

  /**
   Each decoder gives back the user of its own kind of token for exactly its
   lifetime, and nothing for the other kinds, whatever purpose is asked for.
   */
  lemma KindsAreSeparate(lib: Library, kind: Kind, purpose: string, user: UserId, issued: real, now: real)
    requires ReadsBack(lib, Stamped(Claims(lib, kind, user), Lifetime(kind), issued)) && ReadsBackId(lib, user)
    requires issued >= 0.0
    ensures var token, live := Create(lib, kind, user, issued), now <= (issued.Floor + Seconds(kind)) as real;
      && DecodeAccess(lib, token, now) == (if live && kind == Access then Accepted(user) else Rejected)
      && DecodePurpose(lib, token, purpose, now) ==
           if live && ((kind == VerifyEmail && purpose == "verify_email")
                       || (kind == ResetPassword && purpose == "reset_password"))
           then Accepted(user) else Rejected
  {
    TokensCarry(lib, kind, user, issued, now);
    assert "sub"[0] == 's' && "type"[0] == 't' && "purpose"[0] == 'p' && "exp"[0] == 'e';
  }

  /** What the two results ask of a library, some library gives, whatever is signed and for whom. */
  lemma LibraryExists(mac: string -> seq<Byte>, kind: Kind, user: UserId, payload: Payload, ttl: int, issued: real)
    returns (signer: Library, issuer: Library)
    ensures signer.mac == mac && ReadsBack(signer, Stamped(payload, ttl, issued))
    ensures issuer.mac == mac && ReadsBackId(issuer, user)
    ensures ReadsBack(issuer, Stamped(Claims(issuer, kind, user), Lifetime(kind), issued))
  {
    var show := (id: UserId) => seq(id, _ => '1');
    var read := (text: string) => Some(|text|);
    signer := Library(mac, _ => [], _ => Object(Stamped(payload, ttl, issued)), show, read);
    var claims := Claims(signer, kind, user);
    issuer := Library(mac, _ => [], _ => Object(Stamped(claims, Lifetime(kind), issued)), show, read);
  }

  // What an authentic body may hold without making verification raise.
  predicate Readable(loaded: Loaded) {
    match loaded
    case Malformed => true
    case NotAnObject => false
    case Object(body) => "exp" in body ==> Numeric(body["exp"]).Some?
  }

  // The signature part cannot be decoded: it is not ASCII, or is cut inside a group.
  ghost predicate Undecodable(signature: string) {
    !Ascii(signature) || !Complete(signature + Padding(-|signature| % 4))
  }

  /**
   verify_token promises never to raise. For every two-part token it raises
   exactly when the signature part cannot be decoded, or the token is authentic
   and its body is not an object with a numeric expiry.
   */
  lemma RaisesExactlyWhen(lib: Library, body: string, signature: string, now: real)
    requires Dotless(body) && Dotless(signature)
    ensures Verify(lib, body + SEPARATOR + signature, now) == Raised <==>
      || Undecodable(signature)
      || (&& Decode(signature) == Some(lib.mac(body))
          && Decode(body).Some?
          && !Readable(lib.loads(Decode(body).value)))
  {
    JoinedSplit([body, signature]);
    assert Joined([body, signature]) == body + SEPARATOR + signature;
    DecodesIff(signature);
  }

  /** Whatever the library does, a signature one character over whole groups makes verification raise. */
  lemma CutSignatureRaises(lib: Library, body: string, signature: string, now: real)
    requires Dotless(body) && AllInAlphabet(signature) && |signature| % 4 == 1
    ensures Verify(lib, body + SEPARATOR + signature, now) == Raised
  {
    RaisesExactlyWhen(lib, body, signature, now);
    AlphabetDecodesIff(signature);
    DecodesIff(signature);
  }

  /** A text without exactly one dot is always rejected, never an exception. */
  lemma OnlyTwoPartsAreRead(lib: Library, parts: seq<string>, now: real)
    requires |parts| >= 1 && |parts| != 2
    requires forall i :: 0 <= i < |parts| ==> Dotless(parts[i])
    ensures Verify(lib, Joined(parts), now) == Rejected
  {
    JoinedSplit(parts);
  }

  /**
   An accepted token carries, in its signature part, the hash of exactly its
   body part, and its body is not expired.
   */
  lemma AcceptedIsAuthentic(lib: Library, token: string, now: real)
    requires Verify(lib, token, now).Accepted?
    ensures exists body: string, signature: string {:trigger body + SEPARATOR + signature} ::
              token == body + SEPARATOR + signature
              && Decode(signature) == Some(lib.mac(body))
              && Decode(body).Some?
              && lib.loads(Decode(body).value) == Object(Verify(lib, token, now).value)
    ensures var payload := Verify(lib, token, now).value;
            "exp" in payload ==> Numeric(payload["exp"]).Some? && now <= Numeric(payload["exp"]).value
  {
    var parts := Split(token);
    SplitJoined(token);
    assert token == parts[0] + SEPARATOR + parts[1];
  }
}
