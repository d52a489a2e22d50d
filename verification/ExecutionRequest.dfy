/**
 Signed execution requests: encoding to a dictionary and back, signing, and
 verification with its time window. Times are microseconds.
 */
module ExecutionRequest {
  import opened Wrappers

  /** The dictionary keys in use, as distinct constants; any other key is `Other`. */
  datatype Name = ContractVersion | RequestId | ExecutionId | Operation | CreatedAt | ExpiresAt | Nonce | SourceSha
                | Environment | CapabilityFlags | Payload | PayloadHash | Signature
                | BrowserRead | FormValueWrite | ApprovedFileUpload | FinalSubmit
                | Other(text: string)

  datatype Json = JNull | JBool(flag: bool) | JNum(number: int) | JStr(text: string) | JList(items: seq<Json>)
                | JObj(fields: map<Name, Json>)

  /** Library behaviour: canonical JSON text, SHA-256, HMAC, time text both ways, and `str` of a value that is no string. */
  datatype Library = Library(canonical: Json -> string, sha256: string -> string, hmac: (string, string) -> string,
                             formatTime: int -> string, parseTime: string -> Option<int>, str: Json -> string)

  datatype Flags = Flags(browserRead: bool, formValueWrite: bool, approvedFileUpload: bool, finalSubmit: bool)
  {
    /** `validate_gd004`. */
    predicate Permitted() {
      browserRead && !formValueWrite && !approvedFileUpload && !finalSubmit
    }
  }

  datatype Request = Request(contractVersion: string, requestId: string, executionId: string, operation: string,
                             createdAt: string, expiresAt: string, nonce: string, sourceSha: string, environment: string,
                             flags: Flags, payload: Json, payloadHash: string, signature: string)

  datatype RequestError = TtlOutOfBounds | FlagsForbidden | SecretMissing | Malformed | WrongVersion | IdsMissing
                        | OperationForbidden | WrongEnvironment | BadSourceSha | BadPayload | PayloadHashMismatch
                        | BadTime | FromTheFuture | Expired | BadSignature

  const VERSION := "EJS-GH-EXEC-0.1"
  const TEST := "TEST"
  const SECOND := 1_000_000
  const MAX_TTL := 300
  const MAX_SKEW := 30

  predicate IsAllowedOperation(op: string) {
    op in {"health", "claim", "get_execution_payload", "get_approved_asset", "reconcile_result"}
  }

  predicate IsSourceSha(s: string) {
    |s| == 40 && forall i | 0 <= i < 40 :: IsDigit(s[i]) || 'a' <= s[i] <= 'f'
  }

  // ----- Encoding

  function FlagsToDict(f: Flags): Json {
    JObj(map[BrowserRead := JBool(f.browserRead), FormValueWrite := JBool(f.formValueWrite),
             ApprovedFileUpload := JBool(f.approvedFileUpload), FinalSubmit := JBool(f.finalSubmit)])
  }

  function UnsignedDict(r: Request): map<Name, Json> {
    map[ContractVersion := JStr(r.contractVersion), RequestId := JStr(r.requestId), ExecutionId := JStr(r.executionId),
        Operation := JStr(r.operation), CreatedAt := JStr(r.createdAt), ExpiresAt := JStr(r.expiresAt),
        Nonce := JStr(r.nonce), SourceSha := JStr(r.sourceSha), Environment := JStr(r.environment),
        CapabilityFlags := FlagsToDict(r.flags), Payload := r.payload, PayloadHash := JStr(r.payloadHash)]
  }

  function ToDict(r: Request): map<Name, Json> {
    UnsignedDict(r)[Signature := JStr(r.signature)]
  }

  /** `bool(value)`. */
  predicate Truthy(v: Json) {
    match v
    case JNull => false
    case JBool(b) => b
    case JNum(n) => n != 0
    case JStr(s) => s != ""
    case JList(items) => items != []
    case JObj(fields) => fields != map[]
  }

  function Get(m: map<Name, Json>, name: Name): Json {
    if name in m then m[name] else JNull
  }

  /** `str(value.get(name, ""))`. */
  function Text(lib: Library, m: map<Name, Json>, name: Name): string {
    if name !in m then ""
    else match m[name] case JStr(s) => s case other => lib.str(other)
  }

  /** `value or {}`. */
  function OrEmpty(v: Json): Json {
    if Truthy(v) then v else JObj(map[])
  }

  function FromMapping(lib: Library, m: map<Name, Json>): Result<Request, RequestError> {
    match OrEmpty(Get(m, CapabilityFlags))
    case JObj(flags) =>
      Ok(Request(Text(lib, m, ContractVersion), Text(lib, m, RequestId), Text(lib, m, ExecutionId), Text(lib, m, Operation),
                 Text(lib, m, CreatedAt), Text(lib, m, ExpiresAt), Text(lib, m, Nonce), Text(lib, m, SourceSha),
                 Text(lib, m, Environment),
                 Flags(Truthy(Get(flags, BrowserRead)), Truthy(Get(flags, FormValueWrite)),
                       Truthy(Get(flags, ApprovedFileUpload)), Truthy(Get(flags, FinalSubmit))),
                 OrEmpty(Get(m, Payload)), Text(lib, m, PayloadHash), Text(lib, m, Signature)))
    case _ => Err(Malformed)
  }

  lemma EncodedTexts(lib: Library, r: Request)
    ensures var m := ToDict(r);
            && Text(lib, m, ContractVersion) == r.contractVersion && Text(lib, m, RequestId) == r.requestId
            && Text(lib, m, ExecutionId) == r.executionId && Text(lib, m, Operation) == r.operation
            && Text(lib, m, CreatedAt) == r.createdAt && Text(lib, m, ExpiresAt) == r.expiresAt
            && Text(lib, m, Nonce) == r.nonce && Text(lib, m, SourceSha) == r.sourceSha
            && Text(lib, m, Environment) == r.environment && Text(lib, m, PayloadHash) == r.payloadHash
            && Text(lib, m, Signature) == r.signature
  {
  }

  lemma EncodedFlags(r: Request)
    ensures OrEmpty(Get(ToDict(r), CapabilityFlags)) == FlagsToDict(r.flags)
    ensures var f := FlagsToDict(r.flags).fields;
            r.flags == Flags(Truthy(Get(f, BrowserRead)), Truthy(Get(f, FormValueWrite)),
                             Truthy(Get(f, ApprovedFileUpload)), Truthy(Get(f, FinalSubmit)))
  {
    assert BrowserRead in FlagsToDict(r.flags).fields;
  }

  lemma EncodedPayload(r: Request)
    requires r.payload.JObj?
    ensures OrEmpty(Get(ToDict(r), Payload)) == r.payload
  {
  }

  /** Encoding loses nothing: every request with an object payload comes back unchanged. */
  lemma DecodeEncode(lib: Library, r: Request)
    requires r.payload.JObj?
    ensures FromMapping(lib, ToDict(r)) == Ok(r)
  {
    EncodedTexts(lib, r);
    EncodedFlags(r);
    EncodedPayload(r);
    DecodedFrom(lib, ToDict(r), FlagsToDict(r.flags).fields);
  }

  lemma DecodedFrom(lib: Library, m: map<Name, Json>, flags: map<Name, Json>)
    requires OrEmpty(Get(m, CapabilityFlags)) == JObj(flags)
    ensures FromMapping(lib, m) ==
            Ok(Request(Text(lib, m, ContractVersion), Text(lib, m, RequestId), Text(lib, m, ExecutionId),
                       Text(lib, m, Operation), Text(lib, m, CreatedAt), Text(lib, m, ExpiresAt), Text(lib, m, Nonce),
                       Text(lib, m, SourceSha), Text(lib, m, Environment),
                       Flags(Truthy(Get(flags, BrowserRead)), Truthy(Get(flags, FormValueWrite)),
                             Truthy(Get(flags, ApprovedFileUpload)), Truthy(Get(flags, FinalSubmit))),
                       OrEmpty(Get(m, Payload)), Text(lib, m, PayloadHash), Text(lib, m, Signature)))
  {
  }

  // ----- Signing and verifying

  function SignatureOf(lib: Library, secret: string, r: Request): string {
    lib.hmac(lib.canonical(JObj(UnsignedDict(r))), secret)
  }

  function Sign(lib: Library, secret: string, requestId: string, executionId: string, operation: string,
                sourceSha: string, nonce: string, payload: map<Name, Json>, created: int, ttlSeconds: int, flags: Flags)
    : Result<Request, RequestError>
  {
    if ttlSeconds < 1 || ttlSeconds > MAX_TTL then Err(TtlOutOfBounds)
    else if !flags.Permitted() then Err(FlagsForbidden)
    else if secret == "" then Err(SecretMissing)
    else
      var unsigned := Request(VERSION, requestId, executionId, operation, lib.formatTime(created),
                              lib.formatTime(created + ttlSeconds * SECOND), nonce, sourceSha, TEST, flags, JObj(payload),
                              lib.sha256(lib.canonical(JObj(payload))), "");
      Ok(unsigned.(signature := SignatureOf(lib, secret, unsigned)))
  }

  /** The checks that do not look at the clock. */
  function StaticProblem(lib: Library, r: Request): Option<RequestError> {
    if r.contractVersion != VERSION then Some(WrongVersion)
    else if r.requestId == "" || r.executionId == "" || r.nonce == "" then Some(IdsMissing)
    else if !IsAllowedOperation(r.operation) then Some(OperationForbidden)
    else if r.environment != TEST then Some(WrongEnvironment)
    else if !IsSourceSha(r.sourceSha) then Some(BadSourceSha)
    else if !r.flags.Permitted() then Some(FlagsForbidden)
    else if !r.payload.JObj? then Some(BadPayload)
    else if r.payloadHash != lib.sha256(lib.canonical(r.payload)) then Some(PayloadHashMismatch)
    else None
  }

  function TimeProblem(lib: Library, r: Request, now: int): Option<RequestError> {
    match (lib.parseTime(r.createdAt), lib.parseTime(r.expiresAt))
    case (Some(created), Some(expires)) =>
      if expires - created < SECOND || expires - created > MAX_TTL * SECOND then Some(TtlOutOfBounds)
      else if created > now + MAX_SKEW * SECOND then Some(FromTheFuture)
      else if now > expires then Some(Expired)
      else None
    case _ => Some(BadTime)
  }

  function Verify(lib: Library, m: map<Name, Json>, secret: string, now: int): Result<Request, RequestError> {
    var decoded := FromMapping(lib, m);
    if decoded.Err? then decoded
    else
      var r := decoded.value;
      if StaticProblem(lib, r).Some? then Err(StaticProblem(lib, r).value)
      else if TimeProblem(lib, r, now).Some? then Err(TimeProblem(lib, r, now).value)
      else if secret == "" then Err(SecretMissing)
      else if r.signature != SignatureOf(lib, secret, r) then Err(BadSignature)
      else Ok(r)
  }

  // ----- The window

  /** The signature covers everything but itself. */
  lemma SignatureIgnoresItself(lib: Library, secret: string, r: Request, signature: string)
    ensures SignatureOf(lib, secret, r.(signature := signature)) == SignatureOf(lib, secret, r)
  {
  }

  /**
   Whatever was signed is accepted, unchanged, exactly from thirty seconds
   before its creation to its expiry, provided operation, ids and source are
   the ones that verification insists on: signing does not look at those.
   */
  lemma SignedIsAcceptedIff(lib: Library, secret: string, requestId: string, executionId: string, operation: string,
                            sourceSha: string, nonce: string, payload: map<Name, Json>, created: int, ttlSeconds: int,
                            flags: Flags, now: int)
    requires forall t :: lib.parseTime(lib.formatTime(t)) == Some(t)
    ensures var s := Sign(lib, secret, requestId, executionId, operation, sourceSha, nonce, payload, created, ttlSeconds,
                          flags);
            && (s.Ok? <==> 1 <= ttlSeconds <= MAX_TTL && flags.Permitted() && secret != "")
            && (s.Ok? ==>
                  (Verify(lib, ToDict(s.value), secret, now) == Ok(s.value) <==>
                     && requestId != "" && executionId != "" && nonce != ""
                     && IsAllowedOperation(operation) && IsSourceSha(sourceSha)
                     && created - MAX_SKEW * SECOND <= now <= created + ttlSeconds * SECOND))
  {
    var s := Sign(lib, secret, requestId, executionId, operation, sourceSha, nonce, payload, created, ttlSeconds, flags);
    if s.Ok? {
      DecodeEncode(lib, s.value);
      SignatureIgnoresItself(lib, secret, s.value, "");
    }
  }

  /** What counts as false in a decoded dictionary: the six empty values. */
  lemma TruthyIff(v: Json)
    ensures !Truthy(v) <==> v in {JNull, JBool(false), JNum(0), JStr(""), JList([]), JObj(map[])}
  {
  }

  /** Every dictionary: accepted exactly as what it decodes to, if that passes every check, with the numbers of the contract. */
  lemma VerifiedIff(lib: Library, m: map<Name, Json>, secret: string, now: int, r: Request)
    ensures Verify(lib, m, secret, now) == Ok(r) <==>
            && FromMapping(lib, m) == Ok(r) && r.contractVersion == "EJS-GH-EXEC-0.1" && r.environment == "TEST"
            && r.requestId != "" && r.executionId != "" && r.nonce != ""
            && (r.operation == "health" || r.operation == "claim" || r.operation == "get_execution_payload"
                || r.operation == "get_approved_asset" || r.operation == "reconcile_result")
            && |r.sourceSha| == 40 && (forall c | c in r.sourceSha :: 48 <= c as int <= 57 || 97 <= c as int <= 102)
            && r.flags == Flags(true, false, false, false)
            && r.payload.JObj? && r.payloadHash == lib.sha256(lib.canonical(r.payload))
            && lib.parseTime(r.createdAt).Some? && lib.parseTime(r.expiresAt).Some?
            && var created, expires := lib.parseTime(r.createdAt).value, lib.parseTime(r.expiresAt).value;
               && 1_000_000 <= expires - created <= 300_000_000
               && created - 30_000_000 <= now <= expires
               && secret != "" && r.signature == SignatureOf(lib, secret, r)
  {
    SourceShaIff(r.sourceSha);
  }

  lemma SourceShaIff(s: string)
    ensures IsSourceSha(s) <==> |s| == 40 && forall c | c in s :: 48 <= c as int <= 57 || 97 <= c as int <= 102
  {
    forall i | 0 <= i < |s|
      ensures s[i] in s
    {
    }
  }

  /** No accepted request can be accepted again more than 330 seconds apart, whoever made it. */
  lemma AcceptanceIsShortLived(lib: Library, m: map<Name, Json>, secret: string, early: int, late: int)
    requires Verify(lib, m, secret, early).Ok? && Verify(lib, m, secret, late).Ok?
    ensures late - early <= (MAX_TTL + MAX_SKEW) * SECOND
  {
  }

  ghost predicate Unforgeable(lib: Library, secret: string) {
    && (forall x, y {:trigger lib.hmac(x, secret), lib.hmac(y, secret)} ::
          lib.hmac(x, secret) == lib.hmac(y, secret) ==> x == y)
    && (forall a, b {:trigger lib.canonical(a), lib.canonical(b)} :: lib.canonical(a) == lib.canonical(b) ==> a == b)
  }

  lemma UnsignedDictIsExact(a: Request, b: Request)
    requires UnsignedDict(a) == UnsignedDict(b)
    ensures a == b.(signature := a.signature)
  {
    var x, y := UnsignedDict(a), UnsignedDict(b);
    assert x[ContractVersion] == y[ContractVersion] && x[RequestId] == y[RequestId] && x[ExecutionId] == y[ExecutionId];
    assert x[Operation] == y[Operation] && x[CreatedAt] == y[CreatedAt] && x[ExpiresAt] == y[ExpiresAt];
    assert x[Nonce] == y[Nonce] && x[SourceSha] == y[SourceSha] && x[Environment] == y[Environment];
    assert x[CapabilityFlags] == y[CapabilityFlags] && x[Payload] == y[Payload] && x[PayloadHash] == y[PayloadHash];
    var f, g := x[CapabilityFlags].fields, y[CapabilityFlags].fields;
    assert f[BrowserRead] == g[BrowserRead] && f[FormValueWrite] == g[FormValueWrite];
    assert f[ApprovedFileUpload] == g[ApprovedFileUpload] && f[FinalSubmit] == g[FinalSubmit];
  }

  /** With a collision-free MAC and encoding, a signature is accepted only on the very request it was made for. */
  lemma AcceptedIsWhatWasSigned(lib: Library, secret: string, s: Request, m: map<Name, Json>, now: int)
    requires Unforgeable(lib, secret) && s.signature == SignatureOf(lib, secret, s)
    requires Verify(lib, m, secret, now).Ok? && Verify(lib, m, secret, now).value.signature == s.signature
    ensures Verify(lib, m, secret, now).value == s
  {
    var r := Verify(lib, m, secret, now).value;
    UnsignedDictIsExact(r, s);
  }
}
