/** Signed approvals (src/nightjar/approval.py) and the home they bind (`_bound_home`). */
module Approval {
  import opened Models
  import opened Vehicle
  import opened JsonValue
  import opened Canonical
  import opened HomeBinding
  import opened Utf8
  import opened Options

  datatype Payload = Payload(
    missionSha: string,
    policySha: string,
    homeSha: string,
    frameId: string,
    units: Units,
    executor: string,
    issuedAt: int,
    expiresAt: int,
    nonce: string)

  datatype Envelope = Envelope(payload: Payload, signature: string)

  /** The signature scheme under one key pair, and the base64 text around it. */
  datatype Scheme = Scheme(
    sign: seq<Byte> -> seq<Byte>,
    valid: (seq<Byte>, seq<Byte>) -> bool,
    encode: seq<Byte> -> string,
    decode: string -> Option<seq<Byte>>)

  /** Genuine signatures verify (Ed25519, section 5.1 of RFC 8032), and base64 can be undone. */
  ghost predicate Correct(scheme: Scheme) {
    && (forall m :: scheme.valid(scheme.sign(m), m))
    && (forall b :: scheme.decode(scheme.encode(b)) == Some(b))
  }

  /** What a deployment fixes: scheme, hash, float printing, float arithmetic, and the two time bounds. */
  datatype World = World(scheme: Scheme, hash: Hash, printer: Printer, floats: Floats, skew: int, lifetime: int)

  function MissionSha(w: World, m: Mission): string {
    Sha256Hex(w.hash, MissionJson(w.printer, m))
  }

  function PolicySha(w: World, l: PolicyLimits): string {
    Sha256Hex(w.hash, LimitsJson(w.printer, l))
  }

  function HomeSha(w: World, u: Units, source: string): string {
    Sha256Hex(w.hash, HomeJson(u, source))
  }

  // ----- the signed bytes

  const PAYLOAD_KEYS := [
    "mission_sha256", "policy_sha256", "home_sha256", "frame_id", "home_latitude_e7", "home_longitude_e7",
    "home_altitude_mm", "executor", "issued_at_unix", "expires_at_unix", "nonce"]

  function PayloadValues(p: Payload): (r: seq<Json>)
    ensures |r| == |PAYLOAD_KEYS|
  {
    [Str(p.missionSha), Str(p.policySha), Str(p.homeSha), Str(p.frameId), Int(p.units.latitude),
     Int(p.units.longitude), Int(p.units.altitude), Str(p.executor), Int(p.issuedAt), Int(p.expiresAt), Str(p.nonce)]
  }

  function SigningBytes(p: Payload): seq<Byte> {
    CanonicalBytes(Obj(Dict(PAYLOAD_KEYS, PayloadValues(p))))
  }

  lemma PayloadFields(p: Payload)
    ensures var v := Obj(Dict(PAYLOAD_KEYS, PayloadValues(p)));
            && |v.members| == 11 && SigningBytes(p) == CanonicalBytes(v)
            && Holds(v, "mission_sha256", Str(p.missionSha))
            && Holds(v, "policy_sha256", Str(p.policySha))
            && Holds(v, "home_sha256", Str(p.homeSha))
            && Holds(v, "frame_id", Str(p.frameId))
            && Holds(v, "home_latitude_e7", Int(p.units.latitude))
            && Holds(v, "home_longitude_e7", Int(p.units.longitude))
            && Holds(v, "home_altitude_mm", Int(p.units.altitude))
            && Holds(v, "executor", Str(p.executor))
            && Holds(v, "issued_at_unix", Int(p.issuedAt))
            && Holds(v, "expires_at_unix", Int(p.expiresAt))
            && Holds(v, "nonce", Str(p.nonce))
  {
    hide Dict, CanonicalBytes;
    var v := Obj(Dict(PAYLOAD_KEYS, PayloadValues(p)));
    assert HoldsAt(v, "mission_sha256", Str(p.missionSha), 0);
    assert HoldsAt(v, "policy_sha256", Str(p.policySha), 1);
    assert HoldsAt(v, "home_sha256", Str(p.homeSha), 2);
    assert HoldsAt(v, "frame_id", Str(p.frameId), 3);
    assert HoldsAt(v, "home_latitude_e7", Int(p.units.latitude), 4);
    assert HoldsAt(v, "home_longitude_e7", Int(p.units.longitude), 5);
    assert HoldsAt(v, "home_altitude_mm", Int(p.units.altitude), 6);
    assert HoldsAt(v, "executor", Str(p.executor), 7);
    assert HoldsAt(v, "issued_at_unix", Int(p.issuedAt), 8);
    assert HoldsAt(v, "expires_at_unix", Int(p.expiresAt), 9);
    assert HoldsAt(v, "nonce", Str(p.nonce), 10);
  }

  lemma PayloadKeysDistinct()
    ensures DistinctStrings(PAYLOAD_KEYS)
  {
    var k := PAYLOAD_KEYS;
    assert forall i :: 0 <= i < 11 ==> |k[i]| == [14, 13, 11, 8, 16, 17, 16, 8, 14, 15, 5][i];
    assert k[0][0] == 'm' && k[3][0] == 'f' && k[4][5] == 'l' && k[6][5] == 'a' && k[7][0] == 'e' && k[8][0] == 'i';
  }

  lemma ValuesDetermine(p: Payload, q: Payload)
    requires PayloadValues(p) == PayloadValues(q)
    ensures p == q
  {
    var a, b := PayloadValues(p), PayloadValues(q);
    assert forall i :: 0 <= i < 11 ==> a[i] == b[i];
    assert a[0] == b[0] && a[1] == b[1] && a[2] == b[2] && a[3] == b[3] && a[4] == b[4] && a[5] == b[5];
    assert a[6] == b[6] && a[7] == b[7] && a[8] == b[8] && a[9] == b[9] && a[10] == b[10];
  }

  lemma ValuesScalar(p: Payload)
    ensures forall i :: 0 <= i < 11 ==> Atom(PayloadValues(p)[i])
  {
  }

  /** A signature covers every field: payloads with equal signed bytes are equal. */
  lemma SigningBytesInjective(p: Payload, q: Payload)
    ensures SigningBytes(p) == SigningBytes(q) <==> p == q
  {
    hide CanonicalBytes, Dict, Atom, DistinctStrings, PayloadValues;
    PayloadKeysDistinct();
    ValuesScalar(p);
    ValuesScalar(q);
    DictBytesInjective(PAYLOAD_KEYS, PayloadValues(p), PayloadValues(q));
    if PayloadValues(p) == PayloadValues(q) {
      ValuesDetermine(p, q);
    }
  }

  // ----- building and signing

  predicate HexDigit(c: char) {
    '0' <= c <= '9' || 'a' <= c <= 'f'
  }

  predicate IsDigest(s: string) {
    |s| == 64 && forall i :: 0 <= i < |s| ==> HexDigit(s[i])
  }

  /** The schema of `ApprovalPayload`. */
  predicate Fits(p: Payload) {
    && IsDigest(p.missionSha) && IsDigest(p.policySha) && IsDigest(p.homeSha)
    && 1 <= |p.frameId| <= 64
    && 1 <= |p.executor| <= 64
    && 0 <= p.issuedAt < p.expiresAt
    && 32 <= |p.nonce| <= 128
  }

  /** What an approver asks to have signed; `nonce` is the one used, given or drawn. */
  datatype Request = Request(
    mission: Mission, limits: PolicyLimits, executor: string, home: Home, source: string, ttl: int, now: int,
    nonce: string)

  const FRAME_ID := "home_ned_v1"
  const INVALID := OtherError(2)

  function Build(w: World, r: Request): Outcome<Payload> {
    if r.ttl <= 0 || r.source != SOURCE_TELEMETRY then Raise(INVALID)
    else
      var units :- ToUnits(w.floats, r.home);
      var p := Payload(MissionSha(w, r.mission), PolicySha(w, r.limits), HomeSha(w, units, r.source), FRAME_ID,
                       units, r.executor, r.now, r.now + r.ttl, r.nonce);
      if Fits(p) then Ok(p) else Raise(INVALID)
  }

  /**
   * A request is built exactly if its lifetime is positive, its home came from telemetry and has integers,
   * and its executor, time and nonce fit the schema; the payload says what was asked.
   */
  lemma BuildIff(w: World, r: Request)
    requires forall b :: IsDigest(w.hash(b))
    ensures Build(w, r).Ok? <==>
              && r.ttl > 0 && r.source == "telemetry" && ToUnits(w.floats, r.home).Ok?
              && 1 <= |r.executor| <= 64 && r.now >= 0 && 32 <= |r.nonce| <= 128
    ensures Build(w, r).Ok? ==>
              var p := Build(w, r).value;
              && p.missionSha == w.hash(CanonicalBytes(MissionJson(w.printer, r.mission)))
              && p.policySha == w.hash(CanonicalBytes(LimitsJson(w.printer, r.limits)))
              && p.homeSha == w.hash(CanonicalBytes(HomeJson(p.units, "telemetry")))
              && p.frameId == "home_ned_v1"
              && Ok(p.units) == ToUnits(w.floats, r.home)
              && p.executor == r.executor && p.nonce == r.nonce
              && p.issuedAt == r.now && p.expiresAt == r.now + r.ttl
  {
    hide CanonicalBytes, MissionJson, LimitsJson, HomeJson, ToUnits, IsDigest;
  }

  function Sign(w: World, p: Payload): Envelope {
    Envelope(p, w.scheme.encode(w.scheme.sign(SigningBytes(p))))
  }

  // ----- verifying

  /** The bytes a base64 text stands for are a valid signature of the payload. */
  predicate Signed(w: World, e: Envelope) {
    var signature := w.scheme.decode(e.signature);
    signature.Some? && w.scheme.valid(signature.value, SigningBytes(e.payload))
  }

  function Verify(w: World, e: Envelope, mission: Mission, limits: PolicyLimits, executor: string, now: int)
    : Outcome<Payload>
  {
    var p := e.payload;
    if !Signed(w, e) then Raise(ApprovalError)
    else if p.issuedAt > now + w.skew then Raise(ApprovalError)
    else if now >= p.expiresAt then Raise(ApprovalError)
    else if p.expiresAt - p.issuedAt > w.lifetime then Raise(ApprovalError)
    else if p.missionSha != MissionSha(w, mission) then Raise(ApprovalError)
    else if p.policySha != PolicySha(w, limits) then Raise(ApprovalError)
    else if p.executor != executor then Raise(ApprovalError)
    else Ok(p)
  }

  predicate InWindow(w: World, p: Payload, now: int) {
    p.issuedAt - w.skew <= now < p.expiresAt
  }

  /**
   * Verification accepts exactly the envelopes whose base64 text decodes to a valid signature of the signed
   * bytes, which are in force, live no longer than permitted, and name this mission, these limits and this
   * executor; the payload comes out as it went in, and every refusal is an `ApprovalError`.
   */
  lemma VerifyIff(
    w: World, e: Envelope, mission: Mission, limits: PolicyLimits, executor: string, now: int)
    ensures var p, out := e.payload, Verify(w, e, mission, limits, executor, now);
            && (out.Ok? <==>
                  && w.scheme.decode(e.signature).Some?
                  && w.scheme.valid(w.scheme.decode(e.signature).value,
                                    CanonicalBytes(Obj(Dict(PAYLOAD_KEYS, PayloadValues(p)))))
                  && p.issuedAt - w.skew <= now
                  && now < p.expiresAt
                  && p.expiresAt - p.issuedAt <= w.lifetime
                  && p.missionSha == w.hash(CanonicalBytes(MissionJson(w.printer, mission)))
                  && p.policySha == w.hash(CanonicalBytes(LimitsJson(w.printer, limits)))
                  && p.executor == executor)
            && out == (if out.Ok? then Ok(p) else Raise(ApprovalError))
  {
    hide CanonicalBytes, Dict, MissionJson, LimitsJson, PayloadValues;
  }

  /** Text that is not base64, or stands for anything but a valid signature of the payload, is refused. */
  lemma InvalidSignatureRefused(
    w: World, e: Envelope, mission: Mission, limits: PolicyLimits, executor: string, now: int)
    requires !ValidlySigned(w, e)
    ensures Verify(w, e, mission, limits, executor, now) == Raise(ApprovalError)
  {
    hide CanonicalBytes, Dict, PayloadValues, MissionSha, PolicySha;
  }

  ghost predicate ValidlySigned(w: World, e: Envelope) {
    exists signature ::
      && w.scheme.decode(e.signature) == Some(signature)
      && w.scheme.valid(signature, SigningBytes(e.payload))
  }

  // ----- what verification means

  /** The envelope is no forgery: if its signature is valid, the approver built and signed that payload. */
  ghost predicate Unforged(w: World, requests: iset<Request>, e: Envelope) {
    forall signature ::
      w.scheme.decode(e.signature) == Some(signature) && w.scheme.valid(signature, SigningBytes(e.payload)) ==>
        exists r :: Asked(w, requests, r, SigningBytes(e.payload))
  }

  ghost predicate Asked(w: World, requests: iset<Request>, r: Request, m: seq<Byte>) {
    r in requests && Build(w, r).Ok? && SigningBytes(Build(w, r).value) == m
  }

  predicate InputFloats(w: World, m: Mission, l: PolicyLimits) {
    MissionFloats(w.printer, m) && LimitsFloats(w.printer, l)
  }

  ghost predicate AllFloats(w: World, requests: iset<Request>) {
    forall r :: r in requests ==> InputFloats(w, r.mission, r.limits)
  }

  predicate MissionCollision(w: World, a: Mission, b: Mission) {
    Collision(w.hash, CanonicalBytes(MissionJson(w.printer, a)), CanonicalBytes(MissionJson(w.printer, b)))
  }

  predicate LimitsCollision(w: World, a: PolicyLimits, b: PolicyLimits) {
    Collision(w.hash, CanonicalBytes(LimitsJson(w.printer, a)), CanonicalBytes(LimitsJson(w.printer, b)))
  }

  /** Equal digests come from equal missions, or exhibit a collision of the hash. */
  lemma MissionBound(w: World, a: Mission, b: Mission)
    requires Faithful(w.printer) && MissionFloats(w.printer, a) && MissionFloats(w.printer, b)
    ensures MissionSha(w, a) == MissionSha(w, b) <==> a == b || MissionCollision(w, a, b)
  {
    hide CanonicalBytes, MissionJson;
    MissionBytesInjective(w.printer, a, b);
  }

  lemma LimitsBound(w: World, a: PolicyLimits, b: PolicyLimits)
    requires Faithful(w.printer) && LimitsFloats(w.printer, a) && LimitsFloats(w.printer, b)
    ensures PolicySha(w, a) == PolicySha(w, b) <==> a == b || LimitsCollision(w, a, b)
  {
    hide CanonicalBytes, LimitsJson;
    LimitsBytesInjective(w.printer, a, b);
  }

  /** The approval `r` covers this mission, these limits, this executor and this moment. */
  ghost predicate Covers(w: World, r: Request, mission: Mission, limits: PolicyLimits, executor: string, now: int) {
    && (r.mission == mission || MissionCollision(w, r.mission, mission))
    && (r.limits == limits || LimitsCollision(w, r.limits, limits))
    && r.executor == executor
    && r.now - w.skew <= now < r.now + r.ttl
    && r.ttl <= w.lifetime
  }

  ghost predicate ApprovedBy(
    w: World, requests: iset<Request>, r: Request, p: Payload, mission: Mission, limits: PolicyLimits, executor: string,
    now: int)
  {
    r in requests && Build(w, r) == Ok(p) && Covers(w, r, mission, limits, executor, now)
  }

  /**
   * Soundness: an approval that verifies is one the approver asked for - for exactly this mission, these
   * limits and this executor, in force now - unless the hash has a collision to show.
   */
  lemma Soundness(
    w: World, requests: iset<Request>, e: Envelope, mission: Mission, limits: PolicyLimits, executor: string, now: int)
    requires Faithful(w.printer) && Unforged(w, requests, e)
    requires AllFloats(w, requests) && InputFloats(w, mission, limits)
    requires Verify(w, e, mission, limits, executor, now).Ok?
    ensures exists r :: ApprovedBy(w, requests, r, e.payload, mission, limits, executor, now)
  {
    hide SigningBytes, MissionSha, PolicySha, MissionFloats, LimitsFloats, Faithful, Fits;
    hide MissionCollision, LimitsCollision;
    assert w.scheme.decode(e.signature) == Some(w.scheme.decode(e.signature).value);
    var r :| Asked(w, requests, r, SigningBytes(e.payload));
    SigningBytesInjective(Build(w, r).value, e.payload);
    assert InputFloats(w, r.mission, r.limits);
    MissionBound(w, r.mission, mission);
    LimitsBound(w, r.limits, limits);
    assert ApprovedBy(w, requests, r, e.payload, mission, limits, executor, now);
  }

  /**
   * Completeness and soundness for what was built and signed: it verifies exactly for the mission, limits
   * and executor it was built for, exactly throughout its window, if its lifetime is permitted.
   */
  lemma SignedVerifiesIff(
    w: World, r: Request, mission: Mission, limits: PolicyLimits, executor: string, now: int)
    requires Faithful(w.printer) && Correct(w.scheme) && Build(w, r).Ok?
    requires InputFloats(w, r.mission, r.limits) && InputFloats(w, mission, limits)
    ensures Verify(w, Sign(w, Build(w, r).value), mission, limits, executor, now)
         == if Covers(w, r, mission, limits, executor, now) then Build(w, r) else Raise(ApprovalError)
  {
    hide SigningBytes, MissionSha, PolicySha, MissionFloats, LimitsFloats, Faithful, Fits;
    hide MissionCollision, LimitsCollision;
    MissionBound(w, r.mission, mission);
    LimitsBound(w, r.limits, limits);
  }

  // ----- the bound home

  /** `_bound_home`: rebuild the home from the signed integers and check it against the signed digest. */
  function BoundHome(w: World, p: Payload): Outcome<Home> {
    if p.frameId != FRAME_ID then Raise(HomeMismatch)
    else
      var home :- FromUnits(w.floats, p.units);
      var units :- ToUnits(w.floats, home);
      if HomeSha(w, units, SOURCE_TELEMETRY) != p.homeSha then Raise(HomeMismatch) else Ok(home)
  }

  /** Rounding never makes the rebuilt digest differ: the check compares frame and digest, nothing else. */
  lemma BoundHomeIff(w: World, p: Payload)
    requires RoundsToNearest(w.floats) && UnitsRepresentable(p.units)
    ensures BoundHome(w, p).Ok?
       <==> p.frameId == "home_ned_v1" && p.homeSha == w.hash(CanonicalBytes(HomeJson(p.units, "telemetry")))
    ensures BoundHome(w, p).Raise? ==> BoundHome(w, p).exn == HomeMismatch
  {
    hide CanonicalBytes, HomeJson, FromUnits, ToUnits, RoundsToNearest;
    if p.frameId == FRAME_ID {
      UnitsRoundTrip(w.floats, p.units);
    }
  }

  /** An approval that was built always binds, to a home within half a unit of the captured one. */
  lemma BuiltHomeBinds(w: World, r: Request)
    requires RoundsToNearest(w.floats) && Build(w, r).Ok? && UnitsRepresentable(Build(w, r).value.units)
    ensures var p := Build(w, r).value;
            BoundHome(w, p).Ok? && Close(p.units, r.home, BoundHome(w, p).value)
  {
    hide CanonicalBytes, HomeJson, FromUnits, ToUnits, RoundsToNearest, Fits, MissionSha, PolicySha, Close;
    var p := Build(w, r).value;
    BoundHomeIff(w, p);
    RestoredClose(w.floats, r.home, p.units);
  }
}
