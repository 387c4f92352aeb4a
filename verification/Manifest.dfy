/** The audit manifest, what `from_parts` accepts, and the canonical bytes that are signed. */
module Manifest {
  import opened Wrappers
  import opened Ordering
  import opened Bytes

  type Text = seq<Byte>

  datatype Capability = TcpExchange(port: nat) | HttpExchange(port: nat) | TlsMetadata(port: nat)

  datatype SideEffects =
    ReadOnly | Destructive | Persistent | CredentialExfiltration | DenialOfService | FirmwareWrite

  datatype EvidenceType = EvText | EvInteger | EvBoolean | EvBytes

  datatype Time = Time(secs: nat, nanos: nat)

  datatype Limits = Limits(maxBytes: nat, maxRequests: nat, maxTime: Time, maxFuel: nat, maxMemoryPages: nat)

  datatype AuditManifest = AuditManifest(
    moduleId: Text,
    version: nat,
    sha256: seq<Byte>,
    capabilities: set<Capability>,
    expectedBehavior: Text,
    sideEffects: SideEffects,
    rollbackRequired: bool,
    rollbackDescription: Text,
    fields: map<Text, EvidenceType>,
    limits: Limits,
    signature: seq<Byte>)

  // ---------------------------------------------------------------- what is accepted

  datatype ManifestError = Identity | InvalidText | RollbackUnsupported | InvalidCapabilities | InvalidSchema | InvalidLimits

  predicate IdByte(b: Byte) {
    48 <= b <= 57 || 65 <= b <= 90 || 97 <= b <= 122 || b == 45 || b == 46 || b == 95
  }

  predicate ValidLimits(l: Limits) {
    && 0 < l.maxBytes <= 16 * 1024 * 1024
    && 0 < l.maxRequests <= 1024
    && l.maxTime != Time(0, 0) && l.maxTime.nanos == 0 && l.maxTime.secs <= 300
    && 0 < l.maxFuel <= 10_000_000_000
    && 0 < l.maxMemoryPages <= 1024
  }

  /** `clean` says which texts are non-empty, trimmed and free of control characters. */
  function FromParts(m: AuditManifest, clean: Text -> bool): Result<AuditManifest, ManifestError> {
    if m.version == 0 || m.moduleId == [] || |m.moduleId| > 128 || exists b :: b in m.moduleId && !IdByte(b) then
      Err(Identity)
    else if !clean(m.expectedBehavior) || |m.expectedBehavior| > 4096
            || !clean(m.rollbackDescription) || |m.rollbackDescription| > 4096 then
      Err(InvalidText)
    else if m.rollbackRequired then Err(RollbackUnsupported)
    else if m.capabilities == {} || |m.capabilities| > 16 || exists c :: c in m.capabilities && c.port == 0 then
      Err(InvalidCapabilities)
    else if m.fields == map[] || |m.fields| > 64
            || exists k :: k in m.fields && (!clean(k) || |k| > 128) then
      Err(InvalidSchema)
    else if !ValidLimits(m.limits) then Err(InvalidLimits)
    else Ok(m)
  }

  /** The ranges the field types themselves impose, and lengths that fit their 32-bit prefixes. */
  ghost predicate Representable(m: AuditManifest) {
    && m.version < 0x1_0000 && |m.sha256| == 32
    && (forall c :: c in m.capabilities ==> c.port < 0x1_0000)
    && (forall k :: k in m.fields ==> |k| < 0x1_0000_0000)
    && |m.moduleId| < 0x1_0000_0000 && |m.expectedBehavior| < 0x1_0000_0000
    && |m.rollbackDescription| < 0x1_0000_0000
    && |m.capabilities| < 0x1_0000_0000 && |m.fields| < 0x1_0000_0000
    && m.limits.maxBytes < 0x1_0000_0000_0000_0000 && m.limits.maxRequests < 0x1_0000_0000
    && m.limits.maxTime.secs < 0x1_0000_0000_0000_0000 && m.limits.maxTime.nanos < 1_000_000_000
    && m.limits.maxFuel < 0x1_0000_0000_0000_0000 && m.limits.maxMemoryPages < 0x1_0000_0000
  }

  // ---------------------------------------------------------------- orders

  function CapTag(c: Capability): Byte {
    match c case TcpExchange(_) => 1 case HttpExchange(_) => 2 case TlsMetadata(_) => 3
  }

  predicate CapLe(c: Capability, d: Capability) {
    CapTag(c) < CapTag(d) || (CapTag(c) == CapTag(d) && c.port <= d.port)
  }

  /** Byte strings in lexicographic order. */
  predicate TextLe(a: Text, b: Text) {
    a == [] || (b != [] && (a[0] < b[0] || (a[0] == b[0] && TextLe(a[1..], b[1..]))))
  }

  lemma CapOrder()
    ensures IsTotal(CapLe)
  {
  }

  lemma {:induction false} TextTotal(a: Text, b: Text)
    ensures TextLe(a, b) || TextLe(b, a)
    ensures TextLe(a, b) && TextLe(b, a) ==> a == b
  {
    if a != [] && b != [] && a[0] == b[0] {
      TextTotal(a[1..], b[1..]);
      assert a == [a[0]] + a[1..] && b == [b[0]] + b[1..];
    }
  }

  lemma {:induction false} TextTransitive(a: Text, b: Text, c: Text)
    requires TextLe(a, b) && TextLe(b, c)
    ensures TextLe(a, c)
  {
    if a != [] && a[0] == b[0] == c[0] {
      TextTransitive(a[1..], b[1..], c[1..]);
    }
  }

  lemma TextOrder()
    ensures IsTotal(TextLe)
  {
    forall a, b ensures TextLe(a, b) || TextLe(b, a) { TextTotal(a, b); }
    forall a, b | TextLe(a, b) && TextLe(b, a) ensures a == b { TextTotal(a, b); }
    forall a, b, c | TextLe(a, b) && TextLe(b, c) ensures TextLe(a, c) { TextTransitive(a, b, c); }
  }

  ghost function OrderedCaps(s: set<Capability>): (r: seq<Capability>)
    ensures |r| == |s| && forall c :: c in s <==> c in r
  {
    CapOrder();
    Ascending(s, CapLe)
  }

  ghost function OrderedKeys(s: set<Text>): (r: seq<Text>)
    ensures |r| == |s| && forall k :: k in s <==> k in r
  {
    TextOrder();
    Ascending(s, TextLe)
  }

  // ---------------------------------------------------------------- canonical bytes

  function Str(s: Text): seq<Byte> {
    BigEndian(|s|, 4) + s
  }

  function CapBytes(c: Capability): (r: seq<Byte>)
    ensures |r| == 3
  {
    [CapTag(c)] + BigEndian(c.port, 2)
  }

  function CapsBytes(caps: seq<Capability>): seq<Byte> {
    if caps == [] then [] else CapBytes(caps[0]) + CapsBytes(caps[1..])
  }

  function EffectByte(e: SideEffects): Byte {
    match e
    case ReadOnly => 0
    case Destructive => 1
    case Persistent => 2
    case CredentialExfiltration => 3
    case DenialOfService => 4
    case FirmwareWrite => 5
  }

  function TypeByte(t: EvidenceType): Byte {
    match t case EvText => 1 case EvInteger => 2 case EvBoolean => 3 case EvBytes => 4
  }

  function FieldBytes(key: Text, t: EvidenceType): seq<Byte> {
    Str(key) + [TypeByte(t)]
  }

  function FieldsBytes(keys: seq<Text>, fields: map<Text, EvidenceType>): seq<Byte>
    requires forall k :: k in keys ==> k in fields
  {
    if keys == [] then [] else FieldBytes(keys[0], fields[keys[0]]) + FieldsBytes(keys[1..], fields)
  }

  function LimitBytes(l: Limits): seq<Byte> {
    BigEndian(l.maxBytes, 8) + BigEndian(l.maxRequests, 4) + BigEndian(l.maxTime.secs, 8)
    + BigEndian(l.maxFuel, 8) + BigEndian(l.maxMemoryPages, 4)
  }

  /** The canonical form, part by part from the end. */
  ghost function FromSchema(m: AuditManifest): seq<Byte> {
    BigEndian(|m.fields|, 4) + (FieldsBytes(OrderedKeys(m.fields.Keys), m.fields) + LimitBytes(m.limits))
  }

  ghost function FromTexts(m: AuditManifest): seq<Byte> {
    Str(m.expectedBehavior)
    + ([EffectByte(m.sideEffects), if m.rollbackRequired then 1 else 0] + (Str(m.rollbackDescription) + FromSchema(m)))
  }

  ghost function FromCapabilities(m: AuditManifest): seq<Byte> {
    BigEndian(|m.capabilities|, 4) + (CapsBytes(OrderedCaps(m.capabilities)) + FromTexts(m))
  }

  ghost function FromIdentity(m: AuditManifest): seq<Byte> {
    Str(m.moduleId) + (BigEndian(m.version, 2) + (m.sha256 + ([1] + FromCapabilities(m))))
  }

  /** "NeonHearth/lattice-audit-wasm/manifest/v1" and a zero byte. */
  function Domain(): seq<Byte> {
    [78, 101, 111, 110, 72, 101, 97, 114, 116, 104, 47, 108, 97, 116, 116, 105, 99, 101, 45, 97, 117,
     100, 105, 116, 45, 119, 97, 115, 109, 47, 109, 97, 110, 105, 102, 101, 115, 116, 47, 118, 49, 0]
  }

  ghost function Canonical(m: AuditManifest): seq<Byte> {
    Domain() + FromIdentity(m)
  }
}
