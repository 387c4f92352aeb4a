/** Equal canonical bytes come only from manifests equal in everything that is signed. */
module ManifestInjective {
  import opened Bytes
  import opened Sequences
  import opened Manifest

  // ---------------------------------------------------------------- numbers and texts

  lemma Powers()
    ensures Power(2) == 0x1_0000 && Power(4) == 0x1_0000_0000 && Power(8) == 0x1_0000_0000_0000_0000
  {
    assert Power(2) == 256 * Power(1);
    assert Power(4) == 256 * Power(3) && Power(3) == 256 * Power(2);
    assert Power(6) == 256 * Power(5) && Power(5) == 256 * Power(4);
    assert Power(8) == 256 * Power(7) && Power(7) == 256 * Power(6);
  }

  /** Parts of one length split equal concatenations at the same place. */
  lemma SplitSame(a: seq<Byte>, b: seq<Byte>, s: seq<Byte>, t: seq<Byte>)
    requires |a| == |b| && a + s == b + t
    ensures a == b && s == t
  {
    assert (a + s)[..|a|] == a && (b + t)[..|b|] == b;
    assert (a + s)[|a|..] == s && (b + t)[|b|..] == t;
  }

  lemma SplitNumber(a: nat, b: nat, width: nat, s: seq<Byte>, t: seq<Byte>)
    requires a < Power(width) && b < Power(width)
    requires BigEndian(a, width) + s == BigEndian(b, width) + t
    ensures a == b && s == t
  {
    SplitSame(BigEndian(a, width), BigEndian(b, width), s, t);
    BigEndianInjective(a, b, width);
  }

  lemma SplitStr(a: Text, b: Text, s: seq<Byte>, t: seq<Byte>)
    requires |a| < 0x1_0000_0000 && |b| < 0x1_0000_0000
    requires Str(a) + s == Str(b) + t
    ensures a == b && s == t
  {
    Powers();
    Assoc(BigEndian(|a|, 4), a, s);
    Assoc(BigEndian(|b|, 4), b, t);
    SplitNumber(|a|, |b|, 4, a + s, b + t);
    SplitSame(a, b, s, t);
  }

  // ---------------------------------------------------------------- capabilities and fields

  lemma CapInjective(c: Capability, d: Capability)
    requires c.port < 0x1_0000 && d.port < 0x1_0000 && CapBytes(c) == CapBytes(d)
    ensures c == d
  {
    Powers();
    SplitSame([CapTag(c)], [CapTag(d)], BigEndian(c.port, 2), BigEndian(d.port, 2));
    BigEndianInjective(c.port, d.port, 2);
    assert [CapTag(c)][0] == [CapTag(d)][0];
  }

  lemma {:induction false} SplitCaps(cs: seq<Capability>, ds: seq<Capability>, s: seq<Byte>, t: seq<Byte>)
    requires |cs| == |ds|
    requires forall c :: c in cs ==> c.port < 0x1_0000
    requires forall d :: d in ds ==> d.port < 0x1_0000
    requires CapsBytes(cs) + s == CapsBytes(ds) + t
    ensures cs == ds && s == t
  {
    if cs == [] {
      assert CapsBytes(cs) + s == s && CapsBytes(ds) + t == t;
    } else {
      var restC, restD := CapsBytes(cs[1..]), CapsBytes(ds[1..]);
      Assoc(CapBytes(cs[0]), restC, s);
      Assoc(CapBytes(ds[0]), restD, t);
      SplitSame(CapBytes(cs[0]), CapBytes(ds[0]), restC + s, restD + t);
      CapInjective(cs[0], ds[0]);
      SplitCaps(cs[1..], ds[1..], s, t);
      assert cs == [cs[0]] + cs[1..] && ds == [ds[0]] + ds[1..];
    }
  }

  lemma SplitField(j: Text, k: Text, x: EvidenceType, y: EvidenceType, s: seq<Byte>, t: seq<Byte>)
    requires |j| < 0x1_0000_0000 && |k| < 0x1_0000_0000
    requires FieldBytes(j, x) + s == FieldBytes(k, y) + t
    ensures j == k && x == y && s == t
  {
    Assoc(Str(j), [TypeByte(x)], s);
    Assoc(Str(k), [TypeByte(y)], t);
    SplitStr(j, k, [TypeByte(x)] + s, [TypeByte(y)] + t);
    SplitSame([TypeByte(x)], [TypeByte(y)], s, t);
    assert [TypeByte(x)][0] == [TypeByte(y)][0];
  }

  lemma {:induction false} SplitFields(
    js: seq<Text>, ks: seq<Text>, f: map<Text, EvidenceType>, g: map<Text, EvidenceType>, s: seq<Byte>, t: seq<Byte>)
    requires |js| == |ks|
    requires forall j :: j in js ==> j in f && |j| < 0x1_0000_0000
    requires forall k :: k in ks ==> k in g && |k| < 0x1_0000_0000
    requires FieldsBytes(js, f) + s == FieldsBytes(ks, g) + t
    ensures js == ks && s == t && forall k :: k in ks ==> f[k] == g[k]
  {
    if js == [] {
      assert FieldsBytes(js, f) + s == s && FieldsBytes(ks, g) + t == t;
    } else {
      var j, k := js[0], ks[0];
      var restJ, restK := FieldsBytes(js[1..], f), FieldsBytes(ks[1..], g);
      Assoc(FieldBytes(j, f[j]), restJ, s);
      Assoc(FieldBytes(k, g[k]), restK, t);
      SplitField(j, k, f[j], g[k], restJ + s, restK + t);
      SplitFields(js[1..], ks[1..], f, g, s, t);
      assert js == [j] + js[1..] && ks == [k] + ks[1..];
    }
  }

  lemma LimitsInjective(k: Limits, l: Limits)
    requires k.maxBytes < Power(8) && k.maxRequests < Power(4) && k.maxTime.secs < Power(8)
    requires k.maxFuel < Power(8) && k.maxMemoryPages < Power(4)
    requires l.maxBytes < Power(8) && l.maxRequests < Power(4) && l.maxTime.secs < Power(8)
    requires l.maxFuel < Power(8) && l.maxMemoryPages < Power(4)
    requires LimitBytes(k) == LimitBytes(l)
    ensures k == l.(maxTime := Time(l.maxTime.secs, k.maxTime.nanos))
  {
    var a, b := BigEndian(k.maxBytes, 8), BigEndian(l.maxBytes, 8);
    var a', b' := a + BigEndian(k.maxRequests, 4), b + BigEndian(l.maxRequests, 4);
    var a'', b'' := a' + BigEndian(k.maxTime.secs, 8), b' + BigEndian(l.maxTime.secs, 8);
    var a''', b''' := a'' + BigEndian(k.maxFuel, 8), b'' + BigEndian(l.maxFuel, 8);
    SplitSame(a''', b''', BigEndian(k.maxMemoryPages, 4), BigEndian(l.maxMemoryPages, 4));
    SplitSame(a'', b'', BigEndian(k.maxFuel, 8), BigEndian(l.maxFuel, 8));
    SplitSame(a', b', BigEndian(k.maxTime.secs, 8), BigEndian(l.maxTime.secs, 8));
    SplitSame(a, b, BigEndian(k.maxRequests, 4), BigEndian(l.maxRequests, 4));
    BigEndianInjective(k.maxBytes, l.maxBytes, 8);
    BigEndianInjective(k.maxRequests, l.maxRequests, 4);
    BigEndianInjective(k.maxTime.secs, l.maxTime.secs, 8);
    BigEndianInjective(k.maxFuel, l.maxFuel, 8);
    BigEndianInjective(k.maxMemoryPages, l.maxMemoryPages, 4);
  }

  // ---------------------------------------------------------------- whole manifests

  /** What the bytes cannot show: the signature and a fraction of a second of `max_time`. */
  ghost predicate SameSigned(a: AuditManifest, b: AuditManifest) {
    a == b.(limits := b.limits.(maxTime := Time(b.limits.maxTime.secs, a.limits.maxTime.nanos)), signature := a.signature)
  }

  ghost predicate ShortKeys(f: map<Text, EvidenceType>) {
    |f| < 0x1_0000_0000 && forall k :: k in f ==> |k| < 0x1_0000_0000
  }

  lemma FieldsInjective(f: map<Text, EvidenceType>, g: map<Text, EvidenceType>, s: seq<Byte>, t: seq<Byte>)
    requires ShortKeys(f) && ShortKeys(g)
    requires BigEndian(|f|, 4) + (FieldsBytes(OrderedKeys(f.Keys), f) + s) ==
             BigEndian(|g|, 4) + (FieldsBytes(OrderedKeys(g.Keys), g) + t)
    ensures f == g && s == t
  {
    Powers();
    var js, ks := OrderedKeys(f.Keys), OrderedKeys(g.Keys);
    SplitNumber(|f|, |g|, 4, FieldsBytes(js, f) + s, FieldsBytes(ks, g) + t);
    SplitFields(js, ks, f, g, s, t);
    SameFields(f, g, js);
  }

  lemma SameFields(f: map<Text, EvidenceType>, g: map<Text, EvidenceType>, ks: seq<Text>)
    requires forall k :: k in f.Keys <==> k in ks
    requires forall k :: k in g.Keys <==> k in ks
    requires forall k :: k in ks ==> f[k] == g[k]
    ensures f == g
  {
  }

  lemma SchemaInjective(a: AuditManifest, b: AuditManifest)
    requires Representable(a) && Representable(b) && FromSchema(a) == FromSchema(b)
    ensures a.fields == b.fields
    ensures a.limits == b.limits.(maxTime := Time(b.limits.maxTime.secs, a.limits.maxTime.nanos))
  {
    FieldsInjective(a.fields, b.fields, LimitBytes(a.limits), LimitBytes(b.limits));
    Powers();
    LimitsInjective(a.limits, b.limits);
  }

  lemma TextsInjective(a: AuditManifest, b: AuditManifest)
    requires Representable(a) && Representable(b) && FromTexts(a) == FromTexts(b)
    ensures a.expectedBehavior == b.expectedBehavior && a.sideEffects == b.sideEffects
    ensures a.rollbackRequired == b.rollbackRequired && a.rollbackDescription == b.rollbackDescription
    ensures FromSchema(a) == FromSchema(b)
  {
    var x := [EffectByte(a.sideEffects), if a.rollbackRequired then 1 else 0];
    var y := [EffectByte(b.sideEffects), if b.rollbackRequired then 1 else 0];
    var s, t := Str(a.rollbackDescription) + FromSchema(a), Str(b.rollbackDescription) + FromSchema(b);
    SplitStr(a.expectedBehavior, b.expectedBehavior, x + s, y + t);
    SplitSame(x, y, s, t);
    assert x[0] == y[0] && x[1] == y[1];
    SplitStr(a.rollbackDescription, b.rollbackDescription, FromSchema(a), FromSchema(b));
  }

  lemma CapabilitiesInjective(a: AuditManifest, b: AuditManifest)
    requires Representable(a) && Representable(b) && FromCapabilities(a) == FromCapabilities(b)
    ensures a.capabilities == b.capabilities && FromTexts(a) == FromTexts(b)
  {
    Powers();
    var cs, ds := OrderedCaps(a.capabilities), OrderedCaps(b.capabilities);
    SplitNumber(|a.capabilities|, |b.capabilities|, 4, CapsBytes(cs) + FromTexts(a), CapsBytes(ds) + FromTexts(b));
    SplitCaps(cs, ds, FromTexts(a), FromTexts(b));
  }

  lemma IdentityInjective(a: AuditManifest, b: AuditManifest)
    requires Representable(a) && Representable(b) && FromIdentity(a) == FromIdentity(b)
    ensures a.moduleId == b.moduleId && a.version == b.version && a.sha256 == b.sha256
    ensures FromCapabilities(a) == FromCapabilities(b)
  {
    Powers();
    var s, t := [1] + FromCapabilities(a), [1] + FromCapabilities(b);
    SplitStr(a.moduleId, b.moduleId, BigEndian(a.version, 2) + (a.sha256 + s), BigEndian(b.version, 2) + (b.sha256 + t));
    SplitNumber(a.version, b.version, 2, a.sha256 + s, b.sha256 + t);
    SplitSame(a.sha256, b.sha256, s, t);
    SplitSame([1], [1], FromCapabilities(a), FromCapabilities(b));
  }

  lemma PartsInjective(a: AuditManifest, b: AuditManifest)
    requires Representable(a) && Representable(b) && FromIdentity(a) == FromIdentity(b)
    ensures SameSigned(a, b)
  {
    IdentityInjective(a, b);
    CapabilitiesInjective(a, b);
    TextsInjective(a, b);
    SchemaInjective(a, b);
  }

  lemma SameParts(a: AuditManifest, b: AuditManifest)
    requires SameSigned(a, b)
    ensures FromIdentity(a) == FromIdentity(b)
  {
    assert LimitBytes(a.limits) == LimitBytes(b.limits);
    assert FromSchema(a) == FromSchema(b);
    assert FromTexts(a) == FromTexts(b);
    assert FromCapabilities(a) == FromCapabilities(b);
  }

  /** The canonical bytes agree exactly when the manifests agree in all that the bytes can show. */
  lemma CanonicalIff(a: AuditManifest, b: AuditManifest)
    requires Representable(a) && Representable(b)
    ensures Canonical(a) == Canonical(b) <==> SameSigned(a, b)
  {
    if Canonical(a) == Canonical(b) {
      SplitSame(Domain(), Domain(), FromIdentity(a), FromIdentity(b));
      PartsInjective(a, b);
    }
    if SameSigned(a, b) {
      SameParts(a, b);
    }
  }

  lemma AcceptedWholeSeconds(m: AuditManifest, clean: Text -> bool)
    requires FromParts(m, clean).Ok?
    ensures m.limits.maxTime.nanos == 0
  {
    assert ValidLimits(m.limits);
  }

  /** Accepted manifests with equal bytes differ in their signatures at most. */
  lemma AcceptedInjective(a: AuditManifest, b: AuditManifest, clean: Text -> bool)
    requires Representable(a) && Representable(b)
    requires FromParts(a, clean).Ok? && FromParts(b, clean).Ok?
    requires Canonical(a) == Canonical(b)
    ensures a == b.(signature := a.signature)
  {
    AcceptedWholeSeconds(a, clean);
    AcceptedWholeSeconds(b, clean);
    CanonicalIff(a, b);
  }

  /** The whole-second check is needed: every manifest shares its bytes with one half a second off. */
  lemma HalfSecondCollides(a: AuditManifest) returns (b: AuditManifest)
    requires Representable(a) && a.limits.maxTime.nanos == 0
    ensures Representable(b) && a.limits != b.limits && Canonical(a) == Canonical(b)
  {
    b := a.(limits := a.limits.(maxTime := Time(a.limits.maxTime.secs, 500_000_000)));
    CanonicalIff(a, b);
  }
}
