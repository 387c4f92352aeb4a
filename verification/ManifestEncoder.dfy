/** The encoder: a byte buffer appended to in loops, proved to hold the canonical form. */
module ManifestEncoder {
  import opened Ordering
  import opened Bytes
  import opened Sequences
  import opened Manifest

  method PutStr(out: seq<Byte>, s: Text) returns (b: seq<Byte>)
    ensures b == out + Str(s)
  {
    b := out + BigEndian(|s|, 4);
    b := b + s;
    Assoc(out, BigEndian(|s|, 4), s);
  }

  method PutCapabilities(out: seq<Byte>, caps: set<Capability>) returns (b: seq<Byte>)
    ensures b == out + CapsBytes(OrderedCaps(caps))
  {
    CapOrder();
    b := out;
    var rest := caps;
    while rest != {}
      invariant b + CapsBytes(OrderedCaps(rest)) == out + CapsBytes(OrderedCaps(caps))
      decreases rest
    {
      var c := LeastOf(rest, CapLe);
      LeastIsFirst(rest, CapLe, c);
      var later := OrderedCaps(rest - {c});
      assert ([c] + later)[1..] == later;
      Assoc(b, CapBytes(c), CapsBytes(later));
      b := b + CapBytes(c);
      rest := rest - {c};
    }
    assert b + CapsBytes([]) == b;
  }

  method PutFields(out: seq<Byte>, fields: map<Text, EvidenceType>) returns (b: seq<Byte>)
    ensures b == out + FieldsBytes(OrderedKeys(fields.Keys), fields)
  {
    TextOrder();
    b := out;
    var rest := fields.Keys;
    while rest != {}
      invariant rest <= fields.Keys
      invariant b + FieldsBytes(OrderedKeys(rest), fields) == out + FieldsBytes(OrderedKeys(fields.Keys), fields)
      decreases rest
    {
      var k := LeastOf(rest, TextLe);
      LeastIsFirst(rest, TextLe, k);
      var later := OrderedKeys(rest - {k});
      assert ([k] + later)[1..] == later;
      Assoc(b, FieldBytes(k, fields[k]), FieldsBytes(later, fields));
      Assoc(b, Str(k), [TypeByte(fields[k])]);
      b := PutStr(b, k);
      b := b + [TypeByte(fields[k])];
      rest := rest - {k};
    }
    assert b + FieldsBytes([], fields) == b;
  }

  method PutLimits(out: seq<Byte>, l: Limits) returns (b: seq<Byte>)
    ensures b == out + LimitBytes(l)
  {
    b := out + BigEndian(l.maxBytes, 8);
    b := b + BigEndian(l.maxRequests, 4);
    b := b + BigEndian(l.maxTime.secs, 8);
    b := b + BigEndian(l.maxFuel, 8);
    b := b + BigEndian(l.maxMemoryPages, 4);
    assert b == out + LimitBytes(l);
  }

  method PutTexts(out: seq<Byte>, m: AuditManifest) returns (b: seq<Byte>)
    ensures b + FromSchema(m) == out + FromTexts(m)
  {
    b := PutStr(out, m.expectedBehavior);
    var flags: seq<Byte> := [EffectByte(m.sideEffects), if m.rollbackRequired then 1 else 0];
    ghost var rest := Str(m.rollbackDescription) + FromSchema(m);
    Assoc(out, Str(m.expectedBehavior), flags + rest);
    Assoc(b, flags, rest);
    b := b + flags;
    Assoc(b, Str(m.rollbackDescription), FromSchema(m));
    b := PutStr(b, m.rollbackDescription);
  }

  method PutIdentity(out: seq<Byte>, m: AuditManifest) returns (b: seq<Byte>)
    ensures b + FromCapabilities(m) == out + FromIdentity(m)
  {
    b := PutStr(out, m.moduleId);
    ghost var kind := [1] + FromCapabilities(m);
    Assoc(out, Str(m.moduleId), BigEndian(m.version, 2) + (m.sha256 + kind));
    Assoc(b, BigEndian(m.version, 2), m.sha256 + kind);
    b := b + BigEndian(m.version, 2);
    Assoc(b, m.sha256, kind);
    b := b + m.sha256;
    Assoc(b, [1], FromCapabilities(m));
    b := b + [1];
  }

  method CanonicalUnsigned(m: AuditManifest) returns (b: seq<Byte>)
    ensures b == Canonical(m)
  {
    b := PutIdentity(Domain(), m);
    ghost var caps := CapsBytes(OrderedCaps(m.capabilities));
    Assoc(b, BigEndian(|m.capabilities|, 4), caps + FromTexts(m));
    b := b + BigEndian(|m.capabilities|, 4);
    Assoc(b, caps, FromTexts(m));
    b := PutCapabilities(b, m.capabilities);
    b := PutTexts(b, m);
    ghost var fields := FieldsBytes(OrderedKeys(m.fields.Keys), m.fields);
    Assoc(b, BigEndian(|m.fields|, 4), fields + LimitBytes(m.limits));
    b := b + BigEndian(|m.fields|, 4);
    Assoc(b, fields, LimitBytes(m.limits));
    b := PutFields(b, m.fields);
    b := PutLimits(b, m.limits);
  }
}
