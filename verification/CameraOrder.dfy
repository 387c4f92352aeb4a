/** Camera evidence and the total order that decides which evidence survives. */
module CameraOrder {
  import opened Wrappers

  datatype Family = Onvif | WsDiscovery | Rtsp | Upnp | Http | Tls | Service | Behavior

  datatype Evidence = Evidence(
    family: Family, source: string, fact: string, confidence: real, observedAt: int, expiresAt: Option<int>)

  function FamilyRank(f: Family): nat {
    match f
    case Onvif => 0
    case WsDiscovery => 1
    case Rtsp => 2
    case Upnp => 3
    case Http => 4
    case Tls => 5
    case Service => 6
    case Behavior => 7
  }

  predicate IsContradiction(e: Evidence) {
    e.fact == "camera_contradiction"
  }

  predicate IsProfile(e: Evidence) {
    e.family == Onvif && e.fact == "onvif_camera_profile"
  }

  /** Contradictions first, then confident ONVIF profiles, then everything else. */
  function Priority(e: Evidence): nat {
    if IsContradiction(e) then 2
    else if IsProfile(e) && e.confidence >= 0.8 then 1
    else 0
  }

  predicate SameKey(a: Evidence, b: Evidence) {
    a.family == b.family && a.source == b.source && a.fact == b.fact
  }

  predicate StrLess(a: string, b: string) {
    if b == [] then false
    else if a == [] then true
    else if a[0] != b[0] then a[0] < b[0]
    else StrLess(a[1..], b[1..])
  }

  predicate KeyLess(a: Evidence, b: Evidence) {
    if a.family != b.family then FamilyRank(a.family) < FamilyRank(b.family)
    else if a.source != b.source then StrLess(a.source, b.source)
    else StrLess(a.fact, b.fact)
  }

  predicate ExpiresBefore(a: Option<int>, b: Option<int>) {
    b.Some? && (a.None? || a.value < b.value)
  }

  /** `a` is ranked strictly below `b`; on full ties of rank the larger key is the lower. */
  predicate Below(a: Evidence, b: Evidence) {
    if Priority(a) != Priority(b) then Priority(a) < Priority(b)
    else if a.confidence != b.confidence then a.confidence < b.confidence
    else if a.observedAt != b.observedAt then a.observedAt < b.observedAt
    else if a.expiresAt != b.expiresAt then ExpiresBefore(a.expiresAt, b.expiresAt)
    else KeyLess(b, a)
  }

  lemma {:induction false} StrLessTotal(a: string, b: string)
    ensures a == b ==> !StrLess(a, b)
    ensures a != b ==> StrLess(a, b) != StrLess(b, a)
  {
    if a != [] && b != [] && a[0] == b[0] {
      StrLessTotal(a[1..], b[1..]);
      assert a == [a[0]] + a[1..] && b == [b[0]] + b[1..];
    }
  }

  lemma {:induction false} StrLessTransitive(a: string, b: string, c: string)
    requires StrLess(a, b) && StrLess(b, c)
    ensures StrLess(a, c)
  {
    if a != [] && a[0] == b[0] && b[0] == c[0] {
      StrLessTransitive(a[1..], b[1..], c[1..]);
    }
  }

  lemma KeyLessTotal(a: Evidence, b: Evidence)
    ensures SameKey(a, b) ==> !KeyLess(a, b)
    ensures !SameKey(a, b) ==> KeyLess(a, b) != KeyLess(b, a)
  {
    StrLessTotal(a.source, b.source);
    StrLessTotal(a.fact, b.fact);
  }

  lemma KeyLessTransitive(a: Evidence, b: Evidence, c: Evidence)
    requires KeyLess(a, b) && KeyLess(b, c)
    ensures KeyLess(a, c)
  {
    if a.family == b.family == c.family {
      StrLessTotal(a.source, b.source);
      if StrLess(a.source, b.source) && StrLess(b.source, c.source) {
        StrLessTransitive(a.source, b.source, c.source);
        StrLessTotal(a.source, c.source);
      } else if a.source == b.source == c.source {
        StrLessTransitive(a.fact, b.fact, c.fact);
      }
    }
  }

  /** Any two different pieces of evidence are ranked one way and not the other. */
  lemma BelowTotal(a: Evidence, b: Evidence)
    ensures a == b ==> !Below(a, b)
    ensures a != b ==> Below(a, b) != Below(b, a)
  {
    KeyLessTotal(a, b);
    KeyLessTotal(b, a);
  }

  lemma BelowTransitive(a: Evidence, b: Evidence, c: Evidence)
    requires Below(a, b) && Below(b, c)
    ensures Below(a, c)
  {
    if Priority(a) == Priority(b) == Priority(c) && a.confidence == b.confidence == c.confidence &&
       a.observedAt == b.observedAt == c.observedAt && a.expiresAt == b.expiresAt == c.expiresAt {
      KeyLessTransitive(c, b, a);
    }
  }
}
