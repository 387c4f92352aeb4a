/** Camera classification from a stream of evidence, with at most 64 pieces of it retained. */
module CameraDetection {
  import opened Wrappers
  import opened Sequences
  import opened CameraOrder
  import opened CameraSelection

  const MAX_EVIDENCE: nat := 64

  datatype Classification = Camera | PossibleCamera | Unknown

  datatype Candidate = Candidate(classification: Classification, confidence: real, evidence: seq<Evidence>)

  predicate Expired(e: Evidence, now: int) {
    e.expiresAt.Some? && e.expiresAt.value <= now
  }

  /** The evidence that may be considered at all. */
  function Fresh(inputs: seq<Evidence>, now: int): set<Evidence> {
    set e | e in inputs && !Expired(e, now)
  }

  ghost predicate DistinctKeys(s: seq<Evidence>) {
    forall i, j :: 0 <= i < j < |s| ==> !SameKey(s[i], s[j])
  }

  ghost predicate SortedByKey(s: seq<Evidence>) {
    forall i, j :: 0 <= i < j < |s| ==> KeyLess(s[i], s[j])
  }

  // ---------------------------------------------------------------- the verdict on retained evidence

  const FAMILIES: seq<Family> := [Onvif, WsDiscovery, Rtsp, Upnp, Http, Tls, Service, Behavior]

  function RMax(a: real, b: real): real {
    if a < b then b else a
  }

  function RMin(a: real, b: real): real {
    if a < b then a else b
  }

  predicate Contradicted(s: seq<Evidence>) {
    exists e :: e in s && IsContradiction(e)
  }

  predicate Supports(e: Evidence, f: Family) {
    e.family == f && !IsContradiction(e)
  }

  /** The best confidence among the retained evidence of one family. */
  function FamilyScore(s: seq<Evidence>, f: Family): real {
    if s == [] then 0.0
    else if Supports(s[|s| - 1], f) then RMax(FamilyScore(s[..|s| - 1], f), s[|s| - 1].confidence)
    else FamilyScore(s[..|s| - 1], f)
  }

  function ProfileScore(s: seq<Evidence>): real {
    if s == [] then 0.0
    else if IsProfile(s[|s| - 1]) then RMax(ProfileScore(s[..|s| - 1]), s[|s| - 1].confidence)
    else ProfileScore(s[..|s| - 1])
  }

  /** How many of the families reach 0.2, and the sum of their scores. */
  function Tally(s: seq<Evidence>, families: seq<Family>): (nat, real) {
    if families == [] then (0, 0.0)
    else
      var n := |families| - 1;
      var (count, total) := Tally(s, families[..n]);
      var score := FamilyScore(s, families[n]);
      if (exists e :: e in s && Supports(e, families[n])) && score >= 0.2 then (count + 1, total + score)
      else (count, total)
  }

  function Classify(s: seq<Evidence>): Classification {
    var (count, total) := Tally(s, FAMILIES);
    if Contradicted(s) then Unknown
    else if ProfileScore(s) >= 0.8 || (count >= 2 && total >= 0.6) then Camera
    else if exists e :: e in s && !IsContradiction(e) then PossibleCamera
    else Unknown
  }

  function Score(s: seq<Evidence>): real {
    var (count, total) := Tally(s, FAMILIES);
    if Contradicted(s) then 0.0
    else if ProfileScore(s) >= 0.8 then ProfileScore(s)
    else if count == 1 then RMin(total, 0.35)
    else RMin(total, 1.0)
  }

  /** What the one-pass selection must deliver, said without reference to arrival order. */
  ghost predicate IsVerdict(c: Candidate, inputs: seq<Evidence>, now: int) {
    && IsTop(Elements(c.evidence), Fresh(inputs, now), MAX_EVIDENCE)
    && SortedByKey(c.evidence)
    && c.classification == Classify(c.evidence)
    && c.confidence == Score(c.evidence)
  }

  // ---------------------------------------------------------------- one pass over the inputs

  lemma DistinctNoRepeats(s: seq<Evidence>)
    requires DistinctKeys(s)
    ensures NoRepeats(s)
  {
  }

  lemma ElementsReplaced(s: seq<Evidence>, i: nat, x: Evidence)
    requires DistinctKeys(s) && i < |s|
    ensures Elements(s[i := x]) == Elements(s) - {s[i]} + {x}
  {
    var t := s[i := x];
    forall e | e in Elements(s) - {s[i]} + {x} ensures e in t {
      if e == x {
        assert t[i] == x;
      } else {
        var j :| 0 <= j < |s| && s[j] == e;
        assert t[j] == e;
      }
    }
    forall e | e in t ensures e in Elements(s) - {s[i]} + {x} {
      var j :| 0 <= j < |t| && t[j] == e;
      if j != i {
        assert s[j] == e && !SameKey(s[i], s[j]);
      }
    }
  }

  method Position(selected: seq<Evidence>, x: Evidence) returns (at: Option<nat>)
    ensures at.Some? ==> at.value < |selected| && SameKey(selected[at.value], x)
    ensures at.None? ==> forall e :: e in selected ==> !SameKey(e, x)
  {
    for i := 0 to |selected|
      invariant forall j :: 0 <= j < i ==> !SameKey(selected[j], x)
    {
      if SameKey(selected[i], x) {
        return Some(i);
      }
    }
    return None;
  }

  method Worst(selected: seq<Evidence>) returns (at: nat)
    requires selected != [] && DistinctKeys(selected)
    ensures at < |selected|
    ensures forall e :: e in selected ==> e == selected[at] || Below(selected[at], e)
  {
    at := 0;
    for i := 1 to |selected|
      invariant at < |selected|
      invariant forall j :: 0 <= j < i ==> selected[j] == selected[at] || Below(selected[at], selected[j])
    {
      BelowTotal(selected[i], selected[at]);
      if Below(selected[i], selected[at]) {
        forall j | 0 <= j < i && selected[j] != selected[at] ensures Below(selected[i], selected[j]) {
          BelowTransitive(selected[i], selected[at], selected[j]);
        }
        at := i;
      }
    }
  }

  /** The retained evidence is the selection of the items seen so far. */
  ghost predicate Retains(selected: seq<Evidence>, items: set<Evidence>) {
    DistinctKeys(selected) && IsTop(Elements(selected), items, MAX_EVIDENCE)
  }

  lemma KnownKey(selected: seq<Evidence>, items: set<Evidence>, x: Evidence, i: nat)
    requires Retains(selected, items) && i < |selected| && SameKey(selected[i], x)
    ensures Retains(if Below(selected[i], x) then selected[i := x] else selected, items + {x})
  {
    if Below(selected[i], x) {
      ElementsReplaced(selected, i, x);
      forall t | t in Elements(selected) && t != selected[i] ensures !SameKey(t, x) {
        var j :| 0 <= j < |selected| && selected[j] == t;
        assert i < j ==> !SameKey(selected[i], selected[j]);
      }
      RaiseKeepsTop(Elements(selected), items, MAX_EVIDENCE, x, selected[i]);
    } else {
      RepeatKeepsTop(Elements(selected), items, MAX_EVIDENCE, x, selected[i]);
    }
  }

  lemma RoomLeft(selected: seq<Evidence>, items: set<Evidence>, x: Evidence)
    requires Retains(selected, items) && |selected| < MAX_EVIDENCE
    requires forall e :: e in selected ==> !SameKey(e, x)
    ensures Retains(selected + [x], items + {x})
  {
    DistinctNoRepeats(selected);
    ElementsCard(selected);
    assert Elements(selected + [x]) == Elements(selected) + {x};
    PushKeepsTop(Elements(selected), items, MAX_EVIDENCE, x);
  }

  lemma FullUpEvicts(selected: seq<Evidence>, items: set<Evidence>, x: Evidence, worst: nat)
    requires Retains(selected, items) && |selected| >= MAX_EVIDENCE && worst < |selected|
    requires forall e :: e in Elements(selected) ==> !SameKey(e, x)
    requires forall e :: e in Elements(selected) ==> e == selected[worst] || Below(selected[worst], e)
    requires Below(selected[worst], x)
    ensures Retains(selected[worst := x], items + {x})
  {
    var after := selected[worst := x];
    DistinctNoRepeats(selected);
    ElementsCard(selected);
    EvictKeepsTop(Elements(selected), items, MAX_EVIDENCE, x, selected[worst]);
    ElementsReplaced(selected, worst, x);
    forall i, j | 0 <= i < j < |after| ensures !SameKey(after[i], after[j]) {
      assert selected[i] in Elements(selected) && selected[j] in Elements(selected);
    }
  }

  lemma FullUpSkips(selected: seq<Evidence>, items: set<Evidence>, x: Evidence, worst: nat)
    requires Retains(selected, items) && |selected| >= MAX_EVIDENCE && worst < |selected|
    requires forall e :: e in Elements(selected) ==> !SameKey(e, x)
    requires forall e :: e in Elements(selected) ==> e == selected[worst] || Below(selected[worst], e)
    requires !Below(selected[worst], x)
    ensures Retains(selected, items + {x})
  {
    DistinctNoRepeats(selected);
    ElementsCard(selected);
    SkipKeepsTop(Elements(selected), items, MAX_EVIDENCE, x, selected[worst]);
  }

  method SelectEvidence(inputs: seq<Evidence>, now: int) returns (selected: seq<Evidence>)
    ensures Retains(selected, Fresh(inputs, now))
  {
    selected := [];
    for i := 0 to |inputs|
      invariant Retains(selected, Fresh(inputs[..i], now))
    {
      var x := inputs[i];
      ghost var items := Fresh(inputs[..i], now);
      assert inputs[..i + 1] == inputs[..i] + [x];
      assert Fresh(inputs[..i + 1], now) == if Expired(x, now) then items else items + {x};
      if Expired(x, now) {
        continue;
      }
      var at := Position(selected, x);
      if at.Some? {
        KnownKey(selected, items, x, at.value);
        if Below(selected[at.value], x) {
          selected := selected[at.value := x];
        }
      } else if |selected| < MAX_EVIDENCE {
        RoomLeft(selected, items, x);
        selected := selected + [x];
      } else {
        var worst := Worst(selected);
        if Below(selected[worst], x) {
          FullUpEvicts(selected, items, x, worst);
          selected := selected[worst := x];
        } else {
          FullUpSkips(selected, items, x, worst);
        }
      }
    }
    assert inputs[..|inputs|] == inputs;
  }

  // ---------------------------------------------------------------- the retained evidence in key order

  /** Inserts one piece of evidence into a key-sorted list. */
  method Insert(sorted: seq<Evidence>, x: Evidence) returns (out: seq<Evidence>)
    requires SortedByKey(sorted) && forall e :: e in sorted ==> !SameKey(e, x)
    ensures SortedByKey(out) && Elements(out) == Elements(sorted) + {x}
  {
    var i := |sorted|;
    while 0 < i && KeyLess(x, sorted[i - 1])
      invariant 0 <= i <= |sorted|
      invariant forall j :: i <= j < |sorted| ==> KeyLess(x, sorted[j])
    {
      i := i - 1;
    }
    out := sorted[..i] + [x] + sorted[i..];
    forall j | 0 <= j < i ensures KeyLess(sorted[j], x) {
      KeyLessTotal(sorted[i - 1], x);
      if j < i - 1 {
        KeyLessTransitive(sorted[j], sorted[i - 1], x);
      }
    }
    assert forall e :: e in sorted <==> e in sorted[..i] || e in sorted[i..];
  }

  method SortByKey(s: seq<Evidence>) returns (out: seq<Evidence>)
    requires DistinctKeys(s)
    ensures SortedByKey(out) && Elements(out) == Elements(s)
  {
    out := [];
    for i := 0 to |s|
      invariant SortedByKey(out) && Elements(out) == Elements(s[..i])
    {
      assert forall e :: e in out ==> e in Elements(out);
      assert forall j :: 0 <= j < i ==> !SameKey(s[j], s[i]);
      out := Insert(out, s[i]);
      assert s[..i + 1] == s[..i] + [s[i]];
    }
    assert s[..|s|] == s;
  }

  method ClassifyCandidate(inputs: seq<Evidence>, now: int) returns (c: Candidate)
    ensures IsVerdict(c, inputs, now)
  {
    var selected := SelectEvidence(inputs, now);
    var evidence := SortByKey(selected);
    c := Candidate(Classify(evidence), Score(evidence), evidence);
  }
}
