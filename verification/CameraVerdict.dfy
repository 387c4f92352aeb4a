/** What a camera verdict can and cannot depend on. */
module CameraVerdict {
  import opened Sequences
  import opened CameraOrder
  import opened CameraSelection
  import opened CameraDetection

  lemma {:induction false} SortedUnique(a: seq<Evidence>, b: seq<Evidence>)
    requires SortedByKey(a) && SortedByKey(b) && Elements(a) == Elements(b)
    ensures a == b
  {
    if a == [] {
      if b != [] {
        SameHead(b, a);
      }
    } else {
      SameHead(a, b);
      TailElements(a);
      TailElements(b);
      SortedUnique(a[1..], b[1..]);
      assert a == [a[0]] + a[1..] && b == [b[0]] + b[1..];
    }
  }

  lemma SameHead(a: seq<Evidence>, b: seq<Evidence>)
    requires SortedByKey(a) && SortedByKey(b) && Elements(a) == Elements(b) && a != []
    ensures b != [] && a[0] == b[0]
  {
    assert a[0] in Elements(b);
    var i :| 0 <= i < |b| && b[i] == a[0];
    assert b[0] in Elements(a);
    var j :| 0 <= j < |a| && a[j] == b[0];
    KeyLessTotal(a[0], b[0]);
    KeyLessTotal(b[0], a[0]);
  }

  lemma TailElements(a: seq<Evidence>)
    requires SortedByKey(a) && a != []
    ensures Elements(a[1..]) == Elements(a) - {a[0]}
  {
    assert a == [a[0]] + a[1..];
    forall e | e in a[1..] ensures e != a[0] {
      KeyLessTotal(a[0], e);
    }
  }

  /** Permuting or repeating the inputs changes nothing in the result. */
  lemma VerdictIgnoresOrder(a: seq<Evidence>, b: seq<Evidence>, now: int, c: Candidate, d: Candidate)
    requires forall e :: e in a <==> e in b
    requires IsVerdict(c, a, now) && IsVerdict(d, b, now)
    ensures c == d
  {
    assert Fresh(a, now) == Fresh(b, now);
    TopUnique(Elements(c.evidence), Elements(d.evidence), Fresh(a, now), MAX_EVIDENCE);
    SortedUnique(c.evidence, d.evidence);
  }

  /** If something of priority `p` is in the items, the best of the selection has at least that priority. */
  lemma PrioritySurvives(top: set<Evidence>, items: set<Evidence>, e: Evidence) returns (s: Evidence)
    requires IsTop(top, items, MAX_EVIDENCE) && e in items
    ensures s in top && Priority(s) >= Priority(e)
    ensures Priority(s) == Priority(e) && IsProfile(s) && IsProfile(e) ==> s.confidence >= e.confidence
  {
    var m := MaximumExists(items, e);
    if m in top {
      s := m;
    } else {
      assert top != {};
      s :| s in top;
    }
  }

  /** One unexpired contradiction anywhere in the input forces `Unknown`, whatever else was seen. */
  lemma ContradictionAlwaysWins(inputs: seq<Evidence>, now: int, c: Candidate)
    requires IsVerdict(c, inputs, now)
    ensures Contradicted(c.evidence) <==> exists e :: e in inputs && !Expired(e, now) && IsContradiction(e)
    ensures (exists e :: e in inputs && !Expired(e, now) && IsContradiction(e)) ==>
              c.classification == Unknown && c.confidence == 0.0
  {
    if e :| e in inputs && !Expired(e, now) && IsContradiction(e) {
      var s := PrioritySurvives(Elements(c.evidence), Fresh(inputs, now), e);
      assert s in c.evidence;
    }
    if Contradicted(c.evidence) {
      var s :| s in c.evidence && IsContradiction(s);
      assert s in Elements(c.evidence) && s in Fresh(inputs, now);
    }
  }

  lemma {:induction false} ProfileScoreIsMax(s: seq<Evidence>)
    ensures forall e :: e in s && IsProfile(e) ==> e.confidence <= ProfileScore(s)
    ensures ProfileScore(s) == 0.0 || exists e :: e in s && IsProfile(e) && e.confidence == ProfileScore(s)
  {
    if s != [] {
      ProfileScoreIsMax(s[..|s| - 1]);
      assert s == s[..|s| - 1] + [s[|s| - 1]];
    }
  }

  /**
   Without a contradiction, one confident ONVIF profile makes a camera, and the reported confidence is
   the best profile confidence in the whole input: the bound of 64 never hides it.
   */
  lemma ConfidentProfileDecides(inputs: seq<Evidence>, now: int, c: Candidate, e: Evidence)
    requires IsVerdict(c, inputs, now)
    requires forall f :: f in inputs && !Expired(f, now) ==> !IsContradiction(f)
    requires e in inputs && !Expired(e, now) && IsProfile(e) && e.confidence >= 0.8
    ensures c.classification == Camera && c.confidence >= e.confidence
    ensures exists f :: f in inputs && !Expired(f, now) && IsProfile(f) && f.confidence == c.confidence
  {
    ContradictionAlwaysWins(inputs, now, c);
    ProfileScoreIsMax(c.evidence);
    var s := PrioritySurvives(Elements(c.evidence), Fresh(inputs, now), e);
    assert s in c.evidence && s in Fresh(inputs, now);
    var f :| f in c.evidence && IsProfile(f) && f.confidence == ProfileScore(c.evidence);
    assert f in Elements(c.evidence) && f in Fresh(inputs, now);
  }

  // ---------------------------------------------------------------- scores

  ghost predicate Confident(s: seq<Evidence>) {
    forall e :: e in s ==> 0.0 <= e.confidence <= 1.0
  }

  lemma {:induction false} FamilyScoreIsMax(s: seq<Evidence>, f: Family)
    ensures forall e :: e in s && Supports(e, f) ==> e.confidence <= FamilyScore(s, f)
    ensures FamilyScore(s, f) == 0.0 || exists e :: e in s && Supports(e, f) && e.confidence == FamilyScore(s, f)
    ensures FamilyScore(s, f) >= 0.0
  {
    if s != [] {
      FamilyScoreIsMax(s[..|s| - 1], f);
      assert s == s[..|s| - 1] + [s[|s| - 1]];
    }
  }

  lemma {:induction false} TallyBounds(s: seq<Evidence>, families: seq<Family>)
    ensures var (count, total) := Tally(s, families);
            0.0 <= total && (count == 0 ==> total == 0.0)
  {
    if families != [] {
      TallyBounds(s, families[..|families| - 1]);
    }
  }

  lemma {:induction false} TallyOneFamily(s: seq<Evidence>, families: seq<Family>, f: Family)
    requires forall e :: e in s && !IsContradiction(e) ==> e.family == f
    requires forall i, j :: 0 <= i < j < |families| ==> families[i] != families[j]
    ensures Tally(s, families).0 <= 1
    ensures f !in families ==> Tally(s, families).0 == 0
  {
    if families != [] {
      var n := |families| - 1;
      TallyOneFamily(s, families[..n], f);
      assert families == families[..n] + [families[n]];
    }
  }

  /** Every score is a valid confidence, so publishing it cannot fail. */
  lemma ScoreInRange(s: seq<Evidence>)
    requires Confident(s)
    ensures 0.0 <= Score(s) <= 1.0
  {
    TallyBounds(s, FAMILIES);
    ProfileScoreIsMax(s);
  }

  /** Evidence of a single family never makes a camera by itself, and never scores above 0.35. */
  lemma OneFamilyIsWeak(s: seq<Evidence>, f: Family)
    requires forall e :: e in s && !IsContradiction(e) ==> e.family == f
    requires ProfileScore(s) < 0.8
    ensures Classify(s) != Camera && Score(s) <= 0.35
  {
    TallyBounds(s, FAMILIES);
    TallyOneFamily(s, FAMILIES, f);
  }
}
