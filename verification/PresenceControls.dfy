/** Control flags are last-writer-wins over everything ingested, in whatever order it arrived. */
module PresenceControls {
  import opened Wrappers
  import opened PresenceModel

  /** The flag the records of one family decide: the latest instant, and whether it holds an activation. */
  ghost predicate IsFlag(flag: Flag, records: set<Evidence>, f: Family) {
    if flag.clock.None? then !flag.active && forall e :: e in records ==> FamilyOf(e.kind) != Some(f)
    else
      && (exists e :: e in records && FamilyOf(e.kind) == Some(f) && e.observedAt == flag.clock.value)
      && (forall e :: e in records && FamilyOf(e.kind) == Some(f) ==> e.observedAt <= flag.clock.value)
      && (flag.active <==> exists e :: e in records && FamilyOf(e.kind) == Some(f)
                                   && e.observedAt == flag.clock.value && Activates(e.kind))
  }

  /** The records alone decide the flag, so the order of arrival does not. */
  lemma FlagUnique(a: Flag, b: Flag, records: set<Evidence>, f: Family)
    requires IsFlag(a, records, f) && IsFlag(b, records, f)
    ensures a == b
  {
  }

  /** `top` is a greatest record of its family, activations counting as later at one instant. */
  ghost predicate IsGreatest(top: Evidence, records: set<Evidence>, f: Family) {
    && top in records && FamilyOf(top.kind) == Some(f)
    && forall e :: e in records && FamilyOf(e.kind) == Some(f) ==>
         e.observedAt < top.observedAt || (e.observedAt == top.observedAt && (Activates(e.kind) ==> Activates(top.kind)))
  }

  lemma GreatestDecides(flag: Flag, records: set<Evidence>, f: Family, top: Evidence)
    requires IsFlag(flag, records, f) && IsGreatest(top, records, f)
    ensures flag == Flag(Activates(top.kind), Some(top.observedAt))
  {
  }

  lemma FlagTransfers(flag: Flag, s: set<Evidence>, t: set<Evidence>, f: Family)
    requires IsFlag(flag, s, f)
    requires forall e: Evidence :: FamilyOf(e.kind) == Some(f) ==> (e in s <==> e in t)
    ensures IsFlag(flag, t, f)
  {
  }

  lemma FlagTakes(flag: Flag, s: set<Evidence>, f: Family, e: Evidence)
    requires IsFlag(flag, s, f) && FamilyOf(e.kind) == Some(f)
    requires !StaleAt(flag, e.observedAt, Activates(e.kind))
    ensures IsFlag(Flag(Activates(e.kind), Some(e.observedAt)), s + {e}, f)
  {
    assert e in s + {e};
  }

  lemma FlagIgnores(flag: Flag, s: set<Evidence>, f: Family, e: Evidence)
    requires IsFlag(flag, s, f) && FamilyOf(e.kind) == Some(f)
    requires StaleAt(flag, e.observedAt, Activates(e.kind))
    ensures IsFlag(flag, s + {e}, f)
  {
    forall x | x in s ensures x in s + {e} {
    }
  }

  lemma FlagSurvivesPruning(flag: Flag, s: set<Evidence>, f: Family)
    requires IsFlag(flag, s, f)
    ensures IsFlag(flag, PruneControls(s), f)
  {
    forall e | e in s && FamilyOf(e.kind) == Some(f) && flag.clock.Some? && e.observedAt == flag.clock.value
      ensures e in PruneControls(s)
    {
    }
  }

  // ---------------------------------------------------------------- one device

  ghost predicate Decided(d: Presence, records: set<Evidence>) {
    forall f :: IsFlag(FlagOf(d, f), records, f)
  }

  /** The flags are those of everything ingested and of the evidence retained, and decide who is blocked. */
  ghost predicate Controlled(d: Presence, seen: set<Evidence>) {
    && d.evidence <= seen && Decided(d, seen) && Decided(d, d.evidence)
    && (d.state == Blocked <==> d.enforcement.active)
  }

  lemma ApplyFlagsDecides(d: Presence, s: set<Evidence>, e: Evidence)
    requires Decided(d, s) && !StaleControl(d, e)
    ensures Decided(ApplyFlags(d, e), s + {e})
  {
    var after := ApplyFlags(d, e);
    forall f ensures IsFlag(FlagOf(after, f), s + {e}, f) {
      if FamilyOf(e.kind) == Some(f) {
        FlagTakes(FlagOf(d, f), s, f, e);
        assert FlagOf(after, f) == Flag(Activates(e.kind), Some(e.observedAt));
      } else {
        assert FlagOf(after, f) == FlagOf(d, f);
        FlagTransfers(FlagOf(d, f), s, s + {e}, f);
      }
    }
  }

  lemma DecidedKept(cfg: PresenceConfig, d: Presence, s: set<Evidence>, arrival: int)
    requires Decided(d, s)
    ensures Decided(d, KeptEvidence(cfg, s, arrival))
  {
    forall f ensures IsFlag(FlagOf(d, f), KeptEvidence(cfg, s, arrival), f) {
      FlagTransfers(FlagOf(d, f), s, KeptEvidence(cfg, s, arrival), f);
    }
  }

  lemma DecidedPruned(d: Presence, s: set<Evidence>)
    requires Decided(d, s)
    ensures Decided(d, PruneControls(s))
  {
    forall f ensures IsFlag(FlagOf(d, f), PruneControls(s), f) {
      FlagSurvivesPruning(FlagOf(d, f), s, f);
    }
  }

  /** The flags an observation leaves; evidence, support and history do not matter to them. */
  lemma SameFlagsDecided(d: Presence, d': Presence, s: set<Evidence>)
    requires d.enforcement == d'.enforcement && d.impairment == d'.impairment && d.conflict == d'.conflict
    requires Decided(d, s)
    ensures Decided(d', s)
  {
    forall f ensures IsFlag(FlagOf(d', f), s, f) {
      assert FlagOf(d', f) == FlagOf(d, f);
    }
  }

  lemma AbsorbFlags(cfg: PresenceConfig, d: Presence, e: Evidence, arrival: int)
    ensures var a, b := Absorb(cfg, d, e, arrival), ApplyFlags(d, e);
            a.enforcement == b.enforcement && a.impairment == b.impairment && a.conflict == b.conflict
    ensures Absorb(cfg, d, e, arrival).state == d.state
  {
  }

  lemma AbsorbEvidence(cfg: PresenceConfig, d: Presence, e: Evidence, arrival: int)
    ensures var kept, a := KeptEvidence(cfg, d.evidence, arrival), Absorb(cfg, d, e, arrival).evidence;
            a == PruneControls(kept + {e}) || (FamilyOf(e.kind).None? && a == kept)
  {
  }

  lemma AbsorbDecided(cfg: PresenceConfig, d: Presence, seen: set<Evidence>, e: Evidence, arrival: int)
    requires Controlled(d, seen) && !StaleControl(d, e)
    ensures var a := Absorb(cfg, d, e, arrival);
            a.evidence <= seen + {e} && Decided(a, seen + {e}) && Decided(a, a.evidence)
  {
    var a, b, kept := Absorb(cfg, d, e, arrival), ApplyFlags(d, e), KeptEvidence(cfg, d.evidence, arrival);
    AbsorbFlags(cfg, d, e, arrival);
    AbsorbEvidence(cfg, d, e, arrival);
    ApplyFlagsDecides(d, seen, e);
    SameFlagsDecided(b, a, seen + {e});
    DecidedKept(cfg, d, d.evidence, arrival);
    if a.evidence == PruneControls(kept + {e}) {
      ApplyFlagsDecides(d, kept, e);
      SameFlagsDecided(b, a, kept + {e});
      DecidedPruned(a, kept + {e});
    } else {
      SameFlagsDecided(d, a, kept);
    }
  }

  lemma RecomputeControls(cfg: PresenceConfig, d: Presence, next: nat, at: int, trigger: Evidence)
    ensures var u := Recompute(cfg, d, next, at, trigger).device;
            && u.evidence == d.evidence && u.enforcement == d.enforcement && u.impairment == d.impairment
            && u.conflict == d.conflict && (u.state == Blocked <==> u.enforcement.active)
  {
  }

  lemma RecomputeControlled(cfg: PresenceConfig, d: Presence, seen: set<Evidence>, next: nat, at: int, trigger: Evidence)
    requires d.evidence <= seen && Decided(d, seen) && Decided(d, d.evidence)
    ensures Controlled(Recompute(cfg, d, next, at, trigger).device, seen)
  {
    var u := Recompute(cfg, d, next, at, trigger).device;
    RecomputeControls(cfg, d, next, at, trigger);
    SameFlagsDecided(d, u, seen);
    SameFlagsDecided(d, u, d.evidence);
  }

  lemma CorrectedControlled(
    cfg: PresenceConfig, a: Presence, seen: set<Evidence>, next: nat, t: Transition, e: Evidence, arrival: int)
    requires a.evidence <= seen && Decided(a, seen) && Decided(a, a.evidence)
    ensures Controlled(Corrected(cfg, a, next, t, e, arrival).device, seen)
  {
    var pushed := PushHistory(a, t, cfg.maxHistory);
    SameFlagsDecided(a, pushed, seen);
    SameFlagsDecided(a, pushed, a.evidence);
    RecomputeControlled(cfg, pushed, seen, next + 1, arrival, e);
  }

  lemma ObserveControlled(cfg: PresenceConfig, d: Presence, seen: set<Evidence>, next: nat, e: Evidence, arrival: int)
    requires Controlled(d, seen) && !StaleControl(d, e)
    ensures Controlled(Observe(cfg, d, next, e, arrival).device, seen + {e})
  {
    AbsorbDecided(cfg, d, seen, e, arrival);
    var a := Absorb(cfg, d, e, arrival);
    if Corrects(cfg, d, e, arrival).Some? {
      var t := Correction(next, e, arrival, Corrects(cfg, d, e, arrival).value);
      CorrectedControlled(cfg, a, seen + {e}, next, t, e, arrival);
    } else if Late(d, e) && !CurrentlyValid(cfg, d, e, arrival) {
      AbsorbFlags(cfg, d, e, arrival);
    } else {
      RecomputeControlled(cfg, a, seen + {e}, next, arrival, e);
    }
  }

  /** A redundant observation leaves the device as it is, and its flags still decide. */
  lemma RedundantControlled(d: Presence, seen: set<Evidence>, e: Evidence)
    requires Controlled(d, seen) && (e in d.evidence || StaleControl(d, e))
    ensures Controlled(d, seen + {e})
  {
    if e in d.evidence {
      assert seen + {e} == seen;
    } else {
      forall f ensures IsFlag(FlagOf(d, f), seen + {e}, f) {
        if FamilyOf(e.kind) == Some(f) {
          FlagIgnores(FlagOf(d, f), seen, f, e);
        } else {
          FlagTransfers(FlagOf(d, f), seen, seen + {e}, f);
        }
      }
    }
  }
}
