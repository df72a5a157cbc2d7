/** The ground-truth oracle: an independent evaluation of the same rules with a different control flow. */
module OracleSemantics {
  import opened Basics
  import opened AccessModel

  datatype Reason =
    | RuleId(id: string) | SiteFailed(id: string) | BandFailed(id: string) | UnknownKind(id: string)
    | SubjectSelf | SpecialHr
    | DenyDefault | DenySpecialCategory | AgentIntersect | DenyAgentGrant | DenyAgentOwner | DenyOwnerMissing

  datatype Verdict = Verdict(allowed: bool, reasons: seq<Reason>)

  /** What one rule contributes: a matching grant, a passed constraint, a failed one, or nothing. */
  datatype Outcome = Matched | Passed | Failed(reason: Reason) | Skipped

  function PersonOutcome(memberOf: set<string>, p: Person, r: AclRule): Outcome {
    match r.kind
    case PublicRule => Matched
    case GroupRule => if r.group.Some? && r.group.value in memberOf then Matched else Skipped
    case RoleRule => if r.role == Some(p.role) then Matched else Skipped
    case SiteRule => if Some(p.site) == r.site then Passed else Failed(SiteFailed(r.id))
    case BandRule => if r.minBand.Some? && p.band >= r.minBand.value then Passed else Failed(BandFailed(r.id))
    case UnknownRule(_) => Failed(UnknownKind(r.id))
  }

  function AgentOutcome(granted: set<string>, a: Agent, r: AclRule): Outcome {
    match r.kind
    case PublicRule => Matched
    case GroupRule => if r.group.Some? && r.group.value in granted then Matched else Skipped
    case RoleRule => Skipped
    case SiteRule => if a.site.Some? && a.site == r.site then Passed else Failed(SiteFailed(r.id))
    case BandRule =>
      if a.band.Some? && r.minBand.Some? && a.band.value >= r.minBand.value then Passed else Failed(BandFailed(r.id))
    case UnknownRule(_) => Failed(UnknownKind(r.id))
  }

  function MatchedId(f: AclRule -> Outcome): AclRule -> Option<Reason> {
    r => if f(r).Matched? then Some(RuleId(r.id)) else None
  }

  function PassedId(f: AclRule -> Outcome): AclRule -> Option<Reason> {
    r => if f(r).Passed? then Some(RuleId(r.id)) else None
  }

  function FailedId(f: AclRule -> Outcome): AclRule -> Option<Reason> {
    r => if f(r).Failed? then Some(f(r).reason) else None
  }

  /** The decision once every rule's outcome is known. */
  function Conclude(groups: set<string>, d: Document, matched: seq<Reason>, passed: seq<Reason>, failed: seq<Reason>)
    : Verdict
  {
    if matched == [] then Verdict(false, [DenyDefault])
    else if failed != [] then Verdict(false, Dedupe(failed))
    else if d.sensitivity == SpecialCategory then
      if HR_GROUP !in groups then Verdict(false, [DenySpecialCategory])
      else Verdict(true, Dedupe(matched + passed + [SpecialHr]))
    else Verdict(true, Dedupe(matched + passed))
  }

  function PersonVerdict(c: Company, p: Person, d: Document): Verdict {
    if d.subjectId == Some(p.id) then Verdict(true, [SubjectSelf])
    else
      var groups := GroupsOf(c, p.id);
      var f := (r: AclRule) => PersonOutcome(groups, p, r);
      Conclude(groups, d, Collect(MatchedId(f), d.rules), Collect(PassedId(f), d.rules), Collect(FailedId(f), d.rules))
  }

  function AgentGrantVerdict(a: Agent, d: Document): Verdict {
    var granted := set g | g in a.groups;
    var f := (r: AclRule) => AgentOutcome(granted, a, r);
    Conclude(granted, d, Collect(MatchedId(f), d.rules), Collect(PassedId(f), d.rules), Collect(FailedId(f), d.rules))
  }

  datatype UnknownPrincipal = UnknownPrincipal(id: string)

  /** The oracle's entry point; an unknown principal raises. */
  function Resolve(c: Company, principal: string, d: Document): Result<Verdict, UnknownPrincipal> {
    var person := FindPerson(c.people, principal);
    var agent := FindAgent(c.agents, principal);
    if person.Some? then Ok(PersonVerdict(c, person.value, d))
    else if agent.Some? then
      var owner := FindPerson(c.people, agent.value.owner);
      if owner.None? then Ok(Verdict(false, [DenyAgentOwner, DenyOwnerMissing]))
      else
        var grantSide, ownerSide := AgentGrantVerdict(agent.value, d), PersonVerdict(c, owner.value, d);
        if grantSide.allowed && ownerSide.allowed then
          Ok(Verdict(true, Dedupe([AgentIntersect] + grantSide.reasons + ownerSide.reasons)))
        else
          Ok(Verdict(false, Dedupe((if grantSide.allowed then [] else [DenyAgentGrant] + grantSide.reasons)
                                   + (if ownerSide.allowed then [] else [DenyAgentOwner] + ownerSide.reasons))))
    else Err(UnknownPrincipal(principal))
  }

  /** The source's loop for a person: three lists filled rule by rule, then branched on. */
  method EvaluatePerson(c: Company, p: Person, d: Document) returns (v: Verdict)
    ensures v == PersonVerdict(c, p, d)
  {
    if d.subjectId.Some? && d.subjectId.value == p.id {
      return Verdict(true, [SubjectSelf]);
    }
    var memberOf := GroupsOf(c, p.id);
    var matched, failed, passed := [], [], [];
    ghost var f := (r: AclRule) => PersonOutcome(memberOf, p, r);
    for i := 0 to |d.rules|
      invariant matched == Collect(MatchedId(f), d.rules[..i])
      invariant passed == Collect(PassedId(f), d.rules[..i])
      invariant failed == Collect(FailedId(f), d.rules[..i])
    {
      var r := d.rules[i];
      assert d.rules[..i + 1] == d.rules[..i] + [r];
      CollectSnoc(MatchedId(f), d.rules[..i], r);
      CollectSnoc(PassedId(f), d.rules[..i], r);
      CollectSnoc(FailedId(f), d.rules[..i], r);
      match r.kind {
        case PublicRule => matched := matched + [RuleId(r.id)];
        case GroupRule =>
          if r.group.Some? && r.group.value in memberOf {
            matched := matched + [RuleId(r.id)];
          }
        case RoleRule =>
          if r.role == Some(p.role) {
            matched := matched + [RuleId(r.id)];
          }
        case SiteRule =>
          if Some(p.site) == r.site {
            passed := passed + [RuleId(r.id)];
          } else {
            failed := failed + [SiteFailed(r.id)];
          }
        case BandRule =>
          if r.minBand.Some? && p.band >= r.minBand.value {
            passed := passed + [RuleId(r.id)];
          } else {
            failed := failed + [BandFailed(r.id)];
          }
        case UnknownRule(_) =>
          failed := failed + [UnknownKind(r.id)];
      }
    }
    assert d.rules[..|d.rules|] == d.rules;
    if matched == [] {
      return Verdict(false, [DenyDefault]);
    }
    if failed != [] {
      return Verdict(false, Dedupe(failed));
    }
    if d.sensitivity == SpecialCategory {
      if HR_GROUP !in memberOf {
        return Verdict(false, [DenySpecialCategory]);
      }
      return Verdict(true, Dedupe(matched + passed + [SpecialHr]));
    }
    return Verdict(true, Dedupe(matched + passed));
  }

  /** The source's loop for an agent's own grant. */
  method EvaluateAgentGrant(a: Agent, d: Document) returns (v: Verdict)
    ensures v == AgentGrantVerdict(a, d)
  {
    var granted := set g | g in a.groups;
    var matched, failed, passed := [], [], [];
    ghost var f := (r: AclRule) => AgentOutcome(granted, a, r);
    for i := 0 to |d.rules|
      invariant matched == Collect(MatchedId(f), d.rules[..i])
      invariant passed == Collect(PassedId(f), d.rules[..i])
      invariant failed == Collect(FailedId(f), d.rules[..i])
    {
      var r := d.rules[i];
      assert d.rules[..i + 1] == d.rules[..i] + [r];
      CollectSnoc(MatchedId(f), d.rules[..i], r);
      CollectSnoc(PassedId(f), d.rules[..i], r);
      CollectSnoc(FailedId(f), d.rules[..i], r);
      match r.kind {
        case PublicRule => matched := matched + [RuleId(r.id)];
        case GroupRule =>
          if r.group.Some? && r.group.value in granted {
            matched := matched + [RuleId(r.id)];
          }
        case RoleRule =>
        case SiteRule =>
          if a.site.Some? && a.site == r.site {
            passed := passed + [RuleId(r.id)];
          } else {
            failed := failed + [SiteFailed(r.id)];
          }
        case BandRule =>
          if a.band.Some? && r.minBand.Some? && a.band.value >= r.minBand.value {
            passed := passed + [RuleId(r.id)];
          } else {
            failed := failed + [BandFailed(r.id)];
          }
        case UnknownRule(_) =>
          failed := failed + [UnknownKind(r.id)];
      }
    }
    assert d.rules[..|d.rules|] == d.rules;
    if matched == [] {
      return Verdict(false, [DenyDefault]);
    }
    if failed != [] {
      return Verdict(false, Dedupe(failed));
    }
    if d.sensitivity == SpecialCategory {
      if HR_GROUP !in granted {
        return Verdict(false, [DenySpecialCategory]);
      }
      return Verdict(true, Dedupe(matched + passed + [SpecialHr]));
    }
    return Verdict(true, Dedupe(matched + passed));
  }
}
