/** The compiler's decision procedure. */
module CompilerSemantics {
  import opened Basics
  import opened AccessModel

  datatype AllowReason =
    | PublicSensitivity | RebacPublic | RebacGroup(group: string) | RebacRole(role: string)
    | SiteMatch(site: string) | BandMin(minBand: nat) | SpecialHr | SpecialSubject | SubjectSelf | AgentIntersectOwner

  datatype DenyReason =
    | UnknownPrincipal | SiteMismatch(site: string) | BandBelowMin(minBand: nat) | SpecialNeither | Default
    | AgentGrantSide | AgentOwnerSide

  /** Allow reasons leave the compiler sorted and deduplicated: a set. Deny reasons are diagnostic. */
  datatype Decision = Allow(reasons: set<AllowReason>) | Deny(why: seq<DenyReason>)

  /** What a principal brings to rule evaluation; agents bring only what their grant names. */
  datatype View = View(id: string, groups: set<string>, role: Option<string>, site: Option<string>, band: Option<nat>)

  /** The grant a rule gives this view, if any. */
  function GrantOf(v: View, r: AclRule): Option<AllowReason>
    requires PayloadMatches(r)
  {
    match r.kind
    case PublicRule => Some(RebacPublic)
    case GroupRule => if r.group.value in v.groups then Some(RebacGroup(r.group.value)) else None
    case RoleRule => if v.role == r.role then Some(RebacRole(r.role.value)) else None
    case _ => None
  }

  /** The condition a rule imposes and how it came out, if it imposes one. */
  function ConditionOf(v: View, r: AclRule): Option<Result<AllowReason, DenyReason>>
    requires PayloadMatches(r)
  {
    match r.kind
    case SiteRule =>
      Some(if v.site == r.site then Ok(SiteMatch(r.site.value)) else Err(SiteMismatch(r.site.value)))
    case BandRule =>
      Some(if v.band.Some? && v.band.value >= r.minBand.value then Ok(BandMin(r.minBand.value))
           else Err(BandBelowMin(r.minBand.value)))
    case _ => None
  }

  /** The condition that special-category documents add. */
  function SpecialCondition(v: View, d: Document): Option<Result<AllowReason, DenyReason>> {
    if d.sensitivity != SpecialCategory then None
    else if HR_GROUP in v.groups then Some(Ok(SpecialHr))
    else if d.subjectId == Some(v.id) then Some(Ok(SpecialSubject))
    else Some(Err(SpecialNeither))
  }

  function Grants(v: View, rules: seq<AclRule>): set<AllowReason>
    requires forall r :: r in rules ==> PayloadMatches(r)
  {
    set r | r in rules && GrantOf(v, r).Some? :: GrantOf(v, r).value
  }

  function Conditions(v: View, rules: seq<AclRule>): set<AllowReason>
    requires forall r :: r in rules ==> PayloadMatches(r)
  {
    set r | r in rules && ConditionOf(v, r).Some? && ConditionOf(v, r).value.Ok? :: ConditionOf(v, r).value.value
  }

  /** The three lists of the scan, rule by rule. */
  function GrantIn(v: View): AclRule -> Option<AllowReason> {
    (r: AclRule) => if PayloadMatches(r) then GrantOf(v, r) else None
  }

  function MetIn(v: View): AclRule -> Option<AllowReason> {
    (r: AclRule) =>
      if PayloadMatches(r) && ConditionOf(v, r).Some? && ConditionOf(v, r).value.Ok?
      then Some(ConditionOf(v, r).value.value) else None
  }

  function FailureIn(v: View): AclRule -> Option<DenyReason> {
    (r: AclRule) =>
      if PayloadMatches(r) && ConditionOf(v, r).Some? && ConditionOf(v, r).value.Err?
      then Some(ConditionOf(v, r).value.error) else None
  }

  /** Failed conditions, in rule order. */
  function Failures(v: View, rules: seq<AclRule>): seq<DenyReason> {
    Collect(FailureIn(v), rules)
  }

  function AsList<T>(x: Option<T>): seq<T> {
    if x.Some? then [x.value] else []
  }

  lemma OneMoreRule(v: View, rules: seq<AclRule>, i: nat)
    requires i < |rules|
    ensures Collect(GrantIn(v), rules[..i + 1]) == Collect(GrantIn(v), rules[..i]) + AsList(GrantIn(v)(rules[i]))
    ensures Collect(MetIn(v), rules[..i + 1]) == Collect(MetIn(v), rules[..i]) + AsList(MetIn(v)(rules[i]))
    ensures Collect(FailureIn(v), rules[..i + 1]) == Collect(FailureIn(v), rules[..i]) + AsList(FailureIn(v)(rules[i]))
  {
    assert rules[..i + 1] == rules[..i] + [rules[i]];
    CollectSnoc(GrantIn(v), rules[..i], rules[i]);
    CollectSnoc(MetIn(v), rules[..i], rules[i]);
    CollectSnoc(FailureIn(v), rules[..i], rules[i]);
  }

  /** As sets the lists are the grants and the met conditions. */
  lemma ScannedSets(v: View, rules: seq<AclRule>)
    requires forall r :: r in rules ==> PayloadMatches(r)
    ensures Elements(Collect(GrantIn(v), rules)) == Grants(v, rules)
    ensures Elements(Collect(MetIn(v), rules)) == Conditions(v, rules)
  {
    forall x
      ensures x in Collect(GrantIn(v), rules) <==> x in Grants(v, rules)
      ensures x in Collect(MetIn(v), rules) <==> x in Conditions(v, rules)
    {
      CollectMembers(GrantIn(v), rules, x);
      CollectMembers(MetIn(v), rules, x);
    }
  }

  /** Rules 1 and 2: some grant, and every condition met. */
  function EvalRules(v: View, d: Document): Decision
    requires PayloadsMatch(d)
  {
    var grants := Grants(v, d.rules);
    var special := SpecialCondition(v, d);
    var failures := Failures(v, d.rules) + (if special.Some? && special.value.Err? then [special.value.error] else []);
    if grants != {} && failures == [] then
      Allow(grants + Conditions(v, d.rules) + (if special.Some? then {special.value.value} else {}))
    else
      Deny(failures + if grants == {} then [Default] else [])
  }

  /** The loop over the rules, pushing onto three lists and flipping a flag. */
  method ScanRules(v: View, rules: seq<AclRule>)
    returns (grants: seq<AllowReason>, conditions: seq<AllowReason>, denies: seq<DenyReason>, hold: bool)
    requires forall r :: r in rules ==> PayloadMatches(r)
    ensures grants == Collect(GrantIn(v), rules) && conditions == Collect(MetIn(v), rules)
    ensures denies == Collect(FailureIn(v), rules) && (hold <==> denies == [])
  {
    grants, conditions, denies, hold := [], [], [], true;
    for i := 0 to |rules|
      invariant grants == Collect(GrantIn(v), rules[..i])
      invariant conditions == Collect(MetIn(v), rules[..i])
      invariant denies == Collect(FailureIn(v), rules[..i])
      invariant hold <==> denies == []
    {
      var r := rules[i];
      assert r in rules && PayloadMatches(r);
      OneMoreRule(v, rules, i);
      match r.kind {
        case PublicRule =>
          grants := grants + [RebacPublic];
        case GroupRule =>
          if r.group.value in v.groups {
            grants := grants + [RebacGroup(r.group.value)];
          }
        case RoleRule =>
          if v.role == Some(r.role.value) {
            grants := grants + [RebacRole(r.role.value)];
          }
        case SiteRule =>
          if v.site == Some(r.site.value) {
            conditions := conditions + [SiteMatch(r.site.value)];
          } else {
            hold := false;
            denies := denies + [SiteMismatch(r.site.value)];
          }
        case BandRule =>
          if v.band.Some? && v.band.value >= r.minBand.value {
            conditions := conditions + [BandMin(r.minBand.value)];
          } else {
            hold := false;
            denies := denies + [BandBelowMin(r.minBand.value)];
          }
      }
    }
    assert rules[..|rules|] == rules;
  }

  method EvaluateRules(v: View, d: Document) returns (decision: Decision)
    requires PayloadsMatch(d)
    ensures decision == EvalRules(v, d)
  {
    var grants, conditions, denies, hold := ScanRules(v, d.rules);
    ScannedSets(v, d.rules);
    if d.sensitivity == SpecialCategory {
      if HR_GROUP in v.groups {
        ElementsSnoc(conditions, SpecialHr);
        conditions := conditions + [SpecialHr];
      } else if d.subjectId == Some(v.id) {
        ElementsSnoc(conditions, SpecialSubject);
        conditions := conditions + [SpecialSubject];
      } else {
        hold := false;
        denies := denies + [SpecialNeither];
      }
    }
    assert grants != [] ==> grants[0] in Elements(grants);
    if grants != [] && hold {
      var all := grants + conditions;
      assert Elements(all) == Elements(grants) + Elements(conditions);
      decision := Allow(set x | x in all);
    } else {
      if grants == [] {
        denies := denies + [Default];
      }
      decision := Deny(denies);
    }
  }

  function PersonView(c: Company, p: Person): View {
    View(p.id, GroupsOf(c, p.id), Some(p.role), Some(p.site), Some(p.band))
  }

  function AgentView(a: Agent): View {
    View(a.id, (set g | g in a.groups), None, a.site, a.band)
  }

  function DecidePerson(c: Company, p: Person, d: Document): Decision
    requires PayloadsMatch(d)
  {
    if d.sensitivity == Public then Allow({PublicSensitivity})
    else
      var ruled := EvalRules(PersonView(c, p), d);
      if d.docType == HrRecord && d.subjectId == Some(p.id) then
        Allow((if ruled.Allow? then ruled.reasons else {}) + {SubjectSelf})
      else ruled
  }

  function DecideAgent(c: Company, a: Agent, d: Document): Decision
    requires PayloadsMatch(d) && FindPerson(c.people, a.owner).Some?
  {
    if d.sensitivity == Public then Allow({PublicSensitivity})
    else
      var grantSide := EvalRules(AgentView(a), d);
      var ownerSide := DecidePerson(c, FindPerson(c.people, a.owner).value, d);
      if grantSide.Allow? && ownerSide.Allow? then Allow(grantSide.reasons + {AgentIntersectOwner})
      else
        Deny((if grantSide.Deny? then [AgentGrantSide] + grantSide.why else [])
             + (if ownerSide.Deny? then [AgentOwnerSide] + ownerSide.why else []))
  }

  /** Every agent's owner exists: what validation leaves to rely on. */
  ghost predicate OwnersExist(c: Company) {
    forall a :: a in c.agents ==> FindPerson(c.people, a.owner).Some?
  }

  /** The single entry point. */
  function Decide(c: Company, principal: string, d: Document): Decision
    requires PayloadsMatch(d) && OwnersExist(c)
  {
    if FindPerson(c.people, principal).Some? then DecidePerson(c, FindPerson(c.people, principal).value, d)
    else if FindAgent(c.agents, principal).Some? then DecideAgent(c, FindAgent(c.agents, principal).value, d)
    else Deny([UnknownPrincipal])
  }

  lemma ValidOwnersExist(c: Company)
    requires ValidCompany(c)
    ensures OwnersExist(c)
  {
    forall a | a in c.agents
      ensures FindPerson(c.people, a.owner).Some?
    {
      assert ValidAgent(c, a);
      var i :| 0 <= i < |c.people| && PersonIds(c)[i] == a.owner;
      assert c.people[i] in c.people;
    }
  }

  /** A decision never comes without reasons. */
  lemma ReasonsAreNeverEmpty(c: Company, principal: string, d: Document)
    requires PayloadsMatch(d) && OwnersExist(c)
    ensures match Decide(c, principal, d)
            case Allow(reasons) => reasons != {}
            case Deny(why) => why != []
  {
    if FindPerson(c.people, principal).None? && FindAgent(c.agents, principal).Some? {
      var a := FindAgent(c.agents, principal).value;
      assert AgentIntersectOwner in {AgentIntersectOwner};
    }
    assert PublicSensitivity in {PublicSensitivity} && SubjectSelf in {SubjectSelf};
  }
}
