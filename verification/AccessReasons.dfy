/** What the two implementations give as reasons, read off a document's rules and the principal's own attributes. */
module AccessReasons {
  import opened Basics
  import opened AccessModel
  import C = CompilerSemantics
  import O = OracleSemantics

  // -------------------------------------------------------------------------
  // The compiler
  // -------------------------------------------------------------------------

  /** This rule, met by somebody with these attributes, gives this reason. */
  predicate Gives(groups: set<string>, role: Option<string>, site: Option<string>, band: Option<nat>, r: AclRule,
                  x: C.AllowReason)
  {
    match r.kind
    case PublicRule => x == C.RebacPublic
    case GroupRule => r.group.Some? && r.group.value in groups && x == C.RebacGroup(r.group.value)
    case RoleRule => r.role.Some? && role == r.role && x == C.RebacRole(r.role.value)
    case SiteRule => r.site.Some? && site == r.site && x == C.SiteMatch(r.site.value)
    case BandRule => r.minBand.Some? && band.Some? && band.value >= r.minBand.value && x == C.BandMin(r.minBand.value)
    case UnknownRule(_) => false
  }

  /** The special-category gate gives this reason. */
  predicate GateGives(id: string, groups: set<string>, d: Document, x: C.AllowReason) {
    && d.sensitivity == SpecialCategory
    && if "grp_hr" in groups then x == C.SpecialHr else d.subjectId == Some(id) && x == C.SpecialSubject
  }

  /** The groups that list a person. */
  function MemberOf(c: Company, person: string): set<string> {
    set g | g in c.groups && person in g.members :: g.id
  }

  ghost predicate PersonReason(c: Company, p: Person, d: Document, x: C.AllowReason) {
    || (exists r :: r in d.rules && Gives(MemberOf(c, p.id), Some(p.role), Some(p.site), Some(p.band), r, x))
    || GateGives(p.id, MemberOf(c, p.id), d, x)
  }

  ghost predicate AgentReason(a: Agent, d: Document, x: C.AllowReason) {
    var granted := set g | g in a.groups;
    || (exists r :: r in d.rules && Gives(granted, None, a.site, a.band, r, x))
    || GateGives(a.id, granted, d, x)
  }

  lemma ViewReasons(v: C.View, d: Document, x: C.AllowReason)
    requires PayloadsMatch(d) && C.EvalRules(v, d).Allow?
    ensures x in C.EvalRules(v, d).reasons <==>
              (exists r :: r in d.rules && Gives(v.groups, v.role, v.site, v.band, r, x))
              || GateGives(v.id, v.groups, d, x)
  {
    forall r | r in d.rules
      ensures Gives(v.groups, v.role, v.site, v.band, r, x) <==>
                C.GrantOf(v, r) == Some(x) || C.ConditionOf(v, r) == Some(Ok(x))
    {
      assert PayloadMatches(r);
    }
  }

  /** A person's rules allow: why, in the compiler's own words, and no more. */
  lemma PersonReasonsExactly(c: Company, p: Person, d: Document)
    requires PayloadsMatch(d) && C.DecidePerson(c, p, d).Allow?
    ensures d.sensitivity == Public ==> C.DecidePerson(c, p, d).reasons == {C.PublicSensitivity}
    ensures d.sensitivity != Public ==>
              var own := d.docType == HrRecord && d.subjectId == Some(p.id);
              forall x :: x in C.DecidePerson(c, p, d).reasons <==>
                (own && x == C.SubjectSelf)
                || (C.EvalRules(C.PersonView(c, p), d).Allow? && PersonReason(c, p, d, x))
  {
    var v := C.PersonView(c, p);
    if d.sensitivity != Public && C.EvalRules(v, d).Allow? {
      forall x
        ensures x in C.EvalRules(v, d).reasons <==> PersonReason(c, p, d, x)
      {
        ViewReasons(v, d, x);
      }
    }
  }

  /**
   * The compiler's word on a person: public documents, their own HR record, or a rule that opens the document with
   * every constraint met and, for special categories, HR membership or being the subject.
   */
  lemma PersonAllowedExactly(c: Company, p: Person, d: Document)
    requires PayloadsMatch(d)
    ensures C.DecidePerson(c, p, d).Allow? <==>
              || d.sensitivity == Public
              || (d.docType == HrRecord && d.subjectId == Some(p.id))
              || ((exists r :: r in d.rules && OpensTo(MemberOf(c, p.id), p.role, r))
                  && (forall r :: r in d.rules && Constrains(r) ==> MetBy(Some(p.site), Some(p.band), r))
                  && (d.sensitivity == SpecialCategory ==>
                        "grp_hr" in MemberOf(c, p.id) || d.subjectId == Some(p.id)))
  {
    var v := C.PersonView(c, p);
    forall r | r in d.rules
      ensures C.GrantOf(v, r).Some? <==> OpensTo(v.groups, p.role, r)
      ensures C.FailureIn(v)(r).Some? <==> Constrains(r) && !MetBy(Some(p.site), Some(p.band), r)
    {
      assert PayloadMatches(r);
    }
    if r :| r in d.rules && C.GrantOf(v, r).Some? {
      assert C.GrantOf(v, r).value in C.Grants(v, d.rules);
    }
    NothingFails(v, d.rules);
  }

  lemma NothingFails(v: C.View, rules: seq<AclRule>)
    ensures C.Failures(v, rules) == [] <==> forall r :: r in rules ==> C.FailureIn(v)(r).None?
  {
    NonEmptyHasFirst(C.Failures(v, rules));
    if C.Failures(v, rules) != [] {
      CollectMembers(C.FailureIn(v), rules, C.Failures(v, rules)[0]);
    }
    if r :| r in rules && C.FailureIn(v)(r).Some? {
      CollectMembers(C.FailureIn(v), rules, C.FailureIn(v)(r).value);
    }
  }

  /** An agent's grant allows: its own reasons and the intersection with its owner, and never the owner's reasons. */
  lemma AgentReasonsExactly(c: Company, a: Agent, d: Document)
    requires PayloadsMatch(d) && FindPerson(c.people, a.owner).Some? && C.DecideAgent(c, a, d).Allow?
    ensures d.sensitivity == Public ==> C.DecideAgent(c, a, d).reasons == {C.PublicSensitivity}
    ensures d.sensitivity != Public ==>
              forall x :: x in C.DecideAgent(c, a, d).reasons <==> x == C.AgentIntersectOwner || AgentReason(a, d, x)
  {
    var v := C.AgentView(a);
    if d.sensitivity != Public {
      forall x
        ensures x in C.EvalRules(v, d).reasons <==> AgentReason(a, d, x)
      {
        ViewReasons(v, d, x);
      }
    }
  }

  /** A denied agent is told which side denied: its own grant, its owner, or both. */
  lemma AgentDenialsNameTheSide(c: Company, a: Agent, d: Document)
    requires PayloadsMatch(d) && FindPerson(c.people, a.owner).Some? && C.DecideAgent(c, a, d).Deny?
    ensures C.AgentGrantSide in C.DecideAgent(c, a, d).why <==> C.EvalRules(C.AgentView(a), d).Deny?
    ensures C.AgentOwnerSide in C.DecideAgent(c, a, d).why <==>
              C.DecidePerson(c, FindPerson(c.people, a.owner).value, d).Deny?
  {
    NoSideInRules(C.AgentView(a), d);
    NoSideInRules(C.PersonView(c, FindPerson(c.people, a.owner).value), d);
  }

  lemma NoSideInRules(v: C.View, d: Document)
    requires PayloadsMatch(d)
    ensures C.EvalRules(v, d).Deny? ==>
              C.AgentGrantSide !in C.EvalRules(v, d).why && C.AgentOwnerSide !in C.EvalRules(v, d).why
  {
    CollectMembers(C.FailureIn(v), d.rules, C.AgentGrantSide);
    CollectMembers(C.FailureIn(v), d.rules, C.AgentOwnerSide);
  }

  // -------------------------------------------------------------------------
  // The oracle
  // -------------------------------------------------------------------------

  /** The rule opens the document to a person. */
  predicate OpensTo(groups: set<string>, role: string, r: AclRule) {
    || r.kind.PublicRule? || (r.kind.GroupRule? && r.group.Some? && r.group.value in groups)
    || (r.kind.RoleRule? && r.role == Some(role))
  }

  /** The rule is a constraint that somebody with this site and band meets. */
  predicate MetBy(site: Option<string>, band: Option<nat>, r: AclRule) {
    || (r.kind.SiteRule? && site.Some? && site == r.site)
    || (r.kind.BandRule? && band.Some? && r.minBand.Some? && band.value >= r.minBand.value)
  }

  predicate Constrains(r: AclRule) {
    r.kind.SiteRule? || r.kind.BandRule? || r.kind.UnknownRule?
  }

  /**
   * The oracle's word on a person who is not the subject: allowed exactly when some rule opens the document, every
   * constraint is met, and a special-category document has an HR reader; the reasons of an allowed verdict are the
   * ids of the rules that open it and of the constraints, and the HR reason.
   */
  lemma OraclePersonExactly(c: Company, p: Person, d: Document)
    requires d.subjectId != Some(p.id)
    ensures var v, groups := O.PersonVerdict(c, p, d), MemberOf(c, p.id);
            && (v.allowed <==>
                  && (exists r :: r in d.rules && OpensTo(groups, p.role, r))
                  && (forall r :: r in d.rules && Constrains(r) ==> MetBy(Some(p.site), Some(p.band), r))
                  && (d.sensitivity == SpecialCategory ==> "grp_hr" in groups))
            && (v.allowed ==> forall x :: x in v.reasons <==>
                  || (d.sensitivity == SpecialCategory && x == O.SpecialHr)
                  || exists r :: r in d.rules && x == O.RuleId(r.id)
                                 && (OpensTo(groups, p.role, r) || MetBy(Some(p.site), Some(p.band), r)))
  {
    var groups := GroupsOf(c, p.id);
    var f := (r: AclRule) => O.PersonOutcome(groups, p, r);
    forall r
      ensures f(r).Matched? <==> OpensTo(groups, p.role, r)
      ensures f(r).Passed? <==> MetBy(Some(p.site), Some(p.band), r)
      ensures f(r).Failed? <==> Constrains(r) && !MetBy(Some(p.site), Some(p.band), r)
    {
    }
    Concluded(groups, d, f);
  }

  /** The oracle's word on an agent's own grant, in the same terms. */
  lemma OracleGrantExactly(a: Agent, d: Document)
    ensures var v, granted := O.AgentGrantVerdict(a, d), set g | g in a.groups;
            && (v.allowed <==>
                  && (exists r :: r in d.rules && !r.kind.RoleRule? && OpensTo(granted, "", r))
                  && (forall r :: r in d.rules && Constrains(r) ==> MetBy(a.site, a.band, r))
                  && (d.sensitivity == SpecialCategory ==> "grp_hr" in granted))
            && (v.allowed ==> forall x :: x in v.reasons <==>
                  || (d.sensitivity == SpecialCategory && x == O.SpecialHr)
                  || exists r :: r in d.rules && x == O.RuleId(r.id)
                                 && ((!r.kind.RoleRule? && OpensTo(granted, "", r)) || MetBy(a.site, a.band, r)))
  {
    var granted := set g | g in a.groups;
    var f := (r: AclRule) => O.AgentOutcome(granted, a, r);
    forall r
      ensures f(r).Matched? <==> !r.kind.RoleRule? && OpensTo(granted, "", r)
      ensures f(r).Passed? <==> MetBy(a.site, a.band, r)
      ensures f(r).Failed? <==> Constrains(r) && !MetBy(a.site, a.band, r)
    {
    }
    Concluded(granted, d, f);
  }

  lemma Concluded(groups: set<string>, d: Document, f: AclRule -> O.Outcome)
    ensures var v := O.Conclude(groups, d, Collect(O.MatchedId(f), d.rules), Collect(O.PassedId(f), d.rules),
                                Collect(O.FailedId(f), d.rules));
            && (v.allowed <==>
                  && (exists r :: r in d.rules && f(r).Matched?) && (forall r :: r in d.rules ==> !f(r).Failed?)
                  && (d.sensitivity == SpecialCategory ==> "grp_hr" in groups))
            && (v.allowed ==> forall x :: x in v.reasons <==>
                  || (d.sensitivity == SpecialCategory && x == O.SpecialHr)
                  || exists r :: r in d.rules && x == O.RuleId(r.id) && (f(r).Matched? || f(r).Passed?))
  {
    var matched, passed := Collect(O.MatchedId(f), d.rules), Collect(O.PassedId(f), d.rules);
    var failed := Collect(O.FailedId(f), d.rules);
    forall x
      ensures x in matched <==> exists r :: r in d.rules && f(r).Matched? && x == O.RuleId(r.id)
      ensures x in passed <==> exists r :: r in d.rules && f(r).Passed? && x == O.RuleId(r.id)
      ensures x in failed <==> exists r :: r in d.rules && f(r).Failed? && x == f(r).reason
    {
      CollectMembers(O.MatchedId(f), d.rules, x);
      CollectMembers(O.PassedId(f), d.rules, x);
      CollectMembers(O.FailedId(f), d.rules, x);
    }
    NonEmptyHasFirst(matched);
    NonEmptyHasFirst(failed);
    if r :| r in d.rules && f(r).Matched? {
      assert O.RuleId(r.id) in matched;
    }
    if r :| r in d.rules && f(r).Failed? {
      assert f(r).reason in failed;
    }
  }

  lemma NonEmptyHasFirst<T>(s: seq<T>)
    ensures s != [] ==> s[0] in s
  {
  }

  /** An agent is allowed exactly when its own grant and its owner both are, and gives the reasons of both. */
  lemma OracleAgentExactly(c: Company, principal: string, d: Document)
    requires FindPerson(c.people, principal).None? && FindAgent(c.agents, principal).Some?
    requires FindPerson(c.people, FindAgent(c.agents, principal).value.owner).Some?
    ensures O.Resolve(c, principal, d).Ok?
    ensures var a := FindAgent(c.agents, principal).value;
            var own, owner := O.AgentGrantVerdict(a, d), O.PersonVerdict(c, FindPerson(c.people, a.owner).value, d);
            var v := O.Resolve(c, principal, d).value;
            && (v.allowed <==> own.allowed && owner.allowed)
            && (v.allowed ==> forall x :: x in v.reasons <==>
                  x == O.AgentIntersect || x in own.reasons || x in owner.reasons)
  {
  }
}
