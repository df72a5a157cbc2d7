/** The compiler and the oracle against each other, for every company and every document. */
module Agreement {
  import opened Basics
  import opened AccessModel
  import C = CompilerSemantics
  import O = OracleSemantics

  predicate HasPublicRule(d: Document) {
    exists r :: r in d.rules && r.kind.PublicRule?
  }

  predicate HasConstraint(d: Document) {
    exists r :: r in d.rules && (r.kind.SiteRule? || r.kind.BandRule?)
  }

  /** A constraint that some valid person fails: any site, and any band above the lowest. */
  predicate HasSelectiveConstraint(d: Document) {
    exists r :: r in d.rules && (r.kind.SiteRule? || (r.kind.BandRule? && r.minBand != Some(1)))
  }

  /**
   * What a document's author can check alone. A public document is opened to everyone by its rules as
   * well as by its class; any other document with a subject is an HR record, or open to every person.
   */
  predicate Coherent(d: Document) {
    if d.sensitivity == Public then HasPublicRule(d) && !HasConstraint(d)
    else d.subjectId.None? || d.docType == HrRecord || (HasPublicRule(d) && !HasSelectiveConstraint(d))
  }

  ghost predicate SameVerdict(c: Company, principal: string, d: Document)
    requires PayloadsMatch(d) && C.OwnersExist(c)
  {
    && O.Resolve(c, principal, d).Ok?
    && (C.Decide(c, principal, d).Allow? <==> O.Resolve(c, principal, d).value.allowed)
  }

  /** The two implementations give one verdict on `d` to every principal of every company it is valid in. */
  ghost predicate AgreeEverywhere(d: Document)
    requires PayloadsMatch(d)
  {
    forall c, principal :: ValidCompany(c) && ValidDocument(c, d) && Known(c, principal) ==>
      C.OwnersExist(c) && SameVerdict(c, principal, d)
  }

  // -------------------------------------------------------------------------
  // Both sides reduced to the same three questions about the rules
  // -------------------------------------------------------------------------

  ghost predicate SomeGrant(v: C.View, d: Document)
    requires PayloadsMatch(d)
  {
    exists r :: r in d.rules && C.GrantOf(v, r).Some?
  }

  ghost predicate SomeFailure(v: C.View, rules: seq<AclRule>)
    requires forall r :: r in rules ==> PayloadMatches(r)
  {
    exists r :: r in rules && C.ConditionOf(v, r).Some? && C.ConditionOf(v, r).value.Err?
  }

  lemma {:induction false} CollectNonempty<T, U>(f: T -> Option<U>, s: seq<T>)
    ensures Collect(f, s) != [] <==> exists x :: x in s && f(x).Some?
  {
    if s != [] {
      assert s == s[..|s| - 1] + [s[|s| - 1]];
      CollectNonempty(f, s[..|s| - 1]);
    }
  }

  lemma FailuresNonempty(v: C.View, rules: seq<AclRule>)
    requires forall r :: r in rules ==> PayloadMatches(r)
    ensures C.Failures(v, rules) != [] <==> SomeFailure(v, rules)
  {
    CollectNonempty(C.FailureIn(v), rules);
  }

  lemma CompilerAllows(v: C.View, d: Document)
    requires PayloadsMatch(d)
    ensures C.EvalRules(v, d).Allow? <==>
              (SomeGrant(v, d) && !SomeFailure(v, d.rules)
               && (d.sensitivity == SpecialCategory ==> HR_GROUP in v.groups || d.subjectId == Some(v.id)))
  {
    FailuresNonempty(v, d.rules);
    if SomeGrant(v, d) {
      var r :| r in d.rules && C.GrantOf(v, r).Some?;
      assert C.GrantOf(v, r).value in C.Grants(v, d.rules);
    }
  }

  lemma OracleAllowsPerson(c: Company, p: Person, d: Document)
    requires PayloadsMatch(d)
    ensures var v := C.PersonView(c, p);
            O.PersonVerdict(c, p, d).allowed <==>
              (d.subjectId == Some(p.id)
               || (SomeGrant(v, d) && !SomeFailure(v, d.rules)
                   && (d.sensitivity == SpecialCategory ==> HR_GROUP in v.groups)))
  {
    var v := C.PersonView(c, p);
    var f := (r: AclRule) => O.PersonOutcome(v.groups, p, r);
    CollectNonempty(O.MatchedId(f), d.rules);
    CollectNonempty(O.FailedId(f), d.rules);
    forall r | r in d.rules
      ensures O.MatchedId(f)(r).Some? <==> C.GrantOf(v, r).Some?
      ensures O.FailedId(f)(r).Some? <==> C.ConditionOf(v, r).Some? && C.ConditionOf(v, r).value.Err?
    {
      assert PayloadMatches(r);
    }
  }

  lemma OracleAllowsAgentGrant(a: Agent, d: Document)
    requires PayloadsMatch(d)
    ensures var v := C.AgentView(a);
            O.AgentGrantVerdict(a, d).allowed <==>
              (SomeGrant(v, d) && !SomeFailure(v, d.rules)
               && (d.sensitivity == SpecialCategory ==> HR_GROUP in v.groups))
  {
    var v := C.AgentView(a);
    var f := (r: AclRule) => O.AgentOutcome(v.groups, a, r);
    CollectNonempty(O.MatchedId(f), d.rules);
    CollectNonempty(O.FailedId(f), d.rules);
    forall r | r in d.rules
      ensures O.MatchedId(f)(r).Some? <==> C.GrantOf(v, r).Some?
      ensures O.FailedId(f)(r).Some? <==> C.ConditionOf(v, r).Some? && C.ConditionOf(v, r).value.Err?
    {
      assert PayloadMatches(r);
    }
  }

  /** A rule of unknown kind closes a document to everybody but its own subject. */
  lemma UnknownKindsFailClosed(c: Company, principal: string, d: Document, r: AclRule)
    requires r in d.rules && r.kind.UnknownRule? && O.Resolve(c, principal, d).Ok?
    ensures O.Resolve(c, principal, d).value.allowed <==>
              FindPerson(c.people, principal).Some? && d.subjectId == Some(principal)
  {
    var person, agent := FindPerson(c.people, principal), FindAgent(c.agents, principal);
    if person.Some? {
      var f := (x: AclRule) => O.PersonOutcome(GroupsOf(c, principal), person.value, x);
      CollectNonempty(O.FailedId(f), d.rules);
      assert O.FailedId(f)(r).Some?;
    } else {
      var granted := set g | g in agent.value.groups;
      var f := (x: AclRule) => O.AgentOutcome(granted, agent.value, x);
      CollectNonempty(O.FailedId(f), d.rules);
      assert O.FailedId(f)(r).Some?;
    }
  }

  // -------------------------------------------------------------------------
  // Coherent documents: agreement
  // -------------------------------------------------------------------------

  /** No person of a valid band fails a document without selective constraints. */
  lemma EveryonePasses(v: C.View, d: Document)
    requires PayloadsMatch(d) && !HasSelectiveConstraint(d) && v.band.Some? && v.band.value >= 1
    ensures !SomeFailure(v, d.rules)
  {
    forall r | r in d.rules
      ensures C.ConditionOf(v, r).Some? ==> C.ConditionOf(v, r).value.Ok?
    {
      assert PayloadMatches(r);
    }
  }

  lemma PersonsAgree(c: Company, p: Person, d: Document)
    requires ValidCompany(c) && ValidDocument(c, d) && Coherent(d) && p in c.people
    ensures C.DecidePerson(c, p, d).Allow? <==> O.PersonVerdict(c, p, d).allowed
  {
    var v := C.PersonView(c, p);
    CompilerAllows(v, d);
    OracleAllowsPerson(c, p, d);
    if HasPublicRule(d) {
      var r :| r in d.rules && r.kind.PublicRule?;
      assert C.GrantOf(v, r).Some?;
    }
    if !HasSelectiveConstraint(d) {
      EveryonePasses(v, d);
    }
  }

  lemma AgentGrantsAgree(c: Company, a: Agent, d: Document)
    requires ValidCompany(c) && ValidDocument(c, d) && Coherent(d) && a in c.agents
    ensures d.sensitivity != Public ==> (C.EvalRules(C.AgentView(a), d).Allow? <==> O.AgentGrantVerdict(a, d).allowed)
    ensures d.sensitivity == Public ==> O.AgentGrantVerdict(a, d).allowed
  {
    var v := C.AgentView(a);
    CompilerAllows(v, d);
    OracleAllowsAgentGrant(a, d);
    assert ValidAgent(c, a);
    if HasPublicRule(d) {
      var r :| r in d.rules && r.kind.PublicRule?;
      assert C.GrantOf(v, r).Some?;
    }
  }

  /** On a coherent document the two implementations agree about every known principal. */
  lemma CoherentAgree(c: Company, principal: string, d: Document)
    requires ValidCompany(c) && ValidDocument(c, d) && Coherent(d) && Known(c, principal)
    ensures C.OwnersExist(c) && SameVerdict(c, principal, d)
  {
    C.ValidOwnersExist(c);
    if FindPerson(c.people, principal).Some? {
      PersonsAgree(c, FindPerson(c.people, principal).value, d);
    } else {
      var a := FindAgent(c.agents, principal).value;
      AgentGrantsAgree(c, a, d);
      PersonsAgree(c, FindPerson(c.people, a.owner).value, d);
    }
  }

  // -------------------------------------------------------------------------
  // Incoherent documents: a valid company where the two disagree
  // -------------------------------------------------------------------------

  function GroupRef(r: AclRule): Option<string> {
    r.group
  }

  function SiteRef(r: AclRule): Option<string> {
    r.site
  }

  function RoleRef(r: AclRule): Option<string> {
    r.role
  }

  /** A nonempty string that is not among the given ones. */
  function Fresh(taken: seq<string>): (s: string)
    ensures s != "" && s !in taken
    ensures forall t :: t in taken ==> |t| < |s|
  {
    if taken == [] then "x"
    else
      assert taken == taken[..|taken| - 1] + [taken[|taken| - 1]];
      Fresh(taken[..|taken| - 1]) + taken[|taken| - 1]
  }

  /** One person of the lowest band at a site no rule names, in no group, with a role no rule names. */
  function LonePerson(d: Document, id: string): Person {
    Person(id, Fresh(Collect(RoleRef, d.rules)), Fresh(Collect(SiteRef, d.rules)), 1)
  }

  function EmptyGroup(id: string): Group {
    Group(id, [])
  }

  /** The smallest company in which `d` is valid: that person, and an agent of theirs with an empty grant. */
  function Witness(d: Document, person: string): Company {
    var lone := LonePerson(d, person);
    Company(Dedupe(Collect(SiteRef, d.rules)) + [lone.site], [lone],
            Map(EmptyGroup, Dedupe(Collect(GroupRef, d.rules))),
            [Agent(Fresh([person]), [], None, None, person)])
  }

  lemma WitnessCompanyIsValid(d: Document, person: string)
    requires PayloadsMatch(d) && person != ""
    ensures ValidCompany(Witness(d, person))
  {
    var c := Witness(d, person);
    var sites, groups := Collect(SiteRef, d.rules), Collect(GroupRef, d.rules);
    NoEmptyReference(d);
    assert GroupIds(c) == Dedupe(groups);
    assert PersonIds(c) == [person] && AgentIds(c) == [Fresh([person])];
    assert person in PersonIds(c);
    assert ValidAgent(c, c.agents[0]);
  }

  lemma NoEmptyReference(d: Document)
    requires PayloadsMatch(d)
    ensures "" !in Collect(SiteRef, d.rules) && "" !in Collect(GroupRef, d.rules)
  {
    CollectMembers(SiteRef, d.rules, "");
    CollectMembers(GroupRef, d.rules, "");
    forall r | r in d.rules
      ensures r.site != Some("") && r.group != Some("")
    {
      assert PayloadMatches(r);
    }
  }

  lemma WitnessDocumentIsValid(d: Document, person: string)
    requires PayloadsMatch(d) && (d.subjectId.Some? ==> d.subjectId.value == person)
    ensures ValidDocument(Witness(d, person), d)
  {
    var c := Witness(d, person);
    assert GroupIds(c) == Dedupe(Collect(GroupRef, d.rules));
    assert PersonIds(c) == [person];
    forall r | r in d.rules
      ensures r.group.Some? ==> r.group.value in GroupIds(c)
      ensures r.site.Some? ==> r.site.value in c.sites
    {
      if r.site.Some? {
        CollectMembers(SiteRef, d.rules, r.site.value);
      }
      if r.group.Some? {
        CollectMembers(GroupRef, d.rules, r.group.value);
      }
    }
  }

  lemma WitnessIsValid(d: Document, person: string)
    requires PayloadsMatch(d) && person != "" && (d.subjectId.Some? ==> d.subjectId.value == person)
    ensures ValidCompany(Witness(d, person)) && ValidDocument(Witness(d, person), d)
    ensures C.OwnersExist(Witness(d, person))
  {
    WitnessCompanyIsValid(d, person);
    WitnessDocumentIsValid(d, person);
    C.ValidOwnersExist(Witness(d, person));
  }

  /** The witness agent's empty grant satisfies no condition and matches nothing but a public rule. */
  lemma EmptyGrantFails(a: Agent, d: Document)
    requires PayloadsMatch(d) && a.groups == [] && a.site.None? && a.band.None?
    requires HasConstraint(d) || !HasPublicRule(d)
    ensures SomeFailure(C.AgentView(a), d.rules) || !SomeGrant(C.AgentView(a), d)
  {
    var v := C.AgentView(a);
    if HasConstraint(d) {
      var r :| r in d.rules && (r.kind.SiteRule? || r.kind.BandRule?);
      assert PayloadMatches(r);
      assert C.ConditionOf(v, r).Some? && C.ConditionOf(v, r).value.Err?;
    } else {
      forall r | r in d.rules
        ensures C.GrantOf(v, r).None?
      {
        assert PayloadMatches(r);
      }
    }
  }

  /** The witness person fails every selective constraint and matches nothing but a public rule. */
  lemma LonePersonFails(d: Document, person: string)
    requires PayloadsMatch(d)
    requires HasSelectiveConstraint(d) || !HasPublicRule(d)
    ensures var v := C.PersonView(Witness(d, person), LonePerson(d, person));
            SomeFailure(v, d.rules) || !SomeGrant(v, d)
  {
    var v := C.PersonView(Witness(d, person), LonePerson(d, person));
    assert v.groups == {};
    if HasSelectiveConstraint(d) {
      var r :| r in d.rules && (r.kind.SiteRule? || (r.kind.BandRule? && r.minBand != Some(1)));
      assert PayloadMatches(r);
      if r.kind.SiteRule? {
        CollectMembers(SiteRef, d.rules, r.site.value);
      }
      assert C.ConditionOf(v, r).Some? && C.ConditionOf(v, r).value.Err?;
    } else {
      forall r | r in d.rules
        ensures C.GrantOf(v, r).None?
      {
        assert PayloadMatches(r);
        if r.kind.RoleRule? {
          CollectMembers(RoleRef, d.rules, r.role.value);
        }
      }
    }
  }

  /** A public document its rules do not open to everyone: the empty-grant agent is the disagreement. */
  lemma IncoherentPublic(d: Document)
    requires PayloadsMatch(d) && d.sensitivity == Public && !Coherent(d)
    ensures !AgreeEverywhere(d)
  {
    var person := d.subjectId.GetOr("x");
    var c := Witness(d, person);
    WitnessIsValid(d, person);
    var a := c.agents[0];
    assert FindAgent(c.agents, a.id) == Some(a) && FindPerson(c.people, a.id).None?;
    OracleAllowsAgentGrant(a, d);
    EmptyGrantFails(a, d);
    assert !SameVerdict(c, a.id, d);
  }

  /** A document about a person, no HR record and not open to everyone: its lone subject is the disagreement. */
  lemma IncoherentSubject(d: Document)
    requires PayloadsMatch(d) && d.sensitivity != Public && !Coherent(d)
    ensures !AgreeEverywhere(d)
  {
    var person := d.subjectId.value;
    var c := Witness(d, person);
    WitnessIsValid(d, person);
    var lone := LonePerson(d, person);
    assert FindPerson(c.people, person) == Some(lone);
    CompilerAllows(C.PersonView(c, lone), d);
    LonePersonFails(d, person);
    assert !SameVerdict(c, person, d);
  }

  /** The exact condition: agreement everywhere holds of the coherent documents and of no other. */
  lemma AgreementIsCoherence(d: Document)
    requires PayloadsMatch(d)
    ensures AgreeEverywhere(d) <==> Coherent(d)
  {
    if Coherent(d) {
      forall c, principal | ValidCompany(c) && ValidDocument(c, d) && Known(c, principal)
        ensures C.OwnersExist(c) && SameVerdict(c, principal, d)
      {
        CoherentAgree(c, principal, d);
      }
    } else if d.sensitivity == Public {
      IncoherentPublic(d);
    } else {
      IncoherentSubject(d);
    }
  }

  /** What the fixtures are generated under: public documents are open to all, and subjects stand on HR records. */
  predicate AsGenerated(d: Document) {
    && (d.sensitivity == Public ==> HasPublicRule(d) && !HasConstraint(d))
    && (d.subjectId.Some? ==> d.docType == HrRecord)
  }

  /**
   * On generated documents the two implementations give every known principal of a valid company one verdict;
   * an unknown one is denied by the compiler and refused by the oracle; and no decision comes without reasons.
   */
  lemma GeneratedDocumentsAgree(c: Company, principal: string, d: Document)
    requires ValidCompany(c) && ValidDocument(c, d) && AsGenerated(d)
    ensures C.OwnersExist(c)
    ensures Known(c, principal) ==> SameVerdict(c, principal, d)
    ensures !Known(c, principal) ==>
              C.Decide(c, principal, d) == C.Deny([C.UnknownPrincipal]) && O.Resolve(c, principal, d).Err?
    ensures match C.Decide(c, principal, d)
            case Allow(reasons) => reasons != {}
            case Deny(why) => why != []
  {
    C.ValidOwnersExist(c);
    C.ReasonsAreNeverEmpty(c, principal, d);
    if Known(c, principal) {
      CoherentAgree(c, principal, d);
    }
  }
}
