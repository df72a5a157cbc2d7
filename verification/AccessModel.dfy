/** People, groups, agents and documents, as far as an access decision looks at them. */
module AccessModel {
  import opened Basics

  datatype Sensitivity = Public | Internal | Confidential | Restricted | SpecialCategory

  datatype DocType =
    | Sop | QualityRecord | HrRecord | BoardMinutes | CustomerAccount | WikiPage | MailThread | General

  /** The rule kinds; any other name is unknown, which only the oracle reads at all. */
  datatype RuleKind = PublicRule | GroupRule | RoleRule | SiteRule | BandRule | UnknownRule(name: string)

  /** One rule of a document; `kind` says which payload is set. */
  datatype AclRule = AclRule(id: string, kind: RuleKind, group: Option<string>, role: Option<string>,
                             site: Option<string>, minBand: Option<nat>)

  datatype Document = Document(id: string, sensitivity: Sensitivity, rules: seq<AclRule>, docType: DocType,
                               subjectId: Option<string>)

  datatype Person = Person(id: string, role: string, site: string, band: nat)

  datatype Group = Group(id: string, members: seq<string>)

  datatype Agent = Agent(id: string, groups: seq<string>, site: Option<string>, band: Option<nat>, owner: string)

  datatype Company = Company(sites: seq<string>, people: seq<Person>, groups: seq<Group>, agents: seq<Agent>)

  const HR_GROUP := "grp_hr"

  // -------------------------------------------------------------------------
  // Structural validation: what refuses a compile
  // -------------------------------------------------------------------------

  function PersonIds(c: Company): seq<string> {
    Map((p: Person) => p.id, c.people)
  }

  function GroupIds(c: Company): seq<string> {
    Map((g: Group) => g.id, c.groups)
  }

  function AgentIds(c: Company): seq<string> {
    Map((a: Agent) => a.id, c.agents)
  }

  ghost predicate ValidCompany(c: Company) {
    && "" !in c.sites && Distinct(c.sites)
    && "" !in PersonIds(c) && Distinct(PersonIds(c))
    && (forall p :: p in c.people ==> p.role != "" && 1 <= p.band <= 5 && p.site in c.sites)
    && "" !in GroupIds(c) && Distinct(GroupIds(c))
    && (forall g, m :: g in c.groups && m in g.members ==> m in PersonIds(c))
    && "" !in AgentIds(c) && Distinct(AgentIds(c))
    && (forall a :: a in c.agents ==> ValidAgent(c, a))
  }

  ghost predicate ValidAgent(c: Company, a: Agent) {
    && a.id !in PersonIds(c) && a.owner in PersonIds(c)
    && (forall g :: g in a.groups ==> g in GroupIds(c))
    && (a.site.Some? ==> a.site.value in c.sites)
    && (a.band.Some? ==> 1 <= a.band.value <= 5)
  }

  /** The kind is known, exactly its payload is present, and a minimum band lies in 1..5. */
  predicate PayloadMatches(r: AclRule) {
    && !r.kind.UnknownRule?
    && r.group.Some? == r.kind.GroupRule? && r.role.Some? == r.kind.RoleRule?
    && r.site.Some? == r.kind.SiteRule? && r.minBand.Some? == r.kind.BandRule?
    && (r.group.Some? ==> r.group.value != "") && (r.role.Some? ==> r.role.value != "")
    && (r.site.Some? ==> r.site.value != "") && (r.minBand.Some? ==> 1 <= r.minBand.value <= 5)
  }

  ghost predicate PayloadsMatch(d: Document) {
    && (forall r :: r in d.rules ==> PayloadMatches(r))
    && (d.subjectId.Some? ==> d.subjectId.value != "")
  }

  /** The document's references resolve in the company. */
  ghost predicate ValidDocument(c: Company, d: Document) {
    && PayloadsMatch(d)
    && (d.subjectId.Some? ==> d.subjectId.value in PersonIds(c))
    && (forall r :: r in d.rules ==> (r.group.Some? ==> r.group.value in GroupIds(c)))
    && (forall r :: r in d.rules ==> (r.site.Some? ==> r.site.value in c.sites))
  }

  // -------------------------------------------------------------------------
  // Lookups shared by both implementations: id indexes and group membership
  // -------------------------------------------------------------------------

  function FindPerson(people: seq<Person>, id: string): (r: Option<Person>)
    ensures r.Some? ==> r.value in people && r.value.id == id
    ensures r.None? ==> forall p :: p in people ==> p.id != id
  {
    if people == [] then None
    else if people[|people| - 1].id == id then Some(people[|people| - 1])
    else
      assert people == people[..|people| - 1] + [people[|people| - 1]];
      FindPerson(people[..|people| - 1], id)
  }

  function FindAgent(agents: seq<Agent>, id: string): (r: Option<Agent>)
    ensures r.Some? ==> r.value in agents && r.value.id == id
    ensures r.None? ==> forall a :: a in agents ==> a.id != id
  {
    if agents == [] then None
    else if agents[|agents| - 1].id == id then Some(agents[|agents| - 1])
    else
      assert agents == agents[..|agents| - 1] + [agents[|agents| - 1]];
      FindAgent(agents[..|agents| - 1], id)
  }

  function GroupsOf(c: Company, person: string): set<string> {
    set g | g in c.groups && person in g.members :: g.id
  }

  predicate Known(c: Company, principal: string) {
    FindPerson(c.people, principal).Some? || FindAgent(c.agents, principal).Some?
  }
}
