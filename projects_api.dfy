/**
 * The `/api/projects` collection endpoint. POST checks the required fields,
 * turns every entry of `skills` into a skill id (an id string is used as
 * given; a `{ name, iconUrl }` object is looked up by name and created when
 * missing), then inserts the project connected to those ids. GET lists the
 * projects by display order.
 *
 * The database is modelled as a class holding the skill table (unique name
 * to id and icon), the project table and fresh-id counters; ids are opaque,
 * so they are modelled as naturals.
 */
module ProjectsApi {
  import opened Common
  import opened Timeline

  type SkillId = nat
  type ProjectId = nat

  /** A skill row, stored under its unique name. */
  datatype SkillRow = SkillRow(id: SkillId, iconUrl: Option<string>)

  /** One element of the request's `skills` array: an id string, or a name with an optional icon. */
  datatype SkillRef = ById(id: SkillId) | ByName(name: string, iconUrl: Option<string>)

  /** The fields of the decoded request body; absent fields are `None`. */
  datatype ProjectBody = ProjectBody(
    title: Option<string>,
    description: Option<string>,
    imageUrl: Option<string>,
    githubUrl: Option<string>,
    liveUrl: Option<string>,
    skills: Option<seq<SkillRef>>,
    featured: Option<bool>,
    order: Option<int>)

  /** A project row with the ids of the skills it is connected to. */
  datatype Project = Project(
    id: ProjectId,
    title: string,
    description: string,
    imageUrl: string,
    githubUrl: Option<string>,
    liveUrl: Option<string>,
    featured: bool,
    order: int,
    skillIds: set<SkillId>)

  /** 201 with the created project, 400 "Missing required fields", or 500 "Failed to create project". */
  datatype Response = Created(project: Project) | MissingFields | Failed

  function StatusCode(r: Response): (code: int)
    ensures code == 201 <==> r.Created?
    ensures code == 400 <==> r.MissingFields?
    ensures code == 500 <==> r.Failed?
  {
    match r
    case Created(_) => 201
    case MissingFields => 400
    case Failed => 500
  }

  /** The database as a value. */
  datatype Store = Store(
    skills: map<string, SkillRow>,
    nextSkillId: SkillId,
    projects: seq<Project>,
    nextProjectId: ProjectId)

  function SkillIds(skills: map<string, SkillRow>): set<SkillId> {
    set n | n in skills :: skills[n].id
  }

  /** Skill ids are below the counter and no two names share one. */
  ghost predicate ValidSkills(skills: map<string, SkillRow>, next: SkillId) {
    && (forall n :: n in skills ==> skills[n].id < next)
    && (forall n, m :: n in skills && m in skills && skills[n].id == skills[m].id ==> n == m)
  }

  /** The skill table is valid, project ids are below their counter, and every connection names an existing skill. */
  ghost predicate ValidStore(s: Store) {
    && ValidSkills(s.skills, s.nextSkillId)
    && (forall i :: 0 <= i < |s.projects| ==> s.projects[i].id < s.nextProjectId)
    && (forall i :: 0 <= i < |s.projects| ==> s.projects[i].skillIds <= SkillIds(s.skills))
  }

  // ----- Skill resolution -----

  /** The id one entry resolves to, with the skill table and counter afterwards. */
  datatype Step = Step(id: SkillId, skills: map<string, SkillRow>, nextSkillId: SkillId)

  /** The ids of a prefix of the entries, with the skill table and counter afterwards. */
  datatype Resolution = Resolution(ids: seq<SkillId>, skills: map<string, SkillRow>, nextSkillId: SkillId)

  /**
   * One entry: an id is used as given, without a lookup; a known name gives
   * its existing id and the supplied icon is ignored; an unknown name adds
   * one row with a fresh id and the supplied icon.
   */
  function ResolveEntry(skills: map<string, SkillRow>, next: SkillId, entry: SkillRef): (s: Step)
    ensures entry.ById? ==> s == Step(entry.id, skills, next)
    ensures entry.ByName? && entry.name in skills ==> s == Step(skills[entry.name].id, skills, next)
    ensures entry.ByName? && entry.name !in skills ==>
      && s.id == next && s.nextSkillId == next + 1
      && s.skills == skills[entry.name := SkillRow(next, entry.iconUrl)]
  {
    match entry
    case ById(id) => Step(id, skills, next)
    case ByName(name, iconUrl) =>
      if name in skills then Step(skills[name].id, skills, next)
      else Step(next, skills[name := SkillRow(next, iconUrl)], next + 1)
  }

  /** The entries resolved one after another, in input order. */
  function ResolveAll(skills: map<string, SkillRow>, next: SkillId, entries: seq<SkillRef>): (r: Resolution)
    decreases |entries|
  {
    if entries == [] then Resolution([], skills, next)
    else
      var r := ResolveAll(skills, next, entries[..|entries| - 1]);
      var s := ResolveEntry(r.skills, r.nextSkillId, entries[|entries| - 1]);
      Resolution(r.ids + [s.id], s.skills, s.nextSkillId)
  }

  /** The names the object entries carry. */
  function NamesIn(entries: seq<SkillRef>): set<string> {
    set i | 0 <= i < |entries| && entries[i].ByName? :: entries[i].name
  }

  lemma NamesInSnoc(entries: seq<SkillRef>)
    requires entries != []
    ensures var e := entries[|entries| - 1];
      NamesIn(entries) == NamesIn(entries[..|entries| - 1]) + (if e.ByName? then {e.name} else {})
  {
    var init := entries[..|entries| - 1];
    var e := entries[|entries| - 1];
    forall n | n in NamesIn(entries) ensures n in NamesIn(init) + (if e.ByName? then {e.name} else {}) {
      var i :| 0 <= i < |entries| && entries[i].ByName? && entries[i].name == n;
      if i < |entries| - 1 { assert init[i] == entries[i]; }
    }
    forall n | n in NamesIn(init) ensures n in NamesIn(entries) {
      var i :| 0 <= i < |init| && init[i].ByName? && init[i].name == n;
      assert entries[i] == init[i];
    }
  }

  /**
   * What resolving a whole list does to the skill table: one id per entry,
   * existing rows untouched (a supplied icon never overwrites one), and new
   * rows exactly for the names not yet present.
   */
  lemma {:induction false} ResolveAllTable(skills: map<string, SkillRow>, next: SkillId, entries: seq<SkillRef>)
    ensures var r := ResolveAll(skills, next, entries);
      && |r.ids| == |entries|
      && (forall n :: n in skills ==> n in r.skills && r.skills[n] == skills[n])
      && r.skills.Keys == skills.Keys + NamesIn(entries)
      && next <= r.nextSkillId
    decreases |entries|
  {
    if entries != [] {
      ResolveAllTable(skills, next, entries[..|entries| - 1]);
      NamesInSnoc(entries);
    }
  }

  /** Every new row has an id from the counter's advance. */
  lemma {:induction false} ResolveAllFresh(skills: map<string, SkillRow>, next: SkillId, entries: seq<SkillRef>)
    ensures var r := ResolveAll(skills, next, entries);
      forall n :: n in r.skills && n !in skills ==> next <= r.skills[n].id < r.nextSkillId
    decreases |entries|
  {
    if entries != [] {
      ResolveAllFresh(skills, next, entries[..|entries| - 1]);
      ResolveAllTable(skills, next, entries[..|entries| - 1]);
    }
  }

  /** The counter advances at most once per entry, and only when a row is added. */
  lemma {:induction false} ResolveAllCounter(skills: map<string, SkillRow>, next: SkillId, entries: seq<SkillRef>)
    ensures var r := ResolveAll(skills, next, entries);
      && r.nextSkillId <= next + |entries|
      && (r.skills.Keys == skills.Keys ==> r.nextSkillId == next)
    decreases |entries|
  {
    if entries != [] {
      var init := entries[..|entries| - 1];
      var p := ResolveAll(skills, next, init);
      var r := ResolveAll(skills, next, entries);
      ResolveAllCounter(skills, next, init);
      ResolveAllTable(skills, next, init);
      assert p.skills.Keys <= r.skills.Keys;
    }
  }

  /** Resolution keeps skill ids below the counter and unique. */
  lemma {:induction false} ResolveAllValid(skills: map<string, SkillRow>, next: SkillId, entries: seq<SkillRef>)
    requires ValidSkills(skills, next)
    ensures var r := ResolveAll(skills, next, entries);
      ValidSkills(r.skills, r.nextSkillId)
    decreases |entries|
  {
    if entries != [] {
      ResolveAllValid(skills, next, entries[..|entries| - 1]);
    }
  }

  /** An entry listed once among the object entries, or an id entry. */
  ghost predicate NameUniqueAt(entries: seq<SkillRef>, i: int)
    requires 0 <= i < |entries|
  {
    entries[i].ByName? ==>
      forall j :: 0 <= j < |entries| && j != i && entries[j].ByName? ==> entries[j].name != entries[i].name
  }

  /**
   * What entry `i` is connected to: an id entry to that very id; a name
   * already in the table to its existing row's id; a name not yet in the
   * table and listed once to the row created for it, which carries the
   * supplied icon and a fresh id.
   */
  lemma {:induction false} ResolveAllEntry(skills: map<string, SkillRow>, next: SkillId, entries: seq<SkillRef>, i: int)
    requires 0 <= i < |entries|
    ensures var r := ResolveAll(skills, next, entries);
      && |r.ids| == |entries|
      && (entries[i].ById? ==> r.ids[i] == entries[i].id)
      && (entries[i].ByName? && entries[i].name in skills ==> r.ids[i] == skills[entries[i].name].id)
      && (entries[i].ByName? && entries[i].name !in skills && NameUniqueAt(entries, i) ==>
            && entries[i].name in r.skills
            && r.skills[entries[i].name] == SkillRow(r.ids[i], entries[i].iconUrl)
            && next <= r.ids[i])
    decreases |entries|
  {
    var init := entries[..|entries| - 1];
    var e := entries[|entries| - 1];
    var p := ResolveAll(skills, next, init);
    var r := ResolveAll(skills, next, entries);
    ResolveAllTable(skills, next, init);
    if i < |entries| - 1 {
      ResolveAllEntry(skills, next, init, i);
      assert init[i] == entries[i];
      assert r.ids[i] == p.ids[i];
      if entries[i].ByName? && entries[i].name !in skills && NameUniqueAt(entries, i) {
        assert NameUniqueAt(init, i);
      }
    } else {
      if e.ByName? && e.name !in skills && NameUniqueAt(entries, i) {
        forall j | 0 <= j < |init| && init[j].ByName? ensures init[j].name != e.name {
          assert entries[j] == init[j];
        }
        assert e.name !in p.skills;
      }
    }
  }

  /** Entries that are all ids touch neither the table nor the counter. */
  lemma IdsOnlyLeaveTable(skills: map<string, SkillRow>, next: SkillId, entries: seq<SkillRef>)
    requires forall i :: 0 <= i < |entries| ==> entries[i].ById?
    ensures ResolveAll(skills, next, entries).skills == skills
    ensures ResolveAll(skills, next, entries).nextSkillId == next
  {
    ResolveAllTable(skills, next, entries);
    ResolveAllCounter(skills, next, entries);
    assert NamesIn(entries) == {};
  }

  // ----- The POST handler as a function of the store -----

  /** JavaScript falsiness of an optional string field: absent or "". */
  predicate Falsy(v: Option<string>) {
    v.None? || v.value == ""
  }

  predicate MissingRequired(b: ProjectBody) {
    Falsy(b.title) || Falsy(b.description) || Falsy(b.imageUrl)
  }

  /** `skills || []`. */
  function EntriesOf(b: ProjectBody): seq<SkillRef> {
    if b.skills.Some? then b.skills.value else []
  }

  /** `featured || false`: true only when the flag is present and true. */
  function FeaturedOrFalse(featured: Option<bool>): (f: bool)
    ensures f <==> featured == Some(true)
  {
    featured.Some? && featured.value
  }

  /** `order || 0`: the given order, or 0 when absent (a given 0 is 0 either way). */
  function OrderOrZero(order: Option<int>): (n: int)
    ensures order.None? ==> n == 0
    ensures order.Some? ==> n == order.value
  {
    if order.Some? && order.value != 0 then order.value else 0
  }

  /** Every connected id names an existing skill; otherwise the database rejects the insert. */
  predicate AllKnown(ids: seq<SkillId>, skills: map<string, SkillRow>) {
    forall k :: 0 <= k < |ids| ==> ids[k] in SkillIds(skills)
  }

  /** The project row the insert creates. */
  function NewProject(id: ProjectId, b: ProjectBody, ids: seq<SkillId>): Project
    requires !MissingRequired(b)
  {
    Project(id, b.title.value, b.description.value, b.imageUrl.value, b.githubUrl, b.liveUrl,
            FeaturedOrFalse(b.featured), OrderOrZero(b.order), set k | 0 <= k < |ids| :: ids[k])
  }

  datatype Outcome = Outcome(store: Store, response: Response)

  /**
   * The whole POST: `None` is a body that does not decode (a throw, so 500);
   * a falsy required field gives 400 before anything is written; otherwise
   * the skills are resolved, and the insert either succeeds (201) or, when a
   * connection names no skill, throws (500) after the skills created so far
   * have been written.
   */
  function PostSpec(s: Store, request: Option<ProjectBody>): (o: Outcome)
    ensures request.None? ==> o == Outcome(s, Failed)
    ensures request.Some? && MissingRequired(request.value) ==> o == Outcome(s, MissingFields)
    ensures !o.response.Created? ==> o.store.projects == s.projects && o.store.nextProjectId == s.nextProjectId
    ensures o.response.Created? ==>
      && o.store.projects == s.projects + [o.response.project]
      && o.store.nextProjectId == s.nextProjectId + 1
  {
    if request.None? then Outcome(s, Failed)
    else
      var b := request.value;
      if MissingRequired(b) then Outcome(s, MissingFields)
      else
        var r := ResolveAll(s.skills, s.nextSkillId, EntriesOf(b));
        var resolved := s.(skills := r.skills, nextSkillId := r.nextSkillId);
        if AllKnown(r.ids, r.skills) then
          var p := NewProject(s.nextProjectId, b, r.ids);
          Outcome(resolved.(projects := s.projects + [p], nextProjectId := s.nextProjectId + 1), Created(p))
        else
          Outcome(resolved, Failed)
  }

  /** POST keeps the store valid: fresh ids stay unique and no project points at a missing skill. */
  lemma PostPreservesValid(s: Store, request: Option<ProjectBody>)
    requires ValidStore(s)
    ensures ValidStore(PostSpec(s, request).store)
  {
    if request.Some? && !MissingRequired(request.value) {
      var b := request.value;
      var r := ResolveAll(s.skills, s.nextSkillId, EntriesOf(b));
      ResolveAllTable(s.skills, s.nextSkillId, EntriesOf(b));
      ResolveAllValid(s.skills, s.nextSkillId, EntriesOf(b));
      assert SkillIds(s.skills) <= SkillIds(r.skills) by {
        forall x | x in SkillIds(s.skills) ensures x in SkillIds(r.skills) {
          var n :| n in s.skills && s.skills[n].id == x;
          assert n in r.skills && r.skills[n].id == x;
        }
      }
    }
  }

  /**
   * A created project: title, description, image and links as sent, the
   * defaults for `featured` and `order`, a fresh id, and connected to exactly
   * the ids the entries resolved to, which all name skills.
   */
  lemma PostCreated(s: Store, b: ProjectBody)
    requires PostSpec(s, Some(b)).response.Created?
    ensures var o := PostSpec(s, Some(b));
      var p := o.response.project;
      var r := ResolveAll(s.skills, s.nextSkillId, EntriesOf(b));
      && b.title == Some(p.title) && p.title != ""
      && b.description == Some(p.description) && p.description != ""
      && b.imageUrl == Some(p.imageUrl) && p.imageUrl != ""
      && p.githubUrl == b.githubUrl && p.liveUrl == b.liveUrl
      && p.featured == (b.featured == Some(true))
      && p.order == (if b.order.Some? then b.order.value else 0)
      && p.id == s.nextProjectId
      && (forall x :: x in p.skillIds <==> x in r.ids)
      && p.skillIds <= SkillIds(o.store.skills)
      && o.store.skills == r.skills
  {
    var r := ResolveAll(s.skills, s.nextSkillId, EntriesOf(b));
    var p := PostSpec(s, Some(b)).response.project;
    forall x | x in r.ids ensures x in p.skillIds {
      var k :| 0 <= k < |r.ids| && r.ids[k] == x;
    }
  }

  /**
   * A connection to an id that names no skill makes the insert throw: 500,
   * no project row, and the skills created for this request stay.
   */
  lemma PostDanglingIdFails(s: Store, b: ProjectBody, i: int)
    requires !MissingRequired(b)
    requires 0 <= i < |EntriesOf(b)| && EntriesOf(b)[i].ById?
    requires ValidSkills(s.skills, s.nextSkillId)
    requires EntriesOf(b)[i].id !in SkillIds(s.skills)
    requires EntriesOf(b)[i].id < s.nextSkillId || EntriesOf(b)[i].id >= s.nextSkillId + |EntriesOf(b)|
    ensures var o := PostSpec(s, Some(b));
      && o.response == Failed
      && o.store.projects == s.projects
      && o.store.skills.Keys == s.skills.Keys + NamesIn(EntriesOf(b))
  {
    var entries := EntriesOf(b);
    var r := ResolveAll(s.skills, s.nextSkillId, entries);
    ResolveAllTable(s.skills, s.nextSkillId, entries);
    ResolveAllFresh(s.skills, s.nextSkillId, entries);
    ResolveAllCounter(s.skills, s.nextSkillId, entries);
    ResolveAllEntry(s.skills, s.nextSkillId, entries, i);
    var id := entries[i].id;
    assert r.ids[i] == id;
    forall n | n in r.skills ensures r.skills[n].id != id {
      if n in s.skills { assert r.skills[n] == s.skills[n]; }
    }
    assert !AllKnown(r.ids, r.skills);
  }

  /** When every id entry names an existing skill, every resolved id names a skill of the resulting table. */
  lemma {:induction false} ResolveAllKnown(skills: map<string, SkillRow>, next: SkillId, entries: seq<SkillRef>)
    requires forall i :: 0 <= i < |entries| && entries[i].ById? ==> entries[i].id in SkillIds(skills)
    ensures var r := ResolveAll(skills, next, entries);
      AllKnown(r.ids, r.skills)
    decreases |entries|
  {
    if entries != [] {
      var init := entries[..|entries| - 1];
      var e := entries[|entries| - 1];
      var p := ResolveAll(skills, next, init);
      var r := ResolveAll(skills, next, entries);
      assert forall i :: 0 <= i < |init| ==> init[i] == entries[i];
      ResolveAllKnown(skills, next, init);
      ResolveAllTable(skills, next, init);
      assert forall n :: n in p.skills ==> n in r.skills && r.skills[n] == p.skills[n];
      forall k | 0 <= k < |r.ids| ensures r.ids[k] in SkillIds(r.skills) {
        if k < |p.ids| {
          assert p.ids[k] in SkillIds(p.skills);
          var n :| n in p.skills && p.skills[n].id == p.ids[k];
          assert r.ids[k] == p.ids[k];
          assert r.skills[n].id == r.ids[k];
        } else if e.ById? {
          assert e.id in SkillIds(skills);
          var n :| n in skills && skills[n].id == e.id;
          assert r.skills[n].id == r.ids[k];
        } else {
          assert r.skills[e.name].id == r.ids[k];
        }
      }
    }
  }

  /**
   * A body with the required fields whose id entries all name existing
   * skills, and whose new names are each listed once, is created (201);
   * known names may be listed any number of times.
   */
  lemma PostSucceeds(s: Store, b: ProjectBody)
    requires !MissingRequired(b)
    requires forall i :: 0 <= i < |EntriesOf(b)| && EntriesOf(b)[i].ById? ==> EntriesOf(b)[i].id in SkillIds(s.skills)
    requires forall i :: 0 <= i < |EntriesOf(b)| && EntriesOf(b)[i].ByName? && EntriesOf(b)[i].name !in s.skills ==>
      NameUniqueAt(EntriesOf(b), i)
    ensures PostSpec(s, Some(b)).response.Created?
  {
    ResolveAllKnown(s.skills, s.nextSkillId, EntriesOf(b));
  }

  /** Without a `skills` field the project is created with no connections and the skill table is untouched. */
  lemma PostWithoutSkills(s: Store, b: ProjectBody)
    requires !MissingRequired(b) && b.skills.None?
    ensures var o := PostSpec(s, Some(b));
      && o.response.Created?
      && o.response.project.skillIds == {}
      && o.store.skills == s.skills && o.store.nextSkillId == s.nextSkillId
  {
    assert EntriesOf(b) == [];
  }

  // ----- The database -----

  class Database {
    var skills: map<string, SkillRow>
    var nextSkillId: SkillId
    var projects: seq<Project>
    var nextProjectId: ProjectId

    function State(): Store
      reads this
    {
      Store(skills, nextSkillId, projects, nextProjectId)
    }

    ghost predicate Valid()
      reads this
    {
      ValidStore(State())
    }

    constructor ()
      ensures Valid()
      ensures State() == Store(map[], 0, [], 0)
    {
      skills, nextSkillId := map[], 0;
      projects, nextProjectId := [], 0;
    }

    /** `prisma.skill.findUnique({ where: { name } })`. */
    method FindSkillByName(name: string) returns (row: Option<SkillRow>)
      ensures row.Some? <==> name in skills
      ensures row.Some? ==> row.value == skills[name]
    {
      row := if name in skills then Some(skills[name]) else None;
    }

    /** `prisma.skill.create(...)`, called only after the lookup found no row of that name. */
    method CreateSkill(name: string, iconUrl: Option<string>) returns (id: SkillId)
      requires name !in skills
      modifies this
      ensures id == old(nextSkillId) && nextSkillId == old(nextSkillId) + 1
      ensures skills == old(skills)[name := SkillRow(id, iconUrl)]
      ensures projects == old(projects) && nextProjectId == old(nextProjectId)
    {
      id := nextSkillId;
      skills := skills[name := SkillRow(id, iconUrl)];
      nextSkillId := nextSkillId + 1;
    }

    /** The callback of the `skills` map: one entry to one id. */
    method ResolveSkill(entry: SkillRef) returns (id: SkillId)
      modifies this
      ensures Step(id, skills, nextSkillId) == ResolveEntry(old(skills), old(nextSkillId), entry)
      ensures projects == old(projects) && nextProjectId == old(nextProjectId)
    {
      match entry {
        case ById(given) =>
          id := given;
        case ByName(name, iconUrl) =>
          var existing := FindSkillByName(name);
          if existing.Some? {
            id := existing.value.id;
          } else {
            id := CreateSkill(name, iconUrl);
          }
      }
    }

    /** Resolves the entries one after another, building the connection list. */
    method ResolveSkills(entries: seq<SkillRef>) returns (ids: seq<SkillId>)
      modifies this
      ensures Resolution(ids, skills, nextSkillId) == ResolveAll(old(skills), old(nextSkillId), entries)
      ensures projects == old(projects) && nextProjectId == old(nextProjectId)
    {
      ids := [];
      var i := 0;
      while i < |entries|
        invariant 0 <= i <= |entries|
        invariant Resolution(ids, skills, nextSkillId) == ResolveAll(old(skills), old(nextSkillId), entries[..i])
        invariant projects == old(projects) && nextProjectId == old(nextProjectId)
      {
        var id := ResolveSkill(entries[i]);
        ids := ids + [id];
        assert entries[..i + 1][..i] == entries[..i];
        i := i + 1;
      }
      assert entries[..|entries|] == entries;
    }

    /** `prisma.project.create` with `connect`: inserts the row, or throws when an id names no skill. */
    method CreateProject(b: ProjectBody, ids: seq<SkillId>) returns (created: Option<Project>)
      requires !MissingRequired(b)
      modifies this
      ensures created.Some? <==> AllKnown(ids, skills)
      ensures created.Some? ==>
        && created.value == NewProject(old(nextProjectId), b, ids)
        && projects == old(projects) + [created.value]
        && nextProjectId == old(nextProjectId) + 1
      ensures created.None? ==> projects == old(projects) && nextProjectId == old(nextProjectId)
      ensures skills == old(skills) && nextSkillId == old(nextSkillId)
    {
      if AllKnown(ids, skills) {
        var p := NewProject(nextProjectId, b, ids);
        projects := projects + [p];
        nextProjectId := nextProjectId + 1;
        created := Some(p);
      } else {
        created := None;
      }
    }

    /** POST /api/projects. */
    method Post(request: Option<ProjectBody>) returns (response: Response)
      requires Valid()
      modifies this
      ensures Valid()
      ensures Outcome(State(), response) == PostSpec(old(State()), request)
    {
      if request.None? {
        return Failed;
      }
      var b := request.value;
      if MissingRequired(b) {
        return MissingFields;
      }
      var ids := ResolveSkills(EntriesOf(b));
      var created := CreateProject(b, ids);
      if created.Some? {
        response := Created(created.value);
      } else {
        response := Failed;
      }
      PostPreservesValid(old(State()), request);
    }

    /** GET /api/projects: every project once, ordered by `order` ascending. */
    method Get() returns (list: seq<Project>)
      ensures multiset(list) == multiset(projects)
      ensures forall i, j :: 0 <= i < j < |list| ==> list[i].order <= list[j].order
    {
      list := SortedCopy(projects, OrderKey);
      assert forall i, j :: 0 <= i < j < |list| ==> Compare(OrderKey(list[i]), OrderKey(list[j])) <= 0;
    }
  }

  /** The database's `orderBy: { order: 'asc' }`: only `order` is compared. */
  function OrderKey(p: Project): Key {
    Key(p.order, 0)
  }
}
