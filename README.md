# Portfolio site: verified model of its logic

This project models, in Dafny, the parts of a Next.js portfolio site that hold
logic rather than rendering or data-fetching glue:

- **Project creation** (`POST /api/projects`). The handler rejects a body whose
  `title`, `description` or `imageUrl` is falsy. It applies the `featured` and
  `order` defaults. It turns every `skills` entry into a skill id: an id string
  is used as given, and a `{ name, iconUrl }` object is looked up by name,
  reused if found and created if not. Then it inserts the project connected to
  those ids. The database is a class holding the skill table (a map from the
  unique name to id and icon), the project table and fresh-id counters. The
  handler is a method whose loop resolves the entries one by one. Every
  state-changing method is proved equal to a pure function of the old state
  (`ResolveAll`, `PostSpec`), and the listed properties are lemmas about those
  functions. `GET /api/projects` returns the projects ordered by `order`.
- **The admin project form**: the default record and the Add, Remove and
  featured-switch handlers, each a function from form state to form state.
- **The Hero section**: the first-space name split (`split(' ')`, then the
  first piece and the rest re-joined with spaces) and the render guards.
- **The Education and Experience sections**: the two-key sort of the fetched
  list (`order` ascending, then the later `startDate` first), done in place on
  a copied array, the handling of the fetch outcome, and the
  single-expanded-entry toggle.

JavaScript's `trim`, `split(' ')` and `join(' ')` are modelled in `JsStrings`.
The model proves round trips for them: `Join(Split(s)) == s`, and splitting a
join of space-free pieces gives back the pieces.

## Model

| member | source | states |
|---|---|---|
| `ProjectsApi.PostSpec` | src/app/api/projects/route.ts:30-97 | A body that does not decode gives 500 and changes nothing. A falsy `title`/`description`/`imageUrl` gives 400 and changes neither table. Without a 201 the project table is unchanged. With a 201 exactly the returned project is appended. |
| `ProjectsApi.Database.Post` | src/app/api/projects/route.ts:30-97 | The new database state and the response are exactly `PostSpec` of the old state and the request. A valid database (unique skill ids, every connection naming a skill) stays valid. |
| `ProjectsApi.Database.ResolveSkills` | src/app/api/projects/route.ts:44-68 | The loop over the entries leaves the connection list, skill table and counter equal to `ResolveAll` of the old table. The project table is untouched. |
| `ProjectsApi.Database.ResolveSkill` | src/app/api/projects/route.ts:45-66 | One entry is resolved exactly as `ResolveEntry` says. |
| `ProjectsApi.Database.FindSkillByName` | src/app/api/projects/route.ts:51-53 | Returns a row exactly when the name is in the table, and then that name's row. |
| `ProjectsApi.Database.CreateSkill` | src/app/api/projects/route.ts:59-64 | Adds exactly one row, with the given name and icon and the counter's fresh id. Nothing else changes. |
| `ProjectsApi.Database.CreateProject` | src/app/api/projects/route.ts:71-87 | Inserts the project, with a fresh id, exactly when every connected id names a skill. Otherwise (the throw) nothing changes. The skill table is never changed. |
| `ProjectsApi.Database.Get` | src/app/api/projects/route.ts:8-19 | Returns every project exactly once (same multiset), with `order` non-decreasing. |
| `ProjectsApi.ResolveEntry` | src/app/api/projects/route.ts:46-66 | An id string resolves to that id, with no lookup and no change. A known name resolves to its existing id and the table is unchanged, so the supplied icon is ignored. An unknown name adds one row with the supplied icon and the next fresh id. |
| `ProjectsApi.ResolveAllTable` | src/app/api/projects/route.ts:44-68 | There is one id per entry. Every existing row survives unchanged. The new table's names are exactly the old names plus the object entries' names. The counter never goes back. |
| `ProjectsApi.ResolveAllEntry` | src/app/api/projects/route.ts:44-68 | Entry `i` connects in input order. An id entry connects to exactly that id. A name in the old table connects to its old id. A name not in the table and listed once gets a row holding the connected id, the supplied icon, and an id at or above the old counter. |
| `ProjectsApi.ResolveAllFresh` | src/app/api/projects/route.ts:59-65 | Every row created during resolution has an id between the old and the new counter, so, in a valid table, none equals an existing skill's id. |
| `ProjectsApi.ResolveAllCounter` | src/app/api/projects/route.ts:59-65 | The counter advances at most once per entry, and not at all when no row is added. |
| `ProjectsApi.ResolveAllValid` | src/app/api/projects/route.ts:59-65 | Resolution keeps skill ids unique and below the counter. |
| `ProjectsApi.IdsOnlyLeaveTable` | src/app/api/projects/route.ts:46-48 | A list of id strings alone leaves the skill table and the counter exactly as they were. |
| `ProjectsApi.PostPreservesValid` | src/app/api/projects/route.ts:43-87 | POST keeps the store valid: skill ids stay unique, and every project's connections name existing skills. |
| `ProjectsApi.PostCreated` | src/app/api/projects/route.ts:71-89 | A 201 project has `title`, `description` and `imageUrl` as sent and non-empty, and `githubUrl`/`liveUrl` passed through. `featured` is true only when sent as true. `order` is the sent value or 0. Its id is fresh. It is connected to exactly the resolved ids, which all name skills. |
| `ProjectsApi.PostDanglingIdFails` | src/app/api/projects/route.ts:80-95 | An id entry naming no existing skill makes the insert throw, giving 500 and no project row. This covers an id below the counter that names no row, such as a deleted skill's id. The skills created by that request stay. |
| `ProjectsApi.ResolveAllKnown` | src/app/api/projects/route.ts:44-68 | When every id entry names an existing skill, every resolved id names a skill in the resulting table: name entries always resolve to a row. |
| `ProjectsApi.PostSucceeds` | src/app/api/projects/route.ts:44-89 | A body with the required fields whose id entries all name existing skills is created with 201, when its new names are each listed once. Known names may be listed any number of times. |
| `ProjectsApi.PostWithoutSkills` | src/app/api/projects/route.ts:44-45 | A body with no `skills` field creates the project with no connections and leaves the skill table alone. |
| `ProjectsApi.FeaturedOrFalse` | src/app/api/projects/route.ts:78 | The stored `featured` is true exactly when the sent one is present and true; otherwise it defaults to false. |
| `ProjectsApi.OrderOrZero` | src/app/api/projects/route.ts:79 | The stored `order` is the sent value, or 0 when none is sent. |
| `ProjectsApi.StatusCode` | src/app/api/projects/route.ts:37-95 | 201 is exactly a creation, 400 exactly the missing-fields answer, and 500 exactly a failure. |
| `ProjectForm.InitialState` | src/components/admin/ProjectForm.tsx:30-44 | The form opens on the given project, or on the default with empty title, description and image, `featured` false, `order` 0 and no skills. Both skill inputs start empty. |
| `ProjectForm.SwitchChange` | src/components/admin/ProjectForm.tsx:51-53 | Sets `featured` to the switch value. Every other field and both inputs are unchanged. |
| `ProjectForm.NewDraft` | src/components/admin/ProjectForm.tsx:59 | The new entry's name is the trimmed input. Its icon is absent exactly when the icon input trims to "", and otherwise is the trimmed icon input. |
| `ProjectForm.AddSkill` | src/components/admin/ProjectForm.tsx:55-64 | An all-whitespace name leaves the whole state unchanged. Otherwise exactly one entry is appended after the unchanged earlier ones, no other field changes, and both inputs become "". |
| `ProjectForm.WithoutName` | src/components/admin/ProjectForm.tsx:69 | An entry is kept exactly when it was present and its name differs from the removed one. |
| `ProjectForm.RemoveSkill` | src/components/admin/ProjectForm.tsx:66-71 | The skills become `WithoutName` of the old skills. Every other field and both inputs are unchanged. |
| `ProjectForm.WithoutNameAppend` | src/components/admin/ProjectForm.tsx:69 | Removal distributes over concatenation, so the kept entries stay in their original order. |
| `ProjectForm.RemoveAbsentSkill` | src/components/admin/ProjectForm.tsx:66-71 | Removing a name that no entry carries leaves the state unchanged. |
| `ProjectForm.RemoveSkillIdempotent` | src/components/admin/ProjectForm.tsx:66-71 | Removing the same name twice equals removing it once. |
| `ProjectForm.AddSkillCountsUp` | src/components/admin/ProjectForm.tsx:57-59 | A successful add raises the count of entries with that name by exactly one, so Add does not deduplicate. |
| `ProjectForm.RemoveUndoesAdd` | src/components/admin/ProjectForm.tsx:55-71 | Removing the name just added gives the earlier list with that name removed. |
| `JsStrings.Trim` | src/components/admin/ProjectForm.tsx:56 | `trim()` returns a contiguous middle of the input, with only whitespace cut from both ends. The result neither starts nor ends with whitespace. |
| `JsStrings.TrimEmptyIffAllWhitespace` | src/components/admin/ProjectForm.tsx:56 | The trimmed input is "" (falsy) exactly when the input is all whitespace. |
| `JsStrings.TrimIdempotent` | src/components/admin/ProjectForm.tsx:59 | Trimming twice is trimming once. |
| `JsStrings.Split` | src/components/sections/Hero.tsx:56 | `split(' ')` gives at least one piece, and the first piece is the text before the first space. |
| `JsStrings.SplitNoSpace` | src/components/sections/Hero.tsx:56 | No piece of `split(' ')` holds a space. |
| `JsStrings.JoinSplit` | src/components/sections/Hero.tsx:56-58 | `Split(s).join(' ')` gives back `s` exactly. |
| `JsStrings.SplitJoin` | src/components/sections/Hero.tsx:56-58 | Splitting a join of one or more space-free pieces gives back the pieces. |
| `Hero.SplitName` | src/components/sections/Hero.tsx:56-58 | `firstName` holds no space and is the text before the first space. With no space the result is `(name, "")`, so "" gives `("", "")`. With a space, `firstName + " " + lastName == name` exactly, repeated spaces included. |
| `Hero.SplitNameRoundTrip` | src/components/sections/Hero.tsx:56-58 | A space-free first name, a space and any rest split back into exactly that first name and rest. |
| `Hero.Render` | src/components/sections/Hero.tsx:56-152 | The last-name line appears exactly when some character follows the first space, and then it re-joins to the name. The demo link appears exactly when both its text and href are non-empty, and it uses them. The Cal and LinkedIn buttons link to `calLink` and `linkedinUrl` exactly when those URLs are non-empty. The avatar shows `avatarUrl` exactly when it is non-empty. The description and both button texts pass through unchanged. |
| `Hero.TrailingSpaceShowsOneLine` | src/components/sections/Hero.tsx:70 | A name whose only space is its last character (such as "Ada ") shows that first name and no second line. |
| `Timeline.Compare` | src/components/sections/Education.tsx:36-41 | The comparator is negative exactly when `a` has the smaller `order`, or the same `order` and the later `startDate`. It is zero exactly on equal keys. |
| `Timeline.SortInPlace` | src/components/sections/Education.tsx:36 | The array ends sorted by the comparator and holds the same multiset of entries. |
| `Timeline.SortedCopy` | src/components/sections/Education.tsx:36 | Copying into a fresh array and sorting gives a sorted permutation of the fetched list. The fetched list is a value and keeps its order. |
| `Timeline.NextExpanded` | src/components/sections/Education.tsx:57-59 | Clicking entry `i` expands it exactly when it was not expanded, and leaves every other entry collapsed. |
| `Timeline.NextExpandedTwice` | src/components/sections/Education.tsx:57-59 | Clicking the same entry twice restores the state exactly when that entry was expanded or nothing was. |
| `Education.SortEducations` | src/components/sections/Education.tsx:36-41 | The result is a permutation of the fetched entries. `order` never decreases along it, and among equal `order` a later `startDate` comes first. |
| `Education.FetchEducations` | src/components/sections/Education.tsx:28-51 | Loading ends. An array is listed sorted, as above. A non-array sets "Failed to fetch education data" and a throw sets "Error fetching education data", both leaving the list as it was, so from the mount state the list stays empty. |
| `Education.ToggleExpand` | src/components/sections/Education.tsx:57-59 | Only the expanded index changes. Entry `i` becomes expanded exactly when it was not, and no other entry is expanded. |
| `Education.ToggleTwiceFromCollapsed` | src/components/sections/Education.tsx:57-59 | From the collapsed state, clicking the same entry twice collapses it again. |
| `Experience.SortExperiences` | src/components/sections/Experience.tsx:35-40 | The result is a permutation of the fetched entries. `order` never decreases along it, and among equal `order` a later `startDate` comes first. |
| `Experience.FetchExperiences` | src/components/sections/Experience.tsx:27-50 | Loading ends. An array is listed sorted. A non-array sets "Failed to fetch experiences" and a throw sets "Error fetching experiences", both leaving the list as it was, so from the mount state the list stays empty. |
| `Experience.ToggleExpand` | src/components/sections/Experience.tsx:56-58 | Only the expanded index changes. Entry `i` becomes expanded exactly when it was not, and no other entry is expanded. |
| `Experience.ToggleTwiceFromCollapsed` | src/components/sections/Experience.tsx:56-58 | From the collapsed state, clicking the same entry twice collapses it again. |

## Left out

- Concurrency of skill resolution: the source resolves the entries under `Promise.all`, so two identical new names in one request race, and only the database's unique constraint stops a duplicate row. The model resolves the entries one after another. `ResolveAllEntry` states the creation properties only for a new name listed once.
- `ProjectsApi.PostSpec` and `ProjectsApi.Database.Post` answer 201 for a body that lists the same new name twice, because the second lookup sees the row the first created. In the source both lookups finish before either create, so the second create breaks the unique name and the handler answers 500. `PostSucceeds` therefore promises 201 only when each new name is listed once.
- `ProjectsApi.Database.CreateSkill` requires the name to be absent. The handler only calls it after the lookup found nothing, so the unique-constraint violation it would otherwise raise cannot happen in the sequential model.
- Ids: the database generates random string ids. The model draws them from a counter, so a request's id string is a natural number. An id string that happens to equal an id created in the same request would connect in the model.
- `ProjectsApi.PostDanglingIdFails` leaves out ids from the counter up to the counter plus the number of entries, where an id created by the same request could collide with the given one. It covers every other id that names no skill.
- `ProjectsApi.Database.CreateProject` treats connecting the same id twice as one connection, since the project's skills are a set. The database's own handling of duplicate connects is not modelled.
- Store failures (connection loss, timeouts) and `console.error` logging are not modelled. The only thrown errors modelled are an undecodable body and a connection to a missing skill.
- Loose typing of the request body: fields are optional strings, an optional boolean (`featured`) and an optional integer (`order`). Other JSON types in those fields (`title: 0`, `featured: "yes"`) are not modelled.
- `ProjectsApi.Database.Get`: the ordering is done by the database, which makes no promise about ties. The model sorts stably on `order`. Read failures returning 500 are not modelled.
- Project update, the skills and profile endpoints, the admin pages and all markup, styling, icons and theme handling are not part of this model.
- `handleChange` and `handleSubmit` in the project form are not modelled: the first stores a raw input string under the field's name (including a string `order`), and the second only hands the record to the caller.
- Dates: `startDate` and `endDate` are already-parsed integer timestamps. `new Date(...)` parsing, invalid dates (which make the comparator return NaN) and locale formatting are not modelled.
- React mechanics (`useState` batching, `useEffect` scheduling, the loading and error render branches) are not modelled. Each handler is modelled as the state it sets.
- `Timeline.SortInPlace`, `Timeline.SortedCopy`, `Education.SortEducations` and `Experience.SortExperiences` do not state stability. `Array.prototype.sort` is stable, and the comparator returns 0 exactly when both `order` and `startDate` are equal, so in the source such tied entries keep their fetched order. The model's insertion sort moves an entry only past a strictly later one, so it keeps them too, but the contracts promise only a permutation ordered by the comparator.
