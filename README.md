# Portfolio data layer and UI state, in Dafny

This project models the core of a Next.js portfolio site. The site keeps
projects and skills in three tables: `portfolio_projects`,
`portfolio_skills`, and the link table `portfolio_projects_to_skills`.

The models cover:

- the in-memory joins over the mock tables;
- the two API routes, which fold `LEFT JOIN` rows into nested answers and
  validate create requests;
- the server actions that mutate the store;
- the dashboard's add and remove forms and its slug suggestion;
- six small client components: the three-slot skill filter, the skill
  picker of a project page, the multi-image picker, the highlights
  carousel, the in-place editable field and the skill cards.

The project proves properties about each of these.

Layout, one module per source file plus shared helpers:

| file | module | models |
|---|---|---|
| `wrappers.dfy` | `Wrappers` | `Option` |
| `seqs.dfy` | `Seqs` | order-preserving filter, subsequences, dedup by id |
| `text.dfy` | `Text` | ECMAScript `trim`, ASCII `toLowerCase` |
| `json_strings.dfy` | `JsonStrings` | `JSON.stringify` / `JSON.parse` of a string array (RFC 8259 sections 2, 5, 7), round trip proved |
| `schema.dfy` | `Schema` | table rows, the two skill shapes, the table constraints |
| `http.dfy` | `Http` | responses and the first-missing-field check |
| `join_fold.dfy` | `JoinFold` | the `forEach` + `Map` fold of join rows, generic in parent and child |
| `category_groups.dfy` | `CategoryGroups` | grouping skills into a record by category |
| `mock_data.dfy` | `MockData` | `src/server/mock-data.ts` |
| `projects_route.dfy` | `ProjectsRoute` | `src/app/api/projects/route.ts` |
| `skills_route.dfy` | `SkillsRoute` | `src/app/api/skills/route.ts` |
| `actions.dfy` | `Actions` | `src/server/actions.ts` (class `Store`) |
| `dashboard.dfy` | `Dashboard` | `src/components/dashboard-content.tsx` (class `DashboardState`) |
| `project_filter.dfy` | `ProjectFilter` | `src/components/project-filter.tsx` (class `FilterState`) |
| `editable_skills.dfy` | `EditableSkills` | `src/components/editable-skills.tsx` (class `SkillsEditor`) |
| `image_dropzone.dfy` | `ImageDropzone` | `src/components/multi-image-dropzone.tsx` (class `Dropzone`) |
| `project_highlights.dfy` | `ProjectHighlights` | `src/components/project-highlights.tsx` (class `Carousel`) |
| `editable_field.dfy` | `EditableField` | `src/components/editable-field.tsx` (class `Field`) |
| `skill_card.dfy` | `SkillCard` | `src/components/magical-skill-card.tsx` (class `SkillCards`) |

Conventions:

- **Two skill shapes are kept apart.** The single-`category` skill of the
  mock tables, the skills route and the dashboard is `Schema.Skill`. The
  stored row with JSON `categories` text is `Schema.SkillRow`, and its
  parsed form is `Schema.TaggedSkill`.
- **Query results are inputs.** The database returns join rows and skill
  lists as sequences. The `ORDER BY` of a query is a precondition where a
  property needs it.
- **Component state is a class.** Each React state hook is a field. Each
  handler is a method whose `ensures` gives the whole new state. A value
  that the parent component owns, such as the image list or the assigned
  skills, is a field that the method replaces the way the `onChange`
  callback would.
- **Results from outside become parameters.**
  - A server call, an `onSave` or an async outcome is a boolean parameter.
  - `Date.now()`, `new Date()` and a parsed date are `int` parameters.
  - The window width is an `int` parameter.

## Model

| member | source | states |
|---|---|---|
| `Seqs.Filter` | src/server/mock-data.ts:482 | `Array.prototype.filter`: never longer than its input, holds only input elements satisfying the predicate, and holds every one of them |
| `Seqs.FilterIsSubseq` | src/components/project-filter.tsx:188-192 | a filter keeps the order of its input (an order-preserving subsequence) |
| `Seqs.FilterMonotone` | src/components/project-filter.tsx:189-191 | a stronger predicate keeps a subsequence of what a weaker one keeps |
| `Seqs.DedupByDistinct` | src/app/api/projects/route.ts:77-79 | rows whose ids are already distinct come through "push unless some element has this id" unchanged |
| `Seqs.DedupByDropsOnlyRepeats` | src/app/api/projects/route.ts:77-79 | deduplication drops an element only when an earlier one has its id |
| `Seqs.RemoveKeepsOthers` | src/components/dashboard-content.tsx:83-85 | filtering out an id keeps exactly the entries with another id, in order, each of them kept |
| `Text.Trim` | src/components/dashboard-content.tsx:42 | `trim` never lengthens a string |
| `Text.TrimShape` | src/components/dashboard-content.tsx:62 | the trimmed string is the slice between a whitespace prefix and a whitespace suffix, and it starts and ends with non-whitespace |
| `Text.TrimEmptyIffBlank` | src/components/dashboard-content.tsx:42 | `!s.trim()` holds exactly when every character of `s` is whitespace |
| `Text.TrimIdempotent` | src/components/dashboard-content.tsx:62 | trimming twice is trimming once |
| `Text.TrimUntouched` | src/components/dashboard-content.tsx:188 | a string with whitespace at neither end is its own trim |
| `Text.ToLower` | src/components/dashboard-content.tsx:53 | `toLowerCase` maps each character, `A`-`Z` to `a`-`z`, and keeps the length |
| `JsonStrings.Encode` | src/server/actions.ts:69 | `JSON.stringify` of a string array opens with `[` and closes with `]` |
| `JsonStrings.DecodeEncode` | src/server/actions.ts:77-80 | parsing the text written for a list gives back exactly that list |
| `JsonStrings.EncodeInjective` | src/server/actions.ts:69 | two lists with the same JSON text are equal |
| `Schema.ParseSkillRow` | src/app/api/projects/route.ts:33-38 | a stored skill that reads back keeps its id, name and level; its category text is parsed by the JSON decoder |
| `Schema.CategoriesFail` | src/server/db/schema.ts:24 | one row whose text is not a JSON string array makes the table ill formed |
| `Schema.CategoriesSubseq` | src/server/db/schema.ts:24 | rows kept from well-formed rows are well formed |
| `Schema.ParseEncodedRow` | src/server/actions.ts:69 | a row whose text the encoder wrote reads back with the list written |
| `Http.FirstMissing` | src/app/api/projects/route.ts:132-137 | the position of the first field that is not present: all earlier fields are present |
| `Http.FindMissing` | src/app/api/projects/route.ts:133-137 | the `for` loop with early return stops at `FirstMissing` |
| `Http.FirstMissingIs` | src/app/api/skills/route.ts:69-74 | a field that fails after all fields before it hold is the first missing one |
| `Http.RequiredMessage` | src/app/api/projects/route.ts:135 | the 400 message starts with the field name followed by " is required" |
| `JoinFold.Grouped` | src/app/api/projects/route.ts:98-118 | the map ends with at most one entry per row (the lemmas below state which entries) |
| `JoinFold.GroupedFacts` | src/app/api/projects/route.ts:100-117 | entry keys are distinct, every row's parent has an entry, and every child of a row of that parent is in the entry, deduplicated by id |
| `JoinFold.NoChildRowsEmptyGroup` | src/app/api/projects/route.ts:101-108 | a parent whose rows carry no child still gets an entry, with no children |
| `JoinFold.GroupedParents` | src/app/api/projects/route.ts:61-70 | the entries' parents are the rows' distinct parents in first-appearance order, a subsequence of the rows' parents |
| `JoinFold.GroupedKeepsOrder` | src/app/api/projects/route.ts:95 | rows sorted by parent give entries in the same order |
| `JoinFold.ChildlessRowChangesNothing` | src/app/api/skills/route.ts:49-54 | a row without a child for a parent that already has an entry changes nothing |
| `JoinFold.FoldRowsIsGrouped` | src/app/api/projects/route.ts:100-118 | the row-by-row fold builds exactly the declarative grouping |
| `JoinFold.PushChild` | src/app/api/projects/route.ts:114-116 | `if (!some(id)) push(child)` has the effect of absorbing a row with that child into the entry |
| `JoinFold.AddRowInPlace` | src/app/api/projects/route.ts:100-117 | one `forEach` step: opens the parent's entry if it has none, then absorbs the row's child |
| `JoinFold.FoldInPlace` | src/app/api/skills/route.ts:41-57 | the `forEach` loop over all rows, then `Array.from(map.values())`, returns `Grouped` |
| `CategoryGroups.CategoryOrder` | src/server/mock-data.ts:533-538 | the record's keys: distinct, exactly the categories of the skills |
| `CategoryGroups.InCategory` | src/server/mock-data.ts:533-538 | a bucket holds only skills of its category, and each such skill is in it |
| `CategoryGroups.GroupByCategory` | src/server/mock-data.ts:530-541 | the `forEach` loop builds the record whose keys are `CategoryOrder` and whose bucket for each key is `InCategory` |
| `CategoryGroups.SkillInOwnGroupOnly` | src/server/mock-data.ts:533-538 | a skill is in a bucket exactly when it is its own category's bucket |
| `CategoryGroups.GroupsNonEmpty` | src/server/mock-data.ts:534-537 | every bucket that exists is non-empty |
| `CategoryGroups.GroupIsSubseq` | src/server/mock-data.ts:533-538 | every bucket keeps the input order |
| `CategoryGroups.SizesSumToCount` | src/server/mock-data.ts:533-538 | the bucket sizes add up to the number of skills |
| `CategoryGroups.GroupsSortedByName` | src/app/api/skills/route.ts:14-22 | input sorted by category then name gives buckets sorted by name |
| `MockData.LinkedSkillIds` | src/server/mock-data.ts:478-480 | the skill ids linked to a project: exactly the skill ids of its association rows |
| `MockData.LinkedProjectIds` | src/server/mock-data.ts:494-496 | the project ids linked to a skill: exactly the project ids of its association rows |
| `MockData.SkillsOf` | src/server/mock-data.ts:478-482 | a project's skills are exactly the skills with an association row for it |
| `MockData.ProjectsOf` | src/server/mock-data.ts:494-498 | a skill's projects are exactly the projects with an association row for it |
| `MockData.SkillsOfOrdered` | src/server/mock-data.ts:482 | a project's skills keep skill-table order and, with distinct table ids, hold no skill twice |
| `MockData.RepeatedLinkChangesNothing` | src/server/mock-data.ts:478-482 | storing an association row a second time changes no project's skill list |
| `MockData.ProjectsWithSkills` | src/server/mock-data.ts:476-489 | one entry per project, in table order, with the project unchanged and its linked skills |
| `MockData.SkillsWithProjects` | src/server/mock-data.ts:492-505 | one entry per skill, in table order, with the skill unchanged and its linked projects |
| `MockData.JoinsAreSymmetric` | src/server/mock-data.ts:476-505 | skill S is listed under project P exactly when P is listed under S |
| `MockData.FindBySlug` | src/server/mock-data.ts:509 | `find`: `None` exactly when no project has the slug, otherwise the first index that does |
| `MockData.ProjectBySlug` | src/server/mock-data.ts:508-522 | `undefined` exactly when no project has the slug, otherwise a project with that slug |
| `MockData.BySlugAgreesWithBulk` | src/server/mock-data.ts:508-522 | the slug lookup returns the bulk query's entry for the first project with that slug |
| `MockData.BySlugUnique` | src/server/mock-data.ts:508-522 | with unique slugs the lookup returns that project's bulk entry |
| `MockData.FeaturedProjects` | src/server/mock-data.ts:525-527 | every listed project has `featured === 1` |
| `MockData.FeaturedIsFilteredBulk` | src/server/mock-data.ts:525-527 | the featured list is an order-preserving subsequence of the bulk list, containing a bulk entry exactly when it is featured |
| `ProjectsRoute.ParseRow` | src/app/api/projects/route.ts:71-76 | `JSON.parse` of a row throws exactly when it carries a skill whose category text does not parse as a JSON string array; otherwise the project, whether a skill is there, and the skill's id are kept |
| `ProjectsRoute.ParseRows` | src/app/api/projects/route.ts:100-118 | parsing all rows keeps their number |
| `ProjectsRoute.ParseRowsFails` | src/app/api/projects/route.ts:112 | one row that does not parse makes the whole walk throw |
| `ProjectsRoute.SlugSkills` | src/app/api/projects/route.ts:31-39 | the slug branch lists at most one skill per row |
| `ProjectsRoute.SlugSkillsOnePerRow` | src/app/api/projects/route.ts:31-39 | with a skill on every row, one skill per row in row order, with no deduplication |
| `ProjectsRoute.SlugSkillsSkipsEmpty` | src/app/api/projects/route.ts:32 | a row without a skill contributes nothing |
| `ProjectsRoute.BySlug` | src/app/api/projects/route.ts:13-45 | 404 exactly when there are no rows, 500 exactly when a category text does not parse, otherwise the first row's project with the rows' skills |
| `ProjectsRoute.GroupRows` | src/app/api/projects/route.ts:98-120 | the fold answers 500 exactly when a row does not parse, otherwise `Grouped` over the parsed rows |
| `ProjectsRoute.Get` | src/app/api/projects/route.ts:7-125 | the slug branch for a non-empty slug; otherwise the featured fold for `featured=true` and the all-projects fold for anything else |
| `ProjectsRoute.FeaturedEntriesOnly` | src/app/api/projects/route.ts:57 | every entry of the featured answer is a featured project |
| `ProjectsRoute.ParsedProjects` | src/app/api/projects/route.ts:66 | parsing the rows leaves their projects unchanged |
| `ProjectsRoute.FeaturedKeepsDateOrder` | src/app/api/projects/route.ts:57-58 | rows sorted newest first remain sorted once the featured ones are kept |
| `ProjectsRoute.Post` | src/app/api/projects/route.ts:127-165 | 500 for a body that is not JSON; 400 naming the first falsy field among title, slug, company, date, description, caseStudy; otherwise the fields as given, absent URLs null, `featured` 0 by default, and no skills |
| `SkillsRoute.Get` | src/app/api/skills/route.ts:7-62 | `byCategory=true` gives the record of `CategoryOrder` keys and `InCategory` buckets; anything else gives `Grouped` over the join rows |
| `SkillsRoute.ByCategoryOrdered` | src/app/api/skills/route.ts:14-22 | with input in category-then-name order, each bucket is in name order and the bucket sizes add up to the number of skills |
| `SkillsRoute.Post` | src/app/api/skills/route.ts:64-94 | 500 for a body that is not JSON; 400 naming the first falsy field among name, category, level (a level of 0 counts as missing); otherwise icon "code" and the default colour when absent |
| `Actions.OrNull` | src/server/actions.ts:29-31 | `value \|\| null`: null exactly for an absent or empty string, otherwise the value |
| `Actions.DeleteProjectConsistent` | src/server/actions.ts:43-48 | deleting the links first keeps every constraint, and so does then deleting the project |
| `Actions.DeleteProjectRemovesOnly` | src/server/actions.ts:45-48 | afterwards no link or project has the id; every other link and project is kept in order |
| `Actions.DeleteSkillConsistent` | src/server/actions.ts:88-93 | deleting the links first keeps every constraint, and so does then deleting the skill |
| `Actions.DeleteSkillRemovesOnly` | src/server/actions.ts:90-93 | afterwards no link or skill has the id; every other link and skill is kept in order |
| `Actions.DeleteSkillKeepsCategories` | src/server/actions.ts:93 | deleting a skill keeps every remaining category text well formed |
| `Actions.ProjectFirstBreaksReferences` | src/server/actions.ts:44-48 | deleting a linked project before its links would break a foreign key |
| `Actions.SkillFirstBreaksReferences` | src/server/actions.ts:89-93 | deleting a linked skill before its links would break a foreign key |
| `Actions.RenameIn` | src/server/actions.ts:113-115 | the rewritten list has the length of the original |
| `Actions.RenameInAt` | src/server/actions.ts:113-115 | each entry becomes the new name when it is the old one and is kept otherwise |
| `Actions.RenameMembers` | src/server/actions.ts:113-115 | a name is in the rewritten list exactly when it is the new name and the old one was there, or it was there and is not the old name |
| `Actions.RenameStable` | src/server/actions.ts:106-115 | a list without the old name is unchanged, and renaming twice is renaming once |
| `Actions.MapAll` | src/server/actions.ts:106-112 | a map whose step may throw gives all results, one per element, or none |
| `Actions.MapAllAt` | src/server/actions.ts:106-112 | the k-th result is the step applied to the k-th element, and one failing step fails the map |
| `Actions.ParseAll` | src/server/actions.ts:108 | every skill's list, one per skill, or nothing when some text does not parse as a JSON string array |
| `Actions.ParseAllWellFormed` | src/server/actions.ts:108 | every category text parses exactly when the table is well formed |
| `Actions.RenamedRows` | src/server/actions.ts:106-122 | the rename leaves one row per skill |
| `Actions.RenamedReadsBack` | src/server/actions.ts:111-119 | each skill keeps every column except its text, which reads back as its list with the old name replaced; a skill without the old name is untouched |
| `Actions.RenamedRowsConsistent` | src/server/actions.ts:116-122 | the rename keeps every constraint |
| `Actions.RenamedRowsParse` | src/server/actions.ts:118 | the rename writes only text that parses |
| `Actions.CountWithCategory` | src/server/actions.ts:127 | `updatedCount` never exceeds the number of skills |
| `Actions.CountIsFilterLength` | src/server/actions.ts:106-110 | `updatedCount` is the length of the filtered list, the skills whose list holds the old name |
| `Actions.ParseEach` | src/server/actions.ts:106-110 | the loop parsing every skill's text returns `ParseAll` |
| `Actions.RenameEach` | src/server/actions.ts:111-122 | the loop rewriting the lists returns `RenamedRows` and `CountWithCategory` |
| `Actions.ReadBack` | src/server/actions.ts:77-80 | `createSkill` returns the inserted row with exactly the list it was given |
| `Actions.AppendProjectConsistent` | src/server/db/schema.ts:5-18 | a project with a fresh id and slug keeps the constraints |
| `Actions.AppendSkillConsistent` | src/server/db/schema.ts:21-29 | a skill with a fresh id and name keeps the constraints |
| `Actions.EncodedRowKeepsCategories` | src/server/actions.ts:69 | a row whose text the encoder wrote keeps the table well formed |
| `Actions.Store.constructor` | src/server/db/schema.ts:5-39 | the empty tables meet every constraint |
| `Actions.Store.CreateProject` | src/server/actions.ts:8-41 | keeps the constraints; rejects a taken slug and changes nothing; otherwise appends the row with the next id, empty URLs stored as null and `featured` as given |
| `Actions.Store.DeleteProject` | src/server/actions.ts:43-55 | keeps the constraints; removes the project's links, then the project; skills unchanged |
| `Actions.Store.CreateSkill` | src/server/actions.ts:58-86 | keeps the constraints; rejects a taken name; otherwise stores the list as JSON text and returns exactly the list given |
| `Actions.Store.DeleteSkill` | src/server/actions.ts:88-99 | keeps the constraints; removes the skill's links, then the skill; projects unchanged |
| `Actions.Store.RenameCategory` | src/server/actions.ts:101-128 | keeps the constraints; throws with the table unchanged when a text does not parse; otherwise the table becomes `RenamedRows` and the count is `CountWithCategory` |
| `Dashboard.MaxKey` | src/components/dashboard-content.tsx:61 | `Math.max` of the ids is at least every id |
| `Dashboard.MaxKeyAttained` | src/components/dashboard-content.tsx:140 | the maximum of a non-empty list is one of its ids |
| `Dashboard.NextId` | src/components/dashboard-content.tsx:61 | max + 1 is above every listed id |
| `Dashboard.SkillFormError` | src/components/dashboard-content.tsx:39-58 | a rejection always sets a non-empty error line |
| `Dashboard.SkillFormErrorMeaning` | src/components/dashboard-content.tsx:39-58 | accepted exactly when name and category trim to something and the name is new ignoring case; a blank-field message names the first blank field; the duplicate is reported only with both fields filled |
| `Dashboard.NewSkillIsFresh` | src/components/dashboard-content.tsx:53-68 | the appended skill's id differs from every id, and its trimmed non-empty name differs ignoring case from every name |
| `Dashboard.ProjectFormError` | src/components/dashboard-content.tsx:87-129 | a rejection always sets a non-empty error line |
| `Dashboard.ProjectFormErrorMeaning` | src/components/dashboard-content.tsx:90-129 | accepted exactly when every checked field is filled and the slug is new ignoring case; the duplicate message exactly when filled and taken |
| `Dashboard.ProjectFormErrorFirstBlank` | src/components/dashboard-content.tsx:90-119 | a blank-field rejection names the first blank field in the order title, slug, company, date, description, case study |
| `Dashboard.NewProjectIsFresh` | src/components/dashboard-content.tsx:122-140 | the appended project's id is above every id, and its slug differs ignoring case from every slug; title, slug, company and description are non-empty |
| `Dashboard.KeepSlugSource` | src/components/dashboard-content.tsx:185 | after the first replace only `[a-z0-9\s-]` remains |
| `Dashboard.DropWhile` | src/components/dashboard-content.tsx:186-187 | the run skipped by `+` is a prefix; what remains does not start with a run character |
| `Dashboard.CollapseRuns` | src/components/dashboard-content.tsx:186-187 | every character of the result is the replacement or a non-run character of the input |
| `Dashboard.CollapseLeavesSingleHyphens` | src/components/dashboard-content.tsx:187 | `replace(/-+/g, "-")` leaves no two hyphens together |
| `Dashboard.CollapseSingles` | src/components/dashboard-content.tsx:186-187 | squeezing runs of a class whose members are isolated, and are already the replacement, changes nothing |
| `Dashboard.SlugShape` | src/components/dashboard-content.tsx:182-189 | the suggested slug is made of `[a-z0-9-]` with no two hyphens in a row |
| `Dashboard.SlugFixed` | src/components/dashboard-content.tsx:182-189 | every step of the chain leaves such a slug as it is |
| `Dashboard.SlugIdempotent` | src/components/dashboard-content.tsx:182-189 | suggesting a slug for a suggested slug gives it back |
| `Dashboard.KeepAllSlugChars` | src/components/dashboard-content.tsx:185 | the first replace keeps a string of slug characters whole |
| `Dashboard.LowerSlugChars` | src/components/dashboard-content.tsx:184 | lower-casing leaves slug characters alone |
| `Dashboard.DashboardState.constructor` | src/components/dashboard-content.tsx:14-35 | the initial state: the given lists, both forms closed and empty, no error |
| `Dashboard.DashboardState.HandleAddSkill` | src/components/dashboard-content.tsx:39-74 | on error only the error line changes; otherwise exactly `NewSkill` is appended (trimmed name, level 50, next id) and the form is cleared and closed |
| `Dashboard.DashboardState.HandleCancelAddSkill` | src/components/dashboard-content.tsx:76-81 | the skill form is closed and cleared; nothing else changes |
| `Dashboard.DashboardState.HandleRemoveSkill` | src/components/dashboard-content.tsx:83-85 | the skills with another id, in order; nothing else changes |
| `Dashboard.DashboardState.HandleAddProject` | src/components/dashboard-content.tsx:87-163 | on error only the error line changes; otherwise exactly `NewProject` is appended (trimmed text fields, next id) and the form is reset and closed |
| `Dashboard.DashboardState.HandleCancelAddProject` | src/components/dashboard-content.tsx:165-180 | the project form is closed and reset; nothing else changes |
| `Dashboard.DashboardState.HandleRemoveProject` | src/components/dashboard-content.tsx:191-193 | the projects with another id, in order; nothing else changes |
| `ProjectFilter.Selected` | src/components/project-filter.tsx:180 | the non-null slots: a skill is selected exactly when a slot holds it |
| `ProjectFilter.FilterProjectsIsFilter` | src/components/project-filter.tsx:179-195 | the early return for an empty spread agrees with the general filter |
| `ProjectFilter.ShownMeaning` | src/components/project-filter.tsx:179-195 | all slots empty shows every project; otherwise a project is shown exactly when it carries every selected skill's id; the shown list keeps catalogue order |
| `ProjectFilter.FillKeepsSelected` | src/components/project-filter.tsx:215-216 | filling an empty slot keeps every selected skill and adds the new one |
| `ProjectFilter.FillNarrows` | src/components/project-filter.tsx:189-191 | filling an empty slot never enlarges the shown list |
| `ProjectFilter.ClearWidens` | src/components/project-filter.tsx:222-226 | emptying a slot never shrinks the shown list |
| `ProjectFilter.SelectedCountMeaning` | src/components/project-filter.tsx:230 | the selected count is at most the slot count, and 0 exactly when every slot is empty |
| `ProjectFilter.FilterState.constructor` | src/components/project-filter.tsx:118-120 | three empty slots, every project shown, no active drag |
| `ProjectFilter.FilterState.SelectedSkillCount` | src/components/project-filter.tsx:230 | `selectedSkillCount` is at most 3, and 0 exactly when no slot holds a skill |
| `ProjectFilter.FilterState.ApplyFilter` | src/components/project-filter.tsx:179-195 | the shown list becomes `FilterProjects` of the given slots |
| `ProjectFilter.FilterState.ResetFilter` | src/components/project-filter.tsx:174-177 | all slots emptied and every project shown |
| `ProjectFilter.FilterState.HandleDragStart` | src/components/project-filter.tsx:197-199 | records the dragged id; slots and shown list unchanged |
| `ProjectFilter.FilterState.HandleDragEnd` | src/components/project-filter.tsx:201-219 | the active id is cleared; a skill dropped on slot p changes only slot p and refilters; anything else changes no slot |
| `ProjectFilter.FilterState.RemoveSkillFromSlot` | src/components/project-filter.tsx:222-227 | slot p emptied, the others kept, the shown list refiltered |
| `EditableSkills.AvailableMeaning` | src/components/editable-skills.tsx:26-28 | a catalogue skill is offered exactly when no assigned skill has its id; the offer keeps catalogue order |
| `EditableSkills.AvailableDisjoint` | src/components/editable-skills.tsx:26-28 | offered and assigned skills share no id |
| `EditableSkills.AddedIsWithdrawn` | src/components/editable-skills.tsx:49-60 | after an add the skill's id is no longer offered, and the offer only shrinks |
| `EditableSkills.RemovedIsOffered` | src/components/editable-skills.tsx:35 | after a remove every catalogue skill with that id is offered again |
| `EditableSkills.SkillsEditor.constructor` | src/components/editable-skills.tsx:16-23 | the given lists, picker closed, nothing loading |
| `EditableSkills.SkillsEditor.ShowsAddButton` | src/components/editable-skills.tsx:97 | "Add Skill" is shown exactly when the picker is closed and some catalogue skill is unassigned |
| `EditableSkills.SkillsEditor.SetIsAdding` | src/components/editable-skills.tsx:100 | opens or closes the picker; nothing else changes |
| `EditableSkills.SkillsEditor.HandleRemoveSkill` | src/components/editable-skills.tsx:30-42 | on success exactly the entries with that id are dropped; on failure the list is unchanged; the loading marker is cleared either way |
| `EditableSkills.SkillsEditor.HandleAddSkill` | src/components/editable-skills.tsx:44-68 | on success the skill is appended at the end; on failure unchanged; loading cleared and picker closed either way |
| `ImageDropzone.RemoveAt` | src/components/multi-image-dropzone.tsx:85-88 | an index out of range changes nothing; otherwise exactly that position is removed and the rest keep their order |
| `ImageDropzone.InsertAt` | src/components/multi-image-dropzone.tsx:103 | `splice(index, 0, x)`: `x` at `index`, the rest shifted in order |
| `ImageDropzone.InsertRemoved` | src/components/multi-image-dropzone.tsx:102-103 | putting a removed image back where it was restores the list |
| `ImageDropzone.RemoveInserted` | src/components/multi-image-dropzone.tsx:102-103 | removing what was just inserted gives the list back |
| `ImageDropzone.Move` | src/components/multi-image-dropzone.tsx:100-103 | the moved list has the same length, with the dragged image at the target |
| `ImageDropzone.MoveIsPermutation` | src/components/multi-image-dropzone.tsx:100-103 | a move neither loses nor duplicates an image |
| `ImageDropzone.MoveBack` | src/components/multi-image-dropzone.tsx:100-104 | dragging the image back to where it came from undoes the move |
| `ImageDropzone.ImageUrls` | src/components/multi-image-dropzone.tsx:53-56 | only the data URLs of image files are taken, at most one per file |
| `ImageDropzone.JsSliceEnd` | src/components/multi-image-dropzone.tsx:51 | `slice(0, end)` stops at `end` when it is in range and never past the list |
| `ImageDropzone.FilesToProcess` | src/components/multi-image-dropzone.tsx:50-51 | the slice is a prefix of the files; with a non-negative number of free slots it holds exactly as many files as there are free slots, or all of them when there are fewer |
| `ImageDropzone.StaleBatch` | src/components/multi-image-dropzone.tsx:59-62 | every callback of a batch starts from the same captured list and adds at most one image |
| `ImageDropzone.StaleBatchDropsImages` | src/components/multi-image-dropzone.tsx:53-62 | two image files in one drop leave only the second added |
| `ImageDropzone.Dropzone.constructor` | src/components/multi-image-dropzone.tsx:15-23 | the given list and cap, no drag, empty URL field |
| `ImageDropzone.Dropzone.HandleUrlAdd` | src/components/multi-image-dropzone.tsx:78-83 | the trimmed URL is appended and the field cleared exactly when it is not blank and the list is below the cap; this path never passes the cap |
| `ImageDropzone.Dropzone.HandleRemoveImage` | src/components/multi-image-dropzone.tsx:85-88 | the list becomes `RemoveAt` of the index |
| `ImageDropzone.Dropzone.HandleImageDragStart` | src/components/multi-image-dropzone.tsx:91-94 | records the dragged index |
| `ImageDropzone.Dropzone.HandleImageDragEnd` | src/components/multi-image-dropzone.tsx:108-110 | clears the dragged index |
| `ImageDropzone.Dropzone.HandleImageDragOver` | src/components/multi-image-dropzone.tsx:96-106 | no drag, or over the dragged image itself: nothing changes; otherwise the list becomes `Move` and the dragged index becomes the target; always a permutation |
| `ImageDropzone.Dropzone.HandleFilesAsWritten` | src/components/multi-image-dropzone.tsx:49-65 | called only while another image fits (the drop zone and the file input exist only under `canAddMore`, lines 195-215); the list ends as `StaleBatch` of the captured list and the image URLs of the slice, and stays within the cap |
| `ImageDropzone.Dropzone.HandleFiles` | src/components/multi-image-dropzone.tsx:49-65 | called only while another image fits (lines 195-215); with the stale-closure fix, the image URLs of the slice are appended in file order, and the list stays within the cap |
| `ProjectHighlights.NextIndex` | src/components/project-highlights.tsx:64-73 | desktop: never past `max(0, n-4)`, one step forward below it; mobile: below `n` |
| `ProjectHighlights.PrevIndex` | src/components/project-highlights.tsx:75-83 | desktop: one step back above 0, never below 0; mobile: below `n` |
| `ProjectHighlights.MobileWrapInverse` | src/components/project-highlights.tsx:71-81 | on a narrow window next and previous undo each other at every index |
| `ProjectHighlights.DesktopStaysClamped` | src/components/project-highlights.tsx:67-78 | from a start within the clamp next stays in it, and previous undoes a next that moved |
| `ProjectHighlights.NextDisabledIffStuck` | src/components/project-highlights.tsx:141-144 | the next button is disabled exactly when pressing it would not move forward |
| `ProjectHighlights.VisibleCards` | src/components/project-highlights.tsx:90-96 | desktop: the slice from the index, 1 to 4 cards, full exactly when 4 remain; mobile: the card at the index |
| `ProjectHighlights.TotalSlides` | src/components/project-highlights.tsx:99-105 | `max(1, n-2)` dots on desktop and `n` on mobile, at least one and at most `n` for a non-empty list |
| `ProjectHighlights.DesktopDotsOverrun` | src/components/project-highlights.tsx:99-105 | with the six cards: 4 desktop dots, but next stops at start 2, never reaches 3, and start 3 shows 3 cards |
| `ProjectHighlights.DesktopPagesReachable` | src/components/project-highlights.tsx:64-68 | one dot per start that next reaches from the first, each a full page when there are at least 4 cards |
| `ProjectHighlights.NextPressesCount` | src/components/project-highlights.tsx:67-68 | `k` presses of next from the first start reach start `k` within the clamp |
| `ProjectHighlights.Carousel.constructor` | src/components/project-highlights.tsx:48-50 | index 0 on a narrow window |
| `ProjectHighlights.Carousel.CheckIsDesktop` | src/components/project-highlights.tsx:53-62 | desktop exactly when the width is at least 1024; the index stays valid |
| `ProjectHighlights.Carousel.NextSlide` | src/components/project-highlights.tsx:64-73 | the index becomes `NextIndex` and stays on a card |
| `ProjectHighlights.Carousel.PrevSlide` | src/components/project-highlights.tsx:75-83 | the index becomes `PrevIndex` and stays on a card |
| `ProjectHighlights.Carousel.GoToSlide` | src/components/project-highlights.tsx:85-87 | the index becomes the dot's index |
| `EditableField.KeyActionOf` | src/components/editable-field.tsx:75-82 | Enter saves exactly when the field is not a text area; Escape cancels |
| `EditableField.Field.constructor` | src/components/editable-field.tsx:34-36 | not editing, the draft equals the value, not saving |
| `EditableField.Field.ValueChanged` | src/components/editable-field.tsx:39-41 | a new value prop resets the draft to it |
| `EditableField.Field.StartEditing` | src/components/editable-field.tsx:165 | opens the input; nothing else changes |
| `EditableField.Field.Type` | src/components/editable-field.tsx:112 | typing sets the draft only |
| `EditableField.Field.HandleSave` | src/components/editable-field.tsx:52-68 | an unchanged draft closes without calling `onSave`; success closes; failure resets the draft and stays open; not saving afterwards either way |
| `EditableField.Field.HandleCancel` | src/components/editable-field.tsx:70-73 | the draft is reset to the value and the input closed |
| `EditableField.Field.HandleKeyDown` | src/components/editable-field.tsx:75-82 | Enter outside a text area behaves as `HandleSave`, Escape as `HandleCancel`, any other key changes nothing |
| `SkillCard.TierOf` | src/components/magical-skill-card.tsx:166-172 | Expert exactly from 85, Advanced exactly in 70-84, Intermediate exactly in 50-69, Learning exactly below 50 |
| `SkillCard.TierMonotone` | src/components/magical-skill-card.tsx:166-172 | a higher level never gets a lower tier |
| `SkillCard.Toggle` | src/components/magical-skill-card.tsx:100 | a click selects the card exactly when it was not selected and deselects it exactly when it was |
| `SkillCard.ToggleTwice` | src/components/magical-skill-card.tsx:100 | two clicks restore the selection exactly when no card or that card was selected; otherwise they leave none selected |
| `SkillCard.RoundedMean` | src/components/magical-skill-card.tsx:187 | `Math.round(sum / n)` as exact half-up rounding: `2nr <= 2sum + n < 2nr + 2n` |
| `SkillCard.SumWithin` | src/components/magical-skill-card.tsx:187 | the sum of levels between `lo` and `hi` lies between `n*lo` and `n*hi` |
| `SkillCard.RoundedMeanWithin` | src/components/magical-skill-card.tsx:187 | a rounded mean of values between `lo` and `hi` is between them |
| `SkillCard.AverageWithin` | src/components/magical-skill-card.tsx:187 | the displayed average lies between the lowest and highest level |
| `SkillCard.FrontendAverageRoundsUp` | src/components/magical-skill-card.tsx:17-27 | the Frontend card's levels sum to 350, and 87.5 displays as 88 |
| `SkillCard.SkillCards.constructor` | src/components/magical-skill-card.tsx:87-88 | no card selected, no skill hovered |
| `SkillCard.SkillCards.ClickCard` | src/components/magical-skill-card.tsx:100 | the selection becomes `Toggle` of it |
| `SkillCard.SkillCards.MouseEnter` | src/components/magical-skill-card.tsx:132 | the hovered skill becomes the one entered |
| `SkillCard.SkillCards.MouseLeave` | src/components/magical-skill-card.tsx:133 | no skill is hovered |
| `SkillCard.SkillCards.BarWidth` | src/components/magical-skill-card.tsx:155 | the bar is the level whenever the card is selected or the skill hovered, and 0 otherwise |

## Left out

- **I/O is not modelled.** This covers `revalidatePath`, `console.error`, `fetch`, `NextResponse`
  serialisation and the database driver. Query results are input sequences, and the store is
  an in-memory class.
- **Clocks and dates are parameters.** `Date.now()` ids, `new Date()` timestamps and
  `new Date(text)` parsing are `int` parameters. Dates are opaque ordered integers.
- **The database's row order is an input.** `ORDER BY` is a precondition on the rows where a
  property needs it. String order is code-point order; collation is not modelled.
- **`Promise.all` in `renameCategory` runs sequentially.** Every list is parsed before any
  update. So a text that does not parse throws with the table unchanged, and no partial
  update is modelled.
- **`Actions.Store.CreateProject` / `Actions.Store.CreateSkill`: a rejected insert still uses up
  an id.** The `serial` counter advances on a rejected insert, as a PostgreSQL sequence does.
  Other database errors (connection, type) are not modelled.
- **`Schema.CategoriesWellFormed` is not a class invariant of `Store`.** The column is plain
  text and the database does not enforce a shape. The actions that write it are proved to
  keep it (`EncodedRowKeepsCategories`, `RenamedRowsParse`, `DeleteSkillKeepsCategories`).
- **The two skill shapes are not reconciled.** The skills route reads `skills.category`, a
  single string, where the table declares `categories`, a JSON list. The route is modelled
  over the single-category `Schema.Skill` as written. The table's JSON text is modelled
  separately.
- **`JsonStrings.Encode` covers string arrays only.** Other JSON values are not modelled.
  Text is modelled as Unicode scalar values (code points), not UTF-16 code units, so a
  string with an unpaired surrogate half cannot be expressed. `JsonStrings.Decode` rejects a
  `\u` escape of an unpaired surrogate half, which `JSON.parse` accepts, so a stored list
  holding one makes the model fail where the source succeeds.
- **`ProjectsRoute.ParseRow` / `Actions.ParseAll`: valid JSON that is not a string array is a
  parse failure.** `JSON.parse` accepts texts such as `{}`, `[1]`, `null` or `"Frontend"` and
  the source goes on with the value it gets. The model treats them like malformed text, and
  so do `ProjectsRoute.BySlug`, `ProjectsRoute.GroupRows` and `Actions.Store.RenameCategory`
  through them.
- **`SkillsRoute.Get` / `CategoryGroups.GroupByCategory`: the record is a list of keys in order
  of first appearance.** A JavaScript object lists integer-like keys first, in ascending
  numeric order, so a category such as `"2024"` comes first in the response. A category named
  like an inherited member (`constructor`, `toString`, `__proto__`) finds that member instead
  of a missing list, and the `push` throws: a 500 from the route, a throw from
  `getSkillsByCategory`. The model groups such names like any other.
- **`Dashboard.MaxKey` / `Dashboard.NextId`: the empty list gives 0 and so the id 1.** In
  JavaScript `Math.max()` is `-Infinity` and the id would be `-Infinity`. Number semantics
  (floating point, precision of large ids) are not modelled.
- **`Text.ToLower` lower-cases ASCII `A`-`Z` only.** Unicode case mapping is not modelled.
  The case-insensitive duplicate checks are therefore exact only for ASCII names and slugs.
- **The `try`/`catch` of `handleAddProject` is omitted.** The block it guards calls nothing
  that throws in the model, so the "Failed to create project" branch is unreachable.
- **The dashboard's slug suggestion is wired to the form but not as a state method.** The
  title input's `onChange` writes `generateSlugFromTitle(title)` into the slug field;
  `SlugFromTitle` models the suggestion itself.
- **`ProjectFilter`'s presentation is not modelled.** This covers scroll buttons, sensors,
  the `activeSkill` lookup used only for the drag overlay, and the status text.
- **`ProjectFilter.FilterState.HandleDragEnd` treats positions as 0-2.** Drop targets are the
  three rendered slots, so a position outside 0-2 cannot arrive.
- **`ImageDropzone.Dropzone.HandleImageDragOver` requires in-range indices.** It requires the
  dragged index and the target to name images. A stale dragged index left after a removal
  during a drag is not modelled.
- **`ImageDropzone.Dropzone.HandleFiles`: the `FileReader` callbacks run in file order.**
  Completion order is not modelled. The file-level drag highlight (`isDragging` on drag over
  and leave) and the file input reset are presentation.
- **`EditableSkills.SkillsEditor.HandleAddSkill` / `HandleRemoveSkill`: the server call is a
  boolean parameter.** A throw counts as failure. The server actions `addSkillToProject` and
  `removeSkillFromProject` are not part of this model.
- **`EditableSkills.SkillsEditor.HandleRemoveSkill` / `HandleAddSkill` run one at a time.**
  Each is modelled as one atomic step from the current list. In the source only the clicked
  control is disabled, and each handler passes `onUpdate` the `assignedSkills` captured at
  its click. So when two calls overlap, the later `onUpdate` overwrites the earlier one's
  change. That interleaving is not modelled.
- **`EditableField.Field.HandleSave` requires that no save is under way.** The input and both
  buttons are disabled while saving. Enter's save is not awaited by `handleKeyDown`, and it
  is modelled as completing before the next event.
- **`ProjectHighlights.Carousel.GoToSlide` requires an index below the dot count.** The dots
  are its only callers. The card components, the scroll container and the mobile layout are
  presentation.
- **`SkillCard.RoundedMean` treats `Math.round(sum / n)` as exact rational rounding.** This
  rounds halves up. Floating-point error in the division is not modelled.
- **`SkillCard.ToggleTwice` holds only in two cases.** Two clicks restore the selection only
  when no card or the same card was selected. When another card was selected, they leave
  none selected, and the lemma states both cases.
- **Icons, gradients, animations and hover scaling are presentation.** Only the selection,
  the hovered skill, the bar width, the tier and the average are modelled.

## Findings

| source | as written | input that shows it | evidently intended | confidence | as-written member | corrected member |
|---|---|---|---|---|---|---|
| src/components/multi-image-dropzone.tsx:53-62 | each `reader.onload` calls `onImagesChange([...images, dataUrl])` with the `images` captured when the drop happened | two image files dropped together onto a list `L` | `L` plus both images | not executed | `ImageDropzone.StaleBatchDropsImages` | `ImageDropzone.Dropzone.HandleFiles` |
| src/components/project-highlights.tsx:99-105 | the desktop dot count is `max(1, n - 2)`, while next stops at `max(0, n - 4)` | the six built-in cards: 4 dots but starts 0-2 only; the fourth dot jumps to start 3, which shows 3 cards | one dot per reachable start, `max(0, n - 4) + 1` | not executed | `ProjectHighlights.DesktopDotsOverrun` | `ProjectHighlights.DesktopPagesReachable` |
