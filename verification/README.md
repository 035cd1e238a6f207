# Portfolio site: a Dafny model

This project models the working parts of a personal portfolio website. The site has three parts:

- **Server.** A small Express API keeps the site's content (projects, contact messages, certifications, LinkedIn posts, skills, blogs, contact info, education, selected GitHub projects). It stores them as one JSON file per table. An older in-memory store with the same interface is kept as well. The server also looks for showcase images in GitHub repositories.
- **Shared schema.** The table definitions and the insert schemas that validate request bodies.
- **Client pages.** These classify repositories, build badges and cards, group skills, reorder lists by drag and drop, fall back between project images, build social links, send the contact form, and build the admin panel's requests.

Records are JSON objects: `Json.Record` is a map from field name to a flat `Json.Value`, and an absent key is `undefined`. Object spread is map union and `??` is `Json.Coalesce`. JavaScript truthiness is `Json.Truthy`.

Code that works step by step is modelled as methods proved against specification functions. That covers:

- both stores (classes whose fields the methods reassign);
- the drag-and-drop move (an array shifted in place);
- the skill grouping and the social-link builder (loops);
- the contact form, project card and admin panel (classes whose state the handlers update);
- the image fetcher (loops with an early return).

Everything else is functions and lemmas.

Modules, one file each:

| module | models |
|---|---|
| `Wrappers`, `Strings`, `Seqs` | `Option`/`Result`, the string built-ins (`includes`, `toLowerCase`, `split`, `replace`, `substring`, `parseInt`) and the array built-ins (`filter`, `find`, `findIndex`, stable `sort`, `slice`) |
| `Json` | record values, truthiness, spread, `??` |
| `Schema` | `shared/schema.ts`: tables and insert schemas |
| `Records` | the create fills, id allocation and featured/newest-first listings both stores share |
| `MemStore` | `server/storage.ts` (`MemStorage`) |
| `FileStore` | `server/fileStorage.ts` (`FileStorage`) |
| `Routes` | `server/routes.ts` |
| `ImageFetcher` | `server/githubImageFetcher.ts` |
| `GitHub` | `client/src/lib/github.ts` |
| `ProjectsPage`, `BlogPage`, `AboutPage`, `ContactPage`, `AdminPanel` | the pages of the same names |
| `DraggableList`, `ProjectCard` | the components of the same names |

How the outside world enters the model:

- The clock is an integer number of milliseconds passed in.
- `new Date(text)` is a parameter `parseDate: string -> Option<int>`.
- The answer of the GitHub proxy is a parameter of the route environment.
- The HEAD request of the image fetcher is an oracle `headOk: string -> bool`.
- The admin token in local storage is a parameter.

## Model

| member | source | states |
|---|---|---|
| Json.Spread | server/storage.ts:205-212 | `{...a, ...b}`: every key of either, with `b` winning where both have it |
| Schema.InsertColumns | shared/schema.ts:104-150 | one insert column per table field; the blog and LinkedIn schemas replace `publishedAt` by a date-or-text column |
| Schema.FieldsOmitIdAndCreatedAt | shared/schema.ts:104-150 | no table's insert fields include `id` or `createdAt` |
| Schema.InsertOmitsIdAndCreatedAt | shared/schema.ts:104-150 | an accepted body never carries `id` or `createdAt` |
| Schema.ParseColumns | shared/schema.ts:104-150 | the parsed record holds only fields the schema names; unknown fields are dropped |
| Schema.ParseColumnsOk | shared/schema.ts:104-150 | a body is accepted exactly when every column accepts its field (required present with the right kind, null only where nullable) |
| Schema.ParseColumnsFields | shared/schema.ts:104-150 | a parsed field is present exactly when the body has it and the schema knows it, and holds the body's value converted by its column |
| Schema.ParseInsertOk | shared/schema.ts:99-150 | the acceptance condition of every insert schema, column by column |
| Schema.UserPick | shared/schema.ts:99-102 | the user schema keeps exactly `username` and `password`, both required text |
| Schema.ColumnNamedAt | shared/schema.ts:5-97 | the column lookup finds the first column with a name |
| Schema.PublishedAtCoerced | shared/schema.ts:119-140 | a text `publishedAt` is stored as the date it denotes or as an invalid date, never as text |
| Schema.ProjectGithubId | shared/schema.ts:11-13 | an accepted project carries a numeric `githubId`, kept as sent |
| Schema.CertificationRequired | shared/schema.ts:33-37 | an accepted certification has text title, issuer and year |
| Schema.CertificationMinimal | shared/schema.ts:33-42 | those three fields alone, with null image and description, are accepted |
| Schema.EducationStatusFreeText | shared/schema.ts:95 | the status comment's four values are not enforced: any text keeps a body accepted |
| Records.NewRecord | server/storage.ts:188-203 | a created record has the new id, the creation time (not on users), each default field as `insert.k ?? default`, every other inserted field unchanged, and nothing else |
| Records.NewRecordFilled | server/storage.ts:188-203 | a field with a non-null default is never null after create, and keeps a non-null inserted value |
| Records.StoreDefaultsAgree | shared/schema.ts:15-166 | the store fills agree with the schema defaults of every optional column except a selected project's `displayOrder` |
| Records.MaxId | server/fileStorage.ts:251-265 | `Math.max(0, ...ids)`: at least 0, at least every id, and equal to one of them unless 0 |
| Records.NewId | server/fileStorage.ts:251-265 | the next file-store id is at least 1, is 1 on an empty list, and no stored record holds it |
| Records.NewIdAfterDeletingMax | server/fileStorage.ts:251-287 | after deleting the largest id, the next create reuses it exactly when it is 1 or the id just below it is stored |
| Records.Featured | server/storage.ts:234-236 | the featured filter keeps exactly the stored records that are featured |
| Records.NewestFirstOrdered | server/storage.ts:267-271 | newest-first listing is a permutation in non-increasing publication time, where a date stored as text is read by `new Date(text)` |
| Records.TextDateSortsAsDate | server/fileStorage.ts:309-312 | a record whose date is stored as ISO text is listed before one published earlier, as its date would be |
| Records.FeaturedNewestCommute | server/storage.ts:273-277 | filter-then-sort (memory store) equals sort-then-filter (file store, server/fileStorage.ts:314-317) |
| MemStore.Values | server/storage.ts:178-180 | `Array.from(map.values())`: one record per key, in key order |
| MemStore.AddFresh | server/storage.ts:171-176 | the counter id is not yet used and adding under it keeps the map valid with the counter one higher |
| MemStore.AddValues | server/storage.ts:188-203 | a created record comes last in iteration order |
| MemStore.ReplaceValid | server/storage.ts:205-212 | replacing a present entry keeps the map valid |
| MemStore.ReplaceInPlace | server/storage.ts:205-212 | setting an existing key changes that record only and keeps its place |
| MemStore.DropKeySplit | server/storage.ts:262-264 | deleting a key removes exactly its position from the key order |
| MemStore.DropKeyFacts | server/storage.ts:262-264 | after a delete the keys are distinct and are the old keys without the id |
| MemStore.RemoveFacts | server/storage.ts:262-264 | deleting keeps the map valid, removes the id, and changes nothing when it was absent |
| MemStore.CreateKeepsTablesOk | server/storage.ts:188-203 | adding a record under the table's counter and bumping the counter keeps every table's ids distinct and below its counter |
| MemStore.RemoveValues | server/storage.ts:262-264 | deleting a present id removes that record and keeps the others in order |
| MemStore.IdsNeverReused | server/storage.ts:54-79 | over any run of creates, updates and deletes the issued ids strictly increase and stay between the old and new counters |
| MemStore.TablesOkUpdate | server/storage.ts:46-61 | replacing one table and its counter keeps every table valid |
| MemStore.MemStorage.constructor | server/storage.ts:63-83 | every table empty, every counter 1, no contact info |
| MemStore.MemStorage.Listing | server/storage.ts:267-271 | LinkedIn posts and blogs come sorted newest first, in non-increasing publication time; every other getter returns the records in insertion order (server/storage.ts:178-180); always a permutation of the stored records |
| MemStore.MemStorage.FeaturedListing | server/storage.ts:273-277 | featured LinkedIn posts and blogs are the featured records sorted newest first; the other featured getters filter in insertion order (server/storage.ts:234-236) |
| MemStore.MemStorage.Lookup | server/storage.ts:161-163 | `map.get(id)`: present exactly when the id is a key |
| MemStore.MemStorage.FindBy | server/storage.ts:165-169 | `find` by field: the first record in insertion order holding the value, or none holds it |
| MemStore.MemStorage.Create | server/storage.ts:188-203 | the new record gets the counter as id, is appended to its table, the counter rises by one, and nothing else changes |
| MemStore.MemStorage.Update | server/storage.ts:205-212 | `undefined` exactly for a missing id; otherwise the spread merge, stored in place |
| MemStore.MemStorage.Delete | server/storage.ts:262-264 | answers whether the id was present; afterwards it is absent and the counters are unchanged |
| MemStore.MemStorage.CreateContactInfo | server/storage.ts:387-400 | replaces the singleton with the defaults-filled record under the next contact-info id |
| MemStore.MemStorage.UpdateContactInfo | server/storage.ts:402-408 | merges only when the stored info has that id; otherwise nothing changes |
| FileStore.ReadJsonFile | server/fileStorage.ts:30-39 | a missing or unparsable file reads as the default |
| FileStore.ByDisplayOrderSorted | server/fileStorage.ts:599-602 | selected projects are listed as a permutation in ascending `displayOrder` |
| FileStore.AppendKeepsIdsUnique | server/fileStorage.ts:251-265 | appending under max+1 keeps ids unique |
| FileStore.UpdateFirst | server/fileStorage.ts:267-275 | none exactly when no record has the id; otherwise only the first match is merged |
| FileStore.UpdateKeepsIdsUnique | server/fileStorage.ts:267-275 | an update whose body carries no other id keeps ids unique |
| FileStore.UpdateCanDuplicateIds | server/fileStorage.ts:267-275 | an update body with another record's id produces two records with one id |
| FileStore.WithoutFacts | server/fileStorage.ts:277-287 | delete shrinks the list exactly when a record had the id; afterwards none has it and all others remain |
| FileStore.RankFacts | server/fileStorage.ts:289-306 | a listed record's rank is its index in the id list; an unlisted one's is 999 |
| FileStore.ReorderedFacts | server/fileStorage.ts:289-306 | reorder returns the tagged records as a permutation in ascending rank, listed before unlisted when at most 999 ids are given |
| FileStore.Listing | server/fileStorage.ts:309-312 | LinkedIn posts and blogs newest first in non-increasing publication time, selected projects ascending in display order (server/fileStorage.ts:599-602), every other list as stored; always a permutation of the file |
| FileStore.FeaturedListing | server/fileStorage.ts:314-317 | exactly the featured stored records; for LinkedIn posts and blogs in the order the memory store gives by filtering first and sorting after, and otherwise in file order (server/fileStorage.ts:246-249) |
| FileStore.FindBy | server/fileStorage.ts:162-170 | the first record in the file holding the field value, or none holds it |
| FileStore.CreateFacts | server/fileStorage.ts:251-265 | the new id is above every stored id; create appends the new record to what it read and writes no other file |
| FileStore.CreateAppends | server/fileStorage.ts:251-265 | outside selected projects, create keeps every stored record in place and keeps ids unique |
| FileStore.SelectedDisplayOrder | server/fileStorage.ts:604-624 | a selected project created without `displayOrder` gets the count stored before it |
| FileStore.Updated | server/fileStorage.ts:267-275 | the answer is the first record with the id, merged; none when no record has it |
| FileStore.AfterUpdate | server/fileStorage.ts:267-275 | an update writes nothing when the id is missing, otherwise the merged list only |
| FileStore.Deleted | server/fileStorage.ts:277-287 | delete answers true exactly when some record had the id |
| FileStore.AfterDelete | server/fileStorage.ts:277-287 | the filtered list is written only when it shrank |
| FileStore.AfterReorder | server/fileStorage.ts:289-306 | reorder writes the ranked records and touches no other file |
| FileStore.ContactInfoOf | server/fileStorage.ts:512-514 | contact info is present exactly when the file holds an object |
| FileStore.NewContactInfo | server/fileStorage.ts:516-528 | created contact info always has id 1 |
| FileStore.AfterCreateContactInfo | server/fileStorage.ts:516-528 | create replaces the stored contact info and writes no other file |
| FileStore.UpdatedContactInfo | server/fileStorage.ts:530-537 | the update applies only when the stored info has that id, and is the spread merge |
| FileStore.AfterUpdateContactInfo | server/fileStorage.ts:530-537 | nothing is written unless the update applies |
| FileStore.FileStorage.constructor | server/fileStorage.ts:16-20 | the store starts on the given data directory |
| FileStore.FileStorage.Create | server/fileStorage.ts:251-265 | the method's record and directory are those of `Created` and `AfterCreate` |
| FileStore.FileStorage.Update | server/fileStorage.ts:267-275 | the method's answer and directory are those of `Updated` and `AfterUpdate` |
| FileStore.FileStorage.Delete | server/fileStorage.ts:277-287 | the method's answer and directory are those of `Deleted` and `AfterDelete` |
| FileStore.FileStorage.Reorder | server/fileStorage.ts:289-306 | answers true and leaves the directory of `AfterReorder` |
| FileStore.FileStorage.CreateContactInfo | server/fileStorage.ts:516-528 | the method's record and directory are those of the create specification |
| FileStore.FileStorage.UpdateContactInfo | server/fileStorage.ts:530-537 | the method's answer and directory are those of the update specification |
| Routes.GuardStrength | server/routes.ts:150-153 | the exact header check implies the prefix check (server/routes.ts:230-233); the prefix check takes any bearer token; the exact one only `admin123` |
| Routes.Registered | server/routes.ts:34-540 | the 31 API registrations in order |
| Routes.MatchesLit | server/routes.ts:34-540 | a matching path spells out every literal segment |
| Routes.Dispatch | server/routes.ts:34-540 | the route taken is the first registered one whose verb and pattern match, or none |
| Routes.ShadowedBy | server/routes.ts:268-288 | a later route with the same verb and pattern as an earlier one never takes a request |
| Routes.DuplicatesUnreachable | server/routes.ts:268-288 | the second LinkedIn update and the second contact-info update (server/routes.ts:520-540) never take a request |
| Routes.ResourceNames | server/routes.ts:34-540 | every registered path is `/api/<resource>...` with the resource named |
| Routes.LinkedinPutTakesPrefix | server/routes.ts:246-266 | a LinkedIn update goes to the handler with the prefix check |
| Routes.PrefixGuardedRoutes | server/routes.ts:230-249 | exactly LinkedIn create/update and contact-info create/update use the prefix check |
| Routes.GuardComesFirst | server/routes.ts:150-207 | a guarded handler whose check fails answers 401 and writes nothing |
| Routes.UnregisteredPaths | server/routes.ts:34-540 | no API route takes selected-project, education or contact-message paths |
| Routes.UpsertFacts | server/routes.ts:45-63 | a valid project with an unseen GitHub id is created, appended and answered; otherwise the first record holding the found project's id (the found project itself when ids are unique) is merged with the body in place, every other record and file is kept, and the merged record is the answer; when no record holds that id nothing is written and the answer is `undefined` |
| Routes.UpsertFound | server/routes.ts:52-54 | the update branch: which record the merge lands on, and what is written |
| Routes.UploadFacts | server/routes.ts:66-99 | no file gives 400; images go to `imageUrl`, other files to `videoUrl`; an unknown project gives 404 and writes nothing |
| Routes.LoginFacts | server/routes.ts:118-127 | login succeeds exactly for the password `admin123`, never writes, and otherwise answers 401 |
| Routes.ContactFacts | server/routes.ts:102-115 | a valid message is appended and answered with success; an invalid one gets 400 and writes nothing |
| Routes.MissingIdNotFound | server/routes.ts:166-207 | update and delete of an id no record holds answer 404 and write nothing |
| ImageFetcher.UrlsOf | server/githubImageFetcher.ts:26-27 | one raw-content URL per candidate name, in order |
| ImageFetcher.FormatOf | server/githubImageFetcher.ts:40 | the format is the last dot-separated piece of the name, null when empty |
| ImageFetcher.FormatIsExtension | server/githubImageFetcher.ts:40 | that piece is a non-empty dot-free suffix of the name that follows a dot, when there is one |
| ImageFetcher.StemFormats | server/githubImageFetcher.ts:17-24 | a dot-free stem with `.jpg`, `.png` or `.jpeg` appended has that format |
| ImageFetcher.CandidateFormat | server/githubImageFetcher.ts:17-24 | each candidate's format is jpg, png or jpeg, in that cycle |
| ImageFetcher.ExtensionOf | server/githubImageFetcher.ts:40 | for `stem.ext` with both parts dot-free, the format is `ext` |
| ImageFetcher.FirstHit | server/githubImageFetcher.ts:26-42 | the first candidate whose probe answers, or none does |
| ImageFetcher.ShowcaseImage | server/githubImageFetcher.ts:26-53 | a URL exactly when some candidate answers; then the first such candidate's URL and format; otherwise both null |
| ImageFetcher.FoundFormat | server/githubImageFetcher.ts:38-41 | a found image's format is jpg, png or jpeg |
| ImageFetcher.ProbesInOrder | server/githubImageFetcher.ts:26-47 | the probed URLs are a prefix of the candidates in order, all but the last failed, and stopping early means the last answered |
| ImageFetcher.NothingProbedAfterHit | server/githubImageFetcher.ts:36-42 | no candidate after one that answers is probed |
| ImageFetcher.FetchShowcaseImage | server/githubImageFetcher.ts:13-54 | the loop's result and probe list are those of `ShowcaseImage` and `Probes` |
| ImageFetcher.GitHubUrlSegments | server/githubImageFetcher.ts:68-70 | for `https://github.com/<owner>/<name>[/...]`, segments 3 and 4 are the owner and the name |
| ImageFetcher.WithShowcase | server/githubImageFetcher.ts:64-83 | a project with a truthy `imageUrl` is kept; one without and with a non-text `htmlUrl` throws |
| ImageFetcher.WithShowcaseSetsFoundImage | server/githubImageFetcher.ts:72-79 | a project is changed only by setting `imageUrl` to the URL of a candidate that answered |
| ImageFetcher.ProbesFor | server/githubImageFetcher.ts:66 | a project that has a picture triggers no probe |
| ImageFetcher.UpdateAllPointwise | server/githubImageFetcher.ts:62-85 | the update fails exactly when some project throws; otherwise it keeps length and order and each project is its own step |
| ImageFetcher.AllPicturedUntouched | server/githubImageFetcher.ts:64-83 | a list whose projects all have pictures comes back unchanged with no probes |
| ImageFetcher.UpdateProjectsWithShowcaseImages | server/githubImageFetcher.ts:59-86 | the loop's result and probes are those of `UpdateAll` and `ProbesAll` |
| ImageFetcher.UpdateOne | server/githubImageFetcher.ts:64-80 | the loop body for one project agrees with `WithShowcase` and `ProbesFor` |
| GitHub.Categorize | client/src/lib/github.ts:3-40 | "ml" exactly when an ML keyword hits, "data" exactly when no ML but a data keyword hits, "other" exactly when nothing hits |
| GitHub.DataBeforeWeb | client/src/lib/github.ts:19-37 | a data keyword makes the category data unless an ML keyword hits |
| GitHub.CategorizeIgnoresNameCase | client/src/lib/github.ts:4-5 | names with the same lower-case form get the same category |
| GitHub.NameWithMlKeywordIsMl | client/src/lib/github.ts:9-16 | an ML keyword anywhere inside the lower-cased name makes it ML |
| GitHub.HtmlSiteIsMl | client/src/lib/github.ts:9-16 | "html-site" is filed under ML, since "html" contains "ml" |
| GitHub.LanguageColor | client/src/lib/github.ts:42-62 | a palette colour for a known language, grey otherwise |
| GitHub.LanguageColorsDistinct | client/src/lib/github.ts:43-59 | distinct known languages get distinct non-grey colours |
| GitHub.LanguageColorCaseSensitive | client/src/lib/github.ts:42-62 | the lookup is case-sensitive |
| GitHub.DaysBetween | client/src/lib/github.ts:64-68 | the whole days between two instants, rounded up |
| GitHub.AgeOf | client/src/lib/github.ts:69-74 | the unit is chosen by day bucket, and weeks, months and years round up |
| GitHub.FormatLastUpdated | client/src/lib/github.ts:64-75 | an unreadable date prints "NaN years ago"; otherwise the bucketed age |
| GitHub.FormatSymmetric | client/src/lib/github.ts:67 | a future date reads like one equally far in the past |
| GitHub.FormatEdges | client/src/lib/github.ts:69-74 | 7 days reads "1 weeks ago", 364 days "13 months ago", 0 days "0 days ago" |
| ProjectsPage.FilteredRepos | client/src/pages/Projects.tsx:28-31 | no repositories give an empty list; the filter never adds any |
| ProjectsPage.AllShowsEverything | client/src/pages/Projects.tsx:28-31 | the "all" filter shows every repository in order |
| ProjectsPage.ShownExactly | client/src/pages/Projects.tsx:28-31 | under a category filter a repository is shown exactly when it is in that category |
| ProjectsPage.OtherOnlyUnderAll | client/src/pages/Projects.tsx:12-17 | an "other" repository appears under no filter button but "all" |
| ProjectsPage.FiltersPartition | client/src/pages/Projects.tsx:12-31 | the four categories split the repositories: their counts add up to the total |
| BlogPage.CategoryColor | client/src/pages/Blog.tsx:10-22 | the ML badge exactly for ML titles, then cloud, then data, else plain |
| BlogPage.ContainersLookLikeAi | client/src/pages/Blog.tsx:12 | "Containers" gets the ML badge, since it contains "ai" |
| BlogPage.CardOf | client/src/pages/Blog.tsx:66-106 | a card's badge comes from its title, and its image and description are never empty |
| BlogPage.Cards | client/src/pages/Blog.tsx:66-122 | one card per blog, in order; none while loading |
| BlogPage.ViewAllShowsNothingNew | client/src/pages/Blog.tsx:126 | "View All" shows only when more than six posts are already all on the page |
| AboutPage.GroupedPush | client/src/pages/About.tsx:59-65 | adding a skill appends it to its category's group, creating the group if needed |
| AboutPage.GroupSkills | client/src/pages/About.tsx:59-65 | the reduce loop's result is the grouping; none loaded gives `{}` |
| AboutPage.EachSkillInItsOwnGroup | client/src/pages/About.tsx:59-65 | every skill is in its category's group, every group member is a skill of that category, and no group is empty |
| AboutPage.IconForCategory | client/src/pages/About.tsx:9-16 | the icon is chosen by keyword, with "programming" first |
| AboutPage.ProgrammingWinsOverAi | client/src/pages/About.tsx:10-11 | "AI Programming" gets the code icon |
| AboutPage.CertificationPreview | client/src/pages/About.tsx:215-245 | the first three certifications, all of them when there are at most three, plus "+N more" exactly when there are more than three |
| DraggableList.MovedForward | client/src/components/DraggableList.tsx:46-48 | moving down shifts the items in between up by one |
| DraggableList.MovedBackward | client/src/components/DraggableList.tsx:46-48 | moving up shifts the items in between down by one |
| DraggableList.MoveInPlace | client/src/components/DraggableList.tsx:46-48 | the in-place shift leaves the array equal to the two splices |
| DraggableList.MovedPermutes | client/src/components/DraggableList.tsx:46-48 | the move is a permutation |
| DraggableList.MovedLandsAt | client/src/components/DraggableList.tsx:46-48 | the moved item ends at the destination |
| DraggableList.MovedKeepsOthersInOrder | client/src/components/DraggableList.tsx:46-48 | all other items keep their relative order |
| DraggableList.DragList.constructor | client/src/components/DraggableList.tsx:34 | starts with the given items, not reordering |
| DraggableList.DragList.HandleDragEnd | client/src/components/DraggableList.tsx:37-77 | no destination or the same place sends nothing; otherwise the ids of the moved list are sent and reordering starts |
| DraggableList.DragList.RequestSettled | client/src/components/DraggableList.tsx:55-76 | the success or failure toast, and reordering ends |
| ProjectCard.OwnerOf | client/src/components/ProjectCard.tsx:21 | the owner login, or "hari3100" |
| ProjectCard.SourceOf | client/src/components/ProjectCard.tsx:25-33 | stored image if present and not failed, else showcase if not failed, else stock |
| ProjectCard.ImageSrc | client/src/components/ProjectCard.tsx:25-33 | the URL of the chosen source |
| ProjectCard.BadgeMeaning | client/src/components/ProjectCard.tsx:35-37 | the badge shows exactly when the stored image shows or the showcase shows with no stored URL |
| ProjectCard.OnErrorFlags | client/src/components/ProjectCard.tsx:52-58 | an error marks the failing source, and flags are never cleared |
| ProjectCard.StockAfterFailures | client/src/components/ProjectCard.tsx:52-58 | the stock image shows exactly after two errors with a stored URL or one without, and further errors change nothing |
| ProjectCard.StoredFailureHidesBadge | client/src/components/ProjectCard.tsx:35-37 | after the stored image fails, the showcase shows without a badge |
| ProjectCard.DescriptionShown | client/src/components/ProjectCard.tsx:88 | the description, or the placeholder when it is empty |
| ProjectCard.TopicBadges | client/src/components/ProjectCard.tsx:107-119 | at most three topics, plus "+k" for the rest |
| ProjectCard.Card.constructor | client/src/components/ProjectCard.tsx:16-17 | no errors yet: the stored image shows if present, else the showcase |
| ProjectCard.Card.OnError | client/src/components/ProjectCard.tsx:52-58 | the handler's flags are those of `OnErrorFlags` |
| ContactPage.LabelDropsScheme | client/src/pages/Contact.tsx:75 | a secure address is shown without "https://" |
| ContactPage.SocialLinks | client/src/pages/Contact.tsx:36-95 | the fallback links without info; otherwise the pushed links |
| ContactPage.LinkOrder | client/src/pages/Contact.tsx:61-94 | links come as email, LinkedIn, GitHub, phone, each exactly when filled, at most four |
| ContactPage.LinkSchemes | client/src/pages/Contact.tsx:61-94 | the email link uses "mailto:" and the phone link "tel:" |
| ContactPage.LocationMakesNoLink | client/src/pages/Contact.tsx:61-94 | the location never makes a link |
| ContactPage.SubmitAsWrittenIsUnrouted | client/src/pages/Contact.tsx:109 | the form's path as written reaches no API route |
| ContactPage.ContactPathDispatch | server/routes.ts:102 | `POST /api/contact` reaches the contact-message handler |
| ContactPage.SubmitToContactPathStores | client/src/pages/Contact.tsx:104-126 | sent to the registered path, a complete form is stored at the end of the messages and answered with success |
| ContactPage.ContactForm.constructor | client/src/pages/Contact.tsx:22-28 | four empty fields, not submitting |
| ContactPage.ContactForm.HandleInputChange | client/src/pages/Contact.tsx:97-102 | only the named field changes |
| ContactPage.ContactForm.Submit | client/src/pages/Contact.tsx:104-109 | posts the form as it stands to `/api/contact-messages` and starts submitting |
| ContactPage.ContactForm.SubmitSettled | client/src/pages/Contact.tsx:110-125 | success clears the form, failure keeps it, each with its toast |
| AdminPanel.IdTextRoundTrip | client/src/pages/Admin.tsx:149 | an id written into a path parses back to itself |
| AdminPanel.LinkedinPayload | client/src/pages/Admin.tsx:175-182 | title is the first 100 characters of the content, the URL goes as `postUrl`, an empty image as null |
| AdminPanel.LinkedinPayloadAccepted | client/src/pages/Admin.tsx:175-183 | every LinkedIn payload passes the server's LinkedIn schema |
| AdminPanel.SelectedProjectPayload | client/src/pages/Admin.tsx:401-414 | the copied fields, the "" and 0 fallbacks, selected and not featured |
| AdminPanel.FeaturedToggle | client/src/pages/Admin.tsx:422-427 | the update sends only `featured`, flipped |
| AdminPanel.ToggleFlipsOnlyFeatured | client/src/pages/Admin.tsx:422-427 | merged into the project, the toggle flips `featured` and changes nothing else |
| AdminPanel.IsAlreadySelected | client/src/pages/Admin.tsx:896-898 | true exactly when some selected project holds the repository id |
| AdminPanel.ContactInfoSave | client/src/pages/Admin.tsx:144-152 | PUT to the stored info's id when some is loaded, otherwise POST, with the stored token |
| AdminPanel.ContactInfoPutDispatch | server/routes.ts:498-518 | the contact-info PUT reaches the first update registration, with the prefix check |
| AdminPanel.ContactInfoPutHandled | server/routes.ts:498-518 | a `PUT /api/contact-info/:id` is answered by the contact-info update handler |
| AdminPanel.ContactInfoSaveUpdatesStored | client/src/pages/Admin.tsx:144-152 | saving over the stored info merges the form into it, whatever token is held, even none |
| AdminPanel.EducationRequestsUnrouted | client/src/pages/Admin.tsx:211-234 | the education create and update requests reach no API route |
| AdminPanel.Panel.constructor | client/src/pages/Admin.tsx:19-24 | not authenticated, no dialog, nothing being edited |
| AdminPanel.Panel.Mount | client/src/pages/Admin.tsx:291-299 | token "admin123" authenticates; anything else opens the login dialog |
| AdminPanel.Panel.HandleEducationSubmit | client/src/pages/Admin.tsx:350-357 | PUT to the edited entry's id, or POST a new one |

## Left out

- **Files and I/O.** The file system, JSON serialisation, directory creation and the error swallowing of `writeJsonFile` (server/fileStorage.ts:22-48) are left out. The data directory is a map from file name to parsed content. A file holding something other than an array reads as an empty list.
- **Seed content.** The sample records of `initializeDefaultData` (server/storage.ts:85-159) and `initializeDefaultFiles` (server/fileStorage.ts:50-160) are not modelled. Both stores start from the state they are given.
- **Concurrency.** Concurrent requests and the interleaving of asynchronous calls are not modelled. Every call runs to completion on its own.
- **The GitHub proxy.** The proxy route (server/routes.ts:16-31) only forwards an outside answer, which is an environment parameter. React Query loading, caching and refetching are not modelled either.
- **Express behaviour.** Case-insensitive routing, trailing slashes, the static and SPA fallback, and what happens to a request no API route takes are outside the model. `Routes.Handle` answers `None` for such a request.
- **Ids and numbers.**
  - A non-numeric id parameter reads as no id; JavaScript would compare with `NaN`.
  - `parseInt` accepts decimal digits only; hex prefixes and JavaScript number precision are not modelled.
  - Numbers are unbounded integers.
- Records.MaxId: a stored `id` that is not a number counts as 0. `Math.max` would coerce numeric text such as "5" to 5, and give `NaN` for other text or a missing id. The unvalidated update bodies can store such ids (`FileStore.UpdateCanDuplicateIds`).
- **Dates.** `new Date(text)` is the parameter `parseDate`. A missing date, or one it cannot read, sorts as time 0; JavaScript gives `NaN`, which leaves the comparator's answer unspecified. The file store keeps a created record's date as a date value, where the JSON file would hold its ISO text. The sort key reads both forms alike (`Records.TextDateSortsAsDate`).
- **Lower-casing.** `toLowerCase` folds ASCII letters only.
- **Request bodies.** Bodies that are not JSON objects, and `Object.prototype` keys (such as a skill category named `constructor`), are not modelled.
- AboutPage.CategoryKey: a category holding a date value is grouped under "undefined" rather than under the date's long text form. No JSON request body can carry a date value there.
- **Blog display fields.** Non-text blog titles are read as "".
- **Group order.** The order in which the About page prints its category groups (`Object.entries`) is not modelled. `AboutPage.GroupSkills` returns a map.
- **Unregistered routes.** The client calls reorder endpoints (client/src/components/DraggableList.tsx:57), education routes (client/src/pages/Admin.tsx:213-246) and selected-project routes (client/src/pages/Admin.tsx:258). server/routes.ts registers none of them, and the model follows the code: the reorder store methods are modelled, but no route reaches them. `AdminPanel.EducationRequestsUnrouted` and `Routes.UnregisteredPaths` state the consequence.
- **DraggableList.MoveInPlace.** It shifts the elements between source and destination instead of calling `splice` twice. The result is proved equal to the two splices. The request itself and React's re-render are not modelled.
- **ImageFetcher.UpdateProjectsWithShowcaseImages.** The source mutates the caller's project objects in place, so projects updated before a later project throws stay changed in the caller's array. The model returns new records and an error, so it does not capture that aliasing.
- **ImageFetcher.FetchShowcaseImage.** The five-second timeout and the logging are folded into the oracle: a request that times out or throws answers not ok.
- **UI rendering.** Markup, styles, animations, modals and the particle background are not modelled.

## Findings

| source | as written | input that shows it | evidently intended | confidence | as-written member | corrected member |
|---|---|---|---|---|---|---|
| client/src/pages/Contact.tsx:109 | the contact form posts to `/api/contact-messages`, which server/routes.ts does not register (it registers `POST /api/contact` at server/routes.ts:102) | any form, e.g. name "a", email "a@b.c", subject "s", message "m" | post to `/api/contact`, where the message is validated and stored | high, not executed | ContactPage.SubmitAsWrittenIsUnrouted | ContactPage.SubmitToContactPathStores |
