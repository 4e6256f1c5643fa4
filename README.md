# Project access control, role requests and EcoRetreat listings — a Dafny model

The modelled system is the FastAPI backend of a real-estate project portal. Users hold roles in
projects through user-project-role assignment rows. Each role has an integer rank, and a lower
rank means more privilege. This model covers:

- The request gates (`backend/app/api/deps.py`): token to user, the superuser and active-user
  checks, the caller's rank in a project, and the rank threshold.
- The data-access layer (`backend/app/crud.py`), as a `Store` class. Its tables are fields that
  the methods reassign. Rows read by order (`.first()`, offset/limit) are sequences in table
  order; rows read by key are maps.
- The table and payload schemas, with their defaults and bounds (`backend/app/models.py`).
- The role-request workflow (`backend/app/api/routes/req.py`): list, ask, decide, delete. An
  approval deletes the requester's first assignment in the project and appends one with the
  requested role.
- The assignment routes (`backend/app/api/routes/UserProjectRole.py`): list, assign, reassign,
  revoke. Each compares the caller's rank with a role's rank.
- The project routes (`backend/app/api/routes/projects.py`), which cover four things:
  - the caller's rank on each project of the list and on one project;
  - project creation;
  - the key renaming of an update into one language;
  - image URLs.
- The EcoRetreat listing routes (`backend/app/api/routes/ecopark.py`):
  - the filter options with their placeholder cleaning;
  - the JSON filter, whose keys become column conditions and whose price may be a range;
  - the six path searches and their value coercion;
  - the zone-number and building-type helpers behind image names;
  - the copying of the chosen language into plain fields, and the deletion of `_vi`/`_en` keys.

## Layout

| file | module | models |
|---|---|---|
| `wrappers.dfy` | `Wrappers` | `Option`, `Result` and the `Error` outcomes with their HTTP status |
| `seqs.dfy` | `Seqs` | First matching row, WHERE filter, offset/limit, `SELECT DISTINCT`, a fold that stops at the first failure |
| `strutil.dfy` | `StrUtil` | The Python string builtins the routes use: `strip`, `isdigit`, `int()`, `str(int)`, `split`, `endswith`, ASCII `lower`, code-point order |
| `sorting.dfy` | `Sorting` | `sorted()` as an insertion sort on values |
| `models.dfy` | `Models` | The rows and payloads of `models.py` |
| `deps.dfy` | `Deps` | The gates of `deps.py` (pure) |
| `crud.dfy` | `Crud` | The `Store` class and the row lookups and merges of `crud.py` |
| `req.dfy` | `Req` | The routes of `req.py` |
| `user_project_role.dfy` | `UserProjectRoles` | The routes of `UserProjectRole.py` |
| `translation.dfy` | `Translation` | The shared copy-then-delete translation of dumped rows |
| `static_urls.dfy` | `StaticUrls` | The shared `build_flat_image_url` shape |
| `projects.dfy` | `Projects` | The routes of `projects.py` |
| `ecopark_names.dfy` | `EcoparkNames` | `extract_zone_number`, `normalize_building_type`, image names and URLs |
| `ecopark_filter.dfy` | `EcoparkFilter` | `filter_ecopark_by_json` |
| `ecopark_search.dfy` | `EcoparkSearch` | `search_and_publish` and the six search routes |
| `ecopark_options.dfy` | `EcoparkOptions` | `get_filter_options` and `clean_values` |

### Conventions

- Each route handler takes the already authenticated `User`. It runs the gates the route
  declares, in the order FastAPI resolves them: decorator `dependencies` first, then parameter
  dependencies in signature order, then query validation (422 for a `lang` other than `vi` or
  `en`), then the handler body.
- An `HTTPException` becomes `Err` with the matching `Error`. An uncaught exception becomes
  `Err(ValueError)` or `Err(ServerError)`; both are answered with 500.
- Ids are abstract (`Uuid = nat`). The store hands out fresh ids from a counter, which stands
  for `uuid4`.
- The clock is a parameter (`now: Time`).

### Behaviour of the code worth knowing (the model follows the code)

- **Superuser in the project gate.** `get_current_user_role_in_project` makes no exception for
  a superuser: a superuser without an assignment is refused with 403 by the project gate
  (`Deps.RoleInProject`). Only `read_projects` and `read_project_by_id` report rank 1 for a
  superuser.
- **Duplicate assignment rows.** Nothing keeps (user, project) unique, and the three readers
  of those rows disagree:
  - the gate takes the first row;
  - `read_projects` keeps the last one it visits; with exactly two rows the gate reports the
    first row's rank and the list the second's (`Projects.DuplicateRowsDisagree`);
  - `read_project_by_id` fails with a server error (`Projects.ProjectRank`).
- **Approval over duplicates.** An approval deletes only the first such row. With exactly two
  rows the second one's rank survives the approval (`Req.ApprovalOverDuplicateKeepsOldRank`).
- **Reassignment by a non-superuser.** Once `.role` is read as the join with the role table,
  the new role must be strictly MORE privileged than the caller
  (`UserProjectRoles.ReassignOnlyRaises`). The route's error message ("Bạn chỉ được gán vai trò
  thấp hơn bạn", "you may only assign roles lower than yours") says the opposite. As written,
  `UserProjectRole` declares no `role` relationship, so reading `old_record.role`
  (UserProjectRole.py:155) or `user_role.role` (line 189) raises; every reassignment or
  revocation by a non-superuser that finds its row therefore ends in a server error.
- **Re-deciding a request.** Nothing prevents deciding a request again. An approval writes the
  assignment for the path's project, not the request's stored project.
- **Search routes.** Every search route adds `project_id` to its filters. The listing table has
  no such column, so every search is refused with 400 (`EcoparkSearch.EverySearchRouteRefused`).
  The items those routes would build are modelled but never reached.
- **The JSON filter's response and price handling.**
  - Every item of `filter_ecopark_by_json` carries `project_id` as None, because the listing
    table has no such column.
  - A price text starting with `-` is read as a range with an empty lower bound, so it is
    refused with 400 (`EcoparkFilter.NegativePriceRefused`).
  - When `min_price` or `max_price` is present, a `price` key becomes a text comparison
    (`EcoparkFilter.PriceTextWithBoundKeys`).
  - A `bedroom` value that is not an integer is an uncaught ValueError.
- **Placeholder cleaning of numbers.** `clean_values` tests numbers against the placeholder
  texts; that test can never drop one (`EcoparkOptions.NumbersAlwaysValid`).

## Model

| member | source | states |
|---|---|---|
| Deps.CurrentUser | backend/app/api/deps.py:31-46 | An undecodable token is 403; a subject that is not a stored user is 404; otherwise the stored user of that subject is returned |
| Deps.ActiveSuperuser | backend/app/api/deps.py:52-55 | Passes exactly when `is_superuser`, returning the same user; otherwise 403 |
| Deps.ActiveUser | backend/app/api/deps.py:58-61 | Passes exactly when `is_active`, returning the same user; otherwise 400 |
| Deps.AccessRow | backend/app/api/deps.py:70-77 | The join's `.first()`: the index of the first assignment of (user, project) whose role exists, None exactly when there is none |
| Deps.RoleInProject | backend/app/api/deps.py:65-86 | 403 exactly when the user has no assignment in the project with an existing role, superuser or not; otherwise the user, the project id (not a role id) and the rank of the role on the first such row |
| Deps.VerifyRankInProject | backend/app/api/deps.py:91-100 | Passes exactly when rank <= threshold and returns its input unchanged; otherwise 403 |
| Deps.ActiveMember | backend/app/api/deps.py:58-86 | The active-user gate then the project gate: 400 for an inactive user, otherwise the project gate's outcome |
| Deps.RoleInProjectIgnoresFlags | backend/app/api/deps.py:65-86 | Two users with the same id get the same outcome and rank: the superuser and active flags never matter |
| Deps.RankThresholdMonotone | backend/app/api/deps.py:91-100 | A rank that passes a threshold passes every larger threshold, unchanged |
| Models.ValidateUserCreate | backend/app/models.py:18-27 | A registration payload is accepted exactly when its email passes the address check (a parameter) and has at most 255 characters, its password has 8 to 40 characters and the name and phone at most 255 and 20; otherwise 422 |
| Models.ValidateUserUpdate | backend/app/models.py:18-40 | An update is accepted exactly when every sent field obeys its bound: a password of 8..40 characters, an email that passes the address check with at most 255, a name of at most 255 and a phone of at most 20 (an explicit null name or phone is accepted); otherwise 422; an accepted one is returned unchanged |
| Models.NewUser | backend/app/models.py:18-63 | A new user keeps the id, email and hash; the sent flags are kept and flags left out are false; name and phone are copied; no system rank |
| Models.NewProject | backend/app/models.py:106-131 | A new project has exactly the project columns; each holds the payload's value or None; other payload keys are ignored |
| Models.StatusNamesRoundTrip | backend/app/models.py:202-205 | The three statuses and the names "pending", "approved", "rejected" correspond one to one |
| Models.DefaultRequest | backend/app/models.py:208-220 | A request row as the defaults make it is pending and has no approver |
| Crud.FindUserProject | backend/app/crud.py:183-190 | The first row matching (user, project); None exactly when no row matches |
| Crud.FindUserProjectRole | backend/app/crud.py:193-199 | The first row matching user, project and role all three; None exactly when none does |
| Crud.FindAssignment | backend/app/crud.py:169-173 | A row with the given id, None exactly when there is none |
| Crud.FindRequest | backend/app/crud.py:248-249 | A request with the given id, None exactly when there is none |
| Crud.FindProject | backend/app/crud.py:156-157 | A project with the given id, None exactly when there is none |
| Crud.DetailsOfPorts | backend/app/crud.py:477-478 | The details whose port is listed, each kept, at the positions of the passing rows in increasing table order (`Seqs.KeepsInOrder`); as many as the count of matches |
| Crud.DetailsByPorts | backend/app/crud.py:471-495 | An empty port list gives ([], 0); otherwise the total number of listed details and the page OFFSET skip LIMIT limit of them: its exact length, and element i is the listed detail at position skip + i |
| Crud.MergeRequest | backend/app/crud.py:231-246 | The approver is always the given user and `updated_at` the given time; status and response message come from the update when sent; every other field is kept |
| Crud.MergeUser | backend/app/crud.py:41-58 | The id is kept; a sent password is stored only as its hash; a system id sets `system_rank` to that system's `rank_total`; each sent field (email, active, superuser, name, phone) takes the sent value and every field not sent keeps its value |
| Crud.MergeUserEmptyPatch | backend/app/crud.py:41-58 | An update that sends nothing leaves the user as it was |
| Crud.Written | backend/app/crud.py:147-149 | The keys written are exactly those whose value is not None |
| Crud.Overlay | backend/app/crud.py:147-149 | Non-None values replace their columns; every other column keeps its value |
| Crud.WriteColumns | backend/app/crud.py:141-154 | The `setattr` loop succeeds exactly when every non-None key is a column, and then gives the overlay; otherwise a ValueError |
| Crud.OverlayIdempotent | backend/app/crud.py:147-149 | Writing the same update twice is writing it once |
| Crud.MergeDetail | backend/app/crud.py:511-523 | The merged detail keeps its id; port, picture and both descriptions are taken from the update when sent, explicit nulls included, and kept otherwise |
| Crud.Store.AddAssignment | backend/app/crud.py:175-180 | Appends one row with a fresh id and the given user, project and role; no other table changes |
| Crud.Store.DeleteAssignment | backend/app/crud.py:201-204 | Removes exactly the given row; no other table changes |
| Crud.Store.CreateRequest | backend/app/crud.py:208-229 | Appends one pending request of the requester for the project, with both timestamps now, no approver and no response |
| Crud.Store.UpdateRequest | backend/app/crud.py:231-246 | Replaces the request by its merge with the update and nothing else |
| Crud.Store.DeleteRequest | backend/app/crud.py:251-254 | Removes exactly that request; no other table changes |
| Crud.Store.UpdateUser | backend/app/crud.py:41-58 | An unknown system is 404 with nothing written; a merge whose email belongs to another user fails at commit on the unique email column (models.py:19), a server error with nothing written; otherwise the user row becomes its merge and nothing else changes, so emails stay unique |
| Crud.Store.CreateProject | backend/app/crud.py:134-139 | Appends one fresh project built from the payload |
| Crud.Store.UpdateProjectList | backend/app/crud.py:141-154 | The project's columns become the overlay of the non-None values; a key that is not a column is a ValueError with nothing committed |
| Crud.Store.UpdateDetail | backend/app/crud.py:511-536 | The merged detail is stored exactly when one of its descriptions is non-empty and its picture is not null; no description is a ValueError and a null picture (a required column) a server error, each with nothing committed |
| Crud.RemainingDetails | backend/app/crud.py:546-559 | The details kept by a bulk delete and those it deletes add up to the table; the kept ones stay in table order; an empty id list keeps every row |
| Crud.Store.DeleteDetailsByIds | backend/app/crud.py:546-559 | An empty id list deletes nothing and answers 0; otherwise every detail with a listed id and no other is deleted, the rest stay in table order, and the answer is how many went |
| Req.VisibleRequests | backend/app/api/routes/req.py:41-74 | The project's requests that a superuser sees, or whose role rank is strictly greater than the caller's; all of them, in table order (`Seqs.KeepsInOrder`) |
| Req.ListRequests | backend/app/api/routes/req.py:31-76 | The listing as evidently intended (a `RequestsPublic` body): gate outcomes 403, 400 and 422 in that order, success exactly when all pass with a non-negative limit; the count is the number of all visible requests and the page is exactly `PageOf` them |
| Req.PageOf | backend/app/api/routes/req.py:44-53 | The page OFFSET skip LIMIT limit: its exact length, element i is the element at skip + i, and the count is the length of the whole list |
| Req.ListRequestsAsWritten | backend/app/api/routes/req.py:31-76 | The listing as written: the same gates, then a server error whenever they pass, because the body is built as the single-request schema |
| Req.ListingAsWrittenNeverAnswers | backend/app/api/routes/req.py:53-76 | The listing as written never succeeds, and answers 500 wherever the intended listing answers with a page |
| Req.SuperuserSeesMore | backend/app/api/routes/req.py:41-76 | A superuser is shown at least as many requests as a non-superuser of the same rank |
| Req.PrivilegeSeesMore | backend/app/api/routes/req.py:55-74 | A more privileged rank is shown at least as many requests |
| Req.CreateRequest | backend/app/api/routes/req.py:79-109 | 404 for an unknown role and 403 for a role with rank < 3, with nothing written; otherwise exactly one new pending request of the caller for the path project |
| Req.DecisionGate | backend/app/api/routes/req.py:112-141 | The checks in order, each with its exact error: 400 inactive, 403 no project role, 404 unknown request, 403 wrong project for a non-superuser, 404 unknown role, 403 for a non-superuser whose rank is not strictly smaller than the role's; success exactly when all pass |
| Req.ResponseMessage | backend/app/api/routes/req.py:143-146 | A non-empty message is kept; otherwise the approved default when approving and the rejected default for anything else |
| Req.ReplaceFirstRow | backend/app/api/routes/req.py:156-172 | The new row is last; with no existing row it is simply appended, otherwise the number of rows is unchanged |
| Req.ReplaceAssignment | backend/app/api/routes/req.py:156-172 | Deletes the first (requester, project) row if any, then appends the new one; no other table changes |
| Req.UpdateRequestStatus | backend/app/api/routes/req.py:112-174 | A gate failure writes nothing. Otherwise the request becomes its merge with the caller as approver. Only an approval changes assignments, replacing the first requester row of the path project |
| Req.ReplaceFirstRowCount | backend/app/api/routes/req.py:156-172 | After an approval the requester's rows in the project number max(before, 1) |
| Req.ApprovalGrantsRank | backend/app/api/routes/req.py:156-172 | With at most one earlier row, the project gate then gives the requester exactly the approved role's rank |
| Req.ApprovalOverDuplicateKeepsOldRank | backend/app/api/routes/req.py:157-172 | For any rows where the requester has exactly two rows in the project (the second with an existing role), after an approval the requester still has two rows and the gate reports the second row's rank, not the approved one |
| Req.ReplaceFirstOfTwo | backend/app/api/routes/req.py:157-172 | With exactly two rows of a user in a project, the approval's delete-then-insert leaves the second row one place earlier and the new row last, and no other row of that user |
| Req.DeleteRequest | backend/app/api/routes/req.py:178-203 | 403 for a non-superuser, 403 without a project role, 404 unknown request, 403 request of another project, all with nothing written; otherwise exactly that request is removed |
| UserProjectRoles.ListAssignments | backend/app/api/routes/UserProjectRole.py:81-98 | Gate failures pass through; otherwise exactly the project's rows with an existing role, and for a non-superuser only roles of rank >= the caller's, in table order |
| UserProjectRoles.OwnRowListed | backend/app/api/routes/UserProjectRole.py:95-98 | A caller who may list a project always sees a row of their own |
| UserProjectRoles.Assign | backend/app/api/routes/UserProjectRole.py:101-125 | A superuser always inserts; anyone else needs an existing role of rank >= their own (equal allowed), else 403 with nothing written; the row is the body's |
| UserProjectRoles.ReassignGate | backend/app/api/routes/UserProjectRole.py:143-160 | 404 exactly when the (user, project, old role) row is missing; a superuser then passes; for anyone else a missing old role is a server error, old rank <= own is 403, a missing new role or new rank >= own is 403; success exactly when old rank > own and new rank < own |
| UserProjectRoles.Reassign | backend/app/api/routes/UserProjectRole.py:128-168 | Failures write nothing; success removes exactly the old row and appends one with the same user and project and the new role |
| UserProjectRoles.ReplaceAssignmentRow | backend/app/api/routes/UserProjectRole.py:162-168 | The writes once the checks pass: exactly the old row is removed and, when a new role id is sent, one row with the same user and project and that role is appended; without one, a server error after the delete |
| UserProjectRoles.ReassignOnlyRaises | backend/app/api/routes/UserProjectRole.py:158-160 | A non-superuser can never reassign to a role of rank >= their own |
| UserProjectRoles.Revoke | backend/app/api/routes/UserProjectRole.py:171-196 | 404 for a missing row; deletion exactly for a superuser or when the row's role rank is > the caller's; for a non-superuser a missing role is a server error and a role rank <= the caller's is 403, with nothing written |
| Translation.LangKey | backend/app/api/routes/projects.py:95-98 | A field's column in vi or en is a language-specific key |
| Translation.Untranslated | backend/app/api/routes/projects.py:100-103 | Exactly the keys that end in neither `_vi` nor `_en`, with their values |
| Translation.DropTranslatedKeys | backend/app/api/routes/projects.py:100-103 | The deletion loop leaves exactly the untranslated dictionary |
| Translation.UntranslatedHasNoLanguageKeys | backend/app/api/routes/projects.py:100-103 | No key left ends in `_vi` or `_en`, and deleting twice is deleting once |
| Translation.WithLanguage | backend/app/api/routes/projects.py:95-98 | The copied fields are added as keys; every other key keeps its value |
| Translation.WithLanguageValue | backend/app/api/routes/projects.py:95-98 | After the copy, each field holds its column in the chosen language |
| Translation.Translated | backend/app/api/routes/projects.py:92-103 | No language-specific key remains; each field holds its column in the chosen language; other plain keys keep their values |
| Translation.Translate | backend/app/api/routes/ecopark.py:329-337 | The copy-then-delete loops compute the translated view |
| StaticUrls.ImageUrl | backend/app/api/routes/projects.py:31-35 | No URL for a missing or empty name; otherwise base without trailing slashes, folder, name, extension |
| StaticUrls.ImageUrlInjective | backend/app/api/routes/ecopark.py:40-44 | Different image names never give the same URL |
| StaticUrls.BaseSlashIgnored | backend/app/api/routes/projects.py:34-35 | A trailing slash on the base URL changes nothing |
| Projects.ProjectImageUrl | backend/app/api/routes/projects.py:31-35 | None exactly for an empty picture; otherwise base + `/api/v1/static/DUAN/` + picture + `.jpg` |
| Projects.LastAccessRow | backend/app/api/routes/projects.py:70-89 | The last row of (user, project) whose role exists; None exactly when there is none |
| Projects.LastRank | backend/app/api/routes/projects.py:84-89 | The rank written last for a project: that of the last such row, None exactly when there is none |
| Projects.ProjectRanks | backend/app/api/routes/projects.py:64-89 | The rank dictionary holds exactly the page's projects where the user has a row with an existing role, each with the last such row's rank |
| Projects.LastRankAgreesWithGate | backend/app/api/routes/projects.py:84-89 | With at most one such row, the list's rank exists exactly when the project gate passes and equals its rank |
| Projects.DuplicateRowsDisagree | backend/app/api/routes/projects.py:87-89 | For any rows where a user has exactly two rows with existing roles in a project, the gate reports the first row's rank and the list the second one's |
| Projects.Dump | backend/app/api/routes/projects.py:93 | The dump has the id and every column with its value |
| Projects.ListItemShape | backend/app/api/routes/projects.py:92-113 | An item has no `_vi`/`_en` key; each text field is in the chosen language; id, image URL and rank are present |
| Projects.ListItems | backend/app/api/routes/projects.py:91-113 | One item per project of the page, in order, with rank 1 for a superuser or the dictionary's rank or None |
| Projects.ReadProjects | backend/app/api/routes/projects.py:38-118 | Gate, then 422, then the database's refusal of a negative skip or limit; the count is all projects regardless of paging; each item shows the caller's rank on it |
| Projects.ProjectRank | backend/app/api/routes/projects.py:145-158 | 1 for a superuser. Otherwise None without a row, a server error with two rows or more, and else the rank of the row's role, if it exists |
| Projects.ProjectRankAgreesWithGate | backend/app/api/routes/projects.py:145-158 | With one row, the rank is None exactly when the gate refuses and otherwise is the gate's rank |
| Projects.ReadProjectById | backend/app/api/routes/projects.py:120-171 | Gate, 422, 404 for an unknown project, then the rank's server error; otherwise the detail view of that project with the rank the route reports |
| Projects.DetailView | backend/app/api/routes/projects.py:160-169 | Exactly eight keys: the id, the four text fields in the chosen language (None for a missing column), the picture, its image URL and the rank |
| Projects.CreateProject | backend/app/api/routes/projects.py:174-186 | 403 for any non-superuser with nothing written; otherwise one new project from the payload |
| Projects.Sent | backend/app/api/routes/projects.py:215 | Exactly the fields the client sent, nulls included |
| Projects.RenamedKeyInjective | backend/app/api/routes/projects.py:217-221 | Renaming never merges two keys |
| Projects.RenameKeys | backend/app/api/routes/projects.py:214-221 | `picture` is kept and every other key becomes `key_{lang}`, each with its value |
| Projects.MapUpdateKeys | backend/app/api/routes/projects.py:214-221 | The renaming loop gives exactly the renamed dictionary |
| Projects.RenamedFieldIsColumn | backend/app/api/routes/projects.py:217-221 | Every update field renamed in vi or en is a project column |
| Projects.RenamedFieldsAreColumns | backend/app/api/routes/projects.py:214-225 | The store never refuses a renamed update |
| Projects.UpdateProject | backend/app/api/routes/projects.py:189-225 | 403 without a role or with a rank above the threshold, then 422, then 404, all writing nothing; otherwise the sent non-null fields are written in the chosen language |
| Projects.UpdateKeepsOtherLanguage | backend/app/api/routes/projects.py:214-225 | An update in one language never changes the other language's columns and writes each sent text in its own |
| EcoparkNames.MatchFrom | backend/app/api/routes/ecopark.py:433-436 | A match of the pattern at a position yields a non-empty run of digits |
| EcoparkNames.SearchAt | backend/app/api/routes/ecopark.py:433-436 | `re.search`: the leftmost position from which the pattern matches; None exactly when it matches nowhere |
| EcoparkNames.Search | backend/app/api/routes/ecopark.py:433-436 | The group of the leftmost match is a run of digits; None exactly when there is no match |
| EcoparkNames.ExtractZoneNumber | backend/app/api/routes/ecopark.py:432-437 | The "Phân Khu" digits when they occur, else the "Zone" digits, else ""; the result is empty exactly when neither occurs |
| EcoparkNames.PatternLettersAreNotSpace | backend/app/api/routes/ecopark.py:433-436 | No pattern letter matches white space or a digit, so greedy `\s*` never backtracks |
| EcoparkNames.PhanKhuPreferred | backend/app/api/routes/ecopark.py:432-437 | "Zone 3 Phân khu 12" gives "12" |
| EcoparkNames.ZoneFallback | backend/app/api/routes/ecopark.py:435-437 | "ZONE7" gives "7" |
| EcoparkNames.NoZoneNumber | backend/app/api/routes/ecopark.py:432-437 | "Khu 5" gives "" |
| EcoparkNames.NormalizeBuildingType | backend/app/api/routes/ecopark.py:439-449 | For the stripped name: each of the seven table names gives its code ("don_lap", "song_lap", "shophouse", "townhouse", "residences"), each code exactly for its names, and "unknown" exactly for a name outside the table |
| EcoparkNames.NormalizeIgnoresSurroundingSpace | backend/app/api/routes/ecopark.py:449 | Surrounding white space never changes the code |
| EcoparkNames.VillaNamesAgree | backend/app/api/routes/ecopark.py:440-448 | The Vietnamese and English name of each villa type give the same known code |
| EcoparkNames.ImageName | backend/app/api/routes/ecopark.py:534-536 | `{zone}_{code}.png` when the zone number is non-empty and the code known, else `pk.png` |
| EcoparkNames.ZoneImageName | backend/app/api/routes/ecopark.py:487-488 | `pk_{zone}.png` when the zone number is non-empty, else `pk.png` |
| EcoparkNames.ImageNameInjective | backend/app/api/routes/ecopark.py:536 | Different (zone number, known code) pairs never share an image name |
| EcoparkNames.EcoImageUrl | backend/app/api/routes/ecopark.py:40-44 | None exactly for an empty picture name; otherwise base + `/static/EcoRetreat/` + name + `.png` |
| EcoparkNames.FallbackImageUrl | backend/app/api/routes/ecopark.py:409-427 | The item's own image URL when it has a picture, else the fallback image of the folder |
| EcoparkNames.BuildingImageUrl | backend/app/api/routes/ecopark.py:534-539 | The item's own image URL when it has a picture, else the image named after the path's zone number and building code |
| EcoparkFilter.PyInt | backend/app/api/routes/ecopark.py:185-187 | `int()` of an integer is itself and of a numeral its value |
| EcoparkFilter.Lookup | backend/app/api/routes/ecopark.py:180-181 | The value under a key; None exactly when the key is absent |
| EcoparkFilter.LookupUnique | backend/app/api/routes/ecopark.py:180-181 | With distinct keys, the value found under a key is that key's own entry |
| EcoparkFilter.Given | backend/app/api/routes/ecopark.py:180-181 | `payload.get(key)` is not None exactly when the key holds a non-null value |
| EcoparkFilter.PriceBounds | backend/app/api/routes/ecopark.py:180-189 | 400 exactly when a given bound is not an integer; otherwise a lower bound for `min_price` and an upper bound for `max_price` when given, and nothing else |
| EcoparkFilter.FilterColumn | backend/app/api/routes/ecopark.py:197-202 | A translatable key names `key_{lang}`, any other key itself |
| EcoparkFilter.PriceRange | backend/app/api/routes/ecopark.py:209-216 | Exactly two integers around one dash give both bounds; anything else is 400 |
| EcoparkFilter.Step | backend/app/api/routes/ecopark.py:193-225 | A falsy value or skipped key adds nothing; an unknown column is 400; a price key without bound keys gives the range of a dashed text or an equality with `int()` of the value (400 when that fails); `bedroom` gives an equality with `int()` of the value (an uncaught ValueError when that fails); any other key compares the column with `str()` of the value |
| EcoparkFilter.FilterConditions | backend/app/api/routes/ecopark.py:180-225 | The bounds' error first, then the loop's; on success the bounds followed by the loop's conditions |
| EcoparkFilter.BuildConditions | backend/app/api/routes/ecopark.py:178-225 | The handler's loop computes exactly the conditions of the payload |
| EcoparkFilter.RunSteps | backend/app/api/routes/ecopark.py:193-225 | The loop over the payload yields each entry's conditions in payload order and stops at the first entry that fails |
| EcoparkFilter.StepsKeepFailing | backend/app/api/routes/ecopark.py:193-225 | Once an entry fails, the loop ends with that failure |
| EcoparkFilter.StepFailureFails | backend/app/api/routes/ecopark.py:193-225 | Any failing entry makes the whole loop fail |
| EcoparkFilter.UnknownColumnRefused | backend/app/api/routes/ecopark.py:204-205 | A truthy entry naming no column makes the request fail |
| EcoparkFilter.SkippedStepsHaveNoBounds | backend/app/api/routes/ecopark.py:191-209 | With a bound key present, no entry adds a price bound |
| EcoparkFilter.RangeOnlyWithoutBounds | backend/app/api/routes/ecopark.py:191-216 | With a bound key present every price bound comes from that key; without, the bounds are empty |
| EcoparkFilter.NegativePriceRefused | backend/app/api/routes/ecopark.py:210-216 | A price text starting with a dash is refused with 400 |
| EcoparkFilter.PriceRangeOfNumerals | backend/app/api/routes/ecopark.py:210-213 | "a-b" with two numerals gives exactly the bounds a and b |
| EcoparkFilter.PriceTextWithBoundKeys | backend/app/api/routes/ecopark.py:207-225 | The same price text is a range without bound keys and a text comparison with them |
| EcoparkFilter.Chosen | backend/app/api/routes/ecopark.py:248-252 | The chosen language's value, or the English one when it is None |
| EcoparkFilter.ChosenFallback | backend/app/api/routes/ecopark.py:248-252 | English is never changed by the fallback; Vietnamese shows None only when both are None |
| EcoparkFilter.TextOf | backend/app/api/routes/ecopark.py:254 | A text value gives its text, anything else none |
| EcoparkFilter.Shown | backend/app/api/routes/ecopark.py:239-253 | Exactly the copied and shown fields; each shown one in the chosen language, each copied one as the row has it |
| EcoparkFilter.BuildItem | backend/app/api/routes/ecopark.py:236-255 | The copying loops build exactly the display item |
| EcoparkFilter.CopyFields | backend/app/api/routes/ecopark.py:239-246 | The fixed copies give the item exactly the copied fields, each as the listing has it |
| EcoparkFilter.ShowFields | backend/app/api/routes/ecopark.py:248-252 | The display loop adds each display field in the chosen language, or in English when that is None, and keeps the copied fields |
| EcoparkFilter.DisplayItemShape | backend/app/api/routes/ecopark.py:236-255 | Shown fields in the chosen language with fallback, copied fields as the row has them, image URL of the picture name |
| EcoparkFilter.ResponseFieldsFacts | backend/app/api/routes/ecopark.py:239-246 | `project_id` is copied but is no listing column, so it is always None |
| EcoparkFilter.ProjectGate | backend/app/api/routes/ecopark.py:171 | Passes exactly when the caller has a project role of rank <= threshold; otherwise 403 |
| EcoparkFilter.Selected | backend/app/api/routes/ecopark.py:227 | Exactly the listings meeting every condition, in table order (`Seqs.KeepsInOrder`) |
| EcoparkFilter.FilterResponse | backend/app/api/routes/ecopark.py:162-257 | The corrected route, with the ids published as text: 403, 422, then the conditions' error; on success one display item per selected listing, in order |
| EcoparkFilter.PublishedIds | backend/app/api/routes/ecopark.py:228 | The truthy ids of the selection, in order; when every id is a UUID, exactly the selection's ids |
| EcoparkFilter.SelectedIdsAreUuids | backend/app/api/routes/ecopark.py:228-231 | When every listing's id is a UUID, publishing a selection raises exactly when it is non-empty |
| EcoparkFilter.FilterResponseAsWritten | backend/app/api/routes/ecopark.py:228-231 | As written: the corrected route's errors pass through; an answer is the corrected one; a new error is only ever a server error, raised by `json.dumps` on a UUID id |
| EcoparkFilter.FilterAsWrittenFailsOnAnySelection | backend/app/core/mqtt.py:160-162 | With UUID listing ids, the route as written answers exactly when the corrected one answers with no items; any non-empty selection is a server error |
| EcoparkFilter.EmptyFilterOverOneListingFails | backend/app/api/routes/ecopark.py:228-231 | For example, an empty filter over one listing is a server error once the gates pass |
| EcoparkFilter.DisplayItems | backend/app/api/routes/ecopark.py:235-256 | One display item per selected listing, item i shown from listing i |
| EcoparkFilter.FilterEcopark | backend/app/api/routes/ecopark.py:162-257 | The handler computes exactly the filter response |
| EcoparkFilter.BuildItems | backend/app/api/routes/ecopark.py:235-256 | One display item per result, in order |
| EcoparkFilter.SelectedWithinRange | backend/app/api/routes/ecopark.py:209-227 | Every listing a price range selects has a price inside it |
| EcoparkSearch.NoColumnEndsWithId | backend/app/api/routes/ecopark.py:273 | No listing column ends in `_id`, so the UUID branch is never taken |
| EcoparkSearch.Coerce | backend/app/api/routes/ecopark.py:266-286 | 400 exactly for a non-column field or an unparsable `_id` value; the condition is on that field |
| EcoparkSearch.CoerceMeaning | backend/app/api/routes/ecopark.py:271-286 | Digits become the integer `int()` reads, then "true"/"false" in any case a boolean, and only other text a substring match |
| EcoparkSearch.ConditionsMeaning | backend/app/api/routes/ecopark.py:265-286 | The search fails, with 400, exactly when a filter does; otherwise one condition per filter, in order |
| EcoparkSearch.CollectConditions | backend/app/api/routes/ecopark.py:265-286 | The loop computes exactly the conditions of the filters |
| EcoparkSearch.ProjectFilterRefused | backend/app/api/routes/ecopark.py:267-268 | A `project_id` filter makes the search 400 |
| EcoparkSearch.RouteFilters | backend/app/api/routes/ecopark.py:319-322 | Every route's filters end with the project id |
| EcoparkSearch.SearchRouteConditions | backend/app/api/routes/ecopark.py:306-322 | 403, then 422, then the conditions of the route's filters |
| EcoparkSearch.EverySearchRouteRefused | backend/app/api/routes/ecopark.py:259-268 | Every search route refuses every caller: 400 once gate and language pass |
| EcoparkSearch.ItemImage | backend/app/api/routes/ecopark.py:326-339 | The amenity route gives no image; the amenity-type and full-path routes the eco image of the picture; the zone route the picture or "pk.png"; the zone-name route the picture or the zone's image; the zone-name-type route the building image |
| EcoparkSearch.SearchFieldsFacts | backend/app/api/routes/ecopark.py:330-334 | The search items translate five fields and not the description |
| EcoparkSearch.SearchItemShape | backend/app/api/routes/ecopark.py:326-339 | No language-specific key and no description remain; each field is in the chosen language; every route but the amenity one adds an image URL |
| EcoparkOptions.Present | backend/app/api/routes/ecopark.py:136 | Exactly the non-None values that pass the test, without duplicates when the query had none |
| EcoparkOptions.CleanTexts | backend/app/api/routes/ecopark.py:127-143 | Exactly the distinct non-placeholder texts of the column, once each, sorted |
| EcoparkOptions.NumbersAlwaysValid | backend/app/api/routes/ecopark.py:136 | No integer's text is a placeholder |
| EcoparkOptions.CleanNumbers | backend/app/api/routes/ecopark.py:127-141 | Exactly the distinct numbers of the column, once each, increasing |
| EcoparkOptions.TextColumn | backend/app/api/routes/ecopark.py:135 | The column's text of every listing, in order |
| EcoparkOptions.IntColumn | backend/app/api/routes/ecopark.py:135 | The column's integer of every listing, in order |
| EcoparkOptions.GetFilterOptions | backend/app/api/routes/ecopark.py:112-159 | Answers exactly when the project gate and the language check pass (403, 422 otherwise); then for each of the seven filters (status, price, bedroom, direction, building type, zone name, amenity type, the text ones in the chosen language) exactly the valid values present in its column, sorted, without duplicates |
| EcoparkOptions.CleanTextColumn | backend/app/api/routes/ecopark.py:127-143 | The cleaned values of a text column are exactly its non-placeholder texts, sorted, without duplicates |
| EcoparkOptions.CleanIntColumn | backend/app/api/routes/ecopark.py:127-141 | The cleaned values of an integer column are exactly its numbers, increasing, without duplicates |

## Left out

- JWT decoding and bcrypt hashing are cryptography. `Deps.CurrentUser` takes the token decoding
  as a function parameter, and `Crud.MergeUser` takes the hash the same way.
- `verify_system_rank_in` is imported by several routes but not defined in `deps.py`. It is a
  parameter `systemGate` of the routes that declare it, and it reads no stored state.
- `verify_rank_in_project` is called with lists (`[1, 2, 3]`) but compares an int. The model
  keeps an int threshold `minRank`, as the function is written. What a list comparison
  would raise is not modelled.
- Req.UpdateRequestStatus: `crud.update_request` indexes its argument as a dictionary, but the
  route passes a model object. The model writes the intended field merge; the failure that
  indexing would raise is not modelled.
- UserProjectRoles.ListAssignments: the route calls `crud.get_user_project_role` with only the
  project id, and it reads a `.role` relation that the models do not declare. The model lists
  every row of the project, joined with its role through the role table. The same lookup
  stands for `.role` in `Reassign` and `Revoke`, where a missing role is a server error.
- `read_all_user_project_assignments` (the cross-project listing) and the role, system,
  address and province routes are not part of this model.
- The request table has `request_message_vi`/`_en` and `response_message_vi`/`_en` columns
  (models.py:215-218), but `RequestCreate` sends `request_message` (models.py:225) and
  `RequestUpdate` sends `response_message` (models.py:230). These names match no column, so
  `model_validate` (crud.py:216) and `sqlmodel_update` (crud.py:242) drop them. The model keeps
  one stored request message and one stored response message: that is the intended collapse
  of the two language columns. As written, no request or response message ever reaches a row
  or a reply, and every `RequestPublic` carries None for them, including the default that
  req.py:143-146 sets.
- Crud.MergeDetail: an `id` key in the update dictionary is not modelled; the model keeps the
  detail's id, and the store keeps ids unique. A sent `port` is taken as is, with no foreign
  key check (see the foreign-keys line below).
- The clock is a parameter. UUIDs are abstract naturals, and `uuid.UUID` parsing is a function
  parameter of the search coercion.
- MQTT publishing, the spreadsheet upload, Google Sheets and the logging are I/O and are left
  out. The one effect of publishing that the model keeps is the failure of `json.dumps` on
  UUID ids in `filter_ecopark_by_json` (see "## Findings").
- `backend/app/api/main.py` does not mount the ecopark router, so none of the ecopark routes
  is reachable in the application as shipped. The route models describe the handlers as
  written, as if the router were mounted.
- Foreign keys are not enforced, so inserts never fail. `delete_project` and `delete_ecopark`
  are not part of this model.
- The database's own comparisons are not evaluated in two places. `TextEquals` on an integer
  column is kept as a plain value comparison. `ilike` patterns are conditions only: wildcards
  and case folding are not modelled, and searches never reach the query anyway.
- `hasattr(Ecopark, name)` is modelled as "is a column". Class attributes that are not columns
  are not modelled.
- `str.isdigit`, `int()` and `re`'s `\d` are restricted to ASCII digits. `str.lower` is
  modelled only for ASCII letters, which is exact for comparisons with "true" and "false".
- JSON numbers with a fraction, lists and objects in the filter payload are not modelled.
- The search routes always fail before their items are built. `EcoparkSearch.SearchItem`
  models those items, but the amenity route's envelope with its fixed image URL is left out.
- Row order is assumed to be table order. `SELECT DISTINCT` order does not matter, because the
  results are sorted.
- `clean_values`'s `except ValueError: sorted(results)` is unreachable: the values of an
  integer column are integers, and `int()` of an integer never fails.
- Login, logout and creation timestamps of users are not modelled.
- Models.ValidateUserCreate, Models.ValidateUserUpdate: the address syntax check of `EmailStr`
  (a library) is the parameter `isEmail`; its normalisation of the address is not modelled.
- Crud.MergeUser: an explicit null sent for `email`, `password` or `system_id` is not
  modelled, because the payload type cannot express it; nor is what the code then does with
  it (hashing it, writing it to a required column, looking it up as a system id).

## Findings

| source | as written | input that shows it | evidently intended | confidence | as-written member | corrected member |
|---|---|---|---|---|---|---|
| backend/app/api/routes/req.py:53-76 | Both branches of `get_requests_by_project` build the listing body as `RequestPublic(data=..., count=...)`, the single-request schema, whose required fields (id, project_id, role_id, requester_id, status, created_at) are then missing | any active caller with a project role, `skip=0`, `limit=100`: validation of the body fails and the route answers 500 | the listing schema `RequestsPublic(data, count)` (models.py:247-249), answering with the page and the total | not executed | Req.ListRequestsAsWritten, Req.ListingAsWrittenNeverAnswers | Req.ListRequests |
| backend/app/api/routes/ecopark.py:228-231 | `filter_ecopark_by_json` publishes the selected listings' ids, which are `uuid.UUID` values (models.py:390), through `publish` (core/mqtt.py:160-162). `publish` calls `json.dumps`, which raises TypeError on a UUID, and nothing catches it | payload `{}` with one listing in the table, for a caller who passes the gate: the route answers 500 instead of that listing | publish the ids as text (`str(r.id)`) and answer with the items | not executed | EcoparkFilter.FilterResponseAsWritten, EcoparkFilter.FilterAsWrittenFailsOnAnySelection, EcoparkFilter.EmptyFilterOverOneListingFails | EcoparkFilter.FilterResponse |
