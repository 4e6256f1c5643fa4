/** The project routes of backend/app/api/routes/projects.py: the project list with the
    caller's rank on each project, one project with its rank, creating a project and updating
    one in a chosen language. A handler receives the already authenticated user
    (get_current_user); `systemGate` stands for the route's verify_system_rank_in gate, whose
    definition is not part of this model. */
module Projects {
  import opened Wrappers
  import opened Models
  import Seqs
  import opened Deps
  import opened Crud
  import opened Translation
  import opened StaticUrls

  /** Where project pictures are served from: `/api/v1/static` + `/DUAN/`. */
  const ProjectImageFolder: string := "/api/v1/static/DUAN/"
  const ProjectImageExt: string := ".jpg"

  /** build_flat_image_url of the project routes. */
  function ProjectImageUrl(base: string, picture: Option<string>): (r: Option<string>)
    ensures r.None? <==> !HasName(picture)
    ensures r.Some? ==> r.value == StrUtil.RStripSlash(base) + "/api/v1/static/DUAN/" + picture.value + ".jpg"
  {
    ImageUrl(base, ProjectImageFolder, picture, ProjectImageExt)
  }

  // ---------------------------------------------------------------- ranks in the list

  /** The last row of the join of assignments with roles that belongs to (user, project). */
  function LastAccessRow(rows: seq<Assignment>, roles: map<Uuid, Role>, userId: Uuid, projectId: Uuid): (r: Option<nat>)
    ensures r.Some? ==> r.value < |rows| && IsAccessRow(rows[r.value], roles, userId, projectId)
    ensures r.Some? ==> forall j :: r.value < j < |rows| ==> !IsAccessRow(rows[j], roles, userId, projectId)
    ensures r.None? <==> forall j :: 0 <= j < |rows| ==> !IsAccessRow(rows[j], roles, userId, projectId)
    decreases |rows|
  {
    if |rows| == 0 then None
    else if IsAccessRow(rows[|rows| - 1], roles, userId, projectId) then Some(|rows| - 1)
    else LastAccessRow(rows[..|rows| - 1], roles, userId, projectId)
  }

  /** The rank the list reports for a project: that of the LAST assignment of the user in the
      project whose role exists, since each row overwrites the dictionary entry. */
  function LastRank(rows: seq<Assignment>, roles: map<Uuid, Role>, userId: Uuid, projectId: Uuid): (r: Option<int>)
    ensures r.None? <==> forall j :: 0 <= j < |rows| ==> !IsAccessRow(rows[j], roles, userId, projectId)
    ensures r.Some? ==> r.value == roles[rows[LastAccessRow(rows, roles, userId, projectId).value].roleId].rank
  {
    match LastAccessRow(rows, roles, userId, projectId)
    case None => None
    case Some(i) => Some(roles[rows[i].roleId].rank)
  }

  /** The loops that fill user_project_ranks: the assignments of the user on a project of the
      page are visited in table order and each one whose role exists writes its role's rank
      for its project. The role lookup of the source (role_id_to_rank, built from the roles
      of these rows) is the role table itself. */
  method ProjectRanks(rows: seq<Assignment>, roles: map<Uuid, Role>, userId: Uuid, pageIds: seq<Uuid>)
    returns (ranks: map<Uuid, int>)
    ensures forall p :: p in ranks <==> p in pageIds && LastRank(rows, roles, userId, p).Some?
    ensures forall p :: p in ranks ==> ranks[p] == LastRank(rows, roles, userId, p).value
  {
    ranks := map[];
    var k := 0;
    while k < |rows|
      invariant 0 <= k <= |rows|
      invariant forall p :: p in ranks <==> p in pageIds && LastRank(rows[..k], roles, userId, p).Some?
      invariant forall p :: p in ranks ==> ranks[p] == LastRank(rows[..k], roles, userId, p).value
    {
      var a := rows[k];
      if a.userId == userId && a.projectId in pageIds && a.roleId in roles {
        ranks := ranks[a.projectId := roles[a.roleId].rank];
      }
      assert rows[..k + 1][..k] == rows[..k];
      k := k + 1;
    }
    assert rows[..k] == rows;
  }

  function AccessRowOf(roles: map<Uuid, Role>, userId: Uuid, projectId: Uuid): Assignment -> bool {
    (a: Assignment) => IsAccessRow(a, roles, userId, projectId)
  }

  /** When a user holds at most one assignment with an existing role in a project, the rank
      the list reports is the rank the project gate computes. */
  lemma LastRankAgreesWithGate(rows: seq<Assignment>, roles: map<Uuid, Role>, u: User, projectId: Uuid)
    requires Seqs.Count(rows, AccessRowOf(roles, u.id, projectId)) <= 1
    ensures LastRank(rows, roles, u.id, projectId).Some? <==> RoleInProject(rows, roles, u, projectId).Ok?
    ensures LastRank(rows, roles, u.id, projectId).Some? ==>
              LastRank(rows, roles, u.id, projectId).value == RoleInProject(rows, roles, u, projectId).value.rank
  {
    var last := LastAccessRow(rows, roles, u.id, projectId);
    var first := AccessRow(rows, roles, u.id, projectId);
    if last.Some? {
      if first.value < last.value {
        Seqs.CountTwo(rows, AccessRowOf(roles, u.id, projectId), first.value, last.value);
      }
      assert first.value == last.value;
    }
  }

  /** With exactly two rows of the same user and project whose roles exist, the list and the
      gate disagree whenever the two roles' ranks differ: the gate takes the first row's rank
      and the list the second one's. */
  lemma DuplicateRowsDisagree(rows: seq<Assignment>, roles: map<Uuid, Role>, u: User, projectId: Uuid, i: nat, k: nat)
    requires i < k < |rows|
    requires IsAccessRow(rows[i], roles, u.id, projectId) && IsAccessRow(rows[k], roles, u.id, projectId)
    requires forall j :: 0 <= j < |rows| && j != i && j != k ==> !IsAccessRow(rows[j], roles, u.id, projectId)
    ensures RoleInProject(rows, roles, u, projectId) == Ok(AccessInfo(u, projectId, roles[rows[i].roleId].rank))
    ensures LastRank(rows, roles, u.id, projectId) == Some(roles[rows[k].roleId].rank)
  {
    var gate := RoleInProject(rows, roles, u, projectId);
    assert gate.Ok?;
    var f :| 0 <= f < |rows| && IsAccessRow(rows[f], roles, u.id, projectId) && gate.value.rank == roles[rows[f].roleId].rank
             && (forall j :: 0 <= j < f ==> !IsAccessRow(rows[j], roles, u.id, projectId));
    assert f == i;
    var last := LastAccessRow(rows, roles, u.id, projectId);
    assert last.Some?;
    assert last.value == k;
  }

  // ---------------------------------------------------------------- the project list

  /** model_dump of a project row. */
  function Dump(p: Project): (d: map<string, Value>)
    ensures d.Keys == p.columns.Keys + {"id"}
    ensures d["id"] == Id(p.id)
    ensures forall k :: k in p.columns && k != "id" ==> d[k] == OptionText(p.columns[k])
  {
    (map k | k in p.columns :: OptionText(p.columns[k]))["id" := Id(p.id)]
  }

  /** A column of a row, None when the row has no such column (`getattr(p, k, None)`). */
  function Column(p: Project, k: string): Option<string> {
    if k in p.columns then p.columns[k] else None
  }

  /** The fields the list and the detail view translate. */
  const TextFields: seq<string> := ["name", "type", "address", "investor"]

  /** One item of the list: the dump translated over `fields` (the route translates
      TextFields), then the image URL and the caller's rank. */
  function ListItem(fields: seq<string>, p: Project, base: string, lang: string, rank: Value): map<string, Value>
    requires IsLang(lang) && PlainFields(fields)
  {
    Translated(Dump(p), fields, lang)["image_url" := OptionText(ProjectImageUrl(base, Column(p, "picture")))]["rank" := rank]
  }

  /** What an item of the list holds: no key ends in `_vi` or `_en`; each translated field
      holds its column in the chosen language; the id, the image URL and the rank are
      there. */
  lemma ListItemShape(fields: seq<string>, p: Project, base: string, lang: string, rank: Value)
    requires IsLang(lang) && PlainFields(fields) && "image_url" !in fields && "rank" !in fields
    ensures var d := ListItem(fields, p, base, lang, rank);
            && (forall k :: k in d ==> !IsTranslatedKey(k))
            && (forall i :: 0 <= i < |fields| ==> fields[i] in d && d[fields[i]] == Get(Dump(p), LangKey(fields[i], lang)))
            && "image_url" in d && d["image_url"] == OptionText(ProjectImageUrl(base, Column(p, "picture")))
            && "rank" in d && d["rank"] == rank
            && ("id" !in fields ==> "id" in d && d["id"] == Id(p.id))
  {
    ResponseKeysArePlain();
  }

  lemma TextFieldsArePlain()
    ensures PlainFields(TextFields) && "id" !in TextFields && "image_url" !in TextFields && "rank" !in TextFields
    ensures "picture" !in TextFields
  {
  }

  lemma ResponseKeysArePlain()
    ensures !IsTranslatedKey("id") && !IsTranslatedKey("image_url") && !IsTranslatedKey("rank")
  {
    assert "image_url"[6..] == "url";
  }

  /** The rank the list shows a caller: 1 for a superuser, otherwise the last assigned rank or
      None. */
  function ListedRank(t: Tables, u: User, projectId: Uuid): Value {
    if u.isSuperuser then Int(1) else OptionInt(LastRank(t.assignments, t.roles, u.id, projectId))
  }

  /** `1` for a superuser, otherwise `user_project_ranks.get(id)`. */
  function RankOf(superuser: bool, ranks: map<Uuid, int>, projectId: Uuid): Value {
    if superuser then Int(1) else if projectId in ranks then Int(ranks[projectId]) else Null
  }

  /** The loop of read_projects that builds the response items. */
  method ListItems(fields: seq<string>, page: seq<Project>, base: string, lang: string, superuser: bool, ranks: map<Uuid, int>)
    returns (items: seq<map<string, Value>>)
    requires IsLang(lang) && PlainFields(fields)
    ensures |items| == |page|
    ensures forall i :: 0 <= i < |page| ==> items[i] == ListItem(fields, page[i], base, lang, RankOf(superuser, ranks, page[i].id))
  {
    items := [];
    var k := 0;
    while k < |page|
      invariant 0 <= k <= |page| && |items| == k
      invariant forall i :: 0 <= i < k ==> items[i] == ListItem(fields, page[i], base, lang, RankOf(superuser, ranks, page[i].id))
    {
      var p := page[k];
      var item := Translate(Dump(p), fields, lang);
      item := item["image_url" := OptionText(ProjectImageUrl(base, Column(p, "picture")))];
      item := item["rank" := RankOf(superuser, ranks, p.id)];
      items := items + [item];
      k := k + 1;
    }
  }

  datatype ProjectListing = ProjectListing(data: seq<map<string, Value>>, count: nat)

  /** read_projects. The route's gate runs first, then the language is validated (422); the
      database refuses a negative offset or limit. The count is that of all projects. */
  method ReadProjects(t: Tables, u: User, systemGate: User -> Result<User>, base: string, skip: int, limit: int, lang: string)
    returns (r: Result<ProjectListing>)
    ensures systemGate(u).Err? ==> r == Err(systemGate(u).error)
    ensures systemGate(u).Ok? && !IsLang(lang) ==> r == Err(Unprocessable)
    ensures systemGate(u).Ok? && IsLang(lang) && (skip < 0 || limit < 0) ==> r == Err(ServerError)
    ensures r.Ok? <==> systemGate(u).Ok? && IsLang(lang) && skip >= 0 && limit >= 0
    ensures r.Ok? ==> r.value.count == |t.projects|
    ensures r.Ok? ==> var page := Seqs.Page(t.projects, skip as nat, limit as nat);
              && |r.value.data| == |page|
              && forall i :: 0 <= i < |page| ==> r.value.data[i] == ListItem(TextFields, page[i], base, lang, ListedRank(t, u, page[i].id))
  {
    var gate := systemGate(u);
    if gate.Err? {
      return Err(gate.error);
    }
    if !IsLang(lang) {
      return Err(Unprocessable);
    }
    if skip < 0 || limit < 0 {
      return Err(ServerError);
    }
    var page := Seqs.Page(t.projects, skip as nat, limit as nat);
    var ranks: map<Uuid, int> := map[];
    if !u.isSuperuser {
      var pageIds := seq(|page|, i requires 0 <= i < |page| => page[i].id);
      ranks := ProjectRanks(t.assignments, t.roles, u.id, pageIds);
      forall i | 0 <= i < |page|
        ensures page[i].id in pageIds
      {
        assert pageIds[i] == page[i].id;
      }
    }
    TextFieldsArePlain();
    var items := ListItems(TextFields, page, base, lang, u.isSuperuser, ranks);
    forall i | 0 <= i < |page|
      ensures RankOf(u.isSuperuser, ranks, page[i].id) == ListedRank(t, u, page[i].id)
    {
    }
    r := Ok(ProjectListing(items, |t.projects|));
  }

  // ---------------------------------------------------------------- one project

  /** The rank read_project_by_id reports: 1 for a superuser; otherwise the role of the
      user's only assignment in the project, or None when there is no assignment or its role
      is gone. `one_or_none` fails on two assignments or more. */
  function ProjectRank(rows: seq<Assignment>, roles: map<Uuid, Role>, u: User, projectId: Uuid): (r: Result<Option<int>>)
    ensures u.isSuperuser ==> r == Ok(Some(1))
    ensures !u.isSuperuser ==> (r.Err? <==> RowsOf(rows, u.id, projectId) > 1)
    ensures r.Err? ==> r.error == ServerError
    ensures !u.isSuperuser && RowsOf(rows, u.id, projectId) == 0 ==> r == Ok(None)
    ensures !u.isSuperuser && r.Ok? && r.value.Some? ==>
              exists i :: 0 <= i < |rows| && IsAccessRow(rows[i], roles, u.id, projectId) && r.value.value == roles[rows[i].roleId].rank
  {
    if u.isSuperuser then Ok(Some(1))
    else
      var n := RowsOf(rows, u.id, projectId);
      if n > 1 then Err(ServerError)
      else match FindUserProject(rows, u.id, projectId)
        case None => Ok(None)
        case Some(i) => if rows[i].roleId in roles then Ok(Some(roles[rows[i].roleId].rank)) else Ok(None)
  }

  /** For a user with a single assignment in a project the detail view reports the rank the
      project gate computes, and None exactly when the gate refuses. */
  lemma ProjectRankAgreesWithGate(rows: seq<Assignment>, roles: map<Uuid, Role>, u: User, projectId: Uuid)
    requires !u.isSuperuser && RowsOf(rows, u.id, projectId) == 1
    ensures ProjectRank(rows, roles, u, projectId).Ok?
    ensures RoleInProject(rows, roles, u, projectId).Err? <==> ProjectRank(rows, roles, u, projectId).value.None?
    ensures RoleInProject(rows, roles, u, projectId).Ok? ==>
              ProjectRank(rows, roles, u, projectId).value == Some(RoleInProject(rows, roles, u, projectId).value.rank)
  {
    var i := FindUserProject(rows, u.id, projectId).value;
    var first := AccessRow(rows, roles, u.id, projectId);
    if first.Some? && first.value != i {
      Seqs.CountTwo(rows, UserProjectIs(u.id, projectId), i, first.value);
    }
    if first.None? {
      assert !IsAccessRow(rows[i], roles, u.id, projectId);
    }
  }

  /** read_project_by_id. The route's gate runs first, then the language is validated (422),
      then the project must exist (404). */
  function ReadProjectById(t: Tables, u: User, systemGate: User -> Result<User>, base: string, projectId: Uuid, lang: string)
    : (r: Result<map<string, Value>>)
    ensures systemGate(u).Err? ==> r == Err(systemGate(u).error)
    ensures systemGate(u).Ok? && !IsLang(lang) ==> r == Err(Unprocessable)
    ensures systemGate(u).Ok? && IsLang(lang) && FindProject(t.projects, projectId).None? ==> r == Err(NotFound)
    ensures r.Ok? <==> && systemGate(u).Ok? && IsLang(lang) && FindProject(t.projects, projectId).Some?
                       && ProjectRank(t.assignments, t.roles, u, projectId).Ok?
    ensures r.Ok? ==> && t.projects[FindProject(t.projects, projectId).value].id == projectId
                      && r.value == DetailView(t.projects[FindProject(t.projects, projectId).value], base, lang,
                                               ProjectRank(t.assignments, t.roles, u, projectId).value)
  {
    if systemGate(u).Err? then Err(systemGate(u).error)
    else if !IsLang(lang) then Err(Unprocessable)
    else match FindProject(t.projects, projectId)
      case None => Err(NotFound)
      case Some(i) =>
        var p := t.projects[i];
        match ProjectRank(t.assignments, t.roles, u, projectId)
        case Err(e) => Err(e)
        case Ok(rank) => Ok(DetailView(p, base, lang, rank))
  }

  /** The detail view of a project: its id, each text field in the chosen language (None when
      the column is missing), the picture, its image URL and the caller's rank, and no other
      key. */
  function DetailView(p: Project, base: string, lang: string, rank: Option<int>): (m: map<string, Value>)
    ensures m.Keys == (set f | f in TextFields) + {"id", "picture", "image_url", "rank"}
    ensures m["id"] == Id(p.id) && m["picture"] == OptionText(Column(p, "picture"))
    ensures forall f :: f in TextFields ==> m[f] == OptionText(Column(p, LangKey(f, lang)))
    ensures m["image_url"] == OptionText(ProjectImageUrl(base, Column(p, "picture")))
    ensures m["rank"] == OptionInt(rank)
  {
    TextFieldsArePlain();
    (map f | f in TextFields :: OptionText(Column(p, LangKey(f, lang))))
      ["id" := Id(p.id)]
      ["picture" := OptionText(Column(p, "picture"))]
      ["image_url" := OptionText(ProjectImageUrl(base, Column(p, "picture")))]
      ["rank" := OptionInt(rank)]
  }

  // ---------------------------------------------------------------- creating and updating

  /** create_project: only a superuser may create a project (403). */
  method CreateProject(db: Store, u: User, create: map<string, Option<string>>) returns (r: Result<Project>)
    requires db.Valid()
    modifies db
    ensures db.Valid()
    ensures r.Ok? <==> u.isSuperuser
    ensures r.Err? ==> r.error == Forbidden && db.Snapshot() == old(db.Snapshot())
    ensures r.Ok? ==> r.value == NewProject(old(db.nextId), create)
                      && db.Snapshot() == old(db.Snapshot()).(projects := old(db.projects) + [r.value])
  {
    if !u.isSuperuser {
      return Err(Forbidden);
    }
    var p := db.CreateProject(create);
    r := Ok(p);
  }

  /** The body of update_project. The outer Option says whether the client sent the field,
      the inner one whether it sent null. */
  datatype ProjectUpdate = ProjectUpdate(
    name: Option<Option<string>>,
    address: Option<Option<string>>,
    type_: Option<Option<string>>,
    investor: Option<Option<string>>,
    picture: Option<Option<string>>)

  const UpdateFields: set<string> := {"name", "address", "type", "investor", "picture"}

  function UpdateField(p: ProjectUpdate, f: string): Option<Option<string>> {
    match f
    case "name" => p.name
    case "address" => p.address
    case "type" => p.type_
    case "investor" => p.investor
    case "picture" => p.picture
    case _ => None
  }

  /** `model_dump(exclude_unset=True)`: the fields the client sent, null values included. */
  function Sent(p: ProjectUpdate): (m: map<string, Option<string>>)
    ensures forall f :: f in m <==> f in UpdateFields && UpdateField(p, f).Some?
    ensures forall f :: f in m ==> m[f] == UpdateField(p, f).value
  {
    map f | f in UpdateFields && UpdateField(p, f).Some? :: UpdateField(p, f).value
  }

  /** The column an update key is written to: `picture` as it is, any other key in the
      chosen language. */
  function RenamedKey(k: string, lang: string): string {
    if k == "picture" then k else LangKey(k, lang)
  }

  lemma PictureIsPlain()
    ensures !IsTranslatedKey("picture")
  {
    assert "picture"[4..] == "ure";
  }

  /** No key is renamed to `picture`, so renaming never merges two keys. */
  lemma RenamedKeyInjective(k1: string, k2: string, lang: string)
    requires IsLang(lang) && RenamedKey(k1, lang) == RenamedKey(k2, lang)
    ensures k1 == k2
  {
    PictureIsPlain();
    if k1 != "picture" && k2 != "picture" {
      assert k1 == LangKey(k1, lang)[..|k1|];
      assert k2 == LangKey(k2, lang)[..|k2|];
    }
  }

  /** The dictionary update_project hands to the store: every sent key renamed, its value
      kept. */
  function RenameKeys(sent: map<string, Option<string>>, lang: string): (data: map<string, Option<string>>)
    requires IsLang(lang)
    ensures data.Keys == set k | k in sent :: RenamedKey(k, lang)
    ensures forall k :: k in sent ==> data[RenamedKey(k, lang)] == sent[k]
  {
    forall k1, k2 | k1 in sent && k2 in sent && RenamedKey(k1, lang) == RenamedKey(k2, lang)
      ensures k1 == k2
    {
      RenamedKeyInjective(k1, k2, lang);
    }
    map k | k in sent :: RenamedKey(k, lang) := sent[k]
  }

  /** The loop of update_project that builds update_data. */
  method MapUpdateKeys(sent: map<string, Option<string>>, lang: string) returns (data: map<string, Option<string>>)
    requires IsLang(lang)
    ensures data == RenameKeys(sent, lang)
  {
    data := map[];
    var todo := sent.Keys;
    ghost var done: set<string> := {};
    while todo != {}
      invariant todo + done == sent.Keys && todo !! done
      invariant data.Keys == set k | k in done :: RenamedKey(k, lang)
      invariant forall k :: k in done ==> data[RenamedKey(k, lang)] == sent[k]
      decreases todo
    {
      var k :| k in todo;
      forall k' | k' in done
        ensures RenamedKey(k', lang) != RenamedKey(k, lang)
      {
        if RenamedKey(k', lang) == RenamedKey(k, lang) {
          RenamedKeyInjective(k', k, lang);
        }
      }
      data := data[RenamedKey(k, lang) := sent[k]];
      todo := todo - {k};
      done := done + {k};
    }
    assert done == sent.Keys;
  }

  lemma RenamedFieldIsColumn(f: string, lang: string)
    requires IsLang(lang) && f in UpdateFields
    ensures RenamedKey(f, lang) in ProjectColumns
  {
    if f != "picture" {
      if lang == "vi" {
        assert LangKey("name", lang) == "name_vi" && LangKey("address", lang) == "address_vi";
        assert LangKey("type", lang) == "type_vi" && LangKey("investor", lang) == "investor_vi";
      } else {
        assert LangKey("name", lang) == "name_en" && LangKey("address", lang) == "address_en";
        assert LangKey("type", lang) == "type_en" && LangKey("investor", lang) == "investor_en";
      }
    }
  }

  /** Every sent field is renamed to a column of the project table, so the store never
      refuses an update that got past validation. */
  lemma RenamedFieldsAreColumns(p: ProjectUpdate, lang: string)
    requires IsLang(lang)
    ensures Written(RenameKeys(Sent(p), lang)) <= ProjectColumns
  {
    forall k | k in Sent(p)
      ensures RenamedKey(k, lang) in ProjectColumns
    {
      RenamedFieldIsColumn(k, lang);
    }
  }

  /** update_project. The declared gate verify_rank_in_project(minRank) runs first (403 for
      no assignment or too weak a rank), then the language is validated (422), then the
      project must exist (404). The sent fields are written in the chosen language; a null
      leaves its column as it was. */
  method UpdateProject(db: Store, u: User, minRank: int, projectId: Uuid, lang: string, update: ProjectUpdate)
    returns (r: Result<Project>)
    requires db.Valid()
    modifies db
    ensures db.Valid()
    ensures RoleInProject(old(db.assignments), old(db.roles), u, projectId).Err? ==> r == Err(Forbidden)
    ensures RoleInProject(old(db.assignments), old(db.roles), u, projectId).Ok?
            && VerifyRankInProject(minRank, RoleInProject(old(db.assignments), old(db.roles), u, projectId).value).Err? ==>
              r == Err(Forbidden)
    ensures r.Ok? <==> && RoleInProject(old(db.assignments), old(db.roles), u, projectId).Ok?
                       && RoleInProject(old(db.assignments), old(db.roles), u, projectId).value.rank <= minRank
                       && IsLang(lang) && FindProject(old(db.projects), projectId).Some?
    ensures RoleInProject(old(db.assignments), old(db.roles), u, projectId).Ok?
            && RoleInProject(old(db.assignments), old(db.roles), u, projectId).value.rank <= minRank ==>
              (!IsLang(lang) ==> r == Err(Unprocessable))
              && (IsLang(lang) && FindProject(old(db.projects), projectId).None? ==> r == Err(NotFound))
    ensures r.Err? ==> db.Snapshot() == old(db.Snapshot())
    ensures r.Ok? ==> var i := FindProject(old(db.projects), projectId).value;
              && r.value == old(db.projects[i]).(columns := Overlay(old(db.projects[i].columns), RenameKeys(Sent(update), lang)))
              && db.Snapshot() == old(db.Snapshot()).(projects := old(db.projects)[i := r.value])
  {
    var gate := RoleInProject(db.assignments, db.roles, u, projectId);
    if gate.Err? {
      return Err(gate.error);
    }
    var checked := VerifyRankInProject(minRank, gate.value);
    if checked.Err? {
      return Err(checked.error);
    }
    if !IsLang(lang) {
      return Err(Unprocessable);
    }
    var found := FindProject(db.projects, projectId);
    if found.None? {
      return Err(NotFound);
    }
    var data := MapUpdateKeys(Sent(update), lang);
    RenamedFieldsAreColumns(update, lang);
    r := db.UpdateProjectList(found.value, data);
  }

  /** An update in one language writes the sent non-null text fields in that language and
      never touches the other language's columns. */
  lemma UpdateKeepsOtherLanguage(columns: map<string, Option<string>>, update: ProjectUpdate, lang: string, other: string, f: string)
    requires IsLang(lang) && IsLang(other) && lang != other && f in ["name", "address", "type", "investor"]
    requires LangKey(f, other) in columns
    ensures Overlay(columns, RenameKeys(Sent(update), lang))[LangKey(f, other)] == columns[LangKey(f, other)]
    ensures UpdateField(update, f).Some? && UpdateField(update, f).value.Some? ==>
              Overlay(columns, RenameKeys(Sent(update), lang))[LangKey(f, lang)] == UpdateField(update, f).value
  {
    var data := RenameKeys(Sent(update), lang);
    RenamedAwayFromOther(Sent(update), lang, other, f);
    assert LangKey(f, other) !in Crud.Written(data);
    if UpdateField(update, f).Some? && UpdateField(update, f).value.Some? {
      assert f in Sent(update) && RenamedKey(f, lang) == LangKey(f, lang);
      assert data[LangKey(f, lang)] == UpdateField(update, f).value;
      assert LangKey(f, lang) in Crud.Written(data);
    }
  }

  /** Renaming into one language never produces a column of the other language. */
  lemma RenamedAwayFromOther(sent: map<string, Option<string>>, lang: string, other: string, c: string)
    requires IsLang(lang) && IsLang(other) && lang != other
    ensures LangKey(c, other) !in RenameKeys(sent, lang)
  {
    if LangKey(c, other) in RenameKeys(sent, lang) {
      var k :| k in sent && RenamedKey(k, lang) == LangKey(c, other);
      PictureIsPlain();
      LangKeysDiffer(k, c, lang, other);
      assert false;
    }
  }
}
