/** The data-access layer of backend/app/crud.py, as a store whose tables the operations
    change in place. `session.get` tables are maps keyed by id; tables whose reads depend on
    row order (`.first()`, offset/limit) are sequences in table order. Every write commits. */
module Crud {
  import opened Wrappers
  import opened Models
  import Seqs

  /** A snapshot of every table, used to say what an operation leaves alone. */
  datatype Tables = Tables(
    users: map<Uuid, User>,
    systems: map<Uuid, System>,
    roles: map<Uuid, Role>,
    projects: seq<Project>,
    assignments: seq<Assignment>,
    requests: seq<Request>,
    details: seq<Detail>)

  // ---------------------------------------------------------------- row lookups

  predicate IsUserProjectRow(a: Assignment, userId: Uuid, projectId: Uuid) {
    a.userId == userId && a.projectId == projectId
  }

  /** get_user_project_role_by_user_project: the first row of the user in the project. */
  function FindUserProject(rows: seq<Assignment>, userId: Uuid, projectId: Uuid): (r: Option<nat>)
    ensures r.Some? ==> r.value < |rows| && IsUserProjectRow(rows[r.value], userId, projectId)
    ensures r.Some? ==> forall j :: 0 <= j < r.value ==> !IsUserProjectRow(rows[j], userId, projectId)
    ensures r.None? <==> forall j :: 0 <= j < |rows| ==> !IsUserProjectRow(rows[j], userId, projectId)
  {
    Seqs.FirstIndex(rows, (a: Assignment) => IsUserProjectRow(a, userId, projectId))
  }

  function UserProjectIs(userId: Uuid, projectId: Uuid): Assignment -> bool {
    (a: Assignment) => IsUserProjectRow(a, userId, projectId)
  }

  /** The number of rows of a user in a project. */
  function RowsOf(rows: seq<Assignment>, userId: Uuid, projectId: Uuid): (n: nat)
    ensures n == 0 <==> forall j :: 0 <= j < |rows| ==> !IsUserProjectRow(rows[j], userId, projectId)
  {
    Seqs.Count(rows, UserProjectIs(userId, projectId))
  }

  predicate IsUserProjectRoleRow(a: Assignment, userId: Uuid, projectId: Uuid, roleId: Uuid) {
    a.userId == userId && a.projectId == projectId && a.roleId == roleId
  }

  /** get_user_project_role: the first row of the user in the project with that role. */
  function FindUserProjectRole(rows: seq<Assignment>, userId: Uuid, projectId: Uuid, roleId: Uuid): (r: Option<nat>)
    ensures r.Some? ==> r.value < |rows| && IsUserProjectRoleRow(rows[r.value], userId, projectId, roleId)
    ensures r.Some? ==> forall j :: 0 <= j < r.value ==> !IsUserProjectRoleRow(rows[j], userId, projectId, roleId)
    ensures r.None? <==> forall j :: 0 <= j < |rows| ==> !IsUserProjectRoleRow(rows[j], userId, projectId, roleId)
  {
    Seqs.FirstIndex(rows, (a: Assignment) => IsUserProjectRoleRow(a, userId, projectId, roleId))
  }

  /** get_user_project_role_by_id. */
  function FindAssignment(rows: seq<Assignment>, id: Uuid): (r: Option<nat>)
    ensures r.Some? ==> r.value < |rows| && rows[r.value].id == id
    ensures r.None? <==> forall j :: 0 <= j < |rows| ==> rows[j].id != id
  {
    Seqs.FirstIndex(rows, (a: Assignment) => a.id == id)
  }

  /** get_request. */
  function FindRequest(rows: seq<Request>, id: Uuid): (r: Option<nat>)
    ensures r.Some? ==> r.value < |rows| && rows[r.value].id == id
    ensures r.None? <==> forall j :: 0 <= j < |rows| ==> rows[j].id != id
  {
    Seqs.FirstIndex(rows, (q: Request) => q.id == id)
  }

  /** get_project_list. */
  function FindProject(rows: seq<Project>, id: Uuid): (r: Option<nat>)
    ensures r.Some? ==> r.value < |rows| && rows[r.value].id == id
    ensures r.None? <==> forall j :: 0 <= j < |rows| ==> rows[j].id != id
  {
    Seqs.FirstIndex(rows, (p: Project) => p.id == id)
  }

  predicate PortListed(d: Detail, ports: seq<int>) {
    d.port in ports
  }

  /** The test of a `port IN (...)` clause, as a function value. */
  function PortIn(ports: seq<int>): Detail -> bool {
    (d: Detail) => PortListed(d, ports)
  }

  function DetailsOfPorts(rows: seq<Detail>, ports: seq<int>): (r: seq<Detail>)
    ensures forall i :: 0 <= i < |r| ==> r[i] in rows && r[i].port in ports
    ensures forall j :: 0 <= j < |rows| && rows[j].port in ports ==> rows[j] in r
    ensures |r| == Seqs.Count(rows, PortIn(ports))
    ensures Seqs.KeepsInOrder(r, rows, PortIn(ports))
  {
    Seqs.FilterLength(rows, PortIn(ports));
    Seqs.FilterInOrder(rows, PortIn(ports));
    Seqs.Filter(rows, PortIn(ports))
  }

  /** get_all_detal_eco_retreats_by_ports: one page of the details whose port is listed, and
      the number of all such details; an empty port list gives ([], 0). */
  function DetailsByPorts(rows: seq<Detail>, ports: seq<int>, skip: nat, limit: nat): (r: (seq<Detail>, nat))
    ensures |ports| == 0 ==> r == ([], 0)
    ensures |ports| > 0 ==> r.1 == |DetailsOfPorts(rows, ports)|
    ensures |r.0| <= limit && |r.0| <= r.1
    ensures forall i :: 0 <= i < |r.0| ==> r.0[i] in rows && r.0[i].port in ports
    ensures |ports| > 0 && skip + limit <= r.1 ==> |r.0| == limit
    ensures |r.0| == if skip >= r.1 then 0 else if r.1 - skip < limit then r.1 - skip else limit
    ensures |ports| > 0 ==> forall i :: 0 <= i < |r.0| ==> r.0[i] == DetailsOfPorts(rows, ports)[skip + i]
  {
    if |ports| == 0 then ([], 0)
    else
      var all := DetailsOfPorts(rows, ports);
      (Seqs.Page(all, skip, limit), |all|)
  }

  // ---------------------------------------------------------------- row updates

  /** The row `update_request` leaves: the fields the decision gives, then the approver
      and the time of the update, whatever was there before. */
  function MergeRequest(q: Request, update: RequestUpdate, approverId: Uuid, now: Time): (r: Request)
    ensures r.approverId == Some(approverId) && r.updatedAt == Some(now)
    ensures r.status == update.status.GetOr(q.status)
    ensures r.responseMessage == (if update.responseMessage.Some? then update.responseMessage else q.responseMessage)
    ensures r.(approverId := q.approverId, updatedAt := q.updatedAt, status := q.status, responseMessage := q.responseMessage) == q
  {
    q.(status := update.status.GetOr(q.status),
       responseMessage := if update.responseMessage.Some? then update.responseMessage else q.responseMessage,
       approverId := Some(approverId),
       updatedAt := Some(now))
  }

  /** The user row `update_user` leaves. A new password is stored only as its hash; a
      system tier gives the user that tier's rank_total. */
  function MergeUser(u: User, patch: UserUpdate, hash: string -> string, systems: map<Uuid, System>): (v: User)
    requires patch.systemId.None? || patch.systemId.value in systems
    ensures v.id == u.id
    ensures v.hashedPassword == (if patch.password.Some? then hash(patch.password.value) else u.hashedPassword)
    ensures v.systemRank == (if patch.systemId.Some? then Some(systems[patch.systemId.value].rankTotal) else u.systemRank)
    ensures patch.email.None? ==> v.email == u.email
    ensures patch.isActive.None? ==> v.isActive == u.isActive
    ensures patch.isSuperuser.None? ==> v.isSuperuser == u.isSuperuser
    ensures patch.fullName.None? ==> v.fullName == u.fullName
    ensures patch.phone.None? ==> v.phone == u.phone
    ensures patch.email.Some? ==> v.email == patch.email.value
    ensures patch.isActive.Some? ==> v.isActive == patch.isActive.value
    ensures patch.isSuperuser.Some? ==> v.isSuperuser == patch.isSuperuser.value
    ensures patch.fullName.Some? ==> v.fullName == patch.fullName.value
    ensures patch.phone.Some? ==> v.phone == patch.phone.value
  {
    User(u.id,
         patch.email.GetOr(u.email),
         patch.isActive.GetOr(u.isActive),
         patch.isSuperuser.GetOr(u.isSuperuser),
         patch.fullName.GetOr(u.fullName),
         patch.phone.GetOr(u.phone),
         if patch.password.Some? then hash(patch.password.value) else u.hashedPassword,
         if patch.systemId.Some? then Some(systems[patch.systemId.value].rankTotal) else u.systemRank)
  }

  /** An update that sends nothing leaves the user as it was. */
  lemma MergeUserEmptyPatch(u: User, hash: string -> string, systems: map<Uuid, System>)
    ensures MergeUser(u, UserUpdate(None, None, None, None, None, None, None), hash, systems) == u
  {
  }

  /** The key/value pairs of an update dictionary that `update_project_list` writes: those
      whose value is not None. */
  function Written(data: map<string, Option<string>>): (ks: set<string>)
    ensures forall k :: k in ks <==> k in data && data[k].Some?
  {
    set k | k in data && data[k].Some?
  }

  /** The columns of a project after the non-None values of `data` are written over them. */
  function Overlay(columns: map<string, Option<string>>, data: map<string, Option<string>>): (r: map<string, Option<string>>)
    ensures r.Keys == columns.Keys + Written(data)
    ensures forall k :: k in Written(data) ==> r[k] == data[k]
    ensures forall k :: k in columns && k !in Written(data) ==> r[k] == columns[k]
  {
    map k | k in columns.Keys + Written(data) :: if k in Written(data) then data[k] else columns[k]
  }

  /** The `setattr` loop of update_project_list on a row's columns: each key of `data`
      whose value is not None is written in turn; a key that is not a column fails the whole
      write (a Python ValueError), and nothing written before it is committed. */
  method WriteColumns(columns: map<string, Option<string>>, data: map<string, Option<string>>)
    returns (r: Result<map<string, Option<string>>>)
    requires columns.Keys == ProjectColumns
    ensures r.Ok? <==> Written(data) <= ProjectColumns
    ensures r.Ok? ==> r.value == Overlay(columns, data)
    ensures r.Err? ==> r.error == ValueError
  {
    var cols := columns;
    var todo := data.Keys;
    ghost var done: set<string> := {};
    while todo != {}
      invariant todo + done == data.Keys && todo !! done
      invariant forall k :: k in done && data[k].Some? ==> k in ProjectColumns
      invariant cols.Keys == columns.Keys
      invariant forall k :: k in cols ==> cols[k] == if k in done && data[k].Some? then data[k] else columns[k]
      decreases todo
    {
      var k :| k in todo;
      if data[k].Some? {
        if k !in ProjectColumns {
          assert k in Written(data);
          return Err(ValueError);
        }
        assert k in cols;
        cols := cols[k := data[k]];
      }
      todo := todo - {k};
      done := done + {k};
    }
    assert done == data.Keys;
    OverlayOfWrites(columns, data, cols);
    return Ok(cols);
  }

  /** Columns that hold each written value and otherwise the old one are the overlay. */
  lemma OverlayOfWrites(columns: map<string, Option<string>>, data: map<string, Option<string>>, cols: map<string, Option<string>>)
    requires Written(data) <= columns.Keys && cols.Keys == columns.Keys
    requires forall k :: k in cols ==> cols[k] == if k in data && data[k].Some? then data[k] else columns[k]
    ensures cols == Overlay(columns, data)
  {
    assert cols.Keys == Overlay(columns, data).Keys;
  }

  /** Writing the same update twice is writing it once. */
  lemma OverlayIdempotent(columns: map<string, Option<string>>, data: map<string, Option<string>>)
    ensures Overlay(Overlay(columns, data), data) == Overlay(columns, data)
  {
  }

  /** The detail row `update_detal_eco_retreat_record` builds before its check: every key of
      the dictionary that names a field overwrites it, nulls included. */
  function MergeDetail(d: Detail, patch: DetailPatch): (r: Detail)
    ensures r.id == d.id
    ensures patch.port.None? ==> r.port == d.port
    ensures patch.port.Some? ==> r.port == patch.port.value
    ensures patch.picture.None? ==> r.picture == d.picture
    ensures patch.picture.Some? ==> r.picture == patch.picture.value
    ensures r.descriptionVi == patch.descriptionVi.GetOr(d.descriptionVi)
    ensures r.descriptionEn == patch.descriptionEn.GetOr(d.descriptionEn)
  {
    d.(port := patch.port.GetOr(d.port),
       picture := patch.picture.GetOr(d.picture),
       descriptionVi := patch.descriptionVi.GetOr(d.descriptionVi),
       descriptionEn := patch.descriptionEn.GetOr(d.descriptionEn))
  }

  /** A detail must keep at least one non-empty description. */
  predicate HasDescription(d: Detail) {
    TruthyText(d.descriptionVi) || TruthyText(d.descriptionEn)
  }

  predicate IdListed(d: Detail, ids: seq<Uuid>) {
    d.id in ids
  }

  /** The tests of `id IN (...)` and of its negation, as function values. */
  function IdIn(ids: seq<Uuid>): Detail -> bool {
    (d: Detail) => IdListed(d, ids)
  }

  function IdNotIn(ids: seq<Uuid>): Detail -> bool {
    (d: Detail) => !IdListed(d, ids)
  }

  /** The details that survive a deletion by ids: the unlisted ones, in order, as many as
      the listed ones leave; all of them when no id is listed. */
  lemma RemainingDetails(before: seq<Detail>, ids: seq<Uuid>)
    ensures |Seqs.Filter(before, IdNotIn(ids))| + Seqs.Count(before, IdIn(ids)) == |before|
    ensures Seqs.KeepsInOrder(Seqs.Filter(before, IdNotIn(ids)), before, IdNotIn(ids))
    ensures |ids| == 0 ==> Seqs.Filter(before, IdNotIn(ids)) == before
  {
    Seqs.FilterComplementLength(before, IdIn(ids), IdNotIn(ids));
    Seqs.FilterInOrder(before, IdNotIn(ids));
    if |ids| == 0 {
      Seqs.FilterKeepsAll(before, IdNotIn(ids));
    }
  }

  // ---------------------------------------------------------------- the store

  predicate UsersKeyed(m: map<Uuid, User>) {
    forall k :: k in m ==> m[k].id == k
  }

  /** The email column is unique: no two users share an address. */
  predicate EmailsUnique(m: map<Uuid, User>) {
    forall a, b :: a in m && b in m && a != b ==> m[a].email != m[b].email
  }

  /** Another user than userId already has this email. */
  predicate EmailTaken(m: map<Uuid, User>, userId: Uuid, email: string) {
    exists k :: k in m && k != userId && m[k].email == email
  }

  predicate SystemsKeyed(m: map<Uuid, System>) {
    forall k :: k in m ==> m[k].id == k
  }

  predicate RolesKeyed(m: map<Uuid, Role>) {
    forall k :: k in m ==> m[k].id == k
  }

  /** Every project row has exactly the project columns. */
  predicate ProjectsShaped(ps: seq<Project>) {
    forall i :: 0 <= i < |ps| ==> ps[i].columns.Keys == ProjectColumns
  }

  function ProjectId(p: Project): Uuid { p.id }
  function AssignmentId(a: Assignment): Uuid { a.id }
  function RequestId(q: Request): Uuid { q.id }
  function DetailId(d: Detail): Uuid { d.id }

  class Store {
    var users: map<Uuid, User>
    var systems: map<Uuid, System>
    var roles: map<Uuid, Role>
    var projects: seq<Project>
    var assignments: seq<Assignment>
    var requests: seq<Request>
    var details: seq<Detail>
    /** Ids below nextId may be in use; new rows take nextId (uuid4 never repeats). */
    var nextId: Uuid

    /** Keyed rows carry their key, emails are unique, row ids are unique and below nextId,
        and every project row has exactly the project columns. */
    ghost predicate Valid()
      reads this
    {
      && UsersKeyed(users) && EmailsUnique(users) && SystemsKeyed(systems) && RolesKeyed(roles)
      && ProjectsShaped(projects)
      && Seqs.KeyedBelow(projects, ProjectId, nextId)
      && Seqs.KeyedBelow(assignments, AssignmentId, nextId)
      && Seqs.KeyedBelow(requests, RequestId, nextId)
      && Seqs.KeyedBelow(details, DetailId, nextId)
    }

    function Snapshot(): Tables
      reads this
    {
      Tables(users, systems, roles, projects, assignments, requests, details)
    }

    /** A store holding the given users, system tiers and roles and no other rows. */
    constructor(users: map<Uuid, User>, systems: map<Uuid, System>, roles: map<Uuid, Role>)
      requires forall k :: k in users ==> users[k].id == k
      requires EmailsUnique(users)
      requires forall k :: k in systems ==> systems[k].id == k
      requires forall k :: k in roles ==> roles[k].id == k
      ensures Valid()
      ensures Snapshot() == Tables(users, systems, roles, [], [], [], [])
    {
      this.users := users;
      this.systems := systems;
      this.roles := roles;
      projects := [];
      assignments := [];
      requests := [];
      details := [];
      nextId := 0;
    }

    method NewId() returns (id: Uuid)
      requires Valid()
      modifies this`nextId
      ensures Valid()
      ensures id == old(nextId) && nextId == id + 1
    {
      id := nextId;
      nextId := nextId + 1;
      Seqs.KeyedRaise(projects, ProjectId, id, nextId);
      Seqs.KeyedRaise(assignments, AssignmentId, id, nextId);
      Seqs.KeyedRaise(requests, RequestId, id, nextId);
      Seqs.KeyedRaise(details, DetailId, id, nextId);
    }

    /** add_user_to_project_role: appends a fresh row; nothing prevents a second row for the
        same (user, project). */
    method AddAssignment(userId: Uuid, projectId: Uuid, roleId: Uuid) returns (row: Assignment)
      requires Valid()
      modifies this
      ensures Valid()
      ensures row.userId == userId && row.projectId == projectId && row.roleId == roleId
      ensures forall j :: 0 <= j < |old(assignments)| ==> old(assignments)[j].id != row.id
      ensures Snapshot() == old(Snapshot()).(assignments := old(assignments) + [row])
    {
      var id := NewId();
      row := Assignment(id, userId, projectId, roleId);
      Seqs.KeyedAppend(assignments, AssignmentId, id, row);
      assignments := assignments + [row];
    }

    /** delete_user_project_role: deletes the row with the id of the given row, which is that
        row alone. */
    method DeleteAssignment(i: nat)
      requires Valid() && i < |assignments|
      modifies this
      ensures Valid()
      ensures Snapshot() == old(Snapshot()).(assignments := old(assignments[..i] + assignments[i + 1..]))
    {
      var id := assignments[i].id;
      var keep := (a: Assignment) => a.id != id;
      Seqs.FilterRemovesOne(assignments, keep, i);
      Seqs.KeyedFilter(assignments, keep, AssignmentId, nextId);
      assignments := Seqs.Filter(assignments, keep);
    }

    /** create_request: a fresh pending request of the requester for the project, created and
        updated now, with no approver and no response. */
    method CreateRequest(create: RequestCreate, requesterId: Uuid, projectId: Uuid, now: Time) returns (q: Request)
      requires Valid()
      modifies this
      ensures Valid()
      ensures q.status == Pending && q.approverId.None? && q.responseMessage.None?
      ensures q.requesterId == requesterId && q.projectId == projectId && q.roleId == create.roleId
      ensures q.requestMessage == create.requestMessage && q.createdAt == now && q.updatedAt == Some(now)
      ensures forall j :: 0 <= j < |old(requests)| ==> old(requests)[j].id != q.id
      ensures Snapshot() == old(Snapshot()).(requests := old(requests) + [q])
    {
      var id := NewId();
      q := DefaultRequest(id, projectId, create.roleId, requesterId, now)
             .(requestMessage := create.requestMessage, updatedAt := Some(now));
      Seqs.KeyedAppend(requests, RequestId, id, q);
      requests := requests + [q];
    }

    /** update_request: writes the decision over the i-th request. */
    method UpdateRequest(i: nat, update: RequestUpdate, approverId: Uuid, now: Time) returns (q: Request)
      requires Valid() && i < |requests|
      modifies this
      ensures Valid()
      ensures q == MergeRequest(old(requests[i]), update, approverId, now)
      ensures Snapshot() == old(Snapshot()).(requests := old(requests)[i := q])
    {
      q := MergeRequest(requests[i], update, approverId, now);
      Seqs.KeyedUpdate(requests, RequestId, nextId, i, q);
      requests := requests[i := q];
    }

    /** delete_request: deletes the i-th request and no other. */
    method DeleteRequest(i: nat)
      requires Valid() && i < |requests|
      modifies this
      ensures Valid()
      ensures Snapshot() == old(Snapshot()).(requests := old(requests[..i] + requests[i + 1..]))
    {
      var id := requests[i].id;
      var keep := (q: Request) => q.id != id;
      Seqs.FilterRemovesOne(requests, keep, i);
      Seqs.KeyedFilter(requests, keep, RequestId, nextId);
      requests := Seqs.Filter(requests, keep);
    }

    /** update_user: an unknown system tier is refused with 404 before anything is written; a
        merge whose email belongs to another user fails at commit on the unique email column
        (a server error, nothing written); otherwise the user row is replaced by its merge. */
    method UpdateUser(userId: Uuid, patch: UserUpdate, hash: string -> string) returns (r: Result<User>)
      requires Valid() && userId in users
      modifies this
      ensures Valid()
      ensures patch.systemId.Some? && patch.systemId.value !in old(systems) ==>
                r == Err(NotFound) && Snapshot() == old(Snapshot())
      ensures (patch.systemId.None? || patch.systemId.value in old(systems))
              && EmailTaken(old(users), userId, MergeUser(old(users[userId]), patch, hash, old(systems)).email) ==>
                r == Err(ServerError) && Snapshot() == old(Snapshot())
      ensures (patch.systemId.None? || patch.systemId.value in old(systems))
              && !EmailTaken(old(users), userId, MergeUser(old(users[userId]), patch, hash, old(systems)).email) ==>
                r == Ok(MergeUser(old(users[userId]), patch, hash, old(systems)))
                && Snapshot() == old(Snapshot()).(users := old(users)[userId := r.value])
    {
      if patch.systemId.Some? && patch.systemId.value !in systems {
        return Err(NotFound);
      }
      var u := MergeUser(users[userId], patch, hash, systems);
      if EmailTaken(users, userId, u.email) {
        return Err(ServerError);
      }
      users := users[userId := u];
      r := Ok(u);
    }

    /** The creation half of create_project: a fresh row built from the payload. */
    method CreateProject(create: map<string, Option<string>>) returns (p: Project)
      requires Valid()
      modifies this
      ensures Valid()
      ensures p == NewProject(old(nextId), create)
      ensures forall j :: 0 <= j < |old(projects)| ==> old(projects)[j].id != p.id
      ensures Snapshot() == old(Snapshot()).(projects := old(projects) + [p])
    {
      var id := NewId();
      p := NewProject(id, create);
      Seqs.KeyedAppend(projects, ProjectId, id, p);
      projects := projects + [p];
    }

    /** update_project_list: the columns `WriteColumns` computes replace those of the i-th
        project; when a key is not a column nothing is committed. */
    method UpdateProjectList(i: nat, data: map<string, Option<string>>) returns (r: Result<Project>)
      requires Valid() && i < |projects|
      modifies this
      ensures Valid()
      ensures Written(data) <= ProjectColumns ==>
                r == Ok(old(projects[i]).(columns := Overlay(old(projects[i].columns), data)))
                && Snapshot() == old(Snapshot()).(projects := old(projects)[i := r.value])
      ensures !(Written(data) <= ProjectColumns) ==> r == Err(ValueError) && Snapshot() == old(Snapshot())
    {
      var written := WriteColumns(projects[i].columns, data);
      if written.Err? {
        return Err(ValueError);
      }
      var p := projects[i].(columns := written.value);
      Seqs.KeyedUpdate(projects, ProjectId, nextId, i, p);
      projects := projects[i := p];
      r := Ok(p);
    }

    /** update_detal_eco_retreat_record: the merged row is stored only when it keeps a
        non-empty description (otherwise a ValueError) and a picture (a null picture is
        refused by the database at commit, a server error); nothing is committed on failure. */
    method UpdateDetail(i: nat, patch: DetailPatch) returns (r: Result<Detail>)
      requires Valid() && i < |details|
      modifies this
      ensures Valid()
      ensures HasDescription(MergeDetail(old(details[i]), patch)) && MergeDetail(old(details[i]), patch).picture.Some? ==>
                r == Ok(MergeDetail(old(details[i]), patch))
                && Snapshot() == old(Snapshot()).(details := old(details)[i := r.value])
      ensures !HasDescription(MergeDetail(old(details[i]), patch)) ==>
                r == Err(ValueError) && Snapshot() == old(Snapshot())
      ensures HasDescription(MergeDetail(old(details[i]), patch)) && MergeDetail(old(details[i]), patch).picture.None? ==>
                r == Err(ServerError) && Snapshot() == old(Snapshot())
    {
      var d := MergeDetail(details[i], patch);
      if !HasDescription(d) {
        return Err(ValueError);
      }
      if d.picture.None? {
        return Err(ServerError);
      }
      Seqs.KeyedUpdate(details, DetailId, nextId, i, d);
      details := details[i := d];
      r := Ok(d);
    }

    /** delete_detal_eco_retreat_records_by_ids: deletes every detail whose id is listed and
        answers how many rows went; an empty list deletes nothing. */
    method DeleteDetailsByIds(ids: seq<Uuid>) returns (n: nat)
      requires Valid()
      modifies this
      ensures Valid()
      ensures |ids| == 0 ==> n == 0 && Snapshot() == old(Snapshot())
      ensures n == Seqs.Count(old(details), IdIn(ids))
      ensures n + |details| == |old(details)|
      ensures forall j :: 0 <= j < |details| ==> details[j] in old(details) && details[j].id !in ids
      ensures forall j :: 0 <= j < |old(details)| && old(details)[j].id !in ids ==> old(details)[j] in details
      ensures Snapshot() == old(Snapshot()).(details := details)
      ensures details == Seqs.Filter(old(details), IdNotIn(ids))
      ensures Seqs.KeepsInOrder(details, old(details), IdNotIn(ids))
    {
      RemainingDetails(details, ids);
      if |ids| == 0 {
        return 0;
      }
      var before := details;
      Seqs.KeyedFilter(before, IdNotIn(ids), DetailId, nextId);
      details := Seqs.Filter(before, IdNotIn(ids));
      n := |before| - |details|;
    }
  }
}
