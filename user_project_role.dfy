/** The assignment routes of backend/app/api/routes/UserProjectRole.py: listing the
    assignments of a project, assigning a role, replacing one and revoking one. Every route
    declares get_current_active_user (400) and then takes the project gate (403). A row's
    `.role` is read as the role table's row for its role id. */
module UserProjectRoles {
  import opened Wrappers
  import opened Models
  import Seqs
  import opened Deps
  import opened Crud

  /** Whether the listing shows row a: it belongs to the project, its role exists and, unless
      the caller is a superuser, that role is no more privileged than the caller's. */
  predicate Listed(a: Assignment, roles: map<Uuid, Role>, projectId: Uuid, superuser: bool, rank: int) {
    a.projectId == projectId && a.roleId in roles && (superuser || roles[a.roleId].rank >= rank)
  }

  function ListedBy(roles: map<Uuid, Role>, projectId: Uuid, superuser: bool, rank: int): Assignment -> bool {
    (a: Assignment) => Listed(a, roles, projectId, superuser, rank)
  }

  /** read_user_project_roles: the rows of the project joined with their role; a caller who
      is not a superuser sees only rows whose role rank is at least their own. */
  function ListAssignments(t: Tables, u: User, projectId: Uuid): (r: Result<seq<Assignment>>)
    ensures r.Err? <==> ActiveMember(t.assignments, t.roles, u, projectId).Err?
    ensures r.Err? ==> r.error == ActiveMember(t.assignments, t.roles, u, projectId).error
    ensures r.Ok? ==> var rank := ActiveMember(t.assignments, t.roles, u, projectId).value.rank;
              && (forall i :: 0 <= i < |r.value| ==> r.value[i] in t.assignments && Listed(r.value[i], t.roles, projectId, u.isSuperuser, rank))
              && (forall j :: 0 <= j < |t.assignments| && Listed(t.assignments[j], t.roles, projectId, u.isSuperuser, rank) ==>
                    t.assignments[j] in r.value)
    ensures r.Ok? ==>
              Seqs.KeepsInOrder(r.value, t.assignments,
                                ListedBy(t.roles, projectId, u.isSuperuser, ActiveMember(t.assignments, t.roles, u, projectId).value.rank))
  {
    match ActiveMember(t.assignments, t.roles, u, projectId)
    case Err(e) => Err(e)
    case Ok(info) =>
      Seqs.FilterInOrder(t.assignments, ListedBy(t.roles, projectId, u.isSuperuser, info.rank));
      Ok(Seqs.Filter(t.assignments, ListedBy(t.roles, projectId, u.isSuperuser, info.rank)))
  }

  /** Whoever may list a project sees the row that gave them access to it. */
  lemma OwnRowListed(t: Tables, u: User, projectId: Uuid)
    requires ListAssignments(t, u, projectId).Ok?
    ensures exists i :: 0 <= i < |ListAssignments(t, u, projectId).value|
                        && ListAssignments(t, u, projectId).value[i].userId == u.id
  {
    var k := AccessRow(t.assignments, t.roles, u.id, projectId).value;
    var listed := ListAssignments(t, u, projectId).value;
    assert Listed(t.assignments[k], t.roles, projectId, u.isSuperuser, ActiveMember(t.assignments, t.roles, u, projectId).value.rank);
    assert t.assignments[k] in listed;
    var i :| 0 <= i < |listed| && listed[i] == t.assignments[k];
  }

  /** The body of an assignment: its user, project and role all come from the client. */
  datatype AssignmentCreate = AssignmentCreate(userId: Uuid, projectId: Uuid, roleId: Uuid)

  /** assign_user_to_project. A superuser adds the row as given. Anyone else may only give a
      role that exists and whose rank is at least their own (403 otherwise). The row is added
      to the project named in the body, which need not be the path's project. */
  method Assign(db: Store, u: User, projectId: Uuid, body: AssignmentCreate) returns (r: Result<Assignment>)
    requires db.Valid()
    modifies db
    ensures db.Valid()
    ensures ActiveMember(old(db.assignments), old(db.roles), u, projectId).Err? ==>
              r == Err(ActiveMember(old(db.assignments), old(db.roles), u, projectId).error)
    ensures r.Ok? <==> ActiveMember(old(db.assignments), old(db.roles), u, projectId).Ok?
                       && (u.isSuperuser || (body.roleId in old(db.roles)
                            && old(db.roles)[body.roleId].rank >= ActiveMember(old(db.assignments), old(db.roles), u, projectId).value.rank))
    ensures r.Err? ==> db.Snapshot() == old(db.Snapshot())
    ensures ActiveMember(old(db.assignments), old(db.roles), u, projectId).Ok? && r.Err? ==> r.error == Forbidden
    ensures r.Ok? ==> && r.value.userId == body.userId && r.value.projectId == body.projectId && r.value.roleId == body.roleId
                      && db.Snapshot() == old(db.Snapshot()).(assignments := old(db.assignments) + [r.value])
  {
    var gate := ActiveMember(db.assignments, db.roles, u, projectId);
    if gate.Err? {
      return Err(gate.error);
    }
    if !u.isSuperuser {
      if body.roleId !in db.roles || db.roles[body.roleId].rank < gate.value.rank {
        return Err(Forbidden);
      }
    }
    var row := db.AddAssignment(body.userId, body.projectId, body.roleId);
    r := Ok(row);
  }

  /** What a reassignment checks, in order, once the route's gates have passed: the row
      (user, project, old role) must exist (404). A superuser passes. Anyone else needs the
      old role to be strictly less privileged than their own (403; a row whose role no longer
      exists fails with a server error) and the new role to exist and be strictly MORE
      privileged than their own (403), as the code compares it. On success, the row's index. */
  function ReassignGate(t: Tables, u: User, info: AccessInfo, userId: Uuid, projectId: Uuid, oldRoleId: Uuid,
                        newRoleId: Option<Uuid>): (r: Result<nat>)
    ensures FindUserProjectRole(t.assignments, userId, projectId, oldRoleId).None? <==> r == Err(NotFound)
    ensures r.Ok? ==> r.value == FindUserProjectRole(t.assignments, userId, projectId, oldRoleId).value
    ensures r.Ok? && !u.isSuperuser ==>
              && oldRoleId in t.roles && t.roles[oldRoleId].rank > info.rank
              && newRoleId.Some? && newRoleId.value in t.roles && t.roles[newRoleId.value].rank < info.rank
    ensures u.isSuperuser ==> r.Ok? || r == Err(NotFound)
    ensures FindUserProjectRole(t.assignments, userId, projectId, oldRoleId).Some? && !u.isSuperuser ==>
              && (oldRoleId !in t.roles ==> r == Err(ServerError))
              && (oldRoleId in t.roles && t.roles[oldRoleId].rank <= info.rank ==> r == Err(Forbidden))
              && (oldRoleId in t.roles && t.roles[oldRoleId].rank > info.rank &&
                  (newRoleId.None? || newRoleId.value !in t.roles || t.roles[newRoleId.value].rank >= info.rank) ==>
                    r == Err(Forbidden))
    ensures r.Ok? <==> && FindUserProjectRole(t.assignments, userId, projectId, oldRoleId).Some?
                       && (u.isSuperuser || (&& oldRoleId in t.roles && t.roles[oldRoleId].rank > info.rank
                                             && newRoleId.Some? && newRoleId.value in t.roles
                                             && t.roles[newRoleId.value].rank < info.rank))
  {
    match FindUserProjectRole(t.assignments, userId, projectId, oldRoleId)
    case None => Err(NotFound)
    case Some(i) =>
      if u.isSuperuser then Ok(i)
      else if oldRoleId !in t.roles then Err(ServerError)
      else if t.roles[oldRoleId].rank <= info.rank then Err(Forbidden)
      else if newRoleId.None? || newRoleId.value !in t.roles || t.roles[newRoleId.value].rank >= info.rank then Err(Forbidden)
      else Ok(i)
  }

  /** update_user_role_in_project: the old row is deleted and a row with the new role is
      added. A superuser who sends no new role id gets a validation failure (a server error)
      AFTER the old row has been deleted. */
  method Reassign(db: Store, u: User, userId: Uuid, projectId: Uuid, oldRoleId: Uuid, newRoleId: Option<Uuid>)
    returns (r: Result<Assignment>)
    requires db.Valid()
    modifies db
    ensures db.Valid()
    ensures ActiveMember(old(db.assignments), old(db.roles), u, projectId).Err? ==>
              r == Err(ActiveMember(old(db.assignments), old(db.roles), u, projectId).error) && db.Snapshot() == old(db.Snapshot())
    ensures ActiveMember(old(db.assignments), old(db.roles), u, projectId).Ok? ==>
              var g := ReassignGate(old(db.Snapshot()), u, ActiveMember(old(db.assignments), old(db.roles), u, projectId).value,
                                    userId, projectId, oldRoleId, newRoleId);
              && (g.Err? ==> r == Err(g.error) && db.Snapshot() == old(db.Snapshot()))
              && (g.Ok? && newRoleId.None? ==>
                    r == Err(ServerError)
                    && db.Snapshot() == old(db.Snapshot()).(assignments := old(db.assignments[..g.value] + db.assignments[g.value + 1..])))
              && (g.Ok? && newRoleId.Some? ==>
                    && r.Ok? && r.value.userId == userId && r.value.projectId == projectId && r.value.roleId == newRoleId.value
                    && db.Snapshot() == old(db.Snapshot()).(assignments := old(db.assignments[..g.value] + db.assignments[g.value + 1..]) + [r.value]))
  {
    var gate := ActiveMember(db.assignments, db.roles, u, projectId);
    if gate.Err? {
      return Err(gate.error);
    }
    var checked := ReassignGate(db.Snapshot(), u, gate.value, userId, projectId, oldRoleId, newRoleId);
    if checked.Err? {
      return Err(checked.error);
    }
    r := ReplaceAssignmentRow(db, checked.value, userId, projectId, newRoleId);
  }

  /** The writes of a reassignment once its checks have passed: the row at index i is
      deleted, then the row with the new role is appended; without a new role id the insert
      fails after the delete. */
  method ReplaceAssignmentRow(db: Store, i: nat, userId: Uuid, projectId: Uuid, newRoleId: Option<Uuid>)
    returns (r: Result<Assignment>)
    requires db.Valid() && i < |db.assignments|
    modifies db
    ensures db.Valid()
    ensures newRoleId.None? ==>
              r == Err(ServerError) && db.Snapshot() == old(db.Snapshot()).(assignments := old(db.assignments[..i] + db.assignments[i + 1..]))
    ensures newRoleId.Some? ==>
              && r.Ok? && r.value.userId == userId && r.value.projectId == projectId && r.value.roleId == newRoleId.value
              && db.Snapshot() == old(db.Snapshot()).(assignments := old(db.assignments[..i] + db.assignments[i + 1..]) + [r.value])
  {
    db.DeleteAssignment(i);
    if newRoleId.None? {
      return Err(ServerError);
    }
    var row := db.AddAssignment(userId, projectId, newRoleId.value);
    r := Ok(row);
  }

  /** A caller who is not a superuser can only replace a role by one more privileged than
      their own, never by one below it. */
  lemma ReassignOnlyRaises(t: Tables, u: User, info: AccessInfo, userId: Uuid, projectId: Uuid, oldRoleId: Uuid, newRoleId: Uuid)
    requires !u.isSuperuser && newRoleId in t.roles && t.roles[newRoleId].rank >= info.rank
    ensures ReassignGate(t, u, info, userId, projectId, oldRoleId, Some(newRoleId)).Err?
  {
  }

  /** remove_user_from_project: the row (user, project, role) must exist (404); a superuser,
      or a caller whose rank is strictly more privileged than the row's role, deletes it;
      anyone else is refused (403). */
  method Revoke(db: Store, u: User, userId: Uuid, projectId: Uuid, roleId: Uuid) returns (r: Result<()>)
    requires db.Valid()
    modifies db
    ensures db.Valid()
    ensures ActiveMember(old(db.assignments), old(db.roles), u, projectId).Err? ==>
              r == Err(ActiveMember(old(db.assignments), old(db.roles), u, projectId).error)
    ensures (ActiveMember(old(db.assignments), old(db.roles), u, projectId).Ok?
             && FindUserProjectRole(old(db.assignments), userId, projectId, roleId).None?) ==> r == Err(NotFound)
    ensures r.Ok? <==> && ActiveMember(old(db.assignments), old(db.roles), u, projectId).Ok?
                       && FindUserProjectRole(old(db.assignments), userId, projectId, roleId).Some?
                       && (u.isSuperuser || (roleId in old(db.roles)
                            && old(db.roles)[roleId].rank > ActiveMember(old(db.assignments), old(db.roles), u, projectId).value.rank))
    ensures (&& ActiveMember(old(db.assignments), old(db.roles), u, projectId).Ok?
             && FindUserProjectRole(old(db.assignments), userId, projectId, roleId).Some? && !u.isSuperuser) ==>
              && (roleId !in old(db.roles) ==> r == Err(ServerError))
              && (roleId in old(db.roles) &&
                  old(db.roles)[roleId].rank <= ActiveMember(old(db.assignments), old(db.roles), u, projectId).value.rank ==>
                    r == Err(Forbidden))
    ensures r.Err? ==> db.Snapshot() == old(db.Snapshot())
    ensures r.Ok? ==> var i := FindUserProjectRole(old(db.assignments), userId, projectId, roleId).value;
                      db.Snapshot() == old(db.Snapshot()).(assignments := old(db.assignments[..i] + db.assignments[i + 1..]))
  {
    var gate := ActiveMember(db.assignments, db.roles, u, projectId);
    if gate.Err? {
      return Err(gate.error);
    }
    var found := FindUserProjectRole(db.assignments, userId, projectId, roleId);
    if found.None? {
      return Err(NotFound);
    }
    if !u.isSuperuser {
      if roleId !in db.roles {
        return Err(ServerError);
      }
      if db.roles[roleId].rank <= gate.value.rank {
        return Err(Forbidden);
      }
    }
    db.DeleteAssignment(found.value);
    r := Ok(());
  }
}
