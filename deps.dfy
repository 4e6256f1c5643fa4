/** The request gates of backend/app/api/deps.py. Each gate only reads: it returns its input
    or fails. */
module Deps {
  import opened Wrappers
  import opened Models
  import Seqs

  /** What the project gate hands to a handler: the user, the project id of the path (not a
      role id, whatever the tuple's comment says) and the user's rank in that project. */
  datatype AccessInfo = AccessInfo(user: User, projectId: Uuid, rank: int)

  /** get_current_user. `decode` stands for verifying the bearer token and reading its
      subject; None means the token does not verify or its payload is malformed. */
  function CurrentUser(users: map<Uuid, User>, decode: string -> Option<Uuid>, token: string): (r: Result<User>)
    ensures r == Err(Forbidden) <==> decode(token).None?
    ensures r == Err(NotFound) <==> decode(token).Some? && decode(token).value !in users
    ensures r.Ok? ==> decode(token).Some? && r.value == users[decode(token).value]
  {
    match decode(token)
    case None => Err(Forbidden)
    case Some(sub) => if sub in users then Ok(users[sub]) else Err(NotFound)
  }

  /** get_current_active_superuser: despite its name it checks only the superuser flag. */
  function ActiveSuperuser(u: User): (r: Result<User>)
    ensures r.Ok? <==> u.isSuperuser
    ensures r.Ok? ==> r.value == u
    ensures r.Err? ==> r.error == Forbidden
  {
    if u.isSuperuser then Ok(u) else Err(Forbidden)
  }

  /** get_current_active_user: an inactive account is refused with 400. */
  function ActiveUser(u: User): (r: Result<User>)
    ensures r.Ok? <==> u.isActive
    ensures r.Ok? ==> r.value == u
    ensures r.Err? ==> r.error == BadRequest
  {
    if u.isActive then Ok(u) else Err(BadRequest)
  }

  /** A row of the join of assignments with roles that belongs to (user, project). A row
      whose role does not exist drops out of the inner join. */
  predicate IsAccessRow(a: Assignment, roles: map<Uuid, Role>, userId: Uuid, projectId: Uuid) {
    a.userId == userId && a.projectId == projectId && a.roleId in roles
  }

  /** The first row of that join. */
  function AccessRow(rows: seq<Assignment>, roles: map<Uuid, Role>, userId: Uuid, projectId: Uuid): (r: Option<nat>)
    ensures r.Some? ==> r.value < |rows| && IsAccessRow(rows[r.value], roles, userId, projectId)
    ensures r.Some? ==> forall j :: 0 <= j < r.value ==> !IsAccessRow(rows[j], roles, userId, projectId)
    ensures r.None? <==> forall j :: 0 <= j < |rows| ==> !IsAccessRow(rows[j], roles, userId, projectId)
  {
    Seqs.FirstIndex(rows, (a: Assignment) => IsAccessRow(a, roles, userId, projectId))
  }

  /** get_current_user_role_in_project: the rank of the role on the first assignment of the
      user in the project. A user with no such assignment is refused with 403, superuser or
      not. */
  function RoleInProject(rows: seq<Assignment>, roles: map<Uuid, Role>, u: User, projectId: Uuid): (r: Result<AccessInfo>)
    ensures r.Err? <==> forall j :: 0 <= j < |rows| ==> !IsAccessRow(rows[j], roles, u.id, projectId)
    ensures r.Err? ==> r.error == Forbidden
    ensures r.Ok? ==> r.value.user == u && r.value.projectId == projectId
    ensures r.Ok? ==> exists i :: 0 <= i < |rows| && IsAccessRow(rows[i], roles, u.id, projectId)
                                && r.value.rank == roles[rows[i].roleId].rank
                                && (forall j :: 0 <= j < i ==> !IsAccessRow(rows[j], roles, u.id, projectId))
  {
    match AccessRow(rows, roles, u.id, projectId)
    case None => Err(Forbidden)
    case Some(i) => Ok(AccessInfo(u, projectId, roles[rows[i].roleId].rank))
  }

  /** The checker built by verify_rank_in_project(minRank): it passes exactly when the rank
      is at most the threshold and then returns its input unchanged. */
  function VerifyRankInProject(minRank: int, info: AccessInfo): (r: Result<AccessInfo>)
    ensures r.Ok? <==> info.rank <= minRank
    ensures r.Ok? ==> r.value == info
    ensures r.Err? ==> r.error == Forbidden
  {
    if info.rank > minRank then Err(Forbidden) else Ok(info)
  }

  /** The two gates of a route that declares get_current_active_user in its decorator and
      takes the project gate as a parameter: the decorator's gate runs first. */
  function ActiveMember(rows: seq<Assignment>, roles: map<Uuid, Role>, u: User, projectId: Uuid): (r: Result<AccessInfo>)
    ensures !u.isActive ==> r == Err(BadRequest)
    ensures u.isActive ==> r == RoleInProject(rows, roles, u, projectId)
  {
    match ActiveUser(u)
    case Err(e) => Err(e)
    case Ok(_) => RoleInProject(rows, roles, u, projectId)
  }

  /** The project gate reads nothing but the user's id: the superuser flag never changes its
      outcome, and two users with the same id get the same rank. */
  lemma RoleInProjectIgnoresFlags(rows: seq<Assignment>, roles: map<Uuid, Role>, u: User, v: User, projectId: Uuid)
    requires u.id == v.id
    ensures RoleInProject(rows, roles, u, projectId).Ok? == RoleInProject(rows, roles, v, projectId).Ok?
    ensures RoleInProject(rows, roles, u, projectId).Ok? ==>
              RoleInProject(rows, roles, u, projectId).value.rank == RoleInProject(rows, roles, v, projectId).value.rank
  {
  }

  /** A rank that passes a threshold passes every larger threshold. */
  lemma RankThresholdMonotone(m1: int, m2: int, info: AccessInfo)
    requires m1 <= m2 && VerifyRankInProject(m1, info).Ok?
    ensures VerifyRankInProject(m2, info) == Ok(info)
  {
  }
}
