/** The role-request workflow of backend/app/api/routes/req.py: listing the requests of a
    project, asking for a role, deciding a request, and deleting one. A handler receives the
    already authenticated user (get_current_user) and runs the gates its route declares, in the
    order FastAPI resolves them. */
module Req {
  import opened Wrappers
  import opened Models
  import Seqs
  import opened Deps
  import opened Crud

  // ---------------------------------------------------------------- listing

  /** Whether the listing shows request q: it belongs to the project, and unless the caller is
      a superuser, its role exists and is strictly less privileged than the caller's. */
  predicate Visible(q: Request, roles: map<Uuid, Role>, projectId: Uuid, superuser: bool, rank: int) {
    q.projectId == projectId && (superuser || (q.roleId in roles && roles[q.roleId].rank > rank))
  }

  function VisibleTo(roles: map<Uuid, Role>, projectId: Uuid, superuser: bool, rank: int): Request -> bool {
    (q: Request) => Visible(q, roles, projectId, superuser, rank)
  }

  /** The requests the listing's WHERE clause keeps, in table order. */
  function VisibleRequests(requests: seq<Request>, roles: map<Uuid, Role>, projectId: Uuid, superuser: bool, rank: int): (r: seq<Request>)
    ensures forall i :: 0 <= i < |r| ==> r[i] in requests && Visible(r[i], roles, projectId, superuser, rank)
    ensures forall j :: 0 <= j < |requests| && Visible(requests[j], roles, projectId, superuser, rank) ==> requests[j] in r
    ensures |r| == Seqs.Count(requests, VisibleTo(roles, projectId, superuser, rank))
    ensures Seqs.KeepsInOrder(r, requests, VisibleTo(roles, projectId, superuser, rank))
  {
    Seqs.FilterLength(requests, VisibleTo(roles, projectId, superuser, rank));
    Seqs.FilterInOrder(requests, VisibleTo(roles, projectId, superuser, rank));
    Seqs.Filter(requests, VisibleTo(roles, projectId, superuser, rank))
  }

  /** The body of a listing: one page and the number of all visible requests. */
  datatype RequestPage = RequestPage(data: seq<Request>, count: nat)

  /** The page OFFSET skip LIMIT limit of the visible requests, counted in full. */
  function PageOf(all: seq<Request>, skip: nat, limit: nat): (p: RequestPage)
    ensures p.count == |all|
    ensures |p.data| == if skip >= |all| then 0 else if |all| - skip < limit then |all| - skip else limit
    ensures forall i :: 0 <= i < |p.data| ==> p.data[i] == all[skip + i]
  {
    RequestPage(Seqs.Page(all, skip, limit), |all|)
  }

  /** get_requests_by_project as the route is written: after the gates it builds the body as a
      single-request schema (RequestPublic) from `data` and `count`, which lacks the fields
      that schema requires, so every call that passes the gates ends in a server error. */
  function ListRequestsAsWritten(t: Tables, u: User, projectId: Uuid, skip: int, limit: int): (r: Result<RequestPage>)
    ensures RoleInProject(t.assignments, t.roles, u, projectId).Err? ==> r == Err(Forbidden)
    ensures RoleInProject(t.assignments, t.roles, u, projectId).Ok? && !u.isActive ==> r == Err(BadRequest)
    ensures RoleInProject(t.assignments, t.roles, u, projectId).Ok? && u.isActive && (skip < 0 || limit > 100) ==>
              r == Err(Unprocessable)
    ensures RoleInProject(t.assignments, t.roles, u, projectId).Ok? && u.isActive && 0 <= skip && limit <= 100 ==>
              r == Err(ServerError)
  {
    match RoleInProject(t.assignments, t.roles, u, projectId)
    case Err(e) => Err(e)
    case Ok(_) =>
      if !u.isActive then Err(BadRequest)
      else if skip < 0 || limit > 100 then Err(Unprocessable)
      else Err(ServerError)
  }

  /** The listing as written never answers, where the intended listing answers with a page
      whenever the gates pass. */
  lemma ListingAsWrittenNeverAnswers(t: Tables, u: User, projectId: Uuid, skip: int, limit: int)
    ensures ListRequestsAsWritten(t, u, projectId, skip, limit).Err?
    ensures ListRequests(t, u, projectId, skip, limit).Ok? ==>
              ListRequestsAsWritten(t, u, projectId, skip, limit) == Err(ServerError)
  {
  }

  /** get_requests_by_project as evidently intended, answering with a RequestsPublic page.
      The project gate runs first, then the active-user gate, then the query parameters are
      validated (skip >= 0, limit <= 100); a negative limit is refused by the database. */
  function ListRequests(t: Tables, u: User, projectId: Uuid, skip: int, limit: int): (r: Result<RequestPage>)
    ensures RoleInProject(t.assignments, t.roles, u, projectId).Err? ==> r == Err(Forbidden)
    ensures RoleInProject(t.assignments, t.roles, u, projectId).Ok? && !u.isActive ==> r == Err(BadRequest)
    ensures RoleInProject(t.assignments, t.roles, u, projectId).Ok? && u.isActive && (skip < 0 || limit > 100) ==>
              r == Err(Unprocessable)
    ensures r.Ok? <==> RoleInProject(t.assignments, t.roles, u, projectId).Ok? && u.isActive && 0 <= skip && 0 <= limit <= 100
    ensures r.Ok? ==>
              var rank := RoleInProject(t.assignments, t.roles, u, projectId).value.rank;
              && r.value.count == |VisibleRequests(t.requests, t.roles, projectId, u.isSuperuser, rank)|
              && |r.value.data| <= limit
              && (forall i :: 0 <= i < |r.value.data| ==>
                    r.value.data[i] in t.requests && Visible(r.value.data[i], t.roles, projectId, u.isSuperuser, rank))
    ensures r.Ok? ==>
              r.value == PageOf(VisibleRequests(t.requests, t.roles, projectId, u.isSuperuser,
                                                RoleInProject(t.assignments, t.roles, u, projectId).value.rank), skip, limit)
  {
    match RoleInProject(t.assignments, t.roles, u, projectId)
    case Err(e) => Err(e)
    case Ok(info) =>
      if !u.isActive then Err(BadRequest)
      else if skip < 0 || limit > 100 then Err(Unprocessable)
      else if limit < 0 then Err(ServerError)
      else
        var all := VisibleRequests(t.requests, t.roles, projectId, u.isSuperuser, info.rank);
        Ok(PageOf(all, skip, limit))
  }

  /** A superuser is shown at least as many requests as anyone else of the same rank. */
  lemma SuperuserSeesMore(requests: seq<Request>, roles: map<Uuid, Role>, projectId: Uuid, rank: int)
    ensures |VisibleRequests(requests, roles, projectId, false, rank)| <= |VisibleRequests(requests, roles, projectId, true, rank)|
  {
    Seqs.CountWeaker(requests, VisibleTo(roles, projectId, false, rank), VisibleTo(roles, projectId, true, rank));
  }

  /** A more privileged rank (a smaller number) is shown at least as many requests. */
  lemma PrivilegeSeesMore(requests: seq<Request>, roles: map<Uuid, Role>, projectId: Uuid, superuser: bool, r1: int, r2: int)
    requires r1 <= r2
    ensures |VisibleRequests(requests, roles, projectId, superuser, r2)| <= |VisibleRequests(requests, roles, projectId, superuser, r1)|
  {
    Seqs.CountWeaker(requests, VisibleTo(roles, projectId, superuser, r2), VisibleTo(roles, projectId, superuser, r1));
  }

  // ---------------------------------------------------------------- asking for a role

  /** The smallest rank a request may ask for: ranks 1 and 2 cannot be requested. */
  const MinRequestableRank: int := 3

  /** create_request. `systemGate` is the route's verify_system_rank_in([1, 2]) gate, whose
      definition is not part of this model; it runs first. Then the role must exist (404) and
      be requestable (403). Membership of the project is not checked. */
  method CreateRequest(db: Store, u: User, systemGate: User -> Result<User>, projectId: Uuid,
                       create: RequestCreate, now: Time) returns (r: Result<Request>)
    requires db.Valid()
    modifies db
    ensures db.Valid()
    ensures systemGate(u).Err? ==> r == Err(systemGate(u).error)
    ensures systemGate(u).Ok? && create.roleId !in old(db.roles) ==> r == Err(NotFound)
    ensures systemGate(u).Ok? && create.roleId in old(db.roles) && old(db.roles)[create.roleId].rank < MinRequestableRank ==>
              r == Err(Forbidden)
    ensures r.Ok? <==> systemGate(u).Ok? && create.roleId in old(db.roles) && old(db.roles)[create.roleId].rank >= MinRequestableRank
    ensures r.Err? ==> db.Snapshot() == old(db.Snapshot())
    ensures r.Ok? ==> && r.value.status == Pending && r.value.approverId.None?
                      && r.value.requesterId == u.id && r.value.projectId == projectId && r.value.roleId == create.roleId
                      && db.Snapshot() == old(db.Snapshot()).(requests := old(db.requests) + [r.value])
  {
    var gate := systemGate(u);
    if gate.Err? {
      return Err(gate.error);
    }
    if create.roleId !in db.roles {
      return Err(NotFound);
    }
    if db.roles[create.roleId].rank < MinRequestableRank {
      return Err(Forbidden);
    }
    var q := db.CreateRequest(create, u.id, projectId, now);
    r := Ok(q);
  }

  // ---------------------------------------------------------------- deciding a request

  /** The checks update_request_status makes before it writes anything, in order: the
      active-user gate (400), the project gate (403), the request (404), its project for a
      non-superuser (403), its role (404) and, for a non-superuser, that the role is strictly
      less privileged than the caller's rank (403). On success, the index of the request. */
  function DecisionGate(t: Tables, u: User, projectId: Uuid, requestId: Uuid): (r: Result<nat>)
    ensures !u.isActive ==> r == Err(BadRequest)
    ensures u.isActive && RoleInProject(t.assignments, t.roles, u, projectId).Err? ==> r == Err(Forbidden)
    ensures u.isActive && RoleInProject(t.assignments, t.roles, u, projectId).Ok? && FindRequest(t.requests, requestId).None? ==>
              r == Err(NotFound)
    ensures u.isActive && RoleInProject(t.assignments, t.roles, u, projectId).Ok? && FindRequest(t.requests, requestId).Some? ==>
              var q := t.requests[FindRequest(t.requests, requestId).value];
              var rank := RoleInProject(t.assignments, t.roles, u, projectId).value.rank;
              && (!u.isSuperuser && q.projectId != projectId ==> r == Err(Forbidden))
              && ((u.isSuperuser || q.projectId == projectId) && q.roleId !in t.roles ==> r == Err(NotFound))
              && (!u.isSuperuser && q.projectId == projectId && q.roleId in t.roles && t.roles[q.roleId].rank <= rank ==>
                    r == Err(Forbidden))
              && (r.Ok? <==> q.roleId in t.roles && (u.isSuperuser || (q.projectId == projectId && t.roles[q.roleId].rank > rank)))
    ensures r.Err? ==> r.error in {BadRequest, Forbidden, NotFound}
    ensures r.Ok? ==> u.isActive && RoleInProject(t.assignments, t.roles, u, projectId).Ok?
    ensures r.Ok? ==> r.value < |t.requests| && t.requests[r.value].id == requestId && t.requests[r.value].roleId in t.roles
    ensures r.Ok? && !u.isSuperuser ==>
              && t.requests[r.value].projectId == projectId
              && t.roles[t.requests[r.value].roleId].rank > RoleInProject(t.assignments, t.roles, u, projectId).value.rank
  {
    if !u.isActive then Err(BadRequest)
    else
      match RoleInProject(t.assignments, t.roles, u, projectId)
      case Err(e) => Err(e)
      case Ok(info) =>
        match FindRequest(t.requests, requestId)
        case None => Err(NotFound)
        case Some(i) =>
          var q := t.requests[i];
          if !u.isSuperuser && q.projectId != projectId then Err(Forbidden)
          else if q.roleId !in t.roles then Err(NotFound)
          else if !u.isSuperuser && t.roles[q.roleId].rank <= info.rank then Err(Forbidden)
          else Ok(i)
  }

  const ApprovedMessage: string := "Y\U{ea}u c\U{1ea7}u \U{111}\U{e3} \U{111}\U{1b0}\U{1ee3}c duy\U{1ec7}t"
  const RejectedMessage: string := "Y\U{ea}u c\U{1ea7}u b\U{1ecb} t\U{1eeb} ch\U{1ed1}i"

  /** The response message that is stored: the one sent, or when it is missing or empty a
      default that says whether the request was approved. */
  function ResponseMessage(update: RequestUpdate): (m: Option<string>)
    ensures TruthyText(m)
    ensures TruthyText(update.responseMessage) ==> m == update.responseMessage
    ensures !TruthyText(update.responseMessage) ==>
              m == Some(if update.status == Some(Approved) then ApprovedMessage else RejectedMessage)
  {
    if TruthyText(update.responseMessage) then update.responseMessage
    else Some(if update.status == Some(Approved) then ApprovedMessage else RejectedMessage)
  }

  /** The assignment table after an approval: the first row of the requester in the project
      is deleted, if there is one, and `row` is appended. */
  function ReplaceFirstRow(rows: seq<Assignment>, userId: Uuid, projectId: Uuid, row: Assignment): (r: seq<Assignment>)
    ensures |r| > 0 && r[|r| - 1] == row
    ensures FindUserProject(rows, userId, projectId).None? ==> r == rows + [row]
    ensures FindUserProject(rows, userId, projectId).Some? ==> |r| == |rows|
  {
    match FindUserProject(rows, userId, projectId)
    case None => rows + [row]
    case Some(j) => rows[..j] + rows[j + 1..] + [row]
  }

  /** The approval step of update_request_status: the first assignment of the requester in
      the project is deleted, if there is one, and a row with the approved role is appended. */
  method ReplaceAssignment(db: Store, userId: Uuid, projectId: Uuid, roleId: Uuid) returns (row: Assignment)
    requires db.Valid()
    modifies db
    ensures db.Valid()
    ensures row.userId == userId && row.projectId == projectId && row.roleId == roleId
    ensures db.Snapshot() == old(db.Snapshot()).(assignments := ReplaceFirstRow(old(db.assignments), userId, projectId, row))
  {
    ghost var before := db.assignments;
    var existing := FindUserProject(db.assignments, userId, projectId);
    if existing.Some? {
      db.DeleteAssignment(existing.value);
    }
    row := db.AddAssignment(userId, projectId, roleId);
  }

  /** update_request_status. After the checks of DecisionGate, the decision (with its
      response message) is written over the request with the caller as approver. An approval
      then deletes the first assignment of the requester in the PATH project and appends one
      with the requested role; the request is not required to be pending. */
  method UpdateRequestStatus(db: Store, u: User, projectId: Uuid, requestId: Uuid, update: RequestUpdate, now: Time)
    returns (r: Result<Request>)
    requires db.Valid()
    modifies db
    ensures db.Valid()
    ensures DecisionGate(old(db.Snapshot()), u, projectId, requestId).Err? ==>
              r == Err(DecisionGate(old(db.Snapshot()), u, projectId, requestId).error) && db.Snapshot() == old(db.Snapshot())
    ensures DecisionGate(old(db.Snapshot()), u, projectId, requestId).Ok? ==>
              var i := DecisionGate(old(db.Snapshot()), u, projectId, requestId).value;
              && r == Ok(MergeRequest(old(db.requests[i]), update.(responseMessage := ResponseMessage(update)), u.id, now))
              && db.requests == old(db.requests)[i := r.value]
    ensures r.Ok? && update.status == Some(Approved) ==>
              && |db.assignments| > 0
              && db.assignments == ReplaceFirstRow(old(db.assignments), r.value.requesterId, projectId, db.assignments[|db.assignments| - 1])
              && db.assignments[|db.assignments| - 1].userId == r.value.requesterId
              && db.assignments[|db.assignments| - 1].projectId == projectId
              && db.assignments[|db.assignments| - 1].roleId == r.value.roleId
    ensures update.status != Some(Approved) ==> db.assignments == old(db.assignments)
    ensures db.users == old(db.users) && db.systems == old(db.systems) && db.roles == old(db.roles)
    ensures db.projects == old(db.projects) && db.details == old(db.details)
  {
    var gate := DecisionGate(db.Snapshot(), u, projectId, requestId);
    if gate.Err? {
      return Err(gate.error);
    }
    var decision := update.(responseMessage := ResponseMessage(update));
    var q := db.UpdateRequest(gate.value, decision, u.id, now);
    if update.status == Some(Approved) {
      var row := ReplaceAssignment(db, q.requesterId, projectId, q.roleId);
    }
    r := Ok(q);
  }

  /** Approval never leaves the requester without a row in the project: the number of their
      rows there becomes max(before, 1). */
  lemma {:induction false} ReplaceFirstRowCount(rows: seq<Assignment>, userId: Uuid, projectId: Uuid, row: Assignment)
    requires row.userId == userId && row.projectId == projectId
    ensures RowsOf(ReplaceFirstRow(rows, userId, projectId, row), userId, projectId)
            == if RowsOf(rows, userId, projectId) == 0 then 1 else RowsOf(rows, userId, projectId)
  {
    var p := UserProjectIs(userId, projectId);
    Seqs.CountAppend(rows, [row], p);
    match FindUserProject(rows, userId, projectId)
    case None =>
    case Some(j) =>
      assert rows == rows[..j] + [rows[j]] + rows[j + 1..];
      Seqs.CountAppend(rows[..j] + [rows[j]], rows[j + 1..], p);
      Seqs.CountAppend(rows[..j], [rows[j]], p);
      Seqs.CountAppend(rows[..j] + rows[j + 1..], [row], p);
      Seqs.CountAppend(rows[..j], rows[j + 1..], p);
  }

  /** When the requester had at most one row in the project, after the approval the project
      gate gives them exactly the rank of the approved role. */
  lemma {:induction false} ApprovalGrantsRank(rows: seq<Assignment>, roles: map<Uuid, Role>, requester: User, projectId: Uuid, row: Assignment)
    requires row.userId == requester.id && row.projectId == projectId && row.roleId in roles
    requires RowsOf(rows, requester.id, projectId) <= 1
    ensures RoleInProject(ReplaceFirstRow(rows, requester.id, projectId, row), roles, requester, projectId)
            == Ok(AccessInfo(requester, projectId, roles[row.roleId].rank))
  {
    var after := ReplaceFirstRow(rows, requester.id, projectId, row);
    var p := UserProjectIs(requester.id, projectId);
    ReplaceFirstRowCount(rows, requester.id, projectId, row);
    var pre := after[..|after| - 1];
    assert after == pre + [row];
    Seqs.CountAppend(pre, [row], p);
    assert Seqs.Count([row], p) == 1;
    assert forall j :: 0 <= j < |pre| ==> !p(pre[j]);
    assert forall j :: 0 <= j < |pre| ==> !IsAccessRow(after[j], roles, requester.id, projectId);
    assert IsAccessRow(after[|pre|], roles, requester.id, projectId);
  }

  /** With exactly two rows of the requester in the project (the second with an existing
      role), an approval deletes only the first: the second stays ahead of the new row, so
      the requester still has two rows and the project gate gives the second row's rank, not
      the approved one. */
  lemma ApprovalOverDuplicateKeepsOldRank(rows: seq<Assignment>, roles: map<Uuid, Role>, requester: User, projectId: Uuid,
                                          row: Assignment, i: nat, k: nat)
    requires row.userId == requester.id && row.projectId == projectId
    requires i < k < |rows|
    requires IsUserProjectRow(rows[i], requester.id, projectId) && IsAccessRow(rows[k], roles, requester.id, projectId)
    requires forall j :: 0 <= j < |rows| && j != i && j != k ==> !IsUserProjectRow(rows[j], requester.id, projectId)
    ensures RowsOf(ReplaceFirstRow(rows, requester.id, projectId, row), requester.id, projectId) == 2
    ensures RoleInProject(ReplaceFirstRow(rows, requester.id, projectId, row), roles, requester, projectId)
            == Ok(AccessInfo(requester, projectId, roles[rows[k].roleId].rank))
  {
    var after := ReplaceFirstRow(rows, requester.id, projectId, row);
    ReplaceFirstOfTwo(rows, requester.id, projectId, row, i, k);
    Seqs.CountExactlyTwo(after, UserProjectIs(requester.id, projectId), k - 1, |after| - 1);
    var gate := RoleInProject(after, roles, requester, projectId);
    assert IsAccessRow(after[k - 1], roles, requester.id, projectId);
    var f :| 0 <= f < |after| && IsAccessRow(after[f], roles, requester.id, projectId)
             && gate.value.rank == roles[after[f].roleId].rank
             && (forall j :: 0 <= j < f ==> !IsAccessRow(after[j], roles, requester.id, projectId));
    assert f == k - 1;
  }

  /** When a user has exactly two rows in a project, replacing the first leaves the second one
      (one place earlier) and the new row at the end as the only rows of that user there. */
  lemma ReplaceFirstOfTwo(rows: seq<Assignment>, userId: Uuid, projectId: Uuid, row: Assignment, i: nat, k: nat)
    requires row.userId == userId && row.projectId == projectId
    requires i < k < |rows| && IsUserProjectRow(rows[i], userId, projectId) && IsUserProjectRow(rows[k], userId, projectId)
    requires forall j :: 0 <= j < |rows| && j != i && j != k ==> !IsUserProjectRow(rows[j], userId, projectId)
    ensures var after := ReplaceFirstRow(rows, userId, projectId, row);
            && |after| == |rows| && after[k - 1] == rows[k] && after[|after| - 1] == row
            && forall j :: 0 <= j < |after| && j != k - 1 && j != |after| - 1 ==> !IsUserProjectRow(after[j], userId, projectId)
  {
    assert FindUserProject(rows, userId, projectId) == Some(i);
    var after := ReplaceFirstRow(rows, userId, projectId, row);
    assert after == rows[..i] + rows[i + 1..] + [row];
    assert forall j :: 0 <= j < |after| - 1 ==> after[j] == if j < i then rows[j] else rows[j + 1];
  }

  // ---------------------------------------------------------------- deleting a request

  /** delete_request. The route's superuser gate runs first (403), then the project gate
      (403); then the request must exist (404) and belong to the path project (403). */
  method DeleteRequest(db: Store, u: User, projectId: Uuid, requestId: Uuid) returns (r: Result<()>)
    requires db.Valid()
    modifies db
    ensures db.Valid()
    ensures !u.isSuperuser ==> r == Err(Forbidden)
    ensures u.isSuperuser && RoleInProject(old(db.assignments), old(db.roles), u, projectId).Err? ==> r == Err(Forbidden)
    ensures r.Ok? <==> u.isSuperuser && RoleInProject(old(db.assignments), old(db.roles), u, projectId).Ok?
                       && FindRequest(old(db.requests), requestId).Some?
                       && old(db.requests)[FindRequest(old(db.requests), requestId).value].projectId == projectId
    ensures r.Err? ==> db.Snapshot() == old(db.Snapshot())
    ensures r.Ok? ==> var i := FindRequest(old(db.requests), requestId).value;
                      db.Snapshot() == old(db.Snapshot()).(requests := old(db.requests[..i] + db.requests[i + 1..]))
  {
    if !u.isSuperuser {
      return Err(Forbidden);
    }
    var info := RoleInProject(db.assignments, db.roles, u, projectId);
    if info.Err? {
      return Err(info.error);
    }
    var found := FindRequest(db.requests, requestId);
    if found.None? {
      return Err(NotFound);
    }
    if db.requests[found.value].projectId != projectId {
      return Err(Forbidden);
    }
    db.DeleteRequest(found.value);
    r := Ok(());
  }
}
