/** The tables and payload schemas of the backend (backend/app/models.py): users, system
    tiers, roles, projects, user-project-role assignments, role requests and the detail images
    of the EcoRetreat listings, with their defaults and field bounds. */
module Models {
  import opened Wrappers
  import opened StrUtil

  /** Identifiers (UUIDs in the database) are abstract. */
  type Uuid = nat

  /** A reading of the clock in the Asia/Ho_Chi_Minh time zone. */
  type Time = int

  // ---------------------------------------------------------------- users

  /** A stored user. Only the hash of the password is stored. The login and logout
      timestamps are not part of the model. */
  datatype User = User(
    id: Uuid,
    email: string,
    isActive: bool,
    isSuperuser: bool,
    fullName: Option<string>,
    phone: Option<string>,
    hashedPassword: string,
    systemRank: Option<int>)

  /** The registration payload. A `None` flag means the client left it out. */
  datatype UserCreate = UserCreate(
    email: string,
    isActive: Option<bool>,
    isSuperuser: Option<bool>,
    fullName: Option<string>,
    phone: Option<string>,
    password: string)

  /** The admin update payload. `None` means the field was not sent (`exclude_unset`). */
  datatype UserUpdate = UserUpdate(
    email: Option<string>,
    isActive: Option<bool>,
    isSuperuser: Option<bool>,
    fullName: Option<Option<string>>,
    phone: Option<Option<string>>,
    password: Option<string>,
    systemId: Option<Uuid>)

  const MinPasswordLength: nat := 8
  const MaxPasswordLength: nat := 40
  const MaxEmailLength: nat := 255
  const MaxFullNameLength: nat := 255
  const MaxPhoneLength: nat := 20

  predicate PasswordInBounds(p: string) {
    MinPasswordLength <= |p| <= MaxPasswordLength
  }

  predicate OptionalWithin(s: Option<string>, bound: nat) {
    s.None? || |s.value| <= bound
  }

  /** Field validation of a registration payload; a violation is answered with 422. The
      address syntax check of the email type is the parameter isEmail. */
  function ValidateUserCreate(c: UserCreate, isEmail: string -> bool): (r: Result<UserCreate>)
    ensures r.Ok? ==> r.value == c && 8 <= |c.password| <= 40 && isEmail(c.email)
    ensures r.Ok? <==> (8 <= |c.password| <= 40 && isEmail(c.email) && |c.email| <= 255
                         && OptionalWithin(c.fullName, 255) && OptionalWithin(c.phone, 20))
    ensures r.Err? ==> r.error == Unprocessable
  {
    if PasswordInBounds(c.password) && isEmail(c.email) && |c.email| <= MaxEmailLength
       && OptionalWithin(c.fullName, MaxFullNameLength) && OptionalWithin(c.phone, MaxPhoneLength)
    then Ok(c)
    else Err(Unprocessable)
  }

  /** Field validation of an update payload: each field that is sent obeys the bounds of a
      registration (an explicit null name or phone is accepted); a violation is answered
      with 422. */
  function ValidateUserUpdate(u: UserUpdate, isEmail: string -> bool): (r: Result<UserUpdate>)
    ensures r.Ok? ==> r.value == u
    ensures r.Ok? ==> (u.password.Some? ==> 8 <= |u.password.value| <= 40)
    ensures (u.password.Some? && !(8 <= |u.password.value| <= 40)) ==> r == Err(Unprocessable)
    ensures r.Ok? <==> && (u.password.None? || 8 <= |u.password.value| <= 40)
                       && (u.email.None? || (isEmail(u.email.value) && |u.email.value| <= 255))
                       && (u.fullName.None? || u.fullName.value.None? || |u.fullName.value.value| <= 255)
                       && (u.phone.None? || u.phone.value.None? || |u.phone.value.value| <= 20)
    ensures r.Err? ==> r.error == Unprocessable
  {
    if (u.password.None? || PasswordInBounds(u.password.value))
       && (u.email.None? || isEmail(u.email.value))
       && OptionalWithin(u.email, MaxEmailLength)
       && (u.fullName.None? || OptionalWithin(u.fullName.value, MaxFullNameLength))
       && (u.phone.None? || OptionalWithin(u.phone.value, MaxPhoneLength))
    then Ok(u)
    else Err(Unprocessable)
  }

  /** A user row built from a registration payload: flags left out default to false and
      no system tier is assigned. */
  function NewUser(id: Uuid, c: UserCreate, hashedPassword: string): (u: User)
    ensures u.id == id && u.email == c.email && u.hashedPassword == hashedPassword
    ensures c.isActive.None? ==> !u.isActive
    ensures c.isSuperuser.None? ==> !u.isSuperuser
    ensures u.systemRank.None?
    ensures u.isActive == c.isActive.GetOr(false) && u.isSuperuser == c.isSuperuser.GetOr(false)
    ensures u.fullName == c.fullName && u.phone == c.phone
  {
    User(id, c.email, c.isActive.GetOr(false), c.isSuperuser.GetOr(false),
         c.fullName, c.phone, hashedPassword, None)
  }

  /** A system tier; its rank_total becomes a user's system_rank. */
  datatype System = System(id: Uuid, name: Option<string>, rankTotal: int, description: Option<string>)

  // ---------------------------------------------------------------- roles and projects

  /** A role; rank is mandatory and a lower rank means more privilege. */
  datatype Role = Role(id: Uuid, name: string, rank: int, description: Option<string>)

  /** The columns of a project row besides its id. */
  const ProjectColumns: set<string> := {
    "name_vi", "name_en", "address_vi", "address_en", "type_vi", "type_en",
    "investor_vi", "investor_en", "picture" }

  /** A project row: its id and its column values, keyed by column name. */
  datatype Project = Project(id: Uuid, columns: map<string, Option<string>>)

  /** A project row built from a creation payload: every column the payload does not give
      is None, and keys that are not columns are ignored. */
  function NewProject(id: Uuid, create: map<string, Option<string>>): (p: Project)
    ensures p.id == id && p.columns.Keys == ProjectColumns
    ensures forall k :: k in ProjectColumns ==>
              p.columns[k] == (if k in create then create[k] else None)
  {
    Project(id, map k | k in ProjectColumns :: if k in create then create[k] else None)
  }

  // ---------------------------------------------------------------- ecopark listings

  /** The text columns of an ecopark listing. */
  const EcoparkTextColumns: set<string> := {
    "building_name", "picture_name", "building_type_vi", "building_type_en", "amenity_type_vi",
    "amenity_type_en", "zone_name_vi", "zone_name_en", "zone", "amenity", "direction_vi",
    "status_vi", "direction_en", "status_en", "description_vi", "description_en" }

  /** The integer columns of an ecopark listing. */
  const EcoparkIntColumns: set<string> := {"port", "bedroom", "price"}

  /** Every column of an ecopark listing; there is no project column. */
  const EcoparkColumns: set<string> := EcoparkTextColumns + EcoparkIntColumns + {"id"}

  /** A dumped ecopark listing: every column present, text columns holding a text or None,
      integer columns an integer or None (port is mandatory), the id an id. */
  predicate IsEcoparkDump(d: map<string, Value>) {
    && d.Keys == EcoparkColumns
    && (forall k :: k in EcoparkTextColumns ==> d[k].Null? || d[k].Str?)
    && (forall k :: k in EcoparkIntColumns ==> d[k].Null? || d[k].Int?)
    && d["port"].Int? && d["id"].Id?
  }

  // ---------------------------------------------------------------- assignments

  /** One user-project-role row. It has its own key: nothing makes (user, project) or
      (user, project, role) unique. */
  datatype Assignment = Assignment(id: Uuid, userId: Uuid, projectId: Uuid, roleId: Uuid)

  // ---------------------------------------------------------------- requests

  datatype RequestStatus = Pending | Approved | Rejected

  /** The string value of each status. */
  function StatusName(s: RequestStatus): string {
    match s
    case Pending => "pending"
    case Approved => "approved"
    case Rejected => "rejected"
  }

  /** The status a string names, if any. */
  function ParseStatus(t: string): Option<RequestStatus> {
    if t == "pending" then Some(Pending)
    else if t == "approved" then Some(Approved)
    else if t == "rejected" then Some(Rejected)
    else None
  }

  /** The three names and the three statuses correspond one to one. */
  lemma StatusNamesRoundTrip(s: RequestStatus, t: string)
    ensures ParseStatus(StatusName(s)) == Some(s)
    ensures ParseStatus(t) == Some(s) <==> StatusName(s) == t
  {
  }

  /** A role request. The bilingual message columns are collapsed into one message each. */
  datatype Request = Request(
    id: Uuid,
    projectId: Uuid,
    roleId: Uuid,
    requesterId: Uuid,
    approverId: Option<Uuid>,
    status: RequestStatus,
    requestMessage: Option<string>,
    responseMessage: Option<string>,
    createdAt: Time,
    updatedAt: Option<Time>)

  datatype RequestCreate = RequestCreate(roleId: Uuid, requestMessage: Option<string>)

  /** The decision payload. `None` means the field was not sent. */
  datatype RequestUpdate = RequestUpdate(status: Option<RequestStatus>, responseMessage: Option<string>)

  /** A request row as the table defaults make it: pending and with no approver. */
  function DefaultRequest(id: Uuid, projectId: Uuid, roleId: Uuid, requesterId: Uuid, now: Time): (r: Request)
    ensures r.status == Pending && r.approverId.None?
    ensures r.id == id && r.projectId == projectId && r.roleId == roleId && r.requesterId == requesterId
  {
    Request(id, projectId, roleId, requesterId, None, Pending, None, None, now, None)
  }

  // ---------------------------------------------------------------- listing details

  /** A detail image of an EcoRetreat listing. The picture column is required: a row object
      may hold a null picture (None) after an update, but the database refuses to store it. */
  datatype Detail = Detail(id: Uuid, port: int, picture: Option<string>, descriptionVi: Option<string>, descriptionEn: Option<string>)

  /** The fields an update dictionary gives. The outer `None` means the key is absent; an
      explicit null picture or description is `Some(None)`. */
  datatype DetailPatch = DetailPatch(port: Option<int>, picture: Option<Option<string>>,
                                     descriptionVi: Option<Option<string>>, descriptionEn: Option<Option<string>>)

  // ---------------------------------------------------------------- dictionary values

  /** A value of a JSON payload or of a dumped row. */
  datatype Value = Null | Bool(b: bool) | Int(i: int) | Str(s: string) | Id(u: Uuid)

  /** Python truthiness. */
  predicate Truthy(v: Value) {
    match v
    case Null => false
    case Bool(b) => b
    case Int(i) => i != 0
    case Str(s) => s != ""
    case Id(_) => true
  }

  /** Truthiness of an optional string column. */
  predicate TruthyText(s: Option<string>) {
    s.Some? && s.value != ""
  }

  /** `dict.get(key)`: None for a missing key. */
  function Get(d: map<string, Value>, key: string): Value {
    if key in d then d[key] else Null
  }

  function OptionText(s: Option<string>): Value {
    if s.Some? then Str(s.value) else Null
  }

  function OptionInt(i: Option<int>): Value {
    if i.Some? then Int(i.value) else Null
  }
}
