/** Administration (src/services/adminService.ts): admin sign-in, paginated
    listings of users, projects, payments and disputes, and the single-row
    overrides an administrator can apply. */
module AdminService {
  import opened Wrappers
  import opened Models
  import opened Ordering
  import opened SqlLike
  import opened Database

  // ---------------------------------------------------------------- login

  /** What a successful admin login returns besides the signed token. */
  datatype AdminSession = AdminSession(id: Id, email: string, role: UserRole)

  /** `SELECT * FROM users WHERE email = $1 AND role = 'admin'`, first row. */
  function AdminByEmail(users: map<Id, User>, email: string): (r: Option<Id>)
    ensures r.Some? ==> r.value in users && users[r.value].email == email && users[r.value].role == Admin
    ensures r.None? <==> forall k :: k in users ==> !(users[k].email == email && users[k].role == Admin)
  {
    FirstWhere(users, (u: User) => u.email == email && u.role == Admin)
  }

  /** login. `passwordMatches(password, hash)` is the bcrypt comparison. The
      account's state is checked before the password. */
  function AdminLogin(users: map<Id, User>, email: string, password: string,
                      passwordMatches: (string, string) -> bool): (r: Result<AdminSession>)
    ensures AdminByEmail(users, email).None? ==> r == Err(AppError("Invalid credentials", 401))
    ensures AdminByEmail(users, email).Some? && !users[AdminByEmail(users, email).value].isActive
            ==> r == Err(AppError("Account is deactivated", 403))
    ensures AdminByEmail(users, email).Some? && users[AdminByEmail(users, email).value].isActive
            && !passwordMatches(password, users[AdminByEmail(users, email).value].passwordHash)
            ==> r == Err(AppError("Invalid credentials", 401))
    ensures r.Ok? ==> var k := r.value.id;
      && k in users && users[k].email == email && users[k].role == Admin && users[k].isActive
      && passwordMatches(password, users[k].passwordHash)
      && r.value == AdminSession(k, email, Admin)
    ensures r.Err? ==> r.error in {AppError("Invalid credentials", 401), AppError("Account is deactivated", 403)}
  {
    var found := AdminByEmail(users, email);
    if found.None? then Err(AppError("Invalid credentials", 401))
    else
      var admin := users[found.value];
      if !admin.isActive then Err(AppError("Account is deactivated", 403))
      else if !passwordMatches(password, admin.passwordHash) then Err(AppError("Invalid credentials", 401))
      else Ok(AdminSession(found.value, admin.email, admin.role))
  }

  /** With e-mail addresses unique, an admin login succeeds exactly when an
      active admin account has that address and the password matches it. */
  lemma AdminLoginSucceedsIff(users: map<Id, User>, email: string, password: string,
                              passwordMatches: (string, string) -> bool)
    requires forall i, j :: i in users && j in users && users[i].email == users[j].email ==> i == j
    ensures AdminLogin(users, email, password, passwordMatches).Ok?
            <==> exists k :: k in users && users[k].email == email && users[k].role == Admin
                             && users[k].isActive && passwordMatches(password, users[k].passwordHash)
  {
    if exists k :: k in users && users[k].email == email && users[k].role == Admin
                   && users[k].isActive && passwordMatches(password, users[k].passwordHash) {
      var k :| k in users && users[k].email == email && users[k].role == Admin
               && users[k].isActive && passwordMatches(password, users[k].passwordHash);
      var found := AdminByEmail(users, email);
      assert found.Some?;
      assert found.value == k;
    }
  }

  // ----------------------------------------------------------- pagination

  /** One page of a listing with the total the count query reports.
      `totalPages` is `Math.ceil(total / limit)`, which is not a finite number
      when `limit` is 0 (None). */
  datatype Listing = Listing(ids: seq<Id>, total: nat, page: nat, limit: nat, totalPages: Option<nat>)

  /** `page = 1` and `limit = 20` when the caller leaves them out. */
  function PageNumber(page: Option<nat>): nat { page.GetOr(1) }

  function PageSize(limit: Option<nat>): nat { limit.GetOr(20) }

  /** `Math.ceil(total / limit)` for a positive limit. */
  function TotalPages(total: nat, limit: nat): nat
    requires limit > 0
  {
    (total + limit - 1) / limit
  }

  /** The page count is the least number of pages of `limit` rows that hold
      `total` rows. */
  lemma TotalPagesBounds(total: nat, limit: nat)
    requires limit > 0
    ensures var t := TotalPages(total, limit);
      && total <= t * limit
      && (t == 0 || (t - 1) * limit < total)
      && (t == 0 <==> total == 0)
  {
    var t := TotalPages(total, limit);
    var n := total + limit - 1;
    var rem := n % limit;
    assert n == t * limit + rem && 0 <= rem < limit;
    assert (t - 1) * limit == t * limit - limit;
  }

  lemma MulMonotone(a: int, b: int, c: nat)
    requires a <= b
    ensures a * c <= b * c
  {
    assert b * c - a * c == (b - a) * c;
  }

  /** Pages 1 to totalPages hold rows and no page after them does. */
  lemma PageHoldsRowsIff(total: nat, page: nat, limit: nat)
    requires page >= 1 && limit > 0
    ensures (page - 1) * limit < total <==> page <= TotalPages(total, limit)
  {
    var t := TotalPages(total, limit);
    TotalPagesBounds(total, limit);
    if page <= t {
      MulMonotone(page - 1, t - 1, limit);
    } else {
      MulMonotone(t, page - 1, limit);
    }
  }

  /** `(page - 1) * limit`, counted up one page at a time so that the
      listing proofs stay linear; RowOffsetIsProduct ties it to the product. */
  function RowOffset(page: nat, limit: nat): int
  {
    if page == 0 then -(limit as int)
    else if page == 1 then 0
    else RowOffset(page - 1, limit) + limit
  }

  lemma {:induction false} RowOffsetIsProduct(page: nat, limit: nat)
    ensures RowOffset(page, limit) == (page - 1) * limit
  {
    if page > 1 {
      RowOffsetIsProduct(page - 1, limit);
      assert (page - 1) * limit == (page - 2) * limit + limit;
    }
  }

  lemma {:induction false} RowOffsetSign(page: nat, limit: nat)
    ensures RowOffset(page, limit) < 0 <==> page == 0 && limit > 0
  {
    if page > 1 {
      RowOffsetSign(page - 1, limit);
    }
  }

  /** The first row of page `page`: `(page - 1) * limit` when that is not
      negative. */
  function StartRow(page: nat, limit: nat): nat
  {
    if RowOffset(page, limit) < 0 then 0 else RowOffset(page, limit)
  }

  /** The matching rows `sel` of a listing, newest first by `ts`, at
      `OFFSET (page - 1) * limit LIMIT limit`, with their count. A negative
      offset (page 0) makes the query fail. */
  function Paginate<T>(sel: map<Id, T>, ts: T -> int, page: nat, limit: nat): (r: Result<Listing>)
    ensures r.Err? <==> page == 0 && limit > 0
    ensures r.Ok? ==> var l := r.value;
      && l.total == |sel| && l.page == page && l.limit == limit
      && (forall i :: 0 <= i < |l.ids| ==> l.ids[i] in sel)
      && NewestOrder(l.ids, sel, ts)
      && StartRow(page, limit) == RowOffset(page, limit)
      && |l.ids| == WindowLength(|sel|, StartRow(page, limit), limit)
      && (limit > 0 ==> l.totalPages == Some(TotalPages(|sel|, limit)))
      && (limit == 0 ==> l.totalPages.None?)
      && (page == 1 && |sel| <= limit ==> forall k :: k in l.ids <==> k in sel)
      && (forall i :: 0 <= i < |l.ids| ==>
            i + StartRow(page, limit) < |sel| && l.ids[i] == NewestFirst(sel, ts)[i + StartRow(page, limit)])
      && (forall k :: k in sel && k !in l.ids ==>
            (page > 1 && NoOlderThan(k, l.ids, sel, ts)) || NoNewerThan(k, l.ids, sel, ts))
  {
    RowOffsetSign(page, limit);
    if RowOffset(page, limit) < 0 then Err(Fault("OFFSET must not be negative"))
    else
      var o := StartRow(page, limit);
      var ids := Window(NewestFirst(sel, ts), o, Some(limit));
      PageRows(sel, ts, page, limit, o, ids);
      Ok(Listing(ids, |sel|, page, limit, if limit > 0 then Some(TotalPages(|sel|, limit)) else None))
  }

  /** The rows at `OFFSET o LIMIT limit` of the newest-first order, where `o`
      is the first row of page `page`. */
  lemma PageRows<T>(sel: map<Id, T>, ts: T -> int, page: nat, limit: nat, o: nat, ids: seq<Id>)
    requires o == StartRow(page, limit) && (page == 0 ==> limit == 0)
    requires ids == Window(NewestFirst(sel, ts), o, Some(limit))
    ensures (forall i :: 0 <= i < |ids| ==> ids[i] in sel)
      && NewestOrder(ids, sel, ts)
      && |ids| == WindowLength(|sel|, o, limit)
      && (page == 1 && |sel| <= limit ==> forall k :: k in ids <==> k in sel)
      && (forall i :: 0 <= i < |ids| ==> i + o < |sel| && ids[i] == NewestFirst(sel, ts)[i + o])
      && (forall k :: k in sel && k !in ids ==>
            (page > 1 && NoOlderThan(k, ids, sel, ts)) || NoNewerThan(k, ids, sel, ts))
  {
    assert (page == 1 ==> o == 0) && (o > 0 ==> page > 1);
    NewestWindow(sel, ts, o, limit);
  }

  /** Page `page + 1` starts where page `page` ends, so by AdjacentWindows
      it shares no row with it and holds no newer row. */
  lemma {:induction false} NextPageStart(page: nat, limit: nat)
    requires page >= 1
    ensures StartRow(page + 1, limit) == StartRow(page, limit) + limit
  {
    RowOffsetSign(page, limit);
    RowOffsetSign(page + 1, limit);
  }

  // -------------------------------------------------------------- listUsers

  datatype UserFilter = UserFilter(
    role: Option<string>,
    isVerified: Option<bool>,
    isActive: Option<bool>,
    search: Option<string>,
    page: Option<nat>,
    limit: Option<nat>)

  /** The WHERE clause of listUsers and of its count query. A NULL phone
      matches no search. */
  predicate UserMatches(f: UserFilter, u: User) {
    && (PresentText(f.role) ==> RoleName(u.role) == f.role.value)
    && (f.isVerified.Some? ==> u.isVerified == f.isVerified.value)
    && (f.isActive.Some? ==> u.isActive == f.isActive.value)
    && (PresentText(f.search) ==>
          SearchMatches(u.name, f.search.value) || SearchMatches(u.email, f.search.value)
          || (u.phone.Some? && SearchMatches(u.phone.value, f.search.value)))
  }

  function SelectUsers(m: map<Id, User>, f: UserFilter): (r: map<Id, User>)
    ensures forall k :: k in r <==> k in m && UserMatches(f, m[k])
    ensures forall k :: k in r ==> r[k] == m[k]
  {
    map k | k in m && UserMatches(f, m[k]) :: m[k]
  }

  function UserCreatedAt(u: User): int { u.createdAt }

  /** listUsers: the page holds matching users only, newest first, and the
      total counts every matching user. */
  function ListUsers(m: map<Id, User>, f: UserFilter): (r: Result<Listing>)
    ensures r.Err? <==> PageNumber(f.page) == 0 && PageSize(f.limit) > 0
    ensures r.Ok? ==>
      && r.value.total == |SelectUsers(m, f)|
      && (forall i :: 0 <= i < |r.value.ids| ==> r.value.ids[i] in m && UserMatches(f, m[r.value.ids[i]]))
      && NewestOrder(r.value.ids, m, UserCreatedAt)
      && |r.value.ids| <= PageSize(f.limit)
      && r.value.page == PageNumber(f.page) && r.value.limit == PageSize(f.limit)
      && |r.value.ids| == WindowLength(r.value.total, StartRow(PageNumber(f.page), PageSize(f.limit)), PageSize(f.limit))
    ensures r == Paginate(SelectUsers(m, f), UserCreatedAt, PageNumber(f.page), PageSize(f.limit))
  {
    var sel := SelectUsers(m, f);
    var r := Paginate(sel, UserCreatedAt, PageNumber(f.page), PageSize(f.limit));
    if r.Ok? then NewestOrderWider(r.value.ids, sel, m, UserCreatedAt); r else r
  }

  // ----------------------------------------------------------- listProjects

  datatype ProjectListFilter = ProjectListFilter(
    status: Option<string>,
    search: Option<string>,
    page: Option<nat>,
    limit: Option<nat>)

  /** The search also looks at the owning student's name, which the left
      join leaves NULL when that user is gone. */
  predicate ProjectListMatches(users: map<Id, User>, f: ProjectListFilter, p: Project) {
    && (PresentText(f.status) ==> ProjectStatusName(p.status) == f.status.value)
    && (PresentText(f.search) ==>
          SearchMatches(p.title, f.search.value) || SearchMatches(p.description, f.search.value)
          || (p.studentId in users && SearchMatches(users[p.studentId].name, f.search.value)))
  }

  function SelectProjects(s: Store, f: ProjectListFilter): (r: map<Id, Project>)
    ensures forall k :: k in r <==> k in s.projects && ProjectListMatches(s.users, f, s.projects[k])
    ensures forall k :: k in r ==> r[k] == s.projects[k]
  {
    map k | k in s.projects && ProjectListMatches(s.users, f, s.projects[k]) :: s.projects[k]
  }

  function ProjectCreatedAt(p: Project): int { p.createdAt }

  /** The admin's listProjects. */
  function ListProjects(s: Store, f: ProjectListFilter): (r: Result<Listing>)
    ensures r.Err? <==> PageNumber(f.page) == 0 && PageSize(f.limit) > 0
    ensures r.Ok? ==>
      && r.value.total == |SelectProjects(s, f)|
      && (forall i :: 0 <= i < |r.value.ids| ==>
            r.value.ids[i] in s.projects && ProjectListMatches(s.users, f, s.projects[r.value.ids[i]]))
      && NewestOrder(r.value.ids, s.projects, ProjectCreatedAt)
      && |r.value.ids| <= PageSize(f.limit)
      && r.value.page == PageNumber(f.page) && r.value.limit == PageSize(f.limit)
      && |r.value.ids| == WindowLength(r.value.total, StartRow(PageNumber(f.page), PageSize(f.limit)), PageSize(f.limit))
    ensures r == Paginate(SelectProjects(s, f), ProjectCreatedAt, PageNumber(f.page), PageSize(f.limit))
  {
    var sel := SelectProjects(s, f);
    var r := Paginate(sel, ProjectCreatedAt, PageNumber(f.page), PageSize(f.limit));
    if r.Ok? then NewestOrderWider(r.value.ids, sel, s.projects, ProjectCreatedAt); r else r
  }

  // ----------------------------------------------------------- listPayments

  datatype PaymentListFilter = PaymentListFilter(
    status: Option<string>,
    paymentType: Option<string>,
    page: Option<nat>,
    limit: Option<nat>)

  predicate PaymentListMatches(f: PaymentListFilter, p: Payment) {
    && (PresentText(f.status) ==> PaymentStatusName(p.status) == f.status.value)
    && (PresentText(f.paymentType) ==> PaymentTypeName(p.paymentType) == f.paymentType.value)
  }

  function SelectPayments(m: map<Id, Payment>, f: PaymentListFilter): (r: map<Id, Payment>)
    ensures forall k :: k in r <==> k in m && PaymentListMatches(f, m[k])
    ensures forall k :: k in r ==> r[k] == m[k]
  {
    map k | k in m && PaymentListMatches(f, m[k]) :: m[k]
  }

  function PaymentCreatedAt(p: Payment): int { p.createdAt }

  function ListPayments(m: map<Id, Payment>, f: PaymentListFilter): (r: Result<Listing>)
    ensures r.Err? <==> PageNumber(f.page) == 0 && PageSize(f.limit) > 0
    ensures r.Ok? ==>
      && r.value.total == |SelectPayments(m, f)|
      && (forall i :: 0 <= i < |r.value.ids| ==>
            r.value.ids[i] in m && PaymentListMatches(f, m[r.value.ids[i]]))
      && NewestOrder(r.value.ids, m, PaymentCreatedAt)
      && |r.value.ids| <= PageSize(f.limit)
      && r.value.page == PageNumber(f.page) && r.value.limit == PageSize(f.limit)
      && |r.value.ids| == WindowLength(r.value.total, StartRow(PageNumber(f.page), PageSize(f.limit)), PageSize(f.limit))
    ensures r == Paginate(SelectPayments(m, f), PaymentCreatedAt, PageNumber(f.page), PageSize(f.limit))
  {
    var sel := SelectPayments(m, f);
    var r := Paginate(sel, PaymentCreatedAt, PageNumber(f.page), PageSize(f.limit));
    if r.Ok? then NewestOrderWider(r.value.ids, sel, m, PaymentCreatedAt); r else r
  }

  // ----------------------------------------------------------- listDisputes

  /** The API calls an open dispute "pending": the status filter is
      translated to the stored value ... */
  function StoredDisputeStatus(api: string): (r: string)
    ensures r != "pending"
    ensures api != "pending" ==> r == api
  {
    if api == "pending" then "open" else api
  }

  /** ... and the stored value back for display. */
  function ReportedDisputeStatus(stored: string): (r: string)
    ensures r != "open"
    ensures stored != "open" ==> r == stored
  {
    if stored == "open" then "pending" else stored
  }

  /** The two translations undo each other on the values each can produce. */
  lemma DisputeStatusRoundTrip(stored: string, api: string)
    ensures stored != "pending" ==> StoredDisputeStatus(ReportedDisputeStatus(stored)) == stored
    ensures api != "open" ==> ReportedDisputeStatus(StoredDisputeStatus(api)) == api
  {
  }

  datatype DisputeListFilter = DisputeListFilter(
    status: Option<string>,
    raisedBy: Option<string>,
    page: Option<nat>,
    limit: Option<nat>)

  /** `raisedBy` names the role of the user who raised the dispute. */
  predicate DisputeListMatches(users: map<Id, User>, f: DisputeListFilter, d: Dispute) {
    && (PresentText(f.status) ==> d.status == StoredDisputeStatus(f.status.value))
    && (PresentText(f.raisedBy) ==> d.raisedBy in users && RoleName(users[d.raisedBy].role) == f.raisedBy.value)
  }

  /** Filtering by a status keeps exactly the disputes reported with that
      status (stored statuses never being "pending"; a filter of "open"
      instead keeps the disputes reported as "pending"). */
  lemma DisputeFilterMatchesReport(users: map<Id, User>, f: DisputeListFilter, d: Dispute)
    requires PresentText(f.status) && f.status.value != "open" && d.status != "pending"
    requires f.raisedBy.None?
    ensures DisputeListMatches(users, f, d) <==> ReportedDisputeStatus(d.status) == f.status.value
  {
    DisputeStatusRoundTrip(d.status, f.status.value);
  }

  function SelectDisputes(s: Store, f: DisputeListFilter): (r: map<Id, Dispute>)
    ensures forall k :: k in r <==> k in s.disputes && DisputeListMatches(s.users, f, s.disputes[k])
    ensures forall k :: k in r ==> r[k] == s.disputes[k]
  {
    map k | k in s.disputes && DisputeListMatches(s.users, f, s.disputes[k]) :: s.disputes[k]
  }

  function DisputeCreatedAt(d: Dispute): int { d.createdAt }

  function ListDisputes(s: Store, f: DisputeListFilter): (r: Result<Listing>)
    ensures r.Err? <==> PageNumber(f.page) == 0 && PageSize(f.limit) > 0
    ensures r.Ok? ==>
      && r.value.total == |SelectDisputes(s, f)|
      && (forall i :: 0 <= i < |r.value.ids| ==>
            r.value.ids[i] in s.disputes && DisputeListMatches(s.users, f, s.disputes[r.value.ids[i]]))
      && NewestOrder(r.value.ids, s.disputes, DisputeCreatedAt)
      && |r.value.ids| <= PageSize(f.limit)
      && r.value.page == PageNumber(f.page) && r.value.limit == PageSize(f.limit)
      && |r.value.ids| == WindowLength(r.value.total, StartRow(PageNumber(f.page), PageSize(f.limit)), PageSize(f.limit))
    ensures r == Paginate(SelectDisputes(s, f), DisputeCreatedAt, PageNumber(f.page), PageSize(f.limit))
  {
    var sel := SelectDisputes(s, f);
    var r := Paginate(sel, DisputeCreatedAt, PageNumber(f.page), PageSize(f.limit));
    if r.Ok? then NewestOrderWider(r.value.ids, sel, s.disputes, DisputeCreatedAt); r else r
  }

  /** A dispute as the listing reports it. */
  datatype DisputeView = DisputeView(
    id: Id,
    projectId: Id,
    status: string,
    raisedBy: Option<UserRole>,
    studentId: Option<Id>,
    developerId: Option<Id>,
    resolution: Option<string>,
    resolutionNotes: Option<string>,
    resolvedAt: Option<Time>)

  /** The left joins: the project's student, the developer of its accepted
      proposal, the role of the user who raised the dispute. */
  function ViewDispute(s: Store, id: Id): (v: DisputeView)
    requires id in s.disputes
    ensures v.status == ReportedDisputeStatus(s.disputes[id].status)
    ensures v.resolvedAt.Some? <==> s.disputes[id].status == "resolved"
    ensures v.resolvedAt.Some? ==> v.resolvedAt.value == s.disputes[id].updatedAt
    ensures v.resolution == v.resolutionNotes == TextOrNull(s.disputes[id].resolution)
    ensures v.raisedBy.Some? <==> s.disputes[id].raisedBy in s.users
    ensures v.studentId.Some? <==> s.disputes[id].projectId in s.projects
    ensures v.studentId.Some? ==> v.studentId.value == s.projects[s.disputes[id].projectId].studentId
  {
    var d := s.disputes[id];
    var project := if d.projectId in s.projects then Some(s.projects[d.projectId]) else None;
    var bid := if project.Some? && project.value.acceptedProposalId.Some?
                  && project.value.acceptedProposalId.value in s.proposals
               then Some(s.proposals[project.value.acceptedProposalId.value]) else None;
    DisputeView(
      id, d.projectId, ReportedDisputeStatus(d.status),
      if d.raisedBy in s.users then Some(s.users[d.raisedBy].role) else None,
      if project.Some? then Some(project.value.studentId) else None,
      if bid.Some? then Some(bid.value.developerId) else None,
      TextOrNull(d.resolution), TextOrNull(d.resolution),
      if d.status == "resolved" then Some(d.updatedAt) else None)
  }

  // ------------------------------------------------------ single-row updates

  /** The store with one row of `users` replaced and nothing else changed. */
  predicate OnlyUserChanged(s: Store, t: Store, id: Id, u: User) {
    && id in s.users
    && t == s.(users := t.users)
    && t.users.Keys == s.users.Keys
    && t.users[id] == u
    && forall k :: k in s.users && k != id ==> t.users[k] == s.users[k]
  }

  /** verifyUser: 404 for an unknown user, else `is_verified` is set. */
  function VerifyUserOutcome(s: Store, userId: Id): (o: Outcome<string>)
    requires s.Valid()
    ensures o.after.Valid()
    ensures userId !in s.users ==> o.result == Err(AppError("User not found", 404)) && o.after == s
    ensures userId in s.users ==>
      o.result == Ok("User verified successfully")
      && OnlyUserChanged(s, o.after, userId, s.users[userId].(isVerified := true))
  {
    if userId !in s.users then Fail(s, "User not found", 404)
    else Outcome(Ok("User verified successfully"),
                 s.(users := s.users[userId := s.users[userId].(isVerified := true)]))
  }

  /** deactivateUser: 404 for an unknown user, else `is_active` is cleared. */
  function DeactivateUserOutcome(s: Store, userId: Id): (o: Outcome<string>)
    requires s.Valid()
    ensures o.after.Valid()
    ensures userId !in s.users ==> o.result == Err(AppError("User not found", 404)) && o.after == s
    ensures userId in s.users ==>
      o.result == Ok("User deactivated successfully")
      && OnlyUserChanged(s, o.after, userId, s.users[userId].(isActive := false))
  {
    if userId !in s.users then Fail(s, "User not found", 404)
    else Outcome(Ok("User deactivated successfully"),
                 s.(users := s.users[userId := s.users[userId].(isActive := false)]))
  }

  /** A deactivated admin can no longer sign in, whatever the password. */
  lemma DeactivatedAdminCannotLogin(s: Store, userId: Id, password: string,
                                    passwordMatches: (string, string) -> bool)
    requires s.Valid() && userId in s.users && s.users[userId].role == Admin
    requires forall i, j :: i in s.users && j in s.users && s.users[i].email == s.users[j].email ==> i == j
    ensures var t := DeactivateUserOutcome(s, userId).after;
      AdminLogin(t.users, s.users[userId].email, password, passwordMatches)
        == Err(AppError("Account is deactivated", 403))
  {
    var t := DeactivateUserOutcome(s, userId).after;
    var email := s.users[userId].email;
    var found := AdminByEmail(t.users, email);
    assert t.users[userId].email == email && t.users[userId].role == Admin;
    assert found.Some?;
    assert found.value == userId;
  }

  /** updateProjectStatus: a status outside open, in_progress, completed and
      cancelled is refused before the project is looked up; any listed status
      is applied whatever the current one. */
  function UpdateProjectStatusOutcome(s: Store, projectId: Id, status: string): (o: Outcome<string>)
    requires s.Valid()
    ensures o.after.Valid()
    ensures ParseProjectStatus(status).None? ==> o.result == Err(AppError("Invalid status", 400)) && o.after == s
    ensures ParseProjectStatus(status).Some? && projectId !in s.projects ==>
      o.result == Err(AppError("Project not found", 404)) && o.after == s
    ensures ParseProjectStatus(status).Some? && projectId in s.projects ==> o.result.Ok?
    ensures o.result.Ok? ==>
      && o.result.value == "Project status updated successfully"
      && projectId in s.projects
      && o.after == s.(projects := o.after.projects)
      && o.after.projects.Keys == s.projects.Keys
      && ProjectStatusName(o.after.projects[projectId].status) == status
      && o.after.projects[projectId] == s.projects[projectId].(status := o.after.projects[projectId].status)
      && (forall k :: k in s.projects && k != projectId ==> o.after.projects[k] == s.projects[k])
  {
    var st := ParseProjectStatus(status);
    if st.None? then Fail(s, "Invalid status", 400)
    else if projectId !in s.projects then Fail(s, "Project not found", 404)
    else Outcome(Ok("Project status updated successfully"),
                 s.(projects := s.projects[projectId := s.projects[projectId].(status := st.value)]))
  }

  /** refundPayment: any payment, whatever its status, becomes refunded. */
  function RefundPaymentOutcome(s: Store, paymentId: Id): (o: Outcome<string>)
    requires s.Valid()
    ensures o.after.Valid()
    ensures paymentId !in s.payments ==> o.result == Err(AppError("Payment not found", 404)) && o.after == s
    ensures paymentId in s.payments ==>
      && o.result == Ok("Payment refunded successfully")
      && o.after == s.(payments := o.after.payments)
      && o.after.payments.Keys == s.payments.Keys
      && o.after.payments[paymentId] == s.payments[paymentId].(status := Refunded)
      && (forall k :: k in s.payments && k != paymentId ==> o.after.payments[k] == s.payments[k])
  {
    if paymentId !in s.payments then Fail(s, "Payment not found", 404)
    else Outcome(Ok("Payment refunded successfully"),
                 s.(payments := s.payments[paymentId := s.payments[paymentId].(status := Refunded)]))
  }

  predicate ValidResolution(r: string) {
    r in {"favor_student", "favor_developer", "partial", "dismiss"}
  }

  /** `notes || resolution`: the stored text. */
  function ResolutionText(resolution: string, notes: Option<string>): (t: string)
    ensures PresentText(notes) ==> t == notes.value
    ensures !PresentText(notes) ==> t == resolution
  {
    if PresentText(notes) then notes.value else resolution
  }

  function Resolved(d: Dispute, adminId: Id, text: string, now: Time): Dispute {
    d.(status := "resolved", resolvedBy := Some(adminId), resolution := Some(text), updatedAt := now)
  }

  /** resolveDispute. An earlier resolution is not looked at. */
  function ResolveDisputeOutcome(s: Store, disputeId: Id, adminId: Id, resolution: string,
                                 notes: Option<string>, now: Time): (o: Outcome<string>)
    requires s.Valid()
    ensures o.after.Valid()
    ensures !ValidResolution(resolution) ==>
      o.result == Err(AppError("Invalid resolution option", 400)) && o.after == s
    ensures ValidResolution(resolution) && disputeId !in s.disputes ==>
      o.result == Err(AppError("Dispute not found", 404)) && o.after == s
    ensures ValidResolution(resolution) && disputeId in s.disputes ==> o.result.Ok?
    ensures o.result.Ok? ==> disputeId in s.disputes && disputeId in o.after.disputes
    ensures o.result.Ok? ==> var d := o.after.disputes[disputeId];
      && o.result.value == "Dispute resolved successfully"
      && o.after == s.(disputes := o.after.disputes)
      && o.after.disputes.Keys == s.disputes.Keys
      && d == s.disputes[disputeId].(status := "resolved", resolvedBy := Some(adminId),
                                     resolution := Some(ResolutionText(resolution, notes)), updatedAt := now)
      && (forall k :: k in s.disputes && k != disputeId ==> o.after.disputes[k] == s.disputes[k])
  {
    if !ValidResolution(resolution) then Fail(s, "Invalid resolution option", 400)
    else if disputeId !in s.disputes then Fail(s, "Dispute not found", 404)
    else
      var d := Resolved(s.disputes[disputeId], adminId, ResolutionText(resolution, notes), now);
      Outcome(Ok("Dispute resolved successfully"), s.(disputes := s.disputes[disputeId := d]))
  }

  /** Resolving an already resolved dispute succeeds again, and the second
      resolution replaces the first. */
  lemma ResolveAgainOverwrites(s: Store, disputeId: Id, a1: Id, r1: string, n1: Option<string>, t1: Time,
                               a2: Id, r2: string, n2: Option<string>, t2: Time)
    requires s.Valid() && disputeId in s.disputes
    requires ValidResolution(r1) && ValidResolution(r2)
    ensures var first := ResolveDisputeOutcome(s, disputeId, a1, r1, n1, t1);
      var second := ResolveDisputeOutcome(first.after, disputeId, a2, r2, n2, t2);
      && first.result.Ok? && second.result.Ok?
      && second.after == ResolveDisputeOutcome(s, disputeId, a2, r2, n2, t2).after
  {
    var first := ResolveDisputeOutcome(s, disputeId, a1, r1, n1, t1);
    var d := s.disputes[disputeId];
    assert first.after.disputes[disputeId] == Resolved(d, a1, ResolutionText(r1, n1), t1);
    assert Resolved(Resolved(d, a1, ResolutionText(r1, n1), t1), a2, ResolutionText(r2, n2), t2)
        == Resolved(d, a2, ResolutionText(r2, n2), t2);
  }

  /** After a resolution the listing reports the dispute resolved, at the
      time of the resolution, with the stored text. */
  lemma ResolvedDisputeView(s: Store, disputeId: Id, adminId: Id, resolution: string,
                            notes: Option<string>, now: Time)
    requires s.Valid() && disputeId in s.disputes && ValidResolution(resolution)
    ensures var t := ResolveDisputeOutcome(s, disputeId, adminId, resolution, notes, now).after;
      var v := ViewDispute(t, disputeId);
      && v.status == "resolved" && v.resolvedAt == Some(now)
      && v.resolution == Some(ResolutionText(resolution, notes))
  {
  }

  class AdminServiceImpl {
    const db: Db

    constructor (db: Db)
      ensures this.db == db
    {
      this.db := db;
    }

    method VerifyUser(userId: Id) returns (r: Result<string>)
      requires db.Valid()
      modifies db
      ensures var o := VerifyUserOutcome(old(db.State()), userId);
        r == o.result && db.State() == o.after
      ensures db.Valid()
    {
      if userId !in db.users {
        return Err(AppError("User not found", 404));
      }
      db.users := db.users[userId := db.users[userId].(isVerified := true)];
      r := Ok("User verified successfully");
    }

    method DeactivateUser(userId: Id) returns (r: Result<string>)
      requires db.Valid()
      modifies db
      ensures var o := DeactivateUserOutcome(old(db.State()), userId);
        r == o.result && db.State() == o.after
      ensures db.Valid()
    {
      if userId !in db.users {
        return Err(AppError("User not found", 404));
      }
      db.users := db.users[userId := db.users[userId].(isActive := false)];
      r := Ok("User deactivated successfully");
    }

    method UpdateProjectStatus(projectId: Id, status: string) returns (r: Result<string>)
      requires db.Valid()
      modifies db
      ensures var o := UpdateProjectStatusOutcome(old(db.State()), projectId, status);
        r == o.result && db.State() == o.after
      ensures db.Valid()
    {
      var st := ParseProjectStatus(status);
      if st.None? {
        return Err(AppError("Invalid status", 400));
      }
      if projectId !in db.projects {
        return Err(AppError("Project not found", 404));
      }
      db.projects := db.projects[projectId := db.projects[projectId].(status := st.value)];
      r := Ok("Project status updated successfully");
    }

    method RefundPayment(paymentId: Id) returns (r: Result<string>)
      requires db.Valid()
      modifies db
      ensures var o := RefundPaymentOutcome(old(db.State()), paymentId);
        r == o.result && db.State() == o.after
      ensures db.Valid()
    {
      if paymentId !in db.payments {
        return Err(AppError("Payment not found", 404));
      }
      db.payments := db.payments[paymentId := db.payments[paymentId].(status := Refunded)];
      r := Ok("Payment refunded successfully");
    }

    method ResolveDispute(disputeId: Id, adminId: Id, resolution: string, notes: Option<string>, now: Time)
      returns (r: Result<string>)
      requires db.Valid()
      modifies db
      ensures var o := ResolveDisputeOutcome(old(db.State()), disputeId, adminId, resolution, notes, now);
        r == o.result && db.State() == o.after
      ensures db.Valid()
    {
      if !ValidResolution(resolution) {
        return Err(AppError("Invalid resolution option", 400));
      }
      var text := ResolutionText(resolution, notes);
      if disputeId !in db.disputes {
        return Err(AppError("Dispute not found", 404));
      }
      db.disputes := db.disputes[disputeId := Resolved(db.disputes[disputeId], adminId, text, now)];
      r := Ok("Dispute resolved successfully");
    }
  }
}
