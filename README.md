# ProjexHub backend: a Dafny model of the service layer

ProjexHub is a marketplace where students post software projects, developers
bid on them with proposals, and the student accepts one bid, pays through a
payment gateway, chats with the developer and reviews them when the work is
done. Administrators oversee users, projects, payments and disputes.

This project models the backend's service layer as sequential steps over an
in-memory database, and proves what each step promises.

- `database.dfy` holds the tables. `Database.Store` is the value of all
  tables at one instant: one `map` from id to row per table and the next id
  to hand out. `Database.Db` is the database the services write to, a class
  with one field per table.
- Each service (`proposal_service.dfy`, `payment_service.dfy`,
  `project_service.dfy`, `admin_service.dfy`, `review_service.dfy`,
  `chat_service.dfy`, `notification_service.dfy`, `auth_service.dfy`,
  `dev_service.dfy`, `home_service.dfy`) and the one-time-password store
  (`otp.dfy`) is a module with two parts:
  - pure functions `XOutcome(s, ...)`. Each gives the result a call
    returns (a value, an `AppError(message, status)` or an uncaught
    `Fault`) and the store after the call, and lemmas state its guards and
    effects;
  - a class `XServiceImpl` over a `Db`. Its methods update the tables in
    place, and each method's `ensures` ties its result and new tables to the
    matching outcome function.
- `validation.dfy` describes the request schemas as data and states, per
  schema, exactly which bodies pass.
- `query.dfy` models the SQL-text shim over the hosted table store: how it
  classifies a statement, which table name it extracts, and which row an
  INSERT builds.
- Shared modules:
  - `Wrappers`: Option, Result and the two kinds of failure;
  - `Models`: the records and status enumerations;
  - `Text`: decimal rendering, ASCII case, JavaScript white space;
  - `Ordering`: newest-first ordering, sorting and paging;
  - `SqlLike`: `ILIKE` patterns;
  - `Activity`: the "time ago" texts and the recent-activity feeds.

Modelling choices:
- Money is an exact `real`.
- Time is a number of milliseconds passed in as `now`.
- An SQL `ORDER BY created_at DESC` puts rows with equal timestamps in
  ascending id order.
- The random number behind an OTP is a parameter.
- The gateway's HMAC signature, bcrypt's comparison and hash, and the
  outcome of sending mail or SMS are parameters too.

## Model

| member | source | states |
|---|---|---|
| ProposalService.NewProposal | src/services/proposalService.ts:29-41 | the inserted proposal is pending, for the given project and developer; technology defaults to the empty list and the message is null unless a non-empty message was given |
| ProposalService.CreateProposalOutcome | src/services/proposalService.ts:6-57 | createProposal as a step on the store; the store stays well formed (every id below the id counter) |
| ProposalService.CreateProposalGuards | src/services/proposalService.ts:7-26 | a missing project gives 404 "Project not found", a project that is not open gives 400 "Project is not accepting proposals", an existing bid by the same developer on an open project gives 400 "You have already sent a proposal for this project"; a failure changes nothing; the call succeeds exactly when the project exists, is open and has no bid by that developer |
| ProposalService.CreateProposalEffect | src/services/proposalService.ts:28-56 | a success adds exactly one proposal under a fresh id, the pending proposal built from the input (price, timeline, technology or [], message or null, created now), and exactly one notification, addressed to the project's student with related id the new proposal; projects and users are unchanged |
| ProposalService.CreateProposalKeepsUniqueBids | src/services/proposalService.ts:18-26 | if every (project, developer) pair has at most one proposal before the call, it still does after it |
| ProposalService.GetProposalById | src/services/proposalService.ts:59-76 | fails with 404 "Proposal not found" exactly when the proposal is missing; otherwise returns the stored proposal, with its project joined exactly when that project exists |
| ProposalService.Arbitrate | src/services/proposalService.ts:123-133 | the two status updates of an accept keep the set of proposals (their effect is stated by AcceptProposalEffect) |
| ProposalService.AcceptProposalOutcome | src/services/proposalService.ts:108-155 | acceptProposal as a step on the store; the store stays well formed |
| ProposalService.AcceptProposalGuards | src/services/proposalService.ts:108-121 | an unknown proposal gives 404 "Proposal not found", a proposal whose project is gone gives 404 "Project not found", a caller who is not the project's student gives 403 "Unauthorized to accept this proposal"; when the project exists the call succeeds exactly when the caller is its student; a failure changes nothing |
| ProposalService.AcceptProposalEffect | src/services/proposalService.ts:123-139 | after an accept the target is the proposal as it was with status accepted, every sibling is the proposal as it was with status rejected, proposals of other projects are unchanged, and the projects table is the old one with only this project changed, to in_progress with accepted_proposal_id the target |
| ProposalService.AcceptProposalNotifies | src/services/proposalService.ts:141-152 | an accept adds exactly one notification under a fresh id, unread, titled "Proposal Accepted!", addressed to the proposal's developer with related id the proposal; earlier notifications, users, payments, reviews, messages, OTPs and disputes are unchanged |
| ProposalService.SecondAcceptRepoints | src/services/proposalService.ts:108-139 | the project's status is not checked: accepting a second proposal of the same project succeeds, rejects the first and re-points accepted_proposal_id |
| ProposalService.RejectProposalOutcome | src/services/proposalService.ts:157-173 | rejectProposal as a step on the store; the store stays well formed |
| ProposalService.RejectProposalEffect | src/services/proposalService.ts:157-172 | succeeds exactly when the proposal and its project exist and the caller is the project's student; then only the target's status changes, to rejected; projects are never changed |
| ProposalService.ProposalServiceImpl.CreateProposal | src/services/proposalService.ts:6-57 | the result and the new store are those of CreateProposalOutcome on the old store |
| ProposalService.ProposalServiceImpl.AcceptProposal | src/services/proposalService.ts:108-155 | the result and the new store are those of AcceptProposalOutcome on the old store |
| ProposalService.ProposalServiceImpl.RejectProposal | src/services/proposalService.ts:157-173 | the result and the new store are those of RejectProposalOutcome on the old store |
| PaymentService.ChargeAmount | src/services/paymentService.ts:44-53 | a full payment is the price, an advance half of it; a milestone payment with a percentage is exactly price × (percentage / 100), between 0 and the price for a percentage in 0..100; the amount is undefined (NaN) exactly for a milestone payment without a percentage |
| PaymentService.ShareOfPrice | src/services/paymentService.ts:51 | a share between 0 and 1 of a non-negative price lies between 0 and the price |
| PaymentService.SplitAmount | src/services/paymentService.ts:55-56 | net + commission = amount, commission × 100 = amount × commission percentage, and both lie between 0 and the amount for a percentage in 0..100 |
| PaymentService.Paise | src/services/paymentService.ts:60 | the gateway amount is the amount in paise (divided by 100 it gives the amount back) |
| PaymentService.BuildOrder | src/services/paymentService.ts:59-70 | the order asks for the amount in paise in INR, and its milestone note is the percentage in decimal or "0" |
| PaymentService.StoredPercentage | src/services/paymentService.ts:88 | `milestonePercentage \|\| 0`: a missing percentage is stored as 0, a non-zero one as given |
| PaymentService.AcceptedBid | src/services/paymentService.ts:25-31 | the left join finds a proposal exactly when the project has an accepted proposal id that exists |
| PaymentService.CreatePaymentOrderOutcome | src/services/paymentService.ts:19-98 | createPaymentOrder as a step on the store; the store stays well formed |
| PaymentService.CreatePaymentOrderGuards | src/services/paymentService.ts:20-42 | 503 without a gateway, then 404 for a missing project, then 403 for anyone but its student, then, with no accepted bid, the fault "Cannot read properties of null (reading 'toString')"; a failure leaves the store unchanged |
| PaymentService.CreatePaymentOrderEffect | src/services/paymentService.ts:44-92 | a success adds one pending payment for the project under a fresh id and changes nothing else; its net and commission add up to the amount, the gateway order is for amount × 100 paise, and the gateway order id is stored |
| PaymentService.CreatePaymentOrderRow | src/services/paymentService.ts:44-92 | the stored payment's amount is ChargeAmount of the accepted bid's price, its commission and net are SplitAmount of that amount, it names the student, the accepted bid's developer, the payment type and method, the stored percentage and now, and the gateway order is the one built from that amount |
| PaymentService.RepeatedOrdersAccumulate | src/services/paymentService.ts:24-92 | existing payments are never inspected: ordering the same payment twice leaves two more rows |
| PaymentService.CompleteOrder | src/services/paymentService.ts:111-117 | every payment of the order becomes completed with the gateway's payment id and signature, whatever its status was; all other payments are unchanged |
| PaymentService.CompleteOrderIdempotent | src/services/paymentService.ts:111-117 | completing the same order twice is the same as completing it once |
| PaymentService.RecordMilestone | src/services/paymentService.ts:125-131 | a milestone payment sets its project's progress_percentage to its milestone percentage; nothing else changes, and nothing changes for other payment types or a missing project |
| PaymentService.FirstOfOrder | src/services/paymentService.ts:119-123 | the returned row belongs to the order, and there is none exactly when no payment has that order id |
| PaymentService.NoRowsNoChange | src/services/paymentService.ts:111-121 | when the update matches no row it changes nothing |
| PaymentService.VerifyPaymentOutcome | src/services/paymentService.ts:100-147 | verifyPayment as a step on the store; the store stays well formed |
| PaymentService.VerifyPaymentGuards | src/services/paymentService.ts:100-121 | a signature that differs from the HMAC of "order\|payment" gives 400 and changes nothing; with a matching one and no payment of that order the call gives 404 "Payment not found" and changes nothing; with a matching one the call succeeds exactly when some payment has the order id |
| PaymentService.VerifyPaymentEffect | src/services/paymentService.ts:111-131 | on success the payments are exactly CompleteOrder of the old ones (every payment of the order completed with the gateway ids), the returned row is completed, the projects are exactly RecordMilestone of the old ones, so no project is added or removed and a milestone payment sets its project's progress to its percentage |
| PaymentService.VerifyPaymentNotifies | src/services/paymentService.ts:133-144 | a verified payment adds exactly one notification under a fresh id, addressed to the payment's developer with related id the payment; users, proposals, reviews, messages, OTPs and disputes are unchanged |
| PaymentService.DeveloperPayments | src/services/paymentService.ts:171 | exactly the developer's payments, unchanged |
| PaymentService.EarningsOf | src/services/paymentService.ts:164-176 | the three sums are NULL exactly when the developer has no payments |
| PaymentService.InactivePaymentsEarnNothing | src/services/paymentService.ts:166-169 | a failed or refunded payment adds nothing to any of the three sums |
| PaymentService.CompletingMovesEarnings | src/services/paymentService.ts:166-169 | completing a pending payment moves its net amount from pending to total earnings and adds its commission to the total commission |
| PaymentService.PaymentServiceImpl.CreatePaymentOrder | src/services/paymentService.ts:19-98 | the result and the new store are those of CreatePaymentOrderOutcome on the old store |
| PaymentService.PaymentServiceImpl.VerifyPayment | src/services/paymentService.ts:100-147 | the result and the new store are those of VerifyPaymentOutcome on the old store |
| PaymentService.PaymentServiceImpl.GetEarnings | src/services/paymentService.ts:164-176 | returns EarningsOf the stored payments |
| ProjectService.BidsOn | src/services/projectService.ts:45-49 | exactly the proposals whose project_id is the project |
| ProjectService.CreateProjectOutcome | src/services/projectService.ts:6-22 | createProject always succeeds and adds under a fresh id exactly the project (student, title, description, technology, budget, deadline, open, no accepted proposal, progress 0, created now); nothing else changes |
| ProjectService.GetProjectById | src/services/projectService.ts:24-52 | fails with 404 "Project not found" exactly when the project is missing; otherwise returns it with proposals_count the number of proposals whose project_id is the project, and with a student exactly when the student's account exists |
| ProjectService.NewBidCounts | src/services/projectService.ts:45-49 | a new proposal on a project raises its proposals_count by one |
| ProjectService.Selected | src/services/projectService.ts:74-102 | keeps exactly the projects that pass every truthy filter, unchanged |
| ProjectService.ListProjects | src/services/projectService.ts:54-120 | every listed project passes the filters, the list is newest first, its length is the window of the matching projects that offset and a truthy limit leave, its i-th id is the (i + offset)-th of the matching projects newest first (`RunOf`), and every matching project left out is no newer than any listed one or, past a positive offset, no older than any listed one |
| ProjectService.ListProjectsComplete | src/services/projectService.ts:74-104 | without limit and offset the listing holds every matching project and nothing else, each once |
| ProjectService.EmptyFilterKeepsAll | src/services/projectService.ts:74-102 | absent filters and falsy ones (empty text, 0) are ignored: every project passes |
| ProjectService.SearchFilterIsSubstring | src/services/projectService.ts:98-102 | a search without `%`, `_` or the escape `\` keeps exactly the projects whose title or description contains it, letters compared without case |
| ProjectService.PatchedFieldCount | src/services/projectService.ts:133-171 | no field qualifies exactly when title, description and deadline are absent or empty, budget absent or 0, and technology, status and progress absent |
| ProjectService.Patched | src/services/projectService.ts:133-177 | each truthy field among title, description, technology, budget, deadline and status replaces the stored one, the progress replaces it whenever given (even 0), and owner, accepted proposal and creation time are kept |
| ProjectService.EmptyPatchChangesNothing | src/services/projectService.ts:169-171 | a patch with no qualifying field would leave the row as it is |
| ProjectService.PatchIdempotent | src/services/projectService.ts:133-177 | applying the same update twice is applying it once |
| ProjectService.UpdateProjectOutcome | src/services/projectService.ts:122-180 | a failure changes nothing; a success replaces exactly that project by its patched row and returns it |
| ProjectService.UpdateProjectGuards | src/services/projectService.ts:122-171 | 404 "Project not found" for a missing project, 403 "Unauthorized to update this project" for anyone but its student, 400 "No fields to update" for the owner when no field qualifies, and success exactly when the caller owns it (with an existing account) and some field qualifies |
| ProjectService.PatchRow | src/services/projectService.ts:133-167 | the SET list built field by field yields exactly the patched row, and its length is the number of qualifying fields |
| ProjectService.DeleteProjectOutcome | src/services/projectService.ts:182-191 | deleteProject as a step on the store; the store stays well formed |
| ProjectService.DeleteProjectEffect | src/services/projectService.ts:182-191 | succeeds exactly for the project's own student, whatever the status; then removes exactly that project and nothing else; a failure changes nothing |
| ProjectService.UserProjects | src/services/projectService.ts:193-208 | as written: a student's own projects, and for any other role the projects whose accepted_proposal_id equals the user's id; newest first, each once |
| ProjectService.AssignedProjects | src/services/projectService.ts:193-208 | as intended: a student's own projects, and for any other role the projects whose accepted proposal is the user's; newest first, each once |
| ProjectService.AssignedProjectsOfAccept | src/services/projectService.ts:193-208 | after a developer's proposal is accepted, its project is among the developer's assigned projects |
| ProjectService.DeveloperSeesNoProject | src/services/projectService.ts:194 | a developer whose accepted proposal's id differs from every developer id stored as accepted_proposal_id is shown no project, while the intended listing holds the project |
| ProjectService.ProjectServiceImpl.CreateProject | src/services/projectService.ts:6-22 | the result and the new store are those of CreateProjectOutcome on the old store |
| ProjectService.ProjectServiceImpl.GetProjects | src/services/projectService.ts:54-120 | returns ListProjects of the stored projects |
| ProjectService.ProjectServiceImpl.UpdateProject | src/services/projectService.ts:122-180 | builds the update field by field; the result and the new store are those of UpdateProjectOutcome on the old store |
| ProjectService.ProjectServiceImpl.DeleteProject | src/services/projectService.ts:182-191 | the result and the new store are those of DeleteProjectOutcome on the old store |
| ProjectService.ProjectServiceImpl.GetUserProjects | src/services/projectService.ts:193-208 | returns UserProjects of the stored projects, the listing as written (see Findings for the corrected AssignedProjects) |
| AdminService.AdminByEmail | src/services/adminService.ts:11-20 | the row found has the e-mail and the admin role, and there is none exactly when no admin account has that e-mail |
| AdminService.AdminLogin | src/services/adminService.ts:10-48 | no admin with the e-mail gives 401 "Invalid credentials"; an inactive admin gives 403 "Account is deactivated" before the password is compared; an active admin whose hash does not match gives 401 "Invalid credentials"; a success returns an active admin with that e-mail whose password matches, as id, e-mail and role; the only failures are those |
| AdminService.AdminLoginSucceedsIff | src/services/adminService.ts:10-48 | with unique e-mails, admin login succeeds exactly when an active admin account has the e-mail and the password matches its hash |
| AdminService.TotalPagesBounds | src/services/adminService.ts:243 | `Math.ceil(total / limit)` is the least number of pages of limit rows that hold all rows, and 0 exactly when there are none |
| AdminService.PageHoldsRowsIff | src/services/adminService.ts:220-243 | page p (from 1) holds rows exactly when p is at most totalPages |
| AdminService.RowOffsetSign | src/services/adminService.ts:220 | the offset (page − 1) × limit is negative exactly for page 0 with a positive limit, and is 0 on page 1 |
| AdminService.RowOffsetIsProduct | src/services/adminService.ts:220 | the offset the model steps page by page is (page − 1) × limit |
| AdminService.NextPageStart | src/services/adminService.ts:220 | from page 1 on, the next page starts limit rows later |
| Ordering.NewestWindow | src/services/adminService.ts:220-222 | `LIMIT limit OFFSET offset` over the newest-first order: the i-th row of the window is row offset + i of that order; it holds rows of the selection only, stays newest first, has the length OFFSET/LIMIT leave, every row left out is no newer than the window or, past a positive offset, no older, and on the first page with no more rows than the limit it holds every row |
| Ordering.NewestFirstDistinct | src/services/adminService.ts:221 | the newest-first order lists no row twice |
| Ordering.AdjacentWindows | src/services/adminService.ts:220-222 | two consecutive pages share no row, and every row of the earlier page is no older than any row of the later one |
| AdminService.Paginate | src/services/adminService.ts:218-244 | fails exactly for a negative offset (page 0 with a positive limit); otherwise the listing echoes page and limit, total is the number of matching rows, the i-th id is row (page − 1) × limit + i of the newest-first order, the length is what OFFSET/LIMIT leave, every row left out is no newer than the page or, on a later page, no older, totalPages is ceil(total / limit) (not finite for limit 0), and a first page with room holds every match |
| AdminService.PageRows | src/services/adminService.ts:220-222 | the window at the page's first row is what Paginate reports: rows of the selection, newest first, positioned, of the OFFSET/LIMIT length, with nothing newer left out |
| AdminService.SelectUsers | src/services/adminService.ts:155-181 | exactly the users passing the role, isVerified, isActive and search filters |
| AdminService.ListUsers | src/services/adminService.ts:126-247 | is Paginate of exactly the users matching the filters at the given page and limit: the page echoes page and limit, holds matching users only, newest first, as many as OFFSET/LIMIT leave of total, and total counts exactly the users matching the same filters |
| AdminService.SelectProjects | src/services/adminService.ts:351-365 | exactly the projects passing the status filter and the search on title, description and student name |
| AdminService.ListProjects | src/services/adminService.ts:324-425 | is Paginate of exactly the projects matching the filters at the given page and limit: the page echoes page and limit, holds matching projects only, newest first, as many as OFFSET/LIMIT leave of total, and total counts exactly the projects matching the same filters |
| AdminService.SelectPayments | src/services/adminService.ts:524-534 | exactly the payments passing the status and payment-type filters |
| AdminService.ListPayments | src/services/adminService.ts:493-605 | is Paginate of exactly the payments matching the filters at the given page and limit: the page echoes page and limit, holds matching payments only, newest first, as many as OFFSET/LIMIT leave of total, and total counts exactly the payments matching the same filters |
| AdminService.StoredDisputeStatus | src/services/adminService.ts:722 | a "pending" filter becomes the stored "open"; any other value is kept |
| AdminService.ReportedDisputeStatus | src/services/adminService.ts:781 | a stored "open" is reported as "pending"; any other status is kept |
| AdminService.DisputeStatusRoundTrip | src/services/adminService.ts:720-786 | the two translations undo each other on the values each can produce |
| AdminService.DisputeFilterMatchesReport | src/services/adminService.ts:720-786 | filtering by a status keeps exactly the disputes reported with that status |
| AdminService.SelectDisputes | src/services/adminService.ts:720-733 | exactly the disputes passing the status filter and the raiser's-role filter |
| AdminService.ListDisputes | src/services/adminService.ts:682-795 | is Paginate of exactly the disputes matching the filters at the given page and limit: the page echoes page and limit, holds matching disputes only, newest first, as many as OFFSET/LIMIT leave of total, and total counts exactly the disputes matching the same filters |
| AdminService.ViewDispute | src/services/adminService.ts:771-787 | the reported status maps "open" to "pending", resolvedAt is set exactly when the status is "resolved" (to the update time), resolution and notes are the stored text or null, the raiser's role is known exactly when that user exists, and the student is known exactly when the project exists and is its student (id 0 included) |
| AdminService.VerifyUserOutcome | src/services/adminService.ts:292-303 | an unknown user gives 404 "User not found" and no change; otherwise only that user changes, with is_verified set |
| AdminService.DeactivateUserOutcome | src/services/adminService.ts:308-319 | an unknown user gives 404 and no change; otherwise only that user changes, with is_active cleared |
| AdminService.DeactivatedAdminCannotLogin | src/services/adminService.ts:22-24 | after deactivation an admin's login fails with 403, whatever the password |
| AdminService.UpdateProjectStatusOutcome | src/services/adminService.ts:471-487 | a status outside open, in_progress, completed and cancelled gives 400 before the lookup; a missing project 404; a listed status on an existing project always succeeds, and only that project's status changes, to the given one, whatever it was |
| AdminService.RefundPaymentOutcome | src/services/adminService.ts:666-677 | a missing payment gives 404 and no change; otherwise only that payment changes, to refunded, whatever its status was |
| AdminService.ResolutionText | src/services/adminService.ts:862 | `notes \|\| resolution`: the notes when non-empty, else the resolution code |
| AdminService.ResolveDisputeOutcome | src/services/adminService.ts:855-882 | a code outside favor_student, favor_developer, partial and dismiss gives 400; a missing dispute 404; a valid code on an existing dispute always succeeds, and only that dispute changes: its new row is the old one with status resolved, resolved_by the admin, resolution the stored text (notes, else the code) and updated now |
| AdminService.ResolveAgainOverwrites | src/services/adminService.ts:864-877 | an earlier resolution is not checked: a second resolve succeeds and leaves the store as if only the second had happened |
| AdminService.ResolvedDisputeView | src/services/adminService.ts:864-870 | after a resolution the listing reports the dispute "resolved", resolved at the resolution time, with the stored text |
| AdminService.AdminServiceImpl.VerifyUser | src/services/adminService.ts:292-303 | the result and the new store are those of VerifyUserOutcome on the old store |
| AdminService.AdminServiceImpl.DeactivateUser | src/services/adminService.ts:308-319 | the result and the new store are those of DeactivateUserOutcome on the old store |
| AdminService.AdminServiceImpl.UpdateProjectStatus | src/services/adminService.ts:471-487 | the result and the new store are those of UpdateProjectStatusOutcome on the old store |
| AdminService.AdminServiceImpl.RefundPayment | src/services/adminService.ts:666-677 | the result and the new store are those of RefundPaymentOutcome on the old store |
| AdminService.AdminServiceImpl.ResolveDispute | src/services/adminService.ts:855-882 | the result and the new store are those of ResolveDisputeOutcome on the old store |
| ReviewService.ReviewsAbout | src/services/reviewService.ts:54-55 | exactly the reviews whose reviewee is the user, unchanged |
| ReviewService.AverageRating | src/services/reviewService.ts:53-59 | `AVG(rating)` is NULL exactly when nobody reviewed the user |
| ReviewService.AverageWithinStars | src/services/reviewService.ts:53-63 | with every rating from 1 to 5, the recomputed average is from 1 to 5 |
| ReviewService.NewReviewAddsToAverage | src/services/reviewService.ts:39-59 | a new review about a user adds one to their count and its rating to their sum of ratings |
| ReviewService.RateUser | src/services/reviewService.ts:52-65 | the user's rating becomes the mean of all reviews about them and total_ratings their number; every other user is unchanged, and an unknown id changes nothing |
| ReviewService.CreateReviewOutcome | src/services/reviewService.ts:6-50 | createReview as a step on the store; the store stays well formed |
| ReviewService.CreateReviewGuards | src/services/reviewService.ts:15-36 | a missing project gives 404; a student reviewing a project with no accepted developer gives 400 "No active developer for this project"; a second review by the same reviewer of the project fails, with 400 "You have already reviewed this project" when the reviewee is known; with no counterpart (id absent or 0) the result is 400 "No active developer for this project"; an existing project, a present counterpart and no earlier review always succeed; a failure changes nothing |
| ReviewService.CreateReviewEffect | src/services/reviewService.ts:19-49 | a success stores one review by the reviewer with the given rating and comment (or null), created now; the reviewee is the accepted developer when the reviewer is the student and the student otherwise (non-participants included); the users table becomes the old one with the reviewee's rating recomputed over all reviews about them and the count one more than before; projects, proposals, payments, messages, notifications, OTPs and disputes are unchanged |
| ReviewService.CreateReviewKeepsUniqueReviews | src/services/reviewService.ts:28-36 | if each (project, reviewer) pair has at most one review before, it still has after |
| ReviewService.ReviewServiceImpl.CreateReview | src/services/reviewService.ts:6-50 | the result and the new store are those of CreateReviewOutcome on the old store |
| ReviewService.ReviewServiceImpl.UpdateUserRating | src/services/reviewService.ts:52-65 | the users table becomes RateUser of the old one over the stored reviews |
| ChatService.SendMessageOutcome | src/services/chatService.ts:6-57 | sendMessage as a step on the store; the store stays well formed |
| ChatService.SendMessageEffect | src/services/chatService.ts:6-57 | a missing project gives 404; a sender with no counterpart (id absent or 0), such as a student writing with no accepted developer, gives 400; an existing project and a present counterpart always succeed; a failure changes nothing; a success stores exactly one unread message from the sender to the counterpart (the developer for the student, else the student) holding the given text, file URL and file name (each or null), created now, and one "New Message" notification to that receiver with related id the project, and nothing else |
| ChatService.MessagesOf | src/services/chatService.ts:84 | exactly the messages of the project, unchanged |
| ChatService.MarkConversationRead | src/services/chatService.ts:89-94 | exactly the project's unread messages addressed to the user become read; every other message is unchanged |
| ChatService.MarkConversationReadSettles | src/services/chatService.ts:89-94 | afterwards the user has no unread message in the project, and marking again changes nothing |
| ChatService.ConversationIds | src/services/chatService.ts:79-87 | every message of the project once, and no other, oldest first |
| ChatService.RowsOf | src/services/chatService.ts:79-87 | one returned row per id, in order, with that message's columns |
| ChatService.GetMessagesOutcome | src/services/chatService.ts:59-97 | a missing project gives 404 and a user who is neither its student nor its accepted developer 403, with no change; otherwise returns the project's messages oldest first as they were before marking, and then marks the reader's unread messages read and changes nothing else |
| ChatService.ConversationsAreReadable | src/services/chatService.ts:124-125 | a project is among the user's conversations exactly when a proposal is accepted on it and the user may read its messages |
| ChatService.Conversations | src/services/chatService.ts:98-131 | the projects listed as the user's conversations are exactly those with an accepted proposal that the user owns as student or works on as its accepted developer |
| ChatService.ChatServiceImpl.SendMessage | src/services/chatService.ts:6-57 | the result and the new store are those of SendMessageOutcome on the old store |
| ChatService.ChatServiceImpl.GetMessages | src/services/chatService.ts:59-97 | reads the rows, then marks messages read; the result and the new store are those of GetMessagesOutcome on the old store |
| NotificationService.Owned | src/services/notificationService.ts:32-35 | exactly the user's notifications, unchanged |
| NotificationService.UnreadOf | src/services/notificationService.ts:17-25 | exactly the user's unread notifications |
| NotificationService.GetNotifications | src/services/notificationService.ts:5-15 | only the user's notifications, newest first, exactly as many as the window of the user's notifications that offset and limit (50 by default) leave, the i-th of them the (i + offset)-th of the user's notifications newest first (`RunOf`), and every one of the user's notifications left out is no newer than any listed one or, past a positive offset, no older |
| NotificationService.UnreadWithinTotal | src/services/notificationService.ts:17-36 | a user's unread count never exceeds their total count |
| NotificationService.GetNotificationsWithCounts | src/services/notificationService.ts:27-43 | the page is exactly GetNotifications for the same user, limit and offset; unreadCount is the number of the user's unread notifications, totalCount the number of all of them, and unreadCount ≤ totalCount |
| NotificationService.MarkAsReadOutcome | src/services/notificationService.ts:45-64 | a notification that is missing or another user's gives 404 "Notification not found" and no change; otherwise exactly that row is marked read and returned |
| NotificationService.MarkAsReadIdempotent | src/services/notificationService.ts:45-64 | marking a notification read twice has the effect and the result of marking it once |
| NotificationService.MarkAllRead | src/services/notificationService.ts:67-72 | every notification of the user is read afterwards; other users' rows are unchanged |
| NotificationService.MarkAllAsReadOutcome | src/services/notificationService.ts:66-78 | the reported count is the number of the user's notifications that were unread, and only MarkAllRead changes the store |
| NotificationService.MarkAllAsReadClears | src/services/notificationService.ts:66-78 | afterwards the user has nothing unread, and every other user's unread set is what it was |
| NotificationService.DeleteNotificationOutcome | src/services/notificationService.ts:80-99 | a notification that is missing or another user's gives 404 and no change; otherwise exactly that row is removed |
| NotificationService.DeleteLowersTotal | src/services/notificationService.ts:80-99 | deleting one of the user's notifications lowers their total count by one |
| NotificationService.NotificationServiceImpl.MarkAsRead | src/services/notificationService.ts:45-64 | the result and the new store are those of MarkAsReadOutcome on the old store |
| NotificationService.NotificationServiceImpl.MarkAllAsRead | src/services/notificationService.ts:66-78 | the result and the new store are those of MarkAllAsReadOutcome on the old store |
| NotificationService.NotificationServiceImpl.DeleteNotification | src/services/notificationService.ts:80-99 | the result and the new store are those of DeleteNotificationOutcome on the old store |
| Otp.OtpValue | src/utils/otp.ts:4 | for a random number in [0, 1) the value lies in 100000..999999 |
| Otp.GenerateOtp | src/utils/otp.ts:3-5 | the code is six decimal digits, not starting with 0, whose value is the generated number |
| Otp.IssuedOtp | src/utils/otp.ts:7-20 | the stored row expires exactly ten minutes after now, is unverified, carries the phone, code and type, and has an e-mail exactly when a non-empty one is given |
| Otp.WithOtp | src/utils/otp.ts:7-20 | storeOTP adds exactly one row and changes nothing else |
| Otp.Candidates | src/utils/otp.ts:29-34 | exactly the rows with the same phone, code and type, unverified and expiring strictly after now |
| Otp.Newest | src/utils/otp.ts:33 | the picked row is a candidate created no earlier than any other |
| Otp.Consume | src/utils/otp.ts:37-41 | only the picked row changes, to verified |
| Otp.VerifyOtpOutcome | src/utils/otp.ts:22-45 | returns true exactly when some candidate exists; then it marks the newest candidate verified and nothing else; on false nothing changes |
| Otp.ConsumeCandidates | src/utils/otp.ts:37-41 | marking a row verified takes it, and only it, out of every query's candidates |
| Otp.VerifyConsumesOne | src/utils/otp.ts:36-44 | a successful verification removes exactly the consumed row from every later query's candidates |
| Otp.OtpVerifiesOnce | src/utils/otp.ts:28-44 | a code whose record is the only live one verifies once, and a second verification fails |
| Otp.StoredOtpVerifies | src/utils/otp.ts:7-44 | a stored code verifies for the same phone, type and code at any time before it expires, whatever e-mail is given |
| Otp.DeadOtpFails | src/utils/otp.ts:28-45 | when every matching record is verified or expired, verification returns false and changes nothing |
| Otp.EmailOtpCrossesAddresses | src/utils/otp.ts:24-34 | as written, a code e-mailed to one address verifies a request naming another address; the intended check refuses it |
| Otp.CandidatesFor | src/utils/otp.ts:29-34 | the intended candidates: the written ones whose e-mail, for an e-mail code, is the requested address |
| Otp.VerifyOtpForAddressOutcome | src/utils/otp.ts:22-45 | as intended: true exactly when a live record for the address exists; then the newest is consumed and nothing else changes |
| Otp.AddressCheckNarrows | src/utils/otp.ts:22-45 | the intended check accepts no request the written one refuses |
| Otp.StoredOtpVerifiesForAddress | src/utils/otp.ts:7-44 | under the intended check a code stored for an address verifies for that address until it expires |
| Otp.OtpServiceImpl.StoreOtp | src/utils/otp.ts:7-20 | the new store is WithOtp of the old one |
| Otp.OtpServiceImpl.VerifyOtp | src/utils/otp.ts:22-45 | the result and the new store are those of VerifyOtpOutcome on the old store |
| Otp.OtpServiceImpl.VerifyOtpForAddress | src/utils/otp.ts:22-45 | the result and the new store are those of VerifyOtpForAddressOutcome on the old store |
| AuthService.NewUser | src/services/authService.ts:26-41 | the inserted account has the given name, e-mail, phone, hash and role; college and department are the given text or null when empty, the year of study the given one or null when absent or 0, skills the given list or `[]` when absent; it starts unverified, active, unrated, with 0 ratings, created now |
| AuthService.RegisterOutcome | src/services/authService.ts:11-60 | an e-mail or phone already in use gives 400 "User already exists with this email or phone" and no change; otherwise exactly one new account NewUser is stored under a fresh id |
| AuthService.WelcomeMailDoesNotMatter | src/services/authService.ts:52-57 | a failed welcome e-mail does not change the outcome of register |
| AuthService.RegisterKeepsContactsUnique | src/services/authService.ts:13-20 | if no two accounts share an e-mail or a phone before register, none do after it |
| AuthService.UserByEmail | src/services/authService.ts:68-75 | the found account has the e-mail, and there is none exactly when no account has it |
| AuthService.Login | src/services/authService.ts:62-98 | an empty e-mail gives 400, an unknown one 401, an inactive account 403 before the password is compared, an active account whose hash does not match 401 "Invalid credentials"; a success is an active account with that e-mail whose hash matches the password |
| AuthService.LoginSucceedsIff | src/services/authService.ts:62-98 | with unique e-mails, login succeeds exactly when an active account has the e-mail and the password matches its hash |
| AuthService.RegisteredUserCanLogIn | src/services/authService.ts:11-98 | a newly registered account logs in with the password it was registered with |
| AuthService.PhoneKey | src/services/authService.ts:109 | `phone \|\| ''`: the phone when given, else the empty string |
| AuthService.SendOtpOutcome | src/services/authService.ts:100-120 | neither phone nor e-mail gives 400 and no change; otherwise one code is stored under the phone (or '') with type phone exactly when a phone is given, and a failed delivery fails the call after the code is stored |
| AuthService.VerifyOtpRequestOutcome | src/services/authService.ts:122-135 | as written: neither phone nor e-mail gives 400; a code that does not verify gives 400 "Invalid or expired OTP" and no change; a verified code consumes its record; the e-mail reaches a lookup that ignores it |
| AuthService.SentOtpVerifies | src/services/authService.ts:100-135 | as written: a code sent to a phone or address verifies, by phone, code and type, for ten minutes after it is sent, even when its delivery failed |
| AuthService.OtpRequestCrossesAddresses | src/services/authService.ts:122-135 | as written, a request for ravi@college.in verifies the code e-mailed to asha@college.in; the corrected request refuses it with 400 "Invalid or expired OTP" |
| AuthService.VerifyOtpRequestForAddressOutcome | src/services/authService.ts:122-135 | the corrected request: the same guards and replies, with the code checked against the requested address |
| AuthService.SentOtpVerifiesForAddress | src/services/authService.ts:100-135 | under the corrected check a code sent to a phone or address verifies for that phone or address for ten minutes |
| AuthService.GetProfile | src/services/authService.ts:137-150 | an unknown user gives 404 "User not found"; otherwise the profile is the user's row: id, name, e-mail, phone, role, college, department, year of study, skills, verification, rating and rating count |
| AuthService.AuthServiceImpl.Register | src/services/authService.ts:11-60 | the result and the new store are those of RegisterOutcome on the old store |
| AuthService.AuthServiceImpl.SendOtp | src/services/authService.ts:100-120 | the result and the new store are those of SendOtpOutcome on the old store |
| AuthService.AuthServiceImpl.VerifyOtp | src/services/authService.ts:122-135 | the result and the new store are those of VerifyOtpRequestOutcome (the code as written) on the old store |
| DevService.SuccessRate | src/services/devService.ts:104 | 0 when there are no proposals |
| DevService.SuccessRateNearest | src/services/devService.ts:104 | with proposals, the rate is the whole percentage nearest to accepted / total, halves rounded up |
| DevService.SuccessRateBounds | src/services/devService.ts:102-104 | with no more accepted proposals than proposals the rate lies in 0..100, and is 100 when all are accepted |
| DevService.ProposalsBy | src/services/devService.ts:89-92 | exactly the developer's proposals |
| DevService.AcceptedBy | src/services/devService.ts:95-99 | exactly the developer's accepted proposals |
| DevService.DeveloperSuccessRate | src/services/devService.ts:89-104 | the developer's success rate is SuccessRate of the number of their accepted proposals over the number of all their proposals, so at most 100, and 0 without proposals |
| DevService.AcceptedProposalRows | src/services/devService.ts:125-134 | at most 3 of the developer's accepted proposals with an existing project, most recently updated first; either all of them or 3, and none left out is more recent than a listed one |
| DevService.CompletedPaymentRows | src/services/devService.ts:176-182 | at most 3 of the developer's completed payments, newest first; either all of them or 3, and none left out is newer than a listed one |
| DevService.AcceptedActivities | src/services/devService.ts:137-148 | one entry per accepted-proposal row, the i-th entry being the entry of the i-th row |
| DevService.MessageActivities | src/services/devService.ts:162-173 | one entry per message row, the i-th entry being the entry of the i-th row |
| DevService.PaymentActivities | src/services/devService.ts:185-196 | one entry per payment row, the i-th entry being the entry of the i-th row |
| DevService.DeveloperFeed | src/services/devService.ts:123-197 | at most nine entries: first the entries of the accepted-proposal rows, then of the received-message rows (3 at most), then of the completed-payment rows, each list holding the entry of its i-th row at position i |
| DevService.Feed | src/services/devService.ts:137-196 | the three `forEach` loops in turn: the accepted-proposal entries, then the message entries, then the payment entries, each list at its place and as long as its rows |
| DevService.PushAccepted | src/services/devService.ts:137-148 | the loop appends exactly the accepted-proposal entries, in row order |
| DevService.PushMessages | src/services/devService.ts:162-173 | the loop appends exactly the message entries, in row order |
| DevService.PushPayments | src/services/devService.ts:185-196 | the loop appends exactly the payment entries, in row order |
| DevService.RecentActivity | src/services/devService.ts:123-202 | the feed is every collected entry (a permutation of them, as at most nine are collected), newest first |
| DevService.QuickActions | src/services/devService.ts:112-119 | four shortcuts numbered 1 to 4 in order |
| DevService.RatingOrZero | src/services/devService.ts:64 | an unrated developer shows 0, otherwise the stored rating |
| DevService.GetDeveloperHomeData | src/services/devService.ts:36-71 | an unknown user gives 404 "Developer not found" exactly; otherwise name, rating (0 if unrated), proposals sent, the success rate (≤ 100), exactly the four shortcuts, recentActivity the ten most recent of the collected entries, and the unread notification count |
| DevService.BidsBy | src/services/devService.ts:227 | exactly the developer's proposals on the project |
| DevService.MyProposal | src/services/devService.ts:228 | one of the developer's proposals on the project, present exactly when there is one |
| DevService.BrowseRowOf | src/services/devService.ts:224-229 | has_applied counts the developer's bids on the project, and my_proposal_id is one of them, present exactly when has_applied > 0 |
| DevService.BrowseProjects | src/services/devService.ts:214-281 | the projects getProjects lists for the same filters, in the same order, each with the developer's bid on it |
| DevService.BrowseRows | src/services/devService.ts:224-229 | one browse row per listed project, in order |
| DevService.BrowsedProjectsMatch | src/services/devService.ts:236-278 | every browsed project passes the status, technology, budget and search filters (falsy ones ignored) |
| Activity.ElapsedSeconds | src/services/devService.ts:287 | `Math.floor((now − time) / 1000)`, also for a negative difference |
| Activity.DevAgo | src/services/devService.ts:284-308 | below 60 s (negative included) "Just now"; minutes below 3600, hours below 86400, days below 604800, weeks below 2592000, months below 31536000, each the whole number of units; the date from 31536000 on |
| Activity.HomeAgo | src/services/homeService.ts:289-308 | below 60 s "Just now"; minutes, hours or days below 604800 s, each the whole number of units; the date from a week on |
| Activity.HomeAgoAgreesBelowAWeek | src/services/homeService.ts:289-308 | the home label equals the developer label below a week; from a week on the home screen shows the date |
| Activity.AgoText | src/services/devService.ts:293-305 | a label in units starts with the count in decimal |
| Activity.AgoTextCount | src/services/devService.ts:293-305 | the number at the head of a label reads back as the count |
| Activity.AgoTextPlural | src/services/devService.ts:293-305 | a label in units ends in "s ago" exactly when the count is not 1 |
| Activity.MostRecent | src/services/devService.ts:199-201 | sort by timestamp descending then keep the first n: the result is sorted, drawn from the entries, as long as n allows, and no dropped entry is newer than a kept one; with n or fewer entries all are kept |
| Activity.ReceivedMessageRows | src/services/devService.ts:150-159 | at most n messages to the user whose sender and project exist, newest first; either all of them or n, and none left out is newer than a listed one |
| HomeService.MetricsFor | src/services/homeService.ts:21-28 | student counters exactly for the role "student", developer counters exactly for "developer", the system-wide counters for every other role text |
| HomeService.ReceivedProposalRows | src/services/homeService.ts:157-167 | at most 5 proposals on the student's projects from existing developers, newest first; either all of them or 5, and none left out is newer than a listed one |
| HomeService.SentProposalRows | src/services/homeService.ts:208-217 | at most 5 of the developer's proposals on existing projects, newest first; either all of them or 5, and none left out is newer than a listed one |
| HomeService.ReceivedActivities | src/services/homeService.ts:169-180 | one entry per received-proposal row, the i-th entry being the entry of the i-th row |
| HomeService.SentActivities | src/services/homeService.ts:219-230 | one entry per sent-proposal row, the i-th entry being the entry of the i-th row |
| HomeService.ReplyActivities | src/services/homeService.ts:194-205 | one entry per message row, the i-th entry being the entry of the i-th row |
| HomeService.HomeFeed | src/services/homeService.ts:153-257 | a student's feed is the received-proposal entries followed by the "Developer replied" message entries, a developer's the sent-proposal entries followed by the "Student replied" message entries, at most ten in all; any other role gets nothing |
| HomeService.SentActivityLabels | src/services/homeService.ts:219-230 | a sent proposal's entry is "proposal_accepted" in green exactly when the proposal is accepted, and "proposal_sent" in purple exactly when it is not |
| HomeService.DeveloperFeedAt | src/services/homeService.ts:206-230 | the first entries of a developer's feed are those of the proposals sent, in row order |
| HomeService.DeveloperFeedSplit | src/services/homeService.ts:206-256 | a developer's feed is the sent-proposal entries followed by the "Student replied" message entries |
| HomeService.PushReceived | src/services/homeService.ts:169-180 | the loop appends exactly the received-proposal entries, in row order |
| HomeService.PushSent | src/services/homeService.ts:219-230 | the loop appends exactly the sent-proposal entries, in row order |
| HomeService.PushReplies | src/services/homeService.ts:194-205 | the loop appends exactly the message entries, in row order |
| HomeService.RecentActivity | src/services/homeService.ts:153-262 | the result is every collected entry (a permutation of them, as at most ten are collected), newest first |
| HomeService.QuickActions | src/services/homeService.ts:264-287 | every role gets four shortcuts numbered 1 to 4, with no action repeated |
| HomeService.GetHomeData | src/services/homeService.ts:5-49 | an unknown user gives 404 "User not found" exactly; otherwise the stored user's name, college and role, the counters the request's role selects, the recent activity and the role's shortcuts |
| Validation.TextRuleProblem | src/middleware/validation.ts:23-29 | a text rule passes exactly when `.min(n)`, `.max(n)`, `.email()` or `.pattern(/^[0-9]{10}$/)` holds of the text, lengths counted in UTF-16 code units as JavaScript counts them |
| Validation.Utf16Length | src/middleware/validation.ts:23 | the length `.min`/`.max` compare is at least the character count and at most twice it, and equals it when no character lies beyond the Basic Multilingual Plane |
| Validation.EmojiCountsTwice | src/middleware/validation.ts:23 | one emoji is one character yet `.max(1)` turns it down, because JavaScript counts it as two code units |
| Validation.TextRulesProblem | src/middleware/validation.ts:23-29 | a chain of text rules passes exactly when every rule in it passes |
| Validation.NumberRuleProblem | src/middleware/validation.ts:30 | a number rule passes exactly when `.integer()`, `.positive()`, `.min(m)` or `.max(m)` holds of the number |
| Validation.NumberRulesProblem | src/middleware/validation.ts:30 | a chain of number rules passes exactly when every rule in it passes |
| Validation.BadItemIndex | src/middleware/validation.ts:31 | `.items(Joi.string())`: no bad item is found exactly when every item is a non-empty string, and a reported index holds an item that is not |
| Validation.FieldProblem | src/middleware/validation.ts:22-32 | an absent key is fine exactly when it need not be present; a present key with a `.valid(...)` list is fine exactly when its value, converted first (a string read as a number for a number key), is in the list; any other present key is judged by its type and rules |
| Validation.FieldViolations | src/middleware/validation.ts:6 | no problem is reported exactly when every key of the schema is fine, and every reported problem names a key of the schema |
| Validation.Names | src/middleware/validation.ts:22-32 | exactly the keys the schema declares |
| Validation.UnknownKeys | src/middleware/validation.ts:6 | exactly the body's keys that the schema does not declare |
| Validation.Validate | src/middleware/validation.ts:4-18 | the next handler runs exactly when the body passes; otherwise the reply is 400 "Validation error" with one detail: the first key of the schema at fault, or else a key the schema does not declare |
| Validation.PassesByKey | src/middleware/validation.ts:6 | a body passes exactly when every key of the schema is fine and the body has no other key |
| Validation.RequiredKey | src/middleware/validation.ts:23 | `.required()` without `.valid`: fine exactly when the key is present with a value of its type |
| Validation.OptionalKey | src/middleware/validation.ts:25 | `.optional()` without `.valid`: fine exactly when the key, if present, has a value of its type |
| Validation.TextType | src/middleware/validation.ts:23 | `Joi.string()` with rules accepts exactly a non-empty string that passes every rule |
| Validation.NumberType | src/middleware/validation.ts:30 | `Joi.number()` with rules accepts exactly a value that reads as a number (a number, or a string Joi converts to one) whose number passes every rule |
| Validation.TextListType | src/middleware/validation.ts:31 | `Joi.array().items(Joi.string())` with a minimum accepts exactly a list of non-empty strings that is long enough |
| Validation.RegisterNames | src/middleware/validation.ts:22-32 | the register schema declares exactly name, email, phone, password, role, college, department, yearOfStudy and skills |
| Validation.RegisterName | src/middleware/validation.ts:23 | name is fine exactly when present with 3 to 100 UTF-16 code units |
| Validation.RegisterEmail | src/middleware/validation.ts:24 | email is fine exactly when present and an e-mail address |
| Validation.RegisterPhone | src/middleware/validation.ts:25 | phone is fine exactly when absent or exactly ten ASCII digits |
| Validation.RegisterPassword | src/middleware/validation.ts:26 | password is fine exactly when present with at least 6 UTF-16 code units |
| Validation.RegisterRole | src/middleware/validation.ts:27 | role is fine exactly when it is student, developer or admin |
| Validation.RegisterCollege | src/middleware/validation.ts:28 | college is fine exactly when absent or 1 to 255 UTF-16 code units |
| Validation.RegisterDepartment | src/middleware/validation.ts:29 | department is fine exactly when absent or 1 to 255 UTF-16 code units |
| Validation.RegisterYearOfStudy | src/middleware/validation.ts:30 | yearOfStudy is fine exactly when absent or a value reading as a whole number from 1 to 10 (a numeric string included) |
| Validation.RegisterSkills | src/middleware/validation.ts:31 | skills is fine exactly when absent or a list of non-empty strings |
| Validation.RegisterSchemaMeaning | src/middleware/validation.ts:22-32 | a register body passes exactly when every key above is fine and there is no other key |
| Validation.LoginSchemaMeaning | src/middleware/validation.ts:34-37 | a login body passes exactly when it has an e-mail address and a non-empty password and nothing else |
| Validation.CreateProjectNames | src/middleware/validation.ts:39-45 | the create-project schema declares exactly title, description, technology, budget and deadline |
| Validation.CreateProjectTitle | src/middleware/validation.ts:40 | title is fine exactly when present with 5 to 255 UTF-16 code units |
| Validation.CreateProjectDescription | src/middleware/validation.ts:41 | description is fine exactly when present with at least 20 UTF-16 code units |
| Validation.CreateProjectTechnology | src/middleware/validation.ts:42 | technology is fine exactly when present as a list of at least one non-empty string |
| Validation.CreateProjectBudget | src/middleware/validation.ts:43 | budget is fine exactly when present and reading as a positive number (a numeric string included) |
| Validation.CreateProjectDeadline | src/middleware/validation.ts:44 | deadline is fine exactly when present and an instant after the clock |
| Validation.CreateProjectSchemaMeaning | src/middleware/validation.ts:39-45 | a create-project body passes exactly when every key above is fine and there is no other key |
| Validation.CreateProposalNames | src/middleware/validation.ts:47-52 | the create-proposal schema declares exactly price, timeline, technology and message |
| Validation.CreateProposalTimeline | src/middleware/validation.ts:49 | timeline is fine exactly when present and reading as a positive whole number (a numeric string included) |
| Validation.CreateProposalSchemaMeaning | src/middleware/validation.ts:47-52 | a create-proposal body passes exactly when the price reads as a positive number, the timeline as a positive whole number (numeric strings included), technology (if any) a list of strings, the message (if any) 1 to 1000 UTF-16 code units, and there is no other key |
| Validation.CreatePaymentSchemaMeaning | src/middleware/validation.ts:54-58 | a create-payment body passes exactly when paymentMethod is card, upi, netbanking or wallet, paymentType advance, full or milestone, milestonePercentage (if any) reads as 20, 50 or 100 (the number or a string converting to it), and there is no other key; the percentage is optional whatever the type |
| Validation.MilestoneWithoutPercentage | src/middleware/validation.ts:54-58 | a milestone payment without a percentage passes validation, and the charge it leads to has no number (JavaScript's NaN) |
| Validation.PercentageAsText | src/middleware/validation.ts:57 | a milestone percentage sent as the string "50" passes, because Joi converts it to 50 before comparing it with the allowed values |
| Validation.CreateReviewSchemaMeaning | src/middleware/validation.ts:60-63 | a create-review body passes exactly when the rating reads as a whole number from 1 to 5 (a numeric string included), the comment (if any) 1 to 500 UTF-16 code units, and there is no other key |
| Validation.WithdrawSchemaMeaning | src/middleware/validation.ts:65-69 | a withdraw body passes exactly when the amount reads as a positive number (a numeric string included), the method bank or upi, the account details a non-empty string, and there is no other key |
| SqlShim.KindOf | src/database/query.ts:9-12 | the statement's kind is SELECT, INSERT, UPDATE or DELETE exactly when the upper-cased trimmed text starts with that word |
| SqlShim.KindIgnoresLayout | src/database/query.ts:9-12 | for any run of white space in front and for upper-casing, the statement's kind stays what it was |
| SqlShim.WordAfterAt | src/database/query.ts:13 | a word captured by `keyword\s+(\w+)` is non-empty and made of word characters |
| SqlShim.FirstWordMatch | src/database/query.ts:13 | finds the leftmost position where the pattern matches: it matches there and nowhere before, and no answer means it matches nowhere |
| SqlShim.TableAfter | src/database/query.ts:13 | no table name is found exactly when the pattern matches nowhere in the statement |
| SqlShim.LeftmostMatchWins | src/database/query.ts:13 | a match with none before it is the one the search returns |
| SqlShim.FirstFromNamesTable | src/database/query.ts:13-16 | a SELECT reads the table after its first FROM that is followed by a word, even when that FROM belongs to a sub-select |
| SqlShim.ColumnListAt | src/database/query.ts:34 | a captured column list is non-empty and holds no `)` |
| SqlShim.FirstColumnListMatch | src/database/query.ts:34 | finds where the column-list pattern first matches, and no answer means it matches nowhere |
| SqlShim.Columns | src/database/query.ts:34 | a column list is found exactly when the pattern matches; the columns are then the pieces of the captured list split at commas, each trimmed, as many as the pieces, none holding a comma |
| SqlShim.ParamAt | src/database/query.ts:39 | a column within the parameters receives its parameter; a column past their end receives `undefined` |
| SqlShim.RowOf | src/database/query.ts:37-40 | the inserted row has exactly the listed columns as keys |
| SqlShim.RowOfAt | src/database/query.ts:38-40 | column i holds parameter i unless a later column has the same name |
| SqlShim.DistinctColumnsRow | src/database/query.ts:38-40 | with distinct column names, every column i holds parameter i |
| SqlShim.RowFor | src/database/query.ts:34-40 | without a column list the inserted row is empty; with one its keys are the columns |
| SqlShim.BuildRow | src/database/query.ts:37-40 | the `forEach` loop builds exactly the row `RowOf` describes |
| SqlShim.PlanOf | src/database/query.ts:9-82 | a table is read exactly for a SELECT with a table after FROM, and it is the table after the first FROM; a row is inserted exactly for an INSERT with a table after INTO, a VALUES list and a parameter array, and it is the row the columns and parameters build; UPDATE, DELETE and anything else do nothing |
| SqlShim.SelectIgnoresParams | src/database/query.ts:12-16 | a SELECT reads the whole table after FROM whatever its parameters or WHERE clause |
| SqlShim.InsertPlanRow | src/database/query.ts:32-42 | the row an INSERT stores is the one its column list and parameters build |
| SqlShim.TableStore.Query | src/database/query.ts:4-88 | a SELECT returns the whole table unchanged or the store's error; an INSERT appends exactly the built row and returns it, or leaves every table unchanged on the store's error; everything else returns no rows and changes nothing |
| Models.ParseProjectStatus | src/services/adminService.ts:472-475 | a status string is accepted exactly when it is open, in_progress, completed or cancelled, and the status it yields has that name |
| Database.AcceptedDeveloper | src/services/chatService.ts:8-13 | `(SELECT developer_id FROM proposals WHERE id = accepted_proposal_id)`: a developer is found exactly when the project has an accepted proposal that exists, and it is that proposal's developer |
| SqlLike.SearchIsSubstring | src/services/projectService.ts:98-101 | `title ILIKE '%search%'` holds exactly when the title contains the search text, ignoring case, for a search without `%`, `_` or the escape `\` |
| SqlLike.BackslashEscapes | src/services/projectService.ts:98-101 | a backslash in the search text is PostgreSQL's default escape: the search `\%` finds "50%", which holds no backslash |
| SqlLike.UnderscoreIsAWildcard | src/services/projectService.ts:98-101 | an `_` in the search text matches any one character: "a_c" finds "abc" though "abc" does not contain "a_c" |
| Ordering.NewestPage | src/services/adminService.ts:221 | `ORDER BY created_at DESC LIMIT OFFSET`: every id of the page is a row of the table, the page runs newest first, its length is what the offset and the limit leave of the table, its i-th id is the (i + offset)-th of the whole table newest first (`RunOf`), every row left out is no newer than any row of the page or, past a positive offset, no older, and with no offset and no limit it is the whole table newest first |
| Ordering.NewestPageWider | src/services/adminService.ts:221 | a page of a filtered part of a table keeps its newest-first order and its left-out property within the whole table |
| Ordering.OldestFirst | src/services/chatService.ts:85 | `ORDER BY created_at ASC`: every row exactly once, oldest first |
| Ordering.SortDesc | src/services/devService.ts:199-200 | the sort by timestamp yields a permutation of the activities, newest first |
| Ordering.TakeOutranksDrop | src/services/devService.ts:199-201 | `.slice(0, 10)` of a newest-first list keeps activities no older than any it drops |
| Text.NatToString | src/services/paymentService.ts:64-66 | `toString()` of a count gives decimal digits with no leading zero |
| Text.DecimalRoundTrip | src/services/paymentService.ts:64-66 | reading back the digits `toString()` writes gives the number again |
| Text.Trim | src/database/query.ts:9 | `trim()` is the slice of the text between its leading and its trailing white space: everything cut off is white space and nothing at either end of the result is |
| Text.JoinSplit | src/database/query.ts:34 | joining the comma-split pieces with commas gives back the text |
| Text.TrimIdempotent | src/database/query.ts:9 | trimming twice is trimming once |

## Left out

- Database connection, pool set-up, migrations and the SQL text itself are not part of this model. Each query is modelled by the rows it selects or the fields it writes. The `paramCount` string assembly is modelled only through the filters it expresses.
- All tables draw ids from one counter. This keeps ids fresh in every table; the database's separate per-table sequences are not modelled.
- Payment gateway order creation is a reply parameter: an order id or the error the gateway raises. The HMAC-SHA256 computation is a `sign` function parameter.
- bcrypt hashing and comparison, JWT issuing, e-mail (nodemailer), SMS (Twilio), FCM push and the OpenAI service are foreign calls. Hashing and comparison are parameters; a delivery is a success-or-error parameter; JWT, push and OpenAI are not modelled.
- Express and Socket.IO wiring, file upload, controllers and routes are HTTP adapters and are not part of this model. The model follows the services' own signatures.
- Concurrency, and the atomicity of the separate UPDATE statements in `acceptProposal` and `verifyPayment`, are not modelled: each service call is one sequential step.
- Floating-point behaviour is not modelled: amounts and averages are exact reals.
- ReviewService.RateUser: stores the exact mean of the ratings; the 2-decimal `toFixed(2)` rendering is left out because it is display formatting.
- The `razorpayFee` figure of the admin payment listing (`Math.round` of a float product) is not modelled, because it is display rounding of a float.
- Number and date rendering (`toLocaleString`, `toLocaleDateString`) are function parameters. Dates older than a week appear as that opaque date text.
- Upper and lower case are ASCII only. `ILIKE` and the shim's case-insensitive match do not fold non-ASCII letters.
- Joi internals: the e-mail address test, the date parser and the conversion of a string to a number are parameters of `Validation.Env`.
- Validation.NumberOf: a string Joi refuses as unsafe to convert (more digits than a double keeps) is folded into `numberOf` returning `None`; Joi reports it with a different message (`number.unsafe`), and the model does not keep messages.
- Validation.Validate: the value Joi converts is thrown away (`validate` keeps only `error`), so a service receives a numeric string as sent; the service models take their inputs already typed and do not model JavaScript's arithmetic on such a string.
- Validation.Validate: is a ghost function, because it picks one unknown key of the body with `:|`. Which unknown key Joi reports first depends on the key order of the JSON object, and the model does not keep that order.
- Validation.Validate: reports one problem, as Joi does with its default `abortEarly`. The `details` list therefore always has one message.
- The aggregate dashboard counters (`getDashboardStats` of the admin service, the metric queries of the home and developer services) are single SQL aggregates and are left out. The exception is the developer success rate. `HomeService.MetricsFor` models only the dispatch on the role.
- AuthService.GetProfile: the query also selects `bio` and `profile_photo`. The model's user row has neither column, so the profile omits them.
- `getProposalById` is modelled through its 404 path and the joined project, not the joined user columns.
- PaymentService.CreatePaymentOrderOutcome: a milestone order without a percentage fails with a fault. This stands for the gateway refusing an amount of NaN; the gateway call itself is not modelled.
- SqlShim.TableStore.Query: the store's reply is an error or success parameter, and a table the store does not hold reads as empty. The query log and its timing are left out as I/O.
- SqlShim.TableStore.Query: an INSERT returns the row it built. The shim returns `data` from `insert(row).select()`, the row as the store saved it, with the id and column defaults the store adds; the model does not represent those additions.
- The regular expressions of the shim are modelled for ASCII word characters and JavaScript white space only.
- ChatService.Conversations: models which projects are listed, as a set. The `DISTINCT`, the `ORDER BY last_message_time DESC` and the selected columns (`last_message`, `last_message_time` and the `other_user_*` columns) are not modelled.
- AdminService.PageNumber and AdminService.PageSize: the controller reads the query string with `parseInt`. A text that is not a number gives NaN, and a negative number passes through. The model takes a natural number or the default, so neither case is represented. PostgreSQL would reject a NaN or negative LIMIT or OFFSET.
- Activity.MostRecent: does not state how entries with equal timestamps are ordered. JavaScript's sort is stable, and the model's insertion sort also keeps equal entries in feed order, but no contract says so.

## Findings

| source | as written | input that shows it | evidently intended | confidence | as-written member | corrected member |
|---|---|---|---|---|---|---|
| src/services/projectService.ts:194-204 | for a non-student, `getUserProjects` selects projects whose `accepted_proposal_id` equals the user's id, comparing a proposal id with a user id | developer 7 whose bid, proposal 12, was accepted on project 5: the query looks for `accepted_proposal_id = 7` and returns nothing | the projects whose accepted proposal was made by the developer | high; not executed | ProjectService.DeveloperSeesNoProject | ProjectService.AssignedProjectsOfAccept |
| src/utils/otp.ts:24-34 | `verifyOTP` takes an email argument but never uses it; an e-mail OTP is stored under phone `''` and looked up by phone, OTP and type only | an e-mail OTP "482913" sent to asha@college.in is verified by a request for ravi@college.in with the same code | an e-mail OTP verifies only for the address it was sent to | high; not executed | Otp.EmailOtpCrossesAddresses | Otp.StoredOtpVerifiesForAddress |
