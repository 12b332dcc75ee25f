/** The rows of the marketplace's tables and the enumerations of src/models. */
module Models {
  import opened Wrappers

  /** Primary keys (SERIAL columns). */
  type Id = nat

  /** Wall-clock instants in milliseconds since the epoch. */
  type Time = int

  datatype UserRole = Student | Developer | Admin

  function RoleName(r: UserRole): string {
    match r
    case Student => "student"
    case Developer => "developer"
    case Admin => "admin"
  }

  datatype ProjectStatus = Open | InProgress | Completed | Cancelled

  function ProjectStatusName(s: ProjectStatus): string {
    match s
    case Open => "open"
    case InProgress => "in_progress"
    case Completed => "completed"
    case Cancelled => "cancelled"
  }

  /** The inverse of ProjectStatusName: the status a string names, if any. */
  function ParseProjectStatus(s: string): (r: Option<ProjectStatus>)
    ensures r.Some? ==> ProjectStatusName(r.value) == s
    ensures r.None? ==> forall st: ProjectStatus :: ProjectStatusName(st) != s
  {
    if s == "open" then Some(Open)
    else if s == "in_progress" then Some(InProgress)
    else if s == "completed" then Some(ProjectStatus.Completed)
    else if s == "cancelled" then Some(Cancelled)
    else None
  }

  datatype ProposalStatus = Pending | Accepted | Rejected | Completed

  function ProposalStatusName(s: ProposalStatus): string {
    match s
    case Pending => "pending"
    case Accepted => "accepted"
    case Rejected => "rejected"
    case Completed => "completed"
  }

  datatype PaymentStatus = Pending | Completed | Failed | Refunded

  function PaymentStatusName(s: PaymentStatus): string {
    match s
    case Pending => "pending"
    case Completed => "completed"
    case Failed => "failed"
    case Refunded => "refunded"
  }

  datatype PaymentType = Advance | Full | Milestone

  function PaymentTypeName(t: PaymentType): string {
    match t
    case Advance => "advance"
    case Full => "full"
    case Milestone => "milestone"
  }

  datatype User = User(
    name: string,
    email: string,
    phone: Option<string>,
    passwordHash: string,
    role: UserRole,
    college: Option<string>,
    department: Option<string>,
    yearOfStudy: Option<int>,
    skills: seq<string>,
    isVerified: bool,
    isActive: bool,
    rating: Option<real>,
    totalRatings: nat,
    createdAt: Time)

  datatype Project = Project(
    studentId: Id,
    title: string,
    description: string,
    technology: seq<string>,
    budget: real,
    deadline: string,
    status: ProjectStatus,
    acceptedProposalId: Option<Id>,
    progressPercentage: int,
    createdAt: Time)

  datatype Proposal = Proposal(
    projectId: Id,
    developerId: Id,
    price: real,
    timeline: int,
    technology: seq<string>,
    message: Option<string>,
    status: ProposalStatus,
    createdAt: Time,
    updatedAt: Time)

  datatype Payment = Payment(
    projectId: Id,
    studentId: Id,
    developerId: Id,
    amount: real,
    commissionAmount: real,
    netAmount: real,
    paymentMethod: string,
    paymentType: PaymentType,
    milestonePercentage: int,
    razorpayOrderId: Option<string>,
    razorpayPaymentId: Option<string>,
    razorpaySignature: Option<string>,
    status: PaymentStatus,
    createdAt: Time)

  datatype Review = Review(
    projectId: Id,
    reviewerId: Id,
    revieweeId: Id,
    rating: int,
    comment: Option<string>,
    createdAt: Time)

  datatype ChatMessage = ChatMessage(
    projectId: Id,
    senderId: Id,
    receiverId: Id,
    message: Option<string>,
    fileUrl: Option<string>,
    fileName: Option<string>,
    isRead: bool,
    createdAt: Time)

  datatype Notification = Notification(
    userId: Id,
    title: string,
    message: string,
    kind: string,
    relatedId: Option<Id>,
    isRead: bool,
    createdAt: Time)

  datatype OtpChannel = PhoneOtp | EmailOtp

  datatype OtpRecord = OtpRecord(
    phone: string,
    email: Option<string>,
    otp: string,
    channel: OtpChannel,
    expiresAt: Time,
    verified: bool,
    createdAt: Time)

  /** Disputes keep their status and resolution as the text columns they are
      ('open' or 'resolved'; a resolution code or free-text notes). */
  datatype Dispute = Dispute(
    projectId: Id,
    raisedBy: Id,
    reason: string,
    description: Option<string>,
    status: string,
    resolution: Option<string>,
    resolvedBy: Option<Id>,
    createdAt: Time,
    updatedAt: Time)

  /** `if (!id)` on a looked-up id: NULL and 0 are both falsy. */
  predicate PresentId(id: Option<Id>) {
    id.Some? && id.value != 0
  }
}
