/** Accounts (src/services/authService.ts): registration, e-mail login, OTP
    issue and check, and the profile read. Password hashing and comparison,
    token signing and message delivery are inputs. */
module AuthService {
  import opened Wrappers
  import opened Models
  import opened Ordering
  import opened Database
  import opened Otp

  /** The body of a registration request. */
  datatype RegisterInput = RegisterInput(
    name: string,
    email: string,
    phone: Option<string>,
    password: string,
    role: UserRole,
    college: Option<string>,
    department: Option<string>,
    yearOfStudy: Option<int>,
    skills: Option<seq<string>>)

  /** `SELECT * FROM users WHERE email = $1 OR phone = $2` finds a row. A
      missing phone is NULL, which equals nothing. */
  predicate Taken(users: map<Id, User>, email: string, phone: Option<string>) {
    exists k :: k in users && (users[k].email == email || (phone.Some? && users[k].phone == phone))
  }

  /** No two accounts share an e-mail address or a phone number. */
  predicate UniqueContacts(users: map<Id, User>) {
    forall i, j :: i in users && j in users && i != j ==>
      users[i].email != users[j].email && (users[i].phone.None? || users[i].phone != users[j].phone)
  }

  /** The row register inserts. College and department are NULL when empty,
      the year of study when absent or 0, and skills default to `[]`. The
      remaining columns take the table's defaults. */
  function NewUser(input: RegisterInput, passwordHash: string, now: Time): (u: User)
    ensures u.name == input.name && u.email == input.email && u.phone == input.phone
    ensures u.passwordHash == passwordHash && u.role == input.role
    ensures u.college.Some? <==> PresentText(input.college)
    ensures u.department.Some? <==> PresentText(input.department)
    ensures u.yearOfStudy.Some? <==> input.yearOfStudy.Some? && input.yearOfStudy.value != 0
    ensures u.college == TextOrNull(input.college) && u.department == TextOrNull(input.department)
    ensures input.yearOfStudy.Some? && input.yearOfStudy.value != 0 ==> u.yearOfStudy == input.yearOfStudy
    ensures input.skills.None? ==> u.skills == []
    ensures input.skills.Some? ==> u.skills == input.skills.value
    ensures !u.isVerified && u.isActive && u.rating.None? && u.totalRatings == 0 && u.createdAt == now
  {
    var year := if input.yearOfStudy.Some? && input.yearOfStudy.value != 0 then input.yearOfStudy else None;
    User(input.name, input.email, input.phone, passwordHash, input.role, TextOrNull(input.college),
         TextOrNull(input.department), year, input.skills.GetOr([]), false, true, None, 0, now)
  }

  /** register. `passwordHash` is what bcrypt makes of the password and
      `welcomeMailed` whether the welcome e-mail went out; a failure there is
      logged and does not fail the call. */
  function RegisterOutcome(s: Store, input: RegisterInput, passwordHash: string, welcomeMailed: bool,
                           now: Time): (o: Outcome<(Id, User)>)
    requires s.Valid()
    ensures o.after.Valid()
    ensures Taken(s.users, input.email, input.phone) ==>
      o.result == Err(AppError("User already exists with this email or phone", 400)) && o.after == s
    ensures !Taken(s.users, input.email, input.phone) ==>
      && o.result.Ok? && o.result.value.0 !in s.users
      && o.result.value.1 == NewUser(input, passwordHash, now)
      && o.after == s.(users := s.users[o.result.value.0 := o.result.value.1], nextId := o.after.nextId)
  {
    if Taken(s.users, input.email, input.phone) then
      Fail(s, "User already exists with this email or phone", 400)
    else
      var id := Fresh(s);
      var u := NewUser(input, passwordHash, now);
      Outcome(Ok((id, u)), s.(users := s.users[id := u], nextId := id + 1))
  }

  /** Whether the welcome e-mail was sent makes no difference. */
  lemma WelcomeMailDoesNotMatter(s: Store, input: RegisterInput, passwordHash: string, now: Time)
    requires s.Valid()
    ensures RegisterOutcome(s, input, passwordHash, true, now) == RegisterOutcome(s, input, passwordHash, false, now)
  {
  }

  /** register keeps e-mail addresses and phone numbers unique. */
  lemma RegisterKeepsContactsUnique(s: Store, input: RegisterInput, passwordHash: string, welcomeMailed: bool,
                                    now: Time)
    requires s.Valid() && UniqueContacts(s.users)
    ensures UniqueContacts(RegisterOutcome(s, input, passwordHash, welcomeMailed, now).after.users)
  {
    var o := RegisterOutcome(s, input, passwordHash, welcomeMailed, now);
    if o.result.Ok? {
      var id := o.result.value.0;
      var users := o.after.users;
      forall i, j | i in users && j in users && i != j
        ensures users[i].email != users[j].email && (users[i].phone.None? || users[i].phone != users[j].phone)
      {
        if i == id {
          assert !(users[j].email == input.email || (input.phone.Some? && users[j].phone == input.phone));
        } else if j == id {
          assert !(users[i].email == input.email || (input.phone.Some? && users[i].phone == input.phone));
        }
      }
    }
  }

  /** The row `SELECT * FROM users WHERE email = $1` yields first. */
  function UserByEmail(users: map<Id, User>, email: string): (r: Option<Id>)
    ensures r.Some? ==> r.value in users && users[r.value].email == email
    ensures r.None? <==> forall k :: k in users ==> users[k].email != email
  {
    FirstWhere(users, (u: User) => u.email == email)
  }

  /** login: the id of the account the token is issued for.
      `passwordMatches(password, hash)` is the bcrypt comparison; the
      account's state is checked before the password. */
  function Login(users: map<Id, User>, email: Option<string>, password: string,
                 passwordMatches: (string, string) -> bool): (r: Result<Id>)
    ensures !PresentText(email) ==> r == Err(AppError("Email is required", 400))
    ensures PresentText(email) && UserByEmail(users, email.value).None? ==>
      r == Err(AppError("Invalid credentials", 401))
    ensures PresentText(email) && UserByEmail(users, email.value).Some?
            && !users[UserByEmail(users, email.value).value].isActive ==>
      r == Err(AppError("Account is deactivated", 403))
    ensures PresentText(email) && UserByEmail(users, email.value).Some?
            && users[UserByEmail(users, email.value).value].isActive
            && !passwordMatches(password, users[UserByEmail(users, email.value).value].passwordHash) ==>
      r == Err(AppError("Invalid credentials", 401))
    ensures r.Ok? ==>
      && PresentText(email) && r.value in users && users[r.value].email == email.value
      && users[r.value].isActive && passwordMatches(password, users[r.value].passwordHash)
  {
    if !PresentText(email) then Err(AppError("Email is required", 400))
    else
      var found := UserByEmail(users, email.value);
      if found.None? then Err(AppError("Invalid credentials", 401))
      else
        var u := users[found.value];
        if !u.isActive then Err(AppError("Account is deactivated", 403))
        else if !passwordMatches(password, u.passwordHash) then Err(AppError("Invalid credentials", 401))
        else Ok(found.value)
  }

  /** With e-mail addresses unique, login succeeds exactly when an active
      account has the address and the password matches its hash. */
  lemma LoginSucceedsIff(users: map<Id, User>, email: string, password: string,
                         passwordMatches: (string, string) -> bool)
    requires UniqueContacts(users) && email != ""
    ensures Login(users, Some(email), password, passwordMatches).Ok?
            <==> exists k :: k in users && users[k].email == email && users[k].isActive
                             && passwordMatches(password, users[k].passwordHash)
  {
    if exists k :: k in users && users[k].email == email && users[k].isActive
                   && passwordMatches(password, users[k].passwordHash) {
      var k :| k in users && users[k].email == email && users[k].isActive
               && passwordMatches(password, users[k].passwordHash);
      var found := UserByEmail(users, email);
      assert found.Some?;
      assert found.value == k;
    }
  }

  /** A registered account can log in with the password it was registered
      with, as long as no other account shared its contacts. */
  lemma RegisteredUserCanLogIn(s: Store, input: RegisterInput, passwordHash: string, welcomeMailed: bool,
                               now: Time, passwordMatches: (string, string) -> bool)
    requires s.Valid() && UniqueContacts(s.users)
    requires input.email != "" && passwordMatches(input.password, passwordHash)
    requires !Taken(s.users, input.email, input.phone)
    ensures var o := RegisterOutcome(s, input, passwordHash, welcomeMailed, now);
      Login(o.after.users, Some(input.email), input.password, passwordMatches) == Ok(o.result.value.0)
  {
    var o := RegisterOutcome(s, input, passwordHash, welcomeMailed, now);
    var id := o.result.value.0;
    RegisterKeepsContactsUnique(s, input, passwordHash, welcomeMailed, now);
    var found := UserByEmail(o.after.users, input.email);
    assert id in o.after.users && o.after.users[id].email == input.email;
    assert found == Some(id);
  }

  /** The channel and key sendOTP and verifyOTP use: the phone when one is
      given, otherwise the e-mail with the phone `''`. */
  function Channel(phone: Option<string>): OtpChannel {
    if PresentText(phone) then PhoneOtp else EmailOtp
  }

  function PhoneKey(phone: Option<string>): (key: string)
    ensures PresentText(phone) ==> key == phone.value
    ensures !PresentText(phone) ==> key == ""
  {
    if PresentText(phone) then phone.value else ""
  }

  /** sendOTP. `random` is the random number the code is drawn from and
      `deliveryError` what the SMS or e-mail send threw, if anything; the
      code is stored before it is sent, so a failed send leaves it stored. */
  function SendOtpOutcome(s: Store, phone: Option<string>, email: Option<string>, random: real,
                          deliveryError: Option<string>, now: Time): (o: Outcome<string>)
    requires s.Valid() && 0.0 <= random < 1.0
    ensures o.after.Valid()
    ensures !PresentText(phone) && !PresentText(email) ==>
      o.result == Err(AppError("Phone or email is required", 400)) && o.after == s
    ensures PresentText(phone) || PresentText(email) ==>
      && o.after == WithOtp(s, PhoneKey(phone), email, GenerateOtp(random), Channel(phone), now)
      && (deliveryError.None? ==> o.result == Ok("OTP sent successfully"))
      && (deliveryError.Some? ==> o.result == Err(Fault(deliveryError.value)))
  {
    if !PresentText(phone) && !PresentText(email) then Fail(s, "Phone or email is required", 400)
    else
      var after := WithOtp(s, PhoneKey(phone), email, GenerateOtp(random), Channel(phone), now);
      if deliveryError.Some? then Outcome(Err(Fault(deliveryError.value)), after)
      else Outcome(Ok("OTP sent successfully"), after)
  }

  /** verifyOTP as written: the e-mail reaches the OTP lookup, which ignores
      it, so an e-mail code is matched by phone `''`, code and channel only. */
  function VerifyOtpRequestOutcome(s: Store, phone: Option<string>, email: Option<string>, code: string,
                                   now: Time): (o: Outcome<string>)
    requires s.Valid()
    ensures o.after.Valid()
    ensures !PresentText(phone) && !PresentText(email) ==>
      o.result == Err(AppError("Phone or email is required", 400)) && o.after == s
    ensures (PresentText(phone) || PresentText(email)) ==>
      var v := VerifyOtpOutcome(s, PhoneKey(phone), email, code, Channel(phone), now);
      && (v.result == Ok(false) ==> o.result == Err(AppError("Invalid or expired OTP", 400)) && o.after == s)
      && (v.result == Ok(true) ==> o.result == Ok("OTP verified successfully") && o.after == v.after)
  {
    if !PresentText(phone) && !PresentText(email) then Fail(s, "Phone or email is required", 400)
    else
      var v := VerifyOtpOutcome(s, PhoneKey(phone), email, code, Channel(phone), now);
      if !v.result.value then Fail(s, "Invalid or expired OTP", 400)
      else Outcome(Ok("OTP verified successfully"), v.after)
  }

  /** A code sent to a phone or address verifies for ten minutes, even when
      its delivery failed. */
  lemma SentOtpVerifies(s: Store, phone: Option<string>, email: Option<string>, random: real,
                        deliveryError: Option<string>, now: Time, t: Time)
    requires s.Valid() && 0.0 <= random < 1.0
    requires PresentText(phone) || PresentText(email)
    requires now <= t < now + OtpLifetime
    ensures var sent := SendOtpOutcome(s, phone, email, random, deliveryError, now);
      VerifyOtpRequestOutcome(sent.after, phone, email, GenerateOtp(random), t).result
        == Ok("OTP verified successfully")
  {
    StoredOtpVerifies(s, PhoneKey(phone), email, GenerateOtp(random), Channel(phone), now, t, email);
  }

  /** The request above can be answered for another address: an e-mail code
      sent to one student verifies for a request naming a second one. */
  lemma OtpRequestCrossesAddresses()
    ensures var s := Store(map[], map[], map[], map[], map[], map[], map[],
                           map[1 := IssuedOtp("", Some("asha@college.in"), "482913", EmailOtp, 0)],
                           map[], 2);
      && VerifyOtpRequestOutcome(s, None, Some("ravi@college.in"), "482913", 1).result
           == Ok("OTP verified successfully")
      && VerifyOtpRequestForAddressOutcome(s, None, Some("ravi@college.in"), "482913", 1).result
           == Err(AppError("Invalid or expired OTP", 400))
  {
    EmailOtpCrossesAddresses();
  }

  /** verifyOTP with the address check the e-mail argument evidently calls
      for: an e-mail code verifies only for the address it was sent to. */
  function VerifyOtpRequestForAddressOutcome(s: Store, phone: Option<string>, email: Option<string>,
                                             code: string, now: Time): (o: Outcome<string>)
    requires s.Valid()
    ensures o.after.Valid()
    ensures !PresentText(phone) && !PresentText(email) ==>
      o.result == Err(AppError("Phone or email is required", 400)) && o.after == s
    ensures (PresentText(phone) || PresentText(email)) ==>
      var v := VerifyOtpForAddressOutcome(s, PhoneKey(phone), email, code, Channel(phone), now);
      && (v.result == Ok(false) ==> o.result == Err(AppError("Invalid or expired OTP", 400)) && o.after == s)
      && (v.result == Ok(true) ==> o.result == Ok("OTP verified successfully") && o.after == v.after)
  {
    if !PresentText(phone) && !PresentText(email) then Fail(s, "Phone or email is required", 400)
    else
      var v := VerifyOtpForAddressOutcome(s, PhoneKey(phone), email, code, Channel(phone), now);
      if !v.result.value then Fail(s, "Invalid or expired OTP", 400)
      else Outcome(Ok("OTP verified successfully"), v.after)
  }

  /** With the address check, a code sent to a phone or address verifies for
      the same phone or address for ten minutes. */
  lemma SentOtpVerifiesForAddress(s: Store, phone: Option<string>, email: Option<string>, random: real,
                                  deliveryError: Option<string>, now: Time, t: Time)
    requires s.Valid() && 0.0 <= random < 1.0
    requires PresentText(phone) || PresentText(email)
    requires now <= t < now + OtpLifetime
    ensures var sent := SendOtpOutcome(s, phone, email, random, deliveryError, now);
      VerifyOtpRequestForAddressOutcome(sent.after, phone, email, GenerateOtp(random), t).result
        == Ok("OTP verified successfully")
  {
    StoredOtpVerifiesForAddress(s, PhoneKey(phone), email, GenerateOtp(random), Channel(phone), now, t);
  }

  /** The columns getProfile selects; the password hash is not among them. */
  datatype Profile = Profile(
    id: Id,
    name: string,
    email: string,
    phone: Option<string>,
    role: UserRole,
    college: Option<string>,
    department: Option<string>,
    yearOfStudy: Option<int>,
    skills: seq<string>,
    isVerified: bool,
    rating: Option<real>,
    totalRatings: nat)

  /** getProfile. */
  function GetProfile(users: map<Id, User>, userId: Id): (r: Result<Profile>)
    ensures userId !in users ==> r == Err(AppError("User not found", 404))
    ensures userId in users ==> r.Ok? && r.value.id == userId
    ensures r.Ok? ==> var u := users[userId];
      r.value == Profile(userId, u.name, u.email, u.phone, u.role, u.college, u.department, u.yearOfStudy,
                         u.skills, u.isVerified, u.rating, u.totalRatings)
  {
    if userId !in users then Err(AppError("User not found", 404))
    else
      var u := users[userId];
      Ok(Profile(userId, u.name, u.email, u.phone, u.role, u.college, u.department, u.yearOfStudy,
                 u.skills, u.isVerified, u.rating, u.totalRatings))
  }

  class AuthServiceImpl {
    const db: Db

    constructor (db: Db)
      ensures this.db == db
    {
      this.db := db;
    }

    method Register(input: RegisterInput, passwordHash: string, welcomeMailed: bool, now: Time)
      returns (r: Result<(Id, User)>)
      requires db.Valid()
      modifies db
      ensures var o := RegisterOutcome(old(db.State()), input, passwordHash, welcomeMailed, now);
        r == o.result && db.State() == o.after
      ensures db.Valid()
    {
      if Taken(db.users, input.email, input.phone) {
        return Err(AppError("User already exists with this email or phone", 400));
      }
      var id := db.NewId();
      var u := NewUser(input, passwordHash, now);
      db.users := db.users[id := u];
      r := Ok((id, u));
    }

    method SendOtp(phone: Option<string>, email: Option<string>, random: real, deliveryError: Option<string>,
                   now: Time) returns (r: Result<string>)
      requires db.Valid() && 0.0 <= random < 1.0
      modifies db
      ensures var o := SendOtpOutcome(old(db.State()), phone, email, random, deliveryError, now);
        r == o.result && db.State() == o.after
      ensures db.Valid()
    {
      if !PresentText(phone) && !PresentText(email) {
        return Err(AppError("Phone or email is required", 400));
      }
      var otps := new OtpServiceImpl(db);
      otps.StoreOtp(PhoneKey(phone), email, GenerateOtp(random), Channel(phone), now);
      if deliveryError.Some? {
        return Err(Fault(deliveryError.value));
      }
      r := Ok("OTP sent successfully");
    }

    method VerifyOtp(phone: Option<string>, email: Option<string>, code: string, now: Time)
      returns (r: Result<string>)
      requires db.Valid()
      modifies db
      ensures var o := VerifyOtpRequestOutcome(old(db.State()), phone, email, code, now);
        r == o.result && db.State() == o.after
      ensures db.Valid()
    {
      if !PresentText(phone) && !PresentText(email) {
        return Err(AppError("Phone or email is required", 400));
      }
      var otps := new OtpServiceImpl(db);
      var ok := otps.VerifyOtp(PhoneKey(phone), email, code, Channel(phone), now);
      if !ok {
        return Err(AppError("Invalid or expired OTP", 400));
      }
      r := Ok("OTP verified successfully");
    }
  }
}
