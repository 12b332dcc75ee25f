/** One-time passwords (src/utils/otp.ts): a six-digit code is stored for a
    phone number or an e-mail address, and a code verifies by consuming the
    most recent live record that carries it. */
module Otp {
  import opened Wrappers
  import opened Models
  import opened Text
  import opened Ordering
  import opened Database

  /** Codes expire ten minutes (in milliseconds) after they are stored. */
  const OtpLifetime: int := 10 * 60000

  /** `Math.floor(100000 + random * 900000)` for `random` in [0, 1). */
  function OtpValue(random: real): (v: nat)
    requires 0.0 <= random < 1.0
    ensures 100000 <= v <= 999999
  {
    var x := 100000.0 + random * 900000.0;
    assert 100000.0 <= x < 1000000.0;
    x.Floor
  }

  /** generateOTP, with the random number as an input. */
  function GenerateOtp(random: real): (code: string)
    requires 0.0 <= random < 1.0
    ensures |code| == 6 && AllDigits(code) && code[0] != '0'
    ensures DecimalValue(code) == OtpValue(random)
  {
    var v := OtpValue(random);
    assert Pow10(5) == 100000 by {
      assert Pow10(1) == 10;
      assert Pow10(2) == 100;
      assert Pow10(3) == 1000;
      assert Pow10(4) == 10000;
    }
    assert Pow10(6) == 1000000;
    DigitCount(v, 6);
    DecimalRoundTrip(v);
    NatToString(v)
  }

  /** The row storeOTP inserts: the e-mail is NULL when absent or empty. */
  function IssuedOtp(phone: string, email: Option<string>, code: string, channel: OtpChannel, now: Time)
    : (r: OtpRecord)
    ensures r.expiresAt == now + OtpLifetime && !r.verified && r.createdAt == now
    ensures r.email.Some? <==> PresentText(email)
    ensures r.phone == phone && r.otp == code && r.channel == channel
  {
    OtpRecord(phone, TextOrNull(email), code, channel, now + OtpLifetime, false, now)
  }

  /** storeOTP: one new row, nothing else. */
  function WithOtp(s: Store, phone: string, email: Option<string>, code: string, channel: OtpChannel,
                   now: Time): (after: Store)
    requires s.Valid()
    ensures after.Valid()
    ensures after == s.(otps := s.otps[s.nextId := IssuedOtp(phone, email, code, channel, now)],
                        nextId := s.nextId + 1)
  {
    var id := Fresh(s);
    s.(otps := s.otps[id := IssuedOtp(phone, email, code, channel, now)], nextId := id + 1)
  }

  /** Whether verifyOTP's SELECT picks the row: same phone, code and type,
      not yet verified, and expiring strictly after now. */
  predicate Live(r: OtpRecord, phone: string, code: string, channel: OtpChannel, now: Time) {
    r.phone == phone && r.otp == code && r.channel == channel && !r.verified && r.expiresAt > now
  }

  function Candidates(m: map<Id, OtpRecord>, phone: string, code: string, channel: OtpChannel, now: Time)
    : (r: map<Id, OtpRecord>)
    ensures forall k :: k in r <==> k in m && Live(m[k], phone, code, channel, now)
    ensures forall k :: k in r ==> r[k] == m[k]
  {
    map k | k in m && Live(m[k], phone, code, channel, now) :: m[k]
  }

  function OtpCreatedAt(r: OtpRecord): int { r.createdAt }

  /** The row `ORDER BY created_at DESC LIMIT 1` returns. */
  function Newest(c: map<Id, OtpRecord>): (k: Id)
    requires c != map[]
    ensures k in c
    ensures forall j :: j in c ==> c[j].createdAt <= c[k].createdAt
  {
    var ids := NewestFirst(c, OtpCreatedAt);
    var some :| some in c;
    assert some in ids;
    forall j | j in c ensures c[j].createdAt <= c[ids[0]].createdAt {
      assert j in ids;
      var i :| 0 <= i < |ids| && ids[i] == j;
      if i > 0 {
        assert OtpCreatedAt(c[ids[0]]) >= OtpCreatedAt(c[ids[i]]);
      }
    }
    ids[0]
  }

  /** The UPDATE that consumes row `k`. */
  function Consume(s: Store, k: Id): (after: Store)
    requires s.Valid() && k in s.otps
    ensures after.Valid()
    ensures after == s.(otps := s.otps[k := s.otps[k].(verified := true)])
  {
    s.(otps := s.otps[k := s.otps[k].(verified := true)])
  }

  /** verifyOTP as written: the e-mail argument is not used, so for an
      e-mail code (stored under the phone `''`) any live e-mail record with
      the same code matches, whichever address it was sent to. */
  function VerifyOtpOutcome(s: Store, phone: string, email: Option<string>, code: string,
                            channel: OtpChannel, now: Time): (o: Outcome<bool>)
    requires s.Valid()
    ensures o.after.Valid() && o.result.Ok?
    ensures o.result.value <==> Candidates(s.otps, phone, code, channel, now) != map[]
    ensures !o.result.value ==> o.after == s
    ensures o.result.value ==>
      var k := Newest(Candidates(s.otps, phone, code, channel, now));
      && k in s.otps && Live(s.otps[k], phone, code, channel, now)
      && o.after == Consume(s, k)
  {
    var c := Candidates(s.otps, phone, code, channel, now);
    if c == map[] then Outcome(Ok(false), s)
    else Outcome(Ok(true), Consume(s, Newest(c)))
  }

  /** Marking row `k` verified takes it, and only it, out of every query's
      candidates. */
  lemma ConsumeCandidates(m: map<Id, OtpRecord>, k: Id, phone: string, code: string, channel: OtpChannel,
                          now: Time)
    requires k in m
    ensures Candidates(m[k := m[k].(verified := true)], phone, code, channel, now)
            == Candidates(m, phone, code, channel, now) - {k}
  {
    var a := Candidates(m[k := m[k].(verified := true)], phone, code, channel, now);
    var b := Candidates(m, phone, code, channel, now) - {k};
    assert a.Keys == b.Keys;
  }

  /** A successful verification consumes exactly one live record: for the
      same phone, code and type there is one candidate fewer, and for any
      other query the candidates are what they were. */
  lemma VerifyConsumesOne(s: Store, phone: string, email: Option<string>, code: string,
                          channel: OtpChannel, now: Time, phone2: string, code2: string,
                          channel2: OtpChannel, later: Time)
    requires s.Valid()
    requires VerifyOtpOutcome(s, phone, email, code, channel, now).result == Ok(true)
    ensures var k := Newest(Candidates(s.otps, phone, code, channel, now));
      var after := VerifyOtpOutcome(s, phone, email, code, channel, now).after;
      Candidates(after.otps, phone2, code2, channel2, later)
        == Candidates(s.otps, phone2, code2, channel2, later) - {k}
  {
    var k := Newest(Candidates(s.otps, phone, code, channel, now));
    ConsumeCandidates(s.otps, k, phone2, code2, channel2, later);
  }

  /** A code stored once verifies once: when its record is the only live
      one with that phone, code and type, a second verification fails. */
  lemma OtpVerifiesOnce(s: Store, phone: string, email: Option<string>, code: string,
                        channel: OtpChannel, now: Time, later: Time)
    requires s.Valid()
    requires |Candidates(s.otps, phone, code, channel, now)| == 1
    requires later >= now
    ensures var first := VerifyOtpOutcome(s, phone, email, code, channel, now);
      && first.result == Ok(true)
      && VerifyOtpOutcome(first.after, phone, email, code, channel, later).result == Ok(false)
  {
    var c := Candidates(s.otps, phone, code, channel, now);
    var k := Newest(c);
    assert c.Keys == {k} by {
      forall j | j in c.Keys ensures j == k {
        if j != k {
          assert false;
        }
      }
    }
    var cLater := Candidates(s.otps, phone, code, channel, later);
    assert cLater.Keys <= c.Keys;
    VerifyConsumesOne(s, phone, email, code, channel, now, phone, code, channel, later);
    assert cLater - {k} == map[];
  }

  /** A stored code verifies for the same phone, type and code at any time
      before it expires, whatever e-mail is given. */
  lemma StoredOtpVerifies(s: Store, phone: string, email: Option<string>, code: string,
                          channel: OtpChannel, now: Time, t: Time, otherEmail: Option<string>)
    requires s.Valid()
    requires now <= t < now + OtpLifetime
    ensures VerifyOtpOutcome(WithOtp(s, phone, email, code, channel, now), phone, otherEmail, code, channel, t).result
            == Ok(true)
  {
    var after := WithOtp(s, phone, email, code, channel, now);
    assert s.nextId in Candidates(after.otps, phone, code, channel, t);
  }

  /** An expired or already verified record never verifies. */
  lemma DeadOtpFails(s: Store, phone: string, email: Option<string>, code: string, channel: OtpChannel,
                     now: Time)
    requires s.Valid()
    requires forall k :: (k in s.otps && s.otps[k].phone == phone && s.otps[k].otp == code
                          && s.otps[k].channel == channel) ==> s.otps[k].verified || s.otps[k].expiresAt <= now
    ensures VerifyOtpOutcome(s, phone, email, code, channel, now) == Outcome(Ok(false), s)
  {
    assert Candidates(s.otps, phone, code, channel, now) == map[] by {
      forall k | k in s.otps ensures !Live(s.otps[k], phone, code, channel, now) {
      }
    }
  }

  /** As written, a code e-mailed to one address verifies a request that
      names another address. */
  lemma EmailOtpCrossesAddresses()
    ensures var s := Store(map[], map[], map[], map[], map[], map[], map[],
                           map[1 := IssuedOtp("", Some("asha@college.in"), "482913", EmailOtp, 0)],
                           map[], 2);
      && VerifyOtpOutcome(s, "", Some("ravi@college.in"), "482913", EmailOtp, 1).result == Ok(true)
      && VerifyOtpForAddressOutcome(s, "", Some("ravi@college.in"), "482913", EmailOtp, 1).result == Ok(false)
  {
    var s := Store(map[], map[], map[], map[], map[], map[], map[],
                   map[1 := IssuedOtp("", Some("asha@college.in"), "482913", EmailOtp, 0)],
                   map[], 2);
    assert 1 in Candidates(s.otps, "", "482913", EmailOtp, 1);
    assert !LiveFor(s.otps[1], "", Some("ravi@college.in"), "482913", EmailOtp, 1);
    assert CandidatesFor(s.otps, "", Some("ravi@college.in"), "482913", EmailOtp, 1) == map[];
  }

  /** The intended check: an e-mail code must also have been sent to the
      address the request names. */
  predicate LiveFor(r: OtpRecord, phone: string, email: Option<string>, code: string, channel: OtpChannel,
                    now: Time) {
    Live(r, phone, code, channel, now) && (channel == EmailOtp ==> r.email == TextOrNull(email))
  }

  function CandidatesFor(m: map<Id, OtpRecord>, phone: string, email: Option<string>, code: string,
                         channel: OtpChannel, now: Time): (r: map<Id, OtpRecord>)
    ensures forall k :: k in r <==> k in m && LiveFor(m[k], phone, email, code, channel, now)
    ensures forall k :: k in r ==> r[k] == m[k]
    ensures forall k :: k in r ==> k in Candidates(m, phone, code, channel, now)
  {
    map k | k in m && LiveFor(m[k], phone, email, code, channel, now) :: m[k]
  }

  /** verifyOTP as intended: like the code as written, but an e-mail code
      only verifies for the address it was sent to. */
  function VerifyOtpForAddressOutcome(s: Store, phone: string, email: Option<string>, code: string,
                                      channel: OtpChannel, now: Time): (o: Outcome<bool>)
    requires s.Valid()
    ensures o.after.Valid() && o.result.Ok?
    ensures o.result.value <==> CandidatesFor(s.otps, phone, email, code, channel, now) != map[]
    ensures !o.result.value ==> o.after == s
    ensures o.result.value ==>
      var k := Newest(CandidatesFor(s.otps, phone, email, code, channel, now));
      && k in s.otps && Live(s.otps[k], phone, code, channel, now)
      && (channel == EmailOtp ==> s.otps[k].email == TextOrNull(email))
      && o.after == Consume(s, k)
  {
    var c := CandidatesFor(s.otps, phone, email, code, channel, now);
    if c == map[] then Outcome(Ok(false), s)
    else Outcome(Ok(true), Consume(s, Newest(c)))
  }

  /** The intended check accepts no more than the written one. */
  lemma AddressCheckNarrows(s: Store, phone: string, email: Option<string>, code: string,
                            channel: OtpChannel, t: Time)
    requires s.Valid()
    ensures VerifyOtpForAddressOutcome(s, phone, email, code, channel, t).result == Ok(true) ==>
      VerifyOtpOutcome(s, phone, email, code, channel, t).result == Ok(true)
  {
    var c := CandidatesFor(s.otps, phone, email, code, channel, t);
    if c != map[] {
      var k :| k in c;
      assert k in Candidates(s.otps, phone, code, channel, t);
    }
  }

  /** Under the intended check, a code stored for an address verifies for
      that address until it expires. */
  lemma StoredOtpVerifiesForAddress(s: Store, phone: string, email: Option<string>, code: string,
                                    channel: OtpChannel, now: Time, t: Time)
    requires s.Valid()
    requires now <= t < now + OtpLifetime
    ensures VerifyOtpForAddressOutcome(WithOtp(s, phone, email, code, channel, now), phone, email, code,
                                       channel, t).result == Ok(true)
  {
    var after := WithOtp(s, phone, email, code, channel, now);
    assert s.nextId in CandidatesFor(after.otps, phone, email, code, channel, t);
  }

  class OtpServiceImpl {
    const db: Db

    constructor (db: Db)
      ensures this.db == db
    {
      this.db := db;
    }

    method StoreOtp(phone: string, email: Option<string>, code: string, channel: OtpChannel, now: Time)
      requires db.Valid()
      modifies db
      ensures db.State() == WithOtp(old(db.State()), phone, email, code, channel, now)
      ensures db.Valid()
    {
      var id := db.NewId();
      db.otps := db.otps[id := IssuedOtp(phone, email, code, channel, now)];
    }

    method VerifyOtp(phone: string, email: Option<string>, code: string, channel: OtpChannel, now: Time)
      returns (ok: bool)
      requires db.Valid()
      modifies db
      ensures var o := VerifyOtpOutcome(old(db.State()), phone, email, code, channel, now);
        Ok(ok) == o.result && db.State() == o.after
      ensures db.Valid()
    {
      var c := Candidates(db.otps, phone, code, channel, now);
      if c == map[] {
        return false;
      }
      var k := Newest(c);
      db.otps := db.otps[k := db.otps[k].(verified := true)];
      ok := true;
    }

    method VerifyOtpForAddress(phone: string, email: Option<string>, code: string, channel: OtpChannel,
                               now: Time) returns (ok: bool)
      requires db.Valid()
      modifies db
      ensures var o := VerifyOtpForAddressOutcome(old(db.State()), phone, email, code, channel, now);
        Ok(ok) == o.result && db.State() == o.after
      ensures db.Valid()
    {
      var c := CandidatesFor(db.otps, phone, email, code, channel, now);
      if c == map[] {
        return false;
      }
      var k := Newest(c);
      db.otps := db.otps[k := db.otps[k].(verified := true)];
      ok := true;
    }
  }
}
