/** Request validation (src/middleware/validation.ts): `validate` checks a
    request body against a Joi object schema and either passes the request
    on or answers 400 with the problem found. The schemas are described as
    data (each key's type, rules, presence and allowed values) and checked
    in Joi's order: a missing key is an error only when it is required; a
    value is converted first (a string read as a number for a number key);
    a key with allowed values passes exactly when its converted value is one
    of them; otherwise the value must have the key's type (a string must not
    be empty) and pass the rules in the order they are written, lengths
    counted in UTF-16 code units; a key the schema does not name is an
    error. */
module Validation {
  import opened Wrappers
  import opened Models
  import opened Text
  import PaymentService

  // ------------------------------------------------------------- bodies

  /** A parsed JSON value. */
  datatype Value =
    | Str(s: string)
    | Num(n: real)
    | Bool(b: bool)
    | Null
    | List(items: seq<Value>)
    | Object(fields: map<string, Value>)

  type Body = map<string, Value>

  /** What Joi relies on beyond the schema: its e-mail address test, its
      date parser (`Date` on a string), its conversion of a string to a
      number and the clock, in milliseconds. Joi converts by default, so a
      `Joi.number()` key accepts `"50"` as 50; `numberOf` is `None` for a
      string Joi does not read as a number or finds unsafe to read. */
  datatype Env = Env(
    isEmail: string -> bool,
    parseDate: string -> Option<real>,
    numberOf: string -> Option<real>,
    now: real)

  // ------------------------------------------------------------ schemas

  datatype TextRule = MinLength(n: nat) | MaxLength(n: nat) | EmailAddress | TenDigits
  datatype NumberRule = Integer | Positive | AtLeast(n: int) | AtMost(n: int)

  /** `Joi.string()`, `Joi.number()`, `Joi.array().items(Joi.string())` and
      `Joi.date().greater('now')`. */
  datatype FieldType =
    | Text(textRules: seq<TextRule>)
    | Number(numberRules: seq<NumberRule>)
    | TextList(minItems: nat)
    | FutureDate

  /** `.required()` or `.optional()`. */
  datatype Presence = Required | Optional

  /** One key of an object schema; `allowed` is the `.valid(...)` list, empty
      when there is none. */
  datatype Field = Field(name: string, ftype: FieldType, presence: Presence, allowed: seq<Value>)

  type Schema = seq<Field>

  datatype Problem =
    | Missing
    | NotAllowed
    | WrongType
    | EmptyText
    | TooShort
    | TooLong
    | NotEmail
    | NotTenDigits
    | NotInteger
    | NotPositive
    | TooSmall
    | TooLarge
    | BadItem(index: nat)
    | TooFewItems
    | NotAfterNow
    | UnknownKey

  datatype Violation = Violation(key: string, problem: Problem)

  // ------------------------------------------------------------ checking

  /** `/^[0-9]{10}$/`. */
  predicate TenAsciiDigits(s: string) {
    |s| == 10 && AllDigits(s)
  }

  predicate IsInteger(n: real) {
    n == n.Floor as real
  }

  /** The length JavaScript gives a string, which `.min` and `.max` count:
      its UTF-16 code units, two for a character beyond the Basic
      Multilingual Plane. */
  function Utf16Length(s: string): (n: nat)
    ensures |s| <= n <= 2 * |s|
    ensures (forall i :: 0 <= i < |s| ==> s[i] as int <= 0xFFFF) ==> n == |s|
  {
    if s == [] then 0
    else (if s[0] as int > 0xFFFF then 2 else 1) + Utf16Length(s[1..])
  }

  function TextRuleProblem(rule: TextRule, s: string, env: Env): (p: Option<Problem>)
    ensures p.None? <==> match rule
      case MinLength(n) => Utf16Length(s) >= n
      case MaxLength(n) => Utf16Length(s) <= n
      case EmailAddress => env.isEmail(s)
      case TenDigits => TenAsciiDigits(s)
  {
    match rule
    case MinLength(n) => if Utf16Length(s) < n then Some(TooShort) else None
    case MaxLength(n) => if Utf16Length(s) > n then Some(TooLong) else None
    case EmailAddress => if !env.isEmail(s) then Some(NotEmail) else None
    case TenDigits => if !TenAsciiDigits(s) then Some(NotTenDigits) else None
  }

  /** One emoji is one character but two UTF-16 code units, so `.max(1)`
      turns it down. */
  lemma EmojiCountsTwice(env: Env)
    ensures |"\U{1F600}"| == 1
    ensures TextRuleProblem(MaxLength(1), "\U{1F600}", env) == Some(TooLong)
  {
    assert Utf16Length("\U{1F600}") == 2 + Utf16Length("");
  }

  /** The first rule the text breaks, in the order written. */
  function TextRulesProblem(rules: seq<TextRule>, s: string, env: Env): (p: Option<Problem>)
    ensures p.None? <==> forall i :: 0 <= i < |rules| ==> TextRuleProblem(rules[i], s, env).None?
  {
    if rules == [] then None
    else if TextRuleProblem(rules[0], s, env).Some? then TextRuleProblem(rules[0], s, env)
    else
      var rest := TextRulesProblem(rules[1..], s, env);
      assert forall i :: 1 <= i < |rules| ==> rules[i] == rules[1..][i - 1];
      rest
  }

  function NumberRuleProblem(rule: NumberRule, n: real): (p: Option<Problem>)
    ensures p.None? <==> match rule
      case Integer => IsInteger(n)
      case Positive => n > 0.0
      case AtLeast(m) => n >= m as real
      case AtMost(m) => n <= m as real
  {
    match rule
    case Integer => if !IsInteger(n) then Some(NotInteger) else None
    case Positive => if n <= 0.0 then Some(NotPositive) else None
    case AtLeast(m) => if n < m as real then Some(TooSmall) else None
    case AtMost(m) => if n > m as real then Some(TooLarge) else None
  }

  function NumberRulesProblem(rules: seq<NumberRule>, n: real): (p: Option<Problem>)
    ensures p.None? <==> forall i :: 0 <= i < |rules| ==> NumberRuleProblem(rules[i], n).None?
  {
    if rules == [] then None
    else if NumberRuleProblem(rules[0], n).Some? then NumberRuleProblem(rules[0], n)
    else
      var rest := NumberRulesProblem(rules[1..], n);
      assert forall i :: 1 <= i < |rules| ==> rules[i] == rules[1..][i - 1];
      rest
  }

  /** `Joi.string()` without `.allow('')`: a non-empty string. */
  predicate NonEmptyText(v: Value) {
    v.Str? && v.s != ""
  }

  /** The first item of a list that is not a non-empty string. */
  function BadItemIndex(items: seq<Value>): (r: Option<nat>)
    ensures r.None? <==> forall i :: 0 <= i < |items| ==> NonEmptyText(items[i])
    ensures r.Some? ==> r.value < |items| && !NonEmptyText(items[r.value])
  {
    if items == [] then None
    else if !NonEmptyText(items[0]) then Some(0)
    else
      var rest := BadItemIndex(items[1..]);
      assert forall i :: 1 <= i < |items| ==> items[i] == items[1..][i - 1];
      if rest.Some? then Some(rest.value + 1) else None
  }

  /** The instant a `Joi.date()` value stands for: a number of milliseconds
      or a string the date parser reads. */
  function DateOf(v: Value, env: Env): Option<real> {
    match v
    case Num(n) => Some(n)
    case Str(s) => env.parseDate(s)
    case _ => None
  }

  /** The number a `Joi.number()` key reads from a value: the number
      itself, or the number a string converts to. */
  function NumberOf(v: Value, env: Env): Option<real> {
    match v
    case Num(n) => Some(n)
    case Str(s) => env.numberOf(s)
    case _ => None
  }

  /** The value Joi compares with a `.valid(...)` list: converted first, so
      a `Joi.number()` key's value is the number read from it. */
  function Converted(t: FieldType, v: Value, env: Env): Value {
    if t.Number? && NumberOf(v, env).Some? then Num(NumberOf(v, env).value) else v
  }

  /** What Joi finds wrong with a present value of a key's type, if
      anything: the base type first, then the rules. */
  function TypeProblem(t: FieldType, v: Value, env: Env): (p: Option<Problem>)
  {
    match t
    case Text(rules) =>
      if !v.Str? then Some(WrongType)
      else if v.s == "" then Some(EmptyText)
      else TextRulesProblem(rules, v.s, env)
    case Number(rules) =>
      var n := NumberOf(v, env);
      if n.None? then Some(WrongType)
      else NumberRulesProblem(rules, n.value)
    case TextList(minItems) =>
      if !v.List? then Some(WrongType)
      else
        var bad := BadItemIndex(v.items);
        if bad.Some? then Some(BadItem(bad.value))
        else if |v.items| < minItems then Some(TooFewItems)
        else None
    case FutureDate =>
      var t := DateOf(v, env);
      if t.None? then Some(WrongType)
      else if t.value <= env.now then Some(NotAfterNow)
      else None
  }

  /** Whether a key must be present in this body. */
  predicate MustBePresent(p: Presence, body: Body) {
    match p
    case Required => true
    case Optional => false
  }

  /** What Joi finds wrong with one key of the body, if anything. */
  function FieldProblem(f: Field, body: Body, env: Env): (p: Option<Problem>)
    ensures f.name !in body ==> (p.None? <==> !MustBePresent(f.presence, body))
    ensures f.name in body && f.allowed != [] ==>
      (p.None? <==> Converted(f.ftype, body[f.name], env) in f.allowed)
    ensures f.name in body && f.allowed == [] ==> p == TypeProblem(f.ftype, body[f.name], env)
  {
    if f.name !in body then
      if MustBePresent(f.presence, body) then Some(Missing) else None
    else if f.allowed != [] then
      if Converted(f.ftype, body[f.name], env) in f.allowed then None else Some(NotAllowed)
    else TypeProblem(f.ftype, body[f.name], env)
  }

  /** The problems of the schema's keys, in the schema's order. */
  function FieldViolations(schema: Schema, body: Body, env: Env): (r: seq<Violation>)
    ensures r == [] <==> forall i :: 0 <= i < |schema| ==> FieldProblem(schema[i], body, env).None?
    ensures forall v :: v in r ==> exists i :: 0 <= i < |schema| && schema[i].name == v.key
  {
    if schema == [] then []
    else
      var p := FieldProblem(schema[0], body, env);
      var rest := FieldViolations(schema[1..], body, env);
      assert forall i :: 1 <= i < |schema| ==> schema[i] == schema[1..][i - 1];
      assert forall v :: v in rest ==> exists i :: 0 <= i < |schema| && schema[i].name == v.key by {
        forall v | v in rest ensures exists i :: 0 <= i < |schema| && schema[i].name == v.key {
          var j :| 0 <= j < |schema[1..]| && schema[1..][j].name == v.key;
          assert schema[j + 1].name == v.key;
        }
      }
      (if p.Some? then [Violation(schema[0].name, p.value)] else []) + rest
  }

  function Names(schema: Schema): (r: set<string>)
    ensures forall k :: k in r <==> exists i :: 0 <= i < |schema| && schema[i].name == k
  {
    set i | 0 <= i < |schema| :: schema[i].name
  }

  /** The keys of the body the schema does not name. */
  function UnknownKeys(schema: Schema, body: Body): (r: set<string>)
    ensures forall k :: k in r <==> k in body && k !in Names(schema)
  {
    body.Keys - Names(schema)
  }

  /** Whether Joi reports no error: every key of the schema is fine and the
      body has no other key. */
  predicate Passes(schema: Schema, body: Body, env: Env) {
    FieldViolations(schema, body, env) == [] && UnknownKeys(schema, body) == {}
  }

  // ------------------------------------------------------------- validate

  datatype Verdict = Next | Reply(status: int, error: string, details: seq<Violation>)

  /** `validate(schema)`: the next handler runs when Joi reports no error;
      otherwise the reply is 400 "Validation error" with the one problem Joi
      stops at (it aborts early): the first key of the schema at fault, or
      else a key the schema does not name. */
  ghost function Validate(schema: Schema, body: Body, env: Env): (v: Verdict)
    ensures v == Next <==> Passes(schema, body, env)
    ensures v.Reply? ==> v.status == 400 && v.error == "Validation error" && |v.details| == 1
    ensures v.Reply? && FieldViolations(schema, body, env) != [] ==>
      v.details[0] == FieldViolations(schema, body, env)[0]
    ensures v.Reply? && FieldViolations(schema, body, env) == [] ==>
      v.details[0].problem == UnknownKey && v.details[0].key in UnknownKeys(schema, body)
  {
    var fields := FieldViolations(schema, body, env);
    if fields != [] then Reply(400, "Validation error", [fields[0]])
    else if UnknownKeys(schema, body) != {} then
      var k :| k in UnknownKeys(schema, body);
      Reply(400, "Validation error", [Violation(k, UnknownKey)])
    else Next
  }

  // -------------------------------------------------------- the schemas

  const RegisterSchema: Schema := [
    Field("name", Text([MinLength(3), MaxLength(100)]), Required, []),
    Field("email", Text([EmailAddress]), Required, []),
    Field("phone", Text([TenDigits]), Optional, []),
    Field("password", Text([MinLength(6)]), Required, []),
    Field("role", Text([]), Required, [Str("student"), Str("developer"), Str("admin")]),
    Field("college", Text([MaxLength(255)]), Optional, []),
    Field("department", Text([MaxLength(255)]), Optional, []),
    Field("yearOfStudy", Number([Integer, AtLeast(1), AtMost(10)]), Optional, []),
    Field("skills", TextList(0), Optional, [])
  ]

  const LoginSchema: Schema := [
    Field("email", Text([EmailAddress]), Required, []),
    Field("password", Text([]), Required, [])
  ]

  const CreateProjectSchema: Schema := [
    Field("title", Text([MinLength(5), MaxLength(255)]), Required, []),
    Field("description", Text([MinLength(20)]), Required, []),
    Field("technology", TextList(1), Required, []),
    Field("budget", Number([Positive]), Required, []),
    Field("deadline", FutureDate, Required, [])
  ]

  const CreateProposalSchema: Schema := [
    Field("price", Number([Positive]), Required, []),
    Field("timeline", Number([Integer, Positive]), Required, []),
    Field("technology", TextList(0), Optional, []),
    Field("message", Text([MaxLength(1000)]), Optional, [])
  ]

  const CreatePaymentSchema: Schema := [
    Field("paymentMethod", Text([]), Required, [Str("card"), Str("upi"), Str("netbanking"), Str("wallet")]),
    Field("paymentType", Text([]), Required, [Str("advance"), Str("full"), Str("milestone")]),
    Field("milestonePercentage", Number([Integer]), Optional, [Num(20.0), Num(50.0), Num(100.0)])
  ]

  const CreateReviewSchema: Schema := [
    Field("rating", Number([Integer, AtLeast(1), AtMost(5)]), Required, []),
    Field("comment", Text([MaxLength(500)]), Optional, [])
  ]

  const WithdrawSchema: Schema := [
    Field("amount", Number([Positive]), Required, []),
    Field("method", Text([]), Required, [Str("bank"), Str("upi")]),
    Field("accountDetails", Text([]), Required, [])
  ]

  // ------------------------------------------- the schemas, key by key

  /** An optional key, when present, satisfies `ok`. */
  predicate IfPresent(body: Body, key: string, ok: Value -> bool) {
    key in body ==> ok(body[key])
  }

  predicate TextBetween(v: Value, lo: nat, hi: nat) {
    NonEmptyText(v) && lo <= Utf16Length(v.s) <= hi
  }

  predicate WholeBetween(v: Value, lo: int, hi: int, env: Env) {
    var n := NumberOf(v, env);
    n.Some? && IsInteger(n.value) && lo as real <= n.value <= hi as real
  }

  predicate TextItems(v: Value, minItems: nat) {
    v.List? && |v.items| >= minItems && forall i :: 0 <= i < |v.items| ==> NonEmptyText(v.items[i])
  }

  predicate PhoneText(v: Value) { NonEmptyText(v) && TenAsciiDigits(v.s) }
  predicate ShortText(v: Value) { TextBetween(v, 1, 255) }
  predicate YearOfStudy(v: Value, env: Env) { WholeBetween(v, 1, 10, env) }
  predicate AnyTextList(v: Value) { TextItems(v, 0) }

  /** The register schema key by key: a name of 3 to 100 characters, an
      e-mail address, a phone of exactly ten ASCII digits if any, a password
      of at least 6 characters, the role student, developer or admin, a
      college and a department of at most 255 characters if any, a year of
      study from 1 to 10 if any, skills a list of strings if any, and no
      other key. */
  predicate RegisterBody(b: Body, env: Env) {
    && b.Keys <= {"name", "email", "phone", "password", "role", "college", "department", "yearOfStudy", "skills"}
    && "name" in b && TextBetween(b["name"], 3, 100)
    && "email" in b && NonEmptyText(b["email"]) && env.isEmail(b["email"].s)
    && IfPresent(b, "phone", PhoneText)
    && "password" in b && NonEmptyText(b["password"]) && Utf16Length(b["password"].s) >= 6
    && "role" in b && b["role"] in [Str("student"), Str("developer"), Str("admin")]
    && IfPresent(b, "college", ShortText)
    && IfPresent(b, "department", ShortText)
    && ("yearOfStudy" in b ==> YearOfStudy(b["yearOfStudy"], env))
    && IfPresent(b, "skills", AnyTextList)
  }

  /** Whether a schema passes, key by key. */
  lemma PassesByKey(schema: Schema, body: Body, env: Env)
    ensures Passes(schema, body, env) <==>
      (forall i :: 0 <= i < |schema| ==> FieldProblem(schema[i], body, env).None?) && body.Keys <= Names(schema)
  {
  }

  /** A schema of nine keys passes exactly when each of the nine keys is
      fine and the body has no other key. */
  lemma PassesNineKeys(s: Schema, body: Body, env: Env)
    requires |s| == 9
    ensures Passes(s, body, env) <==>
      && FieldProblem(s[0], body, env).None? && FieldProblem(s[1], body, env).None?
      && FieldProblem(s[2], body, env).None? && FieldProblem(s[3], body, env).None?
      && FieldProblem(s[4], body, env).None? && FieldProblem(s[5], body, env).None?
      && FieldProblem(s[6], body, env).None? && FieldProblem(s[7], body, env).None?
      && FieldProblem(s[8], body, env).None? && body.Keys <= Names(s)
  {
    PassesByKey(s, body, env);
  }

  /** A required key of a given type and no allowed list. */
  lemma RequiredKey(name: string, t: FieldType, b: Body, env: Env)
    ensures FieldProblem(Field(name, t, Required, []), b, env).None? <==>
      name in b && TypeProblem(t, b[name], env).None?
  {
  }

  /** An optional key of a given type and no allowed list. */
  lemma OptionalKey(name: string, t: FieldType, b: Body, env: Env)
    ensures FieldProblem(Field(name, t, Optional, []), b, env).None? <==>
      (name in b ==> TypeProblem(t, b[name], env).None?)
  {
  }

  lemma TextType(rules: seq<TextRule>, v: Value, env: Env)
    ensures TypeProblem(Text(rules), v, env).None? <==>
      NonEmptyText(v) && forall i :: 0 <= i < |rules| ==> TextRuleProblem(rules[i], v.s, env).None?
  {
  }

  /** A text with a minimum and a maximum length. */
  lemma TextBetweenType(lo: nat, hi: nat, v: Value, env: Env)
    ensures TypeProblem(Text([MinLength(lo), MaxLength(hi)]), v, env).None? <==> TextBetween(v, lo, hi)
  {
    var rules := [MinLength(lo), MaxLength(hi)];
    TextType(rules, v, env);
    if NonEmptyText(v) {
      assert TextRuleProblem(rules[0], v.s, env).None? <==> Utf16Length(v.s) >= lo;
      assert TextRuleProblem(rules[1], v.s, env).None? <==> Utf16Length(v.s) <= hi;
    }
  }

  lemma NumberType(rules: seq<NumberRule>, v: Value, env: Env)
    ensures TypeProblem(Number(rules), v, env).None? <==>
      NumberOf(v, env).Some? &&
      forall i :: 0 <= i < |rules| ==> NumberRuleProblem(rules[i], NumberOf(v, env).value).None?
  {
  }

  lemma TextListType(minItems: nat, v: Value, env: Env)
    ensures TypeProblem(TextList(minItems), v, env).None? <==> TextItems(v, minItems)
  {
  }

  // Each key of the register schema on its own.

  lemma RegisterNames()
    ensures Names(RegisterSchema) ==
      {"name", "email", "phone", "password", "role", "college", "department", "yearOfStudy", "skills"}
  {
    var s := RegisterSchema;
    assert s[0].name == "name" && s[1].name == "email" && s[2].name == "phone";
    assert s[3].name == "password" && s[4].name == "role" && s[5].name == "college";
    assert s[6].name == "department" && s[7].name == "yearOfStudy" && s[8].name == "skills";
  }

  lemma RegisterName(b: Body, env: Env)
    ensures FieldProblem(RegisterSchema[0], b, env).None? <==> "name" in b && TextBetween(b["name"], 3, 100)
  {
    RequiredKey("name", Text([MinLength(3), MaxLength(100)]), b, env);
    if "name" in b { TextBetweenType(3, 100, b["name"], env); }
  }

  lemma RegisterEmail(b: Body, env: Env)
    ensures FieldProblem(RegisterSchema[1], b, env).None? <==>
      "email" in b && NonEmptyText(b["email"]) && env.isEmail(b["email"].s)
  {
    RequiredKey("email", Text([EmailAddress]), b, env);
    if "email" in b { TextType([EmailAddress], b["email"], env); }
  }

  lemma RegisterPhone(b: Body, env: Env)
    ensures FieldProblem(RegisterSchema[2], b, env).None? <==> IfPresent(b, "phone", PhoneText)
  {
    OptionalKey("phone", Text([TenDigits]), b, env);
    if "phone" in b { TextType([TenDigits], b["phone"], env); }
  }

  lemma RegisterPassword(b: Body, env: Env)
    ensures FieldProblem(RegisterSchema[3], b, env).None? <==>
      "password" in b && NonEmptyText(b["password"]) && Utf16Length(b["password"].s) >= 6
  {
    RequiredKey("password", Text([MinLength(6)]), b, env);
    if "password" in b { TextType([MinLength(6)], b["password"], env); }
  }

  lemma RegisterRole(b: Body, env: Env)
    ensures FieldProblem(RegisterSchema[4], b, env).None? <==>
      "role" in b && b["role"] in [Str("student"), Str("developer"), Str("admin")]
  {
  }

  lemma RegisterCollege(b: Body, env: Env)
    ensures FieldProblem(RegisterSchema[5], b, env).None? <==> IfPresent(b, "college", ShortText)
  {
    OptionalKey("college", Text([MaxLength(255)]), b, env);
    if "college" in b { TextType([MaxLength(255)], b["college"], env); }
  }

  lemma RegisterDepartment(b: Body, env: Env)
    ensures FieldProblem(RegisterSchema[6], b, env).None? <==> IfPresent(b, "department", ShortText)
  {
    OptionalKey("department", Text([MaxLength(255)]), b, env);
    if "department" in b { TextType([MaxLength(255)], b["department"], env); }
  }

  lemma RegisterYearOfStudy(b: Body, env: Env)
    ensures FieldProblem(RegisterSchema[7], b, env).None? <==>
      ("yearOfStudy" in b ==> YearOfStudy(b["yearOfStudy"], env))
  {
    OptionalKey("yearOfStudy", Number([Integer, AtLeast(1), AtMost(10)]), b, env);
    if "yearOfStudy" in b {
      var rules := [Integer, AtLeast(1), AtMost(10)];
      var v := b["yearOfStudy"];
      NumberType(rules, v, env);
      var n := NumberOf(v, env);
      if n.Some? {
        assert (forall i :: 0 <= i < |rules| ==> NumberRuleProblem(rules[i], n.value).None?) <==>
          NumberRuleProblem(rules[0], n.value).None? && NumberRuleProblem(rules[1], n.value).None?
          && NumberRuleProblem(rules[2], n.value).None?;
      }
    }
  }

  lemma RegisterSkills(b: Body, env: Env)
    ensures FieldProblem(RegisterSchema[8], b, env).None? <==> IfPresent(b, "skills", AnyTextList)
  {
    OptionalKey("skills", TextList(0), b, env);
    if "skills" in b { TextListType(0, b["skills"], env); }
  }

  /** The register schema accepts exactly the bodies described key by key. */
  lemma RegisterSchemaMeaning(b: Body, env: Env)
    ensures Passes(RegisterSchema, b, env) <==> RegisterBody(b, env)
  {
    RegisterNames();
    PassesNineKeys(RegisterSchema, b, env);
    RegisterName(b, env);
    RegisterEmail(b, env);
    RegisterPhone(b, env);
    RegisterPassword(b, env);
    RegisterRole(b, env);
    RegisterCollege(b, env);
    RegisterDepartment(b, env);
    RegisterYearOfStudy(b, env);
    RegisterSkills(b, env);
  }

  // ------------------------------------------------- the other schemas

  /** A schema of `n` keys, for small `n`, passes exactly when each key is
      fine and the body has no other key. */
  lemma PassesTwoKeys(s: Schema, body: Body, env: Env)
    requires |s| == 2
    ensures Passes(s, body, env) <==>
      FieldProblem(s[0], body, env).None? && FieldProblem(s[1], body, env).None? && body.Keys <= Names(s)
  {
    PassesByKey(s, body, env);
  }

  lemma PassesThreeKeys(s: Schema, body: Body, env: Env)
    requires |s| == 3
    ensures Passes(s, body, env) <==>
      FieldProblem(s[0], body, env).None? && FieldProblem(s[1], body, env).None?
      && FieldProblem(s[2], body, env).None? && body.Keys <= Names(s)
  {
    PassesByKey(s, body, env);
  }

  lemma PassesFourKeys(s: Schema, body: Body, env: Env)
    requires |s| == 4
    ensures Passes(s, body, env) <==>
      FieldProblem(s[0], body, env).None? && FieldProblem(s[1], body, env).None?
      && FieldProblem(s[2], body, env).None? && FieldProblem(s[3], body, env).None?
      && body.Keys <= Names(s)
  {
    PassesByKey(s, body, env);
  }

  lemma PassesFiveKeys(s: Schema, body: Body, env: Env)
    requires |s| == 5
    ensures Passes(s, body, env) <==>
      FieldProblem(s[0], body, env).None? && FieldProblem(s[1], body, env).None?
      && FieldProblem(s[2], body, env).None? && FieldProblem(s[3], body, env).None?
      && FieldProblem(s[4], body, env).None? && body.Keys <= Names(s)
  {
    PassesByKey(s, body, env);
  }

  /** The instant a deadline names lies after the clock. */
  predicate FutureInstant(v: Value, env: Env) {
    DateOf(v, env).Some? && DateOf(v, env).value > env.now
  }

  predicate PositiveNumber(v: Value, env: Env) { NumberOf(v, env).Some? && NumberOf(v, env).value > 0.0 }

  /** The login schema: an e-mail address and a non-empty password, nothing else. */
  predicate LoginBody(b: Body, env: Env) {
    && b.Keys <= {"email", "password"}
    && "email" in b && NonEmptyText(b["email"]) && env.isEmail(b["email"].s)
    && "password" in b && NonEmptyText(b["password"])
  }

  lemma LoginSchemaMeaning(b: Body, env: Env)
    ensures Passes(LoginSchema, b, env) <==> LoginBody(b, env)
  {
    var s := LoginSchema;
    assert Names(s) == {"email", "password"} by {
      assert s[0].name == "email" && s[1].name == "password";
    }
    PassesTwoKeys(s, b, env);
    RequiredKey("email", Text([EmailAddress]), b, env);
    if "email" in b { TextType([EmailAddress], b["email"], env); }
    RequiredKey("password", Text([]), b, env);
  }

  /** The create-project schema: a title of 5 to 255 characters, a
      description of at least 20, a non-empty list of technology names, a
      positive budget, a deadline after now, and no other key. */
  predicate CreateProjectBody(b: Body, env: Env) {
    && b.Keys <= {"title", "description", "technology", "budget", "deadline"}
    && "title" in b && TextBetween(b["title"], 5, 255)
    && "description" in b && NonEmptyText(b["description"]) && Utf16Length(b["description"].s) >= 20
    && "technology" in b && TextItems(b["technology"], 1)
    && "budget" in b && PositiveNumber(b["budget"], env)
    && "deadline" in b && FutureInstant(b["deadline"], env)
  }

  lemma CreateProjectNames()
    ensures Names(CreateProjectSchema) == {"title", "description", "technology", "budget", "deadline"}
  {
    var s := CreateProjectSchema;
    assert s[0].name == "title" && s[1].name == "description" && s[2].name == "technology";
    assert s[3].name == "budget" && s[4].name == "deadline";
  }

  lemma CreateProjectTitle(b: Body, env: Env)
    ensures FieldProblem(CreateProjectSchema[0], b, env).None? <==> "title" in b && TextBetween(b["title"], 5, 255)
  {
    RequiredKey("title", Text([MinLength(5), MaxLength(255)]), b, env);
    if "title" in b { TextBetweenType(5, 255, b["title"], env); }
  }

  lemma CreateProjectDescription(b: Body, env: Env)
    ensures FieldProblem(CreateProjectSchema[1], b, env).None? <==>
      "description" in b && NonEmptyText(b["description"]) && Utf16Length(b["description"].s) >= 20
  {
    RequiredKey("description", Text([MinLength(20)]), b, env);
    if "description" in b { TextType([MinLength(20)], b["description"], env); }
  }

  lemma CreateProjectTechnology(b: Body, env: Env)
    ensures FieldProblem(CreateProjectSchema[2], b, env).None? <==> "technology" in b && TextItems(b["technology"], 1)
  {
    RequiredKey("technology", TextList(1), b, env);
    if "technology" in b { TextListType(1, b["technology"], env); }
  }

  lemma CreateProjectBudget(b: Body, env: Env)
    ensures FieldProblem(CreateProjectSchema[3], b, env).None? <==> "budget" in b && PositiveNumber(b["budget"], env)
  {
    RequiredKey("budget", Number([Positive]), b, env);
    if "budget" in b { NumberType([Positive], b["budget"], env); }
  }

  lemma CreateProjectDeadline(b: Body, env: Env)
    ensures FieldProblem(CreateProjectSchema[4], b, env).None? <==> "deadline" in b && FutureInstant(b["deadline"], env)
  {
    RequiredKey("deadline", FutureDate, b, env);
  }

  lemma CreateProjectSchemaMeaning(b: Body, env: Env)
    ensures Passes(CreateProjectSchema, b, env) <==> CreateProjectBody(b, env)
  {
    CreateProjectNames();
    PassesFiveKeys(CreateProjectSchema, b, env);
    CreateProjectTitle(b, env);
    CreateProjectDescription(b, env);
    CreateProjectTechnology(b, env);
    CreateProjectBudget(b, env);
    CreateProjectDeadline(b, env);
  }

  predicate PositiveWhole(v: Value, env: Env) {
    NumberOf(v, env).Some? && IsInteger(NumberOf(v, env).value) && NumberOf(v, env).value > 0.0
  }
  predicate ProposalMessage(v: Value) { TextBetween(v, 1, 1000) }

  /** The create-proposal schema: a positive price, a timeline that is a
      positive whole number, a list of technology names if any, a message of
      at most 1000 characters if any, and no other key. */
  predicate CreateProposalBody(b: Body, env: Env) {
    && b.Keys <= {"price", "timeline", "technology", "message"}
    && "price" in b && PositiveNumber(b["price"], env)
    && "timeline" in b && PositiveWhole(b["timeline"], env)
    && IfPresent(b, "technology", AnyTextList)
    && IfPresent(b, "message", ProposalMessage)
  }

  lemma CreateProposalNames()
    ensures Names(CreateProposalSchema) == {"price", "timeline", "technology", "message"}
  {
    var s := CreateProposalSchema;
    assert s[0].name == "price" && s[1].name == "timeline" && s[2].name == "technology" && s[3].name == "message";
  }

  lemma CreateProposalTimeline(b: Body, env: Env)
    ensures FieldProblem(CreateProposalSchema[1], b, env).None? <==> "timeline" in b && PositiveWhole(b["timeline"], env)
  {
    var rules := [Integer, Positive];
    RequiredKey("timeline", Number(rules), b, env);
    if "timeline" in b {
      var v := b["timeline"];
      NumberType(rules, v, env);
      var n := NumberOf(v, env);
      if n.Some? {
        assert (forall i :: 0 <= i < |rules| ==> NumberRuleProblem(rules[i], n.value).None?) <==>
          NumberRuleProblem(rules[0], n.value).None? && NumberRuleProblem(rules[1], n.value).None?;
      }
    }
  }

  lemma CreateProposalSchemaMeaning(b: Body, env: Env)
    ensures Passes(CreateProposalSchema, b, env) <==> CreateProposalBody(b, env)
  {
    CreateProposalNames();
    PassesFourKeys(CreateProposalSchema, b, env);
    RequiredKey("price", Number([Positive]), b, env);
    if "price" in b { NumberType([Positive], b["price"], env); }
    CreateProposalTimeline(b, env);
    OptionalKey("technology", TextList(0), b, env);
    if "technology" in b { TextListType(0, b["technology"], env); }
    OptionalKey("message", Text([MaxLength(1000)]), b, env);
    if "message" in b { TextType([MaxLength(1000)], b["message"], env); }
  }

  /** The create-payment schema: a method among card, upi, netbanking and
      wallet, a type among advance, full and milestone, a milestone
      percentage reading as 20, 50 or 100 if any, and no other key. The percentage
      is optional whatever the type. */
  predicate CreatePaymentBody(b: Body, env: Env) {
    && b.Keys <= {"paymentMethod", "paymentType", "milestonePercentage"}
    && "paymentMethod" in b && b["paymentMethod"] in [Str("card"), Str("upi"), Str("netbanking"), Str("wallet")]
    && "paymentType" in b && b["paymentType"] in [Str("advance"), Str("full"), Str("milestone")]
    && ("milestonePercentage" in b ==>
          NumberOf(b["milestonePercentage"], env) in [Some(20.0), Some(50.0), Some(100.0)])
  }

  lemma CreatePaymentSchemaMeaning(b: Body, env: Env)
    ensures Passes(CreatePaymentSchema, b, env) <==> CreatePaymentBody(b, env)
  {
    var s := CreatePaymentSchema;
    assert Names(s) == {"paymentMethod", "paymentType", "milestonePercentage"} by {
      assert s[0].name == "paymentMethod" && s[1].name == "paymentType" && s[2].name == "milestonePercentage";
    }
    PassesThreeKeys(s, b, env);
  }

  /** A milestone payment without a percentage passes validation, and the
      amount it leads to is JavaScript's NaN. */
  lemma MilestoneWithoutPercentage(env: Env, price: real)
    ensures Passes(CreatePaymentSchema, map["paymentMethod" := Str("upi"), "paymentType" := Str("milestone")], env)
    ensures PaymentService.ChargeAmount(price, Milestone, None).None?
  {
    var b := map["paymentMethod" := Str("upi"), "paymentType" := Str("milestone")];
    assert b.Keys == {"paymentMethod", "paymentType"};
    CreatePaymentSchemaMeaning(b, env);
  }

  /** A percentage sent as text passes: Joi reads `"50"` as 50 before it
      compares it with the allowed values. */
  lemma PercentageAsText(env: Env)
    requires env.numberOf("50") == Some(50.0)
    ensures Passes(CreatePaymentSchema,
      map["paymentMethod" := Str("upi"), "paymentType" := Str("milestone"), "milestonePercentage" := Str("50")], env)
  {
    var b := map["paymentMethod" := Str("upi"), "paymentType" := Str("milestone"), "milestonePercentage" := Str("50")];
    assert b.Keys == {"paymentMethod", "paymentType", "milestonePercentage"};
    CreatePaymentSchemaMeaning(b, env);
  }

  predicate ReviewComment(v: Value) { TextBetween(v, 1, 500) }

  /** The create-review schema: a whole rating from 1 to 5, a comment of at
      most 500 characters if any, and no other key. */
  predicate CreateReviewBody(b: Body, env: Env) {
    && b.Keys <= {"rating", "comment"}
    && "rating" in b && WholeBetween(b["rating"], 1, 5, env)
    && IfPresent(b, "comment", ReviewComment)
  }

  lemma CreateReviewSchemaMeaning(b: Body, env: Env)
    ensures Passes(CreateReviewSchema, b, env) <==> CreateReviewBody(b, env)
  {
    var s := CreateReviewSchema;
    assert Names(s) == {"rating", "comment"} by {
      assert s[0].name == "rating" && s[1].name == "comment";
    }
    PassesTwoKeys(s, b, env);
    var rules := [Integer, AtLeast(1), AtMost(5)];
    RequiredKey("rating", Number(rules), b, env);
    if "rating" in b {
      var v := b["rating"];
      NumberType(rules, v, env);
      var n := NumberOf(v, env);
      if n.Some? {
        assert (forall i :: 0 <= i < |rules| ==> NumberRuleProblem(rules[i], n.value).None?) <==>
          NumberRuleProblem(rules[0], n.value).None? && NumberRuleProblem(rules[1], n.value).None?
          && NumberRuleProblem(rules[2], n.value).None?;
      }
    }
    OptionalKey("comment", Text([MaxLength(500)]), b, env);
    if "comment" in b { TextType([MaxLength(500)], b["comment"], env); }
  }

  /** The withdraw schema: a positive amount, the method bank or upi,
      non-empty account details, and no other key. */
  predicate WithdrawBody(b: Body, env: Env) {
    && b.Keys <= {"amount", "method", "accountDetails"}
    && "amount" in b && PositiveNumber(b["amount"], env)
    && "method" in b && b["method"] in [Str("bank"), Str("upi")]
    && "accountDetails" in b && NonEmptyText(b["accountDetails"])
  }

  lemma WithdrawSchemaMeaning(b: Body, env: Env)
    ensures Passes(WithdrawSchema, b, env) <==> WithdrawBody(b, env)
  {
    var s := WithdrawSchema;
    assert Names(s) == {"amount", "method", "accountDetails"} by {
      assert s[0].name == "amount" && s[1].name == "method" && s[2].name == "accountDetails";
    }
    PassesThreeKeys(s, b, env);
    RequiredKey("amount", Number([Positive]), b, env);
    if "amount" in b { NumberType([Positive], b["amount"], env); }
    RequiredKey("accountDetails", Text([]), b, env);
  }
}
