/** The sign-up handler of app/api/auth/signup/route.ts. The duplicate check
    reads the `user` table, the insert writes the `adminUser` table: two
    separate tables here. Email syntax (`z.string().email()`) is the
    predicate `isEmail`; `bcrypt.hashSync` is the function `hash`. */
module Signup {
  import opened Wrappers
  import opened JsonValue
  import opened Schema
  import opened Http
  import Auth
  import Rows
  import Decimal

  datatype AdminUser = AdminUser(id: int, email: string, password: string, fullName: string,
                                 phoneNumber: string, dob: string, status: string)

  datatype Tables = Tables(users: seq<Auth.Account>, adminUsers: seq<AdminUser>)

  /** The fields `userSchema` accepts. */
  datatype SignupData = SignupData(email: string, password: string, fullName: string, phoneNumber: string, dob: string)

  /** The body's field `key` holds the string `s`. */
  predicate HasString(body: Json, key: string, s: string) {
    body.JObject? && Lookup(body.fields, key) == Some(JString(s))
  }

  /** `userSchema.safeParse(body)`, reporting the first issue. */
  function ValidateSignup(body: Json, isEmail: string -> bool): (r: Result<SignupData, Issue>)
    ensures r.Success? ==>
              && HasString(body, "email", r.value.email) && isEmail(r.value.email)
              && HasString(body, "password", r.value.password) && |r.value.password| >= 6
              && HasString(body, "fullName", r.value.fullName) && |r.value.fullName| >= 1
              && HasString(body, "phoneNumber", r.value.phoneNumber) && |r.value.phoneNumber| == 10
              && HasString(body, "dob", r.value.dob)
  {
    var fields :- ExpectObject([], Some(body));
    var email :- ExpectString([Key("email")], Lookup(fields, "email"));
    var email :- Refine([Key("email")], email, isEmail(email), "Invalid email");
    var password :- ExpectString([Key("password")], Lookup(fields, "password"));
    var password :- MinLength([Key("password")], password, 6);
    var fullName :- ExpectString([Key("fullName")], Lookup(fields, "fullName"));
    var fullName :- MinLength([Key("fullName")], fullName, 1);
    var phoneNumber :- ExpectString([Key("phoneNumber")], Lookup(fields, "phoneNumber"));
    var phoneNumber :- MinLength([Key("phoneNumber")], phoneNumber, 10);
    var phoneNumber :- MaxLength([Key("phoneNumber")], phoneNumber, 10);
    var dob :- ExpectString([Key("dob")], Lookup(fields, "dob"));
    Success(SignupData(email, password, fullName, phoneNumber, dob))
  }

  /** The JSON object a client sends for `data`. */
  function EncodeSignup(data: SignupData): Json {
    JObject(map[
      "email" := JString(data.email),
      "password" := JString(data.password),
      "fullName" := JString(data.fullName),
      "phoneNumber" := JString(data.phoneNumber),
      "dob" := JString(data.dob)])
  }

  /** Every body `userSchema` describes is accepted, and parses back to its data. */
  lemma ValidateEncodedSignup(data: SignupData, isEmail: string -> bool)
    requires isEmail(data.email) && |data.password| >= 6 && |data.fullName| >= 1 && |data.phoneNumber| == 10
    ensures ValidateSignup(EncodeSignup(data), isEmail) == Success(data)
  {
  }

  const SignedUp: Json := JObject(map["message" := JString("Sign up successfully")])

  /** The `adminUser` row created for `data`: always INACTIVE, password hashed. */
  function NewAdmin(tables: Tables, data: SignupData, hash: string -> string): AdminUser {
    AdminUser(Rows.FreshId(tables.adminUsers, (a: AdminUser) => a.id), data.email, hash(data.password),
              data.fullName, data.phoneNumber, data.dob, "INACTIVE")
  }

  /** `POST(request)`; `body` is `None` when the body is not JSON. */
  function Post(tables: Tables, body: Option<Json>, isEmail: string -> bool, hash: string -> string): (r: (Response, Tables))
    ensures r.0.status in {201, 400, 500}
    ensures r.0.status != 201 ==> r.1 == tables
    ensures r.0.status == 201 ==>
              && r.1.users == tables.users
              && |r.1.adminUsers| == |tables.adminUsers| + 1
              && r.1.adminUsers[..|tables.adminUsers|] == tables.adminUsers
              && r.1.adminUsers[|tables.adminUsers|].status == "INACTIVE"
  {
    if body.None? then (ErrorResponse("Failed to sign up", 500), tables)
    else match ValidateSignup(body.value, isEmail)
      case Failure(issue) => (ErrorResponse(Report(issue), 400), tables)
      case Success(data) =>
        if Auth.FindByEmail(tables.users, data.email).Some? then (ErrorResponse("User already exists", 400), tables)
        else (JsonResponse(SignedUp, 201), tables.(adminUsers := tables.adminUsers + [NewAdmin(tables, data, hash)]))
  }

  /** A password shorter than six characters is refused with 400 and nothing is written. */
  lemma ShortPasswordRejected(tables: Tables, body: Json, password: string, isEmail: string -> bool, hash: string -> string)
    requires HasString(body, "password", password) && |password| < 6
    ensures Post(tables, Some(body), isEmail, hash).1 == tables
    ensures Post(tables, Some(body), isEmail, hash).0.status == 400
  {
  }

  /** A phone number whose length is not exactly ten is refused with 400 and nothing is written. */
  lemma PhoneLengthRejected(tables: Tables, body: Json, phone: string, isEmail: string -> bool, hash: string -> string)
    requires HasString(body, "phoneNumber", phone) && |phone| != 10
    ensures Post(tables, Some(body), isEmail, hash).1 == tables
    ensures Post(tables, Some(body), isEmail, hash).0.status == 400
  {
  }

  /** With a valid email and password, an empty full name is the issue reported,
      and only that one. */
  lemma EmptyFullNameReported(tables: Tables, data: SignupData, isEmail: string -> bool, hash: string -> string)
    requires isEmail(data.email) && |data.password| >= 6 && data.fullName == ""
    ensures Post(tables, Some(EncodeSignup(data)), isEmail, hash)
            == (ErrorResponse("fullName: " + "String must contain at least 1 character(s)", 400), tables)
  {
    var issue := Issue([Key("fullName")], "String must contain at least 1 character(s)");
    assert Decimal.NatToString(1) == "1";
    assert MinLength([Key("fullName")], "", 1).error.message == "String must contain at least 1 character(s)";
    assert MinLength([Key("fullName")], "", 1) == Failure(issue);
    assert ValidateSignup(EncodeSignup(data), isEmail) == Failure(issue);
    assert PathString([Key("fullName")]) == "fullName";
    assert Report(issue) == "fullName" + ": " + "String must contain at least 1 character(s)";
    assert "fullName" + ": " == "fullName: ";
  }

  /** An email already in the `user` table is refused and nothing is written. */
  lemma ExistingUserRejected(tables: Tables, data: SignupData, isEmail: string -> bool, hash: string -> string, i: nat)
    requires isEmail(data.email) && |data.password| >= 6 && |data.fullName| >= 1 && |data.phoneNumber| == 10
    requires i < |tables.users| && tables.users[i].email == data.email
    ensures Post(tables, Some(EncodeSignup(data)), isEmail, hash)
            == (ErrorResponse("User already exists", 400), tables)
  {
    ValidateEncodedSignup(data, isEmail);
  }

  /** A valid sign-up whose email is not in the `user` table adds exactly one
      INACTIVE `adminUser` row with the hashed password, and answers 201 --
      even when the email is already in the `adminUser` table. */
  lemma SignupCreatesInactiveAdmin(tables: Tables, data: SignupData, isEmail: string -> bool, hash: string -> string)
    requires isEmail(data.email) && |data.password| >= 6 && |data.fullName| >= 1 && |data.phoneNumber| == 10
    requires forall i :: 0 <= i < |tables.users| ==> tables.users[i].email != data.email
    ensures var r := Post(tables, Some(EncodeSignup(data)), isEmail, hash);
            && r.0.status == 201
            && r.1.users == tables.users
            && (exists id :: r.1.adminUsers == tables.adminUsers
                  + [AdminUser(id, data.email, hash(data.password), data.fullName, data.phoneNumber, data.dob, "INACTIVE")])
            && forall j :: 0 <= j < |tables.adminUsers| ==> tables.adminUsers[j].id != r.1.adminUsers[|tables.adminUsers|].id
  {
    ValidateEncodedSignup(data, isEmail);
  }

  /** No two `adminUser` rows share an email. */
  predicate UniqueAdminEmails(admins: seq<AdminUser>) {
    forall i, j :: 0 <= i < j < |admins| ==> admins[i].email != admins[j].email
  }

  /** Signing up twice with the same email, when that email is not in the `user`
      table, succeeds both times and leaves two `adminUser` rows with it. */
  lemma RepeatedSignupDuplicatesAdmin(tables: Tables, data: SignupData, isEmail: string -> bool, hash: string -> string)
    requires isEmail(data.email) && |data.password| >= 6 && |data.fullName| >= 1 && |data.phoneNumber| == 10
    requires forall i :: 0 <= i < |tables.users| ==> tables.users[i].email != data.email
    ensures var once := Post(tables, Some(EncodeSignup(data)), isEmail, hash);
            var twice := Post(once.1, Some(EncodeSignup(data)), isEmail, hash);
            && once.0.status == 201 && twice.0.status == 201
            && !UniqueAdminEmails(twice.1.adminUsers)
  {
    SignupCreatesInactiveAdmin(tables, data, isEmail, hash);
    var once := Post(tables, Some(EncodeSignup(data)), isEmail, hash);
    SignupCreatesInactiveAdmin(once.1, data, isEmail, hash);
    var twice := Post(once.1, Some(EncodeSignup(data)), isEmail, hash);
    var n := |tables.adminUsers|;
    assert twice.1.adminUsers[n] == once.1.adminUsers[n];
    assert twice.1.adminUsers[n].email == data.email && twice.1.adminUsers[n + 1].email == data.email;
  }

  /** The sign-up with the duplicate check reading the table it inserts into. */
  function PostChecked(tables: Tables, body: Option<Json>, isEmail: string -> bool, hash: string -> string): (r: (Response, Tables))
    ensures r.0.status != 201 ==> r.1 == tables
  {
    if body.None? then (ErrorResponse("Failed to sign up", 500), tables)
    else match ValidateSignup(body.value, isEmail)
      case Failure(issue) => (ErrorResponse(Report(issue), 400), tables)
      case Success(data) =>
        if exists i :: 0 <= i < |tables.adminUsers| && tables.adminUsers[i].email == data.email then
          (ErrorResponse("User already exists", 400), tables)
        else (JsonResponse(SignedUp, 201), tables.(adminUsers := tables.adminUsers + [NewAdmin(tables, data, hash)]))
  }

  /** With the check on `adminUser`, sign-ups keep the admin emails unique. */
  lemma PostCheckedKeepsEmailsUnique(tables: Tables, body: Option<Json>, isEmail: string -> bool, hash: string -> string)
    requires UniqueAdminEmails(tables.adminUsers)
    ensures UniqueAdminEmails(PostChecked(tables, body, isEmail, hash).1.adminUsers)
  {
    var r := PostChecked(tables, body, isEmail, hash);
    if r.0.status == 201 {
      var data := ValidateSignup(body.value, isEmail).value;
      assert r.1.adminUsers == tables.adminUsers + [NewAdmin(tables, data, hash)];
    }
  }
}
