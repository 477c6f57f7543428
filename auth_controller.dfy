/** The authentication controller: `register` (the validation chain, the
    conflict checks, the insert), `verifyEmail` and `login`.  bcrypt's hash
    and compare, jwt's sign and uuid are parameters; the verification mail is
    an outcome that does not reach the response. */
module AuthController {
  import opened Js
  import opened UserModel

  /** The five fields the register and login responses show of a user:
      never the password and never the verification token. */
  datatype Profile = Profile(userId: int, fullName: string, email: string, gender: string, phoneNumber: string)

  function ProfileOf(u: User): Profile {
    Profile(u.userId, u.fullName, u.email, u.gender, u.phoneNumber)
  }

  /** The payload login signs. */
  datatype Claims = Claims(userId: int, email: string, fullName: string)

  /** The `expiresIn` login signs with. */
  const TokenLifetime: string := "24h"

  datatype Body =
    | NoData
    | Registered(data: Profile)
    | LoggedIn(token: string, user: Profile)
    | Failed(error: string)

  datatype Response = Response(status: int, success: bool, message: Notice, body: Body)

  /** The register form fields; "" stands for a missing or empty field. */
  datatype RegisterBody = RegisterBody(
    fullName: string,
    email: string,
    gender: string,
    phoneNumber: string,
    password: string)

  datatype LoginBody = LoginBody(email: string, password: string)

  /** The `message` texts of the responses. */
  datatype Notice =
    | AllFieldsRequired
    | PasswordTooShort
    | GenderInvalid
    | EmailInvalid
    | PhoneInvalid
    | EmailRegistered
    | PhoneRegistered
    | Registration
    | InternalError
    | TokenMissing
    | TokenUnknown
    | EmailVerified
    | CredentialsRequired
    | BadCredentials
    | LoginSucceeded

  function Text(n: Notice): string {
    match n
    case AllFieldsRequired => "Semua field harus diisi (full_name, email, gender, phone_number, password)"
    case PasswordTooShort => "Password minimal 6 karakter"
    case GenderInvalid => "Gender harus male atau female"
    case EmailInvalid => "Format email tidak valid"
    case PhoneInvalid => "Nomor telepon harus berupa angka 10-15 digit"
    case EmailRegistered => "Email sudah terdaftar"
    case PhoneRegistered => "Nomor telepon sudah digunakan"
    case Registration => "User berhasil didaftarkan. Silakan cek email untuk verifikasi."
    case InternalError => "Internal server error"
    case TokenMissing => "Token tidak ditemukan di query"
    case TokenUnknown => "Token tidak valid atau sudah digunakan"
    case EmailVerified => "Email berhasil diverifikasi. Silakan login."
    case CredentialsRequired => "Email dan password harus diisi"
    case BadCredentials => "Email atau password salah"
    case LoginSucceeded => "Login berhasil"
  }

  /** The `error` text of a 500 outside development. */
  const SystemError: string := "Terjadi kesalahan sistem"

  /** The `error` text of register's 500: the only thing `insert` throws for
      admitted data is its missing-field error, shown only in development. */
  function ThrownText(development: bool): string {
    if development then Message(CreateFailed(MissingRequired)) else SystemError
  }


  // ---------------------------------------------------------------- email pattern

  /** `[^\s@]` */
  predicate EmailChar(c: char) {
    !IsWhite(c) && c != '@'
  }

  /** `[^\s@]*` */
  predicate EmailRun(s: string) {
    forall k :: 0 <= k < |s| ==> EmailChar(s[k])
  }

  /** What `/^[^\s@]+@[^\s@]+\.[^\s@]+$/` accepts: three non-empty runs of
      `[^\s@]`, the first two joined by '@' and the last two by '.'. */
  ghost predicate MatchesEmailPattern(s: string) {
    exists i, j :: 0 < i && i + 1 < j && j + 1 < |s| && s[i] == '@' && s[j] == '.'
      && EmailRun(s[..i]) && EmailRun(s[i + 1..j]) && EmailRun(s[j + 1..])
  }

  /** `s.indexOf(c)`, with `|s|` for "not found". */
  function IndexOf(s: string, c: char): (r: nat)
    ensures r <= |s| && c !in s[..r] && (r < |s| ==> s[r] == c)
  {
    if s == [] || s[0] == c then 0
    else
      var k := IndexOf(s[1..], c);
      assert s[..k + 1] == [s[0]] + s[1..][..k];
      1 + k
  }

  /** `indexOf` finds the first occurrence. */
  lemma {:induction false} IndexOfFirst(s: string, c: char, i: nat)
    requires i < |s| && s[i] == c && forall k :: 0 <= k < i ==> s[k] != c
    ensures IndexOf(s, c) == i
  {
    if i > 0 {
      IndexOfFirst(s[1..], c, i - 1);
    }
  }

  /** The test `register` runs: a run before the first '@', and after it a
      run of at least three characters with a '.' neither first nor last. */
  predicate EmailFormat(s: string) {
    var i := IndexOf(s, '@');
    0 < i < |s| && EmailRun(s[..i]) && DomainPart(s[i + 1..])
  }

  /** What may follow the '@': a run of at least three characters with a '.'
      neither first nor last. */
  predicate DomainPart(d: string) {
    EmailRun(d) && |d| >= 3 && '.' in d[1..|d| - 1]
  }

  /** Two non-empty runs joined by a '.' are a domain part. */
  lemma JoinedDomain(a: string, b: string)
    requires EmailRun(a) && EmailRun(b) && a != "" && b != ""
    ensures DomainPart(a + ['.'] + b)
  {
    var d := a + ['.'] + b;
    assert EmailChar('.');
    assert d[1..|d| - 1][|a| - 1] == '.';
  }

  lemma EmailFormatIsPattern(s: string)
    requires EmailFormat(s)
    ensures MatchesEmailPattern(s)
  {
    var i := IndexOf(s, '@');
    var d := s[i + 1..];
    var k :| 0 <= k < |d[1..|d| - 1]| && d[1..|d| - 1][k] == '.';
    var j := i + 2 + k;
    assert s[j] == d[k + 1] == '.';
    assert s[i + 1..j] == d[..k + 1];
    assert s[j + 1..] == d[k + 2..];
  }

  /** The '@' after a run is the first one. */
  lemma FirstAt(s: string, i: nat)
    requires i < |s| && s[i] == '@' && EmailRun(s[..i])
    ensures IndexOf(s, '@') == i
  {
    forall k | 0 <= k < i
      ensures s[k] != '@'
    {
      assert s[k] == s[..i][k];
    }
    IndexOfFirst(s, '@', i);
  }

  /** A match with its '@' at `i` and its '.' at `j` passes the test. */
  lemma MatchPassesFormat(s: string, i: nat, j: nat)
    requires 0 < i && i + 1 < j && j + 1 < |s| && s[i] == '@' && s[j] == '.'
    requires EmailRun(s[..i]) && EmailRun(s[i + 1..j]) && EmailRun(s[j + 1..])
    ensures EmailFormat(s)
  {
    var host, top := s[i + 1..j], s[j + 1..];
    FirstAt(s, i);
    assert s[i + 1..] == host + ['.'] + top;
    JoinedDomain(host, top);
  }

  lemma PatternIsEmailFormat(s: string)
    requires MatchesEmailPattern(s)
    ensures EmailFormat(s)
  {
    var i, j :| 0 < i && i + 1 < j && j + 1 < |s| && s[i] == '@' && s[j] == '.'
      && EmailRun(s[..i]) && EmailRun(s[i + 1..j]) && EmailRun(s[j + 1..]);
    MatchPassesFormat(s, i, j);
  }

  /** The test accepts exactly what the regular expression matches. */
  lemma EmailFormatMatchesPattern(s: string)
    ensures EmailFormat(s) <==> MatchesEmailPattern(s)
  {
    if EmailFormat(s) {
      EmailFormatIsPattern(s);
    }
    if MatchesEmailPattern(s) {
      PatternIsEmailFormat(s);
    }
  }

  // ---------------------------------------------------------------- phone and gender

  /** `/^[0-9]{10,15}$/` */
  predicate PhoneFormat(p: string) {
    10 <= |p| <= 15 && AllDigits(p)
  }

  /** `['male', 'female'].includes(gender.toLowerCase())` */
  predicate GenderAccepted(g: string) {
    Lower(g) == "male" || Lower(g) == "female"
  }

  lemma TrimNoWhite(s: string)
    requires forall k :: 0 <= k < |s| ==> !IsWhite(s[k])
    ensures Trim(s) == s
  {
  }

  /** A phone number that passes the test is stored as given. */
  lemma PhoneFormatTrimmed(p: string)
    requires PhoneFormat(p)
    ensures Trim(p) == p
  {
    forall k | 0 <= k < |p|
      ensures !IsWhite(p[k])
    {
      assert IsDigit(p[k]);
    }
    TrimNoWhite(p);
  }

  lemma LowerCharNotWhite(c: char)
    requires !IsWhite(c)
    ensures !IsWhite(LowerChar(c))
  {
  }

  /** No character of an email that passes the test is white space. */
  lemma EmailFormatNoWhite(e: string)
    requires EmailFormat(e)
    ensures forall k :: 0 <= k < |e| ==> !IsWhite(e[k])
  {
    var i := IndexOf(e, '@');
    forall k | 0 <= k < |e|
      ensures !IsWhite(e[k])
    {
      if k < i {
        assert e[k] == e[..i][k];
      } else if k > i {
        assert e[k] == e[i + 1..][k - i - 1];
      }
    }
  }

  /** An email with no white space is stored lower-cased and otherwise as given. */
  lemma NoWhiteNormal(e: string)
    requires e != "" && forall k :: 0 <= k < |e| ==> !IsWhite(e[k])
    ensures NormalEmail(e) == Lower(e) && NormalEmail(e) != ""
  {
    var l := Lower(e);
    forall k | 0 <= k < |l|
      ensures !IsWhite(l[k])
    {
      LowerCharNotWhite(e[k]);
    }
    TrimNoWhite(l);
  }

  /** What the conflict checks and `insert` see of a body whose email and
      phone number pass the tests: the same normalised email and phone, and a
      stored row with the trimmed name, the lower-cased email and gender and
      the given phone. */
  lemma AdmittedRow(b: RegisterBody, uuid: string, hash: string -> string, id: int)
    requires NormalEmail(b.email) == Lower(b.email) != "" && Trim(b.phoneNumber) == b.phoneNumber
    ensures var a := Admitted(b, uuid);
      NormalEmail(a.email) == NormalEmail(b.email) && Trim(a.phoneNumber) == Trim(b.phoneNumber)
      && UserTable.Stored(a, id, hash, uuid)
         == User(id, Trim(b.fullName), Lower(b.email), Lower(b.gender), b.phoneNumber,
                 hash(b.password), Some(uuid), false)
  {
    NormalEmailIdempotent(b.email);
    TrimIdempotent(b.fullName);
    LowerIdempotent(b.gender);
  }

  // ---------------------------------------------------------------- register

  /** The message of the first validation `register` fails, if any. */
  function RegisterCheck(b: RegisterBody): (r: Option<Notice>)
    ensures r.None? <==> (b.fullName != "" && b.email != "" && b.gender != "" && b.phoneNumber != ""
                          && |b.password| >= 6 && GenderAccepted(b.gender)
                          && MatchesEmailPattern(b.email) && PhoneFormat(b.phoneNumber))
    ensures (b.fullName == "" || b.email == "" || b.gender == "" || b.phoneNumber == "" || b.password == "")
            ==> r == Some(AllFieldsRequired)
    ensures r == Some(PasswordTooShort) <==>
      (b.fullName != "" && b.email != "" && b.gender != "" && b.phoneNumber != "" && b.password != ""
       && |b.password| < 6)
    ensures r.Some? ==> r.value in {AllFieldsRequired, PasswordTooShort, GenderInvalid, EmailInvalid, PhoneInvalid}
  {
    EmailFormatMatchesPattern(b.email);
    if b.fullName == "" || b.email == "" || b.gender == "" || b.phoneNumber == "" || b.password == "" then
      Some(AllFieldsRequired)
    else if |b.password| < 6 then Some(PasswordTooShort)
    else if !GenderAccepted(b.gender) then Some(GenderInvalid)
    else if !EmailFormat(b.email) then Some(EmailInvalid)
    else if !PhoneFormat(b.phoneNumber) then Some(PhoneInvalid)
    else None
  }

  /** A body that passes validation has an email that is stored lower-cased
      and a phone number stored as given. */
  lemma AcceptedBody(b: RegisterBody)
    requires RegisterCheck(b).None?
    ensures NormalEmail(b.email) == Lower(b.email) != "" && Trim(b.phoneNumber) == b.phoneNumber
    ensures b.password != "" && b.phoneNumber != ""
  {
    assert EmailFormat(b.email) && PhoneFormat(b.phoneNumber);
    EmailFormatNoWhite(b.email);
    NoWhiteNormal(b.email);
    PhoneFormatTrimmed(b.phoneNumber);
  }

  /** The `userData` register hands to `insert`. */
  function Admitted(b: RegisterBody, token: string): NewUser {
    NewUser(Trim(b.fullName), NormalEmail(b.email), Lower(b.gender), Trim(b.phoneNumber), b.password, token)
  }

  /** `register`.  `hash` is bcrypt's hash, `uuid` the token uuid generates;
      `mailDelivered` says whether the verification mail went out, which the
      response does not depend on; `development` is NODE_ENV = development,
      which shows the thrown message in a 500. */
  method Register(t: UserTable, b: RegisterBody, hash: string -> string, uuid: string,
                  mailDelivered: bool, development: bool) returns (r: Response)
    requires t.Valid()
    modifies t
    ensures t.Valid()
    ensures r.status in {201, 400, 409, 500} && (r.success <==> r.status == 201)
    ensures RegisterCheck(b).Some? ==> r == Response(400, false, RegisterCheck(b).value, NoData)
    ensures RegisterCheck(b).None? && old(t.EmailExists(b.email)) ==>
      r == Response(409, false, EmailRegistered, NoData)
    ensures RegisterCheck(b).None? && !old(t.EmailExists(b.email)) && old(t.PhoneExists(b.phoneNumber)) ==>
      r == Response(409, false, PhoneRegistered, NoData)
    ensures r.status == 201 <==> (RegisterCheck(b).None? && !old(t.EmailExists(b.email))
                                  && !old(t.PhoneExists(b.phoneNumber)) && Trim(b.fullName) != "")
    ensures r.status == 201 ==>
      var u := User(old(t.nextId), Trim(b.fullName), Lower(b.email), Lower(b.gender), b.phoneNumber,
                    hash(b.password), Some(uuid), false);
      t.users == old(t.users)[old(t.nextId) := u]
      && r == Response(201, true, Registration, Registered(ProfileOf(u)))
    ensures r.status == 500 ==> r.message == InternalError && r.body == Failed(ThrownText(development))
    ensures r.status != 201 ==> t.users == old(t.users)
  {
    var check := RegisterCheck(b);
    if check.Some? {
      return Response(400, false, check.value, NoData);
    }
    if t.EmailExists(b.email) {
      return Response(409, false, EmailRegistered, NoData);
    }
    if t.PhoneExists(b.phoneNumber) {
      return Response(409, false, PhoneRegistered, NoData);
    }
    AcceptedBody(b);
    AdmittedRow(b, uuid, hash, t.nextId);
    r := Enrol(t, b, hash, uuid, development);
  }

  /** The insert at the end of `register`, for admitted data whose email
      and phone number are free. */
  method Enrol(t: UserTable, b: RegisterBody, hash: string -> string, uuid: string, development: bool)
    returns (r: Response)
    requires t.Valid()
    requires Admitted(b, uuid).email != "" && Admitted(b, uuid).password != ""
    requires !t.EmailTaken(NormalEmail(Admitted(b, uuid).email))
    requires !t.PhoneTaken(Trim(Admitted(b, uuid).phoneNumber))
    modifies t
    ensures t.Valid()
    ensures r.status == 201 <==> Admitted(b, uuid).fullName != ""
    ensures r.status == 201 ==>
      var u := UserTable.Stored(Admitted(b, uuid), old(t.nextId), hash, uuid);
      t.users == old(t.users)[old(t.nextId) := u]
      && r == Response(201, true, Registration, Registered(ProfileOf(u)))
    ensures r.status != 201 ==>
      r == Response(500, false, InternalError, Failed(ThrownText(development))) && t.users == old(t.users)
  {
    var inserted := t.Insert(Admitted(b, uuid), hash, uuid);
    match inserted
    case Err(e) =>
      r := Response(500, false, InternalError, Failed(if development then Message(e) else SystemError));
    case Ok(u) =>
      r := Response(201, true, Registration, Registered(ProfileOf(u)));
  }

  /** Register's 500 for a name of blanks: validation asks only that the
      name be non-empty, so a body that passes still passes with the name " ",
      which `register` trims to "" before `insert` refuses it. */
  lemma BlankNamePassesValidation(b: RegisterBody)
    requires RegisterCheck(b).None?
    ensures RegisterCheck(b.(fullName := " ")).None? && Trim(b.(fullName := " ").fullName) == ""
  {
    assert TrimStart(" ") == TrimStart(" "[1..]);
  }

  // ---------------------------------------------------------------- verifyEmail

  /** `verifyEmail`: a missing or unknown token is a 400; otherwise the
      holder's token is cleared, its email marked verified, and 200. */
  method VerifyEmail(t: UserTable, token: string) returns (r: Response)
    requires t.Valid()
    modifies t
    ensures t.Valid()
    ensures token == "" ==> r == Response(400, false, TokenMissing, NoData)
    ensures token != "" && (forall id :: id in old(t.users) ==> old(t.users)[id].token != Some(token)) ==>
      r == Response(400, false, TokenUnknown, NoData)
    ensures r.status == 200 <==> (token != "" && exists id :: id in old(t.users) && old(t.users)[id].token == Some(token))
    ensures r.status == 200 ==>
      (r == Response(200, true, EmailVerified, NoData)
       && exists id :: (id in old(t.users) && old(t.users)[id].token == Some(token)
                        && t.users == old(t.users)[id := old(t.users)[id].(token := None, emailVerified := true)]))
    ensures r.status != 200 ==> t.users == old(t.users)
  {
    if token == "" {
      return Response(400, false, TokenMissing, NoData);
    }
    var user := t.FindByVerificationToken(token);
    if user.None? {
      return Response(400, false, TokenUnknown, NoData);
    }
    var cleared := t.ClearVerificationToken(user.value.userId);
    r := Response(200, true, EmailVerified, NoData);
  }

  // ---------------------------------------------------------------- login

  /** `login`: `compare` is bcrypt's compare of a password with a stored
      hash and `sign` jwt's signature of a payload for `TokenLifetime`.
      An unknown email and a wrong password get the same 401. */
  method Login(t: UserTable, b: LoginBody, compare: (string, string) -> bool, sign: Claims -> string)
    returns (r: Response)
    requires t.Valid()
    ensures b.email == "" || b.password == "" ==> r == Response(400, false, CredentialsRequired, NoData)
    ensures r.status == 401 ==> r == Response(401, false, BadCredentials, NoData)
    ensures r.status == 200 <==> (b.email != "" && b.password != "" && NormalEmail(b.email) != ""
      && exists id :: id in t.users && t.users[id].email == NormalEmail(b.email)
                      && compare(b.password, t.users[id].password))
    ensures r.status == 200 ==>
      exists id :: (id in t.users && t.users[id].email == NormalEmail(b.email)
                    && r == Response(200, true, LoginSucceeded,
                                     LoggedIn(sign(Claims(id, t.users[id].email, t.users[id].fullName)),
                                              ProfileOf(t.users[id]))))
    ensures r.status in {200, 400, 401}
  {
    if b.email == "" || b.password == "" {
      return Response(400, false, CredentialsRequired, NoData);
    }
    NormalEmailIdempotent(b.email);
    var found := t.FindByEmail(NormalEmail(b.email));
    if found.None? {
      return Response(401, false, BadCredentials, NoData);
    }
    var u := found.value;
    if !compare(b.password, u.password) {
      return Response(401, false, BadCredentials, NoData);
    }
    var token := sign(Claims(u.userId, u.email, u.fullName));
    r := Response(200, true, LoginSucceeded, LoggedIn(token, ProfileOf(u)));
  }
}
