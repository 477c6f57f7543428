/** The `users` table and the `User` model that reads and writes it:
    normalisation on insert and lookup, the lookups by email, phone, id and
    verification token, token clearing, the profile update allow-list,
    deletion and the pagination arithmetic.  bcrypt's hash and the token
    uuid generates are parameters. */
module UserModel {
  import opened Js

  /** A row of `users`.  `password` holds the bcrypt hash; a cleared
      verification token is `None` (SQL NULL). */
  datatype User = User(
    userId: int,
    fullName: string,
    email: string,
    gender: string,
    phoneNumber: string,
    password: string,
    token: Option<string>,
    emailVerified: bool)

  /** A row with the password column taken out, as `findByUserId` and
      `findByVerificationToken` return it. */
  datatype PublicUser = PublicUser(
    userId: int,
    fullName: string,
    email: string,
    gender: string,
    phoneNumber: string,
    token: Option<string>,
    emailVerified: bool)

  function WithoutPassword(u: User): PublicUser {
    PublicUser(u.userId, u.fullName, u.email, u.gender, u.phoneNumber, u.token, u.emailVerified)
  }

  /** The columns `getUsersPaginated` selects. */
  datatype Summary = Summary(
    userId: int,
    fullName: string,
    email: string,
    gender: string,
    phoneNumber: string,
    emailVerified: bool)

  /** The `userData` given to `insert`; "" stands for a missing or empty field. */
  datatype NewUser = NewUser(
    fullName: string,
    email: string,
    gender: string,
    phoneNumber: string,
    password: string,
    token: string)

  // ---------------------------------------------------------------- failures

  datatype Reason =
    | MissingRequired
    | NotFound
    | NoValidFields
    | Duplicate(value: string, key: string)

  /** What the model's methods throw: each wraps its reason in a prefix
      naming the operation; read paths throw a bare "Database error". */
  datatype UserFailure =
    | CreateFailed(reason: Reason)
    | UpdateFailed(reason: Reason)
    | DeleteFailed(reason: Reason)
    | DatabaseError

  function ReasonText(r: Reason): string {
    match r
    case MissingRequired => "Missing required fields"
    case NotFound => "User not found"
    case NoValidFields => "No valid fields to update"
    case Duplicate(v, k) => "Duplicate entry '" + v + "' for key 'users." + k + "'"
  }

  function Message(e: UserFailure): string {
    match e
    case CreateFailed(r) => "Error creating user: " + ReasonText(r)
    case UpdateFailed(r) => "Error updating user: " + ReasonText(r)
    case DeleteFailed(r) => "Error deleting user: " + ReasonText(r)
    case DatabaseError => "Database error"
  }

  // ---------------------------------------------------------------- normalisation

  /** `email.toLowerCase().trim()` */
  function NormalEmail(email: string): string {
    Trim(Lower(email))
  }

  predicate IsLowered(s: string) {
    forall i :: 0 <= i < |s| ==> LowerChar(s[i]) == s[i]
  }

  lemma LoweredFixed(s: string)
    requires IsLowered(s)
    ensures Lower(s) == s
  {
  }

  /** Every character of `Trim(s)` is a character of `s`. */
  lemma {:induction false} TrimInside(s: string)
    ensures forall i :: 0 <= i < |Trim(s)| ==> exists j :: 0 <= j < |s| && Trim(s)[i] == s[j]
  {
    var b := TrimStart(s);
    var t := TrimEnd(b);
    var m := |s| - |b|;
    assert t == Trim(s) && b == s[m..] && t == b[..|t|];
    forall i | 0 <= i < |t|
      ensures exists j :: 0 <= j < |s| && t[i] == s[j]
    {
      assert t[i] == b[i] && b[i] == s[m + i];
    }
  }

  /** Normalising a normalised email changes nothing. */
  lemma NormalEmailIdempotent(e: string)
    ensures NormalEmail(NormalEmail(e)) == NormalEmail(e)
  {
    var y := Lower(e);
    var t := Trim(y);
    TrimInside(y);
    assert IsLowered(t) by {
      forall i | 0 <= i < |t|
        ensures LowerChar(t[i]) == t[i]
      {
        var j :| 0 <= j < |y| && t[i] == y[j];
        assert y[j] == LowerChar(e[j]);
      }
    }
    LoweredFixed(t);
    TrimIdempotent(y);
  }

  /** Upper-casing an email does not change what it normalises to. */
  lemma NormalEmailIgnoresCase(e: string)
    ensures NormalEmail(Upper(e)) == NormalEmail(e)
  {
    assert Lower(Upper(e)) == Lower(e) by {
      forall i | 0 <= i < |e|
        ensures Lower(Upper(e))[i] == Lower(e)[i]
      {
        assert Upper(e)[i] == UpperChar(e[i]);
      }
    }
  }

  lemma {:induction false} TrimPaddedEnd(s: string, c: char)
    requires IsWhite(c)
    ensures TrimEnd(TrimStart(s + [c])) == TrimEnd(TrimStart(s))
  {
    if s == [] {
      assert s + [c] == [c];
      assert [c][1..] == [];
    } else if IsWhite(s[0]) {
      assert (s + [c])[1..] == s[1..] + [c];
      TrimPaddedEnd(s[1..], c);
    } else {
      assert TrimStart(s + [c]) == s + [c];
      assert (s + [c])[..|s + [c]| - 1] == s;
    }
  }

  /** White space around an email does not change what it normalises to. */
  lemma NormalEmailIgnoresPadding(e: string, c: char, d: char)
    requires IsWhite(c) && IsWhite(d)
    ensures NormalEmail([c] + e + [d]) == NormalEmail(e)
  {
    var l := Lower([c] + e + [d]);
    assert l == [c] + Lower(e) + [d] by {
      assert LowerChar(c) == c && LowerChar(d) == d;
      forall i | 0 <= i < |l|
        ensures l[i] == ([c] + Lower(e) + [d])[i]
      {
        if 0 < i < |l| - 1 {
          assert ([c] + e + [d])[i] == e[i - 1];
        }
      }
    }
    assert l[1..] == Lower(e) + [d];
    TrimPaddedEnd(Lower(e), d);
  }

  // ---------------------------------------------------------------- table

  /** No two rows share an email and no two share a phone number: the
      UNIQUE constraints of the `users` table. */
  ghost predicate UniqueColumns(users: map<int, User>) {
    (forall a, b :: a in users && b in users && users[a].email == users[b].email ==> a == b)
    && (forall a, b :: a in users && b in users && users[a].phoneNumber == users[b].phoneNumber ==> a == b)
  }

  lemma StoreKeepsUnique(users: map<int, User>, id: int, u: User)
    requires UniqueColumns(users) && id !in users
    requires forall k :: k in users ==> users[k].email != u.email && users[k].phoneNumber != u.phoneNumber
    ensures UniqueColumns(users[id := u])
  {
  }

  /** Keys are the rows' ids, below the next AUTO_INCREMENT value, and the
      UNIQUE columns hold. */
  ghost predicate ValidTable(users: map<int, User>, nextId: int) {
    nextId > 0
    && (forall id :: id in users ==> 0 < id < nextId && users[id].userId == id)
    && UniqueColumns(users)
  }

  /** Storing a row under the next id, when it repeats no stored email or
      phone number, keeps the table valid. */
  lemma InsertKeepsValid(users: map<int, User>, nextId: int, u: User)
    requires ValidTable(users, nextId) && u.userId == nextId
    requires forall k :: k in users ==> users[k].email != u.email && users[k].phoneNumber != u.phoneNumber
    ensures ValidTable(users[nextId := u], nextId + 1)
  {
    StoreKeepsUnique(users, nextId, u);
  }

  /** The rows whose email (or, with `byPhone`, phone number) is `v` are
      counted positive exactly when such a row exists. */
  lemma HoldersCount(users: map<int, User>, holders: set<int>, v: string, byPhone: bool)
    requires holders == set id | id in users && (if byPhone then users[id].phoneNumber else users[id].email) == v
    ensures |holders| > 0 <==> exists id :: id in users && (if byPhone then users[id].phoneNumber else users[id].email) == v
  {
    if exists id :: id in users && (if byPhone then users[id].phoneNumber else users[id].email) == v {
      var id :| id in users && (if byPhone then users[id].phoneNumber else users[id].email) == v;
      assert id in holders;
      assert |holders| >= |{id}|;
    }
  }

  class UserTable {
    var users: map<int, User>
    var nextId: int

    ghost predicate Valid()
      reads this
    {
      ValidTable(users, nextId)
    }

    constructor ()
      ensures Valid() && users == map[]
    {
      users := map[];
      nextId := 1;
    }

    predicate EmailTaken(e: string)
      reads this
    {
      exists id :: id in users && users[id].email == e
    }

    predicate PhoneTaken(p: string)
      reads this
    {
      exists id :: id in users && users[id].phoneNumber == p
    }

    /** `emailExists`: whether COUNT(*) of the rows with the normalised email
        is positive; false for a falsy argument. */
    function EmailExists(email: string): (r: bool)
      reads this
      ensures r <==> email != "" && EmailTaken(NormalEmail(email))
    {
      var holders := set id | id in users && users[id].email == NormalEmail(email);
      HoldersCount(users, holders, NormalEmail(email), false);
      email != "" && |holders| > 0
    }

    /** `phoneExists`: the same count over the trimmed phone number. */
    function PhoneExists(phone: string): (r: bool)
      reads this
      ensures r <==> phone != "" && PhoneTaken(Trim(phone))
    {
      var holders := set id | id in users && users[id].phoneNumber == Trim(phone);
      HoldersCount(users, holders, Trim(phone), true);
      phone != "" && |holders| > 0
    }

    /** `findByEmail`: null for a falsy argument, otherwise the row (password
        included) with the normalised email. */
    method FindByEmail(email: string) returns (r: Option<User>)
      requires Valid()
      ensures r.None? <==> !EmailExists(email)
      ensures r.Some? ==> r.value.userId in users && users[r.value.userId] == r.value
                          && r.value.email == NormalEmail(email)
    {
      if email == "" {
        return None;
      }
      var e := NormalEmail(email);
      if exists id :: id in users && users[id].email == e {
        var id :| id in users && users[id].email == e;
        r := Some(users[id]);
      } else {
        r := None;
      }
    }

    /** `findByUserId`: null for a falsy id or an unknown one, otherwise the
        row without its password. */
    function FindByUserId(id: int): (r: Option<PublicUser>)
      reads this
      ensures r.Some? <==> id != 0 && id in users
      ensures r.Some? ==> var u := users[id];
        r.value.userId == u.userId && r.value.fullName == u.fullName && r.value.email == u.email
        && r.value.gender == u.gender && r.value.phoneNumber == u.phoneNumber
        && r.value.token == u.token && r.value.emailVerified == u.emailVerified
    {
      if id == 0 || id !in users then None else Some(WithoutPassword(users[id]))
    }

    /** `findByVerificationToken`: some row holding exactly this token,
        without its password (the SELECT has no ORDER BY). */
    method FindByVerificationToken(token: string) returns (r: Option<PublicUser>)
      ensures r.None? <==> forall id :: id in users ==> users[id].token != Some(token)
      ensures r.Some? ==> r.value.userId in users && r.value.token == Some(token)
                          && r.value == WithoutPassword(users[r.value.userId])
      requires Valid()
    {
      if exists id :: id in users && users[id].token == Some(token) {
        var id :| id in users && users[id].token == Some(token);
        r := Some(WithoutPassword(users[id]));
      } else {
        r := None;
      }
    }

    /** `clearVerificationToken`: the row's token becomes NULL and its email
        verified; the result says whether a row was affected. */
    method ClearVerificationToken(id: int) returns (r: bool)
      requires Valid()
      modifies this
      ensures Valid() && nextId == old(nextId)
      ensures r <==> id in old(users)
      ensures r ==> users == old(users)[id := old(users)[id].(token := None, emailVerified := true)]
      ensures !r ==> users == old(users)
    {
      if id in users {
        users := users[id := users[id].(token := None, emailVerified := true)];
        r := true;
      } else {
        r := false;
      }
    }

    /** The row `insert` stores for `data` under `id`. */
    static function Stored(data: NewUser, id: int, hash: string -> string, uuid: string): (u: User)
      ensures u.userId == id && !u.emailVerified
      ensures u.email == NormalEmail(data.email) && u.fullName == Trim(data.fullName)
      ensures u.gender == Lower(data.gender) && u.phoneNumber == Trim(data.phoneNumber)
      ensures u.password == hash(data.password)
      ensures u.token == Some(if data.token != "" then data.token else uuid)
    {
      User(id, Trim(data.fullName), NormalEmail(data.email), Lower(data.gender),
           Trim(data.phoneNumber), hash(data.password),
           Some(if data.token != "" then data.token else uuid), false)
    }

    /** `insert`: a falsy name, email or password is refused; otherwise the
        normalised row is stored under the next id, unless it would repeat
        a stored email or phone number.  `hash` is bcrypt's hash and
        `uuid` the value uuid would generate. */
    method Insert(data: NewUser, hash: string -> string, uuid: string) returns (r: Result<User, UserFailure>)
      requires Valid()
      modifies this
      ensures Valid()
      ensures (data.fullName == "" || data.email == "" || data.password == "") ==>
        r == Err(CreateFailed(MissingRequired))
      ensures r.Ok? <==> (data.fullName != "" && data.email != "" && data.password != ""
                          && !old(EmailTaken(NormalEmail(data.email))) && !old(PhoneTaken(Trim(data.phoneNumber))))
      ensures r.Ok? ==> r.value == Stored(data, old(nextId), hash, uuid)
                        && users == old(users)[old(nextId) := r.value]
      ensures r.Err? ==> r.error.CreateFailed? && users == old(users)
    {
      if data.fullName == "" || data.email == "" || data.password == "" {
        return Err(CreateFailed(MissingRequired));
      }
      var u := Stored(data, nextId, hash, uuid);
      if EmailTaken(u.email) {
        return Err(CreateFailed(Duplicate(u.email, "email")));
      }
      if PhoneTaken(u.phoneNumber) {
        return Err(CreateFailed(Duplicate(u.phoneNumber, "phone_number")));
      }
      InsertKeepsValid(users, nextId, u);
      users := users[nextId := u];
      nextId := nextId + 1;
      r := Ok(u);
    }

    /** `updateUser`: an unknown user, or a patch naming none of the allowed
        fields, fails; otherwise those fields are written (a phone number
        another row holds is refused by the UNIQUE constraint) and the row is
        returned without its password. */
    method UpdateUser(id: int, data: map<string, string>) returns (r: Result<PublicUser, UserFailure>)
      requires Valid()
      modifies this
      ensures Valid() && nextId == old(nextId)
      ensures (id == 0 || id !in old(users)) ==> r == Err(UpdateFailed(NotFound))
      ensures id != 0 && id in old(users) && DefinedAmong(AllowedFields, data) == [] ==>
        r == Err(UpdateFailed(NoValidFields))
      ensures r.Ok? <==> (id != 0 && id in old(users) && DefinedAmong(AllowedFields, data) != []
                          && !old(PhoneClash(id, data)))
      ensures r.Ok? ==> users == old(users)[id := Patched(old(users)[id], data)]
                        && r.value == WithoutPassword(users[id])
      ensures r.Err? ==> r.error.UpdateFailed? && users == old(users)
    {
      if FindByUserId(id).None? {
        return Err(UpdateFailed(NotFound));
      }
      var fields, values := CollectUpdates(data);
      if |fields| == 0 {
        return Err(UpdateFailed(NoValidFields));
      }
      if PhoneClash(id, data) {
        return Err(UpdateFailed(Duplicate(data["phone_number"], "phone_number")));
      }
      var u := Patched(users[id], data);
      users := users[id := u];
      r := Ok(WithoutPassword(u));
    }

    /** The patch would give row `id` a phone number another row holds. */
    predicate PhoneClash(id: int, data: map<string, string>)
      reads this
    {
      "phone_number" in data
      && exists other :: other in users && other != id && users[other].phoneNumber == data["phone_number"]
    }

    /** `deleteUser`: removes the row; an unknown id fails. */
    method DeleteUser(id: int) returns (r: Result<bool, UserFailure>)
      requires Valid()
      modifies this
      ensures Valid() && nextId == old(nextId)
      ensures r.Ok? <==> id in old(users)
      ensures r.Ok? ==> r.value && users == old(users) - {id}
      ensures r.Err? ==> r == Err(DeleteFailed(NotFound)) && users == old(users)
    {
      if id !in users {
        return Err(DeleteFailed(NotFound));
      }
      users := users - {id};
      r := Ok(true);
    }
  }

  // ---------------------------------------------------------------- update allow-list

  /** The columns `updateUser` may write, in the order it writes them. */
  const AllowedFields: seq<string> := ["full_name", "gender", "phone_number"]

  /** The keys of `keys` that `data` defines, in the order of `keys`. */
  function DefinedAmong(keys: seq<string>, data: map<string, string>): (r: seq<string>)
    ensures forall k :: k in r <==> k in keys && k in data
    ensures |r| <= |keys|
  {
    if keys == [] then []
    else
      var last := keys[|keys| - 1];
      DefinedAmong(keys[..|keys| - 1], data) + (if last in data then [last] else [])
  }

  /** The `forEach` over the allow-list: one assignment per defined field,
      field names and bound values side by side. */
  method CollectUpdates(data: map<string, string>) returns (fields: seq<string>, values: seq<string>)
    ensures fields == DefinedAmong(AllowedFields, data)
    ensures |values| == |fields|
    ensures forall i :: 0 <= i < |fields| ==> fields[i] in data && values[i] == data[fields[i]]
  {
    fields, values := [], [];
    for i := 0 to |AllowedFields|
      invariant fields == DefinedAmong(AllowedFields[..i], data)
      invariant |values| == |fields|
      invariant forall k :: 0 <= k < |fields| ==> fields[k] in data && values[k] == data[fields[k]]
    {
      var field := AllowedFields[i];
      assert AllowedFields[..i + 1][..i] == AllowedFields[..i];
      if field in data {
        fields := fields + [field];
        values := values + [data[field]];
      }
    }
    assert AllowedFields[..|AllowedFields|] == AllowedFields;
  }

  /** The row after the UPDATE: each allowed field the patch defines takes
      its value. */
  function Patched(u: User, data: map<string, string>): (v: User)
    ensures v.userId == u.userId && v.email == u.email && v.password == u.password
    ensures v.token == u.token && v.emailVerified == u.emailVerified
  {
    u.(fullName := if "full_name" in data then data["full_name"] else u.fullName,
       gender := if "gender" in data then data["gender"] else u.gender,
       phoneNumber := if "phone_number" in data then data["phone_number"] else u.phoneNumber)
  }

  /** A column the patch names is written with the patch's value, and a
      column it does not name keeps its value. */
  lemma PatchedWritesAllowedFields(u: User, data: map<string, string>)
    ensures "full_name" in data ==> Patched(u, data).fullName == data["full_name"]
    ensures "full_name" !in data ==> Patched(u, data).fullName == u.fullName
    ensures "gender" in data ==> Patched(u, data).gender == data["gender"]
    ensures "gender" !in data ==> Patched(u, data).gender == u.gender
    ensures "phone_number" in data ==> Patched(u, data).phoneNumber == data["phone_number"]
    ensures "phone_number" !in data ==> Patched(u, data).phoneNumber == u.phoneNumber
  {
  }

  // ---------------------------------------------------------------- pagination

  /** `Math.ceil(total / limit)` for a non-negative limit: a whole number of
      pages, Infinity (0 rows per page, some rows) or NaN (0 / 0). */
  datatype PageCount = Pages(n: nat) | Infinity | NotANumber

  datatype Pagination = Pagination(page: int, limit: int, total: nat, totalPages: PageCount)

  datatype UsersPage = UsersPage(users: seq<Summary>, pagination: Pagination)

  /** `(page - 1) * limit` */
  function Offset(page: int, limit: int): int {
    (page - 1) * limit
  }

  /** `Math.ceil(total / limit)`; only reached once the LIMIT query has
      accepted `limit`, so `limit` is non-negative. */
  function TotalPages(total: nat, limit: int): (r: PageCount)
    requires limit >= 0
    ensures limit > 0 ==> r.Pages? && r.n * limit >= total && (r.n == 0 || (r.n - 1) * limit < total)
    ensures limit == 0 ==> (r == Infinity <==> total > 0) && (r == NotANumber <==> total == 0)
  {
    if limit == 0 then (if total > 0 then Infinity else NotANumber)
    else
      var n := (total + limit - 1) / limit;
      assert n * limit <= total + limit - 1 < (n + 1) * limit;
      Pages(n)
  }

  function Min(a: int, b: int): int { if a < b then a else b }

  /** `getUsersPaginated`: `ordered` is the table in `created_at DESC` order.
      A negative LIMIT or OFFSET makes the query fail. */
  function UsersPaginated(ordered: seq<Summary>, page: int, limit: int): (r: Result<UsersPage, UserFailure>)
    ensures r.Err? <==> limit < 0 || Offset(page, limit) < 0
    ensures r.Err? ==> r.error == DatabaseError
    ensures r.Ok? ==> r.value.pagination == Pagination(page, limit, |ordered|, TotalPages(|ordered|, limit))
    ensures r.Ok? ==> |r.value.users| <= limit && 0 <= Offset(page, limit)
    ensures r.Ok? && |r.value.users| > 0 ==> Offset(page, limit) + |r.value.users| <= |ordered|
    ensures r.Ok? ==> forall k :: 0 <= k < |r.value.users| ==> r.value.users[k] == ordered[Offset(page, limit) + k]
    ensures r.Ok? && Offset(page, limit) + limit <= |ordered| ==> |r.value.users| == limit
    ensures r.Ok? && Offset(page, limit) + limit > |ordered| ==>
      |r.value.users| == (if Offset(page, limit) < |ordered| then |ordered| - Offset(page, limit) else 0)
  {
    var offset := Offset(page, limit);
    if limit < 0 || offset < 0 then Err(DatabaseError)
    else
      var lo := Min(offset, |ordered|);
      var hi := Min(offset + limit, |ordered|);
      Ok(UsersPage(ordered[lo..hi], Pagination(page, limit, |ordered|, TotalPages(|ordered|, limit))))
  }

  /** `getUsersPaginated` with its default arguments: a page left out is 1
      and a limit left out is 10, so a bare call gives the first ten rows. */
  function UsersPaginatedDefaults(ordered: seq<Summary>, page: Option<int>, limit: Option<int>)
    : (r: Result<UsersPage, UserFailure>)
    ensures page.None? && limit.None? ==>
      r.Ok? && r.value.users == ordered[..Min(10, |ordered|)]
      && r.value.pagination.page == 1 && r.value.pagination.limit == 10
    ensures page.Some? && limit.Some? ==> r == UsersPaginated(ordered, page.value, limit.value)
  {
    var p := if page.Some? then page.value else 1;
    var l := if limit.Some? then limit.value else 10;
    assert page.None? ==> Offset(p, l) == 0;
    UsersPaginated(ordered, p, l)
  }

  lemma DivBounds(i: nat, limit: int)
    requires limit > 0
    ensures (i / limit) * limit <= i < (i / limit + 1) * limit
  {
  }

  lemma MulMonotone(a: int, b: int, limit: int)
    requires a <= b && limit > 0
    ensures a * limit <= b * limit
  {
    assert b * limit - a * limit == (b - a) * limit;
  }

  /** The window of page `i / limit + 1` holds row `i`. */
  lemma PageOfRow(limit: int, i: nat)
    requires limit > 0
    ensures Offset(i / limit + 1, limit) <= i < Offset(i / limit + 1, limit) + limit
  {
    DivBounds(i, limit);
    assert Offset(i / limit + 1, limit) == (i / limit) * limit;
    assert (i / limit) * limit + limit == (i / limit + 1) * limit;
  }

  /** No other page's window holds row `i`. */
  lemma OnlyPageOfRow(limit: int, i: nat, page: int)
    requires limit > 0
    requires Offset(page, limit) <= i < Offset(page, limit) + limit
    ensures page == i / limit + 1
  {
    var p := i / limit + 1;
    PageOfRow(limit, i);
    assert Offset(page, limit) + limit == page * limit;
    assert Offset(p, limit) + limit == p * limit;
    if page < p {
      MulMonotone(page, p - 1, limit);
    } else if page > p {
      MulMonotone(p, page - 1, limit);
    }
  }

  /** The page whose window holds row `i` shows it at position `i - offset`. */
  lemma PageShowsRow(ordered: seq<Summary>, limit: int, i: nat, p: int)
    requires limit > 0 && i < |ordered|
    requires Offset(p, limit) <= i < Offset(p, limit) + limit
    ensures UsersPaginated(ordered, p, limit).Ok?
    ensures ordered[i] == UsersPaginated(ordered, p, limit).value.users[i - Offset(p, limit)]
  {
    var o := Offset(p, limit);
    var r := UsersPaginated(ordered, p, limit);
    assert r.Ok?;
    assert i - o < |r.value.users|;
  }

  /** That page is within `totalPages`. */
  lemma PageWithinTotal(total: nat, limit: int, i: nat, p: int)
    requires limit > 0 && i < total && p >= 1
    requires Offset(p, limit) <= i
    ensures p <= TotalPages(total, limit).n
  {
    var n := TotalPages(total, limit).n;
    if p > n {
      MulMonotone(n, p - 1, limit);
    }
  }

  /** With a positive limit, row `i` appears on page `i / limit + 1` and on
      no other page, and that page is within `totalPages`. */
  lemma RowOnExactlyOnePage(ordered: seq<Summary>, limit: int, i: nat, page: int)
    requires limit > 0 && i < |ordered|
    ensures var p := i / limit + 1;
      UsersPaginated(ordered, p, limit).Ok?
      && ordered[i] == UsersPaginated(ordered, p, limit).value.users[i - Offset(p, limit)]
      && p <= TotalPages(|ordered|, limit).n
    ensures Offset(page, limit) <= i < Offset(page, limit) + limit <==> page == i / limit + 1
  {
    var p := i / limit + 1;
    RowsPage(ordered, limit, i, p);
    PageUnique(limit, i, p, page);
  }

  lemma RowsPage(ordered: seq<Summary>, limit: int, i: nat, p: int)
    requires limit > 0 && i < |ordered| && p == i / limit + 1
    ensures UsersPaginated(ordered, p, limit).Ok?
    ensures ordered[i] == UsersPaginated(ordered, p, limit).value.users[i - Offset(p, limit)]
    ensures p <= TotalPages(|ordered|, limit).n
  {
    PageOfRow(limit, i);
    PageShowsRow(ordered, limit, i, p);
    PageWithinTotal(|ordered|, limit, i, p);
  }

  lemma PageUnique(limit: int, i: nat, p: int, page: int)
    requires limit > 0 && p == i / limit + 1
    ensures Offset(page, limit) <= i < Offset(page, limit) + limit <==> page == p
  {
    PageOfRow(limit, i);
    if Offset(page, limit) <= i < Offset(page, limit) + limit {
      OnlyPageOfRow(limit, i, page);
    }
  }
}
