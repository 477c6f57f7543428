/** The server's course (kelas) model: the dynamic WHERE-clause builder behind
    `findWithFilters` / `getCountWithFilters`, the ORDER BY allow-list, and the
    `kelas` table with its lookups, insert, update and delete. */
module KelasModel {
  import opened Js

  // ================================================================ failures

  /** The errors thrown by the course model and the course service, one
      constructor per message the source builds. */
  datatype Failure =
    | IdRequired                            // model: 'ID is required'
    | NotFound(id: string)                  // model and service: the id interpolated
    | NoFieldsToUpdate                      // model update with no known column
    | MissingRequired                       // model create with a falsy required field
    | CategoryIdRequired                    // model findByCategory with a falsy id
    | LevelRequired                         // model findByLevel with a falsy level
    | SortOrderNotString                    // TypeError from `sortOrder.toUpperCase()`
    | DuplicateTitle                        // service: title already used
    | FieldsRequired(fields: seq<string>)   // service create: the missing fields, in order
    | TrimNotAFunction(name: string)        // TypeError from `name.trim()` on a non-string
    | SearchFailed                          // service read paths rethrow fixed messages
    | CategoryFailed
    | LevelFailed
    | InstructorFailed

  function JoinComma(xs: seq<string>): string {
    if xs == [] then "" else if |xs| == 1 then xs[0] else xs[0] + ", " + JoinComma(xs[1..])
  }

  /** `error.message`. The phrases the controller searches for are kept as
      literals of their own inside the texts. */
  function Message(e: Failure): string {
    match e
    case IdRequired => "ID is required"
    case NotFound(id) => "Kelas with ID " + id + " " + "not found"
    case NoFieldsToUpdate => "No fields to update"
    case MissingRequired => "Missing required fields: " + "judul, deskripsi, harga, " + "durasi, tutor_id, kategori_id"
    case CategoryIdRequired => "Category ID is required"
    case LevelRequired => "Level is required"
    case SortOrderNotString => "sortOrder.toUpperCase is not a function"
    case DuplicateTitle => "Kelas dengan judul tersebut " + "sudah ada"
    case FieldsRequired(fields) => "Field berikut " + "harus diisi" + ": " + JoinComma(fields)
    case TrimNotAFunction(name) => name + ".trim is not a function"
    case SearchFailed => "Gagal mencari kelas"
    case CategoryFailed => "Gagal mengambil kelas berdasarkan kategori"
    case LevelFailed => "Gagal mengambil kelas berdasarkan level"
    case InstructorFailed => "Gagal mengambil kelas berdasarkan instructor"
  }

  /** The phrases the controller looks for with `error.message.includes(...)`. */
  datatype Phrase = NotFoundPhrase | AlreadyExists | SudahAda | HarusDiisi

  function PhraseText(p: Phrase): string {
    match p
    case NotFoundPhrase => "not found"
    case AlreadyExists => "already exists"
    case SudahAda => "sudah ada"
    case HarusDiisi => "harus diisi"
  }

  /** `error.message.includes(phrase)`. */
  predicate Mentions(e: Failure, p: Phrase) {
    Contains(Message(e), PhraseText(p))
  }

  lemma {:induction false} ContainsPrepend(a: string, s: string, t: string)
    requires Contains(s, t)
    ensures Contains(a + s, t)
  {
    assert (a + s)[|a|..] == s;
    ContainsFromSuffix(a + s, |a|, t);
  }

  lemma {:induction false} ContainsAppend(s: string, c: string, t: string)
    requires Contains(s, t)
    ensures Contains(s + c, t)
    decreases |s|
  {
    if IsPrefix(t, s) {
      assert (s + c)[..|t|] == s[..|t|];
    } else {
      assert (s + c)[1..] == s[1..] + c;
      ContainsAppend(s[1..], c, t);
    }
  }

  /** A text lacking one of the characters of `t` does not contain `t`. */
  lemma {:induction false} AbsentChar(s: string, t: string, i: nat)
    requires i < |t| && t[i] !in s
    ensures !Contains(s, t)
    decreases |s|
  {
    assert !IsPrefix(t, s) by {
      if |t| <= |s| {
        assert s[..|t|][i] == s[i];
      }
    }
    if |s| > 0 {
      AbsentChar(s[1..], t, i);
    }
  }

  /** The characters `x` and `y` stand next to each other somewhere in `s`. */
  predicate Adjacent(s: string, x: char, y: char) {
    exists i :: 0 <= i < |s| - 1 && s[i] == x && s[i + 1] == y
  }

  /** A text in which two neighbouring characters of `t` never stand together
      does not contain `t`. */
  lemma {:induction false} AbsentPair(s: string, t: string, j: nat)
    requires j + 1 < |t| && !Adjacent(s, t[j], t[j + 1])
    ensures !Contains(s, t)
    decreases |s|
  {
    assert !IsPrefix(t, s) by {
      if |t| <= |s| {
        assert s[..|t|][j] == s[j] && s[..|t|][j + 1] == s[j + 1];
      }
    }
    if |s| > 0 {
      assert !Adjacent(s[1..], t[j], t[j + 1]) by {
        forall i | 0 <= i < |s[1..]| - 1
          ensures !(s[1..][i] == t[j] && s[1..][i + 1] == t[j + 1])
        {
          assert s[1..][i] == s[i + 1] && s[1..][i + 1] == s[i + 2];
        }
      }
      AbsentPair(s[1..], t, j);
    }
  }

  /** A pair is absent from a concatenation when it is absent from both parts
      and does not straddle the seam. */
  lemma AdjacentAppend(a: string, b: string, x: char, y: char)
    requires !Adjacent(a, x, y) && !Adjacent(b, x, y)
    requires a == [] || b == [] || a[|a| - 1] != x || b[0] != y
    ensures !Adjacent(a + b, x, y)
  {
    var s := a + b;
    forall i | 0 <= i < |s| - 1
      ensures !(s[i] == x && s[i + 1] == y)
    {
      if i + 1 < |a| {
        assert s[i] == a[i] && s[i + 1] == a[i + 1];
      } else if i >= |a| {
        assert s[i] == b[i - |a|] && s[i + 1] == b[i - |a| + 1];
      } else {
        assert s[i] == a[|a| - 1] && s[i + 1] == b[0];
      }
    }
  }

  /** An id that cannot be found always yields a 'not found' message. */
  lemma NotFoundMentions(id: string)
    ensures Mentions(NotFound(id), NotFoundPhrase)
  {
    ContainsSuffix("Kelas with ID " + id + " ", "not found");
  }

  /** The duplicate-title message says 'sudah ada' and none of the other phrases. */
  lemma DuplicateTitleMentions(p: Phrase)
    ensures Mentions(DuplicateTitle, p) <==> p == SudahAda
  {
    match p
    case SudahAda => ContainsSuffix("Kelas dengan judul tersebut ", "sudah ada");
    case NotFoundPhrase => DuplicateTitleLacksO();
    case AlreadyExists => DuplicateTitleLacksY();
    case HarusDiisi => DuplicateTitleLacksI();
  }

  lemma DuplicateTitleLacksO() ensures !Mentions(DuplicateTitle, NotFoundPhrase) {
    AbsentChar(Message(DuplicateTitle), "not found", 1);
  }

  lemma DuplicateTitleLacksY() ensures !Mentions(DuplicateTitle, AlreadyExists) {
    AbsentChar(Message(DuplicateTitle), "already exists", 6);
  }

  lemma DuplicateTitleLacksI() ensures !Mentions(DuplicateTitle, HarusDiisi) {
    AbsentChar(Message(DuplicateTitle), "harus diisi", 7);
  }

  /** Every service-required-fields message says 'harus diisi'. */
  lemma FieldsRequiredMentions(fields: seq<string>)
    ensures Mentions(FieldsRequired(fields), HarusDiisi)
  {
    ContainsInfix("Field berikut ", "harus diisi", ": " + JoinComma(fields));
    assert Message(FieldsRequired(fields)) == "Field berikut " + "harus diisi" + (": " + JoinComma(fields));
  }

  /** The model's missing-field message contains none of the phrases. */
  lemma MissingRequiredMentions(p: Phrase)
    ensures !Mentions(MissingRequired, p)
  {
    match p
    case NotFoundPhrase => MissingRequiredLacksNo();
    case AlreadyExists => MissingRequiredLacksY();
    case SudahAda => MissingRequiredLacksSu();
    case HarusDiisi => MissingRequiredLacksRu();
  }

  lemma MissingRequiredLacksY() ensures !Mentions(MissingRequired, AlreadyExists) {
    AbsentChar(Message(MissingRequired), "already exists", 6);
  }

  /* The message is built from three pieces; for each remaining phrase, two
     neighbouring letters of it stand together in none of the pieces, and no
     seam between the pieces forms them. */

  lemma MissingRequiredLacksNo() ensures !Mentions(MissingRequired, NotFoundPhrase) {
    var a, b, c := "Missing required fields: ", "judul, deskripsi, harga, ", "durasi, tutor_id, kategori_id";
    assert !Adjacent(a, 'n', 'o') && !Adjacent(b, 'n', 'o') && !Adjacent(c, 'n', 'o');
    AdjacentAppend(a, b, 'n', 'o');
    AdjacentAppend(a + b, c, 'n', 'o');
    AbsentPair(a + b + c, "not found", 0);
  }

  lemma MissingRequiredLacksSu() ensures !Mentions(MissingRequired, SudahAda) {
    var a, b, c := "Missing required fields: ", "judul, deskripsi, harga, ", "durasi, tutor_id, kategori_id";
    assert !Adjacent(a, 's', 'u') && !Adjacent(b, 's', 'u') && !Adjacent(c, 's', 'u');
    AdjacentAppend(a, b, 's', 'u');
    AdjacentAppend(a + b, c, 's', 'u');
    AbsentPair(a + b + c, "sudah ada", 0);
  }

  lemma MissingRequiredLacksRu() ensures !Mentions(MissingRequired, HarusDiisi) {
    var a, b, c := "Missing required fields: ", "judul, deskripsi, harga, ", "durasi, tutor_id, kategori_id";
    assert !Adjacent(a, 'r', 'u') && !Adjacent(b, 'r', 'u') && !Adjacent(c, 'r', 'u');
    AdjacentAppend(a, b, 'r', 'u');
    AdjacentAppend(a + b, c, 'r', 'u');
    AbsentPair(a + b + c, "harus diisi", 2);
  }

  /** 'No fields to update' contains none of the phrases. */
  lemma NoFieldsToUpdateMentions(p: Phrase)
    ensures !Mentions(NoFieldsToUpdate, p)
  {
    match p
    case NotFoundPhrase => NoFieldsToUpdateLacksN();
    case AlreadyExists => NoFieldsToUpdateLacksY();
    case SudahAda => NoFieldsToUpdateLacksH(SudahAda, 4);
    case HarusDiisi => NoFieldsToUpdateLacksH(HarusDiisi, 0);
  }

  lemma NoFieldsToUpdateLacksN() ensures !Mentions(NoFieldsToUpdate, NotFoundPhrase) {
    AbsentChar(Message(NoFieldsToUpdate), "not found", 0);
  }

  lemma NoFieldsToUpdateLacksY() ensures !Mentions(NoFieldsToUpdate, AlreadyExists) {
    AbsentChar(Message(NoFieldsToUpdate), "already exists", 6);
  }

  lemma NoFieldsToUpdateLacksH(p: Phrase, i: nat)
    requires i < |PhraseText(p)| && PhraseText(p)[i] == 'h'
    ensures !Mentions(NoFieldsToUpdate, p)
  {
    AbsentChar(Message(NoFieldsToUpdate), PhraseText(p), i);
  }

  /** 'ID is required' contains none of the phrases. */
  lemma IdRequiredMentions(p: Phrase)
    ensures !Mentions(IdRequired, p)
  {
    match p
    case NotFoundPhrase => IdRequiredLacksO();
    case AlreadyExists => IdRequiredLacksY();
    case SudahAda => IdRequiredLacksH(SudahAda, 4);
    case HarusDiisi => IdRequiredLacksH(HarusDiisi, 0);
  }

  lemma IdRequiredLacksO() ensures !Mentions(IdRequired, NotFoundPhrase) {
    AbsentChar(Message(IdRequired), "not found", 1);
  }

  lemma IdRequiredLacksY() ensures !Mentions(IdRequired, AlreadyExists) {
    AbsentChar(Message(IdRequired), "already exists", 6);
  }

  lemma IdRequiredLacksH(p: Phrase, i: nat)
    requires i < |PhraseText(p)| && PhraseText(p)[i] == 'h'
    ensures !Mentions(IdRequired, p)
  {
    AbsentChar(Message(IdRequired), PhraseText(p), i);
  }

  // ================================================================ the filter query builder

  /** The predicates `findWithFilters` can emit, named by what they test. */
  datatype Clause =
    | CategoryIs        // k.kategori_id = ?
    | InstructorLike    // t.nama_tutor LIKE ?
    | SearchLike        // (k.judul LIKE ? OR k.deskripsi LIKE ? OR t.nama_tutor LIKE ?)
    | PriceAtLeast      // k.harga >= ?
    | PriceAtMost       // k.harga <= ?
    | RatingAtLeast     // k.rating >= ?

  /** The order in which the builder tests the filters. */
  const ClauseOrder: seq<Clause> :=
    [CategoryIs, InstructorLike, SearchLike, PriceAtLeast, PriceAtMost, RatingAtLeast]

  function Rank(c: Clause): nat {
    match c
    case CategoryIs => 0
    case InstructorLike => 1
    case SearchLike => 2
    case PriceAtLeast => 3
    case PriceAtMost => 4
    case RatingAtLeast => 5
  }

  /** The filter key a clause is driven by. */
  function FilterKey(c: Clause): string {
    match c
    case CategoryIs => "category"
    case InstructorLike => "instructor"
    case SearchLike => "search"
    case PriceAtLeast => "minPrice"
    case PriceAtMost => "maxPrice"
    case RatingAtLeast => "minRating"
  }

  /** The number of `?` placeholders in a clause. */
  function Placeholders(c: Clause): nat {
    if c == SearchLike then 3 else 1
  }

  /** A bound query parameter: a filter value as given, the LIKE pattern
      `%v%` around one, or a `parseInt` result for LIMIT / OFFSET (None is NaN). */
  datatype Param = Value(v: JsVal) | Pattern(v: JsVal) | PageInt(n: Option<int>)

  /** `if (filters[key])`: a clause is emitted exactly for a truthy filter value. */
  predicate Active(filters: Object, c: Clause) {
    Truthy(Get(filters, FilterKey(c)))
  }

  /** The parameters a clause binds, in placeholder order. */
  function ClauseParams(filters: Object, c: Clause): seq<Param> {
    var v := Get(filters, FilterKey(c));
    match c
    case SearchLike => [Pattern(v), Pattern(v), Pattern(v)]
    case InstructorLike => [Pattern(v)]
    case _ => [Value(v)]
  }

  function ActiveAmong(filters: Object, cs: seq<Clause>): seq<Clause> {
    if cs == [] then []
    else Keep(filters, cs[0]) + ActiveAmong(filters, cs[1..])
  }

  /** The clause list of a filter object: the active clauses in the fixed order. */
  function Where(filters: Object): seq<Clause> {
    ActiveAmong(filters, ClauseOrder)
  }

  /** The parameters bound by a clause list, clause by clause. */
  function Bind(filters: Object, cs: seq<Clause>): seq<Param> {
    if cs == [] then [] else ClauseParams(filters, cs[0]) + Bind(filters, cs[1..])
  }

  function TotalPlaceholders(cs: seq<Clause>): nat {
    if cs == [] then 0 else Placeholders(cs[0]) + TotalPlaceholders(cs[1..])
  }

  /** `WHERE` is written only for a non-empty clause list; `Some(cs)` stands
      for `WHERE cs[0] AND cs[1] AND ...`. */
  function WherePart(cs: seq<Clause>): Option<seq<Clause>> {
    if cs == [] then None else Some(cs)
  }

  /** The SELECT that `findWithFilters` sends, with its bound parameters. */
  datatype SelectQuery = SelectQuery(
    where: Option<seq<Clause>>, sortColumn: string, sortOrder: string, paged: bool,
    params: seq<Param>)

  /** The COUNT that `getCountWithFilters` sends, with its bound parameters. */
  datatype CountQuery = CountQuery(where: Option<seq<Clause>>, params: seq<Param>)

  const AllowedSortFields: seq<string> :=
    ["created_at", "updated_at", "judul", "harga", "rating", "durasi"]

  /** The ORDER BY column: `sortBy` when it is one of the six allowed
      columns, otherwise (including when absent) `created_at`. */
  function SortColumn(sortBy: JsVal): (c: string)
    ensures c in AllowedSortFields
    ensures sortBy.Str? && sortBy.s in AllowedSortFields ==> c == sortBy.s
    ensures !(sortBy.Str? && sortBy.s in AllowedSortFields) ==> c == "created_at"
  {
    if sortBy.Str? && sortBy.s in AllowedSortFields then sortBy.s else "created_at"
  }

  /** The ORDER BY direction: absent means DESC; a string is upper-cased and
      kept when it is ASC or DESC, otherwise DESC; any other value makes
      `sortOrder.toUpperCase()` throw. */
  function SortDirection(sortOrder: JsVal): (r: Result<string, Failure>)
    ensures r.Ok? <==> sortOrder.Undefined? || sortOrder.Str?
    ensures r.Err? ==> r.error == SortOrderNotString
    ensures r.Ok? ==> r.value == "ASC" || r.value == "DESC"
    ensures sortOrder.Undefined? ==> r == Ok("DESC")
    ensures sortOrder.Str? ==> (r.value == "ASC" <==> Upper(sortOrder.s) == "ASC")
  {
    match sortOrder
    case Undefined => Ok("DESC")
    case Str(s) =>
      var u := Upper(s);
      Ok(if u == "ASC" || u == "DESC" then u else "DESC")
    case _ => Err(SortOrderNotString)
  }

  /** The LIMIT / OFFSET parameters: only for a truthy `limit`; a missing
      offset defaults to 0. */
  function PageParams(filters: Object): seq<Param> {
    var limit := Get(filters, "limit");
    var offset := if Get(filters, "offset") == Undefined then Num(0.0) else Get(filters, "offset");
    if Truthy(limit) then [PageInt(ParseInt(limit)), PageInt(ParseInt(offset))] else []
  }

  function Keep(filters: Object, c: Clause): seq<Clause> {
    if Active(filters, c) then [c] else []
  }

  lemma WhereUnfolded(filters: Object)
    ensures Where(filters) ==
      Keep(filters, CategoryIs) + (Keep(filters, InstructorLike) + (Keep(filters, SearchLike)
      + (Keep(filters, PriceAtLeast) + (Keep(filters, PriceAtMost) + Keep(filters, RatingAtLeast)))))
  {
    var f := filters;
    var c5: seq<Clause> := [RatingAtLeast];
    var c4 := [PriceAtMost] + c5;
    var c3 := [PriceAtLeast] + c4;
    var c2 := [SearchLike] + c3;
    var c1 := [InstructorLike] + c2;
    var c0 := [CategoryIs] + c1;
    assert c0 == ClauseOrder;
    assert c5[1..] == [];
    assert ActiveAmong(f, c5) == Keep(f, RatingAtLeast);
    assert c4[1..] == c5;
    assert ActiveAmong(f, c4) == Keep(f, PriceAtMost) + ActiveAmong(f, c5);
    assert c3[1..] == c4;
    assert ActiveAmong(f, c3) == Keep(f, PriceAtLeast) + ActiveAmong(f, c4);
    assert c2[1..] == c3;
    assert ActiveAmong(f, c2) == Keep(f, SearchLike) + ActiveAmong(f, c3);
    assert c1[1..] == c2;
    assert ActiveAmong(f, c1) == Keep(f, InstructorLike) + ActiveAmong(f, c2);
    assert c0[1..] == c1;
    assert ActiveAmong(f, c0) == Keep(f, CategoryIs) + ActiveAmong(f, c1);
  }

  lemma {:induction false} BindAppend(filters: Object, a: seq<Clause>, b: seq<Clause>)
    ensures Bind(filters, a + b) == Bind(filters, a) + Bind(filters, b)
  {
    if a != [] {
      assert (a + b)[1..] == a[1..] + b;
      BindAppend(filters, a[1..], b);
    } else {
      assert a + b == b;
    }
  }

  lemma {:induction false} BindSingle(filters: Object, c: Clause)
    ensures Bind(filters, [c]) == ClauseParams(filters, c)
  {
    assert [c][1..] == [];
  }

  /** The conditions both `findWithFilters` and `getCountWithFilters` build:
      one clause and its parameters pushed per truthy filter, in the source's order. */
  method BuildConditions(filters: Object) returns (whereConditions: seq<Clause>, queryParams: seq<Param>)
    ensures whereConditions == Where(filters)
    ensures queryParams == Bind(filters, Where(filters))
  {
    whereConditions := [];
    queryParams := [];
    var category := Get(filters, "category");
    var instructor := Get(filters, "instructor");
    var search := Get(filters, "search");
    var minPrice := Get(filters, "minPrice");
    var maxPrice := Get(filters, "maxPrice");
    var minRating := Get(filters, "minRating");
    ghost var k0, k1, k2 := Keep(filters, CategoryIs), Keep(filters, InstructorLike), Keep(filters, SearchLike);
    ghost var k3, k4, k5 := Keep(filters, PriceAtLeast), Keep(filters, PriceAtMost), Keep(filters, RatingAtLeast);
    ghost var e0, e1, e2 := Emitted(filters, CategoryIs), Emitted(filters, InstructorLike), Emitted(filters, SearchLike);
    ghost var e3, e4, e5 := Emitted(filters, PriceAtLeast), Emitted(filters, PriceAtMost), Emitted(filters, RatingAtLeast);

    if Truthy(category) {
      whereConditions := whereConditions + [CategoryIs];
      queryParams := queryParams + [Value(category)];
    }
    assert whereConditions == k0 && queryParams == e0;
    if Truthy(instructor) {
      whereConditions := whereConditions + [InstructorLike];
      queryParams := queryParams + [Pattern(instructor)];
    }
    assert whereConditions == k0 + k1 && queryParams == e0 + e1;
    if Truthy(search) {
      whereConditions := whereConditions + [SearchLike];
      queryParams := queryParams + [Pattern(search), Pattern(search), Pattern(search)];
    }
    assert whereConditions == k0 + k1 + k2 && queryParams == e0 + e1 + e2;
    if Truthy(minPrice) {
      whereConditions := whereConditions + [PriceAtLeast];
      queryParams := queryParams + [Value(minPrice)];
    }
    assert whereConditions == k0 + k1 + k2 + k3 && queryParams == e0 + e1 + e2 + e3;
    if Truthy(maxPrice) {
      whereConditions := whereConditions + [PriceAtMost];
      queryParams := queryParams + [Value(maxPrice)];
    }
    assert whereConditions == k0 + k1 + k2 + k3 + k4 && queryParams == e0 + e1 + e2 + e3 + e4;
    if Truthy(minRating) {
      whereConditions := whereConditions + [RatingAtLeast];
      queryParams := queryParams + [Value(minRating)];
    }
    assert whereConditions == k0 + k1 + k2 + k3 + k4 + k5;
    assert queryParams == e0 + e1 + e2 + e3 + e4 + e5;
    Reassoc(k0, k1, k2, k3, k4, k5);
    Reassoc(e0, e1, e2, e3, e4, e5);
    WhereUnfolded(filters);
    BindOfWhere(filters);
  }

  /** Builds the SELECT of `findWithFilters`: the conditions, then the
      allow-listed ORDER BY, then LIMIT / OFFSET for a truthy limit. */
  method FindWithFilters(filters: Object) returns (r: Result<SelectQuery, Failure>)
    ensures r.Err? <==> SortDirection(Get(filters, "sortOrder")).Err?
    ensures r.Err? ==> r.error == SortOrderNotString
    ensures r.Ok? ==> r.value.where == WherePart(Where(filters))
    ensures r.Ok? ==> r.value.params == Bind(filters, Where(filters)) + PageParams(filters)
    ensures r.Ok? ==> r.value.sortColumn == SortColumn(Get(filters, "sortBy"))
    ensures r.Ok? ==> r.value.sortOrder == SortDirection(Get(filters, "sortOrder")).value
    ensures r.Ok? ==> r.value.paged == Truthy(Get(filters, "limit"))
  {
    var limit := Get(filters, "limit");
    var offset := if Get(filters, "offset") == Undefined then Num(0.0) else Get(filters, "offset");
    var whereConditions, queryParams := BuildConditions(filters);
    var direction := SortDirection(Get(filters, "sortOrder"));
    if direction.Err? {
      return Err(direction.error);
    }
    var column := SortColumn(Get(filters, "sortBy"));
    var paged := Truthy(limit);
    if paged {
      queryParams := queryParams + [PageInt(ParseInt(limit)), PageInt(ParseInt(offset))];
    }
    r := Ok(SelectQuery(WherePart(whereConditions), column, direction.value, paged, queryParams));
  }

  /** Builds the COUNT of `getCountWithFilters`: the same conditions, without
      ORDER BY and LIMIT. */
  method GetCountWithFilters(filters: Object) returns (q: CountQuery)
    ensures q.where == WherePart(Where(filters))
    ensures q.params == Bind(filters, Where(filters))
  {
    var whereConditions, queryParams := BuildConditions(filters);
    q := CountQuery(WherePart(whereConditions), queryParams);
  }

  /** The parameters one clause contributes: its own when active, none otherwise. */
  function Emitted(filters: Object, c: Clause): seq<Param> {
    if Active(filters, c) then ClauseParams(filters, c) else []
  }

  lemma BindOfWhere(filters: Object)
    ensures Bind(filters, Where(filters)) ==
      Emitted(filters, CategoryIs) + (Emitted(filters, InstructorLike) + (Emitted(filters, SearchLike)
      + (Emitted(filters, PriceAtLeast) + (Emitted(filters, PriceAtMost) + Emitted(filters, RatingAtLeast)))))
  {
    var f := filters;
    WhereUnfolded(f);
    var p0, p1, p2 := Keep(f, CategoryIs), Keep(f, InstructorLike), Keep(f, SearchLike);
    var p3, p4, p5 := Keep(f, PriceAtLeast), Keep(f, PriceAtMost), Keep(f, RatingAtLeast);
    BindAppend(f, p4, p5);
    BindAppend(f, p3, p4 + p5);
    BindAppend(f, p2, p3 + (p4 + p5));
    BindAppend(f, p1, p2 + (p3 + (p4 + p5)));
    BindAppend(f, p0, p1 + (p2 + (p3 + (p4 + p5))));
    BindKeep(f, CategoryIs);
    BindKeep(f, InstructorLike);
    BindKeep(f, SearchLike);
    BindKeep(f, PriceAtLeast);
    BindKeep(f, PriceAtMost);
    BindKeep(f, RatingAtLeast);
  }

  lemma Reassoc<T>(a: seq<T>, b: seq<T>, c: seq<T>, d: seq<T>, e: seq<T>, f: seq<T>)
    ensures a + b + c + d + e + f == a + (b + (c + (d + (e + f))))
  {
    assert a + b + c + d + e + f == (a + b + c + d) + (e + f);
    assert (a + b + c + d) + (e + f) == (a + b + c) + (d + (e + f));
    assert (a + b + c) + (d + (e + f)) == (a + b) + (c + (d + (e + f)));
  }

  lemma BindKeep(filters: Object, c: Clause)
    ensures Bind(filters, Keep(filters, c)) == Emitted(filters, c)
  {
    if Active(filters, c) {
      BindSingle(filters, c);
    }
  }

  // ---------------------------------------------------------------- properties of the builder

  lemma {:induction false} ActiveAmongMember(filters: Object, cs: seq<Clause>, c: Clause)
    ensures c in ActiveAmong(filters, cs) <==> c in cs && Active(filters, c)
  {
    if cs != [] {
      ActiveAmongMember(filters, cs[1..], c);
    }
  }

  /** A clause is in the WHERE list exactly when its filter value is truthy;
      so falsy values (0, '', null, absent) add nothing. */
  lemma WhereMember(filters: Object, c: Clause)
    ensures c in Where(filters) <==> Active(filters, c)
  {
    ActiveAmongMember(filters, ClauseOrder, c);
  }

  lemma {:induction false} ActiveAmongOrdered(filters: Object, cs: seq<Clause>)
    requires forall i, j :: 0 <= i < j < |cs| ==> Rank(cs[i]) < Rank(cs[j])
    ensures forall i, j :: 0 <= i < j < |ActiveAmong(filters, cs)| ==>
      Rank(ActiveAmong(filters, cs)[i]) < Rank(ActiveAmong(filters, cs)[j])
    ensures forall x :: x in ActiveAmong(filters, cs) ==> x in cs
  {
    if cs != [] {
      ActiveAmongOrdered(filters, cs[1..]);
      var rest := ActiveAmong(filters, cs[1..]);
      assert forall x :: x in rest ==> Rank(cs[0]) < Rank(x);
    }
  }

  /** The clauses come in the fixed order category, instructor, search,
      minPrice, maxPrice, minRating, each at most once. */
  lemma WhereOrdered(filters: Object)
    ensures forall i, j :: 0 <= i < j < |Where(filters)| ==>
      Rank(Where(filters)[i]) < Rank(Where(filters)[j])
  {
    ActiveAmongOrdered(filters, ClauseOrder);
  }

  /** Clause/parameter alignment: a clause list binds exactly as many values
      as it has placeholders. */
  lemma {:induction false} BindAligned(filters: Object, cs: seq<Clause>)
    ensures |Bind(filters, cs)| == TotalPlaceholders(cs)
  {
    if cs != [] {
      BindAligned(filters, cs[1..]);
    }
  }

  /** Two filter objects that agree on the six filter keys give the same
      clause list and bind the same values. */
  lemma {:induction false} SameKeysSameQuery(f: Object, g: Object, cs: seq<Clause>)
    requires forall c: Clause :: Get(f, FilterKey(c)) == Get(g, FilterKey(c))
    ensures ActiveAmong(f, cs) == ActiveAmong(g, cs)
    ensures Bind(f, cs) == Bind(g, cs)
  {
    if cs != [] {
      assert Get(f, FilterKey(cs[0])) == Get(g, FilterKey(cs[0]));
      SameKeysSameQuery(f, g, cs[1..]);
    }
  }

  /** The `level` filter is destructured but never adds a clause or a value. */
  lemma LevelNeverFilters(filters: Object, level: JsVal)
    ensures Where(filters["level" := level]) == Where(filters)
    ensures Bind(filters["level" := level], Where(filters)) == Bind(filters, Where(filters))
  {
    var g := filters["level" := level];
    forall c: Clause ensures Get(filters, FilterKey(c)) == Get(g, FilterKey(c)) {
      assert FilterKey(c) != "level";
    }
    SameKeysSameQuery(filters, g, ClauseOrder);
    SameKeysSameQuery(filters, g, Where(filters));
  }

  // ================================================================ the kelas table

  /** A row of `kelas`. Columns hold the values the request supplied:
      MySQL's column-type coercion is not modelled. */
  datatype Course = Course(
    id: int, judul: JsVal, deskripsi: JsVal, harga: JsVal, durasi: JsVal, rating: JsVal,
    tutorId: JsVal, kategoriId: JsVal, level: JsVal, createdAt: int, updatedAt: int)

  datatype Tutor = Tutor(name: string, bio: JsVal, avatar: JsVal)

  /** A course with its LEFT JOINed tutor and category name; a dangling
      reference gives None rather than an error. */
  datatype KelasRow = KelasRow(course: Course, tutor: Option<Tutor>, kategori: Option<string>)

  /** `r` as an INT key, when it is a whole number. */
  function WholeKey(r: real): Option<int> {
    if r == r.Floor as real then Some(r.Floor) else None
  }

  /** The row key a value designates when it is read with JavaScript's
      `Number`: none for NaN or for a number with a fraction. */
  function ReferenceId(v: JsVal): (k: Option<int>)
    ensures k.Some? <==> ToNumber(v).Some? && WholeKey(ToNumber(v).value).Some?
    ensures k.Some? ==> ToNumber(v) == Some(k.value as real)
  {
    match ToNumber(v)
    case Some(r) => WholeKey(r)
    case None => None
  }

  /** The number MySQL reads from a string it compares with a number: the
      decimal numeral at its start after white space, 0 when there is none. */
  function SqlNumber(s: string): real {
    match ParseFloat(s)
    case Some(r) => r
    case None => 0.0
  }

  /** The INT key that a parameter bound in `col = ?` equals in MySQL: a
      string is read by its numeric prefix, a number or boolean as itself. */
  function BoundKey(v: JsVal): Option<int> {
    match v
    case Str(s) => WholeKey(SqlNumber(s))
    case _ => ReferenceId(v)
  }

  /** A string that starts with digits is read by those digits, whatever
      follows them. */
  lemma NumericPrefixKey(d: string, rest: string)
    requires AllDigits(d) && d != ""
    requires rest == "" || (!IsDigit(rest[0]) && rest[0] != '.')
    ensures BoundKey(Str(d + rest)) == Some(DigitsValue(d) as int)
  {
    ParseFloatWhole(d, rest);
    var n := DigitsValue(d) as int;
    assert SqlNumber(d + rest) == n as real;
    assert (n as real).Floor == n;
  }

  /** Digits followed by other text, such as `'5abc'`, designate the key of
      the digits in MySQL, while `Number` reads NaN and designates none. */
  lemma PrefixKeyDiffersFromNumber(d: string, rest: string)
    requires AllDigits(d) && d != ""
    requires rest != "" && !IsDigit(rest[0]) && rest[0] != '.' && !IsWhite(rest[|rest| - 1])
    ensures BoundKey(Str(d + rest)) == Some(DigitsValue(d) as int)
    ensures ReferenceId(Str(d + rest)) == None
  {
    NumericPrefixKey(d, rest);
    NumberRejectsTrailing(d, rest);
  }

  /** On every string that `Number` reads, MySQL designates the same key as
      the JavaScript reading does. */
  lemma BoundKeyAgrees(s: string)
    requires !IsNaN(Str(s))
    ensures BoundKey(Str(s)) == ReferenceId(Str(s))
  {
    ParseFloatAgreesWithNumber(s);
  }

  /** The key a non-empty id designates in a table, if a row has it: the id
      is read with `Number`, which is also MySQL's reading for every id that
      `Number` reads (`BoundKeyAgrees`). */
  function Designated(rows: map<int, Course>, id: string): (r: Option<int>)
    ensures r.Some? ==> r.value in rows && id != "" && ReferenceId(Str(id)) == r
    ensures r.None? ==> id == "" || forall k :: k in rows ==> ReferenceId(Str(id)) != Some(k)
  {
    if id == "" then None
    else match ReferenceId(Str(id))
      case Some(k) => if k in rows then Some(k) else None
      case None => None
  }

  /** `LIKE '%term%'` on a text column, case-insensitively; wildcard
      characters inside the term are taken literally. */
  predicate Like(v: JsVal, term: string) {
    v.Str? && Contains(Lower(v.s), Lower(term))
  }

  predicate SearchMatch(row: KelasRow, term: string) {
    Like(row.course.judul, term) || Like(row.course.deskripsi, term)
    || (row.tutor.Some? && Like(Str(row.tutor.value.name), term))
  }

  predicate InstructorMatch(row: KelasRow, name: string) {
    row.tutor.Some? && Like(Str(row.tutor.value.name), name)
  }

  /** `!s || s.trim() === ''` */
  predicate Blank(s: string) {
    s == "" || Trim(s) == ""
  }

  /** The columns `update` may set, in the order it tests them. */
  datatype Column = JudulCol | DeskripsiCol | HargaCol | DurasiCol | TutorIdCol | KategoriIdCol | LevelCol

  const UpdatableColumns: seq<Column> :=
    [JudulCol, DeskripsiCol, HargaCol, DurasiCol, TutorIdCol, KategoriIdCol, LevelCol]

  function ColumnKey(c: Column): string {
    match c
    case JudulCol => "judul"
    case DeskripsiCol => "deskripsi"
    case HargaCol => "harga"
    case DurasiCol => "durasi"
    case TutorIdCol => "tutor_id"
    case KategoriIdCol => "kategori_id"
    case LevelCol => "level"
  }

  /** `updateData[key] !== undefined` */
  predicate Defined(patch: Object, c: Column) {
    Get(patch, ColumnKey(c)) != Undefined
  }

  /** The defined columns of a patch, in the given order. */
  function DefinedAmong(patch: Object, cs: seq<Column>): seq<Column> {
    if cs == [] then []
    else (if Defined(patch, cs[0]) then [cs[0]] else []) + DefinedAmong(patch, cs[1..])
  }

  /** One entry of the SET list: `col = ?` or `updated_at = NOW()`. */
  datatype Assignment = SetColumn(col: Column) | TouchUpdatedAt

  function SetList(cs: seq<Column>): seq<Assignment> {
    if cs == [] then [] else [SetColumn(cs[0])] + SetList(cs[1..])
  }

  function SetValues(patch: Object, cs: seq<Column>): seq<JsVal> {
    if cs == [] then [] else [Get(patch, ColumnKey(cs[0]))] + SetValues(patch, cs[1..])
  }

  function AssignmentPlaceholders(sets: seq<Assignment>): nat {
    if sets == [] then 0 else (if sets[0].SetColumn? then 1 else 0) + AssignmentPlaceholders(sets[1..])
  }

  /** The `UPDATE kelas SET ... WHERE kelas_id = ?` statement with its values. */
  datatype UpdateStatement = UpdateStatement(sets: seq<Assignment>, values: seq<JsVal>)

  function SetColumnTo(c: Course, col: Column, v: JsVal): Course {
    match col
    case JudulCol => c.(judul := v)
    case DeskripsiCol => c.(deskripsi := v)
    case HargaCol => c.(harga := v)
    case DurasiCol => c.(durasi := v)
    case TutorIdCol => c.(tutorId := v)
    case KategoriIdCol => c.(kategoriId := v)
    case LevelCol => c.(level := v)
  }

  /** What executing a SET list with its values does to a row: the database's
      reading of the statement the builder produces. */
  function Execute(c: Course, sets: seq<Assignment>, values: seq<JsVal>, now: int): Course
    requires AssignmentPlaceholders(sets) <= |values|
    decreases |sets|
  {
    if sets == [] then c
    else match sets[0]
      case SetColumn(col) => Execute(SetColumnTo(c, col, values[0]), sets[1..], values[1..], now)
      case TouchUpdatedAt => Execute(c.(updatedAt := now), sets[1..], values, now)
  }

  /** The intended effect of a patch, column by column: a defined value
      replaces the column, the rest stays, and updated_at becomes now. */
  function Pick(patch: Object, col: Column, old_: JsVal): JsVal {
    if Defined(patch, col) then Get(patch, ColumnKey(col)) else old_
  }

  function Patched(c: Course, patch: Object, now: int): Course {
    c.(judul := Pick(patch, JudulCol, c.judul),
       deskripsi := Pick(patch, DeskripsiCol, c.deskripsi),
       harga := Pick(patch, HargaCol, c.harga),
       durasi := Pick(patch, DurasiCol, c.durasi),
       tutorId := Pick(patch, TutorIdCol, c.tutorId),
       kategoriId := Pick(patch, KategoriIdCol, c.kategoriId),
       level := Pick(patch, LevelCol, c.level),
       updatedAt := now)
  }

  /** Builds the SET list and value list of `update` by pushing one `col = ?`
      per defined column, then `updated_at = NOW()` and the id. */
  method BuildUpdate(id: string, patch: Object) returns (r: Result<UpdateStatement, Failure>)
    ensures r.Err? <==> DefinedAmong(patch, UpdatableColumns) == []
    ensures r.Err? ==> r.error == NoFieldsToUpdate
    ensures r.Ok? ==> r.value.sets == SetList(DefinedAmong(patch, UpdatableColumns)) + [TouchUpdatedAt]
    ensures r.Ok? ==> r.value.values == SetValues(patch, DefinedAmong(patch, UpdatableColumns)) + [Str(id)]
  {
    var fields: seq<Assignment> := [];
    var values: seq<JsVal> := [];
    var i := 0;
    // The source tests the seven keys one after another; the loop walks the
    // same list in the same order.
    while i < |UpdatableColumns|
      invariant 0 <= i <= |UpdatableColumns|
      invariant fields == SetList(DefinedAmong(patch, UpdatableColumns[..i]))
      invariant values == SetValues(patch, DefinedAmong(patch, UpdatableColumns[..i]))
    {
      var col := UpdatableColumns[i];
      ghost var before := DefinedAmong(patch, UpdatableColumns[..i]);
      DefinedAmongSnoc(patch, UpdatableColumns[..i], col);
      assert UpdatableColumns[..i + 1] == UpdatableColumns[..i] + [col];
      if Get(patch, ColumnKey(col)) != Undefined {
        SetListAppend(before, [col]);
        SetValuesAppend(patch, before, [col]);
        assert SetList([col]) == [SetColumn(col)] by { assert [col][1..] == []; }
        assert SetValues(patch, [col]) == [Get(patch, ColumnKey(col))] by { assert [col][1..] == []; }
        fields := fields + [SetColumn(col)];
        values := values + [Get(patch, ColumnKey(col))];
      } else {
        assert before + [] == before;
      }
      i := i + 1;
    }
    assert UpdatableColumns[..i] == UpdatableColumns;
    if |fields| == 0 {
      return Err(NoFieldsToUpdate);
    }
    fields := fields + [TouchUpdatedAt];
    values := values + [Str(id)];
    r := Ok(UpdateStatement(fields, values));
  }

  lemma {:induction false} DefinedAmongSnoc(patch: Object, cs: seq<Column>, c: Column)
    ensures DefinedAmong(patch, cs + [c]) == DefinedAmong(patch, cs) + (if Defined(patch, c) then [c] else [])
  {
    if cs == [] {
      assert [c][1..] == [];
      assert cs + [c] == [c];
    } else {
      var h := if Defined(patch, cs[0]) then [cs[0]] else [];
      var t := if Defined(patch, c) then [c] else [];
      assert (cs + [c])[0] == cs[0] && (cs + [c])[1..] == cs[1..] + [c];
      assert DefinedAmong(patch, cs + [c]) == h + DefinedAmong(patch, cs[1..] + [c]);
      DefinedAmongSnoc(patch, cs[1..], c);
      assert h + (DefinedAmong(patch, cs[1..]) + t) == (h + DefinedAmong(patch, cs[1..])) + t;
    }
  }

  lemma {:induction false} SetListAppend(a: seq<Column>, b: seq<Column>)
    ensures SetList(a + b) == SetList(a) + SetList(b)
  {
    if a != [] {
      assert (a + b)[1..] == a[1..] + b;
      SetListAppend(a[1..], b);
    } else {
      assert a + b == b;
    }
  }

  lemma {:induction false} SetValuesAppend(patch: Object, a: seq<Column>, b: seq<Column>)
    ensures SetValues(patch, a + b) == SetValues(patch, a) + SetValues(patch, b)
  {
    if a != [] {
      assert (a + b)[1..] == a[1..] + b;
      SetValuesAppend(patch, a[1..], b);
    } else {
      assert a + b == b;
    }
  }

  lemma {:induction false} SetListAligned(patch: Object, cs: seq<Column>)
    ensures AssignmentPlaceholders(SetList(cs)) == |SetValues(patch, cs)| == |cs|
  {
    if cs != [] {
      SetListAligned(patch, cs[1..]);
    }
  }

  lemma {:induction false} PlaceholdersAppend(a: seq<Assignment>, b: seq<Assignment>)
    ensures AssignmentPlaceholders(a + b) == AssignmentPlaceholders(a) + AssignmentPlaceholders(b)
  {
    if a != [] {
      assert (a + b)[1..] == a[1..] + b;
      PlaceholdersAppend(a[1..], b);
    } else {
      assert a + b == b;
    }
  }

  /** The UPDATE's placeholders line up with its values: one per `col = ?`,
      plus the id for `WHERE kelas_id = ?`. */
  lemma UpdateAligned(id: string, patch: Object)
    ensures AssignmentPlaceholders(SetList(DefinedAmong(patch, UpdatableColumns)) + [TouchUpdatedAt]) + 1
         == |SetValues(patch, DefinedAmong(patch, UpdatableColumns)) + [Str(id)]|
  {
    var cs := DefinedAmong(patch, UpdatableColumns);
    SetListAligned(patch, cs);
    PlaceholdersAppend(SetList(cs), [TouchUpdatedAt]);
    assert AssignmentPlaceholders([TouchUpdatedAt]) == 0;
  }

  lemma {:induction false} ExecuteSets(c: Course, patch: Object, cs: seq<Column>, tail: seq<JsVal>, before: Course, now: int)
    requires forall k :: 0 <= k < |cs| ==> Defined(patch, cs[k])
    requires forall i, j :: 0 <= i < j < |cs| ==> cs[i] != cs[j]
    requires AssignmentPlaceholders(SetList(cs) + [TouchUpdatedAt]) <= |SetValues(patch, cs) + tail|
    ensures Execute(c, SetList(cs) + [TouchUpdatedAt], SetValues(patch, cs) + tail, now)
         == ExecuteTail(c, patch, cs).(updatedAt := now)
    decreases |cs|
  {
    if cs == [] {
      assert SetList(cs) + [TouchUpdatedAt] == [TouchUpdatedAt];
      assert [TouchUpdatedAt][1..] == [];
    } else {
      var c' := SetColumnTo(c, cs[0], Get(patch, ColumnKey(cs[0])));
      assert (SetList(cs) + [TouchUpdatedAt])[1..] == SetList(cs[1..]) + [TouchUpdatedAt];
      assert (SetValues(patch, cs) + tail)[1..] == SetValues(patch, cs[1..]) + tail;
      PlaceholdersAppend(SetList(cs[1..]), [TouchUpdatedAt]);
      PlaceholdersAppend(SetList(cs), [TouchUpdatedAt]);
      SetListAligned(patch, cs[1..]);
      ExecuteSets(c', patch, cs[1..], tail, before, now);
    }
  }

  /** Applying the defined columns one after another. */
  function ExecuteTail(c: Course, patch: Object, cs: seq<Column>): Course
    decreases |cs|
  {
    if cs == [] then c
    else ExecuteTail(SetColumnTo(c, cs[0], Get(patch, ColumnKey(cs[0]))), patch, cs[1..])
  }

  /** A column not in `cs` is left as it was; one in `cs` gets the patch value. */
  lemma {:induction false} ExecuteTailColumn(c: Course, patch: Object, cs: seq<Column>, col: Column)
    requires forall i, j :: 0 <= i < j < |cs| ==> cs[i] != cs[j]
    ensures ColumnOf(ExecuteTail(c, patch, cs), col)
         == if col in cs then Get(patch, ColumnKey(col)) else ColumnOf(c, col)
    ensures ExecuteTail(c, patch, cs).id == c.id && ExecuteTail(c, patch, cs).rating == c.rating
    ensures ExecuteTail(c, patch, cs).createdAt == c.createdAt
    ensures ExecuteTail(c, patch, cs).updatedAt == c.updatedAt
    decreases |cs|
  {
    if cs != [] {
      var c' := SetColumnTo(c, cs[0], Get(patch, ColumnKey(cs[0])));
      ExecuteTailColumn(c', patch, cs[1..], col);
      assert cs[0] !in cs[1..];
    }
  }

  function ColumnOf(c: Course, col: Column): JsVal {
    match col
    case JudulCol => c.judul
    case DeskripsiCol => c.deskripsi
    case HargaCol => c.harga
    case DurasiCol => c.durasi
    case TutorIdCol => c.tutorId
    case KategoriIdCol => c.kategoriId
    case LevelCol => c.level
  }

  lemma {:induction false} DefinedAmongProps(patch: Object, cs: seq<Column>, col: Column)
    ensures col in DefinedAmong(patch, cs) <==> col in cs && Defined(patch, col)
    ensures forall k :: 0 <= k < |DefinedAmong(patch, cs)| ==> Defined(patch, DefinedAmong(patch, cs)[k])
  {
    if cs != [] {
      DefinedAmongProps(patch, cs[1..], col);
    }
  }

  lemma {:induction false} DefinedAmongDistinct(patch: Object, cs: seq<Column>)
    requires forall i, j :: 0 <= i < j < |cs| ==> cs[i] != cs[j]
    ensures forall i, j :: 0 <= i < j < |DefinedAmong(patch, cs)| ==>
      DefinedAmong(patch, cs)[i] != DefinedAmong(patch, cs)[j]
  {
    if cs != [] {
      DefinedAmongDistinct(patch, cs[1..]);
      forall k | 0 <= k < |cs[1..]| ensures cs[1..][k] != cs[0] {
        assert cs[1..][k] == cs[k + 1];
      }
      var rest := DefinedAmong(patch, cs[1..]);
      forall k | 0 <= k < |rest| ensures rest[k] != cs[0] {
        DefinedAmongProps(patch, cs[1..], rest[k]);
      }
    }
  }

  /** Executing the statement `BuildUpdate` produces changes exactly the
      defined columns to the patch's values and refreshes updated_at. */
  lemma UpdateStatementMeansPatch(c: Course, id: string, patch: Object, now: int)
    ensures var cs := DefinedAmong(patch, UpdatableColumns);
      AssignmentPlaceholders(SetList(cs) + [TouchUpdatedAt]) <= |SetValues(patch, cs) + [Str(id)]|
      && Execute(c, SetList(cs) + [TouchUpdatedAt], SetValues(patch, cs) + [Str(id)], now) == Patched(c, patch, now)
  {
    var cs := DefinedAmong(patch, UpdatableColumns);
    UpdateAligned(id, patch);
    DefinedAmongDistinct(patch, UpdatableColumns);
    forall k | 0 <= k < |cs| ensures Defined(patch, cs[k]) {
      DefinedAmongProps(patch, UpdatableColumns, cs[k]);
    }
    ExecuteSets(c, patch, cs, [Str(id)], c, now);
    var e := ExecuteTail(c, patch, cs);
    forall col: Column ensures ColumnOf(e, col) == Pick(patch, col, ColumnOf(c, col)) {
      ExecuteTailColumn(c, patch, cs, col);
      DefinedAmongProps(patch, UpdatableColumns, col);
    }
    ExecuteTailColumn(c, patch, cs, JudulCol);
    assert ColumnOf(e, JudulCol) == Pick(patch, JudulCol, c.judul);
    assert ColumnOf(e, DeskripsiCol) == Pick(patch, DeskripsiCol, c.deskripsi);
    assert ColumnOf(e, HargaCol) == Pick(patch, HargaCol, c.harga);
    assert ColumnOf(e, DurasiCol) == Pick(patch, DurasiCol, c.durasi);
    assert ColumnOf(e, TutorIdCol) == Pick(patch, TutorIdCol, c.tutorId);
    assert ColumnOf(e, KategoriIdCol) == Pick(patch, KategoriIdCol, c.kategoriId);
    assert ColumnOf(e, LevelCol) == Pick(patch, LevelCol, c.level);
  }

  /** `create`'s required fields: all six must be truthy. */
  predicate HasRequired(data: Object) {
    Truthy(Get(data, "judul")) && Truthy(Get(data, "deskripsi")) && Truthy(Get(data, "harga"))
    && Truthy(Get(data, "durasi")) && Truthy(Get(data, "tutor_id")) && Truthy(Get(data, "kategori_id"))
  }

  /** The row `create` inserts: no rating yet, level defaulting to 'beginner'. */
  function NewCourse(id: int, data: Object, now: int): Course {
    Course(id, Get(data, "judul"), Get(data, "deskripsi"), Get(data, "harga"), Get(data, "durasi"),
           Null, Get(data, "tutor_id"), Get(data, "kategori_id"),
           if Truthy(Get(data, "level")) then Get(data, "level") else Str("beginner"), now, now)
  }

  /** The row `findByTitle` returns: `kelas_id` and `judul` only. */
  datatype TitleRow = TitleRow(kelasId: int, judul: JsVal)

  /** The `kelas` table, with the `tutor` and `kategori` tables it joins. */
  class KelasTable {
    var rows: map<int, Course>
    var nextId: int
    const tutors: map<int, Tutor>
    const categories: map<int, string>

    /** Keys are the rows' ids and below the next AUTO_INCREMENT value. */
    ghost predicate Valid()
      reads this
    {
      nextId > 0 && forall id :: id in rows ==> 0 < id < nextId && rows[id].id == id
    }

    constructor (tutors: map<int, Tutor>, categories: map<int, string>)
      ensures Valid() && rows == map[] && this.tutors == tutors && this.categories == categories
    {
      rows := map[];
      nextId := 1;
      this.tutors := tutors;
      this.categories := categories;
    }

    /** The LEFT JOIN of a course with its tutor and category. */
    function Join(c: Course): (r: KelasRow)
      ensures r.course == c
      ensures r.tutor.Some? <==> ReferenceId(c.tutorId).Some? && ReferenceId(c.tutorId).value in tutors
    {
      var t := ReferenceId(c.tutorId);
      var k := ReferenceId(c.kategoriId);
      KelasRow(c,
        if t.Some? && t.value in tutors then Some(tutors[t.value]) else None,
        if k.Some? && k.value in categories then Some(categories[k.value]) else None)
    }

    /** `findAll` */
    function FindAll(): (r: set<KelasRow>)
      reads this
      ensures forall id :: id in rows ==> Join(rows[id]) in r
      ensures forall x :: x in r ==> x.course.id in rows && x == Join(rows[x.course.id])
      requires Valid()
    {
      set id | id in rows :: Join(rows[id])
    }

    /** `findById`: a falsy id throws; otherwise the row whose key the id
        designates, if any. */
    function FindById(id: string): (r: Result<Option<KelasRow>, Failure>)
      reads this
      requires Valid()
      ensures id == "" <==> r.Err?
      ensures r.Err? ==> r.error == IdRequired
      ensures r.Ok? ==> (r.value.Some? <==> Designated(rows, id).Some?)
      ensures r.Ok? && r.value.Some? ==>
        r.value.value == Join(rows[Designated(rows, id).value])
        && r.value.value.course.id == Designated(rows, id).value
    {
      if id == "" then Err(IdRequired)
      else match ReferenceId(Str(id))
        case Some(k) => Ok(if k in rows then Some(Join(rows[k])) else None)
        case None => Ok(None)
    }

    /** `findByTitle`: null for a falsy title, otherwise some row with exactly
        this title (the SELECT has no ORDER BY, so which one is not fixed). */
    method FindByTitle(title: JsVal) returns (r: Option<TitleRow>)
      ensures !Truthy(title) ==> r.None?
      ensures Truthy(title) ==> (r.None? <==> forall id :: id in rows ==> rows[id].judul != title)
      ensures r.Some? ==> r.value.kelasId in rows && rows[r.value.kelasId].judul == title
                          && r.value.judul == title
    {
      if !Truthy(title) {
        return None;
      }
      if exists id :: id in rows && rows[id].judul == title {
        var id :| id in rows && rows[id].judul == title;
        r := Some(TitleRow(id, title));
      } else {
        r := None;
      }
    }

    /** `search`: nothing for a falsy or blank term, otherwise the rows whose
        title, description or tutor name contains it. A truthy term that is
        not a string (a repeated query parameter arrives as an array) has no
        `trim` method, and the call throws a TypeError. */
    function Search(term: JsVal): (r: Result<set<KelasRow>, Failure>)
      reads this
      requires Valid()
      ensures r.Err? <==> Truthy(term) && !term.Str?
      ensures r.Err? ==> r.error == TrimNotAFunction("searchTerm")
      ensures r.Ok? && (!Truthy(term) || Blank(term.s)) ==> r.value == {}
      ensures r.Ok? && term.Str? ==> forall id :: id in rows ==>
        (Join(rows[id]) in r.value <==> !Blank(term.s) && SearchMatch(Join(rows[id]), term.s))
      ensures r.Ok? ==> forall x :: x in r.value ==> x.course.id in rows && x == Join(rows[x.course.id])
    {
      if !Truthy(term) then Ok({})
      else if !term.Str? then Err(TrimNotAFunction("searchTerm"))
      else if Blank(term.s) then Ok({})
      else Ok(set id | id in rows && SearchMatch(Join(rows[id]), term.s) :: Join(rows[id]))
    }

    /** `findByInstructor`: nothing for a falsy or blank name, otherwise the
        rows whose tutor name contains it; a truthy non-string throws as in
        `search`. */
    function FindByInstructor(name: JsVal): (r: Result<set<KelasRow>, Failure>)
      reads this
      requires Valid()
      ensures r.Err? <==> Truthy(name) && !name.Str?
      ensures r.Err? ==> r.error == TrimNotAFunction("tutorName")
      ensures r.Ok? && (!Truthy(name) || Blank(name.s)) ==> r.value == {}
      ensures r.Ok? && name.Str? ==> forall id :: id in rows ==>
        (Join(rows[id]) in r.value <==> !Blank(name.s) && InstructorMatch(Join(rows[id]), name.s))
      ensures r.Ok? ==> forall x :: x in r.value ==> x.course.id in rows && x == Join(rows[x.course.id])
    {
      if !Truthy(name) then Ok({})
      else if !name.Str? then Err(TrimNotAFunction("tutorName"))
      else if Blank(name.s) then Ok({})
      else Ok(set id | id in rows && InstructorMatch(Join(rows[id]), name.s) :: Join(rows[id]))
    }

    /** `findByCategory`: a falsy id throws; otherwise the rows whose category
        reference is the key MySQL reads from the bound value. */
    function FindByCategory(kategoriId: JsVal): (r: Result<set<KelasRow>, Failure>)
      reads this
      requires Valid()
      ensures r.Err? <==> !Truthy(kategoriId)
      ensures r.Err? ==> r.error == CategoryIdRequired
      ensures r.Ok? ==> forall id :: id in rows ==>
        (Join(rows[id]) in r.value <==>
           BoundKey(kategoriId).Some? && ReferenceId(rows[id].kategoriId) == BoundKey(kategoriId))
      ensures r.Ok? ==> forall x :: x in r.value ==> x.course.id in rows && x == Join(rows[x.course.id])
    {
      if !Truthy(kategoriId) then Err(CategoryIdRequired)
      else
        var k := BoundKey(kategoriId);
        Ok(set id | id in rows && k.Some? && ReferenceId(rows[id].kategoriId) == k :: Join(rows[id]))
    }

    /** `findByLevel`: a falsy level throws; otherwise every row, because the
        SELECT has no level predicate. */
    function FindByLevel(level: JsVal): (r: Result<set<KelasRow>, Failure>)
      reads this
      requires Valid()
      ensures r.Err? <==> !Truthy(level)
      ensures r.Err? ==> r.error == LevelRequired
      ensures r.Ok? ==> r.value == FindAll()
    {
      if !Truthy(level) then Err(LevelRequired) else Ok(FindAll())
    }

    /** `create`: rejects a falsy required field without touching the table;
        otherwise inserts one row under the next id and returns it joined. */
    method Create(data: Object, now: int) returns (r: Result<KelasRow, Failure>)
      requires Valid()
      modifies this
      ensures Valid()
      ensures r.Err? <==> !HasRequired(data)
      ensures r.Err? ==> r.error == MissingRequired && rows == old(rows) && nextId == old(nextId)
      ensures r.Ok? ==> rows == old(rows)[old(nextId) := NewCourse(old(nextId), data, now)]
                        && nextId == old(nextId) + 1
                        && r.value == Join(NewCourse(old(nextId), data, now))
    {
      if !HasRequired(data) {
        return Err(MissingRequired);
      }
      var id := nextId;
      var c := NewCourse(id, data, now);
      rows := rows[id := c];
      nextId := nextId + 1;
      r := Ok(Join(c));
    }

    /** `update`: a falsy id or an unknown id fails, a patch with no known
        column fails, otherwise the row is changed as the UPDATE says. */
    method Update(id: string, patch: Object, now: int) returns (r: Result<KelasRow, Failure>)
      requires Valid()
      modifies this
      ensures Valid() && nextId == old(nextId)
      ensures id == "" ==> r == Err(IdRequired)
      ensures id != "" && Designated(old(rows), id).None? ==> r == Err(NotFound(id))
      ensures Designated(old(rows), id).Some? && DefinedAmong(patch, UpdatableColumns) == [] ==>
        r == Err(NoFieldsToUpdate)
      ensures r.Ok? <==> Designated(old(rows), id).Some? && DefinedAmong(patch, UpdatableColumns) != []
      ensures r.Err? ==> rows == old(rows)
      ensures r.Ok? ==>
        var k := Designated(old(rows), id).value;
        rows == old(rows)[k := Patched(old(rows)[k], patch, now)] && r.value == Join(rows[k])
    {
      if id == "" {
        return Err(IdRequired);
      }
      var existing := FindById(id);
      if existing.Err? || existing.value.None? {
        return Err(NotFound(id));
      }
      var k := existing.value.value.course.id;
      assert Designated(rows, id) == Some(k) && k in rows;
      var statement := BuildUpdate(id, patch);
      if statement.Err? {
        return Err(statement.error);
      }
      UpdateStatementMeansPatch(rows[k], id, patch, now);
      var updated := Execute(rows[k], statement.value.sets, statement.value.values, now);
      assert updated == Patched(rows[k], patch, now) && updated.id == k;
      rows := rows[k := updated];
      r := Ok(Join(updated));
    }

    /** `delete`: a falsy or unknown id fails; otherwise removes the row and
        returns it as it was read before the removal. */
    method Delete(id: string) returns (r: Result<KelasRow, Failure>)
      requires Valid()
      modifies this
      ensures Valid() && nextId == old(nextId)
      ensures id == "" ==> r == Err(IdRequired)
      ensures id != "" && Designated(old(rows), id).None? ==> r == Err(NotFound(id))
      ensures r.Ok? <==> Designated(old(rows), id).Some?
      ensures r.Err? ==> rows == old(rows)
      ensures r.Ok? ==>
        var k := Designated(old(rows), id).value;
        r.value == Join(old(rows)[k]) && rows == old(rows) - {k}
    {
      if id == "" {
        return Err(IdRequired);
      }
      var toDelete := FindById(id);
      if toDelete.Err? || toDelete.value.None? {
        return Err(NotFound(id));
      }
      var row := toDelete.value.value;
      rows := rows - {row.course.id};
      r := Ok(row);
    }
  }
}
