/** The course controller: the HTTP status and JSON body each handler sends,
    as a function of the request and of what the service returns. */
module KelasController {
  import opened Js
  import opened KelasModel
  import KelasService

  datatype Payload = OneKelas(row: KelasRow) | ManyKelas(rows: set<KelasRow>)

  /** `res.status(status).json({success, message, data, total, error})`;
      absent members are None. */
  datatype Response = Response(
    status: int, success: bool, message: string,
    data: Option<Payload>, total: Option<nat>, error: Option<string>)

  function Fail(status: int, message: string): Response {
    Response(status, false, message, None, None, None)
  }

  function ServerError(message: string, e: Failure): Response {
    Response(500, false, message, None, None, Some(Message(e)))
  }

  /** `!id || isNaN(id)` rejects; everything else is a valid `:id`. */
  predicate ValidId(id: string) {
    id != "" && !IsNaN(Str(id))
  }

  /** On an id the guard admits, MySQL's `kelas_id = ?` designates the key
      that `Number` reads, so the lookups by `:id` agree with the database. */
  lemma ValidIdDesignatesAlike(id: string)
    requires ValidId(id)
    ensures ToNumber(Str(id)).Some? && BoundKey(Str(id)) == ReferenceId(Str(id))
  {
    BoundKeyAgrees(id);
  }

  // ---------------------------------------------------------------- GET /api/kelas

  /** The service call `getAllKelas` picks. A query value is a string, or an
      array of strings when the parameter is repeated. */
  datatype ListPath = BySearch(term: JsVal) | ByCategory(id: JsVal) | ByLevel(level: JsVal)
                    | ByInstructor(name: JsVal) | AllKelas

  /** Exactly one path, by priority search > category > level > instructor > all,
      each taken on a truthy parameter. */
  function Route(query: Object): (p: ListPath)
    ensures p.BySearch? <==> Truthy(Get(query, "search"))
    ensures p.ByCategory? <==> !Truthy(Get(query, "search")) && Truthy(Get(query, "category"))
    ensures p.ByLevel? <==>
      !Truthy(Get(query, "search")) && !Truthy(Get(query, "category")) && Truthy(Get(query, "level"))
    ensures p.ByInstructor? <==>
      !Truthy(Get(query, "search")) && !Truthy(Get(query, "category")) && !Truthy(Get(query, "level"))
      && Truthy(Get(query, "instructor"))
    ensures p.AllKelas? <==>
      !Truthy(Get(query, "search")) && !Truthy(Get(query, "category")) && !Truthy(Get(query, "level"))
      && !Truthy(Get(query, "instructor"))
    ensures p.BySearch? ==> p.term == Get(query, "search")
    ensures p.ByCategory? ==> p.id == Get(query, "category")
    ensures p.ByLevel? ==> p.level == Get(query, "level")
    ensures p.ByInstructor? ==> p.name == Get(query, "instructor")
  {
    var search := Get(query, "search");
    var category := Get(query, "category");
    var level := Get(query, "level");
    var instructor := Get(query, "instructor");
    if Truthy(search) then BySearch(search)
    else if Truthy(category) then ByCategory(category)
    else if Truthy(level) then ByLevel(level)
    else if Truthy(instructor) then ByInstructor(instructor)
    else AllKelas
  }

  /** What the service returns on a path. */
  function List(t: KelasTable, p: ListPath): Result<set<KelasRow>, Failure>
    reads t
    requires t.Valid()
  {
    match p
    case BySearch(term) => KelasService.SearchKelas(t, term)
    case ByCategory(id) => KelasService.GetKelasByCategory(t, id)
    case ByLevel(level) => KelasService.GetKelasByLevel(t, level)
    case ByInstructor(name) => KelasService.GetKelasByInstructor(t, name)
    case AllKelas => Ok(t.FindAll())
  }

  /** `getAllKelas`: 200 with the rows and their count, or 500 with the
      service's message. */
  function GetAllKelas(t: KelasTable, query: Object): (r: Response)
    reads t
    requires t.Valid()
    ensures r.status == 200 <==> List(t, Route(query)).Ok?
    ensures r.status == 200 ==>
      r.success && r.data == Some(ManyKelas(List(t, Route(query)).value))
      && r.total == Some(|List(t, Route(query)).value|)
    ensures r.status != 200 ==>
      r == ServerError("Gagal mengambil data kelas", List(t, Route(query)).error)
  {
    match List(t, Route(query))
    case Ok(kelas) => Response(200, true, "Data kelas berhasil diambil", Some(ManyKelas(kelas)), Some(|kelas|), None)
    case Err(e) => ServerError("Gagal mengambil data kelas", e)
  }

  /** A path is only taken on a truthy value, so the category and level
      lookups never fail. The listing answers 200 unless the search term or
      the instructor name it searches by is not a string (a repeated query
      parameter), which makes the model's `trim()` throw and the request end
      as a 500 carrying the service's message. */
  lemma GetAllKelasOutcome(t: KelasTable, query: Object)
    requires t.Valid()
    ensures var p := Route(query);
      GetAllKelas(t, query).status == 200 <==>
        !(p.BySearch? && !p.term.Str?) && !(p.ByInstructor? && !p.name.Str?)
    ensures var p := Route(query);
      p.BySearch? && !p.term.Str? ==>
        GetAllKelas(t, query) == ServerError("Gagal mengambil data kelas", SearchFailed)
    ensures var p := Route(query);
      p.ByInstructor? && !p.name.Str? ==>
        GetAllKelas(t, query) == ServerError("Gagal mengambil data kelas", InstructorFailed)
    ensures Truthy(Get(query, "search")) && Get(query, "search").Str? ==>
      GetAllKelas(t, query).data == Some(ManyKelas(t.Search(Get(query, "search")).value))
  {
    var p := Route(query);
    if p.ByCategory? {
      assert Truthy(p.id);
    } else if p.ByLevel? {
      assert Truthy(p.level);
    }
  }

  // ---------------------------------------------------------------- GET /api/kelas/:id

  /** `getKelasById`: an invalid id is answered 400 before the service is
      asked; a 'not found' failure is 404, any other 500. */
  function GetKelasById(t: KelasTable, id: string): (r: Response)
    reads t
    requires t.Valid()
    ensures !ValidId(id) ==> r == Fail(400, "ID kelas tidak valid")
    ensures ValidId(id) && Designated(t.rows, id).None? ==> r == Fail(404, "Kelas tidak ditemukan")
    ensures ValidId(id) && Designated(t.rows, id).Some? ==>
      r.status == 200 && r.data == Some(OneKelas(t.Join(t.rows[Designated(t.rows, id).value])))
  {
    if !ValidId(id) then Fail(400, "ID kelas tidak valid")
    else match KelasService.GetKelasById(t, id)
      case Ok(kelas) => Response(200, true, "Data kelas berhasil diambil", Some(OneKelas(kelas)), None, None)
      case Err(e) =>
        if Mentions(e, NotFoundPhrase) then Fail(404, "Kelas tidak ditemukan")
        else ServerError("Gagal mengambil data kelas", e)
  }

  // ---------------------------------------------------------------- POST /api/kelas

  /** The early returns of `createKelas`, checked in order; None lets the
      request through to the service. */
  function CreateValidation(body: Object): (r: Option<Response>)
    ensures KelasService.MissingFields(body, KelasService.ServiceRequiredFields) != [] ==>
      r == Some(Fail(400, Message(FieldsRequired(KelasService.MissingFields(body, KelasService.ServiceRequiredFields)))))
    ensures (KelasService.MissingFields(body, KelasService.ServiceRequiredFields) == []
             && (IsNaN(Get(body, "harga")) || ToNumber(Get(body, "harga")).value <= 0.0)) ==>
      r == Some(Fail(400, "Harga harus berupa angka positif"))
    ensures r.None? <==>
      KelasService.MissingFields(body, KelasService.ServiceRequiredFields) == []
      && !IsNaN(Get(body, "harga")) && ToNumber(Get(body, "harga")).value > 0.0
      && !IsNaN(Get(body, "tutor_id")) && !IsNaN(Get(body, "kategori_id"))
    ensures r.Some? ==> r.value.status == 400 && !r.value.success
  {
    var missingFields := KelasService.MissingFields(body, KelasService.ServiceRequiredFields);
    var harga := Get(body, "harga");
    if |missingFields| > 0 then Some(Fail(400, Message(FieldsRequired(missingFields))))
    else if IsNaN(harga) || ToNumber(harga).value <= 0.0 then Some(Fail(400, "Harga harus berupa angka positif"))
    else if IsNaN(Get(body, "tutor_id")) || IsNaN(Get(body, "kategori_id")) then
      Some(Fail(400, "tutor_id dan kategori_id harus berupa angka"))
    else None
  }

  /** The response to the service's outcome on create. */
  function CreateOutcome(outcome: Result<KelasRow, Failure>): (r: Response)
    ensures outcome.Ok? <==> r.status == 201
    ensures outcome.Ok? ==> r.data == Some(OneKelas(outcome.value))
    ensures r.status == 409 <==>
      outcome.Err? && (Mentions(outcome.error, AlreadyExists) || Mentions(outcome.error, SudahAda))
    ensures r.status == 400 <==>
      outcome.Err? && !Mentions(outcome.error, AlreadyExists) && !Mentions(outcome.error, SudahAda)
      && Mentions(outcome.error, HarusDiisi)
    ensures r.status == 400 ==> r.message == Message(outcome.error)
    ensures r.status == 500 ==> r == ServerError("Gagal membuat kelas baru", outcome.error)
    ensures r.status in {201, 400, 409, 500}
  {
    match outcome
    case Ok(kelas) => Response(201, true, "Kelas berhasil dibuat", Some(OneKelas(kelas)), None, None)
    case Err(e) =>
      if Mentions(e, AlreadyExists) || Mentions(e, SudahAda) then Fail(409, "Kelas dengan judul tersebut sudah ada")
      else if Mentions(e, HarusDiisi) then Fail(400, Message(e))
      else ServerError("Gagal membuat kelas baru", e)
  }

  /** The status each failure of the create path is answered with. */
  lemma CreateFailureStatus(fields: seq<string>)
    requires forall f :: f in fields ==> f in KelasService.ServiceRequiredFields
    ensures CreateOutcome(Err(DuplicateTitle)) == Fail(409, "Kelas dengan judul tersebut sudah ada")
    ensures CreateOutcome(Err(FieldsRequired(fields))) == Fail(400, Message(FieldsRequired(fields)))
    ensures CreateOutcome(Err(MissingRequired)) == ServerError("Gagal membuat kelas baru", MissingRequired)
  {
    DuplicateTitleMentions(SudahAda);
    KelasService.FieldsRequiredPhrases(fields, AlreadyExists);
    KelasService.FieldsRequiredPhrases(fields, SudahAda);
    KelasService.FieldsRequiredPhrases(fields, HarusDiisi);
    MissingRequiredMentions(AlreadyExists);
    MissingRequiredMentions(SudahAda);
    MissingRequiredMentions(HarusDiisi);
  }

  /** `createKelas` end to end: a rejected body never reaches the table; a
      taken title is 409; a body without durasi passes every check here and
      in the service, and is rejected by the model's insert as a 500. */
  method CreateKelas(t: KelasTable, body: Object, now: int) returns (r: Response)
    requires t.Valid()
    modifies t
    ensures t.Valid()
    ensures CreateValidation(body).Some? ==> r == CreateValidation(body).value && t.rows == old(t.rows)
    ensures CreateValidation(body).None? && KelasService.TitleFree(old(t.rows), Get(body, "judul")) == false ==>
      r == Fail(409, "Kelas dengan judul tersebut sudah ada") && t.rows == old(t.rows)
    ensures (CreateValidation(body).None? && KelasService.TitleFree(old(t.rows), Get(body, "judul"))
             && !Truthy(Get(body, "durasi"))) ==>
      r == ServerError("Gagal membuat kelas baru", MissingRequired) && t.rows == old(t.rows)
    ensures r.status == 201 <==>
      CreateValidation(body).None? && KelasService.TitleFree(old(t.rows), Get(body, "judul"))
      && Truthy(Get(body, "durasi"))
    ensures r.status == 201 ==>
      t.rows == old(t.rows)[old(t.nextId) := NewCourse(old(t.nextId), body, now)]
      && r.data == Some(OneKelas(t.Join(NewCourse(old(t.nextId), body, now))))
    ensures r.status != 201 ==> t.rows == old(t.rows)
    ensures KelasService.UniqueTitles(old(t.rows)) ==> KelasService.UniqueTitles(t.rows)
  {
    var rejected := CreateValidation(body);
    if rejected.Some? {
      return rejected.value;
    }
    var outcome := KelasService.CreateKelas(t, body, now);
    CreateFailureStatus([]);
    r := CreateOutcome(outcome);
  }

  // ---------------------------------------------------------------- PUT/PATCH /api/kelas/:id

  /** `updateData[key] !== undefined` */
  predicate Present(body: Object, key: string) {
    Get(body, key) != Undefined
  }

  /** The early returns of `updateKelas`, checked in order. */
  function UpdateValidation(id: string, body: Object): (r: Option<Response>)
    ensures !ValidId(id) ==> r == Some(Fail(400, "ID kelas tidak valid"))
    ensures ValidId(id) && |body| == 0 ==> r == Some(Fail(400, "Data yang akan diupdate tidak boleh kosong"))
    ensures r.None? <==>
      ValidId(id) && |body| > 0
      && (Present(body, "harga") ==> !IsNaN(Get(body, "harga")) && ToNumber(Get(body, "harga")).value > 0.0)
      && (Present(body, "tutor_id") ==> !IsNaN(Get(body, "tutor_id")))
      && (Present(body, "kategori_id") ==> !IsNaN(Get(body, "kategori_id")))
    ensures r.Some? ==> r.value.status == 400
  {
    var harga := Get(body, "harga");
    if !ValidId(id) then Some(Fail(400, "ID kelas tidak valid"))
    else if |body| == 0 then Some(Fail(400, "Data yang akan diupdate tidak boleh kosong"))
    else if Present(body, "harga") && (IsNaN(harga) || ToNumber(harga).value <= 0.0) then
      Some(Fail(400, "Harga harus berupa angka positif"))
    else if Present(body, "tutor_id") && IsNaN(Get(body, "tutor_id")) then Some(Fail(400, "tutor_id harus berupa angka"))
    else if Present(body, "kategori_id") && IsNaN(Get(body, "kategori_id")) then
      Some(Fail(400, "kategori_id harus berupa angka"))
    else None
  }

  /** The response to the service's outcome on update. */
  function UpdateOutcome(outcome: Result<KelasRow, Failure>): (r: Response)
    ensures outcome.Ok? <==> r.status == 200
    ensures outcome.Ok? ==> r.data == Some(OneKelas(outcome.value))
    ensures r.status == 404 <==> outcome.Err? && Mentions(outcome.error, NotFoundPhrase)
    ensures r.status == 409 <==>
      outcome.Err? && !Mentions(outcome.error, NotFoundPhrase) && Mentions(outcome.error, SudahAda)
    ensures r.status == 500 ==> r == ServerError("Gagal memperbarui data kelas", outcome.error)
    ensures r.status in {200, 404, 409, 500}
  {
    match outcome
    case Ok(kelas) => Response(200, true, "Data kelas berhasil diperbarui", Some(OneKelas(kelas)), None, None)
    case Err(e) =>
      if Mentions(e, NotFoundPhrase) then Fail(404, "Kelas tidak ditemukan")
      else if Mentions(e, SudahAda) then Fail(409, "Kelas dengan judul tersebut sudah ada")
      else ServerError("Gagal memperbarui data kelas", e)
  }

  /** The status each failure of the update path is answered with. */
  lemma UpdateFailureStatus(id: string)
    ensures UpdateOutcome(Err(NotFound(id))) == Fail(404, "Kelas tidak ditemukan")
    ensures UpdateOutcome(Err(DuplicateTitle)) == Fail(409, "Kelas dengan judul tersebut sudah ada")
    ensures UpdateOutcome(Err(NoFieldsToUpdate)) == ServerError("Gagal memperbarui data kelas", NoFieldsToUpdate)
    ensures UpdateOutcome(Err(IdRequired)) == ServerError("Gagal memperbarui data kelas", IdRequired)
  {
    NotFoundMentions(id);
    DuplicateTitleMentions(NotFoundPhrase);
    DuplicateTitleMentions(SudahAda);
    NoFieldsToUpdateMentions(NotFoundPhrase);
    NoFieldsToUpdateMentions(SudahAda);
    IdRequiredMentions(NotFoundPhrase);
    IdRequiredMentions(SudahAda);
  }

  /** `updateKelas` end to end. A body naming no updatable column passes
      every check and ends as a 500 from the model's 'No fields to update'. */
  method UpdateKelas(t: KelasTable, id: string, body: Object, now: int) returns (r: Response)
    requires t.Valid()
    modifies t
    ensures t.Valid()
    ensures UpdateValidation(id, body).Some? ==> r == UpdateValidation(id, body).value && t.rows == old(t.rows)
    ensures UpdateValidation(id, body).None? && Designated(old(t.rows), id).None? ==>
      r == Fail(404, "Kelas tidak ditemukan") && t.rows == old(t.rows)
    ensures UpdateValidation(id, body).None? && Designated(old(t.rows), id).Some? ==>
      var k := Designated(old(t.rows), id).value;
      (Truthy(Get(body, "judul")) && old(t.rows)[k].judul != Get(body, "judul")
       && KelasService.HeldByOther(old(t.rows), Get(body, "judul"), k)) ==>
        r == Fail(409, "Kelas dengan judul tersebut sudah ada")
    ensures UpdateValidation(id, body).None? && Designated(old(t.rows), id).Some? ==>
      var k := Designated(old(t.rows), id).value;
      (!Truthy(Get(body, "judul")) || !KelasService.HeldByOther(old(t.rows), Get(body, "judul"), k)) ==>
        (DefinedAmong(body, UpdatableColumns) == [] ==> r == ServerError("Gagal memperbarui data kelas", NoFieldsToUpdate))
        && (DefinedAmong(body, UpdatableColumns) != [] ==> r.status == 200)
    ensures r.status == 200 ==>
      Designated(old(t.rows), id).Some?
      && var k := Designated(old(t.rows), id).value;
         t.rows == old(t.rows)[k := Patched(old(t.rows)[k], body, now)]
         && r.data == Some(OneKelas(t.Join(t.rows[k])))
    ensures r.status != 200 ==> t.rows == old(t.rows)
    ensures KelasService.UniqueTitles(old(t.rows)) ==> KelasService.UniqueTitles(t.rows)
  {
    var rejected := UpdateValidation(id, body);
    if rejected.Some? {
      return rejected.value;
    }
    var outcome := KelasService.UpdateKelas(t, id, body, now);
    UpdateFailureStatus(id);
    r := UpdateOutcome(outcome);
  }

  // ---------------------------------------------------------------- DELETE /api/kelas/:id

  /** The response to the service's outcome on delete. */
  function DeleteOutcome(outcome: Result<KelasRow, Failure>): (r: Response)
    ensures outcome.Ok? <==> r.status == 200
    ensures outcome.Ok? ==> r.data == Some(OneKelas(outcome.value))
    ensures r.status == 404 <==> outcome.Err? && Mentions(outcome.error, NotFoundPhrase)
    ensures r.status == 500 ==> r == ServerError("Gagal menghapus kelas", outcome.error)
    ensures r.status in {200, 404, 500}
  {
    match outcome
    case Ok(kelas) => Response(200, true, "Kelas berhasil dihapus", Some(OneKelas(kelas)), None, None)
    case Err(e) =>
      if Mentions(e, NotFoundPhrase) then Fail(404, "Kelas tidak ditemukan")
      else ServerError("Gagal menghapus kelas", e)
  }

  /** The status each failure of the delete path is answered with. */
  lemma DeleteFailureStatus(id: string)
    ensures DeleteOutcome(Err(NotFound(id))) == Fail(404, "Kelas tidak ditemukan")
    ensures DeleteOutcome(Err(IdRequired)) == ServerError("Gagal menghapus kelas", IdRequired)
  {
    NotFoundMentions(id);
    IdRequiredMentions(NotFoundPhrase);
  }

  /** `deleteKelas` end to end: 400 before the service for an invalid id,
      404 for an id designating no row, otherwise 200 with the removed row. */
  method DeleteKelas(t: KelasTable, id: string) returns (r: Response)
    requires t.Valid()
    modifies t
    ensures t.Valid()
    ensures !ValidId(id) ==> r == Fail(400, "ID kelas tidak valid") && t.rows == old(t.rows)
    ensures ValidId(id) && Designated(old(t.rows), id).None? ==>
      r == Fail(404, "Kelas tidak ditemukan") && t.rows == old(t.rows)
    ensures r.status == 200 <==> ValidId(id) && Designated(old(t.rows), id).Some?
    ensures r.status == 200 ==>
      var k := Designated(old(t.rows), id).value;
      t.rows == old(t.rows) - {k} && r.data == Some(OneKelas(t.Join(old(t.rows)[k])))
  {
    if !ValidId(id) {
      return Fail(400, "ID kelas tidak valid");
    }
    var outcome := KelasService.DeleteKelas(t, id);
    r := DeleteOutcome(outcome);
  }

  // ---------------------------------------------------------------- GET /api/kelas/search

  /** `searchKelas`: a falsy `q` is 400; a string is answered 200 with the
      matches and their count (none for a blank term); a repeated `q` makes
      the model's `trim()` throw and ends as a 500. */
  function SearchKelas(t: KelasTable, query: Object): (r: Response)
    reads t
    requires t.Valid()
    ensures !Truthy(Get(query, "q")) <==> r == Fail(400, "Parameter pencarian (q) diperlukan")
    ensures Truthy(Get(query, "q")) && Get(query, "q").Str? ==>
      r.status == 200 && r.data == Some(ManyKelas(t.Search(Get(query, "q")).value))
      && r.total == Some(|t.Search(Get(query, "q")).value|)
    ensures Truthy(Get(query, "q")) && !Get(query, "q").Str? ==>
      r == ServerError("Gagal mencari kelas", SearchFailed)
    ensures Truthy(Get(query, "q")) && Get(query, "q").Str? && Blank(Get(query, "q").s) ==> r.total == Some(0)
  {
    var q := Get(query, "q");
    if !Truthy(q) then Fail(400, "Parameter pencarian (q) diperlukan")
    else match KelasService.SearchKelas(t, q)
      case Ok(kelas) => Response(200, true, "Pencarian kelas berhasil", Some(ManyKelas(kelas)), Some(|kelas|), None)
      case Err(e) => ServerError("Gagal mencari kelas", e)
  }
}
