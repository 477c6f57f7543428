/** The course service: the checks it runs before delegating to the course
    model, and the fixed messages it puts on read-path failures. */
module KelasService {
  import opened Js
  import opened KelasModel

  /** The fields the service requires on create (durasi is not among them). */
  const ServiceRequiredFields: seq<string> := ["judul", "deskripsi", "harga", "tutor_id", "kategori_id"]

  /** `fields.filter(field => !data[field])`: the fields with a falsy value, in list order. */
  function MissingFields(data: Object, fields: seq<string>): (r: seq<string>)
    ensures forall x :: x in r <==> x in fields && !Truthy(Get(data, x))
    ensures IsSubsequence(r, fields)
  {
    if fields == [] then []
    else
      var rest := MissingFields(data, fields[1..]);
      if Truthy(Get(data, fields[0])) then rest else [fields[0]] + rest
  }

  /** No row holds exactly this title. */
  predicate TitleFree(rows: map<int, Course>, title: JsVal) {
    forall id :: id in rows ==> rows[id].judul != title
  }

  /** `findByTitle` finds nothing: the title is falsy, or no row holds it. */
  predicate TitleAccepted(rows: map<int, Course>, title: JsVal) {
    !Truthy(title) || TitleFree(rows, title)
  }

  /** Some row other than `k` holds exactly this title. */
  predicate HeldByOther(rows: map<int, Course>, title: JsVal, k: int) {
    exists id :: id in rows && id != k && rows[id].judul == title
  }

  /** No two rows share a truthy title. */
  predicate UniqueTitles(rows: map<int, Course>) {
    forall i, j :: i in rows && j in rows && i != j && Truthy(rows[i].judul) ==> rows[i].judul != rows[j].judul
  }

  /** `kelas_id != id` between a numeric key and the id string of the URL. */
  predicate LooselyDiffers(kelasId: int, id: string) {
    ToNumber(Str(id)) != Some(kelasId as real)
  }

  /** Once the id designates key `k`, the loose comparison is comparison with `k`. */
  lemma LooselyDiffersFromKey(kelasId: int, id: string, k: int)
    requires ReferenceId(Str(id)) == Some(k)
    ensures LooselyDiffers(kelasId, id) <==> kelasId != k
  {
  }

  /** `getKelasById`: the model's 'ID is required' passes through, and an
      id designating no row becomes 'not found'. */
  function GetKelasById(t: KelasTable, id: string): (r: Result<KelasRow, Failure>)
    reads t
    requires t.Valid()
    ensures id == "" ==> r == Err(IdRequired)
    ensures r.Ok? <==> Designated(t.rows, id).Some?
    ensures id != "" && r.Err? ==> r.error == NotFound(id) && Mentions(r.error, NotFoundPhrase)
    ensures r.Ok? ==> r.value == t.Join(t.rows[Designated(t.rows, id).value])
  {
    match t.FindById(id)
    case Err(e) => Err(e)
    case Ok(None) => NotFoundMentions(id); Err(NotFound(id))
    case Ok(Some(row)) => Ok(row)
  }

  /** `searchKelas`: the model's TypeError is replaced by a fixed message. */
  function SearchKelas(t: KelasTable, term: JsVal): (r: Result<set<KelasRow>, Failure>)
    reads t
    requires t.Valid()
    ensures r.Err? <==> Truthy(term) && !term.Str?
    ensures r.Err? ==> r.error == SearchFailed
    ensures r.Ok? ==> r == t.Search(term)
  {
    match t.Search(term)
    case Err(_) => Err(SearchFailed)
    case Ok(rows) => Ok(rows)
  }

  /** `getKelasByCategory`: the model's own error is replaced by a fixed message. */
  function GetKelasByCategory(t: KelasTable, categoryId: JsVal): (r: Result<set<KelasRow>, Failure>)
    reads t
    requires t.Valid()
    ensures r.Err? <==> !Truthy(categoryId)
    ensures r.Err? ==> r.error == CategoryFailed
    ensures r.Ok? ==> r == t.FindByCategory(categoryId)
  {
    match t.FindByCategory(categoryId)
    case Err(_) => Err(CategoryFailed)
    case Ok(rows) => Ok(rows)
  }

  /** `getKelasByLevel`: the model's own error is replaced by a fixed message;
      a truthy level returns every row. */
  function GetKelasByLevel(t: KelasTable, level: JsVal): (r: Result<set<KelasRow>, Failure>)
    reads t
    requires t.Valid()
    ensures r.Err? <==> !Truthy(level)
    ensures r.Err? ==> r.error == LevelFailed
    ensures r.Ok? ==> r.value == t.FindAll()
  {
    match t.FindByLevel(level)
    case Err(_) => Err(LevelFailed)
    case Ok(rows) => Ok(rows)
  }

  /** `getKelasByInstructor`: the model's TypeError is replaced by a fixed message. */
  function GetKelasByInstructor(t: KelasTable, name: JsVal): (r: Result<set<KelasRow>, Failure>)
    reads t
    requires t.Valid()
    ensures r.Err? <==> Truthy(name) && !name.Str?
    ensures r.Err? ==> r.error == InstructorFailed
    ensures r.Ok? ==> r == t.FindByInstructor(name)
  {
    match t.FindByInstructor(name)
    case Err(_) => Err(InstructorFailed)
    case Ok(rows) => Ok(rows)
  }

  /** The service's missing-fields message names fields from its own list, so
      it says 'harus diisi' and none of the other phrases the controller tests. */
  lemma FieldsRequiredPhrases(fields: seq<string>, p: Phrase)
    requires forall f :: f in fields ==> f in ServiceRequiredFields
    ensures Mentions(FieldsRequired(fields), p) <==> p == HarusDiisi
  {
    FieldsRequiredMentions(fields);
    match p
    case HarusDiisi =>
    case NotFoundPhrase => FieldsRequiredLacksN(fields);
    case AlreadyExists => FieldsRequiredLacksY(fields);
    case SudahAda => FieldsRequiredLacksSu(fields);
  }

  /** The letters of the required field names. */
  lemma RequiredNamesLackN()
    ensures forall f :: f in ServiceRequiredFields ==> 'n' !in f
  {
  }

  lemma RequiredNamesLackY()
    ensures forall f :: f in ServiceRequiredFields ==> 'y' !in f
  {
  }

  lemma RequiredNamesLackSu()
    ensures forall f :: f in ServiceRequiredFields ==> !Adjacent(f, 's', 'u')
  {
    assert !Adjacent("deskripsi", 's', 'u');
  }

  lemma FieldsRequiredLacksN(fields: seq<string>)
    requires forall f :: f in fields ==> f in ServiceRequiredFields
    ensures !Mentions(FieldsRequired(fields), NotFoundPhrase)
  {
    RequiredNamesLackN();
    JoinCommaLacks(fields, 'n');
    assert 'n' !in "Field berikut " + "harus diisi" + ": ";
    AbsentChar(Message(FieldsRequired(fields)), "not found", 0);
  }

  lemma FieldsRequiredLacksY(fields: seq<string>)
    requires forall f :: f in fields ==> f in ServiceRequiredFields
    ensures !Mentions(FieldsRequired(fields), AlreadyExists)
  {
    RequiredNamesLackY();
    JoinCommaLacks(fields, 'y');
    assert 'y' !in "Field berikut " + "harus diisi" + ": ";
    AbsentChar(Message(FieldsRequired(fields)), "already exists", 6);
  }

  lemma FieldsRequiredLacksSu(fields: seq<string>)
    requires forall f :: f in fields ==> f in ServiceRequiredFields
    ensures !Mentions(FieldsRequired(fields), SudahAda)
  {
    var head := "Field berikut " + "harus diisi" + ": ";
    RequiredNamesLackSu();
    JoinCommaNoPair(fields, 's', 'u');
    assert !Adjacent(head, 's', 'u');
    AdjacentAppend(head, JoinComma(fields), 's', 'u');
    assert Message(FieldsRequired(fields)) == head + JoinComma(fields);
    AbsentPair(head + JoinComma(fields), "sudah ada", 0);
  }

  /** A character in none of the items nor in the separator is not in the list. */
  lemma {:induction false} JoinCommaLacks(items: seq<string>, c: char)
    requires forall f :: f in items ==> c !in f
    requires c != ',' && c != ' '
    ensures c !in JoinComma(items)
  {
    if |items| > 1 {
      assert items[0] in items;
      assert forall f :: f in items[1..] ==> f in items;
      JoinCommaLacks(items[1..], c);
    } else if |items| == 1 {
      assert items[0] in items;
    }
  }

  /** Likewise for a pair of letters neither of which is a separator character:
      it stands in no item, and the separator offers it no seam. */
  lemma {:induction false} JoinCommaNoPair(items: seq<string>, x: char, y: char)
    requires forall f :: f in items ==> !Adjacent(f, x, y)
    requires x != ',' && x != ' ' && y != ',' && y != ' '
    ensures !Adjacent(JoinComma(items), x, y)
  {
    if |items| > 1 {
      assert items[0] in items;
      assert forall f :: f in items[1..] ==> f in items;
      JoinCommaNoPair(items[1..], x, y);
      assert !Adjacent(", ", x, y);
      AdjacentAppend(items[0], ", ", x, y);
      AdjacentAppend(items[0] + ", ", JoinComma(items[1..]), x, y);
      assert JoinComma(items) == items[0] + ", " + JoinComma(items[1..]);
    } else if |items| == 1 {
      assert items[0] in items;
    }
  }

  /** No missing service field means the five are all truthy. */
  lemma NoneMissing(data: Object)
    requires MissingFields(data, ServiceRequiredFields) == []
    ensures Truthy(Get(data, "judul")) && Truthy(Get(data, "deskripsi")) && Truthy(Get(data, "harga"))
    ensures Truthy(Get(data, "tutor_id")) && Truthy(Get(data, "kategori_id"))
  {
    var fs := ServiceRequiredFields;
    assert fs[0] == "judul" && fs[1] == "deskripsi" && fs[2] == "harga" && fs[3] == "tutor_id" && fs[4] == "kategori_id";
  }

  /** Inserting a row under a fresh key keeps titles unique when no row
      holds its truthy title. */
  lemma InsertKeepsUnique(rows: map<int, Course>, id: int, c: Course)
    requires id !in rows
    requires Truthy(c.judul) ==> TitleFree(rows, c.judul)
    ensures UniqueTitles(rows) ==> UniqueTitles(rows[id := c])
  {
    var after := rows[id := c];
    if UniqueTitles(rows) {
      forall i, j | i in after && j in after && i != j && Truthy(after[i].judul)
        ensures after[i].judul != after[j].judul
      {
        if i != id && j != id {
          assert after[i] == rows[i] && after[j] == rows[j];
        }
      }
    }
  }

  /** `createKelas`: the title check comes first, then the service's five
      required fields, then the model's insert with its own six. */
  method CreateKelas(t: KelasTable, data: Object, now: int) returns (r: Result<KelasRow, Failure>)
    requires t.Valid()
    modifies t
    ensures t.Valid()
    ensures !TitleAccepted(old(t.rows), Get(data, "judul")) <==> r == Err(DuplicateTitle)
    ensures TitleAccepted(old(t.rows), Get(data, "judul")) && MissingFields(data, ServiceRequiredFields) != [] ==>
      r == Err(FieldsRequired(MissingFields(data, ServiceRequiredFields)))
    ensures (TitleAccepted(old(t.rows), Get(data, "judul")) && MissingFields(data, ServiceRequiredFields) == []
             && !Truthy(Get(data, "durasi"))) ==> r == Err(MissingRequired)
    ensures (TitleAccepted(old(t.rows), Get(data, "judul")) && MissingFields(data, ServiceRequiredFields) == []
             && Truthy(Get(data, "durasi"))) ==> r.Ok?
    ensures r.Err? ==> t.rows == old(t.rows) && t.nextId == old(t.nextId)
    ensures r.Ok? ==>
      && HasRequired(data) && TitleFree(old(t.rows), Get(data, "judul"))
      && t.rows == old(t.rows)[old(t.nextId) := NewCourse(old(t.nextId), data, now)]
      && t.nextId == old(t.nextId) + 1
      && r.value == t.Join(NewCourse(old(t.nextId), data, now))
    ensures UniqueTitles(old(t.rows)) ==> UniqueTitles(t.rows)
  {
    var existingKelas := t.FindByTitle(Get(data, "judul"));
    if existingKelas.Some? {
      return Err(DuplicateTitle);
    }
    var missingFields := MissingFields(data, ServiceRequiredFields);
    if |missingFields| > 0 {
      return Err(FieldsRequired(missingFields));
    }
    NoneMissing(data);
    ghost var before := t.rows;
    ghost var id := t.nextId;
    r := t.Create(data, now);
    if r.Ok? {
      InsertKeepsUnique(before, id, NewCourse(id, data, now));
    }
  }

  /** `updateKelas`: the existence check comes first; a truthy new title is
      rejected only when some other row holds it; then the model's update. */
  method UpdateKelas(t: KelasTable, id: string, patch: Object, now: int) returns (r: Result<KelasRow, Failure>)
    requires t.Valid()
    modifies t
    ensures t.Valid() && t.nextId == old(t.nextId)
    ensures id == "" ==> r == Err(IdRequired)
    ensures id != "" && Designated(old(t.rows), id).None? ==> r == Err(NotFound(id))
    ensures Designated(old(t.rows), id).Some? && Truthy(Get(patch, "judul")) ==>
      var k := Designated(old(t.rows), id).value;
      (old(t.rows)[k].judul != Get(patch, "judul") && HeldByOther(old(t.rows), Get(patch, "judul"), k)) ==>
        r == Err(DuplicateTitle)
    ensures r == Err(DuplicateTitle) ==>
      Designated(old(t.rows), id).Some? && Truthy(Get(patch, "judul"))
      && HeldByOther(old(t.rows), Get(patch, "judul"), Designated(old(t.rows), id).value)
    ensures Designated(old(t.rows), id).Some? ==>
      var k := Designated(old(t.rows), id).value;
      (!Truthy(Get(patch, "judul")) || !HeldByOther(old(t.rows), Get(patch, "judul"), k)) ==>
        ((DefinedAmong(patch, UpdatableColumns) == [] <==> r == Err(NoFieldsToUpdate))
         && (DefinedAmong(patch, UpdatableColumns) != [] <==> r.Ok?))
    ensures r.Err? ==> t.rows == old(t.rows)
    ensures r.Ok? ==> Designated(old(t.rows), id).Some?
    ensures r.Ok? ==>
      var k := Designated(old(t.rows), id).value;
      t.rows == old(t.rows)[k := Patched(old(t.rows)[k], patch, now)] && r.value == t.Join(t.rows[k])
    ensures UniqueTitles(old(t.rows)) ==> UniqueTitles(t.rows)
  {
    var existingKelas := t.FindById(id);
    if existingKelas.Err? {
      return Err(existingKelas.error);
    }
    if existingKelas.value.None? {
      return Err(NotFound(id));
    }
    var k := existingKelas.value.value.course.id;
    var judul := Get(patch, "judul");
    if Truthy(judul) {
      var kelasWithSameTitle := t.FindByTitle(judul);
      if kelasWithSameTitle.Some? {
        LooselyDiffersFromKey(kelasWithSameTitle.value.kelasId, id, k);
        if LooselyDiffers(kelasWithSameTitle.value.kelasId, id) {
          return Err(DuplicateTitle);
        }
      }
    }
    ghost var before := t.rows;
    r := t.Update(id, patch, now);
    if r.Ok? && UniqueTitles(before) {
      UpdateKeepsUnique(before, k, patch, now);
    }
  }

  /** Patching row `k` keeps titles unique when no other row holds a truthy new title. */
  lemma UpdateKeepsUnique(rows: map<int, Course>, k: int, patch: Object, now: int)
    requires k in rows && UniqueTitles(rows)
    requires Truthy(Get(patch, "judul")) ==> !HeldByOther(rows, Get(patch, "judul"), k)
    ensures UniqueTitles(rows[k := Patched(rows[k], patch, now)])
  {
    var after := rows[k := Patched(rows[k], patch, now)];
    forall i, j | i in after && j in after && i != j && Truthy(after[i].judul)
      ensures after[i].judul != after[j].judul
    {
      if i != k && j != k {
        assert after[i] == rows[i] && after[j] == rows[j];
      } else if !Defined(patch, JudulCol) {
        assert after[k].judul == rows[k].judul;
        assert after[i].judul == rows[i].judul && after[j].judul == rows[j].judul;
      } else {
        var other := if i == k then j else i;
        assert after[other] == rows[other];
        assert after[k].judul == Get(patch, "judul");
        if Truthy(Get(patch, "judul")) {
          assert rows[other].judul != Get(patch, "judul");
        }
      }
    }
  }

  /** `deleteKelas`: the existence check comes before the model's delete. */
  method DeleteKelas(t: KelasTable, id: string) returns (r: Result<KelasRow, Failure>)
    requires t.Valid()
    modifies t
    ensures t.Valid() && t.nextId == old(t.nextId)
    ensures id == "" ==> r == Err(IdRequired)
    ensures id != "" && Designated(old(t.rows), id).None? ==> r == Err(NotFound(id)) && Mentions(r.error, NotFoundPhrase)
    ensures r.Ok? <==> Designated(old(t.rows), id).Some?
    ensures r.Err? ==> t.rows == old(t.rows)
    ensures r.Ok? ==>
      var k := Designated(old(t.rows), id).value;
      r.value == t.Join(old(t.rows)[k]) && t.rows == old(t.rows) - {k}
    ensures UniqueTitles(old(t.rows)) ==> UniqueTitles(t.rows)
  {
    var existingKelas := t.FindById(id);
    if existingKelas.Err? {
      return Err(existingKelas.error);
    }
    if existingKelas.value.None? {
      NotFoundMentions(id);
      return Err(NotFound(id));
    }
    r := t.Delete(id);
  }
}
