/** The course section's `filteredAndSortedCourses`: the courses of the
    active category tab that match the search box, sorted by the chosen
    option. */
module CourseSection {
  import opened Js
  import opened KelasSlice

  const AllCategories := "Semua Kelas"

  /** `(x || 0)` as the operand of `-`: the empty string is 0, any other
      string is coerced with `Number`. None stands for NaN. */
  function Numeric(x: string): (r: Option<real>)
    ensures x == "" ==> r == Some(0.0)
  {
    if x == "" then Some(0.0) else StringToNumber(x)
  }

  /** `a - b` as the sort reads it: a NaN difference counts as 0. */
  function Difference(a: Option<real>, b: Option<real>): real {
    if a.Some? && b.Some? then a.value - b.value else 0.0
  }

  /** The numeric value a sort option orders by. */
  datatype NumericKey = Price | Rating

  function KeyOf(key: NumericKey, c: CourseItem): Option<real> {
    match key
    case Price => Numeric(c.price)
    case Rating => Numeric(c.rating)
  }

  /** Ascending or descending by a numeric key. */
  function ByNumber(key: NumericKey, ascending: bool): (CourseItem, CourseItem) -> real {
    if ascending then (a: CourseItem, b: CourseItem) => Difference(KeyOf(key, a), KeyOf(key, b))
    else (a: CourseItem, b: CourseItem) => Difference(KeyOf(key, b), KeyOf(key, a))
  }

  /** The `switch (sortBy)` comparator, `localeCompare` given as `collate`. */
  function Comparator(sortBy: string, collate: (string, string) -> int): (cmp: (CourseItem, CourseItem) -> real)
    ensures !KnownSort(sortBy) ==> forall a, b :: cmp(a, b) == 0.0
    ensures sortBy == "price-high" ==> forall a, b :: cmp(a, b) == ByNumber(Price, true)(b, a)
    ensures sortBy == "rating-high" ==> forall a, b :: cmp(a, b) == ByNumber(Rating, true)(b, a)
    ensures sortBy == "z-a" ==> forall a, b :: cmp(a, b) == collate(b.title, a.title) as real
  {
    if sortBy == "price-low" then ByNumber(Price, true)
    else if sortBy == "price-high" then ByNumber(Price, false)
    else if sortBy == "a-z" then (a: CourseItem, b: CourseItem) => collate(a.title, b.title) as real
    else if sortBy == "z-a" then (a: CourseItem, b: CourseItem) => collate(b.title, a.title) as real
    else if sortBy == "rating-high" then ByNumber(Rating, false)
    else if sortBy == "rating-low" then ByNumber(Rating, true)
    else (a: CourseItem, b: CourseItem) => 0.0
  }

  predicate KnownSort(sortBy: string) {
    sortBy in ["price-low", "price-high", "a-z", "z-a", "rating-high", "rating-low"]
  }

  predicate InCategory(activeCategory: string, c: CourseItem) {
    activeCategory == AllCategories || c.category == activeCategory
  }

  /** A case-insensitive substring of the title, description, tutor's name or category. */
  predicate MatchesSearch(searchTerm: string, c: CourseItem) {
    var q := Lower(searchTerm);
    searchTerm == ""
    || Contains(Lower(c.title), q) || Contains(Lower(c.description), q)
    || Contains(Lower(c.tutorName), q) || Contains(Lower(c.category), q)
  }

  /** `courses.filter(c => c.category === activeCategory)` */
  function ByCategory(courses: seq<CourseItem>, activeCategory: string): (r: seq<CourseItem>)
    ensures forall c :: c in r <==> c in courses && InCategory(activeCategory, c)
    ensures forall c :: multiset(r)[c] == if InCategory(activeCategory, c) then multiset(courses)[c] else 0
    ensures IsSubsequence(r, courses)
  {
    var keep := (c: CourseItem) => InCategory(activeCategory, c);
    FilterSubsequence(courses, keep);
    Filter(courses, keep)
  }

  /** `courses.filter(...)` with the search box's term. */
  function BySearch(courses: seq<CourseItem>, searchTerm: string): (r: seq<CourseItem>)
    ensures forall c :: c in r <==> c in courses && MatchesSearch(searchTerm, c)
    ensures forall c :: multiset(r)[c] == if MatchesSearch(searchTerm, c) then multiset(courses)[c] else 0
    ensures IsSubsequence(r, courses)
  {
    var keep := (c: CourseItem) => MatchesSearch(searchTerm, c);
    FilterSubsequence(courses, keep);
    Filter(courses, keep)
  }

  /** The filter steps, each applied only when its selection is set. */
  function Filtered(courses: seq<CourseItem>, activeCategory: string, searchTerm: string): (r: seq<CourseItem>)
    ensures forall c :: c in r <==> c in courses && InCategory(activeCategory, c) && MatchesSearch(searchTerm, c)
    ensures forall c ::
              multiset(r)[c] == if InCategory(activeCategory, c) && MatchesSearch(searchTerm, c) then multiset(courses)[c] else 0
    ensures multiset(r) <= multiset(courses)
    ensures IsSubsequence(r, courses)
  {
    SubsequenceRefl(courses);
    var byCategory := if activeCategory != AllCategories then ByCategory(courses, activeCategory) else courses;
    if searchTerm != "" then
      var r := BySearch(byCategory, searchTerm);
      SubsequenceTrans(r, byCategory, courses);
      r
    else byCategory
  }

  /** `filteredAndSortedCourses`: a permutation of the filtered courses; with
      no sort option the filtered order itself. */
  function FilteredAndSorted(courses: seq<CourseItem>, activeCategory: string, searchTerm: string, sortBy: string,
                             collate: (string, string) -> int): (r: seq<CourseItem>)
    ensures forall c :: c in r <==> c in courses && InCategory(activeCategory, c) && MatchesSearch(searchTerm, c)
    ensures multiset(r) == multiset(Filtered(courses, activeCategory, searchTerm))
    ensures multiset(r) <= multiset(courses)
    ensures sortBy == "" ==> r == Filtered(courses, activeCategory, searchTerm)
  {
    var filtered := Filtered(courses, activeCategory, searchTerm);
    if sortBy != "" then
      var sorted := SortBy(filtered, Comparator(sortBy, collate));
      assert multiset(sorted) == multiset(filtered) <= multiset(courses);
      sorted
    else filtered
  }

  /** An unknown option compares every pair as 0, so the filtered order is kept. */
  lemma UnknownSortKeepsOrder(courses: seq<CourseItem>, activeCategory: string, searchTerm: string, sortBy: string,
                              collate: (string, string) -> int)
    requires !KnownSort(sortBy)
    ensures FilteredAndSorted(courses, activeCategory, searchTerm, sortBy, collate)
         == Filtered(courses, activeCategory, searchTerm)
  {
    if sortBy != "" {
      var filtered := Filtered(courses, activeCategory, searchTerm);
      var cmp := Comparator(sortBy, collate);
      assert forall a, b :: cmp(a, b) == 0.0;
      SortByKeepsSorted(filtered, cmp);
    }
  }

  /** When every course has a numeric key the comparator is consistent. */
  lemma ByNumberConsistent(s: seq<CourseItem>, key: NumericKey, ascending: bool)
    requires forall c :: c in s ==> KeyOf(key, c).Some?
    ensures ConsistentOn(s, ByNumber(key, ascending))
  {
  }

  /** The courses in the order of their key values. */
  ghost predicate OrderedBy(r: seq<CourseItem>, key: NumericKey, ascending: bool)
    requires forall c :: c in r ==> KeyOf(key, c).Some?
  {
    forall i, j :: 0 <= i < j < |r| ==>
      if ascending then KeyOf(key, r[i]).value <= KeyOf(key, r[j]).value
      else KeyOf(key, r[i]).value >= KeyOf(key, r[j]).value
  }

  /** The price and rating options order the courses by that value (an
      empty one counting as 0) whenever every value is numeric; "Rp 300K"
      or "4.2 (124)" are not, and make the comparator answer 0. */
  lemma NumericSortOrders(courses: seq<CourseItem>, activeCategory: string, searchTerm: string, sortBy: string,
                          collate: (string, string) -> int)
    requires sortBy in ["price-low", "price-high", "rating-high", "rating-low"]
    requires var key := if sortBy in ["price-low", "price-high"] then Price else Rating;
      forall c :: c in courses ==> KeyOf(key, c).Some?
    ensures var key := if sortBy in ["price-low", "price-high"] then Price else Rating;
      var r := FilteredAndSorted(courses, activeCategory, searchTerm, sortBy, collate);
      (forall c :: c in r ==> KeyOf(key, c).Some?)
      && OrderedBy(r, key, sortBy in ["price-low", "rating-low"])
  {
    var key := if sortBy in ["price-low", "price-high"] then Price else Rating;
    var ascending := sortBy in ["price-low", "rating-low"];
    var filtered := Filtered(courses, activeCategory, searchTerm);
    var cmp := ByNumber(key, ascending);
    assert Comparator(sortBy, collate) == cmp;
    ByNumberConsistent(filtered, key, ascending);
    SortBySorted(filtered, cmp);
    var r := SortBy(filtered, cmp);
    forall i, j | 0 <= i < j < |r|
      ensures if ascending then KeyOf(key, r[i]).value <= KeyOf(key, r[j]).value
              else KeyOf(key, r[i]).value >= KeyOf(key, r[j]).value
    {
      assert r[i] in r && r[j] in r;
      assert cmp(r[i], r[j]) <= 0.0;
    }
  }

  /** 'a-z' and 'z-a' order by title under a consistent collation. */
  lemma TitleSortOrders(courses: seq<CourseItem>, activeCategory: string, searchTerm: string, sortBy: string,
                        collate: (string, string) -> int)
    requires sortBy == "a-z" || sortBy == "z-a"
    requires (forall a, b :: collate(a, b) <= 0 || collate(b, a) <= 0)
    requires forall a, b, c :: collate(a, b) <= 0 && collate(b, c) <= 0 ==> collate(a, c) <= 0
    ensures var r := FilteredAndSorted(courses, activeCategory, searchTerm, sortBy, collate);
      forall i, j :: 0 <= i < j < |r| ==>
        (if sortBy == "a-z" then collate(r[i].title, r[j].title) else collate(r[j].title, r[i].title)) <= 0
  {
    var filtered := Filtered(courses, activeCategory, searchTerm);
    var cmp := Comparator(sortBy, collate);
    assert forall a: CourseItem, b: CourseItem :: cmp(a, b) <= 0.0 <==>
      (if sortBy == "a-z" then collate(a.title, b.title) else collate(b.title, a.title)) <= 0;
    SortBySorted(filtered, cmp);
  }
}
