/** The home page's `getFilteredCourses`: the store's course list narrowed by
    the `filter` slice's selections and sorted by title. */
module HomePage {
  import opened Js
  import opened KelasSlice
  import opened FilterSlice

  /** `parseInt(price.replace(/[^0-9]/g, ''))`: the digits of the whole
      string read as one number, so "Rp 300K" is 300. */
  function ParsePriceToNumber(price: string): (r: Option<int>)
    ensures r.Some? <==> KeepDigits(price) != ""
    ensures r.Some? ==> r.value == DigitsValue(KeepDigits(price)) as int
  {
    var d := KeepDigits(price);
    if d != "" then ParseIntDigits(d); ParseIntString(d) else ParseIntString(d)
  }

  /** `parseFloat(rating.split(' ')[0])`: "4.2 (124)" reads as 4.2. */
  function ParseRating(rating: string): (r: Option<real>)
    ensures ' ' !in rating ==> r == ParseFloat(rating)
    ensures rating != "" && IsDigit(rating[0]) ==> r.Some? && r.value >= 0.0
  {
    SplitFirstPiece(rating, ' ');
    ParseFloat(Split(rating, ' ')[0])
  }

  /** `parseInt(duration.replace(/[^0-9]/g, ''))` */
  function ParseDuration(duration: string): (r: Option<int>)
    ensures r.None? <==> KeepDigits(duration) == ""
    ensures r.Some? ==> r.value >= 0
  {
    ParsePriceToNumber(duration)
  }

  /** `priceRange.split('-').map(Number)` read as `[min, max]`; a missing
      piece is undefined, so NaN. */
  function PriceBounds(priceRange: string): (r: (Option<real>, Option<real>))
    ensures '-' !in priceRange ==> r == (StringToNumber(priceRange), None)
  {
    if '-' !in priceRange then SplitNoSeparator(priceRange, '-'); (StringToNumber(priceRange), None) else
    var pieces := Split(priceRange, '-');
    (StringToNumber(pieces[0]), if |pieces| > 1 then StringToNumber(pieces[1]) else None)
  }

  /** `x >= min && x <= max`, every comparison with NaN being false. */
  predicate Between(x: Option<int>, bounds: (Option<real>, Option<real>)) {
    x.Some? && bounds.0.Some? && bounds.1.Some? && bounds.0.value <= x.value as real <= bounds.1.value
  }

  predicate KeepsCategory(filter: FilterState, c: CourseItem) {
    |filter.category| == 0 || c.category in filter.category
  }

  predicate KeepsPrice(filter: FilterState, c: CourseItem) {
    filter.priceRange == "" || Between(ParsePriceToNumber(c.price), PriceBounds(filter.priceRange))
  }

  predicate KeepsRating(filter: FilterState, c: CourseItem) {
    filter.rating == "" ||
    (ParseRating(c.rating).Some? && ParseFloat(filter.rating).Some?
     && ParseRating(c.rating).value >= ParseFloat(filter.rating).value)
  }

  /** The duration buckets: under 4 hours, 4 to 8 inclusive, over 8; any
      other selection keeps every course. */
  predicate InBucket(bucket: string, d: Option<int>)
    ensures d.None? ==> (InBucket(bucket, d) <==> !(bucket == "0-4" || bucket == "4-8" || bucket == "8+"))
  {
    if bucket == "0-4" then d.Some? && d.value < 4
    else if bucket == "4-8" then d.Some? && 4 <= d.value <= 8
    else if bucket == "8+" then d.Some? && d.value > 8
    else true
  }

  predicate KeepsDuration(filter: FilterState, c: CourseItem) {
    filter.duration == "" || InBucket(filter.duration, ParseDuration(c.duration))
  }

  /** A course whose duration reads as a number is kept by exactly one of
      the three buckets. */
  lemma DurationInOneBucket(filter: FilterState, c: CourseItem)
    requires ParseDuration(c.duration).Some?
    ensures var short := KeepsDuration(filter.(duration := "0-4"), c);
      var mid := KeepsDuration(filter.(duration := "4-8"), c);
      var long := KeepsDuration(filter.(duration := "8+"), c);
      (short || mid || long) && !(short && mid) && !(short && long) && !(mid && long)
  {
    var d := ParseDuration(c.duration);
    assert "0-4"[0] == '0' && "4-8"[0] == '4' && "8+"[0] == '8';
    assert InBucket("0-4", d) <==> d.value < 4;
    assert InBucket("4-8", d) <==> 4 <= d.value <= 8;
    assert InBucket("8+", d) <==> d.value > 8;
    assert KeepsDuration(filter.(duration := "0-4"), c) == InBucket("0-4", d);
    assert KeepsDuration(filter.(duration := "4-8"), c) == InBucket("4-8", d);
    assert KeepsDuration(filter.(duration := "8+"), c) == InBucket("8+", d);
  }

  predicate ExactlyOne(a: bool, b: bool, c: bool) {
    (a || b || c) && !(a && b) && !(a && c) && !(b && c)
  }

  /** Three filters of one step that each course passes exactly one of split
      the list between them. */
  lemma StepsSplit(courses: seq<CourseItem>, step: Step, f1: FilterState, f2: FilterState, f3: FilterState)
    requires forall c :: c in courses ==> ExactlyOne(Keeps(step, f1, c), Keeps(step, f2, c), Keeps(step, f3, c))
    ensures multiset(FilterStep(courses, f1, step)) + multiset(FilterStep(courses, f2, step))
      + multiset(FilterStep(courses, f3, step)) == multiset(courses)
  {
    var r1, r2, r3 := FilterStep(courses, f1, step), FilterStep(courses, f2, step), FilterStep(courses, f3, step);
    forall c
      ensures (multiset(r1) + multiset(r2) + multiset(r3))[c] == multiset(courses)[c]
    {
      if c !in courses {
        assert multiset(courses)[c] == 0;
      }
    }
  }

  /** When every duration reads as a number, the three buckets split the
      course list between them: each copy of a course lands in one bucket. */
  lemma BucketsSplitCourses(courses: seq<CourseItem>, filter: FilterState)
    requires forall c :: c in courses ==> ParseDuration(c.duration).Some?
    ensures multiset(FilterStep(courses, filter.(duration := "0-4"), ByDuration))
      + multiset(FilterStep(courses, filter.(duration := "4-8"), ByDuration))
      + multiset(FilterStep(courses, filter.(duration := "8+"), ByDuration))
      == multiset(courses)
  {
    var f1, f2, f3 := filter.(duration := "0-4"), filter.(duration := "4-8"), filter.(duration := "8+");
    forall c | c in courses
      ensures ExactlyOne(Keeps(ByDuration, f1, c), Keeps(ByDuration, f2, c), Keeps(ByDuration, f3, c))
    {
      DurationInOneBucket(filter, c);
    }
    StepsSplit(courses, ByDuration, f1, f2, f3);
  }

  /** A case-insensitive substring of the title or the description. */
  predicate KeepsSearch(filter: FilterState, c: CourseItem) {
    filter.search == ""
    || Contains(Lower(c.title), Lower(filter.search)) || Contains(Lower(c.description), Lower(filter.search))
  }

  /** The five `.filter` steps, in the order they are applied. */
  datatype Step = ByCategory | ByPrice | ByRating | ByDuration | BySearch

  predicate Keeps(step: Step, filter: FilterState, c: CourseItem) {
    match step
    case ByCategory => KeepsCategory(filter, c)
    case ByPrice => KeepsPrice(filter, c)
    case ByRating => KeepsRating(filter, c)
    case ByDuration => KeepsDuration(filter, c)
    case BySearch => KeepsSearch(filter, c)
  }

  /** `courses.filter(...)` for one step: every copy of a kept course, in order. */
  function FilterStep(courses: seq<CourseItem>, filter: FilterState, step: Step): (r: seq<CourseItem>)
    ensures forall c :: c in r <==> c in courses && Keeps(step, filter, c)
    ensures forall c :: multiset(r)[c] == if Keeps(step, filter, c) then multiset(courses)[c] else 0
    ensures IsSubsequence(r, courses)
  {
    var keep := (c: CourseItem) => Keeps(step, filter, c);
    FilterSubsequence(courses, keep);
    Filter(courses, keep)
  }

  /** The step's selection is set. */
  predicate Active(step: Step, filter: FilterState) {
    match step
    case ByCategory => |filter.category| > 0
    case ByPrice => filter.priceRange != ""
    case ByRating => filter.rating != ""
    case ByDuration => filter.duration != ""
    case BySearch => filter.search != ""
  }

  /** `if (selection) filtered = filtered.filter(...)`; an inactive step
      would have kept every course anyway. */
  function Apply(courses: seq<CourseItem>, filter: FilterState, step: Step): (r: seq<CourseItem>)
    ensures forall c :: c in r <==> c in courses && Keeps(step, filter, c)
    ensures forall c :: multiset(r)[c] == if Keeps(step, filter, c) then multiset(courses)[c] else 0
    ensures IsSubsequence(r, courses)
  {
    if Active(step, filter) then FilterStep(courses, filter, step)
    else
      SubsequenceRefl(courses);
      assert forall c :: !(c in courses && !Keeps(step, filter, c));
      courses
  }

  /** Every active selection holds of the course. */
  predicate Kept(filter: FilterState, c: CourseItem) {
    Keeps(ByCategory, filter, c) && Keeps(ByPrice, filter, c) && Keeps(ByRating, filter, c)
    && Keeps(ByDuration, filter, c) && Keeps(BySearch, filter, c)
  }

  /** The filter chain in the page's order. */
  function Narrowed(courses: seq<CourseItem>, filter: FilterState): (r: seq<CourseItem>)
    ensures forall c :: c in r <==> c in courses && Kept(filter, c)
    ensures forall c :: multiset(r)[c] == if Kept(filter, c) then multiset(courses)[c] else 0
    ensures multiset(r) <= multiset(courses)
    ensures IsSubsequence(r, courses)
  {
    var byCategory := Apply(courses, filter, ByCategory);
    var byPrice := Apply(byCategory, filter, ByPrice);
    var byRating := Apply(byPrice, filter, ByRating);
    var byDuration := Apply(byRating, filter, ByDuration);
    SubsequenceTrans(byPrice, byCategory, courses);
    SubsequenceTrans(byRating, byPrice, courses);
    SubsequenceTrans(byDuration, byRating, courses);
    var r := Apply(byDuration, filter, BySearch);
    SubsequenceTrans(r, byDuration, courses);
    r
  }

  /** `a.title.localeCompare(b.title)` for 'asc', reversed for 'desc'. */
  function TitleOrder(sort: string, collate: (string, string) -> int): (CourseItem, CourseItem) -> real {
    if sort == "asc" then (a: CourseItem, b: CourseItem) => collate(a.title, b.title) as real
    else (a: CourseItem, b: CourseItem) => collate(b.title, a.title) as real
  }

  /** `getFilteredCourses(courses, filter)`, with `localeCompare` given as `collate`. */
  function GetFilteredCourses(courses: seq<CourseItem>, filter: FilterState, collate: (string, string) -> int)
    : (r: seq<CourseItem>)
    ensures forall c :: c in r <==> c in courses && Kept(filter, c)
    ensures forall c :: multiset(r)[c] == if Kept(filter, c) then multiset(courses)[c] else 0
    ensures multiset(r) <= multiset(courses)
    ensures filter.sort != "asc" && filter.sort != "desc" ==> r == Narrowed(courses, filter)
  {
    var filtered := Narrowed(courses, filter);
    if filter.sort == "asc" || filter.sort == "desc" then
      var sorted := SortBy(filtered, TitleOrder(filter.sort, collate));
      assert multiset(sorted) == multiset(filtered);
      assert multiset(filtered) <= multiset(courses);
      sorted
    else filtered
  }

  /** `localeCompare` as a consistent comparison of titles. */
  ghost predicate CollationOrder(collate: (string, string) -> int) {
    (forall a, b :: collate(a, b) <= 0 || collate(b, a) <= 0)
    && (forall a, b, c :: collate(a, b) <= 0 && collate(b, c) <= 0 ==> collate(a, c) <= 0)
  }

  /** With a consistent collation, 'asc' yields titles in ascending and 'desc'
      in descending collation order. */
  lemma SortedByTitle(courses: seq<CourseItem>, filter: FilterState, collate: (string, string) -> int)
    requires CollationOrder(collate)
    requires filter.sort == "asc" || filter.sort == "desc"
    ensures var r := GetFilteredCourses(courses, filter, collate);
      forall i, j :: 0 <= i < j < |r| ==>
        (if filter.sort == "asc" then collate(r[i].title, r[j].title) else collate(r[j].title, r[i].title)) <= 0
  {
    var cmp := TitleOrder(filter.sort, collate);
    var filtered := Narrowed(courses, filter);
    assert forall a: CourseItem, b: CourseItem :: cmp(a, b) <= 0.0 <==>
      (if filter.sort == "asc" then collate(a.title, b.title) else collate(b.title, a.title)) <= 0;
    SortBySorted(filtered, cmp);
  }

  /** Without a selection nothing is dropped, and without a sort the order is kept. */
  lemma NoSelectionKeepsAll(courses: seq<CourseItem>, filter: FilterState, collate: (string, string) -> int)
    requires filter.category == [] && filter.priceRange == "" && filter.rating == ""
    requires filter.duration == "" && filter.search == ""
    requires filter.sort != "asc" && filter.sort != "desc"
    ensures GetFilteredCourses(courses, filter, collate) == courses
  {
  }

  lemma DecimalDigit(i: char, f: char)
    requires IsDigit(i) && IsDigit(f)
    ensures Decimal([i], [f]) == DigitValue(i) as real + DigitValue(f) as real / 10.0
  {
    assert [i][..0] == "" && [f][..0] == "";
    assert DigitsValue([i]) == DigitValue(i);
    assert DigitsValue([f]) == DigitValue(f);
    assert Pow10(|[f]|) == 10;
  }

  /** `parseFloat` of the one-decimal numeral `i.f` that starts `s`. */
  lemma ParseTenths(s: string, i: char, f: char, rest: string)
    requires IsDigit(i) && IsDigit(f) && (rest == "" || !IsDigit(rest[0]))
    requires |s| == 3 + |rest| && s[0] == i && s[1] == '.' && s[2] == f && s[3..] == rest
    ensures ParseFloat(s) == Some(DigitValue(i) as real + DigitValue(f) as real / 10.0)
  {
    assert s == [i] + "." + [f] + rest;
    ParseFloatDecimal([i], [f], rest);
    DecimalDigit(i, f);
  }

  lemma RatingOfSample()
    ensures ParseRating("4.2 (124)") == Some(4.2)
  {
    var s := "4.2 (124)";
    assert s[..3] == "4.2" && s[3] == ' ';
    SplitHead(s, ' ', 3);
    ParseTenths("4.2", '4', '2', "");
    assert DigitValue('4') == 4 && DigitValue('2') == 2;
  }

  lemma ParseFour()
    ensures ParseFloat("4.0") == Some(4.0)
  {
    assert TrimStart("4.0") == "4.0" && SignAndRest("4.0") == (false, "4.0");
    assert LeadingDigits("4.0") == "4" && "4.0"[1..][1..] == "0";
    assert LeadingDigits("0") == "0" && Decimal("4", "0") == 4.0;
  }

  lemma ParseFourHalf()
    ensures ParseFloat("4.5") == Some(4.5)
  {
    assert TrimStart("4.5") == "4.5" && SignAndRest("4.5") == (false, "4.5");
    assert LeadingDigits("4.5") == "4" && "4.5"[1..][1..] == "5";
    assert LeadingDigits("5") == "5" && Decimal("4", "5") == 4.5;
  }

  /** The rating selection compares the leading token of the course's
      rating: "4.2 (124)" passes "4.0" and fails "4.5". */
  lemma RatingTokenExample(filter: FilterState, c: CourseItem)
    requires c.rating == "4.2 (124)"
    ensures KeepsRating(filter.(rating := "4.0"), c)
    ensures !KeepsRating(filter.(rating := "4.5"), c)
  {
    RatingOfSample();
    ParseFour();
    ParseFourHalf();
  }

  /** A range selection whose bounds are digit strings. */
  lemma RangeBounds(lo: string, hi: string)
    requires AllDigits(lo) && AllDigits(hi) && lo != "" && hi != ""
    ensures PriceBounds(lo + "-" + hi) == (Some(DigitsValue(lo) as real), Some(DigitsValue(hi) as real))
  {
    assert '-' !in lo && '-' !in hi;
    SplitPair(lo, hi, '-');
    NumberOfDigits(lo);
    NumberOfDigits(hi);
  }

  /** A price written in thousands, "Rp nK" as the course data has it, reads
      as n: the parser drops the "K" together with the other non-digits. */
  lemma ThousandsPrice(n: nat)
    ensures ParsePriceToNumber("Rp " + NatText(n) + "K") == Some(n)
  {
    var t := NatText(n);
    KeepDigitsAppend("Rp " + t, "K");
    KeepDigitsAppend("Rp ", t);
    KeepDigitsOfDigits(t);
    assert KeepDigits("K") == "";
    assert KeepDigits("Rp ") == "";
    assert KeepDigits("Rp " + t + "K") == t;
    NatTextValue(n);
  }

  /** So a course priced "Rp nK" is kept by the range "lo-hi" exactly when
      lo <= n <= hi: "Rp 300K" falls in "0-200000", not in "300000-400000". */
  lemma ThousandsPriceInRange(filter: FilterState, c: CourseItem, n: nat, lo: nat, hi: nat)
    requires c.price == "Rp " + NatText(n) + "K"
    ensures KeepsPrice(filter.(priceRange := NatText(lo) + "-" + NatText(hi)), c) <==> lo <= n <= hi
  {
    ThousandsPrice(n);
    RangeBounds(NatText(lo), NatText(hi));
    NatTextValue(lo);
    NatTextValue(hi);
  }
}
