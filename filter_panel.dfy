/** The sidebar filter panel: its local selections, the category list it
    offers, and what it reports to `onFilterChange`. */
module FilterPanel {
  import opened Js
  import opened KelasSlice
  import FilterSlice

  datatype ActiveFilters = ActiveFilters(category: seq<string>, priceRange: string, rating: string, duration: string)

  const NoFilters := ActiveFilters([], "", "", "")

  /** The radio groups `handleFilterChange` is called for. */
  datatype FilterKey = PriceRange | Rating | Duration

  /** The "Filter Aktif" summary is rendered. */
  predicate SummaryShown(f: ActiveFilters)
    ensures SummaryShown(f) <==> f != NoFilters
  {
    |f.category| > 0 || f.priceRange != "" || f.rating != "" || f.duration != ""
  }

  /** Index of the first occurrence of `x`. */
  function FirstIndex(s: seq<string>, x: string): (i: nat)
    requires x in s
    ensures i < |s| && s[i] == x && x !in s[..i]
  {
    if s[0] == x then 0
    else
      assert s[..FirstIndex(s[1..], x) + 1] == [s[0]] + s[1..][..FirstIndex(s[1..], x)];
      FirstIndex(s[1..], x) + 1
  }

  /** `[...new Set(s)]`: each value once, in order of first occurrence. */
  function Deduplicate(s: seq<string>): (r: seq<string>)
    ensures forall x :: x in r <==> x in s
    ensures Js.Distinct(r)
  {
    if s == [] then []
    else
      var rest := Deduplicate(s[..|s| - 1]);
      assert s == s[..|s| - 1] + [s[|s| - 1]];
      if s[|s| - 1] in rest then rest
      else
        var r := rest + [s[|s| - 1]];
        assert forall i :: 0 <= i < |rest| ==> r[i] == rest[i] && rest[i] in rest;
        r
  }

  lemma FirstIndexOfPrefix(s: seq<string>, n: nat, x: string)
    requires n <= |s| && x in s[..n]
    ensures FirstIndex(s, x) == FirstIndex(s[..n], x)
  {
    var i := FirstIndex(s[..n], x);
    assert s[..n][..i] == s[..i];
  }

  /** The values come out in the order of their first occurrences. */
  lemma {:induction false} DeduplicateFirstOccurrenceOrder(s: seq<string>)
    ensures forall i, j :: 0 <= i < j < |Deduplicate(s)| ==>
      FirstIndex(s, Deduplicate(s)[i]) < FirstIndex(s, Deduplicate(s)[j])
  {
    if s != [] {
      var p := s[..|s| - 1];
      var last := s[|s| - 1];
      DeduplicateFirstOccurrenceOrder(p);
      var rest := Deduplicate(p);
      var r := Deduplicate(s);
      forall k | 0 <= k < |rest|
        ensures FirstIndex(s, rest[k]) == FirstIndex(p, rest[k])
      {
        assert rest[k] in rest;
        assert p == s[..|s| - 1];
        FirstIndexOfPrefix(s, |s| - 1, rest[k]);
      }
      if last !in rest {
        assert last !in p;
        assert FirstIndex(s, last) == |s| - 1;
        forall i, j | 0 <= i < j < |r|
          ensures FirstIndex(s, r[i]) < FirstIndex(s, r[j])
        {
          assert r[i] == rest[i];
          if j < |rest| {
            assert r[j] == rest[j];
          } else {
            assert r[j] == last;
            assert FirstIndex(s, rest[i]) == FirstIndex(p, rest[i]);
            assert FirstIndex(p, rest[i]) < |p|;
          }
        }
      }
    }
  }

  /** `categories`: the distinct categories of the courses. */
  function CourseCategories(courses: seq<CourseItem>): (r: seq<string>)
    ensures forall x :: x in r <==> exists c :: c in courses && c.category == x
    ensures Js.Distinct(r)
  {
    var all := seq(|courses|, i requires 0 <= i < |courses| => courses[i].category);
    assert forall x :: x in all <==> exists c :: c in courses && c.category == x by {
      forall x | x in all
        ensures exists c :: c in courses && c.category == x
      {
        var i :| 0 <= i < |all| && all[i] == x;
        assert courses[i] in courses;
      }
      forall x | exists c :: c in courses && c.category == x
        ensures x in all
      {
        var c :| c in courses && c.category == x;
        var i :| 0 <= i < |courses| && courses[i] == c;
        assert all[i] == x;
      }
    }
    Deduplicate(all)
  }

  class Panel {
    var activeFilters: ActiveFilters
    /** Every value passed to `onFilterChange`, oldest first. */
    var reported: seq<ActiveFilters>

    constructor()
      ensures activeFilters == NoFilters && reported == []
    {
      activeFilters := NoFilters;
      reported := [];
    }

    /** `handleCategoryChange`: toggles the category and reports the new selections. */
    method HandleCategoryChange(category: string)
      modifies this
      ensures activeFilters == old(activeFilters).(category := FilterSlice.Toggle(old(activeFilters).category, category))
      ensures reported == old(reported) + [activeFilters]
    {
      var newCategories :=
        if category in activeFilters.category then FilterSlice.RemoveAll(activeFilters.category, category)
        else activeFilters.category + [category];
      var newFilters := activeFilters.(category := newCategories);
      activeFilters := newFilters;
      reported := reported + [newFilters];
    }

    /** `handleFilterChange`: replaces one selection and reports the new selections. */
    method HandleFilterChange(filterType: FilterKey, value: string)
      modifies this
      ensures filterType == PriceRange ==> activeFilters == old(activeFilters).(priceRange := value)
      ensures filterType == Rating ==> activeFilters == old(activeFilters).(rating := value)
      ensures filterType == Duration ==> activeFilters == old(activeFilters).(duration := value)
      ensures reported == old(reported) + [activeFilters]
    {
      var newFilters := match filterType
        case PriceRange => activeFilters.(priceRange := value)
        case Rating => activeFilters.(rating := value)
        case Duration => activeFilters.(duration := value);
      activeFilters := newFilters;
      reported := reported + [newFilters];
    }

    /** `resetFilters`: clears every selection and reports that. */
    method ResetFilters()
      modifies this
      ensures activeFilters == NoFilters && !SummaryShown(activeFilters)
      ensures reported == old(reported) + [NoFilters]
    {
      activeFilters := NoFilters;
      reported := reported + [NoFilters];
    }
  }
}
