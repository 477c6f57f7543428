/** The `filter` slice of the client store: the search, sort and filter
    selections of the home page. Reducers update the state in place. */
module FilterSlice {
  import opened Js

  datatype FilterState = FilterState(
    search: string, sort: string, category: seq<string>,
    priceRange: string, rating: string, duration: string)

  const InitialState := FilterState("", "asc", [], "", "", "")

  /** `list.filter(item => item !== x)` */
  function RemoveAll(list: seq<string>, x: string): (r: seq<string>)
    ensures forall y :: y in r <==> y in list && y != x
    ensures |r| <= |list|
    ensures x in list ==> |r| < |list|
    ensures x !in list ==> r == list
  {
    if list == [] then []
    else
      assert list == [list[0]] + list[1..];
      (if list[0] == x then [] else [list[0]]) + RemoveAll(list[1..], x)
  }

  /** The checkbox toggle: drop every occurrence of `x` if it is there,
      otherwise append it at the end. */
  function Toggle(list: seq<string>, x: string): (r: seq<string>)
    ensures x in r <==> x !in list
    ensures forall y :: y != x ==> (y in r <==> y in list)
    ensures x !in list ==> r == list + [x]
    ensures x in list ==> |r| < |list|
  {
    if x in list then RemoveAll(list, x) else list + [x]
  }

  lemma {:induction false} RemoveAllDistinct(list: seq<string>, x: string)
    requires Distinct(list)
    ensures Distinct(RemoveAll(list, x))
  {
    if list != [] {
      assert Distinct(list[1..]) by {
        forall i, j | 0 <= i < j < |list[1..]|
          ensures list[1..][i] != list[1..][j]
        {
          assert list[1..][i] == list[i + 1] && list[1..][j] == list[j + 1];
        }
      }
      RemoveAllDistinct(list[1..], x);
      var rest := RemoveAll(list[1..], x);
      if list[0] != x {
        assert list[0] !in list[1..];
        assert list[0] !in rest;
        var r := [list[0]] + rest;
        forall i, j | 0 <= i < j < |r|
          ensures r[i] != r[j]
        {
          if i == 0 {
            assert r[j] == rest[j - 1];
            assert rest[j - 1] in rest;
          } else {
            assert r[i] == rest[i - 1] && r[j] == rest[j - 1];
          }
        }
        assert RemoveAll(list, x) == r;
      } else {
        assert RemoveAll(list, x) == [] + rest;
        assert [] + rest == rest;
      }
    }
  }

  /** A duplicate-free list stays duplicate-free under the toggle. */
  lemma ToggleDistinct(list: seq<string>, x: string)
    requires Distinct(list)
    ensures Distinct(Toggle(list, x))
  {
    if x in list {
      RemoveAllDistinct(list, x);
    } else {
      var r := list + [x];
      forall i, j | 0 <= i < j < |r|
        ensures r[i] != r[j]
      {
        if j == |list| {
          assert r[i] == list[i];
          assert list[i] in list;
        } else {
          assert r[i] == list[i] && r[j] == list[j];
        }
      }
    }
  }

  /** Toggling the same value twice restores membership, and restores the
      list itself when the value was absent. */
  lemma ToggleTwice(list: seq<string>, x: string)
    ensures forall y :: y in Toggle(Toggle(list, x), x) <==> y in list
    ensures x !in list ==> Toggle(Toggle(list, x), x) == list
  {
    if x !in list {
      RemoveAllAppended(list, x);
    }
  }

  lemma {:induction false} RemoveAllAppended(list: seq<string>, x: string)
    requires x !in list
    ensures RemoveAll(list + [x], x) == list
  {
    if list == [] {
      assert [] + [x] == [x];
      assert RemoveAll([x], x) == [] + RemoveAll([], x);
    } else {
      assert (list + [x])[1..] == list[1..] + [x];
      RemoveAllAppended(list[1..], x);
      assert RemoveAll(list + [x], x) == [list[0]] + list[1..];
      assert [list[0]] + list[1..] == list;
    }
  }

  /** `setCategory`'s payload: an array replaces the list, anything else is toggled. */
  datatype CategoryPayload = Items(items: seq<string>) | Single(item: string)

  class FilterStore {
    var search: string
    var sort: string
    var category: seq<string>
    var priceRange: string
    var rating: string
    var duration: string

    /** The state as the selectors read it. */
    function State(): FilterState
      reads this
    {
      FilterState(search, sort, category, priceRange, rating, duration)
    }

    constructor()
      ensures State() == InitialState
    {
      search, sort, category := "", "asc", [];
      priceRange, rating, duration := "", "", "";
    }

    method SetSearch(payload: string)
      modifies this
      ensures State() == old(State()).(search := payload)
    {
      search := payload;
    }

    method SetSort(payload: string)
      modifies this
      ensures State() == old(State()).(sort := payload)
    {
      sort := payload;
    }

    method SetCategory(payload: CategoryPayload)
      modifies this
      ensures payload.Items? ==> State() == old(State()).(category := payload.items)
      ensures payload.Single? ==> State() == old(State()).(category := Toggle(old(category), payload.item))
    {
      match payload
      case Items(items) =>
        category := items;
      case Single(item) =>
        if item in category {
          category := RemoveAll(category, item);
        } else {
          category := category + [item];
        }
    }

    method SetPriceRange(payload: string)
      modifies this
      ensures State() == old(State()).(priceRange := payload)
    {
      priceRange := payload;
    }

    method SetRating(payload: string)
      modifies this
      ensures State() == old(State()).(rating := payload)
    {
      rating := payload;
    }

    method SetDuration(payload: string)
      modifies this
      ensures State() == old(State()).(duration := payload)
    {
      duration := payload;
    }

    /** Back to the initial state, whatever the state was; so a second reset changes nothing. */
    method ResetFilter()
      modifies this
      ensures State() == InitialState
    {
      search, sort, category := "", "asc", [];
      priceRange, rating, duration := "", "", "";
    }
  }
}
