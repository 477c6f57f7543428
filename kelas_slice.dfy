/** The `kelas` slice of the client store: the course list shown on the home
    page and a filter record. Reducers update the state in place. */
module KelasSlice {
  import opened Js

  /** A course as the client holds it. */
  datatype CourseItem = CourseItem(
    title: string, description: string, price: string, rating: string,
    category: string, duration: string, tutorName: string)

  /** `state.filter`; `rating` starts as the number 0 and takes whatever
      value is dispatched. */
  datatype KelasFilter = KelasFilter(
    search: string, sort: string, category: seq<string>, priceRange: string, rating: JsVal)

  const InitialFilter := KelasFilter("", "asc", [], "", Num(0.0))

  class KelasStore {
    var data: seq<CourseItem>
    var filter: KelasFilter

    constructor()
      ensures data == [] && filter == InitialFilter
    {
      data := [];
      filter := InitialFilter;
    }

    method SetData(payload: seq<CourseItem>)
      modifies this
      ensures data == payload && filter == old(filter)
    {
      data := payload;
    }

    method SetSearch(payload: string)
      modifies this
      ensures filter == old(filter).(search := payload) && data == old(data)
    {
      filter := filter.(search := payload);
    }

    method SetSort(payload: string)
      modifies this
      ensures filter == old(filter).(sort := payload) && data == old(data)
    {
      filter := filter.(sort := payload);
    }

    /** Replaces the whole list; unlike the `filter` slice it never toggles. */
    method SetCategory(payload: seq<string>)
      modifies this
      ensures filter == old(filter).(category := payload) && data == old(data)
    {
      filter := filter.(category := payload);
    }

    method SetPriceRange(payload: string)
      modifies this
      ensures filter == old(filter).(priceRange := payload) && data == old(data)
    {
      filter := filter.(priceRange := payload);
    }

    method SetRating(payload: JsVal)
      modifies this
      ensures filter == old(filter).(rating := payload) && data == old(data)
    {
      filter := filter.(rating := payload);
    }

    method ResetFilter()
      modifies this
      ensures filter == InitialFilter && data == old(data)
    {
      filter := InitialFilter;
    }
  }
}
