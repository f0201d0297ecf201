/** The sort-direction toggle of components/layout/Header.tsx. */
module Header {
  import opened Types

  /** handleSortChange(field): the sort handed to onSortChange, or None
      when nothing is emitted (no active sort or no handler). Clicking the
      active field flips its direction; any other field starts ascending. */
  function HandleSortChange(activeSort: Option<SortOptions>, hasHandler: bool, field: SortField): (r: Option<SortOptions>)
    ensures r.None? <==> activeSort.None? || !hasHandler
    ensures r.Some? ==> r.value.field == field
    ensures r.Some? && activeSort.value.field == field ==> r.value.direction != activeSort.value.direction
    ensures r.Some? && activeSort.value.field != field ==> r.value.direction == Asc
  {
    if activeSort.None? || !hasHandler then None
    else
      var sameField := activeSort.value.field == field;
      var direction := if sameField && activeSort.value.direction == Asc then Desc else Asc;
      Some(SortOptions(field, direction))
  }

  /** Two clicks on the same field give back the sort one started from;
      in particular asc, desc, asc. */
  lemma ClickTwiceRestores(s: SortOptions)
    ensures HandleSortChange(HandleSortChange(Some(s), true, s.field), true, s.field) == Some(s)
  {
  }

  /** Two clicks on a field that was not active end on descending: the
      first click starts ascending, the second flips it. */
  lemma NewFieldTwiceDescends(s: SortOptions, field: SortField)
    requires s.field != field
    ensures HandleSortChange(HandleSortChange(Some(s), true, field), true, field) == Some(SortOptions(field, Desc))
  {
  }
}
