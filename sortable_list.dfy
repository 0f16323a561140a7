/** What the publication list and the vacancy application list share: the sort state a header
    click replaces, the flags of the date header, clickable columns and the pagination guard
    (src/components/publication/publication-list.tsx, src/components/vacancy/vacancy-application-list.tsx). */
module SortableList {
  import opened Js

  datatype SortOrder = Asc | Desc

  /** `current === SortOrder.Desc ? SortOrder.Asc : SortOrder.Desc` */
  function Toggle(current: SortOrder): (next: SortOrder)
    ensures next != current
  {
    if current == Desc then Asc else Desc
  }

  /** Toggling twice gives back the direction it started from. */
  lemma ToggleTwice(d: SortOrder)
    ensures Toggle(Toggle(d)) == d
  {
  }

  /** The date column's key. */
  const DateColumn: string := "created_at"

  /** A table column: its key, and the column its header click reports (`None` when the header
      has no click handler). */
  datatype Column = Column(key: string, sortColumn: Option<string>)

  predicate Clickable(c: Column) {
    c.sortColumn.Some?
  }

  /** The list component's `sortingObj` state. */
  class SortingState {
    var sort: SortOrder
    var column: Option<string>

    /** `useState({sort: SortOrder.Desc, column: null})` */
    constructor ()
      ensures sort == Desc && column.None?
    {
      sort := Desc;
      column := None;
    }

    /** A header click for `c`: hands `onSort` the toggler and `onOrder` the column, and replaces
        the state by the flipped direction and the clicked column. */
    method Click(c: Option<string>) returns (onSortArg: SortOrder -> SortOrder, onOrderArg: Option<string>)
      modifies this
      ensures sort == Toggle(old(sort)) && column == c
      ensures forall d :: onSortArg(d) == Toggle(d)
      ensures onOrderArg == c
    {
      onSortArg := d => if d == Desc then Asc else Desc;
      onOrderArg := c;
      sort := if sort == Desc then Asc else Desc;
      column := c;
    }

    /** A click on a column: nothing happens when its header has no handler. */
    method ClickColumn(col: Column) returns (sent: Option<Option<string>>)
      modifies this
      ensures !Clickable(col) ==> sent.None? && sort == old(sort) && column == old(column)
      ensures Clickable(col) ==> sent == Some(col.sortColumn) && sort == Toggle(old(sort)) && column == col.sortColumn
    {
      if col.sortColumn.Some? {
        var _, order := Click(col.sortColumn);
        sent := Some(order);
      } else {
        sent := None;
      }
    }

    /** The date header's `ascending` flag. */
    function DateAscending(): (ascending: bool)
      reads this
      ensures ascending <==> sort == Asc && column == Some(DateColumn)
    {
      sort == Asc && column == Some("created_at")
    }

    /** The date header's `isActive` flag. */
    function DateActive(): (active: bool)
      reads this
      ensures active <==> column == Some(DateColumn)
      ensures DateAscending() ==> active
    {
      column == Some("created_at")
    }
  }

  /** Two clicks on any headers restore the sort direction; the column is the last one clicked. */
  method ClickTwice(state: SortingState, first: Option<string>, second: Option<string>)
    modifies state
    ensures state.sort == old(state.sort) && state.column == second
  {
    var _, _ := state.Click(first);
    var _, _ := state.Click(second);
    ToggleTwice(old(state.sort));
  }

  /** From the initial state, one click on the date header makes it active and ascending. */
  method FirstDateClick() returns (state: SortingState)
    ensures state.DateAscending() && state.DateActive()
  {
    state := new SortingState();
    var _, _ := state.Click(Some(DateColumn));
  }

  /** `!!paginatorInfo?.total` */
  predicate ShowPagination(paginatorInfo: Value) {
    Truthy(Get(paginatorInfo, "total"))
  }

  /** Pagination shows exactly when there is paginator information whose `total` is a non-zero
      number (or another truthy value); a missing paginator or a zero total hides it. */
  lemma ShowPaginationIff(paginatorInfo: Value)
    ensures ShowPagination(paginatorInfo) <==>
      paginatorInfo.Obj? && "total" in paginatorInfo.fields && Truthy(paginatorInfo.fields["total"])
    ensures ShowPagination(Obj(map["total" := Num(0.0)])) == false
    ensures forall n: real :: n != 0.0 ==> ShowPagination(Obj(map["total" := Num(n)]))
  {
  }
}
