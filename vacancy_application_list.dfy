/** The vacancy application list's columns and cell texts
    (src/components/vacancy/vacancy-application-list.tsx). Sorting and pagination are in SortableList. */
module VacancyApplicationList {
  import opened Js
  import opened SortableList

  /** The columns in table order; only the date header has a click handler. */
  const Columns: seq<Column> := [
    Column("id", None),
    Column("name", None),
    Column(DateColumn, Some(DateColumn)),
    Column("vacancy.title", None),
    Column("actions", None)]

  /** Sorting is offered on the date column alone. */
  lemma OnlyDateSorts()
    ensures forall c :: c in Columns ==> (Clickable(c) <==> c.key == DateColumn)
    ensures forall c :: c in Columns && Clickable(c) ==> c.sortColumn == Some(DateColumn)
  {
  }

  /** A click anywhere but the date header leaves the sort state as it was; a click on the date
      header flips the direction and makes the date column the sorted one. */
  method ClickApplicationColumn(state: SortingState, i: nat) returns (sent: Option<Option<string>>)
    requires i < |Columns|
    modifies state
    ensures Columns[i].key != DateColumn ==> sent.None? && state.sort == old(state.sort) && state.column == old(state.column)
    ensures Columns[i].key == DateColumn ==>
      && sent == Some(Some(DateColumn))
      && state.sort == Toggle(old(state.sort)) && state.column == Some(DateColumn)
      && state.DateActive()
  {
    OnlyDateSorts();
    assert Columns[i] in Columns;
    sent := state.ClickColumn(Columns[i]);
  }

  /** The id cell: `#${id}`. */
  function IdCell(id: string): (cell: string)
    ensures |cell| == |id| + 1 && cell[0] == '#' && cell[1..] == id
  {
    "#" + id
  }

  /** The id cell determines the id. */
  lemma IdCellInjective(a: string, b: string)
    ensures IdCell(a) == IdCell(b) ==> a == b
  {
    if IdCell(a) == IdCell(b) {
      assert a == IdCell(a)[1..];
    }
  }

  /** The vacancy cell: `${record?.vacancy?.title || ''}`. The template literal turns the title
      into text; only a string title (or a falsy one) is modelled, other values give `None`. */
  function VacancyCell(record: Value): (cell: Option<string>)
    ensures var title := Get(Get(record, "vacancy"), "title");
      && (!Truthy(title) ==> cell == Some(""))
      && (title.Str? ==> cell == Some(title.s))
      && (cell.Some? ==> title.Str? || !Truthy(title))
  {
    var text := Or(Get(Get(record, "vacancy"), "title"), Str(""));
    if text.Str? then Some(text.s) else None
  }

  /** A record with no vacancy, or a vacancy with no title, shows an empty cell. */
  lemma VacancyCellMissing(record: Value)
    requires !record.Obj? || "vacancy" !in record.fields || !Get(record, "vacancy").Obj? ||
             "title" !in Get(record, "vacancy").fields
    ensures VacancyCell(record) == Some("")
  {
  }
}
