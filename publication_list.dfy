/** The publication list's columns and the columns it hides under a shop
    (src/components/publication/publication-list.tsx). Sorting and pagination are in SortableList. */
module PublicationList {
  import opened Js
  import opened SortableList

  /** The columns in table order: id, title and date sort on click; the actions column does not. */
  const AllColumns: seq<Column> := [
    Column("id", Some("id")),
    Column("title", Some("title")),
    Column(DateColumn, Some(DateColumn)),
    Column("actions", None)]

  /** The keys a shop's view drops. */
  predicate ShopHidden(key: string) {
    key == "approve" || key == "actions"
  }

  /** `columns.filter(col => col?.key !== 'approve' && col?.key !== 'actions')` */
  function WithoutShopColumns(columns: seq<Column>): seq<Column> {
    if columns == [] then []
    else if ShopHidden(columns[0].key) then WithoutShopColumns(columns[1..])
    else [columns[0]] + WithoutShopColumns(columns[1..])
  }

  /** The columns the table receives: all of them, less the shop-hidden ones under a `shop` query. */
  function VisibleColumns(shopQuery: Value): seq<Column> {
    if Truthy(shopQuery) then WithoutShopColumns(AllColumns) else AllColumns
  }

  /** A column survives the filter exactly when its key is neither `approve` nor `actions`. */
  lemma {:induction false} WithoutShopColumnsMembers(columns: seq<Column>)
    ensures forall c :: c in WithoutShopColumns(columns) <==> c in columns && !ShopHidden(c.key)
    ensures |WithoutShopColumns(columns)| <= |columns|
  {
    if columns != [] {
      WithoutShopColumnsMembers(columns[1..]);
      assert columns == [columns[0]] + columns[1..];
    }
  }

  /** Filtering works piece by piece, so the kept columns stay in their order. */
  lemma {:induction false} WithoutShopColumnsConcat(a: seq<Column>, b: seq<Column>)
    ensures WithoutShopColumns(a + b) == WithoutShopColumns(a) + WithoutShopColumns(b)
  {
    if a != [] {
      assert (a + b)[1..] == a[1..] + b;
      WithoutShopColumnsConcat(a[1..], b);
    } else {
      assert a + b == b;
    }
  }

  /** Filtering leaves alone a list that has no shop-hidden column, so filtering twice is
      filtering once. */
  lemma {:induction false} WithoutShopColumnsKeeps(columns: seq<Column>)
    requires forall i :: 0 <= i < |columns| ==> !ShopHidden(columns[i].key)
    ensures WithoutShopColumns(columns) == columns
  {
    if columns != [] {
      WithoutShopColumnsKeeps(columns[1..]);
    }
  }

  lemma WithoutShopColumnsIdempotent(columns: seq<Column>)
    ensures WithoutShopColumns(WithoutShopColumns(columns)) == WithoutShopColumns(columns)
  {
    var once := WithoutShopColumns(columns);
    WithoutShopColumnsMembers(columns);
    assert forall i :: 0 <= i < |once| ==> once[i] in once;
    WithoutShopColumnsKeeps(once);
  }

  /** Under a shop query the table shows id, title and date; otherwise it also shows actions. */
  lemma VisibleColumnsKeys(shopQuery: Value)
    ensures Truthy(shopQuery) ==> VisibleColumns(shopQuery) == AllColumns[..3]
    ensures !Truthy(shopQuery) ==> VisibleColumns(shopQuery) == AllColumns
  {
    if Truthy(shopQuery) {
      WithoutShopColumnsConcat(AllColumns[..3], AllColumns[3..]);
      assert AllColumns == AllColumns[..3] + AllColumns[3..];
      WithoutShopColumnsKeeps(AllColumns[..3]);
    }
  }

  /** Every visible column but actions is sortable, and the date header reports `created_at`. */
  lemma ClickableColumns(shopQuery: Value)
    ensures forall c :: c in VisibleColumns(shopQuery) ==> (Clickable(c) <==> c.key != "actions")
    ensures forall c :: c in VisibleColumns(shopQuery) && Clickable(c) ==> c.sortColumn == Some(c.key)
  {
    VisibleColumnsKeys(shopQuery);
  }

  /** The id cell: `#${t('table:table-item-id')}: ${id}` for the label `idLabel` that `t` gives. */
  function IdCell(idLabel: string, id: string): (cell: string)
    ensures |cell| == |idLabel| + |id| + 3
    ensures cell[0] == '#' && cell[|cell| - |id|..] == id
  {
    "#" + idLabel + ": " + id
  }
}
