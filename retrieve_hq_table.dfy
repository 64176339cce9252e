/**
 * The HQ retrieval table: a row list built by `Initialize`, whose flags the
 * user sets one at a time or all at once.
 */
module RetrieveHqTable {
  import opened Wrappers
  import opened Manifest
  import opened RetrieveHq

  class RetrieveHqTableModel {
    var rows: seq<Row>

    constructor ()
      ensures rows == []
    {
      rows := [];
    }

    /**
     * Asks the server for the field offices, then each office for its
     * manifest, and keeps a row for every entry that parses and is not yet
     * in the HQ's store.
     */
    method Initialize(remote: Remote, store: set<UniversalId>)
      modifies this
      ensures rows == CatalogRows(remote, store)
    {
      var accounts := FieldOffices(remote);
      var built: seq<Row> := [];
      var i := 0;
      while i < |accounts|
        invariant 0 <= i <= |accounts|
        invariant built == AccountsRows(remote, store, accounts[..i])
      {
        var account := accounts[i];
        var entries := ManifestOf(remote, account);
        var j := 0;
        while j < |entries|
          invariant 0 <= j <= |entries|
          invariant built == AccountsRows(remote, store, accounts[..i]) + EntryRows(remote, store, account, entries[..j])
        {
          assert entries[..j + 1][..j] == entries[..j];
          built := built + EntryRow(remote, store, account, entries[j]);
          j := j + 1;
        }
        assert entries[..j] == entries;
        assert accounts[..i + 1][..i] == accounts[..i];
        i := i + 1;
      }
      assert accounts[..i] == accounts;
      rows := built;
    }

    function RowCount(): nat
      reads this
    {
      |rows|
    }

    /** The value shown in a cell: one of the four columns, of that column's declared class. */
    function ValueAt(row: nat, col: nat): (v: Option<Cell>)
      reads this
      requires row < |rows|
      ensures v.Some? <==> col < ColumnCount
      ensures v.Some? ==> CellClass(v.value) == ColumnClassOf(col).value
    {
      CellAt(rows[row], col)
    }

    /** Writes one cell; only a flag written into the flag column changes anything. */
    method SetValueAt(value: Cell, row: nat, col: nat)
      requires row < |rows|
      modifies this
      ensures rows == old(rows)[row := WriteCell(old(rows)[row], value, col)]
      ensures Uids(rows) == Uids(old(rows))
    {
      rows := rows[row := WriteCell(rows[row], value, col)];
      SameUidsWhenFlagsChange(old(rows), rows);
    }

    /** Sets every row's flag to `flag`, leaving everything else in the rows as it was. */
    method SetAllFlags(flag: bool)
      modifies this
      ensures |rows| == |old(rows)|
      ensures forall i :: 0 <= i < |rows| ==> rows[i] == old(rows)[i].(flag := flag)
      ensures Uids(rows) == Uids(old(rows))
    {
      var i := 0;
      while i < |rows|
        invariant 0 <= i <= |rows| == |old(rows)|
        invariant forall k :: 0 <= k < i ==> rows[k] == old(rows)[k].(flag := flag)
        invariant forall k :: i <= k < |rows| ==> rows[k] == old(rows)[k]
      {
        rows := rows[i := rows[i].(flag := flag)];
        i := i + 1;
      }
      SameUidsWhenFlagsChange(old(rows), rows);
    }

    /** The universal ids of the flagged rows, in row order. */
    function UniversalIdList(): (ids: seq<UniversalId>)
      reads this
      ensures |ids| <= |rows|
      ensures forall id :: id in ids <==> exists i :: 0 <= i < |rows| && rows[i].flag && rows[i].uid == id
    {
      SelectedMembers(rows);
      SelectedLength(rows);
      Selected(rows)
    }
  }

  /**
   * The row count of a table holding a fresh catalog: the number of manifest
   * entries when every one is new and well formed, 0 when none is.
   */
  lemma RowCountOfCatalog(table: RetrieveHqTableModel, remote: Remote, store: set<UniversalId>)
    requires table.rows == CatalogRows(remote, store)
    ensures AllWanted(remote, store, FieldOffices(remote)) ==> table.RowCount() == EntryCount(remote, FieldOffices(remote))
    ensures NoneWanted(remote, store, FieldOffices(remote)) ==> table.RowCount() == 0
  {
    if AllWanted(remote, store, FieldOffices(remote)) {
      CatalogRowCount(remote, store);
    }
    if NoneWanted(remote, store, FieldOffices(remote)) {
      AccountsRowsEmpty(remote, store, FieldOffices(remote));
    }
  }
}
