/**
 * The HQ retrieval catalog as values: the rows built from the server's
 * field-office manifests, the table's four fixed columns, and the list of
 * bulletins the HQ user has flagged for retrieval.
 */
module RetrieveHq {
  import opened Wrappers
  import opened Manifest

  type AccountId = string

  /** A bulletin's identity across all accounts: its author's account and its local id. */
  datatype UniversalId = UniversalId(accountId: AccountId, localId: string)

  /** A fetched field data packet, as far as the table reads it. */
  datatype FieldDataPacket = FieldDataPacket(title: string, author: string, signature: string)

  /**
   * What the catalog asks of the server, and the signature check on a
   * fetched packet against its author's account. A None reply is a failed
   * or absent answer.
   */
  datatype Remote = Remote(
    fieldOfficeAccounts: Option<seq<AccountId>>,
    sealedBulletinIds: AccountId -> Option<seq<string>>,
    getPacket: (AccountId, string, string) -> Option<FieldDataPacket>,
    verifies: (AccountId, FieldDataPacket) -> bool)

  /** One bulletin offered for retrieval. */
  datatype Row = Row(uid: UniversalId, fdpLocalId: string, size: nat, title: string, author: string, flag: bool)

  /** The field-office accounts of this HQ; none when the server did not answer. */
  function FieldOffices(remote: Remote): seq<AccountId> {
    match remote.fieldOfficeAccounts
    case None => []
    case Some(accounts) => accounts
  }

  /** The manifest entries listed for one field office; none when the server did not answer. */
  function ManifestOf(remote: Remote, account: AccountId): seq<string> {
    match remote.sealedBulletinIds(account)
    case None => []
    case Some(entries) => entries
  }

  /** The packet of a listed bulletin was fetched and its signature verifies. */
  predicate PacketVerifies(remote: Remote, account: AccountId, e: ManifestEntry) {
    match remote.getPacket(account, e.localId, e.fdpLocalId)
    case None => false
    case Some(p) => remote.verifies(account, p)
  }

  /**
   * The row for a listed bulletin, unflagged. Title and author come from its
   * packet when that was fetched and verifies; otherwise they are blank and
   * the row is kept all the same.
   */
  function ResolveRow(remote: Remote, account: AccountId, e: ManifestEntry): (row: Row)
    ensures row.uid == UniversalId(account, e.localId) && row.fdpLocalId == e.fdpLocalId
    ensures row.size == e.size && !row.flag
    ensures !PacketVerifies(remote, account, e) ==> row.title == "" && row.author == ""
    ensures PacketVerifies(remote, account, e) ==>
      var p := remote.getPacket(account, e.localId, e.fdpLocalId).value;
      row.title == p.title && row.author == p.author
  {
    var uid := UniversalId(account, e.localId);
    match remote.getPacket(account, e.localId, e.fdpLocalId)
    case Some(p) =>
      if remote.verifies(account, p) then Row(uid, e.fdpLocalId, e.size, p.title, p.author, false)
      else Row(uid, e.fdpLocalId, e.size, "", "", false)
    case None => Row(uid, e.fdpLocalId, e.size, "", "", false)
  }

  /** An entry yields a row: it parses, and the HQ's store does not hold that bulletin yet. */
  predicate Wanted(store: set<UniversalId>, account: AccountId, entry: string) {
    ParseEntry(entry).Some? && UniversalId(account, ParseEntry(entry).value.localId) !in store
  }

  /** The rows one manifest entry contributes: none or one. */
  function EntryRow(remote: Remote, store: set<UniversalId>, account: AccountId, entry: string): seq<Row> {
    if Wanted(store, account, entry) then [ResolveRow(remote, account, ParseEntry(entry).value)] else []
  }

  function EntryRows(remote: Remote, store: set<UniversalId>, account: AccountId, entries: seq<string>): seq<Row>
    decreases |entries|
  {
    if entries == [] then []
    else EntryRows(remote, store, account, entries[..|entries| - 1]) + EntryRow(remote, store, account, entries[|entries| - 1])
  }

  function AccountsRows(remote: Remote, store: set<UniversalId>, accounts: seq<AccountId>): seq<Row>
    decreases |accounts|
  {
    if accounts == [] then []
    else
      var account := accounts[|accounts| - 1];
      AccountsRows(remote, store, accounts[..|accounts| - 1]) + EntryRows(remote, store, account, ManifestOf(remote, account))
  }

  /** The catalog `initialize` builds: accounts in server order, each account's entries in manifest order. */
  function CatalogRows(remote: Remote, store: set<UniversalId>): seq<Row> {
    AccountsRows(remote, store, FieldOffices(remote))
  }

  // ----- columns -----

  const ColumnCount: nat := 4

  datatype ColumnClass = BooleanClass | StringClass | IntegerClass

  datatype Cell = FlagCell(flag: bool) | TextCell(text: string) | SizeCell(size: int)

  function CellClass(c: Cell): ColumnClass {
    match c
    case FlagCell(_) => BooleanClass
    case TextCell(_) => StringClass
    case SizeCell(_) => IntegerClass
  }

  /** Column types, in order: flag, title, author, size. */
  function ColumnClassOf(col: nat): Option<ColumnClass> {
    if col == 0 then Some(BooleanClass)
    else if col == 1 || col == 2 then Some(StringClass)
    else if col == 3 then Some(IntegerClass)
    else None
  }

  /** The field tag whose localized label heads each column. */
  function ColumnTag(col: nat): Option<string> {
    if col == 0 then Some("retrieveflag")
    else if col == 1 then Some("title")
    else if col == 2 then Some("author")
    else if col == 3 then Some("BulletinSize")
    else None
  }

  function IsCellEditable(row: nat, col: nat): bool {
    col == 0
  }

  function CellAt(r: Row, col: nat): Option<Cell> {
    if col == 0 then Some(FlagCell(r.flag))
    else if col == 1 then Some(TextCell(r.title))
    else if col == 2 then Some(TextCell(r.author))
    else if col == 3 then Some(SizeCell(r.size))
    else None
  }

  /** A write into one cell of a row: only a flag written into the flag column takes effect. */
  function WriteCell(r: Row, value: Cell, col: nat): Row {
    if col == 0 && value.FlagCell? then r.(flag := value.flag) else r
  }

  /**
   * Every row has exactly the four columns, and the value in each column is
   * of the class the table declares for it.
   */
  lemma ColumnsAgree(r: Row, col: nat)
    ensures CellAt(r, col).Some? <==> col < ColumnCount
    ensures ColumnClassOf(col).Some? <==> col < ColumnCount
    ensures ColumnTag(col).Some? <==> col < ColumnCount
    ensures col < ColumnCount ==> CellClass(CellAt(r, col).value) == ColumnClassOf(col).value
  {
  }

  /** The column classes in order: flag Boolean, title and author String, size Integer. */
  lemma ColumnClassOrder()
    ensures [ColumnClassOf(0), ColumnClassOf(1), ColumnClassOf(2), ColumnClassOf(3)]
      == [Some(BooleanClass), Some(StringClass), Some(StringClass), Some(IntegerClass)]
    ensures forall col :: col >= ColumnCount ==> ColumnClassOf(col) == None
  {
  }

  /** The column labels follow the same order as the classes: flag, title, author, size. */
  lemma ColumnTagOrder()
    ensures [ColumnTag(0), ColumnTag(1), ColumnTag(2), ColumnTag(3)]
      == [Some("retrieveflag"), Some("title"), Some("author"), Some("BulletinSize")]
    ensures forall col :: ColumnTag(col).Some? <==> ColumnClassOf(col).Some?
  {
  }

  /** The one editable column, in any row, is the Boolean flag column. */
  lemma EditableIsFlagColumn(row: nat, col: nat)
    ensures IsCellEditable(row, col) <==> ColumnClassOf(col) == Some(BooleanClass)
    ensures IsCellEditable(row, col) <==> col == 0
  {
  }

  /** Only the flag column is editable; a write anywhere else leaves the row as it was. */
  lemma WriteOnlyFlag(r: Row, value: Cell, row: nat, col: nat)
    ensures !IsCellEditable(row, col) ==> WriteCell(r, value, col) == r
    ensures forall c :: c != 0 ==> CellAt(WriteCell(r, value, col), c) == CellAt(r, c)
    ensures IsCellEditable(row, col) && value.FlagCell? ==> CellAt(WriteCell(r, value, col), col) == Some(value)
  {
  }

  // ----- the selection -----

  function Uids(rows: seq<Row>): (ids: seq<UniversalId>)
    ensures |ids| == |rows|
  {
    if rows == [] then [] else [rows[0].uid] + Uids(rows[1..])
  }

  /** The identities of the flagged rows, in row order. */
  function Selected(rows: seq<Row>): seq<UniversalId> {
    if rows == [] then []
    else (if rows[0].flag then [rows[0].uid] else []) + Selected(rows[1..])
  }

  lemma {:induction false} SelectedConcat(a: seq<Row>, b: seq<Row>)
    ensures Selected(a + b) == Selected(a) + Selected(b)
    decreases |a|
  {
    if a == [] {
      assert a + b == b;
    } else {
      assert (a + b)[0] == a[0] && (a + b)[1..] == a[1..] + b;
      SelectedConcat(a[1..], b);
    }
  }

  /** An id is selected exactly when some flagged row carries it. */
  lemma {:induction false} SelectedMembers(rows: seq<Row>)
    ensures forall id :: id in Selected(rows) <==> exists i :: 0 <= i < |rows| && rows[i].flag && rows[i].uid == id
    decreases |rows|
  {
    if rows != [] {
      SelectedMembers(rows[1..]);
      forall id ensures id in Selected(rows) <==> exists i :: 0 <= i < |rows| && rows[i].flag && rows[i].uid == id {
        if id in Selected(rows[1..]) {
          var i :| 0 <= i < |rows[1..]| && rows[1..][i].flag && rows[1..][i].uid == id;
          assert rows[i + 1] == rows[1..][i];
        }
        if exists i :: 0 <= i < |rows| && rows[i].flag && rows[i].uid == id {
          var i :| 0 <= i < |rows| && rows[i].flag && rows[i].uid == id;
          if i > 0 {
            assert rows[1..][i - 1] == rows[i];
          }
        }
      }
    }
  }

  /** The selection is never longer than the rows, and as long exactly when every row is flagged. */
  lemma {:induction false} SelectedLength(rows: seq<Row>)
    ensures |Selected(rows)| <= |rows|
    ensures |Selected(rows)| == |rows| <==> forall i :: 0 <= i < |rows| ==> rows[i].flag
    decreases |rows|
  {
    if rows != [] {
      SelectedLength(rows[1..]);
      assert forall i :: 0 <= i < |rows[1..]| ==> rows[1..][i] == rows[i + 1];
    }
  }

  /** With every row flagged, the selection is every row's id, in row order. */
  lemma {:induction false} SelectedAllFlagged(rows: seq<Row>)
    requires forall i :: 0 <= i < |rows| ==> rows[i].flag
    ensures Selected(rows) == Uids(rows)
    decreases |rows|
  {
    if rows != [] {
      assert forall i :: 0 <= i < |rows[1..]| ==> rows[1..][i] == rows[i + 1];
      SelectedAllFlagged(rows[1..]);
    }
  }

  /** With no row flagged, nothing is selected. */
  lemma {:induction false} SelectedNoneFlagged(rows: seq<Row>)
    requires forall i :: 0 <= i < |rows| ==> !rows[i].flag
    ensures Selected(rows) == []
    decreases |rows|
  {
    if rows != [] {
      assert forall i :: 0 <= i < |rows[1..]| ==> rows[1..][i] == rows[i + 1];
      SelectedNoneFlagged(rows[1..]);
    }
  }

  /**
   * The selection around row i: what comes before it, its own id when it is
   * flagged, then what comes after it. Unflagging row i drops just that id.
   */
  lemma SelectedAround(rows: seq<Row>, i: nat)
    requires i < |rows|
    ensures Selected(rows) == Selected(rows[..i]) + (if rows[i].flag then [rows[i].uid] else []) + Selected(rows[i + 1..])
    ensures Selected(rows[i := rows[i].(flag := false)]) == Selected(rows[..i]) + Selected(rows[i + 1..])
  {
    var u := rows[i := rows[i].(flag := false)];
    assert rows == rows[..i] + ([rows[i]] + rows[i + 1..]);
    assert u == rows[..i] + ([u[i]] + rows[i + 1..]);
    SelectedConcat(rows[..i], [rows[i]] + rows[i + 1..]);
    SelectedConcat(rows[..i], [u[i]] + rows[i + 1..]);
    assert ([rows[i]] + rows[i + 1..])[1..] == rows[i + 1..];
    assert ([u[i]] + rows[i + 1..])[1..] == rows[i + 1..];
  }

  /** Rows that differ only in their flags carry the same ids. */
  lemma {:induction false} SameUidsWhenFlagsChange(a: seq<Row>, b: seq<Row>)
    requires |a| == |b| && forall i :: 0 <= i < |a| ==> b[i] == a[i].(flag := b[i].flag)
    ensures Uids(a) == Uids(b)
    decreases |a|
  {
    if a != [] {
      assert forall i :: 0 <= i < |a[1..]| ==> a[1..][i] == a[i + 1] && b[1..][i] == b[i + 1];
      SameUidsWhenFlagsChange(a[1..], b[1..]);
    }
  }

  // ----- the catalog -----

  /** The rows `initialize` builds are exactly the resolved wanted entries' rows. */
  lemma {:induction false} EntryRowsExactly(remote: Remote, store: set<UniversalId>, account: AccountId, entries: seq<string>, r: Row)
    ensures r in EntryRows(remote, store, account, entries) <==>
      exists entry :: entry in entries && Wanted(store, account, entry) && r == ResolveRow(remote, account, ParseEntry(entry).value)
    decreases |entries|
  {
    if entries != [] {
      var init := entries[..|entries| - 1];
      var last := entries[|entries| - 1];
      EntryRowsExactly(remote, store, account, init, r);
      assert entries == init + [last];
      assert forall entry :: entry in entries <==> entry in init || entry == last;
    }
  }

  lemma {:induction false} AccountsRowsExactly(remote: Remote, store: set<UniversalId>, accounts: seq<AccountId>, r: Row)
    ensures r in AccountsRows(remote, store, accounts) <==>
      exists account, entry :: account in accounts && entry in ManifestOf(remote, account)
        && Wanted(store, account, entry) && r == ResolveRow(remote, account, ParseEntry(entry).value)
    decreases |accounts|
  {
    if accounts != [] {
      var init := accounts[..|accounts| - 1];
      var last := accounts[|accounts| - 1];
      AccountsRowsExactly(remote, store, init, r);
      EntryRowsExactly(remote, store, last, ManifestOf(remote, last), r);
      assert accounts == init + [last];
      assert forall account :: account in accounts <==> account in init || account == last;
    }
  }

  /**
   * A row is in the catalog exactly when a field office's manifest lists an
   * entry that parses to it and the HQ's store does not hold that bulletin.
   */
  lemma CatalogExactly(remote: Remote, store: set<UniversalId>, r: Row)
    ensures r in CatalogRows(remote, store) <==>
      exists account, entry :: account in FieldOffices(remote) && entry in ManifestOf(remote, account)
        && Wanted(store, account, entry) && r == ResolveRow(remote, account, ParseEntry(entry).value)
  {
    AccountsRowsExactly(remote, store, FieldOffices(remote), r);
  }

  /** A failed or absent list of field offices yields an empty catalog, not an error. */
  lemma CatalogWithoutAccounts(remote: Remote, store: set<UniversalId>)
    requires remote.fieldOfficeAccounts.None? || remote.fieldOfficeAccounts == Some([])
    ensures CatalogRows(remote, store) == []
  {
  }

  /** Every row of a fresh catalog is unflagged, belongs to a field office and is not in the store. */
  lemma CatalogRowsFresh(remote: Remote, store: set<UniversalId>)
    ensures forall r :: r in CatalogRows(remote, store) ==>
      !r.flag && r.uid.accountId in FieldOffices(remote) && r.uid !in store
  {
    forall r | r in CatalogRows(remote, store)
      ensures !r.flag && r.uid.accountId in FieldOffices(remote) && r.uid !in store
    {
      CatalogExactly(remote, store, r);
    }
  }

  /** The number of manifest entries the given accounts list. */
  function EntryCount(remote: Remote, accounts: seq<AccountId>): nat
    decreases |accounts|
  {
    if accounts == [] then 0
    else EntryCount(remote, accounts[..|accounts| - 1]) + |ManifestOf(remote, accounts[|accounts| - 1])|
  }

  lemma {:induction false} EntryRowsAll(remote: Remote, store: set<UniversalId>, account: AccountId, entries: seq<string>)
    requires forall k :: 0 <= k < |entries| ==> Wanted(store, account, entries[k])
    ensures |EntryRows(remote, store, account, entries)| == |entries|
    decreases |entries|
  {
    if entries != [] {
      EntryRowsAll(remote, store, account, entries[..|entries| - 1]);
    }
  }

  lemma {:induction false} EntryRowsNone(remote: Remote, store: set<UniversalId>, account: AccountId, entries: seq<string>)
    requires forall k :: 0 <= k < |entries| ==> !Wanted(store, account, entries[k])
    ensures EntryRows(remote, store, account, entries) == []
    decreases |entries|
  {
    if entries != [] {
      EntryRowsNone(remote, store, account, entries[..|entries| - 1]);
    }
  }

  /** Every account's entries parse and none is in the store: one row per manifest entry. */
  predicate AllWanted(remote: Remote, store: set<UniversalId>, accounts: seq<AccountId>) {
    forall a, k :: a in accounts && 0 <= k < |ManifestOf(remote, a)| ==> Wanted(store, a, ManifestOf(remote, a)[k])
  }

  /** No entry of any account yields a row: each is malformed or already in the store. */
  predicate NoneWanted(remote: Remote, store: set<UniversalId>, accounts: seq<AccountId>) {
    forall a, k :: a in accounts && 0 <= k < |ManifestOf(remote, a)| ==> !Wanted(store, a, ManifestOf(remote, a)[k])
  }

  lemma {:induction false} AccountsRowsCount(remote: Remote, store: set<UniversalId>, accounts: seq<AccountId>)
    requires AllWanted(remote, store, accounts)
    ensures |AccountsRows(remote, store, accounts)| == EntryCount(remote, accounts)
    decreases |accounts|
  {
    if accounts != [] {
      var last := accounts[|accounts| - 1];
      AccountsRowsCount(remote, store, accounts[..|accounts| - 1]);
      EntryRowsAll(remote, store, last, ManifestOf(remote, last));
    }
  }

  lemma {:induction false} AccountsRowsEmpty(remote: Remote, store: set<UniversalId>, accounts: seq<AccountId>)
    requires NoneWanted(remote, store, accounts)
    ensures AccountsRows(remote, store, accounts) == []
    decreases |accounts|
  {
    if accounts != [] {
      var last := accounts[|accounts| - 1];
      AccountsRowsEmpty(remote, store, accounts[..|accounts| - 1]);
      EntryRowsNone(remote, store, last, ManifestOf(remote, last));
    }
  }

  /** When every listed entry is new and well formed, the row count is the number of manifest entries. */
  lemma CatalogRowCount(remote: Remote, store: set<UniversalId>)
    requires AllWanted(remote, store, FieldOffices(remote))
    ensures |CatalogRows(remote, store)| == EntryCount(remote, FieldOffices(remote))
  {
    AccountsRowsCount(remote, store, FieldOffices(remote));
  }

  /** When the store already holds every listed bulletin, the catalog is empty. */
  lemma CatalogEmptyWhenAllStored(remote: Remote, store: set<UniversalId>)
    requires forall a, entry ::
      (a in FieldOffices(remote) && entry in ManifestOf(remote, a) && ParseEntry(entry).Some?) ==>
        UniversalId(a, ParseEntry(entry).value.localId) in store
    ensures CatalogRows(remote, store) == []
  {
    AccountsRowsEmpty(remote, store, FieldOffices(remote));
  }

  /** Rows agree on everything the manifest decides: identity, packet id, size and flag. */
  predicate SameListing(a: seq<Row>, b: seq<Row>) {
    |a| == |b| && forall i :: 0 <= i < |a| ==>
      a[i].uid == b[i].uid && a[i].fdpLocalId == b[i].fdpLocalId && a[i].size == b[i].size && a[i].flag == b[i].flag
  }

  lemma SameListingConcat(a: seq<Row>, b: seq<Row>, c: seq<Row>, d: seq<Row>)
    requires SameListing(a, c) && SameListing(b, d)
    ensures SameListing(a + b, c + d)
  {
  }

  lemma {:induction false} EntryRowsIgnorePackets(remote: Remote, other: Remote, store: set<UniversalId>, account: AccountId, entries: seq<string>)
    ensures SameListing(EntryRows(remote, store, account, entries), EntryRows(other, store, account, entries))
    decreases |entries|
  {
    if entries != [] {
      var init := entries[..|entries| - 1];
      EntryRowsIgnorePackets(remote, other, store, account, init);
      SameListingConcat(EntryRows(remote, store, account, init), EntryRow(remote, store, account, entries[|entries| - 1]),
                        EntryRows(other, store, account, init), EntryRow(other, store, account, entries[|entries| - 1]));
    }
  }

  lemma {:induction false} AccountsRowsIgnorePackets(remote: Remote, other: Remote, store: set<UniversalId>, accounts: seq<AccountId>)
    requires other.sealedBulletinIds == remote.sealedBulletinIds
    ensures SameListing(AccountsRows(remote, store, accounts), AccountsRows(other, store, accounts))
    decreases |accounts|
  {
    if accounts != [] {
      var init := accounts[..|accounts| - 1];
      var last := accounts[|accounts| - 1];
      AccountsRowsIgnorePackets(remote, other, store, init);
      EntryRowsIgnorePackets(remote, other, store, last, ManifestOf(remote, last));
      SameListingConcat(AccountsRows(remote, store, init), EntryRows(remote, store, last, ManifestOf(remote, last)),
                        AccountsRows(other, store, init), EntryRows(other, store, last, ManifestOf(other, last)));
    }
  }

  /**
   * Fetching and verifying packets never removes or reorders a bulletin:
   * whatever the packets and their signatures, the catalog lists the same
   * bulletins in the same order.
   */
  lemma CatalogIgnoresPackets(remote: Remote, store: set<UniversalId>,
                              getPacket: (AccountId, string, string) -> Option<FieldDataPacket>,
                              verifies: (AccountId, FieldDataPacket) -> bool)
    ensures SameListing(CatalogRows(remote, store), CatalogRows(remote.(getPacket := getPacket, verifies := verifies), store))
  {
    AccountsRowsIgnorePackets(remote, remote.(getPacket := getPacket, verifies := verifies), store, FieldOffices(remote));
  }

  /** Whatever flags are set later, every selected id is a field office's, never the HQ's own. */
  lemma SelectedFromFieldOffices(remote: Remote, store: set<UniversalId>, rows: seq<Row>, hq: AccountId, id: UniversalId)
    requires Uids(rows) == Uids(CatalogRows(remote, store))
    requires hq !in FieldOffices(remote)
    requires id in Selected(rows)
    ensures id.accountId in FieldOffices(remote) && id.accountId != hq
  {
    SelectedMembers(rows);
    var i :| 0 <= i < |rows| && rows[i].flag && rows[i].uid == id;
    var catalog := CatalogRows(remote, store);
    UidsAt(rows, i);
    UidsAt(catalog, i);
    assert catalog[i].uid == id;
    CatalogRowsFresh(remote, store);
    assert catalog[i] in catalog;
  }

  lemma {:induction false} UidsAt(rows: seq<Row>, i: nat)
    requires i < |rows|
    ensures Uids(rows)[i] == rows[i].uid
    decreases i
  {
    if i > 0 {
      UidsAt(rows[1..], i - 1);
    }
  }
}
