/**
 * Clients of the two components that replay the situations the test suites
 * set up, using nothing but the components' contracts.
 */
module Scenarios {
  import opened Wrappers
  import opened UploadSpec
  import opened BackgroundUploading
  import opened RetrieveHq
  import opened RetrieveHqTable
  import Manifest

  method NoServerConfigured() {
    var app := new App();
    var uploader := new BackgroundUploader(app);
    var sealed := app.CreateSealedBulletin("sealed-1", "test title");
    assert app.outbox + app.sent + app.draftOutbox == [sealed];
    var draft := app.CreateDraftBulletin("draft-1", "test title");
    var r := uploader.BackgroundUpload(b => Ok);
    assert r == NoServer;
    assert |app.outbox| == 1 && |app.draftOutbox| == 1;
  }

  method NothingToSend() {
    var app := new App();
    app.SetServerInfo("mock");
    var uploader := new BackgroundUploader(app);
    var r := uploader.BackgroundUpload(b => Rejected("never asked"));
    assert r == Finished(Ok);
    assert app.outbox == [] && app.sent == [];
  }

  method SealedWorked() {
    var app := new App();
    app.SetServerInfo("mock");
    var uploader := new BackgroundUploader(app);
    var b := app.CreateSealedBulletin("sealed-1", "test title");
    var r := uploader.BackgroundUpload(x => Ok);
    assert r == Finished(Ok);
    assert |app.outbox| == 0 && app.sent == [b];
  }

  method DraftsWorked() {
    var app := new App();
    app.SetServerInfo("mock");
    var uploader := new BackgroundUploader(app);
    var d1 := app.CreateDraftBulletin("draft-1", "test title");
    assert app.outbox + app.sent + app.draftOutbox == [d1];
    var d2 := app.CreateDraftBulletin("draft-2", "test title");
    var r := uploader.BackgroundUpload(x => Ok);
    assert r == Finished(Ok) && |app.draftOutbox| == 1;
    r := uploader.BackgroundUpload(x => Ok);
    assert r == Finished(Ok) && |app.draftOutbox| == 0;
  }

  method SealedFailed() {
    var app := new App();
    app.SetServerInfo("mock");
    var uploader := new BackgroundUploader(app);
    var b := app.CreateSealedBulletin("sealed-1", "test title");
    var failure := Rejected("Some error tag would go here");
    var r := uploader.BackgroundUpload(x => failure);
    assert r == Finished(failure);
    assert app.outbox == [b] && app.sent == [] && app.outbox[0].sealed;
  }

  method DraftFailed() {
    var app := new App();
    app.SetServerInfo("mock");
    var uploader := new BackgroundUploader(app);
    var d := app.CreateDraftBulletin("draft-1", "test title");
    var r := uploader.BackgroundUpload(x => NoResponse);
    assert r == Finished(NoResponse);
    assert app.draftOutbox == [d];
  }

  method Logging() {
    var app := new App();
    app.SetServerInfo("some silly server");
    var uploader := new BackgroundUploader(app);
    var quiet := app.CreateSealedBulletin("sealed-1", "test title");
    var r := uploader.BackgroundUpload(x => Ok);
    assert r == Finished(Ok) && !app.log.created;
    app.EnableUploadLogging();
    assert app.outbox + app.sent + app.draftOutbox == [quiet];
    var logged := app.CreateSealedBulletin("sealed-2", "test title");
    r := uploader.BackgroundUpload(x => Ok);
    assert r == Finished(Ok) && app.log.created;
    assert app.log.lines == ["sealed-2", "some silly server", "test title"];
  }

  /** Two field offices: the first lists e0 and e1, the second lists e2. */
  predicate TwoOffices(remote: Remote, office1: AccountId, office2: AccountId,
                       e0: Manifest.ManifestEntry, e1: Manifest.ManifestEntry, e2: Manifest.ManifestEntry)
  {
    && office1 != office2
    && Manifest.WellFormed(e0) && Manifest.WellFormed(e1) && Manifest.WellFormed(e2)
    && FieldOffices(remote) == [office1, office2]
    && ManifestOf(remote, office1) == [Manifest.FormatEntry(e0), Manifest.FormatEntry(e1)]
    && ManifestOf(remote, office2) == [Manifest.FormatEntry(e2)]
  }

  /**
   * Three new bulletins listed by two field offices give three rows; once
   * the HQ's store holds all three, a fresh table has none.
   */
  method CatalogOfTwoOffices(remote: Remote, office1: AccountId, office2: AccountId,
                             e0: Manifest.ManifestEntry, e1: Manifest.ManifestEntry, e2: Manifest.ManifestEntry)
    requires TwoOffices(remote, office1, office2, e0, e1, e2)
  {
    Manifest.EntryRoundTrip(e0);
    Manifest.EntryRoundTrip(e1);
    Manifest.EntryRoundTrip(e2);
    var offices := [office1, office2];
    assert offices[..1] == [office1] && offices[..1][..0] == [];
    assert EntryCount(remote, offices[..1]) == EntryCount(remote, []) + |ManifestOf(remote, office1)| == 2;
    assert EntryCount(remote, offices) == EntryCount(remote, offices[..1]) + |ManifestOf(remote, office2)| == 3;

    var table := new RetrieveHqTableModel();
    table.Initialize(remote, {});
    RowCountOfCatalog(table, remote, {});
    assert table.RowCount() == 3;

    var uid0, uid1, uid2 := UniversalId(office1, e0.localId), UniversalId(office1, e1.localId), UniversalId(office2, e2.localId);
    var imported := new RetrieveHqTableModel();
    imported.Initialize(remote, {uid0, uid1, uid2});
    RowCountOfCatalog(imported, remote, {uid0, uid1, uid2});
    assert imported.RowCount() == 0;
  }

  /**
   * On the table built from two field offices: clearing every flag selects
   * nothing, setting every flag selects all three ids in row order, none of
   * them the HQ's.
   */
  method SelectFromTwoOffices(remote: Remote, office1: AccountId, office2: AccountId, hq: AccountId,
                              e0: Manifest.ManifestEntry, e1: Manifest.ManifestEntry, e2: Manifest.ManifestEntry)
    requires TwoOffices(remote, office1, office2, e0, e1, e2)
    requires hq != office1 && hq != office2
  {
    var uid0, uid1, uid2 := UniversalId(office1, e0.localId), UniversalId(office1, e1.localId), UniversalId(office2, e2.localId);
    var table := new RetrieveHqTableModel();
    table.Initialize(remote, {});
    AccountsRowsUids(remote, {}, office1, office2, e0, e1, e2);

    table.SetAllFlags(false);
    SelectedNoneFlagged(table.rows);
    assert table.UniversalIdList() == [];

    table.SetAllFlags(true);
    SelectedAllFlagged(table.rows);
    assert table.UniversalIdList() == [uid0, uid1, uid2];
    assert forall id :: id in table.UniversalIdList() ==> id.accountId != hq;
  }

  /** A title write is ignored; unflagging the middle row of three flagged ones leaves the outer two, in order. */
  method UnflagMiddleOfThree(remote: Remote, office1: AccountId, office2: AccountId,
                             e0: Manifest.ManifestEntry, e1: Manifest.ManifestEntry, e2: Manifest.ManifestEntry)
    requires TwoOffices(remote, office1, office2, e0, e1, e2)
  {
    var uid0, uid2 := UniversalId(office1, e0.localId), UniversalId(office2, e2.localId);
    var table := new RetrieveHqTableModel();
    table.Initialize(remote, {});
    AccountsRowsUids(remote, {}, office1, office2, e0, e1, e2);
    table.SetAllFlags(true);
    SameUidsWhenFlagsChange(CatalogRows(remote, {}), table.rows);

    var title := table.ValueAt(2, 1);
    table.SetValueAt(TextCell("changed"), 2, 1);
    assert table.ValueAt(2, 1) == title;

    var before := table.rows;
    table.SetValueAt(FlagCell(false), 1, 0);
    SelectedAround(before, 1);
    SelectedAllFlagged(before[..1]);
    SelectedAllFlagged(before[2..]);
    UidsAt(before, 0);
    UidsAt(before, 2);
    assert table.UniversalIdList() == [uid0, uid2];
  }

  /** A well-formed entry for a bulletin not in the store yields exactly its resolved row. */
  lemma OneEntryRow(remote: Remote, store: set<UniversalId>, account: AccountId, e: Manifest.ManifestEntry)
    requires Manifest.WellFormed(e) && UniversalId(account, e.localId) !in store
    ensures EntryRow(remote, store, account, Manifest.FormatEntry(e)) == [ResolveRow(remote, account, e)]
  {
    Manifest.EntryRoundTrip(e);
  }

  /** The ids of the two offices' rows, in account then manifest order. */
  lemma AccountsRowsUids(remote: Remote, store: set<UniversalId>, office1: AccountId, office2: AccountId,
                         e0: Manifest.ManifestEntry, e1: Manifest.ManifestEntry, e2: Manifest.ManifestEntry)
    requires TwoOffices(remote, office1, office2, e0, e1, e2)
    requires store == {}
    ensures Uids(CatalogRows(remote, store)) ==
      [UniversalId(office1, e0.localId), UniversalId(office1, e1.localId), UniversalId(office2, e2.localId)]
  {
    var m1 := ManifestOf(remote, office1);
    var m2 := ManifestOf(remote, office2);
    OneEntryRow(remote, store, office1, e0);
    OneEntryRow(remote, store, office1, e1);
    OneEntryRow(remote, store, office2, e2);
    var row0, row1, row2 := ResolveRow(remote, office1, e0), ResolveRow(remote, office1, e1), ResolveRow(remote, office2, e2);

    assert m1[..1][..0] == [] && m1[..1] == [m1[0]];
    assert EntryRows(remote, store, office1, m1[..1]) == [row0];
    assert m1[..2] == m1;
    assert EntryRows(remote, store, office1, m1) == EntryRows(remote, store, office1, m1[..1]) + EntryRow(remote, store, office1, m1[1]);
    assert EntryRows(remote, store, office1, m1) == [row0, row1];
    assert m2[..0] == [];
    assert EntryRows(remote, store, office2, m2) == EntryRows(remote, store, office2, m2[..0]) + EntryRow(remote, store, office2, m2[0]);
    assert EntryRows(remote, store, office2, m2) == [row2];

    var accounts := [office1, office2];
    assert accounts[..1][..0] == [] && accounts[..1] == [office1];
    assert AccountsRows(remote, store, accounts[..1]) == [row0, row1];
    assert AccountsRows(remote, store, accounts) == [row0, row1] + [row2];
    var rows := CatalogRows(remote, store);
    assert rows == [row0, row1, row2];
    UidsAt(rows, 0);
    UidsAt(rows, 1);
    UidsAt(rows, 2);
  }
}
