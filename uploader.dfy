/**
 * The client application's delivery state and the background uploader that
 * drains it. The folders and the log are fields that each pass updates in place.
 */
module BackgroundUploading {
  import opened Wrappers
  import opened UploadSpec

  /** The account's folders, upload log and server configuration. */
  class App {
    var outbox: seq<Bulletin>
    var draftOutbox: seq<Bulletin>
    var sent: seq<Bulletin>
    var log: UploadLog
    var serverLabel: Option<string>
    var loggingEnabled: bool

    function Snapshot(): Folders
      reads this
    {
      Folders(outbox, draftOutbox, sent, log)
    }

    function Settings(): Config
      reads this
    {
      Config(serverLabel, loggingEnabled)
    }

    ghost predicate Valid()
      reads this
    {
      UploadSpec.Valid(Snapshot())
    }

    /** No local id in use in any folder. */
    predicate IsUnusedId(localId: string)
      reads this
    {
      forall b :: b in outbox + sent + draftOutbox ==> b.localId != localId
    }

    /** A new account: empty folders, no log, no server, logging off. */
    constructor ()
      ensures Valid()
      ensures Snapshot() == Folders([], [], [], UploadLog(false, []))
      ensures Settings() == Config(None, false)
    {
      outbox, draftOutbox, sent := [], [], [];
      log := UploadLog(false, []);
      serverLabel := None;
      loggingEnabled := false;
    }

    method SetServerInfo(name: string)
      modifies this`serverLabel
      ensures serverLabel == Some(name)
    {
      serverLabel := Some(name);
    }

    method EnableUploadLogging()
      modifies this`loggingEnabled
      ensures loggingEnabled
    {
      loggingEnabled := true;
    }

    /** Creates a sealed bulletin and queues it, last, in the Outbox. */
    method CreateSealedBulletin(localId: string, title: string) returns (b: Bulletin)
      requires Valid() && IsUnusedId(localId)
      modifies this`outbox
      ensures Valid()
      ensures b == Bulletin(localId, title, true) && outbox == old(outbox) + [b]
    {
      b := Bulletin(localId, title, true);
      assert forall x :: x in outbox + sent ==> x in outbox + sent + draftOutbox;
      outbox := outbox + [b];
      assert outbox + sent == old(outbox) + [b] + sent;
      forall i, j | 0 <= i < j < |outbox + sent|
        ensures (outbox + sent)[i].localId != (outbox + sent)[j].localId
      {
        var t := outbox + sent;
        var o := old(outbox) + sent;
        if i == |old(outbox)| {
          assert t[j] == o[j - 1] && t[j] in o;
        } else if j == |old(outbox)| {
          assert t[i] == o[i] && t[i] in o;
        } else {
          assert t[i] == o[if i < |old(outbox)| then i else i - 1];
          assert t[j] == o[if j < |old(outbox)| then j else j - 1];
        }
      }
    }

    /** Creates a draft bulletin and queues it, last, in the DraftOutbox. */
    method CreateDraftBulletin(localId: string, title: string) returns (b: Bulletin)
      requires Valid() && IsUnusedId(localId)
      modifies this`draftOutbox
      ensures Valid()
      ensures b == Bulletin(localId, title, false) && draftOutbox == old(draftOutbox) + [b]
    {
      b := Bulletin(localId, title, false);
      assert forall x :: x in draftOutbox ==> x in outbox + sent + draftOutbox;
      draftOutbox := draftOutbox + [b];
    }
  }

  class BackgroundUploader {
    const app: App

    constructor (app: App)
      ensures this.app == app
    {
      this.app := app;
    }

    /**
     * Uploads one bulletin and, when it was accepted and logging is on,
     * appends its record to the log. The folders are not touched here.
     */
    method UploadBulletin(b: Bulletin, server: Server) returns (status: Status)
      requires app.serverLabel.Some?
      modifies app`log
      ensures status == server(b)
      ensures app.log == if status == Ok then Logged(old(app.log), app.loggingEnabled, b, app.serverLabel.value) else old(app.log)
    {
      status := server(b);
      if status == Ok && app.loggingEnabled {
        app.log := UploadLog(true, app.log.lines + LogRecord(b, app.serverLabel.value));
      }
    }

    /**
     * One pass over the Outbox and then the DraftOutbox, at most one
     * bulletin from each; see UploadSpec.Pass.
     */
    method BackgroundUpload(server: Server) returns (r: UploadResult)
      modifies app
      ensures app.Settings() == old(app.Settings())
      ensures Step(app.Snapshot(), r) == Pass(old(app.Snapshot()), old(app.Settings()), server)
      ensures old(app.Valid()) ==> app.Valid()
    {
      if app.Valid() {
        PassKeepsValid(app.Snapshot(), app.Settings(), server);
      }
      if app.serverLabel.None? {
        return NoServer;
      }
      var status: Status := Ok;
      if app.outbox != [] {
        var b := app.outbox[0];
        var s := UploadBulletin(b, server);
        if s == Ok {
          app.outbox := app.outbox[1..];
          app.sent := app.sent + [b];
        }
        status := s;
      }
      if app.draftOutbox != [] {
        var b := app.draftOutbox[0];
        var s := UploadBulletin(b, server);
        if s == Ok {
          app.draftOutbox := app.draftOutbox[1..];
        }
        status := s;
      }
      r := Finished(status);
    }
  }
}
