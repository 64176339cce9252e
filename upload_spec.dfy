/**
 * The background upload engine as values: the three local folders, the
 * upload log, and what one pass of the engine does to them.
 */
module UploadSpec {
  import opened Wrappers

  /** What the server answers to one upload; NoResponse is a transport failure. */
  datatype Status = Ok | Rejected(tag: string) | NoResponse

  /** The parts of a bulletin the engine reads; it never changes them. */
  datatype Bulletin = Bulletin(localId: string, title: string, sealed: bool)

  /** The upload log: a file that exists or not, holding text lines. */
  datatype UploadLog = UploadLog(created: bool, lines: seq<string>)

  /** Outbox (sealed, awaiting upload), DraftOutbox (drafts awaiting upload), Sent, and the log. */
  datatype Folders = Folders(outbox: seq<Bulletin>, draftOutbox: seq<Bulletin>, sent: seq<Bulletin>, log: UploadLog)

  /** The account's configuration: the server name, when a server is configured, and logging. */
  datatype Config = Config(serverLabel: Option<string>, logging: bool)

  /** The result of a pass: NoServer is the null result, neither OK nor an error. */
  datatype UploadResult = NoServer | Finished(result: Status)

  /** One folder's share of a pass: the folders afterwards and the status, when an upload was attempted. */
  datatype Attempt = Attempt(after: Folders, status: Option<Status>)

  datatype Step = Step(after: Folders, result: UploadResult)

  /** The server, one upload at a time. */
  type Server = Bulletin -> Status

  predicate DistinctIds(s: seq<Bulletin>) {
    forall i, j :: 0 <= i < j < |s| ==> s[i].localId != s[j].localId
  }

  /**
   * The folder invariant: Outbox and Sent hold sealed bulletins, each exactly
   * once across the two; DraftOutbox holds drafts, each once; the log exists
   * exactly when it holds records, three lines each.
   */
  predicate Valid(f: Folders) {
    && (forall b :: b in f.outbox ==> b.sealed)
    && (forall b :: b in f.sent ==> b.sealed)
    && (forall b :: b in f.draftOutbox ==> !b.sealed)
    && DistinctIds(f.outbox + f.sent)
    && DistinctIds(f.draftOutbox)
    && (f.log.created <==> f.log.lines != [])
    && |f.log.lines| % 3 == 0
  }

  /** The three lines logged for one delivery. */
  function LogRecord(b: Bulletin, serverLabel: string): seq<string> {
    [b.localId, serverLabel, b.title]
  }

  /** The log after a successful delivery of `b`; the file is created on the first record. */
  function Logged(log: UploadLog, logging: bool, b: Bulletin, serverLabel: string): (r: UploadLog)
    ensures !logging ==> r == log
    ensures logging ==> r.created && |r.lines| == |log.lines| + 3
    ensures logging ==> r.lines[..|log.lines|] == log.lines && r.lines[|log.lines|..] == [b.localId, serverLabel, b.title]
  {
    if logging then UploadLog(true, log.lines + LogRecord(b, serverLabel)) else log
  }

  /** Delivers the first bulletin of the Outbox, if any: on OK it moves to Sent. */
  function SendSealed(f: Folders, serverLabel: string, logging: bool, server: Server): Attempt {
    if f.outbox == [] then Attempt(f, None)
    else
      var b := f.outbox[0];
      var status := server(b);
      if status == Ok then
        Attempt(f.(outbox := f.outbox[1..], sent := f.sent + [b], log := Logged(f.log, logging, b, serverLabel)), Some(Ok))
      else Attempt(f, Some(status))
  }

  /** Delivers the first bulletin of the DraftOutbox, if any: on OK it is dropped. */
  function SendDraft(f: Folders, serverLabel: string, logging: bool, server: Server): Attempt {
    if f.draftOutbox == [] then Attempt(f, None)
    else
      var b := f.draftOutbox[0];
      var status := server(b);
      if status == Ok then
        Attempt(f.(draftOutbox := f.draftOutbox[1..], log := Logged(f.log, logging, b, serverLabel)), Some(Ok))
      else Attempt(f, Some(status))
  }

  /**
   * One pass of the engine: nothing when no server is configured; otherwise
   * at most one sealed bulletin, then at most one draft. The result is the
   * status of the last upload attempted, OK when both queues were empty.
   */
  function Pass(f: Folders, cfg: Config, server: Server): Step {
    match cfg.serverLabel
    case None => Step(f, NoServer)
    case Some(name) =>
      var sealed := SendSealed(f, name, cfg.logging, server);
      var draft := SendDraft(sealed.after, name, cfg.logging, server);
      var status :=
        if draft.status.Some? then draft.status.value
        else if sealed.status.Some? then sealed.status.value
        else Ok;
      Step(draft.after, Finished(status))
  }

  /** Repeated passes, the i-th against `servers[i]`. */
  function Run(f: Folders, cfg: Config, servers: seq<Server>): Folders
    decreases |servers|
  {
    if servers == [] then f else Run(Pass(f, cfg, servers[0]).after, cfg, servers[1..])
  }

  /** The results of repeated passes, the i-th against `servers[i]`. */
  function RunResults(f: Folders, cfg: Config, servers: seq<Server>): (results: seq<UploadResult>)
    ensures |results| == |servers|
    decreases |servers|
  {
    if servers == [] then []
    else
      var step := Pass(f, cfg, servers[0]);
      [step.result] + RunResults(step.after, cfg, servers[1..])
  }

  // ----- one pass -----

  /**
   * The result of a pass: the null result without a server; otherwise the
   * status of the draft upload when the DraftOutbox was not empty, else that
   * of the sealed upload, else OK. A rejected sealed upload is therefore not
   * reported when the draft uploaded after it in the same pass is accepted.
   */
  lemma PassResultIsLastAttempt(f: Folders, cfg: Config, server: Server)
    ensures Pass(f, cfg, server).result ==
      if cfg.serverLabel.None? then NoServer
      else if f.draftOutbox != [] then Finished(server(f.draftOutbox[0]))
      else if f.outbox != [] then Finished(server(f.outbox[0]))
      else Finished(Ok)
  {
  }

  /** An accepted Outbox head, in any state: it leaves the Outbox and becomes the last bulletin of Sent. */
  lemma SealedAccepted(f: Folders, cfg: Config, server: Server)
    requires cfg.serverLabel.Some? && f.outbox != [] && server(f.outbox[0]) == Ok
    ensures var g := Pass(f, cfg, server).after;
      g.outbox == f.outbox[1..] && g.sent == f.sent + [f.outbox[0]]
  {
  }

  /** An accepted DraftOutbox head, in any state: it is dropped and the pass returns OK. */
  lemma DraftAccepted(f: Folders, cfg: Config, server: Server)
    requires cfg.serverLabel.Some? && f.draftOutbox != [] && server(f.draftOutbox[0]) == Ok
    ensures var s := Pass(f, cfg, server);
      s.after.draftOutbox == f.draftOutbox[1..] && s.result == Finished(Ok)
  {
  }

  /**
   * The log after a pass: the old lines, then the record of the sealed
   * bulletin if one was delivered, then that of the draft if one was; with
   * logging off, the old log.
   */
  lemma PassLog(f: Folders, cfg: Config, server: Server)
    requires cfg.serverLabel.Some?
    ensures var g := Pass(f, cfg, server).after;
      var name := cfg.serverLabel.value;
      var sealedRecord := if g.outbox != f.outbox then LogRecord(f.outbox[0], name) else [];
      var draftRecord := if g.draftOutbox != f.draftOutbox then LogRecord(f.draftOutbox[0], name) else [];
      && (cfg.logging ==> g.log.lines == f.log.lines + sealedRecord + draftRecord)
      && (cfg.logging ==> (g.log.created <==> f.log.created || sealedRecord + draftRecord != []))
      && (!cfg.logging ==> g.log == f.log)
  {
    var name := cfg.serverLabel.value;
    var a := SendSealed(f, name, cfg.logging, server);
    var b := SendDraft(a.after, name, cfg.logging, server);
    if f.outbox != [] && server(f.outbox[0]) == Ok {
      assert a.after.outbox != f.outbox by {
        assert |a.after.outbox| < |f.outbox|;
      }
    }
    if f.draftOutbox != [] && server(f.draftOutbox[0]) == Ok {
      assert b.after.draftOutbox != f.draftOutbox by {
        assert |b.after.draftOutbox| < |f.draftOutbox|;
      }
    }
  }

  lemma NoServerChangesNothing(f: Folders, cfg: Config, server: Server)
    requires cfg.serverLabel.None?
    ensures Pass(f, cfg, server) == Step(f, NoServer)
  {
  }

  /** With a server configured and both queues empty, a pass returns OK and changes nothing. */
  lemma NothingToSend(f: Folders, cfg: Config, server: Server)
    requires cfg.serverLabel.Some? && f.outbox == [] && f.draftOutbox == []
    ensures Pass(f, cfg, server) == Step(f, Finished(Ok))
  {
  }

  /** A pass moves at most one bulletin out of each queue, and only the first. */
  lemma AtMostOnePerQueue(f: Folders, cfg: Config, server: Server)
    ensures var g := Pass(f, cfg, server).after;
      (g.outbox == f.outbox || (f.outbox != [] && g.outbox == f.outbox[1..]))
      && (g.draftOutbox == f.draftOutbox || (f.draftOutbox != [] && g.draftOutbox == f.draftOutbox[1..]))
  {
  }

  /**
   * A bulletin leaves its queue only on an OK for that very bulletin; a sealed
   * one then ends up last in Sent, and nothing else in Sent changes.
   */
  lemma LeavesQueueOnlyOnOk(f: Folders, cfg: Config, server: Server)
    ensures var g := Pass(f, cfg, server).after;
      && (g.outbox != f.outbox ==> server(f.outbox[0]) == Ok && g.sent == f.sent + [f.outbox[0]])
      && (g.outbox == f.outbox ==> g.sent == f.sent)
      && (g.draftOutbox != f.draftOutbox ==> server(f.draftOutbox[0]) == Ok)
  {
  }

  /** A failed sealed upload on its own: its status is the result, and nothing changes. */
  lemma SealedFailureChangesNothing(f: Folders, cfg: Config, server: Server)
    requires cfg.serverLabel.Some? && f.outbox != [] && f.draftOutbox == []
    requires server(f.outbox[0]) != Ok
    ensures Pass(f, cfg, server) == Step(f, Finished(server(f.outbox[0])))
  {
  }

  /** A failed draft upload on its own: its status is the result, and nothing changes. */
  lemma DraftFailureChangesNothing(f: Folders, cfg: Config, server: Server)
    requires cfg.serverLabel.Some? && f.outbox == [] && f.draftOutbox != []
    requires server(f.draftOutbox[0]) != Ok
    ensures Pass(f, cfg, server) == Step(f, Finished(server(f.draftOutbox[0])))
  {
  }

  /** A sealed bulletin alone in the Outbox, delivered: Outbox empty, Sent holds it, result OK. */
  lemma SealedDelivered(f: Folders, cfg: Config, server: Server)
    requires cfg.serverLabel.Some? && |f.outbox| == 1 && f.draftOutbox == []
    requires server(f.outbox[0]) == Ok
    ensures var s := Pass(f, cfg, server);
      s.result == Finished(Ok) && s.after.outbox == [] && s.after.sent == f.sent + f.outbox
      && s.after.draftOutbox == []
  {
  }

  /**
   * Logging a delivered sealed bulletin into a fresh log: the log now exists
   * and its first three lines are the local id, the server name and the title.
   */
  lemma FirstLogRecord(f: Folders, cfg: Config, server: Server)
    requires cfg.serverLabel.Some? && cfg.logging && !f.log.created && f.log.lines == []
    requires f.outbox != [] && f.draftOutbox == [] && server(f.outbox[0]) == Ok
    ensures var log := Pass(f, cfg, server).after.log;
      log.created && |log.lines| == 3
      && log.lines[0] == f.outbox[0].localId
      && log.lines[1] == cfg.serverLabel.value
      && log.lines[2] == f.outbox[0].title
  {
  }

  /** Removing the first of a list keeps its ids distinct. */
  lemma DistinctTail(s: seq<Bulletin>)
    requires s != [] && DistinctIds(s)
    ensures DistinctIds(s[1..])
  {
  }

  /** Moving the head of the Outbox to the end of Sent keeps every id exactly once. */
  lemma DistinctRotate(o: seq<Bulletin>, s: seq<Bulletin>)
    requires o != [] && DistinctIds(o + s)
    ensures DistinctIds(o[1..] + (s + [o[0]]))
  {
    var a := o + s;
    var t := o[1..] + (s + [o[0]]);
    assert |t| == |a|;
    forall i, j | 0 <= i < j < |t| ensures t[i].localId != t[j].localId {
      // t[k] is a[k + 1] below the last index, and a[0] at it
      if j == |t| - 1 {
        assert t[j] == a[0] && t[i] == a[i + 1];
      } else {
        assert t[i] == a[i + 1] && t[j] == a[j + 1];
      }
    }
  }

  lemma {:induction false} PassKeepsValid(f: Folders, cfg: Config, server: Server)
    requires Valid(f)
    ensures Valid(Pass(f, cfg, server).after)
  {
    if cfg.serverLabel.Some? {
      var name := cfg.serverLabel.value;
      var g := SendSealed(f, name, cfg.logging, server).after;
      if g != f {
        DistinctRotate(f.outbox, f.sent);
        assert f.outbox == [f.outbox[0]] + f.outbox[1..];
        assert g.outbox + g.sent == f.outbox[1..] + (f.sent + [f.outbox[0]]);
        assert forall b :: b in g.outbox ==> b in f.outbox;
      }
      var h := SendDraft(g, name, cfg.logging, server).after;
      if h != g {
        DistinctTail(g.draftOutbox);
        assert forall b :: b in h.draftOutbox ==> b in g.draftOutbox;
      }
    }
  }

  /** Sealed bulletins are neither lost nor duplicated by a pass: Outbox plus Sent is conserved. */
  lemma {:induction false} PassConservesSealed(f: Folders, cfg: Config, server: Server)
    ensures var g := Pass(f, cfg, server).after;
      multiset(g.outbox + g.sent) == multiset(f.outbox + f.sent)
  {
    if cfg.serverLabel.Some? && f.outbox != [] && server(f.outbox[0]) == Ok {
      assert f.outbox == [f.outbox[0]] + f.outbox[1..];
    }
  }

  // ----- repeated passes -----

  lemma {:induction false} RunKeepsValid(f: Folders, cfg: Config, servers: seq<Server>)
    requires Valid(f)
    ensures Valid(Run(f, cfg, servers))
    decreases |servers|
  {
    if servers != [] {
      PassKeepsValid(f, cfg, servers[0]);
      RunKeepsValid(Pass(f, cfg, servers[0]).after, cfg, servers[1..]);
    }
  }

  /** However many passes, against whatever server, no sealed bulletin is lost or duplicated. */
  lemma {:induction false} RunConservesSealed(f: Folders, cfg: Config, servers: seq<Server>)
    ensures var g := Run(f, cfg, servers);
      multiset(g.outbox + g.sent) == multiset(f.outbox + f.sent)
    decreases |servers|
  {
    if servers != [] {
      PassConservesSealed(f, cfg, servers[0]);
      RunConservesSealed(Pass(f, cfg, servers[0]).after, cfg, servers[1..]);
    }
  }

  /** Passes against a server that never answers OK change no folder and no log. */
  lemma {:induction false} FailingServerChangesNothing(f: Folders, cfg: Config, servers: seq<Server>)
    requires forall k, b :: 0 <= k < |servers| ==> servers[k](b) != Ok
    ensures Run(f, cfg, servers) == f
    decreases |servers|
  {
    if servers != [] {
      assert Pass(f, cfg, servers[0]).after == f;
      forall k, b | 0 <= k < |servers[1..]| ensures servers[1..][k](b) != Ok {
        assert servers[1..][k] == servers[k + 1];
      }
      FailingServerChangesNothing(f, cfg, servers[1..]);
    }
  }

  /** With logging disabled no log is ever created or written, after any number of deliveries. */
  lemma {:induction false} NoLogWhenDisabled(f: Folders, cfg: Config, servers: seq<Server>)
    requires !cfg.logging
    ensures Run(f, cfg, servers).log == f.log
    decreases |servers|
  {
    if servers != [] {
      NoLogWhenDisabled(Pass(f, cfg, servers[0]).after, cfg, servers[1..]);
    }
  }

  /** Each pass removes at most one draft: n passes leave at least |DraftOutbox| - n of them. */
  lemma {:induction false} DraftsLeaveOneAtATime(f: Folders, cfg: Config, servers: seq<Server>)
    ensures var d := Run(f, cfg, servers).draftOutbox;
      |f.draftOutbox| - |servers| <= |d| <= |f.draftOutbox| && d == f.draftOutbox[|f.draftOutbox| - |d|..]
    decreases |servers|
  {
    if servers != [] {
      var g := Pass(f, cfg, servers[0]).after;
      AtMostOnePerQueue(f, cfg, servers[0]);
      DraftsLeaveOneAtATime(g, cfg, servers[1..]);
      var d := Run(g, cfg, servers[1..]).draftOutbox;
      if g.draftOutbox != f.draftOutbox {
        assert g.draftOutbox[|g.draftOutbox| - |d|..] == f.draftOutbox[|f.draftOutbox| - |d|..];
      }
    }
  }

  /** Passes compose: running `a` and then `b` is running `a + b`; so are their results. */
  lemma {:induction false} RunConcat(f: Folders, cfg: Config, a: seq<Server>, b: seq<Server>)
    ensures Run(f, cfg, a + b) == Run(Run(f, cfg, a), cfg, b)
    ensures RunResults(f, cfg, a + b) == RunResults(f, cfg, a) + RunResults(Run(f, cfg, a), cfg, b)
    decreases |a|
  {
    if a == [] {
      assert a + b == b;
    } else {
      assert (a + b)[0] == a[0] && (a + b)[1..] == a[1..] + b;
      RunConcat(Pass(f, cfg, a[0]).after, cfg, a[1..], b);
    }
  }

  /**
   * With the Outbox empty and a server that accepts everything, n passes
   * deliver n queued drafts, one per pass, each pass returning OK, and leave
   * Outbox and Sent alone.
   */
  lemma {:induction false} DraftsDrain(f: Folders, cfg: Config, servers: seq<Server>)
    requires cfg.serverLabel.Some? && f.outbox == []
    requires forall k, b :: 0 <= k < |servers| ==> servers[k](b) == Ok
    requires |servers| <= |f.draftOutbox|
    ensures var g := Run(f, cfg, servers);
      g.draftOutbox == f.draftOutbox[|servers|..] && g.outbox == [] && g.sent == f.sent
    ensures forall k :: 0 <= k < |servers| ==> RunResults(f, cfg, servers)[k] == Finished(Ok)
    decreases |servers|
  {
    if servers != [] {
      var g := Pass(f, cfg, servers[0]).after;
      assert g.draftOutbox == f.draftOutbox[1..] && g.outbox == [] && g.sent == f.sent;
      forall k, b | 0 <= k < |servers[1..]| ensures servers[1..][k](b) == Ok {
        assert servers[1..][k] == servers[k + 1];
      }
      DraftsDrain(g, cfg, servers[1..]);
      assert f.draftOutbox[1..][|servers| - 1..] == f.draftOutbox[|servers|..];
      assert Pass(f, cfg, servers[0]).result == Finished(Ok);
      var rest := RunResults(g, cfg, servers[1..]);
      assert RunResults(f, cfg, servers) == [Finished(Ok)] + rest;
      forall k | 0 <= k < |servers| ensures RunResults(f, cfg, servers)[k] == Finished(Ok) {
        if k > 0 {
          assert RunResults(f, cfg, servers)[k] == rest[k - 1];
        }
      }
    }
  }
}
