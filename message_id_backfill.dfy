/**
 * backfill_message_id.py: every row of `downloaded_emails` whose
 * `message_id` is NULL or empty is looked up on the server by uid, and the
 * value of its first Message-ID header (section 3.6.4 of RFC 5322), or `""`
 * when there is none, is written to that row and to every `email` row with
 * the same uid and folder.
 *
 * The session is an input: `server` holds the folders, `selectFails` the
 * row positions whose `folder.set` raises and `fetchFails` those whose fetch
 * raises. A failed SELECT leaves no folder selected (section 6.3.1 of
 * RFC 3501).
 */
module MessageIdBackfill {
  import opened Wrappers
  import opened Store
  import opened Naming
  import opened Sync

  /** Rows between periodic commits (backfill_message_id.py:50). */
  const CommitEvery: nat := 1000

  /** The rows the script selects: `message_id IS NULL OR message_id = ''`. */
  predicate NeedsMessageId(r: DownloadedRow) {
    r.messageId.None? || r.messageId == Some("")
  }

  /** The value written for a fetched message: its Message-ID header converted with `str()`, else `""`. */
  function NewMessageId(m: MailMessage): string {
    FindMessageId(m.headers).GetOr("")
  }

  /** The first header whose lower-cased name is `message-id` gives the value, whatever follows it. */
  lemma NewMessageIdFirstHeader(m: MailMessage, i: nat)
    requires i < |m.headers| && IsMessageIdName(m.headers[i].0)
    requires forall j :: 0 <= j < i ==> !IsMessageIdName(m.headers[j].0)
    ensures NewMessageId(m) == AsText(m.headers[i].1).GetOr("")
  {
    FindMessageIdFirstMatch(m.headers, i);
  }

  /** Without a Message-ID header (or with a `None` value) the empty string is written. */
  lemma NewMessageIdNoHeader(m: MailMessage)
    requires forall j :: 0 <= j < |m.headers| ==> !IsMessageIdName(m.headers[j].0)
    ensures NewMessageId(m) == ""
  {
    FindMessageIdAbsent(m.headers);
  }

  // ---------------------------------------------------------------------------
  // The folder selection of the row loop (backfill_message_id.py:24-30)

  /** The `folders_done` set and the folder the session has selected. */
  datatype Session = Session(done: set<Folder>, selected: Option<Folder>)

  /**
   * The selection step of one row: nothing when the folder is in
   * `folders_done`; otherwise `folder.set` is issued, and on success the
   * folder is selected and remembered.
   */
  function SelectStep(s: Session, folder: Folder, fails: bool): Session {
    if folder in s.done then s
    else if fails then Session(s.done, None)
    else Session(s.done + {folder}, Some(folder))
  }

  /** The session before row `i`. */
  function SessionBefore(missing: seq<(Uid, Folder)>, selectFails: set<nat>, i: nat): Session
    requires i <= |missing|
  {
    if i == 0 then Session({}, None)
    else SelectStep(SessionBefore(missing, selectFails, i - 1), missing[i - 1].1, i - 1 in selectFails)
  }

  /** Row `i` issues `folder.set`. */
  predicate SelectIssued(missing: seq<(Uid, Folder)>, selectFails: set<nat>, i: nat)
    requires i < |missing|
  {
    missing[i].1 !in SessionBefore(missing, selectFails, i).done
  }

  /** Row `i` selects its folder successfully. */
  predicate Selects(missing: seq<(Uid, Folder)>, selectFails: set<nat>, i: nat)
    requires i < |missing|
  {
    SelectIssued(missing, selectFails, i) && i !in selectFails
  }

  /**
   * `folders_done` holds exactly the folders of the earlier rows that were
   * selected successfully.
   */
  lemma {:induction false} DoneSpec(missing: seq<(Uid, Folder)>, selectFails: set<nat>, i: nat)
    requires i <= |missing|
    ensures forall f :: f in SessionBefore(missing, selectFails, i).done <==>
      exists j :: 0 <= j < i && missing[j].1 == f && Selects(missing, selectFails, j)
    decreases i
  {
    if i > 0 {
      DoneSpec(missing, selectFails, i - 1);
    }
  }

  /**
   * `folder.set` is issued for a row exactly when no earlier row selected that
   * folder successfully: once selected, a folder is never selected again,
   * even after another folder was.
   */
  lemma SelectOnlyFirstTime(missing: seq<(Uid, Folder)>, selectFails: set<nat>, i: nat)
    requires i < |missing|
    ensures SelectIssued(missing, selectFails, i) <==>
      !exists j :: 0 <= j < i && missing[j].1 == missing[i].1 && Selects(missing, selectFails, j)
  {
    DoneSpec(missing, selectFails, i);
  }

  /** The folder the session has selected when row `i` fetches. */
  function FetchFolder(missing: seq<(Uid, Folder)>, selectFails: set<nat>, i: nat): Option<Folder>
    requires i < |missing|
  {
    SessionBefore(missing, selectFails, i + 1).selected
  }

  /**
   * The value row `i` writes, or `None` when the row raises: its `folder.set`
   * raises, no folder is selected, the fetch raises, or the selected folder
   * has no message with this uid (`next` raises `StopIteration`).
   */
  function RowValue(server: Server, missing: seq<(Uid, Folder)>, selectFails: set<nat>, fetchFails: set<nat>, i: nat)
    : Option<string>
    requires i < |missing|
  {
    if SelectIssued(missing, selectFails, i) && i in selectFails then None
    else
      var sel := FetchFolder(missing, selectFails, i);
      if sel.None? || i in fetchFails then None
      else
        match FindMessage(BoxOf(server, sel.value).messages, missing[i].0)
        case None => None
        case Some(m) => Some(NewMessageId(m))
  }

  /** The values of all rows. */
  function Values(server: Server, missing: seq<(Uid, Folder)>, selectFails: set<nat>, fetchFails: set<nat>)
    : (r: seq<Option<string>>)
    ensures |r| == |missing|
    ensures forall i :: 0 <= i < |missing| ==> r[i] == RowValue(server, missing, selectFails, fetchFails, i)
  {
    seq(|missing|, i requires 0 <= i < |missing| => RowValue(server, missing, selectFails, fetchFails, i))
  }

  /** A row that writes a value got it from the message with its uid in the folder the session had selected. */
  lemma RowValueSource(server: Server, missing: seq<(Uid, Folder)>, selectFails: set<nat>, fetchFails: set<nat>, i: nat)
    requires i < |missing|
    requires RowValue(server, missing, selectFails, fetchFails, i).Some?
    ensures FetchFolder(missing, selectFails, i).Some?
    ensures var m := FindMessage(BoxOf(server, FetchFolder(missing, selectFails, i).value).messages, missing[i].0);
      m.Some? && m.value.uid == missing[i].0
      && RowValue(server, missing, selectFails, fetchFails, i) == Some(NewMessageId(m.value))
  {
  }

  /**
   * As written, a folder seen before is not selected again, so a row whose
   * folder was selected before another one is fetched from that other
   * folder: here the third row, uid 2 of `A`, receives the Message-ID of
   * uid 2 of `B`.
   */
  lemma WrongFolderFetched()
    ensures var a2 := MailMessage("2", "", "", [], [], [], "", "", "", [("Message-ID", FStr("<a2>"))], None, false);
      var b1 := MailMessage("1", "", "", [], [], [], "", "", "", [("Message-ID", FStr("<b1>"))], None, false);
      var b2 := MailMessage("2", "", "", [], [], [], "", "", "", [("Message-ID", FStr("<b2>"))], None, false);
      var a1 := MailMessage("1", "", "", [], [], [], "", "", "", [("Message-ID", FStr("<a1>"))], None, false);
      var server := Server(Some(["A", "B"]), map["A" := MailFolder(None, [a1, a2]), "B" := MailFolder(None, [b1, b2])]);
      var missing := [("1", "A"), ("1", "B"), ("2", "A")];
      && FetchFolder(missing, {}, 2) == Some("B")
      && RowValue(server, missing, {}, {}, 2) == Some("<b2>")
      && FindMessage(BoxOf(server, "A").messages, "2") == Some(a2)
      && NewMessageId(a2) == "<a2>"
  {
    var a2 := MailMessage("2", "", "", [], [], [], "", "", "", [("Message-ID", FStr("<a2>"))], None, false);
    var b1 := MailMessage("1", "", "", [], [], [], "", "", "", [("Message-ID", FStr("<b1>"))], None, false);
    var b2 := MailMessage("2", "", "", [], [], [], "", "", "", [("Message-ID", FStr("<b2>"))], None, false);
    var a1 := MailMessage("1", "", "", [], [], [], "", "", "", [("Message-ID", FStr("<a1>"))], None, false);
    var missing := [("1", "A"), ("1", "B"), ("2", "A")];
    assert SessionBefore(missing, {}, 1) == Session({"A"}, Some("A"));
    assert SessionBefore(missing, {}, 2) == Session({"A", "B"}, Some("B"));
    assert SessionBefore(missing, {}, 3) == Session({"A", "B"}, Some("B"));
    MessageIdNameIgnoresCase();
    assert NewMessageId(b2) == "<b2>";
    assert NewMessageId(a2) == "<a2>";
  }

  /**
   * The selection as evidently intended: `folder.set` is issued whenever the
   * row's folder is not the one selected; a failed SELECT leaves none.
   */
  function SelectedCorrected(missing: seq<(Uid, Folder)>, selectFails: set<nat>, i: nat): Option<Folder>
    requires i <= |missing|
  {
    if i == 0 then None
    else
      var before := SelectedCorrected(missing, selectFails, i - 1);
      if before == Some(missing[i - 1].1) then before
      else if i - 1 in selectFails then None
      else Some(missing[i - 1].1)
  }

  /** With the corrected selection, the value of row `i` (or `None` when it raises). */
  function RowValueCorrected(server: Server, missing: seq<(Uid, Folder)>, selectFails: set<nat>, fetchFails: set<nat>, i: nat)
    : Option<string>
    requires i < |missing|
  {
    var sel := SelectedCorrected(missing, selectFails, i + 1);
    if sel.None? || i in fetchFails then None
    else
      match FindMessage(BoxOf(server, sel.value).messages, missing[i].0)
      case None => None
      case Some(m) => Some(NewMessageId(m))
  }

  /**
   * With the correction every row is fetched from its own folder: a value
   * written for `(uid, folder)` is the Message-ID of the message with that
   * uid in that folder.
   */
  lemma CorrectedFetchesOwnFolder(server: Server, missing: seq<(Uid, Folder)>, selectFails: set<nat>,
                                  fetchFails: set<nat>, i: nat)
    requires i < |missing|
    requires RowValueCorrected(server, missing, selectFails, fetchFails, i).Some?
    ensures var m := FindMessage(BoxOf(server, missing[i].1).messages, missing[i].0);
      m.Some? && RowValueCorrected(server, missing, selectFails, fetchFails, i) == Some(NewMessageId(m.value))
  {
    assert SelectedCorrected(missing, selectFails, i + 1) == Some(missing[i].1);
  }

  // ---------------------------------------------------------------------------
  // The two UPDATE statements (backfill_message_id.py:42-49)

  /** `UPDATE downloaded_emails SET message_id = v WHERE uid = ? AND folder = ?`. */
  function SetRowId(d: map<(Uid, Folder), DownloadedRow>, k: (Uid, Folder), v: string): (r: map<(Uid, Folder), DownloadedRow>)
    ensures r.Keys == d.Keys
  {
    if k in d then d[k := d[k].(messageId := Some(v))] else d
  }

  /** `UPDATE email SET message_id = v WHERE uid = ? AND folder = ?`: every matching row. */
  function SetEmailIds(e: map<nat, EmailRow>, k: (Uid, Folder), v: string): (r: map<nat, EmailRow>)
    ensures r.Keys == e.Keys
  {
    map pk | pk in e :: if (e[pk].uid, e[pk].folder) == k then e[pk].(messageId := Some(v)) else e[pk]
  }

  /** `downloaded_emails` after the first `n` rows. */
  function ApplyRows(d: map<(Uid, Folder), DownloadedRow>, missing: seq<(Uid, Folder)>, vals: seq<Option<string>>, n: nat)
    : (r: map<(Uid, Folder), DownloadedRow>)
    requires n <= |missing| && n <= |vals|
    ensures r.Keys == d.Keys
  {
    if n == 0 then d
    else
      var prev := ApplyRows(d, missing, vals, n - 1);
      if vals[n - 1].Some? then SetRowId(prev, missing[n - 1], vals[n - 1].value) else prev
  }

  /** `email` after the first `n` rows. */
  function ApplyEmails(e: map<nat, EmailRow>, missing: seq<(Uid, Folder)>, vals: seq<Option<string>>, n: nat)
    : (r: map<nat, EmailRow>)
    requires n <= |missing| && n <= |vals|
    ensures r.Keys == e.Keys
  {
    if n == 0 then e
    else
      var prev := ApplyEmails(e, missing, vals, n - 1);
      if vals[n - 1].Some? then SetEmailIds(prev, missing[n - 1], vals[n - 1].value) else prev
  }

  /** The last value written for key `k` by the first `n` rows, if any. */
  function LastValue(missing: seq<(Uid, Folder)>, vals: seq<Option<string>>, k: (Uid, Folder), n: nat): (r: Option<string>)
    requires n <= |missing| && n <= |vals|
    ensures r.Some? ==> exists j :: 0 <= j < n && missing[j] == k && vals[j] == r
  {
    if n == 0 then None
    else if missing[n - 1] == k && vals[n - 1].Some? then vals[n - 1]
    else LastValue(missing, vals, k, n - 1)
  }

  /**
   * A `downloaded_emails` row ends with the last value written for its key;
   * a row that no update reached is unchanged.
   */
  lemma {:induction false} ApplyRowsSpec(d: map<(Uid, Folder), DownloadedRow>, missing: seq<(Uid, Folder)>,
                                         vals: seq<Option<string>>, n: nat)
    requires n <= |missing| && n <= |vals|
    ensures forall k :: k in d ==>
      (ApplyRows(d, missing, vals, n)[k] ==
       if LastValue(missing, vals, k, n).Some? then d[k].(messageId := LastValue(missing, vals, k, n)) else d[k])
    decreases n
  {
    if n > 0 {
      ApplyRowsSpec(d, missing, vals, n - 1);
    }
  }

  /**
   * An `email` row ends with the last value written for its uid and folder;
   * a row that no update reached is unchanged.
   */
  lemma {:induction false} ApplyEmailsSpec(e: map<nat, EmailRow>, missing: seq<(Uid, Folder)>,
                                           vals: seq<Option<string>>, n: nat)
    requires n <= |missing| && n <= |vals|
    ensures forall pk :: pk in e ==>
      (ApplyEmails(e, missing, vals, n)[pk] ==
       var v := LastValue(missing, vals, (e[pk].uid, e[pk].folder), n);
       if v.Some? then e[pk].(messageId := v) else e[pk])
    decreases n
  {
    if n > 0 {
      ApplyEmailsSpec(e, missing, vals, n - 1);
    }
  }

  /**
   * Both tables receive the same value: a `downloaded_emails` row and an
   * `email` row with the same uid and folder end with the same message id
   * whenever an update reached them.
   */
  lemma SameValueInBothTables(d: map<(Uid, Folder), DownloadedRow>, e: map<nat, EmailRow>,
                              missing: seq<(Uid, Folder)>, vals: seq<Option<string>>, pk: nat)
    requires |vals| == |missing|
    requires pk in e && (e[pk].uid, e[pk].folder) in d
    requires LastValue(missing, vals, (e[pk].uid, e[pk].folder), |missing|).Some?
    ensures ApplyEmails(e, missing, vals, |missing|)[pk].messageId
         == ApplyRows(d, missing, vals, |missing|)[(e[pk].uid, e[pk].folder)].messageId
  {
    ApplyRowsSpec(d, missing, vals, |missing|);
    ApplyEmailsSpec(e, missing, vals, |missing|);
  }

  /**
   * Only the selected rows are processed: when `missing` holds only rows with
   * a NULL or empty message id, a row with a non-empty one is never changed.
   */
  lemma NonEmptyIdsUntouched(d: map<(Uid, Folder), DownloadedRow>, missing: seq<(Uid, Folder)>, vals: seq<Option<string>>)
    requires |vals| == |missing|
    requires forall i :: 0 <= i < |missing| ==> missing[i] in d && NeedsMessageId(d[missing[i]])
    ensures forall k :: k in d && !NeedsMessageId(d[k]) ==> ApplyRows(d, missing, vals, |missing|)[k] == d[k]
  {
    ApplyRowsSpec(d, missing, vals, |missing|);
    assert forall k :: k in d && !NeedsMessageId(d[k]) ==> forall j :: 0 <= j < |missing| ==> missing[j] != k;
  }

  /** The rows among the first `n` that raised, in order: the ones the loop logs and skips. */
  function Logged(missing: seq<(Uid, Folder)>, vals: seq<Option<string>>, n: nat): seq<(Uid, Folder)>
    requires n <= |missing| && n <= |vals|
  {
    if n == 0 then [] else Logged(missing, vals, n - 1) + (if vals[n - 1].None? then [missing[n - 1]] else [])
  }

  /** The folders passed to `folder.set` by the first `n` rows, in order. */
  function SelectCalls(missing: seq<(Uid, Folder)>, selectFails: set<nat>, n: nat): seq<Folder>
    requires n <= |missing|
  {
    if n == 0 then []
    else SelectCalls(missing, selectFails, n - 1)
         + (if SelectIssued(missing, selectFails, n - 1) then [missing[n - 1].1] else [])
  }

  /** The periodic commit points among the first `n` rows: a 1-based index divisible by 1000 whose row succeeded. */
  function CommitPoints(vals: seq<Option<string>>, n: nat): seq<nat>
    requires n <= |vals|
  {
    if n == 0 then []
    else CommitPoints(vals, n - 1) + (if n % CommitEvery == 0 && vals[n - 1].Some? then [n] else [])
  }

  /**
   * A commit point is exactly a row number divisible by 1000 whose row did
   * not raise (the commit sits inside the `try`); a failing row has none.
   */
  lemma {:induction false} CommitPointsSpec(vals: seq<Option<string>>, n: nat)
    requires n <= |vals|
    ensures forall c :: c in CommitPoints(vals, n) <==> 1 <= c <= n && c % CommitEvery == 0 && vals[c - 1].Some?
    decreases n
  {
    if n > 0 {
      CommitPointsSpec(vals, n - 1);
    }
  }

  /**
   * The IMAP part of one row (backfill_message_id.py:26-41): select the
   * folder if it is not in `folders_done`, fetch the message by uid and read
   * its Message-ID. `value` is `None` when the row raises.
   */
  method ProcessRow(server: Server, missing: seq<(Uid, Folder)>, selectFails: set<nat>, fetchFails: set<nat>,
                    i: nat, s: Session)
    returns (s': Session, issued: bool, value: Option<string>)
    requires i < |missing|
    requires s == SessionBefore(missing, selectFails, i)
    ensures s' == SessionBefore(missing, selectFails, i + 1)
    ensures issued == SelectIssued(missing, selectFails, i)
    ensures value == RowValue(server, missing, selectFails, fetchFails, i)
  {
    var (uid, folder) := missing[i];
    s' := s;
    issued := folder !in s.done;
    if issued {
      if i in selectFails {
        s' := Session(s.done, None);
        return s', issued, None;
      }
      s' := Session(s.done + {folder}, Some(folder));
    }
    if s'.selected.None? || i in fetchFails {
      return s', issued, None;
    }
    var found := FindMessage(BoxOf(server, s'.selected.value).messages, uid);
    if found.None? {
      return s', issued, None;
    }
    value := Some(NewMessageId(found.value));
  }

  /** The two UPDATE statements of one row (backfill_message_id.py:42-49), which leave every key in place. */
  method WriteMessageId(db: Database, k: (Uid, Folder), v: string)
    requires db.Valid()
    modifies db`downloaded, db`emails
    ensures db.Valid()
    ensures db.downloaded == SetRowId(old(db.downloaded), k, v)
    ensures db.emails == SetEmailIds(old(db.emails), k, v)
  {
    db.downloaded := SetRowId(db.downloaded, k, v);
    db.emails := SetEmailIds(db.emails, k, v);
  }

  /** The writes of row `i`: none when it raised, else its two UPDATE statements. */
  method StoreRow(db: Database, ghost d0: map<(Uid, Folder), DownloadedRow>, ghost e0: map<nat, EmailRow>,
                  missing: seq<(Uid, Folder)>, ghost vals: seq<Option<string>>, i: nat, value: Option<string>)
    requires db.Valid()
    requires i < |missing| && i < |vals| && value == vals[i]
    requires db.downloaded == ApplyRows(d0, missing, vals, i) && db.emails == ApplyEmails(e0, missing, vals, i)
    modifies db`downloaded, db`emails
    ensures db.Valid()
    ensures db.downloaded == ApplyRows(d0, missing, vals, i + 1) && db.emails == ApplyEmails(e0, missing, vals, i + 1)
  {
    if value.Some? {
      WriteMessageId(db, missing[i], value.value);
    }
  }

  /**
   * The bookkeeping of one row: the folder passed to `folder.set` when one is
   * issued, the key logged when the row raises (backfill_message_id.py:53-54),
   * and the row number when it is a commit point (backfill_message_id.py:50-52).
   */
  method RecordRow(missing: seq<(Uid, Folder)>, selectFails: set<nat>, ghost vals: seq<Option<string>>, i: nat,
                   issued: bool, value: Option<string>, selects: seq<Folder>, logged: seq<(Uid, Folder)>, commits: seq<nat>)
    returns (selects': seq<Folder>, logged': seq<(Uid, Folder)>, commits': seq<nat>)
    requires i < |missing| && i < |vals| && value == vals[i]
    requires issued == SelectIssued(missing, selectFails, i)
    requires selects == SelectCalls(missing, selectFails, i)
    requires logged == Logged(missing, vals, i) && commits == CommitPoints(vals, i)
    ensures selects' == SelectCalls(missing, selectFails, i + 1)
    ensures logged' == Logged(missing, vals, i + 1) && commits' == CommitPoints(vals, i + 1)
  {
    selects', logged', commits' := selects, logged, commits;
    if issued {
      selects' := selects + [missing[i].1];
    }
    if value.Some? {
      if (i + 1) % CommitEvery == 0 {
        commits' := commits + [i + 1];
      }
    } else {
      logged' := logged + [missing[i]];
    }
  }

  /**
   * `update_message_ids` (backfill_message_id.py:13-58) after the SELECT:
   * `missing` lists the selected keys, once each, in the order SQLite
   * returned them. Each row is processed in turn; a row that raises is
   * logged and the loop continues. The periodic commits are returned; the
   * final commit always follows.
   */
  method UpdateMessageIds(db: Database, server: Server, missing: seq<(Uid, Folder)>,
                          selectFails: set<nat>, fetchFails: set<nat>)
    returns (selects: seq<Folder>, logged: seq<(Uid, Folder)>, commits: seq<nat>)
    requires db.Valid()
    requires forall k :: k in missing <==> k in db.downloaded && NeedsMessageId(db.downloaded[k])
    modifies db`downloaded, db`emails
    ensures db.Valid()
    ensures db.downloaded == ApplyRows(old(db.downloaded), missing, Values(server, missing, selectFails, fetchFails), |missing|)
    ensures db.emails == ApplyEmails(old(db.emails), missing, Values(server, missing, selectFails, fetchFails), |missing|)
    ensures selects == SelectCalls(missing, selectFails, |missing|)
    ensures logged == Logged(missing, Values(server, missing, selectFails, fetchFails), |missing|)
    ensures commits == CommitPoints(Values(server, missing, selectFails, fetchFails), |missing|)
  {
    ghost var vals := Values(server, missing, selectFails, fetchFails);
    var s := Session({}, None);
    selects, logged, commits := [], [], [];
    var i := 0;
    while i < |missing|
      invariant i <= |missing|
      invariant db.Valid()
      invariant s == SessionBefore(missing, selectFails, i)
      invariant db.downloaded == ApplyRows(old(db.downloaded), missing, vals, i)
      invariant db.emails == ApplyEmails(old(db.emails), missing, vals, i)
      invariant selects == SelectCalls(missing, selectFails, i)
      invariant logged == Logged(missing, vals, i)
      invariant commits == CommitPoints(vals, i)
    {
      var issued, value;
      s, issued, value := ProcessRow(server, missing, selectFails, fetchFails, i, s);
      assert value == vals[i];
      StoreRow(db, old(db.downloaded), old(db.emails), missing, vals, i, value);
      selects, logged, commits := RecordRow(missing, selectFails, vals, i, issued, value, selects, logged, commits);
      i := i + 1;
    }
  }
}
