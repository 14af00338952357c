/**
 * The backup run of main.py: the UIDVALIDITY check of each folder, the
 * incremental fetch window, batching with the "whole batch already stored"
 * skip, per-message failure isolation into `failed_emails`, the three-attempt
 * folder retry, the folder denylist, the final retry of failed messages, and
 * `backfill_from_json`.
 *
 * The mail server is an input: its folder list, each folder's status and
 * messages, and an outage plan saying which attempt's fetches raise.
 */
module Sync {
  import opened Wrappers
  import opened Text
  import opened Batching
  import opened Recipients
  import opened Store
  import opened Naming

  /**
   * A message as the mail library presents it. `to`, `cc` and `bcc` are the
   * library's tuples of addresses; `date` is the ISO text of the date;
   * `attachment` is the path the first attachment is saved under, if any;
   * `broken` says that formatting the date or saving an attachment raises.
   */
  datatype MailMessage = MailMessage(
    uid: Uid, subject: string, sender: string,
    to: seq<string>, cc: seq<string>, bcc: seq<string>,
    date: string, text: string, html: string,
    headers: seq<(string, FieldValue)>,
    attachment: Option<string>,
    broken: bool)

  /**
   * A folder on the server: its STATUS response (name, value) pairs, or `None`
   * when selecting it or asking for its status raises, and its messages in
   * server order.
   */
  datatype MailFolder = MailFolder(status: Option<seq<(string, int)>>, messages: seq<MailMessage>)

  // ---------------------------------------------------------------------------
  // UIDVALIDITY (section 2.3.1.1 of RFC 3501)

  /** The value of the first status entry whose upper-cased name is `UIDVALIDITY` (main.py:533-538, 541). */
  function FindUidValidity(status: seq<(string, int)>): Option<int> {
    if status == [] then None
    else if Upper(status[0].0) == "UIDVALIDITY" then Some(status[0].1)
    else FindUidValidity(status[1..])
  }

  /** The name match ignores letter case; without a matching entry there is no value. */
  lemma {:induction false} FindUidValiditySpec(status: seq<(string, int)>)
    ensures FindUidValidity(status).None? <==> forall i :: 0 <= i < |status| ==> Upper(status[i].0) != "UIDVALIDITY"
    ensures FindUidValidity(status).Some? ==>
      exists i :: 0 <= i < |status| && Upper(status[i].0) == "UIDVALIDITY" && status[i].1 == FindUidValidity(status).value
    decreases |status|
  {
    if status != [] {
      FindUidValiditySpec(status[1..]);
      if Upper(status[0].0) != "UIDVALIDITY" && FindUidValidity(status).Some? {
        var i :| 0 <= i < |status[1..]| && Upper(status[1..][i].0) == "UIDVALIDITY"
                 && status[1..][i].1 == FindUidValidity(status).value;
        assert status[i + 1] == status[1..][i];
      }
    }
  }

  /** What `ensure_folder_and_uidvalidity` (main.py:528-547) concludes about one folder. */
  datatype ValidityOutcome =
    | StatusFails                            // an exception other than RuntimeError
    | NoUidValidity                          // RuntimeError: the status has no UIDVALIDITY
    | Mismatch(stored: int, current: int)    // RuntimeError: the folder was recreated
    | Baseline(current: int)                 // nothing stored yet: the current value is recorded
    | Confirmed                              // the stored value equals the current one

  function CheckUidValidity(stored: Option<int>, status: Option<seq<(string, int)>>): ValidityOutcome {
    match status
    case None => StatusFails
    case Some(st) =>
      match FindUidValidity(st)
      case None => NoUidValidity
      case Some(current) =>
        if stored.Some? && stored.value != current then Mismatch(stored.value, current)
        else if stored.None? then Baseline(current)
        else Confirmed
  }

  /** The outcomes that `main` catches as `RuntimeError` and that stop the whole folder loop. */
  predicate StopsRun(o: ValidityOutcome) {
    o.NoUidValidity? || o.Mismatch?
  }

  /** The stored UIDVALIDITY after the check: only a baseline writes. */
  function StoredAfter(stored: Option<int>, o: ValidityOutcome): Option<int> {
    if o.Baseline? then Some(o.current) else stored
  }

  /**
   * The check lets a folder through exactly when the server reports a
   * UIDVALIDITY and the stored one is absent or equal; afterwards the stored
   * value is the server's. A stored value is never replaced, and a mismatch
   * is reported with both values.
   */
  lemma CheckUidValiditySpec(stored: Option<int>, status: Option<seq<(string, int)>>)
    ensures var o := CheckUidValidity(stored, status);
      && ((o.Baseline? || o.Confirmed?) <==>
            status.Some? && FindUidValidity(status.value).Some?
            && (stored.None? || stored == FindUidValidity(status.value)))
      && ((o.Baseline? || o.Confirmed?) ==> StoredAfter(stored, o) == FindUidValidity(status.value))
      && (stored.Some? ==> StoredAfter(stored, o) == stored)
      && (o.Mismatch? ==> Some(o.stored) == stored && Some(o.current) == FindUidValidity(status.value) && o.stored != o.current)
      && (o.StatusFails? <==> status.None?)
  {
  }

  /** The lower-cased names of the folders the run skips (main.py:567). */
  const SkipFolders: set<string> :=
    {"[gmail]/spam", "[gmail]/trash", "inbox.spam", "inbox.trash", "junk", "trash"}

  /** `folder.lower() in skip_folders` (main.py:568). */
  predicate Skipped(folder: Folder) {
    Lower(folder) in SkipFolders
  }

  /** The denylist match ignores letter case. */
  lemma SkippedIgnoresCase()
    ensures Skipped("Junk") && Skipped("INBOX.Trash") && Skipped("[Gmail]/Spam")
    ensures !Skipped("INBOX")
  {
    assert Lower("Junk") == "junk";
    assert Lower("INBOX.Trash") == "inbox.trash";
    assert Lower("[Gmail]/Spam") == "[gmail]/spam";
    assert Lower("INBOX") == "inbox";
  }

  // ---------------------------------------------------------------------------
  // The fetch window (main.py:586-593, section 6.4.8 of RFC 3501)

  /** The largest numeric uid of the folder, which `*` stands for. */
  function TopUid(msgs: seq<MailMessage>): (r: Option<nat>)
    ensures r.None? <==> msgs == []
    ensures r.Some? ==> forall i :: 0 <= i < |msgs| ==> CastInteger(msgs[i].uid) <= r.value
    ensures r.Some? ==> exists i :: 0 <= i < |msgs| && CastInteger(msgs[i].uid) == r.value
  {
    if msgs == [] then None
    else
      var rest := TopUid(msgs[1..]);
      var here := CastInteger(msgs[0].uid);
      assert forall i :: 1 <= i < |msgs| ==> msgs[i] == msgs[1..][i - 1];
      if rest.None? || rest.value <= here then Some(here) else rest
  }

  /** The messages whose numeric uid is at least `lo`, in server order. */
  function From(msgs: seq<MailMessage>, lo: nat): (r: seq<MailMessage>)
    ensures forall m :: m in r <==> m in msgs && CastInteger(m.uid) >= lo
  {
    if msgs == [] then []
    else (if CastInteger(msgs[0].uid) >= lo then [msgs[0]] else []) + From(msgs[1..], lo)
  }

  /**
   * The messages fetched to list the folder: all of them on a first run;
   * otherwise those of the range `max+1:*`, which a server reads as the range
   * between `max+1` and the largest uid, whichever is smaller first.
   */
  function Window(msgs: seq<MailMessage>, maxUid: Option<nat>): seq<MailMessage> {
    match maxUid
    case None => msgs
    case Some(m) =>
      match TopUid(msgs)
      case None => []
      case Some(top) => From(msgs, if m + 1 <= top then m + 1 else top)
  }

  /**
   * The window holds every message above the stored maximum; the only other
   * message it can hold is the folder's last one, when nothing is newer.
   */
  lemma WindowSpec(msgs: seq<MailMessage>, m: nat)
    ensures forall x :: x in msgs && CastInteger(x.uid) > m ==> x in Window(msgs, Some(m))
    ensures forall x :: x in Window(msgs, Some(m)) ==>
      CastInteger(x.uid) > m || CastInteger(x.uid) == TopUid(msgs).value
  {
  }

  /** With nothing newer than the stored maximum, the window still returns the folder's last message. */
  lemma WindowReturnsLastMessage(msgs: seq<MailMessage>, m: nat)
    requires msgs != []
    requires forall x :: x in msgs ==> CastInteger(x.uid) <= m
    ensures Window(msgs, Some(m)) != []
  {
    var i :| 0 <= i < |msgs| && CastInteger(msgs[i].uid) == TopUid(msgs).value;
    assert msgs[i] in Window(msgs, Some(m));
  }

  function UidsOf(msgs: seq<MailMessage>): (r: seq<Uid>)
    ensures |r| == |msgs| && forall i :: 0 <= i < |msgs| ==> r[i] == msgs[i].uid
  {
    seq(|msgs|, i requires 0 <= i < |msgs| => msgs[i].uid)
  }

  /** `mailbox.fetch(AND(uid=batch))`: the folder's messages whose uid is in the batch, in server order. */
  function FetchUids(msgs: seq<MailMessage>, batch: seq<Uid>): (r: seq<MailMessage>)
    ensures forall m :: m in r <==> m in msgs && m.uid in batch
  {
    if msgs == [] then []
    else (if msgs[0].uid in batch then [msgs[0]] else []) + FetchUids(msgs[1..], batch)
  }

  /** `all(uid in existing_uids for uid in batch)` (main.py:603). */
  predicate AllStored(batch: seq<Uid>, existing: set<Uid>) {
    forall i :: 0 <= i < |batch| ==> batch[i] in existing
  }

  /** Which fetch of an attempt raises. */
  datatype Outage =
    | ListingFails          // listing the window (or selecting the folder) raises
    | BatchFails(batch: nat) // fetching the batch with this index raises

  /** The batches of one attempt, from the stored maximum at its start. */
  function AttemptBatches(msgs: seq<MailMessage>, maxUid: Option<nat>): seq<seq<Uid>> {
    SplitIntoBatches(UidsOf(Window(msgs, maxUid)), 10)
  }

  /** An attempt raises iff its listing fails or the failing batch is one that is fetched. */
  predicate AttemptRaises(outage: Option<Outage>, batches: seq<seq<Uid>>, existing: set<Uid>) {
    match outage
    case None => false
    case Some(ListingFails) => true
    case Some(BatchFails(k)) => k < |batches| && !AllStored(batches[k], existing)
  }

  /**
   * The listed uids an attempt gets through: none when the listing raises,
   * those of the batches before the one whose fetch raises, or all of them.
   */
  function Handled(msgs: seq<MailMessage>, outage: Option<Outage>, existing: set<Uid>): seq<Uid> {
    var listed := UidsOf(Window(msgs, MaxUidOf(existing)));
    if outage == Some(ListingFails) then []
    else if AttemptRaises(outage, SplitIntoBatches(listed, 10), existing) then listed[..Reach(|listed|, outage.value.batch)]
    else listed
  }

  // ---------------------------------------------------------------------------
  // One message (main.py:608-639)

  function FieldOf(v: Option<string>): (r: FieldValue)
    ensures AsText(r) == v
  {
    if v.None? then FNone else FStr(v.value)
  }

  /** The `downloaded_emails` row of a message (main.py:616-624). */
  function RowOf(m: MailMessage): DownloadedRow {
    DownloadedRow(m.subject, m.sender, Join(m.to, ", "), Join(m.cc, ", "), Join(m.bcc, ", "),
                  m.date, m.text, m.html, m.attachment, FindMessageId(m.headers))
  }

  /** The `email` row of a message (main.py:625-629). */
  function EmailOf(m: MailMessage, folder: Folder): EmailRow {
    EmailRow(m.uid, folder, m.subject, m.date, m.text, m.html, m.attachment, FindMessageId(m.headers))
  }

  /**
   * Processing a message raises when extraction raises, and also when it has
   * no Message-ID: the lookup by `message_id = NULL` finds nothing.
   */
  predicate FailsInPass(m: MailMessage) {
    m.broken || FindMessageId(m.headers).None?
  }

  /** No row of `a` is changed or removed in `b`. */
  ghost predicate Grows<K, V>(a: map<K, V>, b: map<K, V>) {
    forall k :: k in a ==> k in b && b[k] == a[k]
  }

  /** Every key new in `b` is in `folder`, with a uid from `allowed` that was not already stored. */
  ghost predicate NewKeysFrom(a: map<(Uid, Folder), DownloadedRow>, b: map<(Uid, Folder), DownloadedRow>,
                              folder: Folder, allowed: seq<Uid>, existing: set<Uid>) {
    forall k :: k in b && k !in a ==> k.1 == folder && k.0 in allowed && k.0 !in existing
  }

  /** Every `email` row new in `b` is in `folder`, with a uid that was not already stored. */
  ghost predicate NewEmailsFrom(a: map<nat, EmailRow>, b: map<nat, EmailRow>, folder: Folder, existing: set<Uid>) {
    forall pk :: pk in b && pk !in a ==> b[pk].folder == folder && b[pk].uid !in existing
  }

  /** The failure list only grows, by entries of `folder`. */
  ghost predicate AppendsFor(a: seq<(Uid, Folder)>, b: seq<(Uid, Folder)>, folder: Folder) {
    |a| <= |b| && b[..|a|] == a && forall i :: |a| <= i < |b| ==> b[i].1 == folder
  }

  // ---------------------------------------------------------------------------
  // The failure list of an attempt (main.py:600-640)

  /** The pair one message of a fetched batch appends: only a message not stored before the attempt is processed. */
  function FailedEntry(m: MailMessage, existing: set<Uid>, folder: Folder): seq<(Uid, Folder)> {
    if m.uid !in existing && FailsInPass(m) then [(m.uid, folder)] else []
  }

  /** The pairs one fetched batch appends to `failed_emails`, in message order. */
  function FailedOf(msgs: seq<MailMessage>, existing: set<Uid>, folder: Folder): seq<(Uid, Folder)>
    decreases |msgs|
  {
    if msgs == [] then []
    else FailedOf(msgs[..|msgs| - 1], existing, folder) + FailedEntry(msgs[|msgs| - 1], existing, folder)
  }

  /**
   * The pairs the first `k` batches append. A batch whose uids are all
   * stored is not fetched; it gives no pair either way (FailedInStored).
   */
  function BatchesFailed(msgs: seq<MailMessage>, batches: seq<seq<Uid>>, existing: set<Uid>, folder: Folder,
                         k: nat): seq<(Uid, Folder)>
    requires k <= |batches|
    decreases k
  {
    if k == 0 then [] else BatchesFailed(msgs, batches, existing, folder, k - 1) + FailedIn(msgs, batches[k - 1], existing, folder)
  }

  /** The pairs fetching and storing `batch` appends: those of the folder's messages with a uid in it, in server order. */
  function FailedIn(msgs: seq<MailMessage>, batch: seq<Uid>, existing: set<Uid>, folder: Folder): seq<(Uid, Folder)>
    decreases |msgs|
  {
    if msgs == [] then []
    else (if msgs[0].uid in batch then FailedEntry(msgs[0], existing, folder) else []) + FailedIn(msgs[1..], batch, existing, folder)
  }

  lemma {:induction false} FailedOfAppend(a: seq<MailMessage>, b: seq<MailMessage>, existing: set<Uid>, folder: Folder)
    ensures FailedOf(a + b, existing, folder) == FailedOf(a, existing, folder) + FailedOf(b, existing, folder)
    decreases |b|
  {
    if b == [] {
      assert a + b == a;
    } else {
      var init := b[..|b| - 1];
      FailedOfAppend(a, init, existing, folder);
      assert (a + b)[..|a + b| - 1] == a + init;
      AppendAssoc(FailedOf(a, existing, folder), FailedOf(init, existing, folder), FailedEntry(b[|b| - 1], existing, folder));
    }
  }

  /** A batch whose uids are all stored gives no pair. */
  lemma {:induction false} FailedInStored(msgs: seq<MailMessage>, batch: seq<Uid>, existing: set<Uid>, folder: Folder)
    requires AllStored(batch, existing)
    ensures FailedIn(msgs, batch, existing, folder) == []
    decreases |msgs|
  {
    if msgs != [] {
      FailedInStored(msgs[1..], batch, existing, folder);
      if msgs[0].uid in batch {
        var i :| 0 <= i < |batch| && batch[i] == msgs[0].uid;
      }
    }
  }

  /** Collecting the pairs while fetching gives the pairs of the fetched batch. */
  lemma {:induction false} FailedInFetch(msgs: seq<MailMessage>, batch: seq<Uid>, existing: set<Uid>, folder: Folder)
    ensures FailedIn(msgs, batch, existing, folder) == FailedOf(FetchUids(msgs, batch), existing, folder)
    decreases |msgs|
  {
    if msgs != [] {
      var head := if msgs[0].uid in batch then [msgs[0]] else [];
      FailedInFetch(msgs[1..], batch, existing, folder);
      FailedOfAppend(head, FetchUids(msgs[1..], batch), existing, folder);
      assert FailedOf(head, existing, folder) == (if msgs[0].uid in batch then FailedEntry(msgs[0], existing, folder) else []) by {
        if msgs[0].uid in batch {
          assert head[..0] == [];
        }
      }
    }
  }

  /**
   * The pairs one attempt appends, from the uids `existing` stored at its
   * start: none when the listing raises, those of the batches before the
   * failing one when a fetch raises, and those of every batch otherwise.
   */
  function AttemptFailed(msgs: seq<MailMessage>, outage: Option<Outage>, existing: set<Uid>, folder: Folder)
    : seq<(Uid, Folder)>
  {
    var batches := AttemptBatches(msgs, MaxUidOf(existing));
    if outage == Some(ListingFails) then []
    else if AttemptRaises(outage, batches, existing) then BatchesFailed(msgs, batches, existing, folder, outage.value.batch)
    else BatchesFailed(msgs, batches, existing, folder, |batches|)
  }

  /** Exactly the messages not stored before that fail in the pass give a pair, and only in `folder`. */
  lemma {:induction false} FailedOfSpec(msgs: seq<MailMessage>, existing: set<Uid>, folder: Folder)
    ensures forall m :: m in msgs && m.uid !in existing && FailsInPass(m) ==> (m.uid, folder) in FailedOf(msgs, existing, folder)
    ensures forall e :: e in FailedOf(msgs, existing, folder) ==>
              e.1 == folder && e.0 !in existing && exists m :: m in msgs && m.uid == e.0 && FailsInPass(m)
    decreases |msgs|
  {
    if msgs != [] {
      var init := msgs[..|msgs| - 1];
      FailedOfSpec(init, existing, folder);
      assert msgs == init + [msgs[|msgs| - 1]];
      forall e | e in FailedOf(msgs, existing, folder)
        ensures e.1 == folder && e.0 !in existing && exists m :: m in msgs && m.uid == e.0 && FailsInPass(m)
      {
        if e in FailedOf(init, existing, folder) {
          var m :| m in init && m.uid == e.0 && FailsInPass(m);
          assert m in msgs;
        } else {
          assert msgs[|msgs| - 1] in msgs;
        }
      }
    }
  }

  /** A pair of batch `j < k` is among the pairs of the first `k` batches. */
  lemma {:induction false} BatchesFailedHas(msgs: seq<MailMessage>, batches: seq<seq<Uid>>, existing: set<Uid>,
                                            folder: Folder, k: nat, j: nat, e: (Uid, Folder))
    requires j < k <= |batches|
    requires e in FailedIn(msgs, batches[j], existing, folder)
    ensures e in BatchesFailed(msgs, batches, existing, folder, k)
    decreases k
  {
    var prev := BatchesFailed(msgs, batches, existing, folder, k - 1);
    var last := FailedIn(msgs, batches[k - 1], existing, folder);
    if j < k - 1 {
      BatchesFailedHas(msgs, batches, existing, folder, k - 1, j, e);
    }
    InAppend(prev, last, e);
  }

  lemma InAppend<T>(a: seq<T>, b: seq<T>, x: T)
    requires x in a || x in b
    ensures x in a + b
  {
  }

  /** Every pair of the first `k` batches comes from a failing message of one of them that was not stored before. */
  lemma {:induction false} BatchesFailedFrom(msgs: seq<MailMessage>, batches: seq<seq<Uid>>, existing: set<Uid>,
                                             folder: Folder, k: nat, e: (Uid, Folder))
    requires k <= |batches| && e in BatchesFailed(msgs, batches, existing, folder, k)
    ensures e.1 == folder && e.0 !in existing
    ensures exists j, m :: 0 <= j < k && m in msgs && m.uid in batches[j] && m.uid == e.0 && FailsInPass(m)
    decreases k
  {
    if e in BatchesFailed(msgs, batches, existing, folder, k - 1) {
      BatchesFailedFrom(msgs, batches, existing, folder, k - 1, e);
    } else {
      var fetched := FetchUids(msgs, batches[k - 1]);
      assert e in FailedIn(msgs, batches[k - 1], existing, folder);
      FailedInFetch(msgs, batches[k - 1], existing, folder);
      FailedOfSpec(fetched, existing, folder);
      var m :| m in fetched && m.uid == e.0 && FailsInPass(m);
      assert 0 <= k - 1 < k && m in msgs && m.uid in batches[k - 1];
    }
  }

  /**
   * The pairs of an attempt are listed uids of `folder`, not stored before,
   * of messages that fail in the pass; and when the attempt does not raise,
   * every such message has its pair.
   */
  lemma AttemptFailedSpec(msgs: seq<MailMessage>, outage: Option<Outage>, existing: set<Uid>, folder: Folder)
    ensures forall e :: e in AttemptFailed(msgs, outage, existing, folder) ==>
              && e.1 == folder && e.0 !in existing && e.0 in UidsOf(Window(msgs, MaxUidOf(existing)))
              && exists m :: m in msgs && m.uid == e.0 && FailsInPass(m)
    ensures !AttemptRaises(outage, AttemptBatches(msgs, MaxUidOf(existing)), existing) ==>
              forall m :: m in msgs && m.uid in UidsOf(Window(msgs, MaxUidOf(existing))) && m.uid !in existing && FailsInPass(m)
                ==> (m.uid, folder) in AttemptFailed(msgs, outage, existing, folder)
  {
    var listed := UidsOf(Window(msgs, MaxUidOf(existing)));
    var batches := AttemptBatches(msgs, MaxUidOf(existing));
    var k := if outage == Some(ListingFails) then 0
             else if AttemptRaises(outage, batches, existing) then outage.value.batch
             else |batches|;
    assert AttemptFailed(msgs, outage, existing, folder) == BatchesFailed(msgs, batches, existing, folder, k);
    forall e | e in AttemptFailed(msgs, outage, existing, folder)
      ensures e.1 == folder && e.0 !in existing && e.0 in listed
      ensures exists m :: m in msgs && m.uid == e.0 && FailsInPass(m)
    {
      BatchesFailedFrom(msgs, batches, existing, folder, k, e);
      var j, m :| 0 <= j < k && m in msgs && m.uid in batches[j] && m.uid == e.0 && FailsInPass(m);
      BatchElementsFromInput(listed, 10, j, m.uid);
    }
    if !AttemptRaises(outage, batches, existing) {
      FlattenSplitIntoBatches(listed, 10);
      forall m | m in msgs && m.uid in listed && m.uid !in existing && FailsInPass(m)
        ensures (m.uid, folder) in AttemptFailed(msgs, outage, existing, folder)
      {
        InFlatten(batches, m.uid);
        var j :| 0 <= j < |batches| && m.uid in batches[j];
        var i :| 0 <= i < |batches[j]| && batches[j][i] == m.uid;
        assert !AllStored(batches[j], existing);
        var fetched := FetchUids(msgs, batches[j]);
        FailedOfSpec(fetched, existing, folder);
        FailedInFetch(msgs, batches[j], existing, folder);
        assert m in fetched;
        assert (m.uid, folder) in FailedIn(msgs, batches[j], existing, folder);
        BatchesFailedHas(msgs, batches, existing, folder, |batches|, j, (m.uid, folder));
      }
    }
  }

  /**
   * What the loop over a fetched batch keeps after its first `i` messages:
   * the tables only grow, with rows of `folder` for uids of the batch not
   * stored before; each of those messages that does not break is stored;
   * and the failure list has grown by exactly their failing pairs.
   */
  ghost predicate BatchSoFar(d0: map<(Uid, Folder), DownloadedRow>, d: map<(Uid, Folder), DownloadedRow>,
                             e0: map<nat, EmailRow>, e: map<nat, EmailRow>, f0: seq<(Uid, Folder)>, f: seq<(Uid, Folder)>,
                             folder: Folder, msgs: seq<MailMessage>, existing: set<Uid>, i: nat)
    requires i <= |msgs|
  {
    && Grows(d0, d) && NewKeysFrom(d0, d, folder, UidsOf(msgs), existing)
    && Grows(e0, e) && NewEmailsFrom(e0, e, folder, existing)
    && (forall j :: 0 <= j < i && msgs[j].uid !in existing && !msgs[j].broken ==> (msgs[j].uid, folder) in d)
    && f == f0 + FailedOf(msgs[..i], existing, folder)
  }

  lemma BatchSoFarStep(d0: map<(Uid, Folder), DownloadedRow>, d1: map<(Uid, Folder), DownloadedRow>,
                       d2: map<(Uid, Folder), DownloadedRow>, e0: map<nat, EmailRow>, e1: map<nat, EmailRow>,
                       e2: map<nat, EmailRow>, f0: seq<(Uid, Folder)>, f1: seq<(Uid, Folder)>, f2: seq<(Uid, Folder)>,
                       folder: Folder, msgs: seq<MailMessage>, existing: set<Uid>, i: nat)
    requires i < |msgs| && BatchSoFar(d0, d1, e0, e1, f0, f1, folder, msgs, existing, i)
    requires Grows(d1, d2)
    requires forall k :: k in d2 && k !in d1 ==> k == (msgs[i].uid, folder) && msgs[i].uid !in existing
    requires Grows(e1, e2) && NewEmailsFrom(e1, e2, folder, existing)
    requires msgs[i].uid !in existing && !msgs[i].broken ==> (msgs[i].uid, folder) in d2
    requires f2 == f1 + FailedEntry(msgs[i], existing, folder)
    ensures BatchSoFar(d0, d2, e0, e2, f0, f2, folder, msgs, existing, i + 1)
  {
    assert msgs[..i + 1][..i] == msgs[..i];
    assert msgs[i].uid == UidsOf(msgs)[i];
  }

  lemma BatchSoFarDone(d0: map<(Uid, Folder), DownloadedRow>, d: map<(Uid, Folder), DownloadedRow>,
                       e0: map<nat, EmailRow>, e: map<nat, EmailRow>, f0: seq<(Uid, Folder)>, f: seq<(Uid, Folder)>,
                       folder: Folder, msgs: seq<MailMessage>, existing: set<Uid>)
    requires BatchSoFar(d0, d, e0, e, f0, f, folder, msgs, existing, |msgs|)
    ensures forall m :: m in msgs && m.uid !in existing && !m.broken ==> (m.uid, folder) in d
    ensures f == f0 + FailedOf(msgs, existing, folder)
    ensures AppendsFor(f0, f, folder)
  {
    assert msgs[..|msgs|] == msgs;
    FailedOfSpec(msgs, existing, folder);
    AppendsForAll(f0, FailedOf(msgs, existing, folder), folder);
    forall m | m in msgs && m.uid !in existing && !m.broken ensures (m.uid, folder) in d {
      var j :| 0 <= j < |msgs| && msgs[j] == m;
    }
  }

  /** How many of `n` listed uids the first `k` batches of ten hold. */
  function Reach(n: nat, k: nat): (r: nat)
    ensures r <= n
  {
    if 10 * k < n then 10 * k else n
  }

  /** What a prefix holds, every longer prefix holds. */
  lemma PrefixWithin<T>(xs: seq<T>, a: nat, b: nat)
    requires a <= b <= |xs|
    ensures forall x :: x in xs[..a] ==> x in xs[..b]
  {
    assert xs[..a] == xs[..b][..a];
  }

  /** Every message of `msgs` with a uid in `batch`, not stored before and not broken, is stored. */
  ghost predicate Covered(d: map<(Uid, Folder), DownloadedRow>, folder: Folder, batch: seq<Uid>,
                          msgs: seq<MailMessage>, existing: set<Uid>) {
    forall m :: m in msgs && m.uid in batch && m.uid !in existing && !m.broken ==> (m.uid, folder) in d
  }

  /**
   * What the batch loop keeps after its first `k` passes: the tables only
   * grow, with rows of `folder` for uids of those `k` batches not stored before, the
   * failure list has grown by exactly the pairs of those batches, and every
   * batch that was not already stored is covered.
   */
  ghost predicate BatchesStored(d0: map<(Uid, Folder), DownloadedRow>, d: map<(Uid, Folder), DownloadedRow>,
                                e0: map<nat, EmailRow>, e: map<nat, EmailRow>,
                                f0: seq<(Uid, Folder)>, f: seq<(Uid, Folder)>,
                                folder: Folder, msgs: seq<MailMessage>, listed: seq<Uid>, existing: set<Uid>, k: nat)
    requires k <= |SplitIntoBatches(listed, 10)|
  {
    && Grows(d0, d) && NewKeysFrom(d0, d, folder, listed[..Reach(|listed|, k)], existing)
    && NewEmailsFrom(e0, e, folder, existing) && Grows(e0, e)
    && f == f0 + BatchesFailed(msgs, SplitIntoBatches(listed, 10), existing, folder, k)
    && forall j :: 0 <= j < k && !AllStored(SplitIntoBatches(listed, 10)[j], existing) ==>
         Covered(d, folder, SplitIntoBatches(listed, 10)[j], msgs, existing)
  }

  lemma CoveredGrows(d: map<(Uid, Folder), DownloadedRow>, d': map<(Uid, Folder), DownloadedRow>, folder: Folder,
                     batch: seq<Uid>, msgs: seq<MailMessage>, existing: set<Uid>)
    requires Covered(d, folder, batch, msgs, existing) && Grows(d, d')
    ensures Covered(d', folder, batch, msgs, existing)
  {
  }

  lemma {:induction false} InFlatten<T>(xss: seq<seq<T>>, x: T)
    requires x in Flatten(xss)
    ensures exists k :: 0 <= k < |xss| && x in xss[k]
    decreases |xss|
  {
    assert xss != [];
    if x !in xss[0] {
      InFlatten(xss[1..], x);
      var k :| 0 <= k < |xss[1..]| && x in xss[1..][k];
      assert xss[k + 1] == xss[1..][k];
    }
  }

  /** A fetched batch keeps the loop's invariant when it is stored as `StoreListedBatch` promises. */
  lemma BatchesStoredStep(d0: map<(Uid, Folder), DownloadedRow>, d1: map<(Uid, Folder), DownloadedRow>,
                          d2: map<(Uid, Folder), DownloadedRow>, e0: map<nat, EmailRow>, e1: map<nat, EmailRow>,
                          e2: map<nat, EmailRow>, f0: seq<(Uid, Folder)>, f1: seq<(Uid, Folder)>,
                          f2: seq<(Uid, Folder)>, folder: Folder, msgs: seq<MailMessage>, listed: seq<Uid>,
                          existing: set<Uid>, k: nat)
    requires k < |SplitIntoBatches(listed, 10)| && !AllStored(SplitIntoBatches(listed, 10)[k], existing)
    requires BatchesStored(d0, d1, e0, e1, f0, f1, folder, msgs, listed, existing, k)
    requires Grows(d1, d2) && NewKeysFrom(d1, d2, folder, listed[..Reach(|listed|, k + 1)], existing)
    requires Grows(e1, e2) && NewEmailsFrom(e1, e2, folder, existing)
    requires Covered(d2, folder, SplitIntoBatches(listed, 10)[k], msgs, existing)
    requires f2 == f1 + FailedIn(msgs, SplitIntoBatches(listed, 10)[k], existing, folder)
    ensures BatchesStored(d0, d2, e0, e2, f0, f2, folder, msgs, listed, existing, k + 1)
  {
    var batches := SplitIntoBatches(listed, 10);
    var before, after := listed[..Reach(|listed|, k)], listed[..Reach(|listed|, k + 1)];
    PrefixWithin(listed, Reach(|listed|, k), Reach(|listed|, k + 1));
    NewKeysWeaken(d0, d1, folder, before, after, existing, existing);
    NewKeysTrans(d0, d1, d2, folder, after, existing);
    NewEmailsTrans(e0, e1, e2, folder, existing);
    BatchesFailedStep(f0, f1, f2, msgs, batches, existing, folder, k);
    CoveredBatchesGrow(d1, d2, folder, batches, msgs, existing, k);
  }

  lemma CoveredBatchesGrow(d1: map<(Uid, Folder), DownloadedRow>, d2: map<(Uid, Folder), DownloadedRow>,
                           folder: Folder, batches: seq<seq<Uid>>, msgs: seq<MailMessage>, existing: set<Uid>, k: nat)
    requires k <= |batches| && Grows(d1, d2)
    requires forall j :: 0 <= j < k && !AllStored(batches[j], existing) ==> Covered(d1, folder, batches[j], msgs, existing)
    ensures forall j :: 0 <= j < k && !AllStored(batches[j], existing) ==> Covered(d2, folder, batches[j], msgs, existing)
  {
    forall j | 0 <= j < k && !AllStored(batches[j], existing)
      ensures Covered(d2, folder, batches[j], msgs, existing)
    {
      CoveredGrows(d1, d2, folder, batches[j], msgs, existing);
    }
  }

  lemma BatchesFailedStep(f0: seq<(Uid, Folder)>, f1: seq<(Uid, Folder)>, f2: seq<(Uid, Folder)>,
                          msgs: seq<MailMessage>, batches: seq<seq<Uid>>, existing: set<Uid>, folder: Folder, k: nat)
    requires k < |batches| && f1 == f0 + BatchesFailed(msgs, batches, existing, folder, k)
    requires f2 == f1 + FailedIn(msgs, batches[k], existing, folder)
    ensures f2 == f0 + BatchesFailed(msgs, batches, existing, folder, k + 1)
  {
    AppendAssoc(f0, BatchesFailed(msgs, batches, existing, folder, k), FailedIn(msgs, batches[k], existing, folder));
  }

  /** A batch whose uids are all stored is skipped and needs nothing more. */
  lemma BatchesStoredSkip(d0: map<(Uid, Folder), DownloadedRow>, d: map<(Uid, Folder), DownloadedRow>,
                          e0: map<nat, EmailRow>, e: map<nat, EmailRow>, f0: seq<(Uid, Folder)>, f: seq<(Uid, Folder)>,
                          folder: Folder, msgs: seq<MailMessage>, listed: seq<Uid>, existing: set<Uid>, k: nat)
    requires k < |SplitIntoBatches(listed, 10)| && AllStored(SplitIntoBatches(listed, 10)[k], existing)
    requires BatchesStored(d0, d, e0, e, f0, f, folder, msgs, listed, existing, k)
    ensures BatchesStored(d0, d, e0, e, f0, f, folder, msgs, listed, existing, k + 1)
  {
    FailedInStored(msgs, SplitIntoBatches(listed, 10)[k], existing, folder);
    assert f0 + BatchesFailed(msgs, SplitIntoBatches(listed, 10), existing, folder, k) + [] == f;
    PrefixWithin(listed, Reach(|listed|, k), Reach(|listed|, k + 1));
    NewKeysWeaken(d0, d, folder, listed[..Reach(|listed|, k)], listed[..Reach(|listed|, k + 1)], existing, existing);
  }

  /**
   * Once every batch is handled, every listed message that was not stored
   * and does not break is stored: each listed uid is in some batch, and
   * that batch was not skipped.
   */
  lemma BatchesStoredCovers(d0: map<(Uid, Folder), DownloadedRow>, d: map<(Uid, Folder), DownloadedRow>,
                            e0: map<nat, EmailRow>, e: map<nat, EmailRow>, f0: seq<(Uid, Folder)>, f: seq<(Uid, Folder)>,
                            folder: Folder, msgs: seq<MailMessage>, listed: seq<Uid>, existing: set<Uid>)
    requires BatchesStored(d0, d, e0, e, f0, f, folder, msgs, listed, existing, |SplitIntoBatches(listed, 10)|)
    ensures forall m :: m in msgs && m.uid in listed && m.uid !in existing && !m.broken ==> (m.uid, folder) in d
  {
    var batches := SplitIntoBatches(listed, 10);
    FlattenSplitIntoBatches(listed, 10);
    forall m | m in msgs && m.uid in listed && m.uid !in existing && !m.broken ensures (m.uid, folder) in d {
      InFlatten(batches, m.uid);
      var j :| 0 <= j < |batches| && m.uid in batches[j];
      var i :| 0 <= i < |batches[j]| && batches[j][i] == m.uid;
      assert !AllStored(batches[j], existing);
      assert Covered(d, folder, batches[j], msgs, existing);
    }
  }

  /**
   * After `k` passes, every message whose uid is among those of the first
   * `k` batches, that was not stored and does not break, is stored: uid `q`
   * is in batch `q / 10`, which was not skipped.
   */
  lemma BatchesStoredReach(d0: map<(Uid, Folder), DownloadedRow>, d: map<(Uid, Folder), DownloadedRow>,
                           e0: map<nat, EmailRow>, e: map<nat, EmailRow>, f0: seq<(Uid, Folder)>, f: seq<(Uid, Folder)>,
                           folder: Folder, msgs: seq<MailMessage>, listed: seq<Uid>, existing: set<Uid>, k: nat)
    requires k <= |SplitIntoBatches(listed, 10)|
    requires BatchesStored(d0, d, e0, e, f0, f, folder, msgs, listed, existing, k)
    ensures forall m ::
              m in msgs && m.uid in listed[..Reach(|listed|, k)] && m.uid !in existing && !m.broken
              ==> (m.uid, folder) in d
  {
    var batches := SplitIntoBatches(listed, 10);
    forall m | m in msgs && m.uid in listed[..Reach(|listed|, k)] && m.uid !in existing && !m.broken
      ensures (m.uid, folder) in d
    {
      var q :| 0 <= q < Reach(|listed|, k) && listed[..Reach(|listed|, k)][q] == m.uid;
      var b := q / 10;
      BatchOfIndex(listed, 10, q, b);
      var i :| 0 <= i < |batches[b]| && batches[b][i] == m.uid;
      assert !AllStored(batches[b], existing);
      assert Covered(d, folder, batches[b], msgs, existing);
    }
  }

  /** The keys of the first `k` batches are listed uids. */
  lemma BatchesStoredListed(d0: map<(Uid, Folder), DownloadedRow>, d: map<(Uid, Folder), DownloadedRow>,
                            e0: map<nat, EmailRow>, e: map<nat, EmailRow>, f0: seq<(Uid, Folder)>, f: seq<(Uid, Folder)>,
                            folder: Folder, msgs: seq<MailMessage>, listed: seq<Uid>, existing: set<Uid>, k: nat)
    requires k <= |SplitIntoBatches(listed, 10)|
    requires BatchesStored(d0, d, e0, e, f0, f, folder, msgs, listed, existing, k)
    ensures NewKeysFrom(d0, d, folder, listed, existing)
  {
    PrefixWithin(listed, Reach(|listed|, k), |listed|);
    assert listed[..|listed|] == listed;
  }

  /** The keys batch `k` adds come from the listed uids of the first `k + 1` batches. */
  lemma BatchStep(before: map<(Uid, Folder), DownloadedRow>, after: map<(Uid, Folder), DownloadedRow>,
                  folder: Folder, listed: seq<Uid>, existing: set<Uid>, msgs: seq<MailMessage>, k: nat)
    requires k < |SplitIntoBatches(listed, 10)|
    requires NewKeysFrom(before, after, folder, UidsOf(FetchUids(msgs, SplitIntoBatches(listed, 10)[k])), existing)
    ensures NewKeysFrom(before, after, folder, listed[..Reach(|listed|, k + 1)], existing)
  {
    var batch := SplitIntoBatches(listed, 10)[k];
    var fetched := FetchUids(msgs, batch);
    BatchIsSlice(listed, 10, k);
    forall key | key in after && key !in before
      ensures key.1 == folder && key.0 in listed[..Reach(|listed|, k + 1)] && key.0 !in existing
    {
      var j :| 0 <= j < |fetched| && UidsOf(fetched)[j] == key.0;
      assert fetched[j] in fetched;
      var i :| 0 <= i < |batch| && batch[i] == key.0;
      assert listed[..Reach(|listed|, k + 1)][k * 10 + i] == key.0;
    }
  }

  lemma NewKeysTrans(d0: map<(Uid, Folder), DownloadedRow>, d1: map<(Uid, Folder), DownloadedRow>,
                     d2: map<(Uid, Folder), DownloadedRow>, folder: Folder, listed: seq<Uid>, existing: set<Uid>)
    requires Grows(d0, d1) && NewKeysFrom(d0, d1, folder, listed, existing)
    requires Grows(d1, d2) && NewKeysFrom(d1, d2, folder, listed, existing)
    ensures Grows(d0, d2) && NewKeysFrom(d0, d2, folder, listed, existing)
  {
  }

  lemma NewEmailsTrans(e0: map<nat, EmailRow>, e1: map<nat, EmailRow>, e2: map<nat, EmailRow>,
                       folder: Folder, existing: set<Uid>)
    requires Grows(e0, e1) && NewEmailsFrom(e0, e1, folder, existing)
    requires Grows(e1, e2) && NewEmailsFrom(e1, e2, folder, existing)
    ensures Grows(e0, e2) && NewEmailsFrom(e0, e2, folder, existing)
  {
  }

  lemma AppendsForAll(a: seq<(Uid, Folder)>, extra: seq<(Uid, Folder)>, folder: Folder)
    requires forall e :: e in extra ==> e.1 == folder
    ensures AppendsFor(a, a + extra, folder)
  {
    assert (a + extra)[..|a|] == a;
    forall i | |a| <= i < |a + extra| ensures (a + extra)[i].1 == folder {
      assert (a + extra)[i] == extra[i - |a|];
    }
  }

  lemma AppendAssoc<T>(a: seq<T>, b: seq<T>, c: seq<T>)
    ensures (a + b) + c == a + (b + c)
  {
  }

  /** The failure list grows by the pairs of the batches, all of them in `folder`. */
  lemma BatchesStoredAppends(f0: seq<(Uid, Folder)>, f: seq<(Uid, Folder)>, folder: Folder, msgs: seq<MailMessage>,
                             batches: seq<seq<Uid>>, existing: set<Uid>, k: nat)
    requires k <= |batches| && f == f0 + BatchesFailed(msgs, batches, existing, folder, k)
    ensures AppendsFor(f0, f, folder)
  {
    forall e | e in BatchesFailed(msgs, batches, existing, folder, k) ensures e.1 == folder {
      BatchesFailedFrom(msgs, batches, existing, folder, k, e);
    }
    AppendsForAll(f0, BatchesFailed(msgs, batches, existing, folder, k), folder);
  }

  lemma AppendsTrans(f0: seq<(Uid, Folder)>, f1: seq<(Uid, Folder)>, f2: seq<(Uid, Folder)>, folder: Folder)
    requires AppendsFor(f0, f1, folder) && AppendsFor(f1, f2, folder)
    ensures AppendsFor(f0, f2, folder)
  {
    assert f2[..|f0|] == f2[..|f1|][..|f0|];
  }

  /** A uid listed by an attempt is a uid of the folder. */
  lemma WindowWithinFolder(msgs: seq<MailMessage>, maxUid: Option<nat>, u: Uid)
    requires u in UidsOf(Window(msgs, maxUid))
    ensures u in UidsOf(msgs)
  {
    var w := Window(msgs, maxUid);
    var i :| 0 <= i < |w| && UidsOf(w)[i] == u;
    assert w[i] in msgs;
    var j :| 0 <= j < |msgs| && msgs[j] == w[i];
    assert UidsOf(msgs)[j] == u;
  }

  lemma NewKeysWeaken(a: map<(Uid, Folder), DownloadedRow>, b: map<(Uid, Folder), DownloadedRow>, folder: Folder,
                      listed: seq<Uid>, wider: seq<Uid>, existing: set<Uid>, fewer: set<Uid>)
    requires NewKeysFrom(a, b, folder, listed, existing)
    requires forall u :: u in listed ==> u in wider
    requires fewer <= existing
    ensures NewKeysFrom(a, b, folder, wider, fewer)
  {
  }

  lemma NewEmailsWeaken(a: map<nat, EmailRow>, b: map<nat, EmailRow>, folder: Folder, existing: set<Uid>, fewer: set<Uid>)
    requires NewEmailsFrom(a, b, folder, existing) && fewer <= existing
    ensures NewEmailsFrom(a, b, folder, fewer)
  {
  }

  // ---------------------------------------------------------------------------
  // The retries of one folder (main.py:572-647)

  /** The outage planned for attempt `attempt` (counting from 1) at `folder`, if any. */
  function OutageAt(outages: map<(Folder, nat), Outage>, folder: Folder, attempt: nat): Option<Outage> {
    if (folder, attempt) in outages then Some(outages[(folder, attempt)]) else None
  }

  /**
   * The attempts at a folder as `trace` and `starts` record them: attempt
   * `i + 1` starts from the stored uids `starts[i]`, which only grow from
   * `existing0`, and it raised exactly when its outage hits the listing or a
   * batch it fetches.
   */
  ghost predicate AttemptsFrom(msgs: seq<MailMessage>, outages: map<(Folder, nat), Outage>, folder: Folder,
                               existing0: set<Uid>, trace: seq<bool>, starts: seq<set<Uid>>) {
    && |starts| == |trace|
    && (|starts| > 0 ==> starts[0] == existing0)
    && (forall i, j :: 0 <= i <= j < |starts| ==> starts[i] <= starts[j])
    && forall i :: 0 <= i < |trace| ==>
         trace[i] == AttemptRaises(OutageAt(outages, folder, i + 1), AttemptBatches(msgs, MaxUidOf(starts[i])), starts[i])
  }

  /**
   * The attempts of the retry loop, `true` for one that raised: one to three
   * of them, every one before the last raised, and the loop stops early only
   * after an attempt that did not raise.
   */
  predicate RetryShape(trace: seq<bool>) {
    && 1 <= |trace| <= 3
    && (forall i :: 0 <= i < |trace| - 1 ==> trace[i])
    && (|trace| < 3 ==> !trace[|trace| - 1])
  }

  /**
   * What the retry loop of a folder keeps: the tables only grow, with rows
   * of `folder` for its uids, the failure list has grown by pairs of
   * `folder` only, the attempts so far raised as their outages and starting
   * points say, and every uid an attempt started from is still stored.
   */
  ghost predicate SyncSoFar(d0: map<(Uid, Folder), DownloadedRow>, d: map<(Uid, Folder), DownloadedRow>,
                            e0: map<nat, EmailRow>, e: map<nat, EmailRow>, f0: seq<(Uid, Folder)>, f: seq<(Uid, Folder)>,
                            existing0: set<Uid>, folder: Folder, msgs: seq<MailMessage>,
                            outages: map<(Folder, nat), Outage>, trace: seq<bool>, starts: seq<set<Uid>>) {
    && Grows(d0, d) && NewKeysFrom(d0, d, folder, UidsOf(msgs), {})
    && Grows(e0, e) && NewEmailsFrom(e0, e, folder, existing0)
    && AppendsFor(f0, f, folder)
    && AttemptsFrom(msgs, outages, folder, existing0, trace, starts)
    && (forall i, u :: 0 <= i < |starts| && u in starts[i] ==> (u, folder) in d)
  }

  /** One more attempt, from the uids `start` stored when it begins, keeps the retry loop's state. */
  lemma SyncSoFarStep(d0: map<(Uid, Folder), DownloadedRow>, d1: map<(Uid, Folder), DownloadedRow>,
                      d2: map<(Uid, Folder), DownloadedRow>, e0: map<nat, EmailRow>, e1: map<nat, EmailRow>,
                      e2: map<nat, EmailRow>, f0: seq<(Uid, Folder)>, f1: seq<(Uid, Folder)>, f2: seq<(Uid, Folder)>,
                      existing0: set<Uid>, folder: Folder, msgs: seq<MailMessage>, outages: map<(Folder, nat), Outage>,
                      trace: seq<bool>, starts: seq<set<Uid>>, start: set<Uid>, raised: bool)
    requires SyncSoFar(d0, d1, e0, e1, f0, f1, existing0, folder, msgs, outages, trace, starts)
    requires |starts| == 0 ==> start == existing0
    requires forall u :: u in start <==> (u, folder) in d1
    requires raised == AttemptRaises(OutageAt(outages, folder, |trace| + 1), AttemptBatches(msgs, MaxUidOf(start)), start)
    requires Grows(d1, d2) && NewKeysFrom(d1, d2, folder, UidsOf(Window(msgs, MaxUidOf(start))), start)
    requires Grows(e1, e2) && NewEmailsFrom(e1, e2, folder, start)
    requires AppendsFor(f1, f2, folder)
    ensures SyncSoFar(d0, d2, e0, e2, f0, f2, existing0, folder, msgs, outages, trace + [raised], starts + [start])
  {
    SyncKeysStep(d0, d1, d2, folder, msgs, MaxUidOf(start), start);
    assert existing0 <= start;
    NewEmailsWeaken(e1, e2, folder, start, existing0);
    NewEmailsTrans(e0, e1, e2, folder, existing0);
    AppendsTrans(f0, f1, f2, folder);
    AttemptsFromStep(msgs, outages, folder, existing0, trace, starts, start, raised);
  }

  /** The retry loop's state, with the folder stored in uid order when the server lists in that order. */
  ghost predicate RetryLoop(d0: map<(Uid, Folder), DownloadedRow>, d: map<(Uid, Folder), DownloadedRow>,
                            e0: map<nat, EmailRow>, e: map<nat, EmailRow>, f0: seq<(Uid, Folder)>, f: seq<(Uid, Folder)>,
                            existing0: set<Uid>, folder: Folder, msgs: seq<MailMessage>,
                            outages: map<(Folder, nat), Outage>, trace: seq<bool>, starts: seq<set<Uid>>) {
    && SyncSoFar(d0, d, e0, e, f0, f, existing0, folder, msgs, outages, trace, starts)
    && Ordered(msgs, MaxUidOf(existing0), folder, d)
  }

  /** Before the first attempt the loop's state holds. */
  lemma RetryLoopStart(d0: map<(Uid, Folder), DownloadedRow>, e0: map<nat, EmailRow>, f0: seq<(Uid, Folder)>,
                       existing0: set<Uid>, folder: Folder, msgs: seq<MailMessage>, outages: map<(Folder, nat), Outage>)
    requires forall u :: u in existing0 <==> (u, folder) in d0
    ensures RetryLoop(d0, d0, e0, e0, f0, f0, existing0, folder, msgs, outages, [], [])
  {
    ProgressStart(msgs, folder, d0, existing0);
  }

  /**
   * What the retry loop of a folder has done once it stops: its attempts,
   * what each stored, and, when it did not fail and the server lists in uid
   * order, every intact message of the window from the stored maximum
   * `existing0` had before the first attempt.
   */
  lemma SyncFolderDone(d0: map<(Uid, Folder), DownloadedRow>, d: map<(Uid, Folder), DownloadedRow>,
                       e0: map<nat, EmailRow>, e: map<nat, EmailRow>, f0: seq<(Uid, Folder)>, f: seq<(Uid, Folder)>,
                       existing0: set<Uid>, folder: Folder, msgs: seq<MailMessage>,
                       outages: map<(Folder, nat), Outage>, trace: seq<bool>, starts: seq<set<Uid>>, failed: bool)
    requires RetryLoop(d0, d, e0, e, f0, f, existing0, folder, msgs, outages, trace, starts)
    requires |trace| > 0 && (failed <==> |trace| == 3 && trace[2])
    requires !failed ==>
      forall m :: m in msgs && m.uid in UidsOf(Window(msgs, MaxUidOf(starts[|starts| - 1]))) && !m.broken
        ==> (m.uid, folder) in d
    ensures AttemptsFrom(msgs, outages, folder, existing0, trace, starts)
    ensures forall i :: 0 <= i < |trace| && trace[i] ==> (folder, i + 1) in outages
    ensures forall i, u :: 0 <= i < |starts| && u in starts[i] ==> (u, folder) in d
    ensures !failed && Ascending(msgs) ==> WindowStored(msgs, MaxUidOf(existing0), folder, d)
    ensures Grows(d0, d) && NewKeysFrom(d0, d, folder, UidsOf(msgs), {})
    ensures Grows(e0, e) && NewEmailsFrom(e0, e, folder, existing0)
    ensures AppendsFor(f0, f, folder)
  {
    if !failed && Ascending(msgs) {
      ProgressDone(msgs, MaxUidOf(existing0), folder, d, starts[|starts| - 1]);
    }
  }

  lemma SyncKeysStep(d0: map<(Uid, Folder), DownloadedRow>, d1: map<(Uid, Folder), DownloadedRow>,
                     d2: map<(Uid, Folder), DownloadedRow>, folder: Folder, msgs: seq<MailMessage>, maxUid: Option<nat>,
                     start: set<Uid>)
    requires Grows(d0, d1) && NewKeysFrom(d0, d1, folder, UidsOf(msgs), {})
    requires Grows(d1, d2) && NewKeysFrom(d1, d2, folder, UidsOf(Window(msgs, maxUid)), start)
    ensures Grows(d0, d2) && NewKeysFrom(d0, d2, folder, UidsOf(msgs), {})
  {
    forall u | u in UidsOf(Window(msgs, maxUid)) ensures u in UidsOf(msgs) {
      WindowWithinFolder(msgs, maxUid, u);
    }
    NewKeysWeaken(d1, d2, folder, UidsOf(Window(msgs, maxUid)), UidsOf(msgs), start, {});
    NewKeysTrans(d0, d1, d2, folder, UidsOf(msgs), {});
  }

  lemma AttemptsFromStep(msgs: seq<MailMessage>, outages: map<(Folder, nat), Outage>, folder: Folder,
                         existing0: set<Uid>, trace: seq<bool>, starts: seq<set<Uid>>, start: set<Uid>, raised: bool)
    requires AttemptsFrom(msgs, outages, folder, existing0, trace, starts)
    requires |starts| == 0 ==> start == existing0
    requires forall i :: 0 <= i < |starts| ==> starts[i] <= start
    requires raised == AttemptRaises(OutageAt(outages, folder, |trace| + 1), AttemptBatches(msgs, MaxUidOf(start)), start)
    ensures AttemptsFrom(msgs, outages, folder, existing0, trace + [raised], starts + [start])
  {
    var s := starts + [start];
    var t := trace + [raised];
    forall i, j | 0 <= i <= j < |s| ensures s[i] <= s[j] {
      if j == |starts| && i < j {
        assert s[i] == starts[i];
      }
    }
    forall i | 0 <= i < |t|
      ensures t[i] == AttemptRaises(OutageAt(outages, folder, i + 1), AttemptBatches(msgs, MaxUidOf(s[i])), s[i])
    {
      if i < |trace| {
        assert t[i] == trace[i] && s[i] == starts[i];
      }
    }
  }

  // ---------------------------------------------------------------------------
  // What the retries of a folder store, when the server lists in uid order

  /** The folder's messages, as the server returns them, are in increasing uid order. */
  predicate Ascending(msgs: seq<MailMessage>) {
    forall i, j :: 0 <= i < j < |msgs| ==> CastInteger(msgs[i].uid) < CastInteger(msgs[j].uid)
  }

  /** The uid of `m` is not above `u`, as `CAST(uid AS INTEGER)` compares them. */
  predicate NotAbove(m: MailMessage, u: Uid) {
    CastInteger(m.uid) <= CastInteger(u)
  }

  /** `m` is an intact message of the folder above `floor`. */
  predicate Above(msgs: seq<MailMessage>, floor: Option<nat>, m: MailMessage) {
    m in msgs && !m.broken && (floor.None? || CastInteger(m.uid) > floor.value)
  }

  /**
   * The folder is stored in uid order: every intact message above `floor`
   * whose uid is not above some stored uid of the folder is stored too.
   */
  ghost predicate Progress(msgs: seq<MailMessage>, floor: Option<nat>, folder: Folder,
                           d: map<(Uid, Folder), DownloadedRow>) {
    forall m, u {:trigger NotAbove(m, u)} ::
      Above(msgs, floor, m) && (u, folder) in d && NotAbove(m, u)
      ==> (m.uid, folder) in d
  }

  /** When the server lists the folder in uid order, the folder is stored in that order. */
  ghost predicate Ordered(msgs: seq<MailMessage>, floor: Option<nat>, folder: Folder,
                          d: map<(Uid, Folder), DownloadedRow>) {
    Ascending(msgs) ==> Progress(msgs, floor, folder, d)
  }

  /** Every intact message of the window from `floor` is stored in `folder`. */
  ghost predicate WindowStored(msgs: seq<MailMessage>, floor: Option<nat>, folder: Folder,
                               d: map<(Uid, Folder), DownloadedRow>) {
    forall m :: m in Window(msgs, floor) && !m.broken ==> (m.uid, folder) in d
  }

  /** Before the first attempt nothing stored lies above the stored maximum, so the order holds. */
  lemma ProgressStart(msgs: seq<MailMessage>, folder: Folder, d: map<(Uid, Folder), DownloadedRow>, existing: set<Uid>)
    requires forall u :: u in existing <==> (u, folder) in d
    ensures Ordered(msgs, MaxUidOf(existing), folder, d)
  {
  }

  lemma AscendingTail(msgs: seq<MailMessage>)
    requires Ascending(msgs) && msgs != []
    ensures Ascending(msgs[1..])
  {
    var rest := msgs[1..];
    forall i, j | 0 <= i < j < |rest| ensures CastInteger(rest[i].uid) < CastInteger(rest[j].uid) {
      assert rest[i] == msgs[i + 1] && rest[j] == msgs[j + 1];
    }
  }

  lemma AscendingHead(msgs: seq<MailMessage>, x: MailMessage)
    requires Ascending(msgs) && msgs != [] && x in msgs[1..]
    ensures CastInteger(msgs[0].uid) < CastInteger(x.uid)
  {
    var j :| 0 <= j < |msgs[1..]| && msgs[1..][j] == x;
    assert msgs[j + 1] == x;
  }

  lemma AscendingCons(h: MailMessage, r: seq<MailMessage>)
    requires Ascending(r) && forall x :: x in r ==> CastInteger(h.uid) < CastInteger(x.uid)
    ensures Ascending([h] + r)
  {
    var w := [h] + r;
    forall i, j | 0 <= i < j < |w| ensures CastInteger(w[i].uid) < CastInteger(w[j].uid) {
      assert w[j] == r[j - 1] && w[j] in r;
      if i > 0 {
        assert w[i] == r[i - 1];
      }
    }
  }

  lemma {:induction false} FromAscending(msgs: seq<MailMessage>, lo: nat)
    requires Ascending(msgs)
    ensures Ascending(From(msgs, lo))
    decreases |msgs|
  {
    if msgs != [] {
      var rest := msgs[1..];
      AscendingTail(msgs);
      FromAscending(rest, lo);
      var r := From(rest, lo);
      if CastInteger(msgs[0].uid) >= lo {
        forall x | x in r ensures CastInteger(msgs[0].uid) < CastInteger(x.uid) {
          AscendingHead(msgs, x);
        }
        AscendingCons(msgs[0], r);
      } else {
        assert From(msgs, lo) == r;
      }
    }
  }

  /** A window of a folder in uid order is in uid order. */
  lemma WindowAscending(msgs: seq<MailMessage>, maxUid: Option<nat>)
    requires Ascending(msgs)
    ensures Ascending(Window(msgs, maxUid))
  {
    match maxUid
    case None =>
    case Some(m) =>
      match TopUid(msgs)
      case None =>
        assert Window(msgs, maxUid) == [];
      case Some(top) =>
        var lo := if m + 1 <= top then m + 1 else top;
        FromAscending(msgs, lo);
        assert Window(msgs, maxUid) == From(msgs, lo);
  }

  /** In uid order, a message whose uid is not above another's does not come after it. */
  lemma AscendingIndex(w: seq<MailMessage>, p: nat, q: nat)
    requires Ascending(w) && p < |w| && q < |w| && CastInteger(w[p].uid) <= CastInteger(w[q].uid)
    ensures p <= q
  {
  }

  /** The folder's last message is in every window. */
  lemma WindowHasTop(msgs: seq<MailMessage>, maxUid: Option<nat>, x: MailMessage)
    requires x in msgs && CastInteger(x.uid) == TopUid(msgs).value
    ensures x in Window(msgs, maxUid)
  {
  }

  /** A message above every stored uid is in the window from the stored maximum. */
  lemma AboveStored(msgs: seq<MailMessage>, existing: set<Uid>, m: MailMessage)
    requires m in msgs && forall u :: u in existing ==> CastInteger(u) < CastInteger(m.uid)
    ensures m in Window(msgs, MaxUidOf(existing))
  {
    if existing != {} {
      WindowSpec(msgs, MaxUidOf(existing).value);
    }
  }

  lemma InUidsOf(w: seq<MailMessage>, m: MailMessage)
    requires m in w
    ensures m.uid in UidsOf(w)
  {
    var i :| 0 <= i < |w| && w[i] == m;
    assert UidsOf(w)[i] == m.uid;
  }

  /** What an attempt gets through is a prefix of what it lists. */
  lemma HandledPrefix(msgs: seq<MailMessage>, outage: Option<Outage>, existing: set<Uid>)
    ensures var listed := UidsOf(Window(msgs, MaxUidOf(existing)));
            var handled := Handled(msgs, outage, existing);
            |handled| <= |listed| && handled == listed[..|handled|]
  {
  }

  /** A prefix of a listing in uid order holds every message not above one of its uids. */
  lemma HandledDownward(w: seq<MailMessage>, handled: seq<Uid>, m: MailMessage, u: Uid)
    requires Ascending(w) && |handled| <= |w| && handled == UidsOf(w)[..|handled|]
    requires m in w && u in handled && NotAbove(m, u)
    ensures m.uid in handled
  {
    var listed := UidsOf(w);
    var q :| 0 <= q < |handled| && handled[q] == u;
    var p :| 0 <= p < |w| && w[p] == m;
    assert listed[q] == u && listed[q] == w[q].uid;
    AscendingIndex(w, p, q);
    assert handled[p] == m.uid;
  }

  /**
   * One attempt keeps the folder stored in uid order. A key it adds is a
   * uid it got through; an intact message that is not stored and not above
   * that uid is above every stored uid, so it is in the window, listed no
   * later than that uid, got through, and stored.
   */
  lemma ProgressStep(msgs: seq<MailMessage>, floor: Option<nat>, folder: Folder, d: map<(Uid, Folder), DownloadedRow>,
                     d': map<(Uid, Folder), DownloadedRow>, existing: set<Uid>, outage: Option<Outage>)
    requires Ascending(msgs) && Progress(msgs, floor, folder, d)
    requires forall u :: u in existing <==> (u, folder) in d
    requires Grows(d, d') && NewKeysFrom(d, d', folder, Handled(msgs, outage, existing), existing)
    requires forall m :: m in msgs && m.uid in Handled(msgs, outage, existing) && !m.broken ==> (m.uid, folder) in d'
    ensures Progress(msgs, floor, folder, d')
  {
    var w := Window(msgs, MaxUidOf(existing));
    var handled := Handled(msgs, outage, existing);
    HandledPrefix(msgs, outage, existing);
    WindowAscending(msgs, MaxUidOf(existing));
    forall m, u | Above(msgs, floor, m) && (u, folder) in d' && NotAbove(m, u)
      ensures (m.uid, folder) in d'
    {
      ProgressStepAt(msgs, floor, folder, d, d', existing, w, handled, m, u);
    }
  }

  /** The step of ProgressStep for one message `m` and one stored uid `u` not below it. */
  lemma ProgressStepAt(msgs: seq<MailMessage>, floor: Option<nat>, folder: Folder, d: map<(Uid, Folder), DownloadedRow>,
                       d': map<(Uid, Folder), DownloadedRow>, existing: set<Uid>, w: seq<MailMessage>,
                       handled: seq<Uid>, m: MailMessage, u: Uid)
    requires Progress(msgs, floor, folder, d)
    requires forall u :: u in existing <==> (u, folder) in d
    requires w == Window(msgs, MaxUidOf(existing)) && Ascending(w)
    requires |handled| <= |UidsOf(w)| && handled == UidsOf(w)[..|handled|]
    requires Grows(d, d') && NewKeysFrom(d, d', folder, handled, existing)
    requires forall m :: m in msgs && m.uid in handled && !m.broken ==> (m.uid, folder) in d'
    requires Above(msgs, floor, m) && (u, folder) in d' && NotAbove(m, u)
    ensures (m.uid, folder) in d'
  {
    if exists v :: v in existing && NotAbove(m, v) {
      var v :| v in existing && NotAbove(m, v);
      assert (v, folder) in d;
    } else {
      AboveStored(msgs, existing, m);
      assert (u, folder) !in d;
      HandledDownward(w, handled, m, u);
    }
  }

  /**
   * When the last attempt stored its whole window, every intact message of
   * the window from the first attempt's maximum `floor` is stored: one not
   * above `floor` is the folder's last message, which every window holds;
   * one above a stored uid is stored by the order; any other is in the
   * last window.
   */
  lemma ProgressDone(msgs: seq<MailMessage>, floor: Option<nat>, folder: Folder, d: map<(Uid, Folder), DownloadedRow>,
                     start: set<Uid>)
    requires Progress(msgs, floor, folder, d)
    requires forall u :: u in start ==> (u, folder) in d
    requires forall m :: m in msgs && m.uid in UidsOf(Window(msgs, MaxUidOf(start))) && !m.broken ==> (m.uid, folder) in d
    ensures WindowStored(msgs, floor, folder, d)
  {
    forall m | m in Window(msgs, floor) && !m.broken ensures (m.uid, folder) in d {
      assert m in msgs;
      if floor.Some? && CastInteger(m.uid) <= floor.value {
        WindowSpec(msgs, floor.value);
        WindowHasTop(msgs, MaxUidOf(start), m);
        InUidsOf(Window(msgs, MaxUidOf(start)), m);
      } else if exists v :: v in start && NotAbove(m, v) {
        var v :| v in start && NotAbove(m, v);
        assert (v, folder) in d;
      } else {
        AboveStored(msgs, start, m);
        InUidsOf(Window(msgs, MaxUidOf(start)), m);
      }
    }
  }

  /** The server as the run sees it: the folder list (`None` when login or listing raises) and the folders. */
  datatype Server = Server(folders: Option<seq<Folder>>, boxes: map<Folder, MailFolder>)

  /** A folder the server does not have cannot be selected, so its status raises and it has no messages. */
  function BoxOf(server: Server, folder: Folder): MailFolder {
    if folder in server.boxes then server.boxes[folder] else MailFolder(None, [])
  }

  /** The folders of `folders` that are not denylisted, in order. */
  function Unskipped(folders: seq<Folder>): (r: seq<Folder>)
    ensures forall f :: f in r <==> f in folders && !Skipped(f)
    decreases |folders|
  {
    if folders == [] then []
    else
      var init, last := folders[..|folders| - 1], folders[|folders| - 1];
      assert folders == init + [last];
      Unskipped(init) + (if Skipped(last) then [] else [last])
  }

  /**
   * The state of the folder loop of `main` after the folders `seen`: stored
   * UIDVALIDITY values are kept, rows are only added and only for attempted
   * folders, the attempted folders are exactly those of `seen` that are not
   * denylisted, and the failed folders and messages belong to attempted
   * folders.
   */
  ghost predicate RunSoFar(v0: map<Folder, int>, d0: map<(Uid, Folder), DownloadedRow>,
                           v: map<Folder, int>, d: map<(Uid, Folder), DownloadedRow>,
                           attempted: seq<Folder>, failedFolders: seq<Folder>, failedEmails: seq<(Uid, Folder)>,
                           seen: seq<Folder>) {
    && (forall f :: f in v0 ==> f in v && v[f] == v0[f])
    && Grows(d0, d)
    && (forall k :: k in d && k !in d0 ==> k.1 in attempted)
    && attempted == Unskipped(seen)
    && (forall f :: f in failedFolders ==> f in attempted)
    && (forall e :: e in failedEmails ==> e.1 in attempted)
  }

  /** Syncing a folder that is not denylisted keeps the loop state, with the folder attempted. */
  lemma RunSoFarStep(v0: map<Folder, int>, d0: map<(Uid, Folder), DownloadedRow>, v: map<Folder, int>,
                     d: map<(Uid, Folder), DownloadedRow>, d': map<(Uid, Folder), DownloadedRow>,
                     attempted: seq<Folder>, failedFolders: seq<Folder>, failedFolders': seq<Folder>,
                     failedEmails: seq<(Uid, Folder)>, failedEmails': seq<(Uid, Folder)>,
                     seen: seq<Folder>, folder: Folder, allowed: seq<Uid>)
    requires RunSoFar(v0, d0, v, d, attempted, failedFolders, failedEmails, seen) && !Skipped(folder)
    requires Grows(d, d') && NewKeysFrom(d, d', folder, allowed, {})
    requires failedFolders' == failedFolders || failedFolders' == failedFolders + [folder]
    requires AppendsFor(failedEmails, failedEmails', folder)
    ensures RunSoFar(v0, d0, v, d', attempted + [folder], failedFolders', failedEmails', seen + [folder])
  {
    assert (seen + [folder])[..|seen|] == seen;
    forall e | e in failedEmails' ensures e.1 in attempted + [folder] {
      var j :| 0 <= j < |failedEmails'| && failedEmails'[j] == e;
      if j < |failedEmails| {
        assert e == failedEmails[j];
      }
    }
  }

  /** A denylisted folder is passed over and keeps the loop state. */
  lemma RunSoFarSkip(v0: map<Folder, int>, d0: map<(Uid, Folder), DownloadedRow>, v: map<Folder, int>,
                     d: map<(Uid, Folder), DownloadedRow>, attempted: seq<Folder>, failedFolders: seq<Folder>,
                     failedEmails: seq<(Uid, Folder)>, seen: seq<Folder>, folder: Folder)
    requires RunSoFar(v0, d0, v, d, attempted, failedFolders, failedEmails, seen) && Skipped(folder)
    ensures RunSoFar(v0, d0, v, d, attempted, failedFolders, failedEmails, seen + [folder])
  {
    assert (seen + [folder])[..|seen|] == seen;
  }

  /**
   * Every folder the run attempted and did not fail, when the server lists
   * it in uid order, has stored every intact message of its window from the
   * maximum uid `d0` held for it when the run began.
   */
  ghost predicate FoldersStored(server: Server, d0: map<(Uid, Folder), DownloadedRow>,
                                d: map<(Uid, Folder), DownloadedRow>, attempted: seq<Folder>,
                                failedFolders: seq<Folder>) {
    forall f :: f in attempted && f !in failedFolders && Ascending(BoxOf(server, f).messages) ==>
      WindowStored(BoxOf(server, f).messages, MaxUidOf(StoredUids(d0, f)), f, d)
  }

  /** Stored windows stay stored while the table only grows. */
  lemma WindowStoredGrows(msgs: seq<MailMessage>, floor: Option<nat>, folder: Folder,
                          d: map<(Uid, Folder), DownloadedRow>, d': map<(Uid, Folder), DownloadedRow>)
    requires WindowStored(msgs, floor, folder, d) && Grows(d, d')
    ensures WindowStored(msgs, floor, folder, d')
  {
    forall m | m in Window(msgs, floor) && !m.broken ensures (m.uid, folder) in d' {
      assert (m.uid, folder) in d;
    }
  }

  /** Later writes keep the stored windows of the folders. */
  lemma FoldersStoredGrows(server: Server, d0: map<(Uid, Folder), DownloadedRow>,
                           d: map<(Uid, Folder), DownloadedRow>, d': map<(Uid, Folder), DownloadedRow>,
                           attempted: seq<Folder>, failedFolders: seq<Folder>)
    requires FoldersStored(server, d0, d, attempted, failedFolders) && Grows(d, d')
    ensures FoldersStored(server, d0, d', attempted, failedFolders)
  {
    forall f | f in attempted && f !in failedFolders && Ascending(BoxOf(server, f).messages)
      ensures WindowStored(BoxOf(server, f).messages, MaxUidOf(StoredUids(d0, f)), f, d')
    {
      WindowStoredGrows(BoxOf(server, f).messages, MaxUidOf(StoredUids(d0, f)), f, d, d');
    }
  }

  /**
   * Syncing one more folder keeps the stored windows. A folder attempted for
   * the first time still holds the uids it held when the run began, so its
   * own window is the one from that maximum; a folder seen again keeps the
   * window of its first sync, or is among the failed ones.
   */
  lemma FoldersStoredStep(server: Server, d0: map<(Uid, Folder), DownloadedRow>,
                          d1: map<(Uid, Folder), DownloadedRow>, d2: map<(Uid, Folder), DownloadedRow>,
                          attempted: seq<Folder>, failedFolders: seq<Folder>, folder: Folder, failed: bool)
    requires FoldersStored(server, d0, d1, attempted, failedFolders)
    requires Grows(d0, d1) && forall k :: k in d1 && k !in d0 ==> k.1 in attempted
    requires Grows(d1, d2)
    requires !failed && Ascending(BoxOf(server, folder).messages) ==>
      WindowStored(BoxOf(server, folder).messages, MaxUidOf(StoredUids(d1, folder)), folder, d2)
    ensures FoldersStored(server, d0, d2, attempted + [folder],
                          failedFolders + (if failed then [folder] else []))
  {
    var failed' := failedFolders + (if failed then [folder] else []);
    FoldersStoredGrows(server, d0, d1, d2, attempted, failedFolders);
    forall f | f in attempted + [folder] && f !in failed' && Ascending(BoxOf(server, f).messages)
      ensures WindowStored(BoxOf(server, f).messages, MaxUidOf(StoredUids(d0, f)), f, d2)
    {
      if f !in attempted {
        assert f == folder && !failed;
        assert StoredUids(d1, f) == StoredUids(d0, f);
      } else {
        assert f !in failedFolders;
      }
    }
  }

  /** The folder loop's state, with the windows of the folders synced so far stored. */
  ghost predicate RunLoop(server: Server, v0: map<Folder, int>, d0: map<(Uid, Folder), DownloadedRow>,
                          v: map<Folder, int>, d: map<(Uid, Folder), DownloadedRow>,
                          attempted: seq<Folder>, failedFolders: seq<Folder>, failedEmails: seq<(Uid, Folder)>,
                          seen: seq<Folder>) {
    && RunSoFar(v0, d0, v, d, attempted, failedFolders, failedEmails, seen)
    && FoldersStored(server, d0, d, attempted, failedFolders)
  }

  /** Syncing a folder that is not denylisted keeps the loop state, with the folder attempted. */
  lemma RunLoopStep(server: Server, v0: map<Folder, int>, d0: map<(Uid, Folder), DownloadedRow>, v: map<Folder, int>,
                    d: map<(Uid, Folder), DownloadedRow>, d': map<(Uid, Folder), DownloadedRow>,
                    attempted: seq<Folder>, failedFolders: seq<Folder>, failed: bool,
                    failedEmails: seq<(Uid, Folder)>, failedEmails': seq<(Uid, Folder)>,
                    seen: seq<Folder>, folder: Folder, allowed: seq<Uid>, existing: set<Uid>)
    requires RunLoop(server, v0, d0, v, d, attempted, failedFolders, failedEmails, seen) && !Skipped(folder)
    requires Grows(d, d') && NewKeysFrom(d, d', folder, allowed, {})
    requires AppendsFor(failedEmails, failedEmails', folder)
    requires existing == StoredUids(d, folder)
    requires !failed && Ascending(BoxOf(server, folder).messages) ==>
      WindowStored(BoxOf(server, folder).messages, MaxUidOf(existing), folder, d')
    ensures RunLoop(server, v0, d0, v, d', attempted + [folder], failedFolders + (if failed then [folder] else []),
                    failedEmails', seen + [folder])
  {
    RunSoFarStep(v0, d0, v, d, d', attempted, failedFolders, failedFolders + (if failed then [folder] else []),
                 failedEmails, failedEmails', seen, folder, allowed);
    FoldersStoredStep(server, d0, d, d', attempted, failedFolders, folder, failed);
  }

  /** A denylisted folder is passed over and keeps the loop state. */
  lemma RunLoopSkip(server: Server, v0: map<Folder, int>, d0: map<(Uid, Folder), DownloadedRow>, v: map<Folder, int>,
                    d: map<(Uid, Folder), DownloadedRow>, attempted: seq<Folder>, failedFolders: seq<Folder>,
                    failedEmails: seq<(Uid, Folder)>, seen: seq<Folder>, folder: Folder)
    requires RunLoop(server, v0, d0, v, d, attempted, failedFolders, failedEmails, seen) && Skipped(folder)
    ensures RunLoop(server, v0, d0, v, d, attempted, failedFolders, failedEmails, seen + [folder])
  {
    RunSoFarSkip(v0, d0, v, d, attempted, failedFolders, failedEmails, seen, folder);
  }

  /** How the folder loop of `main` ends. */
  datatype RunEnd =
    | Aborted(at: Option<nat>)                       // an exception reached main.py:648: no retry phase; `at` is
                                                     // the folder whose status raised, `None` when login or listing did
    | Finished(stop: Option<(nat, ValidityOutcome)>) // the loop ran out, or broke at this folder index

  /** `next(mailbox.fetch(AND(uid=uid)))`: the first message of the folder with this uid, if any. */
  function FindMessage(msgs: seq<MailMessage>, uid: Uid): (r: Option<MailMessage>)
    ensures r.Some? ==> r.value in msgs && r.value.uid == uid
    ensures r.None? ==> forall m :: m in msgs ==> m.uid != uid
  {
    if msgs == [] then None
    else if msgs[0].uid == uid then Some(msgs[0])
    else FindMessage(msgs[1..], uid)
  }

  /** Retrying this entry fails whatever the network does: the message is gone or its extraction raises. */
  predicate FailsPersistently(server: Server, e: (Uid, Folder)) {
    var found := FindMessage(BoxOf(server, e.1).messages, e.0);
    found.None? || found.value.broken
  }

  /** Retry number `i` (counting from 0) succeeds unless its connection fails or the entry fails persistently. */
  predicate RetrySucceeds(server: Server, e: (Uid, Folder), i: nat, retryFails: set<nat>) {
    i !in retryFails && !FailsPersistently(server, e)
  }

  /** Every failed retry among the first `n` entries of `q` has its entry again later in `q`. */
  ghost predicate Requeued(server: Server, q: seq<(Uid, Folder)>, n: nat, retryFails: set<nat>)
    requires n <= |q|
  {
    forall i :: 0 <= i < n && !RetrySucceeds(server, q[i], i, retryFails) ==>
      exists j :: i < j < |q| && q[j] == q[i]
  }

  /** If one of the first `n` entries of `q` fails persistently, one at position `n` or later does too. */
  ghost predicate PendingFailure(server: Server, q: seq<(Uid, Folder)>, n: nat)
    requires n <= |q|
  {
    (exists i :: 0 <= i < n && FailsPersistently(server, q[i])) ==>
      exists j :: n <= j < |q| && FailsPersistently(server, q[j])
  }

  lemma RetryStart(server: Server, q: seq<(Uid, Folder)>, retryFails: set<nat>)
    ensures Requeued(server, q, 0, retryFails) && PendingFailure(server, q, 0)
  {
  }

  /** Retry `n` keeps both facts: a failing entry is appended again, so its copy lies ahead of the walk. */
  lemma RetryStep(server: Server, q: seq<(Uid, Folder)>, q': seq<(Uid, Folder)>, n: nat, retryFails: set<nat>)
    requires n < |q|
    requires Requeued(server, q, n, retryFails) && PendingFailure(server, q, n)
    requires if RetrySucceeds(server, q[n], n, retryFails) then q' == q else q' == q + [q[n]]
    ensures Requeued(server, q', n + 1, retryFails) && PendingFailure(server, q', n + 1)
  {
    assert forall i :: 0 <= i < |q| ==> q'[i] == q[i];
    forall i | 0 <= i < n + 1 && !RetrySucceeds(server, q'[i], i, retryFails)
      ensures exists j :: i < j < |q'| && q'[j] == q'[i]
    {
      if i == n {
        assert q'[|q|] == q[n];
      } else {
        var j :| i < j < |q| && q[j] == q[i];
        assert q'[j] == q'[i];
      }
    }
    if exists i :: 0 <= i < n + 1 && FailsPersistently(server, q'[i]) {
      var i :| 0 <= i < n + 1 && FailsPersistently(server, q'[i]);
      if i == n {
        assert FailsPersistently(server, q'[|q|]);
      } else {
        assert FailsPersistently(server, q[i]);
        var j :| n <= j < |q| && FailsPersistently(server, q[j]);
        if j == n {
          assert FailsPersistently(server, q'[|q|]);
        } else {
          assert FailsPersistently(server, q'[j]);
        }
      }
    }
  }

  /**
   * What the retry walk keeps true after visiting `n` entries of the queue
   * `q`, which started as `q0`, while the table went from `d0` to `d`.
   */
  ghost predicate RetryInv(server: Server, retryFails: set<nat>, q0: seq<(Uid, Folder)>,
                           d0: map<(Uid, Folder), DownloadedRow>, q: seq<(Uid, Folder)>,
                           d: map<(Uid, Folder), DownloadedRow>, n: nat)
  {
    && n <= |q| && |q0| <= |q| && q[..|q0|] == q0
    && (forall e :: e in q ==> e in q0)
    && Grows(d0, d)
    && (forall k :: k in d && k !in d0 ==> k in q[..n])
    && (forall i :: 0 <= i < n && RetrySucceeds(server, q[i], i, retryFails) ==> q[i] in d)
    && Requeued(server, q, n, retryFails)
    && PendingFailure(server, q, n)
  }

  /** When the walk stops, the retry phase's state gives what the phase promises. */
  lemma RetryDone(server: Server, retryFails: set<nat>, q0: seq<(Uid, Folder)>, d0: map<(Uid, Folder), DownloadedRow>,
                  q: seq<(Uid, Folder)>, d: map<(Uid, Folder), DownloadedRow>, n: nat, fuel: nat)
    requires RetryInv(server, retryFails, q0, d0, q, d, n) && n <= fuel && (n == |q| || n == fuel)
    ensures n <= |q| && (n < fuel ==> n == |q|)
    ensures |q0| <= |q| && q[..|q0|] == q0
    ensures forall e :: e in q ==> e in q0
    ensures Grows(d0, d)
    ensures forall k :: k in d && k !in d0 ==> k in q[..n]
    ensures forall i :: 0 <= i < n && RetrySucceeds(server, q[i], i, retryFails) ==> q[i] in d
    ensures forall i :: 0 <= i < n && !RetrySucceeds(server, q[i], i, retryFails) ==>
              exists j :: i < j < |q| && q[j] == q[i]
    ensures forall i :: 0 <= i < n && FailsPersistently(server, q[i]) ==> n == fuel
  {
  }

  /** The effect of retry `n` on the queue and the table, as `RetryOne` performs it. */
  ghost predicate RetryEffect(server: Server, retryFails: set<nat>, q: seq<(Uid, Folder)>,
                              d: map<(Uid, Folder), DownloadedRow>, q': seq<(Uid, Folder)>,
                              d': map<(Uid, Folder), DownloadedRow>, n: nat)
    requires n < |q|
  {
    if RetrySucceeds(server, q[n], n, retryFails) then
      q' == q && d' == InsertIfAbsent(d, q[n], RowOf(FindMessage(BoxOf(server, q[n].1).messages, q[n].0).value))
    else
      q' == q + [q[n]] && d' == d
  }

  lemma RetryInvStep(server: Server, retryFails: set<nat>, q0: seq<(Uid, Folder)>,
                     d0: map<(Uid, Folder), DownloadedRow>, q: seq<(Uid, Folder)>,
                     d: map<(Uid, Folder), DownloadedRow>, q': seq<(Uid, Folder)>,
                     d': map<(Uid, Folder), DownloadedRow>, n: nat)
    requires RetryInv(server, retryFails, q0, d0, q, d, n) && n < |q|
    requires RetryEffect(server, retryFails, q, d, q', d', n)
    ensures RetryInv(server, retryFails, q0, d0, q', d', n + 1)
  {
    var succeeds := RetrySucceeds(server, q[n], n, retryFails);
    assert if succeeds then q' == q else q' == q + [q[n]];
    RetryStep(server, q, q', n, retryFails);
    RetryQueueStep(q0, q, q', n);
    RetryRowsStep(server, retryFails, d0, q, d, q', d', n);
  }

  /** A retry pass keeps the queue an extension of the original one, holding only its entries. */
  lemma RetryQueueStep(q0: seq<(Uid, Folder)>, q: seq<(Uid, Folder)>, q': seq<(Uid, Folder)>, n: nat)
    requires n < |q| && |q0| <= |q| && q[..|q0|] == q0 && (forall e :: e in q ==> e in q0)
    requires q' == q || q' == q + [q[n]]
    ensures n + 1 <= |q'| && |q0| <= |q'| && q'[..|q0|] == q0 && (forall e :: e in q' ==> e in q0)
  {
    assert q'[..|q0|] == q[..|q0|];
    assert q[n] in q;
  }

  /** A retry pass only adds the row of the entry it handles, and adds it when it succeeds. */
  lemma RetryRowsStep(server: Server, retryFails: set<nat>, d0: map<(Uid, Folder), DownloadedRow>,
                      q: seq<(Uid, Folder)>, d: map<(Uid, Folder), DownloadedRow>, q': seq<(Uid, Folder)>,
                      d': map<(Uid, Folder), DownloadedRow>, n: nat)
    requires n < |q| && Grows(d0, d)
    requires forall k :: k in d && k !in d0 ==> k in q[..n]
    requires forall i :: 0 <= i < n && RetrySucceeds(server, q[i], i, retryFails) ==> q[i] in d
    requires RetryEffect(server, retryFails, q, d, q', d', n)
    ensures Grows(d0, d')
    ensures forall k :: k in d' && k !in d0 ==> k in q'[..n + 1]
    ensures forall i :: 0 <= i < n + 1 && RetrySucceeds(server, q'[i], i, retryFails) ==> q'[i] in d'
  {
    assert forall i :: 0 <= i < |q| ==> q'[i] == q[i];
    assert q'[..n + 1] == q[..n] + [q[n]];
    if RetrySucceeds(server, q[n], n, retryFails) {
      InsertIfAbsentKeeps(d, q[n], RowOf(FindMessage(BoxOf(server, q[n].1).messages, q[n].0).value));
    }
  }

  /** One item of the metadata file, with the defaults of `item.get` filled in for missing keys. */
  datatype JsonItem = JsonItem(
    uid: Uid, folder: Folder, subject: string, sender: string,
    to: seq<string>, cc: seq<string>, bcc: seq<string>,
    date: string, text: string, html: string,
    attachments: seq<string>, messageId: FieldValue)

  /** The row `backfill_from_json` stores for an item (main.py:450-463). */
  function ItemRow(item: JsonItem): DownloadedRow {
    DownloadedRow(item.subject, item.sender, Join(item.to, ", "), Join(item.cc, ", "), Join(item.bcc, ", "),
                  item.date, item.text, item.html,
                  if item.attachments != [] then Some(item.attachments[0]) else None, AsText(item.messageId))
  }

  /** The table after backfilling `items` in order, each only if its key is absent. */
  function BackfillRows(d: map<(Uid, Folder), DownloadedRow>, items: seq<JsonItem>): map<(Uid, Folder), DownloadedRow>
    decreases |items|
  {
    if items == [] then d
    else BackfillRows(InsertIfAbsent(d, (items[0].uid, items[0].folder), ItemRow(items[0])), items[1..])
  }

  /**
   * Backfilling never changes a stored row and leaves exactly the stored keys
   * plus the keys of the items.
   */
  lemma {:induction false} BackfillRowsSpec(d: map<(Uid, Folder), DownloadedRow>, items: seq<JsonItem>)
    ensures Grows(d, BackfillRows(d, items))
    ensures BackfillRows(d, items).Keys == d.Keys + (set i | i in items :: (i.uid, i.folder))
    decreases |items|
  {
    if items != [] {
      var d1 := InsertIfAbsent(d, (items[0].uid, items[0].folder), ItemRow(items[0]));
      BackfillRowsSpec(d1, items[1..]);
      assert forall i :: i in items <==> i == items[0] || i in items[1..];
    }
  }

  /**
   * The state of a backup run: the database and the global `failed_emails`
   * list of `(uid, folder)` pairs (main.py:16).
   */
  class Backup {
    const db: Database
    var failedEmails: seq<(Uid, Folder)>

    constructor (db: Database)
      ensures this.db == db && failedEmails == []
    {
      this.db := db;
      failedEmails := [];
    }

    /** `log_error` (main.py:143-149): the error is logged and the pair appended. */
    method LogError(uid: Uid, folder: Folder)
      modifies this`failedEmails
      ensures failedEmails == old(failedEmails) + [(uid, folder)]
    {
      failedEmails := failedEmails + [(uid, folder)];
    }

    /**
     * The `try` body for one message (main.py:611-639). The downloaded row is
     * stored first; with no Message-ID the `email` row is still inserted, and
     * then the lookup raises before any participant is linked.
     */
    method StoreMessage(folder: Folder, m: MailMessage) returns (pk: Option<nat>)
      requires db.Valid()
      modifies db, this`failedEmails
      ensures db.Valid()
      ensures db.uidValidity == old(db.uidValidity)
      ensures db.downloaded == if m.broken then old(db.downloaded)
                               else InsertIfAbsent(old(db.downloaded), (m.uid, folder), RowOf(m))
      ensures db.emails == if m.broken then old(db.emails)
                           else old(db.emails)[old(db.nextEmailPk) := EmailOf(m, folder)]
      ensures failedEmails == old(failedEmails) + (if FailsInPass(m) then [(m.uid, folder)] else [])
      ensures pk.Some? <==> !FailsInPass(m)
      ensures pk.None? ==> db.addresses == old(db.addresses) && db.participants == old(db.participants)
      ensures pk.Some? ==> pk.value in db.emails && db.emails[pk.value].uid == m.uid && db.emails[pk.value].folder == folder
      ensures pk.Some? ==> (db.addresses, db.participants) == LinkParticipants(
        old(db.addresses), old(db.participants), pk.value, [m.sender],
        ParseRecipientsCorrected(RTuple(m.to)), ParseRecipientsCorrected(RTuple(m.cc)),
        ParseRecipientsCorrected(RTuple(m.bcc)))
    {
      if m.broken {
        LogError(m.uid, folder);
        return None;
      }
      pk := StoreIntact(folder, m);
    }

    /** The `try` body for a message whose extraction succeeds. */
    method StoreIntact(folder: Folder, m: MailMessage) returns (pk: Option<nat>)
      requires db.Valid() && !m.broken
      modifies db, this`failedEmails
      ensures db.Valid()
      ensures db.uidValidity == old(db.uidValidity)
      ensures db.downloaded == InsertIfAbsent(old(db.downloaded), (m.uid, folder), RowOf(m))
      ensures db.emails == old(db.emails)[old(db.nextEmailPk) := EmailOf(m, folder)]
      ensures failedEmails == old(failedEmails) + (if FailsInPass(m) then [(m.uid, folder)] else [])
      ensures pk.Some? <==> !FailsInPass(m)
      ensures pk.None? ==> db.addresses == old(db.addresses) && db.participants == old(db.participants)
      ensures pk.Some? ==> pk.value in db.emails && db.emails[pk.value].uid == m.uid && db.emails[pk.value].folder == folder
      ensures pk.Some? ==> (db.addresses, db.participants) == LinkParticipants(
        old(db.addresses), old(db.participants), pk.value, [m.sender],
        ParseRecipientsCorrected(RTuple(m.to)), ParseRecipientsCorrected(RTuple(m.cc)),
        ParseRecipientsCorrected(RTuple(m.bcc)))
    {
      pk := RecordMessage(folder, m);
      if pk.None? {
        LogError(m.uid, folder);
        return;
      }
      db.LinkMessage(pk.value, [m.sender], ParseRecipientsCorrected(RTuple(m.to)),
                     ParseRecipientsCorrected(RTuple(m.cc)), ParseRecipientsCorrected(RTuple(m.bcc)));
    }

    /** The two inserts for a message: `mark_email_downloaded`, then `get_or_create_email`. */
    method RecordMessage(folder: Folder, m: MailMessage) returns (pk: Option<nat>)
      requires db.Valid()
      modifies db`downloaded, db`emails, db`nextEmailPk
      ensures db.Valid()
      ensures db.downloaded == InsertIfAbsent(old(db.downloaded), (m.uid, folder), RowOf(m))
      ensures db.emails == old(db.emails)[old(db.nextEmailPk) := EmailOf(m, folder)]
      ensures pk.None? <==> FindMessageId(m.headers).None?
      ensures pk.Some? ==> pk.value in db.emails && db.emails[pk.value].uid == m.uid && db.emails[pk.value].folder == folder
    {
      var messageId := FieldOf(FindMessageId(m.headers));
      var attachment := FieldOf(m.attachment);
      db.MarkEmailDownloaded(m.uid, folder, m.subject, m.sender, Join(m.to, ", "), Join(m.cc, ", "),
                             Join(m.bcc, ", "), m.date, m.text, m.html, attachment, messageId);
      pk := db.GetOrCreateEmail(m.uid, folder, m.subject, m.date, m.text, m.html, attachment, messageId);
    }

    /** One message of a fetched batch: passed over when its uid was stored at the start of the attempt. */
    method StorePending(folder: Folder, m: MailMessage, existing: set<Uid>)
      requires db.Valid()
      modifies db, this`failedEmails
      ensures db.Valid()
      ensures db.uidValidity == old(db.uidValidity)
      ensures Grows(old(db.downloaded), db.downloaded)
      ensures forall k :: k in db.downloaded && k !in old(db.downloaded) ==> k == (m.uid, folder) && m.uid !in existing
      ensures Grows(old(db.emails), db.emails) && NewEmailsFrom(old(db.emails), db.emails, folder, existing)
      ensures m.uid !in existing && !m.broken ==> (m.uid, folder) in db.downloaded
      ensures failedEmails == old(failedEmails) + FailedEntry(m, existing, folder)
    {
      if m.uid !in existing {
        var _ := StoreMessage(folder, m);
      }
    }

    /**
     * The inner loop over one fetched batch (main.py:607-639): messages whose
     * uid was already stored at the start of the attempt are passed over, and
     * a failing message is recorded while its siblings are still processed.
     */
    method StoreBatch(folder: Folder, msgs: seq<MailMessage>, existing: set<Uid>)
      requires db.Valid()
      modifies db, this`failedEmails
      ensures db.Valid()
      ensures db.uidValidity == old(db.uidValidity)
      ensures Grows(old(db.downloaded), db.downloaded)
      ensures NewKeysFrom(old(db.downloaded), db.downloaded, folder, UidsOf(msgs), existing)
      ensures NewEmailsFrom(old(db.emails), db.emails, folder, existing)
      ensures Grows(old(db.emails), db.emails)
      ensures forall m :: m in msgs && m.uid !in existing && !m.broken ==> (m.uid, folder) in db.downloaded
      ensures AppendsFor(old(failedEmails), failedEmails, folder)
      ensures failedEmails == old(failedEmails) + FailedOf(msgs, existing, folder)
    {
      var i := 0;
      assert msgs[..0] == [];
      while i < |msgs|
        invariant 0 <= i <= |msgs|
        invariant db.Valid()
        invariant db.uidValidity == old(db.uidValidity)
        invariant BatchSoFar(old(db.downloaded), db.downloaded, old(db.emails), db.emails, old(failedEmails),
                             failedEmails, folder, msgs, existing, i)
      {
        ghost var d1, e1, f1 := db.downloaded, db.emails, failedEmails;
        StorePending(folder, msgs[i], existing);
        BatchSoFarStep(old(db.downloaded), d1, db.downloaded, old(db.emails), e1, db.emails, old(failedEmails), f1,
                       failedEmails, folder, msgs, existing, i);
        i := i + 1;
      }
      BatchSoFarDone(old(db.downloaded), db.downloaded, old(db.emails), db.emails, old(failedEmails),
                     failedEmails, folder, msgs, existing);
    }

    /**
     * One attempt at a folder (main.py:581-640): the window is listed from the
     * stored maximum, the stored uids are read once, and the batches of ten
     * are processed in order, skipping a batch whose uids are all stored. The
     * attempt raises only through a failing listing or batch fetch; a failing
     * message never makes it raise. When it does not raise, every listed
     * message that was not stored and does not break is stored afterwards.
     */
    method Attempt(folder: Folder, box: MailFolder, outage: Option<Outage>) returns (raised: bool)
      requires db.Valid()
      modifies db, this`failedEmails
      ensures db.Valid()
      ensures raised == AttemptRaises(outage, AttemptBatches(box.messages, MaxUidOf(old(db.ExistingUids(folder)))),
                                      old(db.ExistingUids(folder)))
      ensures db.uidValidity == old(db.uidValidity)
      ensures Grows(old(db.downloaded), db.downloaded)
      ensures NewKeysFrom(old(db.downloaded), db.downloaded, folder,
                          UidsOf(Window(box.messages, MaxUidOf(old(db.ExistingUids(folder))))), old(db.ExistingUids(folder)))
      ensures NewEmailsFrom(old(db.emails), db.emails, folder, old(db.ExistingUids(folder)))
      ensures Grows(old(db.emails), db.emails)
      ensures !raised ==>
        forall m :: (m in box.messages && m.uid in UidsOf(Window(box.messages, MaxUidOf(old(db.ExistingUids(folder))))) && !m.broken)
          ==> (m.uid, folder) in db.downloaded
      ensures NewKeysFrom(old(db.downloaded), db.downloaded, folder,
                          Handled(box.messages, outage, old(db.ExistingUids(folder))), old(db.ExistingUids(folder)))
      ensures forall m ::
                m in box.messages && m.uid in Handled(box.messages, outage, old(db.ExistingUids(folder))) && !m.broken
                ==> (m.uid, folder) in db.downloaded
      ensures AppendsFor(old(failedEmails), failedEmails, folder)
      ensures failedEmails == old(failedEmails) + AttemptFailed(box.messages, outage, old(db.ExistingUids(folder)), folder)
    {
      var maxUid := db.GetMaxUid(folder);
      if outage == Some(ListingFails) {
        assert failedEmails + [] == failedEmails;
        return true;
      }
      var listed := UidsOf(Window(box.messages, maxUid));
      var existing := db.ExistingUids(folder);
      var failing := if outage.Some? then Some(outage.value.batch) else None;
      raised := StoreBatches(folder, box.messages, listed, existing, failing);
      forall m | m in box.messages && m.uid in listed && !m.broken && m.uid in existing
        ensures (m.uid, folder) in db.downloaded
      {
        assert (m.uid, folder) in old(db.downloaded);
      }
    }

    /** Fetching and storing batch `k` of the listed uids. */
    method StoreListedBatch(folder: Folder, msgs: seq<MailMessage>, listed: seq<Uid>, existing: set<Uid>, k: nat)
      requires db.Valid() && k < |SplitIntoBatches(listed, 10)|
      modifies db, this`failedEmails
      ensures db.Valid()
      ensures db.uidValidity == old(db.uidValidity)
      ensures Grows(old(db.downloaded), db.downloaded)
      ensures NewKeysFrom(old(db.downloaded), db.downloaded, folder, listed[..Reach(|listed|, k + 1)], existing)
      ensures NewEmailsFrom(old(db.emails), db.emails, folder, existing)
      ensures Grows(old(db.emails), db.emails)
      ensures Covered(db.downloaded, folder, SplitIntoBatches(listed, 10)[k], msgs, existing)
      ensures failedEmails == old(failedEmails) + FailedIn(msgs, SplitIntoBatches(listed, 10)[k], existing, folder)
    {
      var fetched := FetchUids(msgs, SplitIntoBatches(listed, 10)[k]);
      StoreBatch(folder, fetched, existing);
      FailedInFetch(msgs, SplitIntoBatches(listed, 10)[k], existing, folder);
      BatchStep(old(db.downloaded), db.downloaded, folder, listed, existing, msgs, k);
    }

    /** One pass of the batch loop that stores batch `k`: what earlier passes stored stays covered. */
    method StoreNextBatch(folder: Folder, msgs: seq<MailMessage>, listed: seq<Uid>, existing: set<Uid>, k: nat,
                          ghost d0: map<(Uid, Folder), DownloadedRow>, ghost e0: map<nat, EmailRow>,
                          ghost f0: seq<(Uid, Folder)>)
      requires db.Valid() && k < |SplitIntoBatches(listed, 10)| && !AllStored(SplitIntoBatches(listed, 10)[k], existing)
      requires BatchesStored(d0, db.downloaded, e0, db.emails, f0, failedEmails, folder, msgs, listed, existing, k)
      modifies db, this`failedEmails
      ensures db.Valid()
      ensures db.uidValidity == old(db.uidValidity)
      ensures BatchesStored(d0, db.downloaded, e0, db.emails, f0, failedEmails, folder, msgs, listed, existing, k + 1)
    {
      ghost var d1, e1, f1 := db.downloaded, db.emails, failedEmails;
      StoreListedBatch(folder, msgs, listed, existing, k);
      BatchesStoredStep(d0, d1, db.downloaded, e0, e1, db.emails, f0, f1, failedEmails, folder, msgs, listed,
                        existing, k);
    }

    /**
     * The loop over the batches of ten of the listed uids (main.py:600-640).
     * `failing` is the index of the batch whose fetch raises, if any. A
     * batch whose uids are all stored is skipped without a fetch, so the loop
     * stops at the failing batch only when that batch is fetched; every batch
     * before it is skipped or stored.
     */
    method StoreBatches(folder: Folder, msgs: seq<MailMessage>, listed: seq<Uid>, existing: set<Uid>,
                        failing: Option<nat>) returns (raised: bool)
      requires db.Valid()
      modifies db, this`failedEmails
      ensures db.Valid()
      ensures raised == (failing.Some? && failing.value < |SplitIntoBatches(listed, 10)|
                         && !AllStored(SplitIntoBatches(listed, 10)[failing.value], existing))
      ensures db.uidValidity == old(db.uidValidity)
      ensures Grows(old(db.downloaded), db.downloaded)
      ensures NewKeysFrom(old(db.downloaded), db.downloaded, folder, listed, existing)
      ensures NewEmailsFrom(old(db.emails), db.emails, folder, existing)
      ensures Grows(old(db.emails), db.emails)
      ensures !raised ==>
        forall m :: (m in msgs && m.uid in listed && m.uid !in existing && !m.broken) ==> (m.uid, folder) in db.downloaded
      ensures NewKeysFrom(old(db.downloaded), db.downloaded, folder,
                          listed[..Reach(|listed|, if raised then failing.value else |SplitIntoBatches(listed, 10)|)], existing)
      ensures forall m ::
                m in msgs && m.uid !in existing && !m.broken
                && m.uid in listed[..Reach(|listed|, if raised then failing.value else |SplitIntoBatches(listed, 10)|)]
                ==> (m.uid, folder) in db.downloaded
      ensures AppendsFor(old(failedEmails), failedEmails, folder)
      ensures failedEmails == old(failedEmails) + BatchesFailed(msgs, SplitIntoBatches(listed, 10), existing, folder,
                                                                if raised then failing.value else |SplitIntoBatches(listed, 10)|)
    {
      var batches := SplitIntoBatches(listed, 10);
      raised := failing.Some? && failing.value < |batches| && !AllStored(batches[failing.value], existing);
      var stop := if raised then failing.value else |batches|;
      var k := 0;
      while k < stop
        invariant 0 <= k <= stop
        invariant db.Valid()
        invariant db.uidValidity == old(db.uidValidity)
        invariant BatchesStored(old(db.downloaded), db.downloaded, old(db.emails), db.emails,
                                old(failedEmails), failedEmails, folder, msgs, listed, existing, k)
      {
        if AllStored(batches[k], existing) {
          BatchesStoredSkip(old(db.downloaded), db.downloaded, old(db.emails), db.emails, old(failedEmails),
                            failedEmails, folder, msgs, listed, existing, k);
        } else {
          StoreNextBatch(folder, msgs, listed, existing, k, old(db.downloaded), old(db.emails), old(failedEmails));
        }
        k := k + 1;
      }
      BatchesStoredAppends(old(failedEmails), failedEmails, folder, msgs, batches, existing, k);
      BatchesStoredReach(old(db.downloaded), db.downloaded, old(db.emails), db.emails, old(failedEmails),
                         failedEmails, folder, msgs, listed, existing, k);
      BatchesStoredListed(old(db.downloaded), db.downloaded, old(db.emails), db.emails, old(failedEmails),
                          failedEmails, folder, msgs, listed, existing, k);
      if !raised {
        BatchesStoredCovers(old(db.downloaded), db.downloaded, old(db.emails), db.emails, old(failedEmails),
                            failedEmails, folder, msgs, listed, existing);
      }
    }

    /**
     * `ensure_folder_and_uidvalidity` (main.py:528-547): search the status for
     * the first UIDVALIDITY entry, then record a baseline, confirm the stored
     * value, or report the failure without writing.
     */
    method EnsureFolderAndUidValidity(folder: Folder, box: MailFolder) returns (o: ValidityOutcome)
      modifies db`uidValidity
      ensures o == CheckUidValidity(old(db.GetUidValidity(folder)), box.status)
      ensures db.uidValidity == if o.Baseline? then old(db.uidValidity)[folder := o.current] else old(db.uidValidity)
    {
      if box.status.None? {
        return StatusFails;
      }
      var status := box.status.value;
      var i := 0;
      while i < |status| && Upper(status[i].0) != "UIDVALIDITY"
        invariant 0 <= i <= |status|
        invariant FindUidValidity(status[i..]) == FindUidValidity(status)
      {
        assert status[i..][1..] == status[i + 1..];
        i := i + 1;
      }
      if i == |status| {
        return NoUidValidity;
      }
      var current := status[i].1;
      var stored := db.GetUidValidity(folder);
      if stored.Some? && stored.value != current {
        o := Mismatch(stored.value, current);
      } else if stored.None? {
        db.SetUidValidity(folder, current);
        o := Baseline(current);
      } else {
        o := Confirmed;
      }
    }

    /**
     * One attempt of the retry loop (main.py:574-640): the uids stored when it
     * begins are `start`, and the attempt keeps the loop's state.
     */
    method AttemptNext(folder: Folder, box: MailFolder, outages: map<(Folder, nat), Outage>, attempt: nat,
                       ghost d0: map<(Uid, Folder), DownloadedRow>, ghost e0: map<nat, EmailRow>,
                       ghost f0: seq<(Uid, Folder)>, ghost existing0: set<Uid>, ghost trace: seq<bool>,
                       ghost starts: seq<set<Uid>>)
      returns (raised: bool, ghost start: set<Uid>)
      requires db.Valid() && attempt == |trace| + 1
      requires RetryLoop(d0, db.downloaded, e0, db.emails, f0, failedEmails, existing0, folder, box.messages, outages,
                         trace, starts)
      requires |starts| == 0 ==> existing0 == db.ExistingUids(folder)
      modifies db, this`failedEmails
      ensures db.Valid()
      ensures db.uidValidity == old(db.uidValidity)
      ensures RetryLoop(d0, db.downloaded, e0, db.emails, f0, failedEmails, existing0, folder, box.messages, outages,
                        trace + [raised], starts + [start])
      ensures !raised ==>
        forall m :: m in box.messages && m.uid in UidsOf(Window(box.messages, MaxUidOf(start))) && !m.broken
          ==> (m.uid, folder) in db.downloaded
    {
      var outage := OutageAt(outages, folder, attempt);
      start := db.ExistingUids(folder);
      ghost var d1, e1, f1 := db.downloaded, db.emails, failedEmails;
      raised := Attempt(folder, box, outage);
      SyncSoFarStep(d0, d1, db.downloaded, e0, e1, db.emails, f0, f1, failedEmails, existing0, folder, box.messages,
                    outages, trace, starts, start, raised);
      if Ascending(box.messages) {
        ProgressStep(box.messages, MaxUidOf(existing0), folder, d1, db.downloaded, start, outage);
      }
    }

    /**
     * The retry loop of one folder (main.py:572-647): at most three attempts,
     * stopping at the first that does not raise. `trace` records whether each
     * attempt raised and `starts` the uids stored when it began; the folder
     * fails exactly when all three raised.
     */
    method SyncFolder(folder: Folder, box: MailFolder, outages: map<(Folder, nat), Outage>)
      returns (trace: seq<bool>, failed: bool, ghost starts: seq<set<Uid>>)
      requires db.Valid()
      modifies db, this`failedEmails
      ensures RetryShape(trace)
      ensures failed <==> |trace| == 3 && trace[2]
      ensures AttemptsFrom(box.messages, outages, folder, old(db.ExistingUids(folder)), trace, starts)
      ensures forall i :: 0 <= i < |trace| && trace[i] ==> (folder, i + 1) in outages
      ensures !failed ==>
        forall m :: m in box.messages && m.uid in UidsOf(Window(box.messages, MaxUidOf(starts[|starts| - 1])))
                    && !m.broken
          ==> (m.uid, folder) in db.downloaded
      ensures forall i, u :: 0 <= i < |starts| && u in starts[i] ==> (u, folder) in db.downloaded
      ensures !failed && Ascending(box.messages) ==>
        WindowStored(box.messages, MaxUidOf(old(db.ExistingUids(folder))), folder, db.downloaded)
      ensures db.Valid()
      ensures db.uidValidity == old(db.uidValidity)
      ensures Grows(old(db.downloaded), db.downloaded)
      ensures NewKeysFrom(old(db.downloaded), db.downloaded, folder, UidsOf(box.messages), {})
      ensures Grows(old(db.emails), db.emails)
      ensures NewEmailsFrom(old(db.emails), db.emails, folder, old(db.ExistingUids(folder)))
      ensures AppendsFor(old(failedEmails), failedEmails, folder)
    {
      ghost var d0, e0, f0, existing0 := db.downloaded, db.emails, failedEmails, db.ExistingUids(folder);
      RetryLoopStart(d0, e0, f0, existing0, folder, box.messages, outages);
      var attempt := 0;
      trace, failed, starts := [], false, [];
      while attempt < 3
        invariant 0 <= attempt <= 3 && |trace| == attempt
        invariant forall i :: 0 <= i < attempt ==> trace[i]
        invariant failed <==> attempt == 3
        invariant db.Valid()
        invariant db.uidValidity == old(db.uidValidity)
        invariant attempt == 0 ==> existing0 == db.ExistingUids(folder)
        invariant RetryLoop(d0, db.downloaded, e0, db.emails, f0, failedEmails, existing0, folder, box.messages,
                            outages, trace, starts)
      {
        attempt := attempt + 1;
        var raised;
        ghost var start;
        raised, start := AttemptNext(folder, box, outages, attempt, d0, e0, f0, existing0, trace, starts);
        trace, starts := trace + [raised], starts + [start];
        if !raised {
          break;
        }
        if attempt == 3 {
          failed := true;
        }
      }
      SyncFolderDone(d0, db.downloaded, e0, db.emails, f0, failedEmails, existing0, folder, box.messages, outages,
                     trace, starts, failed);
    }

    /** One retry (main.py:656-670): entry `k` is fetched again and stored, or appended again on failure. */
    method RetryOne(server: Server, retryFails: set<nat>, k: nat)
      requires db.Valid() && k < |failedEmails|
      modifies db`downloaded, this`failedEmails
      ensures db.Valid()
      ensures RetryEffect(server, retryFails, old(failedEmails), old(db.downloaded), failedEmails, db.downloaded, k)
    {
      var entry := failedEmails[k];
      var found := FindMessage(BoxOf(server, entry.1).messages, entry.0);
      if k in retryFails || found.None? || found.value.broken {
        LogError(entry.0, entry.1);
      } else {
        var m := found.value;
        db.MarkEmailDownloaded(entry.0, entry.1, m.subject, m.sender, Join(m.to, ", "), Join(m.cc, ", "),
                               Join(m.bcc, ", "), m.date, m.text, m.html, FieldOf(m.attachment),
                               FieldOf(FindMessageId(m.headers)));
      }
    }

    /**
     * The retry phase (main.py:652-673): `failed_emails` is walked by
     * position while a failing retry appends its entry again, so the walk
     * ends only when it catches up with the list. `fuel` bounds the number of
     * entries visited; `retryFails` holds the positions whose connection
     * raises. A successful retry stores the downloaded row only; no `email`
     * row and no participant is created.
     */
    method RetryFailed(server: Server, retryFails: set<nat>, fuel: nat) returns (processed: nat)
      requires db.Valid()
      modifies db`downloaded, this`failedEmails
      ensures db.Valid()
      ensures processed <= fuel && processed <= |failedEmails|
      ensures processed < fuel ==> processed == |failedEmails|
      ensures |old(failedEmails)| <= |failedEmails| && failedEmails[..|old(failedEmails)|] == old(failedEmails)
      ensures forall e :: e in failedEmails ==> e in old(failedEmails)
      ensures Grows(old(db.downloaded), db.downloaded)
      ensures forall k :: k in db.downloaded && k !in old(db.downloaded) ==> k in failedEmails[..processed]
      ensures forall i :: 0 <= i < processed && RetrySucceeds(server, failedEmails[i], i, retryFails) ==>
                failedEmails[i] in db.downloaded
      ensures forall i :: 0 <= i < processed && !RetrySucceeds(server, failedEmails[i], i, retryFails) ==>
                exists j :: i < j < |failedEmails| && failedEmails[j] == failedEmails[i]
      ensures forall i :: 0 <= i < processed && FailsPersistently(server, failedEmails[i]) ==> processed == fuel
    {
      RetryStart(server, failedEmails, retryFails);
      processed := 0;
      while processed < |failedEmails| && processed < fuel
        invariant processed <= fuel
        invariant db.Valid()
        invariant RetryInv(server, retryFails, old(failedEmails), old(db.downloaded), failedEmails, db.downloaded, processed)
      {
        ghost var q, d := failedEmails, db.downloaded;
        RetryOne(server, retryFails, processed);
        RetryInvStep(server, retryFails, old(failedEmails), old(db.downloaded), q, d, failedEmails, db.downloaded, processed);
        processed := processed + 1;
      }
      RetryDone(server, retryFails, old(failedEmails), old(db.downloaded), failedEmails, db.downloaded, processed, fuel);
    }

    /**
     * `backfill_from_json` (main.py:437-467): each item of the metadata file
     * is stored unless its key already is, and `inserted` counts the items
     * that were stored. `None` stands for a missing metadata file.
     */
    method BackfillFromJson(items: Option<seq<JsonItem>>) returns (inserted: nat)
      requires db.Valid()
      modifies db`downloaded
      ensures db.Valid()
      ensures items.None? ==> db.downloaded == old(db.downloaded) && inserted == 0
      ensures items.Some? ==> db.downloaded == BackfillRows(old(db.downloaded), items.value)
      ensures |db.downloaded| == |old(db.downloaded)| + inserted
    {
      inserted := 0;
      if items.None? {
        return;
      }
      var data := items.value;
      var i := 0;
      while i < |data|
        invariant 0 <= i <= |data|
        invariant db.Valid()
        invariant BackfillRows(db.downloaded, data[i..]) == BackfillRows(old(db.downloaded), data)
        invariant |db.downloaded| == |old(db.downloaded)| + inserted
      {
        var item := data[i];
        assert data[i..][1..] == data[i + 1..];
        InsertIfAbsentSize(db.downloaded, (item.uid, item.folder), ItemRow(item));
        if !db.IsEmailDownloaded(item.uid, item.folder) {
          var attachment := if item.attachments != [] then FStr(item.attachments[0]) else FNone;
          db.MarkEmailDownloaded(item.uid, item.folder, item.subject, item.sender, Join(item.to, ", "),
                                 Join(item.cc, ", "), Join(item.bcc, ", "), item.date, item.text, item.html,
                                 attachment, item.messageId);
          inserted := inserted + 1;
        }
        i := i + 1;
      }
    }

    /**
     * `main` (main.py:550-683) after the start-up steps: log in and list the
     * folders, then for each folder in order skip it if it is denylisted,
     * check its UIDVALIDITY (a `RuntimeError` stops the loop; any other
     * exception ends the run before the retry phase), and sync it; finally
     * retry the failed messages.
     */
    method Run(server: Server, outages: map<(Folder, nat), Outage>, retryFails: set<nat>, fuel: nat)
      returns (end: RunEnd, attempted: seq<Folder>, failedFolders: seq<Folder>, retried: nat)
      requires db.Valid() && failedEmails == []
      modifies db, this`failedEmails
      ensures db.Valid()
      ensures server.folders.None? ==>
        end == Aborted(None) && db.downloaded == old(db.downloaded) && db.uidValidity == old(db.uidValidity)
        && failedEmails == []
      ensures forall f :: f in old(db.uidValidity) ==> f in db.uidValidity && db.uidValidity[f] == old(db.uidValidity)[f]
      ensures Grows(old(db.downloaded), db.downloaded)
      ensures forall k :: k in db.downloaded && k !in old(db.downloaded) ==> k.1 in attempted
      ensures forall f :: f in attempted ==> !Skipped(f) && server.folders.Some? && f in server.folders.value
      ensures forall f :: f in failedFolders ==> f in attempted
      ensures forall e :: e in failedEmails ==> e.1 in attempted
      ensures end == Finished(None) ==> server.folders.Some? && attempted == Unskipped(server.folders.value)
      ensures end.Finished? && end.stop.Some? ==>
        var (i, o) := end.stop.value;
        && server.folders.Some? && i < |server.folders.value| && !Skipped(server.folders.value[i])
        && attempted == Unskipped(server.folders.value[..i]) && StopsRun(o)
        && o == CheckUidValidity(db.GetUidValidity(server.folders.value[i]), BoxOf(server, server.folders.value[i]).status)
      ensures end.Aborted? && end.at.Some? ==>
        var i := end.at.value;
        && server.folders.Some? && i < |server.folders.value| && !Skipped(server.folders.value[i])
        && attempted == Unskipped(server.folders.value[..i])
        && CheckUidValidity(db.GetUidValidity(server.folders.value[i]), BoxOf(server, server.folders.value[i]).status).StatusFails?
      ensures FoldersStored(server, old(db.downloaded), db.downloaded, attempted, failedFolders)
      ensures end.Aborted? ==> retried == 0
      ensures end.Finished? ==> retried <= fuel && (retried < fuel ==> retried == |failedEmails|)
    {
      attempted, failedFolders, retried := [], [], 0;
      if server.folders.None? {
        return Aborted(None), attempted, failedFolders, retried;
      }
      var folders := server.folders.value;
      end := Finished(None);
      var i := 0;
      while i < |folders|
        invariant 0 <= i <= |folders|
        invariant end == Finished(None)
        invariant db.Valid()
        invariant RunLoop(server, old(db.uidValidity), old(db.downloaded), db.uidValidity, db.downloaded,
                          attempted, failedFolders, failedEmails, folders[..i])
      {
        var halt, trace;
        ghost var starts;
        halt, trace, attempted, failedFolders, starts :=
          VisitFolder(server, folders[i], outages, old(db.uidValidity), old(db.downloaded), folders[..i],
                      attempted, failedFolders);
        if halt.Some? {
          if halt.value.StatusFails? {
            return Aborted(Some(i)), attempted, failedFolders, 0;
          }
          end := Finished(Some((i, halt.value)));
          break;
        }
        assert folders[..i + 1] == folders[..i] + [folders[i]];
        i := i + 1;
      }
      assert i == |folders| ==> folders[..i] == folders;
      ghost var d1 := db.downloaded;
      retried := RetryFailed(server, retryFails, fuel);
      FoldersStoredGrows(server, old(db.downloaded), d1, db.downloaded, attempted, failedFolders);
    }

    /**
     * One pass of the folder loop (main.py:566-647): a denylisted folder is
     * skipped; otherwise the UIDVALIDITY check either halts the loop (`halt`
     * holds its outcome) or the folder is synced and joins `attempted`, and
     * `failedFolders` when all three attempts raised. `trace` and `starts`
     * are those of SyncFolder.
     */
    method VisitFolder(server: Server, folder: Folder, outages: map<(Folder, nat), Outage>,
                       ghost v0: map<Folder, int>, ghost d0: map<(Uid, Folder), DownloadedRow>, ghost seen: seq<Folder>,
                       attempted: seq<Folder>, failedFolders: seq<Folder>)
      returns (halt: Option<ValidityOutcome>, trace: seq<bool>, attempted': seq<Folder>, failedFolders': seq<Folder>,
               ghost starts: seq<set<Uid>>)
      requires db.Valid()
      requires RunLoop(server, v0, d0, db.uidValidity, db.downloaded, attempted, failedFolders, failedEmails, seen)
      modifies db, this`failedEmails
      ensures db.Valid()
      ensures Skipped(folder) || halt.Some? ==>
        && trace == [] && attempted' == attempted && failedFolders' == failedFolders
        && db.uidValidity == old(db.uidValidity) && db.downloaded == old(db.downloaded) && failedEmails == old(failedEmails)
      ensures Skipped(folder) ==> halt.None?
      ensures !Skipped(folder) ==>
        var o := CheckUidValidity(old(db.GetUidValidity(folder)), BoxOf(server, folder).status);
        && (halt.Some? <==> o.StatusFails? || StopsRun(o))
        && (halt.Some? ==> halt.value == o)
      ensures halt.None? && !Skipped(folder) ==>
        && attempted' == attempted + [folder]
        && RetryShape(trace)
        && AttemptsFrom(BoxOf(server, folder).messages, outages, folder, old(db.ExistingUids(folder)), trace, starts)
        && failedFolders' == failedFolders + (if |trace| == 3 && trace[2] then [folder] else [])
      ensures halt.Some? ==>
        RunLoop(server, v0, d0, db.uidValidity, db.downloaded, attempted', failedFolders', failedEmails, seen)
      ensures halt.None? ==>
        RunLoop(server, v0, d0, db.uidValidity, db.downloaded, attempted', failedFolders', failedEmails, seen + [folder])
    {
      halt, trace, attempted', failedFolders', starts := None, [], attempted, failedFolders, [];
      if Skipped(folder) {
        RunLoopSkip(server, v0, d0, db.uidValidity, db.downloaded, attempted, failedFolders, failedEmails, seen, folder);
        return;
      }
      var box := BoxOf(server, folder);
      var o := EnsureFolderAndUidValidity(folder, box);
      if o.StatusFails? || StopsRun(o) {
        halt := Some(o);
        return;
      }
      assert o.Baseline? ==> folder !in old(db.uidValidity);
      assert db.ExistingUids(folder) == old(db.ExistingUids(folder));
      attempted' := attempted + [folder];
      trace, failedFolders', starts := SyncAndRecord(server, folder, outages, v0, d0, seen, attempted, failedFolders);
    }

    /**
     * A folder that passed its UIDVALIDITY check is synced (main.py:572-647)
     * and joins `attempted`, and `failedFolders` when all three attempts
     * raised (main.py:645-647).
     */
    method SyncAndRecord(server: Server, folder: Folder, outages: map<(Folder, nat), Outage>,
                         ghost v0: map<Folder, int>, ghost d0: map<(Uid, Folder), DownloadedRow>, ghost seen: seq<Folder>,
                         attempted: seq<Folder>, failedFolders: seq<Folder>)
      returns (trace: seq<bool>, failedFolders': seq<Folder>, ghost starts: seq<set<Uid>>)
      requires db.Valid() && !Skipped(folder)
      requires RunLoop(server, v0, d0, db.uidValidity, db.downloaded, attempted, failedFolders, failedEmails, seen)
      modifies db, this`failedEmails
      ensures db.Valid()
      ensures db.uidValidity == old(db.uidValidity)
      ensures RetryShape(trace)
      ensures AttemptsFrom(BoxOf(server, folder).messages, outages, folder, old(db.ExistingUids(folder)), trace, starts)
      ensures failedFolders' == failedFolders + (if |trace| == 3 && trace[2] then [folder] else [])
      ensures RunLoop(server, v0, d0, db.uidValidity, db.downloaded, attempted + [folder], failedFolders', failedEmails,
                      seen + [folder])
    {
      var box := BoxOf(server, folder);
      ghost var d1, f1, existing := db.downloaded, failedEmails, db.ExistingUids(folder);
      var failed;
      trace, failed, starts := SyncFolder(folder, box, outages);
      failedFolders' := failedFolders;
      if failed {
        failedFolders' := failedFolders + [folder];
      }
      RunLoopStep(server, v0, d0, db.uidValidity, d1, db.downloaded, attempted, failedFolders, failed,
                  f1, failedEmails, seen, folder, UidsOf(box.messages), existing);
    }
  }
}
