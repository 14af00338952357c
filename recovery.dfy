/**
 * The one-off recovery of INBOX messages that a backup run logged as missing
 * (recover_missing_inbox_mails.py): read the logged uids, drop those already
 * stored, fetch the rest in batches of 20 with up to three connection
 * attempts per batch, and store every message that extracts cleanly.
 *
 * The IMAP session is a parameter: `inbox` is the folder's messages, and
 * `outages` says which connection attempts fail. An entry `(k, a) := n`
 * means that attempt `a` of batch `k` raises after `n` fetched messages have
 * been handled (so `0` fails at login); attempts without an entry finish.
 */
module Recovery {
  import opened Wrappers
  import opened Text
  import opened Batching
  import opened UidLists
  import opened Store
  import opened Sync

  const Inbox: Folder := "INBOX"
  const RecoveryBatchSize: nat := 20
  const MaxAttempts: nat := 3

  /** What one line contributes: its stripped text when that is a digit string. */
  function LineUid(line: string): (r: seq<Uid>)
    ensures |r| <= 1
    ensures forall u :: u in r <==> u == Strip(line) && IsDigits(u)
  {
    if IsDigits(Strip(line)) then [Strip(line)] else []
  }

  /** `load_missing_uids`: the stripped lines that are digit strings, in file order. */
  function LoadMissingUids(lines: seq<string>): (r: seq<Uid>)
    ensures |r| <= |lines|
    ensures forall u :: u in r ==> IsDigits(u) && IsStripped(u)
  {
    if lines == [] then []
    else LineUid(lines[0]) + LoadMissingUids(lines[1..])
  }

  /** A uid is loaded exactly when some line strips to it and it is a digit string. */
  lemma {:induction false} LoadMissingUidsMembers(lines: seq<string>)
    ensures forall u :: u in LoadMissingUids(lines) <==>
      IsDigits(u) && exists i :: 0 <= i < |lines| && Strip(lines[i]) == u
    decreases |lines|
  {
    if lines != [] {
      LoadMissingUidsMembers(lines[1..]);
      forall u | IsDigits(u) && (exists i :: 0 <= i < |lines| && Strip(lines[i]) == u)
        ensures u in LoadMissingUids(lines)
      {
        var i :| 0 <= i < |lines| && Strip(lines[i]) == u;
        if i > 0 { assert Strip(lines[1..][i - 1]) == u; }
      }
    }
  }

  /** Reading a file in two parts gives the two parts' uids, in order. */
  lemma {:induction false} LoadMissingUidsAppend(a: seq<string>, b: seq<string>)
    ensures LoadMissingUids(a + b) == LoadMissingUids(a) + LoadMissingUids(b)
    decreases |a|
  {
    if a == [] {
      assert a + b == b;
    } else {
      assert (a + b)[0] == a[0];
      assert (a + b)[1..] == a[1..] + b;
      LoadMissingUidsAppend(a[1..], b);
    }
  }

  /** A log written one uid per line, as `log_missing_uids` writes it, is read back unchanged. */
  lemma {:induction false} LoadMissingUidsOfLog(uids: seq<Uid>)
    requires forall i :: 0 <= i < |uids| ==> IsDigits(uids[i])
    ensures LoadMissingUids(uids) == uids
    decreases |uids|
  {
    if uids != [] {
      assert IsStripped(uids[0]) by { assert !IsSpace(uids[0][0]) && !IsSpace(uids[0][|uids[0]| - 1]); }
      StripOfStripped(uids[0]);
      assert LineUid(uids[0]) == [uids[0]];
      LoadMissingUidsOfLog(uids[1..]);
      assert [uids[0]] + uids[1..] == uids;
    }
  }

  /** `to_fetch`: the loaded uids not yet stored for INBOX, in file order. */
  function ToFetch(lines: seq<string>, stored: set<Uid>): seq<Uid> {
    Without(LoadMissingUids(lines), stored)
  }

  /** The uids to fetch are exactly the logged digit strings that are not stored. */
  lemma ToFetchSpec(lines: seq<string>, stored: set<Uid>)
    ensures forall u :: u in ToFetch(lines, stored) <==>
      u in LoadMissingUids(lines) && u !in stored
    ensures forall u :: u in ToFetch(lines, stored) ==> IsDigits(u)
  {
    WithoutMembers(LoadMissingUids(lines), stored);
  }

  lemma AppendAssoc<T>(a: seq<T>, b: seq<T>, c: seq<T>)
    ensures a + (b + c) == (a + b) + c
  {
  }

  /** The messages `extract_email_data` accepts: those that do not raise, in order. */
  function Intact(msgs: seq<MailMessage>): (r: seq<MailMessage>)
    ensures forall m :: m in r <==> m in msgs && !m.broken
  {
    if msgs == [] then []
    else (if msgs[0].broken then [] else [msgs[0]]) + Intact(msgs[1..])
  }

  lemma {:induction false} IntactAppend(a: seq<MailMessage>, b: seq<MailMessage>)
    ensures Intact(a + b) == Intact(a) + Intact(b)
    decreases |a|
  {
    if a == [] {
      assert a + b == b;
    } else {
      assert (a + b)[0] == a[0];
      assert (a + b)[1..] == a[1..] + b;
      IntactAppend(a[1..], b);
    }
  }

  /** How far an attempt gets: `Some(n)` when it raises after `n` messages. */
  function Cut(outages: map<(nat, nat), nat>, k: nat, a: nat): Option<nat> {
    if (k, a) in outages then Some(outages[(k, a)]) else None
  }

  /** The fetched messages an attempt reaches before it ends or raises. */
  function Reached(fetched: seq<MailMessage>, cut: Option<nat>): (r: seq<MailMessage>)
    ensures |r| <= |fetched| && forall i :: 0 <= i < |r| ==> r[i] == fetched[i]
    ensures cut.None? ==> r == fetched
  {
    if cut.Some? && cut.value < |fetched| then fetched[..cut.value] else fetched
  }

  /** The messages appended to `recovered` by one attempt. */
  function AttemptItems(fetched: seq<MailMessage>, cut: Option<nat>): seq<MailMessage> {
    Intact(Reached(fetched, cut))
  }

  /**
   * The messages appended to `recovered` by attempts `a`, `a + 1`, ... of
   * batch `k`: each attempt's messages, and the next attempt's while the
   * attempt raised and fewer than three were made.
   */
  function BatchItems(fetched: seq<MailMessage>, outages: map<(nat, nat), nat>, k: nat, a: nat): seq<MailMessage>
    decreases MaxAttempts - a
  {
    if a >= MaxAttempts then []
    else AttemptItems(fetched, Cut(outages, k, a))
         + (if (k, a) in outages then BatchItems(fetched, outages, k, a + 1) else [])
  }

  /** Attempt `a` of batch `k` raises. */
  predicate FailedAt(outages: map<(nat, nat), nat>, k: nat, a: nat) {
    (k, a) in outages
  }

  /** The `while ... else` branch: all three attempts of batch `k` raised. */
  predicate GivesUp(outages: map<(nat, nat), nat>, k: nat) {
    FailedAt(outages, k, 0) && FailedAt(outages, k, 1) && FailedAt(outages, k, 2)
  }

  /** `recovered` after batches `k`, `k + 1`, ... */
  function RecoverItems(inbox: seq<MailMessage>, batches: seq<seq<Uid>>, outages: map<(nat, nat), nat>, k: nat)
    : seq<MailMessage>
    decreases |batches| - k
  {
    if k >= |batches| then []
    else BatchItems(FetchUids(inbox, batches[k]), outages, k, 0) + RecoverItems(inbox, batches, outages, k + 1)
  }

  /** The `downloaded_emails` row `mark_email_downloaded` inserts: no message id is recorded. */
  function RecoveryRow(m: MailMessage): DownloadedRow {
    DownloadedRow(m.subject, m.sender, Join(m.to, ", "), Join(m.cc, ", "), Join(m.bcc, ", "),
                  m.date, m.text, m.html, m.attachment, None)
  }

  /** The table after `INSERT OR IGNORE` of each message, in order. */
  function StoreItems(d: map<(Uid, Folder), DownloadedRow>, items: seq<MailMessage>): map<(Uid, Folder), DownloadedRow>
    decreases |items|
  {
    if items == [] then d
    else StoreItems(InsertIfAbsent(d, (items[0].uid, Inbox), RecoveryRow(items[0])), items[1..])
  }

  lemma {:induction false} StoreItemsAppend(d: map<(Uid, Folder), DownloadedRow>, a: seq<MailMessage>, b: seq<MailMessage>)
    ensures StoreItems(d, a + b) == StoreItems(StoreItems(d, a), b)
    decreases |a|
  {
    if a == [] {
      assert a + b == b;
    } else {
      assert (a + b)[0] == a[0];
      assert (a + b)[1..] == a[1..] + b;
      StoreItemsAppend(InsertIfAbsent(d, (a[0].uid, Inbox), RecoveryRow(a[0])), a[1..], b);
    }
  }

  /**
   * Storing keeps every existing row as it was, adds an INBOX row for each
   * message, and adds nothing else; a new row is the row of a message with
   * that uid.
   */
  lemma {:induction false} StoreItemsSpec(d: map<(Uid, Folder), DownloadedRow>, items: seq<MailMessage>)
    ensures Grows(d, StoreItems(d, items))
    ensures forall m :: m in items ==> (m.uid, Inbox) in StoreItems(d, items)
    ensures forall key :: key in StoreItems(d, items) && key !in d ==>
      key.1 == Inbox && exists m :: m in items && m.uid == key.0 && StoreItems(d, items)[key] == RecoveryRow(m)
    decreases |items|
  {
    if items != [] {
      var d' := InsertIfAbsent(d, (items[0].uid, Inbox), RecoveryRow(items[0]));
      InsertIfAbsentKeeps(d, (items[0].uid, Inbox), RecoveryRow(items[0]));
      StoreItemsSpec(d', items[1..]);
      var r := StoreItems(d, items);
      forall key | key in r && key !in d
        ensures key.1 == Inbox && exists m :: m in items && m.uid == key.0 && r[key] == RecoveryRow(m)
      {
        if key !in d' {
          var m :| m in items[1..] && m.uid == key.0 && r[key] == RecoveryRow(m);
          assert m in items;
        } else {
          assert key == (items[0].uid, Inbox);
          assert r[key] == RecoveryRow(items[0]);
        }
      }
    }
  }

  /** Storing messages whose rows all exist already changes nothing. */
  lemma {:induction false} StoreItemsPresent(d: map<(Uid, Folder), DownloadedRow>, items: seq<MailMessage>)
    requires forall m :: m in items ==> (m.uid, Inbox) in d
    ensures StoreItems(d, items) == d
    decreases |items|
  {
    if items != [] {
      assert items[0] in items;
      assert InsertIfAbsent(d, (items[0].uid, Inbox), RecoveryRow(items[0])) == d;
      StoreItemsPresent(d, items[1..]);
    }
  }

  /** Re-running the same inserts changes nothing: a retried batch never duplicates rows. */
  lemma StoreItemsIdempotent(d: map<(Uid, Folder), DownloadedRow>, items: seq<MailMessage>)
    ensures StoreItems(StoreItems(d, items), items) == StoreItems(d, items)
  {
    StoreItemsSpec(d, items);
    StoreItemsPresent(StoreItems(d, items), items);
  }

  /** The messages of one attempt are intact fetched messages. */
  lemma AttemptItemsFromFetched(fetched: seq<MailMessage>, cut: Option<nat>)
    ensures forall m :: m in AttemptItems(fetched, cut) ==> m in fetched && !m.broken
  {
    var reached := Reached(fetched, cut);
    forall m | m in AttemptItems(fetched, cut) ensures m in fetched && !m.broken {
      assert m in reached && !m.broken;
      var i :| 0 <= i < |reached| && reached[i] == m;
      assert fetched[i] == m;
    }
  }

  /** A message a batch recovers from attempt `a` on comes from attempt `a` or, after it raised, from a later one. */
  lemma BatchItemsSplit(fetched: seq<MailMessage>, outages: map<(nat, nat), nat>, k: nat, a: nat)
    requires a < MaxAttempts
    ensures forall m :: m in BatchItems(fetched, outages, k, a) ==>
      m in AttemptItems(fetched, Cut(outages, k, a)) || ((k, a) in outages && m in BatchItems(fetched, outages, k, a + 1))
  {
  }

  /** Every recovered message of a batch is an intact fetched message. */
  lemma {:induction false} BatchItemsFromFetched(fetched: seq<MailMessage>, outages: map<(nat, nat), nat>, k: nat, a: nat)
    ensures forall m :: m in BatchItems(fetched, outages, k, a) ==> m in fetched && !m.broken
    decreases MaxAttempts - a
  {
    if a < MaxAttempts {
      BatchItemsSplit(fetched, outages, k, a);
      AttemptItemsFromFetched(fetched, Cut(outages, k, a));
      BatchItemsFromFetched(fetched, outages, k, a + 1);
    }
  }

  /**
   * A batch that does not give up stores every intact message the server
   * returned for it: the attempt that finishes handles all of them.
   */
  lemma {:induction false} BatchItemsComplete(fetched: seq<MailMessage>, outages: map<(nat, nat), nat>, k: nat, a: nat,
                                              b: nat, m: MailMessage)
    requires a <= b < MaxAttempts && !FailedAt(outages, k, b)
    requires m in fetched && !m.broken
    ensures m in BatchItems(fetched, outages, k, a)
    decreases MaxAttempts - a
  {
    BatchItemsJoin(fetched, outages, k, a);
    if FailedAt(outages, k, a) {
      BatchItemsComplete(fetched, outages, k, a + 1, b, m);
    } else {
      assert Cut(outages, k, a) == None;
      assert AttemptItems(fetched, None) == Intact(fetched);
    }
  }

  /** What attempt `a` recovers and, after it raised, what the later attempts recover are part of the batch's messages. */
  lemma BatchItemsJoin(fetched: seq<MailMessage>, outages: map<(nat, nat), nat>, k: nat, a: nat)
    requires a < MaxAttempts
    ensures forall m :: m in AttemptItems(fetched, Cut(outages, k, a)) ==> m in BatchItems(fetched, outages, k, a)
    ensures (k, a) in outages ==>
      forall m :: m in BatchItems(fetched, outages, k, a + 1) ==> m in BatchItems(fetched, outages, k, a)
  {
  }

  /** A batch that gives up still keeps what its attempts handled before raising. */
  lemma BatchItemsGiveUp(fetched: seq<MailMessage>, outages: map<(nat, nat), nat>, k: nat)
    requires GivesUp(outages, k)
    ensures BatchItems(fetched, outages, k, 0) ==
      AttemptItems(fetched, Cut(outages, k, 0)) + AttemptItems(fetched, Cut(outages, k, 1))
      + AttemptItems(fetched, Cut(outages, k, 2))
  {
    var a0, a1, a2 := AttemptItems(fetched, Cut(outages, k, 0)), AttemptItems(fetched, Cut(outages, k, 1)),
                      AttemptItems(fetched, Cut(outages, k, 2));
    assert BatchItems(fetched, outages, k, 2) == a2 + [] == a2;
    assert BatchItems(fetched, outages, k, 1) == a1 + a2;
    assert BatchItems(fetched, outages, k, 0) == a0 + (a1 + a2);
    AppendAssoc(a0, a1, a2);
  }

  /**
   * An attempt that raises after handling a message is retried from the
   * start, so `recovered` (and the metadata file) gets that message twice.
   */
  lemma RecoveredMayRepeat(m: MailMessage)
    requires !m.broken
    ensures BatchItems([m], map[(0, 0) := 1], 0, 0) == [m, m]
  {
    assert Cut(map[(0, 0) := 1], 0, 0) == Some(1);
    assert Cut(map[(0, 0) := 1], 0, 1) == None;
    assert Intact([m]) == [m];
  }

  /** Every recovered message is an intact INBOX message whose uid is in one of the batches. */
  lemma {:induction false} RecoverItemsFromBatches(inbox: seq<MailMessage>, batches: seq<seq<Uid>>,
                                                   outages: map<(nat, nat), nat>, k: nat, toFetch: seq<Uid>)
    requires forall j, u :: 0 <= j < |batches| && u in batches[j] ==> u in toFetch
    ensures forall m :: m in RecoverItems(inbox, batches, outages, k) ==>
      m in inbox && !m.broken && m.uid in toFetch
    decreases |batches| - k
  {
    if k < |batches| {
      RecoverItemsFromBatches(inbox, batches, outages, k + 1, toFetch);
      BatchItemsFromFetched(FetchUids(inbox, batches[k]), outages, k, 0);
    }
  }

  /** `recovered` over the batches from `k` on is that of batch `k` followed by the rest. */
  lemma RecoverItemsStep(inbox: seq<MailMessage>, batches: seq<seq<Uid>>, outages: map<(nat, nat), nat>, k: nat)
    requires k < |batches|
    ensures RecoverItems(inbox, batches, outages, k) ==
      BatchItems(FetchUids(inbox, batches[k]), outages, k, 0) + RecoverItems(inbox, batches, outages, k + 1)
  {
  }

  /** `gaveUp` holds exactly the batches before `k` that gave up. */
  ghost predicate GaveUpBefore(gaveUp: set<nat>, outages: map<(nat, nat), nat>, k: nat) {
    forall j: nat :: j in gaveUp <==> j < k && GivesUp(outages, j)
  }

  lemma GaveUpStep(gaveUp: set<nat>, outages: map<(nat, nat), nat>, k: nat, gave: bool)
    requires GaveUpBefore(gaveUp, outages, k)
    requires gave <==> GivesUp(outages, k)
    ensures GaveUpBefore(if gave then gaveUp + {k} else gaveUp, outages, k + 1)
  {
  }

  /** The metadata file after the run: untouched when nothing was recovered, extended otherwise. */
  function Metadata(existing: seq<MailMessage>, recovered: seq<MailMessage>): (r: Option<seq<MailMessage>>)
    ensures r.None? <==> recovered == []
    ensures r.Some? ==> |r.value| == |existing| + |recovered|
    ensures r.Some? ==> r.value[..|existing|] == existing && r.value[|existing|..] == recovered
  {
    if recovered == [] then None else Some(existing + recovered)
  }

  /**
   * One message of an attempt (recover_missing_inbox_mails.py:155-172): a
   * message that extracts is marked downloaded and appended to `recovered`;
   * one that raises is skipped.
   */
  method StoreMessage(db: Database, ghost d0: map<(Uid, Folder), DownloadedRow>, items: seq<MailMessage>,
                      m: MailMessage) returns (items': seq<MailMessage>)
    requires db.Valid() && db.downloaded == StoreItems(d0, items)
    modifies db`downloaded
    ensures db.Valid()
    ensures items' == items + Intact([m])
    ensures db.downloaded == StoreItems(d0, items')
  {
    if !m.broken {
      StoreItemsAppend(d0, items, [m]);
      items' := items + [m];
      db.MarkEmailDownloaded(m.uid, Inbox, m.subject, m.sender, Join(m.to, ", "), Join(m.cc, ", "),
                             Join(m.bcc, ", "), m.date, m.text, m.html, FieldOf(m.attachment), FNone);
    } else {
      items' := items;
      assert Intact([m]) == [];
    }
  }

  /**
   * The loop over the messages an attempt reaches
   * (recover_missing_inbox_mails.py:154-173): the intact ones are stored and
   * returned, in order.
   */
  method StoreReached(db: Database, reached: seq<MailMessage>) returns (items: seq<MailMessage>)
    requires db.Valid()
    modifies db`downloaded
    ensures db.Valid()
    ensures items == Intact(reached)
    ensures db.downloaded == StoreItems(old(db.downloaded), items)
  {
    items := [];
    var i := 0;
    while i < |reached|
      invariant i <= |reached|
      invariant db.Valid()
      invariant items == Intact(reached[..i])
      invariant db.downloaded == StoreItems(old(db.downloaded), items)
    {
      var m := reached[i];
      items := StoreMessage(db, old(db.downloaded), items, m);
      assert reached[..i + 1] == reached[..i] + [m];
      IntactAppend(reached[..i], [m]);
      i := i + 1;
    }
    assert reached[..i] == reached;
  }

  /**
   * One attempt (recover_missing_inbox_mails.py:150-174): the messages it
   * reaches before it ends or raises go through the loop.
   */
  method StoreAttempt(db: Database, fetched: seq<MailMessage>, cut: Option<nat>) returns (items: seq<MailMessage>)
    requires db.Valid()
    modifies db`downloaded
    ensures db.Valid()
    ensures items == AttemptItems(fetched, cut)
    ensures db.downloaded == StoreItems(old(db.downloaded), items)
  {
    items := StoreReached(db, Reached(fetched, cut));
  }

  /** The state of the attempt loop of batch `k` before attempt `a`. */
  ghost predicate BatchInv(fetched: seq<MailMessage>, outages: map<(nat, nat), nat>, k: nat, a: nat,
                           items: seq<MailMessage>, d0: map<(Uid, Folder), DownloadedRow>,
                           d: map<(Uid, Folder), DownloadedRow>) {
    && a <= MaxAttempts
    && items + BatchItems(fetched, outages, k, a) == BatchItems(fetched, outages, k, 0)
    && d == StoreItems(d0, items)
    && forall b :: 0 <= b < a ==> FailedAt(outages, k, b)
  }

  lemma BatchInvStep(fetched: seq<MailMessage>, outages: map<(nat, nat), nat>, k: nat, a: nat,
                     items: seq<MailMessage>, d0: map<(Uid, Folder), DownloadedRow>,
                     d: map<(Uid, Folder), DownloadedRow>, got: seq<MailMessage>)
    requires BatchInv(fetched, outages, k, a, items, d0, d) && a < MaxAttempts
    requires got == AttemptItems(fetched, Cut(outages, k, a))
    ensures FailedAt(outages, k, a) ==>
      BatchInv(fetched, outages, k, a + 1, items + got, d0, StoreItems(d, got))
    ensures !FailedAt(outages, k, a) ==>
      items + got == BatchItems(fetched, outages, k, 0) && StoreItems(d, got) == StoreItems(d0, items + got)
      && !GivesUp(outages, k)
  {
    StoreItemsAppend(d0, items, got);
    if FailedAt(outages, k, a) {
      var rest := BatchItems(fetched, outages, k, a + 1);
      assert BatchItems(fetched, outages, k, a) == got + rest;
      AppendAssoc(items, got, rest);
    } else {
      assert BatchItems(fetched, outages, k, a) == got + [];
      assert items + got + [] == items + got;
    }
  }

  lemma BatchInvEnd(fetched: seq<MailMessage>, outages: map<(nat, nat), nat>, k: nat, a: nat,
                    items: seq<MailMessage>, d0: map<(Uid, Folder), DownloadedRow>,
                    d: map<(Uid, Folder), DownloadedRow>)
    requires BatchInv(fetched, outages, k, a, items, d0, d) && a >= MaxAttempts
    ensures items == BatchItems(fetched, outages, k, 0) && GivesUp(outages, k)
  {
    assert BatchItems(fetched, outages, k, a) == [];
    assert items + [] == items;
    assert FailedAt(outages, k, 0) && FailedAt(outages, k, 1) && FailedAt(outages, k, 2);
  }

  /**
   * One batch (recover_missing_inbox_mails.py:147-181): up to three attempts,
   * each from the start of the batch; `gaveUp` is the `else` branch of the
   * `while`. Messages that fail to extract do not count as a failed attempt.
   */
  method RecoverBatch(db: Database, fetched: seq<MailMessage>, outages: map<(nat, nat), nat>, k: nat)
    returns (items: seq<MailMessage>, gaveUp: bool)
    requires db.Valid()
    modifies db`downloaded
    ensures db.Valid()
    ensures items == BatchItems(fetched, outages, k, 0)
    ensures db.downloaded == StoreItems(old(db.downloaded), items)
    ensures gaveUp <==> GivesUp(outages, k)
  {
    items := [];
    var a := 0;
    while a < MaxAttempts
      invariant db.Valid()
      invariant BatchInv(fetched, outages, k, a, items, old(db.downloaded), db.downloaded)
    {
      ghost var d := db.downloaded;
      var cut := Cut(outages, k, a);
      var got := StoreAttempt(db, fetched, cut);
      BatchInvStep(fetched, outages, k, a, items, old(db.downloaded), d, got);
      items := items + got;
      if cut.None? {
        assert !FailedAt(outages, k, a);
        gaveUp := false;
        return;
      }
      a := a + 1;
    }
    BatchInvEnd(fetched, outages, k, a, items, old(db.downloaded), db.downloaded);
    gaveUp := true;
  }

  /** The state of the batch loop before batch `k`. */
  ghost predicate RecoverInv(inbox: seq<MailMessage>, batches: seq<seq<Uid>>, outages: map<(nat, nat), nat>, k: nat,
                             recovered: seq<MailMessage>, gaveUp: set<nat>,
                             d0: map<(Uid, Folder), DownloadedRow>, d: map<(Uid, Folder), DownloadedRow>) {
    && k <= |batches|
    && recovered + RecoverItems(inbox, batches, outages, k) == RecoverItems(inbox, batches, outages, 0)
    && d == StoreItems(d0, recovered)
    && GaveUpBefore(gaveUp, outages, k)
  }

  lemma RecoverInvStep(inbox: seq<MailMessage>, batches: seq<seq<Uid>>, outages: map<(nat, nat), nat>, k: nat,
                       recovered: seq<MailMessage>, gaveUp: set<nat>,
                       d0: map<(Uid, Folder), DownloadedRow>, d: map<(Uid, Folder), DownloadedRow>,
                       items: seq<MailMessage>, gave: bool)
    requires RecoverInv(inbox, batches, outages, k, recovered, gaveUp, d0, d) && k < |batches|
    requires items == BatchItems(FetchUids(inbox, batches[k]), outages, k, 0)
    requires gave <==> GivesUp(outages, k)
    ensures RecoverInv(inbox, batches, outages, k + 1, recovered + items,
                       if gave then gaveUp + {k} else gaveUp, d0, StoreItems(d, items))
  {
    StoreItemsAppend(d0, recovered, items);
    RecoverItemsStep(inbox, batches, outages, k);
    AppendAssoc(recovered, items, RecoverItems(inbox, batches, outages, k + 1));
    GaveUpStep(gaveUp, outages, k, gave);
  }

  /**
   * One pass of the batch loop (recover_missing_inbox_mails.py:146-183):
   * batch `k` is fetched and recovered, its messages join `recovered` and,
   * when it gave up, `k` joins `gaveUp`.
   */
  method RecoverNext(db: Database, inbox: seq<MailMessage>, batches: seq<seq<Uid>>, outages: map<(nat, nat), nat>,
                     k: nat, recovered: seq<MailMessage>, gaveUp: set<nat>, ghost d0: map<(Uid, Folder), DownloadedRow>)
    returns (recovered': seq<MailMessage>, gaveUp': set<nat>)
    requires db.Valid() && k < |batches|
    requires RecoverInv(inbox, batches, outages, k, recovered, gaveUp, d0, db.downloaded)
    modifies db`downloaded
    ensures db.Valid()
    ensures RecoverInv(inbox, batches, outages, k + 1, recovered', gaveUp', d0, db.downloaded)
  {
    ghost var d := db.downloaded;
    var items, gave := RecoverBatch(db, FetchUids(inbox, batches[k]), outages, k);
    RecoverInvStep(inbox, batches, outages, k, recovered, gaveUp, d0, d, items, gave);
    recovered' := recovered + items;
    gaveUp' := if gave then gaveUp + {k} else gaveUp;
  }

  /**
   * The recovery run (recover_missing_inbox_mails.py:133-192): `toFetch` is
   * computed from the log and the stored INBOX uids; when it is empty nothing
   * else happens. Otherwise each batch is recovered in turn, `gaveUp` holds
   * the batches that gave up, and `metadata` is what the metadata file is
   * rewritten to (`None`: not written).
   */
  method Recover(db: Database, lines: seq<string>, inbox: seq<MailMessage>, outages: map<(nat, nat), nat>,
                 existing: seq<MailMessage>)
    returns (toFetch: seq<Uid>, recovered: seq<MailMessage>, gaveUp: set<nat>, metadata: Option<seq<MailMessage>>)
    requires db.Valid()
    modifies db`downloaded
    ensures db.Valid()
    ensures toFetch == ToFetch(lines, old(db.ExistingUids(Inbox)))
    ensures recovered == RecoverItems(inbox, SplitIntoBatches(toFetch, RecoveryBatchSize), outages, 0)
    ensures db.downloaded == StoreItems(old(db.downloaded), recovered)
    ensures forall k: nat :: k in gaveUp <==>
      k < |SplitIntoBatches(toFetch, RecoveryBatchSize)| && GivesUp(outages, k)
    ensures metadata == Metadata(existing, recovered)
  {
    var stored := db.ExistingUids(Inbox);
    toFetch := Without(LoadMissingUids(lines), stored);
    recovered := [];
    gaveUp := {};
    metadata := None;
    if toFetch == [] {
      return;
    }
    var batches := SplitIntoBatches(toFetch, RecoveryBatchSize);
    var k := 0;
    while k < |batches|
      invariant db.Valid()
      invariant RecoverInv(inbox, batches, outages, k, recovered, gaveUp, old(db.downloaded), db.downloaded)
    {
      recovered, gaveUp := RecoverNext(db, inbox, batches, outages, k, recovered, gaveUp, old(db.downloaded));
      k := k + 1;
    }
    metadata := Metadata(existing, recovered);
  }

  /**
   * What the run leaves in the table: the old rows unchanged, a row for every
   * recovered message, and new rows only for recovered messages, all of them
   * INBOX messages that were logged missing and not yet stored.
   */
  lemma RecoverSpec(d: map<(Uid, Folder), DownloadedRow>, inbox: seq<MailMessage>, toFetch: seq<Uid>,
                    outages: map<(nat, nat), nat>)
    ensures var r := RecoverItems(inbox, SplitIntoBatches(toFetch, RecoveryBatchSize), outages, 0);
      var d' := StoreItems(d, r);
      && Grows(d, d')
      && (forall m :: m in r ==> (m.uid, Inbox) in d' && m in inbox && !m.broken && m.uid in toFetch)
      && (forall key :: key in d' && key !in d ==> key.1 == Inbox && key.0 in toFetch)
  {
    var batches := SplitIntoBatches(toFetch, RecoveryBatchSize);
    var r := RecoverItems(inbox, batches, outages, 0);
    StoreItemsSpec(d, r);
    forall j, u | 0 <= j < |batches| && u in batches[j] ensures u in toFetch {
      BatchElementsFromInput(toFetch, RecoveryBatchSize, j, u);
    }
    RecoverItemsFromBatches(inbox, batches, outages, 0, toFetch);
  }
}
