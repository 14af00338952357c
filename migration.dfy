/**
 * The re-runnable normalisation pass of migration_script.py: every row of
 * `downloaded_emails` gets a new `email` row, and its sender and parsed
 * recipients are resolved to `email_address` ids and linked in
 * `email_participant`; commits go through `safe_commit`, which retries a
 * locked database a bounded number of times.
 */
module Migration {
  import opened Wrappers
  import opened Text
  import opened Recipients
  import opened Store

  /** `BATCH_SIZE` (migration_script.py:7): rows between progress commits. */
  const BatchSize: nat := 5000

  /** The default `retries` of `safe_commit` (migration_script.py:11). */
  const DefaultRetries: nat := 10

  /** Python's `t in s` on strings. */
  predicate Contains(s: string, t: string) {
    exists i | 0 <= i <= |s| :: t <= s[i..]
  }

  /** The test of migration_script.py:17: the lower-cased error text mentions a locked database. */
  predicate IsLockedError(msg: string) {
    Contains(Lower(msg), "database is locked")
  }

  /** The test ignores letter case: an error and its lower-cased text are treated alike. */
  lemma LockedIgnoresCase(msg: string)
    ensures IsLockedError(Lower(msg)) == IsLockedError(msg)
  {
    LowerIdempotent(msg);
  }

  /**
   * How `safe_commit` ends: the commit went through after `attempts`
   * attempts, an error that is not a locked database was re-raised at attempt
   * `attempts`, or every attempt hit a locked database and `RuntimeError`
   * was raised.
   */
  datatype CommitResult = Committed(attempts: nat) | Reraised(error: string, attempts: nat) | GaveUp

  /** Commit attempt `i` (from 0) failed with a locked database. */
  predicate LockedAt(outcome: nat -> Option<string>, i: nat) {
    outcome(i).Some? && IsLockedError(outcome(i).value)
  }

  /**
   * `safe_commit` (migration_script.py:11-22). `outcome(i)` is the result of
   * commit attempt `i`: `None` when it succeeds, `Some(text)` when it raises
   * `OperationalError` with that text. The sleep between attempts is left out.
   */
  method SafeCommit(outcome: nat -> Option<string>, retries: nat) returns (r: CommitResult)
    ensures r.Committed? ==> 1 <= r.attempts <= retries && outcome(r.attempts - 1).None?
    ensures r.Reraised? ==>
      1 <= r.attempts <= retries && outcome(r.attempts - 1) == Some(r.error) && !IsLockedError(r.error)
    ensures !r.GaveUp? ==> forall i :: 0 <= i < r.attempts - 1 ==> LockedAt(outcome, i)
    ensures r.GaveUp? <==> forall i :: 0 <= i < retries ==> LockedAt(outcome, i)
  {
    var i := 0;
    while i < retries
      invariant 0 <= i <= retries
      invariant forall j :: 0 <= j < i ==> LockedAt(outcome, j)
    {
      var o := outcome(i);
      if o.None? {
        assert !LockedAt(outcome, i);
        return Committed(i + 1);
      }
      if !IsLockedError(o.value) {
        assert !LockedAt(outcome, i);
        return Reraised(o.value, i + 1);
      }
      i := i + 1;
    }
    return GaveUp;
  }

  /** A row of `downloaded_emails` with its key, as `SELECT *` returns it. */
  datatype SourceRow = SourceRow(uid: Uid, folder: Folder, data: DownloadedRow)

  /** The `email` row `get_or_create_email` inserts for a source row (migration_script.py:89-93). */
  function MigratedEmail(r: SourceRow): EmailRow {
    EmailRow(r.uid, r.folder, r.data.subject, r.data.date, r.data.bodyText, r.data.bodyHtml, r.data.attachmentDir, None)
  }

  /**
   * The `email` table `emails` holds the rows of `e0` unchanged, plus one
   * fresh row per source row among the first `n`, numbered from `next0`, and
   * nothing else.
   */
  ghost predicate EmailsAdded(e0: map<nat, EmailRow>, next0: nat, emails: map<nat, EmailRow>, rows: seq<SourceRow>, n: nat) {
    && n <= |rows|
    && (forall k :: k in e0 ==> k in emails && emails[k] == e0[k])
    && (forall k :: next0 <= k < next0 + n ==> k in emails && emails[k] == MigratedEmail(rows[k - next0]))
    && (forall k :: k in emails ==> k in e0 || next0 <= k < next0 + n)
  }

  /** Inserting row `n` under the next key extends the table by that row. */
  lemma EmailsAddedStep(e0: map<nat, EmailRow>, next0: nat, emails: map<nat, EmailRow>, rows: seq<SourceRow>, n: nat)
    requires EmailsAdded(e0, next0, emails, rows, n) && n < |rows|
    requires forall k :: k in e0 ==> k < next0
    ensures EmailsAdded(e0, next0, emails[next0 + n := MigratedEmail(rows[n])], rows, n + 1)
  {
  }

  /** Lines 182-212 for one row: the sender, then the parsed recipients, cc and bcc. */
  function RowLinks(t: AddressTable, parts: set<Participant>, pk: nat, r: DownloadedRow)
    : (AddressTable, set<Participant>)
  {
    LinkParticipants(t, parts, pk, [r.sender], ParseRecipientsLower(Some(r.recipients)),
                     ParseRecipientsLower(Some(r.cc)), ParseRecipientsLower(Some(r.bcc)))
  }

  /** `p` is a triple that row `r` asks for under key `pk`: its sender's under `From` or a parsed address's under its role. */
  ghost predicate RowTriple(t: AddressTable, pk: nat, r: DownloadedRow, p: Participant) {
    MessageTriple(t, pk, [r.sender], ParseRecipientsLower(Some(r.recipients)),
                  ParseRecipientsLower(Some(r.cc)), ParseRecipientsLower(Some(r.bcc)), p)
  }

  lemma RowTripleStable(t: AddressTable, t': AddressTable, pk: nat, r: DownloadedRow, p: Participant)
    requires RowTriple(t, pk, r, p) && ExtendsAddresses(t, t')
    ensures RowTriple(t', pk, r, p)
  {
    var to, cc, bcc := ParseRecipientsLower(Some(r.recipients)), ParseRecipientsLower(Some(r.cc)), ParseRecipientsLower(Some(r.bcc));
    if RoleTriple(t, pk, [r.sender], From, p) {
      RoleTripleStable(t, t', pk, [r.sender], From, p);
    } else if RoleTriple(t, pk, to, To, p) {
      RoleTripleStable(t, t', pk, to, To, p);
    } else if RoleTriple(t, pk, cc, Cc, p) {
      RoleTripleStable(t, t', pk, cc, Cc, p);
    } else {
      RoleTripleStable(t, t', pk, bcc, Bcc, p);
    }
  }

  /** Every triple of `parts` that is not in `parts0` is one that row `r` asks for under `pk`. */
  ghost predicate RowTriplesOnly(t: AddressTable, parts0: set<Participant>, parts: set<Participant>, pk: nat, r: DownloadedRow) {
    forall p :: p in parts && p !in parts0 ==> RowTriple(t, pk, r, p)
  }

  /** Every triple that linking a row adds is one the row asks for. */
  lemma RowLinksOnlyOwn(t: AddressTable, parts: set<Participant>, pk: nat, r: DownloadedRow)
    requires WellFormedAddresses(t)
    ensures RowTriplesOnly(RowLinks(t, parts, pk, r).0, parts, RowLinks(t, parts, pk, r).1, pk, r)
  {
    LinkParticipantsSpec(t, parts, pk, [r.sender], ParseRecipientsLower(Some(r.recipients)),
                         ParseRecipientsLower(Some(r.cc)), ParseRecipientsLower(Some(r.bcc)));
  }

  /** A triple stays once linked: later rows only add ids and triples. */
  lemma LinkedStable(t: AddressTable, parts: set<Participant>, t': AddressTable, parts': set<Participant>,
                     pk: nat, a: string, role: Role)
    requires Linked(t, parts, pk, a, role) && ExtendsAddresses(t, t') && parts <= parts'
    ensures Linked(t', parts', pk, a, role)
  {
  }

  /** The triples one row asks for: its sender under `From` and each parsed address under its role. */
  ghost predicate RowLinked(t: AddressTable, parts: set<Participant>, pk: nat, r: DownloadedRow) {
    && (r.sender != "" ==> Linked(t, parts, pk, r.sender, From))
    && (forall a :: a in ParseRecipientsLower(Some(r.recipients)) ==> Linked(t, parts, pk, a, To))
    && (forall a :: a in ParseRecipientsLower(Some(r.cc)) ==> Linked(t, parts, pk, a, Cc))
    && (forall a :: a in ParseRecipientsLower(Some(r.bcc)) ==> Linked(t, parts, pk, a, Bcc))
  }

  lemma RowLinkedStable(t: AddressTable, parts: set<Participant>, t': AddressTable, parts': set<Participant>,
                        pk: nat, r: DownloadedRow)
    requires RowLinked(t, parts, pk, r) && ExtendsAddresses(t, t') && parts <= parts'
    ensures RowLinked(t', parts', pk, r)
  {
    forall a, role | Linked(t, parts, pk, a, role) ensures Linked(t', parts', pk, a, role) {
      LinkedStable(t, parts, t', parts', pk, a, role);
    }
  }

  /** Linking one row produces every triple it asks for. */
  lemma RowLinksSpec(t: AddressTable, parts: set<Participant>, pk: nat, r: DownloadedRow)
    requires WellFormedAddresses(t)
    ensures RowLinked(RowLinks(t, parts, pk, r).0, RowLinks(t, parts, pk, r).1, pk, r)
  {
    ParsedLowerAddresses(Some(r.recipients));
    ParsedLowerAddresses(Some(r.cc));
    ParsedLowerAddresses(Some(r.bcc));
    LinkParticipantsSpec(t, parts, pk, [r.sender], ParseRecipientsLower(Some(r.recipients)),
                         ParseRecipientsLower(Some(r.cc)), ParseRecipientsLower(Some(r.bcc)));
  }

  /** The commit points of lines 214-216 up to row `n`: each `processed` that is a multiple of the batch size or the total. */
  function CommitPoints(n: nat, total: nat): seq<nat> {
    if n == 0 then []
    else CommitPoints(n - 1, total) + (if n % BatchSize == 0 || n == total then [n] else [])
  }

  /**
   * The commit points are exactly the multiples of the batch size up to `n`
   * and the total itself, in increasing order.
   */
  lemma {:induction false} CommitPointsSpec(n: nat, total: nat)
    ensures forall p :: p in CommitPoints(n, total) <==> 1 <= p <= n && (p % BatchSize == 0 || p == total)
    ensures forall i, j :: 0 <= i < j < |CommitPoints(n, total)| ==> CommitPoints(n, total)[i] < CommitPoints(n, total)[j]
  {
    if n > 0 {
      CommitPointsSpec(n - 1, total);
      var prev := CommitPoints(n - 1, total);
      assert forall i :: 0 <= i < |prev| ==> prev[i] in prev;
    }
  }

  /** No row waits for more than a batch: every processed row is followed by a commit within `BatchSize` rows. */
  lemma CommitWithinBatch(total: nat, p: nat)
    requires 1 <= p <= total
    ensures exists c :: c in CommitPoints(total, total) && p <= c < p + BatchSize
  {
    CommitPointsSpec(total, total);
    var c := (p + BatchSize - 1) / BatchSize * BatchSize;
    assert p <= c < p + BatchSize;
    if c <= total {
      assert c % BatchSize == 0;
      assert c in CommitPoints(total, total);
    } else {
      assert total in CommitPoints(total, total);
    }
  }

  /** The first `|pks|` rows each have an `email` row of their own uid and folder under `pks[i]`. */
  ghost predicate EmailsFor(emails: map<nat, EmailRow>, rows: seq<SourceRow>, pks: seq<nat>) {
    && |pks| <= |rows|
    && forall i :: 0 <= i < |pks| ==>
         pks[i] in emails && emails[pks[i]].uid == rows[i].uid && emails[pks[i]].folder == rows[i].folder
  }

  /**
   * The first `|pks|` rows have the triples they ask for, no stored address id
   * has changed since `t0`, no triple was dropped since `parts0`, and every new
   * triple belongs to one of these rows (`OnlyRowTriples` says which triple).
   */
  ghost predicate LinksFor(t0: AddressTable, parts0: set<Participant>, t: AddressTable, parts: set<Participant>,
                           rows: seq<SourceRow>, pks: seq<nat>)
  {
    && |pks| <= |rows|
    && ExtendsAddresses(t0, t) && parts0 <= parts
    && (forall i :: 0 <= i < |pks| ==> RowLinked(t, parts, pks[i], rows[i].data))
    && (forall p :: p in parts && p !in parts0 ==> p.emailPk in pks)
  }

  /** `p` is a triple that one of the first `|pks|` rows asks for under its key. */
  ghost predicate RowsTriple(t: AddressTable, rows: seq<SourceRow>, pks: seq<nat>, p: Participant)
    requires |pks| <= |rows|
    decreases |pks|
  {
    && |pks| > 0
    && (RowTriple(t, pks[|pks| - 1], rows[|pks| - 1].data, p) || RowsTriple(t, rows, pks[..|pks| - 1], p))
  }

  /** `RowsTriple` names some row `i` whose triple `p` is, and only such a `p`. */
  lemma {:induction false} RowsTripleSpec(t: AddressTable, rows: seq<SourceRow>, pks: seq<nat>, p: Participant)
    requires |pks| <= |rows|
    ensures RowsTriple(t, rows, pks, p) <==> exists i :: 0 <= i < |pks| && RowTriple(t, pks[i], rows[i].data, p)
    decreases |pks|
  {
    if |pks| > 0 {
      var pre := pks[..|pks| - 1];
      RowsTripleSpec(t, rows, pre, p);
      if exists i :: 0 <= i < |pks| && RowTriple(t, pks[i], rows[i].data, p) {
        var i :| 0 <= i < |pks| && RowTriple(t, pks[i], rows[i].data, p);
        if i < |pks| - 1 {
          assert pre[i] == pks[i];
        }
      }
      if RowsTriple(t, rows, pre, p) {
        var i :| 0 <= i < |pre| && RowTriple(t, pre[i], rows[i].data, p);
        assert pks[i] == pre[i];
      }
    }
  }

  /** A row's triple stays one when the address table only gains ids. */
  lemma {:induction false} RowsTripleStable(t: AddressTable, t': AddressTable, rows: seq<SourceRow>, pks: seq<nat>, p: Participant)
    requires |pks| <= |rows| && RowsTriple(t, rows, pks, p) && ExtendsAddresses(t, t')
    ensures RowsTriple(t', rows, pks, p)
    decreases |pks|
  {
    if RowTriple(t, pks[|pks| - 1], rows[|pks| - 1].data, p) {
      RowTripleStable(t, t', pks[|pks| - 1], rows[|pks| - 1].data, p);
    } else {
      RowsTripleStable(t, t', rows, pks[..|pks| - 1], p);
    }
  }

  /** Every triple of `parts` that is not in `parts0` is one that one of the first `|pks|` rows asks for. */
  ghost predicate OnlyRowTriples(t: AddressTable, parts0: set<Participant>, parts: set<Participant>,
                                 rows: seq<SourceRow>, pks: seq<nat>)
    requires |pks| <= |rows|
  {
    forall p :: p in parts && p !in parts0 ==> RowsTriple(t, rows, pks, p)
  }

  lemma EmailsForStep(emails: map<nat, EmailRow>, next: nat, rows: seq<SourceRow>, pks: seq<nat>,
                      emails': map<nat, EmailRow>, pk: nat)
    requires EmailsFor(emails, rows, pks) && |pks| < |rows|
    requires next !in emails && emails' == emails[next := MigratedEmail(rows[|pks|])]
    requires pk in emails' && emails'[pk].uid == rows[|pks|].uid && emails'[pk].folder == rows[|pks|].folder
    ensures EmailsFor(emails', rows, pks + [pk])
  {
    var pks' := pks + [pk];
    forall i | 0 <= i < |pks'|
      ensures pks'[i] in emails' && emails'[pks'[i]].uid == rows[i].uid && emails'[pks'[i]].folder == rows[i].folder
    {
      if i < |pks| {
        assert pks'[i] == pks[i] && pks[i] in emails;
      }
    }
  }

  lemma LinksForStep(t0: AddressTable, parts0: set<Participant>, t: AddressTable, parts: set<Participant>,
                     rows: seq<SourceRow>, pks: seq<nat>, t': AddressTable, parts': set<Participant>, pk: nat)
    requires LinksFor(t0, parts0, t, parts, rows, pks) && |pks| < |rows|
    requires ExtendsAddresses(t, t') && parts <= parts' && RowLinked(t', parts', pk, rows[|pks|].data)
    requires RowTriplesOnly(t', parts, parts', pk, rows[|pks|].data)
    ensures LinksFor(t0, parts0, t', parts', rows, pks + [pk])
  {
    var pks' := pks + [pk];
    forall i | 0 <= i < |pks'| ensures RowLinked(t', parts', pks'[i], rows[i].data) {
      if i < |pks| {
        RowLinkedStable(t, parts, t', parts', pks[i], rows[i].data);
      }
    }
    forall p | p in parts' && p !in parts ensures p.emailPk == pk {
      RowTripleOwnKey(t', pk, rows[|pks|].data, p);
    }
  }

  /** A triple a row asks for under `pk` carries `pk`. */
  lemma RowTripleOwnKey(t: AddressTable, pk: nat, r: DownloadedRow, p: Participant)
    requires RowTriple(t, pk, r, p)
    ensures p.emailPk == pk
  {
  }

  /** `OnlyRowTriples` advances by one row whose new triples are all its own. */
  lemma OnlyRowTriplesStep(t: AddressTable, parts0: set<Participant>, parts: set<Participant>,
                           rows: seq<SourceRow>, pks: seq<nat>, t': AddressTable, parts': set<Participant>, pk: nat)
    requires |pks| < |rows| && OnlyRowTriples(t, parts0, parts, rows, pks)
    requires ExtendsAddresses(t, t') && RowTriplesOnly(t', parts, parts', pk, rows[|pks|].data)
    ensures OnlyRowTriples(t', parts0, parts', rows, pks + [pk])
  {
    var pks' := pks + [pk];
    assert pks'[..|pks|] == pks;
    forall p | p in parts' && p !in parts0 ensures RowsTriple(t', rows, pks', p) {
      if p in parts {
        RowsTripleStable(t, t', rows, pks, p);
      }
    }
  }

  /** Lines 180-212 for one row: a new `email` row, then the row's addresses linked under its key. */
  method MigrateRow(db: Database, row: SourceRow) returns (pk: nat)
    requires db.Valid()
    modifies db`emails, db`nextEmailPk, db`addresses, db`participants
    ensures db.Valid()
    ensures db.emails == old(db.emails)[old(db.nextEmailPk) := MigratedEmail(row)]
    ensures db.nextEmailPk == old(db.nextEmailPk) + 1
    ensures pk in db.emails && db.emails[pk].uid == row.uid && db.emails[pk].folder == row.folder
    ensures ExtendsAddresses(old(db.addresses), db.addresses) && old(db.participants) <= db.participants
    ensures RowLinked(db.addresses, db.participants, pk, row.data)
    ensures (db.addresses, db.participants) == RowLinks(old(db.addresses), old(db.participants), pk, row.data)
    ensures RowTriplesOnly(db.addresses, old(db.participants), db.participants, pk, row.data)
  {
    pk := db.GetOrCreateEmailByUid(row.uid, row.folder, row.data.subject, row.data.date,
                                   row.data.bodyText, row.data.bodyHtml, row.data.attachmentDir);
    var to := ParseRecipientsLower(Some(row.data.recipients));
    var cc := ParseRecipientsLower(Some(row.data.cc));
    var bcc := ParseRecipientsLower(Some(row.data.bcc));
    RowLinksSpec(db.addresses, db.participants, pk, row.data);
    LinkParticipantsSpec(db.addresses, db.participants, pk, [row.data.sender], to, cc, bcc);
    RowLinksOnlyOwn(db.addresses, db.participants, pk, row.data);
    db.LinkMessage(pk, [row.data.sender], to, cc, bcc);
  }

  /**
   * What the row loop keeps after the first `|pks|` rows, from tables that
   * started as `e0`, `next0`, `t0` and `parts0`: one `email` row per processed
   * row under consecutive keys, each row's key in `pks`, each row's triples
   * present, and no other new triple.
   */
  ghost predicate MigratedSoFar(e0: map<nat, EmailRow>, next0: nat, t0: AddressTable, parts0: set<Participant>,
                                emails: map<nat, EmailRow>, next: nat, t: AddressTable, parts: set<Participant>,
                                rows: seq<SourceRow>, pks: seq<nat>)
  {
    && |pks| <= |rows|
    && (forall k :: k in e0 ==> k < next0)
    && EmailsAdded(e0, next0, emails, rows, |pks|) && next == next0 + |pks|
    && EmailsFor(emails, rows, pks)
    && LinksFor(t0, parts0, t, parts, rows, pks)
    && OnlyRowTriples(t, parts0, parts, rows, pks)
  }

  /** The body of the row loop for row `|pks|`, carrying what the loop keeps. */
  method MigrateStep(db: Database, rows: seq<SourceRow>, pks: seq<nat>, ghost e0: map<nat, EmailRow>, ghost next0: nat,
                     ghost t0: AddressTable, ghost parts0: set<Participant>) returns (pk: nat)
    requires db.Valid() && |pks| < |rows|
    requires MigratedSoFar(e0, next0, t0, parts0, db.emails, db.nextEmailPk, db.addresses, db.participants, rows, pks)
    modifies db`emails, db`nextEmailPk, db`addresses, db`participants
    ensures db.Valid()
    ensures MigratedSoFar(e0, next0, t0, parts0, db.emails, db.nextEmailPk, db.addresses, db.participants, rows, pks + [pk])
  {
    ghost var before, t, parts := db.emails, db.addresses, db.participants;
    pk := MigrateRow(db, rows[|pks|]);
    RowStep(e0, next0, t0, parts0, rows, pks, before, t, parts, db.emails, db.addresses, db.participants, pk);
    OnlyRowTriplesStep(t, parts0, parts, rows, pks, db.addresses, db.participants, pk);
  }

  /** What one row does to the loop's facts: `EmailsAdded`, `EmailsFor` and `LinksFor` all advance by that row. */
  lemma RowStep(e0: map<nat, EmailRow>, next0: nat, t0: AddressTable, parts0: set<Participant>,
                rows: seq<SourceRow>, pks: seq<nat>,
                emails: map<nat, EmailRow>, t: AddressTable, parts: set<Participant>,
                emails': map<nat, EmailRow>, t': AddressTable, parts': set<Participant>, pk: nat)
    requires |pks| < |rows| && forall k :: k in e0 ==> k < next0
    requires EmailsAdded(e0, next0, emails, rows, |pks|) && next0 + |pks| !in emails
    requires EmailsFor(emails, rows, pks) && LinksFor(t0, parts0, t, parts, rows, pks)
    requires emails' == emails[next0 + |pks| := MigratedEmail(rows[|pks|])]
    requires pk in emails' && emails'[pk].uid == rows[|pks|].uid && emails'[pk].folder == rows[|pks|].folder
    requires ExtendsAddresses(t, t') && parts <= parts' && RowLinked(t', parts', pk, rows[|pks|].data)
    requires RowTriplesOnly(t', parts, parts', pk, rows[|pks|].data)
    ensures EmailsAdded(e0, next0, emails', rows, |pks| + 1)
    ensures EmailsFor(emails', rows, pks + [pk]) && LinksFor(t0, parts0, t', parts', rows, pks + [pk])
  {
    EmailsAddedStep(e0, next0, emails, rows, |pks|);
    EmailsForStep(emails, next0 + |pks|, rows, pks, emails', pk);
    LinksForStep(t0, parts0, t, parts, rows, pks, t', parts', pk);
  }

  /**
   * `main` of migration_script.py, lines 172-224: one pass over the rows of
   * `downloaded_emails`. It returns the processed count, the `email` key each
   * row was linked under, and the `processed` values at which a commit was
   * made (the last one is the final commit of line 224). Every commit is taken
   * to succeed.
   */
  method Migrate(db: Database, rows: seq<SourceRow>) returns (processed: nat, pks: seq<nat>, commits: seq<nat>)
    requires db.Valid()
    modifies db`emails, db`nextEmailPk, db`addresses, db`participants
    ensures db.Valid()
    ensures processed == |rows| && |pks| == |rows|
    ensures forall k :: k in old(db.emails) ==> k in db.emails && db.emails[k] == old(db.emails)[k]
    ensures forall i :: 0 <= i < |rows| ==>
      old(db.nextEmailPk) + i in db.emails && db.emails[old(db.nextEmailPk) + i] == MigratedEmail(rows[i])
    ensures forall k :: k in db.emails ==> k in old(db.emails) || old(db.nextEmailPk) <= k < db.nextEmailPk
    ensures db.nextEmailPk == old(db.nextEmailPk) + |rows|
    ensures forall i :: 0 <= i < |rows| ==>
      pks[i] in db.emails && db.emails[pks[i]].uid == rows[i].uid && db.emails[pks[i]].folder == rows[i].folder
    ensures ExtendsAddresses(old(db.addresses), db.addresses) && old(db.participants) <= db.participants
    ensures forall i :: 0 <= i < |rows| ==> RowLinked(db.addresses, db.participants, pks[i], rows[i].data)
    ensures forall p :: p in db.participants && p !in old(db.participants) ==> p.emailPk in pks
    ensures OnlyRowTriples(db.addresses, old(db.participants), db.participants, rows, pks)
    ensures commits == CommitPoints(|rows|, |rows|) + [|rows|]
  {
    processed, pks, commits := 0, [], [];
    var total := |rows|;
    ghost var e0, next0, t0, parts0 := db.emails, db.nextEmailPk, db.addresses, db.participants;
    while processed < total
      invariant processed <= total && |pks| == processed
      invariant db.Valid()
      invariant MigratedSoFar(e0, next0, t0, parts0, db.emails, db.nextEmailPk, db.addresses, db.participants, rows, pks)
      invariant commits == CommitPoints(processed, total)
    {
      var pk := MigrateStep(db, rows, pks, e0, next0, t0, parts0);
      pks := pks + [pk];
      processed := processed + 1;
      if processed % BatchSize == 0 || processed == total {
        commits := commits + [processed];
      }
    }
    forall i | 0 <= i < |rows|
      ensures old(db.nextEmailPk) + i in db.emails && db.emails[old(db.nextEmailPk) + i] == MigratedEmail(rows[i])
    {
      assert old(db.nextEmailPk) <= old(db.nextEmailPk) + i < old(db.nextEmailPk) + processed;
    }
    commits := commits + [processed];
  }
}
