/**
 * The SQLite store of the backup (tables created at main.py:239-292 and
 * main.py:477-525): `downloaded_emails` keyed by `(uid, folder)`,
 * `folder_uidvalidity` keyed by folder, `email_address` with a UNIQUE email,
 * `email` with an AUTOINCREMENT key and NO uniqueness on `(uid, folder)`, and
 * `email_participant` keyed by `(email_pk, email_id, role)`.
 * Each table is a map or a set; commits are not modelled (every write is
 * taken as durable at once).
 */
module Store {
  import opened Wrappers
  import opened Text

  type Uid = string
  type Folder = string

  /**
   * A Python value bound to a TEXT column that the code converts with `str()`
   * unless it is `None`: a string, or any other object with its `str()` text.
   */
  datatype FieldValue = FNone | FStr(s: string) | FOther(text: string)

  /** `str(v) if v is not None else None`, as main.py:331-334 and main.py:69-72 do. */
  function AsText(v: FieldValue): (r: Option<string>)
    ensures r.None? <==> v.FNone?
  {
    match v
    case FNone => None
    case FStr(s) => Some(s)
    case FOther(t) => Some(t)
  }

  /** A row of `downloaded_emails`, without its key. */
  datatype DownloadedRow = DownloadedRow(
    subject: string, sender: string, recipients: string, cc: string, bcc: string,
    date: string, bodyText: string, bodyHtml: string,
    attachmentDir: Option<string>, messageId: Option<string>)

  /** A row of the normalised `email` table, without its `email_pk`. */
  datatype EmailRow = EmailRow(
    uid: Uid, folder: Folder, subject: string, date: string, bodyText: string, bodyHtml: string,
    attachmentDir: Option<string>, messageId: Option<string>)

  datatype Role = From | To | Cc | Bcc

  /** A row of `email_participant`. */
  datatype Participant = Participant(emailPk: nat, emailId: nat, role: Role)

  // ---------------------------------------------------------------------------
  // Specification functions of the table operations

  /** `INSERT OR IGNORE` on a table with a primary key: the row is added only when the key is new. */
  function InsertIfAbsent<K, V>(t: map<K, V>, k: K, v: V): map<K, V> {
    if k in t then t else t[k := v]
  }

  /** An insert-or-ignore never changes a row that is already there and always leaves the key present. */
  lemma InsertIfAbsentKeeps<K, V>(t: map<K, V>, k: K, v: V)
    ensures k in InsertIfAbsent(t, k, v)
    ensures forall j :: j in t ==> j in InsertIfAbsent(t, k, v) && InsertIfAbsent(t, k, v)[j] == t[j]
    ensures k !in t ==> InsertIfAbsent(t, k, v)[k] == v
  {
  }

  /** It adds exactly one row when the key was absent and none otherwise. */
  lemma InsertIfAbsentSize<K, V>(t: map<K, V>, k: K, v: V)
    ensures |InsertIfAbsent(t, k, v)| == if k in t then |t| else |t| + 1
  {
    if k !in t {
      assert InsertIfAbsent(t, k, v).Keys == t.Keys + {k};
    }
  }

  /** Repeating an insert-or-ignore, with any row, changes nothing. */
  lemma InsertIfAbsentIdempotent<K, V>(t: map<K, V>, k: K, v: V, w: V)
    ensures InsertIfAbsent(InsertIfAbsent(t, k, v), k, w) == InsertIfAbsent(t, k, v)
  {
  }

  /**
   * The key `get_or_create_email_address` looks up (main.py:44-47,
   * migration_script.py:73-76): `None` for a falsy input, otherwise the input
   * trimmed and lower-cased. The emptiness test comes first, so a whitespace-only
   * input has the key `""`.
   */
  function AddressKey(raw: Option<string>): Option<string> {
    match raw
    case None => None
    case Some(s) => if s == "" then None else Some(Lower(Strip(s)))
  }

  /** Inputs that differ only in letter case or outer whitespace have the same key. */
  lemma AddressKeyIgnoresCaseAndSpace(a: string, b: string)
    requires a != "" && b != ""
    requires Lower(Strip(a)) == Lower(Strip(b))
    ensures AddressKey(Some(a)) == AddressKey(Some(b))
  {
  }

  /** A whitespace-only address is looked up, and stored, as the empty string. */
  lemma WhitespaceOnlyAddressKey(s: string)
    requires s != ""
    requires forall i :: 0 <= i < |s| ==> IsSpace(s[i])
    ensures AddressKey(Some(s)) == Some("")
  {
    StripEmptyIff(s);
  }

  /** Normalising an already normalised key changes nothing. */
  lemma {:induction false} AddressKeyIdempotent(s: string)
    requires Lower(Strip(s)) != ""
    ensures AddressKey(Some(Lower(Strip(s)))) == Some(Lower(Strip(s)))
  {
    var k := Lower(Strip(s));
    LowerStripCommute(Strip(s));
    StripIdempotent(s);
    LowerIdempotent(Strip(s));
    assert Strip(k) == Lower(Strip(Strip(s)));
  }

  /** The state of `email_address`: email -> email_id, and the next AUTOINCREMENT id. */
  datatype AddressTable = AddressTable(ids: map<string, nat>, next: nat)

  /** Every id is below the counter, at least 1 (so truthy), and no two emails share one. */
  ghost predicate WellFormedAddresses(t: AddressTable) {
    && 1 <= t.next
    && (forall e :: e in t.ids ==> 1 <= t.ids[e] < t.next)
    && (forall e1, e2 :: e1 in t.ids && e2 in t.ids && t.ids[e1] == t.ids[e2] ==> e1 == e2)
  }

  /**
   * `get_or_create_email_address`: `None` and no write for a falsy input;
   * otherwise the id stored for the key, or a new row with the next id.
   */
  function Resolve(t: AddressTable, raw: Option<string>): (AddressTable, Option<nat>) {
    match AddressKey(raw)
    case None => (t, None)
    case Some(k) =>
      if k in t.ids then (t, Some(t.ids[k]))
      else (AddressTable(t.ids[k := t.next], t.next + 1), Some(t.next))
  }

  /**
   * What `Resolve` promises: a falsy input writes nothing; otherwise the result
   * is the id now stored under the key, an existing id is returned unchanged
   * and a new key gets one new row with the counter's value.
   */
  lemma ResolveSpec(t: AddressTable, raw: Option<string>)
    requires WellFormedAddresses(t)
    ensures var (t', id) := Resolve(t, raw);
      && WellFormedAddresses(t')
      && (AddressKey(raw).None? ==> t' == t && id.None?)
      && (AddressKey(raw).Some? ==>
            var k := AddressKey(raw).value;
            && id.Some? && k in t'.ids && t'.ids[k] == id.value && id.value >= 1
            && (k in t.ids ==> t' == t)
            && (k !in t.ids ==> t'.ids == t.ids[k := t.next] && t'.next == t.next + 1 && id.value !in t.ids.Values))
  {
  }

  /** Resolving the same input twice: the second call returns the same id and writes nothing. */
  lemma ResolveIdempotent(t: AddressTable, raw: Option<string>)
    ensures var (t1, id1) := Resolve(t, raw);
            Resolve(t1, raw) == (t1, id1)
  {
  }

  /** Two inputs with the same key get the same id, whichever comes first. */
  lemma ResolveSameKeySameId(t: AddressTable, a: Option<string>, b: Option<string>)
    requires AddressKey(a).Some? && AddressKey(a) == AddressKey(b)
    ensures var (t1, idA) := Resolve(t, a);
            var (t2, idB) := Resolve(t1, b);
            t2 == t1 && idB == idA
  {
  }

  /** Inputs with different keys never share an id. */
  lemma ResolveDistinctKeys(t: AddressTable, a: Option<string>, b: Option<string>)
    requires WellFormedAddresses(t)
    requires AddressKey(a).Some? && AddressKey(b).Some? && AddressKey(a) != AddressKey(b)
    ensures var (t1, idA) := Resolve(t, a);
            var (t2, idB) := Resolve(t1, b);
            idA != idB
  {
    ResolveSpec(t, a);
    var (t1, idA) := Resolve(t, a);
    ResolveSpec(t1, b);
  }

  /** Resolving never removes an id: every id in use stays in use. */
  lemma ResolveKeepsIds(t: AddressTable, raw: Option<string>)
    requires WellFormedAddresses(t)
    ensures t.ids.Values <= Resolve(t, raw).0.ids.Values
  {
    var t' := Resolve(t, raw).0;
    forall i | i in t.ids.Values ensures i in t'.ids.Values {
      var e :| e in t.ids && t.ids[e] == i;
      assert e in t'.ids && t'.ids[e] == i;
    }
  }

  /** `INSERT OR IGNORE INTO email_participant`, issued only when the address resolved to an id. */
  function Link(parts: set<Participant>, pk: nat, id: Option<nat>, role: Role): set<Participant> {
    match id
    case None => parts
    case Some(i) => parts + {Participant(pk, i, role)}
  }

  /**
   * `add_participant` is idempotent: a second call with the same arguments
   * leaves both the address table and the participant set as the first left them.
   */
  lemma AddParticipantIdempotent(t: AddressTable, parts: set<Participant>, pk: nat, raw: Option<string>, role: Role)
    ensures var (t1, id1) := Resolve(t, raw);
            var p1 := Link(parts, pk, id1, role);
            var (t2, id2) := Resolve(t1, raw);
            t2 == t1 && Link(p1, pk, id2, role) == p1
  {
  }

  /** The triple added by `add_participant`, and nothing when the address is falsy. */
  lemma AddParticipantLinks(t: AddressTable, parts: set<Participant>, pk: nat, raw: Option<string>, role: Role)
    requires WellFormedAddresses(t)
    ensures var (t1, id) := Resolve(t, raw);
            && (AddressKey(raw).None? ==> Link(parts, pk, id, role) == parts)
            && (AddressKey(raw).Some? ==>
                  Link(parts, pk, id, role) == parts + {Participant(pk, t1.ids[AddressKey(raw).value], role)})
  {
    ResolveSpec(t, raw);
  }

  /** Every address already in `t` keeps its id in `t'`. */
  ghost predicate ExtendsAddresses(t: AddressTable, t': AddressTable) {
    forall e :: e in t.ids ==> e in t'.ids && t'.ids[e] == t.ids[e]
  }

  /**
   * The loop `for a in addresses: add_participant(conn, pk, a, role)`
   * (main.py:631-636, migration_script.py:193-212): resolve and link each
   * address in turn.
   */
  function LinkMany(t: AddressTable, parts: set<Participant>, pk: nat, addrs: seq<string>, role: Role)
    : (AddressTable, set<Participant>)
    decreases |addrs|
  {
    if addrs == [] then (t, parts)
    else
      var (t1, id) := Resolve(t, Some(addrs[0]));
      LinkMany(t1, Link(parts, pk, id, role), pk, addrs[1..], role)
  }

  /** Linking keeps the address table well formed, changes no stored id and removes no triple. */
  lemma {:induction false} LinkManyKeeps(t: AddressTable, parts: set<Participant>, pk: nat, addrs: seq<string>, role: Role)
    requires WellFormedAddresses(t)
    ensures var (t', parts') := LinkMany(t, parts, pk, addrs, role);
      WellFormedAddresses(t') && ExtendsAddresses(t, t') && parts <= parts'
    decreases |addrs|
  {
    if addrs != [] {
      var (t1, id) := Resolve(t, Some(addrs[0]));
      ResolveSpec(t, Some(addrs[0]));
      LinkManyKeeps(t1, Link(parts, pk, id, role), pk, addrs[1..], role);
    }
  }

  /** Every non-empty address ends up stored and linked to `pk` under `role`. */
  lemma {:induction false} LinkManyLinksEach(t: AddressTable, parts: set<Participant>, pk: nat, addrs: seq<string>, role: Role, i: nat)
    requires WellFormedAddresses(t)
    requires i < |addrs| && addrs[i] != ""
    ensures var (t', parts') := LinkMany(t, parts, pk, addrs, role);
      var k := AddressKey(Some(addrs[i])).value;
      k in t'.ids && Participant(pk, t'.ids[k], role) in parts'
    decreases i
  {
    var (t1, id) := Resolve(t, Some(addrs[0]));
    var p1 := Link(parts, pk, id, role);
    ResolveSpec(t, Some(addrs[0]));
    if i > 0 {
      assert addrs[i] == addrs[1..][i - 1];
      LinkManyLinksEach(t1, p1, pk, addrs[1..], role, i - 1);
    } else {
      LinkManyKeeps(t1, p1, pk, addrs[1..], role);
    }
  }

  /** `p` is the triple of address `a` under `role` for message `pk`, given the ids of `t`. */
  ghost predicate TripleOf(t: AddressTable, pk: nat, a: string, role: Role, p: Participant) {
    match AddressKey(Some(a))
    case None => false
    case Some(k) => k in t.ids && p == Participant(pk, t.ids[k], role)
  }

  /** `p` is the triple of one of the addresses `addrs` under `role`. */
  ghost predicate RoleTriple(t: AddressTable, pk: nat, addrs: seq<string>, role: Role, p: Participant) {
    exists a :: a in addrs && TripleOf(t, pk, a, role, p)
  }

  /** A triple of an address stays one when the table only gains ids. */
  lemma RoleTripleStable(t: AddressTable, t': AddressTable, pk: nat, addrs: seq<string>, role: Role, p: Participant)
    requires RoleTriple(t, pk, addrs, role, p) && ExtendsAddresses(t, t')
    ensures RoleTriple(t', pk, addrs, role, p)
  {
    var a :| a in addrs && TripleOf(t, pk, a, role, p);
    assert TripleOf(t', pk, a, role, p);
  }

  /** Every triple that linking adds is the triple of one of the linked addresses. */
  lemma {:induction false} LinkManyOnlyOwn(t: AddressTable, parts: set<Participant>, pk: nat, addrs: seq<string>, role: Role)
    requires WellFormedAddresses(t)
    ensures var (t', parts') := LinkMany(t, parts, pk, addrs, role);
      forall p :: p in parts' && p !in parts ==>
        p.emailPk == pk && p.role == role && p.emailId in t'.ids.Values && RoleTriple(t', pk, addrs, role, p)
    decreases |addrs|
  {
    if addrs != [] {
      var (t1, id) := Resolve(t, Some(addrs[0]));
      var p1 := Link(parts, pk, id, role);
      ResolveSpec(t, Some(addrs[0]));
      LinkManyOnlyOwn(t1, p1, pk, addrs[1..], role);
      LinkManyKeeps(t1, p1, pk, addrs[1..], role);
      var (t', parts') := LinkMany(t1, p1, pk, addrs[1..], role);
      forall p | p in parts' && p !in parts
        ensures p.emailPk == pk && p.role == role && p.emailId in t'.ids.Values && RoleTriple(t', pk, addrs, role, p)
      {
        if p in p1 {
          var k := AddressKey(Some(addrs[0])).value;
          assert p == Participant(pk, t1.ids[k], role);
          assert k in t'.ids && t'.ids[k] == t1.ids[k];
          assert TripleOf(t', pk, addrs[0], role, p);
        } else {
          var a :| a in addrs[1..] && TripleOf(t', pk, a, role, p);
          assert a in addrs;
        }
      }
    }
  }

  /**
   * Linking one message's participants: its senders under `from`, then its
   * `to`, `cc` and `bcc` addresses (main.py:630-636, migration_script.py:182-212).
   */
  function LinkParticipants(t: AddressTable, parts: set<Participant>, pk: nat,
                            senders: seq<string>, to: seq<string>, cc: seq<string>, bcc: seq<string>)
    : (AddressTable, set<Participant>)
  {
    var a := LinkMany(t, parts, pk, senders, From);
    var b := LinkMany(a.0, a.1, pk, to, To);
    var c := LinkMany(b.0, b.1, pk, cc, Cc);
    LinkMany(c.0, c.1, pk, bcc, Bcc)
  }

  /** The triple of address `a` under `role` for message `pk`, in the final tables. */
  ghost predicate Linked(t: AddressTable, parts: set<Participant>, pk: nat, a: string, role: Role) {
    match AddressKey(Some(a))
    case None => false
    case Some(k) => k in t.ids && Participant(pk, t.ids[k], role) in parts
  }

  lemma ExtendsTrans(t1: AddressTable, t2: AddressTable, t3: AddressTable)
    requires ExtendsAddresses(t1, t2) && ExtendsAddresses(t2, t3)
    ensures ExtendsAddresses(t1, t3)
  {
  }

  /** The links made for one role survive any later growth of the tables. */
  lemma LinkRoleKept(t: AddressTable, parts: set<Participant>, pk: nat, addrs: seq<string>, role: Role,
                     tEnd: AddressTable, partsEnd: set<Participant>)
    requires WellFormedAddresses(t)
    requires ExtendsAddresses(LinkMany(t, parts, pk, addrs, role).0, tEnd)
    requires LinkMany(t, parts, pk, addrs, role).1 <= partsEnd
    ensures forall a :: a in addrs && a != "" ==> Linked(tEnd, partsEnd, pk, a, role)
  {
    var (t', parts') := LinkMany(t, parts, pk, addrs, role);
    forall x | x in addrs && x != "" ensures Linked(tEnd, partsEnd, pk, x, role) {
      var i :| 0 <= i < |addrs| && addrs[i] == x;
      LinkManyLinksEach(t, parts, pk, addrs, role, i);
      var k := AddressKey(Some(x)).value;
      assert k in t'.ids && tEnd.ids[k] == t'.ids[k];
    }
  }

  /** `p` is the triple of one of a message's senders, `to`, `cc` or `bcc` addresses under that role. */
  ghost predicate MessageTriple(t: AddressTable, pk: nat, senders: seq<string>, to: seq<string>, cc: seq<string>,
                                bcc: seq<string>, p: Participant)
  {
    || RoleTriple(t, pk, senders, From, p)
    || RoleTriple(t, pk, to, To, p)
    || RoleTriple(t, pk, cc, Cc, p)
    || RoleTriple(t, pk, bcc, Bcc, p)
  }

  /**
   * After linking a message, every non-empty address of each list is linked
   * under its own role, no stored id has changed, no triple was removed, and
   * the only new triples are the message's own: each is the triple of one of
   * its addresses under that address's role.
   */
  lemma LinkParticipantsSpec(t: AddressTable, parts: set<Participant>, pk: nat,
                             senders: seq<string>, to: seq<string>, cc: seq<string>, bcc: seq<string>)
    requires WellFormedAddresses(t)
    ensures var (t', parts') := LinkParticipants(t, parts, pk, senders, to, cc, bcc);
      && WellFormedAddresses(t') && ExtendsAddresses(t, t') && parts <= parts'
      && (forall a :: a in senders && a != "" ==> Linked(t', parts', pk, a, From))
      && (forall a :: a in to && a != "" ==> Linked(t', parts', pk, a, To))
      && (forall a :: a in cc && a != "" ==> Linked(t', parts', pk, a, Cc))
      && (forall a :: a in bcc && a != "" ==> Linked(t', parts', pk, a, Bcc))
      && (forall p :: p in parts' && p !in parts ==> p.emailPk == pk && p.emailId in t'.ids.Values)
      && (forall p :: p in parts' && p !in parts ==> MessageTriple(t', pk, senders, to, cc, bcc, p))
  {
    var a := LinkMany(t, parts, pk, senders, From);
    var b := LinkMany(a.0, a.1, pk, to, To);
    var c := LinkMany(b.0, b.1, pk, cc, Cc);
    var d := LinkMany(c.0, c.1, pk, bcc, Bcc);
    LinkManyKeeps(t, parts, pk, senders, From);
    LinkManyKeeps(a.0, a.1, pk, to, To);
    LinkManyKeeps(b.0, b.1, pk, cc, Cc);
    LinkManyKeeps(c.0, c.1, pk, bcc, Bcc);
    LinkManyOnlyOwn(t, parts, pk, senders, From);
    LinkManyOnlyOwn(a.0, a.1, pk, to, To);
    LinkManyOnlyOwn(b.0, b.1, pk, cc, Cc);
    LinkManyOnlyOwn(c.0, c.1, pk, bcc, Bcc);
    ExtendsTrans(c.0, d.0, d.0);
    ExtendsTrans(b.0, c.0, d.0);
    ExtendsTrans(a.0, b.0, d.0);
    LinkRoleKept(t, parts, pk, senders, From, d.0, d.1);
    LinkRoleKept(a.0, a.1, pk, to, To, d.0, d.1);
    LinkRoleKept(b.0, b.1, pk, cc, Cc, d.0, d.1);
    LinkRoleKept(c.0, c.1, pk, bcc, Bcc, d.0, d.1);
    forall p | p in d.1 && p !in parts ensures p.emailPk == pk && p.emailId in d.0.ids.Values {
      if p in c.1 {
        var e :| e in c.0.ids && c.0.ids[e] == p.emailId;
        assert d.0.ids[e] == p.emailId;
      }
    }
    forall p | p in d.1 && p !in parts ensures MessageTriple(d.0, pk, senders, to, cc, bcc, p) {
      if p in a.1 {
        RoleTripleStable(a.0, d.0, pk, senders, From, p);
      } else if p in b.1 {
        RoleTripleStable(b.0, d.0, pk, to, To, p);
      } else if p in c.1 {
        RoleTripleStable(c.0, d.0, pk, cc, Cc, p);
      }
    }
  }

  /** The numeric uids of a set of stored uids, as `CAST(uid AS INTEGER)` reads them. */
  function UidNumbers(uids: set<Uid>): set<nat> {
    set u | u in uids :: CastInteger(u)
  }

  /** The largest element of a non-empty set of numbers. */
  function SetMax(s: set<nat>): (m: nat)
    requires s != {}
    ensures m in s && forall x :: x in s ==> x <= m
  {
    SetMaxExists(s);
    var m :| m in s && forall x :: x in s ==> x <= m;
    m
  }

  lemma {:induction false} SetMaxExists(s: set<nat>)
    requires s != {}
    ensures exists m :: m in s && forall x :: x in s ==> x <= m
    decreases |s|
  {
    var y :| y in s;
    if s != {y} {
      var rest := s - {y};
      SetMaxExists(rest);
      var m :| m in rest && forall x :: x in rest ==> x <= m;
      var top := if m < y then y else m;
      forall x | x in s ensures x <= top {
        if x != y { assert x in rest; }
      }
    }
  }

  /** The uids stored for `folder` in the `downloaded_emails` rows `d`. */
  function StoredUids(d: map<(Uid, Folder), DownloadedRow>, folder: Folder): (r: set<Uid>)
    ensures forall u :: u in r <==> (u, folder) in d
  {
    set k | k in d && k.1 == folder :: k.0
  }

  /** `SELECT MAX(CAST(uid AS INTEGER)) ...` over a set of uids: `None` when the set is empty. */
  function MaxUidOf(uids: set<Uid>): (r: Option<nat>)
    ensures r.None? <==> uids == {}
    ensures r.Some? ==> (exists u :: u in uids && CastInteger(u) == r.value)
    ensures r.Some? ==> forall u :: u in uids ==> CastInteger(u) <= r.value
  {
    var nums := UidNumbers(uids);
    if uids == {} then None
    else
      assert nums != {} by {
        var u :| u in uids;
        assert CastInteger(u) in nums;
      }
      var m := SetMax(nums);
      assert forall u :: u in uids ==> CastInteger(u) in nums;
      Some(m)
  }

  /** The maximum is numeric: "10" is above "9" although it sorts before it as text. */
  lemma MaxUidIsNumeric()
    ensures MaxUidOf({"9", "10"}) == Some(10)
  {
    var r := MaxUidOf({"9", "10"});
    assert CastInteger("9") == 9 by { assert DigitPrefix("9") == "9"; }
    assert CastInteger("10") == 10 by {
      assert DigitPrefix("10") == "10";
      assert "10"[..1] == "1";
    }
  }

  /**
   * The database: one field per table. `emails` has no key but its
   * AUTOINCREMENT `email_pk`, so inserting the same `(uid, folder)` twice makes
   * two rows.
   */
  class Database {
    var downloaded: map<(Uid, Folder), DownloadedRow>
    var uidValidity: map<Folder, int>
    var addresses: AddressTable
    var emails: map<nat, EmailRow>
    var nextEmailPk: nat
    var participants: set<Participant>

    /**
     * Key and reference invariants of these tables. The primary and unique
     * keys are SQLite's; `email_participant` declares no foreign key, so the
     * references from it hold because rows are inserted in that order.
     */
    ghost predicate Valid()
      reads this
    {
      && WellFormedAddresses(addresses)
      && 1 <= nextEmailPk
      && (forall pk :: pk in emails ==> 1 <= pk < nextEmailPk)
      && (forall p :: p in participants ==> p.emailPk in emails && p.emailId in addresses.ids.Values)
    }

    /** A freshly created database with empty tables. */
    constructor ()
      ensures Valid()
      ensures downloaded == map[] && uidValidity == map[] && addresses == AddressTable(map[], 1)
      ensures emails == map[] && nextEmailPk == 1 && participants == {}
    {
      downloaded := map[];
      uidValidity := map[];
      addresses := AddressTable(map[], 1);
      emails := map[];
      nextEmailPk := 1;
      participants := {};
    }

    /** `is_email_downloaded` (main.py:310-313). */
    predicate IsEmailDownloaded(uid: Uid, folder: Folder)
      reads this
    {
      (uid, folder) in downloaded
    }

    /** `get_existing_uids` (main.py:118-121): the uids stored for `folder`. */
    function ExistingUids(folder: Folder): (r: set<Uid>)
      reads this
      ensures forall u :: u in r <==> (u, folder) in downloaded
    {
      StoredUids(downloaded, folder)
    }

    /** `get_max_uid` (main.py:37-41): the numeric maximum of the folder's stored uids, or `None`. */
    function GetMaxUid(folder: Folder): (r: Option<nat>)
      reads this
      ensures r.None? <==> forall u :: (u, folder) !in downloaded
      ensures r.Some? ==> exists u :: (u, folder) in downloaded && CastInteger(u) == r.value
      ensures r.Some? ==> forall u :: (u, folder) in downloaded ==> CastInteger(u) <= r.value
    {
      MaxUidOf(ExistingUids(folder))
    }

    /** `get_uidvalidity` (main.py:295-299). */
    function GetUidValidity(folder: Folder): Option<int>
      reads this
    {
      if folder in uidValidity then Some(uidValidity[folder]) else None
    }

    /** `set_uidvalidity` (main.py:302-307): INSERT OR REPLACE, so the folder's value becomes `v`. */
    method SetUidValidity(folder: Folder, v: int)
      modifies this`uidValidity
      ensures uidValidity == old(uidValidity)[folder := v]
    {
      uidValidity := uidValidity[folder := v];
    }

    /**
     * `mark_email_downloaded` (main.py:316-341): insert-or-ignore on
     * `(uid, folder)`; a non-string attachment directory or message id is stored
     * as its `str()`, `None` as NULL.
     */
    method MarkEmailDownloaded(
      uid: Uid, folder: Folder, subject: string, sender: string,
      recipients: string, cc: string, bcc: string, date: string,
      bodyText: string, bodyHtml: string, attachmentDir: FieldValue, messageId: FieldValue)
      requires Valid()
      modifies this`downloaded
      ensures Valid()
      ensures downloaded == InsertIfAbsent(old(downloaded), (uid, folder),
        DownloadedRow(subject, sender, recipients, cc, bcc, date, bodyText, bodyHtml, AsText(attachmentDir), AsText(messageId)))
      ensures IsEmailDownloaded(uid, folder)
    {
      var row := DownloadedRow(subject, sender, recipients, cc, bcc, date, bodyText, bodyHtml,
                               AsText(attachmentDir), AsText(messageId));
      if (uid, folder) !in downloaded {
        downloaded := downloaded[(uid, folder) := row];
      }
    }

    /** `get_or_create_email_address` (main.py:44-55; the same logic at migration_script.py:73-84). */
    method GetOrCreateEmailAddress(raw: Option<string>) returns (id: Option<nat>)
      requires Valid()
      modifies this`addresses
      ensures Valid()
      ensures (addresses, id) == Resolve(old(addresses), raw)
    {
      ResolveSpec(addresses, raw);
      ResolveKeepsIds(addresses, raw);
      var t;
      t, id := Resolve(addresses, raw).0, Resolve(addresses, raw).1;
      addresses := t;
    }

    /**
     * `get_or_create_email` of main.py (main.py:58-81). The insert always adds a
     * row (the table has no key on `(uid, folder)`). The lookup compares
     * `message_id = ?`, which is never true for NULL: with no message id nothing
     * is found and `fetchone()[0]` raises, reported here as `None`. Otherwise
     * it returns the key of some row with this uid, folder and message id
     * (the query has no ORDER BY).
     */
    method GetOrCreateEmail(
      uid: Uid, folder: Folder, subject: string, date: string, bodyText: string, bodyHtml: string,
      attachmentDir: FieldValue, messageId: FieldValue) returns (pk: Option<nat>)
      requires Valid()
      modifies this`emails, this`nextEmailPk
      ensures Valid()
      ensures emails == old(emails)[old(nextEmailPk) :=
        EmailRow(uid, folder, subject, date, bodyText, bodyHtml, AsText(attachmentDir), AsText(messageId))]
      ensures nextEmailPk == old(nextEmailPk) + 1
      ensures pk.None? <==> messageId.FNone?
      ensures pk.Some? ==> pk.value in emails && emails[pk.value].uid == uid && emails[pk.value].folder == folder
                           && emails[pk.value].messageId == AsText(messageId)
    {
      var row := EmailRow(uid, folder, subject, date, bodyText, bodyHtml, AsText(attachmentDir), AsText(messageId));
      emails := emails[nextEmailPk := row];
      nextEmailPk := nextEmailPk + 1;
      assert emails[nextEmailPk - 1] == row;
      if messageId.FNone? {
        pk := None;
      } else {
        var found :| found in emails && emails[found].uid == uid && emails[found].folder == folder
                     && emails[found].messageId == AsText(messageId);
        pk := Some(found);
      }
    }

    /**
     * `get_or_create_email` of migration_script.py (migration_script.py:87-96):
     * the insert leaves `message_id` NULL and always adds a row; the lookup is by
     * uid and folder only, so it returns the key of some row with them, maybe an
     * older one.
     */
    method GetOrCreateEmailByUid(
      uid: Uid, folder: Folder, subject: string, date: string, bodyText: string, bodyHtml: string,
      attachmentDir: Option<string>) returns (pk: nat)
      requires Valid()
      modifies this`emails, this`nextEmailPk
      ensures Valid()
      ensures emails == old(emails)[old(nextEmailPk) :=
        EmailRow(uid, folder, subject, date, bodyText, bodyHtml, attachmentDir, None)]
      ensures nextEmailPk == old(nextEmailPk) + 1
      ensures pk in emails && emails[pk].uid == uid && emails[pk].folder == folder
    {
      emails := emails[nextEmailPk := EmailRow(uid, folder, subject, date, bodyText, bodyHtml, attachmentDir, None)];
      nextEmailPk := nextEmailPk + 1;
      assert emails[nextEmailPk - 1].uid == uid && emails[nextEmailPk - 1].folder == folder;
      pk :| pk in emails && emails[pk].uid == uid && emails[pk].folder == folder;
    }

    /**
     * `add_participant` (main.py:103-111), and the identical resolve-then-insert
     * steps of migration_script.py:183-212: resolve the address, then insert the
     * triple unless the address was falsy.
     */
    method AddParticipant(pk: nat, raw: Option<string>, role: Role)
      requires Valid() && pk in emails
      modifies this`addresses, this`participants
      ensures Valid()
      ensures addresses == Resolve(old(addresses), raw).0
      ensures participants == Link(old(participants), pk, Resolve(old(addresses), raw).1, role)
    {
      ResolveSpec(addresses, raw);
      var id := GetOrCreateEmailAddress(raw);
      if id.Some? {
        var k := AddressKey(raw).value;
        assert k in addresses.ids && addresses.ids[k] == id.value;
        var p := Participant(pk, id.value, role);
        assert p.emailId in addresses.ids.Values;
        participants := participants + {p};
      }
    }

    /** Linking all participants of one message. */
    method LinkMessage(pk: nat, senders: seq<string>, to: seq<string>, cc: seq<string>, bcc: seq<string>)
      requires Valid() && pk in emails
      modifies this`addresses, this`participants
      ensures Valid()
      ensures (addresses, participants) == LinkParticipants(old(addresses), old(participants), pk, senders, to, cc, bcc)
    {
      LinkAll(pk, senders, From);
      LinkAll(pk, to, To);
      LinkAll(pk, cc, Cc);
      LinkAll(pk, bcc, Bcc);
    }

    /** Linking every address of a list under one role, left to right. */
    method LinkAll(pk: nat, addrs: seq<string>, role: Role)
      requires Valid() && pk in emails
      modifies this`addresses, this`participants
      ensures Valid()
      ensures (addresses, participants) == LinkMany(old(addresses), old(participants), pk, addrs, role)
    {
      var i := 0;
      while i < |addrs|
        invariant 0 <= i <= |addrs|
        invariant Valid()
        invariant LinkMany(addresses, participants, pk, addrs[i..], role)
               == LinkMany(old(addresses), old(participants), pk, addrs, role)
      {
        assert addrs[i..][1..] == addrs[i + 1..];
        AddParticipant(pk, Some(addrs[i]), role);
        i := i + 1;
      }
    }
  }
}
