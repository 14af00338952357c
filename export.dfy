/**
 * The export of `downloaded_emails` to JSON files by month
 * (export_sqlite_to_json_chunks.py): each row becomes a record whose address
 * fields are lists, is buffered under its `YYYY-MM` key, and a month's buffer
 * is written to `<month>-<part>.json` before it would grow past the size cap,
 * and at the end.
 *
 * Two library computations are parameters of the exporter: `size` is the
 * byte length of a record's JSON encoding (`json.dumps` then UTF-8), and
 * `monthOf` is `datetime.fromisoformat(date).strftime("%Y-%m")`, with `None`
 * where it raises. A written file is represented by its name and the records
 * in it.
 */
module Export {
  import opened Wrappers
  import opened Text
  import opened Store

  /** `int(29.5 * 1024 * 1024)`. */
  const MaxFileBytes: nat := 30932992
  const Unknown: string := "unknown"

  /** The dictionary `row_to_dict` returns for a row of `downloaded_emails`. */
  datatype ExportedEmail = ExportedEmail(
    uid: Uid, folder: Folder, subject: string, sender: string,
    recipients: seq<string>, cc: seq<string>, bcc: seq<string>,
    date: string, bodyText: string, bodyHtml: string,
    attachmentDir: Option<string>, messageId: Option<string>)

  /** A written file: its name, the month and part it belongs to, and its records in order. */
  datatype Chunk = Chunk(name: string, month: string, part: nat, emails: seq<ExportedEmail>)

  /** `[x.strip() for x in pieces]`. */
  function StripAll(pieces: seq<string>): (r: seq<string>)
    ensures |r| == |pieces|
    ensures forall i :: 0 <= i < |r| ==> r[i] == Strip(pieces[i]) && IsStripped(r[i])
  {
    seq(|pieces|, i requires 0 <= i < |pieces| => Strip(pieces[i]))
  }

  /**
   * A recipient field as `row_to_dict` turns it into a list: `[]` for an
   * empty field, otherwise the pieces between commas, stripped, with empty
   * pieces kept.
   */
  function SplitField(raw: string): (r: seq<string>)
    ensures raw == "" ==> r == []
    ensures raw != "" ==> |r| == CountIn(raw, {','}) + 1
    ensures forall i :: 0 <= i < |r| ==> IsStripped(r[i])
  {
    if raw == "" then [] else StripAll(Split(raw, {','}))
  }

  /** `row_to_dict`: the row with its three address fields split into lists. */
  function RowToDict(uid: Uid, folder: Folder, row: DownloadedRow): ExportedEmail {
    ExportedEmail(uid, folder, row.subject, row.sender,
                  SplitField(row.recipients), SplitField(row.cc), SplitField(row.bcc),
                  row.date, row.bodyText, row.bodyHtml, row.attachmentDir, row.messageId)
  }

  /** Each piece prefixed with the space that follows a comma in `", ".join`. */
  function Spaced(pieces: seq<string>): (r: seq<string>)
    ensures |r| == |pieces|
    ensures forall i :: 0 <= i < |r| ==> r[i] == " " + pieces[i]
  {
    seq(|pieces|, i requires 0 <= i < |pieces| => " " + pieces[i])
  }

  lemma {:induction false} SplitJoinLead(xs: seq<string>, lead: string)
    requires |xs| >= 1 && Avoids(lead, {','})
    requires forall i :: 0 <= i < |xs| ==> Avoids(xs[i], {','})
    ensures Split(lead + Join(xs, ", "), {','}) == [lead + xs[0]] + Spaced(xs[1..])
    decreases |xs|
  {
    var head := lead + xs[0];
    assert Avoids(head, {','}) by {
      forall j | 0 <= j < |head| ensures head[j] !in {','} {
        if j >= |lead| { assert head[j] == xs[0][j - |lead|]; }
      }
    }
    if |xs| == 1 {
      SplitAvoiding(head, {','});
    } else {
      var tail := Join(xs[1..], ", ");
      assert lead + Join(xs, ", ") == head + [','] + (" " + tail);
      SplitAtDelimiter(head, ',', " " + tail, {','});
      SplitAvoiding(head, {','});
      SplitJoinLead(xs[1..], " ");
      assert Spaced(xs[1..]) == [" " + xs[1..][0]] + Spaced(xs[1..][1..]);
    }
  }

  lemma JoinStartsWith(xs: seq<string>, sep: string)
    requires xs != []
    ensures |Join(xs, sep)| >= |xs[0]|
  {
  }

  lemma StripSpaced(x: string)
    requires IsStripped(x)
    ensures Strip(" " + x) == x
  {
    assert " " + x == [' '] + x;
    StripSpaceCons(' ', x);
    StripOfStripped(x);
  }

  /**
   * The lists the backup stores as `", ".join(...)` come back unchanged from
   * `row_to_dict`, provided the addresses are non-empty, stripped and free of
   * commas.
   */
  lemma SplitFieldOfJoin(xs: seq<string>)
    requires forall i :: 0 <= i < |xs| ==> xs[i] != "" && IsStripped(xs[i]) && Avoids(xs[i], {','})
    ensures SplitField(Join(xs, ", ")) == xs
  {
    if xs != [] {
      JoinStartsWith(xs, ", ");
      SplitJoined(xs);
      StripAllSpaced(xs);
    }
  }

  lemma SplitJoined(xs: seq<string>)
    requires xs != []
    requires forall i :: 0 <= i < |xs| ==> Avoids(xs[i], {','})
    ensures Split(Join(xs, ", "), {','}) == [xs[0]] + Spaced(xs[1..])
  {
    var joined := Join(xs, ", ");
    SplitJoinLead(xs, "");
    assert "" + joined == joined;
    assert "" + xs[0] == xs[0];
  }

  lemma StripAllSpaced(xs: seq<string>)
    requires xs != []
    requires forall i :: 0 <= i < |xs| ==> IsStripped(xs[i])
    ensures StripAll([xs[0]] + Spaced(xs[1..])) == xs
  {
    var r := StripAll([xs[0]] + Spaced(xs[1..]));
    assert |r| == |xs|;
    forall i | 0 <= i < |xs| ensures r[i] == xs[i] {
      StripSpacedPiece(xs, i);
    }
  }

  lemma StripSpacedPiece(xs: seq<string>, i: nat)
    requires i < |xs|
    requires forall i :: 0 <= i < |xs| ==> IsStripped(xs[i])
    ensures Strip(([xs[0]] + Spaced(xs[1..]))[i]) == xs[i]
  {
    if i == 0 {
      StripOfStripped(xs[0]);
    } else {
      assert ([xs[0]] + Spaced(xs[1..]))[i] == Spaced(xs[1..])[i - 1] == " " + xs[i];
      StripSpaced(xs[i]);
    }
  }

  /** The month key of a record: its `YYYY-MM`, or `"unknown"` when the date does not parse. */
  function MonthKey(monthOf: string -> Option<string>, e: ExportedEmail): (r: string)
    ensures monthOf(e.date).None? ==> r == Unknown
    ensures monthOf(e.date).Some? ==> r == monthOf(e.date).value
  {
    if monthOf(e.date).Some? then monthOf(e.date).value else Unknown
  }

  /** `f"{month}-{part:03}.json"`. */
  function FileName(month: string, part: nat): string {
    month + "-" + Pad3(part) + ".json"
  }

  /** The name is the month, `-`, a digit string whose value is the part, and `.json`. */
  lemma FileNameSpec(month: string, part: nat)
    ensures var r := FileName(month, part);
      && |r| >= |month| + 9
      && r[..|month|] == month && r[|month|] == '-'
      && r[|r| - 5..] == ".json"
      && IsDigits(r[|month| + 1..|r| - 5]) && DecimalValue(r[|month| + 1..|r| - 5]) == part
  {
    var r := FileName(month, part);
    assert r[|month| + 1..|r| - 5] == Pad3(part);
  }

  /** The running size of a buffer: the sum of its records' sizes. */
  function Total(size: ExportedEmail -> nat, es: seq<ExportedEmail>): nat {
    if es == [] then 0 else Total(size, es[..|es| - 1]) + size(es[|es| - 1])
  }

  /** The records of `es` whose month key is `m`, in order. */
  function OfMonth(monthOf: string -> Option<string>, es: seq<ExportedEmail>, m: string): (r: seq<ExportedEmail>)
    ensures forall x :: x in r ==> x in es && MonthKey(monthOf, x) == m
  {
    if es == [] then []
    else OfMonth(monthOf, es[..|es| - 1], m)
         + (if MonthKey(monthOf, es[|es| - 1]) == m then [es[|es| - 1]] else [])
  }

  /** The records written to the files of month `m`, file after file. */
  function MonthEmails(files: seq<Chunk>, m: string): seq<ExportedEmail> {
    if files == [] then []
    else MonthEmails(files[..|files| - 1], m)
         + (if files[|files| - 1].month == m then files[|files| - 1].emails else [])
  }

  /** The part numbers of the files of month `m`, in the order they were written. */
  function MonthParts(files: seq<Chunk>, m: string): seq<nat> {
    if files == [] then []
    else MonthParts(files[..|files| - 1], m)
         + (if files[|files| - 1].month == m then [files[|files| - 1].part] else [])
  }

  /** The records of all files, file after file. */
  function AllEmails(files: seq<Chunk>): seq<ExportedEmail> {
    if files == [] then [] else AllEmails(files[..|files| - 1]) + files[|files| - 1].emails
  }

  /** `1, 2, ..., n`. */
  function PartsUpTo(n: nat): (r: seq<nat>)
    ensures |r| == n && forall i :: 0 <= i < n ==> r[i] == i + 1
  {
    seq(n, i requires 0 <= i < n => i + 1)
  }

  /**
   * A written file is non-empty, is named after its month and part, holds
   * only records of its month, and is within the cap unless it holds a
   * single record.
   */
  ghost predicate WellFormed(size: ExportedEmail -> nat, monthOf: string -> Option<string>, c: Chunk) {
    && c.emails != []
    && c.name == FileName(c.month, c.part)
    && (forall x :: x in c.emails ==> MonthKey(monthOf, x) == c.month)
    && (|c.emails| == 1 || Total(size, c.emails) <= MaxFileBytes)
  }

  lemma MonthEmailsSnoc(files: seq<Chunk>, c: Chunk, m: string)
    ensures MonthEmails(files + [c], m) == MonthEmails(files, m) + (if c.month == m then c.emails else [])
    ensures MonthParts(files + [c], m) == MonthParts(files, m) + (if c.month == m then [c.part] else [])
    ensures AllEmails(files + [c]) == AllEmails(files) + c.emails
  {
    assert (files + [c])[..|files|] == files;
  }

  lemma OfMonthSnoc(monthOf: string -> Option<string>, es: seq<ExportedEmail>, e: ExportedEmail, m: string)
    ensures OfMonth(monthOf, es + [e], m) == OfMonth(monthOf, es, m) + (if MonthKey(monthOf, e) == m then [e] else [])
  {
    assert (es + [e])[..|es|] == es;
  }

  lemma TotalSnoc(size: ExportedEmail -> nat, es: seq<ExportedEmail>, e: ExportedEmail)
    ensures Total(size, es + [e]) == Total(size, es) + size(e)
  {
    assert (es + [e])[..|es|] == es;
  }

  /** Counting one record over all files is counting it in the files of its own month. */
  lemma {:induction false} CountInOwnMonth(monthOf: string -> Option<string>, files: seq<Chunk>, e: ExportedEmail)
    requires forall i, x :: 0 <= i < |files| && x in files[i].emails ==> MonthKey(monthOf, x) == files[i].month
    ensures multiset(AllEmails(files))[e] == multiset(MonthEmails(files, MonthKey(monthOf, e)))[e]
    decreases |files|
  {
    if files != [] {
      var init := files[..|files| - 1];
      var c := files[|files| - 1];
      CountInOwnMonth(monthOf, init, e);
      if c.month != MonthKey(monthOf, e) {
        assert e !in c.emails;
      }
    }
  }

  /** Counting one record among those of its own month is counting it among all. */
  lemma {:induction false} CountOfOwnMonth(monthOf: string -> Option<string>, es: seq<ExportedEmail>, e: ExportedEmail)
    ensures multiset(OfMonth(monthOf, es, MonthKey(monthOf, e)))[e] == multiset(es)[e]
    decreases |es|
  {
    if es != [] {
      var init := es[..|es| - 1];
      CountOfOwnMonth(monthOf, init, e);
      assert es == init + [es[|es| - 1]];
    }
  }

  /** The records of the rows, in table order. */
  function Exported(rows: seq<(Uid, Folder, DownloadedRow)>): (r: seq<ExportedEmail>)
    ensures |r| == |rows|
    ensures forall i :: 0 <= i < |rows| ==> r[i] == RowToDict(rows[i].0, rows[i].1, rows[i].2)
  {
    seq(|rows|, i requires 0 <= i < |rows| => RowToDict(rows[i].0, rows[i].1, rows[i].2))
  }

  /** Every buffered month has a size and a part counter, and `months` lists exactly the buffered months. */
  ghost predicate KeysAgree(months: seq<string>, buffers: map<string, seq<ExportedEmail>>,
                            sizes: map<string, nat>, counters: map<string, nat>) {
    && (forall m :: m in buffers <==> m in months)
    && sizes.Keys == buffers.Keys && counters.Keys == buffers.Keys
  }

  /** `sizes[m]` is the total size of `buffers[m]`, which is within the cap unless it holds one record. */
  ghost predicate SizesAgree(size: ExportedEmail -> nat, buffers: map<string, seq<ExportedEmail>>,
                             sizes: map<string, nat>)
    requires sizes.Keys == buffers.Keys
  {
    forall m :: m in buffers ==> sizes[m] == Total(size, buffers[m]) && (|buffers[m]| <= 1 || sizes[m] <= MaxFileBytes)
  }

  /** The files of a buffered month are its parts `1 .. counters[m] - 1`; other months have none. */
  ghost predicate PartsAgree(buffers: map<string, seq<ExportedEmail>>, counters: map<string, nat>, written: seq<Chunk>)
    requires counters.Keys == buffers.Keys
  {
    forall m {:trigger MonthParts(written, m)} ::
      if m in buffers then counters[m] >= 1 && MonthParts(written, m) == PartsUpTo(counters[m] - 1)
                else MonthParts(written, m) == []
  }

  /** A month's files followed by its buffer are its records so far, in order. */
  ghost predicate ContentsAgree(monthOf: string -> Option<string>, buffers: map<string, seq<ExportedEmail>>,
                                written: seq<Chunk>, seen: seq<ExportedEmail>) {
    forall m {:trigger MonthEmails(written, m)} {:trigger OfMonth(monthOf, seen, m)} ::
      MonthEmails(written, m) + (if m in buffers then buffers[m] else []) == OfMonth(monthOf, seen, m)
  }

  ghost predicate FilesWellFormed(size: ExportedEmail -> nat, monthOf: string -> Option<string>, written: seq<Chunk>) {
    forall i :: 0 <= i < |written| ==> WellFormed(size, monthOf, written[i])
  }

  /** Everything the export loop keeps true. */
  ghost predicate Inv(size: ExportedEmail -> nat, monthOf: string -> Option<string>,
                      months: seq<string>, buffers: map<string, seq<ExportedEmail>>,
                      sizes: map<string, nat>, counters: map<string, nat>,
                      written: seq<Chunk>, seen: seq<ExportedEmail>) {
    && KeysAgree(months, buffers, sizes, counters)
    && SizesAgree(size, buffers, sizes)
    && PartsAgree(buffers, counters, written)
    && ContentsAgree(monthOf, buffers, written, seen)
    && FilesWellFormed(size, monthOf, written)
  }

  /** The records of a buffer all belong to its month. */
  lemma BufferInMonth(monthOf: string -> Option<string>, buffers: map<string, seq<ExportedEmail>>,
                      written: seq<Chunk>, seen: seq<ExportedEmail>, m: string)
    requires ContentsAgree(monthOf, buffers, written, seen) && m in buffers
    ensures forall x :: x in buffers[m] ==> MonthKey(monthOf, x) == m
  {
    assert MonthEmails(written, m) + buffers[m] == OfMonth(monthOf, seen, m);
    forall x | x in buffers[m] ensures MonthKey(monthOf, x) == m {
      assert x in MonthEmails(written, m) + buffers[m];
    }
  }

  /** Writing a non-empty buffer as its month's next part keeps the invariant. */
  lemma FlushStep(size: ExportedEmail -> nat, monthOf: string -> Option<string>,
                  months: seq<string>, buffers: map<string, seq<ExportedEmail>>,
                  sizes: map<string, nat>, counters: map<string, nat>,
                  written: seq<Chunk>, seen: seq<ExportedEmail>, m: string,
                  buffers': map<string, seq<ExportedEmail>>, sizes': map<string, nat>,
                  counters': map<string, nat>, written': seq<Chunk>)
    requires Inv(size, monthOf, months, buffers, sizes, counters, written, seen)
    requires m in buffers && buffers[m] != []
    requires buffers' == buffers[m := []] && sizes' == sizes[m := 0] && counters' == counters[m := counters[m] + 1]
    requires written' == written + [Chunk(FileName(m, counters[m]), m, counters[m], buffers[m])]
    ensures Inv(size, monthOf, months, buffers', sizes', counters', written', seen)
  {
    var c := Chunk(FileName(m, counters[m]), m, counters[m], buffers[m]);
    FlushKeys(months, buffers, sizes, counters, m);
    FlushSizes(size, buffers, sizes, m);
    FlushFiles(size, monthOf, buffers, sizes, written, seen, c);
    FlushParts(buffers, counters, written, c);
    FlushContents(monthOf, buffers, written, seen, c);
  }

  lemma FlushKeys(months: seq<string>, buffers: map<string, seq<ExportedEmail>>,
                  sizes: map<string, nat>, counters: map<string, nat>, m: string)
    requires KeysAgree(months, buffers, sizes, counters) && m in buffers
    ensures KeysAgree(months, buffers[m := []], sizes[m := 0], counters[m := counters[m] + 1])
  {
  }

  lemma FlushSizes(size: ExportedEmail -> nat, buffers: map<string, seq<ExportedEmail>>,
                   sizes: map<string, nat>, m: string)
    requires sizes.Keys == buffers.Keys && SizesAgree(size, buffers, sizes) && m in buffers
    ensures SizesAgree(size, buffers[m := []], sizes[m := 0])
  {
  }

  lemma FlushFiles(size: ExportedEmail -> nat, monthOf: string -> Option<string>,
                   buffers: map<string, seq<ExportedEmail>>, sizes: map<string, nat>,
                   written: seq<Chunk>, seen: seq<ExportedEmail>, c: Chunk)
    requires sizes.Keys == buffers.Keys && SizesAgree(size, buffers, sizes)
    requires ContentsAgree(monthOf, buffers, written, seen) && FilesWellFormed(size, monthOf, written)
    requires c.month in buffers && c.emails == buffers[c.month] && c.emails != []
    requires c.name == FileName(c.month, c.part)
    ensures FilesWellFormed(size, monthOf, written + [c])
  {
    BufferInMonth(monthOf, buffers, written, seen, c.month);
    assert WellFormed(size, monthOf, c);
    var written' := written + [c];
    forall i | 0 <= i < |written'| ensures WellFormed(size, monthOf, written'[i]) {
      if i < |written| { assert written'[i] == written[i]; }
    }
  }

  lemma FlushParts(buffers: map<string, seq<ExportedEmail>>, counters: map<string, nat>, written: seq<Chunk>, c: Chunk)
    requires counters.Keys == buffers.Keys && PartsAgree(buffers, counters, written)
    requires c.month in buffers && c.part == counters[c.month]
    ensures PartsAgree(buffers[c.month := []], counters[c.month := c.part + 1], written + [c])
  {
    forall m ensures MonthParts(written + [c], m) == MonthParts(written, m) + (if c.month == m then [c.part] else []) {
      MonthEmailsSnoc(written, c, m);
    }
    var before := MonthParts(written, c.month);
    assert counters[c.month] >= 1 && before == PartsUpTo(counters[c.month] - 1);
    assert PartsUpTo(c.part - 1) + [c.part] == PartsUpTo(c.part);
  }

  lemma FlushContents(monthOf: string -> Option<string>, buffers: map<string, seq<ExportedEmail>>,
                      written: seq<Chunk>, seen: seq<ExportedEmail>, c: Chunk)
    requires ContentsAgree(monthOf, buffers, written, seen)
    requires c.month in buffers && c.emails == buffers[c.month]
    ensures ContentsAgree(monthOf, buffers[c.month := []], written + [c], seen)
  {
    var buffers' := buffers[c.month := []];
    forall m ensures MonthEmails(written + [c], m) + (if m in buffers' then buffers'[m] else []) == OfMonth(monthOf, seen, m) {
      MonthEmailsSnoc(written, c, m);
      if m == c.month {
        assert MonthEmails(written, m) + c.emails + [] == MonthEmails(written, m) + c.emails;
      }
    }
  }

  /** Giving a new month an empty buffer, a zero size and part counter 1 keeps the invariant. */
  lemma NewMonthStep(size: ExportedEmail -> nat, monthOf: string -> Option<string>,
                     months: seq<string>, buffers: map<string, seq<ExportedEmail>>,
                     sizes: map<string, nat>, counters: map<string, nat>,
                     written: seq<Chunk>, seen: seq<ExportedEmail>, k: string)
    requires Inv(size, monthOf, months, buffers, sizes, counters, written, seen)
    requires k !in buffers
    ensures Inv(size, monthOf, months + [k], buffers[k := []], sizes[k := 0], counters[k := 1], written, seen)
  {
    NewMonthKeys(months, buffers, sizes, counters, k);
    NewMonthSizes(size, buffers, sizes, k);
    NewMonthParts(buffers, counters, written, k);
    NewMonthContents(monthOf, buffers, written, seen, k);
  }

  lemma NewMonthKeys(months: seq<string>, buffers: map<string, seq<ExportedEmail>>,
                     sizes: map<string, nat>, counters: map<string, nat>, k: string)
    requires KeysAgree(months, buffers, sizes, counters)
    ensures KeysAgree(months + [k], buffers[k := []], sizes[k := 0], counters[k := 1])
  {
  }

  lemma NewMonthSizes(size: ExportedEmail -> nat, buffers: map<string, seq<ExportedEmail>>,
                      sizes: map<string, nat>, k: string)
    requires sizes.Keys == buffers.Keys && SizesAgree(size, buffers, sizes)
    ensures SizesAgree(size, buffers[k := []], sizes[k := 0])
  {
  }

  lemma NewMonthParts(buffers: map<string, seq<ExportedEmail>>, counters: map<string, nat>, written: seq<Chunk>, k: string)
    requires counters.Keys == buffers.Keys && PartsAgree(buffers, counters, written) && k !in buffers
    ensures PartsAgree(buffers[k := []], counters[k := 1], written)
  {
    var buffers', counters' := buffers[k := []], counters[k := 1];
    forall m ensures if m in buffers' then counters'[m] >= 1 && MonthParts(written, m) == PartsUpTo(counters'[m] - 1)
                     else MonthParts(written, m) == [] {
      var parts := MonthParts(written, m);
      assert if m in buffers then counters[m] >= 1 && parts == PartsUpTo(counters[m] - 1) else parts == [];
      if m == k {
        assert PartsUpTo(0) == [];
      }
    }
  }

  lemma NewMonthContents(monthOf: string -> Option<string>, buffers: map<string, seq<ExportedEmail>>,
                         written: seq<Chunk>, seen: seq<ExportedEmail>, k: string)
    requires ContentsAgree(monthOf, buffers, written, seen) && k !in buffers
    ensures ContentsAgree(monthOf, buffers[k := []], written, seen)
  {
    var buffers' := buffers[k := []];
    forall m ensures MonthEmails(written, m) + (if m in buffers' then buffers'[m] else []) == OfMonth(monthOf, seen, m) {
      if m == k {
        assert MonthEmails(written, m) + [] == MonthEmails(written, m);
      }
    }
  }

  /** Appending a record to its month's buffer, when that is empty or stays within the cap, keeps the invariant. */
  lemma AppendStep(size: ExportedEmail -> nat, monthOf: string -> Option<string>,
                   months: seq<string>, buffers: map<string, seq<ExportedEmail>>,
                   sizes: map<string, nat>, counters: map<string, nat>,
                   written: seq<Chunk>, seen: seq<ExportedEmail>, e: ExportedEmail, k: string)
    requires Inv(size, monthOf, months, buffers, sizes, counters, written, seen)
    requires k == MonthKey(monthOf, e) && k in buffers
    requires buffers[k] == [] || sizes[k] + size(e) <= MaxFileBytes
    ensures Inv(size, monthOf, months, buffers[k := buffers[k] + [e]], sizes[k := sizes[k] + size(e)],
                counters, written, seen + [e])
  {
    AppendKeys(months, buffers, sizes, counters, k, e, size(e));
    AppendSizes(size, buffers, sizes, k, e);
    AppendParts(buffers, counters, written, k, e);
    AppendContents(monthOf, buffers, written, seen, e);
  }

  lemma AppendKeys(months: seq<string>, buffers: map<string, seq<ExportedEmail>>,
                   sizes: map<string, nat>, counters: map<string, nat>, k: string, e: ExportedEmail, est: nat)
    requires KeysAgree(months, buffers, sizes, counters) && k in buffers
    ensures KeysAgree(months, buffers[k := buffers[k] + [e]], sizes[k := sizes[k] + est], counters)
  {
  }

  lemma AppendParts(buffers: map<string, seq<ExportedEmail>>, counters: map<string, nat>, written: seq<Chunk>,
                    k: string, e: ExportedEmail)
    requires counters.Keys == buffers.Keys && PartsAgree(buffers, counters, written) && k in buffers
    ensures PartsAgree(buffers[k := buffers[k] + [e]], counters, written)
  {
  }

  lemma AppendSizes(size: ExportedEmail -> nat, buffers: map<string, seq<ExportedEmail>>,
                    sizes: map<string, nat>, k: string, e: ExportedEmail)
    requires sizes.Keys == buffers.Keys && SizesAgree(size, buffers, sizes) && k in buffers
    requires buffers[k] == [] || sizes[k] + size(e) <= MaxFileBytes
    ensures SizesAgree(size, buffers[k := buffers[k] + [e]], sizes[k := sizes[k] + size(e)])
  {
    TotalSnoc(size, buffers[k], e);
  }

  lemma AppendContents(monthOf: string -> Option<string>, buffers: map<string, seq<ExportedEmail>>,
                       written: seq<Chunk>, seen: seq<ExportedEmail>, e: ExportedEmail)
    requires ContentsAgree(monthOf, buffers, written, seen) && MonthKey(monthOf, e) in buffers
    ensures var k := MonthKey(monthOf, e);
      ContentsAgree(monthOf, buffers[k := buffers[k] + [e]], written, seen + [e])
  {
    var k := MonthKey(monthOf, e);
    var buffers' := buffers[k := buffers[k] + [e]];
    forall m ensures MonthEmails(written, m) + (if m in buffers' then buffers'[m] else []) == OfMonth(monthOf, seen + [e], m) {
      OfMonthSnoc(monthOf, seen, e, m);
      if m == k {
        AppendAssoc(MonthEmails(written, m), buffers[k], [e]);
      }
    }
  }

  lemma AppendAssoc<T>(a: seq<T>, b: seq<T>, c: seq<T>)
    ensures a + (b + c) == (a + b) + c
  {
  }

  /** The state of the export loop: the `buffers`, `sizes` and `file_counters` dictionaries and the files written. */
  class Exporter {
    const size: ExportedEmail -> nat
    const monthOf: string -> Option<string>
    /** The keys of `buffers` in insertion order, which is the order `list(buffers)` gives. */
    var months: seq<string>
    var buffers: map<string, seq<ExportedEmail>>
    var sizes: map<string, nat>
    var counters: map<string, nat>
    var written: seq<Chunk>
    /** The records processed so far. */
    ghost var seen: seq<ExportedEmail>

    constructor (size: ExportedEmail -> nat, monthOf: string -> Option<string>)
      ensures Inv(size, monthOf, months, buffers, sizes, counters, written, seen)
      ensures this.size == size && this.monthOf == monthOf
      ensures months == [] && buffers == map[] && sizes == map[] && counters == map[]
      ensures written == [] && seen == []
    {
      this.size := size;
      this.monthOf := monthOf;
      months := [];
      buffers := map[];
      sizes := map[];
      counters := map[];
      written := [];
      seen := [];
    }

    /**
     * `flush(month)`: nothing when the buffer is absent or empty; otherwise
     * the buffer is written as the month's next part, the part counter
     * advances, and the buffer and its size are reset.
     */
    method Flush(m: string)
      requires Inv(size, monthOf, months, buffers, sizes, counters, written, seen)
      modifies this`buffers, this`sizes, this`counters, this`written
      ensures m !in old(buffers) || old(buffers[m]) == [] ==>
        buffers == old(buffers) && sizes == old(sizes) && counters == old(counters) && written == old(written)
      ensures m in old(buffers) && old(buffers[m]) != [] ==>
        && written == old(written) + [Chunk(FileName(m, old(counters[m])), m, old(counters[m]), old(buffers[m]))]
        && buffers == old(buffers)[m := []]
        && sizes == old(sizes)[m := 0]
        && counters == old(counters)[m := old(counters[m]) + 1]
      ensures Inv(size, monthOf, months, buffers, sizes, counters, written, seen)
    {
      if m in buffers && buffers[m] != [] {
        ghost var buffers0, sizes0, counters0, written0 := buffers, sizes, counters, written;
        var part := counters[m];
        buffers, sizes, counters, written :=
          buffers[m := []], sizes[m := 0], counters[m := part + 1],
          written + [Chunk(FileName(m, part), m, part, buffers[m])];
        FlushStep(size, monthOf, months, buffers0, sizes0, counters0, written0, seen, m, buffers, sizes, counters, written);
      }
    }

    /** `if month_key not in buffers`: a new month gets an empty buffer, size 0 and part counter 1. */
    method EnsureMonth(k: string)
      requires Inv(size, monthOf, months, buffers, sizes, counters, written, seen)
      modifies this`months, this`buffers, this`sizes, this`counters
      ensures k in old(buffers) ==>
        months == old(months) && buffers == old(buffers) && sizes == old(sizes) && counters == old(counters)
      ensures k !in old(buffers) ==>
        && months == old(months) + [k] && buffers == old(buffers)[k := []]
        && sizes == old(sizes)[k := 0] && counters == old(counters)[k := 1]
      ensures Inv(size, monthOf, months, buffers, sizes, counters, written, seen)
    {
      if k !in buffers {
        NewMonthStep(size, monthOf, months, buffers, sizes, counters, written, seen, k);
        months := months + [k];
        buffers := buffers[k := []];
        sizes := sizes[k := 0];
        counters := counters[k := 1];
      }
    }

    /** `buffers[month_key].append(email)` and `sizes[month_key] += est_size`. */
    method Append(e: ExportedEmail)
      requires Inv(size, monthOf, months, buffers, sizes, counters, written, seen)
      requires MonthKey(monthOf, e) in buffers
      requires buffers[MonthKey(monthOf, e)] == [] || sizes[MonthKey(monthOf, e)] + size(e) <= MaxFileBytes
      modifies this`buffers, this`sizes, this`seen
      ensures seen == old(seen) + [e]
      ensures buffers == old(buffers)[MonthKey(monthOf, e) := old(buffers[MonthKey(monthOf, e)]) + [e]]
      ensures sizes == old(sizes)[MonthKey(monthOf, e) := old(sizes[MonthKey(monthOf, e)]) + size(e)]
      ensures Inv(size, monthOf, months, buffers, sizes, counters, written, seen)
    {
      var k := MonthKey(monthOf, e);
      AppendStep(size, monthOf, months, buffers, sizes, counters, written, seen, e, k);
      seen, buffers, sizes := seen + [e], buffers[k := buffers[k] + [e]], sizes[k := sizes[k] + size(e)];
    }

    /**
     * One pass of the row loop: the row becomes a record, its month gets a
     * buffer if it has none, the buffer is flushed first when it is non-empty
     * and adding the record would exceed the cap, and the record is appended.
     */
    method Add(uid: Uid, folder: Folder, row: DownloadedRow)
      requires Inv(size, monthOf, months, buffers, sizes, counters, written, seen)
      modifies this`months, this`buffers, this`sizes, this`counters, this`written, this`seen
      ensures seen == old(seen) + [RowToDict(uid, folder, row)]
      ensures var e := RowToDict(uid, folder, row);
        var k := MonthKey(monthOf, e);
        var flushes := k in old(buffers) && old(buffers[k]) != [] && old(sizes[k]) + size(e) > MaxFileBytes;
        && (flushes ==> written == old(written) + [Chunk(FileName(k, old(counters[k])), k, old(counters[k]), old(buffers[k]))])
        && (!flushes ==> written == old(written))
        && k in buffers
        && buffers[k] == (if flushes || k !in old(buffers) then [] else old(buffers[k])) + [e]
      ensures Inv(size, monthOf, months, buffers, sizes, counters, written, seen)
    {
      var e := RowToDict(uid, folder, row);
      var k := MonthKey(monthOf, e);
      EnsureMonth(k);
      var est := size(e);
      if sizes[k] + est > MaxFileBytes && buffers[k] != [] {
        Flush(k);
      }
      Append(e);
    }

    /** `for m in list(buffers): flush(m)`: every buffer ends up written and empty. */
    method FlushAll()
      requires Inv(size, monthOf, months, buffers, sizes, counters, written, seen)
      modifies this`buffers, this`sizes, this`counters, this`written
      ensures Inv(size, monthOf, months, buffers, sizes, counters, written, seen)
      ensures forall m :: m in buffers ==> buffers[m] == []
    {
      var i := 0;
      while i < |months|
        invariant i <= |months|
        invariant Inv(size, monthOf, months, buffers, sizes, counters, written, seen)
        invariant FlushedUpTo(months, buffers, i)
      {
        ghost var before := buffers;
        Flush(months[i]);
        FlushedStep(months, before, buffers, i);
        i := i + 1;
      }
      FlushedAll(months, buffers);
    }
  }

  /** The buffers of `months[..i]` are empty. */
  ghost predicate FlushedUpTo(months: seq<string>, buffers: map<string, seq<ExportedEmail>>, i: nat)
    requires i <= |months|
  {
    forall j :: 0 <= j < i ==> months[j] in buffers && buffers[months[j]] == []
  }

  lemma FlushedStep(months: seq<string>, before: map<string, seq<ExportedEmail>>,
                    after: map<string, seq<ExportedEmail>>, i: nat)
    requires i < |months| && FlushedUpTo(months, before, i)
    requires after == before || (months[i] in before && after == before[months[i] := []])
    requires months[i] in after && after[months[i]] == []
    ensures FlushedUpTo(months, after, i + 1)
  {
  }

  lemma FlushedAll(months: seq<string>, buffers: map<string, seq<ExportedEmail>>)
    requires FlushedUpTo(months, buffers, |months|)
    requires forall m :: m in buffers <==> m in months
    ensures forall m :: m in buffers ==> buffers[m] == []
  {
    forall m | m in buffers ensures buffers[m] == [] {
      var j :| 0 <= j < |months| && months[j] == m;
    }
  }

  /**
   * The whole export: every row is processed in table order, then every
   * buffer is flushed. Each month's files hold exactly that month's records
   * in table order, so every record is written exactly once; the parts of a
   * month are numbered 1, 2, ... in the order written; and every file is
   * well formed.
   */
  method ExportRows(rows: seq<(Uid, Folder, DownloadedRow)>, size: ExportedEmail -> nat,
                    monthOf: string -> Option<string>)
    returns (files: seq<Chunk>)
    ensures forall m :: MonthEmails(files, m) == OfMonth(monthOf, Exported(rows), m)
    ensures forall m :: MonthParts(files, m) == PartsUpTo(|MonthParts(files, m)|)
    ensures forall i :: 0 <= i < |files| ==> WellFormed(size, monthOf, files[i])
    ensures multiset(AllEmails(files)) == multiset(Exported(rows))
  {
    var ex := new Exporter(size, monthOf);
    var i := 0;
    while i < |rows|
      invariant i <= |rows|
      invariant Inv(size, monthOf, ex.months, ex.buffers, ex.sizes, ex.counters, ex.written, ex.seen)
      invariant ex.size == size && ex.monthOf == monthOf
      invariant ex.seen == Exported(rows)[..i]
    {
      ex.Add(rows[i].0, rows[i].1, rows[i].2);
      assert Exported(rows)[..i + 1] == Exported(rows)[..i] + [Exported(rows)[i]];
      i := i + 1;
    }
    ex.FlushAll();
    files := ex.written;
    assert ex.seen == Exported(rows);
    ExportComplete(size, monthOf, ex.months, ex.buffers, ex.sizes, ex.counters, files, Exported(rows));
  }

  /** Once every buffer is empty, the files hold every record exactly once. */
  lemma ExportComplete(size: ExportedEmail -> nat, monthOf: string -> Option<string>,
                       months: seq<string>, buffers: map<string, seq<ExportedEmail>>,
                       sizes: map<string, nat>, counters: map<string, nat>,
                       files: seq<Chunk>, seen: seq<ExportedEmail>)
    requires Inv(size, monthOf, months, buffers, sizes, counters, files, seen)
    requires forall m :: m in buffers ==> buffers[m] == []
    ensures forall m :: MonthEmails(files, m) == OfMonth(monthOf, seen, m)
    ensures forall m :: MonthParts(files, m) == PartsUpTo(|MonthParts(files, m)|)
    ensures forall i :: 0 <= i < |files| ==> WellFormed(size, monthOf, files[i])
    ensures multiset(AllEmails(files)) == multiset(seen)
  {
    forall m ensures MonthEmails(files, m) == OfMonth(monthOf, seen, m) {
      assert MonthEmails(files, m) + (if m in buffers then buffers[m] else []) == OfMonth(monthOf, seen, m);
      assert MonthEmails(files, m) + [] == MonthEmails(files, m);
    }
    forall e ensures multiset(AllEmails(files))[e] == multiset(seen)[e] {
      CountInOwnMonth(monthOf, files, e);
      CountOfOwnMonth(monthOf, seen, e);
    }
  }
}
