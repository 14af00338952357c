/**
 * Recipient parsing: `parse_recipients` of main.py (a delimited string or a
 * list of strings, case kept) and of migration_script.py (a delimited string,
 * lower-cased).
 */
module Recipients {
  import opened Text
  import opened Wrappers

  /** The separators of `re.split(r'[;,]', ...)`. */
  const Delimiters: set<char> := {';', ','}

  /**
   * The Python value handed to main.py's `parse_recipients`. `RTuple` is a tuple
   * of strings (what the mail library returns for `to`, `cc` and `bcc`);
   * `ROther` is any other value, with its truthiness.
   */
  datatype RecipientValue =
    | RNone
    | RStr(s: string)
    | RList(items: seq<string>)
    | RTuple(elems: seq<string>)
    | ROther(truthy: bool)

  /** Python truthiness of the value. */
  predicate Truthy(v: RecipientValue) {
    match v
    case RNone => false
    case RStr(s) => s != ""
    case RList(items) => items != []
    case RTuple(elems) => elems != []
    case ROther(t) => t
  }

  /** `[e.strip() for e in pieces if e.strip()]`. */
  function CleanPieces(pieces: seq<string>): (r: seq<string>)
    ensures forall i :: 0 <= i < |r| ==> r[i] != "" && IsStripped(r[i])
    ensures |r| <= |pieces|
  {
    if pieces == [] then []
    else
      var p := Strip(pieces[0]);
      var rest := CleanPieces(pieces[1..]);
      if p == "" then rest
      else
        assert forall i :: 1 <= i <= |rest| ==> ([p] + rest)[i] == rest[i - 1];
        [p] + rest
  }

  /** The addresses of one delimited string: split on `;` or `,`, trimmed, empty pieces dropped. */
  function SplitAddresses(s: string): (r: seq<string>)
    ensures forall i :: 0 <= i < |r| ==> r[i] != "" && IsStripped(r[i]) && Avoids(r[i], Delimiters)
  {
    var pieces := Split(s, Delimiters);
    CleanPiecesAvoid(pieces);
    CleanPieces(pieces)
  }

  /** The list form: the addresses of each element, concatenated in order. */
  function ParseList(items: seq<string>): seq<string> {
    if items == [] then [] else SplitAddresses(items[0]) + ParseList(items[1..])
  }

  /** main.py `parse_recipients`: falsy values and anything but a list or a string give `[]`. */
  function ParseRecipients(v: RecipientValue): seq<string> {
    if !Truthy(v) then []
    else
      match v
      case RList(items) => ParseList(items)
      case RStr(s) => SplitAddresses(s)
      case _ => []
  }

  /** migration_script.py `parse_recipients`: as `SplitAddresses`, each piece also lower-cased. */
  function ParseRecipientsLower(s: Option<string>): seq<string> {
    match s
    case None => []
    case Some(t) => if t == "" then [] else CleanLowerPieces(Split(t, Delimiters))
  }

  /** `[e.strip().lower() for e in pieces if e.strip()]`. */
  function CleanLowerPieces(pieces: seq<string>): seq<string> {
    if pieces == [] then []
    else
      var p := Strip(pieces[0]);
      (if p != "" then [Lower(p)] else []) + CleanLowerPieces(pieces[1..])
  }

  function MapLower(xs: seq<string>): (r: seq<string>)
    ensures |r| == |xs| && forall i :: 0 <= i < |xs| ==> r[i] == Lower(xs[i])
  {
    if xs == [] then [] else [Lower(xs[0])] + MapLower(xs[1..])
  }

  lemma {:induction false} CleanPiecesAvoid(pieces: seq<string>)
    requires forall i :: 0 <= i < |pieces| ==> Avoids(pieces[i], Delimiters)
    ensures forall i :: 0 <= i < |CleanPieces(pieces)| ==> Avoids(CleanPieces(pieces)[i], Delimiters)
    decreases |pieces|
  {
    if pieces != [] {
      CleanPiecesAvoid(pieces[1..]);
      StripAvoids(pieces[0], Delimiters);
      var p := Strip(pieces[0]);
      var head := if p != "" then [p] else [];
      assert CleanPieces(pieces) == head + CleanPieces(pieces[1..]);
    }
  }

  /** Trimming a piece cannot bring a delimiter into it. */
  lemma StripAvoids(s: string, delims: set<char>)
    requires Avoids(s, delims)
    ensures Avoids(Strip(s), delims)
  {
    var t := TrimStart(s);
    TrimStartSuffix(s);
    forall j | 0 <= j < |t| ensures t[j] !in delims {
      assert t[j] == s[|s| - |t| + j];
    }
    var r := TrimEnd(t);
    TrimEndPrefix(t);
    forall j | 0 <= j < |r| ensures r[j] !in delims {
      assert r[j] == t[j];
    }
    assert Strip(s) == r;
  }

  lemma {:induction false} CleanPiecesAppend(a: seq<string>, b: seq<string>)
    ensures CleanPieces(a + b) == CleanPieces(a) + CleanPieces(b)
    decreases |a|
  {
    if a != [] {
      var p := Strip(a[0]);
      var head := if p != "" then [p] else [];
      assert (a + b)[0] == a[0];
      assert (a + b)[1..] == a[1..] + b;
      assert CleanPieces(a + b) == head + CleanPieces(a[1..] + b);
      CleanPiecesAppend(a[1..], b);
      assert CleanPieces(a) == head + CleanPieces(a[1..]);
      assert head + (CleanPieces(a[1..]) + CleanPieces(b)) == (head + CleanPieces(a[1..])) + CleanPieces(b);
    } else {
      assert a + b == b;
    }
  }

  /** A space before the first piece of a split is removed again by the trimming. */
  lemma CleanSplitSpaceCons(t: string)
    ensures CleanPieces(Split([' '] + t, Delimiters)) == CleanPieces(Split(t, Delimiters))
  {
    var rest := Split(t, Delimiters);
    var spaced := Split([' '] + t, Delimiters);
    assert ([' '] + t)[1..] == t;
    assert spaced == [[' '] + rest[0]] + rest[1..];
    StripSpaceCons(' ', rest[0]);
    var p := Strip(rest[0]);
    var head := if p != "" then [p] else [];
    assert spaced[0] == [' '] + rest[0] && spaced[1..] == rest[1..];
    assert CleanPieces(spaced) == head + CleanPieces(rest[1..]);
    assert CleanPieces(rest) == head + CleanPieces(rest[1..]);
  }

  /**
   * A message's recipients joined with `", "` (how they are stored in the
   * `recipients`, `cc` and `bcc` columns) parse to the same addresses as the
   * list itself: both forms give the same address links.
   */
  lemma {:induction false} StringAndListFormsAgree(xs: seq<string>)
    ensures ParseRecipients(RStr(Join(xs, ", "))) == ParseRecipients(RList(xs))
  {
    var j := Join(xs, ", ");
    if xs == [] {
      assert !Truthy(RStr(j)) && !Truthy(RList(xs));
    } else {
      JoinedAddresses(xs);
      assert ParseRecipients(RList(xs)) == ParseList(xs);
      if j == "" {
        assert SplitAddresses("") == [];
      } else {
        assert ParseRecipients(RStr(j)) == SplitAddresses(j);
      }
    }
  }

  lemma {:induction false} JoinedAddresses(xs: seq<string>)
    ensures SplitAddresses(Join(xs, ", ")) == ParseList(xs)
    decreases |xs|
  {
    if xs == [] {
      assert SplitAddresses("") == [];
    } else if |xs| == 1 {
      assert ParseList(xs) == SplitAddresses(xs[0]) + ParseList([]);
    } else {
      var t := Join(xs[1..], ", ");
      assert Join(xs, ", ") == xs[0] + [','] + ([' '] + t);
      SplitAtDelimiter(xs[0], ',', [' '] + t, Delimiters);
      CleanPiecesAppend(Split(xs[0], Delimiters), Split([' '] + t, Delimiters));
      CleanSplitSpaceCons(t);
      JoinedAddresses(xs[1..]);
    }
  }

  /**
   * Addresses that are non-empty, trimmed and free of `;` and `,` come back
   * unchanged, in order and with their case, from their `", "`-joined form.
   */
  lemma {:induction false} SplitAddressesOfJoin(xs: seq<string>)
    requires forall i :: 0 <= i < |xs| ==> xs[i] != "" && IsStripped(xs[i]) && Avoids(xs[i], Delimiters)
    ensures SplitAddresses(Join(xs, ", ")) == xs
    decreases |xs|
  {
    JoinedAddresses(xs);
    ParseListOfClean(xs);
  }

  lemma {:induction false} ParseListOfClean(xs: seq<string>)
    requires forall i :: 0 <= i < |xs| ==> xs[i] != "" && IsStripped(xs[i]) && Avoids(xs[i], Delimiters)
    ensures ParseList(xs) == xs
    decreases |xs|
  {
    if xs != [] {
      SplitAvoiding(xs[0], Delimiters);
      StripOfStripped(xs[0]);
      assert SplitAddresses(xs[0]) == [xs[0]];
      ParseListOfClean(xs[1..]);
      assert [xs[0]] + xs[1..] == xs;
    }
  }

  /** Values that are neither a list nor a string, a tuple included, give no address at all. */
  lemma TupleGivesNothing(elems: seq<string>)
    ensures ParseRecipients(RTuple(elems)) == []
  {
  }

  /**
   * As written, the parser drops the addresses of a message whose `to` is the
   * tuple the mail library hands over, although the joined string stored for
   * the same message yields them.
   */
  lemma TupleRecipientsLost()
    ensures ParseRecipients(RTuple(["ann@example.com"])) == []
    ensures ParseRecipients(RStr(Join(["ann@example.com"], ", "))) == ["ann@example.com"]
  {
    TupleAddressLost("ann@example.com");
  }

  lemma TupleAddressLost(a: string)
    requires a != "" && IsStripped(a) && Avoids(a, Delimiters)
    ensures ParseRecipients(RTuple([a])) == []
    ensures ParseRecipients(RStr(Join([a], ", "))) == [a]
  {
    assert Join([a], ", ") == a;
    SplitAddressesOfJoin([a]);
  }

  /**
   * The parser as evidently intended: any sequence of strings (a tuple as well
   * as a list) is parsed element by element.
   */
  function ParseRecipientsCorrected(v: RecipientValue): seq<string> {
    match v
    case RTuple(elems) => ParseRecipients(RList(elems))
    case _ => ParseRecipients(v)
  }

  /**
   * With the correction, a tuple, a list and the `", "`-joined string of the
   * same addresses all give the same parsed addresses.
   */
  lemma CorrectedFormsAgree(xs: seq<string>)
    ensures ParseRecipientsCorrected(RTuple(xs)) == ParseRecipientsCorrected(RList(xs))
    ensures ParseRecipientsCorrected(RTuple(xs)) == ParseRecipientsCorrected(RStr(Join(xs, ", ")))
  {
    StringAndListFormsAgree(xs);
  }

  /** Well-formed addresses handed over as a tuple come back unchanged and in order. */
  lemma CorrectedTupleKeepsAddresses(xs: seq<string>)
    requires forall i :: 0 <= i < |xs| ==> xs[i] != "" && IsStripped(xs[i]) && Avoids(xs[i], Delimiters)
    ensures ParseRecipientsCorrected(RTuple(xs)) == xs
  {
    ParseListOfClean(xs);
  }

  /** migration_script.py's parser is main.py's string parser followed by lower-casing. */
  lemma LowerParserIsLowerOfParser(s: string)
    ensures ParseRecipientsLower(Some(s)) == MapLower(SplitAddresses(s))
  {
    if s == "" {
      assert Split(s, Delimiters) == [""];
    }
    CleanLowerIsMapLower(Split(s, Delimiters));
  }

  lemma {:induction false} CleanLowerIsMapLower(pieces: seq<string>)
    ensures CleanLowerPieces(pieces) == MapLower(CleanPieces(pieces))
    decreases |pieces|
  {
    if pieces != [] {
      CleanLowerIsMapLower(pieces[1..]);
      var p := Strip(pieces[0]);
      var rest := CleanPieces(pieces[1..]);
      if p != "" {
        assert CleanPieces(pieces) == [p] + rest;
        assert MapLower([p] + rest) == [Lower(p)] + MapLower(rest) by {
          assert ([p] + rest)[1..] == rest;
        }
      } else {
        assert CleanPieces(pieces) == rest;
      }
    }
  }

  /** Every address the migration parser yields is non-empty and already lower-case. */
  lemma ParsedLowerAddresses(s: Option<string>)
    ensures forall a :: a in ParseRecipientsLower(s) ==> a != "" && Lower(a) == a
  {
    if s.Some? && s.value != "" {
      CleanLowerPiecesShape(Split(s.value, Delimiters));
    }
  }

  lemma {:induction false} CleanLowerPiecesShape(pieces: seq<string>)
    ensures forall a :: a in CleanLowerPieces(pieces) ==> a != "" && Lower(a) == a
    decreases |pieces|
  {
    if pieces != [] {
      CleanLowerPiecesShape(pieces[1..]);
      LowerIdempotent(Strip(pieces[0]));
    }
  }
}
