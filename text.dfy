/**
 * The Python string primitives the mail backup scripts are built from:
 * `str.strip()`, `str.lower()`/`str.upper()`, `str.split`/`re.split` on a set
 * of delimiter characters, `str.join`, `str.replace` of one character,
 * `str.isdigit()`, `str(int)`, the `:03` format and SQLite's
 * `CAST(text AS INTEGER)`.
 */
module Text {

  /** The code points for which Python's `str.isspace()` holds, which is what `str.strip()` removes. */
  predicate IsSpace(c: char) {
    || c == ' '
    || '\t' <= c <= '\r'
    || '\U{1C}' <= c <= '\U{1F}'
    || c == '\U{85}' || c == '\U{A0}' || c == '\U{1680}'
    || '\U{2000}' <= c <= '\U{200A}'
    || c == '\U{2028}' || c == '\U{2029}' || c == '\U{202F}' || c == '\U{205F}' || c == '\U{3000}'
  }

  /** `s.lstrip()`: the longest suffix of `s` that does not start with whitespace. */
  function TrimStart(s: string): (r: string)
    ensures |r| <= |s|
    ensures r == [] || !IsSpace(r[0])
    ensures forall i :: 0 <= i < |s| - |r| ==> IsSpace(s[i])
  {
    if s != [] && IsSpace(s[0]) then TrimStart(s[1..]) else s
  }

  /** `s.rstrip()`: the longest prefix of `s` that does not end with whitespace. */
  function TrimEnd(s: string): (r: string)
    ensures |r| <= |s|
    ensures r == [] || !IsSpace(r[|r| - 1])
    ensures forall i :: |r| <= i < |s| ==> IsSpace(s[i])
  {
    if s != [] && IsSpace(s[|s| - 1]) then TrimEnd(s[..|s| - 1]) else s
  }

  /** `lstrip()` keeps a suffix of the string. */
  lemma {:induction false} TrimStartSuffix(s: string)
    ensures TrimStart(s) == s[|s| - |TrimStart(s)|..]
    decreases |s|
  {
    if s != [] && IsSpace(s[0]) {
      TrimStartSuffix(s[1..]);
    }
  }

  /** `rstrip()` keeps a prefix of the string. */
  lemma {:induction false} TrimEndPrefix(s: string)
    ensures TrimEnd(s) == s[..|TrimEnd(s)|]
    decreases |s|
  {
    if s != [] && IsSpace(s[|s| - 1]) {
      TrimEndPrefix(s[..|s| - 1]);
    }
  }

  /** A string with no whitespace at either end. */
  predicate IsStripped(s: string) {
    s == [] || (!IsSpace(s[0]) && !IsSpace(s[|s| - 1]))
  }

  /** `s.strip()`. */
  function Strip(s: string): (r: string)
    ensures IsStripped(r)
    ensures |r| <= |s|
  {
    var t := TrimStart(s);
    var r := TrimEnd(t);
    assert r == [] || !IsSpace(r[0]) by {
      TrimEndPrefix(t);
      if r != [] { assert r[0] == t[0]; }
    }
    r
  }

  /** Whitespace-only strings are exactly the ones `strip()` empties. */
  lemma StripEmptyIff(s: string)
    ensures Strip(s) == [] <==> forall i :: 0 <= i < |s| ==> IsSpace(s[i])
  {
    TrimStartSuffix(s);
  }

  /** Stripping a string that is already stripped changes nothing. */
  lemma StripOfStripped(s: string)
    requires IsStripped(s)
    ensures Strip(s) == s
  {
    assert TrimStart(s) == s;
    assert TrimEnd(s) == s;
  }

  /** `strip()` is idempotent. */
  lemma StripIdempotent(s: string)
    ensures Strip(Strip(s)) == Strip(s)
  {
    StripOfStripped(Strip(s));
  }

  /** A leading whitespace character makes no difference to `strip()`. */
  lemma StripSpaceCons(c: char, s: string)
    requires IsSpace(c)
    ensures Strip([c] + s) == Strip(s)
  {
    assert ([c] + s)[1..] == s;
  }

  /** A trailing whitespace character makes no difference to `strip()`. */
  lemma {:induction false} TrimEndSpaceSnoc(s: string, c: char)
    requires IsSpace(c)
    ensures TrimEnd(s + [c]) == TrimEnd(s)
  {
    assert (s + [c])[..|s|] == s;
  }

  /** `TrimEnd` of a string that starts with a non-space character keeps that character first. */
  lemma {:induction false} TrimEndCons(c: char, s: string)
    requires !IsSpace(c)
    ensures TrimEnd([c] + s) == [c] + TrimEnd(s)
    decreases |s|
  {
    if s != [] && IsSpace(s[|s| - 1]) {
      assert ([c] + s)[..|s|] == [c] + s[..|s| - 1];
      TrimEndCons(c, s[..|s| - 1]);
    }
  }

  /** A trailing whitespace character makes no difference to `strip()`. */
  lemma {:induction false} StripSpaceSnoc(s: string, c: char)
    requires IsSpace(c)
    ensures Strip(s + [c]) == Strip(s)
    decreases |s|
  {
    if s != [] && IsSpace(s[0]) {
      assert (s + [c])[1..] == s[1..] + [c];
      StripSpaceSnoc(s[1..], c);
    } else if s == [] {
      assert [] + [c] == [c];
    } else {
      TrimEndSpaceSnoc(s, c);
    }
  }

  /** ASCII lower-casing of one character. */
  function LowerChar(c: char): char {
    if 'A' <= c <= 'Z' then (c as int + 32) as char else c
  }

  /** ASCII upper-casing of one character. */
  function UpperChar(c: char): char {
    if 'a' <= c <= 'z' then (c as int - 32) as char else c
  }

  /** `s.lower()`, restricted to ASCII letters. */
  function Lower(s: string): (r: string)
    ensures |r| == |s|
  {
    seq(|s|, i requires 0 <= i < |s| => LowerChar(s[i]))
  }

  /** `s.upper()`, restricted to ASCII letters. */
  function Upper(s: string): (r: string)
    ensures |r| == |s|
  {
    seq(|s|, i requires 0 <= i < |s| => UpperChar(s[i]))
  }

  /** Lower-casing twice is lower-casing once. */
  lemma LowerIdempotent(s: string)
    ensures Lower(Lower(s)) == Lower(s)
  {
  }

  /** Lower-casing and stripping can be done in either order: whitespace is not a letter. */
  lemma LowerStripCommute(s: string)
    ensures Lower(Strip(s)) == Strip(Lower(s))
  {
    LowerTrimStart(s);
    LowerTrimEnd(TrimStart(s));
  }

  lemma {:induction false} LowerTrimStart(s: string)
    ensures Lower(TrimStart(s)) == TrimStart(Lower(s))
    decreases |s|
  {
    if s != [] && IsSpace(s[0]) {
      assert Lower(s)[1..] == Lower(s[1..]);
      LowerTrimStart(s[1..]);
    }
  }

  lemma {:induction false} LowerTrimEnd(s: string)
    ensures Lower(TrimEnd(s)) == TrimEnd(Lower(s))
    decreases |s|
  {
    if s != [] && IsSpace(s[|s| - 1]) {
      assert Lower(s)[..|s| - 1] == Lower(s[..|s| - 1]);
      LowerTrimEnd(s[..|s| - 1]);
    }
  }

  /** Number of characters of `s` that belong to `delims`. */
  function CountIn(s: string, delims: set<char>): nat {
    if s == [] then 0 else (if s[0] in delims then 1 else 0) + CountIn(s[1..], delims)
  }

  /** No character of `s` is in `delims`. */
  predicate Avoids(s: string, delims: set<char>) {
    forall j :: 0 <= j < |s| ==> s[j] !in delims
  }

  /**
   * `re.split('[' + delims + ']', s)`, and for one delimiter `s.split(d)`:
   * the maximal runs between delimiters, empty runs included.
   */
  function Split(s: string, delims: set<char>): (r: seq<string>)
    ensures |r| == CountIn(s, delims) + 1
    ensures forall i :: 0 <= i < |r| ==> Avoids(r[i], delims)
  {
    if s == [] then [""]
    else
      var rest := Split(s[1..], delims);
      if s[0] in delims then [""] + rest
      else
        var r := [[s[0]] + rest[0]] + rest[1..];
        assert forall i :: 1 <= i < |r| ==> r[i] == rest[i];
        r
  }

  /** `sep.join(pieces)`. */
  function Join(pieces: seq<string>, sep: string): string {
    if |pieces| == 0 then ""
    else if |pieces| == 1 then pieces[0]
    else pieces[0] + sep + Join(pieces[1..], sep)
  }

  /** Splitting at a delimiter splits the two sides independently. */
  lemma {:induction false} SplitAtDelimiter(a: string, c: char, b: string, delims: set<char>)
    requires c in delims
    ensures Split(a + [c] + b, delims) == Split(a, delims) + Split(b, delims)
    decreases |a|
  {
    if a == [] {
      assert ([c] + b)[1..] == b;
      assert [] + [c] + b == [c] + b;
    } else {
      assert (a + [c] + b)[1..] == a[1..] + [c] + b;
      SplitAtDelimiter(a[1..], c, b, delims);
    }
  }

  /** Splitting a string free of delimiters gives that string back as the only piece. */
  lemma {:induction false} SplitAvoiding(s: string, delims: set<char>)
    requires Avoids(s, delims)
    ensures Split(s, delims) == [s]
    decreases |s|
  {
    if s != [] {
      SplitAvoiding(s[1..], delims);
      assert [s[0]] + s[1..] == s;
    }
  }

  /** Joining the pieces of a split on one character rebuilds the string. */
  lemma {:induction false} JoinSplit(s: string, c: char)
    ensures Join(Split(s, {c}), [c]) == s
    decreases |s|
  {
    if s != [] {
      var rest := Split(s[1..], {c});
      JoinSplit(s[1..], c);
      if s[0] == c {
        assert Split(s, {c}) == [""] + rest;
        assert ([""] + rest)[1..] == rest;
        assert s == [c] + s[1..];
      } else {
        var r := [[s[0]] + rest[0]] + rest[1..];
        assert Split(s, {c}) == r;
        if |rest| == 1 {
          assert s == [s[0]] + rest[0];
        } else {
          assert r[1..] == rest[1..];
          assert Join(rest, [c]) == rest[0] + [c] + Join(rest[1..], [c]);
          assert s == [s[0]] + s[1..];
        }
      }
    }
  }

  /** Splitting the join of delimiter-free pieces on that delimiter gives the pieces back. */
  lemma {:induction false} SplitJoin(pieces: seq<string>, c: char)
    requires |pieces| >= 1
    requires forall i :: 0 <= i < |pieces| ==> Avoids(pieces[i], {c})
    ensures Split(Join(pieces, [c]), {c}) == pieces
    decreases |pieces|
  {
    SplitAvoiding(pieces[0], {c});
    if |pieces| > 1 {
      SplitJoin(pieces[1..], c);
      SplitAtDelimiter(pieces[0], c, Join(pieces[1..], [c]), {c});
      assert [pieces[0]] + pieces[1..] == pieces;
    }
  }

  /** `s.replace(a, b)` for single characters `a` and `b`. */
  function ReplaceChar(s: string, a: char, b: char): (r: string)
    ensures |r| == |s|
  {
    seq(|s|, i requires 0 <= i < |s| => if s[i] == a then b else s[i])
  }

  predicate IsDigit(c: char) {
    '0' <= c <= '9'
  }

  /** `s.isdigit()` for ASCII digits: non-empty and digits only. */
  predicate IsDigits(s: string) {
    |s| > 0 && forall i :: 0 <= i < |s| ==> IsDigit(s[i])
  }

  /** The number written by a string of decimal digits. */
  function DecimalValue(s: string): nat
    requires forall i :: 0 <= i < |s| ==> IsDigit(s[i])
  {
    if s == [] then 0
    else
      assert IsDigit(s[|s| - 1]);
      DecimalValue(s[..|s| - 1]) * 10 + (s[|s| - 1] as int - '0' as int)
  }

  /** The longest prefix of `s` made of decimal digits. */
  function DigitPrefix(s: string): (r: string)
    ensures |r| <= |s|
    ensures forall i :: 0 <= i < |r| ==> r[i] == s[i] && IsDigit(s[i])
    ensures |r| < |s| ==> !IsDigit(s[|r|])
  {
    if s != [] && IsDigit(s[0]) then
      var rest := DigitPrefix(s[1..]);
      assert forall i :: 1 <= i <= |rest| ==> ([s[0]] + rest)[i] == rest[i - 1];
      [s[0]] + rest
    else []
  }

  /**
   * SQLite's `CAST(s AS INTEGER)` for unsigned text: the value of the leading
   * digits, 0 when there are none.
   */
  function CastInteger(s: string): nat {
    DecimalValue(DigitPrefix(s))
  }

  function DigitChar(d: nat): (c: char)
    requires d < 10
    ensures IsDigit(c)
  {
    ('0' as int + d) as char
  }

  /** `str(n)` for a natural number. */
  function NatToDecimal(n: nat): (r: string)
    ensures IsDigits(r)
    decreases n
  {
    if n < 10 then [DigitChar(n)] else NatToDecimal(n / 10) + [DigitChar(n % 10)]
  }

  /** `str(n)` read back as a number is `n`. */
  lemma {:induction false} DecimalValueOfNatToDecimal(n: nat)
    ensures DecimalValue(NatToDecimal(n)) == n
    decreases n
  {
    var r := NatToDecimal(n);
    if n >= 10 {
      DecimalValueOfNatToDecimal(n / 10);
      assert r[..|r| - 1] == NatToDecimal(n / 10);
    }
  }

  /** `str(n)` cast back to an integer by SQLite is `n`. */
  lemma CastIntegerOfNatToDecimal(n: nat)
    ensures CastInteger(NatToDecimal(n)) == n
  {
    var r := NatToDecimal(n);
    assert DigitPrefix(r) == r;
    DecimalValueOfNatToDecimal(n);
  }

  function Zeros(k: nat): (r: string)
    ensures |r| == k && forall i :: 0 <= i < k ==> r[i] == '0'
  {
    if k == 0 then "" else Zeros(k - 1) + "0"
  }

  /** Leading zeros never change the value of a digit string. */
  lemma {:induction false} DecimalValueLeadingZeros(k: nat, s: string)
    requires forall i :: 0 <= i < |s| ==> IsDigit(s[i])
    ensures DecimalValue(Zeros(k) + s) == DecimalValue(s)
    decreases |s|
  {
    var z := Zeros(k);
    if s == [] {
      assert z + s == z;
      DecimalValueOfZeros(k);
    } else {
      assert (z + s)[..|z + s| - 1] == z + s[..|s| - 1];
      DecimalValueLeadingZeros(k, s[..|s| - 1]);
    }
  }

  lemma {:induction false} DecimalValueOfZeros(k: nat)
    ensures DecimalValue(Zeros(k)) == 0
    decreases k
  {
    if k > 0 {
      assert Zeros(k)[..k - 1] == Zeros(k - 1);
      DecimalValueOfZeros(k - 1);
    }
  }

  /** Python's `f"{n:03}"`: `str(n)` left-padded with zeros to at least three characters. */
  function Pad3(n: nat): (r: string)
    ensures IsDigits(r) && |r| >= 3
    ensures DecimalValue(r) == n
  {
    var d := NatToDecimal(n);
    DecimalValueOfNatToDecimal(n);
    if |d| >= 3 then d
    else
      DecimalValueLeadingZeros(3 - |d|, d);
      Zeros(3 - |d|) + d
  }
}
