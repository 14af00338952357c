/**
 * The string logic of `extract_email_data` (main.py:374-424 and
 * recover_missing_inbox_mails.py:73-111): the folder component of the
 * attachment path, attachment file names, and the case-insensitive lookup of
 * the Message-ID header (section 3.6.4 of RFC 5322), which
 * backfill_message_id.py:33-41 repeats.
 */
module Naming {
  import opened Wrappers
  import opened Text
  import opened Store

  /** `folder.replace('/', '_').replace(' ', '_')` (main.py:375, recover_missing_inbox_mails.py:74). */
  function SafeFolder(folder: string): string {
    ReplaceChar(ReplaceChar(folder, '/', '_'), ' ', '_')
  }

  /** The sanitised folder has no `/` and no space, and every other character is kept in place. */
  lemma SafeFolderSpec(folder: string)
    ensures |SafeFolder(folder)| == |folder|
    ensures Avoids(SafeFolder(folder), {'/', ' '})
    ensures forall i :: 0 <= i < |folder| ==>
      SafeFolder(folder)[i] == (if folder[i] == '/' || folder[i] == ' ' then '_' else folder[i])
  {
  }

  /**
   * The name an attachment is saved under (main.py:388-390,
   * recover_missing_inbox_mails.py:86-88): the attachment's own file name, or
   * `attachment_{i}{extension}` when it has none (falsy), where the extension is
   * the guessed one or `.bin`; then stripped, with `/` and `\` replaced by `_`.
   */
  function AttachmentName(filename: Option<string>, i: nat, guessed: Option<string>): string {
    var ext := if guessed.Some? && guessed.value != "" then guessed.value else ".bin";
    var name := if filename.Some? && filename.value != "" then filename.value
                else "attachment_" + NatToDecimal(i) + ext;
    CleanName(name)
  }

  /** `name.strip().replace('/', '_').replace('\\', '_')`. */
  function CleanName(name: string): string {
    ReplaceChar(ReplaceChar(Strip(name), '/', '_'), '\\', '_')
  }

  /**
   * An attachment name never contains a path separator and never starts or ends
   * with whitespace, so it stays inside the message's directory.
   */
  lemma AttachmentNameSpec(filename: Option<string>, i: nat, guessed: Option<string>)
    ensures Avoids(AttachmentName(filename, i, guessed), {'/', '\\'})
    ensures IsStripped(AttachmentName(filename, i, guessed))
  {
    var ext := if guessed.Some? && guessed.value != "" then guessed.value else ".bin";
    var name := if filename.Some? && filename.value != "" then filename.value
                else "attachment_" + NatToDecimal(i) + ext;
    CleanNameSpec(name);
    var r := CleanName(name);
    forall j | 0 <= j < |r| ensures r[j] !in {'/', '\\'} {
    }
  }

  /** A cleaned name is stripped and holds neither separator. */
  lemma CleanNameSpec(name: string)
    ensures IsStripped(CleanName(name))
    ensures forall j :: 0 <= j < |CleanName(name)| ==> CleanName(name)[j] != '/' && CleanName(name)[j] != '\\'
  {
    var s := Strip(name);
    var t := ReplaceChar(s, '/', '_');
    var r := ReplaceChar(t, '\\', '_');
    ReplaceKeepsStripped(s, '/', '_');
    ReplaceKeepsStripped(t, '\\', '_');
    forall j | 0 <= j < |r| ensures r[j] != '/' && r[j] != '\\' {
      assert t[j] != '/';
    }
  }

  /** Replacing a character by a non-space one keeps a stripped string stripped. */
  lemma ReplaceKeepsStripped(s: string, a: char, b: char)
    requires IsStripped(s) && !IsSpace(b)
    ensures IsStripped(ReplaceChar(s, a, b))
  {
  }

  /** With no file name the attachment is named after its position and extension. */
  lemma AttachmentNameDefault(i: nat, guessed: Option<string>)
    requires guessed.None? || guessed == Some("")
    ensures AttachmentName(None, i, guessed) == "attachment_" + NatToDecimal(i) + ".bin"
  {
    var digits := NatToDecimal(i);
    var name := "attachment_" + digits + ".bin";
    assert AttachmentName(None, i, guessed) == CleanName(name);
    DefaultNameClean(digits);
  }

  lemma DefaultNameClean(digits: string)
    requires IsDigits(digits)
    ensures CleanName("attachment_" + digits + ".bin") == "attachment_" + digits + ".bin"
  {
    var seps := {'/', '\\'};
    assert Avoids(digits, seps);
    AvoidsConcat("attachment_", digits, seps);
    AvoidsConcat("attachment_" + digits, ".bin", seps);
    CleanNameUnchanged("attachment_" + digits + ".bin");
  }

  /** A name with no separator and no surrounding whitespace is kept as it is. */
  lemma CleanNameUnchanged(name: string)
    requires IsStripped(name) && Avoids(name, {'/', '\\'})
    ensures CleanName(name) == name
  {
    CleanNameOfPlain(name);
  }

  lemma CleanNameOfPlain(name: string)
    requires IsStripped(name)
    requires forall j :: 0 <= j < |name| ==> name[j] != '/'
    requires forall j :: 0 <= j < |name| ==> name[j] != '\\'
    ensures CleanName(name) == name
  {
    StripOfStripped(name);
    var t := ReplaceChar(name, '/', '_');
    NoReplacement(name, '/', '_');
    assert t == name;
    NoReplacement(t, '\\', '_');
    assert ReplaceChar(t, '\\', '_') == name;
  }

  lemma AvoidsConcat(a: string, b: string, delims: set<char>)
    requires Avoids(a, delims) && Avoids(b, delims)
    ensures Avoids(a + b, delims)
  {
    forall j | 0 <= j < |a + b| ensures (a + b)[j] !in delims {
      if j >= |a| { assert (a + b)[j] == b[j - |a|]; }
    }
  }

  /** Replacing a character that does not occur changes nothing. */
  lemma NoReplacement(s: string, a: char, b: char)
    requires forall j :: 0 <= j < |s| ==> s[j] != a
    ensures ReplaceChar(s, a, b) == s
  {
    var r := ReplaceChar(s, a, b);
    assert forall j :: 0 <= j < |s| ==> r[j] == s[j];
  }

  /** A header name equal to `message-id` up to ASCII letter case. */
  predicate IsMessageIdName(name: string) {
    Lower(name) == "message-id"
  }

  /**
   * The Message-ID lookup (main.py:401-408): the value of the FIRST header
   * whose lower-cased name is `message-id`, converted with `str()`, or `None`
   * when there is no such header or its value is `None`. Headers are the
   * (name, value) pairs of the message in iteration order.
   */
  function FindMessageId(headers: seq<(string, FieldValue)>): Option<string> {
    if headers == [] then None
    else if IsMessageIdName(headers[0].0) then AsText(headers[0].1)
    else FindMessageId(headers[1..])
  }

  /** The first matching header decides, whatever follows it. */
  lemma {:induction false} FindMessageIdFirstMatch(headers: seq<(string, FieldValue)>, i: nat)
    requires i < |headers| && IsMessageIdName(headers[i].0)
    requires forall j :: 0 <= j < i ==> !IsMessageIdName(headers[j].0)
    ensures FindMessageId(headers) == AsText(headers[i].1)
    decreases i
  {
    if i > 0 {
      FindMessageIdFirstMatch(headers[1..], i - 1);
    }
  }

  /** Without a matching header there is no message id. */
  lemma {:induction false} FindMessageIdAbsent(headers: seq<(string, FieldValue)>)
    requires forall j :: 0 <= j < |headers| ==> !IsMessageIdName(headers[j].0)
    ensures FindMessageId(headers) == None
    decreases |headers|
  {
    if headers != [] {
      FindMessageIdAbsent(headers[1..]);
    }
  }

  /** The name match ignores ASCII letter case: `Message-ID`, `MESSAGE-ID` and `message-id` all match. */
  lemma MessageIdNameIgnoresCase()
    ensures IsMessageIdName("Message-ID") && IsMessageIdName("MESSAGE-ID") && IsMessageIdName("message-id")
    ensures !IsMessageIdName("Message_ID")
  {
    assert Lower("Message-ID") == "message-id";
    assert Lower("MESSAGE-ID") == "message-id";
    assert Lower("message-id") == "message-id";
    assert Lower("Message_ID")[7] == '_';
  }
}
