/** `dc_split_armored_data` (src/dc_pgp.rs:22-138): split an ASCII-armored
    block into its header line, the `Passphrase-Begin` and
    `Autocrypt-Prefer-Encrypt` header fields, and the base64 payload.

    The C routine walks a NUL-terminated buffer in place. Here the buffer is
    a string (`None` for a null pointer) that is cut at its first NUL, has
    its carriage returns removed, and is then read as a sequence of complete
    lines followed by an unterminated tail. Each output pointer the caller
    may pass as null becomes a flag in `Requested`; an output that is left
    null is `None`. */
module Armor {
  import opened Wrappers
  import opened Text
  import opened Seqs

  // ---------------------------------------------------------------------------
  // Lines

  /** Every line followed by a newline. */
  function JoinLines(lines: seq<string>): string
  {
    if |lines| == 0 then "" else lines[0] + "\n" + JoinLines(lines[1..])
  }

  predicate NoNewline(s: string)
  {
    '\n' !in s
  }

  predicate NoNewlines(lines: seq<string>)
  {
    forall i :: 0 <= i < |lines| ==> NoNewline(lines[i])
  }

  lemma {:induction false} NotInJoinLines(ls: seq<string>, c: char)
    requires c != '\n'
    requires forall i :: 0 <= i < |ls| ==> c !in ls[i]
    ensures c !in JoinLines(ls)
  {
    if |ls| > 0 {
      NotInJoinLines(ls[1..], c);
    }
  }

  /** Complete lines, and the text after the last newline. */
  datatype Split = Split(lines: seq<string>, tail: string)

  /** Cut text at its newlines: what the C loop does by replacing each
      newline with a terminator as it goes. */
  function SplitLines(t: string): (r: Split)
    ensures JoinLines(r.lines) + r.tail == t
    ensures NoNewlines(r.lines) && NoNewline(r.tail)
    decreases |t|
  {
    var l := Before(t, '\n');
    if |l| == |t| then Split([], t)
    else
      var rest := SplitLines(t[|l| + 1..]);
      CutAt(t, l);
      JoinCons(l, rest.lines, rest.tail);
      Split([l] + rest.lines, rest.tail)
  }

  lemma CutAt(t: string, l: string)
    requires |l| < |t| && l == t[..|l|] && t[|l|] == '\n'
    ensures t == l + "\n" + t[|l| + 1..]
  {
  }

  /** One more complete line in front of a split. */
  lemma JoinCons(l: string, lines: seq<string>, tail: string)
    requires NoNewline(l) && NoNewlines(lines)
    ensures JoinLines([l] + lines) + tail == l + "\n" + (JoinLines(lines) + tail)
    ensures NoNewlines([l] + lines)
  {
    var ls := [l] + lines;
    assert ls[0] == l && ls[1..] == lines;
    forall k | 0 <= k < |ls|
      ensures NoNewline(ls[k])
    {
      if k > 0 { assert ls[k] == lines[k - 1]; }
    }
  }

  lemma NoNewlinesAppend(a: seq<string>, b: seq<string>)
    requires NoNewlines(a) && NoNewlines(b)
    ensures NoNewlines(a + b)
  {
    forall i | 0 <= i < |a + b|
      ensures NoNewline((a + b)[i])
    {
      if i >= |a| {
        assert (a + b)[i] == b[i - |a|];
      }
    }
  }

  lemma {:induction false} JoinLinesAppend(a: seq<string>, b: seq<string>)
    ensures JoinLines(a + b) == JoinLines(a) + JoinLines(b)
  {
    if |a| == 0 {
      assert a + b == b;
    } else {
      assert (a + b)[1..] == a[1..] + b;
      JoinLinesAppend(a[1..], b);
    }
  }

  /** Splitting undoes joining: lines without newlines come back unchanged. */
  lemma {:induction false} SplitJoin(lines: seq<string>, tail: string)
    requires NoNewlines(lines) && NoNewline(tail)
    ensures SplitLines(JoinLines(lines) + tail) == Split(lines, tail)
  {
    var t := JoinLines(lines) + tail;
    if |lines| == 0 {
      assert t == tail;
    } else {
      var l := lines[0];
      assert t == l + "\n" + (JoinLines(lines[1..]) + tail);
      assert t[|l|] == '\n';
      assert t[..|l|] == l;
      BeforeAt(t, '\n', |l|);
      assert t[|l| + 1..] == JoinLines(lines[1..]) + tail;
      SplitJoin(lines[1..], tail);
      assert lines == [l] + lines[1..];
    }
  }

  lemma AppendAssoc(a: string, b: string, c: string)
    ensures a + (b + c) == (a + b) + c
  {
  }

  /** Complete lines in front of any text are split off unchanged. */
  lemma SplitJoinLines(pre: seq<string>, rest: string)
    requires NoNewlines(pre)
    ensures SplitLines(JoinLines(pre) + rest)
         == Split(pre + SplitLines(rest).lines, SplitLines(rest).tail)
  {
    var s := SplitLines(rest);
    var lines := pre + s.lines;
    JoinLinesAppend(pre, s.lines);
    AppendAssoc(JoinLines(pre), JoinLines(s.lines), s.tail);
    NoNewlinesAppend(pre, s.lines);
    SplitJoin(lines, s.tail);
  }

  // ---------------------------------------------------------------------------
  // Line classes

  /** After trimming, the header starts with '-' and ends with "-----". Only
      the first character of "-----BEGIN " is compared, and a line shorter
      than five characters never qualifies. */
  predicate IsHeaderLine(l: string)
  {
    |l| >= 5 && l[0] == '-' && EndsWith(l, "-----")
  }

  /** The header test applied to an untrimmed line. */
  predicate HeaderCandidate(l: string)
  {
    IsHeaderLine(Trim(l))
  }

  /** Only tabs and spaces (`strspn` over "\t\r\n " covers the whole line). */
  predicate IsBlankLine(l: string)
  {
    forall i :: 0 <= i < |l| ==> l[i] in "\t\r\n "
  }

  /** The header block ends at a blank line or at a line without a colon. */
  predicate IsStopLine(l: string)
  {
    IsBlankLine(l) || ':' !in l
  }

  /** The key of a header field: the trimmed text before its first colon. */
  function FieldKey(l: string): string
  {
    Trim(Before(l, ':'))
  }

  /** The value of a header field: the trimmed text after its first colon. */
  function FieldValue(l: string): string
    requires ':' in l
  {
    Trim(l[|Before(l, ':')| + 1..])
  }

  const SetupCodeKey: string := "Passphrase-Begin"
  const PreferEncryptKey: string := "Autocrypt-Prefer-Encrypt"

  predicate IsField(l: string, key: string)
  {
    ':' in l && EqualsIgnoreCase(FieldKey(l), key)
  }

  datatype Fields = Fields(setupCodeBegin: Option<string>, preferEncrypt: Option<string>)

  /** Index of the last line carrying `key`, or -1 if there is none. */
  function LastFieldIndex(lines: seq<string>, key: string): (r: int)
    ensures -1 <= r < |lines|
    ensures r >= 0 ==> IsField(lines[r], key)
    ensures forall j :: r < j < |lines| ==> !IsField(lines[j], key)
    decreases |lines|
  {
    if |lines| == 0 then -1
    else if IsField(lines[|lines| - 1], key) then |lines| - 1
    else
      var r := LastFieldIndex(lines[..|lines| - 1], key);
      assert forall j :: r < j < |lines| - 1 ==> lines[..|lines| - 1][j] == lines[j];
      r
  }

  /** The value of the last line carrying `key`, if any. */
  function LastField(lines: seq<string>, key: string): Option<string>
  {
    var i := LastFieldIndex(lines, key);
    if i < 0 then None else Some(FieldValue(lines[i]))
  }

  /** The two recognised fields among the lines between the header and the
      payload; a later line overwrites an earlier one. */
  function CollectFields(lines: seq<string>): Fields
  {
    Fields(LastField(lines, SetupCodeKey), LastField(lines, PreferEncryptKey))
  }

  // ---------------------------------------------------------------------------
  // The split

  /** Which output pointers the caller passed as non-null. */
  datatype Requested = Requested(header: bool, setupCodeBegin: bool, preferEncrypt: bool, base64: bool)

  /** The return value and the four outputs. */
  datatype Armored = Armored(
    success: bool,
    header: Option<string>,
    setupCodeBegin: Option<string>,
    preferEncrypt: Option<string>,
    base64: Option<string>)

  const Nothing: Armored := Armored(false, None, None, None, None)

  const EndMarker: string := "-----END "

  /** Where the payload in `body` ends: the first "-----END " if it is
      followed by the header's text after its first eleven characters. */
  function PayloadEnd(body: string, header: string): (r: Option<nat>)
    ensures r.Some? ==> r.value + |EndMarker| <= |body| && Find(body, EndMarker) == r
    ensures r.Some? ==> |header| >= 11 && StartsWith(body[r.value + |EndMarker|..], header[11..])
    ensures r.None? ==>
      (Find(body, EndMarker).None? || |header| < 11
       || !StartsWith(body[Find(body, EndMarker).value + |EndMarker|..], header[11..]))
  {
    match Find(body, EndMarker)
    case None => None
    case Some(e) =>
      if |header| >= 11 && StartsWith(body[e + |EndMarker|..], header[11..]) then Some(e) else None
  }

  /** The text the payload is searched in once line `j` has ended the header
      block: what follows a blank line, or everything from a line without a
      colon on, through the unterminated tail. */
  function PayloadText(after: seq<string>, j: nat, tail: string): string
    requires j < |after|
  {
    if IsBlankLine(after[j]) then JoinLines(after[j + 1..]) + tail else JoinLines(after[j..]) + tail
  }

  function Keep<T>(wanted: bool, x: Option<T>): Option<T>
  {
    if wanted then x else None
  }

  /** After the header line `h`: read header fields up to the first blank
      line or line without a colon; the payload starts after a blank line, or
      at the line without a colon, and runs on through the unterminated tail. */
  function ScanAfterHeader(h: string, after: seq<string>, tail: string, want: Requested): (r: Armored)
    ensures r.header == Some(h)
    ensures !want.setupCodeBegin ==> r.setupCodeBegin.None?
    ensures !want.preferEncrypt ==> r.preferEncrypt.None?
    ensures r.base64.Some? ==> r.success && want.base64
    ensures r.success && want.base64 ==> r.base64.Some?
  {
    var j := FirstIndex(after, IsStopLine);
    var fields := CollectFields(after[..j]);
    var setup := Keep(want.setupCodeBegin, fields.setupCodeBegin);
    var prefer := Keep(want.preferEncrypt, fields.preferEncrypt);
    if j == |after| then Armored(false, Some(h), setup, prefer, None)
    else
      var body := PayloadText(after, j, tail);
      match PayloadEnd(body, h)
      case None => Armored(false, Some(h), setup, prefer, None)
      case Some(e) => Armored(true, Some(h), setup, prefer, Keep(want.base64, Some(Trim(body[..e]))))
  }

  /** The header line, trimmed, and the complete lines after it. */
  datatype HeaderBlock = HeaderBlock(header: string, after: seq<string>)

  /** The first complete line that trims to a header: lines before it are
      skipped. */
  function FindHeader(lines: seq<string>): (r: Option<HeaderBlock>)
    ensures var k := FirstIndex(lines, HeaderCandidate);
      && (r.None? <==> k == |lines|)
      && (r.Some? ==> r.value.header == Trim(lines[k]) && r.value.after == lines[k + 1..])
  {
    var k := FirstIndex(lines, HeaderCandidate);
    if k == |lines| then None else Some(HeaderBlock(Trim(lines[k]), lines[k + 1..]))
  }

  /** The scan over the complete lines and the tail of a prepared buffer. */
  function ScanArmor(lines: seq<string>, tail: string, want: Requested): (r: Armored)
    requires want.header
    ensures FindHeader(lines).None? ==> r == Nothing
    ensures FindHeader(lines).Some? ==> r.header == Some(FindHeader(lines).value.header)
    ensures r.success ==> r.header.Some?
    ensures r.base64.Some? ==> r.success && want.base64
  {
    match FindHeader(lines)
    case None => Nothing
    case Some(b) => ScanAfterHeader(b.header, b.after, tail, want)
  }

  /** The buffer as the C code sees it: up to the first NUL, without
      carriage returns. */
  function Prepare(buf: string): (r: string)
    ensures '\0' !in r && '\r' !in r
  {
    var b := Before(buf, '\0');
    var r := RemoveChar(b, '\r');
    assert multiset(r)['\0'] == multiset(b)['\0'] == 0;
    r
  }

  /** `dc_split_armored_data`. Without a buffer or a header output nothing
      is done and every output stays null. */
  function SplitArmoredData(buf: Option<string>, want: Requested): (r: Armored)
    ensures buf.None? || !want.header ==> r == Nothing
    ensures r.success ==> r.header.Some? && buf.Some?
    ensures r.base64.Some? ==> r.success && want.base64
  {
    if buf.None? || !want.header then Nothing
    else
      var s := SplitLines(Prepare(buf.value));
      ScanArmor(s.lines, s.tail, want)
  }
}
