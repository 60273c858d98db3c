/** Properties of `dc_split_armored_data` (src/dc_pgp.rs:22-138): it undoes
    the armored layout of an Autocrypt setup file, ignores carriage returns,
    stops at the first NUL, skips anything before the header line, and never
    reads a header or field from an unterminated last line. */
module ArmorProperties {
  import opened Wrappers
  import opened Text
  import opened Seqs
  import opened Armor

  // ---------------------------------------------------------------------------
  // Buffer preparation

  /** Removing carriage returns first changes nothing. */
  lemma CarriageReturnsIgnored(buf: string, want: Requested)
    ensures SplitArmoredData(Some(RemoveChar(buf, '\r')), want) == SplitArmoredData(Some(buf), want)
  {
    RemoveCharBefore(buf, '\r', '\0');
    var b := Before(buf, '\0');
    RemoveCharAbsent(RemoveChar(b, '\r'), '\r');
  }

  /** Nothing after the first NUL is read. */
  lemma StopsAtNul(a: string, b: string, want: Requested)
    requires '\0' !in a
    ensures SplitArmoredData(Some(a + "\0" + b), want) == SplitArmoredData(Some(a), want)
  {
    var t := a + "\0" + b;
    assert t[..|a|] == a && t[|a|] == '\0';
    BeforeAt(t, '\0', |a|);
    BeforeAbsent(a, '\0');
  }

  /** Deleting one character commutes with cutting at another. */
  lemma {:induction false} RemoveCharBefore(s: string, c: char, d: char)
    requires c != d
    ensures Before(RemoveChar(s, c), d) == RemoveChar(Before(s, d), c)
  {
    if |s| == 0 {
    } else if s[0] == d {
      BeforeAt(s, d, 0);
      assert RemoveChar(s, c) == [d] + RemoveChar(s[1..], c);
      BeforeAt(RemoveChar(s, c), d, 0);
    } else {
      RemoveCharBefore(s[1..], c, d);
      BeforeCons(s, d);
      if s[0] == c {
        assert RemoveChar(s, c) == RemoveChar(s[1..], c);
        assert RemoveChar(Before(s, d), c) == RemoveChar(Before(s[1..], d), c);
      } else {
        assert RemoveChar(s, c) == [s[0]] + RemoveChar(s[1..], c);
        BeforeCons([s[0]] + RemoveChar(s[1..], c), d);
        assert ([s[0]] + RemoveChar(s[1..], c))[1..] == RemoveChar(s[1..], c);
        assert RemoveChar(Before(s, d), c) == [s[0]] + RemoveChar(Before(s[1..], d), c);
      }
    }
  }

  /** Cutting a string that does not start with the cut character. */
  lemma BeforeCons(s: string, d: char)
    requires |s| > 0 && s[0] != d
    ensures Before(s, d) == [s[0]] + Before(s[1..], d)
  {
    var r := Before(s[1..], d);
    if |r| < |s[1..]| {
      assert s[1..][..|r|] == s[1..|r| + 1];
      assert s[..|r| + 1] == [s[0]] + r;
      assert d !in s[..|r| + 1];
      BeforeAt(s, d, |r| + 1);
    } else {
      assert d !in s;
      BeforeAbsent(s, d);
      assert s == [s[0]] + s[1..];
    }
  }

  /** Cutting after a prefix free of the cut character. */
  lemma BeforeAppend(a: string, b: string, d: char)
    requires d !in a
    ensures Before(a + b, d) == a + Before(b, d)
  {
    var r := Before(b, d);
    if |r| < |b| {
      assert (a + b)[..|a| + |r|] == a + r;
      assert (a + b)[|a| + |r|] == b[|r|];
      BeforeAt(a + b, d, |a| + |r|);
    } else {
      assert d !in a + b;
      BeforeAbsent(a + b, d);
      BeforeAbsent(b, d);
    }
  }

  /** Two lookups that agree field by field agree. */
  lemma SameHeaderBlock(a: Option<HeaderBlock>, b: Option<HeaderBlock>)
    requires a.None? <==> b.None?
    requires a.Some? ==> a.value.header == b.value.header && a.value.after == b.value.after
    ensures a == b
  {
  }

  /** Complete lines that do not trim to a header are passed over: the same
      header line and the same lines after it are found. */
  lemma FindHeaderSkips(junk: seq<string>, lines: seq<string>)
    requires forall i :: 0 <= i < |junk| ==> !HeaderCandidate(junk[i])
    ensures FindHeader(junk + lines) == FindHeader(lines)
  {
    FirstIndexAppend(junk, lines, HeaderCandidate);
    var k := FirstIndex(lines, HeaderCandidate);
    var a, b := FindHeader(junk + lines), FindHeader(lines);
    if k < |lines| {
      AppendAt(junk, lines, k);
      assert a.value.header == Trim(lines[k]) == b.value.header;
      assert a.value.after == lines[k + 1..] == b.value.after;
    }
    SameHeaderBlock(a, b);
  }

  /** The scan depends on the lines only through the header block found. */
  lemma ScanDependsOnBlock(a: seq<string>, b: seq<string>, tail: string, want: Requested)
    requires want.header
    requires FindHeader(a) == FindHeader(b)
    ensures ScanArmor(a, tail, want) == ScanArmor(b, tail, want)
  {
  }

  /** Complete lines that do not form a header are skipped over unread. */
  lemma ScanSkipsLeadingLines(junk: seq<string>, lines: seq<string>, tail: string, want: Requested)
    requires want.header
    requires forall i :: 0 <= i < |junk| ==> !HeaderCandidate(junk[i])
    ensures ScanArmor(junk + lines, tail, want) == ScanArmor(lines, tail, want)
  {
    FindHeaderSkips(junk, lines);
    ScanDependsOnBlock(junk + lines, lines, tail, want);
  }

  /** Complete lines free of NUL and carriage return survive preparation
      and come out of the split in front of the rest. */
  lemma SplitAfterJunk(junk: seq<string>, text: string)
    requires NoNewlines(junk)
    requires '\0' !in JoinLines(junk) && '\r' !in JoinLines(junk)
    ensures SplitLines(Prepare(JoinLines(junk) + text))
         == Split(junk + SplitLines(Prepare(text)).lines, SplitLines(Prepare(text)).tail)
  {
    var j := JoinLines(junk);
    BeforeAppend(j, text, '\0');
    RemoveCharAppend(j, Before(text, '\0'), '\r');
    RemoveCharAbsent(j, '\r');
    assert Prepare(j + text) == j + Prepare(text);
    SplitJoinLines(junk, Prepare(text));
  }

  lemma ScansPreparedLines(buf: string, want: Requested)
    requires want.header
    ensures SplitArmoredData(Some(buf), want)
         == ScanArmor(SplitLines(Prepare(buf)).lines, SplitLines(Prepare(buf)).tail, want)
  {
  }

  /** Text in front of the header block, in complete lines none of which
      looks like a header, does not change the result. */
  lemma SkipsLinesBeforeHeader(junk: seq<string>, text: string, want: Requested)
    requires NoNewlines(junk)
    requires forall i :: 0 <= i < |junk| ==> !HeaderCandidate(junk[i])
    requires '\0' !in JoinLines(junk) && '\r' !in JoinLines(junk)
    ensures SplitArmoredData(Some(JoinLines(junk) + text), want) == SplitArmoredData(Some(text), want)
  {
    if want.header {
      SplitAfterJunk(junk, text);
      var s := SplitLines(Prepare(text));
      ScanSkipsLeadingLines(junk, s.lines, s.tail, want);
      ScansPreparedLines(JoinLines(junk) + text, want);
      ScansPreparedLines(text, want);
    }
  }

  /** Without a complete line there is no header, so nothing is found. */
  lemma NeedsCompleteLine(buf: string, want: Requested)
    requires '\n' !in Prepare(buf)
    ensures SplitArmoredData(Some(buf), want) == Nothing
  {
    if want.header {
      var t := Prepare(buf);
      SplitJoin([], t);
      assert JoinLines([]) + t == t;
    }
  }

  // ---------------------------------------------------------------------------
  // Reading a header block

  lemma ScanFound(lines: seq<string>, tail: string, want: Requested, b: HeaderBlock)
    requires want.header
    requires FindHeader(lines) == Some(b)
    ensures ScanArmor(lines, tail, want) == ScanAfterHeader(b.header, b.after, tail, want)
  {
  }

  /** Two header-field lines then a blank line: the fields are the two
      lines and the payload text starts after the blank line. */
  lemma StopsAtBlank(l1: string, l2: string, rest: seq<string>)
    requires !IsStopLine(l1) && !IsStopLine(l2)
    ensures var after := [l1, l2, ""] + rest;
      && FirstIndex(after, IsStopLine) == 2 && IsBlankLine(after[2])
      && after[..2] == [l1, l2] && after[3..] == rest
  {
    var after := [l1, l2, ""] + rest;
    assert after == [l1, l2] + ([""] + rest);
    assert IsStopLine(([""] + rest)[0]);
    FirstIndexAppend([l1, l2], [""] + rest, IsStopLine);
  }

  /** Whatever line ends the header block, the fields are read from the lines
      before it, and with an end line in the payload text the scan succeeds
      with that text, trimmed, up to the end line. */
  lemma ScanAfterStop(h: string, after: seq<string>, tail: string, want: Requested, j: nat, e: nat)
    requires FirstIndex(after, IsStopLine) == j < |after|
    requires PayloadEnd(PayloadText(after, j, tail), h) == Some(e)
    ensures var f := CollectFields(after[..j]);
      ScanAfterHeader(h, after, tail, want)
      == Armored(true, Some(h), Keep(want.setupCodeBegin, f.setupCodeBegin), Keep(want.preferEncrypt, f.preferEncrypt),
                 Keep(want.base64, Some(Trim(PayloadText(after, j, tail)[..e]))))
  {
  }

  /** A blank line ends the header block and is itself dropped: the payload
      text starts on the line after it. */
  lemma ScanAfterBlank(h: string, after: seq<string>, tail: string, want: Requested, j: nat, e: nat)
    requires FirstIndex(after, IsStopLine) == j < |after| && IsBlankLine(after[j])
    requires PayloadEnd(JoinLines(after[j + 1..]) + tail, h) == Some(e)
    ensures var f := CollectFields(after[..j]);
      ScanAfterHeader(h, after, tail, want)
      == Armored(true, Some(h), Keep(want.setupCodeBegin, f.setupCodeBegin), Keep(want.preferEncrypt, f.preferEncrypt),
                 Keep(want.base64, Some(Trim((JoinLines(after[j + 1..]) + tail)[..e]))))
  {
    ScanAfterStop(h, after, tail, want, j, e);
  }

  /** A non-blank line without a colon also ends the header block, but is
      kept: the payload text starts with that line. */
  lemma ScanAfterColonless(h: string, after: seq<string>, tail: string, want: Requested, j: nat, e: nat)
    requires FirstIndex(after, IsStopLine) == j < |after| && !IsBlankLine(after[j])
    requires PayloadEnd(JoinLines(after[j..]) + tail, h) == Some(e)
    ensures ':' !in after[j]
    ensures var f := CollectFields(after[..j]);
      ScanAfterHeader(h, after, tail, want)
      == Armored(true, Some(h), Keep(want.setupCodeBegin, f.setupCodeBegin), Keep(want.preferEncrypt, f.preferEncrypt),
                 Keep(want.base64, Some(Trim((JoinLines(after[j..]) + tail)[..e]))))
  {
    ScanAfterStop(h, after, tail, want, j, e);
  }

  lemma LastOfTwo(l1: string, l2: string, key: string)
    ensures IsField(l2, key) ==> LastField([l1, l2], key) == Some(FieldValue(l2))
    ensures IsField(l1, key) && !IsField(l2, key) ==> LastField([l1, l2], key) == Some(FieldValue(l1))
  {
    if IsField(l1, key) && !IsField(l2, key) {
      assert [l1, l2][..1] == [l1];
      assert LastFieldIndex([l1], key) == 0;
      assert LastFieldIndex([l1, l2], key) == 0;
    }
  }

  /** Without a blank line or a line lacking a colon after the header, no
      payload is found: the call fails, though the header is reported. */
  lemma UnendedHeaderBlockFails(h: string, after: seq<string>, tail: string, want: Requested)
    requires forall i :: 0 <= i < |after| ==> !IsStopLine(after[i])
    ensures var r := ScanAfterHeader(h, after, tail, want);
      !r.success && r.base64.None? && r.header == Some(h)
  {
    assert FirstIndex(after, IsStopLine) == |after|;
  }

  /** Without "-----END " in the text after the header block the call fails. */
  lemma MissingEndLineFails(h: string, after: seq<string>, tail: string, want: Requested)
    requires FirstIndex(after, IsStopLine) < |after|
    requires !Contains(PayloadText(after, FirstIndex(after, IsStopLine), tail), EndMarker)
    ensures !ScanAfterHeader(h, after, tail, want).success
  {
    NoEndLine(PayloadText(after, FirstIndex(after, IsStopLine), tail), h);
    ScanSucceeds(h, after, tail, want);
  }

  lemma NoEndLine(body: string, h: string)
    requires !Contains(body, EndMarker)
    ensures PayloadEnd(body, h).None?
  {
  }

  /** The scan succeeds exactly when a line ends the header block and the
      text after it holds an end line naming the same block type. */
  lemma ScanSucceeds(h: string, after: seq<string>, tail: string, want: Requested)
    ensures var j := FirstIndex(after, IsStopLine);
      ScanAfterHeader(h, after, tail, want).success
      <==> j < |after| && PayloadEnd(PayloadText(after, j, tail), h).Some?
  {
  }

  /** A header line shorter than eleven characters has no text to match the
      end line against, so the call never succeeds. */
  lemma ShortHeaderFails(h: string, after: seq<string>, tail: string, want: Requested)
    requires |h| < 11
    ensures !ScanAfterHeader(h, after, tail, want).success
  {
  }

  /** Of two lines carrying the same key, the later one's value is kept. */
  lemma LaterFieldWins(lines: seq<string>, l: string, key: string)
    requires IsField(l, key)
    ensures LastField(lines + [l], key) == Some(FieldValue(l))
  {
    assert (lines + [l])[|lines|] == l;
  }
}
