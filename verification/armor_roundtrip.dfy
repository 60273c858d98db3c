/** The layout of an Autocrypt setup file's armored block, as the reading
    in src/dc_pgp.rs:22-138 expects it, and the proof that reading a rendered
    block gives back its header, its two fields and its payload. */
module ArmorRoundTrip {
  import opened Wrappers
  import opened Text
  import opened Seqs
  import opened Armor
  import opened ArmorProperties

  /** No line break, NUL or carriage return: text that survives preparation
      and stays on one line. */
  predicate Clean(s: string)
  {
    '\n' !in s && '\0' !in s && '\r' !in s
  }

  /** A header field line, `Key: value`. */
  function FieldLine(key: string, value: string): string
  {
    key + ": " + value
  }

  /** The header line, the two field lines and the blank line that ends the
      header block. */
  function RenderLines(h: string, sc: string, pe: string): seq<string>
  {
    [h, FieldLine(SetupCodeKey, sc), FieldLine(PreferEncryptKey, pe), ""]
  }

  /** What follows the blank line: the payload and the end line, whose text
      after "-----END " repeats the header from its twelfth character on. */
  function Closing(h: string, payload: string): string
    requires |h| >= 11
  {
    payload + "\n" + EndMarker + h[11..] + "\n"
  }

  /** A complete armored block as a setup file carries it. */
  function Render(h: string, sc: string, pe: string, payload: string): string
    requires |h| >= 11
  {
    JoinLines(RenderLines(h, sc, pe)) + Closing(h, payload)
  }

  /** The two field keys are non-empty, trimmed, one-line and colon-free. */
  lemma SetupCodeKeyShape()
    ensures SetupCodeKey != "" && IsTrimmed(SetupCodeKey) && ':' !in SetupCodeKey && Clean(SetupCodeKey)
  {
  }

  lemma PreferEncryptKeyShape()
    ensures PreferEncryptKey != "" && IsTrimmed(PreferEncryptKey) && ':' !in PreferEncryptKey && Clean(PreferEncryptKey)
  {
  }

  /** A field line reads back as its key and value. */
  lemma FieldLineReads(key: string, v: string)
    requires key != "" && IsTrimmed(key) && ':' !in key
    requires v != "" && IsTrimmed(v)
    ensures var l := FieldLine(key, v);
      && ':' in l && !IsStopLine(l) && FieldKey(l) == key && FieldValue(l) == v
  {
    var l := FieldLine(key, v);
    assert l[..|key|] == key && l[|key|] == ':';
    BeforeAt(l, ':', |key|);
    TrimOfTrimmed(key);
    assert l[|key| + 1..] == " " + v + "";
    TrimPadded(" ", v, "");
    assert !IsBlankLine(l) by {
      assert l[0] == key[0];
    }
  }

  /** The two field lines give both fields. */
  lemma FieldsRead(sc: string, pe: string)
    requires sc != "" && IsTrimmed(sc) && pe != "" && IsTrimmed(pe)
    ensures CollectFields([FieldLine(SetupCodeKey, sc), FieldLine(PreferEncryptKey, pe)]) == Fields(Some(sc), Some(pe))
  {
    var l1 := FieldLine(SetupCodeKey, sc);
    var l2 := FieldLine(PreferEncryptKey, pe);
    SetupCodeKeyShape();
    PreferEncryptKeyShape();
    FieldLineReads(SetupCodeKey, sc);
    FieldLineReads(PreferEncryptKey, pe);
    EqualsIgnoreCaseRefl(SetupCodeKey);
    EqualsIgnoreCaseRefl(PreferEncryptKey);
    assert |SetupCodeKey| != |PreferEncryptKey|;
    LastOfTwo(l1, l2, SetupCodeKey);
    LastOfTwo(l1, l2, PreferEncryptKey);
  }

  /** The lower-case spelling of the setup-code key. */
  const LowerSetupCodeKey: string := "passphrase-begin"

  lemma LowerSetupCodeKeyShape()
    ensures LowerSetupCodeKey != "" && IsTrimmed(LowerSetupCodeKey) && ':' !in LowerSetupCodeKey
  {
  }

  lemma LowerSetupCodeKeyMatches()
    ensures EqualsIgnoreCase(LowerSetupCodeKey, SetupCodeKey)
  {
  }

  /** Field keys are compared as `strcasecmp` does: a lower-case
      `passphrase-begin` line is read as the setup-code field. */
  lemma LowerCaseKeyRead(v: string)
    requires v != "" && IsTrimmed(v)
    ensures CollectFields([FieldLine(LowerSetupCodeKey, v)]).setupCodeBegin == Some(v)
  {
    LowerSetupCodeKeyShape();
    FieldLineReads(LowerSetupCodeKey, v);
    LowerSetupCodeKeyMatches();
    assert IsField(FieldLine(LowerSetupCodeKey, v), SetupCodeKey);
  }

  /** The closing part: the payload ends at the end line, and trimming what
      precedes it gives the payload back. */
  lemma ClosingRead(h: string, payload: string)
    requires |h| >= 11
    requires payload != "" && IsTrimmed(payload) && '-' !in payload
    ensures PayloadEnd(Closing(h, payload), h) == Some(|payload| + 1)
    ensures Trim(Closing(h, payload)[..|payload| + 1]) == payload
  {
    var c := Closing(h, payload);
    var n := |payload| + 1;
    assert c[n..n + |EndMarker|] == EndMarker;
    forall j: nat | j < n
      ensures !OccursAt(c, EndMarker, j)
    {
      assert c[j] != '-' by {
        if j < |payload| { assert c[j] == payload[j]; }
      }
      assert c[j..j + |EndMarker|][0] == c[j];
    }
    FindAt(c, EndMarker, n);
    assert c[n + |EndMarker|..] == h[11..] + "\n";
    assert c[..n] == "" + payload + "\n";
    TrimPadded("", payload, "\n");
  }

  lemma FieldLineClean(key: string, v: string)
    requires Clean(key) && Clean(v)
    ensures Clean(FieldLine(key, v))
  {
  }

  lemma RenderLinesClean(h: string, sc: string, pe: string)
    requires Clean(h) && Clean(sc) && Clean(pe)
    ensures var ls := RenderLines(h, sc, pe);
      NoNewlines(ls) && '\0' !in JoinLines(ls) && '\r' !in JoinLines(ls)
  {
    var ls := RenderLines(h, sc, pe);
    SetupCodeKeyShape();
    PreferEncryptKeyShape();
    FieldLineClean(SetupCodeKey, sc);
    FieldLineClean(PreferEncryptKey, pe);
    NotInJoinLines(ls, '\0');
    NotInJoinLines(ls, '\r');
  }

  lemma ClosingClean(h: string, payload: string)
    requires |h| >= 11 && Clean(h)
    requires '\0' !in payload && '\r' !in payload
    ensures '\0' !in Closing(h, payload) && '\r' !in Closing(h, payload)
  {
    assert '\0' !in h[11..] && '\r' !in h[11..];
  }

  lemma RenderPrepared(h: string, sc: string, pe: string, payload: string)
    requires |h| >= 11 && Clean(h) && Clean(sc) && Clean(pe)
    requires '\0' !in payload && '\r' !in payload
    ensures Prepare(Render(h, sc, pe, payload)) == Render(h, sc, pe, payload)
  {
    var t := Render(h, sc, pe, payload);
    RenderLinesClean(h, sc, pe);
    ClosingClean(h, payload);
    assert '\0' !in t && '\r' !in t;
    BeforeAbsent(t, '\0');
    RemoveCharAbsent(t, '\r');
  }

  /** The rendered header line is found first, with the field lines, the
      blank line and the closing part's lines after it. */
  lemma RenderHeaderFound(h: string, sc: string, pe: string, rest: seq<string>)
    requires IsHeaderLine(h) && IsTrimmed(h)
    ensures FindHeader(RenderLines(h, sc, pe) + rest)
         == Some(HeaderBlock(h, [FieldLine(SetupCodeKey, sc), FieldLine(PreferEncryptKey, pe), ""] + rest))
  {
    var lines := RenderLines(h, sc, pe) + rest;
    TrimOfTrimmed(h);
    assert lines[0] == h && HeaderCandidate(lines[0]);
    assert FirstIndex(lines, HeaderCandidate) == 0;
    assert lines[1..] == [FieldLine(SetupCodeKey, sc), FieldLine(PreferEncryptKey, pe), ""] + rest;
    SameHeaderBlock(FindHeader(lines),
      Some(HeaderBlock(h, [FieldLine(SetupCodeKey, sc), FieldLine(PreferEncryptKey, pe), ""] + rest)));
  }

  /** What follows the header line of a rendered file reads back as the two
      fields and the payload. */
  lemma RenderBlockRead(h: string, sc: string, pe: string, payload: string, want: Requested)
    requires |h| >= 11
    requires sc != "" && IsTrimmed(sc) && pe != "" && IsTrimmed(pe)
    requires payload != "" && IsTrimmed(payload) && '-' !in payload
    ensures var s := SplitLines(Closing(h, payload));
      ScanAfterHeader(h, [FieldLine(SetupCodeKey, sc), FieldLine(PreferEncryptKey, pe), ""] + s.lines, s.tail, want)
      == Armored(true, Some(h), Keep(want.setupCodeBegin, Some(sc)), Keep(want.preferEncrypt, Some(pe)),
                 Keep(want.base64, Some(payload)))
  {
    var s := SplitLines(Closing(h, payload));
    var l1 := FieldLine(SetupCodeKey, sc);
    var l2 := FieldLine(PreferEncryptKey, pe);
    SetupCodeKeyShape();
    PreferEncryptKeyShape();
    FieldLineReads(SetupCodeKey, sc);
    FieldLineReads(PreferEncryptKey, pe);
    StopsAtBlank(l1, l2, s.lines);
    FieldsRead(sc, pe);
    ClosingRead(h, payload);
    ScanAfterBlank(h, [l1, l2, ""] + s.lines, s.tail, want, 2, |payload| + 1);
  }

  lemma RenderRoundTrip(h: string, sc: string, pe: string, payload: string, want: Requested)
    requires IsHeaderLine(h) && IsTrimmed(h) && |h| >= 11 && Clean(h)
    requires sc != "" && IsTrimmed(sc) && Clean(sc)
    requires pe != "" && IsTrimmed(pe) && Clean(pe)
    requires payload != "" && IsTrimmed(payload) && '\0' !in payload && '\r' !in payload && '-' !in payload
    ensures SplitArmoredData(Some(Render(h, sc, pe, payload)), want)
         == if want.header
            then Armored(true, Some(h), Keep(want.setupCodeBegin, Some(sc)), Keep(want.preferEncrypt, Some(pe)),
                         Keep(want.base64, Some(payload)))
            else Nothing
  {
    if want.header {
      var t := Render(h, sc, pe, payload);
      var ls := RenderLines(h, sc, pe);
      var c := Closing(h, payload);
      RenderPrepared(h, sc, pe, payload);
      RenderLinesClean(h, sc, pe);
      SplitJoinLines(ls, c);
      var s := SplitLines(c);
      RenderHeaderFound(h, sc, pe, s.lines);
      var after := [FieldLine(SetupCodeKey, sc), FieldLine(PreferEncryptKey, pe), ""] + s.lines;
      ScanFound(ls + s.lines, s.tail, want, HeaderBlock(h, after));
      RenderBlockRead(h, sc, pe, payload, want);
      ScansPreparedLines(t, want);
    }
  }
}
