/** Exactly which lines the parser takes for a request line, a status line, a header or the size of a chunk. */
module HttpLines {
  import opened DataBuffers
  import opened HttpText
  import opened HttpParser

  predicate Spaces(s: Text) {
    forall i :: 0 <= i < |s| ==> IsSpace(s[i])
  }

  predicate NoSpaces(s: Text) {
    forall i :: 0 <= i < |s| ==> !IsSpace(s[i])
  }

  /** The text does not begin with a space. */
  predicate Starts(s: Text) {
    |s| > 0 ==> !IsSpace(s[0])
  }

  lemma {:induction false} SkipsSpaces(a: Text, r: Text)
    requires Spaces(a) && Starts(r)
    ensures SkipSpaces(a + r) == r
    decreases |a|
  {
    if |a| == 0 {
      assert a + r == r;
    } else {
      assert (a + r)[1..] == a[1..] + r;
      SkipsSpaces(a[1..], r);
    }
  }

  lemma {:induction false} SkippedSpaces(s: Text) returns (a: Text)
    ensures Spaces(a) && s == a + SkipSpaces(s)
    decreases |s|
  {
    if |s| == 0 || !IsSpace(s[0]) {
      a := [];
    } else {
      var b := SkippedSpaces(s[1..]);
      a := [s[0]] + b;
      assert s == [s[0]] + s[1..];
    }
  }

  /** A word, at least one space, and the rest. */
  lemma WordEnds(w: Text, a: Text, r: Text)
    requires NoSpaces(w) && Spaces(a) && |a| > 0
    ensures var s := w + a + r;
            && FindSpace(s) == |w| < |s| && s[..|w|] == w && s[|w| + 1..] == a[1..] + r && Spaces(a[1..])
  {
    var s := w + a + r;
    FindSpaceIsUnique(s, |w|);
  }

  lemma WordFound(s: Text) returns (a: Text)
    requires FindSpace(s) < |s|
    ensures var p := FindSpace(s);
            NoSpaces(s[..p]) && Spaces(a) && |a| > 0 && s == s[..p] + a + SkipSpaces(s[p + 1..])
  {
    hide SkipSpaces;
    var p := FindSpace(s);
    var rest := s[p + 1..];
    var b := SkippedSpaces(rest);
    a := [s[p]] + b;
    Rejoin(s, p, b, SkipSpaces(rest));
  }

  lemma Rejoin(s: Text, p: nat, b: Text, r: Text)
    requires p < |s| && s[p + 1..] == b + r
    ensures s == s[..p] + ([s[p]] + b) + r
  {
    assert s == s[..p] + [s[p]] + s[p + 1..];
  }

  /** A line ends at the first line feed; a carriage return right before it is not part of the line. */
  lemma LinesExactly(text: Text, rest: Text)
    requires LF !in text
    ensures TakeLine(text) == None
    ensures TakeLine(text + ([LF] + rest)) ==
            Some(Line(if |text| > 0 && text[|text| - 1] == CR then text[..|text| - 1] else text, |text| + 1))
  {
    var s := text + ([LF] + rest);
    FindIsUnique(s, LF, |text|);
    FindIsUnique(text, LF, |text|);
    assert s[..|text|] == text;
    assert |text| > 0 ==> s[..|text| - 1] == text[..|text| - 1];
  }

  /** The version: eight bytes, and then the end of the line or a zero byte. */
  predicate IsVersion(w: Text, v: Version) {
    |w| >= 8 && w[..8] == (if v == V10 then HTTP_10 else HTTP_11) && (|w| > 8 ==> w[8] == 0)
  }

  lemma VersionsExactly(w: Text, v: Version)
    ensures ParseVersion(w) == Some(v) <==> IsVersion(w, v)
  {
    var z := Find(w, 0);
    if IsVersion(w, v) {
      assert forall k :: 0 <= k < 8 ==> w[k] == w[..8][k] != 0;
      FindIsUnique(w, 0, 8);
    }
    if ParseVersion(w) == Some(v) {
      assert |w[..z]| == 8;
    }
  }

  // ----- Request lines -----------------------------------------------------------------------------

  /** Method, target and version, apart by spaces; a zero byte ends the version. */
  predicate RequestParts(line: Text, m: Text, a: Text, u: Text, b: Text, w: Text, v: Version) {
    && line == m + a + (u + b + w) && Spaces(a) && |a| > 0 && Spaces(b) && |b| > 0
    && NoSpaces(m) && (forall i :: 0 <= i < |m| ==> IsTokenCharacter(m[i]))
    && NoSpaces(u) && 0 < |u| <= URI_LIMIT && IsVersion(w, v)
  }

  lemma VersionStarts(w: Text, v: Version)
    requires IsVersion(w, v)
    ensures Starts(w)
  {
  }

  lemma RequestIsParsed(line: Text, m: Text, a: Text, u: Text, b: Text, w: Text, v: Version)
    requires RequestParts(line, m, a, u, b, w, v)
    ensures ParseRequest(line) == Some(Request(m, TrimBlanks(ZeroToSpace(u)), v))
  {
    hide FindSpace, SkipSpaces, TrimBlanks, ZeroToSpace, ParseVersion, IsVersion, IsTokenCharacter;
    var rest := u + b + w;
    WordEnds(m, a, rest);
    SkipsSpaces(a[1..], rest);
    VersionStarts(w, v);
    VersionsExactly(w, v);
    WordEnds(u, b, w);
    SkipsSpaces(b[1..], w);
  }

  lemma ParsedIsRequest(line: Text) returns (m: Text, a: Text, u: Text, b: Text, w: Text, v: Version)
    requires ParseRequest(line).Some?
    ensures RequestParts(line, m, a, u, b, w, v)
  {
    hide FindSpace, SkipSpaces, TrimBlanks, ZeroToSpace, ParseVersion, IsVersion, IsTokenCharacter;
    var p := FindSpace(line);
    a := WordFound(line);
    var rest := SkipSpaces(line[p + 1..]);
    var q := FindSpace(rest);
    b := WordFound(rest);
    m, u, w := line[..p], rest[..q], SkipSpaces(rest[q + 1..]);
    v := ParseVersion(w).value;
    VersionsExactly(w, v);
  }

  /** A line is taken for a request exactly when it has these parts, and then for these. */
  lemma RequestsExactly(line: Text)
    ensures ParseRequest(line).Some? <==> exists m, a, u, b, w, v :: RequestParts(line, m, a, u, b, w, v)
  {
    hide ParseRequest, RequestParts;
    if ParseRequest(line).Some? {
      var m, a, u, b, w, v := ParsedIsRequest(line);
    }
    if m, a, u, b, w, v :| RequestParts(line, m, a, u, b, w, v) {
      RequestIsParsed(line, m, a, u, b, w, v);
    }
  }

  // ----- Status lines ------------------------------------------------------------------------------

  /** Version, status and, behind spaces, a reason, which may be missing. */
  predicate StatusParts(line: Text, w: Text, a: Text, c: Text, b: Text, r: Text, v: Version) {
    && line == w + a + (c + b + r) && Spaces(a) && |a| > 0 && Spaces(b) && (|b| == 0 ==> r == []) && Starts(r)
    && NoSpaces(w) && IsVersion(w, v)
    && NoSpaces(c) && |CString(c)| == 3 && AllDigits(CString(c))
  }

  function StatusOf(c: Text): nat
    requires AllDigits(c)
  {
    if 100 <= Decimal(c) < 600 then Decimal(c) else 0
  }

  lemma StatusIsParsed(line: Text, w: Text, a: Text, c: Text, b: Text, r: Text, v: Version)
    requires StatusParts(line, w, a, c, b, r, v)
    ensures ParseStatus(line) ==
            Some(Response(v, StatusOf(CString(c)), if CString(r) == [] then None else Some(CString(r))))
  {
    hide FindSpace, SkipSpaces, ParseVersion, IsVersion, CString, Decimal, AllDigits;
    var rest := c + b + r;
    VersionsExactly(w, v);
    NotEmpty(c);
    WordEnds(w, a, rest);
    SkipsSpaces(a[1..], rest);
    if |b| == 0 {
      assert rest == c;
      FindSpaceIsUnique(rest, |c|);
      assert rest[..|c|] == c;
      CString0();
    } else {
      WordEnds(c, b, r);
      SkipsSpaces(b[1..], r);
    }
  }

  lemma CString0()
    ensures CString([]) == []
  {
  }

  lemma NotEmpty(c: Text)
    requires |CString(c)| == 3
    ensures |c| >= 3
  {
  }

  lemma ParsedIsStatus(line: Text) returns (w: Text, a: Text, c: Text, b: Text, r: Text, v: Version)
    requires ParseStatus(line).Some?
    ensures StatusParts(line, w, a, c, b, r, v)
  {
    hide FindSpace, SkipSpaces, ParseVersion, IsVersion, CString, Decimal, AllDigits;
    var p := FindSpace(line);
    a := WordFound(line);
    w, v := line[..p], ParseVersion(line[..p]).value;
    VersionsExactly(w, v);
    var rest := SkipSpaces(line[p + 1..]);
    var q := FindSpace(rest);
    c := rest[..q];
    if q == |rest| {
      b, r := [], [];
      assert c == rest && c + b + r == rest;
    } else {
      b := WordFound(rest);
      r := SkipSpaces(rest[q + 1..]);
    }
  }

  lemma StatusLinesExactly(line: Text)
    ensures ParseStatus(line).Some? <==> exists w, a, c, b, r, v :: StatusParts(line, w, a, c, b, r, v)
  {
    hide ParseStatus, StatusParts;
    if ParseStatus(line).Some? {
      var w, a, c, b, r, v := ParsedIsStatus(line);
    }
    if w, a, c, b, r, v :| StatusParts(line, w, a, c, b, r, v) {
      StatusIsParsed(line, w, a, c, b, r, v);
    }
  }

  // ----- Header lines and sizes --------------------------------------------------------------------

  /** A line without a colon adds nothing. One with a colon adds a header: the name up to the first colon, or
      to a zero byte, and the value without spaces around it, with its zero bytes as blanks. */
  lemma HeaderLinesExactly(headers: map<Text, Field>, line: Text)
    ensures COLON !in line ==> AddLine(headers, line) == headers
    ensures forall k, a, v, b :: HeaderParts(line, k, a, v, b) ==>
              AddLine(headers, line) == AddHeader(headers, CString(k), ZeroToSpace(v))
    ensures COLON in line ==> exists k, a, v, b :: HeaderParts(line, k, a, v, b)
  {
    hide CString, ZeroToSpace, Trim, AddHeader, HeaderParts;
    if COLON in line {
      var k, a, v, b := PartsOfHeader(line);
    }
    forall k, a, v, b | HeaderParts(line, k, a, v, b)
      ensures AddLine(headers, line) == AddHeader(headers, CString(k), ZeroToSpace(v))
    {
      PartsAreHeader(headers, line, k, a, v, b);
    }
  }

  predicate HeaderParts(line: Text, k: Text, a: Text, v: Text, b: Text) {
    line == k + [COLON] + (a + v + b) && COLON !in k && Spaces(a) && Spaces(b) && Trimmed(v) && (v == [] ==> b == [])
  }

  lemma PartsAreHeader(headers: map<Text, Field>, line: Text, k: Text, a: Text, v: Text, b: Text)
    requires HeaderParts(line, k, a, v, b)
    ensures AddLine(headers, line) == AddHeader(headers, CString(k), ZeroToSpace(v))
  {
    hide CString, ZeroToSpace, SkipSpaces, DropSpacesRight, AddHeader;
    FindIsUnique(line, COLON, |k|);
    assert line[..|k|] == k && line[|k| + 1..] == a + (v + b);
    SkipsSpaces(a, v + b);
    DropsSpaces(v, b);
  }

  lemma {:induction false} DropsSpaces(v: Text, b: Text)
    requires Spaces(b) && (|v| > 0 ==> !IsSpace(v[|v| - 1]))
    ensures DropSpacesRight(v + b) == v
    decreases |b|
  {
    if |b| == 0 {
      assert v + b == v;
    } else {
      assert (v + b)[..|v + b| - 1] == v + b[..|b| - 1];
      DropsSpaces(v, b[..|b| - 1]);
    }
  }

  lemma {:induction false} DroppedSpaces(s: Text) returns (b: Text)
    ensures Spaces(b) && s == DropSpacesRight(s) + b
    decreases |s|
  {
    if |s| == 0 || !IsSpace(s[|s| - 1]) {
      b := [];
    } else {
      var c := DroppedSpaces(s[..|s| - 1]);
      b := c + [s[|s| - 1]];
    }
  }

  lemma PartsOfHeader(line: Text) returns (k: Text, a: Text, v: Text, b: Text)
    requires COLON in line
    ensures HeaderParts(line, k, a, v, b)
  {
    hide SkipSpaces, DropSpacesRight;
    var i := Find(line, COLON);
    k := line[..i];
    var rest := line[i + 1..];
    assert line == k + [COLON] + rest;
    a := SkippedSpaces(rest);
    var t := SkipSpaces(rest);
    b := DroppedSpaces(t);
    v := DropSpacesRight(t);
    assert rest == a + (v + b) == a + v + b;
    if v == [] {
      assert t == b;
    } else {
      assert v[0] == t[0];
    }
  }

  /** The size of a chunk is what hexadecimal digits say, behind any spaces and before the end of the line, a
      semicolon or a zero byte; without a digit, with anything else behind, or from 2^31 on there is none. */
  lemma SizesExactly(a: Text, h: Text, r: Text)
    requires Spaces(a) && AllHex(h) && Starts(h + r) && (|r| > 0 ==> !IsHex(r[0]))
    ensures ChunkSize(a + (h + r)) ==
            if |h| == 0 || (|r| > 0 && r[0] != SEMICOLON && r[0] != 0) || Hex(h) >= 0x8000_0000 then None
            else Some(Hex(h))
  {
    hide SkipSpaces, Hex;
    SkipsSpaces(a, h + r);
    var s := CString(h + r);
    ZeroBehind(h, r);
    PrefixOfParts(h, CString(r));
  }

  lemma ZeroBehind(h: Text, r: Text)
    requires AllHex(h)
    ensures CString(h + r) == h + CString(r)
  {
    FindIsUnique(h + r, 0, |h| + Find(r, 0));
  }

  lemma {:induction false} PrefixOfParts(h: Text, r: Text)
    requires AllHex(h) && (|r| > 0 ==> !IsHex(r[0]))
    ensures HexPrefix(h + r) == |h| && (h + r)[..|h|] == h
    decreases |h|
  {
    if |h| == 0 {
      assert h + r == r;
    } else {
      assert (h + r)[1..] == h[1..] + r;
      PrefixOfParts(h[1..], r);
    }
  }
}
