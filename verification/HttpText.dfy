/** The pieces of text HTTP messages are made of, as the streamer finds and cuts them. */
module HttpText {
  import opened DataBuffers

  type Text = seq<Byte>

  const TAB: Byte := 9
  const LF: Byte := 10
  const CR: Byte := 13
  const SP: Byte := 32
  const COLON: Byte := 58
  const SEMICOLON: Byte := 59

  const HTTP_10: Text := [72, 84, 84, 80, 47, 49, 46, 48]
  const HTTP_11: Text := [72, 84, 84, 80, 47, 49, 46, 49]
  const CRLF: Text := [13, 10]

  predicate IsSpace(b: Byte) {
    b == SP || b == TAB
  }

  predicate IsDigit(b: Byte) {
    48 <= b <= 57
  }

  /** The characters of a token, section 3.2.6 of RFC 7230. */
  predicate IsTokenCharacter(b: Byte) {
    b == 33 || 35 <= b <= 39 || b == 42 || b == 43 || b == 45 || b == 46 || 48 <= b <= 57 || 65 <= b <= 90
    || 94 <= b <= 122 || b == 124 || b == 126
  }

  /** Where a byte first occurs, or the length. */
  function Find(s: Text, b: Byte): (i: nat)
    ensures i <= |s| && (i < |s| ==> s[i] == b) && forall k :: 0 <= k < i ==> s[k] != b
  {
    if |s| == 0 || s[0] == b then 0 else 1 + Find(s[1..], b)
  }

  lemma FindIsUnique(s: Text, b: Byte, i: nat)
    requires i <= |s| && (i < |s| ==> s[i] == b) && forall k :: 0 <= k < i ==> s[k] != b
    ensures Find(s, b) == i
  {
  }

  function FindSpace(s: Text): (i: nat)
    ensures i <= |s| && (i < |s| ==> IsSpace(s[i])) && forall k :: 0 <= k < i ==> !IsSpace(s[k])
  {
    if |s| == 0 || IsSpace(s[0]) then 0 else 1 + FindSpace(s[1..])
  }

  lemma FindSpaceIsUnique(s: Text, i: nat)
    requires i <= |s| && (i < |s| ==> IsSpace(s[i])) && forall k :: 0 <= k < i ==> !IsSpace(s[k])
    ensures FindSpace(s) == i
  {
  }

  function SkipSpaces(s: Text): (r: Text)
    ensures |r| <= |s| && (|r| > 0 ==> !IsSpace(r[0]))
  {
    if |s| == 0 || !IsSpace(s[0]) then s else SkipSpaces(s[1..])
  }

  function DropSpacesRight(s: Text): (r: Text)
    ensures |r| <= |s| && (|r| > 0 ==> !IsSpace(r[|r| - 1]))
  {
    if |s| == 0 || !IsSpace(s[|s| - 1]) then s else DropSpacesRight(s[..|s| - 1])
  }

  function Trim(s: Text): Text {
    DropSpacesRight(SkipSpaces(s))
  }

  /** No space at either end. */
  predicate Trimmed(s: Text) {
    |s| > 0 ==> !IsSpace(s[0]) && !IsSpace(s[|s| - 1])
  }

  /** What is left of a text once it is taken for a C string. */
  function CString(s: Text): Text {
    s[..Find(s, 0)]
  }

  function ZeroToSpace(s: Text): (r: Text)
    ensures |r| == |s| && forall i :: 0 <= i < |s| ==> r[i] == if s[i] == 0 then SP else s[i]
  {
    seq(|s|, i requires 0 <= i < |s| => if s[i] == 0 then SP else s[i])
  }

  /** strdupTrimed: without the blanks at both ends, or nothing. */
  function TrimBlanks(s: Text): Option<Text> {
    var a := SkipBlanks(s);
    if |a| == 0 then None else Some(DropBlanksRight(a))
  }

  function SkipBlanks(s: Text): Text {
    if |s| == 0 || s[0] != SP then s else SkipBlanks(s[1..])
  }

  function DropBlanksRight(s: Text): Text {
    if |s| == 0 || s[|s| - 1] != SP then s else DropBlanksRight(s[..|s| - 1])
  }

  function LowerByte(b: Byte): Byte {
    if 65 <= b <= 90 then b + 32 else b
  }

  /** Header names are compared without regard to case. */
  function Lower(s: Text): (r: Text)
    ensures |r| == |s| && forall i :: 0 <= i < |s| ==> r[i] == LowerByte(s[i])
  {
    seq(|s|, i requires 0 <= i < |s| => LowerByte(s[i]))
  }

  // ----- Lines -------------------------------------------------------------------------------------

  /** findCRLF: a line up to its line feed, without a carriage return right before it. */
  datatype Line = Line(text: Text, length: nat)

  function TakeLine(s: Text): (r: Option<Line>)
    ensures r.Some? ==> 0 < r.value.length <= |s| && |r.value.text| < r.value.length
    ensures r.None? <==> LF !in s
  {
    var i := Find(s, LF);
    if i == |s| then None
    else Some(Line(if i > 0 && s[i - 1] == CR then s[..i - 1] else s[..i], i + 1))
  }

  /** A line that is complete does not depend on what follows it. */
  lemma TakeLineEarly(a: Text, b: Text)
    requires TakeLine(a).Some?
    ensures TakeLine(a + b) == TakeLine(a)
  {
    FindIsUnique(a + b, LF, Find(a, LF));
    var i := Find(a, LF);
    assert (a + b)[..i] == a[..i];
    assert i > 0 ==> (a + b)[..i - 1] == a[..i - 1];
  }

  lemma TakeLineLate(a: Text, b: Text)
    requires TakeLine(a).None? && TakeLine(a + b).Some?
    ensures TakeLine(a + b).value.length > |a|
  {
    assert forall k :: 0 <= k < |a| ==> (a + b)[k] != LF;
  }

  /** A text without line feeds, ended by CR LF. */
  lemma TakeWrittenLine(text: Text, rest: Text)
    requires LF !in text
    ensures TakeLine(text + CRLF + rest) == Some(Line(text, |text| + 2))
  {
    var s := text + CRLF + rest;
    assert s[|text| + 1] == LF && s[|text|] == CR && s[..|text|] == text;
    FindIsUnique(s, LF, |text| + 1);
  }

  // ----- Numbers -----------------------------------------------------------------------------------

  predicate AllDigits(s: Text) {
    forall i :: 0 <= i < |s| ==> IsDigit(s[i])
  }

  /** atoi on digits. */
  function Decimal(s: Text): nat
    requires AllDigits(s)
  {
    if |s| == 0 then 0 else 10 * Decimal(s[..|s| - 1]) + (s[|s| - 1] - 48)
  }

  function Digits(n: nat): (s: Text)
    ensures AllDigits(s) && |s| > 0
  {
    if n < 10 then [48 + n] else Digits(n / 10) + [48 + n % 10]
  }

  lemma {:induction false} DecimalOfDigits(n: nat)
    ensures Decimal(Digits(n)) == n
  {
    if n >= 10 {
      DecimalOfDigits(n / 10);
      assert Digits(n)[..|Digits(n)| - 1] == Digits(n / 10);
    }
  }

  predicate IsHex(b: Byte) {
    48 <= b <= 57 || 65 <= b <= 70 || 97 <= b <= 102
  }

  function HexValue(b: Byte): (n: nat)
    requires IsHex(b)
    ensures n < 16
  {
    if b <= 57 then b - 48 else if b <= 70 then b - 55 else b - 87
  }

  predicate AllHex(s: Text) {
    forall i :: 0 <= i < |s| ==> IsHex(s[i])
  }

  function Hex(s: Text): nat
    requires AllHex(s)
  {
    if |s| == 0 then 0 else 16 * Hex(s[..|s| - 1]) + HexValue(s[|s| - 1])
  }

  function HexDigit(n: nat): (b: Byte)
    requires n < 16
    ensures IsHex(b) && HexValue(b) == n
  {
    if n < 10 then 48 + n else 87 + n
  }

  function HexDigits(n: nat): (s: Text)
    ensures AllHex(s) && |s| > 0
  {
    if n < 16 then [HexDigit(n)] else HexDigits(n / 16) + [HexDigit(n % 16)]
  }

  lemma {:induction false} HexOfHexDigits(n: nat)
    ensures Hex(HexDigits(n)) == n
  {
    if n >= 16 {
      HexOfHexDigits(n / 16);
      assert HexDigits(n)[..|HexDigits(n)| - 1] == HexDigits(n / 16);
    } else {
      assert HexDigits(n)[..0] == [];
    }
  }

  /** How many hexadecimal digits come first. */
  function HexPrefix(s: Text): (i: nat)
    ensures i <= |s| && AllHex(s[..i]) && (i < |s| ==> !IsHex(s[i]))
  {
    if |s| == 0 || !IsHex(s[0]) then 0
    else
      var i := 1 + HexPrefix(s[1..]);
      assert s[..i] == [s[0]] + s[1..][..i - 1];
      i
  }
}
