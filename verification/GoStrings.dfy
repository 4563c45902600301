/** The Go string helpers the gateway relies on.

A Go string is a sequence of bytes: a `char` in this project stands for one byte, so
`|s|` is Go's `len(s)`. */
module GoStrings {

  datatype Option<+T> = None | Some(value: T)

  datatype Result<+T, +E> = Ok(value: T) | Err(error: E)

  const INT64_MAX: int := 0x7FFF_FFFF_FFFF_FFFF
  const INT64_MIN: int := -0x8000_0000_0000_0000

  // Two's complement wrap-around of an int64 result.
  function Wrap64(n: int): (r: int)
    ensures INT64_MIN <= r <= INT64_MAX
    ensures INT64_MIN <= n <= INT64_MAX ==> r == n
  {
    (n - INT64_MIN) % 0x1_0000_0000_0000_0000 + INT64_MIN
  }

  predicate HasPrefix(s: string, prefix: string) {
    |prefix| <= |s| && s[..|prefix|] == prefix
  }

  /** One optional carriage return at the end of `s` is removed. */
  function TrimCr(s: string): string {
    if s != "" && s[|s| - 1] == '\r' then s[..|s| - 1] else s
  }

  // -------------------------------------------------------------- white space

  // The one-byte white space of unicode.IsSpace.
  predicate AsciiSpace(c: char) {
    c == ' ' || ('\t' <= c <= '\r')
  }

  // The two- and three-byte UTF-8 encodings of the other white-space runes.
  predicate WideSpace2(a: char, b: char) {
    a as int == 0xC2 && (b as int == 0x85 || b as int == 0xA0)
  }

  predicate WideSpace3(a: char, b: char, c: char) {
    var x, y, z := a as int, b as int, c as int;
    || (x == 0xE1 && y == 0x9A && z == 0x80)
    || (x == 0xE2 && y == 0x80 && (0x80 <= z <= 0x8A || z == 0xA8 || z == 0xA9 || z == 0xAF))
    || (x == 0xE2 && y == 0x81 && z == 0x9F)
    || (x == 0xE3 && y == 0x80 && z == 0x80)
  }

  // Width in bytes of the white-space rune that `s` starts with, 0 if none.
  function LeadingSpace(s: string): (w: nat)
    ensures w <= |s|
  {
    if |s| >= 1 && AsciiSpace(s[0]) then 1
    else if |s| >= 2 && WideSpace2(s[0], s[1]) then 2
    else if |s| >= 3 && WideSpace3(s[0], s[1], s[2]) then 3
    else 0
  }

  // Width in bytes of the white-space rune that `s` ends with, 0 if none.
  function TrailingSpace(s: string): (w: nat)
    ensures w <= |s|
  {
    var n := |s|;
    if n >= 1 && AsciiSpace(s[n - 1]) then 1
    else if n >= 2 && WideSpace2(s[n - 2], s[n - 1]) then 2
    else if n >= 3 && WideSpace3(s[n - 3], s[n - 2], s[n - 1]) then 3
    else 0
  }

  function TrimLeft(s: string): string
    decreases |s|
  {
    var w := LeadingSpace(s);
    if w == 0 then s else TrimLeft(s[w..])
  }

  function TrimRight(s: string): string
    decreases |s|
  {
    var w := TrailingSpace(s);
    if w == 0 then s else TrimRight(s[..|s| - w])
  }

  /** strings.TrimSpace. */
  function TrimSpace(s: string): string {
    TrimRight(TrimLeft(s))
  }

  predicate Blank(s: string) {
    TrimSpace(s) == ""
  }

  // White space and nothing else, taken off from the left, and from the right.
  predicate LeftSpace(s: string)
    decreases |s|
  {
    s == "" || (LeadingSpace(s) > 0 && LeftSpace(s[LeadingSpace(s)..]))
  }

  predicate RightSpace(s: string)
    decreases |s|
  {
    s == "" || (TrailingSpace(s) > 0 && RightSpace(s[..|s| - TrailingSpace(s)]))
  }

  // White space is recognized by its own bytes, whatever follows or comes before.
  lemma SameStart(s: string, t: string, w: nat)
    requires w == LeadingSpace(s) > 0 && w <= |t| && t[..w] == s[..w]
    ensures LeadingSpace(t) == w
  {
    assert forall i :: 0 <= i < w ==> t[i] == t[..w][i] == s[i];
  }

  lemma SameEnd(s: string, t: string, w: nat)
    requires w == TrailingSpace(s) > 0 && w <= |t| && t[|t| - w..] == s[|s| - w..]
    ensures TrailingSpace(t) == w
  {
    var end := t[|t| - w..];
    assert forall i :: 0 <= i < w ==> end[i] == t[|t| - w + i] && end[i] == s[|s| - w + i];
    assert end[w - 1] == t[|t| - 1] && end[w - 1] == s[|s| - 1];
    if w >= 2 {
      assert end[w - 2] == t[|t| - 2] && end[w - 2] == s[|s| - 2];
    }
  }

  lemma {:induction false} TrimLeftMeaning(s: string) returns (left: string)
    ensures s == left + TrimLeft(s) && LeftSpace(left) && LeadingSpace(TrimLeft(s)) == 0
    decreases |s|
  {
    hide LeadingSpace;
    var w := LeadingSpace(s);
    if w == 0 {
      left := "";
    } else {
      var more := TrimLeftMeaning(s[w..]);
      left := s[..w] + more;
      SameStart(s, left, w);
      assert left[w..] == more;
    }
  }

  lemma {:induction false} TrimRightMeaning(s: string) returns (right: string)
    ensures s == TrimRight(s) + right && RightSpace(right) && TrailingSpace(TrimRight(s)) == 0
    decreases |s|
  {
    hide TrailingSpace;
    var w := TrailingSpace(s);
    if w == 0 {
      right := "";
    } else {
      var n := |s| - w;
      var more := TrimRightMeaning(s[..n]);
      right := more + s[n..];
      assert right[|right| - w..] == s[n..];
      SameEnd(s, right, w);
      assert right[..|right| - w] == more;
    }
  }

  /** TrimSpace takes white space off both ends, and all of it; in between nothing changes. */
  lemma TrimSpaceMeaning(s: string) returns (left: string, right: string)
    ensures s == left + TrimSpace(s) + right && LeftSpace(left) && RightSpace(right)
    ensures LeadingSpace(TrimSpace(s)) == 0 && TrailingSpace(TrimSpace(s)) == 0
  {
    hide LeadingSpace, TrailingSpace, TrimLeft, TrimRight, LeftSpace, RightSpace;
    left := TrimLeftMeaning(s);
    right := TrimRightMeaning(TrimLeft(s));
    PrefixWithoutSpace(TrimLeft(s), TrimSpace(s));
    Associate(left, TrimSpace(s), right);
  }

  lemma PrefixWithoutSpace(s: string, t: string)
    requires t <= s && LeadingSpace(s) == 0
    ensures LeadingSpace(t) == 0
  {
    assert forall i :: 0 <= i < |t| ==> t[i] == s[i];
  }

  /** The six ASCII characters that are white space. */
  lemma AsciiSpaces(c: char)
    ensures c as int < 128 ==> (TrimSpace([c]) == "" <==> c in "\t\n\U{000B}\U{000C}\r ")
  {
    assert [c][1..] == "" && [c][..0] == "";
    assert TrimLeft("") == "" && TrimRight("") == "";
    if AsciiSpace(c) {
      assert TrimLeft([c]) == "";
    } else {
      assert TrimLeft([c]) == [c] && TrimRight([c]) == [c];
    }
  }

  // ------------------------------------------------------- joining with "\n"

  /** strings.Join(lines, "\n"). */
  function Join(lines: seq<string>): string {
    if lines == [] then ""
    else if |lines| == 1 then lines[0]
    else lines[0] + "\n" + Join(lines[1..])
  }

  /** Position of the first line feed, or the length of the text. */
  function LineEnd(text: string): (k: nat)
    ensures k <= |text|
    ensures '\n' !in text[..k]
    ensures k < |text| ==> text[k] == '\n'
  {
    if text == "" || text[0] == '\n' then 0 else 1 + LineEnd(text[1..])
  }

  lemma LineEndUnique(text: string, k: nat)
    requires k <= |text| && '\n' !in text[..k]
    requires k < |text| ==> text[k] == '\n'
    ensures LineEnd(text) == k
  {
    forall i | 0 <= i < k ensures text[i] != '\n' {
      assert text[i] == text[..k][i];
    }
    forall i | 0 <= i < LineEnd(text) ensures text[i] != '\n' {
      assert text[i] == text[..LineEnd(text)][i];
    }
  }

  /** strings.Split(text, "\n"). */
  function SplitLf(text: string): (lines: seq<string>)
    ensures |lines| >= 1
    ensures forall i :: 0 <= i < |lines| ==> '\n' !in lines[i]
    decreases |text|
  {
    var k := LineEnd(text);
    if k == |text| then [text] else [text[..k]] + SplitLf(text[k + 1..])
  }

  lemma JoinCons(line: string, lines: seq<string>)
    requires lines != []
    ensures Join([line] + lines) == line + "\n" + Join(lines)
  {
    assert ([line] + lines)[1..] == lines;
  }

  lemma CutAt(text: string, k: nat)
    requires k < |text| && text[k] == '\n'
    ensures text == text[..k] + "\n" + text[k + 1..]
  {
  }

  lemma {:induction false} JoinSplit(text: string)
    ensures Join(SplitLf(text)) == text
    decreases |text|
  {
    var k := LineEnd(text);
    if k < |text| {
      JoinSplit(text[k + 1..]);
      JoinCons(text[..k], SplitLf(text[k + 1..]));
      CutAt(text, k);
    }
  }

  lemma Associate<T>(a: seq<T>, b: seq<T>, c: seq<T>)
    ensures (a + b) + c == a + (b + c)
  {
  }

  // ------------------------------------------------------------ decimal text

  function DigitChar(d: nat): (c: char)
    requires d < 10
    ensures '0' <= c <= '9' && c as int - '0' as int == d
  {
    ('0' as int + d) as char
  }

  function Digits(n: nat): (s: string)
    ensures |s| >= 1 && forall i :: 0 <= i < |s| ==> '0' <= s[i] <= '9'
  {
    if n < 10 then [DigitChar(n)] else Digits(n / 10) + [DigitChar(n % 10)]
  }

  /** strconv.FormatInt(n, 10). */
  function FormatInt(n: int): string {
    if n < 0 then "-" + Digits(-n) else Digits(n)
  }

  function ParseDigits(s: string): Option<nat> {
    if s == "" then Some(0)
    else
      var c := s[|s| - 1];
      var front := ParseDigits(s[..|s| - 1]);
      if front.None? || !('0' <= c <= '9') then None
      else Some(10 * front.value + (c as int - '0' as int))
  }

  /** strconv.Atoi on a 64-bit platform: an optional sign, at least one digit, in range. */
  function Atoi(s: string): Option<int> {
    var signed := s != "" && (s[0] == '-' || s[0] == '+');
    var body := if signed then s[1..] else s;
    if body == "" then None
    else match ParseDigits(body) {
      case None => None
      case Some(v) =>
        var n: int := if signed && s[0] == '-' then -(v as int) else v;
        if INT64_MIN <= n <= INT64_MAX then Some(n) else None
    }
  }

  lemma {:induction false} ParseDigitsOfDigits(n: nat)
    ensures ParseDigits(Digits(n)) == Some(n)
  {
    var s := Digits(n);
    if n < 10 {
      assert s[..|s| - 1] == "";
    } else {
      ParseDigitsOfDigits(n / 10);
      assert s[..|s| - 1] == Digits(n / 10);
      assert s[|s| - 1] == DigitChar(n % 10);
    }
  }

  predicate AllDigits(s: string) {
    forall i :: 0 <= i < |s| ==> '0' <= s[i] <= '9'
  }

  lemma {:induction false} ParseDigitsAccepts(s: string)
    ensures ParseDigits(s).Some? <==> AllDigits(s)
  {
    if s != "" {
      ParseDigitsAccepts(s[..|s| - 1]);
    }
  }

  /** Atoi reads a sign if there is one, then at least one digit and nothing else, and a number that
  fits an int64. */
  lemma AtoiAccepts(s: string)
    ensures
      var signed := HasPrefix(s, "-") || HasPrefix(s, "+");
      var digits := if signed then s[1..] else s;
      && (ParseDigits(digits).Some? <==> AllDigits(digits))
      && (Atoi(s).Some? <==>
        && digits != "" && AllDigits(digits)
        && INT64_MIN <= ParseDigits(digits).value * (if HasPrefix(s, "-") then -1 else 1) <= INT64_MAX)
  {
    var digits := if HasPrefix(s, "-") || HasPrefix(s, "+") then s[1..] else s;
    ParseDigitsAccepts(digits);
    assert s != "" ==> s[..1] == [s[0]];
  }

  /** What FormatInt writes, Atoi reads back. */
  lemma AtoiOfFormatInt(n: int)
    requires INT64_MIN <= n <= INT64_MAX
    ensures Atoi(FormatInt(n)) == Some(n)
  {
    var m := if n < 0 then -n else n;
    ParseDigitsOfDigits(m);
    if n < 0 {
      assert FormatInt(n)[1..] == Digits(m);
    } else {
      assert '0' <= Digits(m)[0] <= '9';
    }
  }
}
