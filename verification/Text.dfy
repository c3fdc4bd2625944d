/** Text as the profile format sees it: lines, words between white space, and decimal numbers. */
module Text {
  import opened Words
  import opened Ir

  /** White space as Unicode defines it. */
  predicate IsSpace(c: char) {
    var n := c as int;
    || 9 <= n <= 13 || n == 0x20 || n == 0x85 || n == 0xA0 || n == 0x1680 || 0x2000 <= n <= 0x200A
    || n == 0x2028 || n == 0x2029 || n == 0x202F || n == 0x205F || n == 0x3000
  }

  predicate NoSpace(s: string) {
    forall i: nat :: i < |s| ==> !IsSpace(s[i])
  }

  predicate IsWord(s: string) {
    s != "" && NoSpace(s)
  }

  // ----- words -----

  function WordLength(s: string): (n: nat)
    ensures n <= |s| && NoSpace(s[..n])
    ensures n < |s| ==> IsSpace(s[n])
  {
    if s == "" || IsSpace(s[0]) then 0
    else
      var n := WordLength(s[1..]);
      assert s[..1 + n] == [s[0]] + s[1..][..n];
      1 + n
  }

  function SplitWords(line: string): (ws: seq<string>)
    ensures forall w :: w in ws ==> IsWord(w)
    decreases |line|
  {
    if line == "" then []
    else if IsSpace(line[0]) then SplitWords(line[1..])
    else [line[..WordLength(line)]] + SplitWords(line[WordLength(line)..])
  }

  lemma WordFirst(w: string, rest: string)
    requires IsWord(w) && (rest == "" || IsSpace(rest[0]))
    ensures SplitWords(w + rest) == [w] + SplitWords(rest)
  {
    assert (w + rest)[0] == w[0];
    WordEnds(w, rest);
  }

  lemma {:induction false} WordEnds(w: string, rest: string)
    requires NoSpace(w) && (rest == "" || IsSpace(rest[0]))
    ensures WordLength(w + rest) == |w|
    ensures (w + rest)[..|w|] == w && (w + rest)[|w|..] == rest
  {
    if w == "" {
      assert w + rest == rest;
    } else {
      assert (w + rest)[1..] == w[1..] + rest;
      WordEnds(w[1..], rest);
    }
  }

  lemma TwoWords(a: string, b: string)
    requires IsWord(a) && IsWord(b)
    ensures SplitWords(a + " " + b) == [a, b]
  {
    hide IsWord;
    WordFirst(a, " " + b);
    SpaceFirst(b);
    OneWord(b);
    assert a + " " + b == a + (" " + b);
  }

  lemma ThreeWords(a: string, b: string, c: string)
    requires IsWord(a) && IsWord(b) && IsWord(c)
    ensures SplitWords(a + " " + b + " " + c) == [a, b, c]
  {
    hide IsWord;
    hide SplitWords;
    TwoWords(b, c);
    var rest := b + " " + c;
    SpaceFirst(rest);
    WordFirst(a, " " + rest);
    ThreePieces(a, b, c);
  }

  lemma ThreePieces(a: string, b: string, c: string)
    ensures a + " " + b + " " + c == a + (" " + (b + " " + c))
  {}

  lemma FourWords(a: string, b: string, c: string, d: string)
    requires IsWord(a) && IsWord(b) && IsWord(c) && IsWord(d)
    ensures SplitWords(a + " " + b + " " + c + " " + d) == [a, b, c, d]
  {
    hide IsWord;
    hide SplitWords;
    ThreeWords(b, c, d);
    var rest := b + " " + c + " " + d;
    SpaceFirst(rest);
    WordFirst(a, " " + rest);
    FourPieces(a, b, c, d);
  }

  lemma FourPieces(a: string, b: string, c: string, d: string)
    ensures a + " " + b + " " + c + " " + d == a + (" " + (b + " " + c + " " + d))
  {}

  lemma SpaceFirst(rest: string)
    ensures (" " + rest)[0] == ' ' && IsSpace(' ')
    ensures SplitWords(" " + rest) == SplitWords(rest)
  {
    assert (" " + rest)[1..] == rest;
  }

  lemma OneWord(w: string)
    requires IsWord(w)
    ensures SplitWords(w) == [w]
  {
    WordFirst(w, "");
    assert w + "" == w;
  }

  // ----- lines -----

  predicate OneLine(s: string) {
    forall i: nat :: i < |s| ==> s[i] != '\n'
  }

  function LineLength(s: string): (n: nat)
    ensures n <= |s| && OneLine(s[..n])
    ensures n < |s| ==> s[n] == '\n'
  {
    if s == "" || s[0] == '\n' then 0
    else
      var n := LineLength(s[1..]);
      assert s[..1 + n] == [s[0]] + s[1..][..n];
      1 + n
  }

  /** The lines of a text; the last one need not end with a line break. */
  function SplitLines(text: string): seq<string>
    decreases |text|
  {
    if text == "" then []
    else
      var n := LineLength(text);
      [text[..n]] + if n < |text| then SplitLines(text[n + 1..]) else []
  }

  function Joined(lines: seq<string>): string {
    if lines == [] then "" else lines[0] + "\n" + Joined(lines[1..])
  }

  lemma {:induction false} JoinedAppend(a: seq<string>, b: seq<string>)
    ensures Joined(a + b) == Joined(a) + Joined(b)
  {
    if a == [] {
      assert a + b == b;
    } else {
      assert (a + b)[1..] == a[1..] + b;
      JoinedAppend(a[1..], b);
    }
  }

  ghost predicate AllOneLine(lines: seq<string>) {
    forall i: nat :: i < |lines| ==> OneLine(lines[i])
  }

  lemma {:induction false} JoinThenSplit(lines: seq<string>)
    requires AllOneLine(lines)
    ensures SplitLines(Joined(lines)) == lines
  {
    if lines != [] {
      LineEnds(lines[0], Joined(lines[1..]));
      JoinThenSplit(lines[1..]);
    }
  }

  lemma {:induction false} LineEnds(line: string, rest: string)
    requires OneLine(line)
    ensures var text := line + "\n" + rest;
      LineLength(text) == |line| && text[..|line|] == line && text[|line| + 1..] == rest
  {
    if line != "" {
      assert (line + "\n" + rest)[1..] == line[1..] + "\n" + rest;
      LineEnds(line[1..], rest);
    }
  }

  // ----- decimal numbers -----

  function Digit(d: nat): (c: char)
    requires d < 10
    ensures !IsSpace(c) && c != '\n' && c != '+' && DigitValue(c) == Some(d)
  {
    ('0' as int + d) as char
  }

  function DigitValue(c: char): Option<nat> {
    if '0' <= c <= '9' then Some(c as int - '0' as int) else None
  }

  function Decimal(n: nat): (s: string)
    ensures IsWord(s) && OneLine(s) && s[0] != '+'
  {
    if n < 10 then [Digit(n)] else Decimal(n / 10) + [Digit(n % 10)]
  }

  /** The value of a row of digits, if it is one and fits. */
  function Digits(s: string): (r: Option<u64>) {
    if s == "" then Some(0)
    else
      match (Digits(s[..|s| - 1]), DigitValue(s[|s| - 1]))
      case (Some(v), Some(d)) => if 10 * v + d < 0x1_0000_0000_0000_0000 then Some(10 * v + d) else None
      case _ => None
  }

  /** Reading an unsigned number: a plus sign is allowed, an empty row of digits is not. */
  function ParseU64(s: string): (r: Option<u64>) {
    var digits := if s != "" && s[0] == '+' then s[1..] else s;
    if digits == "" then None else Digits(digits)
  }

  lemma {:induction false} DecimalDigits(n: u64)
    ensures Digits(Decimal(n)) == Some(n)
  {
    if n < 10 {
      assert [Digit(n)][..0] == "";
      assert Digits("") == Some(0);
    } else {
      DecimalDigits(n / 10);
      var s := Decimal(n);
      assert s[..|s| - 1] == Decimal(n / 10);
    }
  }

  lemma PrintThenParse(n: u64)
    ensures ParseU64(Decimal(n)) == Some(n)
  {
    DecimalDigits(n);
  }
}
