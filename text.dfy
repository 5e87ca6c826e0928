/**
 * Text helpers shared by the models: an Option type, bytes, Python's
 * whitespace test, `str.find`, `str.lstrip`, `"\n".join`, `str.split`,
 * decimal formatting of integers, and UTF-8 encoding (`str.encode("utf-8")`).
 */
module Text {

  datatype Option<+T> = None | Some(value: T)

  /** A byte of an encoded message. */
  type byte = x: int | 0 <= x < 256

  /** Python's `str.isspace` for one character (the characters `strip` removes). */
  predicate IsSpace(c: char) {
    var n := c as int;
    (9 <= n <= 13) || (0x1C <= n <= 0x20) || n == 0x85 || n == 0xA0 || n == 0x1680
    || (0x2000 <= n <= 0x200A) || n == 0x2028 || n == 0x2029 || n == 0x202F
    || n == 0x205F || n == 0x3000
  }

  /** `s.lstrip()`: the suffix of `s` left after removing leading whitespace. */
  function LStrip(s: string): (r: string)
    ensures |r| <= |s|
  {
    if s != [] && IsSpace(s[0]) then LStrip(s[1..]) else s
  }

  /** What `lstrip` removes is exactly the leading run of whitespace. */
  lemma {:induction false} LStripSpec(s: string)
    ensures LStrip(s) == s[|s| - |LStrip(s)|..]
    ensures forall i :: 0 <= i < |s| - |LStrip(s)| ==> IsSpace(s[i])
    ensures LStrip(s) != [] ==> !IsSpace(LStrip(s)[0])
    decreases |s|
  {
    if s != [] && IsSpace(s[0]) {
      LStripSpec(s[1..]);
      assert s[1..][|s| - 1 - |LStrip(s)|..] == s[|s| - |LStrip(s)|..];
      forall i | 0 <= i < |s| - |LStrip(s)| ensures IsSpace(s[i]) {
        if i > 0 {
          assert s[i] == s[1..][i - 1];
        }
      }
    }
  }

  /** `s.find(c, from)` for a one-character needle: the first index at or after `from`, or -1. */
  function Find(s: string, c: char, from: nat): (r: int)
    ensures r == -1 || (from <= r < |s| && s[r] == c)
    ensures r == -1 <==> forall i :: from <= i < |s| ==> s[i] != c
    ensures forall i :: from <= i < r ==> s[i] != c
    decreases |s| - from
  {
    if from >= |s| then -1 else if s[from] == c then from else Find(s, c, from + 1)
  }

  predicate StartsWith(s: string, prefix: string) {
    |prefix| <= |s| && s[..|prefix|] == prefix
  }

  /** `sep.join(lines)` for a one-character separator. */
  function Join(lines: seq<string>, sep: char): string {
    if |lines| == 0 then ""
    else if |lines| == 1 then lines[0]
    else lines[0] + [sep] + Join(lines[1..], sep)
  }

  /** `s.split(sep)` for a one-character separator: always at least one piece. */
  function Split(s: string, sep: char): (r: seq<string>)
    ensures |r| >= 1
    decreases |s|
  {
    var k := Find(s, sep, 0);
    if k < 0 then [s] else [s[..k]] + Split(s[k + 1..], sep)
  }

  lemma JoinCons(line: string, rest: seq<string>, sep: char)
    requires |rest| >= 1
    ensures Join([line] + rest, sep) == line + [sep] + Join(rest, sep)
  {
    assert ([line] + rest)[0] == line && ([line] + rest)[1..] == rest;
  }

  lemma Reassemble(s: string, k: nat)
    requires k < |s|
    ensures s[..k] + [s[k]] + s[k + 1..] == s
  {
  }

  /** Joining the pieces of a split restores the text. */
  lemma {:induction false} JoinSplit(s: string, sep: char)
    ensures Join(Split(s, sep), sep) == s
    decreases |s|
  {
    var k := Find(s, sep, 0);
    if k >= 0 {
      var tail := s[k + 1..];
      var pieces := Split(tail, sep);
      assert Split(s, sep) == [s[..k]] + pieces;
      JoinSplit(tail, sep);
      JoinCons(s[..k], pieces, sep);
      Reassemble(s, k);
    }
  }

  /** Splitting a join of separator-free lines gives the lines back. */
  lemma {:induction false} SplitJoin(lines: seq<string>, sep: char)
    requires |lines| >= 1
    requires forall i :: 0 <= i < |lines| ==> sep !in lines[i]
    ensures Split(Join(lines, sep), sep) == lines
    decreases |lines|
  {
    if |lines| > 1 {
      var s := Join(lines, sep);
      var k := |lines[0]|;
      assert s == lines[0] + [sep] + Join(lines[1..], sep);
      assert s[k] == sep;
      assert forall i :: 0 <= i < k ==> s[i] == lines[0][i];
      assert Find(s, sep, 0) == k;
      assert s[..k] == lines[0];
      assert s[k + 1..] == Join(lines[1..], sep);
      SplitJoin(lines[1..], sep);
    } else {
      assert Join(lines, sep) == lines[0];
      assert Find(lines[0], sep, 0) == -1;
    }
  }

  /** `list.remove(x)` on a list that holds `x`: drops its first occurrence. */
  function RemoveFirst<T(==)>(s: seq<T>, x: T): (r: seq<T>)
    requires x in s
    ensures |r| == |s| - 1
  {
    if s[0] == x then s[1..] else [s[0]] + RemoveFirst(s[1..], x)
  }

  /** `remove` cuts out the first occurrence and keeps everything else in order. */
  lemma {:induction false} RemoveFirstSpec<T>(s: seq<T>, x: T)
    requires x in s
    ensures exists i :: 0 <= i < |s| && s[i] == x && x !in s[..i] && RemoveFirst(s, x) == s[..i] + s[i + 1..]
  {
    if s[0] == x {
      assert s[..0] == [] && s[0 + 1..] == s[1..];
    } else {
      var t := s[1..];
      assert x in t;
      RemoveFirstSpec(t, x);
      var j :| 0 <= j < |t| && t[j] == x && x !in t[..j] && RemoveFirst(t, x) == t[..j] + t[j + 1..];
      var pre := s[..j + 1];
      assert pre == [s[0]] + t[..j];
      assert x !in pre;
      assert s[j + 2..] == t[j + 1..];
      calc {
        RemoveFirst(s, x);
        [s[0]] + (t[..j] + t[j + 1..]);
        { SeqConcatAssoc([s[0]], t[..j], t[j + 1..]); }
        pre + s[j + 2..];
      }
      assert s[j + 1] == x;
    }
  }

  lemma SeqConcatAssoc<T>(a: seq<T>, b: seq<T>, c: seq<T>)
    ensures a + (b + c) == (a + b) + c
  {
  }

  // Decimal formatting of integers, as `f"{n}"` writes them.

  predicate IsDigit(c: char) { '0' <= c <= '9' }

  predicate AllDigits(s: string) { forall i :: 0 <= i < |s| ==> IsDigit(s[i]) }

  function DigitChar(d: nat): (c: char)
    requires d < 10
    ensures IsDigit(c) && c as int - '0' as int == d
  {
    (('0' as int) + d) as char
  }

  function NatToDecimal(n: nat): (r: string)
    ensures |r| >= 1 && AllDigits(r)
  {
    if n < 10 then [DigitChar(n)] else NatToDecimal(n / 10) + [DigitChar(n % 10)]
  }

  function IntToDecimal(n: int): (r: string)
    ensures |r| >= 1
  {
    if n < 0 then "-" + NatToDecimal(-n) else NatToDecimal(n)
  }

  /** The value of a string of decimal digits (a reference inverse of the formatting). */
  function ParseNat(s: string): nat
    requires AllDigits(s)
  {
    if |s| == 0 then 0 else ParseNat(s[..|s| - 1]) * 10 + (s[|s| - 1] as int - '0' as int)
  }

  function ParseInt(s: string): Option<int> {
    if |s| > 1 && s[0] == '-' && AllDigits(s[1..]) then Some(0 - ParseNat(s[1..]) as int)
    else if |s| > 0 && AllDigits(s) then Some(ParseNat(s))
    else None
  }

  lemma {:induction false} NatDecimalRoundTrip(n: nat)
    ensures ParseNat(NatToDecimal(n)) == n
  {
    if n >= 10 {
      var s := NatToDecimal(n);
      NatDecimalRoundTrip(n / 10);
      assert s[..|s| - 1] == NatToDecimal(n / 10);
    }
  }

  /** Formatting an integer and reading it back gives the integer. */
  lemma DecimalRoundTrip(n: int)
    ensures ParseInt(IntToDecimal(n)) == Some(n)
  {
    if n < 0 {
      NatDecimalRoundTrip(-n);
      assert IntToDecimal(n)[1..] == NatToDecimal(-n);
    } else {
      NatDecimalRoundTrip(n);
    }
  }

  /** No character of a decimal rendering is a newline. */
  lemma DecimalHasNoNewline(n: int)
    ensures '\n' !in IntToDecimal(n)
  {
    var s := IntToDecimal(n);
    if n < 0 {
      assert s == "-" + NatToDecimal(-n);
    }
    forall i | 0 <= i < |s| ensures s[i] != '\n' {
      if n < 0 && i > 0 {
        assert s[i] == NatToDecimal(-n)[i - 1];
      }
    }
  }

  // UTF-8, as `str.encode("utf-8")` produces it.

  function EncodeChar(c: char): (r: seq<byte>)
    ensures 1 <= |r| <= 4
    ensures (c as int < 0x80) == (|r| == 1)
  {
    var n := c as int;
    if n < 0x80 then [n]
    else if n < 0x800 then [0xC0 + n / 64, 0x80 + n % 64]
    else if n < 0x10000 then [0xE0 + n / 4096, 0x80 + (n / 64) % 64, 0x80 + n % 64]
    else [0xF0 + n / 262144, 0x80 + (n / 4096) % 64, 0x80 + (n / 64) % 64, 0x80 + n % 64]
  }

  predicate IsAscii(s: string) { forall i :: 0 <= i < |s| ==> s[i] as int < 0x80 }

  function Utf8Encode(s: string): (r: seq<byte>)
    ensures |r| >= |s|
    ensures IsAscii(s) ==> |r| == |s| && forall i :: 0 <= i < |s| ==> r[i] == s[i] as int
  {
    if s == [] then [] else EncodeChar(s[0]) + Utf8Encode(s[1..])
  }
}
