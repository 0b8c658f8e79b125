/**
 * The few pieces of Java's string handling the source relies on: `String.split` on a
 * one-character separator, `String.format("%d", n)` and `Integer.parseInt`.
 */
module JavaText {
  import opened Wrappers
  import opened JavaInt

  predicate IsDigit(c: char) { '0' <= c <= '9' }

  predicate AllDigits(s: string) { forall i :: 0 <= i < |s| ==> IsDigit(s[i]) }

  function DigitValue(c: char): (d: nat)
    requires IsDigit(c)
    ensures d < 10
  {
    c as int - '0' as int
  }

  function DigitChar(d: nat): (c: char)
    requires d < 10
    ensures IsDigit(c) && DigitValue(c) == d
  {
    ('0' as int + d) as char
  }

  /** `String.format("%d", n)` for a non-negative `n`. */
  function NatToDecimal(n: nat): (r: string)
    ensures 1 <= |r| && AllDigits(r)
  {
    if n < 10 then [DigitChar(n)] else NatToDecimal(n / 10) + [DigitChar(n % 10)]
  }

  /** `String.format("%d", i)`. */
  function IntToDecimal(i: int): (r: string)
    ensures 1 <= |r|
    ensures forall k :: 0 <= k < |r| ==> IsDigit(r[k]) || (k == 0 && r[k] == '-')
  {
    if i < 0 then "-" + NatToDecimal(-i) else NatToDecimal(i)
  }

  /** The number a string of decimal digits denotes. */
  function DecimalValue(s: string): nat
    requires AllDigits(s)
  {
    if s == [] then 0 else 10 * DecimalValue(s[..|s| - 1]) + DigitValue(s[|s| - 1])
  }

  lemma {:induction false} DecimalRoundTrip(n: nat)
    ensures DecimalValue(NatToDecimal(n)) == n
  {
    if n >= 10 {
      DecimalRoundTrip(n / 10);
      var s := NatToDecimal(n);
      assert s[..|s| - 1] == NatToDecimal(n / 10);
    }
  }

  /** The decimal form of a number has no leading zero, and three digits at most below 1000. */
  lemma {:induction false} DecimalCanonical(n: nat)
    ensures NatToDecimal(n)[0] == '0' ==> n == 0
    ensures n < 10 ==> |NatToDecimal(n)| == 1
    ensures n < 1000 ==> |NatToDecimal(n)| <= 3
  {
    if n >= 10 {
      DecimalCanonical(n / 10);
      assert NatToDecimal(n)[0] == NatToDecimal(n / 10)[0];
    }
  }

  /**
   * `Integer.parseInt(s)`: an optional sign, at least one decimal digit, and a value that
   * fits a Java `int`; anything else is a `NumberFormatException` (`None`).
   */
  function ParseInt(s: string): (r: Option<int>)
    ensures r.Some? ==> IsInt(r.value)
    ensures r.Some? ==> s != "" && (AllDigits(s) || (s[0] in "+-" && AllDigits(s[1..])))
  {
    if |s| == 0 then None
    else
      var digits := if s[0] == '-' || s[0] == '+' then s[1..] else s;
      if |digits| == 0 || !AllDigits(digits) then None
      else
        var n: int := DecimalValue(digits);
        var v := if s[0] == '-' then -n else n;
        if IsInt(v) then Some(v) else None
  }

  /** What `String.format("%d", i)` prints, `Integer.parseInt` reads back. */
  lemma ParseIntRoundTrip(i: int)
    requires IsInt(i)
    ensures ParseInt(IntToDecimal(i)) == Some(i)
  {
    var s := IntToDecimal(i);
    if i < 0 {
      assert s[1..] == NatToDecimal(-i);
      DecimalRoundTrip(-i);
    } else {
      DecimalRoundTrip(i);
    }
  }

  /** Every occurrence of `sep` separates two parts; empty parts are kept. */
  function SplitAll(s: string, sep: char): (r: seq<string>)
    ensures 1 <= |r|
    ensures forall k :: 0 <= k < |r| ==> sep !in r[k]
  {
    if |s| == 0 then [""]
    else
      var rest := SplitAll(s[1..], sep);
      if s[0] == sep then [""] + rest else [[s[0]] + rest[0]] + rest[1..]
  }

  /** The parts written back with `sep` between them. */
  function Join(parts: seq<string>, sep: char): string
  {
    if |parts| == 0 then ""
    else if |parts| == 1 then parts[0]
    else parts[0] + [sep] + Join(parts[1..], sep)
  }

  /** A character that is neither the separator nor in any part is not in the joined text. */
  lemma {:induction false} JoinAvoids(parts: seq<string>, sep: char, c: char)
    requires c != sep
    requires forall k :: 0 <= k < |parts| ==> c !in parts[k]
    ensures c !in Join(parts, sep)
  {
    if |parts| > 1 {
      JoinAvoids(parts[1..], sep, c);
    }
  }

  lemma {:induction false} SplitAllPrefix(a: string, b: string, sep: char)
    requires sep !in a
    ensures SplitAll(a + b, sep) == [a + SplitAll(b, sep)[0]] + SplitAll(b, sep)[1..]
  {
    if a != [] {
      var r := SplitAll(b, sep);
      SplitAllPrefix(a[1..], b, sep);
      assert (a + b)[0] == a[0] && a[0] != sep;
      assert (a + b)[1..] == a[1..] + b;
      var rest := SplitAll(a[1..] + b, sep);
      assert rest[0] == a[1..] + r[0] && rest[1..] == r[1..];
      assert SplitAll(a + b, sep) == [[a[0]] + rest[0]] + rest[1..];
      assert [a[0]] + (a[1..] + r[0]) == a + r[0];
    } else {
      var r := SplitAll(b, sep);
      assert a + b == b && a + r[0] == r[0];
      assert r == [r[0]] + r[1..];
    }
  }

  lemma {:induction false} SplitAllJoin(parts: seq<string>, sep: char)
    requires 1 <= |parts|
    requires forall k :: 0 <= k < |parts| ==> sep !in parts[k]
    ensures SplitAll(Join(parts, sep), sep) == parts
  {
    if |parts| == 1 {
      SplitAllPrefix(parts[0], "", sep);
      assert parts[0] + "" == parts[0];
    } else {
      var tail := Join(parts[1..], sep);
      SplitAllJoin(parts[1..], sep);
      SplitAllPrefix(parts[0], [sep] + tail, sep);
      assert parts[0] + [sep] + tail == parts[0] + ([sep] + tail);
      assert ([sep] + tail)[1..] == tail;
      var r := SplitAll([sep] + tail, sep);
      assert r == [""] + SplitAll(tail, sep);
      assert r[0] == "" && r[1..] == parts[1..];
      assert parts[0] + "" == parts[0];
      assert parts == [parts[0]] + parts[1..];
    }
  }

  lemma {:induction false} JoinSplitAll(s: string, sep: char)
    ensures Join(SplitAll(s, sep), sep) == s
  {
    if |s| > 0 {
      var rest := SplitAll(s[1..], sep);
      JoinSplitAll(s[1..], sep);
      if s[0] == sep {
        assert s == [sep] + s[1..];
      } else if |rest| == 1 {
        assert s == [s[0]] + s[1..];
      } else {
        assert rest == [rest[0]] + rest[1..];
        assert Join(rest, sep) == rest[0] + [sep] + Join(rest[1..], sep);
        assert s == [s[0]] + s[1..];
      }
    }
  }

  function DropTrailingEmpty(parts: seq<string>): (r: seq<string>)
    ensures |r| <= |parts| && r == parts[..|r|]
    ensures |r| > 0 ==> r[|r| - 1] != ""
    ensures forall k :: |r| <= k < |parts| ==> parts[k] == ""
  {
    if |parts| > 0 && parts[|parts| - 1] == "" then DropTrailingEmpty(parts[..|parts| - 1]) else parts
  }

  /**
   * `s.split(sep)` in Java: a string without the separator is returned whole; otherwise the
   * parts, with the trailing empty ones removed.
   */
  function JavaSplit(s: string, sep: char): seq<string>
  {
    if sep !in s then [s] else DropTrailingEmpty(SplitAll(s, sep))
  }

  /** Joining parts that contain no separator, the last one non-empty, splits back into them. */
  lemma JavaSplitJoin(parts: seq<string>, sep: char)
    requires 1 <= |parts| && parts[|parts| - 1] != ""
    requires forall k :: 0 <= k < |parts| ==> sep !in parts[k]
    ensures JavaSplit(Join(parts, sep), sep) == parts
  {
    SplitAllJoin(parts, sep);
    if |parts| > 1 {
      assert Join(parts, sep)[|parts[0]|] == sep;
    }
  }
}
