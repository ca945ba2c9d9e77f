/** String operations of the JavaScript runtime that the handler loaders rely on:
    `lastIndexOf`, `split` with a one-character separator, `endsWith`, and the
    decimal rendering of a timestamp inside a template literal. Strings are
    `seq<char>`, whose elements are Unicode scalar values, so indices count
    scalar values rather than JavaScript's UTF-16 code units. */
module Strings {

  /** Number of occurrences of `c` in `s`. */
  function Count(s: string, c: char): nat
  {
    if |s| == 0 then 0 else (if s[0] == c then 1 else 0) + Count(s[1..], c)
  }

  lemma {:induction false} CountZero(s: string, c: char)
    ensures Count(s, c) == 0 <==> c !in s
  {
    if |s| > 0 {
      CountZero(s[1..], c);
      assert s == [s[0]] + s[1..];
    }
  }

  lemma {:induction false} CountConcat(a: string, b: string, c: char)
    ensures Count(a + b, c) == Count(a, c) + Count(b, c)
  {
    if |a| == 0 {
      assert a + b == b;
    } else {
      assert (a + b)[1..] == a[1..] + b;
      CountConcat(a[1..], b, c);
    }
  }

  /** Two occurrences of `c` at distinct positions make `Count(s, c)` at least two. */
  lemma CountAtLeastTwo(s: string, c: char, i: nat, j: nat)
    requires i < j < |s| && s[i] == c && s[j] == c
    ensures Count(s, c) >= 2
  {
    assert s == s[..j] + s[j..];
    CountConcat(s[..j], s[j..], c);
    assert s[..j][i] == c;
    CountZero(s[..j], c);
    assert s[j..][0] == c;
  }

  /** `s.lastIndexOf(c)`: the index of the last occurrence of `c`, or -1. */
  function LastIndexOf(s: string, c: char): (r: int)
    ensures -1 <= r < |s|
    ensures r == -1 <==> c !in s
    ensures r >= 0 ==> s[r] == c && c !in s[r + 1..]
  {
    if |s| == 0 then -1
    else if s[|s| - 1] == c then |s| - 1
    else
      var r := LastIndexOf(s[..|s| - 1], c);
      assert r >= 0 ==> s[r + 1..] == s[..|s| - 1][r + 1..] + [s[|s| - 1]];
      r
  }

  /** Joins `parts` with the separator `c` between neighbours (`parts.join(c)`). */
  function Join(parts: seq<string>, c: char): string
    requires |parts| >= 1
  {
    if |parts| == 1 then parts[0] else parts[0] + [c] + Join(parts[1..], c)
  }

  /** `s.split(c)` for a one-character separator: the maximal `c`-free pieces
      between occurrences of `c`, including empty ones; `""` splits to `[""]`. */
  function Split(s: string, c: char): (parts: seq<string>)
    ensures |parts| == Count(s, c) + 1
    ensures forall i :: 0 <= i < |parts| ==> c !in parts[i]
    ensures Join(parts, c) == s
  {
    if |s| == 0 then [""]
    else
      var rest := Split(s[1..], c);
      if s[0] == c then
        assert Join([""] + rest, c) == s by {
          assert ([""] + rest)[1..] == rest;
          assert s == [c] + s[1..];
        }
        [""] + rest
      else
        var parts := [[s[0]] + rest[0]] + rest[1..];
        assert Join(parts, c) == s by {
          if |rest| == 1 {
            assert s == [s[0]] + s[1..];
          } else {
            assert parts[1..] == rest[1..];
            assert Join(rest, c) == rest[0] + [c] + Join(rest[1..], c);
            assert s == [s[0]] + s[1..];
          }
        }
        parts
  }

  /** Splitting undoes joining whenever no piece contains the separator. */
  lemma {:induction false} SplitJoin(parts: seq<string>, c: char)
    requires |parts| >= 1
    requires forall i :: 0 <= i < |parts| ==> c !in parts[i]
    ensures Split(Join(parts, c), c) == parts
    decreases |Join(parts, c)|
  {
    var p := parts[0];
    if |p| > 0 {
      var s := Join(parts, c);
      var tail := [p[1..]] + parts[1..];
      assert forall i :: 0 <= i < |tail| ==> c !in tail[i] by {
        forall i | 0 <= i < |tail| ensures c !in tail[i] {
          if i == 0 {
            assert forall x :: x in p[1..] ==> x in p;
          } else {
            assert tail[i] == parts[i];
          }
        }
      }
      assert tail[1..] == parts[1..];
      assert s[1..] == Join(tail, c) by {
        if |parts| == 1 {
        } else {
          assert s == p + [c] + Join(parts[1..], c);
        }
      }
      SplitJoin(tail, c);
      assert s[0] == p[0];
      assert [p[0]] + p[1..] == p;
    } else if |parts| == 1 {
    } else {
      var s := Join(parts, c);
      assert s == [c] + Join(parts[1..], c);
      assert s[1..] == Join(parts[1..], c);
      assert forall i :: 0 <= i < |parts[1..]| ==> c !in parts[1..][i] by {
        forall i | 0 <= i < |parts[1..]| ensures c !in parts[1..][i] {
          assert parts[1..][i] == parts[i + 1];
        }
      }
      SplitJoin(parts[1..], c);
      assert [""] + parts[1..] == parts;
    }
  }

  /** A string with exactly one occurrence of `c` splits into the text before and after it. */
  lemma SplitTwo(p: string, n: string, c: char)
    requires c !in p && c !in n
    ensures Split(p + [c] + n, c) == [p, n]
  {
    assert Join([p, n], c) == p + [c] + n by {
      assert [p, n][1..] == [n];
    }
    SplitJoin([p, n], c);
  }

  /** `s.endsWith(suffix)`. */
  predicate EndsWith(s: string, suffix: string)
  {
    |suffix| <= |s| && s[|s| - |suffix|..] == suffix
  }

  /** The character of a decimal digit. */
  function DigitChar(d: nat): char
    requires d < 10
  {
    "0123456789"[d]
  }

  /** The value of a decimal digit character. */
  function DigitValue(ch: char): nat
  {
    if '0' <= ch <= '9' then (ch as int - '0' as int) else 0
  }

  predicate IsDigit(ch: char)
  {
    '0' <= ch <= '9'
  }

  /** The decimal rendering of a natural number, as `${n}` produces for an integral number. */
  function Decimal(n: nat): (s: string)
    ensures |s| >= 1
    ensures forall i :: 0 <= i < |s| ==> IsDigit(s[i])
    ensures |s| > 1 ==> s[0] != '0'
  {
    if n < 10 then [DigitChar(n)] else Decimal(n / 10) + [DigitChar(n % 10)]
  }

  /** The number a string of decimal digits denotes. */
  function DecimalValue(s: string): nat
  {
    if |s| == 0 then 0 else 10 * DecimalValue(s[..|s| - 1]) + DigitValue(s[|s| - 1])
  }

  /** Reading a rendered number back yields the number. */
  lemma {:induction false} DecimalRoundTrip(n: nat)
    ensures DecimalValue(Decimal(n)) == n
  {
    if n >= 10 {
      var s := Decimal(n);
      assert s[..|s| - 1] == Decimal(n / 10);
      DecimalRoundTrip(n / 10);
    }
  }

}
