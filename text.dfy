/** The few string operations of Python's `str` that the pipeline relies on. */
module Text {

  /** `c.lower()` for an ASCII letter; other characters are kept as they are. */
  function LowerChar(c: char): char
  {
    if 'A' <= c <= 'Z' then (c as int + 32) as char else c
  }

  /** `s.lower()`, character by character. */
  function Lower(s: string): string
  {
    seq(|s|, i requires 0 <= i < |s| => LowerChar(s[i]))
  }

  /** `sub in s`: `sub` occurs in `s` at some position. */
  predicate Contains(s: string, sub: string)
    decreases |s|
  {
    sub <= s || (|s| > 0 && Contains(s[1..], sub))
  }

  /** `sub` occurs in `s` starting at index `i`. */
  predicate OccursAt(s: string, sub: string, i: int)
  {
    0 <= i <= |s| - |sub| && s[i..i + |sub|] == sub
  }

  /** An occurrence at index `i` is found by `Contains`. */
  lemma {:induction false} OccurrenceContained(s: string, sub: string, i: int)
    requires OccursAt(s, sub, i)
    ensures Contains(s, sub)
    decreases i
  {
    if i == 0 {
      assert s[..|sub|] == sub;
    } else {
      assert s[1..][i - 1..i - 1 + |sub|] == s[i..i + |sub|];
      OccurrenceContained(s[1..], sub, i - 1);
    }
  }

  /** `Contains` finds only real occurrences. */
  lemma {:induction false} ContainedOccurrence(s: string, sub: string) returns (i: int)
    requires Contains(s, sub)
    ensures OccursAt(s, sub, i)
    decreases |s|
  {
    if sub <= s {
      i := 0;
      assert s[..|sub|] == sub;
    } else {
      var j := ContainedOccurrence(s[1..], sub);
      assert s[1..][j..j + |sub|] == s[j + 1..j + 1 + |sub|];
      i := j + 1;
    }
  }

  /** `Contains` holds exactly when `sub` occurs in `s` at some index. */
  lemma ContainsAt(s: string, sub: string)
    ensures Contains(s, sub) <==> exists i :: OccursAt(s, sub, i)
  {
    if Contains(s, sub) {
      var i := ContainedOccurrence(s, sub);
    }
    if exists i :: OccursAt(s, sub, i) {
      var i :| OccursAt(s, sub, i);
      OccurrenceContained(s, sub, i);
    }
  }

  /** `s.endswith(suffix)`. */
  predicate EndsWith(s: string, suffix: string)
  {
    |suffix| <= |s| && s[|s| - |suffix|..] == suffix
  }

  /** `s.split(sep)` for a one-character separator: the pieces between separators, in order. */
  function Split(s: string, sep: char): (fields: seq<string>)
    ensures |fields| >= 1
    decreases |s|
  {
    if |s| == 0 then [""]
    else if s[0] == sep then [""] + Split(s[1..], sep)
    else
      var rest := Split(s[1..], sep);
      [[s[0]] + rest[0]] + rest[1..]
  }

  /** Each value followed by the separator, in order. */
  function Terminated(values: seq<string>, sep: char): string
  {
    if |values| == 0 then "" else values[0] + [sep] + Terminated(values[1..], sep)
  }

  lemma {:induction false} TerminatedAppend(a: seq<string>, b: seq<string>, sep: char)
    ensures Terminated(a + b, sep) == Terminated(a, sep) + Terminated(b, sep)
  {
    if |a| > 0 {
      assert (a + b)[1..] == a[1..] + b;
      TerminatedAppend(a[1..], b, sep);
    } else {
      assert a + b == b;
    }
  }

  /** A piece without the separator splits into itself. */
  lemma {:induction false} SplitWithoutSeparator(s: string, sep: char)
    requires sep !in s
    ensures Split(s, sep) == [s]
  {
    if |s| > 0 {
      SplitWithoutSeparator(s[1..], sep);
      assert [s[0]] + s[1..] == s;
    }
  }

  /** Splitting stops at the first separator. */
  lemma {:induction false} SplitAtSeparator(a: string, sep: char, b: string)
    requires sep !in a
    ensures Split(a + [sep] + b, sep) == [a] + Split(b, sep)
  {
    if |a| == 0 {
      assert a + [sep] + b == [sep] + b;
      assert ([sep] + b)[1..] == b;
    } else {
      assert (a + [sep] + b)[1..] == a[1..] + [sep] + b;
      SplitAtSeparator(a[1..], sep, b);
      assert [a[0]] + a[1..] == a;
    }
  }

  /** Splitting undoes `Terminated` followed by a last piece, when no piece holds the separator. */
  lemma {:induction false} SplitTerminated(values: seq<string>, last: string, sep: char)
    requires forall k :: 0 <= k < |values| ==> sep !in values[k]
    requires sep !in last
    ensures Split(Terminated(values, sep) + last, sep) == values + [last]
  {
    if |values| == 0 {
      assert Terminated(values, sep) + last == last;
      SplitWithoutSeparator(last, sep);
    } else {
      var tail := Terminated(values[1..], sep) + last;
      assert Terminated(values, sep) + last == values[0] + [sep] + tail;
      SplitAtSeparator(values[0], sep, tail);
      SplitTerminated(values[1..], last, sep);
      assert values == [values[0]] + values[1..];
    }
  }

  /** Equal strings that both start with a separator-free piece followed by the separator agree on the piece and the rest. */
  lemma {:induction false} SplitPrefixUnique(a1: string, r1: string, a2: string, r2: string, sep: char)
    requires sep !in a1 && sep !in a2
    requires a1 + [sep] + r1 == a2 + [sep] + r2
    ensures a1 == a2 && r1 == r2
  {
    SplitAtSeparator(a1, sep, r1);
    SplitAtSeparator(a2, sep, r2);
    assert ([a1] + Split(r1, sep))[0] == a1;
    assert ([a2] + Split(r2, sep))[0] == a2;
    assert (a1 + [sep] + r1)[..|a1|] == a1;
    assert (a2 + [sep] + r2)[..|a2|] == a2;
    assert (a1 + [sep] + r1)[|a1| + 1..] == r1;
    assert (a2 + [sep] + r2)[|a2| + 1..] == r2;
  }

  /** The character for a decimal digit. */
  function DigitChar(d: int): char
    requires 0 <= d < 10
  {
    ('0' as int + d) as char
  }

  /** `str(n)` for a natural number: its decimal digits, most significant first, without leading zeros. */
  function Digits(n: nat): (s: string)
    ensures |s| >= 1
    decreases n
  {
    if n < 10 then [DigitChar(n)] else Digits(n / 10) + [DigitChar(n % 10)]
  }

  /** `str(v)` for a Python `int`: a minus sign before the digits of a negative value. */
  function DecimalString(v: int): string
  {
    if v < 0 then "-" + Digits(-v) else Digits(v)
  }

  function Pow10(k: nat): nat
  {
    if k == 0 then 1 else 10 * Pow10(k - 1)
  }

  /** A natural number has at most `k` digits exactly when it is below 10^k. */
  lemma {:induction false} DigitsLength(n: nat, k: nat)
    requires k >= 1
    ensures |Digits(n)| <= k <==> n < Pow10(k)
    decreases n
  {
    if n >= 10 {
      if k == 1 {
        assert |Digits(n)| == |Digits(n / 10)| + 1;
      } else {
        DigitsLength(n / 10, k - 1);
      }
    } else {
      Pow10AtLeastTen(k);
    }
  }

  lemma {:induction false} Pow10AtLeastTen(k: nat)
    requires k >= 1
    ensures Pow10(k) >= 10
  {
    if k > 1 {
      Pow10AtLeastTen(k - 1);
    }
  }

  /** `len(str(v)) > 9` holds exactly for the values from 10^9 up and from -10^8 down. */
  lemma DecimalStringLongerThanNine(v: int)
    ensures |DecimalString(v)| > 9 <==> v >= 1_000_000_000 || v <= -100_000_000
  {
    assert Pow10(9) == 1_000_000_000;
    assert Pow10(8) == 100_000_000;
    if v < 0 {
      DigitsLength(-v, 8);
    } else {
      DigitsLength(v, 9);
    }
  }
}
