// The Python string operations the pipeline uses, on `seq<char>`:
// `sep.join`, `str.split(c)`, `in`, `str.replace`, `str.upper`, `str.strip`,
// `str(int)` and `list.index`.

module Text {

  /** `sep.join(parts)`. */
  function Join(parts: seq<string>, sep: string): string
  {
    if |parts| == 0 then ""
    else if |parts| == 1 then parts[0]
    else parts[0] + sep + Join(parts[1..], sep)
  }

  /** A left-to-right chain `a + sep + b + sep + c` is the join of its parts. */
  lemma {:induction false} JoinAppend(parts: seq<string>, sep: string, x: string)
    requires |parts| >= 1
    ensures Join(parts + [x], sep) == Join(parts, sep) + sep + x
  {
    if |parts| > 1 {
      JoinAppend(parts[1..], sep, x);
      assert (parts + [x])[1..] == parts[1..] + [x];
    }
  }

  /** Joining two non-empty lists is joining each and putting the separator between. */
  lemma {:induction false} JoinConcat(a: seq<string>, b: seq<string>, sep: string)
    requires |a| >= 1 && |b| >= 1
    ensures Join(a + b, sep) == Join(a, sep) + sep + Join(b, sep)
  {
    assert (a + b)[1..] == a[1..] + b;
    if |a| > 1 {
      JoinConcat(a[1..], b, sep);
    }
  }

  /** `"".join(parts)`: plain concatenation. */
  function Concat(parts: seq<string>): string
  {
    if |parts| == 0 then "" else parts[0] + Concat(parts[1..])
  }

  /** `s.split(c)` for a one-character separator: never empty, keeps empty fields. */
  function Split(s: string, c: char): (r: seq<string>)
    ensures |r| >= 1
  {
    if |s| == 0 then [""]
    else
      var rest := Split(s[1..], c);
      if s[0] == c then [""] + rest else [[s[0]] + rest[0]] + rest[1..]
  }

  /** No part contains the character `c`. */
  predicate Free(parts: seq<string>, c: char)
  {
    forall i :: 0 <= i < |parts| ==> c !in parts[i]
  }

  lemma {:induction false} SplitFree(s: string, c: char)
    requires c !in s
    ensures Split(s, c) == [s]
  {
    if |s| > 0 {
      SplitFree(s[1..], c);
      assert [s[0]] + s[1..] == s;
    }
  }

  lemma {:induction false} SplitAfterFree(p: string, c: char, rest: string)
    requires c !in p
    ensures Split(p + [c] + rest, c) == [p] + Split(rest, c)
  {
    if |p| == 0 {
      assert p + [c] + rest == [c] + rest;
      assert ([c] + rest)[1..] == rest;
    } else {
      assert (p + [c] + rest)[1..] == p[1..] + [c] + rest;
      SplitAfterFree(p[1..], c, rest);
      assert [p[0]] + p[1..] == p;
    }
  }

  /** Splitting a join on a character no part contains gives the parts back. */
  lemma {:induction false} SplitJoin(parts: seq<string>, c: char)
    requires |parts| >= 1 && Free(parts, c)
    ensures Split(Join(parts, [c]), c) == parts
  {
    if |parts| == 1 {
      SplitFree(parts[0], c);
    } else {
      SplitJoin(parts[1..], c);
      SplitAfterFree(parts[0], c, Join(parts[1..], [c]));
      assert [parts[0]] + parts[1..] == parts;
    }
  }

  /** Splitting a join followed by the separator and more text: the parts, then the split of the rest. */
  lemma {:induction false} SplitJoinThen(parts: seq<string>, c: char, rest: string)
    requires |parts| >= 1 && Free(parts, c)
    ensures Split(Join(parts, [c]) + [c] + rest, c) == parts + Split(rest, c)
  {
    if |parts| == 1 {
      assert Join(parts, [c]) == parts[0];
      SplitAfterFree(parts[0], c, rest);
    } else {
      var head, tail := parts[0], Join(parts[1..], [c]);
      var after := tail + [c] + rest;
      assert Join(parts, [c]) == head + [c] + tail;
      assert Join(parts, [c]) + [c] + rest == head + [c] + after;
      assert Free(parts[1..], c) by {
        forall i | 0 <= i < |parts[1..]| ensures c !in parts[1..][i] {
          assert parts[1..][i] == parts[i + 1];
        }
      }
      SplitJoinThen(parts[1..], c, rest);
      assert c !in parts[0];
      SplitAfterFree(head, c, after);
      ConsSlice(parts, Split(rest, c));
    }
  }

  /** Putting the head back in front of the tail, with more after it. */
  lemma ConsSlice<T>(s: seq<T>, t: seq<T>)
    requires |s| >= 1
    ensures [s[0]] + (s[1..] + t) == s + t
  {
    assert [s[0]] + s[1..] == s;
  }

  /** The lines `parts`, each followed by a newline, as a file iterated line by line yields them. */
  function Terminated(parts: seq<string>): (r: seq<string>)
    ensures |r| == |parts| && forall i :: 0 <= i < |parts| ==> r[i] == parts[i] + "\n"
  {
    seq(|parts|, i requires 0 <= i < |parts| => parts[i] + "\n")
  }

  lemma TerminatedConcat(a: seq<string>, b: seq<string>)
    ensures Terminated(a + b) == Terminated(a) + Terminated(b)
  {
  }

  /** Newline-terminated lines, written one after another, read back as those lines and an empty remainder. */
  lemma {:induction false} SplitTerminated(parts: seq<string>)
    requires Free(parts, '\n')
    ensures Split(Concat(Terminated(parts)), '\n') == parts + [""]
  {
    if |parts| == 0 {
      assert Concat(Terminated(parts)) == "";
    } else {
      var rest := Concat(Terminated(parts[1..]));
      assert Terminated(parts)[1..] == Terminated(parts[1..]);
      assert Concat(Terminated(parts)) == parts[0] + "\n" + rest;
      assert Free(parts[1..], '\n') by {
        forall i | 0 <= i < |parts[1..]| ensures '\n' !in parts[1..][i] {
          assert parts[1..][i] == parts[i + 1];
        }
      }
      SplitTerminated(parts[1..]);
      assert '\n' !in parts[0];
      SplitAfterFree(parts[0], '\n', rest);
      assert [parts[0]] + (parts[1..] + [""]) == parts + [""];
    }
  }

  /** Whatever precedes the last separator, the last field of a split is the text after it. */
  lemma {:induction false} SplitLastAfter(p: string, c: char, rest: string)
    requires c !in rest
    ensures |Split(p + [c] + rest, c)| >= 2
    ensures Split(p + [c] + rest, c)[|Split(p + [c] + rest, c)| - 1] == rest
  {
    if |p| == 0 {
      assert p + [c] + rest == [c] + rest;
      assert ([c] + rest)[1..] == rest;
      SplitFree(rest, c);
    } else {
      assert (p + [c] + rest)[1..] == p[1..] + [c] + rest;
      SplitLastAfter(p[1..], c, rest);
      SplitKeepsLast(p + [c] + rest, c);
    }
  }

  /** One more character in front leaves the last field of a split with two or more fields alone. */
  lemma SplitKeepsLast(s: string, c: char)
    requires |s| > 0 && |Split(s[1..], c)| >= 2
    ensures |Split(s, c)| >= 2
    ensures Split(s, c)[|Split(s, c)| - 1] == Split(s[1..], c)[|Split(s[1..], c)| - 1]
  {
    var rest := Split(s[1..], c);
    if s[0] != c {
      assert Split(s, c) == [[s[0]] + rest[0]] + rest[1..];
    }
  }

  /** Joining the fields of a split gives the text back. */
  lemma {:induction false} JoinSplit(s: string, c: char)
    ensures Join(Split(s, c), [c]) == s
  {
    if |s| > 0 {
      JoinSplit(s[1..], c);
      var rest := Split(s[1..], c);
      if s[0] == c {
        assert Split(s, c) == [""] + rest;
      } else {
        var parts := [[s[0]] + rest[0]] + rest[1..];
        assert Split(s, c) == parts;
        if |rest| == 1 {
          assert Join(parts, [c]) == [s[0]] + rest[0];
        } else {
          assert Join(rest, [c]) == rest[0] + [c] + Join(rest[1..], [c]);
          assert parts[1..] == rest[1..];
        }
      }
    }
  }

  /** `sub in s`. */
  predicate Contains(s: string, sub: string)
  {
    (|sub| <= |s| && s[..|sub|] == sub) || (|s| > 0 && Contains(s[1..], sub))
  }

  /** `s.replace(target, replacement)`: every non-overlapping occurrence, left to right. */
  function Replace(s: string, target: string, replacement: string): string
    requires |target| > 0
  {
    if |s| < |target| then s
    else if s[..|target|] == target then replacement + Replace(s[|target|..], target, replacement)
    else [s[0]] + Replace(s[1..], target, replacement)
  }

  lemma {:induction false} ReplaceAbsent(s: string, target: string, replacement: string)
    requires |target| > 0 && !Contains(s, target)
    ensures Replace(s, target, replacement) == s
  {
    if |s| >= |target| {
      ReplaceAbsent(s[1..], target, replacement);
      assert [s[0]] + s[1..] == s;
    }
  }

  /** `str.upper()` on byte strings: ASCII letters only. */
  function UpperChar(c: char): char
  {
    if 'a' <= c <= 'z' then (c as int - 32) as char else c
  }

  function Upper(s: string): (r: string)
    ensures |r| == |s| && forall i :: 0 <= i < |s| ==> r[i] == UpperChar(s[i])
  {
    if |s| == 0 then "" else [UpperChar(s[0])] + Upper(s[1..])
  }

  /** Upper-casing twice is upper-casing once. */
  lemma UpperIdempotent(s: string)
    ensures Upper(Upper(s)) == Upper(s)
  {
  }

  /** Upper-casing distributes over concatenation. */
  lemma UpperConcat(a: string, b: string)
    ensures Upper(a + b) == Upper(a) + Upper(b)
  {
    var left, right := Upper(a + b), Upper(a) + Upper(b);
    forall i | 0 <= i < |a + b| ensures left[i] == right[i] {
      if i < |a| {
        assert (a + b)[i] == a[i];
      } else {
        assert (a + b)[i] == b[i - |a|];
      }
    }
  }

  /** The whitespace `str.strip()` removes by default. */
  const WHITESPACE: set<char> := {' ', '\t', '\n', '\r', '\U{000B}', '\U{000C}'}

  function TrimLeft(s: string, chars: set<char>): (r: string)
    ensures |r| <= |s| && r == s[|s| - |r|..]
    ensures |r| > 0 ==> r[0] !in chars
  {
    if |s| > 0 && s[0] in chars then TrimLeft(s[1..], chars) else s
  }

  function TrimRight(s: string, chars: set<char>): (r: string)
    ensures |r| <= |s| && r == s[..|r|]
    ensures |r| > 0 ==> r[|r| - 1] !in chars
  {
    if |s| > 0 && s[|s| - 1] in chars then TrimRight(s[..|s| - 1], chars) else s
  }

  /** `s.strip(chars)`: both ends. */
  function Strip(s: string, chars: set<char>): (r: string)
    ensures |r| > 0 ==> r[0] !in chars && r[|r| - 1] !in chars
  {
    TrimRight(TrimLeft(s, chars), chars)
  }

  function DigitChar(d: nat): char
    requires d < 10
  {
    ('0' as int + d) as char
  }

  predicate IsDigit(c: char)
  {
    '0' <= c <= '9'
  }

  predicate IsDigits(s: string)
  {
    |s| > 0 && forall i :: 0 <= i < |s| ==> IsDigit(s[i])
  }

  /** `str(n)` for a natural number: decimal digits, no leading zero. */
  function NatToString(n: nat): (r: string)
    ensures IsDigits(r) && (|r| > 1 ==> r[0] != '0')
  {
    if n < 10 then [DigitChar(n)] else NatToString(n / 10) + [DigitChar(n % 10)]
  }

  /** `str(i)` for any integer. */
  function IntToString(i: int): string
  {
    if i < 0 then "-" + NatToString(-i) else NatToString(i)
  }

  /** The value of a string of decimal digits. */
  function DigitsValue(s: string): nat
    requires forall i :: 0 <= i < |s| ==> IsDigit(s[i])
  {
    if |s| == 0 then 0 else 10 * DigitsValue(s[..|s| - 1]) + DigitValue(s[|s| - 1])
  }

  function DigitValue(c: char): nat
    requires IsDigit(c)
  {
    c as int - '0' as int
  }

  /** Reading back the decimal text of a number gives the number. */
  lemma {:induction false} NatToStringValue(n: nat)
    ensures DigitsValue(NatToString(n)) == n
  {
    if n >= 10 {
      NatToStringValue(n / 10);
      var s := NatToString(n);
      assert s[..|s| - 1] == NatToString(n / 10);
    }
  }

  /** Distinct numbers have distinct decimal texts. */
  lemma NatToStringInjective(m: nat, n: nat)
    requires NatToString(m) == NatToString(n)
    ensures m == n
  {
    NatToStringValue(m);
    NatToStringValue(n);
  }

  /** `list.index(x)`: the first position of `x`. */
  function IndexOf<T(==)>(s: seq<T>, x: T): (i: nat)
    requires x in s
    ensures i < |s| && s[i] == x && forall j :: 0 <= j < i ==> s[j] != x
  {
    if s[0] == x then 0 else 1 + IndexOf(s[1..], x)
  }

  /** The last position of `x`: the key a repeated name keeps in `dict(zip(names, values))`. */
  function LastIndexOf<T(==)>(s: seq<T>, x: T): (i: nat)
    requires x in s
    ensures i < |s| && s[i] == x && forall j :: i < j < |s| ==> s[j] != x
  {
    if s[|s| - 1] == x then |s| - 1
    else
      assert forall y :: y in s ==> y in s[..|s| - 1] || y == s[|s| - 1];
      LastIndexOf(s[..|s| - 1], x)
  }

  /** The number of elements of `s` that belong to `within`. */
  function CountIn<T(==)>(s: seq<T>, within: seq<T>): (n: nat)
    ensures n <= |s|
  {
    if |s| == 0 then 0 else (if s[0] in within then 1 else 0) + CountIn(s[1..], within)
  }
}
