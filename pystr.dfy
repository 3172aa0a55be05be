/** The operations on Python `str` values that the catalog relies on, with
    Python's semantics: `find`, `split`, `split(sep, 1)`, `join`, slicing from
    an index, ASCII lower-casing and `str(int)`. */
module PyStr {
  import opened Wrappers

  /** `s.find(c)`: the index of the first `c` in `s`, or -1 when there is none. */
  function Find(s: string, c: char): (i: int)
    ensures -1 <= i < |s|
    ensures i == -1 <==> c !in s
    ensures 0 <= i ==> s[i] == c && c !in s[..i]
    decreases |s|
  {
    if |s| == 0 then -1
    else if s[0] == c then 0
    else
      var j := Find(s[1..], c);
      assert s == [s[0]] + s[1..];
      if j < 0 then -1
      else
        assert s[..j + 1] == [s[0]] + s[1..][..j];
        j + 1
  }

  /** When `c` does not occur in `a`, the first `c` of `a + [c] + b` is the
      one right after `a`. */
  lemma FindAfterPrefix(a: string, c: char, b: string)
    requires c !in a
    ensures Find(a + [c] + b, c) == |a|
  {
    var s := a + [c] + b;
    assert s[..|a|] == a;
    assert s[|a|] == c;
  }

  /** `s.split(sep)`: the pieces of `s` between occurrences of `sep`; there is
      always at least one piece, and no piece contains `sep`. */
  function Split(s: string, sep: char): (parts: seq<string>)
    ensures |parts| >= 1
    ensures forall i :: 0 <= i < |parts| ==> sep !in parts[i]
    decreases |s|
  {
    var i := Find(s, sep);
    if i < 0 then [s]
    else
      var head, rest := s[..i], Split(s[i + 1..], sep);
      assert sep !in head;
      assert forall k :: 1 <= k <= |rest| ==> ([head] + rest)[k] == rest[k - 1];
      [head] + rest
  }

  /** `sep.join(parts)`. */
  function Join(parts: seq<string>, sep: char): string
    decreases |parts|
  {
    if |parts| == 0 then ""
    else if |parts| == 1 then parts[0]
    else parts[0] + [sep] + Join(parts[1..], sep)
  }

  /** Joining the pieces of a split gives back the original string. */
  lemma {:induction false} JoinSplit(s: string, sep: char)
    ensures Join(Split(s, sep), sep) == s
    decreases |s|
  {
    if sep in s {
      var head, tail := SplitStep(s, sep);
      JoinSplit(tail, sep);
      JoinCons(head, Split(tail, sep), sep);
    } else {
      assert Split(s, sep) == [s];
    }
  }

  /** A string with `sep` splits into the text before its first `sep` and
      the pieces of the rest. */
  lemma SplitStep(s: string, sep: char) returns (head: string, tail: string)
    requires sep in s
    ensures s == head + [sep] + tail && sep !in head && |tail| < |s|
    ensures Split(s, sep) == [head] + Split(tail, sep)
  {
    var i := Find(s, sep);
    head, tail := s[..i], s[i + 1..];
    assert s == head + [sep] + tail by {
      assert s[i] == sep;
    }
  }

  lemma JoinCons(p: string, rest: seq<string>, sep: char)
    requires |rest| >= 1
    ensures Join([p] + rest, sep) == p + [sep] + Join(rest, sep)
  {
    assert ([p] + rest)[1..] == rest;
  }

  /** Splitting a join of pieces free of `sep` gives back the pieces. */
  lemma {:induction false} SplitJoin(parts: seq<string>, sep: char)
    requires |parts| >= 1
    requires forall i :: 0 <= i < |parts| ==> sep !in parts[i]
    ensures Split(Join(parts, sep), sep) == parts
    decreases |parts|
  {
    var head := parts[0];
    assert sep !in head;
    if |parts| > 1 {
      var tail := Join(parts[1..], sep);
      var s := head + [sep] + tail;
      assert Join(parts, sep) == s;
      FindAfterPrefix(head, sep, tail);
      assert s[..|head|] == head;
      assert s[|head| + 1..] == tail;
      assert Split(s, sep) == [head] + Split(tail, sep);
      SplitJoin(parts[1..], sep);
      assert parts == [head] + parts[1..];
    }
  }

  /** `s.split(sep, 1)`: `[s]` when `sep` does not occur in `s`, otherwise the
      text before the first `sep` and everything after it (which may itself
      contain `sep`). */
  function SplitOnce(s: string, sep: char): (parts: seq<string>)
    ensures 1 <= |parts| <= 2
    ensures |parts| == 1 <==> sep !in s
    ensures |parts| == 1 ==> parts[0] == s
    ensures |parts| == 2 ==> parts[0] + [sep] + parts[1] == s && sep !in parts[0]
  {
    var i := Find(s, sep);
    if i < 0 then [s]
    else
      assert s == s[..i] + [sep] + s[i + 1..];
      [s[..i], s[i + 1..]]
  }

  /** The two halves `SplitOnce` returns are the only ones with its ensures:
      the first `sep` of `a + [sep] + b` is the one after `a` when `a` is free
      of `sep`. */
  lemma SplitOnceJoin(a: string, sep: char, b: string)
    requires sep !in a
    ensures SplitOnce(a + [sep] + b, sep) == [a, b]
  {
    var s := a + [sep] + b;
    FindAfterPrefix(a, sep, b);
    assert s[..|a|] == a;
    assert s[|a| + 1..] == b;
  }

  /** `s[k:]` for `k >= 0`: the characters from index `k` on, or the empty
      string when `k` is past the end. */
  function Drop(s: string, k: nat): (r: string)
    ensures |r| == if k <= |s| then |s| - k else 0
    ensures forall i :: 0 <= i < |r| ==> r[i] == s[k + i]
  {
    if k <= |s| then s[k..] else ""
  }

  /** Lower-casing of an ASCII letter; every other character is unchanged. */
  function LowerChar(c: char): char {
    if 'A' <= c <= 'Z' then (c as int + 32) as char else c
  }

  /** `s.lower()` on ASCII text. */
  function Lower(s: string): string {
    seq(|s|, i requires 0 <= i < |s| => LowerChar(s[i]))
  }

  predicate IsLowerCase(s: string) {
    forall i :: 0 <= i < |s| ==> !('A' <= s[i] <= 'Z')
  }

  /** Lower-casing leaves text without capital letters unchanged. */
  lemma LowerOfLowerCase(s: string)
    requires IsLowerCase(s)
    ensures Lower(s) == s
  {
    assert forall i :: 0 <= i < |s| ==> Lower(s)[i] == s[i];
  }

  predicate IsDigits(s: string) {
    forall i :: 0 <= i < |s| ==> '0' <= s[i] <= '9'
  }

  function DigitChar(d: nat): (c: char)
    requires d < 10
  {
    ('0' as int + d) as char
  }

  /** `str(n)` for a natural number: its decimal digits, without a leading
      zero except for 0 itself. */
  function NatToDecimal(n: nat): (s: string)
    ensures |s| >= 1 && IsDigits(s)
    ensures s[0] == '0' ==> n == 0
    decreases n
  {
    if n < 10 then [DigitChar(n)]
    else NatToDecimal(n / 10) + [DigitChar(n % 10)]
  }

  /** The number a string of decimal digits denotes. */
  function DecimalValue(s: string): nat
    requires IsDigits(s)
    decreases |s|
  {
    if |s| == 0 then 0
    else 10 * DecimalValue(s[..|s| - 1]) + (s[|s| - 1] as int - '0' as int)
  }

  /** Reading back the decimal digits of `n` gives `n`. */
  lemma {:induction false} DecimalRoundTrip(n: nat)
    ensures DecimalValue(NatToDecimal(n)) == n
    decreases n
  {
    if n >= 10 {
      var s := NatToDecimal(n);
      DecimalRoundTrip(n / 10);
      assert s[..|s| - 1] == NatToDecimal(n / 10);
    }
  }

  /** `str(n)` for an integer. */
  function IntToDecimal(n: int): string {
    if n < 0 then "-" + NatToDecimal(-n) else NatToDecimal(n)
  }

  /** `int(s)` on the strings `str` produces: an optional minus sign followed
      by at least one digit. */
  function ParseInt(s: string): Option<int> {
    if |s| >= 2 && s[0] == '-' && IsDigits(s[1..]) then Some(0 - DecimalValue(s[1..]))
    else if |s| >= 1 && IsDigits(s) then Some(DecimalValue(s))
    else None
  }

  /** `int(str(n)) == n`: the decimal rendering of an integer determines it. */
  lemma IntRoundTrip(n: int)
    ensures ParseInt(IntToDecimal(n)) == Some(n)
  {
    if n < 0 {
      NegativeRoundTrip(-n);
    } else {
      var digits := NatToDecimal(n);
      assert '0' <= digits[0] <= '9';
      DecimalRoundTrip(n);
    }
  }

  lemma NegativeRoundTrip(m: nat)
    requires m > 0
    ensures ParseInt("-" + NatToDecimal(m)) == Some(-(m as int))
  {
    var digits := NatToDecimal(m);
    var s := "-" + digits;
    assert s[1..] == digits;
    DecimalRoundTrip(m);
  }
}
