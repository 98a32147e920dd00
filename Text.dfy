/**
 * The Python string built-ins the two fuzzer scripts rely on, written out over
 * `string` (= `seq<char>`): `str.replace(c, "")`, `str.split(c)`, `str.partition(c)`,
 * `str.join`, string repetition `s * n`, and `str(int)`; plus the readers that
 * invert the last two, so that what the scripts print can be read back.
 */
module Text {
  import opened Wrappers

  // ---------------------------------------------------------------------------
  // replace(c, "")
  // ---------------------------------------------------------------------------

  /** `s.replace(c, "")`: s with every occurrence of c deleted, the rest in order. */
  function Remove(s: string, c: char): (r: string)
    ensures |r| <= |s|
    ensures c !in r
  {
    if s == [] then []
    else (if s[0] == c then [] else [s[0]]) + Remove(s[1..], c)
  }

  /** Text without c is left as it is. */
  lemma {:induction false} RemoveAbsent(s: string, c: char)
    requires c !in s
    ensures Remove(s, c) == s
  {
    if s != [] {
      RemoveAbsent(s[1..], c);
    }
  }

  /** Removing c keeps every other character, and adds none. */
  lemma {:induction false} RemoveMembers(s: string, c: char, d: char)
    ensures d in Remove(s, c) <==> d in s && d != c
  {
    if s != [] {
      RemoveMembers(s[1..], c, d);
      assert s == [s[0]] + s[1..];
    }
  }

  /** Removing from a concatenation removes from each part. */
  lemma {:induction false} RemoveConcat(a: string, b: string, c: char)
    ensures Remove(a + b, c) == Remove(a, c) + Remove(b, c)
  {
    if a == [] {
      assert a + b == b;
    } else {
      var head := if a[0] == c then [] else [a[0]];
      assert (a + b)[0] == a[0] && (a + b)[1..] == a[1..] + b;
      assert Remove(a + b, c) == head + Remove(a[1..] + b, c);
      RemoveConcat(a[1..], b, c);
      assert Remove(a, c) == head + Remove(a[1..], c);
    }
  }

  /** Every character other than c keeps its number of occurrences. */
  lemma {:induction false} RemoveCounts(s: string, c: char)
    ensures multiset(Remove(s, c)) == multiset(s)[c := 0]
  {
    if s != [] {
      RemoveCounts(s[1..], c);
      assert s == [s[0]] + s[1..];
    }
  }

  // ---------------------------------------------------------------------------
  // split(c)[-1] and partition(c)
  // ---------------------------------------------------------------------------

  /**
   * `s.split(c)[-1]`: the text after the last c, or the whole of s when c does
   * not occur. The result is the longest suffix of s free of c.
   */
  function AfterLast(s: string, c: char): (r: string)
    ensures c !in r
    ensures |r| <= |s|
  {
    if s == [] then []
    else if s[|s| - 1] == c then []
    else
      assert s == s[..|s| - 1] + [s[|s| - 1]];
      AfterLast(s[..|s| - 1], c) + [s[|s| - 1]]
  }

  /** What follows the last c is a suffix of s, and a c precedes it unless it is all of s. */
  lemma {:induction false} AfterLastSuffix(s: string, c: char)
    ensures AfterLast(s, c) == s[|s| - |AfterLast(s, c)|..]
    ensures |AfterLast(s, c)| < |s| ==> s[|s| - |AfterLast(s, c)| - 1] == c
  {
    if s != [] && s[|s| - 1] != c {
      AfterLastSuffix(s[..|s| - 1], c);
    }
  }

  /** Without c, everything is after the last c. */
  lemma {:induction false} AfterLastAbsent(s: string, c: char)
    requires c !in s
    ensures AfterLast(s, c) == s
  {
    if s != [] {
      AfterLastAbsent(s[..|s| - 1], c);
    }
  }

  /** `s.partition(c)[0]`: the text before the first c, or the whole of s. */
  function BeforeFirst(s: string, c: char): (r: string)
    ensures c !in r
    ensures |r| <= |s|
  {
    if s == [] then []
    else if s[0] == c then []
    else [s[0]] + BeforeFirst(s[1..], c)
  }

  /** What precedes the first c is a prefix of s, and a c follows it unless it is all of s. */
  lemma {:induction false} BeforeFirstPrefix(s: string, c: char)
    ensures BeforeFirst(s, c) == s[..|BeforeFirst(s, c)|]
    ensures |BeforeFirst(s, c)| < |s| ==> s[|BeforeFirst(s, c)|] == c
  {
    if s != [] && s[0] != c {
      BeforeFirstPrefix(s[1..], c);
    }
  }

  /** `s.partition(c)[2]`: the text after the first c, or "" when c does not occur. */
  function AfterFirst(s: string, c: char): (r: string)
    ensures c in s ==> |r| < |s|
    ensures c !in s ==> r == []
  {
    if s == [] then []
    else if s[0] == c then s[1..]
    else
      assert c in s ==> c in s[1..];
      AfterFirst(s[1..], c)
  }

  /** When c occurs, s is what precedes its first occurrence, c, and what follows. */
  lemma {:induction false} PartitionSplits(s: string, c: char)
    requires c in s
    ensures s == BeforeFirst(s, c) + [c] + AfterFirst(s, c)
  {
    if s[0] != c {
      assert c in s[1..];
      PartitionSplits(s[1..], c);
      assert s == [s[0]] + s[1..];
    }
  }

  /** Partitioning at the first c finds exactly the c that follows a c-free prefix. */
  lemma {:induction false} PartitionAt(a: string, c: char, b: string)
    requires c !in a
    ensures BeforeFirst(a + [c] + b, c) == a
    ensures AfterFirst(a + [c] + b, c) == b
  {
    if a != [] {
      assert (a + [c] + b)[1..] == a[1..] + [c] + b;
      PartitionAt(a[1..], c, b);
    }
  }

  // ---------------------------------------------------------------------------
  // join, split and repetition
  // ---------------------------------------------------------------------------

  /** `"".join(parts)` */
  function Concat(parts: seq<string>): (r: string)
    ensures |parts| == 1 ==> r == parts[0]
    ensures forall j :: 0 <= j < |parts| ==> |parts[j]| <= |r|
  {
    if parts == [] then [] else parts[0] + Concat(parts[1..])
  }

  /** `list(reversed(xs))` */
  function Reverse<T>(xs: seq<T>): (r: seq<T>)
    ensures |r| == |xs|
    ensures forall i :: 0 <= i < |xs| ==> r[i] == xs[|xs| - 1 - i]
  {
    if xs == [] then [] else Reverse(xs[1..]) + [xs[0]]
  }

  /** `sep.join(parts)` for a one-character separator. */
  function Join(parts: seq<string>, sep: char): (r: string)
    ensures |parts| == 1 ==> r == parts[0]
    ensures forall j :: 0 <= j < |parts| ==> |parts[j]| <= |r|
    ensures |parts| >= 2 ==> sep in r
  {
    if parts == [] then []
    else if |parts| == 1 then parts[0]
    else parts[0] + [sep] + Join(parts[1..], sep)
  }

  /** `s.split(sep)`: the pieces between consecutive separators; never empty. */
  function Split(s: string, sep: char): (r: seq<string>)
    ensures |r| >= 1
    ensures forall i :: 0 <= i < |r| ==> sep !in r[i]
    decreases |s|
  {
    if sep !in s then [s]
    else [BeforeFirst(s, sep)] + Split(AfterFirst(s, sep), sep)
  }

  /** Splitting a join at its separator gives the pieces back, when no piece holds the separator. */
  lemma {:induction false} SplitJoin(parts: seq<string>, sep: char)
    requires |parts| >= 1
    requires forall i :: 0 <= i < |parts| ==> sep !in parts[i]
    ensures Split(Join(parts, sep), sep) == parts
  {
    if |parts| > 1 {
      var rest := Join(parts[1..], sep);
      PartitionAt(parts[0], sep, rest);
      assert sep in parts[0] + [sep] + rest;
      SplitJoin(parts[1..], sep);
    }
  }

  /** Python's `s * n`; a count of zero or below gives "". */
  function Repeat(s: string, n: int): (r: string)
    ensures |r| == if n <= 0 then 0 else n * |s|
    decreases n
  {
    if n <= 0 then [] else s + Repeat(s, n - 1)
  }

  // ---------------------------------------------------------------------------
  // str(int) and its reader
  // ---------------------------------------------------------------------------

  predicate IsDigit(ch: char)
  {
    '0' <= ch <= '9'
  }

  predicate AllDigits(s: string)
  {
    forall i :: 0 <= i < |s| ==> IsDigit(s[i])
  }

  function DigitChar(d: nat): (ch: char)
    requires d < 10
    ensures IsDigit(ch)
  {
    (48 + d) as char
  }

  function DigitValue(ch: char): (d: nat)
    requires IsDigit(ch)
    ensures d < 10
  {
    ch as int - 48
  }

  /** `str(n)` for n >= 0: decimal digits, most significant first, no leading zero. */
  function NatToDecimal(n: nat): (r: string)
    ensures |r| >= 1 && AllDigits(r)
    ensures r[0] == '0' ==> n == 0
  {
    if n < 10 then [DigitChar(n)] else NatToDecimal(n / 10) + [DigitChar(n % 10)]
  }

  /** `int(s)` for a non-empty run of decimal digits. */
  function ParseNat(s: string): nat
    requires AllDigits(s)
  {
    if s == [] then 0 else 10 * ParseNat(s[..|s| - 1]) + DigitValue(s[|s| - 1])
  }

  lemma {:induction false} ParseNatToDecimal(n: nat)
    ensures ParseNat(NatToDecimal(n)) == n
  {
    var r := NatToDecimal(n);
    if n >= 10 {
      ParseNatToDecimal(n / 10);
      assert r[..|r| - 1] == NatToDecimal(n / 10);
    }
  }

  /** `str(i)` for any integer: a minus sign before the digits of a negative number. */
  function IntToDecimal(i: int): (r: string)
    ensures |r| >= 1
    ensures i >= 0 ==> AllDigits(r)
    ensures i < 0 ==> r[0] == '-' && AllDigits(r[1..])
  {
    if i < 0 then "-" + NatToDecimal(-i) else NatToDecimal(i)
  }

  /** `int(s)` when s is what `str` prints for an integer, None for any other text. */
  function ParseInt(s: string): Option<int>
  {
    if |s| >= 2 && s[0] == '-' && AllDigits(s[1..]) then Some(0 - ParseNat(s[1..]) as int)
    else if |s| >= 1 && AllDigits(s) then Some(ParseNat(s))
    else None
  }

  lemma ParseIntToDecimal(i: int)
    ensures ParseInt(IntToDecimal(i)) == Some(i)
  {
    var r := IntToDecimal(i);
    if i < 0 {
      var d := NatToDecimal(-i);
      assert r == "-" + d && r[1..] == d;
      ParseNatToDecimal(-i);
    } else {
      assert IsDigit(r[0]);
      ParseNatToDecimal(i);
    }
  }

  // ---------------------------------------------------------------------------
  // sep.join(map(str, xs)) and its reader
  // ---------------------------------------------------------------------------

  /** A separator that `str` never prints inside an integer. */
  predicate IsSeparator(sep: char)
  {
    !IsDigit(sep) && sep != '-'
  }

  function Decimals(xs: seq<int>): (r: seq<string>)
    ensures |r| == |xs|
    ensures forall i :: 0 <= i < |xs| ==> r[i] == IntToDecimal(xs[i])
  {
    if xs == [] then [] else [IntToDecimal(xs[0])] + Decimals(xs[1..])
  }

  /** `sep.join(map(str, xs))` */
  function JoinInts(xs: seq<int>, sep: char): (r: string)
    ensures r == [] <==> xs == []
  {
    Join(Decimals(xs), sep)
  }

  /** Reads every piece as an integer; None when some piece is not one. */
  function ParseAll(parts: seq<string>): Option<seq<int>>
  {
    if parts == [] then Some([])
    else match (ParseInt(parts[0]), ParseAll(parts[1..]))
      case (Some(x), Some(rest)) => Some([x] + rest)
      case _ => None
  }

  /** Reads back a separator-joined list of integers; the empty text is the empty list. */
  function ParseInts(s: string, sep: char): Option<seq<int>>
  {
    if s == [] then Some([]) else ParseAll(Split(s, sep))
  }

  lemma {:induction false} ParseAllDecimals(xs: seq<int>)
    ensures ParseAll(Decimals(xs)) == Some(xs)
  {
    if xs != [] {
      ParseIntToDecimal(xs[0]);
      ParseAllDecimals(xs[1..]);
      assert Decimals(xs)[1..] == Decimals(xs[1..]);
      assert xs == [xs[0]] + xs[1..];
    }
  }

  /** `str` of an integer holds no separator. */
  lemma DecimalHasNoSeparator(i: int, sep: char)
    requires IsSeparator(sep)
    ensures sep !in IntToDecimal(i)
  {
    var r := IntToDecimal(i);
    forall j | 0 <= j < |r|
      ensures r[j] != sep
    {
      if i < 0 && j > 0 {
        assert r[j] == r[1..][j - 1];
      }
    }
  }

  /** What `sep.join(map(str, xs))` prints reads back as xs. */
  lemma JoinIntsRoundTrip(xs: seq<int>, sep: char)
    requires IsSeparator(sep)
    ensures ParseInts(JoinInts(xs, sep), sep) == Some(xs)
  {
    var parts := Decimals(xs);
    ParseAllDecimals(xs);
    if xs != [] {
      forall i | 0 <= i < |parts|
        ensures sep !in parts[i]
      {
        DecimalHasNoSeparator(xs[i], sep);
      }
      SplitJoin(parts, sep);
      assert Join(parts, sep)[..|parts[0]|] == parts[0];
    }
  }
}
