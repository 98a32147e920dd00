/**
 * Verilog sized binary literals (`<width>'b<digits>`, section 3.5.1 of IEEE
 * 1364-2005) as the two fuzzers write them for the INIT vector of a LUT chain:
 * the width is the decimal count of the digits, there are no underscores, and
 * LUT 0 of the chain occupies the least significant (rightmost) `2^K` digits.
 */
module InitLiteral {
  import opened Wrappers
  import opened Text

  /** Python's `1 << k` for k >= 0: the number of INIT bits of a K-input LUT. */
  function Pow2(k: nat): (r: nat)
    ensures r >= 1
  {
    if k == 0 then 1 else 2 * Pow2(k - 1)
  }

  /** Every character is a binary digit. */
  predicate IsBits(s: string)
  {
    forall i :: 0 <= i < |s| ==> s[i] == '0' || s[i] == '1'
  }

  /** `f"{len(bits)}'b{bits}"`: the literal both fuzzers hand to the HDL template. */
  function Literal(bits: string): (r: string)
    ensures |r| == |NatToDecimal(|bits|)| + 2 + |bits|
    ensures r[|NatToDecimal(|bits|)|] == '\'' && r[|NatToDecimal(|bits|)| + 1] == 'b'
  {
    NatToDecimal(|bits|) + "'b" + bits
  }

  /**
   * Reads a sized binary literal back: the declared width (the decimal text
   * before the first quote) and the digits after `'b`. None for any text not of
   * that shape.
   */
  function Decode(s: string): Option<(nat, string)>
  {
    var width := BeforeFirst(s, '\'');
    var rest := AfterFirst(s, '\'');
    if '\'' in s && width != [] && AllDigits(width) && rest != [] && rest[0] == 'b'
    then Some((ParseNat(width), rest[1..]))
    else None
  }

  /** A literal built by the fuzzers declares exactly as many bits as it carries. */
  lemma DecodeLiteral(bits: string)
    ensures Decode(Literal(bits)) == Some((|bits|, bits))
  {
    var w := NatToDecimal(|bits|);
    assert '\'' !in w by {
      forall i | 0 <= i < |w| ensures w[i] != '\'' {
        assert IsDigit(w[i]);
      }
    }
    assert Literal(bits) == w + ['\''] + (['b'] + bits);
    PartitionAt(w, '\'', ['b'] + bits);
    ParseNatToDecimal(|bits|);
  }

  /**
   * The INIT bits of LUT i in a flat chain body of `lutBits`-wide slices,
   * counted from the right: LUT 0 is the least significant (last) slice, LUT
   * i + 1 is LUT i of what precedes it. Empty when the body has no slice i.
   */
  function Lut(body: string, i: nat, lutBits: nat): (r: string)
    ensures r == [] || |r| == lutBits
    decreases i
  {
    if |body| < lutBits then []
    else if i == 0 then body[|body| - lutBits..]
    else Lut(body[..|body| - lutBits], i - 1, lutBits)
  }

  /** In a body of m slices, slice i from the right spans (m-1-i)*w up to (m-i)*w. */
  lemma {:induction false} LutIsSlice(body: string, m: nat, i: nat, lutBits: nat)
    requires |body| == m * lutBits && i < m
    ensures (m - 1 - i) * lutBits + lutBits == (m - i) * lutBits <= |body|
    ensures Lut(body, i, lutBits) == body[(m - 1 - i) * lutBits .. (m - i) * lutBits]
  {
    MulSucc(m - 1 - i, lutBits);
    MulSucc(m - 1, lutBits);
    MulMono(m - i, m, lutBits);
    if i > 0 {
      var front := body[..|body| - lutBits];
      LutIsSlice(front, m - 1, i - 1, lutBits);
      assert front[(m - 1 - i) * lutBits .. (m - i) * lutBits] == body[(m - 1 - i) * lutBits .. (m - i) * lutBits];
    }
  }

  // ---------------------------------------------------------------------------
  // Layout of a concatenation of equal-width slices
  // ---------------------------------------------------------------------------

  predicate AllWidth(parts: seq<string>, lutBits: nat)
  {
    forall j :: 0 <= j < |parts| ==> |parts[j]| == lutBits
  }

  lemma {:induction false} ConcatLength(parts: seq<string>, lutBits: nat)
    requires AllWidth(parts, lutBits)
    ensures |Concat(parts)| == |parts| * lutBits
  {
    if parts != [] {
      ConcatLength(parts[1..], lutBits);
      MulSucc(|parts| - 1, lutBits);
    }
  }

  lemma MulSucc(a: nat, b: nat)
    ensures (a + 1) * b == a * b + b
  {
  }

  lemma MulMono(a: nat, b: nat, c: nat)
    requires a <= b
    ensures a * c <= b * c
  {
  }

  /** Joining a list and one more piece appends the piece. */
  lemma {:induction false} ConcatSnoc(parts: seq<string>, last: string)
    ensures Concat(parts + [last]) == Concat(parts) + last
  {
    if parts == [] {
      assert [] + [last] == [last];
    } else {
      assert (parts + [last])[1..] == parts[1..] + [last];
      ConcatSnoc(parts[1..], last);
    }
  }

  /**
   * `"".join(reversed(slots))` for slots of one width puts slot i in LUT
   * position i: the first slot becomes the least significant slice.
   */
  lemma {:induction false} LutOfReversed(slots: seq<string>, lutBits: nat, i: nat)
    requires AllWidth(slots, lutBits) && i < |slots|
    ensures Lut(Concat(Reverse(slots)), i, lutBits) == slots[i]
  {
    var front := Concat(Reverse(slots[1..]));
    ConcatSnoc(Reverse(slots[1..]), slots[0]);
    var body := front + slots[0];
    assert body[..|body| - lutBits] == front;
    assert body[|body| - lutBits..] == slots[0];
    if i > 0 {
      LutOfReversed(slots[1..], lutBits, i - 1);
    }
  }

  /** `s * n` is `s * (n - 1)` followed by s. */
  lemma {:induction false} RepeatSnoc(s: string, n: nat)
    requires n >= 1
    ensures Repeat(s, n) == Repeat(s, n - 1) + s
  {
    if n > 1 {
      RepeatSnoc(s, n - 1);
    }
  }

  /** Every LUT of `s * n` holds s. */
  lemma {:induction false} LutOfRepeat(s: string, n: nat, i: nat)
    requires i < n
    ensures Lut(Repeat(s, n), i, |s|) == s
  {
    RepeatSnoc(s, n);
    var body := Repeat(s, n - 1) + s;
    assert body[..|body| - |s|] == Repeat(s, n - 1);
    assert body[|body| - |s|..] == s;
    if i > 0 {
      LutOfRepeat(s, n - 1, i - 1);
    }
  }
}
