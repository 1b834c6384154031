/** Fixed-width decimal and hexadecimal numerals, and the text form of UUIDs (section 4 of RFC 9562). */
module Digits {
  import opened Events

  function DigitChar(d: nat): char
    requires d < 16
  {
    if d < 10 then '0' + d as char else 'a' + (d - 10) as char
  }

  /** Hexadecimal digits are read in either case. */
  function DigitValue(c: char): Option<nat> {
    if '0' <= c <= '9' then Some((c - '0') as nat)
    else if 'a' <= c <= 'f' then Some((c - 'a') as nat + 10)
    else if 'A' <= c <= 'F' then Some((c - 'A') as nat + 10)
    else None
  }

  lemma DigitRoundTrip(d: nat)
    requires d < 16
    ensures DigitValue(DigitChar(d)) == Some(d)
    ensures d < 10 ==> '0' <= DigitChar(d) <= '9'
    ensures IsPlain(DigitChar(d))
  {
  }

  /** A character of a numeral: no separator of the formats around it, and a single octet. */
  predicate IsPlain(c: char) {
    '0' <= c <= '9' || 'a' <= c <= 'f'
  }

  datatype Radix = Decimal | Hex
  {
    function Times(n: nat): nat { if Decimal? then 10 * n else 16 * n }

    function Quotient(n: nat): nat { if Decimal? then n / 10 else n / 16 }

    function Remainder(n: nat): (r: nat)
      ensures r < 16 && (Decimal? ==> r < 10)
    {
      if Decimal? then n % 10 else n % 16
    }
  }

  /** The numeral of n with exactly width digits, most significant first. */
  function Numeral(n: nat, radix: Radix, width: nat): (s: string)
    ensures |s| == width
  {
    if width == 0 then "" else Numeral(radix.Quotient(n), radix, width - 1) + [DigitChar(radix.Remainder(n))]
  }

  /** The value of a numeral, None when some character is no digit of the radix. */
  function NumeralValue(s: string, radix: Radix): Option<nat> {
    if s == "" then Some(0)
    else
      match NumeralValue(s[..|s| - 1], radix)
      case None => None
      case Some(high) =>
        match DigitValue(s[|s| - 1])
        case None => None
        case Some(d) => if d < radix.Times(1) then Some(radix.Times(high) + d) else None
  }

  /** n needs at most width digits. */
  predicate Fits(n: nat, radix: Radix, width: nat) {
    if width == 0 then n == 0 else Fits(radix.Quotient(n), radix, width - 1)
  }

  lemma AppendDigit(s: string, c: char, radix: Radix, high: nat, d: nat)
    requires NumeralValue(s, radix) == Some(high) && DigitValue(c) == Some(d) && d < radix.Times(1)
    ensures NumeralValue(s + [c], radix) == Some(radix.Times(high) + d)
  {
    assert (s + [c])[..|s + [c]| - 1] == s;
  }

  /** Printing and reading agree when the numeral has room for the number. */
  lemma {:induction false} NumeralRoundTrip(n: nat, radix: Radix, width: nat)
    requires Fits(n, radix, width)
    ensures NumeralValue(Numeral(n, radix, width), radix) == Some(n)
  {
    if width > 0 {
      var q, r := radix.Quotient(n), radix.Remainder(n);
      NumeralRoundTrip(q, radix, width - 1);
      DigitRoundTrip(r);
      AppendDigit(Numeral(q, radix, width - 1), DigitChar(r), radix, q, r);
    }
  }

  lemma {:induction false} NumeralIsPlain(n: nat, radix: Radix, width: nat)
    ensures forall c :: c in Numeral(n, radix, width) ==> IsPlain(c) && (radix.Decimal? ==> '0' <= c <= '9')
  {
    if width > 0 {
      NumeralIsPlain(radix.Quotient(n), radix, width - 1);
      DigitRoundTrip(radix.Remainder(n));
    }
  }

  // ---- UUID text ----

  function Pow16(n: nat): nat {
    if n == 0 then 1 else 16 * Pow16(n - 1)
  }

  lemma {:induction false} FitsHex(n: nat, width: nat)
    requires n < Pow16(width)
    ensures Fits(n, Hex, width)
  {
    if width > 0 {
      FitsHex(n / 16, width - 1);
    }
  }

  lemma {:induction false} HexValueBelow(s: string)
    requires NumeralValue(s, Hex).Some?
    ensures NumeralValue(s, Hex).value < Pow16(|s|)
  {
    if s != "" {
      HexValueBelow(s[..|s| - 1]);
    }
  }

  lemma UuidFits()
    ensures Pow16(32) == UUID_LIMIT
  {
    assert Pow16(8) == 0x1_0000_0000;
    assert Pow16(16) == 0x1_0000_0000_0000_0000;
    assert Pow16(24) == 0x1_0000_0000_0000_0000_0000_0000;
  }

  /** The column of the j-th digit in the 8-4-4-4-12 layout, and back. */
  function Column(j: nat): nat {
    if j < 8 then j else if j < 12 then j + 1 else if j < 16 then j + 2 else if j < 20 then j + 3 else j + 4
  }

  function DigitAt(i: nat): nat {
    if i < 8 then i else if i < 13 then i - 1 else if i < 18 then i - 2 else if i < 23 then i - 3 else i - 4
  }

  predicate HyphenAt(i: nat) { i == 8 || i == 13 || i == 18 || i == 23 }

  function Hyphenate(h: string): (s: string)
    requires |h| == 32
    ensures |s| == 36
  {
    seq(36, i requires 0 <= i < 36 => if HyphenAt(i) then '-' else h[DigitAt(i)])
  }

  predicate Hyphenated(s: string) {
    |s| == 36 && s[8] == '-' && s[13] == '-' && s[18] == '-' && s[23] == '-'
  }

  function WithoutHyphens(s: string): (h: string)
    requires Hyphenated(s)
    ensures |h| == 32
  {
    seq(32, j requires 0 <= j < 32 => s[Column(j)])
  }

  lemma HyphensRoundTrip(h: string)
    requires |h| == 32
    ensures Hyphenated(Hyphenate(h)) && WithoutHyphens(Hyphenate(h)) == h
  {
    forall j: nat | j < 32 ensures WithoutHyphens(Hyphenate(h))[j] == h[j] {
      assert DigitAt(Column(j)) == j && !HyphenAt(Column(j));
    }
  }

  function UuidText(u: Uuid): (s: string)
    ensures |s| == 36
  {
    Hyphenate(Numeral(u, Hex, 32))
  }

  /** 32 hexadecimal digits, in either case. */
  function ParseHex(h: string): Option<Uuid>
    requires |h| == 32
  {
    match NumeralValue(h, Hex)
    case None => None
    case Some(n) => HexValueBelow(h); UuidFits(); Some(n)
  }

  function ParseHyphenated(s: string): Option<Uuid>
    requires |s| == 36
  {
    if Hyphenated(s) then ParseHex(WithoutHyphens(s)) else None
  }

  function Lower(c: char): char {
    if 'A' <= c <= 'Z' then c - 'A' + 'a' else c
  }

  predicate SameButForCase(s: string, t: string) {
    |s| == |t| && forall i :: 0 <= i < |s| ==> Lower(s[i]) == Lower(t[i])
  }

  const URN_PREFIX := "urn:uuid:"

  /** The four spellings, told apart by their length: hyphenated, with the URN prefix, wrapped in two
      characters that are not looked at, and the bare digits. Digits are read in either case. */
  function ParseUuid(s: string): Option<Uuid> {
    if |s| == 36 then ParseHyphenated(s)
    else if |s| == 45 then if SameButForCase(s[..9], URN_PREFIX) then ParseHyphenated(s[9..]) else None
    else if |s| == 38 then ParseHyphenated(s[1..37])
    else if |s| == 32 then ParseHex(s)
    else None
  }

  lemma UuidRoundTrip(u: Uuid)
    ensures ParseUuid(UuidText(u)) == Some(u)
  {
    HyphensRoundTrip(Numeral(u, Hex, 32));
    UuidFits();
    FitsHex(u, 32);
    NumeralRoundTrip(u, Hex, 32);
  }

  /** However a UUID is wrapped, it reads as the same UUID: the spellings name one event. */
  lemma SpellingsAgree(u: Uuid, open: char, close: char, prefix: string)
    requires SameButForCase(prefix, URN_PREFIX)
    ensures ParseUuid([open] + UuidText(u) + [close]) == Some(u)
    ensures ParseUuid(prefix + UuidText(u)) == Some(u)
    ensures ParseUuid(Numeral(u, Hex, 32)) == Some(u)
  {
    UuidRoundTrip(u);
    var text := UuidText(u);
    assert ([open] + text + [close])[1..37] == text;
    assert (prefix + text)[..9] == prefix && (prefix + text)[9..] == text;
    UuidFits();
    FitsHex(u, 32);
    NumeralRoundTrip(u, Hex, 32);
  }

  /** The texts that name u, said without reading them: the printed forms in any mix of cases, and the
      hyphenated one between two arbitrary characters. */
  predicate Spells(s: string, u: Uuid) {
    || SameButForCase(s, Numeral(u, Hex, 32))
    || SameButForCase(s, UuidText(u))
    || SameButForCase(s, URN_PREFIX + UuidText(u))
    || (|s| == 38 && SameButForCase(s[1..37], UuidText(u)))
  }

  lemma DigitOfChar(c: char, d: nat)
    requires d < 16
    ensures DigitValue(c) == Some(d) <==> Lower(c) == Lower(DigitChar(d))
  {
  }

  lemma LastHexDigit(front: string, c: char, q: nat, d: nat)
    requires d < 16
    ensures NumeralValue(front + [c], Hex) == Some(16 * q + d) <==>
            NumeralValue(front, Hex) == Some(q) && DigitValue(c) == Some(d)
  {
    var s := front + [c];
    assert s[..|s| - 1] == front && s[|s| - 1] == c;
  }

  lemma SplitByCase(s: string, a: string, b: string)
    requires |s| == |a| + |b|
    ensures SameButForCase(s, a + b) <==> SameButForCase(s[..|a|], a) && SameButForCase(s[|a|..], b)
  {
    if SameButForCase(s, a + b) {
      forall i | 0 <= i < |b| ensures Lower(s[|a|..][i]) == Lower(b[i]) {
        assert Lower(s[|a| + i]) == Lower((a + b)[|a| + i]);
      }
      forall i | 0 <= i < |a| ensures Lower(s[..|a|][i]) == Lower(a[i]) {
        assert Lower(s[i]) == Lower((a + b)[i]);
      }
    }
    if SameButForCase(s[..|a|], a) && SameButForCase(s[|a|..], b) {
      forall i | 0 <= i < |s| ensures Lower(s[i]) == Lower((a + b)[i]) {
        if i < |a| {
          assert s[..|a|][i] == s[i];
        } else {
          assert s[|a|..][i - |a|] == s[i];
        }
      }
    }
  }

  /** A numeral has the value n exactly when it is the numeral of n in some mix of cases. */
  lemma {:induction false} HexSpelling(h: string, n: nat)
    requires n < Pow16(|h|)
    ensures NumeralValue(h, Hex) == Some(n) <==> SameButForCase(h, Numeral(n, Hex, |h|))
  {
    if h != "" {
      var front, last, q, d := h[..|h| - 1], h[|h| - 1], n / 16, n % 16;
      HexSpelling(front, q);
      assert front + [last] == h && n == 16 * q + d;
      LastHexDigit(front, last, q, d);
      DigitOfChar(last, d);
      SplitByCase(h, Numeral(q, Hex, |front|), [DigitChar(d)]);
      assert h[|front|..] == [last];
    }
  }

  lemma ParseHexSpelling(h: string, u: Uuid)
    requires |h| == 32
    ensures ParseHex(h) == Some(u) <==> SameButForCase(h, Numeral(u, Hex, 32))
  {
    UuidFits();
    HexSpelling(h, u);
  }

  lemma HyphenateByCase(s: string, h: string)
    requires |s| == 36 && |h| == 32 && forall c :: c in h ==> IsPlain(c)
    ensures SameButForCase(s, Hyphenate(h)) <==> Hyphenated(s) && SameButForCase(WithoutHyphens(s), h)
  {
    var t := Hyphenate(h);
    if SameButForCase(s, t) {
      assert Lower(s[8]) == Lower(t[8]) && Lower(s[13]) == Lower(t[13]);
      assert Lower(s[18]) == Lower(t[18]) && Lower(s[23]) == Lower(t[23]);
      forall j: nat | j < 32 ensures Lower(WithoutHyphens(s)[j]) == Lower(h[j]) {
        assert DigitAt(Column(j)) == j && !HyphenAt(Column(j));
        assert Lower(s[Column(j)]) == Lower(t[Column(j)]);
      }
    }
    if Hyphenated(s) && SameButForCase(WithoutHyphens(s), h) {
      forall i: nat | i < 36 ensures Lower(s[i]) == Lower(t[i]) {
        if !HyphenAt(i) {
          assert Column(DigitAt(i)) == i;
          assert Lower(WithoutHyphens(s)[DigitAt(i)]) == Lower(h[DigitAt(i)]);
        }
      }
    }
  }

  lemma ParseHyphenatedSpelling(s: string, u: Uuid)
    requires |s| == 36
    ensures ParseHyphenated(s) == Some(u) <==> SameButForCase(s, UuidText(u))
  {
    NumeralIsPlain(u, Hex, 32);
    HyphenateByCase(s, Numeral(u, Hex, 32));
    if Hyphenated(s) {
      ParseHexSpelling(WithoutHyphens(s), u);
    }
  }

  /** The parser reads a text as u exactly when the text spells u; so a text spells at most one UUID. */
  lemma ParsesExactlySpellings(s: string, u: Uuid)
    ensures ParseUuid(s) == Some(u) <==> Spells(s, u)
  {
    if |s| == 32 {
      ParseHexSpelling(s, u);
    } else if |s| == 36 {
      ParseHyphenatedSpelling(s, u);
    } else if |s| == 38 {
      ParseHyphenatedSpelling(s[1..37], u);
    } else if |s| == 45 {
      SplitByCase(s, URN_PREFIX, UuidText(u));
      ParseHyphenatedSpelling(s[9..], u);
    }
  }

  lemma UuidTextIsPlain(u: Uuid)
    ensures forall c :: c in UuidText(u) ==> IsPlain(c) || c == '-'
  {
    NumeralIsPlain(u, Hex, 32);
  }
}
