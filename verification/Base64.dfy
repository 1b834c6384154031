/** The base64 encoding of section 4 of RFC 4648, with padding. Octets are characters below 256. */
module Base64 {
  import opened Events

  predicate Octets(s: string) {
    forall c :: c in s ==> c < 256 as char
  }

  function Letter(v: nat): char
    requires v < 64
  {
    if v < 26 then 'A' + v as char
    else if v < 52 then 'a' + (v - 26) as char
    else if v < 62 then '0' + (v - 52) as char
    else if v == 62 then '+'
    else '/'
  }

  function LetterValue(c: char): (v: Option<nat>)
    ensures v.Some? ==> v.value < 64
  {
    if 'A' <= c <= 'Z' then Some((c - 'A') as nat)
    else if 'a' <= c <= 'z' then Some((c - 'a') as nat + 26)
    else if '0' <= c <= '9' then Some((c - '0') as nat + 52)
    else if c == '+' then Some(62)
    else if c == '/' then Some(63)
    else None
  }

  lemma LetterRoundTrip(v: nat)
    requires v < 64
    ensures LetterValue(Letter(v)) == Some(v) && Letter(v) !in {'=', '\r', '\n'}
  {
  }

  function Group1(x: char): string
    requires x < 256 as char
  {
    var a := x as nat;
    [Letter(a / 4), Letter(a % 4 * 16)] + "=="
  }

  function Group2(x: char, y: char): string
    requires x < 256 as char && y < 256 as char
  {
    var a, b := x as nat, y as nat;
    [Letter(a / 4), Letter(a % 4 * 16 + b / 16), Letter(b % 16 * 4)] + "="
  }

  function Group3(x: char, y: char, z: char): string
    requires x < 256 as char && y < 256 as char && z < 256 as char
  {
    var a, b, c := x as nat, y as nat, z as nat;
    [Letter(a / 4), Letter(a % 4 * 16 + b / 16), Letter(b % 16 * 4 + c / 64), Letter(c % 64)]
  }

  function Encode(s: string): string
    requires Octets(s)
  {
    assert forall i :: 0 <= i < |s| ==> s[i] in s;
    assert |s| > 3 ==> forall x :: x in s[3..] ==> x in s;
    if s == "" then ""
    else if |s| == 1 then Group1(s[0])
    else if |s| == 2 then Group2(s[0], s[1])
    else Group3(s[0], s[1], s[2]) + Encode(s[3..])
  }

  /** Line breaks inside the input are skipped. */
  function WithoutBreaks(s: string): (r: string)
    ensures forall c :: c in r ==> c in s && c != '\r' && c != '\n'
  {
    if s == "" then ""
    else if s[0] == '\r' || s[0] == '\n' then WithoutBreaks(s[1..])
    else [s[0]] + WithoutBreaks(s[1..])
  }

  function Octet(v: nat): char
    requires v < 256
  {
    v as char
  }

  /** Groups of four letters; padding only ends the text. */
  function DecodeGroups(s: string): Option<string> {
    if s == "" then Some("")
    else if |s| < 4 then None
    else
      match (LetterValue(s[0]), LetterValue(s[1]))
      case (Some(p), Some(q)) =>
        var first := Octet(p * 4 + q / 16);
        if s[2] == '=' then if s[3..] == "=" then Some([first]) else None
        else
          (match LetterValue(s[2])
           case None => None
           case Some(r) =>
             var second := Octet(q % 16 * 16 + r / 4);
             if s[3] == '=' then if |s| == 4 then Some([first, second]) else None
             else
               match (LetterValue(s[3]), DecodeGroups(s[4..]))
               case (Some(t), Some(rest)) => Some([first, second, Octet(r % 4 * 64 + t)] + rest)
               case _ => None)
      case _ => None
  }

  function Decode(s: string): Option<string> {
    DecodeGroups(WithoutBreaks(s))
  }

  lemma {:induction false} EncodedHasNoBreak(s: string)
    requires Octets(s)
    ensures '\r' !in Encode(s) && '\n' !in Encode(s)
    decreases |s|
  {
    forall v: nat | v < 64 ensures Letter(v) != '\r' && Letter(v) != '\n' { LetterRoundTrip(v); }
    if |s| >= 3 {
      assert forall x :: x in s[3..] ==> x in s;
      EncodedHasNoBreak(s[3..]);
    }
  }

  lemma {:induction false} NothingToSkip(s: string)
    requires '\r' !in s && '\n' !in s
    ensures WithoutBreaks(s) == s
  {
    if s != "" {
      NothingToSkip(s[1..]);
      assert s == [s[0]] + s[1..];
    }
  }

  /** The six-bit pieces of three octets, and the octets from the pieces. */
  lemma Pieces(a: nat, b: nat, c: nat)
    requires a < 256 && b < 256 && c < 256
    ensures var q, r := a % 4 * 16 + b / 16, b % 16 * 4 + c / 64;
            a / 4 < 64 && q < 64 && r < 64 &&
            a / 4 * 4 + q / 16 == a && q % 16 * 16 + r / 4 == b && r % 4 * 64 + c % 64 == c
  {
    var q, r := a % 4 * 16 + b / 16, b % 16 * 4 + c / 64;
    assert q / 16 == a % 4 && q % 16 == b / 16;
    assert r / 4 == b % 16 && r % 4 == c / 64;
  }

  lemma GroupLetters(a: nat, b: nat, c: nat)
    requires a < 256 && b < 256 && c < 256
    ensures var q, r := a % 4 * 16 + b / 16, b % 16 * 4 + c / 64;
            a / 4 < 64 && q < 64 && r < 64 &&
            LetterValue(Letter(a / 4)) == Some(a / 4) && LetterValue(Letter(q)) == Some(q) &&
            LetterValue(Letter(r)) == Some(r) && LetterValue(Letter(c % 64)) == Some(c % 64) &&
            Letter(r) != '=' && Letter(c % 64) != '='
  {
    Pieces(a, b, c);
    LetterRoundTrip(a / 4);
    LetterRoundTrip(a % 4 * 16 + b / 16);
    LetterRoundTrip(b % 16 * 4 + c / 64);
    LetterRoundTrip(c % 64);
  }

  lemma OneOctet(x: char)
    requires x < 256 as char
    ensures DecodeGroups(Group1(x)) == Some([x])
  {
    Pieces(x as nat, 0, 0);
    GroupLetters(x as nat, 0, 0);
    assert Group1(x)[3..] == "=";
  }

  lemma DecodeThree(s: string, p: nat, q: nat, r: nat)
    requires |s| == 4 && p < 64 && q < 64 && r < 64
    requires LetterValue(s[0]) == Some(p) && LetterValue(s[1]) == Some(q) && LetterValue(s[2]) == Some(r)
    requires s[2] != '=' && s[3] == '='
    ensures DecodeGroups(s) == Some([Octet(p * 4 + q / 16), Octet(q % 16 * 16 + r / 4)])
  {
  }

  lemma TwoOctets(x: char, y: char)
    requires x < 256 as char && y < 256 as char
    ensures DecodeGroups(Group2(x, y)) == Some([x, y])
  {
    var a, b := x as nat, y as nat;
    Pieces(a, b, 0);
    GroupLetters(a, b, 0);
    DecodeThree(Group2(x, y), a / 4, a % 4 * 16 + b / 16, b % 16 * 4);
  }

  /** One full group in front of decodable text. */
  lemma DecodeFour(s: string, p: nat, q: nat, r: nat, t: nat, rest: string)
    requires |s| >= 4 && p < 64 && q < 64 && r < 64 && t < 64
    requires LetterValue(s[0]) == Some(p) && LetterValue(s[1]) == Some(q)
    requires LetterValue(s[2]) == Some(r) && LetterValue(s[3]) == Some(t) && s[2] != '=' && s[3] != '='
    requires DecodeGroups(s[4..]) == Some(rest)
    ensures DecodeGroups(s) ==
            Some([Octet(p * 4 + q / 16), Octet(q % 16 * 16 + r / 4), Octet(r % 4 * 64 + t)] + rest)
  {
  }

  lemma ThreeOctets(x: char, y: char, z: char, more: string, rest: string)
    requires x < 256 as char && y < 256 as char && z < 256 as char && DecodeGroups(more) == Some(rest)
    ensures DecodeGroups(Group3(x, y, z) + more) == Some([x, y, z] + rest)
  {
    var a, b, c := x as nat, y as nat, z as nat;
    var q, r := a % 4 * 16 + b / 16, b % 16 * 4 + c / 64;
    var s := Group3(x, y, z) + more;
    Pieces(a, b, c);
    GroupLetters(a, b, c);
    assert s[4..] == more && s[0] == Letter(a / 4) && s[1] == Letter(q) && s[2] == Letter(r) && s[3] == Letter(c % 64);
    DecodeFour(s, a / 4, q, r, c % 64, rest);
  }

  lemma EncodeLong(s: string, rest: string)
    requires Octets(s) && |s| >= 3 && rest == s[3..] && Octets(rest)
    ensures s[0] < 256 as char && s[1] < 256 as char && s[2] < 256 as char
    ensures Encode(s) == Group3(s[0], s[1], s[2]) + Encode(rest)
  {
    assert s[0] in s && s[1] in s && s[2] in s;
  }

  lemma LongRoundTrip(s: string, rest: string)
    requires Octets(s) && |s| >= 3 && rest == s[3..] && Octets(rest)
    requires DecodeGroups(Encode(rest)) == Some(rest)
    ensures DecodeGroups(Encode(s)) == Some(s)
  {
    EncodeLong(s, rest);
    ThreeOctets(s[0], s[1], s[2], Encode(rest), rest);
    assert s == [s[0], s[1], s[2]] + rest;
  }

  lemma {:induction false} GroupsRoundTrip(s: string)
    requires Octets(s)
    ensures DecodeGroups(Encode(s)) == Some(s)
    decreases |s|
  {
    if s == "" {
    } else if |s| == 1 {
      assert s[0] in s;
      OneOctet(s[0]);
      assert s == [s[0]];
    } else if |s| == 2 {
      assert s[0] in s && s[1] in s;
      TwoOctets(s[0], s[1]);
      assert s == [s[0], s[1]];
    } else {
      assert forall x :: x in s[3..] ==> x in s;
      GroupsRoundTrip(s[3..]);
      LongRoundTrip(s, s[3..]);
    }
  }

  /** Decoding an encoding gives the octets back. */
  lemma RoundTrip(s: string)
    requires Octets(s)
    ensures Decode(Encode(s)) == Some(s)
  {
    EncodedHasNoBreak(s);
    NothingToSkip(Encode(s));
    GroupsRoundTrip(s);
  }

  // ---- What is accepted ----

  /** The character is a letter, or one of at most two signs of padding at the very end. */
  predicate LetterOrPadding(s: string, i: nat)
    requires i < |s|
  {
    || LetterValue(s[i]).Some?
    || (s[i] == '=' && (i == |s| - 1 || (i == |s| - 2 && s[|s| - 1] == '=')))
  }

  predicate WellFormed(s: string) {
    |s| % 4 == 0 && forall i :: 0 <= i < |s| ==> LetterOrPadding(s, i)
  }

  lemma WellFormedTail(s: string)
    requires |s| > 4
    ensures WellFormed(s) <==>
            WellFormed(s[4..]) && LetterValue(s[0]).Some? && LetterValue(s[1]).Some? &&
            LetterValue(s[2]).Some? && LetterValue(s[3]).Some?
  {
    var rest := s[4..];
    if WellFormed(s) {
      assert LetterOrPadding(s, 0) && LetterOrPadding(s, 1) && LetterOrPadding(s, 2) && LetterOrPadding(s, 3);
      forall i | 0 <= i < |rest| ensures LetterOrPadding(rest, i) {
        assert LetterOrPadding(s, i + 4) && rest[i] == s[i + 4];
      }
    }
    if WellFormed(rest) {
      forall i | 4 <= i < |s| ensures LetterOrPadding(s, i) {
        assert LetterOrPadding(rest, i - 4) && rest[i - 4] == s[i];
      }
    }
  }

  lemma OneGroupWellFormed(s: string)
    requires |s| == 4
    ensures WellFormed(s) <==> DecodeGroups(s).Some?
  {
    assert WellFormed(s) <==>
           LetterOrPadding(s, 0) && LetterOrPadding(s, 1) && LetterOrPadding(s, 2) && LetterOrPadding(s, 3);
    assert s[3..] == "=" <==> s[3] == '=';
    assert s[4..] == "";
  }

  /** A text decodes exactly when it is whole groups of letters, the last one possibly padded. */
  lemma {:induction false} DecodesIffWellFormed(s: string)
    ensures DecodeGroups(s).Some? <==> WellFormed(s)
    decreases |s|
  {
    if |s| == 4 {
      OneGroupWellFormed(s);
    } else if |s| > 4 {
      WellFormedTail(s);
      DecodesIffWellFormed(s[4..]);
      assert s[3..] != "=";
    }
  }
}
