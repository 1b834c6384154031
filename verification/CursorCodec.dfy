/** Page cursors as opaque strings (internal/domain/ports/output/pagination.go). */
module CursorCodec {
  import opened Events
  import opened Digits
  import opened CivilTime
  import Base64

  /** The position of the last item seen. A decoded instant may carry any UTC offset, so it may fall
      before year 0. */
  datatype PageCursor = PageCursor(createdAt: int, id: Uuid)

  datatype CursorError = InvalidEncoding | InvalidFormat | InvalidTimestamp | InvalidUuid

  datatype Decoded = Ok(cursor: PageCursor) | Err(error: CursorError)

  function RawCursor(t: Instant, id: Uuid): string {
    FormatTime(t) + "|" + UuidText(id)
  }

  function EncodeCursor(t: Instant, id: Uuid): string {
    RawIsOctets(t, id);
    Base64.Encode(RawCursor(t, id))
  }

  /** Index of the first bar, or the length. */
  function FirstBar(s: string): (n: nat)
    ensures n <= |s| && '|' !in s[..n]
    ensures n < |s| ==> s[n] == '|'
  {
    if s == "" || s[0] == '|' then 0 else 1 + FirstBar(s[1..])
  }

  function DecodeCursor(s: string): Decoded {
    match Base64.Decode(s)
    case None => Err(InvalidEncoding)
    case Some(raw) =>
      var bar := FirstBar(raw);
      if bar == |raw| then Err(InvalidFormat)
      else
        match ParseTime(raw[..bar])
        case None => Err(InvalidTimestamp)
        case Some(t) =>
          match ParseUuid(raw[bar + 1..])
          case None => Err(InvalidUuid)
          case Some(id) => Ok(PageCursor(t, id))
  }

  lemma RawIsOctets(t: Instant, id: Uuid)
    ensures Base64.Octets(RawCursor(t, id))
  {
    FormatIsPlain(t);
    UuidTextIsPlain(id);
  }

  lemma {:induction false} BarBetween(a: string, b: string)
    requires '|' !in a
    ensures FirstBar(a + "|" + b) == |a|
  {
    if a != "" {
      BarBetween(a[1..], b);
      assert (a + "|" + b)[1..] == a[1..] + "|" + b;
    }
  }

  /** The two texts of a decoded cursor: what stands before the first bar, and what follows it. */
  predicate TwoTexts(s: string, a: string, b: string) {
    Base64.Decode(s) == Some(a + "|" + b) && '|' !in a
  }

  /** The two texts decide, the time first. */
  lemma PartsDecide(s: string, a: string, b: string)
    requires TwoTexts(s, a, b)
    ensures DecodeCursor(s) == Err(InvalidTimestamp) <==> ParseTime(a).None?
    ensures DecodeCursor(s) == Err(InvalidUuid) <==> ParseTime(a).Some? && forall u: Uuid :: !Spells(b, u)
    ensures forall c :: DecodeCursor(s) == Ok(c) <==> ParseTime(a) == Some(c.createdAt) && Spells(b, c.id)
  {
    var raw := a + "|" + b;
    BarBetween(a, b);
    assert raw[..|a|] == a && raw[|a| + 1..] == b;
    forall u: Uuid ensures ParseUuid(b) == Some(u) <==> Spells(b, u) {
      ParsesExactlySpellings(b, u);
    }
  }

  lemma HasTwoTexts(s: string)
    requires Base64.Decode(s).Some? && '|' in Base64.Decode(s).value
    ensures exists a, b :: TwoTexts(s, a, b)
  {
    var raw := Base64.Decode(s).value;
    var bar := FirstBar(raw);
    assert raw == raw[..bar] + "|" + raw[bar + 1..];
    assert TwoTexts(s, raw[..bar], raw[bar + 1..]);
  }

  /** Which strings are positions: exactly those whose octets are the text of the time, a bar, and a spelling
      of the id. Of the others, each gets the error of the first part that is wrong. */
  lemma CursorAccepted(s: string)
    ensures forall c :: DecodeCursor(s) == Ok(c) <==>
              exists a, b :: TwoTexts(s, a, b) && ParseTime(a) == Some(c.createdAt) && Spells(b, c.id)
    ensures DecodeCursor(s) == Err(InvalidEncoding) <==> !Base64.WellFormed(Base64.WithoutBreaks(s))
    ensures DecodeCursor(s) == Err(InvalidFormat) <==> Base64.Decode(s).Some? && '|' !in Base64.Decode(s).value
    ensures forall a, b :: TwoTexts(s, a, b) ==>
              && (DecodeCursor(s) == Err(InvalidTimestamp) <==> ParseTime(a).None?)
              && (DecodeCursor(s) == Err(InvalidUuid) <==> ParseTime(a).Some? && forall u: Uuid :: !Spells(b, u))
  {
    Base64.DecodesIffWellFormed(Base64.WithoutBreaks(s));
    if Base64.Decode(s).Some? && '|' in Base64.Decode(s).value {
      HasTwoTexts(s);
    }
    forall a, b | TwoTexts(s, a, b)
      ensures DecodeCursor(s) == Err(InvalidTimestamp) <==> ParseTime(a).None?
      ensures DecodeCursor(s) == Err(InvalidUuid) <==> ParseTime(a).Some? && forall u: Uuid :: !Spells(b, u)
      ensures forall c :: DecodeCursor(s) == Ok(c) <==> ParseTime(a) == Some(c.createdAt) && Spells(b, c.id)
    {
      PartsDecide(s, a, b);
    }
  }

  /** A cursor decodes to the position it was made from exactly when its year has four digits; a later
      one is rejected as a bad timestamp, never read as another position. */
  lemma CursorRoundTrip(t: Instant, id: Uuid)
    ensures DecodeCursor(EncodeCursor(t, id)) ==
            if CivilOf(t).year <= 9999 then Ok(PageCursor(t, id)) else Err(InvalidTimestamp)
  {
    RawIsOctets(t, id);
    Base64.RoundTrip(RawCursor(t, id));
    RawParts(t, id);
    TimeRoundTrip(t);
    UuidRoundTrip(id);
  }

  /** Different positions have different cursors, also those that do not decode. */
  lemma CursorsDistinct(t: Instant, id: Uuid, t': Instant, id': Uuid)
    requires EncodeCursor(t, id) == EncodeCursor(t', id')
    ensures t == t' && id == id'
  {
    RawIsOctets(t, id);
    RawIsOctets(t', id');
    Base64.RoundTrip(RawCursor(t, id));
    Base64.RoundTrip(RawCursor(t', id'));
    RawParts(t, id);
    RawParts(t', id');
    FormatInjective(t, t');
    UuidRoundTrip(id);
    UuidRoundTrip(id');
  }

  /** The bar separates the two texts. */
  lemma RawParts(t: Instant, id: Uuid)
    ensures var raw := RawCursor(t, id);
            var n := FirstBar(raw);
            n < |raw| && raw[..n] == FormatTime(t) && raw[n + 1..] == UuidText(id)
  {
    FormatIsPlain(t);
    BarBetween(FormatTime(t), UuidText(id));
  }
}
