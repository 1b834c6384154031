/** Escaping of message parts for Telegram's HTML mode
    (internal/infrastructure/adapters/telegram/notifier.go). */
module HtmlEscape {

  function ReplaceChar(x: char, c: char, entity: string): string {
    if x == c then entity else [x]
  }

  /** Replacement of every occurrence of one character in the whole string. */
  function ReplaceAll(s: string, c: char, entity: string): string {
    if s == "" then "" else ReplaceChar(s[0], c, entity) + ReplaceAll(s[1..], c, entity)
  }

  function Escape(s: string): string {
    ReplaceAll(ReplaceAll(ReplaceAll(s, '&', "&amp;"), '<', "&lt;"), '>', "&gt;")
  }

  function Entity(c: char): string {
    match c case '&' => "&amp;" case '<' => "&lt;" case '>' => "&gt;" case _ => [c]
  }

  /** One pass, character by character. */
  function Substitute(s: string): string {
    if s == "" then "" else Entity(s[0]) + Substitute(s[1..])
  }

  /** Reading the three entities back, left to right. */
  function Unescape(s: string): string {
    if s == "" then ""
    else if "&amp;" <= s then "&" + Unescape(s[5..])
    else if "&lt;" <= s then "<" + Unescape(s[4..])
    else if "&gt;" <= s then ">" + Unescape(s[4..])
    else [s[0]] + Unescape(s[1..])
  }

  lemma Regroup(a: string, b: string, c: string)
    ensures a + (b + c) == a + b + c
  {
  }

  lemma {:induction false} ReplaceConcat(a: string, b: string, c: char, entity: string)
    ensures ReplaceAll(a + b, c, entity) == ReplaceAll(a, c, entity) + ReplaceAll(b, c, entity)
  {
    if a == "" {
      assert a + b == b;
    } else {
      ReplaceConcat(a[1..], b, c, entity);
      assert (a + b)[0] == a[0] && (a + b)[1..] == a[1..] + b;
      Regroup(ReplaceChar(a[0], c, entity), ReplaceAll(a[1..], c, entity), ReplaceAll(b, c, entity));
    }
  }

  lemma {:induction false} ReplaceAbsent(s: string, c: char, entity: string)
    requires c !in s
    ensures ReplaceAll(s, c, entity) == s
  {
    if s != "" {
      ReplaceAbsent(s[1..], c, entity);
    }
  }

  lemma ReplaceOne(x: char, c: char, entity: string)
    ensures ReplaceAll([x], c, entity) == if x == c then entity else [x]
  {
    assert [x][1..] == "";
  }

  lemma EntityOfOne(c: char)
    ensures Escape([c]) == Entity(c)
  {
    ReplaceOne(c, '&', "&amp;");
    ReplaceOne(c, '<', "&lt;");
    ReplaceOne(c, '>', "&gt;");
    if c == '&' {
      ReplaceAbsent("&amp;", '<', "&lt;");
      ReplaceAbsent("&amp;", '>', "&gt;");
    } else if c == '<' {
      ReplaceAbsent("&lt;", '>', "&gt;");
    }
  }

  lemma EscapeConcat(a: string, b: string)
    ensures Escape(a + b) == Escape(a) + Escape(b)
  {
    ReplaceConcat(a, b, '&', "&amp;");
    var a1, b1 := ReplaceAll(a, '&', "&amp;"), ReplaceAll(b, '&', "&amp;");
    ReplaceConcat(a1, b1, '<', "&lt;");
    ReplaceConcat(ReplaceAll(a1, '<', "&lt;"), ReplaceAll(b1, '<', "&lt;"), '>', "&gt;");
  }

  /** The three passes over the whole string are one substitution per character. */
  lemma {:induction false} PassesAreSubstitution(s: string)
    ensures Escape(s) == Substitute(s)
  {
    if s != "" {
      assert s == [s[0]] + s[1..];
      EscapeConcat([s[0]], s[1..]);
      EntityOfOne(s[0]);
      PassesAreSubstitution(s[1..]);
    }
  }

  /** An entity is read back whole, whatever follows it. */
  lemma UnescapeEntity(c: char, rest: string)
    ensures Unescape(Entity(c) + rest) == [c] + Unescape(rest)
  {
    var e := Entity(c);
    var s := e + rest;
    assert s[|e|..] == rest && s[..|e|] == e && s[0] == e[0];
    if c == '<' { assert s[1] == 'l'; }
    if c == '>' { assert s[1] == 'g'; }
  }

  lemma {:induction false} SubstitutionRoundTrip(s: string)
    ensures Unescape(Substitute(s)) == s
  {
    if s != "" {
      var rest := Substitute(s[1..]);
      SubstitutionRoundTrip(s[1..]);
      UnescapeEntity(s[0], rest);
      assert Substitute(s) == Entity(s[0]) + rest;
      assert s == [s[0]] + s[1..];
    }
  }

  lemma EntityHasNoMarkup(c: char)
    ensures '<' !in Entity(c) && '>' !in Entity(c)
  {
  }

  lemma {:induction false} SubstitutionHasNoMarkup(s: string)
    ensures '<' !in Substitute(s) && '>' !in Substitute(s)
  {
    if s != "" {
      EntityHasNoMarkup(s[0]);
      SubstitutionHasNoMarkup(s[1..]);
    }
  }

  /** Escaping loses nothing and leaves no markup character: the input can be read back. */
  lemma EscapeIsLossless(s: string)
    ensures Unescape(Escape(s)) == s
    ensures '<' !in Escape(s) && '>' !in Escape(s)
  {
    PassesAreSubstitution(s);
    SubstitutionRoundTrip(s);
    SubstitutionHasNoMarkup(s);
  }

  lemma EscapeIsInjective(s: string, t: string)
    requires Escape(s) == Escape(t)
    ensures s == t
  {
    EscapeIsLossless(s);
    EscapeIsLossless(t);
  }

  // ---- Why '&' comes first ----

  /** The same passes with '&' last. */
  function EscapeAmpersandLast(s: string): string {
    ReplaceAll(ReplaceAll(ReplaceAll(s, '<', "&lt;"), '>', "&gt;"), '&', "&amp;")
  }

  lemma {:induction false} ReplaceLength(s: string, c: char, entity: string)
    requires |entity| >= 1
    ensures |ReplaceAll(s, c, entity)| == |s| + (|entity| - 1) * Count(s, c)
  {
    if s != "" {
      ReplaceLength(s[1..], c, entity);
    }
  }

  function Count(s: string, c: char): nat {
    if s == "" then 0 else (if s[0] == c then 1 else 0) + Count(s[1..], c)
  }

  lemma OneMore(k: nat, n: nat)
    ensures k * (1 + n) == k + k * n
  {
  }

  lemma CountOfChar(y: char, x: char)
    ensures Count([y], x) == if y == x then 1 else 0
  {
    assert [y][1..] == "";
  }

  lemma {:induction false} CountReplaced(s: string, c: char, entity: string, x: char)
    requires x != c
    ensures Count(ReplaceAll(s, c, entity), x) == Count(s, x) + Count(entity, x) * Count(s, c)
  {
    if s != "" {
      var rest := s[1..];
      CountReplaced(rest, c, entity, x);
      CountConcat(ReplaceChar(s[0], c, entity), ReplaceAll(rest, c, entity), x);
      CountOfChar(s[0], x);
      OneMore(Count(entity, x), Count(rest, c));
    }
  }

  lemma {:induction false} CountConcat(a: string, b: string, x: char)
    ensures Count(a + b, x) == Count(a, x) + Count(b, x)
  {
    if a == "" {
      assert a + b == b;
    } else {
      CountConcat(a[1..], b, x);
      assert (a + b)[1..] == a[1..] + b;
    }
  }

  lemma {:induction false} CountAbsent(s: string, x: char)
    ensures Count(s, x) == 0 <==> x !in s
  {
    if s != "" {
      CountAbsent(s[1..], x);
      assert s == [s[0]] + s[1..];
    }
  }

  /** A replacement that brings in x a known number of times. */
  lemma CountAfter(s: string, c: char, entity: string, x: char, once: bool)
    requires x != c && Count(entity, x) == if once then 1 else 0
    ensures Count(ReplaceAll(s, c, entity), x) == Count(s, x) + if once then Count(s, c) else 0
  {
    CountReplaced(s, c, entity, x);
  }

  lemma LengthAfter(s: string, c: char, entity: string, more: nat)
    requires |entity| == more + 1
    ensures |ReplaceAll(s, c, entity)| == |s| + more * Count(s, c)
  {
    ReplaceLength(s, c, entity);
  }

  lemma EntityCounts()
    ensures Count("&amp;", '<') == 0 && Count("&amp;", '>') == 0 && Count("&lt;", '>') == 0
    ensures Count("&lt;", '&') == 1 && Count("&gt;", '&') == 1
    ensures |"&amp;"| == 5 && |"&lt;"| == 4 && |"&gt;"| == 4
  {
    CountAbsent("&amp;", '<');
    CountAbsent("&amp;", '>');
    CountAbsent("&lt;", '>');
    OneAmpersand("lt;");
    OneAmpersand("gt;");
    assert "&" + "lt;" == "&lt;" && "&" + "gt;" == "&gt;";
  }

  lemma EscapedLength(s: string)
    ensures |Escape(s)| == |s| + 4 * Count(s, '&') + 3 * Count(s, '<') + 3 * Count(s, '>')
  {
    var p := ReplaceAll(s, '&', "&amp;");
    var q := ReplaceAll(p, '<', "&lt;");
    EntityCounts();
    LengthAfter(s, '&', "&amp;", 4);
    CountAfter(s, '&', "&amp;", '<', false);
    CountAfter(s, '&', "&amp;", '>', false);
    LengthAfter(p, '<', "&lt;", 3);
    CountAfter(p, '<', "&lt;", '>', false);
    LengthAfter(q, '>', "&gt;", 3);
  }

  lemma OneAmpersand(name: string)
    requires '&' !in name
    ensures Count("&" + name, '&') == 1
  {
    CountAbsent(name, '&');
    assert ("&" + name)[1..] == name;
  }

  lemma AmpersandLastLength(s: string)
    ensures |EscapeAmpersandLast(s)| == |s| + 4 * Count(s, '&') + 7 * Count(s, '<') + 7 * Count(s, '>')
  {
    var a := ReplaceAll(s, '<', "&lt;");
    var b := ReplaceAll(a, '>', "&gt;");
    EntityCounts();
    LengthAfter(s, '<', "&lt;", 3);
    CountAfter(s, '<', "&lt;", '>', false);
    CountAfter(s, '<', "&lt;", '&', true);
    LengthAfter(a, '>', "&gt;", 3);
    CountAfter(a, '>', "&gt;", '&', true);
    LengthAfter(b, '&', "&amp;", 4);
  }

  /** Replacing '&' last gives the same text exactly for inputs without '<' and '>'. */
  lemma AmpersandMustComeFirst(s: string)
    ensures EscapeAmpersandLast(s) == Escape(s) <==> '<' !in s && '>' !in s
  {
    CountAbsent(s, '<');
    CountAbsent(s, '>');
    EscapedLength(s);
    AmpersandLastLength(s);
    if '<' !in s && '>' !in s {
      var p := ReplaceAll(s, '&', "&amp;");
      ReplaceAbsent(s, '<', "&lt;");
      ReplaceAbsent(s, '>', "&gt;");
      EntityCounts();
      CountAfter(s, '&', "&amp;", '<', false);
      CountAfter(s, '&', "&amp;", '>', false);
      CountAbsent(p, '<');
      CountAbsent(p, '>');
      ReplaceAbsent(p, '<', "&lt;");
      ReplaceAbsent(p, '>', "&gt;");
    }
  }
}
