/** Quoting a string for SQLite, and reading the literal back by SQLite's doubled-quote rule. */
module SqlText {
  import opened Schema

  const QUOTE := '\''

  /** Every single quote doubled. */
  function Doubled(s: string): string {
    if s == "" then "" else (if s[0] == QUOTE then [QUOTE, QUOTE] else [s[0]]) + Doubled(s[1..])
  }

  function SqlEscapeString(s: string): string {
    [QUOTE] + Doubled(s) + [QUOTE]
  }

  /** Read the inside of a literal up to its closing quote: a doubled quote stands for one quote. */
  function ReadBody(t: string): Option<(string, string)> {
    if t == "" then None
    else if t[0] != QUOTE then
      var r := ReadBody(t[1..]);
      if r.None? then None else Some(([t[0]] + r.value.0, r.value.1))
    else if |t| >= 2 && t[1] == QUOTE then
      var r := ReadBody(t[2..]);
      if r.None? then None else Some(([QUOTE] + r.value.0, r.value.1))
    else Some(("", t[1..]))
  }

  /** The string a literal at the start of `t` stands for, and the text after it. */
  function ReadLiteral(t: string): Option<(string, string)> {
    if t == "" || t[0] != QUOTE then None else ReadBody(t[1..])
  }

  /** What is read once one more character stands before it. */
  function Before(c: char, r: Option<(string, string)>): Option<(string, string)> {
    if r.None? then None else Some(([c] + r.value.0, r.value.1))
  }

  /** A character's text is read as that character. */
  lemma ReadOne(c: char, u: string)
    ensures ReadBody((if c == QUOTE then [QUOTE, QUOTE] else [c]) + u) == Before(c, ReadBody(u))
  {
    assert ([QUOTE, QUOTE] + u)[2..] == u && ([c] + u)[1..] == u;
  }

  /** A quote that no other quote follows ends the literal. */
  lemma ReadEnd(rest: string)
    requires rest != "" && rest[0] == QUOTE && (|rest| == 1 || rest[1] != QUOTE)
    ensures ReadBody(rest) == Some(("", rest[1..]))
  {
  }

  lemma {:induction false} ReadDoubled(s: string, rest: string)
    requires rest != "" && rest[0] == QUOTE && (|rest| == 1 || rest[1] != QUOTE)
    ensures ReadBody(Doubled(s) + rest) == Some((s, rest[1..]))
  {
    hide ReadBody;
    if s == "" {
      assert Doubled(s) + rest == rest;
      ReadEnd(rest);
    } else {
      ReadDoubled(s[1..], rest);
      ReadOne(s[0], Doubled(s[1..]) + rest);
      assert Doubled(s) + rest == (if s[0] == QUOTE then [QUOTE, QUOTE] else [s[0]]) + (Doubled(s[1..]) + rest);
      assert [s[0]] + s[1..] == s;
    }
  }

  /**
   Reading an escaped string consumes exactly the literal and yields the original string,
   whatever follows it, as long as that is not another quote.
   */
  lemma EscapeRoundTrip(s: string, after: string)
    requires after == "" || after[0] != QUOTE
    ensures ReadLiteral(SqlEscapeString(s) + after) == Some((s, after))
  {
    var rest := [QUOTE] + after;
    ReadDoubled(s, rest);
    assert (SqlEscapeString(s) + after)[1..] == Doubled(s) + rest;
    assert rest[1..] == after;
  }

  /** A quote right after the literal would be read as part of it. */
  lemma {:induction false} QuoteAfterLiteralIsAbsorbed(s: string, after: string)
    requires after != "" && after[0] == QUOTE
    ensures ReadLiteral(SqlEscapeString(s) + after) != Some((s, after))
  {
    var t := SqlEscapeString(s) + after;
    assert t[1..] == Doubled(s) + ([QUOTE] + after);
    AbsorbedBody(s, [QUOTE] + after);
  }

  lemma {:induction false} AbsorbedBody(s: string, rest: string)
    requires |rest| >= 2 && rest[0] == QUOTE && rest[1] == QUOTE
    ensures ReadBody(Doubled(s) + rest).None? || |ReadBody(Doubled(s) + rest).value.0| > |s|
  {
    var t := Doubled(s) + rest;
    if s == "" {
      assert t == rest;
    } else {
      AbsorbedBody(s[1..], rest);
      if s[0] == QUOTE {
        assert t[2..] == Doubled(s[1..]) + rest;
      } else {
        assert t[1..] == Doubled(s[1..]) + rest;
      }
    }
  }

  /** Different strings never escape to the same literal. */
  lemma EscapeIsInjective(s: string, t: string)
    requires SqlEscapeString(s) == SqlEscapeString(t)
    ensures s == t
  {
    EscapeRoundTrip(s, "");
    EscapeRoundTrip(t, "");
  }
}
