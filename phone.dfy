/**
 * The phone-number pattern of the user validators,
 *
 *     ^[+]?[(]?[0-9]{3}[)]?[-\s.]?[0-9]{3}[-\s.]?[0-9]{4,6}$
 *
 * stated as the set of strings some well-formed `PhoneParts` renders to, and decided by
 * a left-to-right parser that is proved sound and complete for it. Every optional piece
 * of the pattern is drawn from characters the piece after it cannot start with, so the
 * parser never needs to backtrack and a match has exactly one decomposition.
 */
module Phone {
  import opened Wrappers
  import opened JavaStrings
  import opened JavaNumbers

  /** The class [-\s.]. */
  predicate IsSeparator(c: char) {
    c == '-' || c == '.' || c in REGEX_SPACES
  }

  /** One way of reading a string against the pattern, piece by piece. */
  datatype PhoneParts = PhoneParts(
    plus: bool,
    open: bool,
    area: string,
    close: bool,
    sep1: Option<char>,
    exchange: string,
    sep2: Option<char>,
    line: string)

  predicate SeparatorOk(sep: Option<char>) {
    sep.Some? ==> IsSeparator(sep.value)
  }

  predicate DigitRun(s: string, lo: nat, hi: nat) {
    lo <= |s| <= hi && AllDigits(s)
  }

  /** Each piece is what its part of the pattern allows. */
  predicate WellFormed(p: PhoneParts) {
    DigitRun(p.area, 3, 3) && SeparatorOk(p.sep1) && DigitRun(p.exchange, 3, 3)
    && SeparatorOk(p.sep2) && DigitRun(p.line, 4, 6)
  }

  /** The character `c` when `present`, else nothing. */
  function Opt(present: bool, c: char): (r: string)
    ensures |r| <= 1
  {
    if present then [c] else []
  }

  function OptSep(sep: Option<char>): (r: string)
    ensures |r| <= 1
  {
    if sep.Some? then [sep.value] else []
  }

  // The text a reading spells, from each piece to the end.
  function FromSep2Text(p: PhoneParts): string { OptSep(p.sep2) + p.line }
  function FromExchangeText(p: PhoneParts): string { p.exchange + FromSep2Text(p) }
  function FromSep1Text(p: PhoneParts): string { OptSep(p.sep1) + FromExchangeText(p) }
  function FromCloseText(p: PhoneParts): string { Opt(p.close, ')') + FromSep1Text(p) }
  function FromAreaText(p: PhoneParts): string { p.area + FromCloseText(p) }
  function FromOpenText(p: PhoneParts): string { Opt(p.open, '(') + FromAreaText(p) }

  /** The whole text a reading spells. */
  function Render(p: PhoneParts): string {
    Opt(p.plus, '+') + FromOpenText(p)
  }

  /** Pattern.matches with the phone pattern: the whole string is one well-formed reading. */
  ghost predicate MatchesPhonePattern(s: string) {
    exists p :: WellFormed(p) && Render(p) == s
  }

  /** Drops the first character when `present`. */
  function Skip(present: bool, s: string): string
    requires present ==> s != []
  {
    if present then s[1..] else s
  }

  lemma SkipSplits(present: bool, c: char, s: string)
    requires present ==> s != [] && s[0] == c
    ensures Opt(present, c) + Skip(present, s) == s
  {
    if present {
      assert s == [s[0]] + s[1..];
    }
  }

  /** [-\s.]?[0-9]{4,6}$ */
  function ParseFromSep2(acc: PhoneParts, t: string): Option<PhoneParts> {
    var sep := if t != [] && IsSeparator(t[0]) then Some(t[0]) else None;
    var rest := Skip(sep.Some?, t);
    if DigitRun(rest, 4, 6) then Some(acc.(sep2 := sep, line := rest)) else None
  }

  /** [0-9]{3} followed by the rest from the second separator. */
  function ParseFromExchange(acc: PhoneParts, t: string): Option<PhoneParts> {
    if |t| >= 3 && AllDigits(t[..3]) then ParseFromSep2(acc.(exchange := t[..3]), t[3..]) else None
  }

  /** [-\s.]? followed by the rest from the exchange. */
  function ParseFromSep1(acc: PhoneParts, t: string): Option<PhoneParts> {
    var sep := if t != [] && IsSeparator(t[0]) then Some(t[0]) else None;
    ParseFromExchange(acc.(sep1 := sep), Skip(sep.Some?, t))
  }

  /** [)]? followed by the rest from the first separator. */
  function ParseFromClose(acc: PhoneParts, t: string): Option<PhoneParts> {
    var close := t != [] && t[0] == ')';
    ParseFromSep1(acc.(close := close), Skip(close, t))
  }

  /** [0-9]{3} followed by the rest from the closing parenthesis. */
  function ParseFromArea(acc: PhoneParts, t: string): Option<PhoneParts> {
    if |t| >= 3 && AllDigits(t[..3]) then ParseFromClose(acc.(area := t[..3]), t[3..]) else None
  }

  /**
   * The matcher: reads the pattern left to right and answers the one reading of `s`, or
   * None when there is none.
   */
  function ParsePhone(s: string): (r: Option<PhoneParts>)
    ensures r.Some? ==> WellFormed(r.value) && Render(r.value) == s
  {
    var plus := s != [] && s[0] == '+';
    var s1 := Skip(plus, s);
    var open := s1 != [] && s1[0] == '(';
    var acc := PhoneParts(plus, open, [], false, None, [], None, []);
    var r := ParseFromArea(acc, Skip(open, s1));
    if r.Some? then
      ParseFromAreaSound(acc, Skip(open, s1));
      SkipSplits(plus, '+', s);
      SkipSplits(open, '(', s1);
      r
    else r
  }

  // Soundness, piece by piece: what a stage answers is well formed and spells its input.

  lemma ParseFromSep2Sound(acc: PhoneParts, t: string)
    requires ParseFromSep2(acc, t).Some?
    ensures var q := ParseFromSep2(acc, t).value;
      && q == acc.(sep2 := q.sep2, line := q.line)
      && SeparatorOk(q.sep2) && DigitRun(q.line, 4, 6) && FromSep2Text(q) == t
  {
    var sep := if t != [] && IsSeparator(t[0]) then Some(t[0]) else None;
    SkipSplits(sep.Some?, if t != [] then t[0] else ' ', t);
  }

  lemma ParseFromExchangeSound(acc: PhoneParts, t: string)
    requires ParseFromExchange(acc, t).Some?
    ensures var q := ParseFromExchange(acc, t).value;
      && q == acc.(exchange := q.exchange, sep2 := q.sep2, line := q.line)
      && DigitRun(q.exchange, 3, 3) && SeparatorOk(q.sep2) && DigitRun(q.line, 4, 6)
      && FromExchangeText(q) == t
  {
    assert t == t[..3] + t[3..];
    ParseFromSep2Sound(acc.(exchange := t[..3]), t[3..]);
  }

  lemma ParseFromSep1Sound(acc: PhoneParts, t: string)
    requires ParseFromSep1(acc, t).Some?
    ensures var q := ParseFromSep1(acc, t).value;
      && q == acc.(sep1 := q.sep1, exchange := q.exchange, sep2 := q.sep2, line := q.line)
      && SeparatorOk(q.sep1) && DigitRun(q.exchange, 3, 3) && SeparatorOk(q.sep2) && DigitRun(q.line, 4, 6)
      && FromSep1Text(q) == t
  {
    var sep := if t != [] && IsSeparator(t[0]) then Some(t[0]) else None;
    SkipSplits(sep.Some?, if t != [] then t[0] else ' ', t);
    ParseFromExchangeSound(acc.(sep1 := sep), Skip(sep.Some?, t));
  }

  lemma ParseFromCloseSound(acc: PhoneParts, t: string)
    requires ParseFromClose(acc, t).Some?
    ensures var q := ParseFromClose(acc, t).value;
      && q == acc.(close := q.close, sep1 := q.sep1, exchange := q.exchange, sep2 := q.sep2, line := q.line)
      && SeparatorOk(q.sep1) && DigitRun(q.exchange, 3, 3) && SeparatorOk(q.sep2) && DigitRun(q.line, 4, 6)
      && FromCloseText(q) == t
  {
    var close := t != [] && t[0] == ')';
    SkipSplits(close, ')', t);
    ParseFromSep1Sound(acc.(close := close), Skip(close, t));
  }

  lemma ParseFromAreaSound(acc: PhoneParts, t: string)
    requires ParseFromArea(acc, t).Some?
    ensures var q := ParseFromArea(acc, t).value;
      && q == acc.(area := q.area, close := q.close, sep1 := q.sep1, exchange := q.exchange,
                   sep2 := q.sep2, line := q.line)
      && DigitRun(q.area, 3, 3) && SeparatorOk(q.sep1) && DigitRun(q.exchange, 3, 3)
      && SeparatorOk(q.sep2) && DigitRun(q.line, 4, 6)
      && FromAreaText(q) == t
  {
    assert t == t[..3] + t[3..];
    ParseFromCloseSound(acc.(area := t[..3]), t[3..]);
  }

  /** A digit, a separator and a closing parenthesis are three different kinds of character. */
  lemma CharacterKinds(c: char)
    ensures IsDigit(c) ==> !IsSeparator(c) && c != ')' && c != '(' && c != '+'
    ensures IsSeparator(c) ==> c != ')' && c != '(' && c != '+'
  {
  }

  // Completeness, piece by piece: a stage finds the reading a well-formed suffix spells.

  lemma ParseFromSep2Complete(acc: PhoneParts, p: PhoneParts)
    requires SeparatorOk(p.sep2) && DigitRun(p.line, 4, 6)
    ensures ParseFromSep2(acc, FromSep2Text(p)) == Some(acc.(sep2 := p.sep2, line := p.line))
  {
    var t := FromSep2Text(p);
    if p.sep2.None? {
      assert t == p.line;
      CharacterKinds(t[0]);
    } else {
      assert t[0] == p.sep2.value && t[1..] == p.line;
    }
  }

  lemma ParseFromExchangeComplete(acc: PhoneParts, p: PhoneParts)
    requires DigitRun(p.exchange, 3, 3) && SeparatorOk(p.sep2) && DigitRun(p.line, 4, 6)
    ensures ParseFromExchange(acc, FromExchangeText(p))
         == Some(acc.(exchange := p.exchange, sep2 := p.sep2, line := p.line))
  {
    var t := FromExchangeText(p);
    assert t[..3] == p.exchange && t[3..] == FromSep2Text(p);
    ParseFromSep2Complete(acc.(exchange := p.exchange), p);
  }

  lemma ParseFromSep1Complete(acc: PhoneParts, p: PhoneParts)
    requires SeparatorOk(p.sep1) && DigitRun(p.exchange, 3, 3) && SeparatorOk(p.sep2) && DigitRun(p.line, 4, 6)
    ensures ParseFromSep1(acc, FromSep1Text(p))
         == Some(acc.(sep1 := p.sep1, exchange := p.exchange, sep2 := p.sep2, line := p.line))
  {
    var t := FromSep1Text(p);
    var u := FromExchangeText(p);
    assert u[0] == p.exchange[0];
    CharacterKinds(u[0]);
    if p.sep1.None? {
      assert t == u;
      assert Skip(false, t) == u;
    } else {
      assert t[0] == p.sep1.value && t[1..] == u;
    }
    ParseFromExchangeComplete(acc.(sep1 := p.sep1), p);
  }

  lemma ParseFromCloseComplete(acc: PhoneParts, p: PhoneParts)
    requires SeparatorOk(p.sep1) && DigitRun(p.exchange, 3, 3) && SeparatorOk(p.sep2) && DigitRun(p.line, 4, 6)
    ensures ParseFromClose(acc, FromCloseText(p))
         == Some(acc.(close := p.close, sep1 := p.sep1, exchange := p.exchange, sep2 := p.sep2, line := p.line))
  {
    var t := FromCloseText(p);
    var u := FromSep1Text(p);
    FirstOfSep1Text(p);
    if !p.close {
      assert t == u;
      assert Skip(false, t) == u;
    } else {
      assert t[0] == ')' && t[1..] == u;
    }
    ParseFromSep1Complete(acc.(close := p.close), p);
  }

  /** The text from the first separator on never starts with a closing parenthesis. */
  lemma FirstOfSep1Text(p: PhoneParts)
    requires SeparatorOk(p.sep1) && DigitRun(p.exchange, 3, 3)
    ensures FromSep1Text(p) != [] && FromSep1Text(p)[0] != ')'
  {
    var u := FromSep1Text(p);
    if p.sep1.Some? {
      assert u[0] == p.sep1.value;
      CharacterKinds(u[0]);
    } else {
      assert u[0] == p.exchange[0];
      CharacterKinds(u[0]);
    }
  }

  lemma ParseFromAreaComplete(acc: PhoneParts, p: PhoneParts)
    requires DigitRun(p.area, 3, 3) && SeparatorOk(p.sep1) && DigitRun(p.exchange, 3, 3)
    requires SeparatorOk(p.sep2) && DigitRun(p.line, 4, 6)
    ensures ParseFromArea(acc, FromAreaText(p))
         == Some(acc.(area := p.area, close := p.close, sep1 := p.sep1, exchange := p.exchange,
                      sep2 := p.sep2, line := p.line))
  {
    var t := FromAreaText(p);
    assert t[..3] == p.area && t[3..] == FromCloseText(p);
    ParseFromCloseComplete(acc.(area := p.area), p);
  }

  /** Every well-formed reading is found again from the text it spells: the parse is unique. */
  lemma ParseRender(p: PhoneParts)
    requires WellFormed(p)
    ensures ParsePhone(Render(p)) == Some(p)
  {
    var u := FromAreaText(p);
    assert u[0] == p.area[0];
    CharacterKinds(u[0]);
    OptThenSkip(p.open, '(', u);
    var t := FromOpenText(p);
    assert t[0] != '+';
    OptThenSkip(p.plus, '+', t);
    ParseFromAreaComplete(PhoneParts(p.plus, p.open, [], false, None, [], None, []), p);
  }

  /** An optional character before a text that does not start with it is found exactly when present. */
  lemma OptThenSkip(present: bool, c: char, rest: string)
    requires rest != [] && rest[0] != c
    ensures Opt(present, c) + rest != []
    ensures (Opt(present, c) + rest)[0] == c <==> present
    ensures Skip(present, Opt(present, c) + rest) == rest
  {
    if present {
      assert (Opt(present, c) + rest)[1..] == rest;
    }
  }

  /** The matcher accepts exactly the strings the pattern matches. */
  function MatchPhone(s: string): (r: bool)
    ensures r <==> MatchesPhonePattern(s)
  {
    if ParsePhone(s).Some? then
      true
    else
      assert !MatchesPhonePattern(s) by {
        forall p | WellFormed(p) ensures Render(p) != s {
          ParseRender(p);
        }
      }
      false
  }

  /** A well-formed reading spells ten to seventeen characters. */
  lemma RenderLength(p: PhoneParts)
    requires WellFormed(p)
    ensures 10 <= |Render(p)| <= 17
  {
    assert |FromExchangeText(p)| == 3 + |OptSep(p.sep2)| + |p.line|;
    assert |FromAreaText(p)| == 3 + |Opt(p.close, ')')| + |OptSep(p.sep1)| + |FromExchangeText(p)|;
    assert |Render(p)| == |Opt(p.plus, '+')| + |Opt(p.open, '(')| + |FromAreaText(p)|;
  }

  /** A match is ten to seventeen characters long. */
  lemma MatchLength(s: string)
    requires MatchesPhonePattern(s)
    ensures 10 <= |s| <= 17
  {
    var p :| WellFormed(p) && Render(p) == s;
    RenderLength(p);
  }

  /** Ten plain digits, grouped 3, 3 and 4, match. */
  lemma TenDigitsMatch()
    ensures MatchPhone("1234567890")
  {
    var p := PhoneParts(false, false, "123", false, None, "456", None, "7890");
    assert WellFormed(p) && Render(p) == "1234567890";
  }

  /** A parenthesised area code followed by dashes matches. */
  lemma BracketedAreaCodeMatches()
    ensures MatchPhone("(123)-456-7878")
  {
    var p := PhoneParts(false, true, "123", true, Some('-'), "456", Some('-'), "7878");
    assert WellFormed(p) && Render(p) == "(123)-456-7878";
  }

  /** Five digits are too few. */
  lemma FiveDigitsRejected()
    ensures !MatchPhone("56723")
  {
    if MatchPhone("56723") {
      MatchLength("56723");
    }
  }
}
