/**
 * The java.lang.String operations the server relies on, stated over Dafny strings:
 * trim, isEmpty-after-trim, toLowerCase, equalsIgnoreCase, endsWith, contains,
 * split on a single character, and the character removals done with replaceAll.
 * Case mapping covers the ASCII letters only.
 */
module JavaStrings {

  /** String.trim() strips every leading and trailing character whose code is at most U+0020. */
  predicate IsTrimSpace(c: char) {
    c <= ' '
  }

  /** The characters matched by the regular-expression class \s: [ \t\n\x0B\f\r]. */
  const REGEX_SPACES: set<char> := {' ', '\t', '\n', '\U{000B}', '\U{000C}', '\r'}

  function TrimLeft(s: string): (r: string)
    ensures |r| <= |s| && r == s[|s| - |r|..]
    ensures r == [] || !IsTrimSpace(r[0])
    ensures forall i :: 0 <= i < |s| - |r| ==> IsTrimSpace(s[i])
  {
    if s != [] && IsTrimSpace(s[0]) then TrimLeft(s[1..]) else s
  }

  function TrimRight(s: string): (r: string)
    ensures |r| <= |s| && r == s[..|r|]
    ensures r == [] || !IsTrimSpace(r[|r| - 1])
    ensures forall i :: |r| <= i < |s| ==> IsTrimSpace(s[i])
  {
    if s != [] && IsTrimSpace(s[|s| - 1]) then TrimRight(s[..|s| - 1]) else s
  }

  /** Where the trimmed text starts inside the original string. */
  function TrimStart(s: string): nat {
    |s| - |TrimLeft(s)|
  }

  /** Neither the first nor the last character is a trim space. */
  predicate NoOuterSpace(s: string) {
    s == [] || (!IsTrimSpace(s[0]) && !IsTrimSpace(s[|s| - 1]))
  }

  /** String.trim(): the longest infix of `s` that neither starts nor ends with a trim space. */
  function Trim(s: string): (r: string)
    ensures |r| <= |s|
    ensures NoOuterSpace(r)
  {
    TrimRight(TrimLeft(s))
  }

  /** What trimming removes: trim spaces only, and only at the two ends. */
  lemma TrimRemovesEnds(s: string)
    ensures TrimStart(s) + |Trim(s)| <= |s|
    ensures Trim(s) == s[TrimStart(s)..TrimStart(s) + |Trim(s)|]
    ensures forall i :: 0 <= i < TrimStart(s) ==> IsTrimSpace(s[i])
    ensures forall i :: TrimStart(s) + |Trim(s)| <= i < |s| ==> IsTrimSpace(s[i])
    ensures Trim(s) == [] <==> forall i :: 0 <= i < |s| ==> IsTrimSpace(s[i])
  {
  }

  /** Trimming never brings in a character the string did not have. */
  lemma TrimIsInfix(s: string)
    ensures forall c :: c in Trim(s) ==> c in s
  {
    var t := Trim(s);
    var a := TrimStart(s);
    TrimSlice(s);
    forall c | c in t ensures c in s {
      var i :| 0 <= i < |t| && t[i] == c;
      assert s[a + i] == c;
    }
  }

  /** The trimmed string is the slice of `s` that starts at TrimStart. */
  lemma TrimSlice(s: string)
    ensures TrimStart(s) + |Trim(s)| <= |s|
    ensures Trim(s) == s[TrimStart(s)..TrimStart(s) + |Trim(s)|]
  {
    TrimRemovesEnds(s);
  }

  /** A string that neither starts nor ends with a trim space is its own trim. */
  lemma TrimOfVisibleEnds(s: string)
    requires NoOuterSpace(s)
    ensures Trim(s) == s
  {
    if s != [] {
      assert TrimLeft(s) == s;
    }
  }

  /** Java's `s.trim().isEmpty()`. */
  predicate IsBlank(s: string) {
    Trim(s) == []
  }

  /** Trimming twice is trimming once. */
  lemma TrimIdempotent(s: string)
    ensures Trim(Trim(s)) == Trim(s)
  {
    TrimOfVisibleEnds(Trim(s));
  }

  /** A string that ends with a visible character keeps its whole tail when trimmed. */
  lemma TrimKeepsVisibleEnd(s: string)
    requires s != [] && !IsTrimSpace(s[|s| - 1])
    ensures Trim(s) == s[TrimStart(s)..]
  {
    TrimRemovesEnds(s);
  }

  function ToLowerChar(c: char): char {
    if 'A' <= c <= 'Z' then (c as int + 32) as char else c
  }

  /** String.toLowerCase() on the ASCII letters; every other character is kept. */
  function ToLower(s: string): (r: string)
    ensures |r| == |s|
    ensures forall i :: 0 <= i < |s| ==> r[i] == ToLowerChar(s[i])
  {
    if s == [] then [] else [ToLowerChar(s[0])] + ToLower(s[1..])
  }

  /** String.equalsIgnoreCase on ASCII text. */
  predicate EqualsIgnoreCase(a: string, b: string) {
    ToLower(a) == ToLower(b)
  }

  predicate EndsWith(s: string, suffix: string) {
    |suffix| <= |s| && s[|s| - |suffix|..] == suffix
  }

  /** A text whose last character differs from the suffix's does not end with it. */
  lemma LastCharDiffers(s: string, suffix: string)
    requires s != [] && suffix != [] && s[|s| - 1] != suffix[|suffix| - 1]
    ensures !EndsWith(s, suffix)
  {
    if |suffix| <= |s| {
      assert s[|s| - |suffix|..][|suffix| - 1] == s[|s| - 1];
    }
  }

  /** `t` occurs in `s` starting at index `i`. */
  predicate OccursAt(s: string, t: string, i: int) {
    0 <= i && i + |t| <= |s| && s[i..i + |t|] == t
  }

  /** String.contains: `t` occurs somewhere in `s`. */
  function HasSubstring(s: string, t: string): (r: bool)
    ensures r <==> exists i :: OccursAt(s, t, i)
    decreases |s|
  {
    if |t| > |s| then false
    else if s[..|t|] == t then
      assert OccursAt(s, t, 0);
      true
    else
      var r := HasSubstring(s[1..], t);
      assert forall i :: OccursAt(s[1..], t, i) <==> OccursAt(s, t, i + 1);
      assert !OccursAt(s, t, 0);
      assert forall i :: OccursAt(s, t, i) ==> i == 0 || OccursAt(s[1..], t, i - 1);
      r
  }

  /** Joins the pieces with the separator between consecutive ones. */
  function Join(parts: seq<string>, sep: char): string {
    if parts == [] then []
    else if |parts| == 1 then parts[0]
    else parts[0] + [sep] + Join(parts[1..], sep)
  }

  /**
   * Splits `s` at every occurrence of `sep`, keeping every piece, empty ones included.
   * Java's String.split also drops trailing empty pieces; every caller here discards
   * empty pieces afterwards, so the difference never shows.
   */
  function Split(s: string, sep: char): (parts: seq<string>)
    ensures |parts| >= 1
    ensures forall p :: p in parts ==> sep !in p
    ensures Join(parts, sep) == s
  {
    if s == [] then [[]]
    else
      var rest := Split(s[1..], sep);
      if s[0] == sep then [[]] + rest
      else
        var parts := [[s[0]] + rest[0]] + rest[1..];
        assert parts[1..] == rest[1..];
        assert |rest| > 1 ==> Join(rest, sep) == rest[0] + [sep] + Join(rest[1..], sep);
        assert s == [s[0]] + s[1..];
        parts
  }

  /** replaceAll with a character class and the empty replacement: drop every character in `drop`. */
  function RemoveAll(s: string, drop: set<char>): (r: string)
    ensures |r| <= |s|
    ensures forall c :: c in r <==> c in s && c !in drop
  {
    if s == [] then []
    else
      var rest := RemoveAll(s[1..], drop);
      assert forall c :: c in s <==> c == s[0] || c in s[1..];
      if s[0] in drop then rest else [s[0]] + rest
  }

  /** Text with none of the dropped characters comes back unchanged. */
  lemma {:induction false} RemoveAllKeeps(s: string, drop: set<char>)
    requires forall i :: 0 <= i < |s| ==> s[i] !in drop
    ensures RemoveAll(s, drop) == s
  {
    if s != [] {
      RemoveAllKeeps(s[1..], drop);
    }
  }

  /** `s.replaceAll("\\s", "")`. */
  function RemoveWhitespace(s: string): string {
    RemoveAll(s, REGEX_SPACES)
  }
}
