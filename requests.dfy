/**
 * What every request handler shares: query parameters, the tag-list parser, the listing
 * id and price parsers, and the "first failing check wins" reading of a validation
 * sequence.
 */
module Requests {
  import opened Wrappers
  import opened JavaStrings
  import opened JavaNumbers

  /** Query parameters: a missing key is Java's null, which differs from an empty value. */
  type Params = map<string, string>

  /** request.queryParams(key). */
  function Param(p: Params, key: string): (v: Option<string>)
    ensures v.Some? <==> key in p
    ensures v.Some? ==> v.value == p[key]
  {
    if key in p then Some(p[key]) else None
  }

  /** The pieces trimmed, with the pieces that trim to nothing dropped; order is kept. */
  function TrimmedNonEmpty(parts: seq<string>): (r: seq<string>)
    ensures |r| <= |parts|
    ensures forall t :: t in r ==> t != [] && NoOuterSpace(t)
  {
    if parts == [] then []
    else
      var rest := TrimmedNonEmpty(parts[1..]);
      var t := Trim(parts[0]);
      if t == [] then rest else [t] + rest
  }

  /** One piece gives its trim, or nothing when it is blank. */
  lemma TrimmedNonEmptyOne(q: string)
    ensures TrimmedNonEmpty([q]) == if IsBlank(q) then [] else [Trim(q)]
  {
    assert [q][1..] == [];
  }

  /** The pieces are handled one by one: cleaning a concatenation concatenates the results. */
  lemma {:induction false} TrimmedNonEmptyConcat(a: seq<string>, b: seq<string>)
    ensures TrimmedNonEmpty(a + b) == TrimmedNonEmpty(a) + TrimmedNonEmpty(b)
  {
    if a == [] {
      assert a + b == b;
    } else {
      var ab := a + b;
      assert ab[0] == a[0] && ab[1..] == a[1..] + b;
      TrimmedNonEmptyConcat(a[1..], b);
      var x, y := TrimmedNonEmpty(a[1..]), TrimmedNonEmpty(b);
      if !IsBlank(a[0]) {
        assert [Trim(a[0])] + (x + y) == ([Trim(a[0])] + x) + y;
      }
    }
  }

  /** The result holds exactly the trims of the pieces that are not blank. */
  lemma {:induction false} TrimmedNonEmptyMembers(parts: seq<string>)
    ensures forall t :: t in TrimmedNonEmpty(parts) <==> exists q :: q in parts && !IsBlank(q) && t == Trim(q)
  {
    if parts != [] {
      var rest := TrimmedNonEmpty(parts[1..]);
      TrimmedNonEmptyMembers(parts[1..]);
      assert TrimmedNonEmpty(parts) == if IsBlank(parts[0]) then rest else [Trim(parts[0])] + rest;
      forall t ensures t in TrimmedNonEmpty(parts) <==> exists q :: q in parts && !IsBlank(q) && t == Trim(q) {
        if t in rest {
          var q :| q in parts[1..] && !IsBlank(q) && t == Trim(q);
          assert q in parts;
        } else if exists q :: q in parts && !IsBlank(q) && t == Trim(q) {
          var q :| q in parts && !IsBlank(q) && t == Trim(q);
          assert q == parts[0] || q in parts[1..];
        }
      }
    }
  }

  /** Trimming only removes characters, so no piece gains a character it did not have. */
  lemma {:induction false} TrimmedNonEmptyAvoids(parts: seq<string>, bad: set<char>)
    requires forall q :: q in parts ==> forall c :: c in q ==> c !in bad
    ensures forall t :: t in TrimmedNonEmpty(parts) ==> forall c :: c in t ==> c !in bad
  {
    if parts != [] {
      assert forall q :: q in parts[1..] ==> q in parts;
      TrimmedNonEmptyAvoids(parts[1..], bad);
      TrimIsInfix(parts[0]);
      assert parts[0] in parts;
      var rest := TrimmedNonEmpty(parts[1..]);
      assert TrimmedNonEmpty(parts) == if Trim(parts[0]) == [] then rest else [Trim(parts[0])] + rest;
      forall t | t in TrimmedNonEmpty(parts) ensures forall c :: c in t ==> c !in bad {
        if t !in rest {
          assert t == Trim(parts[0]);
        }
      }
    }
  }

  /**
   * parseTags: null or blank gives the empty list; otherwise the comma-separated pieces,
   * trimmed, without empty ones. No tag is empty, has surrounding spaces or holds a comma.
   */
  function ParseTags(tagsParam: Option<string>): (tags: seq<string>)
    ensures tagsParam.None? || IsBlank(tagsParam.value) ==> tags == []
    ensures forall t :: t in tags ==> t != [] && NoOuterSpace(t) && ',' !in t
  {
    if tagsParam.None? || IsBlank(tagsParam.value) then []
    else
      var parts := Split(tagsParam.value, ',');
      TrimmedNonEmptyAvoids(parts, {','});
      TrimmedNonEmpty(parts)
  }

  /** A blank text holds no comma, since a comma is not a trim space. */
  lemma BlankHasNoComma(s: string)
    requires IsBlank(s)
    ensures ',' !in s
  {
    TrimRemovesEnds(s);
  }

  /**
   * The blank test in parseTags only saves work: the tags are always the trimmed,
   * non-blank pieces between commas.
   */
  lemma ParseTagsPieces(s: string)
    ensures ParseTags(Some(s)) == TrimmedNonEmpty(Split(s, ','))
  {
    if IsBlank(s) {
      BlankHasNoComma(s);
      SplitWithoutSeparator(s, ',');
      TrimmedNonEmptyOne(s);
    }
  }

  /** A tag is in the result exactly when it is the trim of a non-blank piece between commas. */
  lemma ParseTagsMembers(s: string)
    ensures forall t :: t in ParseTags(Some(s)) <==> exists q :: q in Split(s, ',') && !IsBlank(q) && t == Trim(q)
  {
    ParseTagsPieces(s);
    TrimmedNonEmptyMembers(Split(s, ','));
  }

  /**
   * The text before the first comma gives the first tag, unless it is blank; the rest
   * of the text gives the remaining tags, in order.
   */
  lemma ParseTagsAtComma(a: string, b: string)
    requires ',' !in a
    ensures ParseTags(Some(a + [','] + b)) == (if IsBlank(a) then [] else [Trim(a)]) + ParseTags(Some(b))
  {
    ParseTagsPieces(a + [','] + b);
    SplitAtFirstSeparator(a, ',', b);
    TrimmedNonEmptyConcat([a], Split(b, ','));
    TrimmedNonEmptyOne(a);
    ParseTagsPieces(b);
  }

  /** Text without a comma is one tag, trimmed, or none when it is blank. */
  lemma ParseTagsOnePiece(s: string)
    requires ',' !in s
    ensures ParseTags(Some(s)) == if IsBlank(s) then [] else [Trim(s)]
  {
    ParseTagsPieces(s);
    SplitWithoutSeparator(s, ',');
    TrimmedNonEmptyOne(s);
  }

  /** The trims the example below relies on. */
  lemma ExampleTrims()
    ensures Trim(" a ") == "a" && Trim("b ") == "b" && IsBlank(" ")
  {
    assert TrimLeft(" a ") == "a ";
    assert TrimRight("a ") == "a";
    assert TrimLeft("b ") == "b ";
    assert TrimRight("b ") == "b";
    assert TrimLeft(" ") == [];
  }

  /** A blank piece between two commas gives no tag: "a, ,b" gives the trims of a and b. */
  lemma ParseTagsSkipsBlankPiece(a: string, blank: string, b: string)
    requires ',' !in a && ',' !in b && IsBlank(blank)
    requires !IsBlank(a) && !IsBlank(b)
    ensures ParseTags(Some(a + [','] + (blank + [','] + b))) == [Trim(a), Trim(b)]
  {
    var mid := blank + [','] + b;
    assert ParseTags(Some(mid)) == [Trim(b)] by {
      BlankHasNoComma(blank);
      ParseTagsOnePiece(b);
      ParseTagsAtComma(blank, b);
    }
    ParseTagsAtComma(a, mid);
  }

  /** Spaces around tags and empty pieces between commas are dropped: " a , ,b " is [a, b]. */
  lemma ParseTagsExample()
    ensures ParseTags(Some(" a , ,b ")) == ["a", "b"]
  {
    ExampleTrims();
    assert " a , ,b " == " a " + [','] + (" " + [','] + "b ");
    ParseTagsSkipsBlankPiece(" a ", " ", "b ");
  }

  /** Splitting text that has no separator gives the text itself. */
  lemma {:induction false} SplitWithoutSeparator(s: string, sep: char)
    requires sep !in s
    ensures Split(s, sep) == [s]
  {
    if s != [] {
      SplitWithoutSeparator(s[1..], sep);
      assert s == [s[0]] + s[1..];
    }
  }

  /** Splitting `a + [sep] + b` cuts at the separator after `a` when `a` holds none. */
  lemma {:induction false} SplitAtFirstSeparator(a: string, sep: char, b: string)
    requires sep !in a
    ensures Split(a + [sep] + b, sep) == [a] + Split(b, sep)
  {
    if a == [] {
      assert [sep] + b == a + [sep] + b;
      assert ([sep] + b)[1..] == b;
    } else {
      var s := a + [sep] + b;
      assert s[1..] == a[1..] + [sep] + b;
      SplitAtFirstSeparator(a[1..], sep, b);
      assert a == [a[0]] + a[1..];
    }
  }

  /** Split undoes Join when no piece holds the separator. */
  lemma {:induction false} SplitJoin(parts: seq<string>, sep: char)
    requires parts != []
    requires forall q :: q in parts ==> sep !in q
    ensures Split(Join(parts, sep), sep) == parts
  {
    if |parts| == 1 {
      SplitWithoutSeparator(parts[0], sep);
    } else {
      SplitJoin(parts[1..], sep);
      SplitAtFirstSeparator(parts[0], sep, Join(parts[1..], sep));
      assert parts == [parts[0]] + parts[1..];
    }
  }

  /** Trimmed, non-empty pieces come through TrimmedNonEmpty unchanged. */
  lemma {:induction false} CleanPiecesKept(tags: seq<string>)
    requires forall t :: t in tags ==> t != [] && NoOuterSpace(t)
    ensures TrimmedNonEmpty(tags) == tags
  {
    if tags != [] {
      var first, rest := tags[0], tags[1..];
      assert first in tags && first != [] && NoOuterSpace(first);
      TrimOfVisibleEnds(first);
      assert forall t :: t in rest ==> t in tags;
      CleanPiecesKept(rest);
      assert TrimmedNonEmpty(tags) == [first] + rest;
    }
  }

  /** A comma-joined list of clean tags parses back to the same list, in the same order. */
  lemma ParseTagsJoin(tags: seq<string>)
    requires forall t :: t in tags ==> t != [] && NoOuterSpace(t) && ',' !in t
    ensures ParseTags(Some(Join(tags, ','))) == tags
  {
    if tags != [] {
      var s := Join(tags, ',');
      SplitJoin(tags, ',');
      CleanPiecesKept(tags);
      JoinStartsWithFirst(tags, ',');
      assert !IsTrimSpace(s[0]);
      TrimRemovesEnds(s);
    }
  }

  lemma JoinStartsWithFirst(parts: seq<string>, sep: char)
    requires parts != [] && parts[0] != []
    ensures Join(parts, sep) != [] && Join(parts, sep)[0] == parts[0][0]
  {
  }

  /** validateListingId: present and non-empty, then Long.parseLong. */
  function ValidateListingId(listingIdStr: Option<string>): (r: Result<int>)
    ensures listingIdStr.None? || listingIdStr.value == [] ==> r == Failure("Listing ID is required")
    ensures listingIdStr.Some? && listingIdStr.value != [] ==> r == ParseLong(listingIdStr.value)
    ensures r.Success? ==> LONG_MIN <= r.value <= LONG_MAX
  {
    if listingIdStr.None? || listingIdStr.value == [] then Failure("Listing ID is required")
    else ParseLong(listingIdStr.value)
  }

  /** Every 64-bit id, written in decimal, is accepted as itself. */
  lemma ListingIdRoundTrip(id: int)
    requires LONG_MIN <= id <= LONG_MAX
    ensures ValidateListingId(Some(LongToString(id))) == Success(id)
  {
    LongRoundTrip(id);
  }

  /** Float.parseFloat followed by the "Price cannot be negative" check. */
  function ParsePrice(priceStr: string): (r: Result<real>)
    ensures r.Success? ==> r.value >= 0.0 && ParseFloat(priceStr) == Success(r.value)
    ensures ParseFloat(priceStr).Failure? ==> r == ParseFloat(priceStr)
    ensures ParseFloat(priceStr).Success? && ParseFloat(priceStr).value < 0.0 ==> r == Failure("Price cannot be negative")
    ensures ParseFloat(priceStr).Success? && ParseFloat(priceStr).value >= 0.0 ==> r == Success(ParseFloat(priceStr).value)
  {
    var price :- ParseFloat(priceStr);
    if price < 0.0 then Failure("Price cannot be negative") else Success(price)
  }

  /** A whole number of currency units is a valid price. */
  lemma WholePriceAccepted(n: nat)
    ensures ParsePrice(NatToString(n)) == Success(n as real)
  {
    ParseFloatOfNat(n);
  }

  /** A minus sign in front of a positive whole number is rejected as negative. */
  lemma NegativePriceRejected(n: nat)
    requires n > 0
    ensures ParsePrice("-" + NatToString(n)) == Failure("Price cannot be negative")
  {
    ParseFloatOfNegatedNat(n);
  }
}
