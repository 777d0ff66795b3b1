/**
 * The database-free parts of the Postgres store: the SQL text and parameter list that
 * the search, update-listing and update-user queries are built from, the cleanup of a
 * tag column read back as text, and the two argument checks. Each builder is a method
 * that appends to the query step by step, proved equal to a list of clauses, each clause
 * holding one '?' placeholder and the parameter that fills it.
 */
module RealStorage {
  import opened Wrappers
  import opened JavaStrings
  import opened Storage
  import opened Requests

  // ------------------------------------------------------------------ checks

  /** validatePrice: a negative price is refused. */
  function CheckPrice(price: real): (r: Result<()>)
    ensures r.Success? <==> price >= 0.0
    ensures r.Failure? ==> r.error == "Price cannot be negative"
  {
    if price < 0.0 then Failure("Price cannot be negative") else Success(())
  }

  /** The characters of [A-Za-z0-9+_.-]. */
  predicate IsLocalChar(c: char) {
    ('A' <= c <= 'Z') || ('a' <= c <= 'z') || ('0' <= c <= '9') || c in {'+', '_', '.', '-'}
  }

  /** The characters that '.' does not match: Java's line terminators. */
  predicate IsLineTerminator(c: char) {
    c in {'\n', '\r', '\U{0085}', '\U{2028}', '\U{2029}'}
  }

  /** Whether `s` matches ^[A-Za-z0-9+_.-]+@(.+)$ as a whole. */
  ghost predicate MatchesEmailPattern(s: string) {
    exists i :: 0 < i < |s| - 1 && s[i] == '@'
      && (forall k :: 0 <= k < i ==> IsLocalChar(s[k]))
      && (forall k :: i < k < |s| ==> !IsLineTerminator(s[k]))
  }

  /** The length of the longest prefix of `s` made of local-part characters. */
  function LocalRun(s: string): (n: nat)
    ensures n <= |s|
    ensures forall k :: 0 <= k < n ==> IsLocalChar(s[k])
    ensures n < |s| ==> !IsLocalChar(s[n])
  {
    if s == [] || !IsLocalChar(s[0]) then 0 else 1 + LocalRun(s[1..])
  }

  /** Whether no character of `s` is a line terminator. */
  function NoLineTerminator(s: string): (r: bool)
    ensures r <==> forall k :: 0 <= k < |s| ==> !IsLineTerminator(s[k])
  {
    forall k :: 0 <= k < |s| ==> !IsLineTerminator(s[k])
  }

  /**
   * The pattern test: the local part is the run of local characters at the front (it
   * cannot swallow the '@'), followed by '@' and at least one more character.
   */
  function MatchEmail(s: string): (r: bool)
    ensures r <==> MatchesEmailPattern(s)
  {
    var n := LocalRun(s);
    var r := 0 < n && n < |s| - 1 && s[n] == '@' && NoLineTerminator(s[n + 1..]);
    if r then
      assert forall k :: n < k < |s| ==> s[k] == s[n + 1..][k - n - 1];
      r
    else
      assert !MatchesEmailPattern(s) by {
        forall i | 0 < i < |s| - 1 && s[i] == '@' && (forall k :: 0 <= k < i ==> IsLocalChar(s[k]))
          ensures exists k :: i < k < |s| && IsLineTerminator(s[k])
        {
          assert !IsLocalChar('@');
          assert n == i;
          var k :| 0 <= k < |s[n + 1..]| && IsLineTerminator(s[n + 1..][k]);
          assert s[n + 1 + k] == s[n + 1..][k];
        }
      }
      r
  }

  /** validateEmail: a missing address, or one that does not match the pattern, is refused. */
  function CheckEmail(email: Option<string>): (r: Result<()>)
    ensures r.Success? <==> email.Some? && MatchesEmailPattern(email.value)
    ensures r.Failure? ==> r.error == "Invalid email format"
  {
    if email.None? || !MatchEmail(email.value) then Failure("Invalid email format") else Success(())
  }

  /** A school address passes the pattern. */
  lemma SchoolEmailMatches()
    ensures CheckEmail(Some("jo@brown.edu")) == Success(())
  {
    var s := "jo@brown.edu";
    assert 0 < 2 < |s| - 1 && s[2] == '@';
    assert forall k :: 0 <= k < 2 ==> IsLocalChar(s[k]);
    assert forall k :: 2 < k < |s| ==> !IsLineTerminator(s[k]);
  }

  /** An address with nothing before the '@' fails the pattern. */
  lemma EmptyLocalPartRejected(rest: string)
    ensures CheckEmail(Some("@" + rest)) == Failure("Invalid email format")
  {
    var s := "@" + rest;
    assert s[0] == '@' && !IsLocalChar('@');
  }

  /** An address that ends at its '@' fails the pattern. */
  lemma EmptyDomainRejected(local: string)
    requires local != [] && forall k :: 0 <= k < |local| ==> IsLocalChar(local[k])
    ensures CheckEmail(Some(local + "@")) == Failure("Invalid email format")
  {
    var s := local + "@";
    assert forall i :: 0 <= i < |s| - 1 ==> s[i] == local[i];
    assert !IsLocalChar('@');
  }

  // --------------------------------------------------------------- cleanTags

  /** The characters cleanTags deletes: { } [ ] " and the backslash. */
  const TAG_JUNK: set<char> := {'{', '}', '[', ']', '"', '\\'}

  /**
   * cleanTags: a missing or blank column gives no tags; otherwise the junk characters are
   * deleted, the rest is split at commas, and the pieces are trimmed, empty ones dropped.
   */
  function CleanTags(tagsJson: Option<string>): (tags: seq<string>)
    ensures tagsJson.None? || IsBlank(tagsJson.value) ==> tags == []
    ensures forall t :: t in tags ==> t != [] && NoOuterSpace(t)
    ensures forall t :: t in tags ==> forall c :: c in t ==> c != ',' && c !in TAG_JUNK
  {
    if tagsJson.None? || IsBlank(tagsJson.value) then []
    else
      var cleaned := RemoveAll(tagsJson.value, TAG_JUNK);
      var parts := Split(cleaned, ',');
      assert forall q :: q in parts ==> forall c :: c in q ==> c !in TAG_JUNK + {','} by {
        forall q, c | q in parts && c in q ensures c !in TAG_JUNK + {','} {
          JoinHolds(parts, ',', q, c);
        }
      }
      TrimmedNonEmptyAvoids(parts, TAG_JUNK + {','});
      TrimmedNonEmpty(parts)
  }

  /** Every character of a piece of a join is a character of the joined text. */
  lemma {:induction false} JoinHolds(parts: seq<string>, sep: char, q: string, c: char)
    requires q in parts && c in q
    ensures c in Join(parts, sep)
  {
    if |parts| > 1 {
      if q == parts[0] {
        assert Join(parts, sep) == parts[0] + [sep] + Join(parts[1..], sep);
      } else {
        assert q in parts[1..];
        JoinHolds(parts[1..], sep, q, c);
        assert Join(parts, sep) == parts[0] + [sep] + Join(parts[1..], sep);
      }
    }
  }

  /** RemoveAll works piece by piece. */
  lemma {:induction false} RemoveAllConcat(a: string, b: string, drop: set<char>)
    ensures RemoveAll(a + b, drop) == RemoveAll(a, drop) + RemoveAll(b, drop)
  {
    if a == [] {
      assert a + b == b;
    } else {
      RemoveAllConcat(a[1..], b, drop);
      assert (a + b)[0] == a[0];
      assert (a + b)[1..] == a[1..] + b;
      var head := if a[0] in drop then [] else [a[0]];
      assert RemoveAll(a + b, drop) == head + RemoveAll(a[1..] + b, drop);
      assert RemoveAll(a, drop) == head + RemoveAll(a[1..], drop);
      Assoc(head, RemoveAll(a[1..], drop), RemoveAll(b, drop));
    }
  }

  /**
   * The column as Postgres prints a text array, {t1,t2,...}, is read back as the list
   * it holds, when no tag is empty, has outer spaces, or holds a comma or a junk character.
   */
  lemma CleanTagsOfArrayText(tags: seq<string>)
    requires forall t :: t in tags ==> t != [] && NoOuterSpace(t)
    requires forall t :: t in tags ==> forall c :: c in t ==> c != ',' && c !in TAG_JUNK
    ensures CleanTags(Some("{" + Join(tags, ',') + "}")) == tags
  {
    var body := Join(tags, ',');
    var s := "{" + body + "}";
    BracesRemoved(tags);
    assert !IsBlank(s) by {
      assert s[0] == '{';
      TrimRemovesEnds(s);
    }
    CleanTagsPieces(s);
    if tags == [] {
      assert Split([], ',') == [[]];
      assert Trim([]) == [];
    } else {
      SplitJoin(tags, ',');
      CleanPiecesKept(tags);
    }
  }

  /** Deleting characters from a blank text leaves a blank text without commas. */
  lemma RemoveAllKeepsBlank(s: string, drop: set<char>)
    requires IsBlank(s)
    ensures IsBlank(RemoveAll(s, drop)) && ',' !in RemoveAll(s, drop)
  {
    var r := RemoveAll(s, drop);
    TrimRemovesEnds(s);
    TrimRemovesEnds(r);
    forall i | 0 <= i < |r| ensures IsTrimSpace(r[i]) {
      assert r[i] in r;
    }
  }

  /**
   * The blank test in cleanTags only saves work: the tags are always the trimmed,
   * non-blank pieces between the commas of the text with the junk deleted.
   */
  lemma CleanTagsPieces(s: string)
    ensures CleanTags(Some(s)) == TrimmedNonEmpty(Split(RemoveAll(s, TAG_JUNK), ','))
  {
    if IsBlank(s) {
      var cleaned := RemoveAll(s, TAG_JUNK);
      RemoveAllKeepsBlank(s, TAG_JUNK);
      SplitWithoutSeparator(cleaned, ',');
      TrimmedNonEmptyOne(cleaned);
    }
  }

  /** A tag is read exactly when it is the trim of a non-blank comma-separated piece of the de-junked text. */
  lemma CleanTagsMembers(s: string)
    ensures forall t :: t in CleanTags(Some(s)) <==>
      exists q :: q in Split(RemoveAll(s, TAG_JUNK), ',') && !IsBlank(q) && t == Trim(q)
  {
    CleanTagsPieces(s);
    TrimmedNonEmptyMembers(Split(RemoveAll(s, TAG_JUNK), ','));
  }

  /**
   * The text before the first comma, with the junk deleted, gives the first tag unless it
   * is blank; the rest of the text gives the remaining tags, in order.
   */
  lemma CleanTagsAtComma(a: string, b: string)
    requires ',' !in a
    ensures CleanTags(Some(a + [','] + b)) ==
      (if IsBlank(RemoveAll(a, TAG_JUNK)) then [] else [Trim(RemoveAll(a, TAG_JUNK))]) + CleanTags(Some(b))
  {
    var a', b' := RemoveAll(a, TAG_JUNK), RemoveAll(b, TAG_JUNK);
    assert RemoveAll(a + [','] + b, TAG_JUNK) == a' + [','] + b' by {
      RemoveAllConcat(a + [','], b, TAG_JUNK);
      RemoveAllConcat(a, [','], TAG_JUNK);
      CommaIsNotJunk();
    }
    var rest := Split(b', ',');
    assert Split(a' + [','] + b', ',') == [a'] + rest by {
      SplitAtFirstSeparator(a', ',', b');
    }
    assert TrimmedNonEmpty([a'] + rest) == TrimmedNonEmpty([a']) + TrimmedNonEmpty(rest) by {
      TrimmedNonEmptyConcat([a'], rest);
    }
    TrimmedNonEmptyOne(a');
    CleanTagsPieces(a + [','] + b);
    CleanTagsPieces(b);
  }

  /** cleanTags keeps the commas it splits at. */
  lemma CommaIsNotJunk()
    ensures RemoveAll([','], TAG_JUNK) == [',']
  {
    assert ',' !in TAG_JUNK;
  }

  /** Removing the junk from the braced array text leaves the comma-joined tags. */
  lemma BracesRemoved(tags: seq<string>)
    requires forall t :: t in tags ==> forall c :: c in t ==> c != ',' && c !in TAG_JUNK
    ensures RemoveAll("{" + Join(tags, ',') + "}", TAG_JUNK) == Join(tags, ',')
  {
    var body := Join(tags, ',');
    forall i | 0 <= i < |body|
      ensures body[i] !in TAG_JUNK
    {
      var c := body[i];
      assert c in body;
      if c != ',' {
        JoinMembers(tags, ',', c);
      }
    }
    RemoveAllConcat("{" + body, "}", TAG_JUNK);
    RemoveAllConcat("{", body, TAG_JUNK);
    RemoveAllKeeps(body, TAG_JUNK);
    assert RemoveAll("{", TAG_JUNK) == [];
    assert RemoveAll("}", TAG_JUNK) == [];
    AppendNothing(body);
  }

  /** Every character of a join is a separator or a character of one of its pieces. */
  lemma {:induction false} JoinMembers(parts: seq<string>, sep: char, c: char)
    requires c in Join(parts, sep) && c != sep
    ensures exists q :: q in parts && c in q
  {
    if |parts| == 1 {
      assert parts[0] in parts;
    } else {
      var rest := Join(parts[1..], sep);
      assert Join(parts, sep) == parts[0] + [sep] + rest;
      if c in parts[0] {
        assert parts[0] in parts;
      } else {
        assert c in rest;
        JoinMembers(parts[1..], sep, c);
        var q :| q in parts[1..] && c in q;
        assert q in parts;
      }
    }
  }

  // ------------------------------------------------------------------ clauses

  /** A value bound to a placeholder: text, a price, a flag, a text array or a row id. */
  datatype SqlParam = Text(text: string) | Number(number: real) | Flag(flag: bool) | TextArray(items: seq<string>) | RowId(id: int)
                    | SqlNull  // a Java null handed to setObject

  /** A string parameter that may be Java's null. */
  function NullableText(v: Option<string>): SqlParam {
    if v.Some? then Text(v.value) else SqlNull
  }

  /** The parameters a builder binds for a list of items: one per item, in item order. */
  function ParamsOf<T>(items: seq<T>, param: T -> SqlParam): (params: seq<SqlParam>)
    ensures |params| == |items|
    ensures forall k :: 0 <= k < |items| ==> params[k] == param(items[k])
  {
    if items == [] then [] else ParamsOf(items[..|items| - 1], param) + [param(items[|items| - 1])]
  }

  /** The number of placeholders in a query text. */
  function Placeholders(sql: string): nat {
    if sql == [] then 0 else Placeholders(sql[..|sql| - 1]) + (if sql[|sql| - 1] == '?' then 1 else 0)
  }

  /** Placeholders of two texts add up when the texts are appended. */
  lemma {:induction false} PlaceholdersConcat(a: string, b: string)
    ensures Placeholders(a + b) == Placeholders(a) + Placeholders(b)
  {
    if b == [] {
      assert a + b == a;
    } else {
      assert (a + b)[..|a + b| - 1] == a + b[..|b| - 1];
      PlaceholdersConcat(a, b[..|b| - 1]);
    }
  }

  lemma {:induction false} NoPlaceholder(s: string)
    requires '?' !in s
    ensures Placeholders(s) == 0
  {
    if s != [] {
      assert s[|s| - 1] in s;
      NoPlaceholder(s[..|s| - 1]);
    }
  }

  /** A text that ends in the placeholder for its value. */
  function Bind(front: string): string {
    front + "?"
  }

  lemma BindPlaceholder(front: string)
    requires '?' !in front
    ensures Placeholders(Bind(front)) == 1
  {
    assert Bind(front)[..|front|] == front;
    NoPlaceholder(front);
  }

  /** Appending to a builder in two steps or in one gives the same text. */
  lemma Assoc<T>(a: seq<T>, b: seq<T>, c: seq<T>)
    ensures a + b + c == a + (b + c)
  {
  }

  lemma AppendNothing<T>(a: seq<T>)
    ensures a + [] == a && [] + a == a
  {
  }

  /** The filters a search can add; a tag test either opens the tag group or follows an OR. */
  datatype Filter = TitleLike | CategoryIs | PriceAtLeast | PriceAtMost | AnyTag(first: bool)

  /** The text of a filter before its placeholder. */
  function FilterFront(f: Filter): string {
    match f
    case TitleLike => " AND LOWER(title) LIKE "
    case CategoryIs => " AND category = "
    case PriceAtLeast => " AND price >= "
    case PriceAtMost => " AND price <= "
    case AnyTag(first) => if first then [] else " OR "
  }

  /** The text of a filter after its placeholder: only a tag test has one. */
  function FilterBack(f: Filter): string {
    if f.AnyTag? then " = ANY(tags)" else []
  }

  /** The text each filter appends. */
  function FilterSql(f: Filter): string {
    Bind(FilterFront(f)) + FilterBack(f)
  }

  lemma FilterTextsPlain(f: Filter)
    ensures '?' !in FilterFront(f) && '?' !in FilterBack(f)
  {
    match f
    case TitleLike =>
    case CategoryIs =>
    case PriceAtLeast =>
    case PriceAtMost =>
    case AnyTag(first) =>
  }

  /** Every filter's text holds exactly one placeholder. */
  lemma FilterPlaceholder(f: Filter)
    ensures Placeholders(FilterSql(f)) == 1
  {
    FilterTextsPlain(f);
    BindPlaceholder(FilterFront(f));
    NoPlaceholder(FilterBack(f));
    PlaceholdersConcat(Bind(FilterFront(f)), FilterBack(f));
  }

  /** A filter and the parameter bound to its placeholder. */
  datatype Clause = Clause(filter: Filter, param: SqlParam)

  /** The texts of the clauses, one after the other. */
  function ClauseText(clauses: seq<Clause>): string {
    if clauses == [] then [] else ClauseText(clauses[..|clauses| - 1]) + FilterSql(clauses[|clauses| - 1].filter)
  }

  /** The parameters of the clauses, in clause order. */
  function ClauseParams(clauses: seq<Clause>): seq<SqlParam> {
    ParamsOf(clauses, (c: Clause) => c.param)
  }

  /** One placeholder per clause: the text holds as many placeholders as there are parameters. */
  lemma {:induction false} ClausePlaceholders(clauses: seq<Clause>)
    ensures Placeholders(ClauseText(clauses)) == |ClauseParams(clauses)|
  {
    if clauses != [] {
      ClausePlaceholders(clauses[..|clauses| - 1]);
      FilterPlaceholder(clauses[|clauses| - 1].filter);
      PlaceholdersConcat(ClauseText(clauses[..|clauses| - 1]), FilterSql(clauses[|clauses| - 1].filter));
    }
  }

  /** Adding a clause at the end adds its text and its parameter at the end. */
  lemma AppendClause(clauses: seq<Clause>, c: Clause)
    ensures ClauseText(clauses + [c]) == ClauseText(clauses) + FilterSql(c.filter)
    ensures ClauseParams(clauses + [c]) == ClauseParams(clauses) + [c.param]
  {
    assert (clauses + [c])[..|clauses|] == clauses;
  }

  // ------------------------------------------------------------------- search

  const SEARCH_BASE: string := "SELECT * FROM listings" + " WHERE 1=1" + " AND available = TRUE"

  /**
   * The clause a field filter adds, if any: the title only when it is not blank (matched
   * lower-cased, anywhere), category and the price bounds when present.
   */
  function FieldClause(q: SearchQuery, f: Filter): (clauses: seq<Clause>)
    ensures |clauses| <= 1
    ensures clauses != [] ==> clauses[0].filter == f
    ensures f.TitleLike? ==> (|clauses| == 1 <==> q.title.Some? && !IsBlank(q.title.value))
    ensures f.CategoryIs? ==> (|clauses| == 1 <==> q.category.Some?)
    ensures f.PriceAtLeast? ==> (|clauses| == 1 <==> q.minPrice.Some?)
    ensures f.PriceAtMost? ==> (|clauses| == 1 <==> q.maxPrice.Some?)
    ensures f.AnyTag? ==> clauses == []
  {
    match f
    case TitleLike =>
      if q.title.Some? && !IsBlank(q.title.value) then [Clause(TitleLike, Text("%" + ToLower(Trim(q.title.value)) + "%"))] else []
    case CategoryIs => if q.category.Some? then [Clause(CategoryIs, Text(q.category.value))] else []
    case PriceAtLeast => if q.minPrice.Some? then [Clause(PriceAtLeast, Number(q.minPrice.value))] else []
    case PriceAtMost => if q.maxPrice.Some? then [Clause(PriceAtMost, Number(q.maxPrice.value))] else []
    case AnyTag(_) => []
  }

  /** A field filter's clause is a clause of that filter. */
  lemma FieldClauseFilter(q: SearchQuery, f: Filter)
    ensures forall c :: c in FieldClause(q, f) ==> c.filter == f
  {
  }

  /** The field filters, in the order the builder tests them. */
  function FieldClauses(q: SearchQuery): seq<Clause> {
    FieldClause(q, TitleLike) + FieldClause(q, CategoryIs) + FieldClause(q, PriceAtLeast) + FieldClause(q, PriceAtMost)
  }

  /** One test per tag, in order; only the first opens the group. */
  function TagClauses(tags: seq<string>): (clauses: seq<Clause>)
    ensures |clauses| == |tags|
    ensures forall k :: 0 <= k < |tags| ==> clauses[k] == Clause(AnyTag(k == 0), Text(tags[k]))
  {
    if tags == [] then [] else TagClauses(tags[..|tags| - 1]) + [Clause(AnyTag(|tags| == 1), Text(tags[|tags| - 1]))]
  }

  /** The search's tag list; a missing one has no tags. */
  function SearchTags(q: SearchQuery): seq<string> {
    if q.tags.Some? then q.tags.value else []
  }

  /** The tag group: absent for no tags, else the tag tests in parentheses. */
  function TagGroup(tags: seq<string>): string {
    if tags == [] then [] else " AND (" + ClauseText(TagClauses(tags)) + ")"
  }

  /** Every clause of a search, in the order its placeholders appear. */
  function SearchClauses(q: SearchQuery): seq<Clause> {
    FieldClauses(q) + TagClauses(SearchTags(q))
  }

  /** The sort key of each sorter. */
  function SortKey(sorter: Sorter): string {
    match sorter
    case PriceAsc => "price ASC"
    case PriceDesc => "price DESC"
  }

  /** The ORDER BY suffix of a search, if it is sorted. */
  function OrderBy(sorter: Option<Sorter>): string {
    if sorter.None? then [] else " ORDER BY " + SortKey(sorter.value)
  }

  /** The whole search text: base, field filters, tag group, order. */
  function SearchSql(q: SearchQuery): string {
    SEARCH_BASE + ClauseText(FieldClauses(q)) + TagGroup(SearchTags(q)) + OrderBy(q.sorter)
  }

  /**
   * The query text and parameters of getListings, built step by step as the
   * StringBuilder and the parameter list are.
   */
  method BuildSearchQuery(q: SearchQuery) returns (sql: string, params: seq<SqlParam>)
    ensures sql == SearchSql(q)
    ensures params == ClauseParams(SearchClauses(q))
  {
    ghost var clauses: seq<Clause> := [];
    sql := SEARCH_BASE;
    params := [];
    AppendNothing(SEARCH_BASE);
    // each filter test of the builder: the clause is appended when the filter applies
    sql, params, clauses := AddFilter(SEARCH_BASE, sql, params, clauses, FieldClause(q, TitleLike));
    sql, params, clauses := AddFilter(SEARCH_BASE, sql, params, clauses, FieldClause(q, CategoryIs));
    sql, params, clauses := AddFilter(SEARCH_BASE, sql, params, clauses, FieldClause(q, PriceAtLeast));
    sql, params, clauses := AddFilter(SEARCH_BASE, sql, params, clauses, FieldClause(q, PriceAtMost));
    AppendNothing(FieldClause(q, TitleLike));
    assert clauses == FieldClauses(q);
    sql, params := AppendTagGroup(sql, params, SearchTags(q));
    ClauseParamsConcat(FieldClauses(q), TagClauses(SearchTags(q)));
    sql := AppendOrderBy(sql, q.sorter);
  }

  /** The tag test of the builder: the tag group, only for a tag list that is not empty. */
  method AppendTagGroup(sql: string, params: seq<SqlParam>, tags: seq<string>) returns (sql': string, params': seq<SqlParam>)
    ensures sql' == sql + TagGroup(tags)
    ensures params' == params + ClauseParams(TagClauses(tags))
  {
    if tags != [] {
      var group;
      group, params' := BuildTagGroup(tags, params);
      sql' := sql + group;
    } else {
      AppendNothing(sql);
      AppendNothing(params);
      sql', params' := sql, params;
    }
  }

  /** The sorter switch: " ORDER BY " and the sort key, or nothing when unsorted. */
  method AppendOrderBy(sql: string, sorter: Option<Sorter>) returns (sql': string)
    ensures sql' == sql + OrderBy(sorter)
  {
    if sorter.Some? {
      sql' := sql + " ORDER BY ";
      match sorter.value
      case PriceAsc =>
        sql' := sql' + "price ASC";
      case PriceDesc =>
        sql' := sql' + "price DESC";
      Assoc(sql, " ORDER BY ", SortKey(sorter.value));
    } else {
      AppendNothing(sql);
      sql' := sql;
    }
  }

  /** One `if (filter applies) { sqlBuilder.append(...); params.add(...); }` step. */
  method AddFilter(ghost prefix: string, sql: string, params: seq<SqlParam>, ghost clauses: seq<Clause>, applies: seq<Clause>)
    returns (sql': string, params': seq<SqlParam>, ghost clauses': seq<Clause>)
    requires |applies| <= 1
    requires sql == prefix + ClauseText(clauses) && params == ClauseParams(clauses)
    ensures clauses' == clauses + applies
    ensures sql' == prefix + ClauseText(clauses') && params' == ClauseParams(clauses')
  {
    if applies != [] {
      sql', params', clauses' := AddClause(prefix, sql, params, clauses, applies[0]);
      assert applies == [applies[0]];
    } else {
      sql', params', clauses' := sql, params, clauses;
      assert clauses + applies == clauses;
    }
  }

  /** Appends one clause's text and parameter; the ghost list records the clause. */
  method AddClause(ghost prefix: string, sql: string, params: seq<SqlParam>, ghost clauses: seq<Clause>, c: Clause)
    returns (sql': string, params': seq<SqlParam>, ghost clauses': seq<Clause>)
    requires sql == prefix + ClauseText(clauses) && params == ClauseParams(clauses)
    ensures clauses' == clauses + [c]
    ensures sql' == prefix + ClauseText(clauses') && params' == ClauseParams(clauses')
  {
    clauses' := clauses + [c];
    AppendClause(clauses, c);
    Assoc(prefix, ClauseText(clauses), FilterSql(c.filter));
    sql' := sql + FilterSql(c.filter);
    params' := params + [c.param];
  }

  /** The tag loop: " AND (", one test per tag joined by " OR ", ")"; one parameter per tag. */
  method BuildTagGroup(tags: seq<string>, params: seq<SqlParam>) returns (group: string, params': seq<SqlParam>)
    requires tags != []
    ensures group == TagGroup(tags)
    ensures params' == params + ClauseParams(TagClauses(tags))
  {
    var text: string := [];
    params' := params;
    var i := 0;
    while i < |tags|
      invariant 0 <= i <= |tags|
      invariant text == ClauseText(TagClauses(tags[..i]))
      invariant params' == params + ClauseParams(TagClauses(tags[..i]))
    {
      text := AppendTagTest(text, tags, i);
      NextTagClause(tags, i);
      Assoc(params, ClauseParams(TagClauses(tags[..i])), [Text(tags[i])]);
      params' := params' + [Text(tags[i])];
      i := i + 1;
    }
    assert tags[..i] == tags;
    group := " AND (" + text + ")";
  }

  /** One pass of the tag loop: " OR " before every test but the first, then the test. */
  method AppendTagTest(text: string, ghost tags: seq<string>, i: nat) returns (text': string)
    requires i < |tags| && text == ClauseText(TagClauses(tags[..i]))
    ensures text' == ClauseText(TagClauses(tags[..i + 1]))
  {
    if i > 0 {
      text' := text + " OR ";
    } else {
      text' := text;
    }
    text' := text' + "? = ANY(tags)";
    NextTagClause(tags, i);
    if i == 0 {
      AppendNothing(text);
    }
  }

  lemma TagTestSplit()
    ensures "? = ANY(tags)" == Bind([]) + " = ANY(tags)"
  {
  }

  /** One more tag adds one test and one parameter. */
  lemma NextTagClause(tags: seq<string>, i: nat)
    requires i < |tags|
    ensures ClauseText(TagClauses(tags[..i + 1])) == ClauseText(TagClauses(tags[..i])) + (if i > 0 then " OR " else []) + "? = ANY(tags)"
    ensures ClauseParams(TagClauses(tags[..i + 1])) == ClauseParams(TagClauses(tags[..i])) + [Text(tags[i])]
  {
    var c := Clause(AnyTag(i == 0), Text(tags[i]));
    assert tags[..i + 1][..i] == tags[..i];
    assert TagClauses(tags[..i + 1]) == TagClauses(tags[..i]) + [c];
    AppendClause(TagClauses(tags[..i]), c);
    var front := ClauseText(TagClauses(tags[..i]));
    assert ClauseText(TagClauses(tags[..i + 1])) == front + (if i > 0 then " OR " else []) + "? = ANY(tags)" by {
      TagTestSplit();
      if i > 0 {
        Assoc(" OR ", "?", " = ANY(tags)");
        Assoc(front, " OR ", "? = ANY(tags)");
      } else {
        AppendNothing("?");
        AppendNothing(front);
      }
    }
  }

  /** The search text holds one placeholder per parameter. */
  lemma SearchPlaceholders(q: SearchQuery)
    ensures Placeholders(SearchSql(q)) == |ClauseParams(SearchClauses(q))|
  {
    var tags := SearchTags(q);
    var fieldText := ClauseText(FieldClauses(q));
    ClausePlaceholders(FieldClauses(q));
    BasePlain();
    PlaceholdersConcat(SEARCH_BASE, fieldText);
    TagGroupPlaceholders(tags);
    PlaceholdersConcat(SEARCH_BASE + fieldText, TagGroup(tags));
    OrderByPlain(q.sorter);
    PlaceholdersConcat(SEARCH_BASE + fieldText + TagGroup(tags), OrderBy(q.sorter));
  }

  lemma BasePlain()
    ensures Placeholders(SEARCH_BASE) == 0
  {
    NoPlaceholder(SEARCH_BASE);
  }

  lemma TagGroupPlaceholders(tags: seq<string>)
    ensures Placeholders(TagGroup(tags)) == |tags|
  {
    if tags != [] {
      var text := ClauseText(TagClauses(tags));
      ClausePlaceholders(TagClauses(tags));
      NoPlaceholder(" AND (");
      NoPlaceholder(")");
      PlaceholdersConcat(" AND (", text);
      PlaceholdersConcat(" AND (" + text, ")");
    }
  }

  lemma OrderByPlain(sorter: Option<Sorter>)
    ensures Placeholders(OrderBy(sorter)) == 0
  {
    if sorter.Some? {
      assert '?' !in SortKey(sorter.value) by {
        match sorter.value
        case PriceAsc =>
        case PriceDesc =>
      }
      NoPlaceholder(" ORDER BY ");
      NoPlaceholder(SortKey(sorter.value));
      PlaceholdersConcat(" ORDER BY ", SortKey(sorter.value));
    }
  }

  /**
   * Search never returns a listing marked unavailable: the text always starts with the
   * base query that requires availability, whatever the filters.
   */
  lemma SearchOnlyAvailable(q: SearchQuery)
    ensures |SEARCH_BASE| <= |SearchSql(q)| && SearchSql(q)[..|SEARCH_BASE|] == SEARCH_BASE
  {
    var rest := ClauseText(FieldClauses(q)) + TagGroup(SearchTags(q)) + OrderBy(q.sorter);
    Assoc(SEARCH_BASE, ClauseText(FieldClauses(q)), TagGroup(SearchTags(q)));
    Assoc(SEARCH_BASE, ClauseText(FieldClauses(q)) + TagGroup(SearchTags(q)), OrderBy(q.sorter));
    assert SearchSql(q) == SEARCH_BASE + rest;
  }

  /**
   * The title filter is the first parameter exactly when the title is not blank, and then
   * it is the trimmed, lower-cased title between two wildcards.
   */
  lemma SearchTitleParam(q: SearchQuery)
    ensures q.title.Some? && !IsBlank(q.title.value) ==>
      ClauseParams(SearchClauses(q))[0] == Text("%" + ToLower(Trim(q.title.value)) + "%")
    ensures q.title.None? || IsBlank(q.title.value) ==> forall c :: c in SearchClauses(q) ==> c.filter != TitleLike
  {
    var clauses := SearchClauses(q);
    if q.title.Some? && !IsBlank(q.title.value) {
      assert clauses[0] == FieldClause(q, TitleLike)[0];
      assert ClauseParams(clauses)[0] == clauses[0].param;
    } else {
      FieldClauseFilter(q, CategoryIs);
      FieldClauseFilter(q, PriceAtLeast);
      FieldClauseFilter(q, PriceAtMost);
      var tagClauses := TagClauses(SearchTags(q));
      assert forall c :: c in tagClauses ==> c.filter.AnyTag?;
      assert FieldClause(q, TitleLike) == [];
    }
  }

  /** The tags are the last parameters, one per tag, in order, after the field filters'. */
  lemma SearchTagParams(q: SearchQuery)
    ensures |ClauseParams(SearchClauses(q))| == |FieldClauses(q)| + |SearchTags(q)|
    ensures forall k :: 0 <= k < |SearchTags(q)| ==> ClauseParams(SearchClauses(q))[|FieldClauses(q)| + k] == Text(SearchTags(q)[k])
  {
    TagParamsLast(FieldClauses(q), SearchTags(q));
  }

  lemma TagParamsLast(fields: seq<Clause>, tags: seq<string>)
    ensures |ClauseParams(fields + TagClauses(tags))| == |fields| + |tags|
    ensures forall k :: 0 <= k < |tags| ==> ClauseParams(fields + TagClauses(tags))[|fields| + k] == Text(tags[k])
  {
    var tagClauses := TagClauses(tags);
    var all := fields + tagClauses;
    forall k | 0 <= k < |tags|
      ensures ClauseParams(all)[|fields| + k] == Text(tags[k])
    {
      assert all[|fields| + k] == tagClauses[k];
    }
  }

  /** The parameters of two clause lists, one after the other. */
  lemma ClauseParamsConcat(a: seq<Clause>, b: seq<Clause>)
    ensures ClauseParams(a + b) == ClauseParams(a) + ClauseParams(b)
  {
    var whole := ClauseParams(a + b);
    var parts := ClauseParams(a) + ClauseParams(b);
    assert |whole| == |parts|;
    forall k | 0 <= k < |whole|
      ensures whole[k] == parts[k]
    {
      if k < |a| {
        assert (a + b)[k] == a[k];
      } else {
        assert (a + b)[k] == b[k - |a|];
      }
    }
  }

  /** A sorted search ends with its ORDER BY; an unsorted one holds none. */
  lemma SearchOrder(q: SearchQuery)
    ensures q.sorter == Some(PriceAsc) ==> EndsWith(SearchSql(q), " ORDER BY " + "price ASC")
    ensures q.sorter == Some(PriceDesc) ==> EndsWith(SearchSql(q), " ORDER BY " + "price DESC")
    ensures q.sorter.None? ==> SearchSql(q) == SEARCH_BASE + ClauseText(FieldClauses(q)) + TagGroup(SearchTags(q))
  {
    var front := SEARCH_BASE + ClauseText(FieldClauses(q)) + TagGroup(SearchTags(q));
    if q.sorter.Some? {
      assert SearchSql(q) == front + OrderBy(q.sorter);
      assert OrderBy(q.sorter) == SearchSql(q)[|front|..];
    } else {
      AppendNothing(front);
    }
  }

  /** The tag group of two tags: both tests, joined by OR, in parentheses. */
  lemma TwoTagGroup(a: string, b: string)
    ensures TagGroup([a, b]) == " AND (" + ("? = ANY(tags)" + " OR " + "? = ANY(tags)") + ")"
    ensures ClauseParams(TagClauses([a, b])) == [Text(a), Text(b)]
  {
    var tags := [a, b];
    assert ClauseText(TagClauses(tags)) == "? = ANY(tags)" + " OR " + "? = ANY(tags)" by {
      NextTagClause(tags, 0);
      NextTagClause(tags, 1);
      assert tags[..0] == [] && tags[..2] == tags;
      AppendNothing("? = ANY(tags)");
      AppendNothing([] + "? = ANY(tags)");
    }
    var params := ClauseParams(TagClauses(tags));
    assert |params| == 2 && params[0] == Text(a) && params[1] == Text(b);
  }

  /** An empty search is the base query alone. */
  lemma EmptySearchSql()
    ensures SearchSql(SearchQuery(None, None, None, None, None, None)) == SEARCH_BASE
    ensures ClauseParams(SearchClauses(SearchQuery(None, None, None, None, None, None))) == []
  {
    var q := SearchQuery(None, None, None, None, None, None);
    assert FieldClauses(q) == [];
    AppendNothing(SEARCH_BASE);
  }

  // ----------------------------------------------------------- update queries

  /** The columns an UPDATE can set. */
  datatype Column =
    | TitleColumn | DescriptionColumn | PriceColumn | CategoryColumn | ConditionColumn
    | ImageUrlColumn | AvailableColumn | TagsColumn
    | NameColumn | PhoneNumberColumn | SchoolColumn

  function ColumnName(c: Column): string {
    match c
    case TitleColumn => "title"
    case DescriptionColumn => "description"
    case PriceColumn => "price"
    case CategoryColumn => "category"
    case ConditionColumn => "condition"
    case ImageUrlColumn => "image_url"
    case AvailableColumn => "available"
    case TagsColumn => "tags"
    case NameColumn => "name"
    case PhoneNumberColumn => "phone_number"
    case SchoolColumn => "school"
  }

  /** One `column = ?` item of an UPDATE's SET list and the value it sets. */
  datatype Assignment = Assignment(column: Column, param: SqlParam)

  /** The text one item appends: a comma unless it is the first, then `column = ?`. */
  function ItemSql(first: bool, a: Assignment): string {
    Bind(ItemFront(first, a.column))
  }

  /** The text of an item before its placeholder. */
  function ItemFront(first: bool, c: Column): string {
    (if first then [] else ", ") + ColumnName(c) + " = "
  }

  /** Each item's text holds one placeholder. */
  lemma ItemPlaceholder(first: bool, a: Assignment)
    ensures Placeholders(ItemSql(first, a)) == 1
  {
    ColumnPlain(a.column);
    BindPlaceholder(ItemFront(first, a.column));
  }

  lemma ColumnPlain(c: Column)
    ensures '?' !in ItemFront(true, c) && '?' !in ItemFront(false, c)
  {
    match c
    case TitleColumn =>
    case DescriptionColumn =>
    case PriceColumn =>
    case CategoryColumn =>
    case ConditionColumn =>
    case ImageUrlColumn =>
    case AvailableColumn =>
    case TagsColumn =>
    case NameColumn =>
    case PhoneNumberColumn =>
    case SchoolColumn =>
  }

  /** The SET list: the items joined by ", ". */
  function SetList(items: seq<Assignment>): string {
    if items == [] then []
    else
      var front := items[..|items| - 1];
      SetList(front) + ItemSql(front == [], items[|items| - 1])
  }

  /** The values of the SET list, in order. */
  function SetParams(items: seq<Assignment>): seq<SqlParam> {
    ParamsOf(items, (a: Assignment) => a.param)
  }

  /** The SET list holds one placeholder per item. */
  lemma {:induction false} SetListPlaceholders(items: seq<Assignment>)
    ensures Placeholders(SetList(items)) == |items|
  {
    if items != [] {
      var front := items[..|items| - 1];
      SetListPlaceholders(front);
      ItemPlaceholder(front == [], items[|items| - 1]);
      PlaceholdersConcat(SetList(front), ItemSql(front == [], items[|items| - 1]));
    }
  }

  /** An UPDATE text holds one placeholder per SET item and one for the row it picks. */
  lemma UpdatePlaceholders(head: string, items: seq<Assignment>, where: string)
    requires '?' !in head && '?' !in where
    ensures Placeholders(head + SetList(items) + Bind(where)) == |items| + 1
  {
    SetListPlaceholders(items);
    NoPlaceholder(head);
    BindPlaceholder(where);
    PlaceholdersConcat(head, SetList(items));
    PlaceholdersConcat(head + SetList(items), Bind(where));
  }

  /** `sqlBuilder.append(hasUpdates ? ", " : "").append("<column> = ?")` and `params.add(value)`. */
  method AppendAssignment(ghost prefix: string, sql: string, params: seq<SqlParam>, hasUpdates: bool, ghost items: seq<Assignment>, a: Assignment)
    returns (sql': string, params': seq<SqlParam>, hasUpdates': bool, ghost items': seq<Assignment>)
    requires sql == prefix + SetList(items) && params == SetParams(items) && (hasUpdates <==> items != [])
    ensures items' == items + [a]
    ensures sql' == prefix + SetList(items') && params' == SetParams(items') && hasUpdates'
  {
    items' := items + [a];
    assert items'[..|items'| - 1] == items;
    Assoc(prefix, SetList(items), ItemSql(!hasUpdates, a));
    sql' := sql + ItemSql(!hasUpdates, a);
    params' := params + [a.param];
    hasUpdates' := true;
  }

  /** One `if (field != null) { append; params.add(field); hasUpdates = true; }` block. */
  method AppendIfSet(ghost prefix: string, sql: string, params: seq<SqlParam>, hasUpdates: bool, ghost items: seq<Assignment>, set_: seq<Assignment>)
    returns (sql': string, params': seq<SqlParam>, hasUpdates': bool, ghost items': seq<Assignment>)
    requires |set_| <= 1
    requires sql == prefix + SetList(items) && params == SetParams(items) && (hasUpdates <==> items != [])
    ensures items' == items + set_
    ensures sql' == prefix + SetList(items') && params' == SetParams(items') && (hasUpdates' <==> items' != [])
  {
    if set_ != [] {
      sql', params', hasUpdates', items' := AppendAssignment(prefix, sql, params, hasUpdates, items, set_[0]);
      assert set_ == [set_[0]];
    } else {
      sql', params', hasUpdates', items' := sql, params, hasUpdates, items;
      assert items + set_ == items;
    }
  }

  /** The item a listing field adds, if the update carries that field. */
  function ListingField(patch: ListingPatch, c: Column): (items: seq<Assignment>)
    ensures |items| <= 1
    ensures items != [] ==> items[0].column == c
    ensures c.AvailableColumn? ==> |items| == 1
    ensures c.NameColumn? || c.PhoneNumberColumn? || c.SchoolColumn? ==> items == []
  {
    match c
    case TitleColumn => if patch.title.Some? then [Assignment(c, Text(patch.title.value))] else []
    case DescriptionColumn => if patch.description.Some? then [Assignment(c, Text(patch.description.value))] else []
    case PriceColumn => if patch.price.Some? then [Assignment(c, Number(patch.price.value))] else []
    case CategoryColumn => if patch.category.Some? then [Assignment(c, Text(patch.category.value))] else []
    case ConditionColumn => if patch.condition.Some? then [Assignment(c, Text(patch.condition.value))] else []
    case ImageUrlColumn => if patch.imageUrl.Some? then [Assignment(c, Text(patch.imageUrl.value))] else []
    case AvailableColumn => [Assignment(c, Flag(patch.available))]
    case TagsColumn => if patch.tags.Some? then [Assignment(c, TextArray(patch.tags.value))] else []
    case _ => []
  }

  /** The SET items of a listing update: the present fields, in the order the builder tests them. */
  function ListingAssignments(patch: ListingPatch): seq<Assignment> {
    ListingField(patch, TitleColumn) + ListingField(patch, DescriptionColumn) + ListingField(patch, PriceColumn)
    + ListingField(patch, CategoryColumn) + ListingField(patch, ConditionColumn) + ListingField(patch, ImageUrlColumn)
    + ListingField(patch, AvailableColumn) + ListingField(patch, TagsColumn)
  }

  /** A query text and its parameters. */
  datatype Statement = Statement(sql: string, params: seq<SqlParam>)

  const LISTING_UPDATE: string := "UPDATE listings SET "

  /** The statement of a listing update, the row id bound last. */
  function ListingUpdateStatement(listingId: int, patch: ListingPatch): Statement {
    var items := ListingAssignments(patch);
    Statement(LISTING_UPDATE + SetList(items) + Bind(" WHERE id = "), SetParams(items) + [RowId(listingId)])
  }

  /**
   * The query of updateListing: a negative new price is refused before anything is built;
   * otherwise one SET item per present field. The availability flag is a primitive and
   * always present, so the "no fields to update" branch is never taken.
   */
  method BuildListingUpdate(listingId: int, patch: ListingPatch) returns (r: Result<Statement>)
    ensures patch.price.Some? && patch.price.value < 0.0 ==> r == Failure("Price cannot be negative")
    ensures !(patch.price.Some? && patch.price.value < 0.0) ==> r == Success(ListingUpdateStatement(listingId, patch))
  {
    if patch.price.Some? {
      var checked := CheckPrice(patch.price.value);
      if checked.Failure? {
        return Failure(checked.error);
      }
    }
    var sql := LISTING_UPDATE;
    var params: seq<SqlParam> := [];
    var hasUpdates := false;
    ghost var items: seq<Assignment> := [];
    AppendNothing(LISTING_UPDATE);
    // each `if (updatedListing.getX() != null)` block of the builder, in order
    sql, params, hasUpdates, items := AppendIfSet(LISTING_UPDATE, sql, params, hasUpdates, items, ListingField(patch, TitleColumn));
    sql, params, hasUpdates, items := AppendIfSet(LISTING_UPDATE, sql, params, hasUpdates, items, ListingField(patch, DescriptionColumn));
    sql, params, hasUpdates, items := AppendIfSet(LISTING_UPDATE, sql, params, hasUpdates, items, ListingField(patch, PriceColumn));
    sql, params, hasUpdates, items := AppendIfSet(LISTING_UPDATE, sql, params, hasUpdates, items, ListingField(patch, CategoryColumn));
    sql, params, hasUpdates, items := AppendIfSet(LISTING_UPDATE, sql, params, hasUpdates, items, ListingField(patch, ConditionColumn));
    sql, params, hasUpdates, items := AppendIfSet(LISTING_UPDATE, sql, params, hasUpdates, items, ListingField(patch, ImageUrlColumn));
    sql, params, hasUpdates, items := AppendIfSet(LISTING_UPDATE, sql, params, hasUpdates, items, ListingField(patch, AvailableColumn));
    sql, params, hasUpdates, items := AppendIfSet(LISTING_UPDATE, sql, params, hasUpdates, items, ListingField(patch, TagsColumn));
    AppendNothing(ListingField(patch, TitleColumn));
    assert items == ListingAssignments(patch);
    sql := sql + Bind(" WHERE id = ");
    params := params + [RowId(listingId)];
    r := Success(Statement(sql, params));
  }

  /**
   * A listing update has one placeholder per parameter, always sets the availability
   * flag, and binds the row id last.
   */
  lemma ListingUpdateShape(listingId: int, patch: ListingPatch)
    ensures var s := ListingUpdateStatement(listingId, patch);
      && Placeholders(s.sql) == |s.params|
      && s.params[|s.params| - 1] == RowId(listingId)
      && Flag(patch.available) in s.params
  {
    var items := ListingAssignments(patch);
    UpdatePlaceholders(LISTING_UPDATE, items, " WHERE id = ");
    assert Flag(patch.available) in SetParams(items) + [RowId(listingId)] by {
      var before := ListingField(patch, TitleColumn) + ListingField(patch, DescriptionColumn) + ListingField(patch, PriceColumn)
        + ListingField(patch, CategoryColumn) + ListingField(patch, ConditionColumn) + ListingField(patch, ImageUrlColumn);
      var flag := Assignment(AvailableColumn, Flag(patch.available));
      assert ListingField(patch, AvailableColumn) == [flag];
      assert items == before + [flag] + ListingField(patch, TagsColumn);
      ParamAmong(before, flag, ListingField(patch, TagsColumn), RowId(listingId));
    }
  }

  /** An item's value is among the statement's parameters. */
  lemma ParamAmong(before: seq<Assignment>, a: Assignment, after: seq<Assignment>, last: SqlParam)
    ensures a.param in SetParams(before + [a] + after) + [last]
  {
    var items := before + [a] + after;
    assert items[|before|] == a;
    assert (SetParams(items) + [last])[|before|] == a.param;
  }

  /** A listing update that changes only the availability sets that one column. */
  lemma AvailabilityOnlyUpdate(listingId: int, available: bool)
    ensures ListingUpdateStatement(listingId, ListingPatch(None, None, None, None, None, None, None, available))
      == Statement(LISTING_UPDATE + Bind("available" + " = ") + Bind(" WHERE id = "), [Flag(available), RowId(listingId)])
  {
    var a := Assignment(AvailableColumn, Flag(available));
    var items := ListingAssignments(ListingPatch(None, None, None, None, None, None, None, available));
    assert items == [a];
    assert items[..0] == [];
    AppendNothing(ItemSql(true, a));
    AppendNothing("available");
    assert ItemSql(true, a) == Bind("available" + " = ");
    assert SetList(items) == Bind("available" + " = ");
    assert SetParams(items) == [Flag(available)];
  }

  /** The item a user field adds, if the update carries that field. */
  function UserField(updated: UserPatch, c: Column): (items: seq<Assignment>)
    ensures |items| <= 1
    ensures items != [] ==> items[0].column == c
    ensures c.NameColumn? ==> (|items| == 1 <==> updated.name.Some?)
    ensures c.PhoneNumberColumn? ==> (|items| == 1 <==> updated.phoneNumber.Some?)
    ensures c.SchoolColumn? ==> (|items| == 1 <==> updated.school.Some?)
    ensures !(c.NameColumn? || c.PhoneNumberColumn? || c.SchoolColumn?) ==> items == []
  {
    match c
    case NameColumn => if updated.name.Some? then [Assignment(c, Text(updated.name.value))] else []
    case PhoneNumberColumn => if updated.phoneNumber.Some? then [Assignment(c, Text(updated.phoneNumber.value))] else []
    case SchoolColumn => if updated.school.Some? then [Assignment(c, Text(updated.school.value))] else []
    case _ => []
  }

  /** The SET items of a user update: name, phone number and school, when present. */
  function UserAssignments(updated: UserPatch): seq<Assignment> {
    UserField(updated, NameColumn) + UserField(updated, PhoneNumberColumn) + UserField(updated, SchoolColumn)
  }

  const USER_UPDATE: string := "UPDATE users SET "

  /** The statement of a user update, the clerk id (possibly null) bound last. */
  function UserUpdateStatement(clerkId: Option<string>, updated: UserPatch): Statement {
    var items := UserAssignments(updated);
    Statement(USER_UPDATE + SetList(items) + Bind(" WHERE clerk_id = "), SetParams(items) + [NullableText(clerkId)])
  }

  /**
   * The query of updateUser: one SET item per present field. Unlike the listing builder
   * there is no "no fields" test: an empty update still builds a statement, and a missing
   * clerk id is bound as null rather than refused.
   */
  method BuildUserUpdate(clerkId: Option<string>, updated: UserPatch) returns (s: Statement)
    ensures s == UserUpdateStatement(clerkId, updated)
  {
    var sql := USER_UPDATE;
    var params: seq<SqlParam> := [];
    var hasUpdates := false;
    ghost var items: seq<Assignment> := [];
    AppendNothing(USER_UPDATE);
    sql, params, hasUpdates, items := AppendIfSet(USER_UPDATE, sql, params, hasUpdates, items, UserField(updated, NameColumn));
    sql, params, hasUpdates, items := AppendIfSet(USER_UPDATE, sql, params, hasUpdates, items, UserField(updated, PhoneNumberColumn));
    sql, params, hasUpdates, items := AppendIfSet(USER_UPDATE, sql, params, hasUpdates, items, UserField(updated, SchoolColumn));
    AppendNothing(UserField(updated, NameColumn));
    assert items == UserAssignments(updated);
    sql := sql + Bind(" WHERE clerk_id = ");
    params := params + [NullableText(clerkId)];
    s := Statement(sql, params);
  }

  /** A user update has one placeholder per parameter and binds the clerk id last. */
  lemma UserUpdateShape(clerkId: Option<string>, updated: UserPatch)
    ensures var s := UserUpdateStatement(clerkId, updated);
      && Placeholders(s.sql) == |s.params|
      && (clerkId.Some? ==> s.params[|s.params| - 1] == Text(clerkId.value))
      && (clerkId.None? ==> s.params[|s.params| - 1] == SqlNull)
  {
    UpdatePlaceholders(USER_UPDATE, UserAssignments(updated), " WHERE clerk_id = ");
  }

  /** With nothing to change, the user update is a statement with an empty SET list. */
  lemma EmptyUserUpdate(clerkId: Option<string>)
    ensures UserUpdateStatement(clerkId, UserPatch(None, None, None))
      == Statement(USER_UPDATE + Bind(" WHERE clerk_id = "), [NullableText(clerkId)])
  {
    assert UserAssignments(UserPatch(None, None, None)) == [];
    AppendNothing(USER_UPDATE);
  }
}
