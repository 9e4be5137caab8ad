/** The normalisation `getPaginatedTransactions` and
    `getPaginatedCategories` apply to the table's query parameters before
    building the query: whitelisted ordering column, `asc`/`desc`
    direction, and the LIKE pattern of the search term. */
module QueryParams {
  import opened Wrappers
  import opened Text

  datatype DataTableQueryParams = DataTableQueryParams(
    start: int,
    length: int,
    orderBy: string,
    orderDir: string,
    searchTerm: string)

  /** What the query builder receives. */
  datatype TableQuery = TableQuery(
    firstResult: int,
    maxResults: int,
    orderColumn: string,
    orderDir: string,
    searchPattern: Option<string>)

  const TRANSACTION_ORDER_COLUMNS: seq<string> := ["description", "amount", "date", "category"]
  const CATEGORY_ORDER_COLUMNS: seq<string> := ["name", "createdAt", "updatedAt"]

  /** `in_array($orderBy, $allowed) ? $orderBy : $fallback`. */
  function Whitelisted(orderBy: string, allowed: seq<string>, fallback: string): (r: string)
    requires fallback in allowed
    ensures r in allowed
    ensures r == orderBy <==> orderBy in allowed
  {
    if orderBy in allowed then orderBy else fallback
  }

  /** The reference for the direction: the three letters a, s, c in either
      case. */
  predicate IsAscIgnoringCase(dir: string)
  {
    && |dir| == 3
    && (dir[0] == 'a' || dir[0] == 'A')
    && (dir[1] == 's' || dir[1] == 'S')
    && (dir[2] == 'c' || dir[2] == 'C')
  }

  /** `strtolower($orderDir) === 'asc' ? 'asc' : 'desc'`. */
  function OrderDirection(dir: string): (r: string)
    ensures r == "asc" || r == "desc"
    ensures r == "asc" <==> IsAscIgnoringCase(dir)
  {
    var lower := Lower(dir);
    assert IsAscIgnoringCase(dir) ==> lower == "asc";
    assert lower == "asc" ==> lower[0] == 'a' && lower[1] == 's' && lower[2] == 'c';
    if lower == "asc" then "asc" else "desc"
  }

  predicate IsLikeWildcard(c: char)
  {
    c == '%' || c == '_'
  }

  /** `addcslashes($term, '%_')`: a backslash before every `%` and `_`;
      backslashes themselves are left as they are. */
  function EscapeWildcards(s: string): (r: string)
    ensures |r| >= |s|
  {
    if s == [] then []
    else (if IsLikeWildcard(s[0]) then ['\\', s[0]] else [s[0]]) + EscapeWildcards(s[1..])
  }

  /** Drops the backslash of every `\%` and `\_`: the inverse of
      `EscapeWildcards`. */
  function UnescapeWildcards(s: string): string
  {
    if s == [] then []
    else if |s| >= 2 && s[0] == '\\' && IsLikeWildcard(s[1]) then [s[1]] + UnescapeWildcards(s[2..])
    else [s[0]] + UnescapeWildcards(s[1..])
  }

  lemma {:induction false} EscapeNeverStartsWithWildcard(s: string)
    ensures EscapeWildcards(s) == [] || !IsLikeWildcard(EscapeWildcards(s)[0])
  {
  }

  /** Escaping loses nothing: unescaping gives the term back. */
  lemma {:induction false} EscapeRoundTrip(s: string)
    ensures UnescapeWildcards(EscapeWildcards(s)) == s
  {
    if s != [] {
      var rest := EscapeWildcards(s[1..]);
      EscapeRoundTrip(s[1..]);
      if IsLikeWildcard(s[0]) {
        assert EscapeWildcards(s) == ['\\', s[0]] + rest;
        assert (['\\', s[0]] + rest)[2..] == rest;
      } else {
        assert EscapeWildcards(s) == [s[0]] + rest;
        EscapeNeverStartsWithWildcard(s[1..]);
        assert ([s[0]] + rest)[1..] == rest;
      }
    }
  }

  /** Every `%` and `_` of the escaped term has a backslash right before it. */
  lemma {:induction false} EscapedWildcardsArePreceded(s: string)
    ensures var r := EscapeWildcards(s);
      forall i :: 0 <= i < |r| && IsLikeWildcard(r[i]) ==> i > 0 && r[i - 1] == '\\'
  {
    if s != [] {
      EscapedWildcardsArePreceded(s[1..]);
      EscapeNeverStartsWithWildcard(s[1..]);
      var head := if IsLikeWildcard(s[0]) then ['\\', s[0]] else [s[0]];
      var rest := EscapeWildcards(s[1..]);
      assert EscapeWildcards(s) == head + rest;
      forall i | 0 <= i < |head + rest| && IsLikeWildcard((head + rest)[i])
        ensures i > 0 && (head + rest)[i - 1] == '\\'
      {
        if i >= |head| {
          assert (head + rest)[i] == rest[i - |head|];
          if i - |head| > 0 {
            assert (head + rest)[i - 1] == rest[i - |head| - 1];
          }
        }
      }
    }
  }

  /** One item of a LIKE pattern read with the default escape character. */
  datatype LikeToken = Literal(c: char) | AnySequence | AnyCharacter

  /** How a LIKE pattern is read: `\x` is the literal `x`, `%` and `_` are
      wildcards, everything else (a trailing lone backslash included) is
      literal. */
  function LikeTokens(p: string): seq<LikeToken>
  {
    if p == [] then []
    else if p[0] == '\\' && |p| >= 2 then [Literal(p[1])] + LikeTokens(p[2..])
    else if p[0] == '%' then [AnySequence] + LikeTokens(p[1..])
    else if p[0] == '_' then [AnyCharacter] + LikeTokens(p[1..])
    else [Literal(p[0])] + LikeTokens(p[1..])
  }

  function Literals(s: string): (r: seq<LikeToken>)
    ensures |r| == |s|
  {
    seq(|s|, i requires 0 <= i < |s| => Literal(s[i]))
  }

  /** A term without backslashes is searched for literally: its escaped
      form reads as exactly its own characters. */
  lemma {:induction false} EscapedTermIsLiteral(s: string)
    requires forall i :: 0 <= i < |s| ==> s[i] != '\\'
    ensures LikeTokens(EscapeWildcards(s)) == Literals(s)
  {
    if s != [] {
      assert forall i :: 0 <= i < |s[1..]| ==> s[1..][i] == s[i + 1];
      EscapedTermIsLiteral(s[1..]);
      var rest := EscapeWildcards(s[1..]);
      if IsLikeWildcard(s[0]) {
        assert (['\\', s[0]] + rest)[2..] == rest;
      } else {
        assert ([s[0]] + rest)[1..] == rest;
      }
      assert Literals(s) == [Literal(s[0])] + Literals(s[1..]);
    }
  }

  /** A backslash in the term is not escaped, so the wildcard after it
      survives: the term `\%` reads as a backslash and then "any sequence". */
  lemma BackslashLetsWildcardThrough()
    ensures EscapeWildcards("\\%") == "\\\\%"
    ensures LikeTokens(EscapeWildcards("\\%")) == [Literal('\\'), AnySequence]
  {
    assert EscapeWildcards("\\%") == ['\\'] + (['\\', '%'] + EscapeWildcards([]));
    assert LikeTokens("\\\\%") == [Literal('\\')] + LikeTokens("%");
  }

  /** PHP's `empty()` on a string: "" and "0". */
  predicate IsEmptyString(s: string)
  {
    s == "" || s == "0"
  }

  /** The `LIKE` parameter, present only when the term is not empty. */
  function SearchPattern(term: string): (r: Option<string>)
    ensures r.None? <==> IsEmptyString(term)
    ensures r.Some? ==> |r.value| >= 2 && r.value[0] == '%' && r.value[|r.value| - 1] == '%'
    ensures r.Some? ==> r.value[1..|r.value| - 1] == EscapeWildcards(term)
  {
    if IsEmptyString(term) then None
    else
      var p := "%" + EscapeWildcards(term) + "%";
      assert p[1..|p| - 1] == EscapeWildcards(term);
      Some(p)
  }

  /** The normalisation in `getPaginatedTransactions`: `category` orders by
      the category's name, any other whitelisted column by the
      transaction's own column, anything else by date. */
  function TransactionTableQuery(params: DataTableQueryParams): (q: TableQuery)
    ensures params.orderBy in TRANSACTION_ORDER_COLUMNS && params.orderBy != "category" ==> q.orderColumn == "t." + params.orderBy
    ensures params.orderBy == "category" ==> q.orderColumn == "c.name"
    ensures params.orderBy !in TRANSACTION_ORDER_COLUMNS ==> q.orderColumn == "t.date"
    ensures q.orderDir == "asc" <==> IsAscIgnoringCase(params.orderDir)
    ensures q.orderDir == "asc" || q.orderDir == "desc"
    ensures q.searchPattern == SearchPattern(params.searchTerm)
    ensures q.firstResult == params.start && q.maxResults == params.length
  {
    var orderBy := Whitelisted(params.orderBy, TRANSACTION_ORDER_COLUMNS, "date");
    var column := if orderBy == "category" then "c.name" else "t." + orderBy;
    TableQuery(params.start, params.length, column, OrderDirection(params.orderDir), SearchPattern(params.searchTerm))
  }

  /** The normalisation in `getPaginatedCategories`: anything outside the
      whitelist orders by `updatedAt`. */
  function CategoryTableQuery(params: DataTableQueryParams): (q: TableQuery)
    ensures params.orderBy in CATEGORY_ORDER_COLUMNS ==> q.orderColumn == "c." + params.orderBy
    ensures params.orderBy !in CATEGORY_ORDER_COLUMNS ==> q.orderColumn == "c.updatedAt"
    ensures q.orderDir == "asc" <==> IsAscIgnoringCase(params.orderDir)
    ensures q.orderDir == "asc" || q.orderDir == "desc"
    ensures q.searchPattern == SearchPattern(params.searchTerm)
    ensures q.firstResult == params.start && q.maxResults == params.length
  {
    var orderBy := Whitelisted(params.orderBy, CATEGORY_ORDER_COLUMNS, "updatedAt");
    TableQuery(params.start, params.length, "c." + orderBy, OrderDirection(params.orderDir), SearchPattern(params.searchTerm))
  }
}
