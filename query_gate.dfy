/** The read-only gate and LIMIT rewrite at the top of `query_data`
    (mysql_server.py:104-119): the text is stripped and upper-cased for the
    two tests only; a query not starting with SELECT is refused, and one whose
    upper-cased text nowhere contains LIMIT gets ` LIMIT <limit>` appended to
    the original, unstripped text. */
module QueryGate {
  import opened Text
  import Decimal

  const RejectMessage := "Only SELECT queries are allowed for safety"

  /** The `limit` that `query_data` uses when its caller passes none
      (mysql_server.py:90). */
  const DefaultLimit := 100

  /** `query.strip().upper()`: compared against, never executed. */
  function Normalized(query: string): string {
    Upper(Strip(query))
  }

  /** The gate: `query_upper.startswith('SELECT')`. */
  predicate IsSelectQuery(query: string) {
    StartsWith(Normalized(query), "SELECT")
  }

  /** `'LIMIT' in query_upper`. */
  predicate MentionsLimit(query: string) {
    Contains(Normalized(query), "LIMIT")
  }

  /** The text handed to `cursor.execute`: the query unchanged when it already
      mentions LIMIT, otherwise the original text followed by ` LIMIT ` and the
      decimal rendering of `limit`, which reads back as `limit`. */
  function Rewrite(query: string, limit: int): (sql: string)
    ensures MentionsLimit(query) ==> sql == query
    ensures !MentionsLimit(query) ==>
      && |sql| > |query| + 7
      && sql[..|query| + 7] == query + " LIMIT "
      && Decimal.Canonical(sql[|query| + 7..])
      && Decimal.DecimalValue(sql[|query| + 7..]) == limit
  {
    if MentionsLimit(query) then query
    else
      var digits := Decimal.IntToDecimal(limit);
      var sql := query + " LIMIT " + digits;
      assert sql[|query| + 7..] == digits;
      Decimal.IntToDecimalRoundTrip(limit);
      sql
  }

  /** After the leading whitespace of `query`, at position `i`, comes `word`
      in some mix of cases. */
  predicate WordAt(query: string, word: string, i: nat) {
    i + |word| <= |query| && AllSpace(query[..i]) && Upper(query[i..i + |word|]) == word
  }

  /** Where the leading whitespace of `query` ends. */
  function WordStart(query: string): nat {
    |query| - |LStrip(query)|
  }

  /** A word found right after the leading whitespace can only start where the
      whitespace ends, and stripping keeps it. */
  lemma WordAtStart(query: string, word: string, i: nat)
    requires word != [] && Solid(word) && WordAt(query, word, i)
    ensures i == WordStart(query)
    ensures |Strip(query)| >= |word| && Strip(query)[..|word|] == query[i..i + |word|]
  {
    var n := |word|;
    var slice := query[i..i + n];
    var w := WordStart(query);
    forall k | 0 <= k < n ensures !IsSpace(slice[k]) {
      assert Upper(slice)[k] == UpperChar(slice[k]) == word[k];
    }
    LStripShape(query);
    assert !IsSpace(query[i]) by { assert slice[0] == query[i]; }
    assert forall m :: 0 <= m < w ==> query[..w][m] == query[m];
    StripKeepsNonSpace(query);
    assert !IsSpace(query[i + n - 1]) by { assert slice[n - 1] == query[i + n - 1]; }
    StripSlice(query);
  }

  /** A prefix test on the normalised text, for a word without whitespace,
      looks for the word right after the leading whitespace. */
  lemma PrefixIff(query: string, word: string)
    requires word != [] && Solid(word)
    ensures StartsWith(Normalized(query), word) <==> exists i: nat :: WordAt(query, word, i)
  {
    var i0 := WordStart(query);
    var t := Strip(query);
    var n := |word|;
    if StartsWith(Normalized(query), word) {
      StripSlice(query);
      LStripShape(query);
      assert query[i0..i0 + n] == t[..n];
      UpperSlice(t, 0, n);
      assert WordAt(query, word, i0);
    }
    if i: nat :| WordAt(query, word, i) {
      WordAtStart(query, word, i);
      UpperSlice(t, 0, n);
    }
  }

  /** The gate admits exactly the queries whose leading whitespace is followed
      by SELECT, in any case. */
  lemma GateIff(query: string)
    ensures IsSelectQuery(query) <==> exists i: nat :: WordAt(query, "SELECT", i)
  {
    PrefixIff(query, "SELECT");
  }

  /** Two queries that differ only in letter case normalise alike, so they get
      the same verdict from the gate and from the LIMIT test. */
  lemma GateIgnoresCase(a: string, b: string)
    requires Upper(a) == Upper(b)
    ensures Normalized(a) == Normalized(b)
    ensures IsSelectQuery(a) == IsSelectQuery(b)
    ensures MentionsLimit(a) == MentionsLimit(b)
  {
    StripUpper(a);
    StripUpper(b);
    UpperIdempotent(Strip(a));
    UpperIdempotent(Strip(b));
  }

  /** Leading and trailing whitespace changes neither verdict. */
  lemma GateIgnoresPadding(w1: string, query: string, w2: string)
    requires AllSpace(w1) && AllSpace(w2)
    ensures Normalized(w1 + query + w2) == Normalized(query)
    ensures IsSelectQuery(w1 + query + w2) == IsSelectQuery(query)
    ensures MentionsLimit(w1 + query + w2) == MentionsLimit(query)
  {
    StripPadding(w1, query, w2);
  }

  /** Stripping does not matter to the LIMIT test: it succeeds exactly when
      LIMIT occurs anywhere in the upper-cased original text, including inside
      an identifier or a string literal. */
  lemma LimitAnywhere(query: string)
    ensures MentionsLimit(query) <==> Contains(Upper(query), "LIMIT")
  {
    NormalizedContains(query, "LIMIT");
  }

  lemma NormalizedContains(query: string, word: string)
    requires word != [] && Solid(word)
    ensures Contains(Normalized(query), word) <==> Contains(Upper(query), word)
  {
    StripUpper(query);
    StripKeepsSolid(Upper(query), word);
  }

  /** An upper-case word placed between two texts occurs in the upper-cased
      whole. */
  lemma ContainsUpperMiddle(a: string, word: string, b: string)
    requires Upper(word) == word
    ensures Contains(Upper(a + word + b), word)
  {
    UpperConcat(a + word, b);
    UpperConcat(a, word);
    ContainsIff(Upper(a + word + b), word);
    assert OccursAt(Upper(a + word + b), word, |a|);
  }

  /** The executed text always mentions LIMIT. */
  lemma RewriteMentionsLimit(query: string, limit: int)
    ensures Contains(Upper(Rewrite(query, limit)), "LIMIT")
    ensures MentionsLimit(Rewrite(query, limit))
  {
    var sql := Rewrite(query, limit);
    if MentionsLimit(query) {
      LimitAnywhere(query);
    } else {
      var digits := Decimal.IntToDecimal(limit);
      assert sql == (query + " ") + "LIMIT" + (" " + digits);
      ContainsUpperMiddle(query + " ", "LIMIT", " " + digits);
    }
    LimitAnywhere(sql);
  }

  /** Rewriting is idempotent: a rewritten query is not rewritten again. */
  lemma RewriteIdempotent(query: string, limit: int, limit': int)
    ensures Rewrite(Rewrite(query, limit), limit') == Rewrite(query, limit)
  {
    RewriteMentionsLimit(query, limit);
  }

  /** When a query starts with a non-blank character, the normalised text
      starts with that character upper-cased. */
  lemma NormalizedHead(query: string)
    requires query != [] && !IsSpace(query[0])
    ensures Normalized(query) != [] && Normalized(query)[0] == UpperChar(query[0])
  {
    assert LStrip(query) == query;
    StripKeepsNonSpace(query);
    StripSlice(query);
  }

  /** A statement that begins with INSERT, UPDATE or DELETE (in any case, as
      the live tests send them) is refused by the gate. */
  lemma RejectsWrites(query: string)
    requires |query| >= 6
    requires Upper(query[..6]) in {"INSERT", "UPDATE", "DELETE"}
    ensures !IsSelectQuery(query)
  {
    assert Upper(query[..6])[0] == UpperChar(query[0]);
    NormalizedHead(query);
  }

  /** The LIMIT test is a bare substring test: LIMIT spelled in any case
      anywhere in the text, even inside a name such as
      `SELECT * FROM speed_limits`, counts as a LIMIT clause, so no limit is
      appended. */
  lemma LimitInsideIdentifier(before: string, word: string, after: string, limit: int)
    requires Upper(word) == "LIMIT"
    ensures Rewrite(before + word + after, limit) == before + word + after
  {
    var q := before + word + after;
    UpperConcat(before + word, after);
    UpperConcat(before, word);
    ContainsIff(Upper(q), "LIMIT");
    assert Upper(q)[|before|..|before| + 5] == "LIMIT";
    assert OccursAt(Upper(q), "LIMIT", |before|);
    LimitAnywhere(q);
  }

  /** A call that passes no limit and does not mention LIMIT executes its text
      followed by ` LIMIT 100`. */
  lemma RewriteDefault(query: string)
    requires !MentionsLimit(query)
    ensures Rewrite(query, DefaultLimit) == query + " LIMIT 100"
  {
    assert Decimal.NatToDecimal(10) == "10";
    assert Decimal.IntToDecimal(DefaultLimit) == "100";
  }
}
