/** The safety gate `is_select_query`: the only control between the text the
    language model produced and the database. */
module Gate {
  import opened Text

  /** The blacklist, scanned as plain substrings of the lower-cased text. */
  const ForbiddenKeywords: seq<string> := ["insert", "update", "delete", "drop", "alter", "truncate"]

  /** The prefix test: the trimmed, lower-cased text starts with `select` or `with`. */
  predicate HasReadPrefix(sql: string) {
    StartsWith(Lower(Strip(sql)), "select") || StartsWith(Lower(Strip(sql)), "with")
  }

  /** The blacklist test: some forbidden keyword occurs, at some position,
      in the lower-cased text. */
  predicate HasForbiddenKeyword(sql: string) {
    exists k :: 0 <= k < |ForbiddenKeywords| && Contains(Lower(sql), ForbiddenKeywords[k])
  }

  /** `is_select_query(sql)`: rejected when a forbidden keyword occurs,
      otherwise accepted exactly when the prefix test holds.
      The contract restates the decision positionally: accepted iff the prefix
      test holds and no keyword starts at any index of the lower-cased text. */
  function IsSelectQuery(sql: string): (accepted: bool)
    ensures accepted ==> HasReadPrefix(sql)
    ensures accepted <==> (HasReadPrefix(sql) &&
      forall k, i: nat :: 0 <= k < |ForbiddenKeywords| ==> !OccursAt(Lower(sql), ForbiddenKeywords[k], i))
  {
    ForbiddenKeywordAt(sql);
    var safe := HasReadPrefix(sql);
    if HasForbiddenKeyword(sql) then false else safe
  }

  /** The `any(keyword in ...)` scan finds a keyword exactly when one starts
      at some index of the lower-cased text. */
  lemma ForbiddenKeywordAt(sql: string)
    ensures HasForbiddenKeyword(sql) <==>
      exists k, i: nat :: 0 <= k < |ForbiddenKeywords| && OccursAt(Lower(sql), ForbiddenKeywords[k], i)
  {
    forall k | 0 <= k < |ForbiddenKeywords| {
      ContainsAt(Lower(sql), ForbiddenKeywords[k]);
    }
  }

  /** Whatever the leading keyword, a text in which a forbidden keyword occurs
      in any mix of upper and lower case is rejected. */
  lemma ForbiddenAnywhereRejected(sql: string, k: nat, i: nat)
    requires k < |ForbiddenKeywords|
    requires i + |ForbiddenKeywords[k]| <= |sql|
    requires Lower(sql[i..i + |ForbiddenKeywords[k]|]) == ForbiddenKeywords[k]
    ensures !IsSelectQuery(sql)
  {
    LowerSlice(sql, i, i + |ForbiddenKeywords[k]|);
    assert OccursAt(Lower(sql), ForbiddenKeywords[k], i);
  }

  lemma DropTableRejected()
    ensures !IsSelectQuery("DROP TABLE expenses;")
  {
    ForbiddenAnywhereRejected("DROP TABLE expenses;", 3, 0);
  }

  /** The known false positive: a column named `updated_at` contains `update`. */
  lemma UpdatedAtRejected()
    ensures !IsSelectQuery("SELECT \"updated_at\" FROM t")
  {
    ForbiddenAnywhereRejected("SELECT \"updated_at\" FROM t", 1, 8);
  }

  /** The six keyword searches spelled out, one per keyword. */
  lemma KeywordFree(q: string)
    requires !Contains(Lower(q), "insert") && !Contains(Lower(q), "update")
    requires !Contains(Lower(q), "delete") && !Contains(Lower(q), "drop")
    requires !Contains(Lower(q), "alter") && !Contains(Lower(q), "truncate")
    ensures !HasForbiddenKeyword(q)
  {
  }

  lemma AcceptedWhen(q: string)
    requires HasReadPrefix(q) && !HasForbiddenKeyword(q)
    ensures IsSelectQuery(q)
  {
  }

  /** A word none of whose occurrences can straddle `c` is absent when each
      side lacks one of its characters. */
  lemma AbsentOnBothSides(low: string, c: char, high: string, w: string, a: char, b: char)
    requires c !in w && a in w && a !in low && b in w && b !in high
    ensures !Contains(low + [c] + high, w)
  {
    NotContainsMissingChar(low, w, a);
    NotContainsMissingChar(high, w, b);
    NotContainsAcross(low, c, high, w);
  }

  lemma SumQueryLowered(q: string)
    requires q == "SELECT SUM(\"amount\") FROM expenses;"
    ensures Lower(q) == "select sum" + ['('] + "\"amount\") from expenses;"
  {
  }

  lemma SumTextKeywordFree(s: string, low: string, high: string)
    requires low == "select sum" && high == "\"amount\") from expenses;"
    requires s == low + ['('] + high
    ensures !Contains(s, "insert") && !Contains(s, "update") && !Contains(s, "delete")
    ensures !Contains(s, "drop") && !Contains(s, "alter") && !Contains(s, "truncate")
  {
    SumTextLacksID(s, low, high);
    SumTextSplitsAlterTruncate(s, low, high);
  }

  /** `alter` and `truncate` would have to straddle the `(`, which neither
      contains, and each side lacks one of their letters. */
  lemma SumTextSplitsAlterTruncate(s: string, low: string, high: string)
    requires low == "select sum" && high == "\"amount\") from expenses;"
    requires s == low + ['('] + high
    ensures !Contains(s, "alter") && !Contains(s, "truncate")
  {
    AbsentOnBothSides(low, '(', high, "alter", 'a', 'l');
    AbsentOnBothSides(low, '(', high, "truncate", 'r', 'c');
  }

  /** The lowered query has no `i` and no `d`, so four of the keywords
      cannot occur in it. */
  lemma SumTextLacksID(s: string, low: string, high: string)
    requires low == "select sum" && high == "\"amount\") from expenses;"
    requires s == low + ['('] + high
    ensures !Contains(s, "insert") && !Contains(s, "update") && !Contains(s, "delete") && !Contains(s, "drop")
  {
    assert 'i' !in s && 'd' !in s;
    NotContainsMissingChar(s, "insert", 'i');
    NotContainsMissingChar(s, "update", 'd');
    NotContainsMissingChar(s, "delete", 'd');
    NotContainsMissingChar(s, "drop", 'd');
  }

  lemma SumQueryKeywordFree(q: string)
    requires q == "SELECT SUM(\"amount\") FROM expenses;"
    ensures !HasForbiddenKeyword(q)
  {
    var low, high := "select sum", "\"amount\") from expenses;";
    SumQueryLowered(q);
    SumTextKeywordFree(Lower(q), low, high);
    KeywordFree(q);
  }

  /** A plain aggregate query passes the gate. */
  lemma SumQueryAccepted()
    ensures IsSelectQuery("SELECT SUM(\"amount\") FROM expenses;")
  {
    var q := "SELECT SUM(\"amount\") FROM expenses;";
    SumQueryKeywordFree(q);
    SumQueryLowered(q);
    assert Strip(q) == q;
    AcceptedWhen(q);
  }

  lemma WithoutKeywordFree(q: string)
    requires q == "without"
    ensures !HasForbiddenKeyword(q)
  {
    assert Lower(q) == q;
    NotContainsMissingChar(q, "insert", 'n');
    NotContainsMissingChar(q, "update", 'p');
    NotContainsMissingChar(q, "delete", 'd');
    NotContainsMissingChar(q, "drop", 'd');
    NotContainsMissingChar(q, "alter", 'a');
    NotContainsMissingChar(q, "truncate", 'r');
    KeywordFree(q);
  }

  /** The prefix test is not a keyword test: `without...` passes as `with`. */
  lemma WithoutAccepted()
    ensures IsSelectQuery("without")
  {
    var q := "without";
    WithoutKeywordFree(q);
    assert Strip(q) == q;
    assert Lower(q) == q;
    AcceptedWhen(q);
  }
}
