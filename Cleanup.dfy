/** The cleanup of the model's completion in `get_sql_from_question`: the
    completion is trimmed, split into lines, every line that is a label or a
    comment ("sql:", "section...", "note...") is dropped, and the survivors are
    joined again and trimmed. The `ollama.chat` call that produces the
    completion is not part of this module: `raw` is any text. */
module Cleanup {
  import opened Text

  /** A scaffolding line: trimmed and lower-cased, it starts with one of the
      markers `sql:`, `section` or `note`. Only its trimmed form matters. */
  predicate IsScaffolding(line: string) {
    var t := Lower(Strip(line));
    StartsWith(t, "sql:") || StartsWith(t, "section") || StartsWith(t, "note")
  }

  /** The list comprehension: the lines that are not scaffolding, in order. */
  function KeepLines(lines: seq<string>): seq<string>
    decreases |lines|
  {
    if |lines| == 0 then []
    else if IsScaffolding(lines[0]) then KeepLines(lines[1..])
    else [lines[0]] + KeepLines(lines[1..])
  }

  /** The candidate query extracted from a raw completion. */
  function CleanSql(raw: string): string {
    Strip(Join(KeepLines(SplitLines(Strip(raw))), "\n"))
  }

  // ---------------------------------------------------------------------------
  // Properties

  /** The filter keeps exactly the non-scaffolding lines and keeps them in
      their original order: `idx` lists the positions of the kept lines, in
      increasing order, and a position is listed exactly when its line is not
      scaffolding. */
  lemma {:induction false} KeepLinesIsSubsequence(lines: seq<string>) returns (idx: seq<nat>)
    ensures |idx| == |KeepLines(lines)|
    ensures forall k :: 0 <= k < |idx| ==> idx[k] < |lines| && KeepLines(lines)[k] == lines[idx[k]]
    ensures forall k, m :: 0 <= k < m < |idx| ==> idx[k] < idx[m]
    ensures forall j :: 0 <= j < |lines| ==> (j in idx <==> !IsScaffolding(lines[j]))
    decreases |lines|
  {
    if |lines| == 0 {
      idx := [];
    } else {
      var tail := KeepLinesIsSubsequence(lines[1..]);
      StepPositions(lines, tail);
      StepMembership(lines, tail);
      idx := StepIndex(lines, tail);
    }
  }

  /** The kept positions of `lines` from those of `lines[1..]`. */
  function StepIndex(lines: seq<string>, tail: seq<nat>): seq<nat>
    requires |lines| > 0
  {
    if IsScaffolding(lines[0]) then Shift(tail) else [0] + Shift(tail)
  }

  lemma StepPositions(lines: seq<string>, tail: seq<nat>)
    requires |lines| > 0
    requires |tail| == |KeepLines(lines[1..])|
    requires forall k :: 0 <= k < |tail| ==> tail[k] < |lines[1..]| && KeepLines(lines[1..])[k] == lines[1..][tail[k]]
    requires forall k, m :: 0 <= k < m < |tail| ==> tail[k] < tail[m]
    ensures var idx := StepIndex(lines, tail);
      |idx| == |KeepLines(lines)| &&
      (forall k :: 0 <= k < |idx| ==> idx[k] < |lines| && KeepLines(lines)[k] == lines[idx[k]]) &&
      (forall k, m :: 0 <= k < m < |idx| ==> idx[k] < idx[m])
  {
    if IsScaffolding(lines[0]) {
      ShiftedPositions(lines, KeepLines(lines[1..]), tail);
    } else {
      ConsPositions(lines, KeepLines(lines[1..]), tail);
    }
  }

  /** Positions of `kept` in `lines[1..]`, moved on by one, are its positions
      in `lines`. */
  lemma ShiftedPositions(lines: seq<string>, kept: seq<string>, tail: seq<nat>)
    requires |lines| > 0 && |tail| == |kept|
    requires forall k :: 0 <= k < |tail| ==> tail[k] < |lines[1..]| && kept[k] == lines[1..][tail[k]]
    requires forall k, m :: 0 <= k < m < |tail| ==> tail[k] < tail[m]
    ensures var idx := Shift(tail);
      (forall k :: 0 <= k < |idx| ==> idx[k] < |lines| && kept[k] == lines[idx[k]]) &&
      (forall k, m :: 0 <= k < m < |idx| ==> idx[k] < idx[m])
  {
    forall k | 0 <= k < |tail| ensures kept[k] == lines[tail[k] + 1] {
      assert lines[1..][tail[k]] == lines[tail[k] + 1];
    }
  }

  /** The same with the first line kept in front. */
  lemma ConsPositions(lines: seq<string>, kept: seq<string>, tail: seq<nat>)
    requires |lines| > 0 && |tail| == |kept|
    requires forall k :: 0 <= k < |tail| ==> tail[k] < |lines[1..]| && kept[k] == lines[1..][tail[k]]
    requires forall k, m :: 0 <= k < m < |tail| ==> tail[k] < tail[m]
    ensures var idx, all := [0] + Shift(tail), [lines[0]] + kept;
      |idx| == |all| &&
      (forall k :: 0 <= k < |idx| ==> idx[k] < |lines| && all[k] == lines[idx[k]]) &&
      (forall k, m :: 0 <= k < m < |idx| ==> idx[k] < idx[m])
  {
    ShiftedPositions(lines, kept, tail);
    var idx, all := [0] + Shift(tail), [lines[0]] + kept;
    forall k | 0 < k < |idx| ensures idx[k] < |lines| && all[k] == lines[idx[k]] {
      assert idx[k] == Shift(tail)[k - 1] && all[k] == kept[k - 1];
    }
    forall k, m | 0 <= k < m < |idx| ensures idx[k] < idx[m] {
      assert idx[m] == Shift(tail)[m - 1];
      if k > 0 {
        assert idx[k] == Shift(tail)[k - 1];
      }
    }
  }

  lemma StepMembership(lines: seq<string>, tail: seq<nat>)
    requires |lines| > 0
    requires forall j :: 0 <= j < |lines[1..]| ==> (j in tail <==> !IsScaffolding(lines[1..][j]))
    ensures forall j :: 0 <= j < |lines| ==> (j in StepIndex(lines, tail) <==> !IsScaffolding(lines[j]))
  {
    forall j | 0 <= j < |lines| ensures j in StepIndex(lines, tail) <==> !IsScaffolding(lines[j]) {
      ShiftMembership(tail, j);
      if j > 0 {
        assert lines[1..][j - 1] == lines[j];
      }
    }
  }

  /** Every position moved one place on. */
  function Shift(positions: seq<nat>): (r: seq<nat>)
    ensures |r| == |positions|
    ensures forall k :: 0 <= k < |r| ==> r[k] == positions[k] + 1
  {
    seq(|positions|, k requires 0 <= k < |positions| => positions[k] + 1)
  }

  lemma ShiftMembership(positions: seq<nat>, j: nat)
    ensures j in Shift(positions) <==> (j > 0 && j - 1 in positions)
  {
    var shifted := Shift(positions);
    if j > 0 && j - 1 in positions {
      var k :| 0 <= k < |positions| && positions[k] == j - 1;
      assert shifted[k] == j;
    }
  }

  /** No kept line is scaffolding. */
  lemma {:induction false} KeepLinesClean(lines: seq<string>)
    ensures forall k :: 0 <= k < |KeepLines(lines)| ==> !IsScaffolding(KeepLines(lines)[k])
    ensures forall k :: 0 <= k < |KeepLines(lines)| ==> KeepLines(lines)[k] in lines
    decreases |lines|
  {
    if |lines| > 0 {
      KeepLinesClean(lines[1..]);
    }
  }

  /** Lines that are all kept pass the filter unchanged. */
  lemma {:induction false} KeepLinesAllKept(lines: seq<string>)
    requires forall k :: 0 <= k < |lines| ==> !IsScaffolding(lines[k])
    ensures KeepLines(lines) == lines
    decreases |lines|
  {
    if |lines| > 0 {
      KeepLinesAllKept(lines[1..]);
    }
  }

  /** Whatever the completion, the cleaned text is a "\n"-join of lines that
      are not scaffolding, none of them contains a line break and the last is
      not empty; `lines` are those lines. */
  lemma CleanSqlLines(raw: string) returns (lines: seq<string>)
    ensures Join(lines, "\n") == CleanSql(raw)
    ensures forall k :: 0 <= k < |lines| ==> NoLineBreak(lines[k]) && !IsScaffolding(lines[k])
    ensures lines == [] || lines[|lines| - 1] != ""
  {
    var split := SplitLines(Strip(raw));
    var kept := KeepLines(split);
    SplitLinesNoBreak(Strip(raw));
    KeepLinesClean(split);
    var left := LStripJoin(kept);
    lines := RStripJoin(left);
    forall k | 0 <= k < |lines| ensures !IsScaffolding(lines[k]) {
      assert Strip(lines[k]) == Strip(kept[|kept| - |left| + k]);
    }
  }

  /** After cleanup no line of the result, trimmed and lower-cased, starts with
      `sql:`, `section` or `note`. */
  lemma CleanSqlHasNoScaffolding(raw: string)
    ensures forall k :: 0 <= k < |SplitLines(CleanSql(raw))| ==> !IsScaffolding(SplitLines(CleanSql(raw))[k])
  {
    var lines := CleanSqlLines(raw);
    SplitJoin(lines);
  }

  /** The result is trimmed at both ends. */
  lemma CleanSqlIsStripped(raw: string)
    ensures IsStripped(CleanSql(raw))
  {
    StripShape(Join(KeepLines(SplitLines(Strip(raw))), "\n"));
  }

  /** Cleanup is idempotent: cleaning a cleaned candidate changes nothing. */
  lemma CleanSqlIdempotent(raw: string)
    ensures CleanSql(CleanSql(raw)) == CleanSql(raw)
  {
    var r := CleanSql(raw);
    var lines := CleanSqlLines(raw);
    CleanSqlIsStripped(raw);
    StrippedFixed(r);
    SplitJoin(lines);
    KeepLinesAllKept(lines);
  }

  /** An empty or whitespace-only completion cleans to the empty string. */
  lemma CleanSqlOfBlank(raw: string)
    requires AllSpace(raw)
    ensures CleanSql(raw) == ""
  {
    StripShape(raw);
  }

  /** A "\n"-separated completion whose lines are free of scaffolding only
      loses the whitespace around it, even when it ends in a line break. */
  lemma CleanSqlKeepsCleanText(lines: seq<string>)
    requires forall k :: 0 <= k < |lines| ==> NoLineBreak(lines[k]) && !IsScaffolding(lines[k])
    ensures CleanSql(Join(lines, "\n")) == Strip(Join(lines, "\n"))
  {
    var left := LStripJoin(lines);
    var trimmed := RStripJoin(left);
    forall k | 0 <= k < |trimmed| ensures !IsScaffolding(trimmed[k]) {
      assert Strip(trimmed[k]) == Strip(lines[|lines| - |left| + k]);
    }
    SplitJoin(trimmed);
    KeepLinesAllKept(trimmed);
    StripIdempotent(Join(lines, "\n"));
  }

  /** A completion made of a scaffolding line and one clean, trimmed line
      cleans to that line. */
  lemma LabelThenQuery(raw: string, header: string, query: string)
    requires NoLineBreak(header) && NoLineBreak(query)
    requires IsScaffolding(header) && !IsScaffolding(query)
    requires header != [] && !IsSpace(header[0])
    requires query != [] && IsStripped(query)
    requires raw == header + "\n" + query
    ensures CleanSql(raw) == query
  {
    assert raw[0] == header[0] && raw[|raw| - 1] == query[|query| - 1];
    StrippedFixed(raw);
    var lines := [header, query];
    assert lines[1..] == [query];
    assert Join(lines, "\n") == raw;
    SplitJoin(lines);
    assert KeepLines(lines) == KeepLines([query]);
    assert [query][1..] == [];
    assert KeepLines([query]) == [query] + KeepLines([]);
    StrippedFixed(query);
  }

  lemma LabelHeaderDropped(header: string)
    requires header == "SQL:"
    ensures IsScaffolding(header) && NoLineBreak(header) && !IsSpace(header[0])
  {
    assert Strip(header) == header;
    assert Lower(header) == "sql:";
  }

  lemma LabelQueryShape(query: string)
    requires query == "SELECT * FROM expenses;"
    ensures IsStripped(query) && NoLineBreak(query)
  {
  }

  lemma LabelQueryLetters(query: string)
    requires query == "SELECT * FROM expenses;"
    ensures Strip(query) == query
    ensures |query| > 7 && query[0] == 'S' && query[1] == 'E' && query[3] == 'E'
  {
  }

  lemma LabelQueryKept(query: string)
    requires query == "SELECT * FROM expenses;"
    ensures !IsScaffolding(query)
  {
    LabelQueryLetters(query);
    var low := Lower(query);
    assert low[0] == 's' && low[1] == 'e' && low[3] == 'e';
    assert low[..4][1] != "sql:"[1] && low[..4][0] != "note"[0];
    assert low[..7][3] != "section"[3];
  }

  lemma LabelledCompletion(raw: string, header: string, query: string)
    requires header == "SQL:" && query == "SELECT * FROM expenses;"
    requires raw == header + "\n" + query
    ensures CleanSql(raw) == query
  {
    LabelHeaderDropped(header);
    LabelQueryShape(query);
    LabelQueryKept(query);
    LabelThenQuery(raw, header, query);
  }

  /** A leading `SQL:` label line is removed. */
  lemma LabelLineRemoved()
    ensures CleanSql("SQL:\nSELECT * FROM expenses;") == "SELECT * FROM expenses;"
  {
    LabelledCompletion("SQL:\nSELECT * FROM expenses;", "SQL:", "SELECT * FROM expenses;");
  }
}
