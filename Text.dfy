/** ASCII models of the Python string primitives the text-to-SQL core relies on:
    `lower()`, `upper()`, `strip()`, `startswith()`, the `in` substring test,
    `splitlines()` and `sep.join(...)`. */
module Text {

  /** Characters that `str.isspace()` accepts in the ASCII range. */
  predicate IsSpace(c: char) {
    c == ' ' || c == '\t' || IsLineBreak(c) || c == '\U{1F}'
  }

  /** Characters at which `str.splitlines()` breaks, in the ASCII range
      ("\r\n" counts as one break, see BreakWidth). */
  predicate IsLineBreak(c: char) {
    c == '\n' || c == '\r' || c == '\U{0B}' || c == '\U{0C}'
    || c == '\U{1C}' || c == '\U{1D}' || c == '\U{1E}'
  }

  predicate AllSpace(s: string) {
    forall i :: 0 <= i < |s| ==> IsSpace(s[i])
  }

  predicate NoLineBreak(s: string) {
    forall i :: 0 <= i < |s| ==> !IsLineBreak(s[i])
  }

  function LowerChar(c: char): char {
    if 'A' <= c <= 'Z' then (c as int + 32) as char else c
  }

  function UpperChar(c: char): char {
    if 'a' <= c <= 'z' then (c as int - 32) as char else c
  }

  /** `s.lower()`, ASCII letters only. */
  function Lower(s: string): (r: string)
    ensures |r| == |s|
  {
    seq(|s|, i requires 0 <= i < |s| => LowerChar(s[i]))
  }

  /** `s.upper()`, ASCII letters only. */
  function Upper(s: string): (r: string)
    ensures |r| == |s|
  {
    seq(|s|, i requires 0 <= i < |s| => UpperChar(s[i]))
  }

  /** Leading whitespace removed (`s.lstrip()`). */
  function LStrip(s: string): string
    decreases |s|
  {
    if |s| > 0 && IsSpace(s[0]) then LStrip(s[1..]) else s
  }

  /** Trailing whitespace removed (`s.rstrip()`). */
  function RStrip(s: string): string
    decreases |s|
  {
    if |s| > 0 && IsSpace(s[|s| - 1]) then RStrip(s[..|s| - 1]) else s
  }

  /** `s.strip()`. */
  function Strip(s: string): string {
    RStrip(LStrip(s))
  }

  /** Neither end of `s` is whitespace: what `strip()` leaves behind. */
  predicate IsStripped(s: string) {
    s == [] || (!IsSpace(s[0]) && !IsSpace(s[|s| - 1]))
  }

  /** `s.startswith(p)`. */
  predicate StartsWith(s: string, p: string) {
    |p| <= |s| && s[..|p|] == p
  }

  /** `w in s`, as a scan of the suffixes of `s`. */
  predicate Contains(s: string, w: string)
    decreases |s|
  {
    StartsWith(s, w) || (|s| > 0 && Contains(s[1..], w))
  }

  /** `sep.join(parts)`. */
  function Join(parts: seq<string>, sep: string): string
    decreases |parts|
  {
    if |parts| == 0 then ""
    else if |parts| == 1 then parts[0]
    else parts[0] + sep + Join(parts[1..], sep)
  }

  /** Index of the first line break in `s`, or `|s|` when there is none. */
  function FirstBreak(s: string): (i: nat)
    ensures i <= |s|
    ensures forall j :: 0 <= j < i ==> !IsLineBreak(s[j])
    ensures i < |s| ==> IsLineBreak(s[i])
    decreases |s|
  {
    if |s| == 0 then 0
    else if IsLineBreak(s[0]) then 0
    else 1 + FirstBreak(s[1..])
  }

  /** Number of characters the break at `s[i]` occupies: two for "\r\n". */
  function BreakWidth(s: string, i: nat): nat
    requires i < |s|
  {
    if s[i] == '\r' && i + 1 < |s| && s[i + 1] == '\n' then 2 else 1
  }

  /** `s.splitlines()`: the line breaks are dropped, and a break at the very
      end does not start a further, empty line. */
  function SplitLines(s: string): seq<string>
    decreases |s|
  {
    if |s| == 0 then []
    else
      var i := FirstBreak(s);
      if i == |s| then [s]
      else [s[..i]] + SplitLines(s[i + BreakWidth(s, i)..])
  }

  // ---------------------------------------------------------------------------
  // Lemmas

  /** `w` occurs in `s` starting at index `i`. */
  predicate OccursAt(s: string, w: string, i: nat) {
    i + |w| <= |s| && s[i..i + |w|] == w
  }

  /** The recursive search agrees with the positional meaning of "occurs in". */
  lemma {:induction false} ContainsAt(s: string, w: string)
    ensures Contains(s, w) <==> exists i: nat :: OccursAt(s, w, i)
    decreases |s|
  {
    if StartsWith(s, w) {
      assert OccursAt(s, w, 0);
    } else if |s| == 0 {
    } else {
      ContainsAt(s[1..], w);
      if exists i: nat :: OccursAt(s, w, i) {
        var i: nat :| OccursAt(s, w, i);
        assert i != 0;
        assert OccursAt(s[1..], w, i - 1) by {
          assert s[1..][i - 1..i - 1 + |w|] == s[i..i + |w|];
        }
      }
      if Contains(s[1..], w) {
        var i: nat :| OccursAt(s[1..], w, i);
        assert OccursAt(s, w, i + 1) by {
          assert s[1..][i..i + |w|] == s[i + 1..i + 1 + |w|];
        }
      }
    }
  }

  /** Lower-casing commutes with taking a slice. */
  lemma LowerSlice(s: string, i: nat, j: nat)
    requires i <= j <= |s|
    ensures Lower(s)[i..j] == Lower(s[i..j])
  {
  }

  lemma {:induction false} LStripSuffix(s: string)
    ensures |LStrip(s)| <= |s| && LStrip(s) == s[|s| - |LStrip(s)|..]
    ensures AllSpace(s[..|s| - |LStrip(s)|])
    ensures LStrip(s) == [] || !IsSpace(LStrip(s)[0])
    decreases |s|
  {
    if |s| > 0 && IsSpace(s[0]) {
      LStripSuffix(s[1..]);
      var k := |s| - |LStrip(s)|;
      assert s[..k] == [s[0]] + s[1..][..k - 1];
    }
  }

  lemma {:induction false} RStripPrefix(s: string)
    ensures |RStrip(s)| <= |s| && RStrip(s) == s[..|RStrip(s)|]
    ensures AllSpace(s[|RStrip(s)|..])
    ensures RStrip(s) == [] || !IsSpace(RStrip(s)[|RStrip(s)| - 1])
    decreases |s|
  {
    if |s| > 0 && IsSpace(s[|s| - 1]) {
      RStripPrefix(s[..|s| - 1]);
      var k := |RStrip(s)|;
      assert s[k..] == s[..|s| - 1][k..] + [s[|s| - 1]];
    }
  }

  /** Stripping only removes whitespace, so an all-whitespace text strips to "". */
  lemma {:induction false} LStripAllSpace(s: string)
    ensures LStrip(s) == [] <==> AllSpace(s)
    decreases |s|
  {
    if |s| > 0 && IsSpace(s[0]) {
      LStripAllSpace(s[1..]);
      assert AllSpace(s) <==> AllSpace(s[1..]);
    }
  }

  lemma {:induction false} RStripAllSpace(s: string)
    ensures RStrip(s) == [] <==> AllSpace(s)
    decreases |s|
  {
    if |s| > 0 && IsSpace(s[|s| - 1]) {
      RStripAllSpace(s[..|s| - 1]);
      assert AllSpace(s) <==> AllSpace(s[..|s| - 1]);
    }
  }

  /** `strip()` removes whitespace at both ends and nothing else. */
  lemma StripShape(s: string)
    ensures IsStripped(Strip(s))
    ensures Strip(s) == [] <==> AllSpace(s)
    ensures var a := |s| - |LStrip(s)|;
      0 <= a && a + |Strip(s)| <= |s| && Strip(s) == s[a..a + |Strip(s)|] &&
      AllSpace(s[..a]) && AllSpace(s[a + |Strip(s)|..])
  {
    LStripSuffix(s);
    RStripPrefix(LStrip(s));
    LStripAllSpace(s);
    RStripAllSpace(LStrip(s));
    var l, a := LStrip(s), |s| - |LStrip(s)|;
    var n := |Strip(s)|;
    assert s[a..a + n] == l[..n];
    assert s[a + n..] == l[n..];
  }

  lemma StrippedFixed(s: string)
    requires IsStripped(s)
    ensures LStrip(s) == s && RStrip(s) == s && Strip(s) == s
  {
  }

  /** `strip()` is idempotent. */
  lemma StripIdempotent(s: string)
    ensures Strip(Strip(s)) == Strip(s)
  {
    StripShape(s);
    StrippedFixed(Strip(s));
  }

  lemma {:induction false} LStripIdempotent(s: string)
    ensures LStrip(LStrip(s)) == LStrip(s)
  {
    LStripSuffix(s);
  }

  lemma {:induction false} RStripIdempotent(s: string)
    ensures RStrip(RStrip(s)) == RStrip(s)
  {
    RStripPrefix(s);
  }

  /** Left-stripping a concatenation: a whitespace-only head disappears
      entirely, otherwise the tail is untouched. */
  lemma {:induction false} LStripConcat(a: string, b: string)
    ensures AllSpace(a) ==> LStrip(a + b) == LStrip(b)
    ensures !AllSpace(a) ==> LStrip(a + b) == LStrip(a) + b
    decreases |a|
  {
    if |a| > 0 {
      assert (a + b)[0] == a[0];
      assert (a + b)[1..] == a[1..] + b;
      if IsSpace(a[0]) {
        LStripConcat(a[1..], b);
        assert AllSpace(a) <==> AllSpace(a[1..]);
      }
    } else {
      assert a + b == b;
    }
  }

  /** Right-stripping a concatenation, the mirror image of LStripConcat. */
  lemma {:induction false} RStripConcat(a: string, b: string)
    ensures AllSpace(b) ==> RStrip(a + b) == RStrip(a)
    ensures !AllSpace(b) ==> RStrip(a + b) == a + RStrip(b)
    decreases |b|
  {
    if |b| > 0 {
      assert (a + b)[|a + b| - 1] == b[|b| - 1];
      assert (a + b)[..|a + b| - 1] == a + b[..|b| - 1];
      if IsSpace(b[|b| - 1]) {
        RStripConcat(a, b[..|b| - 1]);
        assert AllSpace(b) <==> AllSpace(b[..|b| - 1]);
      }
    } else {
      assert a + b == a;
    }
  }

  /** The two halves of `strip()` may be applied in either order. */
  lemma {:induction false} LStripRStrip(s: string)
    ensures LStrip(RStrip(s)) == RStrip(LStrip(s))
    decreases |s|
  {
    if |s| > 0 {
      var c, t := s[..1], s[1..];
      assert s == c + t;
      RStripConcat(c, t);
      if IsSpace(s[0]) {
        if AllSpace(t) {
          LStripAllSpace(t);
          assert RStrip(c) == [];
        } else {
          LStripRStrip(t);
          LStripConcat(c, RStrip(t));
        }
      } else {
        if AllSpace(t) {
          assert RStrip(s) == c;
        } else {
          assert RStrip(s) == c + RStrip(t);
        }
      }
    }
  }

  /** Stripping first at either end does not change what `strip()` gives. */
  lemma StripAfterHalfStrip(s: string)
    ensures Strip(LStrip(s)) == Strip(s)
    ensures Strip(RStrip(s)) == Strip(s)
  {
    LStripIdempotent(s);
    LStripRStrip(s);
    RStripIdempotent(LStrip(s));
  }

  lemma {:induction false} LStripKeepsNoLineBreak(s: string)
    requires NoLineBreak(s)
    ensures NoLineBreak(LStrip(s)) && NoLineBreak(RStrip(s))
  {
    LStripSuffix(s);
    RStripPrefix(s);
  }

  /** Appending one more part to a join adds one separator. */
  lemma {:induction false} JoinSnoc(parts: seq<string>, x: string, sep: string)
    requires |parts| > 0
    ensures Join(parts + [x], sep) == Join(parts, sep) + sep + x
    decreases |parts|
  {
    if |parts| == 1 {
      assert parts + [x] == [parts[0], x];
      assert [parts[0], x][1..] == [x];
    } else {
      assert (parts + [x])[1..] == parts[1..] + [x];
      JoinSnoc(parts[1..], x, sep);
    }
  }

  /** Splitting a "\n"-join of break-free lines gives the lines back, provided
      the last line is not empty (`splitlines()` drops a final empty line). */
  lemma {:induction false} SplitJoin(lines: seq<string>)
    requires forall k :: 0 <= k < |lines| ==> NoLineBreak(lines[k])
    requires lines == [] || lines[|lines| - 1] != ""
    ensures SplitLines(Join(lines, "\n")) == lines
    decreases |lines|
  {
    if |lines| == 1 {
      var s := lines[0];
      assert FirstBreak(s) == |s| by { FirstBreakNone(s); }
    } else if |lines| > 1 {
      var l := lines[0];
      var rest := Join(lines[1..], "\n");
      var s := l + "\n" + rest;
      assert Join(lines, "\n") == s;
      assert s[..|l|] == l;
      FirstBreakAt(s, |l|);
      assert BreakWidth(s, |l|) == 1;
      assert s[|l| + 1..] == rest;
      SplitJoin(lines[1..]);
      assert SplitLines(s) == [l] + lines[1..];
    }
  }

  lemma {:induction false} FirstBreakNone(s: string)
    requires NoLineBreak(s)
    ensures FirstBreak(s) == |s|
    decreases |s|
  {
    if |s| > 0 {
      FirstBreakNone(s[1..]);
    }
  }

  lemma {:induction false} FirstBreakAt(s: string, i: nat)
    requires i < |s| && IsLineBreak(s[i])
    requires forall j :: 0 <= j < i ==> !IsLineBreak(s[j])
    ensures FirstBreak(s) == i
    decreases i
  {
    if i > 0 {
      FirstBreakAt(s[1..], i - 1);
    }
  }

  /** No line that `splitlines()` produces contains a line break. */
  lemma {:induction false} SplitLinesNoBreak(s: string)
    ensures forall k :: 0 <= k < |SplitLines(s)| ==> NoLineBreak(SplitLines(s)[k])
    decreases |s|
  {
    if |s| > 0 {
      var i := FirstBreak(s);
      if i < |s| {
        SplitLinesNoBreak(s[i + BreakWidth(s, i)..]);
      }
    }
  }

  /** Every character of an occurring word is a character of the text. */
  lemma OccursAtChars(s: string, w: string, i: nat)
    requires OccursAt(s, w, i)
    ensures forall j :: 0 <= j < |w| ==> w[j] in s
  {
    forall j | 0 <= j < |w| ensures w[j] in s {
      assert s[i..i + |w|][j] == s[i + j];
    }
  }

  /** A word cannot occur in a text that lacks one of its characters. */
  lemma NotContainsMissingChar(s: string, w: string, ch: char)
    requires ch in w && ch !in s
    ensures !Contains(s, w)
  {
    ContainsAt(s, w);
    if Contains(s, w) {
      var i: nat :| OccursAt(s, w, i);
      OccursAtChars(s, w, i);
    }
  }

  /** Where an occurrence lies in a text split at one character. */
  lemma OccursAcross(a: string, c: char, b: string, w: string, i: nat)
    requires OccursAt(a + [c] + b, w, i)
    ensures OccursAt(a, w, i) || (i > |a| && OccursAt(b, w, i - |a| - 1)) || c in w
  {
    var s := a + [c] + b;
    if i + |w| <= |a| {
      assert s[i..i + |w|] == a[i..i + |w|];
    } else if i > |a| {
      assert s[i..i + |w|] == b[i - |a| - 1..i - |a| - 1 + |w|];
    } else {
      assert s[i..i + |w|][|a| - i] == c;
    }
  }

  /** A separator character that is not part of a word splits the search for
      that word in two. */
  lemma NotContainsAcross(a: string, c: char, b: string, w: string)
    requires c !in w && !Contains(a, w) && !Contains(b, w)
    ensures !Contains(a + [c] + b, w)
  {
    ContainsAt(a + [c] + b, w);
    ContainsAt(a, w);
    ContainsAt(b, w);
    if Contains(a + [c] + b, w) {
      var i: nat :| OccursAt(a + [c] + b, w, i);
      OccursAcross(a, c, b, w, i);
    }
  }

  /** Left-stripping a "\n"-join of break-free lines drops its leading blank
      lines and left-strips the first remaining one: the result is again a
      join, of a suffix of the lines whose stripped forms are unchanged. */
  lemma {:induction false} LStripJoin(lines: seq<string>) returns (rest: seq<string>)
    requires forall k :: 0 <= k < |lines| ==> NoLineBreak(lines[k])
    ensures Join(rest, "\n") == LStrip(Join(lines, "\n"))
    ensures |rest| <= |lines|
    ensures forall k :: 0 <= k < |rest| ==> NoLineBreak(rest[k])
    ensures forall k :: 0 <= k < |rest| ==> Strip(rest[k]) == Strip(lines[|lines| - |rest| + k])
    decreases |lines|
  {
    if |lines| == 0 {
      rest := [];
    } else if |lines| == 1 {
      rest := [LStrip(lines[0])];
      LStripKeepsNoLineBreak(lines[0]);
      StripAfterHalfStrip(lines[0]);
    } else {
      var head, tail := lines[0] + "\n", Join(lines[1..], "\n");
      assert Join(lines, "\n") == head + tail;
      LStripConcat(head, tail);
      if AllSpace(lines[0]) {
        assert AllSpace(head);
        rest := LStripJoin(lines[1..]);
      } else {
        var j :| 0 <= j < |lines[0]| && !IsSpace(lines[0][j]);
        assert head[j] == lines[0][j];
        LStripConcat(lines[0], "\n");
        LStripKeepsNoLineBreak(lines[0]);
        StripAfterHalfStrip(lines[0]);
        rest := [LStrip(lines[0])] + lines[1..];
        assert rest[1..] == lines[1..];
      }
    }
  }

  /** Right-stripping a "\n"-join of break-free lines drops its trailing blank
      lines and right-strips the last remaining one, which is then not empty. */
  lemma {:induction false} RStripJoin(lines: seq<string>) returns (kept: seq<string>)
    requires forall k :: 0 <= k < |lines| ==> NoLineBreak(lines[k])
    ensures Join(kept, "\n") == RStrip(Join(lines, "\n"))
    ensures |kept| <= |lines|
    ensures kept == [] || kept[|kept| - 1] != ""
    ensures forall k :: 0 <= k < |kept| ==> NoLineBreak(kept[k])
    ensures forall k :: 0 <= k < |kept| ==> Strip(kept[k]) == Strip(lines[k])
    decreases |lines|
  {
    if |lines| == 0 {
      kept := [];
    } else {
      var n := |lines|;
      var init, last := lines[..n - 1], lines[n - 1];
      assert lines == init + [last];
      RStripAllSpace(last);
      LStripKeepsNoLineBreak(last);
      StripAfterHalfStrip(last);
      if n == 1 {
        kept := if AllSpace(last) then [] else [RStrip(last)];
      } else {
        JoinSnoc(init, last, "\n");
        var front := Join(init, "\n") + "\n";
        assert Join(lines, "\n") == front + last;
        RStripConcat(front, last);
        if AllSpace(last) {
          RStripConcat(Join(init, "\n"), "\n");
          assert AllSpace("\n");
          kept := RStripJoin(init);
        } else {
          kept := init + [RStrip(last)];
          JoinSnoc(init, RStrip(last), "\n");
        }
      }
    }
  }
}
