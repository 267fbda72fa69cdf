/** Strings: where one occurs in another, Rust's `str::replace`, joining and splitting lines. */
module Text {

  ghost predicate OccursAt(text: string, s: string, i: nat) {
    i <= |text| && s <= text[i..]
  }

  ghost predicate Occurs(text: string, s: string) {
    exists i: nat :: OccursAt(text, s, i)
  }

  /** Leftmost, non-overlapping replacement. An empty pattern matches at every character boundary. */
  function Replace(text: string, from: string, to: string): string {
    if from == "" then Interleave(text, to)
    else if text == "" then ""
    else if from <= text then to + Replace(text[|from|..], from, to)
    else [text[0]] + Replace(text[1..], from, to)
  }

  function Interleave(text: string, to: string): string {
    if text == "" then to else to + [text[0]] + Interleave(text[1..], to)
  }

  /** Unicode White_Space, which `str::trim_start` and `str::trim_end` remove. */
  predicate IsWhitespace(c: char) {
    var v := c as int;
    9 <= v <= 13 || v == 32 || v == 0x85 || v == 0xA0 || v == 0x1680 || 0x2000 <= v <= 0x200A
    || v == 0x2028 || v == 0x2029 || v == 0x202F || v == 0x205F || v == 0x3000
  }

  function TrimTrailing(s: string): string {
    if s != "" && IsWhitespace(s[|s| - 1]) then TrimTrailing(s[..|s| - 1]) else s
  }

  /** Trimming takes white space from the end, all of it and nothing else. */
  lemma {:induction false} TrimTrailingShape(s: string)
    ensures TrimTrailing(s) <= s
    ensures forall i | |TrimTrailing(s)| <= i < |s| :: IsWhitespace(s[i])
    ensures TrimTrailing(s) == "" || !IsWhitespace(TrimTrailing(s)[|TrimTrailing(s)| - 1])
    decreases |s|
  {
    if s != "" && IsWhitespace(s[|s| - 1]) {
      TrimTrailingShape(s[..|s| - 1]);
    }
  }

  function TrimLeading(s: string): string {
    if s != "" && IsWhitespace(s[0]) then TrimLeading(s[1..]) else s
  }

  // ---------- where a string occurs ----------

  lemma OccursInConcat(a: string, b: string, s: string)
    ensures Occurs(a, s) || Occurs(b, s) ==> Occurs(a + b, s)
  {
    if i: nat :| OccursAt(a, s, i) {
      assert (a + b)[i..] == a[i..] + b;
      assert OccursAt(a + b, s, i);
    } else if i: nat :| OccursAt(b, s, i) {
      assert (a + b)[|a| + i..] == b[i..];
      assert OccursAt(a + b, s, |a| + i);
    }
  }

  lemma OccursInTail(text: string, n: nat, s: string)
    requires n <= |text| && Occurs(text[n..], s)
    ensures Occurs(text, s)
  {
    OccursInConcat(text[..n], text[n..], s);
    assert text[..n] + text[n..] == text;
  }

  // ---------- overlap with a marker ----------

  /** Laid over `m` with its start at offset `d`, `s` agrees with `m` wherever both have a character. */
  ghost predicate AgreesAt(s: string, m: string, d: int) {
    forall i | 0 <= i < |s| && 0 <= i + d < |m| :: s[i] == m[i + d]
  }

  /** Some placement makes `s` and `m` share at least one position and agree on all they share. */
  ghost predicate Overlaps(s: string, m: string) {
    exists d :: -|s| < d < |m| && AgreesAt(s, m, d)
  }

  lemma OverlapAt(s: string, m: string, d: int)
    requires -|s| < d < |m| && forall i | 0 <= i < |s| && 0 <= i + d < |m| :: s[i] == m[i + d]
    ensures Overlaps(s, m)
  {
    assert AgreesAt(s, m, d);
  }

  /** An end of `s` is a start of `m`. */
  ghost predicate EndStarts(s: string, m: string) {
    exists k :: 0 < k <= |s| && k <= |m| && s[|s| - k..] == m[..k]
  }

  /** A placement is one string inside the other, or an end of one on a start of the other. */
  lemma PlacementShape(s: string, m: string, d: int)
    requires -|s| < d < |m| && AgreesAt(s, m, d)
    ensures Occurs(m, s) || Occurs(s, m) || EndStarts(s, m) || EndStarts(m, s)
  {
    hide EndStarts, Occurs;
    if d < 0 && |s| + d <= |m| {
      assert s[|s| - (|s| + d)..] == m[..|s| + d];
      EndStartsBy(s, m, |s| + d);
    } else if d < 0 {
      assert s[-d..][..|m|] == m;
      OccursBy(s, m, -d);
    } else if |s| + d <= |m| {
      assert m[d..][..|s|] == s;
      OccursBy(m, s, d);
    } else {
      assert m[|m| - (|m| - d)..] == s[..|m| - d];
      EndStartsBy(m, s, |m| - d);
    }
  }

  lemma EndStartsBy(s: string, m: string, k: int)
    requires 0 < k <= |s| && k <= |m| && s[|s| - k..] == m[..k]
    ensures EndStarts(s, m)
  {
  }

  lemma OccursBy(text: string, s: string, i: nat)
    requires OccursAt(text, s, i)
    ensures Occurs(text, s)
  {
  }

  /** Overlapping is one containing the other, or an end of one being a start of the other. */
  lemma OverlapsIff(s: string, m: string)
    requires s != "" && m != ""
    ensures Overlaps(s, m) <==> Occurs(m, s) || Occurs(s, m) || EndStarts(s, m) || EndStarts(m, s)
  {
    if d :| -|s| < d < |m| && AgreesAt(s, m, d) {
      hide Occurs, EndStarts;
      PlacementShape(s, m, d);
    } else if i: nat :| OccursAt(m, s, i) {
      OverlapAt(s, m, i);
    } else if i: nat :| OccursAt(s, m, i) {
      assert forall j | 0 <= j < |m| :: s[i..][j] == m[j];
      OverlapAt(s, m, -(i as int));
    } else if k :| 0 < k <= |s| && k <= |m| && s[|s| - k..] == m[..k] {
      assert forall j | 0 <= j < k :: s[|s| - k..][j] == m[j];
      OverlapAt(s, m, k - |s|);
    } else if k :| 0 < k <= |m| && k <= |s| && m[|m| - k..] == s[..k] {
      assert forall j | 0 <= j < k :: m[|m| - k..][j] == s[j];
      OverlapAt(s, m, |m| - k);
    }
  }

  // ---------- replacement hides ----------

  lemma ReplaceStep(text: string, from: string, to: string)
    requires from != ""
    ensures Replace("", from, to) == ""
    ensures text != "" && from <= text ==> Replace(text, from, to) == to + Replace(text[|from|..], from, to)
    ensures text != "" && !(from <= text) ==> Replace(text, from, to) == [text[0]] + Replace(text[1..], from, to)
  {
  }

  /** If an end `u` of `s` starts the replaced text, the window over `s` reaches no marker. */
  lemma {:induction false} EndStartsOriginal(s: string, u: string, text: string, from: string, to: string)
    requires from != "" && to != "" && forall d | -|s| < d < 0 :: !AgreesAt(s, to, d)
    requires |u| < |s| && s[|s| - |u|..] == u
    requires u <= Replace(text, from, to)
    ensures u <= text
    decreases |text|
  {
    hide AgreesAt, Replace;
    ReplaceStep(text, from, to);
    if u != "" && text != "" {
      if from <= text {
        EndMeetsMarker(s, u, to, Replace(text[|from|..], from, to));
      } else {
        var rest := Replace(text[1..], from, to);
        assert ([text[0]] + rest)[1..] == rest;
        assert u[1..] <= rest;
        assert s[|s| - |u[1..]|..] == s[|s| - |u|..][1..];
        EndStartsOriginal(s, u[1..], text[1..], from, to);
        assert u == [u[0]] + u[1..] && text == [text[0]] + text[1..];
      }
    }
  }

  lemma EndMeetsMarker(s: string, u: string, to: string, rest: string)
    requires u != "" && to != "" && |u| < |s| && s[|s| - |u|..] == u
    requires u <= to + rest
    ensures AgreesAt(s, to, |u| - |s|)
  {
    assert forall i | 0 <= i < |u| :: s[|s| - |u| + i] == u[i];
    assert forall i | 0 <= i < |u| && i < |to| :: u[i] == (to + rest)[i] == to[i];
  }

  lemma OccursBehindMarker(to: string, rest: string, s: string)
    requires s != "" && to != "" && Occurs(to + rest, s)
    ensures Overlaps(s, to) || Occurs(rest, s)
  {
    var i: nat :| OccursAt(to + rest, s, i);
    if i < |to| {
      assert forall j | 0 <= j < |s| && j + i < |to| :: s[j] == (to + rest)[i..][j] == to[j + i];
      OverlapAt(s, to, i);
    } else {
      assert (to + rest)[i..] == rest[i - |to|..];
      assert OccursAt(rest, s, i - |to|);
    }
  }

  lemma OccursBehindChar(c: char, rest: string, s: string)
    requires s != "" && Occurs([c] + rest, s)
    ensures Occurs(rest, s) || (s[0] == c && s[1..] <= rest)
  {
    var i: nat :| OccursAt([c] + rest, s, i);
    if i > 0 {
      assert ([c] + rest)[i..] == rest[i - 1..];
      assert OccursAt(rest, s, i - 1);
    }
  }

  lemma PrefixOccurs(text: string, s: string)
    ensures s <= text ==> Occurs(text, s)
  {
    assert text[0..] == text;
    assert s <= text ==> OccursAt(text, s, 0);
  }

  /**
    * Where a marker-free pattern occurs after a replacement, it was there before; and what was
    * replaced is gone.
    */
  lemma {:induction false} ReplaceKeepsOut(text: string, from: string, to: string, s: string)
    requires s != "" && to != "" && !Overlaps(s, to)
    requires s == from || !Occurs(text, s)
    ensures !Occurs(Replace(text, from, to), s)
    decreases |text|
  {
    hide Overlaps, Occurs, Replace;
    if from == "" {
      InterleaveKeepsOut(text, to, s);
      InterleaveIsReplace(text, to);
    } else if Occurs(Replace(text, from, to), s) {
      ReplaceStep(text, from, to);
      NothingInEmpty(s);
      PrefixOccurs(text, s);
      if text != "" && from <= text {
        OccursBehindMarker(to, Replace(text[|from|..], from, to), s);
        TailFree(text, |from|, from, s);
        ReplaceKeepsOut(text[|from|..], from, to, s);
      } else if text != "" {
        OccursBehindChar(text[0], Replace(text[1..], from, to), s);
        TailFree(text, 1, from, s);
        ReplaceKeepsOut(text[1..], from, to, s);
        assert s == [s[0]] + s[1..] && text == [text[0]] + text[1..];
        NoEndMeets(s, to);
        EndStartsOriginal(s, s[1..], text[1..], from, to);
      }
    }
  }

  lemma NoEndMeets(s: string, to: string)
    requires to != "" && !Overlaps(s, to)
    ensures forall d | -|s| < d < 0 :: !AgreesAt(s, to, d)
  {
  }

  lemma NothingInEmpty(s: string)
    ensures s != "" ==> !Occurs("", s)
  {
  }

  lemma InterleaveIsReplace(text: string, to: string)
    ensures Replace(text, "", to) == Interleave(text, to)
  {
  }

  lemma TailFree(text: string, n: nat, from: string, s: string)
    requires n <= |text| && (s == from || !Occurs(text, s))
    ensures s == from || !Occurs(text[n..], s)
  {
    if Occurs(text[n..], s) {
      OccursInTail(text, n, s);
    }
  }

  lemma {:induction false} InterleaveKeepsOut(text: string, to: string, s: string)
    requires s != "" && to != "" && !Overlaps(s, to)
    requires !Occurs(text, s)
    ensures !Occurs(Interleave(text, to), s)
    decreases |text|
  {
    hide Overlaps, Occurs;
    if Occurs(Interleave(text, to), s) {
      NothingInEmpty(s);
      PrefixOccurs(text, s);
      if text == "" {
        assert to + "" == to;
        OccursBehindMarker(to, "", s);
      } else {
        var rest := Interleave(text[1..], to);
        assert to + [text[0]] + rest == to + ([text[0]] + rest);
        assert |s| == 1 && s[0] == text[0] ==> s <= text;
        assert exists tail :: rest == to + tail by {
          assert rest == to + rest[|to|..];
        }
        var tail :| rest == to + tail;
        OccursBehindMarker(to, [text[0]] + rest, s);
        OccursBehindChar(text[0], rest, s);
        TailFree(text, 1, "", s);
        InterleaveKeepsOut(text[1..], to, s);
        NoEndMeets(s, to);
        EndMeetsMarker(s, s[1..], to, tail);
      }
    }
  }

  /** A marker that contains the pattern puts it back: every text that had it still has it. */
  lemma {:induction false} ReplaceInsideMarker(text: string, from: string, to: string)
    requires from != "" && Occurs(to, from)
    ensures Occurs(text, from) <==> Occurs(Replace(text, from, to), from)
    decreases |text|
  {
    if text != "" && from <= text {
      OccursInConcat(to, Replace(text[|from|..], from, to), from);
      assert OccursAt(text, from, 0);
    } else if text != "" {
      ReplaceInsideMarker(text[1..], from, to);
      var rest := Replace(text[1..], from, to);
      if i: nat :| OccursAt(text, from, i) {
        assert OccursAt(text[1..], from, i - 1);
        OccursInConcat([text[0]], rest, from);
      }
      if Occurs(rest, from) {
        OccursInTail(text, 1, from);
      } else if i: nat :| OccursAt([text[0]] + rest, from, i) {
        assert i == 0 by {
          if i > 0 {
            assert OccursAt(rest, from, i - 1);
          }
        }
        NoMatchNoChange(text[1..], from, to);
      }
    }
  }

  lemma {:induction false} NoMatchNoChange(text: string, from: string, to: string)
    requires from != "" && !Occurs(text, from)
    ensures Replace(text, from, to) == text
    decreases |text|
  {
    if text != "" {
      assert !(from <= text) by {
        assert from <= text ==> OccursAt(text, from, 0);
      }
      TailFree(text, 1, "", from);
      NoMatchNoChange(text[1..], from, to);
    }
  }

  /** An empty pattern is found before every character and at the end: every character is kept between markers. */
  lemma {:induction false} InterleaveShape(text: string, to: string, k: nat)
    requires k <= |text|
    ensures |Replace(text, "", to)| == |to| + |text| * (|to| + 1)
    ensures var at := k * (|to| + 1); var r := Replace(text, "", to);
      && at + |to| <= |r| && r[at..at + |to|] == to
      && (k < |text| ==> at + |to| < |r| && r[at + |to|] == text[k])
    decreases |text|
  {
    InterleaveIsReplace(text, to);
    if text != "" {
      var rest := Interleave(text[1..], to);
      InterleaveShape(text[1..], to, if k == 0 then 0 else k - 1);
      InterleaveIsReplace(text[1..], to);
      assert Interleave(text, to) == to + [text[0]] + rest;
      Distributes(|text| - 1, |to| + 1);
      if k > 0 {
        var at := (k - 1) * (|to| + 1);
        Distributes(k - 1, |to| + 1);
        assert (to + [text[0]] + rest)[at + (|to| + 1)..at + (|to| + 1) + |to|] == rest[at..at + |to|];
      }
    }
  }

  lemma Distributes(n: nat, m: nat)
    ensures (n + 1) * m == n * m + m
  {
  }

  // ---------- lines ----------

  function Join(parts: seq<string>, separator: string): string {
    if |parts| == 0 then "" else if |parts| == 1 then parts[0]
    else parts[0] + separator + Join(parts[1..], separator)
  }

  /** The pieces between occurrences of `c`; always at least one. */
  function Split(text: string, c: char): (parts: seq<string>)
    ensures |parts| >= 1
  {
    if text == "" then [""]
    else
      var rest := Split(text[1..], c);
      if text[0] == c then [""] + rest else [[text[0]] + rest[0]] + rest[1..]
  }

  lemma {:induction false} SplitConcat(line: string, rest: string, c: char)
    requires c !in line
    ensures Split(line + [c] + rest, c) == [line] + Split(rest, c)
  {
    if line == "" {
      assert line + [c] + rest == [c] + rest;
    } else {
      SplitConcat(line[1..], rest, c);
      assert (line + [c] + rest)[1..] == line[1..] + [c] + rest;
      assert [line[0]] + line[1..] == line;
    }
  }

  lemma {:induction false} SplitNone(line: string, c: char)
    requires c !in line
    ensures Split(line, c) == [line]
  {
    if line != "" {
      SplitNone(line[1..], c);
      assert [line[0]] + line[1..] == line;
    }
  }

  /** Lines that hold no newline are read back from their joined text. */
  lemma {:induction false} SplitJoin(lines: seq<string>, c: char)
    requires |lines| > 0 && forall k | 0 <= k < |lines| :: c !in lines[k]
    ensures Split(Join(lines, [c]), c) == lines
  {
    if |lines| == 1 {
      SplitNone(lines[0], c);
    } else {
      SplitConcat(lines[0], Join(lines[1..], [c]), c);
      SplitJoin(lines[1..], c);
    }
  }

  /** A pattern without the separator occurs in a joined text exactly when it occurs in a part. */
  lemma {:induction false} OccursInJoin(lines: seq<string>, c: char, s: string)
    requires s != "" && c !in s
    ensures Occurs(Join(lines, [c]), s) <==> exists k :: 0 <= k < |lines| && Occurs(lines[k], s)
  {
    if |lines| == 1 {
      assert Join(lines, [c]) == lines[0];
    } else if |lines| > 1 {
      var rest := Join(lines[1..], [c]);
      var joined := lines[0] + [c] + rest;
      OccursInJoin(lines[1..], c, s);
      OccursInConcat(lines[0], [c] + rest, s);
      OccursInConcat(lines[0] + [c], rest, s);
      assert joined == lines[0] + ([c] + rest);
      if i: nat :| OccursAt(joined, s, i) {
        if i > |lines[0]| {
          assert joined[i..] == rest[i - |lines[0]| - 1..];
          assert OccursAt(rest, s, i - |lines[0]| - 1);
          var k :| 0 <= k < |lines[1..]| && Occurs(lines[1..][k], s);
          assert Occurs(lines[k + 1], s);
        } else {
          assert joined[|lines[0]|] == c;
          assert forall j | 0 <= j < |s| :: joined[i + j] == s[j] && s[j] in s;
          assert i + |s| <= |lines[0]|;
          assert lines[0][i..][..|s|] == joined[i..][..|s|];
          assert OccursAt(lines[0], s, i);
          assert Occurs(lines[0], s);
        }
      }
      if k :| 0 <= k < |lines| && Occurs(lines[k], s) {
        if k > 0 {
          assert Occurs(lines[1..][k - 1], s);
        }
      }
    }
  }

  /** No piece holds the separator. */
  lemma {:induction false} SplitPieces(text: string, c: char)
    ensures forall k | 0 <= k < |Split(text, c)| :: c !in Split(text, c)[k]
  {
    if text != "" {
      SplitPieces(text[1..], c);
    }
  }

  lemma {:induction false} CharInJoin(parts: seq<string>, separator: string, c: char)
    requires c !in separator
    ensures c in Join(parts, separator) <==> exists k :: 0 <= k < |parts| && c in parts[k]
  {
    if |parts| == 1 {
      assert Join(parts, separator) == parts[0];
    } else if |parts| > 1 {
      CharInJoin(parts[1..], separator, c);
      if c in Join(parts[1..], separator) {
        var k :| 0 <= k < |parts[1..]| && c in parts[1..][k];
        assert c in parts[k + 1];
      }
      if k :| 0 <= k < |parts| && c in parts[k] {
        assert k > 0 ==> parts[k] == parts[1..][k - 1];
      }
    }
  }

  lemma {:induction false} CharInReplace(text: string, from: string, to: string, c: char)
    requires from != "" && c !in from && c !in to
    ensures c in Replace(text, from, to) <==> c in text
    decreases |text|
  {
    if text != "" && from <= text {
      assert text == from + text[|from|..];
      CharInReplace(text[|from|..], from, to, c);
    } else if text != "" {
      assert text == [text[0]] + text[1..];
      CharInReplace(text[1..], from, to, c);
    }
  }
}
