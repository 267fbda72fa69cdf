/** When replacing a string by a marker can leave, or make, what it should take away. */
module Redaction {
  import opened Text

  // ---------- the first occurrence ----------

  lemma {:induction false} FirstMatch(text: string, s: string) returns (k: nat)
    requires Occurs(text, s)
    ensures OccursAt(text, s, k) && forall i: nat | i < k :: !OccursAt(text, s, i)
    decreases |text|
  {
    if s <= text {
      k := 0;
    } else {
      var at: nat :| OccursAt(text, s, at);
      assert OccursAt(text[1..], s, at - 1);
      var k' := FirstMatch(text[1..], s);
      k := k' + 1;
      forall i: nat | i < k
        ensures !OccursAt(text, s, i)
      {
        assert i > 0 ==> OccursAt(text, s, i) == OccursAt(text[1..], s, i - 1);
      }
    }
  }

  /** Everything before the first occurrence stays. */
  lemma {:induction false} ReplaceAtFirst(a: string, s: string, rest: string, m: string)
    requires s != "" && forall i: nat | i < |a| :: !OccursAt(a + s + rest, s, i)
    ensures Replace(a + s + rest, s, m) == a + m + Replace(rest, s, m)
    decreases |a|
  {
    hide Replace;
    var text := a + s + rest;
    ReplaceStep(text, s, m);
    if a == "" {
      assert text == s + rest && text[|s|..] == rest;
      assert a + m == m;
    } else {
      var behind := a[1..] + s + rest;
      assert text[1..] == behind;
      assert !OccursAt(text, s, 0);
      forall i: nat | i < |a[1..]|
        ensures !OccursAt(behind, s, i)
      {
        assert !OccursAt(text, s, i + 1);
        assert text[i + 1..] == behind[i..];
      }
      ReplaceAtFirst(a[1..], s, rest, m);
      assert [text[0]] + (a[1..] + m + Replace(rest, s, m)) == a + m + Replace(rest, s, m);
    }
  }

  lemma ShorterIsFree(text: string, s: string)
    requires |text| < |s|
    ensures !Occurs(text, s)
  {
  }

  // ---------- one pattern, one marker ----------

  predicate Compatible(a: string, b: string) {
    a <= b || b <= a
  }

  /** Putting the beginning `s[..k]` before `s` makes no earlier occurrence. */
  ghost predicate FreshBefore(s: string, k: nat)
    requires k <= |s|
  {
    forall i: nat | i < k :: !OccursAt(s[..k] + s, s, i)
  }

  /**
    * The marker holds the pattern, or an end of the marker starts it, or the marker continues a
    * beginning of the pattern that can stand before the pattern without spoiling the match.
    */
  ghost predicate CanReturn(s: string, m: string) {
    || Occurs(m, s)
    || EndStarts(m, s)
    || exists k: nat :: k < |s| && Compatible(s[k..], m) && FreshBefore(s, k)
  }

  // ---------- what the first characters show ----------

  /** `s` occurs, and its last character is among the first `limit`. */
  ghost predicate Within(text: string, s: string, limit: int) {
    exists i: nat :: OccursAt(text, s, i) && i + |s| <= limit
  }

  ghost predicate EndStartsWithin(m: string, s: string, limit: int) {
    exists n :: 0 < n <= |m| && n <= |s| && m[|m| - n..] == s[..n] && |m| - n + |s| <= limit
  }

  /** `CanReturn`, early enough to be among the first `limit` characters. */
  ghost predicate CanReturnWithin(s: string, m: string, limit: int) {
    || Within(m, s, limit)
    || EndStartsWithin(m, s, limit)
    || (|s| <= limit && exists k: nat :: k < |s| && Compatible(s[k..], m) && FreshBefore(s, k))
  }

  /** A placement of `s` on a marker, early enough to be among the first `limit` characters. */
  ghost predicate OverlapsWithin(s: string, m: string, limit: int) {
    exists d :: -|s| < d < |m| && AgreesAt(s, m, d) && |s| + (if d < 0 then 0 else d) <= limit
  }

  lemma WithinOccurs(text: string, s: string, limit: int)
    ensures Within(text, s, limit) ==> Occurs(text, s)
  {
  }

  lemma OccursWithin(text: string, s: string, limit: int)
    requires s != "" && |text| <= limit
    ensures Occurs(text, s) ==> Within(text, s, limit)
  {
    if i: nat :| OccursAt(text, s, i) {
      assert i + |s| <= |text|;
    }
  }

  /** Where there is room for a whole marker, the limit makes no difference. */
  lemma RoomForMarker(s: string, m: string, limit: int)
    requires s != "" && m != ""
    ensures CanReturnWithin(s, m, limit) ==> CanReturn(s, m)
    ensures OverlapsWithin(s, m, limit) ==> Overlaps(s, m)
    ensures |s| + |m| <= limit + 1 && CanReturn(s, m) ==> CanReturnWithin(s, m, limit)
    ensures |s| + |m| <= limit + 1 && Overlaps(s, m) ==> OverlapsWithin(s, m, limit)
  {
    hide FreshBefore;
    WithinOccurs(m, s, limit);
    if |s| + |m| <= limit + 1 {
      OccursWithin(m, s, limit);
    }
  }

  /** The first `s` of a text is replaced; what follows it is too short to hold another. */
  lemma ReplacesOne(a: string, s: string, rest: string, m: string)
    requires s != "" && |rest| < |s| && forall i: nat | i < |a| :: !OccursAt(a + s + rest, s, i)
    ensures Replace(a + s + rest, s, m) == a + m + rest
  {
    hide Replace, Occurs, OccursAt;
    ShorterIsFree(rest, s);
    NoMatchNoChange(rest, s, m);
    ReplaceAtFirst(a, s, rest, m);
  }

  lemma OccursBetween(a: string, s: string, b: string, limit: int)
    requires |a| + |s| <= limit
    ensures Within(a + s + b, s, limit)
  {
    assert (a + s + b)[|a|..] == s + b;
    assert OccursAt(a + s + b, s, |a|);
  }

  lemma ReturnsFromMarkerEnd(s: string, m: string, n: nat, limit: int) returns (text: string)
    requires 0 < n <= |s| && n <= |m| && m[|m| - n..] == s[..n] && |m| - n + |s| <= limit
    ensures Within(Replace(text, s, m), s, limit)
  {
    hide Replace, Occurs, OccursAt, Within;
    text := "" + s + s[n..];
    ReplacesOne("", s, s[n..], m);
    var front := m[..|m| - n];
    assert s == s[..n] + s[n..];
    assert "" + m + s[n..] == front + s + "";
    OccursBetween(front, s, "", limit);
  }

  lemma ReturnsBehindBeginning(s: string, m: string, k: nat, limit: int) returns (text: string)
    requires m != "" && k < |s| && Compatible(s[k..], m) && FreshBefore(s, k) && |s| <= limit
    ensures Within(Replace(text, s, m), s, limit)
  {
    hide Replace, Occurs, Within;
    var rest := if m <= s[k..] then s[k + |m|..] else "";
    text := s[..k] + s + rest;
    FreshStays(s, k, rest);
    ReplacesOne(s[..k], s, rest, m);
    MarkerCompletes(s, m, k, rest);
    var result := s[..k] + m + rest;
    assert result == "" + s + result[|s|..];
    OccursBetween("", s, result[|s|..], limit);
  }

  lemma ReturnsInMarker(s: string, m: string)
    requires s != ""
    ensures Replace(s, s, m) == m
  {
    assert Replace(s, s, m) == m + Replace(s[|s|..], s, m);
    assert s[|s|..] == "" && m + "" == m;
  }

  /** Some text shows the pattern again where it can return. */
  lemma ReturnsWithin(s: string, m: string, limit: int) returns (text: string)
    requires s != "" && m != "" && CanReturnWithin(s, m, limit)
    ensures Within(Replace(text, s, m), s, limit)
  {
    hide Within, FreshBefore, Compatible, Replace;
    if Within(m, s, limit) {
      ReturnsInMarker(s, m);
      text := s;
    } else if n :| 0 < n <= |m| && n <= |s| && m[|m| - n..] == s[..n] && |m| - n + |s| <= limit {
      text := ReturnsFromMarkerEnd(s, m, n, limit);
    } else {
      var k: nat :| k < |s| && Compatible(s[k..], m) && FreshBefore(s, k);
      text := ReturnsBehindBeginning(s, m, k, limit);
    }
  }

  lemma FreshStays(s: string, k: nat, rest: string)
    requires k <= |s| && FreshBefore(s, k)
    ensures forall i: nat | i < k :: !OccursAt(s[..k] + s + rest, s, i)
  {
    forall i: nat | i < k
      ensures !OccursAt(s[..k] + s + rest, s, i)
    {
      assert !OccursAt(s[..k] + s, s, i);
      assert (s[..k] + s + rest)[i..] == (s[..k] + s)[i..] + rest;
      assert ((s[..k] + s)[i..] + rest)[..|s|] == (s[..k] + s)[i..][..|s|];
    }
  }

  lemma MarkerCompletes(s: string, m: string, k: nat, rest: string)
    requires k < |s| && Compatible(s[k..], m)
    requires m <= s[k..] ==> rest == s[k + |m|..]
    ensures s <= s[..k] + m + rest
  {
    assert s == s[..k] + s[k..];
    if m <= s[k..] {
      assert s[k..] == m + s[k..][|m|..];
      assert s[k..][|m|..] == s[k + |m|..];
      assert s == s[..k] + m + rest;
    } else {
      assert m == s[k..] + m[|s| - k..];
      assert s[..k] + m + rest == s + (m[|s| - k..] + rest);
    }
  }

  /** Where a replacement's result starts with the pattern, either the text did or the marker continues it. */
  lemma StartMeansReturn(text: string, s: string, m: string)
    requires s != "" && s <= Replace(text, s, m) && !(s <= text)
    ensures exists k: nat :: k < |s| && Compatible(s[k..], m) && FreshBefore(s, k)
  {
    hide Replace, Occurs;
    if !Occurs(text, s) {
      NoMatchNoChange(text, s, m);
      assert false;
    }
    var k := FirstMatch(text, s);
    var a, rest := text[..k], text[k + |s|..];
    assert text == a + s + rest;
    ReplaceAtFirst(a, s, rest, m);
    MarkerContinues(a, s, rest, m, Replace(rest, s, m));
  }

  lemma MarkerContinues(a: string, s: string, rest: string, m: string, tail: string)
    requires s != "" && s <= a + m + tail
    requires forall i: nat | i < |a| :: !OccursAt(a + s + rest, s, i)
    ensures s <= a + s + rest || (|a| < |s| && Compatible(s[|a|..], m) && FreshBefore(s, |a|))
  {
    if |s| <= |a| {
      assert s == (a + m + tail)[..|s|] == (a + s + rest)[..|s|];
    } else {
      var k := |a|;
      assert s[..k] == (a + m + tail)[..k] == a;
      assert s[k..] == (a + m + tail)[k..|s|] == (m + tail)[..|s| - k];
      forall i: nat | i < k
        ensures !OccursAt(s[..k] + s, s, i)
      {
        assert !OccursAt(a + s + rest, s, i);
        assert (a + s + rest)[i..] == (a + s)[i..] + rest;
      }
    }
  }

  /** What cannot return in time is not among the first characters of any text it was replaced in. */
  lemma {:induction false} ReplaceRemovesWithin(text: string, s: string, m: string, limit: int)
    requires s != "" && m != "" && !CanReturnWithin(s, m, limit)
    ensures !Within(Replace(text, s, m), s, limit)
    decreases |text|
  {
    hide Replace, Occurs, Within, FreshBefore, Compatible, EndStartsWithin;
    ReplaceStep(text, s, m);
    NothingWithinEmpty(s, limit);
    if text != "" && s <= text {
      ReplaceRemovesWithin(text[|s|..], s, m, limit);
      BehindMarker(m, Replace(text[|s|..], s, m), s, limit);
    } else if text != "" && Within(Replace(text, s, m), s, limit) {
      ReplaceRemovesWithin(text[1..], s, m, limit);
      BehindChar(text[0], Replace(text[1..], s, m), s, limit);
      WithinEarlier(Replace(text[1..], s, m), s, limit - 1, limit);
      StartMeansReturn(text, s, m);
    }
  }

  lemma NothingWithinEmpty(s: string, limit: int)
    ensures s != "" ==> !Within("", s, limit)
  {
  }

  lemma WithinEarlier(text: string, s: string, early: int, late: int)
    requires early <= late
    ensures Within(text, s, early) ==> Within(text, s, late)
  {
  }

  lemma BehindMarker(m: string, rest: string, s: string, limit: int)
    requires s != ""
    ensures Within(m + rest, s, limit)
        ==> Within(m, s, limit) || EndStartsWithin(m, s, limit) || Within(rest, s, limit)
  {
    if i: nat :| OccursAt(m + rest, s, i) && i + |s| <= limit {
      if i >= |m| {
        assert (m + rest)[i..] == rest[i - |m|..];
        assert OccursAt(rest, s, i - |m|);
      } else if i + |s| <= |m| {
        assert (m + rest)[i..][..|s|] == m[i..][..|s|];
        assert OccursAt(m, s, i);
      } else {
        var n := |m| - i;
        assert s[..n] == (m + rest)[i..][..n] == m[|m| - n..];
        assert 0 < n <= |m| && n <= |s| && m[|m| - n..] == s[..n];
      }
    }
  }

  lemma BehindChar(c: char, rest: string, s: string, limit: int)
    requires s != "" && Within([c] + rest, s, limit)
    ensures Within(rest, s, limit - 1) || (|s| <= limit && s[0] == c && s[1..] <= rest)
  {
    var i: nat :| OccursAt([c] + rest, s, i) && i + |s| <= limit;
    if i > 0 {
      assert ([c] + rest)[i..] == rest[i - 1..];
      assert OccursAt(rest, s, i - 1);
    }
  }

  lemma ReplaceRemoves(text: string, s: string, m: string)
    requires s != "" && m != "" && !CanReturn(s, m)
    ensures !Occurs(Replace(text, s, m), s)
  {
    hide Replace, Occurs, Within, CanReturn, CanReturnWithin;
    var result := Replace(text, s, m);
    RoomForMarker(s, m, |result|);
    ReplaceRemovesWithin(text, s, m, |result|);
    OccursWithin(result, s, |result|);
  }

  /** After every `s` in the text is replaced by `m`, there is an `s` in it. */
  ghost predicate Survives(text: string, s: string, m: string) {
    Occurs(Replace(text, s, m), s)
  }

  /** Replacing `other` puts an `s` into a text that has none. */
  ghost predicate Introduces(text: string, other: string, m: string, s: string) {
    other != "" && !Occurs(text, s) && Occurs(Replace(text, other, m), s)
  }

  /** Replacing `s` by `m` takes `s` out of every text exactly when `s` cannot return. */
  lemma ReplaceRemovesIff(s: string, m: string)
    requires s != "" && m != ""
    ensures (forall text :: !Survives(text, s, m)) <==> !CanReturn(s, m)
  {
    if CanReturn(s, m) {
      RoomForMarker(s, m, |s| + |m|);
      var text := ReturnsWithin(s, m, |s| + |m|);
      WithinOccurs(Replace(text, s, m), s, |s| + |m|);
      assert Survives(text, s, m);
    } else {
      forall text
        ensures !Survives(text, s, m)
      {
        ReplaceRemoves(text, s, m);
      }
    }
  }

  /** What can return overlaps; the converse fails only where the pattern spoils its own match. */
  lemma ReturningOverlaps(s: string, m: string)
    requires s != "" && m != "" && CanReturn(s, m)
    ensures Overlaps(s, m)
  {
    ReplaceRemovesIff(s, m);
    var text :| Survives(text, s, m);
    if !Overlaps(s, m) {
      ReplaceKeepsOut(text, s, m, s);
    }
  }

  // ---------- a marker written for something else ----------

  function Repeat(c: char, n: nat): (r: string)
    ensures |r| == n && forall i :: 0 <= i < n ==> r[i] == c
  {
    seq(n, _ => c)
  }

  /** `core`, between blanks enough that nothing as long as `n` reaches over them. */
  function Padded(c: char, n: nat, core: string): string {
    Repeat(c, n) + core + Repeat(c, n)
  }

  /** Padding that `s` neither starts nor ends with, around a text without `s`, lets no `s` in. */
  lemma NothingReachesOver(a: string, s: string, b: string, c: char, core: string)
    requires s != "" && c != s[0] && c != s[|s| - 1] && !Occurs(core, s)
    requires |a| < |s| && |b| < |s|
    ensures !Occurs(a + Padded(c, |s|, core) + b, s)
  {
    var n := |s|;
    var text := a + Padded(c, n, core) + b;
    assert text == a + Repeat(c, n) + core + Repeat(c, n) + b;
    forall i: nat
      ensures !OccursAt(text, s, i)
    {
      if i + n <= |text| {
        assert text[i..][0] == text[i] && text[i..][n - 1] == text[i + n - 1];
        if |a| + n <= i && i + n <= |a| + n + |core| {
          var k := i - |a| - n;
          assert text[i..][..n] == core[k..][..n];
          assert !OccursAt(core, s, k);
        }
      }
    }
  }

  /** Placed after `a`, the padded text is found exactly there. */
  lemma FillerIsFound(a: string, s: string, b: string, c: char, core: string, m: string)
    requires s != "" && c != s[0] && c != s[|s| - 1] && (a == "" || c != a[|a| - 1]) && !Occurs(core, s)
    requires |a| < |s| && |b| < |s|
    ensures var t := Padded(c, |s|, core);
      !Occurs(a + t + b, s) && Replace(a + t + b, t, m) == a + m + b
  {
    var t := Padded(c, |s|, core);
    var text := a + t + b;
    NothingReachesOver(a, s, b, c, core);
    forall i: nat | i < |a|
      ensures !OccursAt(text, t, i)
    {
      assert text[i..][|a| - 1 - i] == a[|a| - 1] != c;
      assert t[|a| - 1 - i] == c;
    }
    ReplacesOne(a, t, b, m);
  }

  lemma OtherBlank(x: char, y: char, z: char) returns (c: char)
    ensures IsWhitespace(c) && c != x && c != y && c != z
  {
    if ' ' !in [x, y, z] { c := ' '; }
    else if '\t' !in [x, y, z] { c := '\t'; }
    else if '\n' !in [x, y, z] { c := '\n'; }
    else { c := '\r'; }
  }

  /**
    * If `s` overlaps the marker, some text without `s` has it once another string is replaced: one
    * that may be chosen as blanks around any text without `s`.
    */
  lemma OverlapLeaks(s: string, m: string, limit: int, core: string) returns (text: string, other: string, c: char)
    requires s != "" && OverlapsWithin(s, m, limit) && !Occurs(core, s)
    ensures IsWhitespace(c) && other == Padded(c, |s|, core)
    ensures !Occurs(text, s) && Within(Replace(text, other, m), s, limit)
  {
    var d :| -|s| < d < |m| && AgreesAt(s, m, d) && |s| + (if d < 0 then 0 else d) <= limit;
    var a := if d < 0 then s[..-d] else "";
    var b := if |m| - d < |s| then s[|m| - d..] else "";
    c := OtherBlank(s[0], s[|s| - 1], if a == "" then s[0] else a[|a| - 1]);
    other := Padded(c, |s|, core);
    text := a + other + b;
    FillerIsFound(a, s, b, c, core, m);
    PlacedWithin(s, m, d, a, b, limit);
  }

  /** The parts of `s` that stand out of the marker complete it. */
  lemma PlacedWithin(s: string, m: string, d: int, a: string, b: string, limit: int)
    requires s != "" && -|s| < d < |m| && AgreesAt(s, m, d) && |s| + (if d < 0 then 0 else d) <= limit
    requires a == (if d < 0 then s[..-d] else "") && b == if |m| - d < |s| then s[|m| - d..] else ""
    ensures Within(a + m + b, s, limit)
  {
    var k := if d < 0 then 0 else d;
    assert forall i | 0 <= i < |s| :: (a + m + b)[k + i] == s[i];
    assert OccursAt(a + m + b, s, k);
  }

  /** A string no replacement by the marker can bring in is exactly one that does not overlap it. */
  lemma StaysOutIff(s: string, m: string)
    requires s != "" && m != ""
    ensures (forall text, other :: !Introduces(text, other, m, s)) <==> !Overlaps(s, m)
  {
    if Overlaps(s, m) {
      RoomForMarker(s, m, |s| + |m|);
      NothingInEmpty(s);
      var text, other, _ := OverlapLeaks(s, m, |s| + |m|, "");
      WithinOccurs(Replace(text, other, m), s, |s| + |m|);
      assert Introduces(text, other, m, s);
    } else {
      forall text, other
        ensures !Introduces(text, other, m, s)
      {
        if !Occurs(text, s) {
          ReplaceKeepsOut(text, other, m, s);
        }
      }
    }
  }

  // ---------- another string's marker among the first characters ----------

  /** If `s` meets no marker in time, the marker pushes `s` back or, if it pulls it forward, there was none. */
  ghost predicate StaysBehind(text: string, to: string, s: string, limit: int) {
    && !OverlapsWithin(s, to, limit)
    && !Within(text, s, limit)
    && (|to| + |s| <= limit ==> !Occurs(text, s))
  }

  lemma BehindOtherMarker(to: string, rest: string, s: string, limit: int)
    requires s != "" && to != "" && !OverlapsWithin(s, to, limit) && Within(to + rest, s, limit)
    ensures |to| + |s| <= limit && Within(rest, s, limit)
  {
    var i: nat :| OccursAt(to + rest, s, i) && i + |s| <= limit;
    if i < |to| {
      assert forall j | 0 <= j < |s| && j + i < |to| :: s[j] == (to + rest)[i..][j] == to[j + i];
      assert AgreesAt(s, to, i);
    } else {
      assert (to + rest)[i..] == rest[i - |to|..];
      assert OccursAt(rest, s, i - |to|);
    }
  }

  lemma NoEndMeetsMarker(s: string, to: string, limit: int)
    requires !OverlapsWithin(s, to, limit) && |s| <= limit && to != ""
    ensures forall d | -|s| < d < 0 :: !AgreesAt(s, to, d)
  {
  }

  lemma TailStaysBehind(text: string, n: nat, to: string, s: string, limit: int)
    requires n <= |text| && StaysBehind(text, to, s, limit)
    ensures StaysBehind(text[n..], to, s, limit - n)
    ensures !Occurs(text, s) ==> StaysBehind(text[n..], to, s, limit)
  {
    if i: nat :| OccursAt(text[n..], s, i) {
      assert text[n..][i..] == text[n + i..];
      assert OccursAt(text, s, n + i);
    }
    if i: nat :| OccursAt(text[n..], s, i) && i + |s| <= limit - n {
      assert text[n..][i..] == text[n + i..];
      assert OccursAt(text, s, n + i);
    }
  }

  lemma {:induction false} ReplaceKeepsBehind(text: string, from: string, to: string, s: string, limit: int)
    requires s != "" && to != "" && from != "" && StaysBehind(text, to, s, limit)
    ensures !Within(Replace(text, from, to), s, limit)
    decreases |text|
  {
    hide Replace, Occurs, Within, OverlapsWithin;
    ReplaceStep(text, from, to);
    NothingWithinEmpty(s, limit);
    if text != "" && Within(Replace(text, from, to), s, limit) {
      if from <= text {
        BehindOtherMarker(to, Replace(text[|from|..], from, to), s, limit);
        TailStaysBehind(text, |from|, to, s, limit);
        ReplaceKeepsBehind(text[|from|..], from, to, s, limit);
      } else {
        BehindChar(text[0], Replace(text[1..], from, to), s, limit);
        TailStaysBehind(text, 1, to, s, limit);
        ReplaceKeepsBehind(text[1..], from, to, s, limit - 1);
        NoEndMeetsMarker(s, to, limit);
        EndStartsOriginal(s, s[1..], text[1..], from, to);
        assert s == [s[0]] + s[1..] && text == [text[0]] + text[1..];
        StartsWithin(text, s, limit);
      }
    }
  }

  lemma StartsWithin(text: string, s: string, limit: int)
    requires s <= text && |s| <= limit
    ensures Within(text, s, limit)
  {
    assert OccursAt(text, s, 0);
  }

  lemma {:induction false} InterleaveKeepsBehind(text: string, to: string, s: string, limit: int)
    requires s != "" && to != "" && StaysBehind(text, to, s, limit)
    ensures !Within(Interleave(text, to), s, limit)
    decreases |text|
  {
    hide Occurs, Within, OverlapsWithin;
    if Within(Interleave(text, to), s, limit) {
      if text == "" {
        assert to + "" == to;
        BehindOtherMarker(to, "", s, limit);
        NothingWithinEmpty(s, limit);
      } else {
        var rest := Interleave(text[1..], to);
        assert to + [text[0]] + rest == to + ([text[0]] + rest);
        BehindOtherMarker(to, [text[0]] + rest, s, limit);
        BehindChar(text[0], rest, s, limit);
        WithinEarlier(rest, s, limit - 1, limit);
        TailStaysBehind(text, 1, to, s, limit);
        InterleaveKeepsBehind(text[1..], to, s, limit);
        NoEndMeetsMarker(s, to, limit);
        assert exists tail :: rest == to + tail by {
          assert rest == to + rest[|to|..];
        }
        var tail :| rest == to + tail;
        if s[1..] == "" {
          StartsWithin(text, s, limit);
        } else {
          EndMeetsMarker(s, s[1..], to, tail);
        }
      }
    }
  }

  /** The same for an empty `from` too, which Rust finds at every character boundary. */
  lemma OtherMarkerKeepsBehind(text: string, from: string, to: string, s: string, limit: int)
    requires s != "" && to != "" && StaysBehind(text, to, s, limit)
    ensures !Within(Replace(text, from, to), s, limit)
  {
    hide Within, StaysBehind, Interleave;
    if from == "" {
      InterleaveIsReplace(text, to);
      InterleaveKeepsBehind(text, to, s, limit);
    } else {
      ReplaceKeepsBehind(text, from, to, s, limit);
    }
  }
}
