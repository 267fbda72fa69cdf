/** Captured deploy runs, the transcript stored for them, and the scrubbing of secrets from it. */
module DeployExecutor {
  import opened Docker
  import opened Redaction
  import opened Text

  const MARKER := "[redacted]"
  const PREVIEW_LINE := "(preview \U{2014} commands not executed)"

  datatype CommandOutcome = CommandOutcome(command: string, stdout: string, stderr: string, exitCode: int)

  datatype DeployRun = DeployRun(outcomes: seq<CommandOutcome>, executed: bool, success: bool)

  // ---------- redaction ----------

  function RedactOne(text: string, secret: string): string {
    if secret == "" then text else Replace(text, secret, MARKER)
  }

  /** The secrets are replaced one after the other, each in what the earlier ones left. */
  function Redacted(text: string, secrets: seq<string>): string
    decreases |secrets|
  {
    if secrets == [] then text else Redacted(RedactOne(text, secrets[0]), secrets[1..])
  }

  method RedactSecrets(text: string, secrets: seq<string>) returns (redacted: string)
    ensures redacted == Redacted(text, secrets)
  {
    redacted := text;
    for i := 0 to |secrets|
      invariant Redacted(redacted, secrets[i..]) == Redacted(text, secrets)
    {
      assert secrets[i..][1..] == secrets[i + 1..];
      if secrets[i] != "" {
        redacted := Replace(redacted, secrets[i], MARKER);
      }
    }
  }

  lemma {:induction false} RedactedKeepsOut(text: string, secrets: seq<string>, s: string)
    requires s != "" && !Overlaps(s, MARKER) && !Occurs(text, s)
    ensures !Occurs(Redacted(text, secrets), s)
    decreases |secrets|
  {
    if secrets != [] {
      if secrets[0] != "" {
        ReplaceKeepsOut(text, secrets[0], MARKER, s);
      }
      RedactedKeepsOut(RedactOne(text, secrets[0]), secrets[1..], s);
    }
  }

  /** Behind some place of the secret no other secret is replaced. */
  ghost predicate StandsLast(secrets: seq<string>, s: string) {
    exists k :: 0 <= k < |secrets| && LastAt(secrets, s, k)
  }

  ghost predicate LastAt(secrets: seq<string>, s: string, k: nat)
    requires k < |secrets|
  {
    secrets[k] == s && forall j | k < j < |secrets| :: secrets[j] == "" || secrets[j] == s
  }

  /** The marker neither brings the secret in anywhere nor, if it is replaced last, back. */
  ghost predicate Shielded(secrets: seq<string>, s: string) {
    s in secrets && (!Overlaps(s, MARKER) || (StandsLast(secrets, s) && !CanReturn(s, MARKER)))
  }

  lemma {:induction false} NothingLeftToRedact(text: string, secrets: seq<string>, s: string)
    requires s != "" && !Occurs(text, s) && forall j | 0 <= j < |secrets| :: secrets[j] == "" || secrets[j] == s
    ensures Redacted(text, secrets) == text
    decreases |secrets|
  {
    if secrets != [] {
      NoMatchNoChange(text, s, MARKER);
      NothingLeftToRedact(text, secrets[1..], s);
    }
  }

  lemma {:induction false} LastSecretHidden(text: string, secrets: seq<string>, s: string, k: nat)
    requires s != "" && !CanReturn(s, MARKER) && k < |secrets| && LastAt(secrets, s, k)
    ensures !Occurs(Redacted(text, secrets), s)
    decreases k
  {
    if k == 0 {
      ReplaceRemoves(text, s, MARKER);
      NothingLeftToRedact(RedactOne(text, s), secrets[1..], s);
    } else {
      LastSecretHidden(RedactOne(text, secrets[0]), secrets[1..], s, k - 1);
    }
  }

  lemma {:induction false} UnmarkedSecretHidden(text: string, secrets: seq<string>, s: string)
    requires s in secrets && s != "" && !Overlaps(s, MARKER)
    ensures !Occurs(Redacted(text, secrets), s)
    decreases |secrets|
  {
    if s == secrets[0] {
      ReplaceKeepsOut(text, s, MARKER, s);
      RedactedKeepsOut(RedactOne(text, s), secrets[1..], s);
    } else {
      UnmarkedSecretHidden(RedactOne(text, secrets[0]), secrets[1..], s);
    }
  }

  /** No shielded secret of the list occurs in what redaction returns. */
  lemma RedactedHides(text: string, secrets: seq<string>, s: string)
    requires s != "" && Shielded(secrets, s)
    ensures !Occurs(Redacted(text, secrets), s)
  {
    if !Overlaps(s, MARKER) {
      UnmarkedSecretHidden(text, secrets, s);
    } else {
      var k :| 0 <= k < |secrets| && LastAt(secrets, s, k);
      LastSecretHidden(text, secrets, s, k);
    }
  }

  /** What holds none of the secrets is not touched; empty secrets touch nothing. */
  lemma {:induction false} RedactedLeavesTheRest(text: string, secrets: seq<string>)
    requires forall s | s in secrets && s != "" :: !Occurs(text, s)
    ensures Redacted(text, secrets) == text
    decreases |secrets|
  {
    if secrets != [] {
      assert secrets[0] in secrets;
      if secrets[0] != "" {
        NoMatchNoChange(text, secrets[0], MARKER);
      }
      RedactedLeavesTheRest(text, secrets[1..]);
    }
  }

  /** One secret is replaced where it first occurs, and redaction goes on behind it. */
  lemma RedactedOnce(before: string, secret: string, behind: string)
    requires secret != "" && forall i: nat | i < |before| :: !OccursAt(before + secret + behind, secret, i)
    ensures Redacted(before + secret + behind, [secret]) == before + "[redacted]" + Redacted(behind, [secret])
  {
    hide Replace;
    ReplaceAtFirst(before, secret, behind, MARKER);
    assert forall text :: Redacted(text, [secret]) == Redacted(RedactOne(text, secret), []);
  }

  /** Several secrets are redacted one after the other, in the order of the list. */
  lemma {:induction false} RedactedInOrder(text: string, first: seq<string>, second: seq<string>)
    ensures Redacted(text, first + second) == Redacted(Redacted(text, first), second)
    decreases |first|
  {
    if first == [] {
      assert first + second == second;
    } else {
      assert (first + second)[1..] == first[1..] + second;
      RedactedInOrder(RedactOne(text, first[0]), first[1..], second);
    }
  }

  ghost predicate Leaks(text: string, secrets: seq<string>, s: string) {
    Occurs(Redacted(text, secrets), s)
  }

  /** A secret is hidden by every list that names it, in every text, exactly when it does not overlap the marker. */
  lemma HiddenByEveryListIff(s: string)
    requires s != ""
    ensures (forall text, secrets | s in secrets :: !Leaks(text, secrets, s)) <==> !Overlaps(s, MARKER)
  {
    if Overlaps(s, MARKER) {
      RoomForMarker(s, MARKER, |s| + |MARKER|);
      NothingInEmpty(s);
      var text, other, _ := OverlapLeaks(s, MARKER, |s| + |MARKER|, "");
      WithinOccurs(Replace(text, other, MARKER), s, |s| + |MARKER|);
      NoMatchNoChange(text, s, MARKER);
      assert Redacted(text, [s, other]) == Redacted(Redacted(text, [s]), [other]);
      assert Leaks(text, [s, other], s);
    } else {
      forall text, secrets | s in secrets
        ensures !Leaks(text, secrets, s)
      {
        RedactedHides(text, secrets, s);
      }
    }
  }

  /** A secret that is the only one is hidden in every text exactly when replacing it cannot bring it back. */
  lemma OnlySecretHiddenIff(s: string)
    requires s != ""
    ensures (forall text :: !Leaks(text, [s], s)) <==> !CanReturn(s, MARKER)
  {
    assert forall text :: Redacted(text, [s]) == Redacted(Replace(text, s, MARKER), []) == Replace(text, s, MARKER);
    ReplaceRemovesIff(s, MARKER);
    if CanReturn(s, MARKER) {
      var text :| Survives(text, s, MARKER);
      assert Leaks(text, [s], s);
    } else {
      assert forall text :: Leaks(text, [s], s) == Survives(text, s, MARKER);
    }
  }

  /** A concrete failure: a secret inside the marker survives in every text that held it. */
  lemma RedactionKeepsMarkerText(text: string)
    ensures Occurs(Redacted(text, ["redacted"]), "redacted") <==> Occurs(text, "redacted")
    ensures Occurs("redacted", "redacted")
  {
    assert OccursAt(MARKER, "redacted", 1);
    ReplaceInsideMarker(text, "redacted", MARKER);
    assert Redacted(text, ["redacted"]) == Redacted(Replace(text, "redacted", MARKER), ["redacted"][1..]);
    assert OccursAt("redacted", "redacted", 0);
  }

  // ---------- transcripts ----------

  function Decimal(n: int): string
    decreases n < 0, if n < 0 then -n else n
  {
    if n < 0 then "-" + Decimal(-n)
    else if n < 10 then [('0' as int + n) as char]
    else Decimal(n / 10) + [('0' as int + n % 10) as char]
  }

  function Captured(output: string, secrets: seq<string>): seq<string> {
    var text := Redacted(TrimTrailing(output), secrets);
    if text == "" then [] else [text]
  }

  function ExitLines(run: DeployRun, o: CommandOutcome): seq<string> {
    if run.executed then ["[exit " + Decimal(o.exitCode) + "]"] else []
  }

  function OutcomeLines(run: DeployRun, o: CommandOutcome, secrets: seq<string>): seq<string> {
    ["$ " + o.command] + Captured(o.stdout, secrets) + Captured(o.stderr, secrets) + ExitLines(run, o)
  }

  function LinesOf(run: DeployRun, outcomes: seq<CommandOutcome>, secrets: seq<string>): seq<string> {
    if outcomes == [] then [] else LinesOf(run, outcomes[..|outcomes| - 1], secrets)
                                   + OutcomeLines(run, outcomes[|outcomes| - 1], secrets)
  }

  function TranscriptLines(run: DeployRun, secrets: seq<string>): seq<string> {
    LinesOf(run, run.outcomes, secrets) + (if run.executed then [] else [PREVIEW_LINE])
  }

  function Transcript(run: DeployRun, secrets: seq<string>): string {
    Join(TranscriptLines(run, secrets), "\n")
  }

  lemma LinesOfNext(run: DeployRun, i: nat, secrets: seq<string>)
    requires i <= |run.outcomes|
    ensures LinesOf(run, run.outcomes[..0], secrets) == []
    ensures i < |run.outcomes| ==>
      LinesOf(run, run.outcomes[..i + 1], secrets)
      == LinesOf(run, run.outcomes[..i], secrets) + OutcomeLines(run, run.outcomes[i], secrets)
    ensures run.outcomes[..|run.outcomes|] == run.outcomes
  {
    if i < |run.outcomes| {
      assert run.outcomes[..i + 1][..i] == run.outcomes[..i];
    }
  }

  method ToOutput(run: DeployRun, secrets: seq<string>) returns (output: string)
    ensures output == Transcript(run, secrets)
  {
    hide Redacted, TrimTrailing, Decimal, LinesOf, Join;
    var lines: seq<string> := [];
    LinesOfNext(run, 0, secrets);
    for i := 0 to |run.outcomes|
      invariant lines == LinesOf(run, run.outcomes[..i], secrets)
    {
      var outcome := run.outcomes[i];
      LinesOfNext(run, i, secrets);
      ghost var before := lines;
      lines := lines + ["$ " + outcome.command];
      var stdout := RedactSecrets(TrimTrailing(outcome.stdout), secrets);
      if stdout != "" {
        lines := lines + [stdout];
      }
      assert lines == before + (["$ " + outcome.command] + Captured(outcome.stdout, secrets));
      var stderr := RedactSecrets(TrimTrailing(outcome.stderr), secrets);
      if stderr != "" {
        lines := lines + [stderr];
      }
      assert lines == before + (["$ " + outcome.command] + Captured(outcome.stdout, secrets)
                                + Captured(outcome.stderr, secrets));
      if run.executed {
        lines := lines + ["[exit " + Decimal(outcome.exitCode) + "]"];
      }
      assert lines == before + OutcomeLines(run, outcome, secrets);
    }
    LinesOfNext(run, |run.outcomes|, secrets);
    if !run.executed {
      lines := lines + [PREVIEW_LINE];
    }
    assert lines == TranscriptLines(run, secrets);
    output := Join(lines, "\n");
  }

  // ---------- what a transcript says ----------

  function DigitsValue(s: string): int {
    if s == "" then 0 else 10 * DigitsValue(s[..|s| - 1]) + (s[|s| - 1] as int - '0' as int)
  }

  /** A number is written in digits without leading zeros, behind a sign if it is negative. */
  lemma {:induction false} DecimalReads(n: int)
    ensures n < 0 ==> Decimal(n) == "-" + Decimal(-n)
    ensures n >= 0 ==>
      && Decimal(n) != "" && DigitsValue(Decimal(n)) == n
      && (forall i | 0 <= i < |Decimal(n)| :: '0' <= Decimal(n)[i] <= '9')
      && (n > 0 ==> Decimal(n)[0] != '0') && (n == 0 ==> |Decimal(n)| == 1)
    decreases n < 0, if n < 0 then -n else n
  {
    if n >= 10 {
      DecimalReads(n / 10);
      assert Decimal(n)[..|Decimal(n)| - 1] == Decimal(n / 10);
    } else if n >= 0 {
      assert Decimal(n)[..0] == "";
    }
  }

  /** A line if there is something to say. */
  function LineOf(text: string): seq<string> {
    if text == "" then [] else [text]
  }

  /** The command, both streams and, if it was executed, the exit code, of each outcome in order. */
  lemma {:induction false} LinesSay(run: DeployRun, first: seq<CommandOutcome>, o: CommandOutcome, secrets: seq<string>)
    ensures LinesOf(run, first + [o], secrets) ==
      LinesOf(run, first, secrets)
      + ["$ " + o.command]
      + LineOf(Redacted(TrimTrailing(o.stdout), secrets))
      + LineOf(Redacted(TrimTrailing(o.stderr), secrets))
      + (if run.executed then ["[exit " + Decimal(o.exitCode) + "]"] else [])
    ensures LinesOf(run, [], secrets) == []
  {
    hide Redacted, TrimTrailing, Decimal;
    assert (first + [o])[..|first|] == first;
    var lines := OutcomeLines(run, o, secrets);
    assert lines == ["$ " + o.command] + LineOf(Redacted(TrimTrailing(o.stdout), secrets))
                    + LineOf(Redacted(TrimTrailing(o.stderr), secrets))
                    + (if run.executed then ["[exit " + Decimal(o.exitCode) + "]"] else []);
  }

  /** The stored text is those lines, and a remark if nothing was executed, one below the other. */
  lemma TranscriptSays(run: DeployRun, secrets: seq<string>)
    ensures run.executed ==> Transcript(run, secrets) == Join(LinesOf(run, run.outcomes, secrets), "\n")
    ensures !run.executed ==>
      Transcript(run, secrets)
      == Join(LinesOf(run, run.outcomes, secrets) + ["(preview \U{2014} commands not executed)"], "\n")
  {
    hide LinesOf, Join;
    assert LinesOf(run, run.outcomes, secrets) + [] == LinesOf(run, run.outcomes, secrets);
  }

  /** The lines no redaction is applied to: commands, exit codes and the closing remark. */
  ghost predicate IsFixedLine(run: DeployRun, line: string) {
    || (exists o :: o in run.outcomes && (line == "$ " + o.command || line in ExitLines(run, o)))
    || (!run.executed && line == PREVIEW_LINE)
  }

  lemma {:induction false} LinesAreFixedOrRedacted(run: DeployRun, outcomes: seq<CommandOutcome>,
                                                   secrets: seq<string>, s: string)
    requires s != "" && Shielded(secrets, s)
    requires forall o | o in outcomes :: o in run.outcomes
    ensures forall l | l in LinesOf(run, outcomes, secrets) :: IsFixedLine(run, l) || !Occurs(l, s)
    ensures forall o | o in outcomes ::
      "$ " + o.command in LinesOf(run, outcomes, secrets)
      && forall l | l in ExitLines(run, o) :: l in LinesOf(run, outcomes, secrets)
    decreases |outcomes|
  {
    if outcomes != [] {
      var front, o := outcomes[..|outcomes| - 1], outcomes[|outcomes| - 1];
      LinesAreFixedOrRedacted(run, front, secrets, s);
      RedactedHides(TrimTrailing(o.stdout), secrets, s);
      RedactedHides(TrimTrailing(o.stderr), secrets, s);
      var added := OutcomeLines(run, o, secrets);
      assert o in run.outcomes;
      assert added[0] == "$ " + o.command;
      assert forall l | l in ExitLines(run, o) :: l in added;
      assert LinesOf(run, outcomes, secrets) == LinesOf(run, front, secrets) + added;
    }
  }

  /**
    * A one-line secret is in the stored transcript exactly when it is in a line that is stored
    * as it is: a command, an exit code or the closing remark. Captured output never adds it.
    */
  lemma TranscriptLeaksOnlyFixedLines(run: DeployRun, secrets: seq<string>, s: string)
    requires s != "" && '\n' !in s && Shielded(secrets, s)
    ensures Occurs(Transcript(run, secrets), s) <==> exists l :: IsFixedLine(run, l) && Occurs(l, s)
  {
    var lines := TranscriptLines(run, secrets);
    OccursInJoin(lines, '\n', s);
    LinesAreFixedOrRedacted(run, run.outcomes, secrets, s);
    if k :| 0 <= k < |lines| && Occurs(lines[k], s) {
      assert lines[k] in lines;
      assert IsFixedLine(run, lines[k]);
    }
    if l :| IsFixedLine(run, l) && Occurs(l, s) {
      assert l in lines;
      var k :| 0 <= k < |lines| && lines[k] == l;
    }
  }

  /** Redaction does its part in this transcript: the secret is in it only by a line stored as it is. */
  ghost predicate CapturedSafely(run: DeployRun, secrets: seq<string>, s: string) {
    Occurs(Transcript(run, secrets), s) ==> exists l :: IsFixedLine(run, l) && Occurs(l, s)
  }

  lemma JoinThree(a: string, b: string, c: string, separator: string)
    ensures Join([a, b, c], separator) == a + separator + (b + separator + c)
  {
    assert [a, b, c][1..] == [b, c] && [b, c][1..] == [c];
    assert Join([b, c], separator) == b + separator + Join([c], separator);
  }

  /** The lines of one executed command that prints and hides nothing. */
  lemma OneOutcomeLines(command: string, stdout: string, s: string)
    requires s != "" && TrimTrailing(stdout) != "" && !Occurs(TrimTrailing(stdout), s)
    ensures var o := CommandOutcome(command, stdout, "", 0);
      OutcomeLines(DeployRun([o], true, true), o, [s]) == ["$ " + command, TrimTrailing(stdout), "[exit 0]"]
  {
    hide Replace, Occurs;
    var shown := TrimTrailing(stdout);
    NothingLeftToRedact(shown, [s], s);
    RedactedEmpty([s]);
    assert Captured(stdout, [s]) == [shown] && Captured("", [s]) == [];
    assert Decimal(0) == "0" && "[exit " + "0" + "]" == "[exit 0]";
    assert ["$ " + command] + [shown] + [] + ["[exit 0]"] == ["$ " + command, shown, "[exit 0]"];
  }

  /** A transcript of one executed command whose only output is `stdout`. */
  lemma OneOutcomeTranscript(command: string, stdout: string, s: string) returns (run: DeployRun)
    requires s != "" && TrimTrailing(stdout) != "" && !Occurs(TrimTrailing(stdout), s)
    ensures run == DeployRun([CommandOutcome(command, stdout, "", 0)], true, true)
    ensures Transcript(run, [s]) == "$ " + command + "\n" + (TrimTrailing(stdout) + "\n" + "[exit 0]")
  {
    hide OutcomeLines, TrimTrailing, Join, Occurs;
    var outcome := CommandOutcome(command, stdout, "", 0);
    run := DeployRun([outcome], true, true);
    OneOutcomeLines(command, stdout, s);
    assert [outcome][..0] == [];
    assert LinesOf(run, [outcome][..0], [s]) == [];
    assert LinesOf(run, [outcome], [s]) == LinesOf(run, [outcome][..0], [s]) + OutcomeLines(run, outcome, [s]);
    assert TranscriptLines(run, [s]) == ["$ " + command, TrimTrailing(stdout), "[exit 0]"];
    JoinThree("$ " + command, TrimTrailing(stdout), "[exit 0]", "\n");
  }

  /** The lines stored as they are hold no newline if the command holds none. */
  lemma FixedLinesAreOneLine(command: string, stdout: string, s: string)
    requires '\n' !in command && '\n' in s
    ensures var run := DeployRun([CommandOutcome(command, stdout, "", 0)], true, true);
      forall l | IsFixedLine(run, l) :: !Occurs(l, s)
  {
    var run := DeployRun([CommandOutcome(command, stdout, "", 0)], true, true);
    assert Decimal(0) == "0";
    forall l | IsFixedLine(run, l)
      ensures !Occurs(l, s)
    {
      assert l == "$ " + command || l == "[exit 0]";
      CharOccurs(l, s, '\n');
    }
  }

  lemma CharOccurs(text: string, s: string, c: char)
    requires c in s
    ensures Occurs(text, s) ==> c in text
  {
    if i: nat :| OccursAt(text, s, i) {
      var j :| 0 <= j < |s| && s[j] == c;
      assert text[i..][j] == text[i + j];
    }
  }

  /** The command line and the output behind it together show the secret. */
  lemma ShownAcrossLines(a: string, b: string)
    ensures Occurs("$ " + a + "\n" + (b + "x" + "\n" + "[exit 0]"), a + "\n" + b)
  {
    var s, rest := a + "\n" + b, "x" + "\n" + "[exit 0]";
    assert "$ " + a + "\n" + (b + "x" + "\n" + "[exit 0]") == "$ " + s + rest;
    OccursBetween("$ ", s, rest, |s| + 2);
    WithinOccurs("$ " + s + rest, s, |s| + 2);
  }

  /** A secret is shown that begins in the command line and ends in the output. */
  lemma StraddlingLeaks(s: string) returns (run: DeployRun)
    requires '\n' in s
    ensures !CapturedSafely(run, [s], s)
  {
    hide Occurs, Transcript, IsFixedLine;
    var k := FirstNewline(s);
    var a, b := s[..k], s[k + 1..];
    assert s == a + "\n" + b;
    var stdout := b + "x";
    assert !IsWhitespace('x') && TrimTrailing(stdout) == stdout;
    TooShortFor(stdout, s, k);
    run := OneOutcomeTranscript(a, stdout, s);
    FixedLinesAreOneLine(a, stdout, s);
    ShownAcrossLines(a, b);
  }

  lemma {:induction false} FirstNewline(s: string) returns (k: nat)
    requires '\n' in s
    ensures k < |s| && s[k] == '\n' && '\n' !in s[..k]
    decreases |s|
  {
    if s[0] == '\n' {
      k := 0;
    } else {
      var k' := FirstNewline(s[1..]);
      k := k' + 1;
      assert s[..k] == [s[0]] + s[1..][..k'];
    }
  }

  lemma ShiftedDiffers(rest: string)
    ensures rest + "x" != "\n" + rest
  {
    assert multiset(rest + "x")['x'] == multiset(rest)['x'] + 1;
    assert multiset("\n" + rest)['x'] == multiset(rest)['x'];
  }

  /** What stands behind a newline, with one more character that is none, does not hold the whole. */
  lemma TooShortFor(text: string, s: string, k: nat)
    requires k < |s| && s[k] == '\n' && text == s[k + 1..] + "x"
    ensures !Occurs(text, s)
  {
    ShiftedDiffers(s[1..]);
    assert k == 0 ==> s == "\n" + s[1..];
  }

  /**
    * A secret that does not overlap the marker is in no transcript but by a line stored as it is,
    * whatever was run and whatever else is secret, exactly when it holds no newline.
    */
  lemma TranscriptsSafeIff(s: string)
    requires s != "" && !Overlaps(s, MARKER)
    ensures (forall run, secrets | s in secrets :: CapturedSafely(run, secrets, s)) <==> '\n' !in s
  {
    hide Transcript, Occurs, Overlaps, IsFixedLine;
    if '\n' in s {
      var run := StraddlingLeaks(s);
      assert s in [s] && !CapturedSafely(run, [s], s);
    } else {
      forall run, secrets | s in secrets
        ensures CapturedSafely(run, secrets, s)
      {
        TranscriptLeaksOnlyFixedLines(run, secrets, s);
      }
    }
  }

  /**
    * A secret that ends in a newline, as a key file does, is printed by the command. Trimming takes
    * the newline, so nothing is replaced; joining the lines puts it back.
    */
  lemma TrimmedSecretLeaks(command: string, key: string)
    requires '\n' !in command && key != "" && !IsWhitespace(key[|key| - 1])
    ensures var run, s := DeployRun([CommandOutcome(command, key + "\n", "", 0)], true, true), key + "\n";
      && Transcript(run, [s]) == "$ " + command + "\n" + (key + "\n" + "[exit 0]")
      && !CapturedSafely(run, [s], s)
  {
    hide Occurs, Transcript, IsFixedLine;
    var s := key + "\n";
    assert s[..|s| - 1] == key && IsWhitespace('\n');
    assert TrimTrailing(s) == TrimTrailing(key) == key;
    ShorterIsFree(key, s);
    var run := OneOutcomeTranscript(command, s, s);
    FixedLinesAreOneLine(command, s, s);
    var front := "$ " + command + "\n";
    assert front + (key + "\n" + "[exit 0]") == front + s + "[exit 0]";
    OccursBetween(front, s, "[exit 0]", |front| + |s|);
    WithinOccurs(front + s + "[exit 0]", s, |front| + |s|);
  }

  /** A concrete failure, with a secret that shares nothing with the marker. */
  lemma KeyFileLeaks()
    ensures var run := DeployRun([CommandOutcome("cat key", "key" + "\n", "", 0)], true, true);
      !Overlaps("key" + "\n", MARKER) && !CapturedSafely(run, ["key" + "\n"], "key" + "\n")
  {
    hide Overlaps, Transcript, TrimTrailing;
    KeyMeetsNoMarker();
    TrimmedSecretLeaks("cat key", "key");
  }

  lemma KeyMeetsNoMarker()
    ensures !Overlaps("key" + "\n", MARKER)
  {
    var s := "key" + "\n";
    forall d | -|s| < d < |MARKER|
      ensures !AgreesAt(s, MARKER, d)
    {
      assert d >= 0 ==> s[0] != MARKER[0 + d];
      assert d < 0 ==> s[-d] != MARKER[-d + d];
    }
  }

  // ---------- preview ----------

  function PreviewOutcomes(commands: seq<RemoteCommand>): (r: seq<CommandOutcome>)
    ensures |r| == |commands|
    ensures forall i | 0 <= i < |r| :: r[i] == CommandOutcome(commands[i].Render(), "", "", 0)
  {
    seq(|commands|, i requires 0 <= i < |commands| => CommandOutcome(commands[i].Render(), "", "", 0))
  }

  function PreviewRun(commands: seq<RemoteCommand>): DeployRun {
    DeployRun(PreviewOutcomes(commands), false, true)
  }

  /** A preview renders every command in order, and says of each that it printed nothing and was not run. */
  lemma PreviewRunIs(commands: seq<RemoteCommand>)
    ensures var run := PreviewRun(commands);
      && !run.executed && run.success && |run.outcomes| == |commands|
      && forall i | 0 <= i < |commands| ::
           && run.outcomes[i].command == commands[i].Render()
           && run.outcomes[i].stdout == run.outcomes[i].stderr == "" && run.outcomes[i].exitCode == 0
  {
  }

  lemma {:induction false} RedactedEmpty(secrets: seq<string>)
    ensures Redacted("", secrets) == ""
    decreases |secrets|
  {
    if secrets != [] {
      RedactedEmpty(secrets[1..]);
    }
  }

  lemma PreviewOutcomeLines(run: DeployRun, command: RemoteCommand, secrets: seq<string>)
    requires !run.executed
    ensures OutcomeLines(run, CommandOutcome(command.Render(), "", "", 0), secrets) == ["$ " + command.Render()]
  {
    hide RemoteCommand.Render, Redacted;
    RedactedEmpty(secrets);
  }

  lemma {:induction false} PreviewLinesOf(run: DeployRun, commands: seq<RemoteCommand>, secrets: seq<string>)
    requires !run.executed
    ensures LinesOf(run, PreviewOutcomes(commands), secrets)
         == seq(|commands|, i requires 0 <= i < |commands| => "$ " + commands[i].Render())
    decreases |commands|
  {
    hide RemoteCommand.Render, OutcomeLines;
    if commands != [] {
      var front, last := commands[..|commands| - 1], commands[|commands| - 1];
      PreviewLinesOf(run, front, secrets);
      PreviewOutcomeLines(run, last, secrets);
      assert PreviewOutcomes(commands)[..|commands| - 1] == PreviewOutcomes(front);
    }
  }

  /** A preview's stored text splits back into one line per command, in order, and the remark. */
  lemma PreviewSplits(commands: seq<RemoteCommand>, secrets: seq<string>)
    requires forall i | 0 <= i < |commands| :: '\n' !in commands[i].Render()
    ensures var lines := Split(Transcript(PreviewRun(commands), secrets), '\n');
      && |lines| == |commands| + 1
      && (forall i | 0 <= i < |commands| :: lines[i] == "$ " + commands[i].Render())
      && lines[|commands|] == PREVIEW_LINE
  {
    PreviewLinesOf(PreviewRun(commands), commands, secrets);
    var lines := TranscriptLines(PreviewRun(commands), secrets);
    assert '\n' !in PREVIEW_LINE;
    SplitJoin(lines, '\n');
  }
}
