/**
  * Token recognition and quoting of the POSIX shell (IEEE Std 1003.1-2017, Shell Command
  * Language, sections 2.2.1, 2.2.2, 2.2.3 and 2.3), one character at a time. A word keeps, for
  * each character, whether it was quoted: only unquoted characters can have a special meaning
  * later. Unquoted `$` and '`' start expansions, which this lexer refuses rather than reads.
  */
module ShellLexer {
  import opened Wrappers

  datatype QChar = QChar(c: char, quoted: bool)

  datatype Lexeme = Word(chars: seq<QChar>) | Operator(op: string)

  datatype Mode =
    | Between
    | InWord(w: seq<QChar>)
    | InOperator(op: string)
    | Escaped(w: seq<QChar>, started: bool)
    | SingleQuoted(w: seq<QChar>)
    | DoubleQuoted(w: seq<QChar>)
    | DoubleEscaped(w: seq<QChar>)
    | Comment
    | Refused

  datatype Lexer = Lexer(out: seq<Lexeme>, mode: Mode)

  const START := Lexer([], Between)

  predicate IsOperator(s: string) {
    s in {"&", "|", ";", "<", ">", "(", ")", "\n",
          "&&", "||", ";;", "<<", ">>", "<&", ">&", "<>", ">|", "<<-"}
  }

  predicate IsBlank(c: char) {
    c == ' ' || c == '\t'
  }

  /** An unquoted character that belongs to the word `w`. */
  function Extend(w: seq<QChar>, started: bool, c: char): Mode {
    if c == '\'' then SingleQuoted(w)
    else if c == '"' then DoubleQuoted(w)
    else if c == '\\' then Escaped(w, started)
    else if c == '$' || c == '`' then Refused
    else InWord(w + [QChar(c, false)])
  }

  function Begin(c: char): Mode {
    if IsBlank(c) then Between
    else if c == '#' then Comment
    else if IsOperator([c]) then InOperator([c])
    else Extend([], false, c)
  }

  function Step(s: Lexer, c: char): Lexer {
    match s.mode
    case Between => s.(mode := Begin(c))
    case InWord(w) =>
      if IsBlank(c) then Lexer(s.out + [Word(w)], Between)
      else if IsOperator([c]) then Lexer(s.out + [Word(w)], InOperator([c]))
      else s.(mode := Extend(w, true, c))
    case InOperator(op) =>
      if IsOperator(op + [c]) then s.(mode := InOperator(op + [c]))
      else Lexer(s.out + [Operator(op)], Begin(c))
    case Escaped(w, started) =>
      if c != '\n' then s.(mode := InWord(w + [QChar(c, true)]))
      else s.(mode := if started then InWord(w) else Between)
    case SingleQuoted(w) =>
      s.(mode := if c == '\'' then InWord(w) else SingleQuoted(w + [QChar(c, true)]))
    case DoubleQuoted(w) =>
      if c == '"' then s.(mode := InWord(w))
      else if c == '\\' then s.(mode := DoubleEscaped(w))
      else if c == '$' || c == '`' then s.(mode := Refused)
      else s.(mode := DoubleQuoted(w + [QChar(c, true)]))
    case DoubleEscaped(w) =>
      if c in {'$', '`', '"', '\\'} then s.(mode := DoubleQuoted(w + [QChar(c, true)]))
      else if c == '\n' then s.(mode := DoubleQuoted(w))
      else s.(mode := DoubleQuoted(w + [QChar('\\', true), QChar(c, true)]))
    case Comment => if c == '\n' then s.(mode := InOperator("\n")) else s
    case Refused => s
  }

  function Feed(s: Lexer, text: string): Lexer
    decreases |text|
  {
    if text == "" then s else Feed(Step(s, text[0]), text[1..])
  }

  /** The tokens once the input has ended; none while a quote is open or an expansion was met. */
  function Finish(s: Lexer): Option<seq<Lexeme>> {
    match s.mode
    case Between => Some(s.out)
    case InWord(w) => Some(s.out + [Word(w)])
    case InOperator(op) => Some(s.out + [Operator(op)])
    case Comment => Some(s.out)
    case _ => None
  }

  function Lex(text: string): Option<seq<Lexeme>> {
    Finish(Feed(START, text))
  }

  /** The text leaves no quote, escape or comment open, so a blank after it ends its last token. */
  predicate SelfContained(text: string) {
    var mode := Feed(START, text).mode;
    mode.Between? || mode.InWord? || mode.InOperator?
  }

  function Marked(v: string, quoted: bool): (w: seq<QChar>)
    ensures |w| == |v| && forall i | 0 <= i < |v| :: w[i] == QChar(v[i], quoted)
  {
    seq(|v|, i requires 0 <= i < |v| => QChar(v[i], quoted))
  }

  /** The word a shell sees for a value whose every character is quoted. */
  function QuotedWord(v: string): Lexeme {
    Word(Marked(v, true))
  }

  function BareWords(ws: seq<string>): (r: seq<Lexeme>)
    ensures |r| == |ws| && forall i | 0 <= i < |ws| :: r[i] == Word(Marked(ws[i], false))
  {
    seq(|ws|, i requires 0 <= i < |ws| => Word(Marked(ws[i], false)))
  }

  // ---------- composing inputs ----------

  lemma {:induction false} FeedConcat(s: Lexer, a: string, b: string)
    ensures Feed(s, a + b) == Feed(Feed(s, a), b)
    decreases |a|
  {
    if a == "" {
      assert a + b == b;
    } else {
      FeedConcat(Step(s, a[0]), a[1..], b);
      assert (a + b)[1..] == a[1..] + b;
    }
  }

  /** What has been output does not matter to the rest of the input. */
  lemma {:induction false} FeedFrame(out: seq<Lexeme>, s: Lexer, text: string)
    ensures Feed(Lexer(out + s.out, s.mode), text)
         == Lexer(out + Feed(s, text).out, Feed(s, text).mode)
    decreases |text|
  {
    if text != "" {
      var next := Step(s, text[0]);
      assert Step(Lexer(out + s.out, s.mode), text[0]) == Lexer(out + next.out, next.mode);
      FeedFrame(out, next, text[1..]);
    }
  }

  /** Two texts with a blank between lex as the first one's tokens and then the second one's. */
  lemma LexSeparated(a: string, b: string)
    requires SelfContained(a)
    ensures Lex(a + " " + b)
         == (if Lex(b).None? then None else Some(Lex(a).value + Lex(b).value))
    ensures SelfContained(b) ==> SelfContained(a + " " + b)
  {
    FeedConcat(START, a + " ", b);
    FeedConcat(START, a, " ");
    var end := Feed(START, a);
    if end.mode.InOperator? {
      assert (end.mode.op + [' '])[|end.mode.op|] == ' ';
      assert !IsOperator(end.mode.op + [' ']);
    }
    assert Feed(START, a + " ") == Step(Feed(START, a), ' ');
    assert Step(Feed(START, a), ' ') == Lexer(Lex(a).value + [], Between);
    FeedFrame(Lex(a).value, START, b);
    assert forall x: seq<Lexeme>, y: Lexeme :: Lex(a).value + (x + [y]) == Lex(a).value + x + [y];
  }

  // ---------- plain words ----------

  predicate IsPlain(c: char) {
    'a' <= c <= 'z' || '0' <= c <= '9' || c == '-'
  }

  lemma {:induction false} FeedPlain(w: seq<QChar>, text: string)
    requires forall i | 0 <= i < |text| :: IsPlain(text[i])
    ensures Feed(Lexer([], InWord(w)), text) == Lexer([], InWord(w + Marked(text, false)))
    decreases |text|
  {
    if text == "" {
      assert w + Marked(text, false) == w;
    } else {
      FeedPlain(w + [QChar(text[0], false)], text[1..]);
      assert w + [QChar(text[0], false)] + Marked(text[1..], false) == w + Marked(text, false);
    }
  }

  lemma LexPlain(text: string)
    requires text != "" && forall i | 0 <= i < |text| :: IsPlain(text[i])
    ensures SelfContained(text) && Lex(text) == Some([Word(Marked(text, false))])
  {
    assert [text[0]][0] == text[0];
    assert Begin(text[0]) == InWord([QChar(text[0], false)]);
    FeedPlain([QChar(text[0], false)], text[1..]);
    assert [QChar(text[0], false)] + Marked(text[1..], false) == Marked(text, false);
    assert Finish(Feed(START, text)).value == [Word(Marked(text, false))];
  }
}
