/** Typed remote commands, their rendering to one shell string, and the deploy command builders. */
module Docker {
  import opened Wrappers
  import opened ShellLexer
  import opened Text
  import opened Paths
  import Utf8

  const CONTAINER_NAME_PREFIX := "wara-"
  const BUILT_IMAGE_PREFIX := "wara"

  datatype DeployKind = DockerImage | DockerCompose | Dockerfile

  datatype Token = Literal(text: string) | Arg(value: string)

  /** The builder hands `self` on by value: every append gives a new command. */
  datatype RemoteCommand = RemoteCommand(tokens: seq<Token>) {
    static const NEW := RemoteCommand([])

    function Lit(literal: string): RemoteCommand {
      RemoteCommand(tokens + [Literal(literal)])
    }

    function WithArg(value: string): RemoteCommand {
      RemoteCommand(tokens + [Arg(value)])
    }

    function Render(): string {
      Join(Rendered(tokens), " ")
    }
  }

  function ShellQuote(value: string): string {
    "'" + Replace(value, "'", "'\\''") + "'"
  }

  function RenderToken(token: Token): string {
    match token
    case Literal(text) => text
    case Arg(value) => ShellQuote(value)
  }

  function Rendered(tokens: seq<Token>): (r: seq<string>)
    ensures |r| == |tokens| && forall i | 0 <= i < |r| :: r[i] == RenderToken(tokens[i])
  {
    seq(|tokens|, i requires 0 <= i < |tokens| => RenderToken(tokens[i]))
  }

  // ---------- what a shell reads ----------

  /** A literal stands for its own words and operators; an argument for one word, all quoted. */
  function LexemesOf(tokens: seq<Token>): seq<Lexeme> {
    if tokens == [] then []
    else
      (match tokens[0]
       case Literal(text) => Lex(text).GetOr([])
       case Arg(value) => [QuotedWord(value)])
      + LexemesOf(tokens[1..])
  }

  lemma {:induction false} FeedEscaped(w: seq<QChar>, value: string)
    ensures Feed(Lexer([], SingleQuoted(w)), Replace(value, "'", "'\\''") + "'")
         == Lexer([], InWord(w + Marked(value, true)))
    decreases |value|
  {
    var escaped := Replace(value, "'", "'\\''") + "'";
    if value == "" {
      assert escaped == "'" && w + Marked(value, true) == w;
    } else {
      var next := w + [QChar(value[0], true)];
      var rest := Replace(value[1..], "'", "'\\''") + "'";
      FeedEscaped(next, value[1..]);
      assert next + Marked(value[1..], true) == w + Marked(value, true);
      if value[0] == '\'' {
        assert escaped == ['\'', '\\', '\'', '\''] + rest;
        FeedQuoteInQuotes(w, rest);
      } else {
        assert escaped == [value[0]] + rest;
        assert escaped[1..] == rest;
      }
    }
  }

  /** Close the quotes, one escaped quote, reopen. */
  lemma FeedQuoteInQuotes(w: seq<QChar>, rest: string)
    ensures Feed(Lexer([], SingleQuoted(w)), ['\'', '\\', '\'', '\''] + rest)
         == Feed(Lexer([], SingleQuoted(w + [QChar('\'', true)])), rest)
  {
    var t := ['\'', '\\', '\'', '\''] + rest;
    var closed, escape := Lexer([], InWord(w)), Lexer([], Escaped(w, true));
    var quote := Lexer([], InWord(w + [QChar('\'', true)]));
    assert ['\''][0] == '\'' && ['\\'][0] == '\\';
    assert Feed(Lexer([], SingleQuoted(w)), t) == Feed(closed, t[1..]);
    assert Feed(closed, t[1..]) == Feed(escape, t[1..][1..]);
    assert Feed(escape, t[1..][1..]) == Feed(quote, t[1..][1..][1..]);
    assert t[1..][1..][1..][1..] == rest;
  }

  /** A quoted value is read as exactly one word, every character of it quoted, whatever the value. */
  lemma LexShellQuote(value: string)
    ensures SelfContained(ShellQuote(value)) && Lex(ShellQuote(value)) == Some([QuotedWord(value)])
  {
    var quoted := ShellQuote(value);
    assert quoted[1..] == Replace(value, "'", "'\\''") + "'";
    FeedEscaped([], value);
    assert ['\''][0] == '\'';
    assert Begin('\'') == SingleQuoted([]);
    assert [] + Marked(value, true) == Marked(value, true);
    assert Feed(START, quoted) == Lexer([], InWord(Marked(value, true)));
    assert Finish(Feed(START, quoted)).value == [QuotedWord(value)];
  }

  /** The quoted text itself: single quotes around, and each quote inside closed, escaped and opened again. */
  lemma ShellQuoteSplices(a: string, b: string)
    requires '\'' !in a
    ensures ShellQuote(a) == "'" + a + "'"
    ensures ShellQuote(a + "'" + b) == "'" + a + "'\\'" + ShellQuote(b)
  {
    hide Replace;
    QuoteFree(a, "'" + b);
    QuoteFree(a, "");
    OneQuote(b);
    var rest := Replace(b, "'", "'\\''");
    assert a + "" == a && a + ("'" + b) == a + "'" + b;
    assert "'\\''" + rest == "'\\'" + ("'" + rest);
    assert "'" + (a + ("'\\''" + rest)) + "'" == "'" + a + "'\\'" + ("'" + rest + "'");
  }

  lemma OneQuote(b: string)
    ensures Replace("'" + b, "'", "'\\''") == "'\\''" + Replace(b, "'", "'\\''")
    ensures Replace("", "'", "'\\''") == ""
  {
    assert ("'" + b)[1..] == b;
  }

  lemma {:induction false} QuoteFree(a: string, rest: string)
    requires '\'' !in a
    ensures Replace(a + rest, "'", "'\\''") == a + Replace(rest, "'", "'\\''")
    decreases |a|
  {
    if a == "" {
      assert a + rest == rest;
    } else {
      assert (a + rest)[1..] == a[1..] + rest && (a + rest)[0] == a[0];
      assert !("'" <= a + rest);
      QuoteFree(a[1..], rest);
    }
  }

  /** A command's text grows by a blank and the new token's text. */
  lemma {:induction false} RenderAppends(tokens: seq<Token>, token: Token)
    ensures Join(Rendered([token]), " ") == RenderToken(token)
    ensures tokens != [] ==>
      Join(Rendered(tokens + [token]), " ") == Join(Rendered(tokens), " ") + " " + RenderToken(token)
    decreases |tokens|
  {
    hide RenderToken;
    if tokens != [] {
      var all := Rendered(tokens + [token]);
      RenderAppends(tokens[1..], token);
      assert tokens[1..] + [token] == (tokens + [token])[1..];
      assert all[1..] == Rendered(tokens[1..] + [token]) && Rendered(tokens)[1..] == Rendered(tokens[1..]);
    }
  }

  predicate LiteralsSelfContained(tokens: seq<Token>) {
    forall i | 0 <= i < |tokens| :: tokens[i].Literal? ==> SelfContained(tokens[i].text)
  }

  /** Rendering is undone by the shell's lexer, whatever the arguments hold. */
  lemma {:induction false} LexRender(tokens: seq<Token>)
    requires LiteralsSelfContained(tokens)
    ensures Lex(Join(Rendered(tokens), " ")) == Some(LexemesOf(tokens))
    ensures SelfContained(Join(Rendered(tokens), " "))
    decreases |tokens|
  {
    if tokens != [] {
      if tokens[0].Arg? {
        LexShellQuote(tokens[0].value);
      }
      assert Rendered(tokens)[1..] == Rendered(tokens[1..]);
      if |tokens| > 1 {
        LexSeparated(RenderToken(tokens[0]), Join(Rendered(tokens[1..]), " "));
        LexRender(tokens[1..]);
      } else {
        assert LexemesOf(tokens[1..]) == [];
        assert Lex(RenderToken(tokens[0])).value + [] == Lex(RenderToken(tokens[0])).value;
      }
    }
  }

  /** The arguments of a command, in order. */
  function Arguments(tokens: seq<Token>): seq<string> {
    if tokens == [] then []
    else (if tokens[0].Arg? then [tokens[0].value] else []) + Arguments(tokens[1..])
  }

  ghost predicate SameLiterals(a: seq<Token>, b: seq<Token>) {
    |a| == |b| && forall i | 0 <= i < |a| :: a[i] == b[i] || (a[i].Arg? && b[i].Arg?)
  }

  lemma {:induction false} LexemesDetermineArguments(a: seq<Token>, b: seq<Token>)
    requires SameLiterals(a, b) && LexemesOf(a) == LexemesOf(b)
    ensures a == b
    decreases |a|
  {
    if a != [] {
      var n := if a[0].Arg? then 1 else |Lex(a[0].text).GetOr([])|;
      assert LexemesOf(a[1..]) == LexemesOf(a)[n..] == LexemesOf(b)[n..] == LexemesOf(b[1..]);
      LexemesDetermineArguments(a[1..], b[1..]);
      if a[0].Arg? {
        assert LexemesOf(a)[0] == LexemesOf(b)[0];
        MarkedInjective(a[0].value, b[0].value);
      }
      assert a == [a[0]] + a[1..] && b == [b[0]] + b[1..];
    }
  }

  lemma MarkedInjective(v: string, w: string)
    requires Marked(v, true) == Marked(w, true)
    ensures v == w
  {
    assert forall i | 0 <= i < |v| :: Marked(v, true)[i].c == Marked(w, true)[i].c;
  }

  /** Commands over the same literals that render to the same string have the same arguments. */
  lemma RenderInjective(a: RemoteCommand, b: RemoteCommand)
    requires SameLiterals(a.tokens, b.tokens) && LiteralsSelfContained(a.tokens)
    ensures a.Render() == b.Render() <==> a == b
  {
    if a.Render() == b.Render() {
      LexRender(a.tokens);
      LexRender(b.tokens);
      LexemesDetermineArguments(a.tokens, b.tokens);
    }
  }

  // ---------- names ----------

  predicate IsLowerOrDigit(c: char) {
    'a' <= c <= 'z' || '0' <= c <= '9'
  }

  function ByteLength(s: string): nat {
    |Utf8.Encode(s)|
  }

  predicate ValidServiceName(name: string) {
    && name != ""
    && IsLowerOrDigit(name[0])
    && ByteLength(name) <= 63
    && forall i | 0 < i < |name| :: IsLowerOrDigit(name[i]) || name[i] == '.' || name[i] == '-' || name[i] == '_'
  }

  predicate IsReferenceChar(c: char) {
    IsLowerOrDigit(c) || 'A' <= c <= 'Z' || c == '.' || c == '_' || c == '-' || c == ':' || c == '/' || c == '@'
  }

  predicate ValidImageReference(image: string) {
    && image != ""
    && ByteLength(image) <= 255
    && forall i | 0 <= i < |image| :: IsReferenceChar(image[i])
  }

  function ContainerName(service: string): string {
    CONTAINER_NAME_PREFIX + service
  }

  function BuiltImageName(service: string): string {
    BUILT_IMAGE_PREFIX + "/" + service + ":latest"
  }

  function ServiceDir(root: string, service: string): string {
    PathJoin(root, service)
  }

  lemma {:induction false} AsciiByteLength(s: string)
    requires forall i | 0 <= i < |s| :: s[i] as int < 128
    ensures ByteLength(s) == |s|
  {
    if s != "" {
      AsciiByteLength(s[1..]);
    }
  }

  lemma {:induction false} NoSlashIsOneComponent(name: string)
    requires name != "" && '/' !in name
    ensures Components(name) == [name]
  {
    SplitNone(name, '/');
    assert NonEmpty([name]) == [name] + NonEmpty([]);
  }

  /** A service's directory is exactly one name below the root, and that name is not `.` or `..`. */
  lemma ServiceDirIsOneLevelDown(root: string, name: string)
    requires ValidServiceName(name)
    ensures Components(ServiceDir(root, name)) == Components(root) + [name]
    ensures name != "." && name != ".."
    ensures ServiceDir(root, name) == TrimEnd(root) + "/" + name
  {
    assert '/' !in name;
    ComponentsPathJoin(root, name);
    NoSlashIsOneComponent(name);
    TrimEndShape(name);
    assert Trim(name) == name;
    assert TrimEnd(root) == "" ==> "/" + name == TrimEnd(root) + "/" + name;
  }

  /** Different valid names never give the same directory, container or image tag. */
  lemma NamesAreDistinct(root: string, a: string, b: string)
    requires ValidServiceName(a) && ValidServiceName(b)
    ensures ServiceDir(root, a) == ServiceDir(root, b) <==> a == b
    ensures ContainerName(a) == ContainerName(b) <==> a == b
    ensures BuiltImageName(a) == BuiltImageName(b) <==> a == b
  {
    ServiceDirIsOneLevelDown(root, a);
    ServiceDirIsOneLevelDown(root, b);
    if ServiceDir(root, a) == ServiceDir(root, b) {
      assert (Components(root) + [a])[|Components(root)|] == a;
      assert (Components(root) + [b])[|Components(root)|] == b;
    }
    var n := |CONTAINER_NAME_PREFIX|;
    assert ContainerName(a)[n..] == a && ContainerName(b)[n..] == b;
    var ia, ib := BuiltImageName(a), BuiltImageName(b);
    if ia == ib {
      assert ia[5..|ia| - 7] == a && ib[5..|ib| - 7] == b;
    }
  }

  /** The tag built for an accepted service is itself an acceptable image reference. */
  lemma BuiltImageIsValid(name: string)
    requires ValidServiceName(name)
    ensures ValidImageReference(BuiltImageName(name))
  {
    AsciiByteLength(name);
    AsciiByteLength(BuiltImageName(name));
  }

  /** The accepted names, by their characters: all of them take one octet. */
  lemma ServiceNameIff(name: string)
    ensures ValidServiceName(name) <==>
      && 1 <= |name| <= 63
      && ('a' <= name[0] <= 'z' || '0' <= name[0] <= '9')
      && forall i | 0 <= i < |name| ::
           'a' <= name[i] <= 'z' || '0' <= name[i] <= '9' || name[i] == '.' || name[i] == '-' || name[i] == '_'
  {
    hide Utf8.Encode;
    if forall i | 0 <= i < |name| :: name[i] as int < 128 {
      AsciiByteLength(name);
    }
  }

  /** The accepted image references, by their characters. */
  lemma ImageReferenceIff(image: string)
    ensures ValidImageReference(image) <==>
      && 1 <= |image| <= 255
      && forall i | 0 <= i < |image| ::
           || 'a' <= image[i] <= 'z' || 'A' <= image[i] <= 'Z' || '0' <= image[i] <= '9'
           || image[i] == '.' || image[i] == '_' || image[i] == '-'
           || image[i] == ':' || image[i] == '/' || image[i] == '@'
  {
    hide Utf8.Encode;
    if forall i | 0 <= i < |image| :: image[i] as int < 128 {
      AsciiByteLength(image);
    }
  }

  /** A service's directory is the root without its trailing slashes, one slash and the name. */
  lemma ServiceDirShape(root: string, name: string) returns (stem: string, n: nat)
    requires ValidServiceName(name)
    ensures root == stem + Slashes(n) && (stem == "" || stem[|stem| - 1] != '/')
    ensures ServiceDir(root, name) == stem + "/" + name
  {
    ServiceDirIsOneLevelDown(root, name);
    stem := TrimEnd(root);
    TrimEndShape(root);
    n := TrimmedSlashes(root);
  }

  // ---------- command builders ----------

  datatype DockerCommandConfig = DockerCommandConfig(remoteServicesRoot: string, dockerfileContextDir: string)

  function ImageDeployCommands(image: string, service: string): seq<RemoteCommand> {
    var container := ContainerName(service);
    [RemoteCommand.NEW.Lit("docker pull").WithArg(image),
     RemoteCommand.NEW.Lit("docker rm -f").WithArg(container).Lit("|| true"),
     RemoteCommand.NEW.Lit("docker run -d --name").WithArg(container)
       .Lit("--restart unless-stopped").WithArg(image)]
  }

  function ComposeDeployCommands(service: string, config: DockerCommandConfig): seq<RemoteCommand> {
    var dir := ServiceDir(config.remoteServicesRoot, service);
    [RemoteCommand.NEW.Lit("mkdir -p").WithArg(dir),
     RemoteCommand.NEW.Lit("cd").WithArg(dir).Lit("&& docker compose up -d")]
  }

  function DockerfileDeployCommands(service: string, config: DockerCommandConfig): seq<RemoteCommand> {
    var contextDir := PathJoin(ServiceDir(config.remoteServicesRoot, service), config.dockerfileContextDir);
    var image, container := BuiltImageName(service), ContainerName(service);
    [RemoteCommand.NEW.Lit("docker build -t").WithArg(image).WithArg(contextDir),
     RemoteCommand.NEW.Lit("docker rm -f").WithArg(container).Lit("|| true"),
     RemoteCommand.NEW.Lit("docker run -d --name").WithArg(container)
       .Lit("--restart unless-stopped").WithArg(image)]
  }

  function RestartCommand(service: string): RemoteCommand {
    RemoteCommand.NEW.Lit("docker restart").WithArg(ContainerName(service))
  }

  /** The tokens the builders' chains leave, in order. */
  lemma ChainTokens(l1: string, v1: string, l2: string, v2: string)
    ensures RemoteCommand.NEW.Lit(l1).WithArg(v1).tokens == [Literal(l1), Arg(v1)]
    ensures RemoteCommand.NEW.Lit(l1).WithArg(v1).WithArg(v2).tokens == [Literal(l1), Arg(v1), Arg(v2)]
    ensures RemoteCommand.NEW.Lit(l1).WithArg(v1).Lit(l2).tokens == [Literal(l1), Arg(v1), Literal(l2)]
    ensures RemoteCommand.NEW.Lit(l1).WithArg(v1).Lit(l2).WithArg(v2).tokens
         == [Literal(l1), Arg(v1), Literal(l2), Arg(v2)]
  {
  }

  // ---------- what a shell reads of the builders' commands ----------

  predicate PlainWord(w: string) {
    w != "" && forall j | 0 <= j < |w| :: IsPlain(w[j])
  }

  /** A literal with the words and operators it stands for. */
  ghost predicate Stands(literal: string, lexemes: seq<Lexeme>) {
    SelfContained(literal) && Lex(literal) == Some(lexemes)
  }

  lemma OneWord(w: string)
    requires PlainWord(w)
    ensures Stands(w, BareWords([w]))
  {
    LexPlain(w);
    assert BareWords([w]) == [Word(Marked(w, false))];
  }

  lemma WordThen(w: string, rest: string, ws: seq<string>)
    requires PlainWord(w) && Stands(rest, BareWords(ws))
    ensures Stands(w + " " + rest, BareWords([w] + ws))
  {
    OneWord(w);
    LexSeparated(w, rest);
    assert BareWords([w]) + BareWords(ws) == BareWords([w] + ws);
  }

  lemma TwoWords(a: string, b: string)
    requires PlainWord(a) && PlainWord(b)
    ensures Stands(a + " " + b, BareWords([a, b]))
  {
    OneWord(b);
    WordThen(a, b, [b]);
    assert [a] + [b] == [a, b];
  }

  lemma FourWords(a: string, b: string, c: string, d: string)
    requires PlainWord(a) && PlainWord(b) && PlainWord(c) && PlainWord(d)
    ensures Stands(b + " " + (c + " " + d), BareWords([b, c, d]))
    ensures Stands(a + " " + (b + " " + (c + " " + d)), BareWords([a, b, c, d]))
  {
    TwoWords(c, d);
    WordThen(b, c + " " + d, [c, d]);
    assert [b] + [c, d] == [b, c, d];
    WordThen(a, b + " " + (c + " " + d), [b, c, d]);
    assert [a] + [b, c, d] == [a, b, c, d];
  }

  lemma OperatorThen(op: string, rest: string, lexemes: seq<Lexeme>)
    requires op in {"&&", "||"} && Stands(rest, lexemes)
    ensures Stands(op + " " + rest, [Operator(op)] + lexemes)
  {
    assert op == [op[0]] + [op[1]] && op[..1] == [op[0]] && op[1..][1..] == "";
    assert Feed(START, op) == Feed(Step(START, op[0]), op[1..]);
    assert Feed(START, op) == Lexer([], InOperator(op));
    assert Finish(Feed(START, op)).value == [Operator(op)];
    LexSeparated(op, rest);
  }

  lemma ImageLiterals()
    ensures Stands("docker pull", BareWords(["docker", "pull"]))
    ensures Stands("docker restart", BareWords(["docker", "restart"]))
  {
    hide Feed;
    TwoWords("docker", "pull");
    TwoWords("docker", "restart");
    assert "docker" + " " + "pull" == "docker pull";
    assert "docker" + " " + "restart" == "docker restart";
  }

  lemma RunLiteral()
    ensures Stands("docker run -d --name", BareWords(["docker", "run", "-d", "--name"]))
  {
    hide Feed, Stands;
    FourWords("docker", "run", "-d", "--name");
    assert "docker" + " " + ("run" + " " + ("-d" + " " + "--name")) == "docker run -d --name";
  }

  lemma RestartPolicyLiteral()
    ensures Stands("--restart unless-stopped", BareWords(["--restart", "unless-stopped"]))
  {
    hide Feed, Stands;
    TwoWords("--restart", "unless-stopped");
    assert "--restart" + " " + "unless-stopped" == "--restart unless-stopped";
  }

  lemma RemoveLiterals()
    ensures Stands("docker rm -f", BareWords(["docker", "rm", "-f"]))
    ensures Stands("|| true", [Operator("||")] + BareWords(["true"]))
  {
    hide Feed;
    FourWords("docker", "docker", "rm", "-f");
    OneWord("true");
    OperatorThen("||", "true", BareWords(["true"]));
    assert "docker" + " " + ("rm" + " " + "-f") == "docker rm -f";
    assert "||" + " " + "true" == "|| true";
  }

  lemma DirectoryLiterals()
    ensures Stands("mkdir -p", BareWords(["mkdir", "-p"]))
    ensures Stands("cd", BareWords(["cd"]))
    ensures Stands("docker build -t", BareWords(["docker", "build", "-t"]))
  {
    hide Feed;
    TwoWords("mkdir", "-p");
    OneWord("cd");
    FourWords("docker", "docker", "build", "-t");
    assert "mkdir" + " " + "-p" == "mkdir -p";
    assert "docker" + " " + ("build" + " " + "-t") == "docker build -t";
  }

  lemma ComposeLiteral()
    ensures Stands("&& docker compose up -d", [Operator("&&")] + BareWords(["docker", "compose", "up", "-d"]))
  {
    hide Feed;
    FourWords("docker", "compose", "up", "-d");
    OperatorThen("&&", "docker" + " " + ("compose" + " " + ("up" + " " + "-d")),
                 BareWords(["docker", "compose", "up", "-d"]));
    assert "&&" + " " + ("docker" + " " + ("compose" + " " + ("up" + " " + "-d"))) == "&& docker compose up -d";
  }

  lemma {:induction false} LexemesConcat(a: seq<Token>, b: seq<Token>)
    ensures LexemesOf(a + b) == LexemesOf(a) + LexemesOf(b)
    decreases |a|
  {
    if a == [] {
      assert a + b == b;
    } else {
      assert (a + b)[1..] == a[1..] + b;
      LexemesConcat(a[1..], b);
    }
  }

  /** The command reads as `lexemes`, and its rendering leaves nothing open. */
  ghost predicate Reads(command: RemoteCommand, lexemes: seq<Lexeme>) {
    LiteralsSelfContained(command.tokens) && LexemesOf(command.tokens) == lexemes
  }

  lemma ReadsLit(command: RemoteCommand, lexemes: seq<Lexeme>, literal: string, stands: seq<Lexeme>)
    requires Reads(command, lexemes) && Stands(literal, stands)
    ensures Reads(command.Lit(literal), lexemes + stands)
  {
    LexemesConcat(command.tokens, [Literal(literal)]);
    assert LexemesOf([Literal(literal)]) == stands + LexemesOf([]) == stands;
  }

  lemma ReadsArg(command: RemoteCommand, lexemes: seq<Lexeme>, value: string)
    requires Reads(command, lexemes)
    ensures Reads(command.WithArg(value), lexemes + [QuotedWord(value)])
  {
    LexemesConcat(command.tokens, [Arg(value)]);
    assert LexemesOf([Arg(value)]) == [QuotedWord(value)] + LexemesOf([]) == [QuotedWord(value)];
  }

  lemma ReadsLitArg(literal: string, stands: seq<Lexeme>, value: string)
    requires Stands(literal, stands)
    ensures Reads(RemoteCommand.NEW.Lit(literal).WithArg(value), stands + [QuotedWord(value)])
  {
    ReadsLit(RemoteCommand.NEW, [], literal, stands);
    assert [] + stands == stands;
    ReadsArg(RemoteCommand.NEW.Lit(literal), stands, value);
  }

  /** What the shell reads of `docker rm -f <container> || true`. */
  function RemoveLexemes(container: string): seq<Lexeme> {
    BareWords(["docker", "rm", "-f"]) + [QuotedWord(container)] + ([Operator("||")] + BareWords(["true"]))
  }

  /** What the shell reads of `docker run -d --name <container> --restart unless-stopped <image>`. */
  function RunLexemes(container: string, image: string): seq<Lexeme> {
    BareWords(["docker", "run", "-d", "--name"]) + [QuotedWord(container)]
    + BareWords(["--restart", "unless-stopped"]) + [QuotedWord(image)]
  }

  lemma ReadsRemoveAndRun(container: string, image: string)
    ensures Reads(RemoteCommand.NEW.Lit("docker rm -f").WithArg(container).Lit("|| true"), RemoveLexemes(container))
    ensures Reads(RemoteCommand.NEW.Lit("docker run -d --name").WithArg(container)
                    .Lit("--restart unless-stopped").WithArg(image), RunLexemes(container, image))
  {
    hide Feed;
    RemoveLiterals();
    RunLiteral();
    RestartPolicyLiteral();
    var rm, run := BareWords(["docker", "rm", "-f"]), BareWords(["docker", "run", "-d", "--name"]);
    ReadsLitArg("docker rm -f", rm, container);
    ReadsLit(RemoteCommand.NEW.Lit("docker rm -f").WithArg(container), rm + [QuotedWord(container)],
             "|| true", [Operator("||")] + BareWords(["true"]));
    ReadsLitArg("docker run -d --name", run, container);
    var named := RemoteCommand.NEW.Lit("docker run -d --name").WithArg(container);
    var policy := BareWords(["--restart", "unless-stopped"]);
    ReadsLit(named, run + [QuotedWord(container)], "--restart unless-stopped", policy);
    ReadsArg(named.Lit("--restart unless-stopped"), run + [QuotedWord(container)] + policy, image);
  }

  /** The shell's reading of every command of a plan. */
  ghost predicate PlanReads(commands: seq<RemoteCommand>, plan: seq<seq<Lexeme>>) {
    |commands| == |plan| && forall i | 0 <= i < |plan| :: Reads(commands[i], plan[i])
  }

  function ImagePlan(image: string, service: string): seq<seq<Lexeme>> {
    [BareWords(["docker", "pull"]) + [QuotedWord(image)],
     RemoveLexemes("wara-" + service),
     RunLexemes("wara-" + service, image)]
  }

  function ComposePlan(dir: string): seq<seq<Lexeme>> {
    [BareWords(["mkdir", "-p"]) + [QuotedWord(dir)],
     BareWords(["cd"]) + [QuotedWord(dir)]
     + ([Operator("&&")] + BareWords(["docker", "compose", "up", "-d"]))]
  }

  function DockerfilePlan(service: string, contextDir: string): seq<seq<Lexeme>> {
    var image := "wara/" + service + ":latest";
    [BareWords(["docker", "build", "-t"]) + [QuotedWord(image)] + [QuotedWord(contextDir)],
     RemoveLexemes("wara-" + service),
     RunLexemes("wara-" + service, image)]
  }

  function RestartPlan(service: string): seq<seq<Lexeme>> {
    [BareWords(["docker", "restart"]) + [QuotedWord("wara-" + service)]]
  }

  lemma ImageCommandsRead(image: string, service: string)
    ensures PlanReads(ImageDeployCommands(image, service), ImagePlan(image, service))
  {
    hide Feed;
    ImageLiterals();
    ReadsLitArg("docker pull", BareWords(["docker", "pull"]), image);
    ReadsRemoveAndRun(ContainerName(service), image);
  }

  lemma ComposeCommandsRead(service: string, config: DockerCommandConfig)
    ensures PlanReads(ComposeDeployCommands(service, config),
                      ComposePlan(ServiceDir(config.remoteServicesRoot, service)))
  {
    hide Feed;
    var dir := ServiceDir(config.remoteServicesRoot, service);
    DirectoryLiterals();
    ComposeLiteral();
    ReadsLitArg("mkdir -p", BareWords(["mkdir", "-p"]), dir);
    ReadsLitArg("cd", BareWords(["cd"]), dir);
    ReadsLit(RemoteCommand.NEW.Lit("cd").WithArg(dir), BareWords(["cd"]) + [QuotedWord(dir)],
             "&& docker compose up -d", [Operator("&&")] + BareWords(["docker", "compose", "up", "-d"]));
  }

  lemma DockerfileCommandsRead(service: string, config: DockerCommandConfig)
    ensures PlanReads(DockerfileDeployCommands(service, config),
              DockerfilePlan(service, PathJoin(ServiceDir(config.remoteServicesRoot, service),
                                               config.dockerfileContextDir)))
  {
    hide Feed;
    var contextDir := PathJoin(ServiceDir(config.remoteServicesRoot, service), config.dockerfileContextDir);
    var image, build := BuiltImageName(service), BareWords(["docker", "build", "-t"]);
    assert "wara" + "/" == "wara/";
    DirectoryLiterals();
    ReadsLitArg("docker build -t", build, image);
    ReadsArg(RemoteCommand.NEW.Lit("docker build -t").WithArg(image), build + [QuotedWord(image)], contextDir);
    ReadsRemoveAndRun(ContainerName(service), image);
  }

  lemma RestartCommandReads(service: string)
    ensures PlanReads([RestartCommand(service)], RestartPlan(service))
  {
    hide Feed;
    ImageLiterals();
    ReadsLitArg("docker restart", BareWords(["docker", "restart"]), ContainerName(service));
  }

  /** The same operators at the same places, and words everywhere else. */
  ghost predicate SameSkeleton(a: seq<Lexeme>, b: seq<Lexeme>) {
    && |a| == |b|
    && forall i | 0 <= i < |a| ::
         a[i] == b[i] || (a[i].Word? && b[i].Word? && AllQuoted(a[i]) && AllQuoted(b[i]))
  }

  ghost predicate AllQuoted(l: Lexeme)
    requires l.Word?
  {
    forall i | 0 <= i < |l.chars| :: l.chars[i].quoted
  }

  /** Commands built over the same literals differ, to the shell, only inside fully quoted words. */
  lemma {:induction false} SkeletonIsIndependent(a: seq<Token>, b: seq<Token>)
    requires SameLiterals(a, b)
    ensures SameSkeleton(LexemesOf(a), LexemesOf(b))
    decreases |a|
  {
    if a != [] {
      SkeletonIsIndependent(a[1..], b[1..]);
    }
  }

  lemma SkeletonParts(a: seq<Lexeme>, b: seq<Lexeme>, a': seq<Lexeme>, b': seq<Lexeme>)
    requires SameSkeleton(a, a') && SameSkeleton(b, b')
    ensures SameSkeleton(a + b, a' + b')
  {
  }

  lemma SkeletonStep(a: seq<Lexeme>, v: string, a': seq<Lexeme>, v': string, fixed: seq<Lexeme>)
    requires SameSkeleton(a, a')
    ensures SameSkeleton(a + [QuotedWord(v)], a' + [QuotedWord(v')])
    ensures SameSkeleton(a + [QuotedWord(v)] + fixed, a' + [QuotedWord(v')] + fixed)
  {
    SkeletonParts(a, [QuotedWord(v)], a', [QuotedWord(v')]);
    SkeletonParts(a + [QuotedWord(v)], fixed, a' + [QuotedWord(v')], fixed);
  }

  lemma RemoveAndRunSkeleton(c: string, i: string, c': string, i': string)
    ensures SameSkeleton(RemoveLexemes(c), RemoveLexemes(c'))
    ensures SameSkeleton(RunLexemes(c, i), RunLexemes(c', i'))
  {
    hide SameSkeleton, QuotedWord;
    var rm, run := BareWords(["docker", "rm", "-f"]), BareWords(["docker", "run", "-d", "--name"]);
    var ignore, policy := [Operator("||")] + BareWords(["true"]), BareWords(["--restart", "unless-stopped"]);
    SkeletonOfItself(rm);
    SkeletonOfItself(run);
    SkeletonStep(rm, c, rm, c', ignore);
    SkeletonStep(run, c, run, c', policy);
    SkeletonStep(run + [QuotedWord(c)] + policy, i, run + [QuotedWord(c')] + policy, i', []);
  }

  lemma SkeletonOfItself(a: seq<Lexeme>)
    ensures SameSkeleton(a, a)
  {
  }
}
