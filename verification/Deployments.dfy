/** Planning a service's deploy, running the plan and storing the transcript. */
module Deployments {
  import opened Wrappers
  import opened Models
  import opened Docker
  import opened DeployExecutor
  import opened ShellLexer
  import opened Text
  import opened Paths
  import Tenancy
  import TenancyEffects
  import TenantStore
  import Utf8

  datatype DeploymentStatus = Queued | Running | Succeeded | Failed

  datatype Deployment = Deployment(id: Id, serviceId: Id, status: DeploymentStatus, workflowId: string,
                                   output: string, createdAt: Instant)

  /** The image a docker-image service deploys. */
  function ImageOf(service: AppService): string {
    service.image.GetOr("missing-image")
  }

  function PlannedCommands(service: AppService, config: DockerCommandConfig): Result<seq<RemoteCommand>, ApiError> {
    if !ValidServiceName(service.name) then Err(BadRequest("invalid service name"))
    else
      match service.deployKind
      case DockerImage =>
        if !ValidImageReference(ImageOf(service)) then Err(BadRequest("invalid image reference"))
        else Ok(ImageDeployCommands(ImageOf(service), service.name))
      case DockerCompose => Ok(ComposeDeployCommands(service.name, config))
      case Dockerfile => Ok(DockerfileDeployCommands(service.name, config))
  }

  function DeployStatus(run: DeployRun): DeploymentStatus {
    if !run.executed then Queued else if run.success then Succeeded else Failed
  }

  // ---------- what the plan says ----------

  /** The words and operators a shell must see, given by the service alone. */
  function PlanOf(service: AppService, config: DockerCommandConfig): seq<seq<Lexeme>> {
    var dir := PathJoin(config.remoteServicesRoot, service.name);
    match service.deployKind
    case DockerImage =>
      ImagePlan(match service.image { case Some(image) => image case None => "missing-image" }, service.name)
    case DockerCompose => ComposePlan(dir)
    case Dockerfile => DockerfilePlan(service.name, PathJoin(dir, config.dockerfileContextDir))
  }

  /** Each planned command, rendered and read back by a shell, is its line of the plan. */
  lemma PlannedCommandsRead(service: AppService, config: DockerCommandConfig)
    requires PlannedCommands(service, config).Ok?
    ensures var commands := PlannedCommands(service, config).value;
      && PlanReads(commands, PlanOf(service, config))
      && forall i | 0 <= i < |commands| :: Lex(commands[i].Render()) == Some(PlanOf(service, config)[i])
  {
    hide Feed;
    var commands := PlannedCommands(service, config).value;
    match service.deployKind {
      case DockerImage => ImageCommandsRead(ImageOf(service), service.name);
      case DockerCompose => ComposeCommandsRead(service.name, config);
      case Dockerfile => DockerfileCommandsRead(service.name, config);
    }
    RenderedPlanLexes(commands, PlanOf(service, config));
  }

  lemma RenderedPlanLexes(commands: seq<RemoteCommand>, plan: seq<seq<Lexeme>>)
    requires PlanReads(commands, plan)
    ensures forall i | 0 <= i < |commands| :: Lex(commands[i].Render()) == Some(plan[i])
  {
    forall i | 0 <= i < |commands|
      ensures Lex(commands[i].Render()) == Some(plan[i])
    {
      assert Reads(commands[i], plan[i]);
      LexRender(commands[i].tokens);
    }
  }

  lemma SpecifiedPlansShareSkeleton(a: AppService, b: AppService, ca: DockerCommandConfig, cb: DockerCommandConfig)
    requires a.deployKind == b.deployKind
    ensures |PlanOf(a, ca)| == |PlanOf(b, cb)|
    ensures forall i | 0 <= i < |PlanOf(a, ca)| :: SameSkeleton(PlanOf(a, ca)[i], PlanOf(b, cb)[i])
  {
    hide SameSkeleton, QuotedWord, RemoveLexemes, RunLexemes, PathJoin;
    var da, db := PathJoin(ca.remoteServicesRoot, a.name), PathJoin(cb.remoteServicesRoot, b.name);
    match a.deployKind {
      case DockerImage =>
        var pull := BareWords(["docker", "pull"]);
        SkeletonOfItself(pull);
        SkeletonStep(pull, ImageOf(a), pull, ImageOf(b), []);
        RemoveAndRunSkeleton("wara-" + a.name, ImageOf(a), "wara-" + b.name, ImageOf(b));
      case DockerCompose =>
        var mkdir, cd := BareWords(["mkdir", "-p"]), BareWords(["cd"]);
        SkeletonOfItself(mkdir);
        SkeletonOfItself(cd);
        SkeletonStep(mkdir, da, mkdir, db, []);
        SkeletonStep(cd, da, cd, db, [Lexeme.Operator("&&")] + BareWords(["docker", "compose", "up", "-d"]));
      case Dockerfile =>
        var build := BareWords(["docker", "build", "-t"]);
        var ia, ib := "wara/" + a.name + ":latest", "wara/" + b.name + ":latest";
        SkeletonOfItself(build);
        SkeletonStep(build, ia, build, ib, []);
        SkeletonStep(build + [QuotedWord(ia)], PathJoin(da, ca.dockerfileContextDir),
                     build + [QuotedWord(ib)], PathJoin(db, cb.dockerfileContextDir), []);
        RemoveAndRunSkeleton("wara-" + a.name, ia, "wara-" + b.name, ib);
    }
  }

  /** The texts read as tokens that agree but inside fully quoted words. */
  ghost predicate ReadAlike(a: string, b: string) {
    Lex(a).Some? && Lex(b).Some? && SameSkeleton(Lex(a).value, Lex(b).value)
  }

  /**
    * Two accepted services deployed the same way, whatever their names, images and settings: their
    * rendered commands give the shell the same operators and fixed words at the same places.
    */
  lemma PlansShareSkeleton(a: AppService, b: AppService, ca: DockerCommandConfig, cb: DockerCommandConfig)
    requires a.deployKind == b.deployKind
    requires PlannedCommands(a, ca).Ok? && PlannedCommands(b, cb).Ok?
    ensures var xs, ys := PlannedCommands(a, ca).value, PlannedCommands(b, cb).value;
      |xs| == |ys| && forall i | 0 <= i < |xs| :: ReadAlike(xs[i].Render(), ys[i].Render())
  {
    hide PlannedCommands, PlanOf, SameSkeleton, Reads, Lex, RemoteCommand.Render;
    PlannedCommandsRead(a, ca);
    PlannedCommandsRead(b, cb);
    SpecifiedPlansShareSkeleton(a, b, ca, cb);
  }

  /** The rendered restart command is read as the two bare words and the container's name. */
  lemma RestartReads(service: string)
    ensures Lex(RestartCommand(service).Render()) == Some(RestartPlan(service)[0])
  {
    hide Feed;
    RestartCommandReads(service);
    RenderedPlanLexes([RestartCommand(service)], RestartPlan(service));
  }

  // ---------- what is accepted, and which image is deployed ----------

  /** A plan is made exactly for an acceptable name and, of an image service, an acceptable image. */
  lemma PlannedIff(service: AppService, config: DockerCommandConfig)
    ensures PlannedCommands(service, config).Ok? <==>
      && ValidServiceName(service.name)
      && (service.deployKind == DockerImage ==>
            match service.image { case Some(image) => ValidImageReference(image) case None => true })
    ensures PlannedCommands(service, config).Err? ==>
      PlannedCommands(service, config).error
      == BadRequest(if ValidServiceName(service.name) then "invalid image reference" else "invalid service name")
  {
    DefaultImageIsValid();
    hide ValidServiceName, ValidImageReference;
  }

  lemma DefaultImageIsValid()
    ensures ValidImageReference("missing-image")
  {
    hide ValidImageReference, Utf8.Encode;
    ImageReferenceIff("missing-image");
  }

  /** An image service pulls and runs its own image, each time as one quoted word. */
  lemma DeploysItsImage(service: AppService, config: DockerCommandConfig, image: string)
    requires service.deployKind == DockerImage && PlannedCommands(service, config).Ok?
    requires service.image == Some(image) || (service.image == None && image == "missing-image")
    ensures var commands := PlannedCommands(service, config).value;
      && |commands| == 3
      && Lex(commands[0].Render())
         == Some([Word(Marked("docker", false)), Word(Marked("pull", false)), Word(Marked(image, true))])
      && Lex(commands[2].Render()).Some? && Lex(commands[2].Render()).value != []
      && Lex(commands[2].Render()).value[|Lex(commands[2].Render()).value| - 1] == Word(Marked(image, true))
  {
    hide Lex, RemoteCommand.Render, PlannedCommands, Marked;
    PlannedCommandsRead(service, config);
    assert BareWords(["docker", "pull"]) + [QuotedWord(image)]
        == [Word(Marked("docker", false)), Word(Marked("pull", false)), Word(Marked(image, true))];
  }

  /** A service created with an acceptable name and image deploys that image. */
  lemma CreatedServiceDeploysItsImage(t: Tenancy.Tables, input: Tenancy.ServiceInput, id: Id, image: string,
                                      config: DockerCommandConfig)
    requires Tenancy.CreateService(t, input, id).1.Ok?
    requires input.deployKind == DockerImage && input.image == Some(image)
    requires ValidServiceName(input.name) && ValidImageReference(image)
    ensures var (u, r) := Tenancy.CreateService(t, input, id);
      var service := r.value;
      && id in u.services && u.services[id] == service
      && PlannedCommands(service, config).Ok?
      && |PlannedCommands(service, config).value| == 3
      && Lex(PlannedCommands(service, config).value[0].Render())
         == Some([Word(Marked("docker", false)), Word(Marked("pull", false)), Word(Marked(image, true))])
  {
    hide ValidServiceName, ValidImageReference, PlannedCommands, Lex, Marked;
    TenancyEffects.ServiceCreated(t, input, id);
    var service := Tenancy.CreateService(t, input, id).1.value;
    PlannedIff(service, config);
    DeploysItsImage(service, config, image);
  }

  // ---------- services of one name ----------

  /** The command that removes the container of a service's name, as a shell reads it. */
  ghost predicate Removes(command: RemoteCommand, service: AppService) {
    Lex(command.Render()) == Some(RemoveLexemes("wara-" + service.name))
  }

  lemma RemovalNames(a: string, b: string)
    ensures RemoveLexemes(ContainerName(a)) == RemoveLexemes(ContainerName(b)) <==> a == b
  {
    hide QuotedWord;
    var rm, ignore := BareWords(["docker", "rm", "-f"]), [Lexeme.Operator("||")] + BareWords(["true"]);
    if RemoveLexemes(ContainerName(a)) == RemoveLexemes(ContainerName(b)) {
      assert (rm + [QuotedWord(ContainerName(a))] + ignore)[3] == (rm + [QuotedWord(ContainerName(b))] + ignore)[3];
      QuotedWordsDiffer(ContainerName(a), ContainerName(b));
      assert ContainerName(a)[|CONTAINER_NAME_PREFIX|..] == a && ContainerName(b)[|CONTAINER_NAME_PREFIX|..] == b;
    }
  }

  lemma QuotedWordsDiffer(v: string, w: string)
    requires QuotedWord(v) == QuotedWord(w)
    ensures v == w
  {
    MarkedInjective(v, w);
  }

  /**
    * Two accepted services, whatever their workspaces, share directory, container and image tag
    * exactly when their names are equal; then, and only then, does a deploy of the one that starts
    * a container remove the other's.
    */
  lemma ServicesShareIff(a: AppService, b: AppService, config: DockerCommandConfig)
    requires PlannedCommands(a, config).Ok? && PlannedCommands(b, config).Ok?
    ensures ServiceDir(config.remoteServicesRoot, a.name) == ServiceDir(config.remoteServicesRoot, b.name)
       <==> a.name == b.name
    ensures ContainerName(a.name) == ContainerName(b.name) <==> a.name == b.name
    ensures BuiltImageName(a.name) == BuiltImageName(b.name) <==> a.name == b.name
    ensures b.deployKind != DockerCompose ==>
      && |PlannedCommands(b, config).value| == 3
      && (Removes(PlannedCommands(b, config).value[1], a) <==> a.name == b.name)
  {
    hide Removes, PlannedCommands, ServiceDir, ValidServiceName;
    PlannedNames(a, config);
    PlannedNames(b, config);
    NamesAreDistinct(config.remoteServicesRoot, a.name, b.name);
    if b.deployKind != DockerCompose {
      DeployRemovesIff(a, b, config);
    }
  }

  lemma PlannedNames(service: AppService, config: DockerCommandConfig)
    requires PlannedCommands(service, config).Ok?
    ensures ValidServiceName(service.name)
  {
  }

  lemma DeployRemovesIff(a: AppService, b: AppService, config: DockerCommandConfig)
    requires PlannedCommands(b, config).Ok? && b.deployKind != DockerCompose
    ensures |PlannedCommands(b, config).value| == 3
    ensures Removes(PlannedCommands(b, config).value[1], a) <==> a.name == b.name
  {
    hide Lex, RemoveLexemes, RunLexemes, RemoteCommand.Render, ServiceDir, PlannedCommands;
    PlannedCommandsRead(b, config);
    RemovalNames(a.name, b.name);
  }

  /** Nothing keeps two workspaces from services of one name: a run that ends in two accepted ones. */
  lemma NamesMayRepeat(vault: Tenancy.Vault, name: string, config: DockerCommandConfig)
    returns (states: seq<Tenancy.Tables>, actions: seq<Tenancy.Action>)
    requires ValidServiceName(name)
    ensures Tenancy.IsRun(vault, states, actions) && |states| == 5
    ensures var services := states[4].services;
      && 0 in services && 1 in services && services[0].name == services[1].name == name
      && services[0].workspaceId != services[1].workspaceId
      && PlannedCommands(services[0], config).Ok?
      && PlannedCommands(services[0], config) == PlannedCommands(services[1], config)
  {
    hide ValidServiceName, DockerfileDeployCommands;
    var first := Tenancy.ServiceInput(0, 0, name, Dockerfile, None, None, None, None);
    var second := first.(workspaceId := 1, environmentId := 1);
    actions := [Tenancy.AddWorkspace("a", None, 0, 0), Tenancy.AddWorkspace("b", None, 1, 1),
                Tenancy.AddService(first, 0), Tenancy.AddService(second, 1)];
    var s1 := Tenancy.Next(Tenancy.EMPTY, vault, actions[0]);
    var s2 := Tenancy.Next(s1, vault, actions[1]);
    var s3 := Tenancy.Next(s2, vault, actions[2]);
    var s4 := Tenancy.Next(s3, vault, actions[3]);
    states := [Tenancy.EMPTY, s1, s2, s3, s4];
  }

  // ---------- transcripts ----------

  /** The settings this kind of deploy writes into its commands hold no newline. */
  predicate ConfigIsOneLine(kind: DeployKind, config: DockerCommandConfig) {
    && (kind != DockerImage ==> '\n' !in config.remoteServicesRoot)
    && (kind == Dockerfile ==> '\n' !in config.dockerfileContextDir)
  }

  ghost predicate RendersOnOneLine(commands: seq<RemoteCommand>) {
    forall i | 0 <= i < |commands| :: '\n' !in commands[i].Render()
  }

  /** Only an argument can bring a newline into a command. */
  lemma NewlineInCommand(command: RemoteCommand, tokens: seq<Token>)
    requires command.tokens == tokens
    requires forall i | 0 <= i < |tokens| :: tokens[i].Literal? ==> '\n' !in tokens[i].text
    ensures '\n' in command.Render() <==>
      exists i :: 0 <= i < |tokens| && tokens[i].Arg? && '\n' in tokens[i].value
  {
    CharInJoin(Rendered(tokens), " ", '\n');
    forall i | 0 <= i < |tokens|
      ensures '\n' in Rendered(tokens)[i] <==> tokens[i].Arg? && '\n' in tokens[i].value
    {
      if tokens[i].Arg? {
        CharInReplace(tokens[i].value, "'", "'\\''", '\n');
      }
    }
  }

  lemma ChainNewlines(l1: string, v1: string, l2: string, v2: string)
    requires '\n' !in l1 && '\n' !in l2
    ensures '\n' in RemoteCommand.NEW.Lit(l1).WithArg(v1).Render() <==> '\n' in v1
    ensures '\n' in RemoteCommand.NEW.Lit(l1).WithArg(v1).WithArg(v2).Render() <==> '\n' in v1 || '\n' in v2
    ensures '\n' in RemoteCommand.NEW.Lit(l1).WithArg(v1).Lit(l2).Render() <==> '\n' in v1
    ensures '\n' in RemoteCommand.NEW.Lit(l1).WithArg(v1).Lit(l2).WithArg(v2).Render() <==> '\n' in v1 || '\n' in v2
  {
    hide Join, Replace;
    ChainTokens(l1, v1, l2, v2);
    var t1, t2 := [Literal(l1), Arg(v1)], [Literal(l1), Arg(v1), Arg(v2)];
    var t3, t4 := [Literal(l1), Arg(v1), Literal(l2)], [Literal(l1), Arg(v1), Literal(l2), Arg(v2)];
    NewlineInCommand(RemoteCommand.NEW.Lit(l1).WithArg(v1), t1);
    NewlineInCommand(RemoteCommand.NEW.Lit(l1).WithArg(v1).WithArg(v2), t2);
    NewlineInCommand(RemoteCommand.NEW.Lit(l1).WithArg(v1).Lit(l2), t3);
    NewlineInCommand(RemoteCommand.NEW.Lit(l1).WithArg(v1).Lit(l2).WithArg(v2), t4);
    assert t1[1].value == t2[1].value == t3[1].value == t4[1].value == v1;
    assert t2[2].value == t4[3].value == v2;
  }

  lemma LiteralsHaveNoNewline()
    ensures '\n' !in "docker pull" && '\n' !in "docker rm -f" && '\n' !in "|| true"
    ensures '\n' !in "docker run -d --name" && '\n' !in "--restart unless-stopped"
    ensures '\n' !in "mkdir -p" && '\n' !in "cd" && '\n' !in "&& docker compose up -d" && '\n' !in "docker build -t"
  {
  }

  lemma RemoveAndRunNewlines(commands: seq<RemoteCommand>, container: string, image: string)
    requires '\n' !in container && '\n' !in image && |commands| == 3
    requires commands[1] == RemoteCommand.NEW.Lit("docker rm -f").WithArg(container).Lit("|| true")
    requires commands[2] == RemoteCommand.NEW.Lit("docker run -d --name").WithArg(container)
                              .Lit("--restart unless-stopped").WithArg(image)
    ensures RendersOnOneLine(commands) <==> '\n' !in commands[0].Render()
  {
    hide RemoteCommand.Render, RemoteCommand.Lit, RemoteCommand.WithArg;
    LiteralsHaveNoNewline();
    ChainNewlines("docker rm -f", container, "|| true", "");
    ChainNewlines("docker run -d --name", container, "--restart unless-stopped", image);
  }

  lemma ImageNewlines(image: string, name: string)
    requires '\n' !in image && '\n' !in name
    ensures RendersOnOneLine(ImageDeployCommands(image, name))
  {
    hide RemoteCommand.Render, RemoteCommand.Lit, RemoteCommand.WithArg, RendersOnOneLine;
    LiteralsHaveNoNewline();
    ChainNewlines("docker pull", image, "", "");
    RemoveAndRunNewlines(ImageDeployCommands(image, name), ContainerName(name), image);
  }

  lemma ComposeNewlines(name: string, config: DockerCommandConfig)
    requires '\n' !in name
    ensures RendersOnOneLine(ComposeDeployCommands(name, config)) <==> '\n' !in config.remoteServicesRoot
  {
    hide RemoteCommand.Render, RemoteCommand.Lit, RemoteCommand.WithArg, PathJoin;
    var dir := ServiceDir(config.remoteServicesRoot, name);
    LiteralsHaveNoNewline();
    CharInPathJoin(config.remoteServicesRoot, name, '\n');
    ChainNewlines("mkdir -p", dir, "", "");
    ChainNewlines("cd", dir, "&& docker compose up -d", "");
    var commands := ComposeDeployCommands(name, config);
    assert '\n' in commands[0].Render() <==> '\n' in dir;
    assert '\n' in commands[1].Render() <==> '\n' in dir;
  }

  lemma DockerfileNewlines(name: string, config: DockerCommandConfig)
    requires '\n' !in name
    ensures RendersOnOneLine(DockerfileDeployCommands(name, config))
       <==> '\n' !in config.remoteServicesRoot && '\n' !in config.dockerfileContextDir
  {
    hide RemoteCommand.Render, RemoteCommand.Lit, RemoteCommand.WithArg, PathJoin, RendersOnOneLine;
    var dir := ServiceDir(config.remoteServicesRoot, name);
    var contextDir := PathJoin(dir, config.dockerfileContextDir);
    LiteralsHaveNoNewline();
    CharInPathJoin(config.remoteServicesRoot, name, '\n');
    CharInPathJoin(dir, config.dockerfileContextDir, '\n');
    ChainNewlines("docker build -t", BuiltImageName(name), "", contextDir);
    RemoveAndRunNewlines(DockerfileDeployCommands(name, config), ContainerName(name), BuiltImageName(name));
  }

  lemma AcceptedHasNoNewline(text: string)
    requires ValidServiceName(text) || ValidImageReference(text)
    ensures '\n' !in text
  {
    hide Utf8.Encode;
  }

  lemma PlannedNewlines(service: AppService, config: DockerCommandConfig)
    requires PlannedCommands(service, config).Ok?
    ensures RendersOnOneLine(PlannedCommands(service, config).value) <==> ConfigIsOneLine(service.deployKind, config)
  {
    hide RendersOnOneLine, ImageDeployCommands, ComposeDeployCommands, DockerfileDeployCommands,
      ValidServiceName, ValidImageReference;
    AcceptedHasNoNewline(service.name);
    match service.deployKind {
      case DockerImage =>
        AcceptedHasNoNewline(ImageOf(service));
        ImageNewlines(ImageOf(service), service.name);
      case DockerCompose => ComposeNewlines(service.name, config);
      case Dockerfile => DockerfileNewlines(service.name, config);
    }
  }

  /** One line per command, in order, each with the planned words after its `$ `, then the remark. */
  ghost predicate Recovers(output: string, commands: seq<RemoteCommand>, plan: seq<seq<Lexeme>>) {
    var lines := Split(output, '\n');
    && |lines| == |commands| + 1
    && |plan| == |commands|
    && lines[|commands|] == PREVIEW_LINE
    && forall i | 0 <= i < |commands| ::
         && lines[i] == "$ " + commands[i].Render()
         && Lex(lines[i][2..]) == Some(plan[i])
  }

  lemma RecoveredLinesAreOneLine(output: string, commands: seq<RemoteCommand>, plan: seq<seq<Lexeme>>)
    requires Recovers(output, commands, plan)
    ensures RendersOnOneLine(commands)
  {
    var lines := Split(output, '\n');
    SplitPieces(output, '\n');
    forall i | 0 <= i < |commands|
      ensures '\n' !in commands[i].Render()
    {
      assert lines[i] == "$ " + commands[i].Render();
    }
  }

  /** A previewed deploy can be read back from its transcript exactly when no setting holds a newline. */
  lemma PreviewIsInvertible(service: AppService, config: DockerCommandConfig, secrets: seq<string>)
    requires PlannedCommands(service, config).Ok?
    ensures var commands := PlannedCommands(service, config).value;
      && DeployStatus(PreviewRun(commands)) == Queued
      && (Recovers(Transcript(PreviewRun(commands), secrets), commands, PlanOf(service, config))
          <==> ConfigIsOneLine(service.deployKind, config))
  {
    hide Feed, Join, Replace, Transcript, PlanOf, PlannedCommands;
    var commands := PlannedCommands(service, config).value;
    var output := Transcript(PreviewRun(commands), secrets);
    PlannedNewlines(service, config);
    PlannedCommandsRead(service, config);
    if RendersOnOneLine(commands) {
      PreviewSplits(commands, secrets);
      forall i | 0 <= i < |commands|
        ensures Split(output, '\n')[i][2..] == commands[i].Render()
      {
        assert Split(output, '\n')[i] == "$ " + commands[i].Render();
      }
    }
    if Recovers(output, commands, PlanOf(service, config)) {
      RecoveredLinesAreOneLine(output, commands, PlanOf(service, config));
    }
  }

  // ---------- the service ----------

  type Executor = seq<RemoteCommand> -> Result<DeployRun, string>

  function Preview(commands: seq<RemoteCommand>): Result<DeployRun, string> {
    Ok(PreviewRun(commands))
  }

  /** The record a run leaves, if the executor gives one. */
  function Recorded(executor: Executor, serviceId: Id, commands: seq<RemoteCommand>, id: Id, workflowId: string,
                    now: Instant)
    : Result<Deployment, ApiError>
  {
    match executor(commands)
    case Err(message) => Err(Internal("deploy execution failed: " + message))
    case Ok(run) => Ok(Deployment(id, serviceId, DeployStatus(run), workflowId, Transcript(run, []), now))
  }

  /** A record is made exactly when the executor gives a run; it says whose it is, what came of it and what it said. */
  lemma RecordedRun(executor: Executor, serviceId: Id, commands: seq<RemoteCommand>, id: Id, workflowId: string,
                    now: Instant)
    ensures var r := Recorded(executor, serviceId, commands, id, workflowId, now);
      && (r.Ok? <==> executor(commands).Ok?)
      && (r.Err? ==> r.error == Internal("deploy execution failed: " + executor(commands).error))
      && (r.Ok? ==>
            var run := executor(commands).value;
            && r.value.id == id && r.value.serviceId == serviceId
            && r.value.workflowId == workflowId && r.value.createdAt == now
            && (r.value.status == Queued <==> !run.executed)
            && (r.value.status == Succeeded <==> run.executed && run.success)
            && (r.value.status == Failed <==> run.executed && !run.success)
            && r.value.output == Transcript(run, []))
  {
  }

  /** What a previewed deploy stores is queued, and tells the plan back exactly when no setting holds a newline. */
  lemma StoredPreviewIsInvertible(service: AppService, config: DockerCommandConfig, id: Id, workflowId: string,
                                  now: Instant)
    requires PlannedCommands(service, config).Ok?
    ensures var commands := PlannedCommands(service, config).value;
      var stored := Recorded(Preview, service.id, commands, id, workflowId, now);
      && stored.Ok? && stored.value.status == Queued && stored.value.serviceId == service.id
      && (Recovers(stored.value.output, commands, PlanOf(service, config))
          <==> ConfigIsOneLine(service.deployKind, config))
  {
    hide Recovers, PlanOf, PlannedCommands, Transcript, PreviewRun, DeployStatus;
    PreviewIsInvertible(service, config, []);
  }

  /** A previewed restart of a service with an accepted name is always told back by what it stores. */
  lemma StoredRestartIsInvertible(service: AppService, id: Id, workflowId: string, now: Instant)
    requires ValidServiceName(service.name)
    ensures var commands := [RestartCommand(service.name)];
      var stored := Recorded(Preview, service.id, commands, id, workflowId, now);
      && stored.Ok? && stored.value.status == Queued && stored.value.serviceId == service.id
      && Recovers(stored.value.output, commands, RestartPlan(service.name))
  {
    hide Feed, Join, Replace, Transcript, RemoteCommand.Render, ValidServiceName;
    var command := RestartCommand(service.name);
    AcceptedHasNoNewline(service.name);
    RestartIsOneLine(service.name);
    PreviewSplits([command], []);
    RestartReads(service.name);
    assert ("$ " + command.Render())[2..] == command.Render();
  }

  lemma RestartIsOneLine(name: string)
    requires '\n' !in name
    ensures '\n' !in RestartCommand(name).Render()
  {
    hide Join, Replace;
    ChainNewlines("docker restart", ContainerName(name), "", "");
  }

  class DeploymentService {
    const store: TenantStore.Store
    const config: DockerCommandConfig
    const executor: Executor
    var deployments: map<Id, Deployment>

    constructor (store: TenantStore.Store, config: DockerCommandConfig, executor: Executor)
      ensures this.store == store && this.config == config && this.executor == executor && deployments == map[]
    {
      this.store, this.config, this.executor := store, config, executor;
      deployments := map[];
    }

    method TriggerDeploy(serviceId: Id, id: Id, workflowId: string, now: Instant) returns (r: Result<Deployment,
                         ApiError>)
      modifies this
      ensures deployments == if r.Ok? then old(deployments)[id := r.value] else old(deployments)
      ensures serviceId !in store.services ==> r == Err(NotFound("service"))
      ensures serviceId in store.services ==>
        match PlannedCommands(store.services[serviceId], config)
        case Err(error) => r == Err(error)
        case Ok(commands) => r == Recorded(executor, serviceId, commands, id, workflowId, now)
    {
      var service := store.GetService(serviceId);
      if service.Err? {
        return Err(service.error);
      }
      var commands := PlannedCommands(service.value, config);
      if commands.Err? {
        return Err(commands.error);
      }
      r := RunAndRecord(serviceId, commands.value, id, workflowId, now);
    }

    method RestartService(serviceId: Id, id: Id, workflowId: string, now: Instant) returns (r: Result<Deployment,
                          ApiError>)
      modifies this
      ensures deployments == if r.Ok? then old(deployments)[id := r.value] else old(deployments)
      ensures serviceId !in store.services ==> r == Err(NotFound("service"))
      ensures serviceId in store.services && !ValidServiceName(store.services[serviceId].name)
        ==> r == Err(BadRequest("invalid service name"))
      ensures serviceId in store.services && ValidServiceName(store.services[serviceId].name)
        ==> r == Recorded(executor, serviceId, [RestartCommand(store.services[serviceId].name)], id, workflowId, now)
    {
      var service := store.GetService(serviceId);
      if service.Err? {
        return Err(service.error);
      }
      if !ValidServiceName(service.value.name) {
        return Err(BadRequest("invalid service name"));
      }
      r := RunAndRecord(serviceId, [RestartCommand(service.value.name)], id, workflowId, now);
    }

    method RunAndRecord(serviceId: Id, commands: seq<RemoteCommand>, id: Id, workflowId: string, now: Instant)
      returns (r: Result<Deployment, ApiError>)
      modifies this
      ensures r == Recorded(executor, serviceId, commands, id, workflowId, now)
      ensures deployments == if r.Ok? then old(deployments)[id := r.value] else old(deployments)
    {
      var run := executor(commands);
      if run.Err? {
        return Err(Internal("deploy execution failed: " + run.error));
      }
      var status := DeployStatus(run.value);
      var output := ToOutput(run.value, []);
      var deployment := Deployment(id, serviceId, status, workflowId, output, now);
      deployments := deployments[id := deployment];
      r := Ok(deployment);
    }
  }
}
