/**
 * `DockerPublish.execute`: the checks on the environment and the arguments, the request they
 * yield, and the fail-fast run of `docker login`, `docker build`, `docker tag` and `docker push`
 * against a runner that stands for `_run_command`.
 */
module Publish {
  import opened Text
  import opened Collections
  import opened PyValue
  import opened Normalize
  import opened References
  import opened Commands

  // ---------------------------------------------------------------- environment and reply

  /**
   * What `execute` asks of the machine it runs on: whether `which("docker")` finds the CLI,
   * `os.path.abspath`, `os.path.isdir`, `os.path.isfile`, and today's UTC date as `%Y%m%d`.
   */
  datatype Host = Host(dockerOnPath: bool, absPath: string -> string, isDir: string -> bool,
                       isFile: string -> bool, today: string)

  /** The tool's answer: a `Response` message, or an exception `execute` lets escape. */
  datatype Reply = Response(message: string) | Raised(exception: string)

  /** `_run_command` as an oracle: the result of the command run after `n` others. */
  type Runner = (nat, Invocation) -> CommandResult

  const DockerMissing := "Docker CLI is not available on this system. Install Docker Desktop or the Docker engine before using this tool."
  const ImageMissing := "The 'image' argument is required (for example: nginx-hls)."
  const PushSkipped := "Push skipped (push=false)"

  // ---------------------------------------------------------------- the request

  /** Everything `execute` derives from its arguments before it runs a command. */
  datatype Request = Request(
    contextPath: string,
    registry: string,
    repository: string,
    primaryTag: string,
    reference: string,
    refs: seq<string>,
    buildCommand: seq<string>,
    push: bool,
    login: Option<Credentials>)

  /** The registry, user and password of `docker login`. */
  datatype Credentials = Credentials(registry: string, user: string, password: string)

  /** The request, or the reply `execute` returns before it runs any command. */
  datatype Admission = Admitted(request: Request) | Refused(reply: Reply)

  /** `os.path.isabs` on POSIX. */
  predicate IsAbs(path: string) {
    StartsWith(path, "/")
  }

  /** `os.path.join(a, b)` on POSIX for a relative `b`: a `/` between them unless `a` is empty or ends with one. */
  function PathJoin(a: string, b: string): (r: string)
    ensures StartsWith(r, a) && EndsWith(r, b) && |a| + |b| <= |r| <= |a| + |b| + 1
    ensures a != "" ==> r[|r| - |b| - 1] == '/'
    ensures a == "" || EndsWith(a, "/") ==> r == a + b
    ensures a != "" && !EndsWith(a, "/") ==> r == a + "/" + b
  {
    if a == "" || EndsWith(a, "/") then a + b else a + "/" + b
  }

  /** Where the Dockerfile is looked for: the path itself when absolute, else under the build context. */
  function DockerfilePath(contextPath: string, dockerfile: string): (r: string)
    ensures IsAbs(dockerfile) ==> r == dockerfile
    ensures !IsAbs(dockerfile) ==> StartsWith(r, contextPath) && EndsWith(r, dockerfile)
    ensures IsAbs(contextPath) ==> IsAbs(r)
  {
    if IsAbs(dockerfile) then dockerfile else PathJoin(contextPath, dockerfile)
  }

  /**
   * The credentials of `docker login`, when a `registry_password` is given: the registry, or
   * `ghcr.io` when it is empty; the registry user, or the username when it is empty; the password.
   */
  function LoginCredentials(registry: string, username: string, registryUser: string, password: Raw)
    : (r: Option<Credentials>)
    ensures r.Some? <==> Truthy(password)
    ensures r.Some? ==> && r.value.registry != ""
                        && (registry != "" ==> r.value.registry == registry)
                        && (registry == "" ==> r.value.registry == "ghcr.io")
                        && (registryUser != "" ==> r.value.user == registryUser)
                        && (registryUser == "" ==> r.value.user == username)
                        && r.value.password == Str(password)
  {
    if Truthy(password) then
      Some(Credentials(if registry != "" then registry else "ghcr.io",
                       if registryUser != "" then registryUser else username,
                       Str(password)))
    else None
  }

  /**
   * The checks of `execute`, in the order it makes them, and the request it builds when all pass.
   */
  function Admit(host: Host, args: Args): (r: Admission)
    ensures !host.dockerOnPath ==> r == Refused(Response(DockerMissing))
    ensures var contextPath := host.absPath(Str(Get(args, "context_path", RStr("."))));
      && (host.dockerOnPath && !host.isDir(contextPath) ==>
            r == Refused(Response("Build context '" + contextPath + "' does not exist or is not a directory.")))
      && (r.Admitted? ==> host.dockerOnPath && host.isDir(contextPath) && r.request.contextPath == contextPath)
    ensures var dockerfile := Get(args, "dockerfile", RNone);
      r.Admitted? && Truthy(dockerfile) ==>
        dockerfile.RStr? && host.isFile(DockerfilePath(r.request.contextPath, dockerfile.s))
    ensures r.Admitted? ==> r.request.reference == ImageReference(r.request.repository, r.request.primaryTag)
    ensures r.Refused? && r.reply.Raised? ==> r.reply == Raised("TypeError") && Truthy(Get(args, "dockerfile", RNone))
    ensures var contextPath := host.absPath(Str(Get(args, "context_path", RStr("."))));
      var dockerfile := Get(args, "dockerfile", RNone);
      host.dockerOnPath && host.isDir(contextPath) ==>
        && (Truthy(dockerfile) && !dockerfile.RStr? ==> r == Refused(Raised("TypeError")))
        && (Truthy(dockerfile) && dockerfile.RStr? && !host.isFile(DockerfilePath(contextPath, dockerfile.s)) ==>
              r == Refused(Response("Dockerfile '" + DockerfilePath(contextPath, dockerfile.s) + "' was not found.")))
        && ((Truthy(dockerfile) ==> dockerfile.RStr? && host.isFile(DockerfilePath(contextPath, dockerfile.s))) ==>
              r == Derive(host, args, contextPath, dockerfile))
  {
    var contextPath := host.absPath(Str(Get(args, "context_path", RStr("."))));
    var dockerfile := Get(args, "dockerfile", RNone);
    if !host.dockerOnPath then Refused(Response(DockerMissing))
    else if !host.isDir(contextPath) then
      Refused(Response("Build context '" + contextPath + "' does not exist or is not a directory."))
    else if Truthy(dockerfile) && !dockerfile.RStr? then Refused(Raised("TypeError"))
    else if Truthy(dockerfile) && !host.isFile(DockerfilePath(contextPath, dockerfile.s)) then
      Refused(Response("Dockerfile '" + DockerfilePath(contextPath, dockerfile.s) + "' was not found."))
    else Derive(host, args, contextPath, dockerfile)
  }

  /**
   * The rest of the checks of `execute`, the image name, and the request derived from the
   * arguments: the repository, the tags and references, the build command, the push flag and the
   * login.
   */
  function Derive(host: Host, args: Args, contextPath: string, dockerfile: Raw): (r: Admission)
    requires Truthy(dockerfile) ==> dockerfile.RStr?
    ensures r.Refused? <==> CleanPathSegment(Get(args, "image", RNone)) == ""
    ensures r.Refused? ==> r == Refused(Response(ImageMissing))
    ensures r.Admitted? ==> && r.request.contextPath == contextPath
                            && r.request.reference == ImageReference(r.request.repository, r.request.primaryTag)
    ensures r.Admitted? ==>
      var req := r.request;
      var username := CleanPathSegment(Get(args, "username", RStr("bkhieb")));
      && req.registry == CleanPathSegment(Get(args, "registry", RStr("ghcr.io")))
      && req.repository == Repository(req.registry, username, CleanPathSegment(Get(args, "project", RStr("trailherotv"))),
                                      CleanPathSegment(Get(args, "image", RNone)))
      && req.primaryTag == PrimaryTag(Get(args, "tag", RNone), Get(args, "date", RStr(host.today)),
                                      Get(args, "iteration", RInt(1)))
      && req.refs == ExpandTags(AdditionalTags(Get(args, "additional_tags", RNone), Get(args, "tag_latest", RBool(false))),
                                req.repository, req.registry)
      && req.push == ToBool(Get(args, "push", RBool(true)), true)
      && req.login == LoginCredentials(req.registry, username,
                                       CleanPathSegment(Get(args, "registry_username",
                                                            if username != "" then RStr(username) else RNone)),
                                       Get(args, "registry_password", RNone))
      && req.buildCommand == BuildArgv(req.reference, if Truthy(dockerfile) then Some(dockerfile.s) else None,
                                       KvPairs(Get(args, "build_args", RNone)), KvPairs(Get(args, "labels", RNone)),
                                       if Truthy(Get(args, "target", RNone)) then Some(Str(Get(args, "target", RNone))) else None,
                                       NormalizeCollection(Get(args, "platforms", RNone)))
  {
    var registry := CleanPathSegment(Get(args, "registry", RStr("ghcr.io")));
    var username := CleanPathSegment(Get(args, "username", RStr("bkhieb")));
    var project := CleanPathSegment(Get(args, "project", RStr("trailherotv")));
    var image := CleanPathSegment(Get(args, "image", RNone));
    if image == "" then Refused(Response(ImageMissing))
    else
      var repository := Repository(registry, username, project, image);
      var primaryTag := PrimaryTag(Get(args, "tag", RNone), Get(args, "date", RStr(host.today)),
                                   Get(args, "iteration", RInt(1)));
      var tags := AdditionalTags(Get(args, "additional_tags", RNone), Get(args, "tag_latest", RBool(false)));
      var target := Get(args, "target", RNone);
      var registryUser := CleanPathSegment(Get(args, "registry_username",
                                               if username != "" then RStr(username) else RNone));
      var reference := ImageReference(repository, primaryTag);
      Admitted(Request(
        contextPath,
        registry,
        repository,
        primaryTag,
        reference,
        ExpandTags(tags, repository, registry),
        BuildArgv(reference, if Truthy(dockerfile) then Some(dockerfile.s) else None,
                  KvPairs(Get(args, "build_args", RNone)), KvPairs(Get(args, "labels", RNone)),
                  if Truthy(target) then Some(Str(target)) else None,
                  NormalizeCollection(Get(args, "platforms", RNone))),
        ToBool(Get(args, "push", RBool(true)), true),
        LoginCredentials(registry, username, registryUser, Get(args, "registry_password", RNone))))
  }

  /** Without an image name nothing is built: once the environment checks pass, the call is refused. */
  lemma ImageRequired(host: Host, args: Args)
    requires host.dockerOnPath && host.isDir(host.absPath(Str(Get(args, "context_path", RStr(".")))))
    requires var dockerfile := Get(args, "dockerfile", RNone);
      Truthy(dockerfile) ==>
        dockerfile.RStr? && host.isFile(DockerfilePath(host.absPath(Str(Get(args, "context_path", RStr(".")))), dockerfile.s))
    requires CleanPathSegment(Get(args, "image", RNone)) == ""
    ensures Admit(host, args) == Refused(Response(ImageMissing))
  {
  }

  /**
   * With only an image name given, the defaults apply: the image goes under `ghcr.io/bkhieb/trailherotv`,
   * the tag is today's date with iteration `1`, there are no additional references, the image is
   * pushed, and there is no login.
   */
  lemma DefaultRequest(host: Host, image: string)
    requires host.dockerOnPath && host.isDir(host.absPath("."))
    requires image != "" && Trimmed(image, Whitespace) && Trimmed(image, {'/'})
    ensures var r := Admit(host, map["image" := RStr(image)]);
      && r.Admitted?
      && r.request.repository == "ghcr.io/bkhieb/trailherotv/" + image
      && r.request.primaryTag == Strip(host.today) + "-1"
      && r.request.refs == []
      && r.request.push
      && r.request.login == None
  {
    var args := map["image" := RStr(image)];
    OnlyImage(image, host.today);
    assert Admit(host, args) == Derive(host, args, host.absPath("."), RNone);
    CleanPathSegmentKeeps(image);
    DeriveDefaults(host, args, host.absPath("."), image);
  }

  /** `Derive` on arguments that leave every setting at its default but the image. */
  lemma DeriveDefaults(host: Host, args: Args, contextPath: string, image: string)
    requires image != "" && CleanPathSegment(Get(args, "image", RNone)) == image
    requires && Get(args, "registry", RStr("ghcr.io")) == RStr("ghcr.io")
             && Get(args, "username", RStr("bkhieb")) == RStr("bkhieb")
             && Get(args, "project", RStr("trailherotv")) == RStr("trailherotv")
             && Get(args, "tag", RNone) == RNone
             && Get(args, "date", RStr(host.today)) == RStr(host.today)
             && Get(args, "iteration", RInt(1)) == RInt(1)
             && Get(args, "additional_tags", RNone) == RNone
             && Get(args, "tag_latest", RBool(false)) == RBool(false)
             && Get(args, "push", RBool(true)) == RBool(true)
             && Get(args, "registry_password", RNone) == RNone
    ensures var r := Derive(host, args, contextPath, RNone);
      && r.Admitted?
      && r.request.repository == "ghcr.io/bkhieb/trailherotv/" + image
      && r.request.primaryTag == Strip(host.today) + "-1"
      && r.request.refs == []
      && r.request.push
      && r.request.login == None
  {
    DefaultNames(host, args, contextPath, image);
    DefaultRun(host, args, contextPath, image);
  }

  lemma DefaultNames(host: Host, args: Args, contextPath: string, image: string)
    requires image != "" && CleanPathSegment(Get(args, "image", RNone)) == image
    requires && Get(args, "registry", RStr("ghcr.io")) == RStr("ghcr.io")
             && Get(args, "username", RStr("bkhieb")) == RStr("bkhieb")
             && Get(args, "project", RStr("trailherotv")) == RStr("trailherotv")
             && Get(args, "tag", RNone) == RNone
             && Get(args, "date", RStr(host.today)) == RStr(host.today)
             && Get(args, "iteration", RInt(1)) == RInt(1)
    ensures var r := Derive(host, args, contextPath, RNone);
      && r.Admitted?
      && r.request.registry == "ghcr.io"
      && r.request.repository == "ghcr.io/bkhieb/trailherotv/" + image
      && r.request.primaryTag == Strip(host.today) + "-1"
  {
    DefaultSegments();
    DefaultRepository(image);
    PrimaryTagDefault(host.today);
  }

  lemma DefaultRun(host: Host, args: Args, contextPath: string, image: string)
    requires image != "" && CleanPathSegment(Get(args, "image", RNone)) == image
    requires && Get(args, "additional_tags", RNone) == RNone
             && Get(args, "tag_latest", RBool(false)) == RBool(false)
             && Get(args, "push", RBool(true)) == RBool(true)
             && Get(args, "registry_password", RNone) == RNone
    ensures var r := Derive(host, args, contextPath, RNone);
      && r.Admitted? && r.request.refs == [] && r.request.push && r.request.login == None
  {
    assert AdditionalTags(RNone, RBool(false)) == [];
  }

  /** The arguments `{"image": image}`: every other argument takes its default. */
  lemma OnlyImage(image: string, today: string)
    ensures var args := map["image" := RStr(image)];
      && Get(args, "context_path", RStr(".")) == RStr(".") && Get(args, "dockerfile", RNone) == RNone
      && Get(args, "registry", RStr("ghcr.io")) == RStr("ghcr.io")
      && Get(args, "username", RStr("bkhieb")) == RStr("bkhieb")
      && Get(args, "project", RStr("trailherotv")) == RStr("trailherotv")
      && Get(args, "image", RNone) == RStr(image)
      && Get(args, "tag", RNone) == RNone
      && Get(args, "date", RStr(today)) == RStr(today)
      && Get(args, "iteration", RInt(1)) == RInt(1)
      && Get(args, "additional_tags", RNone) == RNone
      && Get(args, "tag_latest", RBool(false)) == RBool(false)
      && Get(args, "push", RBool(true)) == RBool(true)
      && Get(args, "registry_password", RNone) == RNone
  {
  }

  /**
   * What an admitted request holds: a repository ending with the non-empty image name, a reference
   * that starts with it, additional references that are all full references, a `docker build`
   * command for the reference that ends with the context `.`, and a login exactly when a password
   * is given, against a non-empty registry. Its fields are those `Derive` gives for the arguments.
   */
  lemma AdmittedRequest(host: Host, args: Args)
    requires Admit(host, args).Admitted?
    ensures var req := Admit(host, args).request;
      var image := CleanPathSegment(Get(args, "image", RNone));
      && image != "" && EndsWith(req.repository, image) && StartsWith(req.reference, req.repository)
      && (forall ref :: ref in req.refs ==> ':' in ref || (req.registry != "" && StartsWith(ref, req.registry)))
      && |req.buildCommand| >= 5 && req.buildCommand[..4] == ["docker", "build", "-t", req.reference]
      && req.buildCommand[|req.buildCommand| - 1] == "."
      && (req.login.Some? <==> Truthy(Get(args, "registry_password", RNone)))
      && (req.login.Some? ==> req.login.value.registry != "")
    ensures Admit(host, args) == Derive(host, args, host.absPath(Str(Get(args, "context_path", RStr(".")))), Get(args, "dockerfile", RNone))
  {
    var contextPath := host.absPath(Str(Get(args, "context_path", RStr("."))));
    var dockerfile := Get(args, "dockerfile", RNone);
    assert Admit(host, args) == Derive(host, args, contextPath, dockerfile);
    DerivedNames(host, args, contextPath, dockerfile);
    DerivedRefs(host, args, contextPath, dockerfile);
  }

  lemma DerivedNames(host: Host, args: Args, contextPath: string, dockerfile: Raw)
    requires Truthy(dockerfile) ==> dockerfile.RStr?
    requires Derive(host, args, contextPath, dockerfile).Admitted?
    ensures var req := Derive(host, args, contextPath, dockerfile).request;
      var image := CleanPathSegment(Get(args, "image", RNone));
      && image != "" && EndsWith(req.repository, image) && StartsWith(req.reference, req.repository)
      && |req.buildCommand| >= 5 && req.buildCommand[..4] == ["docker", "build", "-t", req.reference]
      && req.buildCommand[|req.buildCommand| - 1] == "."
      && (req.login.Some? <==> Truthy(Get(args, "registry_password", RNone)))
      && (req.login.Some? ==> req.login.value.registry != "")
  {
    var registry := CleanPathSegment(Get(args, "registry", RStr("ghcr.io")));
    var username := CleanPathSegment(Get(args, "username", RStr("bkhieb")));
    var project := CleanPathSegment(Get(args, "project", RStr("trailherotv")));
    var image := CleanPathSegment(Get(args, "image", RNone));
    RepositoryEndsWithImage(registry, username, project, image);
  }

  lemma DerivedRefs(host: Host, args: Args, contextPath: string, dockerfile: Raw)
    requires Truthy(dockerfile) ==> dockerfile.RStr?
    requires Derive(host, args, contextPath, dockerfile).Admitted?
    ensures var req := Derive(host, args, contextPath, dockerfile).request;
      forall ref :: ref in req.refs ==> ':' in ref || (req.registry != "" && StartsWith(ref, req.registry))
  {
    var req := Derive(host, args, contextPath, dockerfile).request;
    var tags := AdditionalTags(Get(args, "additional_tags", RNone), Get(args, "tag_latest", RBool(false)));
    assert req.refs == ExpandTags(tags, req.repository, req.registry);
    forall ref | ref in req.refs
      ensures ':' in ref || (req.registry != "" && StartsWith(ref, req.registry))
    {
      ExpandTagsFrom(tags, req.repository, req.registry, ref);
    }
  }

  /** The first part of `execute`: the checks with their early replies, then the request. */
  method Prepare(host: Host, args: Args) returns (admission: Admission)
    ensures admission == Admit(host, args)
  {
    if !host.dockerOnPath {
      return Refused(Response(DockerMissing));
    }
    var contextPath := host.absPath(Str(Get(args, "context_path", RStr("."))));
    if !host.isDir(contextPath) {
      return Refused(Response("Build context '" + contextPath + "' does not exist or is not a directory."));
    }
    var dockerfile := Get(args, "dockerfile", RNone);
    if Truthy(dockerfile) {
      if !dockerfile.RStr? {
        return Refused(Raised("TypeError"));
      }
      var dockerfilePath := dockerfile.s;
      if !IsAbs(dockerfilePath) {
        dockerfilePath := PathJoin(contextPath, dockerfilePath);
      }
      if !host.isFile(dockerfilePath) {
        return Refused(Response("Dockerfile '" + dockerfilePath + "' was not found."));
      }
    }
    admission := DeriveRequest(host, args, contextPath, dockerfile);
  }

  /** The part of `execute` from the image check to the last setting it reads, before any command. */
  method DeriveRequest(host: Host, args: Args, contextPath: string, dockerfile: Raw) returns (admission: Admission)
    requires Truthy(dockerfile) ==> dockerfile.RStr?
    ensures admission == Derive(host, args, contextPath, dockerfile)
  {
    var registry := CleanPathSegment(Get(args, "registry", RStr("ghcr.io")));
    var username := CleanPathSegment(Get(args, "username", RStr("bkhieb")));
    var project := CleanPathSegment(Get(args, "project", RStr("trailherotv")));
    var image := CleanPathSegment(Get(args, "image", RNone));
    if image == "" {
      return Refused(Response(ImageMissing));
    }
    var repository := Repository(registry, username, project, image);
    var primaryTag := PrimaryTag(Get(args, "tag", RNone), Get(args, "date", RStr(host.today)),
                                 Get(args, "iteration", RInt(1)));
    var reference := ImageReference(repository, primaryTag);
    var tags := AdditionalTags(Get(args, "additional_tags", RNone), Get(args, "tag_latest", RBool(false)));
    var refs := NormalizeAdditionalRefs(tags, repository, registry);

    var buildArgs := NormalizeKvPairs(Get(args, "build_args", RNone));
    var labels := NormalizeKvPairs(Get(args, "labels", RNone));
    var target := Get(args, "target", RNone);
    var platforms := NormalizeCollection(Get(args, "platforms", RNone));
    var push := ToBool(Get(args, "push", RBool(true)), true);
    var password := Get(args, "registry_password", RNone);
    var registryUser := CleanPathSegment(Get(args, "registry_username",
                                             if username != "" then RStr(username) else RNone));
    var buildCommand := BuildCommand(reference, if Truthy(dockerfile) then Some(dockerfile.s) else None,
                                     buildArgs, labels, if Truthy(target) then Some(Str(target)) else None,
                                     platforms);
    return Admitted(Request(contextPath, registry, repository, primaryTag, reference, refs, buildCommand,
                            push, LoginCredentials(registry, username, registryUser, password)));
  }

  // ---------------------------------------------------------------- the planned commands

  /** `docker tag source ref` for every reference, in order. */
  function TagSteps(source: string, refs: seq<string>): (r: seq<Step>)
    ensures |r| == |refs| && forall i :: 0 <= i < |refs| ==> r[i] == Tag(source, refs[i])
    decreases |refs|
  {
    if refs == [] then [] else TagSteps(source, refs[..|refs| - 1]) + [Tag(source, refs[|refs| - 1])]
  }

  /** `docker push ref` for every reference, in order. */
  function PushSteps(refs: seq<string>): (r: seq<Step>)
    ensures |r| == |refs| && forall i :: 0 <= i < |refs| ==> r[i] == Push(refs[i])
    decreases |refs|
  {
    if refs == [] then [] else PushSteps(refs[..|refs| - 1]) + [Push(refs[|refs| - 1])]
  }

  function LoginOf(c: Credentials): Step {
    Login(c.registry, c.user, c.password)
  }

  function LoginSteps(req: Request): seq<Step> {
    if req.login.Some? then [LoginOf(req.login.value)] else []
  }

  function BuildStep(req: Request): Step {
    Build(req.buildCommand)
  }

  /** The commands before any push: the optional login, the build, one tag per additional reference. */
  function Head(req: Request): seq<Step> {
    LoginSteps(req) + [BuildStep(req)] + TagSteps(req.reference, req.refs)
  }

  /** `references_to_push` with the repeated references skipped. */
  function PushList(req: Request): (r: seq<string>)
    ensures r != [] && r[0] == req.reference && Distinct(r)
    ensures forall x :: x in r <==> x == req.reference || x in req.refs
  {
    var all := [req.reference] + req.refs;
    DedupSpec(all);
    DedupSameElements(all);
    DedupHead(all);
    assert forall x :: x in all <==> x == req.reference || x in req.refs;
    Dedup(all)
  }

  /** Every command `execute` runs when none fails: the head, then the pushes only when pushing. */
  function Planned(req: Request): (r: seq<Step>)
    ensures |r| == |Head(req)| + (if req.push then |PushList(req)| else 0)
    ensures r[..|Head(req)|] == Head(req)
  {
    Head(req) + (if req.push then PushSteps(PushList(req)) else [])
  }

  /**
   * The plan command by command: the login when there are credentials, the build, one tag per
   * additional reference in order, then, when pushing, one push per distinct reference, the primary
   * first.
   */
  lemma PlannedShape(req: Request)
    ensures var r, n := Planned(req), |LoginSteps(req)|;
      && |r| == n + 1 + |req.refs| + (if req.push then |PushList(req)| else 0)
      && (req.login.Some? ==> n == 1 && r[0] == LoginOf(req.login.value))
      && (req.login.None? ==> n == 0)
      && r[n] == Build(req.buildCommand)
      && (forall i :: 0 <= i < |req.refs| ==> r[n + 1 + i] == Tag(req.reference, req.refs[i]))
      && (req.push ==> forall i :: 0 <= i < |PushList(req)| ==>
            r[n + 1 + |req.refs| + i] == Push(PushList(req)[i]))
  {
    PlannedHead(req);
    PlannedPushes(req);
  }

  lemma PlannedHead(req: Request)
    ensures var r, n := Planned(req), |LoginSteps(req)|;
      && |Head(req)| == n + 1 + |req.refs| && n + 1 + |req.refs| <= |r|
      && (req.login.Some? ==> n == 1 && r[0] == LoginOf(req.login.value))
      && (req.login.None? ==> n == 0)
      && r[n] == Build(req.buildCommand)
      && (forall i :: 0 <= i < |req.refs| ==> r[n + 1 + i] == Tag(req.reference, req.refs[i]))
  {
    var r, n := Planned(req), |LoginSteps(req)|;
    var head := Head(req);
    assert head == LoginSteps(req) + [BuildStep(req)] + TagSteps(req.reference, req.refs);
    assert r[n] == head[n];
    forall i | 0 <= i < |req.refs|
      ensures r[n + 1 + i] == Tag(req.reference, req.refs[i])
    {
      assert r[n + 1 + i] == head[n + 1 + i];
    }
  }

  lemma PlannedPushes(req: Request)
    ensures var r, h := Planned(req), |Head(req)|;
      req.push ==> forall i :: 0 <= i < |PushList(req)| ==> r[h + i] == Push(PushList(req)[i])
  {
    var r, h := Planned(req), |Head(req)|;
    if req.push {
      var pushes := PushSteps(PushList(req));
      assert r == Head(req) + pushes;
      forall i | 0 <= i < |PushList(req)|
        ensures r[h + i] == Push(PushList(req)[i])
      {
        assert r[h + i] == pushes[i];
      }
    }
  }

  // ---------------------------------------------------------------- running the commands

  /** Whether the `k`-th command run, `step`, exits with code 0. */
  predicate Succeeded(runner: Runner, cwd: string, k: nat, step: Step) {
    runner(k, Invoke(step, cwd)).code == 0
  }

  /** The log entry of the `k`-th command run. */
  function Entry(runner: Runner, cwd: string, k: nat, step: Step): string {
    FormatResult(Label(step), runner(k, Invoke(step, cwd)))
  }

  predicate AllSucceeded(attempted: seq<Step>, runner: Runner, cwd: string) {
    forall k :: 0 <= k < |attempted| ==> Succeeded(runner, cwd, k, attempted[k])
  }

  /** `steps_output` holds one entry per command run, in the order they ran. */
  predicate Logged(attempted: seq<Step>, log: seq<string>, runner: Runner, cwd: string) {
    |log| == |attempted| && forall k :: 0 <= k < |attempted| ==> log[k] == Entry(runner, cwd, k, attempted[k])
  }

  /**
   * The commands run are the planned ones up to and including the first that fails: every one but
   * the last succeeded, and the run stopped early only because the last one failed.
   */
  predicate FailFast(attempted: seq<Step>, planned: seq<Step>, runner: Runner, cwd: string) {
    && |attempted| <= |planned| && attempted == planned[..|attempted|]
    && (forall k :: 0 <= k < |attempted| - 1 ==> Succeeded(runner, cwd, k, attempted[k]))
    && (|attempted| < |planned| ==>
          |attempted| > 0 && !Succeeded(runner, cwd, |attempted| - 1, attempted[|attempted| - 1]))
  }

  /** Every planned command ran and succeeded. */
  predicate Completed(attempted: seq<Step>, planned: seq<Step>, runner: Runner, cwd: string) {
    attempted == planned && AllSucceeded(attempted, runner, cwd)
  }

  /** The lines of the summary put in front of the log of a complete run. */
  function SummaryLines(req: Request): (lines: seq<string>)
    ensures |lines| == 2 + (if req.refs != [] then 1 else 0) + (if req.push then 0 else 1)
    ensures lines[0] == "Repository: " + req.repository && lines[1] == "Primary tag: " + req.primaryTag
    ensures req.refs != [] ==> lines[2] == "Additional tags: " + Join(", ", req.refs)
    ensures req.refs != [] <==> "Additional tags: " + Join(", ", req.refs) in lines
    ensures !req.push <==> lines[|lines| - 1] == PushSkipped
  {
    var tagLine := if req.refs != [] then ["Additional tags: " + Join(", ", req.refs)] else [];
    var pushLine := if !req.push then [PushSkipped] else [];
    var lines := ["Repository: " + req.repository, "Primary tag: " + req.primaryTag] + tagLine + pushLine;
    assert "Additional tags: " + Join(", ", req.refs) != "Repository: " + req.repository by {
      assert ("Additional tags: " + Join(", ", req.refs))[0] == 'A';
    }
    assert "Additional tags: " + Join(", ", req.refs) != "Primary tag: " + req.primaryTag by {
      assert ("Additional tags: " + Join(", ", req.refs))[0] == 'A';
    }
    assert "Additional tags: " + Join(", ", req.refs) != PushSkipped by {
      assert ("Additional tags: " + Join(", ", req.refs))[0] == 'A';
    }
    assert "Repository: " + req.repository != PushSkipped by {
      assert ("Repository: " + req.repository)[0] == 'R';
    }
    assert "Primary tag: " + req.primaryTag != PushSkipped by {
      assert ("Primary tag: " + req.primaryTag)[1] == 'r' && PushSkipped[1] == 'u';
    }
    lines
  }

  /** The message of a run: the summary and the log when it completed, the log alone otherwise. */
  function Message(req: Request, attempted: seq<Step>, log: seq<string>, runner: Runner): (r: string)
    ensures Completed(attempted, Planned(req), runner, req.contextPath) ==>
      r == Join("\n", SummaryLines(req)) + (if log == [] then "" else "\n\n" + Join("\n\n", log))
    ensures !Completed(attempted, Planned(req), runner, req.contextPath) ==> r == Join("\n\n", log)
  {
    if Completed(attempted, Planned(req), runner, req.contextPath) then
      JoinFront("\n\n", Join("\n", SummaryLines(req)), log);
      Join("\n\n", [Join("\n", SummaryLines(req))] + log)
    else Join("\n\n", log)
  }

  /** Every log entry starts with its header, so none is empty. */
  lemma EntryNotEmpty(runner: Runner, cwd: string, k: nat, step: Step)
    ensures Entry(runner, cwd, k, step) != ""
  {
    var result := runner(k, Invoke(step, cwd));
    assert |Header(Label(step), result.code)| > 0;
  }

  lemma AllSucceededStep(attempted: seq<Step>, step: Step, runner: Runner, cwd: string)
    requires AllSucceeded(attempted, runner, cwd) && Succeeded(runner, cwd, |attempted|, step)
    ensures AllSucceeded(attempted + [step], runner, cwd)
  {
    assert forall k :: 0 <= k < |attempted| ==> (attempted + [step])[k] == attempted[k];
  }

  /** Runs one command: it joins the commands run, its entry joins the log, and its success is reported. */
  method Attempt(runner: Runner, cwd: string, attempted: seq<Step>, log: seq<string>, step: Step)
    returns (ok: bool, attempted': seq<Step>, log': seq<string>)
    requires Logged(attempted, log, runner, cwd)
    ensures attempted' == attempted + [step] && Logged(attempted', log', runner, cwd)
    ensures ok <==> Succeeded(runner, cwd, |attempted|, step)
    ensures AllSucceeded(attempted, runner, cwd) && ok ==> AllSucceeded(attempted', runner, cwd)
  {
    var result := runner(|attempted|, Invoke(step, cwd));
    attempted' := attempted + [step];
    var entry := FormatResult(Label(step), result);
    assert entry == Entry(runner, cwd, |attempted|, step);
    log' := log + [entry];
    ok := result.code == 0;
    if ok && AllSucceeded(attempted, runner, cwd) {
      AllSucceededStep(attempted, step, runner, cwd);
    }
    forall k | 0 <= k < |attempted'|
      ensures log'[k] == Entry(runner, cwd, k, attempted'[k])
    {
      if k < |attempted| {
        assert log'[k] == log[k] && attempted'[k] == attempted[k];
      } else {
        assert k == |attempted| && log'[k] == entry && attempted'[k] == step;
      }
    }
  }

  /** The text `execute` would fall back to after a failed command if the log were empty. */
  function Fallback(step: Step): string {
    match step
    case Login(_, _, _) => "Docker login failed."
    case Build(_) => "Docker build failed."
    case Tag(_, target) => "Failed to tag image as " + target + "."
    case Push(ref) => "Failed to push " + ref + "."
  }

  /**
   * The reply after a failed command, `"\n\n".join(steps_output) or fallback`: the log holds at
   * least the failed command's entry, so the fallback text is never the message.
   */
  method FailureReply(runner: Runner, cwd: string, attempted: seq<Step>, log: seq<string>)
    returns (reply: Reply)
    requires attempted != [] && Logged(attempted, log, runner, cwd)
    ensures reply == Response(Join("\n\n", log))
  {
    var message := Join("\n\n", log);
    var fallback := Fallback(attempted[|attempted| - 1]);
    EntryNotEmpty(runner, cwd, 0, attempted[0]);
    JoinNonEmpty("\n\n", log);
    if message == "" {
      message := fallback;
    }
    reply := Response(message);
  }

  /** A command that fails after successful ones, in the planned order, ends a fail-fast run that is not complete. */
  lemma StoppedAfter(prev: seq<Step>, step: Step, planned: seq<Step>, runner: Runner, cwd: string)
    requires |prev| < |planned| && prev + [step] == planned[..|prev| + 1]
    requires AllSucceeded(prev, runner, cwd) && !Succeeded(runner, cwd, |prev|, step)
    ensures FailFast(prev + [step], planned, runner, cwd) && !Completed(prev + [step], planned, runner, cwd)
  {
    var a := prev + [step];
    assert forall k :: 0 <= k < |a| - 1 ==> a[k] == prev[k];
    assert !Succeeded(runner, cwd, |a| - 1, a[|a| - 1]);
  }

  /**
   * After `base`, the commands run are a non-empty prefix of `steps`, all of them successful but
   * the last.
   */
  predicate StoppedWithin(base: seq<Step>, attempted: seq<Step>, steps: seq<Step>, runner: Runner, cwd: string) {
    && |base| < |attempted| <= |base| + |steps|
    && attempted == base + steps[..|attempted| - |base|]
    && AllSucceeded(attempted[..|attempted| - 1], runner, cwd)
    && !Succeeded(runner, cwd, |attempted| - 1, attempted[|attempted| - 1])
  }

  lemma StoppedWithinStep(base: seq<Step>, prev: seq<Step>, step: Step, steps: seq<Step>, runner: Runner, cwd: string)
    requires |base| <= |prev| && |prev| - |base| < |steps| && prev + [step] == base + steps[..|prev| - |base| + 1]
    requires AllSucceeded(prev, runner, cwd) && !Succeeded(runner, cwd, |prev|, step)
    ensures StoppedWithin(base, prev + [step], steps, runner, cwd)
  {
    assert (prev + [step])[..|prev|] == prev;
  }

  /** A run that stopped within the steps after a prefix of the plan is fail-fast and not complete. */
  lemma StoppedWithinPlan(head: seq<Step>, attempted: seq<Step>, steps: seq<Step>, planned: seq<Step>,
                          runner: Runner, cwd: string)
    requires planned == head + steps && StoppedWithin(head, attempted, steps, runner, cwd)
    ensures FailFast(attempted, planned, runner, cwd) && !Completed(attempted, planned, runner, cwd)
  {
    var n := |attempted|;
    PrefixOfConcat(head, steps, n - |head|);
    assert forall k :: 0 <= k < n - 1 ==> attempted[k] == attempted[..n - 1][k];
  }

  lemma PrefixOfConcat<T>(a: seq<T>, b: seq<T>, m: nat)
    requires m <= |b|
    ensures (a + b)[..|a| + m] == a + b[..m]
  {
  }

  lemma TagStepsPrefix(source: string, refs: seq<string>, i: nat)
    requires i <= |refs|
    ensures TagSteps(source, refs)[..i] == TagSteps(source, refs[..i])
  {
  }

  lemma PushStepsPrefix(refs: seq<string>, m: nat)
    requires m <= |refs|
    ensures PushSteps(refs)[..m] == PushSteps(refs[..m])
  {
  }

  /** The plan starts with the login, when there is one. */
  lemma PlanThroughLogin(req: Request)
    ensures |LoginSteps(req)| < |Planned(req)| && Planned(req)[..|LoginSteps(req)|] == LoginSteps(req)
  {
    var l, rest := LoginSteps(req), [BuildStep(req)] + TagSteps(req.reference, req.refs);
    var pushes := if req.push then PushSteps(PushList(req)) else [];
    assert Head(req) == l + rest;
    TakeFront(Head(req), pushes, |l|);
    TakeFront(l, rest, |l|);
  }

  lemma TakeFront<T>(a: seq<T>, b: seq<T>, n: nat)
    requires n <= |a|
    ensures (a + b)[..n] == a[..n]
  {
  }

  /** The plan goes on with the build and then the tags, in the order of the references. */
  lemma PlanThroughTag(req: Request, i: nat)
    requires i <= |req.refs|
    ensures var n := |LoginSteps(req)| + 1 + i;
      n <= |Planned(req)| && Planned(req)[..n] == LoginSteps(req) + [BuildStep(req)] + TagSteps(req.reference, req.refs[..i])
  {
    var n := |LoginSteps(req)| + 1 + i;
    var pre := LoginSteps(req) + [BuildStep(req)];
    PrefixOfConcat(pre, TagSteps(req.reference, req.refs), i);
    TagStepsPrefix(req.reference, req.refs, i);
    var pushes := if req.push then PushSteps(PushList(req)) else [];
    assert Planned(req)[..n] == Head(req)[..n];
  }

  /** A plan that ends with pushes holds, after its head, the pushes of a prefix of the references. */
  lemma PushesThrough(plan: seq<Step>, head: seq<Step>, list: seq<string>, k: nat)
    requires plan == head + PushSteps(list) && k <= |list|
    ensures |head| + k <= |plan|
    ensures plan[..|head| + k] == head + PushSteps(list[..k])
  {
    PushStepsPrefix(list, k);
    PrefixOfConcat(head, PushSteps(list), k);
  }

  lemma PlannedWithPush(req: Request)
    requires req.push
    ensures Planned(req) == Head(req) + PushSteps(PushList(req))
  {
  }

  lemma PushStepsStep(a: seq<Step>, refs: seq<string>, ref: string)
    ensures a + PushSteps(refs + [ref]) == a + PushSteps(refs) + [Push(ref)]
  {
    assert (refs + [ref])[..|refs|] == refs;
  }

  lemma TagStepsStep(a: seq<Step>, source: string, refs: seq<string>, ref: string)
    ensures a + TagSteps(source, refs + [ref]) == a + TagSteps(source, refs) + [Tag(source, ref)]
  {
    assert (refs + [ref])[..|refs|] == refs;
  }

  /**
   * The second part of `execute`: the login when a password is given, the build, one tag per
   * additional reference and, when pushing, one push per distinct reference, stopping at the first
   * command that fails; then the reply.
   */
  method RunSteps(req: Request, runner: Runner) returns (reply: Reply, attempted: seq<Step>, log: seq<string>)
    ensures FailFast(attempted, Planned(req), runner, req.contextPath)
    ensures Logged(attempted, log, runner, req.contextPath)
    ensures reply == Response(Message(req, attempted, log, runner))
  {
    var cwd := req.contextPath;
    var ok: bool;
    ok, attempted, log := RunBuild(req, runner);
    if ok {
      var tagged;
      ok, attempted, log, tagged := RunTags(req, runner, attempted, log);
      if ok && req.push {
        ghost var head := attempted;
        ok, attempted, log := RunPushes(runner, cwd, attempted, log, [req.reference] + tagged);
        PlannedWithPush(req);
        if !ok {
          StoppedWithinPlan(head, attempted, PushSteps(PushList(req)), Planned(req), runner, cwd);
        }
      } else if ok {
        PlannedWithoutPush(req);
      }
    }
    if !ok {
      reply := FailureReply(runner, cwd, attempted, log);
      FailedMessage(req, attempted, log, runner);
    } else {
      var summary := Summary(req);
      reply := Response(Join("\n\n", [summary] + log));
      CompletedMessage(req, attempted, log, runner);
    }
  }

  lemma FailedMessage(req: Request, attempted: seq<Step>, log: seq<string>, runner: Runner)
    requires !Completed(attempted, Planned(req), runner, req.contextPath)
    ensures Message(req, attempted, log, runner) == Join("\n\n", log)
  {
  }

  lemma CompletedMessage(req: Request, attempted: seq<Step>, log: seq<string>, runner: Runner)
    requires attempted == Planned(req) && AllSucceeded(attempted, runner, req.contextPath)
    ensures FailFast(attempted, Planned(req), runner, req.contextPath)
    ensures Message(req, attempted, log, runner) == Join("\n\n", [Join("\n", SummaryLines(req))] + log)
  {
  }

  lemma PlannedWithoutPush(req: Request)
    requires !req.push
    ensures Planned(req) == Head(req)
  {
  }

  /** The login, when a password is given, and the build: the first commands of a run. */
  method RunBuild(req: Request, runner: Runner) returns (ok: bool, attempted: seq<Step>, log: seq<string>)
    ensures Logged(attempted, log, runner, req.contextPath)
    ensures ok ==> attempted == LoginSteps(req) + [BuildStep(req)] && AllSucceeded(attempted, runner, req.contextPath)
    ensures !ok ==> && attempted != []
                    && FailFast(attempted, Planned(req), runner, req.contextPath)
                    && !Completed(attempted, Planned(req), runner, req.contextPath)
  {
    var cwd := req.contextPath;
    attempted, log := [], [];
    PlanThroughLogin(req);
    PlanThroughTag(req, 0);
    if req.login.Some? {
      ok, attempted, log := Attempt(runner, cwd, attempted, log, LoginOf(req.login.value));
      if !ok {
        StoppedAfter([], LoginOf(req.login.value), Planned(req), runner, cwd);
        return;
      }
    }
    ghost var prev := attempted;
    ok, attempted, log := Attempt(runner, cwd, attempted, log, Build(req.buildCommand));
    if !ok {
      StoppedAfter(prev, Build(req.buildCommand), Planned(req), runner, cwd);
    }
  }

  /** `"\n".join(summary_lines)`, the lines appended one by one. */
  method Summary(req: Request) returns (summary: string)
    ensures summary == Join("\n", SummaryLines(req))
  {
    var summaryLines := ["Repository: " + req.repository, "Primary tag: " + req.primaryTag];
    if req.refs != [] {
      summaryLines := summaryLines + ["Additional tags: " + Join(", ", req.refs)];
    }
    if !req.push {
      summaryLines := summaryLines + [PushSkipped];
    }
    assert summaryLines == SummaryLines(req);
    summary := Join("\n", summaryLines);
  }

  /** The loop over `normalized_additional_refs`: `docker tag` for each, stopping at the first failure. */
  method RunTags(req: Request, runner: Runner, attempted: seq<Step>, log: seq<string>)
    returns (ok: bool, attempted': seq<Step>, log': seq<string>, tagged: seq<string>)
    requires attempted == LoginSteps(req) + [BuildStep(req)]
    requires AllSucceeded(attempted, runner, req.contextPath) && Logged(attempted, log, runner, req.contextPath)
    ensures Logged(attempted', log', runner, req.contextPath)
    ensures ok ==> attempted' == Head(req) && AllSucceeded(attempted', runner, req.contextPath) && tagged == req.refs
    ensures !ok ==> && attempted' != []
                    && FailFast(attempted', Planned(req), runner, req.contextPath)
                    && !Completed(attempted', Planned(req), runner, req.contextPath)
  {
    var cwd := req.contextPath;
    ok, attempted', log', tagged := true, attempted, log, [];
    for i := 0 to |req.refs|
      invariant tagged == req.refs[..i]
      invariant attempted' == attempted + TagSteps(req.reference, tagged)
      invariant AllSucceeded(attempted', runner, cwd) && Logged(attempted', log', runner, cwd)
    {
      var extraRef := req.refs[i];
      ghost var prev := attempted';
      var tagOk;
      tagOk, attempted', log' := Attempt(runner, cwd, attempted', log', Tag(req.reference, extraRef));
      TagStepsStep(attempted, req.reference, tagged, extraRef);
      tagged := tagged + [extraRef];
      assert tagged == req.refs[..i + 1];
      if !tagOk {
        TagStopped(req, prev, i, runner);
        ok := false;
        return;
      }
    }
    assert req.refs[..|req.refs|] == req.refs;
  }

  /** A failed tag after the login, the build and the earlier tags ends a fail-fast run that is not complete. */
  lemma TagStopped(req: Request, prev: seq<Step>, i: nat, runner: Runner)
    requires i < |req.refs|
    requires prev == LoginSteps(req) + [BuildStep(req)] + TagSteps(req.reference, req.refs[..i])
    requires AllSucceeded(prev, runner, req.contextPath)
    requires !Succeeded(runner, req.contextPath, |prev|, Tag(req.reference, req.refs[i]))
    ensures var a := prev + [Tag(req.reference, req.refs[i])];
      FailFast(a, Planned(req), runner, req.contextPath) && !Completed(a, Planned(req), runner, req.contextPath)
  {
    var pre := LoginSteps(req) + [BuildStep(req)];
    PlanThroughTag(req, i + 1);
    assert req.refs[..i + 1] == req.refs[..i] + [req.refs[i]];
    TagStepsStep(pre, req.reference, req.refs[..i], req.refs[i]);
    StoppedAfter(prev, Tag(req.reference, req.refs[i]), Planned(req), runner, req.contextPath);
  }

  /** The push loop: each reference not pushed before, in order, stopping at the first failure. */
  method RunPushes(runner: Runner, cwd: string, attempted: seq<Step>, log: seq<string>, toPush: seq<string>)
    returns (ok: bool, attempted': seq<Step>, log': seq<string>)
    requires AllSucceeded(attempted, runner, cwd) && Logged(attempted, log, runner, cwd)
    ensures Logged(attempted', log', runner, cwd)
    ensures ok ==> attempted' == attempted + PushSteps(Dedup(toPush)) && AllSucceeded(attempted', runner, cwd)
    ensures !ok ==> StoppedWithin(attempted, attempted', PushSteps(Dedup(toPush)), runner, cwd)
  {
    ok, attempted', log' := true, attempted, log;
    var seen: set<string> := {};
    for i := 0 to |toPush|
      invariant attempted' == attempted + PushSteps(Dedup(toPush[..i]))
      invariant forall r :: r in seen <==> r in toPush[..i]
      invariant AllSucceeded(attempted', runner, cwd) && Logged(attempted', log', runner, cwd)
    {
      ok, attempted', log', seen := PushNext(runner, cwd, attempted, attempted', log', toPush, i, seen);
      if !ok {
        return;
      }
    }
    assert toPush[..|toPush|] == toPush;
  }

  /** One turn of the push loop: the `i`-th reference is skipped when seen, pushed otherwise. */
  method PushNext(runner: Runner, cwd: string, base: seq<Step>, attempted: seq<Step>, log: seq<string>,
                  toPush: seq<string>, i: nat, seen: set<string>)
    returns (ok: bool, attempted': seq<Step>, log': seq<string>, seen': set<string>)
    requires i < |toPush| && attempted == base + PushSteps(Dedup(toPush[..i]))
    requires forall r :: r in seen <==> r in toPush[..i]
    requires AllSucceeded(attempted, runner, cwd) && Logged(attempted, log, runner, cwd)
    ensures Logged(attempted', log', runner, cwd)
    ensures ok ==> && attempted' == base + PushSteps(Dedup(toPush[..i + 1]))
                   && (forall r :: r in seen' <==> r in toPush[..i + 1])
                   && AllSucceeded(attempted', runner, cwd)
    ensures !ok ==> StoppedWithin(base, attempted', PushSteps(Dedup(toPush)), runner, cwd)
  {
    var ref := toPush[i];
    PushAdvance(base, toPush, i, seen);
    if ref in seen {
      return true, attempted, log, seen;
    }
    seen' := seen + {ref};
    ok, attempted', log' := Attempt(runner, cwd, attempted, log, Push(ref));
    if !ok {
      PushWithinPlan(base, toPush, i);
      StoppedWithinStep(base, attempted, Push(ref), PushSteps(Dedup(toPush)), runner, cwd);
    }
  }

  /** One turn of the push loop: a reference seen before is skipped, a new one is the next planned push. */
  lemma PushAdvance(base: seq<Step>, toPush: seq<string>, i: nat, seen: set<string>)
    requires i < |toPush|
    requires forall r :: r in seen <==> r in toPush[..i]
    ensures var ref := toPush[i];
      && (ref in seen ==> && Dedup(toPush[..i + 1]) == Dedup(toPush[..i])
                          && forall r :: r in seen <==> r in toPush[..i + 1])
      && (ref !in seen ==> && base + PushSteps(Dedup(toPush[..i])) + [Push(ref)]
                              == base + PushSteps(Dedup(toPush[..i + 1]))
                           && forall r :: r in seen + {ref} <==> r in toPush[..i + 1])
  {
    var ref := toPush[i];
    DedupStep(toPush, i);
    assert toPush[..i + 1] == toPush[..i] + [ref];
    PushStepsStep(base, Dedup(toPush[..i]), ref);
  }

  /** Pushing a reference not seen before continues the planned pushes. */
  lemma PushWithinPlan(base: seq<Step>, toPush: seq<string>, i: nat)
    requires i < |toPush| && toPush[i] !in toPush[..i]
    ensures var prev := base + PushSteps(Dedup(toPush[..i]));
      var steps := PushSteps(Dedup(toPush));
      && |base| <= |prev| && |prev| - |base| < |steps|
      && prev + [Push(toPush[i])] == base + steps[..|prev| - |base| + 1]
  {
    var ref := toPush[i];
    var d, d1 := Dedup(toPush[..i]), Dedup(toPush[..i + 1]);
    DedupStep(toPush, i);
    assert d1 == d + [ref];
    DedupPrefix(toPush, i + 1);
    PushStepsPrefix(Dedup(toPush), |d1|);
    PushStepsStep(base, d, ref);
  }

  // ---------------------------------------------------------------- execute

  /** `execute`: the checks, then the commands. A refused call runs nothing. */
  method Execute(host: Host, args: Args, runner: Runner) returns (reply: Reply, attempted: seq<Step>, log: seq<string>)
    ensures Admit(host, args).Refused? ==> reply == Admit(host, args).reply && attempted == [] && log == []
    ensures Admit(host, args).Admitted? ==>
      var req := Admit(host, args).request;
      && FailFast(attempted, Planned(req), runner, req.contextPath)
      && Logged(attempted, log, runner, req.contextPath)
      && reply == Response(Message(req, attempted, log, runner))
  {
    var admission := Prepare(host, args);
    match admission
    case Refused(r) =>
      reply, attempted, log := r, [], [];
    case Admitted(req) =>
      reply, attempted, log := RunSteps(req, runner);
  }

  // ---------------------------------------------------------------- properties of a run

  /** The commands a fail-fast run attempts are determined by the plan and the runner. */
  lemma FailFastUnique(a: seq<Step>, b: seq<Step>, planned: seq<Step>, runner: Runner, cwd: string)
    requires FailFast(a, planned, runner, cwd) && FailFast(b, planned, runner, cwd)
    ensures a == b
  {
  }

  /** A failed command is the last one run: everything planned after it is skipped. */
  lemma StopsAtFailure(attempted: seq<Step>, planned: seq<Step>, runner: Runner, cwd: string, k: nat)
    requires FailFast(attempted, planned, runner, cwd)
    requires k < |attempted| && !Succeeded(runner, cwd, k, attempted[k])
    ensures |attempted| == k + 1 && attempted == planned[..k + 1]
  {
  }

  /** A plan is never empty (it holds the build), so a fail-fast run attempts at least its first command. */
  lemma RunStarts(req: Request, attempted: seq<Step>, runner: Runner)
    requires FailFast(attempted, Planned(req), runner, req.contextPath)
    ensures attempted != [] && attempted[0] == Planned(req)[0]
  {
    PlanThroughTag(req, 0);
  }

  /** A failed login is the only command run: no build, tag or push follows. */
  lemma LoginFailureStops(req: Request, attempted: seq<Step>, runner: Runner)
    requires FailFast(attempted, Planned(req), runner, req.contextPath)
    requires req.login.Some? && !Succeeded(runner, req.contextPath, 0, LoginOf(req.login.value))
    ensures attempted == [LoginOf(req.login.value)]
  {
    PlanThroughLogin(req);
    RunStarts(req, attempted, runner);
    StopsAtFailure(attempted, Planned(req), runner, req.contextPath, 0);
  }

  /** A failed build ends the run: the login, when there is one, and the build are all that ran. */
  lemma BuildFailureStops(req: Request, attempted: seq<Step>, runner: Runner)
    requires FailFast(attempted, Planned(req), runner, req.contextPath)
    requires |LoginSteps(req)| < |attempted|
    requires !Succeeded(runner, req.contextPath, |LoginSteps(req)|, attempted[|LoginSteps(req)|])
    ensures attempted == LoginSteps(req) + [BuildStep(req)]
  {
    StopsAtFailure(attempted, Planned(req), runner, req.contextPath, |LoginSteps(req)|);
    PlanThroughTag(req, 0);
    assert TagSteps(req.reference, req.refs[..0]) == [];
  }

  /** A failed tag ends the run: no later tag and no push is attempted. */
  lemma TagFailureStops(req: Request, attempted: seq<Step>, runner: Runner, j: nat)
    requires FailFast(attempted, Planned(req), runner, req.contextPath)
    requires j < |req.refs| && |LoginSteps(req)| + 1 + j < |attempted|
    requires !Succeeded(runner, req.contextPath, |LoginSteps(req)| + 1 + j, attempted[|LoginSteps(req)| + 1 + j])
    ensures attempted == LoginSteps(req) + [BuildStep(req)] + TagSteps(req.reference, req.refs[..j + 1])
    ensures attempted[|attempted| - 1] == Tag(req.reference, req.refs[j])
  {
    StopsAtFailure(attempted, Planned(req), runner, req.contextPath, |LoginSteps(req)| + 1 + j);
    PlanThroughTag(req, j + 1);
  }

  /** The reference a command pushes. */
  function PushedRef(step: Step): Option<string> {
    if step.Push? then Some(step.ref) else None
  }

  /** The references pushed, in order. */
  function Pushed(attempted: seq<Step>): seq<string> {
    FilterMap(attempted, PushedRef)
  }

  /** No command before the pushes is a push. */
  lemma HeadPushesNothing(req: Request)
    ensures Pushed(Head(req)) == []
  {
    var head := Head(req);
    var l, tags := LoginSteps(req), TagSteps(req.reference, req.refs);
    assert head == l + [BuildStep(req)] + tags;
    forall i | 0 <= i < |head|
      ensures PushedRef(head[i]).None?
    {
      if i < |l| {
        assert head[i] == LoginOf(req.login.value);
      } else if i == |l| {
        assert head[i] == BuildStep(req);
      } else {
        assert head[i] == tags[i - |l| - 1];
      }
    }
    FilterMapDropsAll(head, PushedRef);
  }

  /** What a run has done once it is past the commands before the pushes. */
  lemma PlanPrefix(req: Request, n: nat)
    requires n <= |Planned(req)|
    ensures n <= |Head(req)| ==> Planned(req)[..n] == Head(req)[..n]
    ensures |Head(req)| < n ==> && req.push && n - |Head(req)| <= |PushList(req)|
                                && Planned(req)[..n] == Head(req) + PushSteps(PushList(req)[..n - |Head(req)|])
  {
    if req.push {
      PlannedWithPush(req);
      if n <= |Head(req)| {
        TakeFront(Head(req), PushSteps(PushList(req)), n);
      } else {
        PushesThrough(Planned(req), Head(req), PushList(req), n - |Head(req)|);
      }
    } else {
      PlannedWithoutPush(req);
    }
  }

  /**
   * Pushes happen only when asked for; they follow the order of `references_to_push` with every
   * repeated reference skipped: the primary reference first, then the tagged ones, each at most once.
   */
  lemma PushesInOrder(req: Request, attempted: seq<Step>, runner: Runner)
    requires FailFast(attempted, Planned(req), runner, req.contextPath)
    ensures var pushed := Pushed(attempted);
      && (!req.push ==> pushed == [])
      && |pushed| <= |PushList(req)| && pushed == PushList(req)[..|pushed|]
      && Distinct(pushed)
      && (pushed != [] ==> pushed[0] == req.reference)
      && (forall r :: r in pushed ==> r == req.reference || r in req.refs)
  {
    PushedPrefix(req, attempted, runner);
    DedupPrefixFacts([req.reference] + req.refs, |Pushed(attempted)|);
  }

  /** The pushes run are the first ones of the planned pushes, and there are none when not pushing. */
  lemma PushedPrefix(req: Request, attempted: seq<Step>, runner: Runner)
    requires FailFast(attempted, Planned(req), runner, req.contextPath)
    ensures !req.push ==> Pushed(attempted) == []
    ensures |Pushed(attempted)| <= |PushList(req)| && Pushed(attempted) == PushList(req)[..|Pushed(attempted)|]
  {
    var n := |attempted|;
    var list := PushList(req);
    PlanPrefix(req, n);
    HeadPushesNothing(req);
    if n <= |Head(req)| {
      PushedOfPrefix(Head(req), n);
    } else {
      var m := n - |Head(req)|;
      FilterMapAppend(Head(req), PushSteps(list[..m]), PushedRef);
      PushedOfPushSteps(list[..m]);
    }
  }

  /** The first `m` references kept by de-duplication are distinct, start with the first one and come from the input. */
  lemma DedupPrefixFacts(all: seq<string>, m: nat)
    requires all != [] && m <= |Dedup(all)|
    ensures var d := Dedup(all)[..m];
      && Distinct(d) && (d != [] ==> d[0] == all[0])
      && (forall r :: r in d ==> r == all[0] || r in all[1..])
  {
    var d := Dedup(all)[..m];
    DedupSpec(all);
    DedupHead(all);
    forall r | r in d
      ensures r == all[0] || r in all[1..]
    {
      assert r in all;
      assert all == [all[0]] + all[1..];
    }
  }

  lemma PushedOfPrefix(steps: seq<Step>, n: nat)
    requires n <= |steps| && Pushed(steps) == []
    ensures Pushed(steps[..n]) == []
  {
    FilterMapAppend(steps[..n], steps[n..], PushedRef);
    assert steps[..n] + steps[n..] == steps;
  }

  lemma PushedOfPushSteps(refs: seq<string>)
    ensures Pushed(PushSteps(refs)) == refs
  {
    FilterMapKeepsAll(PushSteps(refs), PushedRef, refs);
  }

  /**
   * A reference is pushed only after every command before the pushes, the build and each tag,
   * ran and succeeded: a failed tag means nothing is pushed.
   */
  lemma PushesFollowTags(req: Request, attempted: seq<Step>, runner: Runner)
    requires FailFast(attempted, Planned(req), runner, req.contextPath)
    requires Pushed(attempted) != []
    ensures req.push && |Head(req)| < |attempted| && attempted[..|Head(req)|] == Head(req)
    ensures forall k :: 0 <= k < |Head(req)| ==> Succeeded(runner, req.contextPath, k, attempted[k])
    ensures forall j :: 0 <= j < |req.refs| ==>
      var k := |LoginSteps(req)| + 1 + j;
      attempted[k] == Tag(req.reference, req.refs[j]) && Succeeded(runner, req.contextPath, k, attempted[k])
  {
    var n := |attempted|;
    PlanPrefix(req, n);
    HeadPushesNothing(req);
    if n <= |Head(req)| {
      PushedOfPrefix(Head(req), n);
      assert false;
    }
    var head := Head(req);
    assert attempted[..|head|] == head;
    forall j | 0 <= j < |req.refs|
      ensures attempted[|LoginSteps(req)| + 1 + j] == Tag(req.reference, req.refs[j])
    {
      var k := |LoginSteps(req)| + 1 + j;
      assert attempted[k] == head[k];
      assert head[k] == TagSteps(req.reference, req.refs)[j];
    }
  }
}
