/** The `init` command: it refuses to run when a config file already exists,
    otherwise creates an empty placeholder file, registers an exit hook that
    deletes it, runs one of three auth-method flows and reports the outcome.

    Every collaborator (prompts, cms-lib config functions, the OAuth and
    personal-access-key helpers, telemetry, logging, process exit) is an
    entry in an ordered effect trace, and what a collaborator answers or
    whether it throws is an input (`Replies`). */
module Init {
  import opened Wrappers
  import opened Constants
  import opened Strings

  /** `TRACKING_STATUS`. */
  datatype Status = Started | Error | Complete

  /** A portal config object as a flow builds it: the answers a prompt
      returned, spread into a fresh object, with some keys overridden. The
      keys the command looks at are explicit; every other answer (keys,
      client id and secret, scopes, tokens) is carried in `secrets`. */
  datatype PortalConfig = PortalConfig(
    name: Option<string>,
    portalId: Option<int>,
    env: Option<Env>,
    secrets: map<string, string>)

  /** What a failed step throws. `NotAFunction` is the `TypeError` of calling
      the missing entry of the flow table. */
  datatype Exception = Thrown(message: string) | NotAFunction(authType: string)

  /** Whether an awaited collaborator returned or threw. */
  datatype Outcome = Returned | Threw(error: Exception)

  /** The question sets the flows prompt with. */
  datatype Questions =
    | AccessKeyQuestions(env: Env) // `personalAccessKeyPrompt({ env })`
    | PortalNameQuestion           // `promptUser([PORTAL_NAME])`
    | OAuthQuestions               // `promptUser(OAUTH_FLOW)`
    | ApiKeyQuestions              // `promptUser(API_KEY_FLOW)`

  /** The cleanup callbacks the command registers with `handleExit`. */
  datatype Hook = DeleteEmptyConfigFile

  /** One observable step of the command, in the order it happens. */
  datatype Effect =
    | TrackCommandUsage(authType: string)
    | TrackAuthAction(authType: string, status: Status, portalId: Option<int>)
    | ReportConfigExists(path: string)
    | CreateEmptyConfigFile
    | HandleExit(hook: Hook)
    | InvokeFlow(flow: AuthMethod, env: Env)
    | Prompt(questions: Questions, answered: bool)
    | UpdateConfigWithPersonalAccessKey(config: PortalConfig, makeDefault: bool, returned: bool)
    | AuthenticateWithOauth(config: PortalConfig, returned: bool)
    | UpdatePortalConfig(config: PortalConfig)
    | UpdateDefaultPortal(name: Option<string>)
    | WriteConfig
    | ReportCreated(portalId: Option<int>)
    | LogErrorInstance(error: Exception)
    | Exit(code: int)

  /** The steps that belong to an auth-method flow (as opposed to the
      handler's own bookkeeping). */
  predicate IsFlowStep(e: Effect)
  {
    e.InvokeFlow? || e.Prompt? || e.UpdateConfigWithPersonalAccessKey? ||
    e.AuthenticateWithOauth? || e.UpdatePortalConfig? || e.UpdateDefaultPortal? ||
    e.WriteConfig?
  }

  /** Every step of `fx` belongs to a flow. */
  predicate FlowSteps(fx: seq<Effect>)
  {
    forall e <- fx :: IsFlowStep(e)
  }

  /** The steps that change the loaded config or write it to disk without a
      remote call: adding a portal, choosing the default, writing the file. */
  predicate IsLocalConfigChange(e: Effect)
  {
    e.UpdatePortalConfig? || e.UpdateDefaultPortal? || e.WriteConfig?
  }

  /** What each interactive or remote collaborator answers in one run. */
  datatype Replies = Replies(
    accessKey: Result<PortalConfig, Exception>, // personalAccessKeyPrompt
    portalName: Result<string, Exception>,      // promptUser([PORTAL_NAME])
    oauth: Result<PortalConfig, Exception>,     // promptUser(OAUTH_FLOW)
    apiKey: Result<PortalConfig, Exception>,    // promptUser(API_KEY_FLOW)
    accessKeySaved: Outcome,                    // updateConfigWithPersonalAccessKey
    oauthExchange: Outcome)                     // authenticateWithOauth

  /** The effects a flow produced and the config it resolved to, or what
      it threw. */
  datatype FlowRun = FlowRun(effects: seq<Effect>, result: Result<PortalConfig, Exception>)

  /** The two options the handler reads: `--auth` and the truthiness of
      `--qa`. */
  datatype Options = Options(auth: Option<string>, qa: bool)

  /** The config file on disk. */
  datatype FileState = Absent | Placeholder | Populated

  /** Everything the handler does not decide itself: the file at start, the
      path `getConfigPath` reports for it, and the collaborators' replies. */
  datatype World = World(file: FileState, path: string, replies: Replies)

  // ---------------------------------------------------------------------
  // Options

  /** The auth method named by `options.auth`, defaulting to the personal
      access key when the option is absent. */
  function AuthType(opts: Options): (t: string)
    ensures opts.auth.None? ==> t == AuthValue(PersonalAccessKey)
    ensures opts.auth.Some? ==> t == opts.auth.value
  {
    match opts.auth
    case Some(a) => a
    case None => AuthValue(PersonalAccessKey)
  }

  /** QA when `options.qa` is truthy, PROD otherwise. */
  function EnvOf(opts: Options): (env: Env)
    ensures env == Qa <==> opts.qa
  {
    if opts.qa then Qa else Prod
  }

  /** `getConfigPath()`: the path of the config file when one exists. */
  function ConfigPath(w: World): (p: Option<string>)
    ensures p.Some? <==> w.file != Absent
    ensures p.Some? ==> p.value == w.path
  {
    if w.file == Absent then None else Some(w.path)
  }

  // ---------------------------------------------------------------------
  // Command-line surface

  /** The `--auth` option of the builder: its accepted values and default. */
  datatype AuthOption = AuthOption(choices: seq<string>, default: string)

  function AuthCliOption(): (o: AuthOption)
    ensures o.default == AuthValue(PersonalAccessKey)
    ensures o.default in o.choices
    ensures forall m: AuthMethod :: AuthValue(m) in o.choices
    ensures |o.choices| == 3
  {
    AuthOption([AuthValue(PersonalAccessKey), AuthValue(OAuth), AuthValue(ApiKey)],
               AuthValue(PersonalAccessKey))
  }

  /** The argument parser applied to `--auth`: a missing option takes the
      default, a value outside the choices is rejected before the handler
      runs. */
  function ParseAuthArgument(arg: Option<string>): (r: Result<string, string>)
    ensures arg.None? ==> r == Success(AuthCliOption().default)
    ensures arg.Some? && arg.value in AuthCliOption().choices ==> r == Success(arg.value)
    ensures arg.Some? && arg.value !in AuthCliOption().choices ==> r.Failure?
  {
    match arg
    case None => Success(AuthCliOption().default)
    case Some(a) => if a in AuthCliOption().choices then Success(a) else Failure(a)
  }

  // ---------------------------------------------------------------------
  // Flows

  /** `personalAccessKeyConfigCreationFlow`: prompt for the key, then for a
      name, then save the config as the default portal. */
  function PersonalAccessKeyFlow(env: Env, r: Replies): (run: FlowRun)
    ensures run.result.Success? <==>
      r.accessKey.Success? && r.portalName.Success? && r.accessKeySaved.Returned?
    ensures run.result.Success? ==>
      var cfg := run.result.value;
      && cfg.name == Some(r.portalName.value)
      && cfg.portalId == r.accessKey.value.portalId
      && cfg.env == r.accessKey.value.env
      && cfg.secrets == r.accessKey.value.secrets
    ensures forall e <- run.effects :: e.UpdateConfigWithPersonalAccessKey? ==>
      e.makeDefault && r.portalName.Success? && e.config.name == Some(r.portalName.value)
    ensures |run.effects| > 0 && run.effects[0] == Prompt(AccessKeyQuestions(env), r.accessKey.Success?)
    ensures FlowSteps(run.effects)
    ensures r.accessKey.Success? ==>
      |run.effects| > 1 && run.effects[1] == Prompt(PortalNameQuestion, r.portalName.Success?)
    ensures (exists e <- run.effects :: e.UpdateConfigWithPersonalAccessKey?) <==>
      r.accessKey.Success? && r.portalName.Success?
    ensures run.result.Success? ==>
      |run.effects| == 3 && run.effects[2] == UpdateConfigWithPersonalAccessKey(run.result.value, true, true)
    ensures r.accessKey.Failure? ==> run.effects == [Prompt(AccessKeyQuestions(env), false)]
    ensures r.accessKey.Success? && r.portalName.Failure? ==>
      run.effects == [Prompt(AccessKeyQuestions(env), true), Prompt(PortalNameQuestion, false)]
    ensures r.accessKey.Success? && r.portalName.Success? && r.accessKeySaved.Threw? ==>
      |run.effects| == 3 &&
      run.effects[2] == UpdateConfigWithPersonalAccessKey(r.accessKey.value.(name := Some(r.portalName.value)), true, false)
    ensures run.result.Failure? ==> forall e <- run.effects :: !IsLocalConfigChange(e)
  {
    var asked := [Prompt(AccessKeyQuestions(env), r.accessKey.Success?)];
    match r.accessKey
    case Failure(e) => FlowRun(asked, Failure(e))
    case Success(data) =>
      var asked := asked + [Prompt(PortalNameQuestion, r.portalName.Success?)];
      match r.portalName
      case Failure(e) => FlowRun(asked, Failure(e))
      case Success(name) =>
        var cfg := data.(name := Some(name));
        var trace := asked + [UpdateConfigWithPersonalAccessKey(cfg, true, r.accessKeySaved.Returned?)];
        assert trace[2].UpdateConfigWithPersonalAccessKey?;
        match r.accessKeySaved
        case Threw(e) => FlowRun(trace, Failure(e))
        case Returned => FlowRun(trace, Success(cfg))
  }

  /** `oauthConfigCreationFlow`: prompt, run the OAuth exchange with the
      answers and the command's env, and only once it returns make the new
      portal the default. */
  function OAuthFlow(env: Env, r: Replies): (run: FlowRun)
    ensures run.result.Success? <==> r.oauth.Success? && r.oauthExchange.Returned?
    ensures run.result.Success? ==>
      var cfg := run.result.value;
      && cfg.env == Some(env)
      && cfg.name == r.oauth.value.name
      && cfg.portalId == r.oauth.value.portalId
      && cfg.secrets == r.oauth.value.secrets
    ensures (exists e <- run.effects :: e.UpdateDefaultPortal?) <==> run.result.Success?
    ensures forall e <- run.effects :: e.AuthenticateWithOauth? ==> e.config.env == Some(env)
    ensures |run.effects| > 0 && run.effects[0] == Prompt(OAuthQuestions, r.oauth.Success?)
    ensures FlowSteps(run.effects)
    ensures r.oauth.Success? ==>
      |run.effects| > 1 &&
      run.effects[1] == AuthenticateWithOauth(r.oauth.value.(env := Some(env)), r.oauthExchange.Returned?)
    ensures run.result.Success? ==>
      run.effects == [Prompt(OAuthQuestions, true), AuthenticateWithOauth(run.result.value, true),
                      UpdateDefaultPortal(run.result.value.name)]
    ensures r.oauth.Failure? ==> run.effects == [Prompt(OAuthQuestions, false)]
    ensures r.oauth.Success? && r.oauthExchange.Threw? ==>
      run.effects == [Prompt(OAuthQuestions, true), AuthenticateWithOauth(r.oauth.value.(env := Some(env)), false)]
    ensures run.result.Failure? ==> forall e <- run.effects :: !IsLocalConfigChange(e)
  {
    var asked := [Prompt(OAuthQuestions, r.oauth.Success?)];
    match r.oauth
    case Failure(e) => FlowRun(asked, Failure(e))
    case Success(data) =>
      var cfg := data.(env := Some(env));
      var trace := asked + [AuthenticateWithOauth(cfg, r.oauthExchange.Returned?)];
      match r.oauthExchange
      case Threw(e) => FlowRun(trace, Failure(e))
      case Returned =>
        var trace := trace + [UpdateDefaultPortal(cfg.name)];
        assert trace[2].UpdateDefaultPortal?;
        FlowRun(trace, Success(cfg))
  }

  /** `apiKeyConfigCreationFlow`: prompt, then add the portal to the
      in-memory config, make it the default and write the file. */
  function ApiKeyFlow(env: Env, r: Replies): (run: FlowRun)
    ensures run.result.Success? <==> r.apiKey.Success?
    ensures run.result.Success? ==>
      var cfg := run.result.value;
      && cfg.env == Some(env)
      && cfg.name == r.apiKey.value.name
      && cfg.portalId == r.apiKey.value.portalId
      && cfg.secrets == r.apiKey.value.secrets
      && |run.effects| >= 3
      && run.effects[|run.effects| - 3..] ==
           [UpdatePortalConfig(cfg), UpdateDefaultPortal(cfg.name), WriteConfig]
    ensures run.result.Failure? ==> run.effects == [Prompt(ApiKeyQuestions, false)]
    ensures run.result.Success? ==>
      run.effects == [Prompt(ApiKeyQuestions, true), UpdatePortalConfig(run.result.value),
                      UpdateDefaultPortal(run.result.value.name), WriteConfig]
    ensures run.result.Failure? ==> forall e <- run.effects :: !IsLocalConfigChange(e)
    ensures |run.effects| > 0 && run.effects[0] == Prompt(ApiKeyQuestions, r.apiKey.Success?)
    ensures FlowSteps(run.effects)
  {
    var asked := [Prompt(ApiKeyQuestions, r.apiKey.Success?)];
    match r.apiKey
    case Failure(e) => FlowRun(asked, Failure(e))
    case Success(data) =>
      var cfg := data.(env := Some(env));
      FlowRun(asked + [UpdatePortalConfig(cfg), UpdateDefaultPortal(cfg.name), WriteConfig],
              Success(cfg))
  }

  // ---------------------------------------------------------------------
  // Dispatch

  /** `CONFIG_CREATION_FLOWS[authType]`: the method whose value is
      `authType`, if any. */
  function Lookup(authType: string): (m: Option<AuthMethod>)
    ensures m.Some? <==> authType in AuthCliOption().choices
    ensures m.Some? ==> AuthValue(m.value) == authType
  {
    if authType == AuthValue(PersonalAccessKey) then Some(PersonalAccessKey)
    else if authType == AuthValue(OAuth) then Some(OAuth)
    else if authType == AuthValue(ApiKey) then Some(ApiKey)
    else None
  }

  /** The flow function each table entry holds: each method's entry asks
      that method's questions first, succeeds under that method's
      condition, and returns the portal id that method's answers carry. */
  function RunFlow(m: AuthMethod, env: Env, r: Replies): (run: FlowRun)
    ensures |run.effects| > 0
    ensures FlowSteps(run.effects)
    ensures m == PersonalAccessKey ==>
      && run.effects[0] == Prompt(AccessKeyQuestions(env), r.accessKey.Success?)
      && (run.result.Success? <==>
            r.accessKey.Success? && r.portalName.Success? && r.accessKeySaved.Returned?)
      && (run.result.Success? ==> run.result.value.portalId == r.accessKey.value.portalId)
    ensures m == OAuth ==>
      && run.effects[0] == Prompt(OAuthQuestions, r.oauth.Success?)
      && (run.result.Success? <==> r.oauth.Success? && r.oauthExchange.Returned?)
      && (run.result.Success? ==> run.result.value.portalId == r.oauth.value.portalId)
    ensures m == ApiKey ==>
      && run.effects[0] == Prompt(ApiKeyQuestions, r.apiKey.Success?)
      && (run.result.Success? <==> r.apiKey.Success?)
      && (run.result.Success? ==> run.result.value.portalId == r.apiKey.value.portalId)
  {
    match m
    case PersonalAccessKey => PersonalAccessKeyFlow(env, r)
    case OAuth => OAuthFlow(env, r)
    case ApiKey => ApiKeyFlow(env, r)
  }

  /** The call of a flow: a marker that `m`'s flow was invoked with `env`,
      then that flow's own steps and result. */
  function Invoke(m: AuthMethod, env: Env, run: FlowRun): (out: FlowRun)
    requires |run.effects| > 0
    requires FlowSteps(run.effects)
    ensures |out.effects| > 1 && out.effects[0] == InvokeFlow(m, env) && out.effects[1] == run.effects[0]
    ensures out.effects[1..] == run.effects && out.result == run.result
    ensures FlowSteps(out.effects)
  {
    var out := FlowRun([InvokeFlow(m, env)] + run.effects, run.result);
    forall e <- out.effects
      ensures IsFlowStep(e)
    {
      var k :| 0 <= k < |out.effects| && out.effects[k] == e;
      if k > 0 {
        assert e == run.effects[k - 1] && run.effects[k - 1] in run.effects;
      }
    }
    out
  }

  /** `CONFIG_CREATION_FLOWS[authType](env)`: invoke the flow the table
      holds for `authType`; calling the missing entry of an unknown value
      throws before any flow step. */
  function Dispatch(authType: string, env: Env, r: Replies): (run: FlowRun)
    ensures Lookup(authType).None? ==> run.effects == [] && run.result == Failure(NotAFunction(authType))
    ensures Lookup(authType).Some? ==>
      |run.effects| > 0 && run.effects[0] == InvokeFlow(Lookup(authType).value, env)
    ensures FlowSteps(run.effects)
    ensures Lookup(authType) == Some(PersonalAccessKey) ==>
      && (run.result.Success? <==>
            r.accessKey.Success? && r.portalName.Success? && r.accessKeySaved.Returned?)
      && |run.effects| > 1 && run.effects[1] == Prompt(AccessKeyQuestions(env), r.accessKey.Success?)
    ensures Lookup(authType) == Some(OAuth) ==>
      && (run.result.Success? <==> r.oauth.Success? && r.oauthExchange.Returned?)
      && |run.effects| > 1 && run.effects[1] == Prompt(OAuthQuestions, r.oauth.Success?)
    ensures Lookup(authType) == Some(ApiKey) ==>
      && (run.result.Success? <==> r.apiKey.Success?)
      && |run.effects| > 1 && run.effects[1] == Prompt(ApiKeyQuestions, r.apiKey.Success?)
    ensures Lookup(authType) == Some(PersonalAccessKey) ==>
      run.effects[1..] == PersonalAccessKeyFlow(env, r).effects &&
      run.result == PersonalAccessKeyFlow(env, r).result
    ensures Lookup(authType) == Some(OAuth) ==>
      run.effects[1..] == OAuthFlow(env, r).effects && run.result == OAuthFlow(env, r).result
    ensures Lookup(authType) == Some(ApiKey) ==>
      run.effects[1..] == ApiKeyFlow(env, r).effects && run.result == ApiKeyFlow(env, r).result
  {
    match Lookup(authType)
    case None => FlowRun([], Failure(NotAFunction(authType)))
    case Some(m) => Invoke(m, env, RunFlow(m, env, r))
  }

  // ---------------------------------------------------------------------
  // Handler

  /** The handler's prelude: the command-usage event, which comes before the
      precondition, then, once the precondition holds, the STARTED event,
      the placeholder and the exit hook. */
  function Prelude(authType: string): seq<Effect>
  {
    [TrackCommandUsage(authType),
     TrackAuthAction(authType, Started, None),
     CreateEmptyConfigFile,
     HandleExit(DeleteEmptyConfigFile)]
  }

  /** What the handler does after the flow: on success log, COMPLETE with the
      portal id and exit; on failure log the error and ERROR without an id. */
  function Conclude(authType: string, result: Result<PortalConfig, Exception>): seq<Effect>
  {
    match result
    case Success(cfg) =>
      [ReportCreated(cfg.portalId), TrackAuthAction(authType, Complete, cfg.portalId), Exit(0)]
    case Failure(e) =>
      [LogErrorInstance(e), TrackAuthAction(authType, Error, None)]
  }

  /** `exports.handler`: the effect trace of one invocation. `process.exit`
      ends the trace, so nothing follows an `Exit`. The handler refuses when
      the path `getConfigPath` returned is truthy. */
  function Handler(opts: Options, w: World): (trace: seq<Effect>)
    ensures |trace| >= 3 && trace[0] == TrackCommandUsage(AuthType(opts))
    ensures trace[|trace| - 1].Exit? || trace[|trace| - 1] == TrackAuthAction(AuthType(opts), Error, None)
  {
    var authType := AuthType(opts);
    if Truthy(ConfigPath(w)) then
      [TrackCommandUsage(authType), ReportConfigExists(w.path), Exit(1)]
    else
      var run := Dispatch(authType, EnvOf(opts), w.replies);
      Prelude(authType) + run.effects + Conclude(authType, run.result)
  }

  // ---------------------------------------------------------------------
  // The config file along the trace

  /** The effects that write the config file to disk. `writeConfig` writes
      visibly; that a returning `updateConfigWithPersonalAccessKey` or
      `authenticateWithOauth` has written the file is an assumption about
      cms-lib code that is not part of this model. */
  predicate Persists(e: Effect)
  {
    e.WriteConfig? ||
    (e.UpdateConfigWithPersonalAccessKey? && e.returned) ||
    (e.AuthenticateWithOauth? && e.returned)
  }

  /** The file after one effect: `createEmptyConfigFile` turns an absent file
      into a placeholder, a persisting effect populates it. */
  function Step(f: FileState, e: Effect): FileState
  {
    if e.CreateEmptyConfigFile? && f == Absent then Placeholder
    else if Persists(e) then Populated
    else f
  }

  /** The file after a whole trace. */
  function Replay(f: FileState, trace: seq<Effect>): FileState
    decreases |trace|
  {
    if |trace| == 0 then f else Replay(Step(f, trace[0]), trace[1..])
  }

  /** The file once the process has ended and the registered hooks have run.
      Two assumptions about code that is not part of this model: `handleExit`
      runs the registered hook whenever the process ends, by `process.exit`
      or naturally, and `deleteEmptyConfigFile` deletes the file only while
      it is still the placeholder. */
  function AtExit(f: FileState, trace: seq<Effect>): FileState
  {
    if HandleExit(DeleteEmptyConfigFile) in trace && f == Placeholder then Absent else f
  }
}
