/** Properties of the `init` handler's effect trace: the precondition
    refusal, the fixed order of the prelude, exactly one outcome event, the
    exit code, and the config file the trace leaves behind. */
module InitProofs {
  import opened Wrappers
  import opened Constants
  import opened Init

  /** The number of telemetry auth events with status `s`. */
  function CountStatus(trace: seq<Effect>, s: Status): nat
    decreases |trace|
  {
    if |trace| == 0 then 0
    else (if trace[0].TrackAuthAction? && trace[0].status == s then 1 else 0)
         + CountStatus(trace[1..], s)
  }

  lemma {:induction false} CountStatusAppend(a: seq<Effect>, b: seq<Effect>, s: Status)
    ensures CountStatus(a + b, s) == CountStatus(a, s) + CountStatus(b, s)
    decreases |a|
  {
    if |a| > 0 {
      assert (a + b)[1..] == a[1..] + b;
      CountStatusAppend(a[1..], b, s);
    } else {
      assert a + b == b;
    }
  }

  lemma {:induction false} CountStatusAbsent(t: seq<Effect>, s: Status)
    requires forall e <- t :: !(e.TrackAuthAction? && e.status == s)
    ensures CountStatus(t, s) == 0
    decreases |t|
  {
    if |t| > 0 {
      assert t[0] in t;
      CountStatusAbsent(t[1..], s);
    }
  }

  /** The prelude tracks STARTED once and nothing else. */
  lemma CountStatusPrelude(authType: string, s: Status)
    ensures CountStatus(Prelude(authType), s) == if s == Started then 1 else 0
  {
    var p := Prelude(authType);
    assert p == [p[0]] + [p[1]] + p[2..];
    CountStatusAppend([p[0]] + [p[1]], p[2..], s);
    CountStatusAppend([p[0]], [p[1]], s);
    CountStatusAbsent(p[2..], s);
  }

  /** The conclusion tracks COMPLETE once on success, ERROR once on
      failure, and nothing else. */
  lemma CountStatusConclude(authType: string, result: Result<PortalConfig, Exception>, s: Status)
    ensures CountStatus(Conclude(authType, result), s) ==
      if (s == Complete && result.Success?) || (s == Error && result.Failure?) then 1 else 0
  {
    var c := Conclude(authType, result);
    assert c == [c[0]] + [c[1]] + c[2..];
    CountStatusAppend([c[0]] + [c[1]], c[2..], s);
    CountStatusAppend([c[0]], [c[1]], s);
    CountStatusAbsent(c[2..], s);
  }

  /** The shape of a handler run past the precondition: prelude, the flow's
      steps, conclusion. */
  function Composed(authType: string, fx: seq<Effect>, result: Result<PortalConfig, Exception>): seq<Effect>
  {
    Prelude(authType) + fx + Conclude(authType, result)
  }

  /** When the handler does not refuse (no file, or a falsy empty path) its
      trace has that shape, with the dispatched flow's steps in the middle. */
  lemma HandlerShape(opts: Options, w: World)
    requires w.file == Absent || w.path == ""
    ensures var run := Dispatch(AuthType(opts), EnvOf(opts), w.replies);
      && Handler(opts, w) == Composed(AuthType(opts), run.effects, run.result)
      && FlowSteps(run.effects)
  {
  }

  /** The process ends the trace by exiting with `code`, and exits nowhere
      earlier. */
  predicate ExitsWith(trace: seq<Effect>, code: int)
  {
    |trace| > 0 && trace[|trace| - 1] == Exit(code) &&
    forall i :: 0 <= i < |trace| - 1 ==> !trace[i].Exit?
  }

  /** The trace never calls `process.exit`. */
  predicate NeverExits(trace: seq<Effect>)
  {
    forall e <- trace :: !e.Exit?
  }

  // ---------------------------------------------------------------------
  // Facts about every composed trace

  lemma ComposedCounts(t: string, fx: seq<Effect>, res: Result<PortalConfig, Exception>, s: Status)
    requires FlowSteps(fx)
    ensures CountStatus(Composed(t, fx, res), s) ==
      (if s == Started then 1 else 0) +
      (if (s == Complete && res.Success?) || (s == Error && res.Failure?) then 1 else 0)
  {
    CountStatusAppend(Prelude(t) + fx, Conclude(t, res), s);
    CountStatusAppend(Prelude(t), fx, s);
    CountStatusAbsent(fx, s);
    CountStatusPrelude(t, s);
    CountStatusConclude(t, res, s);
  }

  /** The position of a step inside a composed trace: prelude, flow or
      conclusion. */
  lemma ComposedAt(t: string, fx: seq<Effect>, res: Result<PortalConfig, Exception>, i: int)
    requires 0 <= i < |Composed(t, fx, res)|
    ensures i < 4 ==> Composed(t, fx, res)[i] == Prelude(t)[i]
    ensures 4 <= i < 4 + |fx| ==> Composed(t, fx, res)[i] == fx[i - 4]
    ensures 4 + |fx| <= i ==> Composed(t, fx, res)[i] == Conclude(t, res)[i - 4 - |fx|]
    ensures FlowSteps(fx) ==> (IsFlowStep(Composed(t, fx, res)[i]) <==> 4 <= i < 4 + |fx|)
  {
    if 4 <= i < 4 + |fx| {
      assert fx[i - 4] in fx;
    }
  }

  lemma ComposedExits(t: string, fx: seq<Effect>, res: Result<PortalConfig, Exception>)
    requires FlowSteps(fx)
    ensures res.Success? ==>
      && TrackAuthAction(t, Complete, res.value.portalId) in Composed(t, fx, res)
      && ExitsWith(Composed(t, fx, res), 0)
    ensures res.Failure? ==>
      && Composed(t, fx, res)[|Composed(t, fx, res)| - 1] == TrackAuthAction(t, Error, None)
      && NeverExits(Composed(t, fx, res))
  {
    var c := Composed(t, fx, res);
    var tail := Conclude(t, res);
    var n := |c|;
    forall i | 0 <= i < n - 1
      ensures !c[i].Exit?
    {
      ComposedAt(t, fx, res, i);
    }
    ComposedAt(t, fx, res, n - 1);
    if res.Failure? {
      forall e <- c ensures !e.Exit? {
        var k :| 0 <= k < n && c[k] == e;
      }
    } else {
      ComposedAt(t, fx, res, n - 2);
    }
  }

  lemma ComposedOrder(t: string, fx: seq<Effect>, res: Result<PortalConfig, Exception>)
    requires FlowSteps(fx)
    ensures |Composed(t, fx, res)| > 4
    ensures Composed(t, fx, res)[..4] == Prelude(t)
    ensures var c := Composed(t, fx, res);
      forall i, j ::
        (0 <= i < |c| && 0 <= j < |c| && IsFlowStep(c[i]) &&
         c[j].TrackAuthAction? && c[j].status != Started) ==> 4 <= i < 4 + |fx| <= j
  {
    var c := Composed(t, fx, res);
    forall i | 0 <= i < |c| && IsFlowStep(c[i])
      ensures 4 <= i < 4 + |fx|
    {
      ComposedAt(t, fx, res, i);
    }
    forall j | 0 <= j < |c| && c[j].TrackAuthAction? && c[j].status != Started
      ensures 4 + |fx| <= j
    {
      ComposedAt(t, fx, res, j);
    }
  }

  lemma ComposedNoRefusal(t: string, fx: seq<Effect>, res: Result<PortalConfig, Exception>)
    requires FlowSteps(fx)
    ensures forall e <- Composed(t, fx, res) :: !e.ReportConfigExists? && e != Exit(1)
  {
    var c := Composed(t, fx, res);
    forall i | 0 <= i < |c|
      ensures !c[i].ReportConfigExists? && c[i] != Exit(1)
    {
      ComposedAt(t, fx, res, i);
    }
  }

  // ---------------------------------------------------------------------
  // The handler

  /** With a config file already present, at a path that is not the falsy
      empty string, the handler reports it and exits with code 1 right after
      the usage event: no STARTED event, no placeholder, no exit hook, and
      the file is left as it was. */
  lemma RefusesExistingConfig(opts: Options, w: World)
    requires w.file != Absent && w.path != ""
    ensures Handler(opts, w) ==
      [TrackCommandUsage(AuthType(opts)), ReportConfigExists(w.path), Exit(1)]
    ensures ExitsWith(Handler(opts, w), 1)
    ensures CountStatus(Handler(opts, w), Started) == 0
    ensures CreateEmptyConfigFile !in Handler(opts, w)
    ensures HandleExit(DeleteEmptyConfigFile) !in Handler(opts, w)
    ensures Replay(w.file, Handler(opts, w)) == w.file
    ensures AtExit(Replay(w.file, Handler(opts, w)), Handler(opts, w)) == w.file
  {
    var trace := Handler(opts, w);
    CountStatusAbsent(trace, Started);
    assert trace == [trace[0]] + [trace[1]] + [trace[2]];
    ReplayAppend(w.file, [trace[0]] + [trace[1]], [trace[2]]);
    ReplayAppend(w.file, [trace[0]], [trace[1]]);
  }

  /** The refusal happens exactly when a config file exists at start and
      its path is truthy. */
  lemma RefusalIffConfigExists(opts: Options, w: World)
    ensures ReportConfigExists(w.path) in Handler(opts, w) <==> w.file != Absent && w.path != ""
    ensures Exit(1) in Handler(opts, w) <==> w.file != Absent && w.path != ""
  {
    if w.file == Absent || w.path == "" {
      var run := Dispatch(AuthType(opts), EnvOf(opts), w.replies);
      HandlerShape(opts, w);
      ComposedNoRefusal(AuthType(opts), run.effects, run.result);
    } else {
      RefusesExistingConfig(opts, w);
    }
  }

  /** When the handler does not refuse the prelude is fixed: usage event,
      STARTED, `createEmptyConfigFile`, `handleExit(deleteEmptyConfigFile)`;
      every flow step comes after the exit hook is registered, and the
      outcome comes after every flow step. */
  lemma PreludeOrder(opts: Options, w: World)
    requires w.file == Absent || w.path == ""
    ensures |Handler(opts, w)| > 4
    ensures Handler(opts, w)[..4] ==
      [TrackCommandUsage(AuthType(opts)),
       TrackAuthAction(AuthType(opts), Started, None),
       CreateEmptyConfigFile,
       HandleExit(DeleteEmptyConfigFile)]
    ensures var trace := Handler(opts, w);
      forall i, j ::
        (0 <= i < |trace| && 0 <= j < |trace| && IsFlowStep(trace[i]) &&
         trace[j].TrackAuthAction? && trace[j].status != Started) ==> 4 <= i < j
  {
    var run := Dispatch(AuthType(opts), EnvOf(opts), w.replies);
    HandlerShape(opts, w);
    ComposedOrder(AuthType(opts), run.effects, run.result);
  }

  /** When the handler does not refuse: exactly one STARTED and exactly one
      of COMPLETE or ERROR. COMPLETE carries the portal id the flow resolved
      and is followed by exit code 0; ERROR carries no portal id and the
      handler never exits. */
  lemma ExactlyOneOutcome(opts: Options, w: World)
    requires w.file == Absent || w.path == ""
    ensures CountStatus(Handler(opts, w), Started) == 1
    ensures CountStatus(Handler(opts, w), Complete) + CountStatus(Handler(opts, w), Error) == 1
    ensures var run := Dispatch(AuthType(opts), EnvOf(opts), w.replies);
      && (run.result.Success? ==>
            && TrackAuthAction(AuthType(opts), Complete, run.result.value.portalId) in Handler(opts, w)
            && ExitsWith(Handler(opts, w), 0))
      && (run.result.Failure? ==>
            && Handler(opts, w)[|Handler(opts, w)| - 1] == TrackAuthAction(AuthType(opts), Error, None)
            && NeverExits(Handler(opts, w)))
  {
    var t := AuthType(opts);
    var run := Dispatch(t, EnvOf(opts), w.replies);
    HandlerShape(opts, w);
    ComposedCounts(t, run.effects, run.result, Started);
    ComposedCounts(t, run.effects, run.result, Complete);
    ComposedCounts(t, run.effects, run.result, Error);
    ComposedExits(t, run.effects, run.result);
  }

  // ---------------------------------------------------------------------
  // The config file

  lemma {:induction false} ReplayAppend(f: FileState, a: seq<Effect>, b: seq<Effect>)
    ensures Replay(f, a + b) == Replay(Replay(f, a), b)
    decreases |a|
  {
    if |a| > 0 {
      assert (a + b)[1..] == a[1..] + b;
      ReplayAppend(Step(f, a[0]), a[1..], b);
    } else {
      assert a + b == b;
    }
  }

  /** A trace that neither creates nor persists leaves the file alone. */
  lemma {:induction false} ReplayQuiet(f: FileState, t: seq<Effect>)
    requires forall e <- t :: !Persists(e) && !e.CreateEmptyConfigFile?
    ensures Replay(f, t) == f
    decreases |t|
  {
    if |t| > 0 {
      assert t[0] in t;
      ReplayQuiet(Step(f, t[0]), t[1..]);
    }
  }

  /** A trace with a persisting effect and no `createEmptyConfigFile`
      leaves the file populated. */
  lemma {:induction false} ReplayPopulates(f: FileState, t: seq<Effect>)
    requires exists e <- t :: Persists(e)
    requires forall e <- t :: !e.CreateEmptyConfigFile?
    ensures Replay(f, t) == Populated
    decreases |t|
  {
    assert t[0] in t;
    if Persists(t[0]) {
      ReplayStaysPopulated(t[1..]);
    } else {
      var e :| e in t && Persists(e);
      assert e in t[1..];
      ReplayPopulates(Step(f, t[0]), t[1..]);
    }
  }

  lemma {:induction false} ReplayStaysPopulated(t: seq<Effect>)
    ensures Replay(Populated, t) == Populated
    decreases |t|
  {
    if |t| > 0 {
      ReplayStaysPopulated(t[1..]);
    }
  }

  /** A failed flow persisted nothing; a successful one persisted the
      config through the method's own write. */
  lemma FlowPersistence(authType: string, env: Env, r: Replies)
    ensures var run := Dispatch(authType, env, r);
      && (forall e <- run.effects :: !e.CreateEmptyConfigFile?)
      && (run.result.Failure? ==> forall e <- run.effects :: !Persists(e))
      && (run.result.Success? ==> exists e <- run.effects :: Persists(e))
  {
    if Lookup(authType).Some? {
      var m := Lookup(authType).value;
      var inner := RunFlow(m, env, r);
      var run := Dispatch(authType, env, r);
      assert run.effects == [InvokeFlow(m, env)] + inner.effects;
      RunFlowPersistence(m, env, r);
      if run.result.Success? {
        var k := PersistingStep(m, env, r);
        assert run.effects[k + 1] == inner.effects[k];
      }
    }
  }

  /** The flows themselves: none creates the file, a failed one persists
      nothing. */
  lemma RunFlowPersistence(m: AuthMethod, env: Env, r: Replies)
    ensures forall e <- RunFlow(m, env, r).effects :: !e.CreateEmptyConfigFile?
    ensures RunFlow(m, env, r).result.Failure? ==>
      forall e <- RunFlow(m, env, r).effects :: !Persists(e)
  {
    match m
    case PersonalAccessKey =>
    case OAuth =>
    case ApiKey =>
  }

  /** The index of the step through which a successful flow persisted. */
  lemma PersistingStep(m: AuthMethod, env: Env, r: Replies) returns (k: nat)
    requires RunFlow(m, env, r).result.Success?
    ensures k < |RunFlow(m, env, r).effects| && Persists(RunFlow(m, env, r).effects[k])
  {
    match m
    case PersonalAccessKey => k := 2;
    case OAuth => k := 1;
    case ApiKey => k := 3;
  }

  /** The prelude turns an absent file into the placeholder. */
  lemma ReplayPrelude(t: string)
    ensures Replay(Absent, Prelude(t)) == Placeholder
  {
    var p := Prelude(t);
    assert p == [p[0]] + [p[1]] + [p[2]] + [p[3]];
    ReplayAppend(Absent, [p[0]] + [p[1]] + [p[2]], [p[3]]);
    ReplayAppend(Absent, [p[0]] + [p[1]], [p[2]]);
    ReplayAppend(Absent, [p[0]], [p[1]]);
  }

  /** The file a composed trace leaves, given what its flow persisted. */
  lemma ComposedFile(t: string, fx: seq<Effect>, res: Result<PortalConfig, Exception>)
    requires forall e <- fx :: !e.CreateEmptyConfigFile?
    requires res.Failure? ==> forall e <- fx :: !Persists(e)
    requires res.Success? ==> exists e <- fx :: Persists(e)
    ensures var c := Composed(t, fx, res);
      && (res.Success? ==> Replay(Absent, c) == Populated && AtExit(Replay(Absent, c), c) == Populated)
      && (res.Failure? ==> Replay(Absent, c) == Placeholder && AtExit(Replay(Absent, c), c) == Absent)
  {
    var c := Composed(t, fx, res);
    var tail := Conclude(t, res);
    ReplayAppend(Absent, Prelude(t) + fx, tail);
    ReplayAppend(Absent, Prelude(t), fx);
    ReplayPrelude(t);
    ReplayQuiet(Replay(Placeholder, fx), tail);
    if res.Success? {
      ReplayPopulates(Placeholder, fx);
    } else {
      ReplayQuiet(Placeholder, fx);
    }
    assert c[3] == HandleExit(DeleteEmptyConfigFile);
  }

  /** Under the stated assumptions about the cms-lib helpers: a successful
      run leaves a populated file that the exit hook spares; a failed run
      leaves the placeholder, which the exit hook removes, so no file is
      left behind. */
  lemma AssumedFileOutcome(opts: Options, w: World)
    requires w.file == Absent
    ensures var run := Dispatch(AuthType(opts), EnvOf(opts), w.replies);
      var trace := Handler(opts, w);
      && (run.result.Success? ==>
            Replay(w.file, trace) == Populated && AtExit(Replay(w.file, trace), trace) == Populated)
      && (run.result.Failure? ==>
            Replay(w.file, trace) == Placeholder && AtExit(Replay(w.file, trace), trace) == Absent)
  {
    var t := AuthType(opts);
    var run := Dispatch(t, EnvOf(opts), w.replies);
    HandlerShape(opts, w);
    FlowPersistence(t, EnvOf(opts), w.replies);
    ComposedFile(t, run.effects, run.result);
  }

  // ---------------------------------------------------------------------
  // Dispatch and flows

  /** Every value the `--auth` option accepts, including its default, names
      a flow, and that default is the handler's own default. */
  lemma CliInputAlwaysDispatches(arg: Option<string>, qa: bool)
    ensures ParseAuthArgument(arg).Success? ==> Lookup(ParseAuthArgument(arg).value).Some?
    ensures arg.None? ==>
      && ParseAuthArgument(arg) == Success(AuthType(Options(arg, qa)))
      && Lookup(AuthType(Options(arg, qa))) == Some(PersonalAccessKey)
  {
  }

  /** The table maps each method's value to that method's flow and nothing
      else to a flow. */
  lemma LookupRoundTrip(m: AuthMethod, s: string)
    ensures Lookup(AuthValue(m)) == Some(m)
    ensures Lookup(s).Some? ==> s == AuthValue(Lookup(s).value)
  {
    AuthValueInjective(m, PersonalAccessKey);
    AuthValueInjective(m, OAuth);
    AuthValueInjective(m, ApiKey);
  }

  /** In the OAuth flow `updateDefaultPortal` runs only after
      `authenticateWithOauth` has returned: a failed exchange never changes
      the default portal. */
  lemma OAuthDefaultFollowsExchange(env: Env, r: Replies)
    ensures var t := OAuthFlow(env, r).effects;
      forall i :: 0 <= i < |t| && t[i].UpdateDefaultPortal? ==>
        exists j :: 0 <= j < i && t[j].AuthenticateWithOauth? && t[j].returned
    ensures r.oauthExchange.Threw? ==>
      forall e <- OAuthFlow(env, r).effects :: !e.UpdateDefaultPortal?
  {
    var t := OAuthFlow(env, r).effects;
    forall i | 0 <= i < |t| && t[i].UpdateDefaultPortal?
      ensures exists j :: 0 <= j < i && t[j].AuthenticateWithOauth? && t[j].returned
    {
      assert t[1].AuthenticateWithOauth? && t[1].returned;
    }
  }
}
