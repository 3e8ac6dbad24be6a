/** The request dispatcher of src/hooks.server.ts: module-level state and the stretches of code
    between awaits that read and write it.

    Middleware bodies are opaque tags; `isSetupComplete()` and the clock are inputs. */
module Dispatcher {
  import opened Options

  datatype Hook =
    | TurboPipeline | TestIsolation | Security | RateLimit | SystemState | TurboGet | Redirects | Compression
    | AeoHeaders | UserPreferences | Authentication | Authorization | LocalSdk | ContentInitialization
    | AuditLogging | ApiRequests | TokenResolution

  /** The hooks loaded by `ensureFullMiddleware`; the other three are imported statically. */
  const LAZY: set<Hook> := {
    Security, RateLimit, UserPreferences, Authentication, Authorization, LocalSdk, ContentInitialization,
    ApiRequests, AuditLogging, TokenResolution, Redirects, SystemState, TestIsolation, AeoHeaders}

  datatype Handler = PassThrough | Real(hook: Hook)

  type Pipeline = seq<Handler>

  const READY_HOOKS: seq<Hook> := [
    TurboPipeline, TestIsolation, Security, RateLimit, SystemState, TurboGet, Redirects, Compression, AeoHeaders,
    UserPreferences, Authentication, Authorization, LocalSdk, ContentInitialization, AuditLogging, ApiRequests,
        TokenResolution]

  const API_HOOKS: seq<Hook> := [
    TurboPipeline, TestIsolation, Security, RateLimit, SystemState, TurboGet, Compression,
    Authentication, Authorization, LocalSdk, ContentInitialization, AuditLogging, ApiRequests, TokenResolution]

  const SETUP_HOOKS: seq<Hook> := [TurboPipeline, Compression]

  datatype Lane = FastStatic | Health | HyperTurbo | ApiRead | ApiWrite | AppSsr | Bootstrap | Files | PublicSite {
    predicate IsApi() { ApiRead? || ApiWrite? || HyperTurbo? }
  }

  /** What `handle` looks at in a request: its lane, and three facts about its path. */
  datatype Request = Request(lane: Lane, bypassesMemo: bool, isFavicon: bool, isHealthPath: bool, diagnostics: bool)

  datatype Memo = Memo(value: bool, at: int)

  const MEMO_TTL_MS := 60000

  /** The module-level variables. */
  datatype Shared = Shared(setupComplete: bool, memo: Option<Memo>, handlers: map<Hook, Handler>, initialized: bool,
                           ready: Option<Pipeline>, api: Option<Pipeline>, setup: Option<Pipeline>, inFlight: int)

  // ------------------------------------------------------------------
  // The stretches between awaits, as functions of the shared state
  // ------------------------------------------------------------------

  /** Whether `currentSetupStateWithMemo` asks `isSetupComplete()`. */
  predicate Probes(sh: Shared, bypass: bool, now: int) {
    bypass || sh.memo.None? || now - sh.memo.value.at >= MEMO_TTL_MS
  }

  function Checked(sh: Shared, bypass: bool, probe: bool, now: int): Shared {
    if Probes(sh, bypass, now) then sh.(memo := Some(Memo(probe, now))) else sh
  }

  /** The hot swap: a change of the setup state drops the cached pipelines. */
  function Swapped(sh: Shared, current: bool): Shared {
    if sh.setupComplete == current then sh
    else sh.(setupComplete := current, ready := None, api := None, setup := None)
  }

  function RealHandlers(): map<Hook, Handler> { map h | h in LAZY :: Real(h) }

  /** The assignments after the imports of `ensureFullMiddleware`. */
  function Installed(sh: Shared): Shared {
    sh.(handlers := RealHandlers(), initialized := true, ready := None)
  }

  /** `wrapHandle` binds the handler a variable holds at this moment. */
  function Resolve(handlers: map<Hook, Handler>, h: Hook): Handler
    requires LAZY <= handlers.Keys
  {
    if h in LAZY then handlers[h] else Real(h)
  }

  function Sequence(handlers: map<Hook, Handler>, hooks: seq<Hook>): (p: Pipeline)
    requires LAZY <= handlers.Keys
    ensures |p| == |hooks| && forall i :: 0 <= i < |p| ==> p[i] == Resolve(handlers, hooks[i])
  {
    seq(|hooks|, i requires 0 <= i < |hooks| => Resolve(handlers, hooks[i]))
  }

  /** The setup branch of `getPipeline`. */
  function SetupChosen(sh: Shared): (Shared, Pipeline)
    requires LAZY <= sh.handlers.Keys
  {
    var p := if sh.setup.Some? then sh.setup.value else Sequence(sh.handlers, SETUP_HOOKS);
    (sh.(setup := Some(p)), p)
  }

  /** The other branch, after the middleware has been awaited. */
  function FullChosen(sh: Shared, lane: Lane): (Shared, Pipeline)
    requires LAZY <= sh.handlers.Keys
  {
    if lane.IsApi() then
      var p := if sh.api.Some? then sh.api.value else Sequence(sh.handlers, API_HOOKS);
      (sh.(api := Some(p)), p)
    else
      var p := if sh.ready.Some? then sh.ready.value else Sequence(sh.handlers, READY_HOOKS);
      (sh.(ready := Some(p)), p)
  }

  /** How `handle` goes on after the setup check: with an answer, with an await, or with a pipeline;
      `complete` is what it read from `setupComplete` when it asked for the pipeline. */
  datatype Turn = Answered | AwaitsContent | AwaitsImports | Runs(complete: bool, pipeline: Pipeline)

  /** `handle` from the fast returns on, up to the next await. */
  function Proceeded(sh: Shared, req: Request): (Shared, Turn)
    requires LAZY <= sh.handlers.Keys
  {
    if req.isFavicon then (sh, Answered)
    else if req.lane.Health? || req.isHealthPath then
      if req.diagnostics then (sh.(inFlight := sh.inFlight + 1), AwaitsContent) else (sh, Answered)
    else
      var counted := sh.(inFlight := sh.inFlight + 1);
      if !counted.setupComplete then
        var (sh', p) := SetupChosen(counted);
        (sh', Runs(false, p))
      else if !counted.initialized then (counted, AwaitsImports)
      else
        var (sh', p) := FullChosen(counted, req.lane);
        (sh', Runs(true, p))
  }

  // ------------------------------------------------------------------
  // The module, with its variables as fields
  // ------------------------------------------------------------------

  class Server {
    var setupComplete: bool
    var setupCheckMemo: Option<Memo>
    var handlers: map<Hook, Handler>
    var fullMiddlewareInitialized: bool
    var cachedPipelineReady: Option<Pipeline>
    var cachedPipelineApi: Option<Pipeline>
    var cachedPipelineSetup: Option<Pipeline>
    var inFlightRequests: int

    ghost function Snapshot(): Shared
      reads this
    {
      Shared(setupComplete, setupCheckMemo, handlers, fullMiddlewareInitialized,
             cachedPipelineReady, cachedPipelineApi, cachedPipelineSetup, inFlightRequests)
    }

    constructor (setupComplete: bool)
      ensures Snapshot() == Start(setupComplete)
    {
      this.setupComplete := setupComplete;
      setupCheckMemo := None;
      handlers := map h | h in LAZY :: PassThrough;
      fullMiddlewareInitialized := false;
      cachedPipelineReady, cachedPipelineApi, cachedPipelineSetup := None, None, None;
      inFlightRequests := 0;
    }

    method CurrentSetupStateWithMemo(bypass: bool, probe: bool, now: int) returns (v: bool)
      modifies this`setupCheckMemo
      ensures Snapshot() == Checked(old(Snapshot()), bypass, probe, now)
      ensures setupCheckMemo.Some? && v == setupCheckMemo.value.value
      ensures var asks := bypass || old(setupCheckMemo).None? || now - old(setupCheckMemo).value.at >= 60000;
              setupCheckMemo == if asks then Some(Memo(probe, now)) else old(setupCheckMemo)
    {
      if bypass {
        v := probe;
        setupCheckMemo := Some(Memo(v, now));
        return;
      }
      if setupCheckMemo.Some? && now - setupCheckMemo.value.at < MEMO_TTL_MS {
        return setupCheckMemo.value.value;
      }
      v := probe;
      setupCheckMemo := Some(Memo(v, now));
    }

    /** The hot-swap check; `load` says that `ensureFullMiddleware` is awaited next. */
    method HotSwap(currentSetupState: bool) returns (load: bool)
      modifies this
      ensures Snapshot() == Swapped(old(Snapshot()), currentSetupState)
      ensures load <==> old(setupComplete) != currentSetupState && currentSetupState
      ensures setupComplete == currentSetupState
      ensures old(setupComplete) != currentSetupState ==>
                cachedPipelineReady == None && cachedPipelineApi == None && cachedPipelineSetup == None
    {
      load := false;
      if setupComplete != currentSetupState {
        setupComplete := currentSetupState;
        cachedPipelineReady := None;
        cachedPipelineApi := None;
        cachedPipelineSetup := None;
        load := setupComplete;
      }
    }

    /** What `ensureFullMiddleware` does once its imports have arrived. */
    method InstallMiddleware()
      modifies this
      ensures Snapshot() == Installed(old(Snapshot()))
      ensures fullMiddlewareInitialized && cachedPipelineReady == None && setupComplete == old(setupComplete)
      ensures handlers.Keys == LAZY && forall h <- LAZY :: handlers[h] == Real(h)
    {
      handlers := RealHandlers();
      fullMiddlewareInitialized := true;
      cachedPipelineReady := None;
    }

    method GetSetupPipeline() returns (p: Pipeline)
      requires LAZY <= handlers.Keys
      modifies this`cachedPipelineSetup
      ensures (Snapshot(), p) == SetupChosen(old(Snapshot()))
      ensures cachedPipelineSetup == Some(p)
      ensures old(cachedPipelineSetup).None? ==> p == [Real(TurboPipeline), Real(Compression)]
    {
      if cachedPipelineSetup.None? {
        cachedPipelineSetup := Some(Sequence(handlers, SETUP_HOOKS));
      }
      p := cachedPipelineSetup.value;
    }

    method GetFullPipeline(lane: Lane) returns (p: Pipeline)
      requires LAZY <= handlers.Keys
      modifies this`cachedPipelineReady, this`cachedPipelineApi
      ensures (Snapshot(), p) == FullChosen(old(Snapshot()), lane)
      ensures if lane in {ApiRead, ApiWrite, HyperTurbo}
              then cachedPipelineApi == Some(p) && cachedPipelineReady == old(cachedPipelineReady)
              else cachedPipelineReady == Some(p) && cachedPipelineApi == old(cachedPipelineApi)
    {
      hide Sequence, LAZY, API_HOOKS, READY_HOOKS;
      if lane.IsApi() {
        if cachedPipelineApi.None? {
          cachedPipelineApi := Some(Sequence(handlers, API_HOOKS));
        }
        return cachedPipelineApi.value;
      }
      if cachedPipelineReady.None? {
        cachedPipelineReady := Some(Sequence(handlers, READY_HOOKS));
      }
      p := cachedPipelineReady.value;
    }

    /** The fast returns, the in-flight counter and the synchronous part of `getPipeline`. */
    method Proceed(req: Request) returns (turn: Turn)
      requires LAZY <= handlers.Keys
      modifies this
      ensures (Snapshot(), turn) == Proceeded(old(Snapshot()), req)
      ensures var health := req.lane.Health? || req.isHealthPath;
              && (turn.Answered? <==> req.isFavicon || (health && !req.diagnostics))
              && (turn.AwaitsContent? <==> !req.isFavicon && health && req.diagnostics)
              && (turn.AwaitsImports? <==>
                    !req.isFavicon && !health && setupComplete && !fullMiddlewareInitialized)
              && (turn.Runs? ==> turn.complete == setupComplete)
      ensures inFlightRequests == old(inFlightRequests) + if turn.Answered? then 0 else 1
    {
      if req.isFavicon { return Answered; }
      if req.lane.Health? || req.isHealthPath {
        inFlightRequests := inFlightRequests + 1;
        if req.diagnostics { return AwaitsContent; }
        inFlightRequests := inFlightRequests - 1;
        return Answered;
      }
      inFlightRequests := inFlightRequests + 1;
      if setupComplete {
        if !fullMiddlewareInitialized { return AwaitsImports; }
        var p := GetFullPipeline(req.lane);
        turn := Runs(true, p);
      } else {
        var p := GetSetupPipeline();
        turn := Runs(false, p);
      }
    }

    /** The `finally` of a counted request. */
    method Leave()
      modifies this`inFlightRequests
      ensures Snapshot() == old(Snapshot()).(inFlight := old(inFlightRequests) - 1)
    {
      inFlightRequests := inFlightRequests - 1;
    }
  }

  /** The variables after the module has been evaluated. */
  function Start(setupComplete: bool): Shared {
    Shared(setupComplete, None, map h | h in LAZY :: PassThrough, false, None, None, None, 0)
  }
}
