/** Where requests go: who is answered without a pipeline, who asks for the setup state, and which hooks the others
    pass. */
module RequestLaws {
  import opened Options
  import opened Dispatcher
  import opened DispatcherRuns

  // ------------------------------------------------------------------
  // Who needs no pipeline
  // ------------------------------------------------------------------

  predicate IsHealth(req: Request) { req.lane.Health? || req.isHealthPath }

  /** Static files, the favicon and plain health checks. */
  predicate Free(req: Request) {
    req.lane.FastStatic? || req.isFavicon || (IsHealth(req) && !req.diagnostics)
  }

  /** Where a request stands once it has passed the hot-swap check, by its path and the setup flag. */
  predicate Routed(req: Request, complete: bool, initialized: bool, p: Phase) {
    if req.isFavicon || (IsHealth(req) && !req.diagnostics) then p.Done?
    else if IsHealth(req) then p.HealthWaiting?
    else if !complete then p.Dispatched? && !p.reading.complete
    else if !initialized then p.PipelineLoading?
    else p.Dispatched? && p.reading.complete
  }

  lemma ResumedRoutes(s: State, id: nat, req: Request, check: Check, waited: bool, now: int)
    requires LAZY <= s.shared.handlers.Keys
    ensures var t := Resumed(s, id, req, check, waited, now);
            && id in t.requests && t.requests[id].req == req
            && Routed(req, s.shared.setupComplete, s.shared.initialized, t.requests[id])
            && t.requests == s.requests[id := t.requests[id]] && t.probes == s.probes && t.boot == s.boot
            && t.shared.memo == s.shared.memo && t.shared.setupComplete == s.shared.setupComplete
            && t.shared.initialized == s.shared.initialized
  {
    hide SetupChosen, FullChosen;
    ChosenKeeps(s.shared.(inFlight := s.shared.inFlight + 1), req.lane);
  }

  lemma ChosenKeeps(sh: Shared, lane: Lane)
    requires LAZY <= sh.handlers.Keys
    ensures var t := SetupChosen(sh).0;
            t.memo == sh.memo && t.setupComplete == sh.setupComplete && t.initialized == sh.initialized
    ensures var t := FullChosen(sh, lane).0;
            t.memo == sh.memo && t.setupComplete == sh.setupComplete && t.initialized == sh.initialized
  {
  }

  /** Whether an arriving request asks `isSetupComplete()`. */
  predicate Asks(s: State, req: Request, now: int) {
    && !req.lane.FastStatic?
    && (req.bypassesMemo || s.shared.memo.None? || now - s.shared.memo.value.at >= 60000)
  }

  /** What it is told. */
  function Told(s: State, req: Request, probe: bool, now: int): bool {
    if Asks(s, req, now) || s.shared.memo.None? then probe else s.shared.memo.value.value
  }

  /** The check and the hot swap: what is asked, remembered and dropped. */
  lemma AskedIs(s: State, req: Request, probe: bool, now: int)
    requires !req.lane.FastStatic?
    ensures var ((t, check), told) := (Asked(s, req, probe, now), Told(s, req, probe, now));
            && check.value == told && t.requests == s.requests && t.shared.setupComplete == told
            && t.probes == s.probes + (if Asks(s, req, now) then [Probe(probe, now)] else [])
            && t.shared.memo == (if Asks(s, req, now) then Some(Memo(probe, now)) else s.shared.memo)
            && t.shared.initialized == s.shared.initialized && t.shared.handlers == s.shared.handlers
            && (s.shared.setupComplete != told ==>
                  t.shared.ready == None && t.shared.api == None && t.shared.setup == None)
  {
  }

  /** The arrival of a request, in full: static files at once; every other request is told the setup state, waits when
      the state has become complete, and is routed otherwise. */
  lemma ArrivalRoutes(s: State, id: nat, req: Request, probe: bool, now: int)
    requires Enabled(s, Arrive(id, req, probe, now))
    ensures var (t, told) := (Next(s, Arrive(id, req, probe, now)), Told(s, req, probe, now));
            && id in t.requests && t.requests[id].req == req && t.requests == s.requests[id := t.requests[id]]
            && t.probes == s.probes + (if Asks(s, req, now) then [Probe(probe, now)] else [])
            && t.shared.memo == (if Asks(s, req, now) then Some(Memo(probe, now)) else s.shared.memo)
            && t.shared.setupComplete == (if req.lane.FastStatic? then s.shared.setupComplete else told)
            && (if req.lane.FastStatic? then t.requests[id].Done?
                else if told && !s.shared.setupComplete then
                  if s.shared.initialized then t.requests[id].SwapDone? else t.requests[id].SwapLoading?
                else Routed(req, told, s.shared.initialized, t.requests[id]))
  {
    hide Proceeded, Resumed, Asked, Told, Asks, Routed;
    if req.lane.FastStatic? {
      StaticAsksNothing(s, req, now);
    } else {
      var (t, check) := Asked(s, req, probe, now);
      AskedIs(s, req, probe, now);
      ResumedRoutes(t, id, req, check, false, now);
    }
  }

  lemma StaticAsksNothing(s: State, req: Request, now: int)
    requires req.lane.FastStatic?
    ensures !Asks(s, req, now)
  {
  }

  /** An incomplete setup state builds no full pipeline. */
  lemma IncompleteBuildsNone(s: State, id: nat, req: Request, check: Check, waited: bool, now: int)
    requires LAZY <= s.shared.handlers.Keys && !s.shared.setupComplete
    ensures var sh := Resumed(s, id, req, check, waited, now).shared;
            sh.ready == s.shared.ready && sh.api == s.shared.api
  {
    hide Sequence;
  }

  /** After an arrival that found the setup state changed to incomplete, no full pipeline is cached. */
  lemma ChangeDropsPipelines(s: State, id: nat, req: Request, probe: bool, now: int)
    requires Enabled(s, Arrive(id, req, probe, now)) && !req.lane.FastStatic?
    requires s.shared.setupComplete && !Told(s, req, probe, now)
    ensures var sh := Next(s, Arrive(id, req, probe, now)).shared; sh.ready == None && sh.api == None
  {
    hide Resumed, Asked, Told, Asks;
    var (t, check) := Asked(s, req, probe, now);
    AskedIs(s, req, probe, now);
    IncompleteBuildsNone(t, id, req, check, false, now);
  }

  /** A request is answered on arrival exactly when it is a static file, or is free and need not wait in the hot
      swap. */
  lemma AnsweredAtOnceIff(s: State, id: nat, req: Request, probe: bool, now: int)
    requires Enabled(s, Arrive(id, req, probe, now))
    ensures var t := Next(s, Arrive(id, req, probe, now));
            id in t.requests
            && (t.requests[id].Done? <==>
                req.lane.FastStatic? || (Free(req) && !(Told(s, req, probe, now) && !s.shared.setupComplete)))
  {
    hide Next, Enabled;
    ArrivalRoutes(s, id, req, probe, now);
  }

  // ------------------------------------------------------------------
  // Over runs
  // ------------------------------------------------------------------

  /** The phases from which a request finishes. */
  predicate Leaving(p: Phase) { p.Dispatched? || p.PipelineFailed? || p.HealthWaiting? }

  /** The request an event is about. */
  function About(e: Event): Option<nat> {
    match e
    case Arrive(id, _, _, _) => Some(id)
    case ImportsArrive(id) => Some(id)
    case ImportsFail(id) => Some(id)
    case ResumeSwap(id, _) => Some(id)
    case ResumePipeline(id, _) => Some(id)
    case Finish(id) => Some(id)
    case _ => None
  }

  /** One step leaves the other requests alone, and keeps the request itself. */
  lemma StepKeeps(s: State, e: Event)
    requires Enabled(s, e)
    ensures var t := Next(s, e);
            && (forall id :: id in t.requests && About(e) != Some(id) ==>
                  id in s.requests && t.requests[id] == s.requests[id])
            && (forall id :: id in s.requests ==> id in t.requests && t.requests[id].req == s.requests[id].req)
            && (forall id :: id in t.requests && id !in s.requests ==>
                  e.Arrive? && e.id == id && t.requests[id].req == e.req)
  {
    hide Proceeded, Resumed, FullChosen, Arrived;
    match e
    case Arrive(id, req, probe, now) => ArrivalRoutes(s, id, req, probe, now);
    case ResumeSwap(id, now) => ResumedRoutes(s, id, s.requests[id].req, s.requests[id].check, true, now);
    case _ =>
  }

  /** How a step can make a request done. */
  lemma StepFinishes(s: State, e: Event, id: nat)
    requires Enabled(s, e) && id in Next(s, e).requests && Next(s, e).requests[id].Done?
    ensures || Free(Next(s, e).requests[id].req)
            || (id in s.requests && (Leaving(s.requests[id]) || s.requests[id].Done?))
  {
    hide Proceeded, Resumed, FullChosen, Arrived;
    StepKeeps(s, e);
    match e
    case Arrive(n, req, probe, now) => ArrivalRoutes(s, n, req, probe, now);
    case ResumeSwap(n, now) => ResumedRoutes(s, n, s.requests[n].req, s.requests[n].check, true, now);
    case _ =>
  }

  /** At some point of the run the request was dispatched, had its imports fail, or awaited the content system. */
  ghost predicate Left(probe: bool, at: int, run: seq<Event>, id: nat) {
    exists k :: 0 <= k <= |run| && WasLeaving(After(probe, at, run[..k]), id)
  }

  predicate WasLeaving(s: Option<State>, id: nat) {
    s.Some? && id in s.value.requests && Leaving(s.value.requests[id])
  }

  lemma LeftLonger(probe: bool, at: int, run: seq<Event>, id: nat)
    requires run != [] && Left(probe, at, run[..|run| - 1], id)
    ensures Left(probe, at, run, id)
  {
    hide After;
    var n := |run| - 1;
    var k :| 0 <= k <= n && WasLeaving(After(probe, at, run[..n][..k]), id);
    assert run[..n][..k] == run[..k];
  }

  lemma LeftNow(probe: bool, at: int, run: seq<Event>, k: nat, id: nat)
    requires k <= |run| && WasLeaving(After(probe, at, run[..k]), id)
    ensures Left(probe, at, run, id)
  {
  }

  /** In every run a finished request was free, or a pipeline was served to it, or its imports failed, or it was a
      diagnostic health check. */
  lemma {:induction false} DoneBecause(probe: bool, at: int, run: seq<Event>, id: nat)
    requires After(probe, at, run).Some? && id in After(probe, at, run).value.requests
    requires After(probe, at, run).value.requests[id].Done?
    ensures Free(After(probe, at, run).value.requests[id].req) || Left(probe, at, run, id)
  {
    hide Next, Enabled, Left, Leaving;
    if run != [] {
      var n := |run| - 1;
      var s := After(probe, at, run[..n]).value;
      StepKeeps(s, run[n]);
      StepFinishes(s, run[n], id);
      if id in s.requests && !Free(s.requests[id].req) {
        if s.requests[id].Done? {
          DoneBecause(probe, at, run[..n], id);
          LeftLonger(probe, at, run, id);
        } else {
          assert WasLeaving(After(probe, at, run[..n]), id);
          LeftNow(probe, at, run, n, id);
        }
      }
    }
  }

  ghost predicate Arrives(run: seq<Event>, id: nat, req: Request) {
    exists k :: 0 <= k < |run| && run[k].Arrive? && run[k].id == id && run[k].req == req
  }

  /** The request a phase carries is the one that arrived. */
  lemma {:induction false} RequestArrived(probe: bool, at: int, run: seq<Event>, id: nat)
    requires After(probe, at, run).Some? && id in After(probe, at, run).value.requests
    ensures Arrives(run, id, After(probe, at, run).value.requests[id].req)
  {
    if run != [] {
      hide Next, Enabled;
      var n := |run| - 1;
      var s := After(probe, at, run[..n]).value;
      StepKeeps(s, run[n]);
      if id in s.requests {
        RequestArrived(probe, at, run[..n], id);
        var k :| 0 <= k < n && run[..n][k].Arrive? && run[..n][k].id == id && run[..n][k].req == s.requests[id].req;
        assert run[k] == run[..n][k];
      }
    }
  }

  lemma StepMemo(s: State, e: Event)
    requires Enabled(s, e)
    ensures var t := Next(s, e);
            || (t.shared.memo == s.shared.memo && t.probes == s.probes)
            || (t.shared.memo.Some? && |t.probes| == |s.probes| + 1)
  {
    hide Proceeded, Resumed, FullChosen, Arrived;
    match e
    case Arrive(n, req, probe, now) => ArrivalRoutes(s, n, req, probe, now);
    case ResumeSwap(n, now) => ResumedRoutes(s, n, s.requests[n].req, s.requests[n].check, true, now);
    case ResumePipeline(n, now) => ChosenKeeps(s.shared, s.requests[n].req.lane);
    case _ =>
  }

  /** There is a memo exactly when some request has asked; the answer at start-up leaves none. */
  lemma {:induction false} MemoOnceAsked(probe: bool, at: int, run: seq<Event>)
    requires After(probe, at, run).Some?
    ensures var s := After(probe, at, run).value; |s.probes| >= 1 && (s.shared.memo.Some? <==> |s.probes| > 1)
  {
    if run != [] {
      hide Next, Enabled;
      MemoOnceAsked(probe, at, run[..|run| - 1]);
      StepMemo(After(probe, at, run[..|run| - 1]).value, run[|run| - 1]);
    }
  }

  /** A request asks exactly when its path bypasses the memo, when none has asked before it, or when the latest answer
      is at least 60 seconds old; otherwise it is told that answer. */
  lemma AsksIff(probe: bool, at: int, run: seq<Event>, req: Request, answer: bool, now: int)
    requires After(probe, at, run).Some?
    ensures var s := After(probe, at, run).value;
            && s.probes != []
            && var last := s.probes[|s.probes| - 1];
            && (Asks(s, req, now) <==>
                !req.lane.FastStatic? && (req.bypassesMemo || |s.probes| == 1 || now - last.at >= 60000))
            && (!req.lane.FastStatic? ==> Told(s, req, answer, now) == if Asks(s, req, now) then answer else last.value)
  {
    hide After;
    AlwaysInv(probe, at, run);
    MemoOnceAsked(probe, at, run);
  }

  /** The middleware starts loading with the module exactly when setup is complete then; once it has arrived, requests
      that find setup complete are served at once. */
  lemma BootLoadsIff(probe: bool, at: int)
    ensures Enabled(Initial(probe, at), BootArrives) <==> probe
    ensures probe ==> Next(Initial(probe, at), BootArrives).shared.initialized
  {
  }

  // ------------------------------------------------------------------
  // Which hooks
  // ------------------------------------------------------------------

  /** The hooks of a full pipeline. */
  lemma FullHooks(lane: Lane, h: Hook)
    ensures Real(h) in FullPipeline(lane) <==>
            !(lane in {ApiRead, ApiWrite, HyperTurbo} && h in {Redirects, AeoHeaders, UserPreferences})
  {
    if lane.IsApi() { ApiHas(h); RealMembers(API_HOOKS, h); } else { ReadyHas(h); RealMembers(READY_HOOKS, h); }
  }

  lemma RealMembers(hooks: seq<Hook>, h: Hook)
    ensures Real(h) in RealPipeline(hooks) <==> h in hooks
  {
    if h in hooks {
      var i :| 0 <= i < |hooks| && hooks[i] == h;
      assert RealPipeline(hooks)[i] == Real(h);
    }
  }

  /** Where in the order of the page pipeline each hook comes. */
  function Rank(h: Hook): nat {
    match h
    case TurboPipeline => 0
    case TestIsolation => 1
    case Security => 2
    case RateLimit => 3
    case SystemState => 4
    case TurboGet => 5
    case Redirects => 6
    case Compression => 7
    case AeoHeaders => 8
    case UserPreferences => 9
    case Authentication => 10
    case Authorization => 11
    case LocalSdk => 12
    case ContentInitialization => 13
    case AuditLogging => 14
    case ApiRequests => 15
    case TokenResolution => 16
  }

  lemma ReadyHas(h: Hook)
    ensures |READY_HOOKS| == 17 && READY_HOOKS[Rank(h)] == h
  {
  }

  lemma ApiHas(h: Hook)
    ensures h in API_HOOKS <==> h !in {Redirects, AeoHeaders, UserPreferences}
  {
    var i := if Rank(h) <= 5 then Rank(h) else if Rank(h) == 7 then 6 else if Rank(h) >= 10 then Rank(h) - 3 else 0;
    assert h !in {Redirects, AeoHeaders, UserPreferences} ==> API_HOOKS[i] == h;
  }

  /** In every full pipeline the hooks run in one order: the gates first, authentication before authorization, and both
      before everything that serves content or the API. */
  lemma FullInOrder(lane: Lane, i: nat, j: nat)
    requires i < j < |FullPipeline(lane)|
    ensures var p := FullPipeline(lane); p[i].Real? && p[j].Real? && Rank(p[i].hook) < Rank(p[j].hook)
  {
    if lane.IsApi() { ApiInOrder(i, j); } else { ReadyInOrder(i, j); }
  }

  lemma ReadyInOrder(i: nat, j: nat)
    requires i < j < |READY_HOOKS|
    ensures Rank(READY_HOOKS[i]) < Rank(READY_HOOKS[j])
  {
    ReadyRank(i);
    ReadyRank(j);
  }

  lemma ReadyRank(i: nat)
    requires i < |READY_HOOKS|
    ensures Rank(READY_HOOKS[i]) == i
  {
  }

  lemma ApiInOrder(i: nat, j: nat)
    requires i < j < |API_HOOKS|
    ensures Rank(API_HOOKS[i]) < Rank(API_HOOKS[j])
  {
    ApiRank(i);
    ApiRank(j);
  }

  lemma ApiRank(i: nat)
    requires i < |API_HOOKS|
    ensures Rank(API_HOOKS[i]) == if i <= 5 then i else if i == 6 then 7 else i + 3
  {
  }

  /** Of every run: a request that read setup as complete and was served passes every hook of its kind, in that order,
      none of them a pass-through; one that read it as incomplete passes two. */
  lemma ServedInOrder(probe: bool, at: int, run: seq<Event>, id: nat)
    requires After(probe, at, run).Some? && id in After(probe, at, run).value.requests
    requires After(probe, at, run).value.requests[id].Dispatched?
    ensures var p := After(probe, at, run).value.requests[id];
            && (forall i :: 0 <= i < |p.pipeline| ==> p.pipeline[i].Real?)
            && (forall i, j :: 0 <= i < j < |p.pipeline| ==> Rank(p.pipeline[i].hook) < Rank(p.pipeline[j].hook))
            && forall h :: Real(h) in p.pipeline <==>
                 if p.reading.complete
                 then !(p.req.lane in {ApiRead, ApiWrite, HyperTurbo} && h in {Redirects, AeoHeaders, UserPreferences})
                 else h in {TurboPipeline, Compression}
  {
    hide After, FullPipeline, RealPipeline, Rank;
    ReadsLatestAnswer(probe, at, run, id);
    var p := After(probe, at, run).value.requests[id];
    if p.reading.complete {
      FullReal(p.req.lane);
      forall i, j | 0 <= i < j < |p.pipeline| ensures Rank(p.pipeline[i].hook) < Rank(p.pipeline[j].hook) {
        FullInOrder(p.req.lane, i, j);
      }
      forall h
        ensures Real(h) in p.pipeline <==>
                !(p.req.lane in {ApiRead, ApiWrite, HyperTurbo} && h in {Redirects, AeoHeaders, UserPreferences})
      {
        FullHooks(p.req.lane, h);
      }
    } else {
      SetupHooks();
    }
  }

  lemma FullReal(lane: Lane)
    ensures forall i :: 0 <= i < |FullPipeline(lane)| ==> FullPipeline(lane)[i].Real?
  {
  }

  lemma SetupHooks()
    ensures RealPipeline(SETUP_HOOKS) == [Real(TurboPipeline), Real(Compression)]
    ensures Rank(TurboPipeline) < Rank(Compression)
  {
  }

  /** Three hooks are imported statically; the others are pass-throughs until the imports arrive. */
  lemma LazyHooks(h: Hook)
    ensures h !in LAZY <==> h in {TurboPipeline, TurboGet, Compression}
    ensures Start(true).handlers == Start(false).handlers == map x | x in LAZY :: PassThrough
  {
  }
}
