/** All interleavings of requests in src/hooks.server.ts, as runs of a transition system whose steps are
    the stretches of code between awaits. */
module DispatcherRuns {
  import opened Options
  import opened Dispatcher

  /** An answer of `isSetupComplete()`. */
  datatype Probe = Probe(value: bool, at: int)

  /** What a request learnt from `currentSetupStateWithMemo`, and when. */
  datatype Check = Check(value: bool, probedAt: int, at: int)

  /** The reading of `setupComplete` in `getPipeline`: whether the request had waited in the hot swap, what it
      read, when, and how many answers `isSetupComplete()` had given by then. */
  datatype Reading = Reading(waited: bool, complete: bool, at: int, asked: nat)

  /** Where a request stands while it awaits. */
  datatype Phase =
    | SwapLoading(req: Request, check: Check)                               // imports, in the hot swap
    | SwapDone(req: Request, check: Check)                                  // ensureFullMiddleware has settled
    | HealthWaiting(req: Request, check: Check)                             // import of the content system
    | PipelineLoading(req: Request, check: Check, reading: Reading)         // imports, in getPipeline
    | PipelineLoaded(req: Request, check: Check, reading: Reading)          // imports have arrived
    | PipelineFailed(req: Request, check: Check, reading: Reading)          // imports were rejected
    | Dispatched(req: Request, check: Check, reading: Reading, loaded: bool, served: int, pipeline: Pipeline)
                                                                            // getPipeline has returned, at `served`
    | Done(req: Request)
  {
    predicate HasRead() { PipelineLoading? || PipelineLoaded? || PipelineFailed? || Dispatched? }
  }

  datatype Boot = NoLoad | Loading | Settled

  datatype State = State(shared: Shared, boot: Boot, requests: map<nat, Phase>, probes: seq<Probe>)

  datatype Event =
    | Arrive(id: nat, req: Request, probe: bool, now: int)
    | ImportsArrive(id: nat) | ImportsFail(id: nat)
    | ResumeSwap(id: nat, now: int) | ResumePipeline(id: nat, now: int) | Finish(id: nat)
    | BootArrives | BootFails

  /** Between its increment and its `finally`. */
  predicate InFlight(p: Phase) {
    p.HealthWaiting? || p.PipelineLoading? || p.PipelineLoaded? || p.PipelineFailed? || p.Dispatched?
  }

  predicate Enabled(s: State, e: Event) {
    && LAZY <= s.shared.handlers.Keys
    && match e
       case Arrive(id, _, _, _) => id !in s.requests
       case ImportsArrive(id) => id in s.requests && (s.requests[id].SwapLoading? || s.requests[id].PipelineLoading?)
       case ImportsFail(id) => id in s.requests && (s.requests[id].SwapLoading? || s.requests[id].PipelineLoading?)
       case ResumeSwap(id, _) => id in s.requests && s.requests[id].SwapDone?
       case ResumePipeline(id, _) => id in s.requests && s.requests[id].PipelineLoaded?
       case Finish(id) => id in s.requests &&
           (s.requests[id].Dispatched? || s.requests[id].PipelineFailed? || s.requests[id].HealthWaiting?)
       case BootArrives => s.boot.Loading?
       case BootFails => s.boot.Loading?
  }

  /** What `getPipeline` reads in this state. */
  function Read(s: State, waited: bool, now: int): Reading {
    Reading(waited, s.shared.setupComplete, now, |s.probes|)
  }

  function PhaseOf(req: Request, check: Check, reading: Reading, turn: Turn): Phase {
    match turn
    case Answered => Done(req)
    case AwaitsContent => HealthWaiting(req, check)
    case AwaitsImports => PipelineLoading(req, check, reading)
    case Runs(_, p) => Dispatched(req, check, reading, false, reading.at, p)
  }

  /** A request goes on after the hot-swap check. */
  function Resumed(s: State, id: nat, req: Request, check: Check, waited: bool, now: int): State
    requires LAZY <= s.shared.handlers.Keys
  {
    var (sh, turn) := Proceeded(s.shared, req);
    s.(shared := sh, requests := s.requests[id := PhaseOf(req, check, Read(s, waited, now), turn)])
  }

  /** `handle` from its start to its first await. */
  function Arrived(s: State, id: nat, req: Request, probe: bool, now: int): State
    requires LAZY <= s.shared.handlers.Keys
  {
    if req.lane.FastStatic? then s.(requests := s.requests[id := Done(req)]) else
    var (t, check) := Asked(s, req, probe, now);
    if t.shared.setupComplete != s.shared.setupComplete && check.value then
      var phase := if t.shared.initialized then SwapDone(req, check) else SwapLoading(req, check);
      t.(requests := t.requests[id := phase])
    else Resumed(t, id, req, check, false, now)
  }

  /** The setup check and the hot swap at the start of `handle`. */
  function Asked(s: State, req: Request, probe: bool, now: int): (State, Check) {
    var checked := Checked(s.shared, req.bypassesMemo, probe, now);
    var probes := if Probes(s.shared, req.bypassesMemo, now) then s.probes + [Probe(probe, now)] else s.probes;
    var check := Check(checked.memo.value.value, checked.memo.value.at, now);
    (s.(shared := Swapped(checked, check.value), probes := probes), check)
  }

  /** The imports a request waits for have arrived, or have been rejected; the hot swap swallows a rejection. */
  function AfterImports(p: Phase): Phase
    requires p.SwapLoading? || p.PipelineLoading?
  {
    if p.SwapLoading? then SwapDone(p.req, p.check) else PipelineLoaded(p.req, p.check, p.reading)
  }

  function AfterFailure(p: Phase): Phase
    requires p.SwapLoading? || p.PipelineLoading?
  {
    if p.SwapLoading? then SwapDone(p.req, p.check) else PipelineFailed(p.req, p.check, p.reading)
  }

  function Next(s: State, e: Event): State
    requires Enabled(s, e)
  {
    match e
    case Arrive(id, req, probe, now) => Arrived(s, id, req, probe, now)
    case ImportsArrive(id) =>
      var p := s.requests[id];
      s.(shared := Installed(s.shared),
         requests := s.requests[id := AfterImports(p)])
    case ImportsFail(id) =>
      var p := s.requests[id];
      s.(requests := s.requests[id := AfterFailure(p)])
    case ResumeSwap(id, now) =>
      Resumed(s, id, s.requests[id].req, s.requests[id].check, true, now)
    case ResumePipeline(id, now) =>
      var p := s.requests[id];
      var (sh, pipeline) := FullChosen(s.shared, p.req.lane);
      s.(shared := sh, requests := s.requests[id := Dispatched(p.req, p.check, p.reading, true, now, pipeline)])
    case Finish(id) =>
      s.(shared := s.shared.(inFlight := s.shared.inFlight - 1), requests := s.requests[id := Done(s.requests[id].req)])
    case BootArrives => s.(shared := Installed(s.shared), boot := Settled)
    case BootFails => s.(boot := Settled)
  }

  /** The module has been evaluated with this answer of `isSetupComplete()`; when it is true the
      middleware starts loading. */
  function Initial(probe: bool, at: int): State {
    State(Start(probe), if probe then Loading else NoLoad, map[], [Probe(probe, at)])
  }

  /** The state after a run, for any number of requests, any interleaving and any failures; `None` when
      some event of the list could not happen where it stands. */
  function After(probe: bool, at: int, run: seq<Event>): Option<State> {
    if run == [] then Some(Initial(probe, at))
    else
      var before := After(probe, at, run[..|run| - 1]);
      if before.Some? && Enabled(before.value, run[|run| - 1]) then Some(Next(before.value, run[|run| - 1])) else None
  }

  // ------------------------------------------------------------------
  // The steps are what the server does
  // ------------------------------------------------------------------

  /** The pipeline an event hands to its request, if any. */
  function Served(s: State, e: Event): Option<Pipeline>
    requires Enabled(s, e)
  {
    match e
    case Arrive(id, _, _, _) => PipelineOf(Next(s, e).requests[id])
    case ResumeSwap(id, _) => PipelineOf(Next(s, e).requests[id])
    case ResumePipeline(id, _) => PipelineOf(Next(s, e).requests[id])
    case _ => None
  }

  function PipelineOf(p: Phase): Option<Pipeline> {
    if p.Dispatched? then Some(p.pipeline) else None
  }

  function PipelineOfTurn(turn: Turn): Option<Pipeline> {
    if turn.Runs? then Some(turn.pipeline) else None
  }

  lemma StaticIs(s: State, id: nat, req: Request, probe: bool, now: int)
    requires Enabled(s, Arrive(id, req, probe, now))
    ensures LAZY <= s.shared.handlers.Keys
    ensures req.lane.FastStatic? ==>
              Next(s, Arrive(id, req, probe, now)).shared == s.shared && Served(s, Arrive(id, req, probe, now)) == None
  {
    hide Proceeded, Swapped, Checked;
  }

  lemma ArriveIs(s: State, id: nat, req: Request, probe: bool, now: int)
    requires Enabled(s, Arrive(id, req, probe, now)) && !req.lane.FastStatic?
    ensures var checked := Checked(s.shared, req.bypassesMemo, probe, now);
            checked.memo.Some?
            && var current := checked.memo.value.value;
               var swapped := Swapped(checked, current);
            && LAZY <= swapped.handlers.Keys
            && var e := Arrive(id, req, probe, now);
               if s.shared.setupComplete != current && current then Next(s, e).shared == swapped && Served(s, e) == None
               else
                 var (sh, turn) := Proceeded(swapped, req);
                 Next(s, e).shared == sh && Served(s, e) == PipelineOfTurn(turn)
  {
    hide Proceeded, Resumed;
    var (t, check) := Asked(s, req, probe, now);
    assert LAZY <= t.shared.handlers.Keys;
    ResumedServes(t, id, req, check, false, now);
  }

  lemma ResumedServes(s: State, id: nat, req: Request, check: Check, waited: bool, now: int)
    requires LAZY <= s.shared.handlers.Keys
    ensures var (t, (sh, turn)) := (Resumed(s, id, req, check, waited, now), Proceeded(s.shared, req));
            t.shared == sh && id in t.requests && PipelineOf(t.requests[id]) == PipelineOfTurn(turn)
  {
    hide Proceeded;
    TurnIsPhase(req, check, Read(s, waited, now), Proceeded(s.shared, req).1);
  }

  lemma TurnIsPhase(req: Request, check: Check, reading: Reading, turn: Turn)
    ensures PipelineOf(PhaseOf(req, check, reading, turn)) == PipelineOfTurn(turn)
  {
    match turn
    case Answered =>
    case AwaitsContent =>
    case AwaitsImports =>
    case Runs(_, _) =>
  }

  /** `handle` from its start to its first await. */
  method Handle(server: Server, s: State, id: nat, req: Request, probe: bool, now: int)
    returns (pipeline: Option<Pipeline>)
    requires Enabled(s, Arrive(id, req, probe, now)) && server.Snapshot() == s.shared
    modifies server
    ensures server.Snapshot() == Next(s, Arrive(id, req, probe, now)).shared
    ensures pipeline == Served(s, Arrive(id, req, probe, now))
  {
    hide Proceeded, FullChosen, Installed, Next, Served, Arrived, Swapped;
    StaticIs(s, id, req, probe, now);
    pipeline := None;
    if req.lane.FastStatic? { return; }
    ArriveIs(s, id, req, probe, now);
    var currentSetupState := server.CurrentSetupStateWithMemo(req.bypassesMemo, probe, now);
    var load := server.HotSwap(currentSetupState);
    if load { return; }
    var turn := server.Proceed(req);
    pipeline := PipelineOfTurn(turn);
  }

  /** `handle`, stretch by stretch: the methods of the server, called as the code calls them, make every step of
      the transition system. */
  method Perform(server: Server, s: State, e: Event) returns (pipeline: Option<Pipeline>)
    requires Enabled(s, e) && server.Snapshot() == s.shared
    modifies server
    ensures server.Snapshot() == Next(s, e).shared && pipeline == Served(s, e)
  {
    hide Proceeded, FullChosen, Installed, Arrived;
    pipeline := None;
    match e
    case Arrive(id, req, probe, now) => pipeline := Handle(server, s, id, req, probe, now);
    case ImportsArrive(_) => server.InstallMiddleware();
    case ImportsFail(_) =>
    case ResumeSwap(id, _) =>
      var turn := server.Proceed(s.requests[id].req);
      pipeline := PipelineOfTurn(turn);
    case ResumePipeline(id, _) =>
      var p := server.GetFullPipeline(s.requests[id].req.lane);
      pipeline := Some(p);
    case Finish(_) => server.Leave();
    case BootArrives => server.InstallMiddleware();
    case BootFails =>
  }

  // ------------------------------------------------------------------
  // The invariant
  // ------------------------------------------------------------------

  predicate AllReal(p: Pipeline) { PassThrough !in p }

  function RealPipeline(hooks: seq<Hook>): (p: Pipeline)
    ensures |p| == |hooks| && AllReal(p)
  {
    seq(|hooks|, i requires 0 <= i < |hooks| => Real(hooks[i]))
  }

  function FullPipeline(lane: Lane): Pipeline { RealPipeline(if lane.IsApi() then API_HOOKS else READY_HOOKS) }

  predicate Caches(cache: Option<Pipeline>, p: Pipeline) { cache.Some? ==> cache.value == p }

  /** The handlers change from all pass-through to all real at once, and pipelines are built only after. */
  predicate SharedOk(sh: Shared) {
    && sh.handlers == (if sh.initialized then RealHandlers() else map h | h in LAZY :: PassThrough)
    && (!sh.initialized ==> sh.ready.None? && sh.api.None?)
    && Caches(sh.ready, RealPipeline(READY_HOOKS)) && Caches(sh.api, RealPipeline(API_HOOKS))
    && Caches(sh.setup, RealPipeline(SETUP_HOOKS))
  }

  /** The memo is the latest answer, and that answer is the flag. */
  predicate Answers(probes: seq<Probe>, m: Memo, flag: bool) {
    probes != [] && m.value == flag && probes[|probes| - 1] == Probe(m.value, m.at)
  }

  /** The setup flag is the latest answer of `isSetupComplete()`, and so is the memo. */
  predicate SetupOk(s: State) {
    && s.probes != [] && s.probes[|s.probes| - 1].value == s.shared.setupComplete
    && (s.shared.memo.Some? ==> Answers(s.probes, s.shared.memo.value, s.shared.setupComplete))
  }

  predicate CheckOk(probes: seq<Probe>, req: Request, c: Check) {
    && Probe(c.value, c.probedAt) in probes
    && c.at - c.probedAt < MEMO_TTL_MS
    && (req.bypassesMemo ==> c.probedAt == c.at)
  }

  /** A request that waited in the hot swap had just been given a new answer; one that did not wait reads at
      once what its check found; every request reads the latest answer. */
  predicate ReadingOk(probes: seq<Probe>, c: Check, r: Reading) {
    && 0 < r.asked <= |probes| && r.complete == probes[r.asked - 1].value
    && (!r.waited ==> r.at == c.at && r.complete == c.value && probes[r.asked - 1] == Probe(c.value, c.probedAt))
    && (r.waited ==> c.value && c.probedAt == c.at)
  }

  predicate PhaseOk(sh: Shared, probes: seq<Probe>, p: Phase) {
    && (!p.Done? ==> CheckOk(probes, p.req, p.check))
    && (p.SwapLoading? || p.SwapDone? ==> p.check.value && p.check.probedAt == p.check.at)
    && (p.HasRead() ==> ReadingOk(probes, p.check, p.reading))
    && (p.PipelineLoading? || p.PipelineLoaded? || p.PipelineFailed? ==> p.reading.complete)
    && (p.PipelineLoaded? ==> sh.initialized)
    && (p.Dispatched? ==> DispatchOk(p.req, p.reading, p.loaded, p.served, p.pipeline))
  }

  predicate DispatchOk(req: Request, r: Reading, loaded: bool, served: int, pipeline: Pipeline) {
    && (!loaded ==> served == r.at)
    && pipeline == if r.complete then FullPipeline(req.lane) else RealPipeline(SETUP_HOOKS)
  }

  ghost predicate RequestsOk(s: State) {
    forall id :: id in s.requests ==> PhaseOk(s.shared, s.probes, s.requests[id])
  }

  function Counted(requests: map<nat, Phase>): set<nat> {
    set id | id in requests && InFlight(requests[id])
  }

  ghost predicate Inv(s: State) {
    && SharedOk(s.shared) && SetupOk(s) && RequestsOk(s)
    && s.shared.inFlight == |Counted(s.requests)|
  }

  // ------------------------------------------------------------------
  // Every step keeps it
  // ------------------------------------------------------------------

  function Only(id: nat, b: bool): set<nat> { if b then {id} else {} }

  lemma CountedSplit(requests: map<nat, Phase>, id: nat, p: Phase)
    ensures Counted(requests) == (Counted(requests) - {id}) + Only(id, id in requests && InFlight(requests[id]))
    ensures Counted(requests[id := p]) == (Counted(requests) - {id}) + Only(id, InFlight(p))
  {
    hide InFlight;
  }

  lemma CountUpdate(requests: map<nat, Phase>, id: nat, p: Phase)
    ensures |Counted(requests[id := p])| ==
            |Counted(requests)| - (if id in requests && InFlight(requests[id]) then 1 else 0) +
                (if InFlight(p) then 1 else 0)
  {
    hide InFlight, Counted;
    var rest := Counted(requests) - {id};
    CountedSplit(requests, id, p);
    assert |rest + {id}| == |rest| + 1;
    assert rest + {} == rest;
  }

  lemma FullChosenOk(sh: Shared, lane: Lane)
    requires SharedOk(sh) && sh.initialized
    ensures var (sh', p) := FullChosen(sh, lane);
            SharedOk(sh') && p == FullPipeline(lane) && sh' == sh.(ready := sh'.ready, api := sh'.api)
  {
  }

  lemma SetupChosenOk(sh: Shared)
    requires SharedOk(sh)
    ensures var (sh', p) := SetupChosen(sh);
            SharedOk(sh') && p == RealPipeline(SETUP_HOOKS) && sh' == sh.(setup := sh'.setup)
  {
  }

  /** Only the caches and the counter change when a request goes on, and what it gets is right. */
  lemma ProceededOk(sh: Shared, req: Request)
    requires SharedOk(sh)
    ensures var (sh', turn) := Proceeded(sh, req);
            && SharedOk(sh')
            && sh' == sh.(ready := sh'.ready, api := sh'.api, setup := sh'.setup, inFlight := sh'.inFlight)
            && sh'.inFlight == sh.inFlight + (if turn.Answered? then 0 else 1)
            && (turn.Runs? ==> turn.complete == sh.setupComplete)
            && (turn.AwaitsImports? ==> sh.setupComplete)
            && (turn.Runs? ==> turn.pipeline == if turn.complete then FullPipeline(req.lane)
               else RealPipeline(SETUP_HOOKS))
  {
    hide SetupChosen, FullChosen, RealPipeline, FullPipeline;
    var counted := sh.(inFlight := sh.inFlight + 1);
    SetupChosenOk(counted);
    if counted.initialized { FullChosenOk(counted, req.lane); }
  }

  /** A change of the shared state that keeps `initialized` keeps every request right. */
  lemma RequestsKept(s: State, t: State, id: nat, p: Phase)
    requires RequestsOk(s) && t.requests == s.requests[id := p] && PhaseOk(t.shared, t.probes, p)
    requires s.shared.initialized ==> t.shared.initialized
    requires s.probes <= t.probes
    ensures RequestsOk(t)
  {
    hide DispatchOk;
  }

  /** What the check of a request must promise for its reading to be right. */
  predicate ReadsRight(s: State, c: Check, waited: bool, now: int) {
    && (waited ==> c.value && c.probedAt == c.at)
    && (!waited ==> now == c.at && c.value == s.shared.setupComplete)
    && (!waited ==> s.probes != [] && s.probes[|s.probes| - 1] == Probe(c.value, c.probedAt))
  }

  lemma ReadOk(s: State, c: Check, waited: bool, now: int)
    requires SetupOk(s) && ReadsRight(s, c, waited, now)
    ensures ReadingOk(s.probes, c, Read(s, waited, now))
  {
  }

  lemma ResumedOk(s: State, id: nat, req: Request, check: Check, waited: bool, now: int)
    requires Inv(s) && CheckOk(s.probes, req, check) && (id in s.requests ==> !InFlight(s.requests[id]))
    requires ReadsRight(s, check, waited, now)
    ensures Inv(Resumed(s, id, req, check, waited, now))
  {
    hide Proceeded, SharedOk, CheckOk, FullPipeline, RealPipeline, Counted, RequestsOk, ReadingOk, ReadsRight;
    HandlersKnown(s.shared);
    var (sh, turn) := Proceeded(s.shared, req);
    var p := PhaseOf(req, check, Read(s, waited, now), turn);
    ProceededOk(s.shared, req);
    ReadOk(s, check, waited, now);
    CountUpdate(s.requests, id, p);
    RequestsKept(s, Resumed(s, id, req, check, waited, now), id, p);
  }

  lemma HandlersKnown(sh: Shared)
    requires SharedOk(sh)
    ensures LAZY <= sh.handlers.Keys
  {
  }

  lemma InstalledOk(sh: Shared)
    requires SharedOk(sh)
    ensures SharedOk(Installed(sh)) && Installed(sh).setupComplete == sh.setupComplete
            && Installed(sh).memo == sh.memo && Installed(sh).inFlight == sh.inFlight
  {
    hide RealPipeline;
  }

  /** The setup check: the flag, the memo and the check of the request all carry the latest answer. */
  lemma AskedOk(s: State, req: Request, probe: bool, now: int)
    requires Inv(s)
    ensures var (t, check) := Asked(s, req, probe, now);
            && SharedOk(t.shared) && SetupOk(t) && CheckOk(t.probes, req, check) && ReadsRight(t, check, false, now)
            && (t.shared.setupComplete != s.shared.setupComplete ==> check.probedAt == check.at)
            && t.shared.initialized == s.shared.initialized && t.shared.inFlight == s.shared.inFlight
            && t.requests == s.requests && s.probes <= t.probes
  {
  }

  lemma RequestsCarry(s: State, t: State)
    requires RequestsOk(s) && t.requests == s.requests && (s.shared.initialized ==> t.shared.initialized)
    requires s.probes <= t.probes
    ensures RequestsOk(t)
  {
  }

  lemma ArrivedOk(s: State, id: nat, req: Request, probe: bool, now: int)
    requires Inv(s) && id !in s.requests && LAZY <= s.shared.handlers.Keys
    ensures Inv(Arrived(s, id, req, probe, now))
  {
    hide Asked, SharedOk, SetupOk, CheckOk, RequestsOk, Counted, FullPipeline, RealPipeline, Resumed, ReadsRight;
    if req.lane.FastStatic? {
      CountUpdate(s.requests, id, Done(req));
      RequestsKept(s, Arrived(s, id, req, probe, now), id, Done(req));
      SetupKept(s, Arrived(s, id, req, probe, now));
    } else {
      AskedOk(s, req, probe, now);
      var (t, check) := Asked(s, req, probe, now);
      HandlersKnown(t.shared);
      RequestsCarry(s, t);
      if t.shared.setupComplete != s.shared.setupComplete && check.value {
        var p := if t.shared.initialized then SwapDone(req, check) else SwapLoading(req, check);
        CountUpdate(s.requests, id, p);
        RequestsKept(t, t.(requests := t.requests[id := p]), id, p);
        SetupKept(t, t.(requests := t.requests[id := p]));
      } else {
        ResumedOk(t, id, req, check, false, now);
      }
    }
  }

  lemma SetupKept(s: State, t: State)
    requires SetupOk(s) && t.probes == s.probes && t.shared.setupComplete == s.shared.setupComplete &&
             t.shared.memo == s.shared.memo
    ensures SetupOk(t)
  {
  }

  /** A waiting request moves on without touching the shared state except by an installation. */
  lemma MovedOk(s: State, t: State, id: nat, p: Phase)
    requires Inv(s) && id in s.requests && t.requests == s.requests[id := p] && t.probes == s.probes
    requires t.shared == s.shared || t.shared == Installed(s.shared)
    requires InFlight(p) == InFlight(s.requests[id]) && !p.Dispatched? && !p.Done? && !s.requests[id].Done?
    requires p.req == s.requests[id].req && p.check == s.requests[id].check
    requires p.PipelineLoaded? ==> t.shared.initialized
    requires p.HasRead() == s.requests[id].HasRead() && (p.HasRead() ==> p.reading == s.requests[id].reading)
    requires p.HasRead() ==> !s.requests[id].Dispatched?
    requires p.SwapLoading? || p.SwapDone? ==> s.requests[id].SwapLoading?
    ensures Inv(t)
  {
    hide SharedOk, SetupOk, CheckOk, RequestsOk, Counted, FullPipeline, RealPipeline, ReadingOk;
    InstalledOk(s.shared);
    CountUpdate(s.requests, id, p);
    PhaseKnown(s, id);
    RequestsKept(s, t, id, p);
    SetupKept(s, t);
  }

  lemma PhaseKnown(s: State, id: nat)
    requires RequestsOk(s) && id in s.requests
    ensures PhaseOk(s.shared, s.probes, s.requests[id])
  {
  }

  lemma FinishedOk(s: State, id: nat)
    requires Inv(s) && id in s.requests && InFlight(s.requests[id])
    ensures Inv(s.(shared := s.shared.(inFlight := s.shared.inFlight - 1),
            requests := s.requests[id := Done(s.requests[id].req)]))
  {
    hide CheckOk, RequestsOk, Counted, FullPipeline, RealPipeline, SetupOk;
    var t := s.(shared := s.shared.(inFlight := s.shared.inFlight - 1),
        requests := s.requests[id := Done(s.requests[id].req)]);
    CountUpdate(s.requests, id, Done(s.requests[id].req));
    RequestsKept(s, t, id, Done(s.requests[id].req));
    SetupKept(s, t);
  }

  lemma LoadedOk(s: State, id: nat, now: int)
    requires Inv(s) && Enabled(s, ResumePipeline(id, now))
    ensures Inv(Next(s, ResumePipeline(id, now)))
  {
    hide SharedOk, SetupOk, CheckOk, RequestsOk, Counted, FullPipeline, RealPipeline, FullChosen, ReadingOk;
    var q := s.requests[id];
    PhaseKnown(s, id);
    FullChosenOk(s.shared, q.req.lane);
    var (sh, pipeline) := FullChosen(s.shared, q.req.lane);
    var p := Dispatched(q.req, q.check, q.reading, true, now, pipeline);
    CountUpdate(s.requests, id, p);
    RequestsKept(s, Next(s, ResumePipeline(id, now)), id, p);
    SetupKept(s, Next(s, ResumePipeline(id, now)));
  }

  lemma BootOk(s: State)
    requires Inv(s)
    ensures Inv(s.(shared := Installed(s.shared), boot := Settled))
  {
  }

  lemma NextOk(s: State, e: Event)
    requires Inv(s) && Enabled(s, e)
    ensures Inv(Next(s, e))
  {
    hide Inv, Arrived, Resumed, FullChosen, Installed;
    match e
    case Arrive(id, req, probe, now) => ArrivedOk(s, id, req, probe, now);
    case ImportsArrive(id) =>
      var q := s.requests[id];
      InstalledIs(s.shared);
      MovedOk(s, Next(s, e), id, AfterImports(q));
    case ImportsFail(id) =>
      var q := s.requests[id];
      MovedOk(s, Next(s, e), id, AfterFailure(q));
    case ResumeSwap(id, now) =>
      InvParts(s);
      PhaseKnown(s, id);
      ResumedOk(s, id, s.requests[id].req, s.requests[id].check, true, now);
    case ResumePipeline(id, now) => LoadedOk(s, id, now);
    case Finish(id) => FinishedOk(s, id);
    case BootArrives => BootOk(s);
    case BootFails => BootFailsOk(s);
  }

  lemma InstalledIs(sh: Shared)
    ensures Installed(sh).initialized
  {
  }

  lemma InvParts(s: State)
    requires Inv(s)
    ensures SharedOk(s.shared) && SetupOk(s) && RequestsOk(s) && s.shared.inFlight == |Counted(s.requests)|
  {
  }

  lemma BootFailsOk(s: State)
    requires Inv(s)
    ensures Inv(s.(boot := Settled))
  {
  }

  // ------------------------------------------------------------------
  // Main results: every run, whatever interleaves and whatever fails
  // ------------------------------------------------------------------

  lemma {:induction false} AlwaysInv(probe: bool, at: int, run: seq<Event>)
    ensures After(probe, at, run).Some? ==> Inv(After(probe, at, run).value)
  {
    if run == [] {
      assert Counted(map[]) == {};
    } else {
      hide Inv, Next, Enabled;
      var init, e := run[..|run| - 1], run[|run| - 1];
      AlwaysInv(probe, at, init);
      var before := After(probe, at, init);
      if before.Some? && Enabled(before.value, e) { NextOk(before.value, e); }
    }
  }

  /** No cached full pipeline ever holds a pass-through handler, and a request that read `setupComplete` as
      true gets the full pipeline of its lane (or an error), never the setup one. */
  lemma NoPassThrough(probe: bool, at: int, run: seq<Event>)
    requires After(probe, at, run).Some?
    ensures var s := After(probe, at, run).value;
            && (s.shared.ready.Some? ==> s.shared.ready.value == FullPipeline(AppSsr) && AllReal(s.shared.ready.value))
            && (s.shared.api.Some? ==> s.shared.api.value == FullPipeline(ApiRead) && AllReal(s.shared.api.value))
            && forall id :: id in s.requests && s.requests[id].Dispatched? && s.requests[id].reading.complete ==>
                 s.requests[id].pipeline == FullPipeline(s.requests[id].req.lane) && AllReal(s.requests[id].pipeline)
  {
    AlwaysInv(probe, at, run);
    hide After;
  }

  /** The in-flight counter is the number of requests between their increment and their `finally`. */
  lemma InFlightCounts(probe: bool, at: int, run: seq<Event>)
    requires After(probe, at, run).Some?
    ensures var s := After(probe, at, run).value; s.shared.inFlight == |Counted(s.requests)|
  {
    AlwaysInv(probe, at, run);
    hide After;
  }

  /** A request that never waited in the hot swap uses the value of its own check: an answer less than
      60 seconds old when it is read, and a new one on the paths that bypass the memo. */
  lemma SetupValueFresh(probe: bool, at: int, run: seq<Event>, id: nat)
    requires After(probe, at, run).Some? && id in After(probe, at, run).value.requests
    requires After(probe, at, run).value.requests[id].HasRead()
    requires !After(probe, at, run).value.requests[id].reading.waited
    ensures var s := After(probe, at, run).value;
            var (p, r) := (s.requests[id], s.requests[id].reading);
            && r.complete == p.check.value && r.at == p.check.at
            && 0 < r.asked <= |s.probes| && s.probes[r.asked - 1] == Probe(r.complete, p.check.probedAt)
            && r.at - p.check.probedAt < 60000
            && (p.req.bypassesMemo ==> p.check.probedAt == r.at)
  {
    AlwaysInv(probe, at, run);
    hide After;
  }

  /** Every request, however long it waited in the hot swap, uses the latest answer given before it reads the
      flag; one that waited had itself just been given a new answer when it arrived. */
  lemma ReadsLatestAnswer(probe: bool, at: int, run: seq<Event>, id: nat)
    requires After(probe, at, run).Some? && id in After(probe, at, run).value.requests
    requires After(probe, at, run).value.requests[id].HasRead()
    ensures var s := After(probe, at, run).value;
            var (p, r) := (s.requests[id], s.requests[id].reading);
            && 0 < r.asked <= |s.probes| && r.complete == s.probes[r.asked - 1].value
            && (r.waited ==> p.check.value && p.check.probedAt == p.check.at)
            && (p.Dispatched? ==>
               p.pipeline == if r.complete then FullPipeline(p.req.lane) else RealPipeline(SETUP_HOOKS))
            && (p.Dispatched? && !p.loaded ==> p.served == r.at)
  {
    AlwaysInv(probe, at, run);
    hide After;
  }

  // ------------------------------------------------------------------
  // How old the value is when the pipeline is served
  // ------------------------------------------------------------------

  function TimeOf(e: Event, before: int): int {
    match e
    case Arrive(_, _, _, now) => now
    case ResumeSwap(_, now) => now
    case ResumePipeline(_, now) => now
    case _ => before
  }

  function LastTime(at: int, run: seq<Event>): int {
    if run == [] then at else TimeOf(run[|run| - 1], LastTime(at, run[..|run| - 1]))
  }

  /** The clock does not run backwards. */
  predicate Orderly(at: int, run: seq<Event>) {
    run == [] || (Orderly(at, run[..|run| - 1]) && LastTime(at, run[..|run| - 1]) <= LastTime(at, run))
  }

  ghost predicate InOrder(probes: seq<Probe>, last: int) {
    && (forall i, j :: 0 <= i < j < |probes| ==> probes[i].at <= probes[j].at)
    && (forall i :: 0 <= i < |probes| ==> probes[i].at <= last)
  }

  /** Only arriving requests ask, and their answers carry the time of the arrival. */
  lemma ProbesGrow(s: State, e: Event)
    requires Enabled(s, e)
    ensures Next(s, e).probes == s.probes || (e.Arrive? && Next(s, e).probes == s.probes + [Probe(e.probe, e.now)])
  {
    hide Proceeded, FullChosen, Installed;
  }

  lemma {:induction false} OrderlyAnswers(probe: bool, at: int, run: seq<Event>)
    requires After(probe, at, run).Some? && Orderly(at, run)
    ensures InOrder(After(probe, at, run).value.probes, LastTime(at, run))
  {
    if run != [] {
      hide Next, Enabled;
      OrderlyAnswers(probe, at, run[..|run| - 1]);
      ProbesGrow(After(probe, at, run[..|run| - 1]).value, run[|run| - 1]);
    }
  }

  /** `isSetupComplete()` gave the value the request uses less than 60 seconds before its pipeline was served. */
  ghost predicate Fresh(s: State, p: Phase)
    requires p.Dispatched? && p.reading.asked <= |s.probes|
  {
    exists k :: 0 <= k < p.reading.asked && s.probes[k].value == p.reading.complete &&
        p.served - s.probes[k].at < 60000
  }

  /** The age of the value a dispatched request goes by: the time since the latest answer before it read the flag. */
  function Age(s: State, p: Phase): int
    requires p.Dispatched? && 0 < p.reading.asked <= |s.probes|
  {
    p.served - s.probes[p.reading.asked - 1].at
  }

  /** The value is less than 60 seconds old at its use exactly when that is its age; for a request that did not wait in
      the hot swap the age counts from its own check, and without any wait it always is. */
  lemma FreshWhenServedIff(probe: bool, at: int, run: seq<Event>, id: nat)
    requires After(probe, at, run).Some? && Orderly(at, run) && id in After(probe, at, run).value.requests
    requires After(probe, at, run).value.requests[id].Dispatched?
    ensures var s := After(probe, at, run).value;
            var p := s.requests[id];
            && 0 < p.reading.asked <= |s.probes|
            && (Fresh(s, p) <==> Age(s, p) < 60000)
            && (!p.reading.waited ==> Age(s, p) == p.served - p.check.probedAt)
            && (!p.reading.waited && !p.loaded ==> Fresh(s, p))
  {
    AlwaysInv(probe, at, run);
    OrderlyAnswers(probe, at, run);
    hide After, Orderly, LastTime;
    var s := After(probe, at, run).value;
    FreshByLatest(s, s.requests[id], LastTime(at, run));
  }

  lemma FreshByLatest(s: State, p: Phase, last: int)
    requires p.Dispatched? && PhaseOk(s.shared, s.probes, p) && InOrder(s.probes, last)
    ensures 0 < p.reading.asked <= |s.probes|
    ensures Fresh(s, p) <==> Age(s, p) < 60000
    ensures !p.reading.waited ==> Age(s, p) == p.served - p.check.probedAt
    ensures !p.reading.waited && !p.loaded ==> Fresh(s, p)
  {
    hide FullPipeline, RealPipeline;
    var k := p.reading.asked - 1;
    assert s.probes[k].value == p.reading.complete;
    if Fresh(s, p) {
      var j :| 0 <= j < p.reading.asked && p.served - s.probes[j].at < 60000;
      assert s.probes[j].at <= s.probes[k].at;
    }
  }

  // ------------------------------------------------------------------
  // Two runs
  // ------------------------------------------------------------------

  const PAGE := Request(AppSsr, false, false, false, false)
  const SETUP_PAGE := Request(AppSsr, true, false, false, false)

  lemma AfterSnoc(probe: bool, at: int, run: seq<Event>, e: Event)
    requires After(probe, at, run).Some? && Enabled(After(probe, at, run).value, e)
    ensures After(probe, at, run + [e]) == Some(Next(After(probe, at, run).value, e))
  {
    assert (run + [e])[..|run|] == run;
  }

  lemma OrderlySnoc(at: int, run: seq<Event>, e: Event)
    ensures Orderly(at, run + [e]) <==> Orderly(at, run) && LastTime(at, run) <= TimeOf(e, LastTime(at, run))
    ensures LastTime(at, run + [e]) == TimeOf(e, LastTime(at, run))
  {
    assert (run + [e])[..|run|] == run;
  }

  const ARRIVES := Arrive(1, PAGE, true, 0)

  /** The first request after setup has become complete waits for the imports. */
  lemma PageWaits()
    ensures var s := Next(Initial(false, 0), ARRIVES);
            && Enabled(Initial(false, 0), ARRIVES) && After(false, 0, [] + [ARRIVES]) == Some(s)
            && s.requests == map[1 := SwapLoading(PAGE, Check(true, 0, 0))]
            && s.probes == [Probe(false, 0), Probe(true, 0)]
            && s.shared.setupComplete && s.shared.memo == Some(Memo(true, 0)) && LAZY <= s.shared.handlers.Keys
            && !s.shared.initialized
  {
    assert After(false, 0, []) == Some(Initial(false, 0));
    AfterSnoc(false, 0, [], ARRIVES);
  }

  lemma ImportsCome()
    ensures var run := [] + [ARRIVES] + [ImportsArrive(1)];
            && After(false, 0, run).Some?
            && var s := After(false, 0, run).value;
            && s.requests == map[1 := SwapDone(PAGE, Check(true, 0, 0))]
            && s.probes == [Probe(false, 0), Probe(true, 0)]
            && s.shared.setupComplete && s.shared.initialized && LAZY <= s.shared.handlers.Keys
  {
    hide After;
    PageWaits();
    AfterSnoc(false, 0, [] + [ARRIVES], ImportsArrive(1));
  }

  /** A page request waits 60 seconds for the imports of the hot swap, and no other request asks meanwhile. */
  lemma StaleAfterWait()
    ensures var run := [] + [ARRIVES] + [ImportsArrive(1)] + [ResumeSwap(1, 60000)];
            && Orderly(0, run) && After(false, 0, run).Some?
            && var s := After(false, 0, run).value;
            && 1 in s.requests && s.requests[1].Dispatched? && s.requests[1].reading.complete
            && s.requests[1].reading.asked <= |s.probes| && !Fresh(s, s.requests[1])
  {
    hide After, Orderly, LastTime, FullChosen;
    ImportsCome();
    AfterSnoc(false, 0, [] + [ARRIVES] + [ImportsArrive(1)], ResumeSwap(1, 60000));
    NoRun(0);
    OrderlySnoc(0, [], ARRIVES);
    OrderlySnoc(0, [] + [ARRIVES], ImportsArrive(1));
    OrderlySnoc(0, [] + [ARRIVES] + [ImportsArrive(1)], ResumeSwap(1, 60000));
  }

  lemma NoRun(at: int)
    ensures Orderly(at, []) && LastTime(at, []) == at
  {
  }

  /** A request goes by the value of its own check exactly when it did not wait in the hot swap, or the latest answer
      before it read the flag was once more that setup is complete. */
  lemma OwnValueIff(probe: bool, at: int, run: seq<Event>, id: nat)
    requires After(probe, at, run).Some? && id in After(probe, at, run).value.requests
    requires After(probe, at, run).value.requests[id].HasRead()
    ensures var s := After(probe, at, run).value;
            var (p, r) := (s.requests[id], s.requests[id].reading);
            && 0 < r.asked <= |s.probes|
            && (r.complete == p.check.value <==> !r.waited || s.probes[r.asked - 1].value)
  {
    hide After;
    ReadsLatestAnswer(probe, at, run, id);
    if !After(probe, at, run).value.requests[id].reading.waited { SetupValueFresh(probe, at, run, id); }
  }

  /** While it waits, a request on a setup path is told that setup is not complete: the page gets the setup
      pipeline although its own check said otherwise. */
  lemma FlippedWhileWaiting()
    ensures var run := [] + [ARRIVES] + [Arrive(2, SETUP_PAGE, false, 10)] + [ImportsFail(1)] + [ResumeSwap(1, 20)];
            && After(false, 0, run).Some?
            && var s := After(false, 0, run).value;
            && 1 in s.requests && s.requests[1].Dispatched?
            && s.requests[1].check.value && !s.requests[1].reading.complete
  {
    hide After, SetupChosen;
    PageWaits();
    var run := [] + [ARRIVES];
    var e1, e2, e3 := Arrive(2, SETUP_PAGE, false, 10), ImportsFail(1), ResumeSwap(1, 20);
    AfterSnoc(false, 0, run, e1);
    SetupArrives(After(false, 0, run).value, e1);
    AfterSnoc(false, 0, run + [e1], e2);
    AfterSnoc(false, 0, run + [e1] + [e2], e3);
  }

  lemma SetupArrives(s: State, e: Event)
    requires s.shared.setupComplete && LAZY <= s.shared.handlers.Keys
    requires e == Arrive(2, SETUP_PAGE, false, 10) && 2 !in s.requests
    requires 1 in s.requests && s.requests[1] == SwapLoading(PAGE, Check(true, 0, 0))
    ensures var t := Next(s, e);
            && 1 in t.requests && t.requests[1] == s.requests[1]
            && !t.shared.setupComplete && LAZY <= t.shared.handlers.Keys
  {
  }

  /** What `getPipeline` reads in `setupComplete` is the latest answer any request has had. */
  lemma SetupFlagIsLatestAnswer(probe: bool, at: int, run: seq<Event>)
    requires After(probe, at, run).Some?
    ensures var s := After(probe, at, run).value;
            s.probes != [] && s.shared.setupComplete == s.probes[|s.probes| - 1].value
  {
    AlwaysInv(probe, at, run);
    hide After;
  }

  /** The first installation finds no full pipeline to drop: dropping `cachedPipelineReady` there is never
      what keeps pass-through handlers out. */
  lemma FirstInstallDropsNothing(probe: bool, at: int, run: seq<Event>)
    requires After(probe, at, run).Some? && !After(probe, at, run).value.shared.initialized
    ensures After(probe, at, run).value.shared.ready.None? && After(probe, at, run).value.shared.api.None?
  {
    AlwaysInv(probe, at, run);
    hide After;
  }

  /** API lanes skip the three page-only hooks and nothing else, in the same order; in both pipelines the
      security hook comes before rate limiting, authentication, authorization and the API handlers. */
  lemma ApiSkipsPageHooks()
    ensures READY_HOOKS ==
            API_HOOKS[..6] + [Redirects] + API_HOOKS[6..7] + [AeoHeaders, UserPreferences] + API_HOOKS[7..]
    ensures API_HOOKS[2] == Security && API_HOOKS[3] == RateLimit && API_HOOKS[7] == Authentication
         && API_HOOKS[8] == Authorization && API_HOOKS[12] == ApiRequests
  {
  }
}
