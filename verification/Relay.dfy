/**
  The RPC relay of `devnet_rpc_proxy.py`: its state as the program updates it, and the accepting
  thread with any number of handler threads over it, interleaved at every call out and every turn
  at the lock. A handler may fail wherever it stands, and a thread may fail to start.
 */
module Relay {

  datatype Option<+T> = None | Some(value: T)
  datatype Method = SendTransaction | GetGenesisHash | Read

  /** What the upstream sends back to a sanitized call, or that it failed. */
  datatype Answer = Result(genesis: bool) | Failure

  /** One call out, made for a thread inside its `rpc` call of this number. */
  datatype Forwarded = Forwarded(thread: nat, rpc: nat, probe: bool, kind: Method, answer: Answer)

  const CONCURRENCY := 6

  // ---------------------------------------------------------------- one thread

  class ProxyState {
    var genesisVerified: bool
    var forwarded: nat
    var errors: nat
    var probes: nat
    ghost var log: seq<Forwarded>

    constructor ()
      ensures !genesisVerified && forwarded == errors == probes == 0 && log == []
    {
      genesisVerified, forwarded, errors, probes, log := false, 0, 0, 0, [];
    }

    /** `_call`: counted once, as forwarded or as an error. */
    method Call(ghost entry: Forwarded, answer: Answer) returns (ok: bool)
      requires entry.answer == answer
      modifies `forwarded, `errors, `log
      ensures ok == answer.Result? && log == old(log) + [entry]
      ensures forwarded == old(forwarded) + (if ok then 1 else 0) && errors == old(errors) + (if ok then 0 else 1)
    {
      log := log + [entry];
      if answer.Failure? {
        errors := errors + 1;
        return false;
      }
      forwarded := forwarded + 1;
      return true;
    }

    method VerifyGenesis(ghost thread: nat, ghost rpc: nat, answer: Answer) returns (verified: bool)
      modifies this
      ensures verified <==> answer == Result(true)
      ensures genesisVerified == verified && probes == old(probes) + 1
      ensures log == old(log) + [Forwarded(thread, rpc, true, GetGenesisHash, answer)]
      ensures forwarded + errors == old(forwarded + errors) + 1
    {
      probes := probes + 1;
      var ok := Call(Forwarded(thread, rpc, true, GetGenesisHash, answer), answer);
      verified := ok && answer.genesis;
      genesisVerified := verified;
    }

    /** `rpc`: a write is forwarded only after a probe of its own, whatever the flag said before. */
    method Rpc(ghost thread: nat, ghost rpc: nat, kind: Method, probed: Answer, answer: Answer) returns (ok: bool)
      modifies this
      ensures ok <==> answer.Result? && (kind.SendTransaction? ==> probed == Result(true))
                      && (kind.GetGenesisHash? ==> answer.genesis)
      ensures log == old(log) + Trace(thread, rpc, kind, probed, answer)
      ensures forwarded + errors == old(forwarded + errors) + |Trace(thread, rpc, kind, probed, answer)|
      ensures genesisVerified == FlagAfter(old(genesisVerified), kind, probed, answer)
    {
      if kind.SendTransaction? {
        var verified := VerifyGenesis(thread, rpc, probed);
        if !verified { return false; }
      }
      ok := Call(Forwarded(thread, rpc, false, kind, answer), answer);
      if ok && kind.GetGenesisHash? && !answer.genesis {
        genesisVerified := false;
        ok := false;
      }
    }
  }

  /** What one `rpc` call forwards. */
  ghost function Trace(thread: nat, rpc: nat, m: Method, probed: Answer, answer: Answer): seq<Forwarded> {
    var call := [Forwarded(thread, rpc, false, m, answer)];
    if !m.SendTransaction? then call
    else [Forwarded(thread, rpc, true, GetGenesisHash, probed)] + (if probed == Result(true) then call else [])
  }

  ghost function FlagAfter(flag: bool, m: Method, probed: Answer, answer: Answer): bool {
    if m.SendTransaction? then probed == Result(true)
    else if m.GetGenesisHash? && answer == Result(false) then false
    else flag
  }

  // ---------------------------------------------------------------- many threads

  /** Where a handler stands: between calls, inside `rpc` before its next step, or past an escaped exception. */
  datatype Stage =
    | Ready
    | Probe(kind: Method)
    | Verdict(kind: Method, verified: bool)
    | Forward(kind: Method)
    | After(kind: Method, answer: Answer)
    | Ending

  datatype Handler = Handler(stage: Stage, rpc: nat)

  /**
    The slots, the connection that holds one while its thread is being started, the running
    handlers, the counters, every call out, and the threads that failed in the relay itself.
   */
  datatype World = World(
    free: int,
    starting: Option<nat>,
    handlers: map<nat, Handler>,
    genesisVerified: bool,
    forwarded: nat,
    errors: nat,
    probes: nat,
    busy: nat,
    calls: nat,
    log: seq<Forwarded>,
    failures: seq<nat>)

  /**
    One connection is accepted at a time: `Accept` takes a slot or turns it away, and then its
    thread starts or does not (`reported` unless the exception stops the server). In a handler,
    `Trouble` is an exception that the last clause of `_handle` catches, and `Raise` one that leaves it.
   */
  datatype Action =
    | Accept(thread: nat)
    | Start
    | StartFails(reported: bool)
    | Begin(thread: nat, kind: Method)
    | Step(thread: nat, answer: Answer)
    | Trouble(thread: nat)
    | Raise(thread: nat)
    | Finish(thread: nat)

  function At(w: World, t: nat, stage: Stage): World
    requires t in w.handlers
  {
    w.(handlers := w.handlers[t := w.handlers[t].(stage := stage)])
  }

  /** `_call` for a thread: the call out, and the one counter it moves. */
  function Called(w: World, t: nat, probe: bool, m: Method, answer: Answer): World
    requires t in w.handlers
  {
    w.(log := w.log + [Forwarded(t, w.handlers[t].rpc, probe, m, answer)],
    forwarded := w.forwarded + (if answer.Result? then 1 else 0),
    errors := w.errors + (if answer.Failure? then 1 else 0))
  }

  function StepThread(w: World, t: nat, answer: Answer): World
    requires t in w.handlers
  {
    match w.handlers[t].stage
    case Ready => w
    case Ending => w
    case Probe(m) => At(Called(w, t, true, GetGenesisHash, answer), t, Verdict(m, answer == Result(true)))
    case Verdict(m, verified) => At(w.(genesisVerified := verified), t, if verified then Forward(m) else Ready)
    case Forward(m) => At(Called(w, t, false, m, answer), t, After(m, answer))
    case After(m, a) => At(if m.GetGenesisHash? && a == Result(false) then w.(genesisVerified := false) else w, t, Ready)
  }

  /** A failure outside `_call`: counted under the same name as a failed call out. */
  function Failed(w: World, t: nat): World {
    w.(errors := w.errors + 1, failures := w.failures + [t])
  }

  function Next(w: World, a: Action): World {
    match a
    case Accept(t) =>
      if w.starting.Some? || t in w.handlers then w
      else if w.free <= 0 then w.(busy := w.busy + 1)
      else w.(free := w.free - 1, starting := Some(t))
    case Start =>
      if w.starting.None? then w
      else w.(starting := None, handlers := w.handlers[w.starting.value := Handler(Ready, w.calls)])
    case StartFails(reported) =>
      if w.starting.None? then w
      else
        var v := w.(free := w.free + 1, starting := None);
        if reported then Failed(v, w.starting.value) else v
    case Begin(t, m) =>
      if t !in w.handlers || !w.handlers[t].stage.Ready? then w
      else
        w.(calls := w.calls + 1, probes := w.probes + (if m.SendTransaction? then 1 else 0),
        handlers := w.handlers[t := Handler(if m.SendTransaction? then Probe(m) else Forward(m), w.calls)])
    case Step(t, answer) => if t in w.handlers then StepThread(w, t, answer) else w
    case Trouble(t) =>
      if t !in w.handlers || w.handlers[t].stage.Ending? then w else At(Failed(w, t), t, Ready)
    case Raise(t) =>
      if t !in w.handlers || w.handlers[t].stage.Ending? then w else At(Failed(w, t), t, Ending)
    case Finish(t) => if t in w.handlers then w.(free := w.free + 1, handlers := w.handlers - {t}) else w
  }

  const INITIAL := World(CONCURRENCY, None, map[], false, 0, 0, 0, 0, 0, [], [])

  function Run(actions: seq<Action>): World {
    if actions == [] then INITIAL else Next(Run(actions[..|actions| - 1]), actions[|actions| - 1])
  }

  // ---------------------------------------------------------------- what every interleaving keeps

  /** The pinned genesis was answered to a probe of this very call. */
  ghost predicate Pinned(log: seq<Forwarded>, thread: nat, rpc: nat) {
    exists j :: 0 <= j < |log| && log[j] == Forwarded(thread, rpc, true, GetGenesisHash, Result(true))
  }

  /** Every transaction sent so far was sent after its own probe. */
  ghost predicate SendsProbed(log: seq<Forwarded>) {
    forall i :: 0 <= i < |log| && log[i].kind.SendTransaction? ==>
                  !log[i].probe && Pinned(log[..i], log[i].thread, log[i].rpc)
  }

  /** A thread that will send has its probe behind it. */
  ghost predicate HandlerOk(log: seq<Forwarded>, t: nat, h: Handler) {
    && (h.stage.Probe? ==> h.stage.kind.SendTransaction?)
    && (h.stage.Verdict? && h.stage.verified ==> Pinned(log, t, h.rpc))
    && (h.stage.Forward? && h.stage.kind.SendTransaction? ==> Pinned(log, t, h.rpc))
  }

  /** The calls out that came back, and those that failed. */
  function Answered(log: seq<Forwarded>): nat {
    if log == [] then 0 else Answered(log[..|log| - 1]) + (if log[|log| - 1].answer.Result? then 1 else 0)
  }

  function Unanswered(log: seq<Forwarded>): nat {
    if log == [] then 0 else Unanswered(log[..|log| - 1]) + (if log[|log| - 1].answer.Failure? then 1 else 0)
  }

  lemma OneMoreCall(log: seq<Forwarded>, e: Forwarded)
    ensures Answered(log + [e]) == Answered(log) + (if e.answer.Result? then 1 else 0)
    ensures Unanswered(log + [e]) == Unanswered(log) + (if e.answer.Failure? then 1 else 0)
  {
    assert (log + [e])[..|log|] == log;
  }

  ghost predicate SlotsOk(w: World) {
    && w.free + |w.handlers| + (if w.starting.Some? then 1 else 0) == CONCURRENCY
    && 0 <= w.free
    && (w.starting.Some? ==> w.starting.value !in w.handlers)
  }

  ghost predicate CountersOk(w: World) {
    w.forwarded == Answered(w.log) && w.errors == Unanswered(w.log) + |w.failures|
  }

  /** Calls are numbered in the order they begin. */
  ghost predicate NumbersOk(log: seq<Forwarded>, hs: map<nat, Handler>, calls: nat) {
    && (forall t :: t in hs ==> hs[t].rpc <= calls)
    && (forall i :: 0 <= i < |log| ==> log[i].rpc < calls)
    && (forall t :: t in hs && Inside(hs[t]) ==> hs[t].rpc < calls)
  }

  ghost predicate Inside(h: Handler) { !h.stage.Ready? && !h.stage.Ending? }

  ghost predicate Pending(h: Handler) { h.stage.Probe? || h.stage.Verdict? || h.stage.Forward? }

  /** Two threads inside `rpc` are inside different calls. */
  ghost predicate CallsDiffer(hs: map<nat, Handler>) {
    forall s, t :: s in hs && t in hs && s != t && Inside(hs[s]) && Inside(hs[t]) ==> hs[s].rpc != hs[t].rpc
  }

  /** A thread that has yet to forward its request has not done so before. */
  ghost predicate Unsent(log: seq<Forwarded>, h: Handler) {
    Pending(h) ==> forall i :: 0 <= i < |log| && !log[i].probe ==> log[i].rpc != h.rpc
  }

  ghost predicate SentOnce(log: seq<Forwarded>) {
    forall i, j :: 0 <= i < j < |log| && !log[i].probe && !log[j].probe ==> log[i].rpc != log[j].rpc
  }

  ghost predicate OnceOk(log: seq<Forwarded>, hs: map<nat, Handler>) {
    && CallsDiffer(hs)
    && (forall t :: t in hs ==> Unsent(log, hs[t]))
    && SentOnce(log)
  }

  ghost predicate HandlersOk(log: seq<Forwarded>, hs: map<nat, Handler>) {
    forall t :: t in hs ==> HandlerOk(log, t, hs[t])
  }

  ghost predicate Inv(w: World) {
    && SendsProbed(w.log)
    && HandlersOk(w.log, w.handlers)
    && SlotsOk(w)
    && CountersOk(w)
    && NumbersOk(w.log, w.handlers, w.calls)
    && OnceOk(w.log, w.handlers)
  }

  lemma PinnedStays(log: seq<Forwarded>, e: Forwarded, thread: nat, rpc: nat)
    requires Pinned(log, thread, rpc)
    ensures Pinned(log + [e], thread, rpc)
  {
    var j :| 0 <= j < |log| && log[j] == Forwarded(thread, rpc, true, GetGenesisHash, Result(true));
    assert (log + [e])[j] == log[j];
  }

  lemma SendsStay(log: seq<Forwarded>, e: Forwarded)
    requires SendsProbed(log) && (e.kind.SendTransaction? ==> !e.probe && Pinned(log, e.thread, e.rpc))
    ensures SendsProbed(log + [e])
  {
    var more := log + [e];
    forall i | 0 <= i < |more| && more[i].kind.SendTransaction?
      ensures !more[i].probe && Pinned(more[..i], more[i].thread, more[i].rpc)
    {
      if i < |log| { assert more[..i] == log[..i]; } else { assert more[..i] == log; }
    }
  }

  lemma HandlersStay(log: seq<Forwarded>, hs: map<nat, Handler>, t: nat, e: Forwarded, h: Handler)
    requires HandlersOk(log, hs) && HandlerOk(log + [e], t, h)
    ensures HandlersOk(log + [e], hs[t := h])
  {
    forall s | s in hs ensures HandlerOk(log + [e], s, hs[s]) {
      if Pinned(log, s, hs[s].rpc) { PinnedStays(log, e, s, hs[s].rpc); }
    }
  }

  /** A thread that moves keeps the number of handlers. */
  lemma SameCount(hs: map<nat, Handler>, t: nat, h: Handler)
    requires t in hs
    ensures |hs[t := h]| == |hs|
  {
    assert hs[t := h].Keys == hs.Keys;
    assert |hs[t := h]| == |hs[t := h].Keys| == |hs.Keys| == |hs|;
  }

  /** A call out of a thread inside a call keeps the numbers. */
  lemma CallNumbers(log: seq<Forwarded>, hs: map<nat, Handler>, calls: nat, t: nat, e: Forwarded, h: Handler)
    requires NumbersOk(log, hs, calls) && t in hs && Inside(hs[t]) && e.rpc == h.rpc == hs[t].rpc
    ensures NumbersOk(log + [e], hs[t := h], calls)
  {
  }

  lemma ProbeOnce(log: seq<Forwarded>, hs: map<nat, Handler>, t: nat, e: Forwarded, h: Handler)
    requires OnceOk(log, hs) && t in hs && Pending(hs[t]) && e.probe && Pending(h) && h.rpc == hs[t].rpc
    ensures OnceOk(log + [e], hs[t := h])
  {
    forall s | s in hs ensures Unsent(log + [e], hs[s]) { assert Unsent(log, hs[s]); }
  }

  lemma ForwardOnce(log: seq<Forwarded>, hs: map<nat, Handler>, t: nat, e: Forwarded, h: Handler)
    requires OnceOk(log, hs) && t in hs && Pending(hs[t]) && e.rpc == h.rpc == hs[t].rpc && h.stage.After?
    ensures OnceOk(log + [e], hs[t := h])
  {
    forall s | s in hs && s != t ensures Unsent(log + [e], hs[s]) { assert Unsent(log, hs[s]); }
    assert Unsent(log, hs[t]);
  }

  /** The call out of a thread keeps everything if its entry and the thread's next stage are in order. */
  lemma CallKeeps(w: World, t: nat, e: Forwarded, h: Handler)
    requires Inv(w) && t in w.handlers && Pending(w.handlers[t]) && e.rpc == h.rpc == w.handlers[t].rpc
    requires e.kind.SendTransaction? ==> !e.probe && Pinned(w.log, e.thread, e.rpc)
    requires HandlerOk(w.log + [e], t, h)
    requires if e.probe then Pending(h) else h.stage.After?
    ensures Inv(w.(log := w.log + [e], handlers := w.handlers[t := h],
                forwarded := w.forwarded + (if e.answer.Result? then 1 else 0),
                errors := w.errors + (if e.answer.Failure? then 1 else 0)))
  {
    SendsStay(w.log, e);
    OneMoreCall(w.log, e);
    HandlersStay(w.log, w.handlers, t, e, h);
    SameCount(w.handlers, t, h);
    CallNumbers(w.log, w.handlers, w.calls, t, e, h);
    if e.probe { ProbeOnce(w.log, w.handlers, t, e, h); } else { ForwardOnce(w.log, w.handlers, t, e, h); }
  }

  lemma ProbeKeeps(w: World, t: nat, answer: Answer)
    requires Inv(w) && t in w.handlers && w.handlers[t].stage.Probe?
    ensures Inv(StepThread(w, t, answer))
  {
    var v := StepThread(w, t, answer);
    var e := Forwarded(t, w.handlers[t].rpc, true, GetGenesisHash, answer);
    if answer == Result(true) { assert v.log[|w.log|] == e; }
    CallKeeps(w, t, e, v.handlers[t]);
  }

  lemma ForwardKeeps(w: World, t: nat, answer: Answer)
    requires Inv(w) && t in w.handlers && w.handlers[t].stage.Forward?
    ensures Inv(StepThread(w, t, answer))
  {
    var e := Forwarded(t, w.handlers[t].rpc, false, w.handlers[t].stage.kind, answer);
    CallKeeps(w, t, e, StepThread(w, t, answer).handlers[t]);
  }

  /** A thread that moves on without a call out, staying in its call or leaving it. */
  lemma MoveKeeps(log: seq<Forwarded>, hs: map<nat, Handler>, calls: nat, t: nat, h: Handler)
    requires HandlersOk(log, hs) && NumbersOk(log, hs, calls) && OnceOk(log, hs)
    requires t in hs && h.rpc == hs[t].rpc && HandlerOk(log, t, h)
    requires (Inside(h) ==> Inside(hs[t])) && (Pending(h) ==> Pending(hs[t]))
    ensures HandlersOk(log, hs[t := h]) && NumbersOk(log, hs[t := h], calls) && OnceOk(log, hs[t := h])
  {
  }

  lemma VerdictKeeps(w: World, t: nat, answer: Answer)
    requires Inv(w) && t in w.handlers && w.handlers[t].stage.Verdict?
    ensures Inv(StepThread(w, t, answer))
  {
    SameCount(w.handlers, t, StepThread(w, t, answer).handlers[t]);
    MoveKeeps(w.log, w.handlers, w.calls, t, StepThread(w, t, answer).handlers[t]);
  }

  lemma AfterKeeps(w: World, t: nat, answer: Answer)
    requires Inv(w) && t in w.handlers && w.handlers[t].stage.After?
    ensures Inv(StepThread(w, t, answer))
  {
    var h := w.handlers[t].(stage := Ready);
    SameCount(w.handlers, t, h);
    MoveKeeps(w.log, w.handlers, w.calls, t, h);
    assert StepThread(w, t, answer).handlers == w.handlers[t := h];
  }

  lemma StartKeeps(w: World)
    requires Inv(w)
    ensures Inv(Next(w, Start))
  {
    if w.starting.Some? {
      OneMore(w.handlers, w.starting.value, Next(w, Start).handlers[w.starting.value]);
    }
  }

  lemma OneMore(hs: map<nat, Handler>, t: nat, h: Handler)
    requires t !in hs
    ensures |hs[t := h]| == |hs| + 1
  {
    assert hs[t := h].Keys == hs.Keys + {t};
    assert |hs[t := h]| == |hs[t := h].Keys|;
  }

  lemma BeginKeeps(w: World, t: nat, m: Method)
    requires Inv(w)
    ensures Inv(Next(w, Begin(t, m)))
  {
    if t in w.handlers { SameCount(w.handlers, t, Next(w, Begin(t, m)).handlers[t]); }
  }

  /** A failing handler leaves its call, so nothing is pending for it. */
  lemma FailureKeeps(w: World, t: nat, stage: Stage)
    requires Inv(w) && t in w.handlers && (stage.Ready? || stage.Ending?)
    ensures Inv(At(Failed(w, t), t, stage))
  {
    SameCount(w.handlers, t, w.handlers[t].(stage := stage));
    MoveKeeps(w.log, w.handlers, w.calls, t, w.handlers[t].(stage := stage));
  }

  lemma FinishKeeps(w: World, t: nat)
    requires Inv(w)
    ensures Inv(Next(w, Finish(t)))
  {
    if t in w.handlers { assert w.handlers.Keys == (w.handlers - {t}).Keys + {t}; }
  }

  lemma NextKeeps(w: World, a: Action)
    requires Inv(w)
    ensures Inv(Next(w, a))
  {
    match a
    case Accept(t) =>
    case Start => StartKeeps(w);
    case StartFails(_) =>
    case Trouble(t) => if t in w.handlers && !w.handlers[t].stage.Ending? { FailureKeeps(w, t, Ready); }
    case Raise(t) => if t in w.handlers && !w.handlers[t].stage.Ending? { FailureKeeps(w, t, Ending); }
    case Begin(t, m) => BeginKeeps(w, t, m);
    case Finish(t) => FinishKeeps(w, t);
    case Step(t, answer) =>
      if t in w.handlers {
        match w.handlers[t].stage
        case Probe(_) => ProbeKeeps(w, t, answer);
        case Forward(_) => ForwardKeeps(w, t, answer);
        case Verdict(_, _) => VerdictKeeps(w, t, answer);
        case After(_, _) => AfterKeeps(w, t, answer);
        case Ready =>
        case Ending =>
      }
  }

  lemma {:induction false} Reachable(actions: seq<Action>)
    ensures Inv(Run(actions))
  {
    if actions != [] {
      Reachable(actions[..|actions| - 1]);
      NextKeeps(Run(actions[..|actions| - 1]), actions[|actions| - 1]);
    }
  }

  // ---------------------------------------------------------------- the promises

  /**
    However the threads interleave and whatever the shared flag says, every forwarded transaction
    follows a pinned-genesis answer to a probe made in that same call, and no call forwards twice.
   */
  lemma ProbedBeforeWritten(actions: seq<Action>, i: nat)
    requires i < |Run(actions).log| && Run(actions).log[i].kind.SendTransaction?
    ensures var log := Run(actions).log;
            && (exists j :: 0 <= j < i && log[j] == Forwarded(log[i].thread, log[i].rpc, true, GetGenesisHash, Result(true)))
            && (forall k :: 0 <= k < |log| && k != i && !log[k].probe ==> log[k].rpc != log[i].rpc)
  {
    Reachable(actions);
    var log := Run(actions).log;
    var j :| 0 <= j < |log[..i]| && log[..i][j] == Forwarded(log[i].thread, log[i].rpc, true, GetGenesisHash, Result(true));
    assert log[j] == log[..i][j];
  }

  /**
    However the threads interleave and fail: `forwarded` is the calls out that came back, `errors`
    the calls out that failed and the relay's own failures, and the slots out are one for each
    running handler and one for the thread being started, so no release finds all six free.
   */
  lemma Accounts(actions: seq<Action>)
    ensures var w := Run(actions);
            && w.forwarded == Answered(w.log)
            && w.errors == Unanswered(w.log) + |w.failures|
            && Answered(w.log) + Unanswered(w.log) == |w.log|
            && w.free + |w.handlers| + (if w.starting.Some? then 1 else 0) == CONCURRENCY
            && 0 <= w.free && (w.handlers != map[] || w.starting.Some? ==> w.free < CONCURRENCY)
  {
    Reachable(actions);
    EveryCallOnce(Run(actions).log);
    if |Run(actions).handlers| == 0 { assert Run(actions).handlers == map[]; }
  }

  lemma {:induction false} EveryCallOnce(log: seq<Forwarded>)
    ensures Answered(log) + Unanswered(log) == |log|
  {
    if log != [] { EveryCallOnce(log[..|log| - 1]); }
  }

  // ---------------------------------------------------------------- one call with nothing in between

  /** The steps of one `rpc` call of a thread. */
  function CallSteps(t: nat, kind: Method, probed: Answer, answer: Answer): seq<Action> {
    [Begin(t, kind)]
    + (if !kind.SendTransaction? then [Step(t, answer), Step(t, answer)]
       else if probed == Result(true) then [Step(t, probed), Step(t, probed), Step(t, answer), Step(t, answer)]
       else [Step(t, probed), Step(t, probed)])
  }

  function RunFrom(w: World, actions: seq<Action>): World
    decreases |actions|
  {
    if actions == [] then w else RunFrom(Next(w, actions[0]), actions[1..])
  }

  lemma RunTwo(w: World, a: Action, b: Action)
    ensures RunFrom(w, [a, b]) == Next(Next(w, a), b)
  {
    assert [a, b][1..] == [b] && [b][1..] == [];
    assert RunFrom(Next(w, a), [b]) == Next(Next(w, a), b);
  }

  lemma RunMore(w: World, a: Action, rest: seq<Action>)
    ensures RunFrom(w, [a] + rest) == RunFrom(Next(w, a), rest)
  {
    assert ([a] + rest)[1..] == rest;
  }

  /** What a call that sends nothing on leaves: its one call out, and the flag lowered by another genesis. */
  lemma ReadAlone(w: World, t: nat, kind: Method, probed: Answer, answer: Answer)
    requires t in w.handlers && w.handlers[t].stage == Ready && kind != SendTransaction
    ensures var v := RunFrom(w, CallSteps(t, kind, probed, answer));
            && v.log == w.log + [Forwarded(t, w.calls, false, kind, answer)]
            && v.genesisVerified == (w.genesisVerified && !(kind == GetGenesisHash && answer == Result(false)))
            && v.handlers == w.handlers[t := Handler(Ready, w.calls)]
            && v.probes == w.probes && v.calls == w.calls + 1 && v.free == w.free && v.busy == w.busy
  {
    var steps := [Step(t, answer), Step(t, answer)];
    RunMore(w, Begin(t, kind), steps);
    RunTwo(Next(w, Begin(t, kind)), Step(t, answer), Step(t, answer));
  }

  /** A transaction whose probe is not answered with the pinned genesis goes nowhere, and the flag is down. */
  lemma SendTurnedAway(w: World, t: nat, probed: Answer, answer: Answer)
    requires t in w.handlers && w.handlers[t].stage == Ready && probed != Result(true)
    ensures var v := RunFrom(w, CallSteps(t, SendTransaction, probed, answer));
            && v.log == w.log + [Forwarded(t, w.calls, true, GetGenesisHash, probed)]
            && !v.genesisVerified
            && v.handlers == w.handlers[t := Handler(Ready, w.calls)]
            && v.probes == w.probes + 1 && v.calls == w.calls + 1 && v.free == w.free && v.busy == w.busy
  {
    RunMore(w, Begin(t, SendTransaction), [Step(t, probed), Step(t, probed)]);
    RunTwo(Next(w, Begin(t, SendTransaction)), Step(t, probed), Step(t, probed));
  }

  /** One whose probe is goes on after it, whatever the flag was. */
  lemma SendGoesThrough(w: World, t: nat, answer: Answer)
    requires t in w.handlers && w.handlers[t].stage == Ready
    ensures var v := RunFrom(w, CallSteps(t, SendTransaction, Result(true), answer));
            && v.log == w.log + [Forwarded(t, w.calls, true, GetGenesisHash, Result(true)),
                                 Forwarded(t, w.calls, false, SendTransaction, answer)]
            && v.genesisVerified
            && v.handlers == w.handlers[t := Handler(Ready, w.calls)]
            && v.probes == w.probes + 1 && v.calls == w.calls + 1 && v.free == w.free && v.busy == w.busy
  {
    var a, b := Step(t, Result(true)), Step(t, answer);
    var w1 := Next(w, Begin(t, SendTransaction));
    RunMore(w, Begin(t, SendTransaction), [a, a, b, b]);
    assert [a] + [a, b, b] == [a, a, b, b] && [a] + [b, b] == [a, b, b];
    RunMore(w1, a, [a, b, b]);
    RunMore(Next(w1, a), a, [b, b]);
    RunTwo(Next(Next(w1, a), a), b, b);
  }

  /** `Rpc` of the class is such a call: the same calls out, and the same flag after it. */
  lemma RpcIsACallAlone(w: World, t: nat, kind: Method, probed: Answer, answer: Answer)
    requires t in w.handlers && w.handlers[t].stage == Ready
    ensures var v := RunFrom(w, CallSteps(t, kind, probed, answer));
            && v.log == w.log + Trace(t, w.calls, kind, probed, answer)
            && v.genesisVerified == FlagAfter(w.genesisVerified, kind, probed, answer)
  {
    if kind != SendTransaction { ReadAlone(w, t, kind, probed, answer); }
    else if probed == Result(true) { SendGoesThrough(w, t, answer); }
    else { SendTurnedAway(w, t, probed, answer); }
  }

  /** The relay starts with six free slots and nothing counted, and a run is its actions one after the other. */
  lemma RunsInOrder(actions: seq<Action>, a: Action)
    ensures Run([]) == World(6, None, map[], false, 0, 0, 0, 0, 0, [], [])
    ensures Run(actions + [a]) == Next(Run(actions), a)
  {
    assert (actions + [a])[..|actions|] == actions;
  }

  // ---------------------------------------------------------------- the flag, the slots and the failures

  /** Some probe was answered with the pinned genesis. */
  ghost predicate SomePinned(log: seq<Forwarded>) {
    exists j :: 0 <= j < |log| && log[j].probe && log[j].answer == Result(true)
  }

  lemma StillPinned(log: seq<Forwarded>, more: seq<Forwarded>)
    requires SomePinned(log) && log <= more
    ensures SomePinned(more)
  {
    var j :| 0 <= j < |log| && log[j].probe && log[j].answer == Result(true);
    assert more[j] == log[j];
  }

  lemma StepRaises(w: World, a: Action)
    requires Inv(w) && (w.genesisVerified ==> SomePinned(w.log))
    ensures w.log <= Next(w, a).log && (Next(w, a).genesisVerified ==> SomePinned(Next(w, a).log))
  {
    var v := Next(w, a);
    assert w.log <= v.log;
    if v.genesisVerified && !w.genesisVerified {
      assert HandlerOk(w.log, a.thread, w.handlers[a.thread]);
      assert Pinned(w.log, a.thread, w.handlers[a.thread].rpc);
    }
    if SomePinned(w.log) { StillPinned(w.log, v.log); }
  }

  /** The flag is never up before some probe of the run was answered with the pinned genesis. */
  lemma {:induction false} FlagNeedsAProbe(actions: seq<Action>)
    ensures Run(actions).genesisVerified ==> SomePinned(Run(actions).log)
  {
    if actions != [] {
      var n := |actions| - 1;
      Reachable(actions[..n]);
      FlagNeedsAProbe(actions[..n]);
      StepRaises(Run(actions[..n]), actions[n]);
    }
  }

  /** A connection is turned away exactly when all six slots are out. */
  lemma TurnedAwayExactlyWhen(actions: seq<Action>, t: nat)
    requires var w := Run(actions); w.starting.None? && t !in w.handlers
    ensures var w := Run(actions);
            var v := Next(w, Accept(t));
            if |w.handlers| == 6 then v == w.(busy := w.busy + 1)
            else |w.handlers| < 6 && v == w.(free := w.free - 1, starting := Some(t))
  {
    Reachable(actions);
  }

  /** Every failure of a thread is counted once; one that is caught leaves the thread running, one that escapes ends it. */
  lemma FailuresAreCounted(w: World, t: nat, reported: bool)
    requires t in w.handlers && w.handlers[t].stage != Ending
    ensures Next(w, Trouble(t)) == w.(errors := w.errors + 1, failures := w.failures + [t],
                                   handlers := w.handlers[t := Handler(Ready, w.handlers[t].rpc)])
    ensures Next(w, Raise(t)) == w.(errors := w.errors + 1, failures := w.failures + [t],
                                 handlers := w.handlers[t := Handler(Ending, w.handlers[t].rpc)])
    ensures Next(w, Finish(t)) == w.(free := w.free + 1, handlers := w.handlers - {t})
    ensures w.starting.Some? ==>
              Next(w, StartFails(reported)) ==
              if reported then w.(free := w.free + 1, starting := None, errors := w.errors + 1, failures := w.failures + [w.starting.value])
              else w.(free := w.free + 1, starting := None)
  {}
}
