/** Every interleaving of configuration calls. A thread advances by one atomic operation
    at a time; a run is a schedule naming the thread that moves next. */
module ConfigRuns {
  import opened Wrappers
  import opened DecodeConfig

  /** Process constants. */
  datatype Env = Env(defaults: Defaults, norm: string -> string)

  datatype Call =
    | CallApply(update: Update, source: string)
    | CallSnapshot
    | CallReload(file: FileResult, source: string)
    | CallFetchQmm
    | CallFp16

  /** Where a thread stands inside a call; `began` is the length of the log when the call
      began, and `change` what an apply was called with. */
  datatype Pc =
    | Idle
    | ReloadFetch(reload: Reload, source: string, began: nat)
    | ReloadFp16(reload: Reload, source: string, began: nat)
    | WantWrite(update: Update, source: string, began: nat)
    | HoldingFetch(tuple: Tuple, change: Change, began: nat)                // write lock held
    | HoldingFp16(tuple: Tuple, fetch: Fetch, change: Change, began: nat)   // write lock held
    | StoringGather(echo: Effective, change: Change, began: nat)
    | StoringCore(echo: Effective, change: Change, began: nat)
    | WantRead(began: nat)
    | SnapFetch(tuple: Tuple, began: nat)
    | SnapFp16(tuple: Tuple, fetch: Fetch, began: nat)

  datatype Event =
    | Applied(echo: Effective, change: Change, began: nat)
    | Snapped(echo: Effective, began: nat)
    | ReloadFailed
    | FetchRead(fetch: Fetch)
    | Fp16Read(fp16: bool)

  datatype Change = Change(update: Update, source: string)

  /** What happened so far: changes in lock order, latch attempts in order, the version
      each mirror was last stored for, and the returned results. */
  datatype History = History(changes: seq<Change>, fetches: seq<Fetch>, fp16s: seq<bool>,
                             gatherFrom: nat, coreFrom: nat, log: seq<Event>)

  datatype State = State(shared: Shared, lock: Option<nat>, threads: map<nat, Pc>, hist: History)

  function Init(env: Env): State {
    State(Initial(env.defaults, None), None, map[], History([], [], [], 0, 0, []))
  }

  function PcOf(s: State, tid: nat): Pc {
    if tid in s.threads then s.threads[tid] else Idle
  }

  function Goto(s: State, tid: nat, pc: Pc): State {
    s.(threads := s.threads[tid := pc])
  }

  function Return(s: State, tid: nat, e: Event): State {
    Goto(s, tid, Idle).(hist := s.hist.(log := s.hist.log + [e]))
  }

  /** `get_or_init` on the fetch latch. */
  function DoLatchFetch(s: State, want: Fetch): State {
    s.(shared := LatchFetch(s.shared, want), hist := s.hist.(fetches := s.hist.fetches + [want]))
  }

  function DoLatchFp16(s: State, want: bool): State {
    s.(shared := LatchFp16(s.shared, want), hist := s.hist.(fp16s := s.hist.fp16s + [want]))
  }

  function FetchOf(s: State): Fetch {
    OrElse(s.shared.fetch, Dequant)
  }

  function Fp16Of(s: State): bool {
    OrElse(s.shared.fp16, false)
  }

  function Begin(env: Env, s: State, tid: nat, call: Call): State {
    var now := |s.hist.log|;
    match call
    case CallApply(u, source) => Goto(s, tid, WantWrite(u, source, now))
    case CallSnapshot => Goto(s, tid, WantRead(now))
    case CallReload(file, source) =>
      var r := Validate(env.norm, env.defaults, file);
      if r.None? then Return(s, tid, ReloadFailed) else Goto(s, tid, ReloadFetch(r.value, source, now))
    case CallFetchQmm =>
      var s' := DoLatchFetch(s, env.defaults.fetch);
      Return(s', tid, FetchRead(FetchOf(s')))
    case CallFp16 =>
      var s' := DoLatchFp16(s, env.defaults.fp16);
      Return(s', tid, Fp16Read(Fp16Of(s')))
  }

  /** Acquires the write lock and performs the locked update. */
  function TakeWrite(s: State, tid: nat, u: Update, source: string, began: nat): State {
    var t := Commit(s.shared.inner, u, source);
    Goto(s, tid, HoldingFetch(t, Change(u, source), began))
      .(shared := s.shared.(inner := t), lock := Some(tid),
        hist := s.hist.(changes := s.hist.changes + [Change(u, source)]))
  }

  /** Thread `tid` performs its next atomic operation, or begins `call` when idle, or
      waits when it needs a lock that is held. */
  function Step(env: Env, s: State, tid: nat, call: Call): State {
    match PcOf(s, tid)
    case Idle => Begin(env, s, tid, call)
    case ReloadFetch(r, source, began) =>
      Goto(DoLatchFetch(s, r.fetch), tid, ReloadFp16(r, source, began))
    case ReloadFp16(r, source, began) =>
      var s' := if r.fp16.Some? then DoLatchFp16(s, r.fp16.value) else s;
      Goto(s', tid, WantWrite(Update(Some(r.path), Some(r.core)), source, began))
    case WantWrite(u, source, began) =>
      if s.lock.Some? then s else TakeWrite(s, tid, u, source, began)
    case HoldingFetch(t, change, began) =>
      var s' := DoLatchFetch(s, env.defaults.fetch);
      Goto(s', tid, HoldingFp16(t, FetchOf(s'), change, began))
    case HoldingFp16(t, fetch, change, began) =>
      var s' := DoLatchFp16(s, env.defaults.fp16);
      Goto(s', tid, StoringGather(Effective(t, fetch, Fp16Of(s')), change, began)).(lock := None)
    case StoringGather(e, change, began) =>
      Goto(s, tid, StoringCore(e, change, began))
        .(shared := StoreGather(s.shared, e.tuple), hist := s.hist.(gatherFrom := e.tuple.version))
    case StoringCore(e, change, began) =>
      Return(s.(shared := StoreCore(s.shared, e.tuple),
                hist := s.hist.(coreFrom := e.tuple.version)), tid, Applied(e, change, began))
    case WantRead(began) =>
      if s.lock.Some? then s else Goto(s, tid, SnapFetch(s.shared.inner, began))
    case SnapFetch(t, began) =>
      var s' := DoLatchFetch(s, env.defaults.fetch);
      Goto(s', tid, SnapFp16(t, FetchOf(s'), began))
    case SnapFp16(t, fetch, began) =>
      var s' := DoLatchFp16(s, env.defaults.fp16);
      Return(s', tid, Snapped(Effective(t, fetch, Fp16Of(s')), began))
  }

  datatype Move = Move(tid: nat, call: Call)

  function Run(env: Env, moves: seq<Move>): State {
    if moves == [] then Init(env)
    else
      var m := moves[|moves| - 1];
      Step(env, Run(env, moves[..|moves| - 1]), m.tid, m.call)
  }

  // ------------------------------------------------ what the versions mean

  /** The last path any of the changes set, else the default. */
  function LastPath(changes: seq<Change>): Path {
    if changes == [] then Auto
    else
      var u := changes[|changes| - 1].update;
      if u.path.Some? then u.path.value else LastPath(changes[..|changes| - 1])
  }

  function LastCore(d: Defaults, changes: seq<Change>): Core {
    if changes == [] then d.core
    else
      var u := changes[|changes| - 1].update;
      if u.core.Some? then u.core.value else LastCore(d, changes[..|changes| - 1])
  }

  /** The tuple the `v`-th change in lock order left, or the default for version 0. */
  function TupleAt(env: Env, changes: seq<Change>, v: nat): Tuple
    requires v <= |changes|
  {
    Tuple(LastPath(changes[..v]), LastCore(env.defaults, changes[..v]),
          if v == 0 then "default" else changes[v - 1].source, v)
  }

  predicate IsVersion(env: Env, h: History, t: Tuple) {
    t.version <= |h.changes| && t == TupleAt(env, h.changes, t.version)
  }

  predicate IsEcho(env: Env, h: History, e: Effective) {
    && IsVersion(env, h, e.tuple)
    && h.fetches != [] && e.fetch == h.fetches[0]
    && h.fp16s != [] && e.fp16 == h.fp16s[0]
  }

  /** Every result returned before the call began has a version at most `t`'s, and a
      smaller one when the call is an apply. */
  predicate After(h: History, began: nat, t: Tuple, apply: bool) {
    && began <= |h.log|
    && forall i :: 0 <= i < began && (h.log[i].Applied? || h.log[i].Snapped?) ==>
         if apply then h.log[i].echo.tuple.version < t.version
         else h.log[i].echo.tuple.version <= t.version
  }

  predicate PcOk(env: Env, h: History, pc: Pc) {
    match pc
    case Idle => true
    case ReloadFetch(_, _, began) => began <= |h.log|
    case ReloadFp16(_, _, began) => began <= |h.log|
    case WantWrite(_, _, began) => began <= |h.log|
    case HoldingFetch(t, _, began) => IsVersion(env, h, t) && After(h, began, t, true)
    case HoldingFp16(t, f, _, began) =>
      IsVersion(env, h, t) && After(h, began, t, true) && h.fetches != [] && f == h.fetches[0]
    case StoringGather(e, _, began) => IsEcho(env, h, e) && After(h, began, e.tuple, true)
    case StoringCore(e, _, began) => IsEcho(env, h, e) && After(h, began, e.tuple, true)
    case WantRead(began) => began <= |h.log|
    case SnapFetch(t, began) => IsVersion(env, h, t) && After(h, began, t, false)
    case SnapFp16(t, f, began) =>
      IsVersion(env, h, t) && After(h, began, t, false) && h.fetches != [] && f == h.fetches[0]
  }

  predicate EventOk(env: Env, h: History, k: nat)
    requires k < |h.log|
  {
    match h.log[k]
    case Applied(e, _, began) => IsEcho(env, h, e) && began <= k && After(h, began, e.tuple, true)
    case Snapped(e, began) => IsEcho(env, h, e) && began <= k && After(h, began, e.tuple, false)
    case ReloadFailed => true
    case FetchRead(f) => h.fetches != [] && f == h.fetches[0]
    case Fp16Read(f) => h.fp16s != [] && f == h.fp16s[0]
  }

  /** The mirrors hold the values of versions that were committed. */
  predicate MirrorsOk(env: Env, s: State) {
    && s.hist.gatherFrom <= |s.hist.changes| && s.hist.coreFrom <= |s.hist.changes|
    && s.shared.gatherDisabled == (TupleAt(env, s.hist.changes, s.hist.gatherFrom).path == V1)
    && s.shared.sdpaCore == (TupleAt(env, s.hist.changes, s.hist.coreFrom).core == Sdpa)
  }

  predicate LatchesOk(s: State) {
    && s.shared.fetch == (if s.hist.fetches == [] then None else Some(s.hist.fetches[0]))
    && s.shared.fp16 == (if s.hist.fp16s == [] then None else Some(s.hist.fp16s[0]))
  }

  ghost predicate Inv(env: Env, s: State) {
    && s.shared.inner == TupleAt(env, s.hist.changes, |s.hist.changes|)
    && LatchesOk(s) && MirrorsOk(env, s)
    && (forall tid :: tid in s.threads ==> PcOk(env, s.hist, s.threads[tid]))
    && (forall k :: 0 <= k < |s.hist.log| ==> EventOk(env, s.hist, k))
  }

  /** `h'` only adds to `h`. */
  predicate Extends(h: History, h': History) {
    h.changes <= h'.changes && h.fetches <= h'.fetches && h.fp16s <= h'.fp16s && h.log <= h'.log
  }

  lemma TupleAtStable(env: Env, h: History, h': History, t: Tuple)
    requires Extends(h, h') && IsVersion(env, h, t)
    ensures IsVersion(env, h', t)
  {
    assert h'.changes[..t.version] == h.changes[..t.version];
  }

  lemma PcStable(env: Env, h: History, h': History, pc: Pc)
    requires Extends(h, h') && PcOk(env, h, pc)
    ensures PcOk(env, h', pc)
  {
    match pc
    case HoldingFetch(t, _, _) => TupleAtStable(env, h, h', t);
    case HoldingFp16(t, _, _, _) => TupleAtStable(env, h, h', t);
    case StoringGather(e, _, _) => TupleAtStable(env, h, h', e.tuple);
    case StoringCore(e, _, _) => TupleAtStable(env, h, h', e.tuple);
    case SnapFetch(t, _) => TupleAtStable(env, h, h', t);
    case SnapFp16(t, _, _) => TupleAtStable(env, h, h', t);
    case _ =>
  }

  lemma EventStable(env: Env, h: History, h': History, k: nat)
    requires Extends(h, h') && k < |h.log| && EventOk(env, h, k)
    ensures EventOk(env, h', k)
  {
    match h.log[k]
    case Applied(e, _, _) => TupleAtStable(env, h, h', e.tuple);
    case Snapped(e, _) => TupleAtStable(env, h, h', e.tuple);
    case _ =>
  }

  /** A committed tuple is the next version. */
  lemma CommitIsNextVersion(env: Env, changes: seq<Change>, c: Change)
    ensures Commit(TupleAt(env, changes, |changes|), c.update, c.source)
         == TupleAt(env, changes + [c], |changes| + 1)
  {
    var all := changes + [c];
    assert all[..|changes| + 1] == all && all[..|changes|] == changes == changes[..|changes|];
  }

  /** What remains to show of a step: the parts it may have broken. */
  lemma Preserve(env: Env, s: State, s': State, tid: nat)
    requires Inv(env, s) && Extends(s.hist, s'.hist)
    requires s'.threads.Keys == s.threads.Keys + {tid}
    requires forall t :: t in s.threads && t != tid ==> s'.threads[t] == s.threads[t]
    requires PcOk(env, s'.hist, s'.threads[tid])
    requires forall k :: |s.hist.log| <= k < |s'.hist.log| ==> EventOk(env, s'.hist, k)
    requires s'.shared.inner == TupleAt(env, s'.hist.changes, |s'.hist.changes|)
    requires LatchesOk(s') && MirrorsOk(env, s')
    ensures Inv(env, s')
  {
    forall t | t in s'.threads ensures PcOk(env, s'.hist, s'.threads[t]) {
      if t != tid { PcStable(env, s.hist, s'.hist, s.threads[t]); }
    }
    forall k | 0 <= k < |s'.hist.log| ensures EventOk(env, s'.hist, k) {
      if k < |s.hist.log| { EventStable(env, s.hist, s'.hist, k); }
    }
  }

  /** Every result returned so far has at most the locked version. */
  lemma LogBelowLocked(env: Env, s: State)
    requires Inv(env, s)
    ensures After(s.hist, |s.hist.log|, s.shared.inner, false)
  {
    forall i | 0 <= i < |s.hist.log| && (s.hist.log[i].Applied? || s.hist.log[i].Snapped?)
      ensures s.hist.log[i].echo.tuple.version <= s.shared.inner.version
    {
      assert EventOk(env, s.hist, i);
    }
  }

  lemma BeginKeepsInv(env: Env, s: State, tid: nat, call: Call)
    requires Inv(env, s)
    ensures Inv(env, Begin(env, s, tid, call))
  {
    hide TupleAt, IsVersion;
    Preserve(env, s, Begin(env, s, tid, call), tid);
  }

  lemma WriteKeepsInv(env: Env, s: State, tid: nat, u: Update, source: string, began: nat)
    requires Inv(env, s) && began <= |s.hist.log|
    ensures Inv(env, TakeWrite(s, tid, u, source, began))
  {
    var s', c := TakeWrite(s, tid, u, source, began), Change(u, source);
    var t := Commit(s.shared.inner, u, source);
    CommitIsNextVersion(env, s.hist.changes, c);
    LogBelowLocked(env, s);
    MirrorsStable(env, s, s');
    assert After(s'.hist, began, t, true);
    hide TupleAt;
    Preserve(env, s, s', tid);
  }

  lemma MirrorsStable(env: Env, s: State, s': State)
    requires MirrorsOk(env, s) && Extends(s.hist, s'.hist)
    requires s'.shared.gatherDisabled == s.shared.gatherDisabled && s'.shared.sdpaCore == s.shared.sdpaCore
    requires s'.hist.gatherFrom == s.hist.gatherFrom && s'.hist.coreFrom == s.hist.coreFrom
    ensures MirrorsOk(env, s')
  {
    assert s'.hist.changes[..s.hist.gatherFrom] == s.hist.changes[..s.hist.gatherFrom];
    assert s'.hist.changes[..s.hist.coreFrom] == s.hist.changes[..s.hist.coreFrom];
  }

  /** Every atomic step of every thread keeps the invariant. */
  lemma StepKeepsInv(env: Env, s: State, tid: nat, call: Call)
    requires Inv(env, s)
    ensures Inv(env, Step(env, s, tid, call))
  {
    var pc, s' := PcOf(s, tid), Step(env, s, tid, call);
    assert PcOk(env, s.hist, pc);
    if pc.Idle? {
      BeginKeepsInv(env, s, tid, call);
    } else if pc.WantWrite? {
      if s.lock.None? { WriteKeepsInv(env, s, tid, pc.update, pc.source, pc.began); }
    } else if pc.WantRead? {
      if s.lock.None? {
        ReadKeepsInv(env, s, tid, pc.began);
      }
    } else if pc.StoringGather? || pc.StoringCore? {
      StoreKeepsInv(env, s, tid, call);
    } else if pc.ReloadFetch? || pc.HoldingFetch? || pc.SnapFetch? {
      FetchStepKeepsInv(env, s, tid, call);
    } else if pc.ReloadFp16? {
      ReloadFp16KeepsInv(env, s, tid, call);
    } else if pc.HoldingFp16? {
      ReleaseKeepsInv(env, s, tid, call);
    } else {
      SnapKeepsInv(env, s, tid, call);
    }
  }

  lemma StoreKeepsInv(env: Env, s: State, tid: nat, call: Call)
    requires Inv(env, s) && (PcOf(s, tid).StoringGather? || PcOf(s, tid).StoringCore?)
    ensures Inv(env, Step(env, s, tid, call))
  {
    var pc, s' := PcOf(s, tid), Step(env, s, tid, call);
    assert PcOk(env, s.hist, pc);
    PcStable(env, s.hist, s'.hist, pc);
    hide TupleAt, After;
    Preserve(env, s, s', tid);
  }

  lemma FetchStepKeepsInv(env: Env, s: State, tid: nat, call: Call)
    requires Inv(env, s)
    requires var pc := PcOf(s, tid); pc.ReloadFetch? || pc.HoldingFetch? || pc.SnapFetch?
    ensures Inv(env, Step(env, s, tid, call))
  {
    var pc, s' := PcOf(s, tid), Step(env, s, tid, call);
    assert PcOk(env, s.hist, pc);
    PcStable(env, s.hist, s'.hist, pc);
    MirrorsStable(env, s, s');
    LatchOpsKeep(s, LatchChoice(env, pc), false);
    hide TupleAt, After, MirrorsOk, IsVersion, LatchFetch, FetchOf;
    Preserve(env, s, s', tid);
  }

  lemma ReloadFp16KeepsInv(env: Env, s: State, tid: nat, call: Call)
    requires Inv(env, s) && PcOf(s, tid).ReloadFp16?
    ensures Inv(env, Step(env, s, tid, call))
  {
    var pc, s' := PcOf(s, tid), Step(env, s, tid, call);
    assert PcOk(env, s.hist, pc);
    PcStable(env, s.hist, s'.hist, pc);
    MirrorsStable(env, s, s');
    if pc.reload.fp16.Some? { LatchOpsKeep(s, Dequant, pc.reload.fp16.value); }
    hide TupleAt, After, MirrorsOk, IsVersion, LatchFetch, LatchFp16, FetchOf, Fp16Of;
    Preserve(env, s, s', tid);
  }

  lemma ReleaseKeepsInv(env: Env, s: State, tid: nat, call: Call)
    requires Inv(env, s) && PcOf(s, tid).HoldingFp16?
    ensures Inv(env, Step(env, s, tid, call))
  {
    var pc, s' := PcOf(s, tid), Step(env, s, tid, call);
    assert PcOk(env, s.hist, pc);
    PcStable(env, s.hist, s'.hist, pc);
    MirrorsStable(env, s, s');
    hide TupleAt, After, MirrorsOk, IsVersion;
    Preserve(env, s, s', tid);
  }

  lemma SnapKeepsInv(env: Env, s: State, tid: nat, call: Call)
    requires Inv(env, s) && PcOf(s, tid).SnapFp16?
    ensures Inv(env, Step(env, s, tid, call))
  {
    var pc, s' := PcOf(s, tid), Step(env, s, tid, call);
    assert PcOk(env, s.hist, pc);
    PcStable(env, s.hist, s'.hist, pc);
    MirrorsStable(env, s, s');
    hide TupleAt, After, MirrorsOk, IsVersion;
    Preserve(env, s, s', tid);
  }

  lemma LatchOpsKeep(s: State, fetch: Fetch, fp16: bool)
    requires LatchesOk(s)
    ensures LatchesOk(DoLatchFetch(s, fetch)) && LatchesOk(DoLatchFp16(s, fp16))
    ensures FetchOf(DoLatchFetch(s, fetch)) == (s.hist.fetches + [fetch])[0]
    ensures Fp16Of(DoLatchFp16(s, fp16)) == (s.hist.fp16s + [fp16])[0]
  {
  }

  lemma ReadKeepsInv(env: Env, s: State, tid: nat, began: nat)
    requires Inv(env, s) && began <= |s.hist.log|
    ensures Inv(env, Goto(s, tid, SnapFetch(s.shared.inner, began)))
  {
    LogBelowLocked(env, s);
    hide TupleAt;
    Preserve(env, s, Goto(s, tid, SnapFetch(s.shared.inner, began)), tid);
  }

  lemma {:induction false} RunKeepsInv(env: Env, moves: seq<Move>)
    ensures Inv(env, Run(env, moves))
  {
    if moves == [] {
    } else {
      var m := moves[|moves| - 1];
      RunKeepsInv(env, moves[..|moves| - 1]);
      StepKeepsInv(env, Run(env, moves[..|moves| - 1]), m.tid, m.call);
    }
  }

  // ------------------------------------------------------------- attribution

  predicate IsResult(e: Event) {
    e.Applied? || e.Snapped?
  }

  /** In every run, every echoed tuple is the one its version names: what the version-th
      apply in lock order left, or the default. Equal versions are equal tuples, a call
      that begins after another returned reports no smaller version, and an apply
      reports a strictly larger one. */
  lemma EchoesAreAttributable(env: Env, moves: seq<Move>, i: nat, k: nat)
    requires var log := Run(env, moves).hist.log;
             i < |log| && k < |log| && IsResult(log[i]) && IsResult(log[k])
    ensures var h := Run(env, moves).hist;
            var t, t' := h.log[i].echo.tuple, h.log[k].echo.tuple;
            && t.version <= |h.changes| && t == TupleAt(env, h.changes, t.version)
            && (t.version == t'.version ==> t == t')
            && (i < h.log[k].began ==> t.version <= t'.version)
            && (i < h.log[k].began && h.log[k].Applied? ==> t.version < t'.version)
            && h.log[k].began <= k
  {
    hide TupleAt, Run;
    RunKeepsInv(env, moves);
    var h := Run(env, moves).hist;
    assert EventOk(env, h, i) && EventOk(env, h, k);
  }

  lemma StepExtends(env: Env, s: State, tid: nat, call: Call)
    ensures Extends(s.hist, Step(env, s, tid, call).hist)
  {
  }

  lemma {:induction false} RunExtends(env: Env, moves: seq<Move>, k: nat)
    requires k <= |moves|
    ensures Extends(Run(env, moves[..k]).hist, Run(env, moves).hist)
  {
    if k == |moves| {
      assert moves[..k] == moves;
    } else {
      var front, m := moves[..|moves| - 1], moves[|moves| - 1];
      assert front[..k] == moves[..k];
      RunExtends(env, front, k);
      StepExtends(env, Run(env, front), m.tid, m.call);
    }
  }

  /** The locked version never decreases, and what was logged stays logged. */
  lemma VersionsGrow(env: Env, moves: seq<Move>, k: nat)
    requires k <= |moves|
    ensures Run(env, moves[..k]).shared.inner.version <= Run(env, moves).shared.inner.version
    ensures Run(env, moves[..k]).hist.log <= Run(env, moves).hist.log
  {
    RunExtends(env, moves, k);
    RunKeepsInv(env, moves);
    RunKeepsInv(env, moves[..k]);
  }

  // ---------------------------------------------------------------- latches

  /** The value a thread's next operation would give an unset fetch latch. */
  function LatchChoice(env: Env, pc: Pc): Fetch {
    if pc.ReloadFetch? then pc.reload.fetch else env.defaults.fetch
  }

  /** The value a thread's next operation would give an unset fp16 latch. */
  function Fp16Choice(env: Env, pc: Pc): bool {
    if pc.ReloadFp16? then OrElse(pc.reload.fp16, env.defaults.fp16) else env.defaults.fp16
  }

  /** Both construction latches are write-once: unset, they take the file's value from a valid
      reload and the default from anything else; set, no step changes them. */
  lemma LatchIsWriteOnce(env: Env, moves: seq<Move>, k: nat)
    requires k < |moves|
    ensures var before, after := Run(env, moves[..k]), Run(env, moves[..k + 1]);
            var now := Run(env, moves);
            && (before.shared.fetch.Some? ==> now.shared.fetch == before.shared.fetch)
            && (before.shared.fetch.None? && after.shared.fetch.Some? ==>
                  now.shared.fetch == Some(LatchChoice(env, PcOf(before, moves[k].tid))))
            && (before.shared.fp16.Some? ==> now.shared.fp16 == before.shared.fp16)
            && (before.shared.fp16.None? && after.shared.fp16.Some? ==>
                  now.shared.fp16 == Some(Fp16Choice(env, PcOf(before, moves[k].tid))))
  {
    var before, after, now := Run(env, moves[..k]), Run(env, moves[..k + 1]), Run(env, moves);
    assert after == Step(env, before, moves[k].tid, moves[k].call) by {
      assert moves[..k + 1][..k] == moves[..k];
    }
    if before.shared.fetch.None? { FirstLatch(env, before, moves[k].tid, moves[k].call); }
    if before.shared.fp16.None? { FirstFp16Latch(env, before, moves[k].tid, moves[k].call); }
    hide Run, Step;
    RunLatches(env, moves, k);
    RunLatches(env, moves, k + 1);
  }

  lemma RunLatches(env: Env, moves: seq<Move>, k: nat)
    requires k <= |moves|
    ensures var before, now := Run(env, moves[..k]), Run(env, moves);
            && (before.shared.fetch.Some? ==> now.shared.fetch == before.shared.fetch)
            && (before.shared.fp16.Some? ==> now.shared.fp16 == before.shared.fp16)
  {
    hide Run, TupleAt;
    RunExtends(env, moves, k);
    RunKeepsInv(env, moves);
    RunKeepsInv(env, moves[..k]);
  }

  lemma FirstLatch(env: Env, s: State, tid: nat, call: Call)
    requires s.shared.fetch.None?
    ensures var s' := Step(env, s, tid, call);
            s'.shared.fetch.Some? ==> s'.shared.fetch == Some(LatchChoice(env, PcOf(s, tid)))
  {
    hide PcOf, Validate, Commit, FetchOf, Fp16Of;
  }

  lemma FirstFp16Latch(env: Env, s: State, tid: nat, call: Call)
    requires s.shared.fp16.None?
    ensures var s' := Step(env, s, tid, call);
            s'.shared.fp16.Some? ==> s'.shared.fp16 == Some(Fp16Choice(env, PcOf(s, tid)))
  {
    hide PcOf, Validate, Commit, FetchOf, Fp16Of;
  }

  /** A valid reload latches: once it has moved past its construction keys, whatever else
      runs, the fetch latch holds the file's value or one set before, and so does the fp16
      latch when the file carries that key. Then it asks to lock in the file's path and
      core. */
  lemma ReloadLatches(env: Env, moves: seq<Move>, k: nat)
    requires k < |moves|
    ensures var before, after, now := Run(env, moves[..k]), Run(env, moves[..k + 1]), Run(env, moves);
            var pc, pc' := PcOf(before, moves[k].tid), PcOf(after, moves[k].tid);
            && (pc.ReloadFetch? ==>
                  && pc' == ReloadFp16(pc.reload, pc.source, pc.began)
                  && now.shared.fetch == Some(OrElse(before.shared.fetch, pc.reload.fetch)))
            && (pc.ReloadFp16? ==>
                  && pc' == WantWrite(Update(Some(pc.reload.path), Some(pc.reload.core)), pc.source, pc.began)
                  && (pc.reload.fp16.Some? ==>
                        now.shared.fp16 == Some(OrElse(before.shared.fp16, pc.reload.fp16.value))))
  {
    var before, after := Run(env, moves[..k]), Run(env, moves[..k + 1]);
    assert after == Step(env, before, moves[k].tid, moves[k].call) by {
      assert moves[..k + 1][..k] == moves[..k];
    }
    hide Run;
    RunLatches(env, moves, k + 1);
  }

  /** All reports of a latched value in a run agree with the latch. */
  lemma ReportsAgreeWithLatch(env: Env, moves: seq<Move>, k: nat)
    requires k < |Run(env, moves).hist.log|
    ensures var s := Run(env, moves);
            && (IsResult(s.hist.log[k]) ==> s.shared.fetch == Some(s.hist.log[k].echo.fetch))
            && (IsResult(s.hist.log[k]) ==> s.shared.fp16 == Some(s.hist.log[k].echo.fp16))
            && (s.hist.log[k].FetchRead? ==> s.shared.fetch == Some(s.hist.log[k].fetch))
            && (s.hist.log[k].Fp16Read? ==> s.shared.fp16 == Some(s.hist.log[k].fp16))
  {
    hide TupleAt;
    RunKeepsInv(env, moves);
    assert EventOk(env, Run(env, moves).hist, k);
  }

  // ----------------------------------------------------------- failed reloads

  /** A thread's place, without the time its call began. */
  function Place(pc: Pc): Pc {
    if pc.Idle? then pc else pc.(began := 0)
  }

  /** A result, without the time its call began. */
  function Outcome(e: Event): Event {
    if IsResult(e) then e.(began := 0) else e
  }

  /** The results of a log, failed reloads left out. */
  function Outcomes(log: seq<Event>): seq<Event> {
    if log == [] then []
    else
      var e, front := log[|log| - 1], Outcomes(log[..|log| - 1]);
      if e.ReloadFailed? then front else front + [Outcome(e)]
  }

  lemma OutcomesSnoc(log: seq<Event>, e: Event)
    ensures Outcomes(log + [e]) == Outcomes(log) + if e.ReloadFailed? then [] else [Outcome(e)]
  {
    assert (log + [e])[..|log|] == log;
  }

  /** Two states that no call can tell apart: every value, version, mirror, latch and lock,
      every thread's place, and every result other than a failed reload. */
  ghost predicate Alike(s: State, s': State) {
    && s.shared == s'.shared && s.lock == s'.lock
    && s.hist.(log := []) == s'.hist.(log := [])
    && Outcomes(s.hist.log) == Outcomes(s'.hist.log)
    && forall t: nat :: Place(PcOf(s, t)) == Place(PcOf(s', t))
  }

  /** What one step does, apart from the threads and the log. */
  function Effect(s: State): (Shared, Option<nat>, History) {
    (s.shared, s.lock, s.hist.(log := []))
  }

  lemma StepIsAlike(env: Env, s: State, s': State, tid: nat, call: Call)
    requires Effect(s) == Effect(s') && Place(PcOf(s, tid)) == Place(PcOf(s', tid))
    ensures var n, n' := Step(env, s, tid, call), Step(env, s', tid, call);
            Effect(n) == Effect(n') && Place(PcOf(n, tid)) == Place(PcOf(n', tid))
  {
    hide Step, Begin, Effect;
    if PcOf(s, tid).Idle? {
      StepFromIdle(env, s, tid, call);
      StepFromIdle(env, s', tid, call);
      BeginIsAlike(env, s, s', tid, call);
    } else {
      BusyIsAlike(env, s, s', tid, call);
    }
  }

  lemma StepFromIdle(env: Env, s: State, tid: nat, call: Call)
    requires PcOf(s, tid).Idle?
    ensures Step(env, s, tid, call) == Begin(env, s, tid, call)
  {
    hide Begin;
  }

  lemma BusyIsAlike(env: Env, s: State, s': State, tid: nat, call: Call)
    requires Effect(s) == Effect(s') && Place(PcOf(s, tid)) == Place(PcOf(s', tid)) && !PcOf(s, tid).Idle?
    ensures var n, n' := Step(env, s, tid, call), Step(env, s', tid, call);
            Effect(n) == Effect(n') && Place(PcOf(n, tid)) == Place(PcOf(n', tid))
  {
    hide Begin, Commit, LatchFetch, LatchFp16, StoreGather, StoreCore;
  }

  lemma BeginIsAlike(env: Env, s: State, s': State, tid: nat, call: Call)
    requires Effect(s) == Effect(s')
    ensures var n, n' := Begin(env, s, tid, call), Begin(env, s', tid, call);
            Effect(n) == Effect(n') && Place(PcOf(n, tid)) == Place(PcOf(n', tid))
  {
    hide Validate, LatchFetch, LatchFp16;
  }

  /** A step returns the same result from both. */
  lemma StepReturnsAlike(env: Env, s: State, s': State, tid: nat, call: Call)
    requires Effect(s) == Effect(s') && Place(PcOf(s, tid)) == Place(PcOf(s', tid))
    requires Outcomes(s.hist.log) == Outcomes(s'.hist.log)
    ensures Outcomes(Step(env, s, tid, call).hist.log) == Outcomes(Step(env, s', tid, call).hist.log)
  {
    hide Validate, Commit, LatchFetch, LatchFp16, StoreGather, StoreCore, Outcomes;
    var n, n' := Step(env, s, tid, call), Step(env, s', tid, call);
    if n.hist.log != s.hist.log {
      var e, e' := n.hist.log[|s.hist.log|], n'.hist.log[|s'.hist.log|];
      assert n.hist.log == s.hist.log + [e] && n'.hist.log == s'.hist.log + [e'];
      OutcomesSnoc(s.hist.log, e);
      OutcomesSnoc(s'.hist.log, e');
    }
  }

  lemma StepKeepsAlike(env: Env, s: State, s': State, tid: nat, call: Call)
    requires Alike(s, s')
    ensures Alike(Step(env, s, tid, call), Step(env, s', tid, call))
  {
    hide Step, Outcomes, PcOf, Place;
    StepIsAlike(env, s, s', tid, call);
    StepReturnsAlike(env, s, s', tid, call);
    var n, n' := Step(env, s, tid, call), Step(env, s', tid, call);
    forall t: nat ensures Place(PcOf(n, t)) == Place(PcOf(n', t)) {
      if t != tid {
        StepFrame(env, s, tid, call, t);
        StepFrame(env, s', tid, call, t);
      }
    }
  }

  /** There is no parsed file, or a key that is present is none of its two words. */
  predicate Rejected(env: Env, file: FileResult) {
    || !file.Parsed?
    || (file.path.Some? && env.norm(file.path.value) !in {"auto", "v1"})
    || (file.core.Some? && env.norm(file.core.value) !in {"blocked", "sdpa"})
    || (file.construction.Some? && file.construction.value.fetch.Some?
        && env.norm(file.construction.value.fetch.value) !in {"dequant", "qmm"})
  }

  /** Helper: those are the files that validation fails. */
  lemma ReloadFails(env: Env, file: FileResult)
    ensures Validate(env.norm, env.defaults, file).None? <==> Rejected(env, file)
  {
  }

  /** A reload of a rejected file anywhere in a run changes nothing that follows: the run that leaves
      it out ends with the same values, version, mirrors, latches, lock and threads, and
      every other call returned the same. */
  lemma {:induction false} FailedReloadChangesNothing(env: Env, before: seq<Move>, m: Move, after: seq<Move>)
    requires PcOf(Run(env, before), m.tid).Idle? && m.call.CallReload?
    requires Rejected(env, m.call.file)
    ensures Alike(Run(env, before + [m] + after), Run(env, before + after))
    decreases |after|
  {
    hide Alike, Step, Run, Rejected;
    if after == [] {
      assert before + [m] + after == before + [m] && before + after == before;
      RunSnoc(env, before, m);
      FailedStepIsAlike(env, Run(env, before), m.tid, m.call);
    } else {
      var front, last := after[..|after| - 1], after[|after| - 1];
      FailedReloadChangesNothing(env, before, m, front);
      var with, without := before + [m] + front, before + front;
      assert before + [m] + after == with + [last] && before + after == without + [last];
      RunSnoc(env, with, last);
      RunSnoc(env, without, last);
      StepKeepsAlike(env, Run(env, with), Run(env, without), last.tid, last.call);
    }
  }

  lemma FailedStepIsAlike(env: Env, s: State, tid: nat, call: Call)
    requires PcOf(s, tid).Idle? && call.CallReload? && Rejected(env, call.file)
    ensures Alike(Step(env, s, tid, call), s)
  {
    hide Validate, Outcomes, Rejected;
    ReloadFails(env, call.file);
    OutcomesSnoc(s.hist.log, ReloadFailed);
  }

  // ---------------------------------------------------------------- mirrors

  /** Past its lock section and not yet done storing the mirrors. */
  predicate InFlight(pc: Pc) {
    pc.HoldingFetch? || pc.HoldingFp16? || pc.StoringGather? || pc.StoringCore?
  }

  function FlightVersion(pc: Pc): nat
    requires InFlight(pc)
  {
    if pc.HoldingFetch? || pc.HoldingFp16? then pc.tuple.version else pc.echo.tuple.version
  }

  ghost predicate AtMostOneInFlight(s: State) {
    forall t: nat, t': nat :: InFlight(PcOf(s, t)) && InFlight(PcOf(s, t')) ==> t == t'
  }

  ghost predicate NoneInFlight(s: State) {
    forall t: nat :: !InFlight(PcOf(s, t))
  }

  /** Applies never overlap: at no point are two of them between lock and last store. */
  ghost predicate Serial(env: Env, moves: seq<Move>) {
    forall k :: 0 <= k <= |moves| ==> AtMostOneInFlight(Run(env, moves[..k]))
  }

  /** In flight, with both stores still to come. */
  predicate BeforeGather(pc: Pc) {
    InFlight(pc) && !pc.StoringCore?
  }

  /** How one step can change who is in flight and what was stored. */
  lemma StepStores(env: Env, s: State, tid: nat, call: Call)
    ensures var s' := Step(env, s, tid, call);
            var pc, pc', h, h' := PcOf(s, tid), PcOf(s', tid), s.hist, s'.hist;
            && (!InFlight(pc) ==> h'.gatherFrom == h.gatherFrom && h'.coreFrom == h.coreFrom)
            && (!InFlight(pc) && !InFlight(pc') ==> h'.changes == h.changes)
            && (!InFlight(pc) && InFlight(pc') ==>
                  BeforeGather(pc') && FlightVersion(pc') == s.shared.inner.version + 1
                  && |h'.changes| == |h.changes| + 1)
            && (InFlight(pc) ==> h'.changes == h.changes && (InFlight(pc') <==> !pc.StoringCore?))
            && (InFlight(pc) && InFlight(pc') ==> FlightVersion(pc') == FlightVersion(pc))
            && (InFlight(pc) ==> (BeforeGather(pc') <==> BeforeGather(pc) && !pc.StoringGather?))
            && (InFlight(pc) ==> h'.gatherFrom == if pc.StoringGather? then FlightVersion(pc) else h.gatherFrom)
            && (InFlight(pc) ==> h'.coreFrom == if pc.StoringCore? then FlightVersion(pc) else h.coreFrom)
  {
    hide Validate, FetchOf, Fp16Of;
  }

  // ---- every apply has a version of its own

  /** Version `v` is the one that change `c` made. */
  predicate Owns(h: History, v: nat, c: Change) {
    1 <= v <= |h.changes| && h.changes[v - 1] == c
  }

  function AppliedVersion(e: Event): nat
    requires e.Applied?
  {
    e.echo.tuple.version
  }

  /** Every apply, in flight or returned, has the version its own change made. */
  ghost predicate AppliesOwn(s: State) {
    && (forall t: nat :: InFlight(PcOf(s, t)) ==> Owns(s.hist, FlightVersion(PcOf(s, t)), PcOf(s, t).change))
    && (forall k :: 0 <= k < |s.hist.log| && s.hist.log[k].Applied? ==>
          Owns(s.hist, AppliedVersion(s.hist.log[k]), s.hist.log[k].change))
  }

  /** No two applies, in flight or returned, have the same version. */
  ghost predicate AppliesDistinct(s: State) {
    var log := s.hist.log;
    && (forall t: nat, t': nat :: InFlight(PcOf(s, t)) && InFlight(PcOf(s, t')) && t != t' ==>
          FlightVersion(PcOf(s, t)) != FlightVersion(PcOf(s, t')))
    && (forall k, t: nat :: 0 <= k < |log| && log[k].Applied? && InFlight(PcOf(s, t)) ==>
          AppliedVersion(log[k]) != FlightVersion(PcOf(s, t)))
    && (forall k, k' :: 0 <= k < k' < |log| && log[k].Applied? && log[k'].Applied? ==>
          AppliedVersion(log[k]) != AppliedVersion(log[k']))
  }

  /** How one step can change the applies. */
  lemma StepApplies(env: Env, s: State, tid: nat, call: Call)
    ensures var s' := Step(env, s, tid, call);
            var pc, pc', h, h' := PcOf(s, tid), PcOf(s', tid), s.hist, s'.hist;
            && (!InFlight(pc) && InFlight(pc') ==> h'.changes == h.changes + [pc'.change])
            && (InFlight(pc) && InFlight(pc') ==> pc'.change == pc.change)
            && h.log <= h'.log && |h'.log| <= |h.log| + 1
            && (pc.StoringCore? ==> |h'.log| == |h.log| + 1)
            && (|h'.log| == |h.log| + 1 ==>
                  var e := h'.log[|h.log|];
                  && (e.Applied? <==> pc.StoringCore?)
                  && (e.Applied? ==> AppliedVersion(e) == FlightVersion(pc) && e.change == pc.change))
  {
    hide Validate, Commit, FetchOf, Fp16Of;
  }

  lemma OwnStep(env: Env, s: State, tid: nat, call: Call)
    requires FlightBounded(s) && AppliesOwn(s)
    ensures AppliesOwn(Step(env, s, tid, call))
  {
    hide Step;
    var s' := Step(env, s, tid, call);
    StepStores(env, s, tid, call);
    StepApplies(env, s, tid, call);
    forall t: nat | t != tid ensures PcOf(s', t) == PcOf(s, t) { StepFrame(env, s, tid, call, t); }
    hide PcOf, FlightVersion, InFlight, BeforeGather, AppliedVersion;
    assert s.hist.changes <= s'.hist.changes;
    forall k | 0 <= k < |s'.hist.log| && s'.hist.log[k].Applied?
      ensures Owns(s'.hist, AppliedVersion(s'.hist.log[k]), s'.hist.log[k].change)
    {
      if k < |s.hist.log| {
        assert s'.hist.log[k] == s.hist.log[k];
      } else {
        assert Owns(s.hist, FlightVersion(PcOf(s, tid)), PcOf(s, tid).change);
      }
    }
  }

  lemma DistinctStep(env: Env, s: State, tid: nat, call: Call)
    requires FlightBounded(s) && AppliesOwn(s) && AppliesDistinct(s)
    ensures AppliesDistinct(Step(env, s, tid, call))
  {
    hide Step;
    var s' := Step(env, s, tid, call);
    StepStores(env, s, tid, call);
    StepApplies(env, s, tid, call);
    forall t: nat | t != tid ensures PcOf(s', t) == PcOf(s, t) { StepFrame(env, s, tid, call, t); }
    hide PcOf, FlightVersion, InFlight, BeforeGather, AppliedVersion;
    var log, log' := s.hist.log, s'.hist.log;
    assert forall k :: 0 <= k < |log| ==> log'[k] == log[k];
    forall k, t: nat | 0 <= k < |log'| && log'[k].Applied? && InFlight(PcOf(s', t))
      ensures AppliedVersion(log'[k]) != FlightVersion(PcOf(s', t))
    {
      if k < |log| { assert Owns(s.hist, AppliedVersion(log[k]), log[k].change); }
    }
    forall k, k' | 0 <= k < k' < |log'| && log'[k].Applied? && log'[k'].Applied?
      ensures AppliedVersion(log'[k]) != AppliedVersion(log'[k'])
    {
      if k' == |log| { assert log[k].Applied?; }
    }
  }

  lemma {:induction false} RunOwns(env: Env, moves: seq<Move>)
    ensures AppliesOwn(Run(env, moves)) && AppliesDistinct(Run(env, moves))
  {
    if moves == [] {
    } else {
      var front, m := moves[..|moves| - 1], moves[|moves| - 1];
      RunOwns(env, front);
      RunBoundsFlight(env, front);
      hide Step, AppliesOwn, AppliesDistinct, FlightBounded;
      OwnStep(env, Run(env, front), m.tid, m.call);
      DistinctStep(env, Run(env, front), m.tid, m.call);
    }
  }

  /** In every run, every returned apply reports the version that its own change made, and
      no two report the same one. */
  lemma AppliesAreTheirOwn(env: Env, moves: seq<Move>, i: nat, k: nat)
    requires var log := Run(env, moves).hist.log;
             i < |log| && k < |log| && log[i].Applied? && log[k].Applied?
    ensures var h := Run(env, moves).hist;
            var v, v' := h.log[i].echo.tuple.version, h.log[k].echo.tuple.version;
            && 1 <= v <= |h.changes| && h.changes[v - 1] == h.log[i].change
            && (i != k ==> v != v')
  {
    hide Run;
    RunOwns(env, moves);
    var log := Run(env, moves).hist.log;
    assert AppliedVersion(log[i]) == log[i].echo.tuple.version;
  }

  // ---- stores in lock order

  /** The next store of thread `tid` is of a newer version than the one its mirror holds. */
  predicate StoreIsNewer(s: State, tid: nat) {
    var pc := PcOf(s, tid);
    && (pc.StoringGather? ==> s.hist.gatherFrom < FlightVersion(pc))
    && (pc.StoringCore? ==> s.hist.coreFrom < FlightVersion(pc))
  }

  /** Each mirror is stored in lock order; applies may overlap. */
  ghost predicate StoresInOrder(env: Env, moves: seq<Move>) {
    forall k :: 0 <= k < |moves| ==> StoreIsNewer(Run(env, moves[..k]), moves[k].tid)
  }

  /** Each mirror holds the newest version, or the thread that committed it has yet to store. */
  ghost predicate NewestPending(s: State) {
    var v := |s.hist.changes|;
    && (s.hist.gatherFrom == v || exists t: nat :: BeforeGather(PcOf(s, t)) && FlightVersion(PcOf(s, t)) == v)
    && (s.hist.coreFrom == v || exists t: nat :: InFlight(PcOf(s, t)) && FlightVersion(PcOf(s, t)) == v)
  }

  /** No thread in flight is ahead of the locked version. */
  ghost predicate FlightBounded(s: State) {
    && s.shared.inner.version == |s.hist.changes|
    && s.hist.gatherFrom <= |s.hist.changes| && s.hist.coreFrom <= |s.hist.changes|
    && forall t: nat :: InFlight(PcOf(s, t)) ==> FlightVersion(PcOf(s, t)) <= |s.hist.changes|
  }

  lemma RunBoundsFlight(env: Env, moves: seq<Move>)
    ensures FlightBounded(Run(env, moves))
  {
    hide Run, After;
    RunKeepsInv(env, moves);
    var s := Run(env, moves);
    forall t: nat | InFlight(PcOf(s, t)) ensures FlightVersion(PcOf(s, t)) <= |s.hist.changes| {
      assert PcOk(env, s.hist, s.threads[t]);
    }
  }

  lemma OrderedStep(env: Env, s: State, tid: nat, call: Call)
    requires FlightBounded(s) && NewestPending(s) && StoreIsNewer(s, tid)
    ensures NewestPending(Step(env, s, tid, call))
  {
    hide Step;
    var s' := Step(env, s, tid, call);
    StepStores(env, s, tid, call);
    forall t: nat | t != tid ensures PcOf(s', t) == PcOf(s, t) { StepFrame(env, s, tid, call, t); }
    hide PcOf;
    var pc, pc', v := PcOf(s, tid), PcOf(s', tid), |s.hist.changes|;
    if !InFlight(pc) && InFlight(pc') {
      assert BeforeGather(PcOf(s', tid)) && FlightVersion(PcOf(s', tid)) == |s'.hist.changes|;
    } else {
      if s.hist.gatherFrom != v {
        var t: nat :| BeforeGather(PcOf(s, t)) && FlightVersion(PcOf(s, t)) == v;
        assert BeforeGather(PcOf(s', t)) || s'.hist.gatherFrom == v;
      }
      if s.hist.coreFrom != v {
        var t: nat :| InFlight(PcOf(s, t)) && FlightVersion(PcOf(s, t)) == v;
        assert InFlight(PcOf(s', t)) || s'.hist.coreFrom == v;
      }
    }
  }

  lemma {:induction false} OrderedRun(env: Env, moves: seq<Move>)
    requires StoresInOrder(env, moves)
    ensures NewestPending(Run(env, moves))
  {
    if moves == [] {
    } else {
      var front, m := moves[..|moves| - 1], moves[|moves| - 1];
      forall k | 0 <= k < |front| ensures StoreIsNewer(Run(env, front[..k]), front[k].tid) {
        assert front[..k] == moves[..k] && front[k] == moves[k];
      }
      OrderedRun(env, front);
      RunBoundsFlight(env, front);
      hide Step, NewestPending, StoreIsNewer, FlightBounded;
      OrderedStep(env, Run(env, front), m.tid, m.call);
    }
  }

  /** When mirror stores happen in lock order, however the applies overlap, both mirrors
      equal the locked values whenever no apply is in flight. */
  lemma OrderedMirrorsAgree(env: Env, moves: seq<Move>)
    requires StoresInOrder(env, moves) && NoneInFlight(Run(env, moves))
    ensures MirrorsAgree(Run(env, moves).shared)
  {
    hide Run, TupleAt;
    OrderedRun(env, moves);
    RunKeepsInv(env, moves);
  }

  // ---- applies that do not overlap

  /** A thread in flight is the newest, and has stored nothing it is yet to store. */
  ghost predicate SerialInv(s: State) {
    var v := |s.hist.changes|;
    forall t: nat :: InFlight(PcOf(s, t)) ==>
      && FlightVersion(PcOf(s, t)) == v && s.hist.coreFrom < v
      && (BeforeGather(PcOf(s, t)) ==> s.hist.gatherFrom < v)
  }

  lemma StepFrame(env: Env, s: State, tid: nat, call: Call, t: nat)
    requires t != tid
    ensures PcOf(Step(env, s, tid, call), t) == PcOf(s, t)
  {
  }

  lemma SerialStep(env: Env, s: State, tid: nat, call: Call)
    requires FlightBounded(s) && SerialInv(s) && AtMostOneInFlight(s)
    requires AtMostOneInFlight(Step(env, s, tid, call))
    ensures SerialInv(Step(env, s, tid, call))
  {
    hide Step;
    var s' := Step(env, s, tid, call);
    StepStores(env, s, tid, call);
    forall t: nat | t != tid ensures PcOf(s', t) == PcOf(s, t) { StepFrame(env, s, tid, call, t); }
    hide PcOf;
  }

  lemma {:induction false} SerialRun(env: Env, moves: seq<Move>)
    requires Serial(env, moves)
    ensures SerialInv(Run(env, moves)) && AtMostOneInFlight(Run(env, moves))
  {
    assert moves[..|moves|] == moves;
    if moves == [] {
    } else {
      var front, m := moves[..|moves| - 1], moves[|moves| - 1];
      SerialPrefix(env, moves, |front|);
      SerialRun(env, front);
      RunBoundsFlight(env, front);
      hide Step, FlightBounded, SerialInv;
      SerialStep(env, Run(env, front), m.tid, m.call);
    }
  }

  lemma SerialPrefix(env: Env, moves: seq<Move>, n: nat)
    requires Serial(env, moves) && n <= |moves|
    ensures Serial(env, moves[..n])
  {
    forall k | 0 <= k <= n ensures AtMostOneInFlight(Run(env, moves[..n][..k])) {
      assert moves[..n][..k] == moves[..k];
    }
  }

  /** Applies that do not overlap store in lock order. */
  lemma SerialIsInOrder(env: Env, moves: seq<Move>)
    requires Serial(env, moves)
    ensures StoresInOrder(env, moves)
  {
    forall k | 0 <= k < |moves| ensures StoreIsNewer(Run(env, moves[..k]), moves[k].tid) {
      SerialPrefix(env, moves, k);
      SerialRun(env, moves[..k]);
    }
  }

  /** So when applies do not overlap, both mirrors equal the locked values whenever no apply
      is in flight. */
  lemma SerialMirrorsAgree(env: Env, moves: seq<Move>)
    requires Serial(env, moves) && NoneInFlight(Run(env, moves))
    ensures MirrorsAgree(Run(env, moves).shared)
  {
    SerialIsInOrder(env, moves);
    OrderedMirrorsAgree(env, moves);
  }

  /** With any overlap, each mirror still holds the value of some committed version, and
      agrees with the lock exactly when that version's value is the locked one. */
  lemma MirrorsHoldSomeVersion(env: Env, moves: seq<Move>)
    ensures var s := Run(env, moves);
            var g, c := s.hist.gatherFrom, s.hist.coreFrom;
            && g <= |s.hist.changes| && c <= |s.hist.changes|
            && s.shared.gatherDisabled == (TupleAt(env, s.hist.changes, g).path == V1)
            && s.shared.sdpaCore == (TupleAt(env, s.hist.changes, c).core == Sdpa)
            && (MirrorsAgree(s.shared) <==>
                  && TupleAt(env, s.hist.changes, g).path == s.shared.inner.path
                  && TupleAt(env, s.hist.changes, c).core == s.shared.inner.core)
  {
    hide Run, TupleAt;
    RunKeepsInv(env, moves);
  }

  // -------------------------------------------------------- the lock is a lock

  predicate Holds(pc: Pc) {
    pc.HoldingFetch? || pc.HoldingFp16?
  }

  /** The write lock is held by the one thread inside its lock section, and that thread's
      tuple is the locked one: what it echoes is what it committed. */
  ghost predicate LockInv(s: State) {
    forall t: nat :: Holds(PcOf(s, t)) ==> s.lock == Some(t) && PcOf(s, t).tuple == s.shared.inner
  }

  ghost predicate LockHeldInside(s: State) {
    s.lock.Some? ==> Holds(PcOf(s, s.lock.value))
  }

  /** How one step can change the lock. */
  lemma StepLock(env: Env, s: State, tid: nat, call: Call)
    ensures var s' := Step(env, s, tid, call);
            var pc, pc' := PcOf(s, tid), PcOf(s', tid);
            && (!Holds(pc) && !Holds(pc') ==> s'.lock == s.lock && s'.shared.inner == s.shared.inner)
            && (!Holds(pc) && Holds(pc') ==>
                  s.lock.None? && s'.lock == Some(tid) && pc'.tuple == s'.shared.inner)
            && (Holds(pc) && Holds(pc') ==>
                  s'.lock == s.lock && s'.shared.inner == s.shared.inner && pc'.tuple == pc.tuple)
            && (Holds(pc) && !Holds(pc') ==> s'.lock.None?)
  {
    hide Validate, FetchOf, Fp16Of, OrElse;
  }

  /** A thread that wants the lock waits while it is held, and a reader copies the locked
      tuple when it is free. */
  lemma LockIsAwaited(env: Env, s: State, tid: nat, call: Call)
    ensures var s' := Step(env, s, tid, call);
            var pc, pc' := PcOf(s, tid), PcOf(s', tid);
            && ((pc.WantRead? || pc.WantWrite?) && s.lock.Some? ==> s' == s)
            && (pc.WantRead? && s.lock.None? ==>
                  pc' == SnapFetch(s.shared.inner, pc.began) && s'.shared == s.shared && s'.lock == s.lock)
  {
  }

  lemma StepKeepsLock(env: Env, s: State, tid: nat, call: Call)
    requires LockInv(s) && LockHeldInside(s)
    ensures LockInv(Step(env, s, tid, call)) && LockHeldInside(Step(env, s, tid, call))
  {
    hide Step;
    var s' := Step(env, s, tid, call);
    StepLock(env, s, tid, call);
    forall t: nat | t != tid ensures PcOf(s', t) == PcOf(s, t) { StepFrame(env, s, tid, call, t); }
    hide PcOf;
  }

  /** Mutual exclusion in every run. */
  lemma {:induction false} RunKeepsLock(env: Env, moves: seq<Move>)
    ensures LockInv(Run(env, moves)) && LockHeldInside(Run(env, moves))
  {
    if moves == [] {
    } else {
      var m := moves[|moves| - 1];
      RunKeepsLock(env, moves[..|moves| - 1]);
      StepKeepsLock(env, Run(env, moves[..|moves| - 1]), m.tid, m.call);
    }
  }

  // -------------------------------------------------- overlapping applies

  function ApplyPath(p: Path): Call {
    CallApply(Update(Some(p), None), "api")
  }

  /** Thread 0 sets V1 and stops before its stores; thread 1 sets Auto and finishes; then
      thread 0 stores. */
  function OverlappingMoves(): seq<Move> {
    var a, b := Move(0, ApplyPath(V1)), Move(1, ApplyPath(Auto));
    [a, a, a, a, b, b, b, b, b, b, a, a]
  }

  lemma RunSnoc(env: Env, moves: seq<Move>, m: Move)
    ensures Run(env, moves + [m]) == Step(env, Run(env, moves), m.tid, m.call)
  {
    assert (moves + [m])[..|moves|] == moves;
  }

  function Repeat(m: Move, n: nat): seq<Move> {
    seq(n, i => m)
  }

  /** Four undisturbed moves take an idle thread through the lock section of an apply. */
  lemma ReachStores(env: Env, moves: seq<Move>, tid: nat, u: Update, source: string)
    requires PcOf(Run(env, moves), tid).Idle? && Run(env, moves).lock.None?
    ensures var s := Run(env, moves);
            var s' := Run(env, moves + Repeat(Move(tid, CallApply(u, source)), 4));
            && PcOf(s', tid).StoringGather? && s'.lock.None?
            && PcOf(s', tid).echo.tuple == s'.shared.inner == Commit(s.shared.inner, u, source)
            && s'.shared.gatherDisabled == s.shared.gatherDisabled
            && s'.shared.sdpaCore == s.shared.sdpaCore
            && forall t: nat :: t != tid ==> PcOf(s', t) == PcOf(s, t)
  {
    var m := Move(tid, CallApply(u, source));
    var s1 := Step(env, Run(env, moves), tid, m.call);
    var s2 := Step(env, s1, tid, m.call);
    var s3 := Step(env, s2, tid, m.call);
    assert PcOf(s1, tid).WantWrite? && PcOf(s2, tid).HoldingFetch? && PcOf(s3, tid).HoldingFp16?;
    RunFour(env, moves, m);
  }

  lemma RunFour(env: Env, moves: seq<Move>, m: Move)
    ensures Run(env, moves + Repeat(m, 4))
         == Step(env, Step(env, Step(env, Step(env, Run(env, moves), m.tid, m.call),
                                     m.tid, m.call), m.tid, m.call), m.tid, m.call)
  {
    hide Run, Step;
    RunSnoc(env, moves, m);
    RunSnoc(env, moves + [m], m);
    RunSnoc(env, (moves + [m]) + [m], m);
    RunSnoc(env, ((moves + [m]) + [m]) + [m], m);
    assert moves + Repeat(m, 4) == (((moves + [m]) + [m]) + [m]) + [m];
  }

  /** Two more moves store both mirrors. */
  lemma FinishStores(env: Env, moves: seq<Move>, tid: nat, call: Call)
    requires PcOf(Run(env, moves), tid).StoringGather?
    ensures var s := Run(env, moves);
            var s' := Run(env, moves + Repeat(Move(tid, call), 2));
            var t := PcOf(s, tid).echo.tuple;
            && PcOf(s', tid).Idle? && s'.lock == s.lock
            && s'.shared == StoreCore(StoreGather(s.shared, t), t)
            && forall t: nat :: t != tid ==> PcOf(s', t) == PcOf(s, t)
  {
    var m := Move(tid, call);
    assert PcOf(Step(env, Run(env, moves), tid, call), tid).StoringCore?;
    RunSnoc(env, moves, m);
    RunSnoc(env, moves + [m], m);
    assert moves + Repeat(m, 2) == (moves + [m]) + [m];
  }

  /** Overlapping applies can end, with nothing in flight, in mirrors that differ from the
      locked values: gathering is disabled although the locked path is Auto. Such a run
      stores out of lock order. */
  lemma OverlapLeavesStaleMirror(env: Env)
    ensures var s := Run(env, OverlappingMoves());
            && NoneInFlight(s) && s.lock.None?
            && s.shared.inner.path == Auto && s.shared.inner.version == 2
            && s.shared.gatherDisabled && !MirrorsAgree(s.shared)
    ensures !StoresInOrder(env, OverlappingMoves()) && !Serial(env, OverlappingMoves())
  {
    hide Run, OverlappingMoves, NoneInFlight, StoresInOrder, Serial;
    OverlappingRun(env);
    var moves := OverlappingMoves();
    if StoresInOrder(env, moves) { OrderedMirrorsAgree(env, moves); }
    if Serial(env, moves) { SerialMirrorsAgree(env, moves); }
  }

  lemma OverlappingRun(env: Env)
    ensures var s := Run(env, OverlappingMoves());
            && NoneInFlight(s) && s.lock.None?
            && s.shared.inner.path == Auto && s.shared.inner.version == 2 && s.shared.gatherDisabled
  {
    var a, b := Move(0, ApplyPath(V1)), Move(1, ApplyPath(Auto));
    var m0: seq<Move> := [];
    var m1 := m0 + Repeat(a, 4);
    var m2 := m1 + Repeat(b, 4);
    var m3 := m2 + Repeat(b, 2);
    var m4 := m3 + Repeat(a, 2);
    assert m4 == OverlappingMoves();
    assert Run(env, m0) == Init(env);
    hide Run;
    ReachStores(env, m0, 0, Update(Some(V1), None), "api");
    ReachStores(env, m1, 1, Update(Some(Auto), None), "api");
    FinishStores(env, m2, 1, b.call);
    FinishStores(env, m3, 0, a.call);
    var s2, s4 := Run(env, m2), Run(env, m4);
    forall t: nat ensures !InFlight(PcOf(s4, t)) {
      assert PcOf(Run(env, m0), t).Idle?;
      if t > 1 { assert PcOf(s4, t) == PcOf(s2, t) == PcOf(Run(env, m1), t); }
    }
  }
}
