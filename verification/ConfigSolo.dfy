/** Calls that nothing interrupts, from any reachable state with the lock free: what each
    leaves behind and returns. */
module ConfigSolo {
  import opened Wrappers
  import opened DecodeConfig
  import opened ConfigRuns

  /** `n` moves in a row by one thread. */
  function Steps(env: Env, s: State, tid: nat, call: Call, n: nat): State {
    if n == 0 then s else Step(env, Steps(env, s, tid, call, n - 1), tid, call)
  }

  lemma {:induction false} StepsAdd(env: Env, s: State, tid: nat, call: Call, n: nat, k: nat)
    ensures Steps(env, s, tid, call, n + k) == Steps(env, Steps(env, s, tid, call, n), tid, call, k)
  {
    hide Step;
    if k == 0 {
    } else {
      StepsAdd(env, s, tid, call, n, k - 1);
    }
  }

  lemma {:induction false} RunRepeats(env: Env, moves: seq<Move>, m: Move, n: nat)
    ensures Run(env, moves + Repeat(m, n)) == Steps(env, Run(env, moves), m.tid, m.call, n)
  {
    hide Step, Run;
    if n == 0 {
      assert moves + Repeat(m, n) == moves;
    } else {
      RunRepeats(env, moves, m, n - 1);
      RunSnoc(env, moves + Repeat(m, n - 1), m);
      assert moves + Repeat(m, n) == (moves + Repeat(m, n - 1)) + [m];
    }
  }

  lemma TwoSteps(env: Env, s: State, tid: nat, call: Call)
    ensures Steps(env, s, tid, call, 2) == Step(env, Step(env, s, tid, call), tid, call)
  {
    hide Step;
    assert Steps(env, s, tid, call, 1) == Step(env, s, tid, call) by { assert Steps(env, s, tid, call, 0) == s; }
  }

  lemma ThreeSteps(env: Env, s: State, tid: nat, call: Call)
    ensures Steps(env, s, tid, call, 3) == Step(env, Step(env, Step(env, s, tid, call), tid, call), tid, call)
  {
    hide Step;
    TwoSteps(env, s, tid, call);
  }

  /** The locked section of an apply: commit, then both latches, then the lock is free. */
  lemma LockedSteps(env: Env, s: State, tid: nat, call: Call)
    requires PcOf(s, tid).WantWrite? && s.lock.None?
    ensures var s', pc := Steps(env, s, tid, call, 3), PcOf(s, tid);
            var t := Commit(s.shared.inner, pc.update, pc.source);
            var f, b := OrElse(s.shared.fetch, env.defaults.fetch), OrElse(s.shared.fp16, env.defaults.fp16);
            && s'.shared == s.shared.(inner := t, fetch := Some(f), fp16 := Some(b))
            && s'.lock.None? && s'.hist.log == s.hist.log
            && PcOf(s', tid) == StoringGather(Effective(t, f, b), Change(pc.update, pc.source), pc.began)
  {
    ThreeSteps(env, s, tid, call);
    hide Steps, Commit;
    var s1 := Step(env, s, tid, call);
    assert PcOf(s1, tid).HoldingFetch?;
    var s2 := Step(env, s1, tid, call);
    assert PcOf(s2, tid).HoldingFp16?;
  }

  /** The two stores after it, and the return. */
  lemma StoreSteps(env: Env, s: State, tid: nat, call: Call)
    requires PcOf(s, tid).StoringGather?
    ensures var s', pc := Steps(env, s, tid, call, 2), PcOf(s, tid);
            var t := pc.echo.tuple;
            && s'.shared == s.shared.(gatherDisabled := t.path == V1, sdpaCore := t.core == Sdpa)
            && s'.lock == s.lock && PcOf(s', tid).Idle?
            && s'.hist.log == s.hist.log + [Applied(pc.echo, pc.change, pc.began)]
  {
    TwoSteps(env, s, tid, call);
    hide Steps;
    assert PcOf(Step(env, s, tid, call), tid).StoringCore?;
  }

  /** What an apply of `u` leaves and returns. */
  predicate AppliedFrom(env: Env, s: State, s': State, tid: nat, u: Update, source: string) {
    var t := Tuple(OrElse(u.path, s.shared.inner.path), OrElse(u.core, s.shared.inner.core),
                   source, s.shared.inner.version + 1);
    var f, b := OrElse(s.shared.fetch, env.defaults.fetch), OrElse(s.shared.fp16, env.defaults.fp16);
    && s'.shared == Shared(t, t.path == V1, t.core == Sdpa, Some(f), Some(b))
    && s'.lock.None? && PcOf(s', tid).Idle?
    && |s'.hist.log| == |s.hist.log| + 1 && s.hist.log <= s'.hist.log
    && var e := s'.hist.log[|s.hist.log|];
       e.Applied? && e.echo == Effective(t, f, b) && e.change == Change(u, source)
  }

  lemma ApplySteps(env: Env, s: State, tid: nat, call: Call)
    requires PcOf(s, tid).WantWrite? && s.lock.None?
    ensures AppliedFrom(env, s, Steps(env, s, tid, call, 5), tid, PcOf(s, tid).update, PcOf(s, tid).source)
  {
    LockedSteps(env, s, tid, call);
    var s' := Steps(env, s, tid, call, 3);
    StoreSteps(env, s', tid, call);
    StepsAdd(env, s, tid, call, 3, 2);
    hide Steps, PcOf;
  }

  /** An uninterrupted apply: the next version, both mirrors and both latches, and an echo of
      exactly that. */
  lemma SoloApply(env: Env, moves: seq<Move>, tid: nat, u: Update, source: string)
    requires PcOf(Run(env, moves), tid).Idle? && Run(env, moves).lock.None?
    ensures AppliedFrom(env, Run(env, moves), Run(env, moves + Repeat(Move(tid, CallApply(u, source)), 6)),
                        tid, u, source)
  {
    var s, call := Run(env, moves), CallApply(u, source);
    hide Run;
    var s1 := Step(env, s, tid, call);
    assert PcOf(s1, tid) == WantWrite(u, source, |s.hist.log|);
    assert s1.shared == s.shared && s1.lock == s.lock && s1.hist == s.hist;
    OneStep(env, s, tid, call);
    hide Step, Steps;
    ApplySteps(env, s1, tid, call);
    StepsAdd(env, s, tid, call, 1, 5);
    RunRepeats(env, moves, Move(tid, call), 6);
  }

  lemma OneStep(env: Env, s: State, tid: nat, call: Call)
    ensures Steps(env, s, tid, call, 1) == Step(env, s, tid, call)
  {
    hide Step;
    assert Steps(env, s, tid, call, 0) == s;
  }

  /** The start of a valid reload: its construction keys, then the wish to lock. */
  lemma ReloadSteps(env: Env, s: State, tid: nat, file: FileResult, source: string)
    requires PcOf(s, tid).Idle? && Validate(env.norm, env.defaults, file).Some?
    ensures var s' := Steps(env, s, tid, CallReload(file, source), 3);
            var r := Validate(env.norm, env.defaults, file).value;
            && s'.shared == s.shared.(fetch := Some(OrElse(s.shared.fetch, r.fetch)),
                                      fp16 := if r.fp16.Some? then Some(OrElse(s.shared.fp16, r.fp16.value))
                                              else s.shared.fp16)
            && s'.lock == s.lock && s'.hist.log == s.hist.log
            && PcOf(s', tid) == WantWrite(Update(Some(r.path), Some(r.core)), source, |s.hist.log|)
  {
    var call := CallReload(file, source);
    ThreeSteps(env, s, tid, call);
    hide Steps, Validate;
    var s1 := Step(env, s, tid, call);
    assert PcOf(s1, tid).ReloadFetch?;
    var s2 := Step(env, s1, tid, call);
    assert PcOf(s2, tid).ReloadFp16?;
  }

  /** An uninterrupted reload of a valid file: the file's path and core are locked at the
      next version, both mirrors agree, latches that were unset hold the file's values or
      the defaults, and the echo says so. */
  lemma SoloReload(env: Env, moves: seq<Move>, tid: nat, file: FileResult, source: string)
    requires PcOf(Run(env, moves), tid).Idle? && Run(env, moves).lock.None?
    requires Validate(env.norm, env.defaults, file).Some?
    ensures var s, r := Run(env, moves), Validate(env.norm, env.defaults, file).value;
            var s' := Run(env, moves + Repeat(Move(tid, CallReload(file, source)), 8));
            var t := Tuple(r.path, r.core, source, s.shared.inner.version + 1);
            var f := OrElse(s.shared.fetch, r.fetch);
            var b := OrElse(s.shared.fp16, OrElse(r.fp16, env.defaults.fp16));
            && s'.shared == Shared(t, t.path == V1, t.core == Sdpa, Some(f), Some(b))
            && s'.lock.None? && PcOf(s', tid).Idle?
            && |s'.hist.log| == |s.hist.log| + 1 && s.hist.log <= s'.hist.log
            && s'.hist.log[|s.hist.log|].Applied? && s'.hist.log[|s.hist.log|].echo == Effective(t, f, b)
  {
    var s, call := Run(env, moves), CallReload(file, source);
    hide Run, Step, Steps, Validate, PcOf;
    ReloadSteps(env, s, tid, file, source);
    var s1 := Steps(env, s, tid, call, 3);
    ApplySteps(env, s1, tid, call);
    StepsAdd(env, s, tid, call, 3, 5);
    RunRepeats(env, moves, Move(tid, call), 8);
  }

  /** An uninterrupted snapshot returns the locked tuple and both latched values, and changes
      nothing but unset latches. */
  lemma SoloSnapshot(env: Env, moves: seq<Move>, tid: nat)
    requires PcOf(Run(env, moves), tid).Idle? && Run(env, moves).lock.None?
    ensures var s, s' := Run(env, moves), Run(env, moves + Repeat(Move(tid, CallSnapshot), 4));
            var f, b := OrElse(s.shared.fetch, env.defaults.fetch), OrElse(s.shared.fp16, env.defaults.fp16);
            && s'.shared == s.shared.(fetch := Some(f), fp16 := Some(b))
            && s'.lock.None? && PcOf(s', tid).Idle?
            && s'.hist.log == s.hist.log + [Snapped(Effective(s.shared.inner, f, b), |s.hist.log|)]
  {
    var s, call := Run(env, moves), CallSnapshot;
    hide Run;
    var s1 := Step(env, s, tid, call);
    assert PcOf(s1, tid).WantRead?;
    var s2 := Step(env, s1, tid, call);
    assert PcOf(s2, tid).SnapFetch?;
    TwoSteps(env, s, tid, call);
    TwoSteps(env, s2, tid, call);
    StepsAdd(env, s, tid, call, 2, 2);
    RunRepeats(env, moves, Move(tid, call), 4);
    var s3 := Step(env, s2, tid, call);
    assert PcOf(s3, tid).SnapFp16?;
  }

  /** A reload of a rejected file returns its failure at once, and does nothing else. */
  lemma SoloRejected(env: Env, s: State, tid: nat, file: FileResult, source: string)
    requires PcOf(s, tid).Idle? && Rejected(env, file)
    ensures var s' := Step(env, s, tid, CallReload(file, source));
            && s'.shared == s.shared && s'.lock == s.lock && PcOf(s', tid).Idle?
            && s'.hist == s.hist.(log := s.hist.log + [ReloadFailed])
  {
    ReloadFails(env, file);
    hide Validate, Rejected;
  }

  /** A dispatch read latches the default unless something latched before, and returns the
      latched value. */
  lemma SoloReads(env: Env, s: State, tid: nat)
    requires PcOf(s, tid).Idle?
    ensures var s', f := Step(env, s, tid, CallFetchQmm), OrElse(s.shared.fetch, env.defaults.fetch);
            s'.shared == s.shared.(fetch := Some(f)) && s'.hist.log == s.hist.log + [FetchRead(f)]
    ensures var s', b := Step(env, s, tid, CallFp16), OrElse(s.shared.fp16, env.defaults.fp16);
            s'.shared == s.shared.(fp16 := Some(b)) && s'.hist.log == s.hist.log + [Fp16Read(b)]
  {
  }
}
