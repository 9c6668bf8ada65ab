/** The configuration store as an object, for callers that take turns: each method runs its
    atomic operations one after the other. */
module ConfigStore {
  import opened Wrappers
  import opened DecodeConfig

  /** The process-wide fp16 latch, shared by every store. */
  class Process {
    var fp16: Option<bool>

    constructor ()
      ensures fp16 == None
    {
      fp16 := None;
    }
  }

  class Store {
    var path: Path
    var core: Core
    var source: string
    var version: nat
    var gatherDisabled: bool
    var sdpaCore: bool
    var fetch: Option<Fetch>
    const defaults: Defaults
    const norm: string -> string
    const process: Process

    ghost function View(): Shared
      reads this, process
    {
      Shared(Tuple(path, core, source, version), gatherDisabled, sdpaCore, fetch, process.fp16)
    }

    /** Callers that take turns always find the mirrors equal to the locked values. */
    ghost predicate Valid()
      reads this, process
    {
      MirrorsAgree(View())
    }

    constructor (defaults: Defaults, norm: string -> string, process: Process)
      ensures Valid() && View() == Initial(defaults, process.fp16)
      ensures this.defaults == defaults && this.norm == norm && this.process == process
    {
      this.defaults, this.norm, this.process := defaults, norm, process;
      path, core, source, version := Auto, defaults.core, "default", 0;
      gatherDisabled, sdpaCore, fetch := false, defaults.core == Sdpa, None;
    }

    method GatheredEnabled() returns (r: bool)
      requires Valid()
      ensures r <==> View().inner.path != V1
    {
      r := !gatherDisabled;
    }

    method MsaCoreSdpa() returns (r: bool)
      requires Valid()
      ensures r <==> View().inner.core == Sdpa
    {
      r := sdpaCore;
    }

    /** `get_or_init` of the fetch latch. */
    method FetchOrInit(want: Fetch) returns (r: Fetch)
      modifies this`fetch
      ensures View() == LatchFetch(old(View()), want) && fetch == Some(r)
      ensures old(fetch).Some? ==> r == old(fetch).value
      ensures old(fetch).None? ==> r == want
    {
      if fetch.None? { fetch := Some(want); }
      r := fetch.value;
    }

    method Fp16OrInit(want: bool) returns (r: bool)
      modifies process
      ensures View() == LatchFp16(old(View()), want) && process.fp16 == Some(r)
      ensures old(process.fp16).Some? ==> r == old(process.fp16).value
      ensures old(process.fp16).None? ==> r == want
    {
      if process.fp16.None? { process.fp16 := Some(want); }
      r := process.fp16.value;
    }

    /** The first dispatch read freezes the default unless a file came before it. */
    method MsaFetchQmm() returns (r: bool)
      requires Valid()
      modifies this`fetch
      ensures Valid() && View() == LatchFetch(old(View()), defaults.fetch)
      ensures r <==> OrElse(old(fetch), defaults.fetch) == Qmm
    {
      var f := FetchOrInit(defaults.fetch);
      r := f == Qmm;
    }

    method Snapshot() returns (e: Effective)
      requires Valid()
      modifies this`fetch, process
      ensures Valid()
      ensures View() == LatchFp16(LatchFetch(old(View()), defaults.fetch), defaults.fp16)
      ensures e.tuple == old(View()).inner && View().fetch == Some(e.fetch) && View().fp16 == Some(e.fp16)
    {
      var t := Tuple(path, core, source, version);
      var f := FetchOrInit(defaults.fetch);
      var b := Fp16OrInit(defaults.fp16);
      e := Effective(t, f, b);
    }

    /** One version bump however many fields the update carries; absent fields keep their
        values, and the mirrors end equal to the new tuple. */
    method Apply(u: Update, newSource: string) returns (e: Effective)
      modifies this, process
      ensures Valid() && View().inner == Commit(old(View()).inner, u, newSource) == e.tuple
      ensures View().fetch == Some(OrElse(old(fetch), defaults.fetch)) == Some(e.fetch)
      ensures View().fp16 == Some(OrElse(old(process.fp16), defaults.fp16)) == Some(e.fp16)
    {
      if u.path.Some? { path := u.path.value; }
      if u.core.Some? { core := u.core.value; }
      source := newSource;
      version := version + 1;
      var t := Tuple(path, core, source, version);
      var f := FetchOrInit(defaults.fetch);
      var b := Fp16OrInit(defaults.fp16);
      e := Effective(t, f, b);
      gatherDisabled := t.path == V1;
      sdpaCore := t.core == Sdpa;
    }

    /** All or nothing: a file that fails validation changes nothing at all; one that passes
        sets both runtime keys (absent keys to their defaults), bumps the version once, and
        its construction value is taken only by a latch that was unset. */
    method ReloadFromFile(file: FileResult, newSource: string) returns (r: Option<Effective>)
      requires Valid()
      modifies this, process
      ensures Valid() && (r.Some? <==> Validate(norm, defaults, file).Some?)
      ensures r.None? ==> View() == old(View())
      ensures r.Some? ==>
                var f := Validate(norm, defaults, file).value;
                && View().inner == Tuple(f.path, f.core, newSource, old(version) + 1) == r.value.tuple
                && View().fetch == Some(OrElse(old(fetch), f.fetch)) == Some(r.value.fetch)
                && View().fp16 == Some(OrElse(old(process.fp16), OrElse(f.fp16, defaults.fp16)))
    {
      var v := Validate(norm, defaults, file);
      if v.None? { return None; }
      var f := v.value;
      var frozen := FetchOrInit(f.fetch);
      if f.fp16.Some? {
        var current := Fp16OrInit(f.fp16.value);
      }
      var e := Apply(Update(Some(f.path), Some(f.core)), newSource);
      r := Some(e);
    }
  }
}
