/** The runtime-reloadable decode configuration: the values, their atomic operations and
    the validation of a reloaded file. `ConfigRuns` interleaves these operations and
    `ConfigStore` is the object that performs them one after the other. */
module DecodeConfig {
  import opened Wrappers

  datatype Path = Auto | V1
  datatype Core = Blocked | Sdpa
  datatype Fetch = Dequant | Qmm

  /** Process defaults: the core, the fetch, and the seed of the fp16 latch. */
  datatype Defaults = Defaults(core: Core, fetch: Fetch, fp16: bool)

  /** The values that move together under the lock. */
  datatype Tuple = Tuple(path: Path, core: Core, source: string, version: nat)

  /** A partial update; absent fields keep their value. */
  datatype Update = Update(path: Option<Path>, core: Option<Core>)

  /** Everything the threads share: the locked tuple, two hot-path mirrors, two latches. */
  datatype Shared = Shared(inner: Tuple, gatherDisabled: bool, sdpaCore: bool,
                           fetch: Option<Fetch>, fp16: Option<bool>)

  /** What an echo surface reports. */
  datatype Effective = Effective(tuple: Tuple, fetch: Fetch, fp16: bool)

  function OrElse<T>(o: Option<T>, default: T): T {
    if o.Some? then o.value else default
  }

  function Initial(d: Defaults, fp16: Option<bool>): Shared {
    Shared(Tuple(Auto, d.core, "default", 0), false, d.core == Sdpa, None, fp16)
  }

  // ------------------------------------------------------- atomic operations

  /** The write-lock section of an apply. */
  function Commit(t: Tuple, u: Update, source: string): Tuple {
    Tuple(OrElse(u.path, t.path), OrElse(u.core, t.core), source, t.version + 1)
  }

  /** Write-once latches: the first value stays. */
  function LatchFetch(s: Shared, want: Fetch): Shared {
    s.(fetch := Some(OrElse(s.fetch, want)))
  }

  function LatchFp16(s: Shared, want: bool): Shared {
    s.(fp16 := Some(OrElse(s.fp16, want)))
  }

  function StoreGather(s: Shared, t: Tuple): Shared {
    s.(gatherDisabled := t.path == V1)
  }

  function StoreCore(s: Shared, t: Tuple): Shared {
    s.(sdpaCore := t.core == Sdpa)
  }

  predicate MirrorsAgree(s: Shared) {
    s.gatherDisabled == (s.inner.path == V1) && s.sdpaCore == (s.inner.core == Sdpa)
  }

  // ---------------------------------------------------------- reloaded files

  /** What the file system and the TOML parser returned. */
  datatype FileResult =
    | NotConfigured
    | Unreadable
    | Malformed
    | Parsed(path: Option<string>, core: Option<string>, construction: Option<Construction>)

  datatype Construction = Construction(fetch: Option<string>, fp16: Option<bool>)

  /** A validated file. */
  datatype Reload = Reload(path: Path, core: Core, fetch: Fetch, fp16: Option<bool>)

  /** `norm` is trimming and ASCII lower-casing. */
  function ParsePath(norm: string -> string, s: string): Option<Path> {
    if norm(s) == "auto" then Some(Auto) else if norm(s) == "v1" then Some(V1) else None
  }

  function ParseCore(norm: string -> string, s: string): Option<Core> {
    if norm(s) == "blocked" then Some(Blocked) else if norm(s) == "sdpa" then Some(Sdpa) else None
  }

  function ParseFetch(norm: string -> string, s: string): Option<Fetch> {
    if norm(s) == "dequant" then Some(Dequant) else if norm(s) == "qmm" then Some(Qmm) else None
  }

  /** An absent key is its default; a present one must parse. */
  function Key<T>(key: Option<string>, parse: string -> Option<T>, default: T): Option<T> {
    if key.Some? then parse(key.value) else Some(default)
  }

  function FetchKey(c: Option<Construction>): Option<string> {
    if c.Some? then c.value.fetch else None
  }

  /** Every key is checked before anything is applied. */
  function Validate(norm: string -> string, d: Defaults, file: FileResult): Option<Reload> {
    if !file.Parsed? then None
    else
      var path := Key(file.path, s => ParsePath(norm, s), Auto);
      var core := Key(file.core, s => ParseCore(norm, s), d.core);
      var fetch := Key(FetchKey(file.construction), s => ParseFetch(norm, s), d.fetch);
      if path.None? || core.None? || fetch.None? then None
      else Some(Reload(path.value, core.value, fetch.value,
                       if file.construction.Some? then file.construction.value.fp16 else None))
  }

  /** What a validated file holds: each key's word, or the default of an absent key. */
  lemma ValidatedFields(norm: string -> string, d: Defaults, file: FileResult)
    requires Validate(norm, d, file).Some?
    ensures file.Parsed?
    ensures var r := Validate(norm, d, file).value;
            var fetch := if file.construction.Some? then file.construction.value.fetch else None;
            && (r.path == V1 <==> file.path.Some? && norm(file.path.value) == "v1")
            && (r.path == Auto <==> file.path.None? || norm(file.path.value) == "auto")
            && (file.core.None? ==> r.core == d.core)
            && (file.core.Some? ==> (r.core == Sdpa <==> norm(file.core.value) == "sdpa")
                                    && (r.core == Blocked <==> norm(file.core.value) == "blocked"))
            && (fetch.None? ==> r.fetch == d.fetch)
            && (fetch.Some? ==> (r.fetch == Qmm <==> norm(fetch.value) == "qmm")
                                && (r.fetch == Dequant <==> norm(fetch.value) == "dequant"))
            && (file.construction.None? ==> r.fp16 == None)
            && (file.construction.Some? ==> r.fp16 == file.construction.value.fp16)
  {
  }
}
