/** The whole keep-list report: the checks on what was enumerated, classification,
    reachability, sizing, and what an outcome may emit. */
module KeepReport {
  import opened Wrappers
  import opened KeepList
  import DirSize

  /** The answer of the probe for a running server. */
  datatype Quiescence = NoServerFound | ServerRunning | CouldNotCheck

  /** One enumerated index file: the stem of its name, the digest in its header (absent when
      the file vanished before it was read) and the manifests it lists. */
  datatype RawIndex = RawIndex(stem: string, digest: Option<Hash>, manifests: seq<Hash>)

  /** What the report reads. A block directory that is absent cannot be listed. */
  datatype World = World(probe: Quiescence, indexes: Result<seq<RawIndex>>,
                         enumerated: Result<seq<Hash>>, readable: Manifests,
                         dirs: map<Hash, DirSize.Node>)

  /** The arguments, with the digest of a session key and the hexadecimal text of a digest. */
  datatype Args = Args(keep: seq<string>, skipProbe: bool, digestOf: string -> Hash, hex: Hash -> string)

  datatype Report = Report(buckets: Buckets, candidates: seq<Hash>, bytes: Option<nat>,
                           unsized: nat, sessions: nat, unmatched: seq<nat>)

  datatype Outcome = Complete(report: Report) | Unmatched(report: Report) | Incomplete | Refused

  // ---------------------------------------------------- what a run is entitled to say

  predicate IsHexDigit(c: char) {
    '0' <= c <= '9' || 'a' <= c <= 'f' || 'A' <= c <= 'F'
  }

  predicate IsStem(s: string) {
    |s| == 64 && forall i :: 0 <= i < |s| ==> IsHexDigit(s[i])
  }

  /** The file name is a digest and the header agrees with it. */
  predicate Agrees(args: Args, r: RawIndex) {
    r.digest.Some? && IsStem(r.stem) && r.stem == args.hex(r.digest.value)
  }

  /** That is: the name is 64 hexadecimal digits, and the digest's own text. */
  lemma AgreesMeaning(args: Args, r: RawIndex)
    ensures Agrees(args, r) <==>
              && r.digest.Some? && r.stem == args.hex(r.digest.value) && |r.stem| == 64
              && forall i :: 0 <= i < |r.stem| ==> r.stem[i] in "0123456789abcdefABCDEF"
  {
    forall c: char ensures IsHexDigit(c) <==> c in "0123456789abcdefABCDEF" { HexDigits(c); }
  }

  lemma HexDigits(c: char)
    ensures IsHexDigit(c) <==> c in "0123456789abcdefABCDEF"
  {
    var digits := "0123456789abcdefABCDEF";
    if IsHexDigit(c) {
      var i := if c <= '9' then c as int - '0' as int
               else if c <= 'F' then c as int - 'A' as int + 16 else c as int - 'a' as int + 10;
      assert digits[i] == c;
    }
  }

  function AsIndex(r: RawIndex): Index
    requires r.digest.Some?
  {
    Index(r.digest.value, r.manifests)
  }

  function AsIndexes(rs: seq<RawIndex>): (r: seq<Index>)
    requires forall i :: 0 <= i < |rs| ==> rs[i].digest.Some?
    ensures |r| == |rs| && forall i :: 0 <= i < |rs| ==> r[i] == AsIndex(rs[i])
  {
    seq(|rs|, i requires 0 <= i < |rs| => AsIndex(rs[i]))
  }

  function Named(args: Args): set<Hash> {
    set i | 0 <= i < |args.keep| :: args.digestOf(args.keep[i])
  }

  /** The session of an index file is on the keep list. */
  predicate OnKeepList(args: Args, r: RawIndex) {
    exists i :: 0 <= i < |args.keep| && r.digest == Some(args.digestOf(args.keep[i]))
  }

  /** Some index file of a session on the keep list lists `m`. */
  predicate HeldByNamed(args: Args, raw: seq<RawIndex>, m: Hash) {
    exists k :: 0 <= k < |raw| && m in raw[k].manifests && OnKeepList(args, raw[k])
  }

  /** No index file lists `m`. */
  predicate Orphan(raw: seq<RawIndex>, m: Hash) {
    forall k :: 0 <= k < |raw| ==> m !in raw[k].manifests
  }

  /** Only index files of sessions off the keep list do. */
  predicate HeldByOthersOnly(args: Args, raw: seq<RawIndex>, m: Hash) {
    !HeldByNamed(args, raw, m) && !Orphan(raw, m)
  }

  /** The classes, from the index files themselves. */
  lemma RawClasses(args: Args, raw: seq<RawIndex>, m: Hash)
    requires forall i :: 0 <= i < |raw| ==> raw[i].digest.Some?
    ensures HeldByNamed(args, raw, m) <==> ByNamed(AsIndexes(raw), Named(args), m)
    ensures Orphan(raw, m) <==> Unattributed(AsIndexes(raw), m)
    ensures HeldByOthersOnly(args, raw, m) <==> Unprotected(AsIndexes(raw), Named(args), m)
  {
    var indexes, named := AsIndexes(raw), Named(args);
    forall k | 0 <= k < |raw| ensures OnKeepList(args, raw[k]) <==> indexes[k].digest in named {
    }
    forall x | x in indexes ensures exists k :: 0 <= k < |raw| && indexes[k] == x {
    }
    assert forall k :: 0 <= k < |raw| ==> indexes[k] in indexes && indexes[k].manifests == raw[k].manifests;
    hide AsIndex, OnKeepList, AsIndexes, Named;
    if ByNamed(indexes, named, m) {
      var x :| x in indexes && x.digest in named && m in x.manifests;
      var k :| 0 <= k < |raw| && indexes[k] == x;
      assert m in raw[k].manifests && OnKeepList(args, raw[k]);
    }
    if HeldByNamed(args, raw, m) {
      var k :| 0 <= k < |raw| && m in raw[k].manifests && OnKeepList(args, raw[k]);
      assert indexes[k] in indexes && indexes[k].digest in named && m in indexes[k].manifests;
    }
    if !Orphan(raw, m) {
      var k :| 0 <= k < |raw| && m in raw[k].manifests;
      assert indexes[k] in indexes && m in indexes[k].manifests;
    }
  }

  /** The scan is trustworthy: no server found, everything enumerated, every index file
      agrees with its header. */
  predicate Scanned(args: Args, w: World) {
    && (args.skipProbe || w.probe.NoServerFound?)
    && w.indexes.Ok? && w.enumerated.Ok?
    && forall i :: 0 <= i < |w.indexes.value| ==> Agrees(args, w.indexes.value[i])
  }

  predicate AllRead(w: World)
    requires w.enumerated.Ok?
  {
    forall m :: m in w.enumerated.value ==> m in w.readable
  }

  /** Every named session has an index. */
  predicate AllMatched(args: Args, w: World)
    requires w.indexes.Ok?
  {
    forall i :: 0 <= i < |args.keep| ==> IndexFor(args, w, i)
  }

  predicate IndexFor(args: Args, w: World, i: nat)
    requires w.indexes.Ok? && i < |args.keep|
  {
    exists k :: 0 <= k < |w.indexes.value|
      && w.indexes.value[k].digest == Some(args.digestOf(args.keep[i]))
  }

  function DirOf(w: World, block: Hash): (d: DirSize.Node)
    ensures DirSize.IsDir(d)
  {
    if block in w.dirs && DirSize.IsDir(w.dirs[block]) then w.dirs[block] else DirSize.UnreadableDir
  }

  function DirsOf(w: World, blocks: seq<Hash>): (r: seq<DirSize.Node>)
    ensures |r| == |blocks| && forall i :: 0 <= i < |r| ==> r[i] == DirOf(w, blocks[i])
  {
    seq(|blocks|, i requires 0 <= i < |blocks| => DirOf(w, blocks[i]))
  }

  /** Each bucket holds the enumerated manifests of its class, as the index files have it. */
  ghost predicate BucketsOfFiles(args: Args, w: World, b: Buckets)
    requires Scanned(args, w)
  {
    var raw, manifests := w.indexes.value, w.enumerated.value;
    && (forall m :: m in b.keep <==> m in manifests && HeldByNamed(args, raw, m))
    && (forall m :: m in b.unprotected <==> m in manifests && HeldByOthersOnly(args, raw, m))
    && (forall m :: m in b.unattributed <==> m in manifests && Orphan(raw, m))
  }

  lemma BucketsAreOfFiles(args: Args, w: World, b: Buckets)
    requires Scanned(args, w)
    requires IsBuckets(AsIndexes(w.indexes.value), w.enumerated.value, Named(args), b)
    ensures BucketsOfFiles(args, w, b)
  {
    var raw, manifests := w.indexes.value, w.enumerated.value;
    hide HeldByNamed, HeldByOthersOnly, Orphan, AsIndexes, ByNamed, Unprotected, Unattributed;
    forall m: Hash
      ensures m in b.keep <==> m in manifests && HeldByNamed(args, raw, m)
      ensures m in b.unprotected <==> m in manifests && HeldByOthersOnly(args, raw, m)
      ensures m in b.unattributed <==> m in manifests && Orphan(raw, m)
    {
      RawClasses(args, raw, m);
      ProtectedMember(AsIndexes(raw), manifests, Named(args), b, m);
    }
  }

  /** The report of a trustworthy scan whose manifests were all read. */
  ghost predicate IsReport(args: Args, w: World, r: Report)
    requires Scanned(args, w)
  {
    && IsBuckets(AsIndexes(w.indexes.value), w.enumerated.value, Named(args), r.buckets)
    && BucketsOfFiles(args, w, r.buckets)
    && IsCandidates(w.readable, r.buckets, r.candidates)
    && r.bytes == (var dirs := DirsOf(w, r.candidates);
                   if DirSize.AllClean(dirs) && DirSize.AllBytes(dirs) <= DirSize.U64_MAX
                   then Some(DirSize.AllBytes(dirs)) else None)
    && r.unsized == DirSize.Unmeasured(DirsOf(w, r.candidates))
    && r.sessions == |w.indexes.value|
    && Sorted(r.unmatched) && Distinct(r.unmatched)
    && (r.unmatched == [] <==> AllMatched(args, w))
    && (forall i :: i in r.unmatched <==> 0 <= i < |args.keep| && !IndexFor(args, w, i))
  }

  // --------------------------------------------------------------------- the run

  predicate FirstBad(args: Args, raw: seq<RawIndex>, i: nat) {
    i < |raw| && !Agrees(args, raw[i]) && forall k :: 0 <= k < i ==> Agrees(args, raw[k])
  }

  /** Checks every index file in turn; the first bad one decides. */
  method CheckIndexes(args: Args, raw: seq<RawIndex>) returns (bad: Option<Outcome>)
    ensures bad.None? <==> forall i :: 0 <= i < |raw| ==> Agrees(args, raw[i])
    ensures bad.Some? ==>
              exists i: nat :: && FirstBad(args, raw, i)
                               && bad.value == if raw[i].digest.None? then Incomplete else Refused
  {
    for i := 0 to |raw|
      invariant forall k :: 0 <= k < i ==> Agrees(args, raw[k])
    {
      assert !Agrees(args, raw[i]) ==> FirstBad(args, raw, i);
      if raw[i].digest.None? { return Some(Incomplete); }
      if !IsStem(raw[i].stem) { return Some(Refused); }
      if raw[i].stem != args.hex(raw[i].digest.value) { return Some(Refused); }
    }
    bad := None;
  }

  /** The elements of a set, in some order. */
  method Enumerate(s: set<Hash>) returns (r: seq<Hash>)
    ensures forall x :: x in r <==> x in s
    ensures Distinct(r)
  {
    r := [];
    var rest := s;
    while rest != {}
      invariant rest <= s && forall x :: x in r <==> x in s && x !in rest
      invariant Distinct(r)
      decreases |rest|
    {
      var x :| x in rest;
      r := r + [x];
      rest := rest - {x};
    }
  }

  lemma CountsTwice(t: seq<Hash>, i: nat, j: nat)
    requires i < j < |t|
    ensures t[i] == t[j] ==> multiset(t)[t[i]] >= 2
  {
    assert t == t[..i] + [t[i]] + t[i + 1..j] + [t[j]] + t[j + 1..];
  }

  lemma PermutationDistinct(s: seq<Hash>, t: seq<Hash>)
    requires multiset(s) == multiset(t) && Distinct(s)
    ensures Distinct(t)
  {
    forall i, j | 0 <= i < j < |t| ensures t[i] != t[j] {
      CountsTwice(t, i, j);
      OccursOnce(s, t[i]);
    }
  }

  /** The difference of the two block sets, listed and sorted. */
  method Candidates(store: Manifests, b: Buckets) returns (ok: bool, blocks: seq<Hash>)
    ensures ok <==> forall m :: m in b.keep || m in b.unattributed || m in b.unprotected ==> m in store
    ensures ok ==> IsCandidates(store, b, blocks)
  {
    var protected_, n := Gather(store, b.keep, {}, 0);
    protected_, n := Gather(store, b.unattributed, protected_, n);
    var open_;
    open_, n := Gather(store, b.unprotected, {}, n);
    blocks := [];
    ok := n == 0;
    NoneUnreadable(store, b.keep);
    NoneUnreadable(store, b.unattributed);
    NoneUnreadable(store, b.unprotected);
    if ok {
      var listed := Enumerate(open_ - protected_);
      blocks := Sort(listed);
      PermutationDistinct(listed, blocks);
      SameMembers(listed, blocks);
    }
  }

  /** Positions of the named sessions that matched no index. */
  method FindUnmatched(args: Args, matched: set<Hash>) returns (r: seq<nat>)
    ensures forall i :: i in r <==> 0 <= i < |args.keep| && args.digestOf(args.keep[i]) !in matched
    ensures Sorted(r) && Distinct(r)
  {
    r := [];
    for i := 0 to |args.keep|
      invariant Sorted(r) && Distinct(r) && forall j :: 0 <= j < |r| ==> r[j] < i
      invariant forall k :: k in r <==> 0 <= k < i && args.digestOf(args.keep[k]) !in matched
    {
      if args.digestOf(args.keep[i]) !in matched { r := r + [i]; }
    }
  }

  /** Something vanished or could not be read, after every check before it passed. */
  ghost predicate ScanIncomplete(args: Args, w: World) {
    && (args.skipProbe || w.probe.NoServerFound?) && w.indexes.Ok?
    && ((exists i: nat :: FirstBad(args, w.indexes.value, i) && w.indexes.value[i].digest.None?)
        || (Scanned(args, w) && !AllRead(w)))
  }

  /** The pipeline. Each outcome is tied to what the world showed. */
  method Run(args: Args, w: World) returns (o: Outcome)
    ensures o.Complete? || o.Unmatched? <==> Scanned(args, w) && AllRead(w)
    ensures o.Complete? || o.Unmatched? ==> IsReport(args, w, o.report)
    ensures o.Complete? <==> Scanned(args, w) && AllRead(w) && AllMatched(args, w)
    ensures o.Incomplete? <==> ScanIncomplete(args, w)
  {
    if !args.skipProbe && !w.probe.NoServerFound? { return Refused; }
    if w.indexes.Err? { return Refused; }
    var raw := w.indexes.value;
    var bad := CheckIndexes(args, raw);
    if bad.Some? { return bad.value; }
    if w.enumerated.Err? { return Refused; }
    hide IsBuckets, AllMatched;
    var indexes := AsIndexes(raw);
    var b := Classify(indexes, w.enumerated.value, Named(args));
    BucketMembers(indexes, w.enumerated.value, Named(args), b);
    var ok, blocks := Candidates(w.readable, b);
    if !ok { return Incomplete; }
    var bytes, unsized := DirSize.SumBlocks(DirsOf(w, blocks));
    var unmatched := FindUnmatched(args, b.matched);
    UnmatchedMeaning(args, w, b, unmatched);
    BucketsAreOfFiles(args, w, b);
    hide BucketsOfFiles;
    var r := Report(b, blocks, bytes, unsized, |indexes|, unmatched);
    o := if unmatched != [] then Unmatched(r) else Complete(r);
  }

  lemma BucketMembers(indexes: seq<Index>, manifests: seq<Hash>, named: set<Hash>, b: Buckets)
    requires IsBuckets(indexes, manifests, named, b)
    ensures forall m :: m in manifests <==> m in b.keep || m in b.unattributed || m in b.unprotected
  {
    forall m ensures m in manifests <==> m in b.keep || m in b.unattributed || m in b.unprotected {
      ProtectedMember(indexes, manifests, named, b, m);
    }
  }

  lemma UnmatchedMeaning(args: Args, w: World, b: Buckets, unmatched: seq<nat>)
    requires Scanned(args, w)
    requires IsBuckets(AsIndexes(w.indexes.value), w.enumerated.value, Named(args), b)
    requires forall i :: i in unmatched <==> 0 <= i < |args.keep| && args.digestOf(args.keep[i]) !in b.matched
    ensures unmatched == [] <==> AllMatched(args, w)
    ensures forall i :: i in unmatched <==> 0 <= i < |args.keep| && !IndexFor(args, w, i)
  {
    var indexes := AsIndexes(w.indexes.value);
    forall i | 0 <= i < |args.keep|
      ensures args.digestOf(args.keep[i]) in b.matched <==> IndexFor(args, w, i)
    {
      var d := args.digestOf(args.keep[i]);
      assert d in Named(args);
      if IndexFor(args, w, i) {
        var k :| 0 <= k < |w.indexes.value| && w.indexes.value[k].digest == Some(d);
        assert indexes[k] in indexes && indexes[k].digest == d;
      }
      if d in b.matched {
        var x :| x in indexes && x.digest == d;
        var k :| 0 <= k < |indexes| && indexes[k] == x;
        assert w.indexes.value[k].digest == Some(d);
      }
    }
    if unmatched != [] { assert unmatched[0] in unmatched; }
    if !AllMatched(args, w) {
      var i :| 0 <= i < |args.keep| && !IndexFor(args, w, i);
      assert i in unmatched;
    }
  }

  // ----------------------------------------------------------------- the emission

  /** What is printed: counts, object identities, the byte total, and the exit code. */
  datatype Emission = Emission(counts: bool, manifests: seq<Hash>, blocks: seq<Hash>,
                               bytes: Option<nat>, exit: nat)

  function Decide(o: Outcome): Emission {
    match o
    case Refused => Emission(false, [], [], None, 2)
    case Incomplete => Emission(false, [], [], None, 3)
    case Unmatched(r) => Emission(true, [], [], r.bytes, if r.bytes.None? then 3 else 1)
    case Complete(r) =>
      Emission(true, r.buckets.unprotected, r.candidates, r.bytes, if r.bytes.None? then 3 else 0)
  }

  /** A block that a manifest of sessions off the keep list lists, and no manifest of a
      session on it and no manifest without a session does. */
  ghost predicate Exclusive(args: Args, w: World, block: Hash)
    requires Scanned(args, w)
  {
    var raw, manifests, store := w.indexes.value, w.enumerated.value, w.readable;
    && (exists m :: m in manifests && HeldByOthersOnly(args, raw, m) && m in store && block in store[m])
    && (forall m :: (m in manifests && m in store && (HeldByNamed(args, raw, m) || Orphan(raw, m))) ==>
          block !in store[m])
  }

  ghost predicate ListsExclusive(args: Args, w: World, blocks: seq<Hash>)
    requires Scanned(args, w)
  {
    Sorted(blocks) && Distinct(blocks) && forall x :: x in blocks <==> Exclusive(args, w, x)
  }

  /** Every block has a directory on disk, clean throughout. */
  predicate AllPresent(w: World, blocks: seq<Hash>) {
    forall i :: 0 <= i < |blocks| ==>
      blocks[i] in w.dirs && w.dirs[blocks[i]].Dir? && DirSize.Clean(w.dirs[blocks[i]])
  }

  /** The exact bytes of those directories. */
  function BytesOnDisk(w: World, blocks: seq<Hash>): nat
    requires AllPresent(w, blocks)
  {
    if blocks == [] then 0
    else BytesOnDisk(w, blocks[..|blocks| - 1]) + DirSize.Bytes(w.dirs[blocks[|blocks| - 1]])
  }

  /** The exclusive blocks are all present and clean and their exact total fits. */
  ghost predicate Sized(args: Args, w: World)
    requires Scanned(args, w)
  {
    exists blocks :: && ListsExclusive(args, w, blocks) && AllPresent(w, blocks)
                     && BytesOnDisk(w, blocks) <= DirSize.U64_MAX
  }

  lemma {:induction false} DirsOnDisk(w: World, blocks: seq<Hash>)
    ensures DirSize.AllClean(DirsOf(w, blocks)) <==> AllPresent(w, blocks)
    ensures AllPresent(w, blocks) ==> DirSize.AllBytes(DirsOf(w, blocks)) == BytesOnDisk(w, blocks)
  {
    if blocks == [] {
    } else {
      var front, last := blocks[..|blocks| - 1], blocks[|blocks| - 1];
      DirsOnDisk(w, front);
      DirsSnoc(w, front, last);
      assert blocks == front + [last];
      assert forall i :: 0 <= i < |front| ==> front[i] == blocks[i];
    }
  }

  /** The candidates of a report are the exclusive blocks, and its total is known exactly
      when they are sized; it is then what they hold on disk. */
  lemma ReportSizes(args: Args, w: World, r: Report)
    requires Scanned(args, w) && IsReport(args, w, r)
    ensures ListsExclusive(args, w, r.candidates)
    ensures r.bytes.Some? <==> Sized(args, w)
    ensures r.bytes.Some? ==> AllPresent(w, r.candidates) && r.bytes.value == BytesOnDisk(w, r.candidates)
  {
    assert forall x :: Candidate(w.readable, r.buckets, x) <==> Exclusive(args, w, x);
    hide Exclusive, AllPresent, BytesOnDisk, Candidate;
    DirsOnDisk(w, r.candidates);
    forall blocks | ListsExclusive(args, w, blocks) ensures blocks == r.candidates {
      SortedSetUnique(blocks, r.candidates);
    }
  }

  /** The whole program. Each exit code says exactly what the world showed: 0, the scan was
      trustworthy, every manifest was read, every named session matched an index and the
      exclusive blocks were sized exactly; 1, the same with a named session unmatched; 3,
      something vanished, could not be read or could not be sized; 2, anything else.
      A complete scan prints the byte total of its report, and the identities exactly when
      every named session matched; any other run prints nothing. */
  method Program(args: Args, w: World) returns (e: Emission)
    ensures e.exit == 0 <==> Scanned(args, w) && AllRead(w) && AllMatched(args, w) && Sized(args, w)
    ensures e.exit == 1 <==> Scanned(args, w) && AllRead(w) && !AllMatched(args, w) && Sized(args, w)
    ensures e.exit == 2 <==> !ScanIncomplete(args, w) && !(Scanned(args, w) && AllRead(w))
    ensures e.exit == 3 <==> ScanIncomplete(args, w) || (Scanned(args, w) && AllRead(w) && !Sized(args, w))
    ensures Scanned(args, w) && AllRead(w) ==> exists r :: IsReport(args, w, r) && Shows(e, r, AllMatched(args, w))
    ensures !(Scanned(args, w) && AllRead(w)) ==> e == Emission(false, [], [], None, e.exit)
  {
    hide Sized, IsReport, AllMatched, ScanIncomplete;
    var o := Run(args, w);
    e := Decide(o);
    if o.Complete? || o.Unmatched? { ReportSizes(args, w, o.report); }
  }

  predicate Shows(e: Emission, r: Report, identities: bool) {
    && e.counts && e.bytes == r.bytes
    && e.manifests == (if identities then r.buckets.unprotected else [])
    && e.blocks == (if identities then r.candidates else [])
  }

  /** Same world, enumerated in another order, with every directory at every depth listed in
      another order. */
  ghost predicate SameWorld(w: World, w': World) {
    && w.indexes.Ok? && w'.indexes.Ok? && multiset(w.indexes.value) == multiset(w'.indexes.value)
    && w.enumerated.Ok? && w'.enumerated.Ok?
    && multiset(w.enumerated.value) == multiset(w'.enumerated.value)
    && w.readable == w'.readable && w.dirs.Keys == w'.dirs.Keys
    && forall x :: x in w.dirs ==> DirSize.SameTree(w.dirs[x], w'.dirs[x])
  }

  /** The whole report depends neither on enumeration order nor on traversal order. */
  lemma ReportIgnoresOrder(args: Args, w: World, r: Report, w': World, r': Report)
    requires Scanned(args, w) && Scanned(args, w') && SameWorld(w, w')
    requires IsReport(args, w, r) && IsReport(args, w', r')
    ensures r == r'
  {
    hide SameWorld;
    SameCandidates(args, w, r, w', r');
    SameSizes(w, w', r.candidates);
    SameUnmatched(args, w, r, w', r');
  }

  lemma SameCandidates(args: Args, w: World, r: Report, w': World, r': Report)
    requires Scanned(args, w) && Scanned(args, w') && SameWorld(w, w')
    requires IsReport(args, w, r) && IsReport(args, w', r')
    ensures r.buckets == r'.buckets && r.candidates == r'.candidates && r.sessions == r'.sessions
  {
    var s, s' := w.indexes.value, w'.indexes.value;
    assert |s| == |multiset(s)| == |multiset(s')| == |s'|;
    SameIndexes(s, s');
    SameIndexes(s', s);
    BucketsIgnoreOrder(AsIndexes(s), w.enumerated.value, r.buckets,
                       AsIndexes(s'), w'.enumerated.value, r'.buckets, Named(args));
    SortedSetUnique(r.candidates, r'.candidates);
  }

  lemma SameUnmatched(args: Args, w: World, r: Report, w': World, r': Report)
    requires Scanned(args, w) && Scanned(args, w') && SameWorld(w, w')
    requires IsReport(args, w, r) && IsReport(args, w', r')
    ensures r.unmatched == r'.unmatched
  {
    forall i: nat | i < |args.keep| ensures IndexFor(args, w, i) <==> IndexFor(args, w', i) {
      if IndexFor(args, w, i) { IndexMoves(args, w, w', i); }
      if IndexFor(args, w', i) { IndexMoves(args, w', w, i); }
    }
    SortedSetUnique(r.unmatched, r'.unmatched);
  }

  lemma IndexMoves(args: Args, w: World, w': World, i: nat)
    requires w.indexes.Ok? && w'.indexes.Ok? && multiset(w.indexes.value) == multiset(w'.indexes.value)
    requires i < |args.keep| && IndexFor(args, w, i)
    ensures IndexFor(args, w', i)
  {
    var s, s' := w.indexes.value, w'.indexes.value;
    var k :| 0 <= k < |s| && s[k].digest == Some(args.digestOf(args.keep[i]));
    assert s[k] in multiset(s');
    var l :| 0 <= l < |s'| && s'[l] == s[k];
  }

  /** Traversal order changes neither the total nor the count of unmeasured directories. */
  lemma {:induction false} SameSizes(w: World, w': World, blocks: seq<Hash>)
    requires SameWorld(w, w')
    ensures var ds, ds' := DirsOf(w, blocks), DirsOf(w', blocks);
            && (DirSize.AllClean(ds) <==> DirSize.AllClean(ds'))
            && DirSize.AllBytes(ds) == DirSize.AllBytes(ds')
            && DirSize.Unmeasured(ds) == DirSize.Unmeasured(ds')
  {
    if blocks == [] {
    } else {
      var front, last := blocks[..|blocks| - 1], blocks[|blocks| - 1];
      SameSizes(w, w', front);
      SameDir(w, w', last);
      hide SameWorld, DirOf;
      DirsSnoc(w, front, last);
      DirsSnoc(w', front, last);
      assert blocks == front + [last];
    }
  }

  lemma SameDir(w: World, w': World, block: Hash)
    requires SameWorld(w, w')
    ensures (DirSize.Clean(DirOf(w, block)) <==> DirSize.Clean(DirOf(w', block)))
    ensures DirSize.Bytes(DirOf(w, block)) == DirSize.Bytes(DirOf(w', block))
  {
    if block in w.dirs { DirSize.TraversalOrder(w.dirs[block], w'.dirs[block]); }
  }

  lemma DirsSnoc(w: World, front: seq<Hash>, last: Hash)
    ensures var ds, d := DirsOf(w, front + [last]), DirOf(w, last);
            && (DirSize.AllClean(ds) <==> DirSize.AllClean(DirsOf(w, front)) && DirSize.Clean(d))
            && DirSize.AllBytes(ds) == DirSize.AllBytes(DirsOf(w, front)) + DirSize.Bytes(d)
            && DirSize.Unmeasured(ds)
               == DirSize.Unmeasured(DirsOf(w, front)) + if DirSize.Measured(d).None? then 1 else 0
  {
    hide DirOf, DirSize.Clean, DirSize.Bytes;
    var ds := DirsOf(w, front);
    assert DirsOf(w, front + [last]) == ds + [DirOf(w, last)];
    assert (ds + [DirOf(w, last)])[..|ds|] == ds;
    DirSize.Snoc(ds, DirOf(w, last));
  }

  lemma SameIndexes(s: seq<RawIndex>, s': seq<RawIndex>)
    requires multiset(s) == multiset(s')
    requires (forall i :: 0 <= i < |s| ==> s[i].digest.Some?)
    requires (forall i :: 0 <= i < |s'| ==> s'[i].digest.Some?)
    ensures forall x :: x in AsIndexes(s) ==> x in AsIndexes(s')
  {
    forall x | x in AsIndexes(s) ensures x in AsIndexes(s') {
      var k :| 0 <= k < |s| && AsIndexes(s)[k] == x;
      assert s[k] in multiset(s');
      var l :| 0 <= l < |s'| && s'[l] == s[k];
      assert AsIndexes(s')[l] == x;
    }
  }

  // ------------------------------------------------------------ naming more sessions

  /** Over the same world, naming more sessions keeps what was kept, leaves the unattributed
      bucket alone, shrinks the other lists, and never makes a known byte total unknown or
      larger. */
  lemma GrowingReport(args: Args, args': Args, w: World, r: Report, r': Report)
    requires Named(args) <= Named(args') && Scanned(args, w) && Scanned(args', w)
    requires IsReport(args, w, r) && IsReport(args', w, r')
    ensures multiset(r.buckets.keep) <= multiset(r'.buckets.keep)
    ensures multiset(r'.buckets.unprotected) <= multiset(r.buckets.unprotected)
    ensures r'.buckets.unattributed == r.buckets.unattributed
    ensures (forall x :: x in r'.candidates ==> x in r.candidates) && |r'.candidates| <= |r.candidates|
    ensures r.bytes.Some? ==> r'.bytes.Some? && r'.bytes.value <= r.bytes.value
  {
    var indexes, manifests := AsIndexes(w.indexes.value), w.enumerated.value;
    GrowingKeepList(indexes, manifests, Named(args), r.buckets, Named(args'), r'.buckets);
    forall x | x in r'.candidates ensures x in r.candidates {
      CandidatesShrink(indexes, manifests, w.readable, Named(args), r.buckets, Named(args'), r'.buckets, x);
    }
    hide IsBuckets, IsCandidates, AllMatched, IndexFor;
    assert Distinct(r'.candidates) by { CandidatesDistinct(w.readable, r'.buckets, r'.candidates); }
    FewerBlocks(w, r'.candidates, r.candidates);
  }

  lemma CandidatesDistinct(store: Manifests, b: Buckets, blocks: seq<Hash>)
    requires IsCandidates(store, b, blocks)
    ensures Distinct(blocks)
  {
  }

  /** Distinct blocks out of a list are no more, no dirtier and no larger than the list. */
  lemma {:induction false} FewerBlocks(w: World, few: seq<Hash>, many: seq<Hash>)
    requires Distinct(few) && forall x :: x in few ==> x in many
    ensures |few| <= |many|
    ensures DirSize.AllClean(DirsOf(w, many)) ==> DirSize.AllClean(DirsOf(w, few))
    ensures DirSize.AllBytes(DirsOf(w, few)) <= DirSize.AllBytes(DirsOf(w, many))
  {
    hide DirOf, DirSize.Clean, DirSize.Bytes;
    if few == [] {
    } else {
      var front, last := few[..|few| - 1], few[|few| - 1];
      assert few == front + [last] && last in few && last in many;
      var k :| 0 <= k < |many| && many[k] == last;
      var rest := many[..k] + many[k + 1..];
      forall x | x in front ensures x in rest { StillListed(few, many, k, x); }
      FewerBlocks(w, front, rest);
      DirsSnoc(w, front, last);
      DirsWithout(w, many, k, rest);
    }
  }

  lemma StillListed(few: seq<Hash>, many: seq<Hash>, k: nat, x: Hash)
    requires few != [] && Distinct(few) && k < |many| && many[k] == few[|few| - 1]
    requires x in few[..|few| - 1] && x in many
    ensures x in many[..k] + many[k + 1..]
  {
    var j :| 0 <= j < |many| && many[j] == x;
    var rest := many[..k] + many[k + 1..];
    assert j < k ==> rest[j] == x;
    assert j > k ==> rest[j - 1] == x;
  }

  lemma DirsWithout(w: World, many: seq<Hash>, k: nat, rest: seq<Hash>)
    requires k < |many| && rest == many[..k] + many[k + 1..]
    ensures var ds, d := DirsOf(w, many), DirOf(w, many[k]);
            && (DirSize.AllClean(ds) <==> DirSize.Clean(d) && DirSize.AllClean(DirsOf(w, rest)))
            && DirSize.AllBytes(ds) == DirSize.Bytes(d) + DirSize.AllBytes(DirsOf(w, rest))
  {
    hide DirOf, DirSize.Clean, DirSize.Bytes, DirSize.AllClean, DirSize.AllBytes;
    DirSize.RemoveAt(DirsOf(w, many), k);
    assert DirSize.Without(DirsOf(w, many), k) == DirsOf(w, rest);
  }

  /** What a report lists may be deleted: a manifest that an index file of a session on the
      keep list lists, or that no index file lists, is not among the listed manifests and
      has none of its blocks among the listed blocks; and no larger set of blocks, each
      reached from a manifest of other sessions only, leaves those manifests whole. */
  lemma ReportIsSafe(args: Args, w: World, r: Report)
    requires Scanned(args, w) && AllRead(w) && IsReport(args, w, r)
    ensures forall m :: Protected(args, w, m) ==> m !in r.buckets.unprotected && Spares(w, m, Listed(r))
    ensures forall gone: set<Hash> ::
              && (forall x :: x in gone ==> Reaches(w.readable, r.buckets.unprotected, x))
              && (forall m :: Protected(args, w, m) ==> Spares(w, m, gone))
              ==> gone <= Listed(r)
  {
    forall m | Protected(args, w, m) ensures Spares(w, m, Listed(r)) {
      assert m in r.buckets.keep || m in r.buckets.unattributed;
    }
    forall gone: set<Hash>
      | && (forall x :: x in gone ==> Reaches(w.readable, r.buckets.unprotected, x))
        && (forall m :: Protected(args, w, m) ==> Spares(w, m, gone))
      ensures gone <= Listed(r)
    {
      forall x | x in gone ensures Candidate(w.readable, r.buckets, x) {
        assert forall m :: m in r.buckets.keep || m in r.buckets.unattributed ==> Protected(args, w, m);
      }
    }
  }

  /** An enumerated manifest that must survive. */
  predicate Protected(args: Args, w: World, m: Hash)
    requires w.indexes.Ok? && w.enumerated.Ok?
  {
    m in w.enumerated.value && (HeldByNamed(args, w.indexes.value, m) || Orphan(w.indexes.value, m))
  }

  /** Deleting `gone` takes no block from `m`. */
  predicate Spares(w: World, m: Hash, gone: set<Hash>) {
    m in w.readable && forall x :: x in w.readable[m] ==> x !in gone
  }

  function Listed(r: Report): set<Hash> {
    set x | x in r.candidates
  }
}
