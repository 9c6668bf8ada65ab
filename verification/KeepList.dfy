/** Classification of manifests against a keep list, the blocks nothing protected reaches,
    and what deleting them would leave. Hashes are natural numbers: thirty-two bytes
    compare as one big-endian number. */
module KeepList {
  import opened Wrappers

  type Hash = nat

  /** One session index: the digest of its key, and the manifests it refers to. */
  datatype Index = Index(digest: Hash, manifests: seq<Hash>)

  datatype Buckets = Buckets(keep: seq<Hash>, unprotected: seq<Hash>, unattributed: seq<Hash>,
                             matched: set<Hash>)

  // -------------------------------------------------------------- the three classes

  /** Some session whose digest is named refers to `m`. */
  ghost predicate ByNamed(indexes: seq<Index>, named: set<Hash>, m: Hash) {
    exists x :: x in indexes && x.digest in named && m in x.manifests
  }

  ghost predicate ByUnnamed(indexes: seq<Index>, named: set<Hash>, m: Hash) {
    exists x :: x in indexes && x.digest !in named && m in x.manifests
  }

  ghost predicate Unprotected(indexes: seq<Index>, named: set<Hash>, m: Hash) {
    !ByNamed(indexes, named, m) && ByUnnamed(indexes, named, m)
  }

  ghost predicate Unattributed(indexes: seq<Index>, m: Hash) {
    forall x :: x in indexes ==> m !in x.manifests
  }

  predicate Sorted(s: seq<Hash>) {
    forall i, j :: 0 <= i < j < |s| ==> s[i] <= s[j]
  }

  /** The buckets of an invocation: sorted, a partition of the enumerated manifests with
      multiplicity, each holding exactly its class. */
  ghost predicate IsBuckets(indexes: seq<Index>, manifests: seq<Hash>, named: set<Hash>, b: Buckets) {
    && Sorted(b.keep) && Sorted(b.unprotected) && Sorted(b.unattributed)
    && multiset(b.keep) + multiset(b.unprotected) + multiset(b.unattributed) == multiset(manifests)
    && (forall m :: m in b.keep ==> ByNamed(indexes, named, m))
    && (forall m :: m in b.unprotected ==> Unprotected(indexes, named, m))
    && (forall m :: m in b.unattributed ==> Unattributed(indexes, m))
    && (forall d :: d in b.matched <==> d in named && exists x :: x in indexes && x.digest == d)
  }

  // ------------------------------------------------------------------- classify

  /** Insertion into a sorted list. */
  function Insert(s: seq<Hash>, h: Hash): (r: seq<Hash>)
    ensures multiset(r) == multiset(s) + multiset{h}
  {
    if s == [] then [h]
    else if h <= s[0] then
      assert multiset([h] + s) == multiset{h} + multiset(s);
      [h] + s
    else
      MultisetTail(s);
      [s[0]] + Insert(s[1..], h)
  }

  lemma MultisetTail(s: seq<Hash>)
    requires s != []
    ensures multiset(s) == multiset{s[0]} + multiset(s[1..])
  {
    assert s == [s[0]] + s[1..];
  }

  lemma SortedCons(h: Hash, s: seq<Hash>)
    requires Sorted(s) && forall x :: x in s ==> h <= x
    ensures Sorted([h] + s)
  {
    var r := [h] + s;
    forall i, j | 0 <= i < j < |r| ensures r[i] <= r[j] {
      assert r[j] == s[j - 1] && s[j - 1] in s;
      if i > 0 { assert r[i] == s[i - 1]; }
    }
  }

  lemma SortedHead(s: seq<Hash>)
    requires Sorted(s) && s != []
    ensures Sorted(s[1..]) && forall x :: x in s ==> s[0] <= x
  {
  }

  lemma {:induction false} InsertSorted(s: seq<Hash>, h: Hash)
    requires Sorted(s)
    ensures Sorted(Insert(s, h))
  {
    if s == [] {
    } else {
      SortedHead(s);
      if h <= s[0] {
        SortedCons(h, s);
      } else {
        InsertSorted(s[1..], h);
        var r := Insert(s[1..], h);
        forall x | x in r ensures s[0] <= x {
          assert x in multiset(r);
        }
        SortedCons(s[0], r);
      }
    }
  }

  method Sort(s: seq<Hash>) returns (r: seq<Hash>)
    ensures Sorted(r) && multiset(r) == multiset(s)
  {
    r := [];
    for i := 0 to |s|
      invariant Sorted(r) && multiset(r) == multiset(s[..i])
    {
      assert s[..i + 1] == s[..i] + [s[i]];
      InsertSorted(r, s[i]);
      r := Insert(r, s[i]);
    }
    assert s[..|s|] == s;
  }

  /** The two reference sets and the matched digests. */
  method Collect(indexes: seq<Index>, named: set<Hash>)
    returns (byKept: set<Hash>, byUnkept: set<Hash>, matched: set<Hash>)
    ensures forall m :: m in byKept <==> ByNamed(indexes, named, m)
    ensures forall m :: m in byUnkept <==> ByUnnamed(indexes, named, m)
    ensures forall d :: d in matched <==> d in named && exists x :: x in indexes && x.digest == d
  {
    byKept, byUnkept, matched := {}, {}, {};
    for i := 0 to |indexes|
      invariant forall m :: m in byKept <==> ByNamed(indexes[..i], named, m)
      invariant forall m :: m in byUnkept <==> ByUnnamed(indexes[..i], named, m)
      invariant forall d :: d in matched <==> d in named && exists x :: x in indexes[..i] && x.digest == d
    {
      var x := indexes[i];
      var kept := x.digest in named;
      if kept { matched := matched + {x.digest}; }
      var refs := Elements(x.manifests);
      if kept { byKept := byKept + refs; } else { byUnkept := byUnkept + refs; }
      SnocMembers(indexes, i);
    }
    assert indexes[..|indexes|] == indexes;
  }

  lemma SnocMembers(indexes: seq<Index>, i: nat)
    requires i < |indexes|
    ensures forall x :: x in indexes[..i + 1] <==> x in indexes[..i] || x == indexes[i]
  {
    assert indexes[..i + 1] == indexes[..i] + [indexes[i]];
  }

  /** The loop that inserts each element into a set. */
  method Elements(s: seq<Hash>) returns (r: set<Hash>)
    ensures forall m :: m in r <==> m in s
  {
    r := {};
    for i := 0 to |s|
      invariant forall m :: m in r <==> m in s[..i]
    {
      assert s[..i + 1] == s[..i] + [s[i]];
      r := r + {s[i]};
    }
    assert s[..|s|] == s;
  }

  /** Kept wins over unkept, so a manifest shared with a named session stays protected. */
  method Classify(indexes: seq<Index>, manifests: seq<Hash>, named: set<Hash>) returns (b: Buckets)
    ensures IsBuckets(indexes, manifests, named, b)
  {
    var byKept, byUnkept, matched := Collect(indexes, named);
    var keep, unprotected, unattributed := [], [], [];
    for i := 0 to |manifests|
      invariant multiset(keep) + multiset(unprotected) + multiset(unattributed) == multiset(manifests[..i])
      invariant forall m :: m in keep ==> m in byKept
      invariant forall m :: m in unprotected ==> m !in byKept && m in byUnkept
      invariant forall m :: m in unattributed ==> m !in byKept && m !in byUnkept
    {
      var h := manifests[i];
      assert manifests[..i + 1] == manifests[..i] + [h];
      if h in byKept {
        keep := keep + [h];
      } else if h in byUnkept {
        unprotected := unprotected + [h];
      } else {
        unattributed := unattributed + [h];
      }
    }
    assert manifests[..|manifests|] == manifests;
    var k := Sort(keep);
    var u := Sort(unprotected);
    var a := Sort(unattributed);
    SameMembers(k, keep);
    SameMembers(u, unprotected);
    SameMembers(a, unattributed);
    b := Buckets(k, u, a, matched);
  }

  lemma SameMembers(s: seq<Hash>, t: seq<Hash>)
    requires multiset(s) == multiset(t)
    ensures forall m :: m in s <==> m in t
  {
    assert forall m :: m in s <==> m in multiset(s);
    assert forall m :: m in t <==> m in multiset(t);
  }

  // --------------------------------------------------------- determined by the input

  /** A sorted list is determined by its multiset. */
  lemma {:induction false} SortedUnique(s: seq<Hash>, t: seq<Hash>)
    requires Sorted(s) && Sorted(t) && multiset(s) == multiset(t)
    ensures s == t
  {
    assert |s| == |multiset(s)| == |multiset(t)| == |t|;
    if s == [] {
    } else {
      SameHead(s, t);
      MultisetTail(s);
      MultisetTail(t);
      SortedHead(s);
      SortedHead(t);
      CancelHead(s[0], multiset(s[1..]), multiset(t[1..]));
      SortedUnique(s[1..], t[1..]);
      assert s == [s[0]] + s[1..] && t == [t[0]] + t[1..];
    }
  }

  lemma SameHead(s: seq<Hash>, t: seq<Hash>)
    requires Sorted(s) && Sorted(t) && multiset(s) == multiset(t) && s != [] && t != []
    ensures s[0] == t[0]
  {
    SameMembers(s, t);
    SortedHead(s);
    SortedHead(t);
    assert s[0] in s && t[0] in t;
  }

  lemma CancelHead(h: Hash, a: multiset<Hash>, b: multiset<Hash>)
    requires multiset{h} + a == multiset{h} + b
    ensures a == b
  {
    assert a == (multiset{h} + a) - multiset{h};
    assert b == (multiset{h} + b) - multiset{h};
  }

  /** How often `m` occurs in the bucket of its class. */
  lemma BucketCounts(indexes: seq<Index>, manifests: seq<Hash>, named: set<Hash>, b: Buckets, m: Hash)
    requires IsBuckets(indexes, manifests, named, b)
    ensures multiset(b.keep)[m] == if ByNamed(indexes, named, m) then multiset(manifests)[m] else 0
    ensures multiset(b.unprotected)[m]
         == if Unprotected(indexes, named, m) then multiset(manifests)[m] else 0
    ensures multiset(b.unattributed)[m]
         == if Unattributed(indexes, m) then multiset(manifests)[m] else 0
  {
    var k, u, a := multiset(b.keep), multiset(b.unprotected), multiset(b.unattributed);
    assert (k + u + a)[m] == k[m] + u[m] + a[m];
    assert m in k <==> m in b.keep;
    assert m in u <==> m in b.unprotected;
    assert m in a <==> m in b.unattributed;
  }

  /** The buckets do not depend on the order in which indexes or manifests were enumerated. */
  lemma BucketsIgnoreOrder(indexes: seq<Index>, manifests: seq<Hash>, b: Buckets,
                           indexes': seq<Index>, manifests': seq<Hash>, b': Buckets, named: set<Hash>)
    requires IsBuckets(indexes, manifests, named, b) && IsBuckets(indexes', manifests', named, b')
    requires (forall x :: x in indexes <==> x in indexes') && multiset(manifests) == multiset(manifests')
    ensures b == b'
  {
    forall m: Hash
      ensures multiset(b.keep)[m] == multiset(b'.keep)[m]
      ensures multiset(b.unprotected)[m] == multiset(b'.unprotected)[m]
      ensures multiset(b.unattributed)[m] == multiset(b'.unattributed)[m]
    {
      BucketCounts(indexes, manifests, named, b, m);
      BucketCounts(indexes', manifests', named, b', m);
    }
    SortedUnique(b.keep, b'.keep);
    SortedUnique(b.unprotected, b'.unprotected);
    SortedUnique(b.unattributed, b'.unattributed);
    assert b.matched == b'.matched;
  }

  /** Naming more sessions keeps what was kept, never adds an unprotected manifest, and
      leaves the unattributed ones as they were. */
  lemma GrowingKeepList(indexes: seq<Index>, manifests: seq<Hash>,
                        named: set<Hash>, b: Buckets, named': set<Hash>, b': Buckets)
    requires named <= named'
    requires IsBuckets(indexes, manifests, named, b) && IsBuckets(indexes, manifests, named', b')
    ensures multiset(b.keep) <= multiset(b'.keep)
    ensures multiset(b'.unprotected) <= multiset(b.unprotected)
    ensures b.unattributed == b'.unattributed
    ensures b.matched <= b'.matched
  {
    forall m: Hash
      ensures multiset(b.keep)[m] <= multiset(b'.keep)[m]
      ensures multiset(b'.unprotected)[m] <= multiset(b.unprotected)[m]
      ensures multiset(b.unattributed)[m] == multiset(b'.unattributed)[m]
    {
      BucketCounts(indexes, manifests, named, b, m);
      BucketCounts(indexes, manifests, named', b', m);
      assert Unprotected(indexes, named', m) ==> Unprotected(indexes, named, m);
    }
    SortedUnique(b.unattributed, b'.unattributed);
  }

  /** Two sorted lists without repetition and with the same members are equal. */
  lemma {:induction false} SortedSetUnique(s: seq<Hash>, t: seq<Hash>)
    requires Sorted(s) && Sorted(t) && Distinct(s) && Distinct(t)
    requires forall x :: x in s <==> x in t
    ensures s == t
  {
    forall x: Hash ensures multiset(s)[x] == multiset(t)[x] {
      OccursOnce(s, x);
      OccursOnce(t, x);
      assert x in multiset(s) <==> x in s;
      assert x in multiset(t) <==> x in t;
    }
    SortedUnique(s, t);
  }

  lemma {:induction false} OccursOnce(s: seq<Hash>, x: Hash)
    requires Distinct(s)
    ensures multiset(s)[x] <= 1
  {
    if s == [] {
    } else {
      MultisetTail(s);
      OccursOnce(s[1..], x);
      if s[0] == x {
        assert x !in s[1..];
        assert x !in multiset(s[1..]);
      }
    }
  }

  // ----------------------------------------------------------------- reachability

  /** Readable manifests and the blocks they list. */
  type Manifests = map<Hash, seq<Hash>>

  /** The blocks the readable manifests of `s` list. */
  ghost predicate Reaches(store: Manifests, s: seq<Hash>, block: Hash) {
    exists m :: m in s && m in store && block in store[m]
  }

  /** How many manifests of `s` cannot be read. */
  function Unreadable(store: Manifests, s: seq<Hash>): nat {
    if s == [] then 0
    else Unreadable(store, s[..|s| - 1]) + if s[|s| - 1] in store then 0 else 1
  }

  lemma {:induction false} NoneUnreadable(store: Manifests, s: seq<Hash>)
    ensures Unreadable(store, s) == 0 <==> forall m :: m in s ==> m in store
  {
    if s == [] {
    } else {
      var front := s[..|s| - 1];
      NoneUnreadable(store, front);
      assert s == front + [s[|s| - 1]];
    }
  }

  /** Adds the blocks of each manifest; counts the unreadable ones. */
  method Gather(store: Manifests, s: seq<Hash>, into: set<Hash>, failures: nat)
    returns (r: set<Hash>, unreadable: nat)
    ensures forall x :: x in r <==> x in into || Reaches(store, s, x)
    ensures unreadable == failures + Unreadable(store, s)
  {
    r, unreadable := into, failures;
    for i := 0 to |s|
      invariant forall x :: x in r <==> x in into || Reaches(store, s[..i], x)
      invariant unreadable == failures + Unreadable(store, s[..i])
    {
      var h := s[i];
      assert s[..i + 1] == s[..i] + [h];
      assert s[..i + 1][..i] == s[..i];
      if h in store {
        var blocks := Elements(store[h]);
        ReachesSnoc(store, s[..i], h);
        r := r + blocks;
      } else {
        ReachesSnoc(store, s[..i], h);
        unreadable := unreadable + 1;
      }
    }
    assert s[..|s|] == s;
  }

  lemma ReachesSnoc(store: Manifests, s: seq<Hash>, h: Hash)
    ensures forall x :: Reaches(store, s + [h], x)
                   <==> Reaches(store, s, x) || (h in store && x in store[h])
  {
    forall x
      ensures Reaches(store, s + [h], x) <==> Reaches(store, s, x) || (h in store && x in store[h])
    {
      if Reaches(store, s, x) {
        var m :| m in s && m in store && x in store[m];
        assert m in s + [h];
      }
      if h in store && x in store[h] {
        assert h in s + [h];
      }
    }
  }

  /** A block is a candidate when only unprotected manifests reach it. */
  ghost predicate Candidate(store: Manifests, b: Buckets, block: Hash) {
    && Reaches(store, b.unprotected, block)
    && !Reaches(store, b.keep, block) && !Reaches(store, b.unattributed, block)
  }

  ghost predicate IsCandidates(store: Manifests, b: Buckets, blocks: seq<Hash>) {
    && Sorted(blocks) && Distinct(blocks)
    && forall x :: x in blocks <==> Candidate(store, b, x)
  }

  // ------------------------------------------------------------------- deletion

  /** What a manifest needs: all its blocks present. */
  ghost predicate Intact(store: Manifests, blocks: set<Hash>, m: Hash) {
    m in store && forall x :: x in store[m] ==> x in blocks
  }

  /** Removing every manifest of `b.unprotected` and every block of `gone`. */
  function DeleteManifests(store: Manifests, b: Buckets): Manifests {
    map m | m in store && m !in b.unprotected :: store[m]
  }

  /** A set of unprotected blocks whose deletion leaves every enumerated manifest outside
      the unprotected bucket with the blocks it had. */
  ghost predicate Harmless(indexes: seq<Index>, manifests: seq<Hash>, named: set<Hash>,
                           store: Manifests, b: Buckets, gone: set<Hash>) {
    forall blocks: set<Hash>, m: Hash ::
      && m in manifests && (ByNamed(indexes, named, m) || Unattributed(indexes, m))
      && Intact(store, blocks, m) ==>
      Intact(DeleteManifests(store, b), blocks - gone, m)
  }

  /** Deleting what the report lists leaves every manifest a named session refers to, and
      every manifest no session refers to, with all its blocks; and no larger set of
      blocks reached from unprotected manifests could be deleted without losing one. */
  lemma DeletionIsSafeAndMaximal(indexes: seq<Index>, manifests: seq<Hash>, named: set<Hash>,
                                 store: Manifests, b: Buckets, candidates: set<Hash>)
    requires IsBuckets(indexes, manifests, named, b)
    requires forall m :: m in manifests ==> m in store
    requires forall x :: x in candidates <==> Candidate(store, b, x)
    ensures Harmless(indexes, manifests, named, store, b, candidates)
    ensures forall gone: set<Hash> ::
              && (forall x :: x in gone ==> Reaches(store, b.unprotected, x))
              && Harmless(indexes, manifests, named, store, b, gone)
              ==> gone <= candidates
  {
    forall blocks: set<Hash>, m: Hash
      | && m in manifests && (ByNamed(indexes, named, m) || Unattributed(indexes, m))
        && Intact(store, blocks, m)
      ensures Intact(DeleteManifests(store, b), blocks - candidates, m)
    {
      ProtectedMember(indexes, manifests, named, b, m);
      forall x | x in store[m] ensures x !in candidates {
        if m in b.keep { assert Reaches(store, b.keep, x); }
        else { assert Reaches(store, b.unattributed, x); }
      }
    }
    forall gone: set<Hash>
      | (forall x :: x in gone ==> Reaches(store, b.unprotected, x))
        && Harmless(indexes, manifests, named, store, b, gone)
      ensures gone <= candidates
    {
      forall x | x in gone ensures x in candidates {
        HarmlessMissesProtected(indexes, manifests, named, store, b, gone, x);
      }
    }
  }

  /** A manifest of a protected class sits in a protected bucket and nowhere else. */
  lemma ProtectedMember(indexes: seq<Index>, manifests: seq<Hash>, named: set<Hash>, b: Buckets, m: Hash)
    requires IsBuckets(indexes, manifests, named, b)
    ensures m in manifests && ByNamed(indexes, named, m) <==> m in b.keep
    ensures m in manifests && Unattributed(indexes, m) <==> m in b.unattributed
    ensures m in manifests && Unprotected(indexes, named, m) <==> m in b.unprotected
  {
    BucketCounts(indexes, manifests, named, b, m);
    assert m in multiset(manifests) <==> m in manifests;
    assert m in multiset(b.keep) <==> m in b.keep;
    assert m in multiset(b.unprotected) <==> m in b.unprotected;
    assert m in multiset(b.unattributed) <==> m in b.unattributed;
  }

  lemma HarmlessMissesProtected(indexes: seq<Index>, manifests: seq<Hash>, named: set<Hash>,
                                store: Manifests, b: Buckets, gone: set<Hash>, x: Hash)
    requires IsBuckets(indexes, manifests, named, b) && x in gone
    requires Harmless(indexes, manifests, named, store, b, gone)
    ensures !Reaches(store, b.keep, x) && !Reaches(store, b.unattributed, x)
  {
    forall m | (m in b.keep || m in b.unattributed) && m in store ensures x !in store[m] {
      ProtectedMember(indexes, manifests, named, b, m);
      var blocks := set y | y in store[m];
      assert Intact(store, blocks, m);
      assert Intact(DeleteManifests(store, b), blocks - gone, m);
    }
  }

  /** Naming more sessions never adds a candidate block. */
  lemma CandidatesShrink(indexes: seq<Index>, manifests: seq<Hash>, store: Manifests,
                         named: set<Hash>, b: Buckets, named': set<Hash>, b': Buckets, x: Hash)
    requires named <= named'
    requires IsBuckets(indexes, manifests, named, b) && IsBuckets(indexes, manifests, named', b')
    requires Candidate(store, b', x)
    ensures Candidate(store, b, x)
  {
    var m :| m in b'.unprotected && m in store && x in store[m];
    ProtectedMember(indexes, manifests, named', b', m);
    ProtectedMember(indexes, manifests, named, b, m);
    assert m in b.unprotected;
    forall k | k in b.keep && k in store ensures x !in store[k] {
      ProtectedMember(indexes, manifests, named, b, k);
      ProtectedMember(indexes, manifests, named', b', k);
    }
    GrowingKeepList(indexes, manifests, named, b, named', b');
  }
}
