/** The byte total of a block directory: a stack walk with checked addition. */
module DirSize {
  import opened Wrappers

  const U64_MAX: nat := 0xFFFF_FFFF_FFFF_FFFF

  /** A directory entry as the walk meets it. A size is absent when the metadata cannot be
      read. */
  datatype Node =
    | File(size: Option<nat>)
    | Dir(entries: seq<Node>)
    | UnreadableDir
    | Symlink
    | Special
    | BadEntry

  predicate IsDir(n: Node) {
    n.Dir? || n.UnreadableDir?
  }

  // ------------------------------------------------------- the recursive meaning

  /** Everything below is readable and is a regular file or a directory. */
  predicate Clean(n: Node) {
    match n
    case File(size) => size.Some?
    case Dir(entries) => AllClean(entries)
    case _ => false
  }

  predicate AllClean(ns: seq<Node>) {
    ns == [] || (Clean(ns[0]) && AllClean(ns[1..]))
  }

  /** Exact size, without any bound. */
  function Bytes(n: Node): nat {
    match n
    case File(size) => if size.Some? then size.value else 0
    case Dir(entries) => AllBytes(entries)
    case _ => 0
  }

  function AllBytes(ns: seq<Node>): nat {
    if ns == [] then 0 else Bytes(ns[0]) + AllBytes(ns[1..])
  }

  /** Number of entries, which bounds the walk. */
  function Count(n: Node): nat {
    match n
    case Dir(entries) => 1 + AllCount(entries)
    case _ => 1
  }

  function AllCount(ns: seq<Node>): nat {
    if ns == [] then 0 else Count(ns[0]) + AllCount(ns[1..])
  }

  lemma {:induction false} Append(ns: seq<Node>, ms: seq<Node>)
    ensures AllClean(ns + ms) <==> AllClean(ns) && AllClean(ms)
    ensures AllBytes(ns + ms) == AllBytes(ns) + AllBytes(ms)
    ensures AllCount(ns + ms) == AllCount(ns) + AllCount(ms)
  {
    if ns == [] {
      assert ns + ms == ms;
    } else {
      Append(ns[1..], ms);
      assert (ns + ms)[1..] == ns[1..] + ms;
    }
  }

  lemma Snoc(ns: seq<Node>, n: Node)
    ensures AllClean(ns + [n]) <==> AllClean(ns) && Clean(n)
    ensures AllBytes(ns + [n]) == AllBytes(ns) + Bytes(n)
    ensures AllCount(ns + [n]) == AllCount(ns) + Count(n)
  {
    Append(ns, [n]);
  }

  function Without(ns: seq<Node>, k: nat): (r: seq<Node>)
    requires k < |ns|
    ensures |r| == |ns| - 1
  {
    ns[..k] + ns[k + 1..]
  }

  /** The same tree, every directory at every depth listed in some order. */
  ghost predicate SameTree(n: Node, m: Node) {
    if n.Dir? && m.Dir? then SameListing(n.entries, m.entries) else n == m
  }

  /** The entries of `ns` are those of `ms` in another order, each the same tree. */
  ghost predicate SameListing(ns: seq<Node>, ms: seq<Node>) {
    if ns == [] then ms == []
    else exists k :: 0 <= k < |ms| && SameTree(ns[0], ms[k]) && SameListing(ns[1..], Without(ms, k))
  }

  /** Traversal order does not matter, at any depth. */
  lemma {:induction false} TraversalOrder(n: Node, m: Node)
    requires SameTree(n, m)
    ensures (Clean(n) <==> Clean(m)) && Bytes(n) == Bytes(m) && IsDir(n) == IsDir(m)
  {
    if n.Dir? && m.Dir? { ListingOrder(n.entries, m.entries); }
  }

  lemma {:induction false} ListingOrder(ns: seq<Node>, ms: seq<Node>)
    requires SameListing(ns, ms)
    ensures (AllClean(ns) <==> AllClean(ms)) && AllBytes(ns) == AllBytes(ms)
  {
    hide SameTree, Clean, Bytes;
    if ns == [] {
    } else {
      var k :| 0 <= k < |ms| && SameTree(ns[0], ms[k]) && SameListing(ns[1..], Without(ms, k));
      TraversalOrder(ns[0], ms[k]);
      ListingOrder(ns[1..], Without(ms, k));
      RemoveAt(ms, k);
    }
  }

  /** A directory listed twice in the same order, and permutations of one listing, are
      instances. */
  lemma {:induction false} SameTreeReflexive(n: Node)
    ensures SameTree(n, n)
  {
    if n.Dir? { SameListingReflexive(n.entries); }
  }

  lemma {:induction false} SameListingReflexive(ns: seq<Node>)
    ensures SameListing(ns, ns)
  {
    if ns == [] {
    } else {
      SameTreeReflexive(ns[0]);
      SameListingReflexive(ns[1..]);
      assert Without(ns, 0) == ns[1..];
    }
  }

  lemma {:induction false} PermutedListing(ns: seq<Node>, ms: seq<Node>)
    requires multiset(ns) == multiset(ms)
    ensures SameListing(ns, ms)
  {
    assert |ns| == |multiset(ns)| == |multiset(ms)| == |ms|;
    if ns == [] {
    } else {
      assert ns[0] in multiset(ms);
      var k :| 0 <= k < |ms| && ms[k] == ns[0];
      SameTreeReflexive(ns[0]);
      RemoveOne(ms, k);
      assert ns == [ns[0]] + ns[1..];
      assert multiset(ns[1..]) == multiset(ns) - multiset{ns[0]};
      PermutedListing(ns[1..], Without(ms, k));
    }
  }

  lemma RemoveOne(ns: seq<Node>, k: nat)
    requires k < |ns|
    ensures multiset(Without(ns, k)) == multiset(ns) - multiset{ns[k]}
  {
    SplitAround(ns, k);
  }

  lemma RemoveAt(ns: seq<Node>, k: nat)
    requires k < |ns|
    ensures AllClean(ns) <==> Clean(ns[k]) && AllClean(Without(ns, k))
    ensures AllBytes(ns) == Bytes(ns[k]) + AllBytes(Without(ns, k))
  {
    hide AllClean, AllBytes, AllCount, Clean, Bytes, Count;
    SplitAround(ns, k);
    RemoveMiddle(ns[..k], ns[k], ns[k + 1..]);
  }

  lemma SplitAround(ns: seq<Node>, k: nat)
    requires k < |ns|
    ensures ns == (ns[..k] + [ns[k]]) + ns[k + 1..]
  {
  }

  lemma RemoveMiddle(front: seq<Node>, n: Node, back: seq<Node>)
    ensures AllClean((front + [n]) + back) <==> Clean(n) && AllClean(front + back)
    ensures AllBytes((front + [n]) + back) == Bytes(n) + AllBytes(front + back)
  {
    hide AllClean, AllBytes, AllCount, Clean, Bytes, Count;
    Append(front, back);
    Snoc(front, n);
    Append(front + [n], back);
  }

  // ------------------------------------------------------------------ the walk

  /** The total a caller should see: exact, and absent when any part is unreadable or not
      regular, or when the sum does not fit. */
  function Measured(root: Node): Option<nat> {
    if Clean(root) && Bytes(root) <= U64_MAX then Some(Bytes(root)) else None
  }

  /** One directory's entries: directories are pushed, files added, anything else stops. */
  method Visit(entries: seq<Node>, total: nat, stack: seq<Node>)
    returns (ok: bool, total': nat, stack': seq<Node>)
    requires total <= U64_MAX && forall d :: d in stack ==> IsDir(d)
    ensures ok ==> total' <= U64_MAX && forall d :: d in stack' ==> IsDir(d)
    ensures ok ==> total' + AllBytes(stack') == total + AllBytes(stack) + AllBytes(entries)
    ensures ok ==> (AllClean(stack') <==> AllClean(stack) && AllClean(entries))
    ensures ok ==> AllCount(stack') <= AllCount(stack) + AllCount(entries)
    ensures !ok ==> !AllClean(entries) || total + AllBytes(stack) + AllBytes(entries) > U64_MAX
  {
    total', stack' := total, stack;
    for i := 0 to |entries|
      invariant total' <= U64_MAX && forall d :: d in stack' ==> IsDir(d)
      invariant total' + AllBytes(stack') == total + AllBytes(stack) + AllBytes(entries[..i])
      invariant AllClean(stack') <==> AllClean(stack) && AllClean(entries[..i])
      invariant AllCount(stack') <= AllCount(stack) + AllCount(entries[..i])
    {
      var e := entries[i];
      ghost var before := stack';
      assert entries[..i + 1] == entries[..i] + [e];
      Snoc(entries[..i], e);
      assert entries == entries[..i + 1] + entries[i + 1..];
      Append(entries[..i + 1], entries[i + 1..]);
      if IsDir(e) {
        Snoc(stack', e);
        stack' := stack' + [e];
      } else if e.File? {
        if e.size.None? || total' + e.size.value > U64_MAX {
          return false, total', stack';
        }
        total' := total' + e.size.value;
      } else {
        return false, total', stack';
      }
    }
    assert entries[..|entries|] == entries;
    ok := true;
  }

  /** The stack walk. `root` is opened by its path, whatever its own type. */
  method DirBytes(root: Node) returns (r: Option<nat>)
    requires IsDir(root)
    ensures r == Measured(root)
    ensures r.Some? <==> Clean(root) && Bytes(root) < 0x1_0000_0000_0000_0000
  {
    var total: nat := 0;
    var stack := [root];
    assert stack == [] + [root];
    Snoc([], root);
    while stack != []
      invariant total <= U64_MAX && forall d :: d in stack ==> IsDir(d)
      invariant total + AllBytes(stack) == Bytes(root)
      invariant AllClean(stack) <==> Clean(root)
      decreases AllCount(stack)
    {
      var p, rest := stack[|stack| - 1], stack[..|stack| - 1];
      assert stack == rest + [p] && p in stack;
      Snoc(rest, p);
      if p.UnreadableDir? { return None; }
      var ok, total', stack' := Visit(p.entries, total, rest);
      if !ok { return None; }
      total, stack := total', stack';
    }
    r := Some(total);
  }

  // -------------------------------------------------------- summing many blocks

  /** How many directories have no measure. */
  function Unmeasured(dirs: seq<Node>): (n: nat)
    ensures n <= |dirs|
  {
    if dirs == [] then 0
    else Unmeasured(dirs[..|dirs| - 1]) + if Measured(dirs[|dirs| - 1]).None? then 1 else 0
  }

  lemma {:induction false} UnmeasuredEach(dirs: seq<Node>)
    ensures Unmeasured(dirs) == 0 <==> forall i :: 0 <= i < |dirs| ==> Measured(dirs[i]).Some?
  {
    hide Measured;
    if dirs == [] {
    } else {
      var front := dirs[..|dirs| - 1];
      UnmeasuredEach(front);
      assert forall i :: 0 <= i < |front| ==> front[i] == dirs[i];
    }
  }

  lemma {:induction false} CleanEach(ns: seq<Node>)
    ensures AllClean(ns) <==> forall i :: 0 <= i < |ns| ==> Clean(ns[i])
  {
    if ns == [] {
    } else {
      CleanEach(ns[1..]);
      assert forall i :: 1 <= i < |ns| ==> ns[i] == ns[1..][i - 1];
    }
  }

  lemma {:induction false} BytesEach(ns: seq<Node>, k: nat)
    requires k < |ns|
    ensures Bytes(ns[k]) <= AllBytes(ns)
  {
    if k == 0 {
    } else {
      BytesEach(ns[1..], k - 1);
    }
  }

  /** The loop over candidate blocks: the total is reported exactly when every directory is
      clean and the exact sum fits; unmeasurable directories are counted. */
  method SumBlocks(dirs: seq<Node>) returns (bytes: Option<nat>, unsized: nat)
    requires forall d :: d in dirs ==> IsDir(d)
    ensures bytes == if AllClean(dirs) && AllBytes(dirs) <= U64_MAX then Some(AllBytes(dirs)) else None
    ensures unsized == Unmeasured(dirs)
  {
    hide Clean, Bytes;
    var total := Some(0);
    unsized := 0;
    for i := 0 to |dirs|
      invariant unsized == Unmeasured(dirs[..i])
      invariant unsized == 0 ==> AllClean(dirs[..i])
      invariant unsized == 0 ==>
                  total == if AllBytes(dirs[..i]) <= U64_MAX then Some(AllBytes(dirs[..i])) else None
    {
      assert dirs[..i + 1] == dirs[..i] + [dirs[i]];
      assert dirs[..i + 1][..i] == dirs[..i];
      Snoc(dirs[..i], dirs[i]);
      var r := DirBytes(dirs[i]);
      if r.Some? {
        total := if total.Some? && total.value + r.value <= U64_MAX then Some(total.value + r.value)
                 else None;
      } else {
        unsized := unsized + 1;
      }
    }
    assert dirs[..|dirs|] == dirs;
    if unsized > 0 {
      UnmeasuredTotal(dirs);
    }
    bytes := if unsized > 0 then None else total;
  }

  lemma UnmeasuredTotal(dirs: seq<Node>)
    requires Unmeasured(dirs) > 0
    ensures !AllClean(dirs) || AllBytes(dirs) > U64_MAX
  {
    UnmeasuredEach(dirs);
    var i :| 0 <= i < |dirs| && Measured(dirs[i]).None?;
    CleanEach(dirs);
    BytesEach(dirs, i);
  }
}
