/** Edit distance with a script: the full matrix fill and the backward walk of the copy
    probe, against edit scripts defined without any matrix. */
module Levenshtein {

  // ------------------------------------------------------------ edit scripts

  /** One step of a script that reads a source string and writes a target string. */
  datatype Step =
    | Keep(c: char)
    | Sub(old_: char, new_: char)
    | Del(gone: char)
    | Ins(added: char)

  function Last(s: seq<Step>): Step
    requires s != []
  {
    s[|s| - 1]
  }

  function Init(s: seq<Step>): seq<Step>
    requires s != []
  {
    s[..|s| - 1]
  }

  function Reads(x: Step): string {
    match x
    case Keep(c) => [c]
    case Sub(c, _) => [c]
    case Del(c) => [c]
    case Ins(_) => []
  }

  function Writes(x: Step): string {
    match x
    case Keep(c) => [c]
    case Sub(_, d) => [d]
    case Del(_) => []
    case Ins(d) => [d]
  }

  function Source(s: seq<Step>): string {
    if s == [] then [] else Source(Init(s)) + Reads(Last(s))
  }

  function Target(s: seq<Step>): string {
    if s == [] then [] else Target(Init(s)) + Writes(Last(s))
  }

  function StepCost(x: Step): nat {
    if x.Keep? then 0 else 1
  }

  /** Number of steps that change something. */
  function Cost(s: seq<Step>): nat {
    if s == [] then 0 else Cost(Init(s)) + StepCost(Last(s))
  }

  predicate Transforms(s: seq<Step>, a: string, b: string) {
    Source(s) == a && Target(s) == b
  }

  // ------------------------------------------------- the recurrence and its optimum

  function Min(x: int, y: int): int {
    if x <= y then x else y
  }

  function Mismatch(c: char, d: char): nat {
    if c == d then 0 else 1
  }

  /** Matrix entry `(i, j)`: the recurrence the fill evaluates. */
  function Entry(a: string, b: string, i: nat, j: nat): nat
    requires i <= |a| && j <= |b|
    decreases i + j
  {
    if i == 0 then j
    else if j == 0 then i
    else Min(Min(Entry(a, b, i - 1, j) + 1, Entry(a, b, i, j - 1) + 1),
             Entry(a, b, i - 1, j - 1) + Mismatch(a[i - 1], b[j - 1]))
  }

  function Distance(a: string, b: string): nat {
    Entry(a, b, |a|, |b|)
  }

  /** Step `x` ends at `(i, j)`: it reads the end of `a[..i]` and writes the end of `b[..j]`. */
  predicate EndsAt(a: string, b: string, i: nat, j: nat, x: Step) {
    && |Reads(x)| <= i <= |a| && |Writes(x)| <= j <= |b|
    && a[i - |Reads(x)|..i] == Reads(x) && b[j - |Writes(x)|..j] == Writes(x)
  }

  /** The entry before step `x`. */
  function Before(a: string, b: string, i: nat, j: nat, x: Step): nat
    requires EndsAt(a, b, i, j, x)
  {
    Entry(a, b, i - |Reads(x)|, j - |Writes(x)|)
  }

  /** An entry exceeds each of its neighbours by at most one step. */
  lemma EntrySteps(a: string, b: string, i: nat, j: nat)
    requires i <= |a| && j <= |b|
    ensures i > 0 ==> Entry(a, b, i, j) <= Entry(a, b, i - 1, j) + 1
    ensures j > 0 ==> Entry(a, b, i, j) <= Entry(a, b, i, j - 1) + 1
    ensures i > 0 && j > 0 ==> Entry(a, b, i, j) <= Entry(a, b, i - 1, j - 1) + Mismatch(a[i - 1], b[j - 1])
  {
  }

  lemma EntryAtMost(a: string, b: string, i: nat, j: nat, x: Step)
    requires EndsAt(a, b, i, j, x)
    ensures Entry(a, b, i, j) <= Before(a, b, i, j, x) + StepCost(x)
  {
    hide Entry, EndsAt, Mismatch;
    EndsInside(a, b, i, j, x);
    EntrySteps(a, b, i, j);
    if x.Keep? || x.Sub? { DiagonalCost(a, b, i, j, x); }
  }

  lemma DiagonalCost(a: string, b: string, i: nat, j: nat, x: Step)
    requires EndsAt(a, b, i, j, x) && (x.Keep? || x.Sub?)
    ensures 1 <= i <= |a| && 1 <= j <= |b| && Mismatch(a[i - 1], b[j - 1]) <= StepCost(x)
  {
    if x.Keep? { assert a[i - 1] == a[i - 1..i][0] == b[j - 1..j][0] == b[j - 1]; }
  }

  lemma EndsInside(a: string, b: string, i: nat, j: nat, x: Step)
    requires EndsAt(a, b, i, j, x)
    ensures |Reads(x)| <= i <= |a| && |Writes(x)| <= j <= |b|
  {
  }

  lemma PrefixSplit(a: string, i: nat, p: string, q: string)
    requires i <= |a| && a[..i] == p + q
    ensures |q| <= i && a[i - |q|..i] == q && a[..i - |q|] == p
  {
    assert a[..i][..|p|] == p && a[..i][|p|..] == q;
  }

  /** No script is cheaper than the matrix entry. */
  lemma {:induction false} EntryIsLowerBound(a: string, b: string, i: nat, j: nat, s: seq<Step>)
    requires i <= |a| && j <= |b| && Transforms(s, a[..i], b[..j])
    ensures Entry(a, b, i, j) <= Cost(s)
    decreases |s|
  {
    if s == [] {
      assert i == |a[..i]| == 0 && j == |b[..j]| == 0;
    } else {
      hide Entry;
      var x, p := Last(s), Init(s);
      PrefixSplit(a, i, Source(p), Reads(x));
      PrefixSplit(b, j, Target(p), Writes(x));
      EntryAtMost(a, b, i, j, x);
      EntryIsLowerBound(a, b, i - |Reads(x)|, j - |Writes(x)|, p);
    }
  }

  // ------------------------------------------------------------- the backward walk

  datatype Op = SubOp | DelOp | InsOp

  /** A reported edit: `i` indexes the target string, `j` the response. */
  datatype Edit = Edit(op: Op, i: nat, j: nat)

  predicate Diagonal(a: string, b: string, i: nat, j: nat)
    requires i <= |a| && j <= |b|
  {
    i > 0 && j > 0 && Entry(a, b, i, j) == Entry(a, b, i - 1, j - 1) + Mismatch(a[i - 1], b[j - 1])
  }

  predicate Deletes(a: string, b: string, i: nat, j: nat)
    requires i <= |a| && j <= |b|
  {
    i > 0 && Entry(a, b, i, j) == Entry(a, b, i - 1, j) + 1
  }

  /** The step the walk takes back from `(i, j)`: the diagonal first, then a deletion, else
      an insertion. The contract: it ends there and accounts for the whole entry. */
  function Branch(a: string, b: string, i: nat, j: nat): (x: Step)
    requires i <= |a| && j <= |b| && (i > 0 || j > 0)
    ensures EndsAt(a, b, i, j, x) && Entry(a, b, i, j) == Before(a, b, i, j, x) + StepCost(x)
    ensures x.Sub? ==> x.old_ != x.new_
  {
    if Diagonal(a, b, i, j) then
      if a[i - 1] == b[j - 1] then Keep(a[i - 1]) else Sub(a[i - 1], b[j - 1])
    else if Deletes(a, b, i, j) then Del(a[i - 1])
    else Ins(b[j - 1])
  }

  /** The script the walk follows. */
  function BestScript(a: string, b: string, i: nat, j: nat): seq<Step>
    requires i <= |a| && j <= |b|
    decreases i + j
  {
    if i == 0 && j == 0 then []
    else
      var x := Branch(a, b, i, j);
      BestScript(a, b, i - |Reads(x)|, j - |Writes(x)|) + [x]
  }

  predicate Proper(s: seq<Step>) {
    forall k :: 0 <= k < |s| && s[k].Sub? ==> s[k].old_ != s[k].new_
  }

  /** The walk's script turns one prefix into the other at exactly the cost in the matrix. */
  lemma {:induction false} BestScriptIsOptimal(a: string, b: string, i: nat, j: nat)
    requires i <= |a| && j <= |b|
    ensures Transforms(BestScript(a, b, i, j), a[..i], b[..j])
    ensures Cost(BestScript(a, b, i, j)) == Entry(a, b, i, j)
    ensures Proper(BestScript(a, b, i, j))
    decreases i + j
  {
    if i == 0 && j == 0 {
    } else {
      hide Entry, Branch, EditsOf;
      var x := Branch(a, b, i, j);
      var i', j' := i - |Reads(x)|, j - |Writes(x)|;
      BestScriptIsOptimal(a, b, i', j');
      AppendStep(a, b, i, j, BestScript(a, b, i', j'), x);
    }
  }

  /** Appending a step to a script between prefixes. */
  lemma AppendStep(a: string, b: string, i: nat, j: nat, p: seq<Step>, x: Step)
    requires EndsAt(a, b, i, j, x) && (x.Sub? ==> x.old_ != x.new_)
    requires Transforms(p, a[..i - |Reads(x)|], b[..j - |Writes(x)|]) && Proper(p)
    ensures Transforms(p + [x], a[..i], b[..j]) && Proper(p + [x])
    ensures Cost(p + [x]) == Cost(p) + StepCost(x)
    ensures EditsOf(p + [x]) == EditsOf(p)
              + if x.Keep? then [] else [Edit(OpOf(x), i - |Reads(x)|, j - |Writes(x)|)]
  {
    var s := p + [x];
    var i', j' := i - |Reads(x)|, j - |Writes(x)|;
    assert Init(s) == p && Last(s) == x;
    assert a[..i] == a[..i'] + a[i'..i] && b[..j] == b[..j'] + b[j'..j];
  }

  /** The distance is the least cost of any script from `a` to `b`, and is attained. */
  lemma DistanceIsMinimum(a: string, b: string)
    ensures forall s :: Transforms(s, a, b) ==> Distance(a, b) <= Cost(s)
    ensures exists s :: Transforms(s, a, b) && Cost(s) == Distance(a, b)
  {
    assert a[..|a|] == a && b[..|b|] == b;
    forall s | Transforms(s, a, b) ensures Distance(a, b) <= Cost(s) {
      EntryIsLowerBound(a, b, |a|, |b|, s);
    }
    BestScriptIsOptimal(a, b, |a|, |b|);
    assert Transforms(BestScript(a, b, |a|, |b|), a, b);
  }

  // ------------------------------------------------------------ ties

  /** The order of preference: the diagonal, then a deletion, then an insertion. */
  function Rank(x: Step): nat {
    match x
    case Keep(_) => 0
    case Sub(_, _) => 0
    case Del(_) => 1
    case Ins(_) => 2
  }

  /** Read from the end, `s` takes the preferred step where the two first part. */
  predicate Preferred(s: seq<Step>, r: seq<Step>) {
    || s == r
    || (s != [] && r != [] && if Last(s) == Last(r) then Preferred(Init(s), Init(r))
                              else Rank(Last(s)) < Rank(Last(r)))
  }

  /** Of all last steps of an optimal script, the walk takes the preferred one. */
  lemma BranchIsPreferred(a: string, b: string, i: nat, j: nat, x: Step)
    requires EndsAt(a, b, i, j, x) && (i > 0 || j > 0)
    requires Entry(a, b, i, j) == Before(a, b, i, j, x) + StepCost(x)
    ensures Branch(a, b, i, j) == x || Rank(Branch(a, b, i, j)) < Rank(x)
  {
    hide Entry, EndsAt;
    LastChars(a, b, i, j, x);
    EntrySteps(a, b, i, j);
    match x
    case Keep(c) => assert Diagonal(a, b, i, j);
    case Sub(c, d) => assert Diagonal(a, b, i, j);
    case Del(c) => assert Deletes(a, b, i, j);
    case Ins(d) =>
  }

  lemma LastChars(a: string, b: string, i: nat, j: nat, x: Step)
    requires EndsAt(a, b, i, j, x)
    ensures |Reads(x)| <= i <= |a| && |Writes(x)| <= j <= |b|
    ensures x.Keep? ==> i >= 1 && j >= 1 && a[i - 1] == x.c && b[j - 1] == x.c
    ensures x.Sub? ==> i >= 1 && j >= 1 && a[i - 1] == x.old_ && b[j - 1] == x.new_
    ensures x.Del? ==> i >= 1 && a[i - 1] == x.gone
    ensures x.Ins? ==> j >= 1 && b[j - 1] == x.added
  {
    if !x.Ins? { assert a[i - 1..i][0] == a[i - 1]; }
    if !x.Del? { assert b[j - 1..j][0] == b[j - 1]; }
  }

  /** Against every script of least cost, the walk's is the preferred one. */
  lemma {:induction false} WalkIsPreferred(a: string, b: string, i: nat, j: nat, s: seq<Step>)
    requires i <= |a| && j <= |b| && Transforms(s, a[..i], b[..j]) && Cost(s) == Entry(a, b, i, j)
    ensures Preferred(BestScript(a, b, i, j), s)
    decreases |s|
  {
    hide Entry, Branch;
    if s == [] {
      assert i == |a[..i]| == 0 && j == |b[..j]| == 0;
    } else {
      var x, p := Last(s), Init(s);
      PrefixSplit(a, i, Source(p), Reads(x));
      PrefixSplit(b, j, Target(p), Writes(x));
      EntryAtMost(a, b, i, j, x);
      var i', j' := i - |Reads(x)|, j - |Writes(x)|;
      EntryIsLowerBound(a, b, i', j', p);
      BranchIsPreferred(a, b, i, j, x);
      if Branch(a, b, i, j) == x {
        WalkIsPreferred(a, b, i', j', p);
      }
      BestEnds(a, b, i, j);
    }
  }

  lemma BestEnds(a: string, b: string, i: nat, j: nat)
    requires i <= |a| && j <= |b| && (i > 0 || j > 0)
    ensures var x, s := Branch(a, b, i, j), BestScript(a, b, i, j);
            && s != [] && Last(s) == x
            && Init(s) == BestScript(a, b, i - |Reads(x)|, j - |Writes(x)|)
  {
    hide Entry, Branch;
  }

  // ------------------------------------------------------------ reported edits

  function OpOf(x: Step): Op
    requires !x.Keep?
  {
    match x
    case Sub(_, _) => SubOp
    case Del(_) => DelOp
    case Ins(_) => InsOp
  }

  /** The changing steps of a script, each with the positions read and written before it. */
  function EditsOf(s: seq<Step>): seq<Edit> {
    if s == [] then []
    else if Last(s).Keep? then EditsOf(Init(s))
    else EditsOf(Init(s)) + [Edit(OpOf(Last(s)), |Source(Init(s))|, |Target(Init(s))|)]
  }

  lemma {:induction false} EditCount(s: seq<Step>)
    ensures |EditsOf(s)| == Cost(s)
  {
    if s == [] {
    } else {
      EditCount(Init(s));
    }
  }

  /** Replaying an edit list over `a`: how far `a` was consumed, and the text so far. */
  datatype Replayed = Stuck | At(pos: nat, text: string)

  predicate CanApply(a: string, b: string, r: Replayed, e: Edit) {
    && r.At? && r.pos <= e.i <= |a|
    && |r.text| + (e.i - r.pos) == e.j
    && match e.op
       case SubOp => e.i < |a| && e.j < |b| && a[e.i] != b[e.j]
       case DelOp => e.i < |a|
       case InsOp => e.j < |b|
  }

  /** Copies `a` up to the edit, then performs it; stuck when the edit is out of order or
      its response index is not the length of the text written so far. */
  function ApplyEdit(a: string, b: string, r: Replayed, e: Edit): Replayed {
    if !CanApply(a, b, r, e) then Stuck
    else
      var copied := r.text + a[r.pos..e.i];
      match e.op
      case SubOp => At(e.i + 1, copied + [b[e.j]])
      case DelOp => At(e.i + 1, copied)
      case InsOp => At(e.i, copied + [b[e.j]])
  }

  function Replay(a: string, b: string, edits: seq<Edit>): Replayed {
    if edits == [] then At(0, [])
    else ApplyEdit(a, b, Replay(a, b, edits[..|edits| - 1]), edits[|edits| - 1])
  }

  /** `edits` is an in-order script that turns `a` into `b`. */
  predicate TurnsInto(a: string, b: string, edits: seq<Edit>) {
    var r := Replay(a, b, edits);
    r.At? && r.pos <= |a| && r.text + a[r.pos..] == b
  }

  lemma {:induction false} EditsReplay(a: string, b: string, i: nat, j: nat, s: seq<Step>)
    requires i <= |a| && j <= |b| && Transforms(s, a[..i], b[..j]) && Proper(s)
    ensures ReplayedTo(a, b, Replay(a, b, EditsOf(s)), i, j)
    decreases |s|
  {
    if s == [] {
      assert i == |a[..i]| == 0 && j == |b[..j]| == 0;
    } else {
      hide CanApply;
      var x, p := Last(s), Init(s);
      PrefixSplit(a, i, Source(p), Reads(x));
      PrefixSplit(b, j, Target(p), Writes(x));
      var i', j' := i - |Reads(x)|, j - |Writes(x)|;
      EditsReplay(a, b, i', j', p);
      var r := Replay(a, b, EditsOf(p));
      ReplayStep(a, b, r, i, j, x);
      if !x.Keep? { ReplaySnoc(a, b, EditsOf(p), Edit(OpOf(x), i', j')); }
    }
  }

  /** What was replayed, with `a` copied up to `i`, is `b[..j]`. */
  predicate ReplayedTo(a: string, b: string, r: Replayed, i: nat, j: nat)
    requires i <= |a| && j <= |b|
  {
    r.At? && r.pos <= i && r.text + a[r.pos..i] == b[..j]
  }

  lemma ReplayStep(a: string, b: string, r: Replayed, i: nat, j: nat, x: Step)
    requires EndsAt(a, b, i, j, x) && (x.Sub? ==> x.old_ != x.new_)
    requires ReplayedTo(a, b, r, i - |Reads(x)|, j - |Writes(x)|)
    ensures var r' := if x.Keep? then r
                      else ApplyEdit(a, b, r, Edit(OpOf(x), i - |Reads(x)|, j - |Writes(x)|));
            ReplayedTo(a, b, r', i, j)
  {
    var i', j' := i - |Reads(x)|, j - |Writes(x)|;
    assert |b[..j']| == j';
    assert b[..j] == b[..j'] + b[j'..j];
    match x
    case Keep(c) => assert a[r.pos..i] == a[r.pos..i'] + a[i'..i];
    case Sub(c, d) => assert a[i'] == a[i'..i][0] && b[j'] == b[j'..j][0] && a[i..i] == [];
    case Del(c) => assert a[i..i] == [];
    case Ins(d) => assert b[j'] == b[j'..j][0] && a[i..i] == [];
  }

  lemma ReplaySnoc(a: string, b: string, edits: seq<Edit>, e: Edit)
    ensures Replay(a, b, edits + [e]) == ApplyEdit(a, b, Replay(a, b, edits), e)
  {
    assert (edits + [e])[..|edits|] == edits;
  }

  // -------------------------------------------------------- the imperative form

  function Reverse(s: seq<Edit>): seq<Edit> {
    if s == [] then [] else [s[|s| - 1]] + Reverse(s[..|s| - 1])
  }

  lemma ReverseSnoc(s: seq<Edit>, e: Edit)
    ensures Reverse(s + [e]) == [e] + Reverse(s)
  {
    assert (s + [e])[..|s|] == s;
  }

  lemma EntryBorder(a: string, b: string)
    ensures forall i :: 0 <= i <= |a| ==> Entry(a, b, i, 0) == i
    ensures forall j :: 0 <= j <= |b| ==> Entry(a, b, 0, j) == j
  {
  }

  lemma EntryInside(a: string, b: string, i: nat, j: nat)
    requires 1 <= i <= |a| && 1 <= j <= |b|
    ensures Entry(a, b, i, j)
         == Min(Min(Entry(a, b, i - 1, j) + 1, Entry(a, b, i, j - 1) + 1),
                Entry(a, b, i - 1, j - 1) + if a[i - 1] == b[j - 1] then 0 else 1)
  {
  }

  /** The first `n` entries of row `i` are done. */
  ghost predicate RowDone(dp: array2<nat>, a: string, b: string, i: nat, n: nat)
    reads dp
    requires dp.Length0 == |a| + 1 && dp.Length1 == |b| + 1 && i <= |a| && n <= |b| + 1
  {
    forall l :: 0 <= l < n ==> dp[i, l] == Entry(a, b, i, l)
  }

  ghost predicate FullRow(dp: array2<nat>, a: string, b: string, i: nat)
    reads dp
    requires dp.Length0 == |a| + 1 && dp.Length1 == |b| + 1 && i <= |a|
  {
    RowDone(dp, a, b, i, |b| + 1)
  }

  method FillRow(dp: array2<nat>, a: string, b: string, i: nat)
    requires dp.Length0 == |a| + 1 && dp.Length1 == |b| + 1 && 1 <= i <= |a|
    requires FullRow(dp, a, b, i - 1) && RowDone(dp, a, b, i, 1)
    modifies dp
    ensures FullRow(dp, a, b, i)
    ensures forall k, l :: 0 <= k <= |a| && 0 <= l <= |b| && k != i ==> dp[k, l] == old(dp[k, l])
    ensures forall k :: 0 <= k <= |a| && k != i && old(FullRow(dp, a, b, k)) ==> FullRow(dp, a, b, k)
  {
    hide Entry;
    for j := 1 to |b| + 1
      invariant RowDone(dp, a, b, i, j)
      invariant forall k, l :: 0 <= k <= |a| && 0 <= l <= |b| && k != i ==> dp[k, l] == old(dp[k, l])
    {
      var cost := if a[i - 1] == b[j - 1] then 0 else 1;
      EntryInside(a, b, i, j);
      dp[i, j] := Min(Min(dp[i - 1, j] + 1, dp[i, j - 1] + 1), dp[i - 1, j - 1] + cost);
    }
  }

  /** The matrix fill. */
  method Fill(a: string, b: string) returns (dp: array2<nat>)
    ensures fresh(dp) && dp.Length0 == |a| + 1 && dp.Length1 == |b| + 1
    ensures forall i :: 0 <= i <= |a| ==> FullRow(dp, a, b, i)
  {
    EntryBorder(a, b);
    hide Entry;
    var n, m := |a|, |b|;
    dp := new nat[n + 1, m + 1]((i, j) => 0);
    for i := 0 to n + 1
      invariant forall k :: 0 <= k < i ==> dp[k, 0] == k
    {
      dp[i, 0] := i;
    }
    for j := 0 to m + 1
      invariant forall k :: 0 <= k <= n ==> dp[k, 0] == k
      invariant forall k :: 0 <= k < j ==> dp[0, k] == k
    {
      dp[0, j] := j;
    }
    for i := 1 to n + 1
      invariant forall k :: i <= k <= n ==> dp[k, 0] == k
      invariant forall k :: 0 <= k < i ==> FullRow(dp, a, b, k)
    {
      FillRow(dp, a, b, i);
    }
  }

  /** The backward walk over a filled matrix, last edit first. */
  method Walk(dp: array2<nat>, a: string, b: string) returns (edits: seq<Edit>)
    requires dp.Length0 == |a| + 1 && dp.Length1 == |b| + 1
    requires forall i :: 0 <= i <= |a| ==> FullRow(dp, a, b, i)
    ensures Reverse(edits) == EditsOf(BestScript(a, b, |a|, |b|))
  {
    hide Entry, BestScript, EditsOf, Reverse, EndsAt, Before;
    var i: nat, j: nat := |a|, |b|;
    edits := [];
    ghost var all := EditsOf(BestScript(a, b, |a|, |b|));
    WalkEnds(a, b, edits);
    while i > 0 || j > 0
      invariant i <= |a| && j <= |b|
      invariant all == EditsOf(BestScript(a, b, i, j)) + Reverse(edits)
      decreases i + j
    {
      ghost var x := Branch(a, b, i, j);
      EndsInside(a, b, i, j, x);
      WalkStep(a, b, i, j, i - |Reads(x)|, j - |Writes(x)|, edits);
      assert FullRow(dp, a, b, i) && (i > 0 ==> FullRow(dp, a, b, i - 1));
      if i > 0 && j > 0
         && dp[i, j] == dp[i - 1, j - 1] + (if a[i - 1] == b[j - 1] then 0 else 1) {
        if a[i - 1] != b[j - 1] {
          edits := edits + [Edit(SubOp, i - 1, j - 1)];
        }
        i, j := i - 1, j - 1;
      } else if i > 0 && dp[i, j] == dp[i - 1, j] + 1 {
        edits := edits + [Edit(DelOp, i - 1, j)];
        i := i - 1;
      } else {
        edits := edits + [Edit(InsOp, i, j - 1)];
        j := j - 1;
      }
    }
    WalkEnds(a, b, edits);
  }

  /** Distance and edit list. The distance is the least cost of any script; the edits are
      in order, as many as the distance, and turn `a` into `b`. */
  method Levenshtein(a: string, b: string) returns (dist: nat, edits: seq<Edit>)
    ensures forall s :: Transforms(s, a, b) ==> dist <= Cost(s)
    ensures exists s :: Chosen(a, b, s) && dist == Cost(s) && edits == EditsOf(s)
    ensures dist == Distance(a, b) && |edits| == dist && TurnsInto(a, b, edits)
  {
    hide Entry, BestScript, EditsOf, TurnsInto;
    var dp := Fill(a, b);
    edits := Walk(dp, a, b);
    edits := Reverse(edits);
    assert FullRow(dp, a, b, |a|);
    dist := dp[|a|, |b|];
    DistanceIsMinimum(a, b);
    WalkResult(a, b);
    WalkIsChosen(a, b);
  }

  /** A script of least cost that, of all such scripts, is the preferred one. */
  ghost predicate Chosen(a: string, b: string, s: seq<Step>) {
    && Transforms(s, a, b)
    && (forall r :: Transforms(r, a, b) ==> Cost(s) <= Cost(r))
    && (forall r :: Transforms(r, a, b) && Cost(r) == Cost(s) ==> Preferred(s, r))
  }

  lemma WalkIsChosen(a: string, b: string)
    ensures Chosen(a, b, BestScript(a, b, |a|, |b|))
  {
    hide Distance, Cost, BestScript, EditsOf, TurnsInto, Transforms, Preferred;
    DistanceIsMinimum(a, b);
    WalkResult(a, b);
    forall r | Transforms(r, a, b) && Cost(r) == Distance(a, b)
      ensures Preferred(BestScript(a, b, |a|, |b|), r)
    {
      WholeWalkIsPreferred(a, b, r);
    }
  }

  lemma WholeWalkIsPreferred(a: string, b: string, r: seq<Step>)
    requires Transforms(r, a, b) && Cost(r) == Distance(a, b)
    ensures Preferred(BestScript(a, b, |a|, |b|), r)
  {
    hide Entry, Cost, BestScript, Preferred;
    assert a[..|a|] == a && b[..|b|] == b;
    WalkIsPreferred(a, b, |a|, |b|, r);
  }

  /** There is only one such script, so the reported edits are determined. */
  lemma ChosenIsUnique(a: string, b: string, s: seq<Step>, r: seq<Step>)
    requires Chosen(a, b, s) && Chosen(a, b, r)
    ensures s == r
  {
    hide Transforms, Cost;
    PreferredBothWays(s, r);
  }

  lemma {:induction false} PreferredBothWays(s: seq<Step>, r: seq<Step>)
    requires Preferred(s, r) && Preferred(r, s)
    ensures s == r
  {
    if s != [] && r != [] && Last(s) == Last(r) {
      PreferredBothWays(Init(s), Init(r));
      assert s == Init(s) + [Last(s)] && r == Init(r) + [Last(r)];
    }
  }

  lemma WalkEnds(a: string, b: string, edits: seq<Edit>)
    ensures EditsOf(BestScript(a, b, 0, 0)) + Reverse(edits) == Reverse(edits)
    ensures Reverse([]) == [] && forall all: seq<Edit> :: all + [] == all
  {
  }

  /** What one step of the walk adds to the edits. */
  lemma WalkStep(a: string, b: string, i: nat, j: nat, i': nat, j': nat, edits: seq<Edit>)
    requires i <= |a| && j <= |b| && (i > 0 || j > 0)
    requires i' == i - |Reads(Branch(a, b, i, j))| && j' == j - |Writes(Branch(a, b, i, j))|
    ensures EditsOf(BestScript(a, b, i, j)) + Reverse(edits)
         == EditsOf(BestScript(a, b, i', j'))
          + Reverse(if Branch(a, b, i, j).Keep? then edits
                    else edits + [Edit(OpOf(Branch(a, b, i, j)), i', j')])
  {
    hide Entry, Branch, EditsOf, Transforms, Cost, Reverse, EndsAt, Proper, Before;
    var x := Branch(a, b, i, j);
    BestScriptIsOptimal(a, b, i', j');
    AppendStep(a, b, i, j, BestScript(a, b, i', j'), x);
    if !x.Keep? { ReverseSnoc(edits, Edit(OpOf(x), i', j')); }
  }

  lemma WalkResult(a: string, b: string)
    ensures var s := BestScript(a, b, |a|, |b|);
            && Transforms(s, a, b) && Cost(s) == Distance(a, b)
            && |EditsOf(s)| == Distance(a, b) && TurnsInto(a, b, EditsOf(s))
  {
    assert a[..|a|] == a && b[..|b|] == b;
    BestScriptIsOptimal(a, b, |a|, |b|);
    var s := BestScript(a, b, |a|, |b|);
    EditCount(s);
    EditsReplay(a, b, |a|, |b|, s);
    var r := Replay(a, b, EditsOf(s));
    assert a[r.pos..|a|] == a[r.pos..];
  }

  // -------------------------------------------------------------- metric laws

  /** The script read backwards in direction: from target to source. */
  function Inverse(s: seq<Step>): seq<Step> {
    if s == [] then []
    else Inverse(Init(s)) + [match Last(s)
                             case Keep(c) => Keep(c)
                             case Sub(c, d) => Sub(d, c)
                             case Del(c) => Ins(c)
                             case Ins(d) => Del(d)]
  }

  lemma {:induction false} InverseTransforms(s: seq<Step>)
    ensures Source(Inverse(s)) == Target(s) && Target(Inverse(s)) == Source(s)
    ensures Cost(Inverse(s)) == Cost(s)
  {
    if s == [] {
    } else {
      InverseTransforms(Init(s));
      assert Init(Inverse(s)) == Inverse(Init(s));
    }
  }

  /** A script that keeps every character. */
  function KeepAll(a: string): seq<Step> {
    if a == [] then [] else KeepAll(a[..|a| - 1]) + [Keep(a[|a| - 1])]
  }

  lemma {:induction false} KeepAllTransforms(a: string)
    ensures Transforms(KeepAll(a), a, a) && Cost(KeepAll(a)) == 0
  {
    if a == [] {
    } else {
      KeepAllTransforms(a[..|a| - 1]);
      assert Init(KeepAll(a)) == KeepAll(a[..|a| - 1]);
    }
  }

  lemma {:induction false} FreeScriptKeeps(s: seq<Step>)
    requires Cost(s) == 0
    ensures Source(s) == Target(s)
  {
    if s == [] {
    } else {
      FreeScriptKeeps(Init(s));
    }
  }

  /** One script for two in a row: steps that meet at a character of the middle string are
      fused, and an insertion followed by its deletion disappears. */
  function Compose(s: seq<Step>, t: seq<Step>): seq<Step>
    decreases |s| + |t|
  {
    if s != [] && Last(s).Del? then Compose(Init(s), t) + [Last(s)]
    else if t != [] && Last(t).Ins? then Compose(s, Init(t)) + [Last(t)]
    else if s == [] || t == [] then []
    else Compose(Init(s), Init(t)) + Fuse(Last(s), Last(t))
  }

  function Fuse(x: Step, y: Step): seq<Step> {
    match (x, y)
    case (Ins(_), Del(_)) => []
    case (Ins(_), _) => if Writes(y) == [] then [] else [Ins(Writes(y)[0])]
    case (_, Del(_)) => if Reads(x) == [] then [] else [Del(Reads(x)[0])]
    case (Keep(_), Keep(c)) => [Keep(c)]
    case (_, _) => if Reads(x) == [] || Writes(y) == [] then [] else [Sub(Reads(x)[0], Writes(y)[0])]
  }

  lemma {:induction false} ComposeTransforms(s: seq<Step>, t: seq<Step>)
    requires Target(s) == Source(t)
    ensures Source(Compose(s, t)) == Source(s) && Target(Compose(s, t)) == Target(t)
    ensures Cost(Compose(s, t)) <= Cost(s) + Cost(t)
    decreases |s| + |t|
  {
    if s != [] && Last(s).Del? {
      ComposeTransforms(Init(s), t);
      assert Init(Compose(s, t)) == Compose(Init(s), t);
    } else if t != [] && Last(t).Ins? {
      ComposeTransforms(s, Init(t));
      assert Init(Compose(s, t)) == Compose(s, Init(t));
    } else if s == [] || t == [] {
      EmptySide(s, t);
    } else {
      var x, y := Last(s), Last(t);
      var c, d := Writes(x)[0], Reads(y)[0];
      SnocEqual(Target(Init(s)), c, Source(Init(t)), d);
      ComposeTransforms(Init(s), Init(t));
      FuseSound(Compose(Init(s), Init(t)), x, y);
    }
  }

  lemma EmptySide(s: seq<Step>, t: seq<Step>)
    requires Target(s) == Source(t) && (s == [] || t == [])
    requires !(s != [] && Last(s).Del?) && !(t != [] && Last(t).Ins?)
    ensures s == [] && t == []
  {
  }

  lemma SnocEqual(p: string, c: char, q: string, d: char)
    requires p + [c] == q + [d]
    ensures p == q && c == d
  {
    assert (p + [c])[..|p|] == p && (q + [d])[..|q|] == q;
    assert (p + [c])[|p|] == c && (q + [d])[|q|] == d;
  }

  lemma FuseSound(r: seq<Step>, x: Step, y: Step)
    requires !x.Del? && !y.Ins? && Writes(x) == Reads(y)
    ensures Source(r + Fuse(x, y)) == Source(r) + Reads(x)
    ensures Target(r + Fuse(x, y)) == Target(r) + Writes(y)
    ensures Cost(r + Fuse(x, y)) <= Cost(r) + StepCost(x) + StepCost(y)
  {
    var f := Fuse(x, y);
    if f == [] {
      assert r + f == r;
    } else {
      assert Init(r + f) == r && Last(r + f) == f[0];
    }
  }

  /** The distance is a metric on all strings. */
  lemma DistanceIsMetric(a: string, b: string, c: string)
    ensures Distance(a, b) == 0 <==> a == b
    ensures Distance(a, b) == Distance(b, a)
    ensures Distance(a, c) <= Distance(a, b) + Distance(b, c)
  {
    var ab, bc := BestScript(a, b, |a|, |b|), BestScript(b, c, |b|, |c|);
    WalkResult(a, b);
    WalkResult(b, c);
    if a == b {
      KeepAllTransforms(a);
      DistanceAtMost(a, a, KeepAll(a));
    } else if Distance(a, b) == 0 {
      FreeScriptKeeps(ab);
    }
    InverseTransforms(ab);
    DistanceAtMost(b, a, Inverse(ab));
    var ba := BestScript(b, a, |b|, |a|);
    WalkResult(b, a);
    InverseTransforms(ba);
    DistanceAtMost(a, b, Inverse(ba));
    ComposeTransforms(ab, bc);
    DistanceAtMost(a, c, Compose(ab, bc));
  }

  lemma DistanceAtMost(a: string, b: string, s: seq<Step>)
    requires Transforms(s, a, b)
    ensures Distance(a, b) <= Cost(s)
  {
    DistanceIsMinimum(a, b);
  }

  // ------------------------------------------- every edit list is a script

  lemma {:induction false} ConcatScripts(s: seq<Step>, t: seq<Step>)
    ensures Source(s + t) == Source(s) + Source(t) && Target(s + t) == Target(s) + Target(t)
    ensures Cost(s + t) == Cost(s) + Cost(t)
  {
    hide Source, Target, Cost;
    if t == [] {
      ConcatEmpty(s);
    } else {
      ConcatScripts(s, Init(t));
      ConcatSnoc(s, Init(t), Last(t), t);
    }
  }

  lemma ConcatEmpty(s: seq<Step>)
    ensures s + [] == s && Source(s) + Source([]) == Source(s) && Target(s) + Target([]) == Target(s)
    ensures Cost([]) == 0
  {
  }

  lemma ConcatSnoc(s: seq<Step>, u: seq<Step>, x: Step, t: seq<Step>)
    requires t == u + [x]
    requires Source(s + u) == Source(s) + Source(u) && Target(s + u) == Target(s) + Target(u)
    requires Cost(s + u) == Cost(s) + Cost(u)
    ensures Source(s + t) == Source(s) + Source(t) && Target(s + t) == Target(s) + Target(t)
    ensures Cost(s + t) == Cost(s) + Cost(t)
  {
    hide Source, Target, Cost, Reads, Writes, StepCost;
    SnocScript(u, x);
    SnocScript(s + u, x);
    Associate(s, u, [x]);
    Associate(Source(s), Source(u), Reads(x));
    Associate(Target(s), Target(u), Writes(x));
  }

  lemma Associate<T>(p: seq<T>, q: seq<T>, r: seq<T>)
    ensures (p + q) + r == p + (q + r)
  {
  }

  lemma SnocScript(s: seq<Step>, x: Step)
    ensures Source(s + [x]) == Source(s) + Reads(x) && Target(s + [x]) == Target(s) + Writes(x)
    ensures Cost(s + [x]) == Cost(s) + StepCost(x)
  {
    assert Init(s + [x]) == s && Last(s + [x]) == x;
  }

  function EditStep(a: string, b: string, e: Edit): Step
    requires (!e.op.InsOp? ==> e.i < |a|) && (!e.op.DelOp? ==> e.j < |b|)
  {
    match e.op
    case SubOp => Sub(a[e.i], b[e.j])
    case DelOp => Del(a[e.i])
    case InsOp => Ins(b[e.j])
  }

  lemma {:induction false} ReplayIsScript(a: string, b: string, edits: seq<Edit>) returns (s: seq<Step>)
    requires Replay(a, b, edits).At?
    ensures var r := Replay(a, b, edits);
            r.pos <= |a| && Transforms(s, a[..r.pos], r.text) && Cost(s) == |edits|
  {
    if edits == [] {
      s := [];
    } else {
      var e, front := edits[|edits| - 1], edits[..|edits| - 1];
      var r := Replay(a, b, front);
      var p := ReplayIsScript(a, b, front);
      s := ScriptStep(a, b, r, e, p);
    }
  }

  lemma CopyStretch(s: seq<Step>, a: string, i: nat, k: nat, text: string)
    requires i <= k <= |a| && Transforms(s, a[..i], text)
    ensures Transforms(s + KeepAll(a[i..k]), a[..k], text + a[i..k])
    ensures Cost(s + KeepAll(a[i..k])) == Cost(s)
  {
    hide Source, Target, Cost, KeepAll;
    KeepAllTransforms(a[i..k]);
    ConcatScripts(s, KeepAll(a[i..k]));
    assert a[..i] + a[i..k] == a[..k];
  }

  lemma ScriptStep(a: string, b: string, r: Replayed, e: Edit, p: seq<Step>) returns (s: seq<Step>)
    requires r.At? && r.pos <= |a| && Transforms(p, a[..r.pos], r.text) && CanApply(a, b, r, e)
    ensures var r' := ApplyEdit(a, b, r, e);
            r'.pos <= |a| && Transforms(s, a[..r'.pos], r'.text) && Cost(s) == Cost(p) + 1
  {
    hide Source, Target, Cost, KeepAll;
    CopyStretch(p, a, r.pos, e.i, r.text);
    var q, x := p + KeepAll(a[r.pos..e.i]), EditStep(a, b, e);
    SnocScript(q, x);
    s := q + [x];
    if !e.op.InsOp? { assert a[..e.i + 1] == a[..e.i] + [a[e.i]]; }
  }

  /** No in-order edit list that turns `a` into `b` is shorter than the distance. */
  lemma EditListsAreLong(a: string, b: string, edits: seq<Edit>)
    requires TurnsInto(a, b, edits)
    ensures Distance(a, b) <= |edits|
  {
    var s := ReplayIsScript(a, b, edits);
    var r := Replay(a, b, edits);
    CopyStretch(s, a, r.pos, |a|, r.text);
    assert a[r.pos..|a|] == a[r.pos..] && a[..|a|] == a;
    DistanceAtMost(a, b, s + KeepAll(a[r.pos..|a|]));
  }

  // ---------------------------------------------------------------- scoring

  function StripLeft(space: char -> bool, s: string): string {
    if s != [] && space(s[0]) then StripLeft(space, s[1..]) else s
  }

  function StripRight(space: char -> bool, s: string): string {
    if s != [] && space(s[|s| - 1]) then StripRight(space, s[..|s| - 1]) else s
  }

  function Strip(space: char -> bool, s: string): string {
    StripRight(space, StripLeft(space, s))
  }

  predicate AllSpace(space: char -> bool, s: string) {
    forall k :: 0 <= k < |s| ==> space(s[k])
  }

  lemma {:induction false} StripLeftCuts(space: char -> bool, s: string)
    ensures var r := StripLeft(space, s);
            && |r| <= |s| && r == s[|s| - |r|..] && AllSpace(space, s[..|s| - |r|])
            && (r != [] ==> !space(r[0]))
  {
    if s != [] && space(s[0]) {
      StripLeftCuts(space, s[1..]);
      var r := StripLeft(space, s);
      assert s[..|s| - |r|] == [s[0]] + s[1..][..|s| - 1 - |r|];
    }
  }

  lemma {:induction false} StripRightCuts(space: char -> bool, s: string)
    ensures var r := StripRight(space, s);
            && |r| <= |s| && r == s[..|r|] && AllSpace(space, s[|r|..])
            && (r != [] ==> !space(r[|r| - 1]))
  {
    if s != [] && space(s[|s| - 1]) {
      StripRightCuts(space, s[..|s| - 1]);
      var r := StripRight(space, s);
      assert s[|r|..] == s[..|s| - 1][|r|..] + [s[|s| - 1]];
    }
  }

  /** Stripping removes white space from both ends and nothing else. */
  lemma StripCuts(space: char -> bool, s: string)
    ensures var r := Strip(space, s);
            && (exists pre, post :: s == pre + r + post && AllSpace(space, pre) && AllSpace(space, post))
            && (r != [] ==> !space(r[0]) && !space(r[|r| - 1]))
  {
    var l, r := StripLeft(space, s), Strip(space, s);
    StripLeftCuts(space, s);
    StripRightCuts(space, l);
    assert s == s[..|s| - |l|] + r + l[|r|..];
  }

  datatype Score = Score(exact: bool, distance: nat, errorPositions: seq<nat>, edits: seq<Edit>, got: string)

  function Positions(edits: seq<Edit>): (r: seq<nat>)
    ensures |r| == |edits| && forall k :: 0 <= k < |r| ==> r[k] == edits[k].i
  {
    seq(|edits|, k requires 0 <= k < |edits| => edits[k].i)
  }

  /** An exact match, a zero distance and an empty edit list are the same thing; the
      reported positions are those of a shortest script. */
  method ScoreResponse(target: string, text: string, space: char -> bool) returns (r: Score)
    ensures r.got == Strip(space, text)
    ensures r.exact <==> r.got == target
    ensures r.exact <==> r.distance == 0
    ensures r.exact <==> r.edits == []
    ensures r.distance == |r.edits| == |r.errorPositions| && TurnsInto(target, r.got, r.edits)
    ensures forall s :: Transforms(s, target, r.got) ==> r.distance <= Cost(s)
    ensures r.errorPositions == Positions(r.edits)
  {
    var got := Strip(space, text);
    var dist, edits := Levenshtein(target, got);
    DistanceIsMetric(target, got, got);
    r := Score(got == target, dist, Positions(edits), edits, got);
  }
}
