/** The greedy-divergence harness: where two generations first differ, the
    length-independence verdict, and the comparison of two captures. */
module Divergence {
  import opened Wrappers

  datatype Verdict = Match | Stable | Accumulating | ObservedLongOnly | Anomalous | HarnessFail

  // --------------------------------------------------------- first divergence

  /** `d` is the first index where the texts differ; absent when they are equal. */
  predicate IsDivergence(a: string, b: string, d: Option<nat>) {
    match d
    case None => a == b
    case Some(i) =>
      && a != b && i <= |a| && i <= |b| && a[..i] == b[..i]
      && (i == |a| || i == |b| || a[i] != b[i])
  }

  method FirstDivergence(a: string, b: string) returns (d: Option<nat>)
    ensures IsDivergence(a, b, d)
  {
    if a == b { return None; }
    var n := if |a| <= |b| then |a| else |b|;
    for i := 0 to n
      invariant a[..i] == b[..i]
    {
      if a[i] != b[i] { return Some(i); }
      assert a[..i + 1] == a[..i] + [a[i]] && b[..i + 1] == b[..i] + [b[i]];
    }
    d := Some(n);
  }

  /** There is only one first divergence. */
  lemma DivergenceUnique(a: string, b: string, d: Option<nat>, d': Option<nat>)
    requires IsDivergence(a, b, d) && IsDivergence(a, b, d')
    ensures d == d'
  {
    if d.Some? && d'.Some? {
      var i, j := d.value, d'.value;
      NotBefore(a, b, i, j);
      NotBefore(a, b, j, i);
    }
  }

  /** Texts that agree up to `j` have no divergence before it. */
  lemma NotBefore(a: string, b: string, i: nat, j: nat)
    requires IsDivergence(a, b, Some(i)) && j <= |a| && j <= |b| && a[..j] == b[..j]
    ensures j <= i
  {
    forall k | 0 <= k < j ensures a[k] == b[k] {
      assert a[k] == a[..j][k] == b[..j][k] == b[k];
    }
  }

  // ----------------------------------------------------------------- verdicts

  function Classify(short: Option<nat>, long: Option<nat>, horizon: nat): Verdict {
    if short.None? && long.None? then Match
    else if short.Some? && long.Some? then
      if short.value == long.value then Stable
      else if long.value < short.value then Accumulating
      else Anomalous
    else if short.None? then
      if long.value >= horizon then ObservedLongOnly else Anomalous
    else Anomalous
  }

  function Shorter(a: string, b: string): nat {
    if |a| <= |b| then |a| else |b|
  }

  /** One server is self-consistent: its short text begins its long text. */
  predicate Consistent(short: string, long: string) {
    short <= long
  }

  /** One short text is a strict prefix of the other, and the long texts agree past its end. */
  predicate CutShort(aS: string, bS: string, aL: string, bL: string) {
    var n := Shorter(aS, bS);
    && aS != bS && (aS <= bS || bS <= aS)
    && n < |aL| && n < |bL| && aL[n] == bL[n]
  }

  /** For two self-consistent servers the verdict is never ACCUMULATING, and it is ANOMALOUS
      exactly when one short text is a strict prefix of the other whose longer runs agree
      one character further. */
  lemma ConsistentVerdicts(aS: string, bS: string, aL: string, bL: string,
                           dS: Option<nat>, dL: Option<nat>)
    requires Consistent(aS, aL) && Consistent(bS, bL)
    requires IsDivergence(aS, bS, dS) && IsDivergence(aL, bL, dL)
    ensures var v := Classify(dS, dL, Shorter(aS, bS));
            && v != Accumulating && v != HarnessFail
            && (v == Anomalous <==> CutShort(aS, bS, aL, bL))
  {
    if dS.Some? {
      var i := dS.value;
      assert aL[..i] == aS[..i] && bL[..i] == bS[..i];
      if dL.Some? {
        NotBefore(aL, bL, dL.value, i);
      }
      ShortDivergence(aS, bS, aL, bL, i);
      if dL.Some? && CutShort(aS, bS, aL, bL) {
        LongAgreesAt(aL, bL, i);
        NotBefore(aL, bL, dL.value, i + 1);
      }
    } else {
      var n := |aS|;
      assert aL[..n] == aS && bL[..n] == bS;
      if dL.Some? { NotBefore(aL, bL, dL.value, n); }
    }
  }

  lemma LongAgreesAt(a: string, b: string, i: nat)
    requires i < |a| && i < |b| && a[..i] == b[..i] && a[i] == b[i]
    ensures a[..i + 1] == b[..i + 1]
  {
    assert a[..i + 1] == a[..i] + [a[i]] && b[..i + 1] == b[..i] + [b[i]];
  }

  /** A divergence inside both short texts, or at the end of a strict prefix. */
  lemma ShortDivergence(aS: string, bS: string, aL: string, bL: string, i: nat)
    requires Consistent(aS, aL) && Consistent(bS, bL) && IsDivergence(aS, bS, Some(i))
    ensures (aS <= bS || bS <= aS) <==> i == Shorter(aS, bS)
    ensures i < Shorter(aS, bS) ==> i < |aL| && i < |bL| && aL[i] != bL[i]
  {
    var n := Shorter(aS, bS);
    if i == n {
      assert aS[..|aS|] == aS && bS[..|bS|] == bS;
    } else {
      assert aS[i] != bS[i];
    }
  }

  /** The documented claim, for texts neither of which is a strict prefix of the other. */
  lemma DeterministicVerdicts(aS: string, bS: string, aL: string, bL: string,
                              dS: Option<nat>, dL: Option<nat>)
    requires Consistent(aS, aL) && Consistent(bS, bL) && !(aS < bS) && !(bS < aS)
    requires IsDivergence(aS, bS, dS) && IsDivergence(aL, bL, dL)
    ensures Classify(dS, dL, Shorter(aS, bS)) in {Match, Stable, ObservedLongOnly}
  {
    ConsistentVerdicts(aS, bS, aL, bL, dS, dL);
  }

  /** Without that condition the claim fails: self-consistent servers can be ANOMALOUS. */
  lemma DeterminismIsNotEnough()
    ensures exists aS, bS, aL, bL, dS, dL ::
              && Consistent(aS, aL) && Consistent(bS, bL)
              && IsDivergence(aS, bS, dS) && IsDivergence(aL, bL, dL)
              && Classify(dS, dL, Shorter(aS, bS)) == Anomalous
  {
    var aS, bS, aL, bL := "x", "xy", "xy", "xy";
    assert Consistent(aS, aL) && Consistent(bS, bL);
    assert aS[..1] == bS[..1];
    assert IsDivergence(aS, bS, Some(1)) && IsDivergence(aL, bL, None);
    assert Classify(Some(1), None, Shorter(aS, bS)) == Anomalous;
  }

  // -------------------------------------------------------------------- cells

  datatype Entry = Entry(prompt: string, depth: nat, gen: nat, ok: bool, text: string, sha: string)

  datatype Side = A | B

  datatype Note =
    | Missing(side: Side, gen: nat)
    | BadStatus(side: Side, gen: nat)
    | EmptyText(side: Side, gen: nat)
    | ShaMismatch(gen: nat)
    | Warn(side: Side)

  datatype Cell = Cell(verdict: Verdict, short: Option<nat>, long: Option<nat>, notes: seq<Note>)

  predicate UsableEntry(es: map<nat, Entry>, gen: nat) {
    gen in es && es[gen].ok && es[gen].text != ""
  }

  predicate UsableAt(a: map<nat, Entry>, b: map<nat, Entry>, gen: nat) {
    UsableEntry(a, gen) && UsableEntry(b, gen) && a[gen].sha == b[gen].sha
  }

  /** The checks of one side at one generation length. */
  function SideNotes(side: Side, es: map<nat, Entry>, gen: nat): (r: seq<Note>)
    ensures r == [] <==> UsableEntry(es, gen)
    ensures forall n :: n in r ==> !n.Warn?
  {
    if gen !in es then [Missing(side, gen)]
    else if !es[gen].ok then [BadStatus(side, gen)]
    else if es[gen].text == "" then [EmptyText(side, gen)]
    else []
  }

  /** What a cell says of its four texts: the verdict of their divergences, and a warning
      for exactly the sides that are not self-consistent. */
  predicate Reports(aS: string, bS: string, aL: string, bL: string, c: Cell) {
    && IsDivergence(aS, bS, c.short) && IsDivergence(aL, bL, c.long)
    && c.verdict == Classify(c.short, c.long, Shorter(aS, bS))
    && (Warn(A) in c.notes <==> !Consistent(aS, aL))
    && (Warn(B) in c.notes <==> !Consistent(bS, bL))
  }

  /** The texts first differ at `i`: there they hold different characters, or one ends. */
  predicate DifferFirstAt(a: string, b: string, i: nat) {
    && a != b && i <= |a| && i <= |b|
    && (forall k :: 0 <= k < i ==> a[k] == b[k])
    && (i < |a| && i < |b| ==> a[i] != b[i])
  }

  lemma FirstDifference(a: string, b: string, d: Option<nat>)
    requires IsDivergence(a, b, d)
    ensures d.None? <==> a == b
    ensures forall i: nat :: DifferFirstAt(a, b, i) <==> d == Some(i)
  {
    forall i: nat ensures DifferFirstAt(a, b, i) <==> d == Some(i) {
      if d == Some(i) {
        assert forall k :: 0 <= k < i ==> a[..i][k] == b[..i][k];
      }
      if DifferFirstAt(a, b, i) {
        assert a[..i] == b[..i];
        DivergenceUnique(a, b, d, Some(i));
      }
    }
  }

  /** What each verdict says of the four texts, for all texts. */
  lemma VerdictMeaning(aS: string, bS: string, aL: string, bL: string, c: Cell)
    requires Reports(aS, bS, aL, bL, c)
    ensures c.verdict == Match <==> aS == bS && aL == bL
    ensures c.verdict == Stable <==> exists i: nat :: DifferFirstAt(aS, bS, i) && DifferFirstAt(aL, bL, i)
    ensures c.verdict == Accumulating <==>
              exists i: nat, j: nat :: j < i && DifferFirstAt(aS, bS, i) && DifferFirstAt(aL, bL, j)
    ensures c.verdict == ObservedLongOnly <==>
              && aS == bS && aL != bL && |aS| <= |aL| && |aS| <= |bL|
              && forall k :: 0 <= k < |aS| ==> aL[k] == bL[k]
    ensures c.verdict == Anomalous <==>
              || (exists i: nat, j: nat :: i < j && DifferFirstAt(aS, bS, i) && DifferFirstAt(aL, bL, j))
              || (aS != bS && aL == bL)
              || (aS == bS && exists j: nat :: j < |aS| && DifferFirstAt(aL, bL, j))
    ensures c.verdict != HarnessFail
  {
    FirstDifference(aS, bS, c.short);
    FirstDifference(aL, bL, c.long);
    if aL != bL { AgreeUpTo(aL, bL, c.long.value, |aS|); }
    hide IsDivergence;
    if c.short.Some? { assert DifferFirstAt(aS, bS, c.short.value); }
    if c.long.Some? { assert DifferFirstAt(aL, bL, c.long.value); }
    hide DifferFirstAt;
  }

  lemma AgreeUpTo(a: string, b: string, d: nat, n: nat)
    requires DifferFirstAt(a, b, d)
    ensures d >= n <==> n <= |a| && n <= |b| && forall k :: 0 <= k < n ==> a[k] == b[k]
  {
    if d < n && n <= |a| && n <= |b| { assert a[d] != b[d]; }
  }

  /** A cell that reports ACCUMULATING carries a warning. */
  lemma AccumulatingIsWarned(aS: string, bS: string, aL: string, bL: string, c: Cell)
    requires Reports(aS, bS, aL, bL, c) && c.verdict == Accumulating
    ensures Warn(A) in c.notes || Warn(B) in c.notes
  {
    if Consistent(aS, aL) && Consistent(bS, bL) {
      ConsistentVerdicts(aS, bS, aL, bL, c.short, c.long);
    }
  }

  /** A cell of two rows: failed, with a reason, when an entry is unusable, else what the
      texts say. */
  predicate IsCell(a: map<nat, Entry>, b: map<nat, Entry>, gShort: nat, gLong: nat, c: Cell) {
    if !UsableAt(a, b, gShort) || !UsableAt(a, b, gLong) then c.verdict == HarnessFail && c.notes != []
    else
      && c.verdict != HarnessFail
      && Reports(a[gShort].text, b[gShort].text, a[gLong].text, b[gLong].text, c)
  }

  /** One (prompt, depth) cell. Any unusable entry is a harness failure; otherwise the
      verdict is the one of the four texts, and a side is warned about exactly when it is
      not self-consistent. */
  method DiffCell(a: map<nat, Entry>, b: map<nat, Entry>, gShort: nat, gLong: nat) returns (c: Cell)
    ensures IsCell(a, b, gShort, gLong, c)
    ensures c.verdict == Accumulating ==> Warn(A) in c.notes || Warn(B) in c.notes
  {
    var notes: seq<Note>, usable := [], true;
    var gens := [gShort, gLong];
    for i := 0 to 2
      invariant usable <==> forall k :: 0 <= k < i ==> UsableAt(a, b, gens[k])
      invariant usable <==> notes == []
      invariant forall n :: n in notes ==> !n.Warn?
    {
      var gen := gens[i];
      var found := SideNotes(A, a, gen) + SideNotes(B, b, gen);
      if gen in a && gen in b && a[gen].sha != b[gen].sha {
        found := found + [ShaMismatch(gen)];
      }
      notes := notes + found;
      usable := usable && found == [];
    }
    assert UsableAt(a, b, gens[0]) == UsableAt(a, b, gShort) && UsableAt(a, b, gens[1]) == UsableAt(a, b, gLong);
    if !usable { return Cell(HarnessFail, None, None, notes); }
    var aS, bS, aL, bL := a[gShort].text, b[gShort].text, a[gLong].text, b[gLong].text;
    var dS := FirstDivergence(aS, bS);
    var dL := FirstDivergence(aL, bL);
    var v := Classify(dS, dL, Shorter(aS, bS));
    if !Consistent(aS, aL) { notes := notes + [Warn(A)]; }
    if !Consistent(bS, bL) { notes := notes + [Warn(B)]; }
    c := Cell(v, dS, dL, notes);
    if v == Accumulating { AccumulatingIsWarned(aS, bS, aL, bL, c); }
  }

  // ----------------------------------------------------------------- captures

  type Key = (string, nat)

  function KeyOf(e: Entry): Key {
    (e.prompt, e.depth)
  }

  /** The last entry for a key and generation length. */
  function Lookup(es: seq<Entry>, key: Key, gen: nat): Option<Entry> {
    if es == [] then None
    else
      var e := es[|es| - 1];
      if KeyOf(e) == key && e.gen == gen then Some(e) else Lookup(es[..|es| - 1], key, gen)
  }

  function Row(idx: map<Key, map<nat, Entry>>, key: Key): map<nat, Entry> {
    if key in idx then idx[key] else map[]
  }

  function Get(m: map<nat, Entry>, gen: nat): Option<Entry> {
    if gen in m then Some(m[gen]) else None
  }

  ghost predicate IndexOf(es: seq<Entry>, idx: map<Key, map<nat, Entry>>) {
    forall key, gen :: Get(Row(idx, key), gen) == Lookup(es, key, gen)
  }

  /** Entries by key and generation length; a later entry replaces an earlier one. */
  method IndexEntries(es: seq<Entry>) returns (idx: map<Key, map<nat, Entry>>)
    ensures IndexOf(es, idx)
    ensures idx.Keys == Keys(es)
  {
    idx := map[];
    for i := 0 to |es|
      invariant IndexOf(es[..i], idx)
      invariant idx.Keys == Keys(es[..i])
    {
      var e := es[i];
      assert es[..i + 1] == es[..i] + [e];
      assert es[..i + 1][..i] == es[..i];
      idx := idx[KeyOf(e) := Row(idx, KeyOf(e))[e.gen := e]];
    }
    assert es[..|es|] == es;
  }

  function Gens(es: seq<Entry>): set<nat> {
    set e | e in es :: e.gen
  }

  function Keys(es: seq<Entry>): set<Key> {
    set e | e in es :: KeyOf(e)
  }

  datatype Counts = Counts(total: nat, match_: nat, stable: nat, accumulating: nat, failures: nat)

  datatype Report = Report(cells: map<Key, Cell>, counts: Counts, exit: nat)

  /** Folds one verdict into the counts: divergence without length dependence is stable, and
      ANOMALOUS is counted with ACCUMULATING. */
  function Tally(c: Counts, v: Verdict): Counts {
    var c := c.(total := c.total + 1);
    match v
    case Match => c.(match_ := c.match_ + 1)
    case Stable => c.(stable := c.stable + 1)
    case ObservedLongOnly => c.(stable := c.stable + 1)
    case Accumulating => c.(accumulating := c.accumulating + 1)
    case Anomalous => c.(accumulating := c.accumulating + 1)
    case HarnessFail => c.(failures := c.failures + 1)
  }

  ghost predicate GenPair(es: seq<Entry>, short: nat, long: nat) {
    short < long && Gens(es) == {short, long}
  }

  /** Two generation lengths, the same in both captures. */
  ghost predicate Comparable(a: seq<Entry>, b: seq<Entry>) {
    Gens(a) == Gens(b) && exists s, l :: GenPair(a, s, l)
  }

  predicate Benign(v: Verdict) {
    v == Match || v == Stable || v == ObservedLongOnly
  }

  predicate EntryUsable(e: Option<Entry>) {
    e.Some? && e.value.ok && e.value.text != ""
  }

  predicate CellUsable(a: seq<Entry>, b: seq<Entry>, key: Key, gen: nat) {
    var x, y := Lookup(a, key, gen), Lookup(b, key, gen);
    EntryUsable(x) && EntryUsable(y) && x.value.sha == y.value.sha
  }

  /** What the cell of a key says about the two captures. */
  predicate CellOk(a: seq<Entry>, b: seq<Entry>, key: Key, s: nat, l: nat, c: Cell) {
    && (c.verdict == HarnessFail <==> !CellUsable(a, b, key, s) || !CellUsable(a, b, key, l))
    && (c.verdict == HarnessFail ==> c.notes != [])
    && (c.verdict == Accumulating ==> Warn(A) in c.notes || Warn(B) in c.notes)
    && (c.verdict != HarnessFail ==>
          Reports(Lookup(a, key, s).value.text, Lookup(b, key, s).value.text,
                  Lookup(a, key, l).value.text, Lookup(b, key, l).value.text, c))
  }

  /** The keys of `done` whose verdict is one of `vs`. */
  function WithVerdict(cells: map<Key, Cell>, done: set<Key>, vs: set<Verdict>): set<Key>
    requires done <= cells.Keys
  {
    set k | k in done && cells[k].verdict in vs
  }

  /** Each count is the number of cells with its verdicts. */
  predicate CountsOk(cells: map<Key, Cell>, done: set<Key>, c: Counts)
    requires done <= cells.Keys
  {
    && c.total == c.match_ + c.stable + c.accumulating + c.failures == |done|
    && c.match_ == |WithVerdict(cells, done, {Match})|
    && c.stable == |WithVerdict(cells, done, {Stable, ObservedLongOnly})|
    && c.accumulating == |WithVerdict(cells, done, {Accumulating, Anomalous})|
    && c.failures == |WithVerdict(cells, done, {HarnessFail})|
  }

  lemma WithVerdictStep(cells: map<Key, Cell>, done: set<Key>, k: Key, vs: set<Verdict>)
    requires done <= cells.Keys && k in cells && k !in done
    ensures |WithVerdict(cells, done + {k}, vs)|
         == |WithVerdict(cells, done, vs)| + if cells[k].verdict in vs then 1 else 0
  {
    var before, after := WithVerdict(cells, done, vs), WithVerdict(cells, done + {k}, vs);
    assert after == if cells[k].verdict in vs then before + {k} else before;
  }

  /** A count is zero exactly when no cell has its verdicts. */
  lemma NoneWithVerdict(cells: map<Key, Cell>, vs: set<Verdict>)
    ensures |WithVerdict(cells, cells.Keys, vs)| == 0 <==> forall k :: k in cells ==> cells[k].verdict !in vs
  {
    var w := WithVerdict(cells, cells.Keys, vs);
    if |w| == 0 {
      forall k | k in cells ensures cells[k].verdict !in vs { assert k !in w; }
    }
    if forall k :: k in cells ==> cells[k].verdict !in vs { assert w == {}; }
  }

  lemma PairSize(s: nat, l: nat)
    ensures s < l ==> |{s, l}| == 2
  {
  }

  /** The two lengths in order, when there are exactly two. */
  method SortedGens(es: seq<Entry>) returns (r: Option<(nat, nat)>)
    ensures r.Some? ==> GenPair(es, r.value.0, r.value.1)
    ensures r.None? ==> forall s, l :: !GenPair(es, s, l)
  {
    var gens := Gens(es);
    if |gens| != 2 {
      forall s: nat, l: nat ensures !GenPair(es, s, l) {
        PairSize(s, l);
      }
      return None;
    }
    var x :| x in gens;
    assert |gens - {x}| == 1;
    var y :| y in gens - {x};
    assert |gens - {x} - {y}| == 0;
    assert gens == {x, y};
    r := Some(if x < y then (x, y) else (y, x));
  }

  predicate ReportOk(a: seq<Entry>, b: seq<Entry>, s: nat, l: nat, r: Report) {
    && r.cells.Keys == Keys(a) + Keys(b)
    && (forall k :: k in r.cells ==> CellOk(a, b, k, s, l, r.cells[k]))
    && CountsOk(r.cells, r.cells.Keys, r.counts)
    && (r.exit == 0 <==> forall k :: k in r.cells ==> Benign(r.cells[k].verdict))
    && (r.exit == 2 <==> exists k :: k in r.cells && r.cells[k].verdict == HarnessFail)
    && r.exit in {0, 2, 3}
  }

  /** The comparison. Exit 0 exactly when every cell is benign; a harness failure anywhere is
      exit 2, and otherwise length dependence anywhere is exit 3. */
  method DiffCaptures(a: seq<Entry>, b: seq<Entry>) returns (r: Option<Report>)
    ensures r.None? <==> !Comparable(a, b)
    ensures r.Some? ==> forall s, l :: GenPair(a, s, l) ==> ReportOk(a, b, s, l, r.value)
  {
    hide Lookup, CellOk, IndexOf, CountsOk, ReportOk;
    if Gens(a) != Gens(b) { return None; }
    var pair := SortedGens(a);
    if pair.None? { return None; }
    var (s, l) := pair.value;
    var idxA := IndexEntries(a);
    var idxB := IndexEntries(b);
    var cells := DiffCells(a, b, idxA, idxB, s, l);
    var counts := CountCells(cells);
    var exit := if counts.failures > 0 then 2 else if counts.accumulating > 0 then 3 else 0;
    r := Some(Report(cells, counts, exit));
    Assemble(a, b, s, l, cells, counts, exit);
    GenPairUnique(a, s, l);
  }

  lemma Assemble(a: seq<Entry>, b: seq<Entry>, s: nat, l: nat,
                 cells: map<Key, Cell>, counts: Counts, exit: nat)
    requires cells.Keys == Keys(a) + Keys(b) && CountsOk(cells, cells.Keys, counts)
    requires forall k :: k in cells ==> CellOk(a, b, k, s, l, cells[k])
    requires exit == if counts.failures > 0 then 2 else if counts.accumulating > 0 then 3 else 0
    ensures ReportOk(a, b, s, l, Report(cells, counts, exit))
  {
    hide CellOk;
    ExitMeaning(cells, counts, exit);
  }

  lemma ExitMeaning(cells: map<Key, Cell>, counts: Counts, exit: nat)
    requires CountsOk(cells, cells.Keys, counts)
    requires exit == if counts.failures > 0 then 2 else if counts.accumulating > 0 then 3 else 0
    ensures exit == 0 <==> forall k :: k in cells ==> Benign(cells[k].verdict)
    ensures exit == 2 <==> exists k :: k in cells && cells[k].verdict == HarnessFail
  {
    NoneWithVerdict(cells, {HarnessFail});
    NoneWithVerdict(cells, {Accumulating, Anomalous});
    assert forall k :: k in cells ==>
             var v := cells[k].verdict;
             Benign(v) <==> v != HarnessFail && v != Accumulating && v != Anomalous;
  }

  /** Every cell matches exactly when the other counts are zero. */
  lemma AllMatch(cells: map<Key, Cell>, c: Counts)
    requires CountsOk(cells, cells.Keys, c)
    ensures c.match_ == c.total <==> forall k :: k in cells ==> cells[k].verdict == Match
  {
    NoneWithVerdict(cells, {Stable, ObservedLongOnly});
    NoneWithVerdict(cells, {Accumulating, Anomalous});
    NoneWithVerdict(cells, {HarnessFail});
    if c.match_ == c.total {
      forall k | k in cells ensures cells[k].verdict == Match {
        assert cells[k].verdict !in {Stable, ObservedLongOnly};
        assert cells[k].verdict !in {Accumulating, Anomalous};
        assert cells[k].verdict !in {HarnessFail};
      }
    }
  }

  lemma GenPairUnique(es: seq<Entry>, s: nat, l: nat)
    requires GenPair(es, s, l)
    ensures forall s': nat, l': nat :: GenPair(es, s', l') ==> s' == s && l' == l
  {
    forall s': nat, l': nat | GenPair(es, s', l') ensures s' == s && l' == l {
      assert s in {s', l'} && l in {s', l'};
    }
  }

  method DiffCells(a: seq<Entry>, b: seq<Entry>, idxA: map<Key, map<nat, Entry>>,
                   idxB: map<Key, map<nat, Entry>>, s: nat, l: nat) returns (cells: map<Key, Cell>)
    requires IndexOf(a, idxA) && IndexOf(b, idxB)
    ensures cells.Keys == idxA.Keys + idxB.Keys
    ensures forall k :: k in cells ==> CellOk(a, b, k, s, l, cells[k])
  {
    hide Lookup, CellOk, IsCell, IndexOf;
    cells := map[];
    var all := idxA.Keys + idxB.Keys;
    while cells.Keys != all
      invariant cells.Keys <= all
      invariant forall k :: k in cells ==> CellOk(a, b, k, s, l, cells[k])
      decreases |all - cells.Keys|
    {
      var k :| k in all && k !in cells;
      var c := DiffCell(Row(idxA, k), Row(idxB, k), s, l);
      CellMeaning(a, b, idxA, idxB, k, s, l, c);
      ghost var rest := all - cells.Keys;
      cells := cells[k := c];
      assert all - cells.Keys == rest - {k};
    }
  }

  lemma RowMeaning(a: seq<Entry>, b: seq<Entry>, rowA: map<nat, Entry>, rowB: map<nat, Entry>,
                   key: Key, gen: nat)
    requires Get(rowA, gen) == Lookup(a, key, gen) && Get(rowB, gen) == Lookup(b, key, gen)
    ensures UsableAt(rowA, rowB, gen) <==> CellUsable(a, b, key, gen)
    ensures gen in rowA ==> Lookup(a, key, gen) == Some(rowA[gen])
    ensures gen in rowB ==> Lookup(b, key, gen) == Some(rowB[gen])
  {
  }

  lemma CellMeaning(a: seq<Entry>, b: seq<Entry>, idxA: map<Key, map<nat, Entry>>,
                    idxB: map<Key, map<nat, Entry>>, key: Key, s: nat, l: nat, c: Cell)
    requires IndexOf(a, idxA) && IndexOf(b, idxB)
    requires IsCell(Row(idxA, key), Row(idxB, key), s, l, c)
    ensures CellOk(a, b, key, s, l, c)
  {
    hide Lookup, Reports;
    var rowA, rowB := Row(idxA, key), Row(idxB, key);
    RowMeaning(a, b, rowA, rowB, key, s);
    RowMeaning(a, b, rowA, rowB, key, l);
    if c.verdict == Accumulating {
      AccumulatingIsWarned(rowA[s].text, rowB[s].text, rowA[l].text, rowB[l].text, c);
    }
  }

  lemma TallyStep(cells: map<Key, Cell>, done: set<Key>, c: Counts, k: Key)
    requires done <= cells.Keys && k in cells && k !in done && CountsOk(cells, done, c)
    ensures CountsOk(cells, done + {k}, Tally(c, cells[k].verdict))
  {
    hide WithVerdict;
    var v := cells[k].verdict;
    assert |done + {k}| == |done| + 1;
    WithVerdictStep(cells, done, k, {Match});
    WithVerdictStep(cells, done, k, {Stable, ObservedLongOnly});
    WithVerdictStep(cells, done, k, {Accumulating, Anomalous});
    WithVerdictStep(cells, done, k, {HarnessFail});
  }

  method CountCells(cells: map<Key, Cell>) returns (c: Counts)
    ensures CountsOk(cells, cells.Keys, c)
  {
    c := Counts(0, 0, 0, 0, 0);
    var todo := cells.Keys;
    ghost var done: set<Key> := {};
    assert forall vs :: WithVerdict(cells, done, vs) == {};
    while todo != {}
      invariant todo !! done && todo + done == cells.Keys && CountsOk(cells, done, c)
      decreases |todo|
    {
      hide CountsOk, Tally;
      var k :| k in todo;
      TallyStep(cells, done, c, k);
      c := Tally(c, cells[k].verdict);
      todo, done := todo - {k}, done + {k};
    }
    assert done == cells.Keys;
  }

  /** A capture against itself: exit 0 exactly when the capture has two generation lengths
      and every cell holds usable entries at both. */
  method SelfCheck(cap: seq<Entry>) returns (exit: nat)
    ensures exit == 0 || exit == 2
    ensures exit == 0 <==> exists s, l :: GenPair(cap, s, l) && AllUsable(cap, s, l)
  {
    hide Lookup, CellOk;
    var r := DiffCaptures(cap, cap);
    if r.None? { return 2; }
    var counts, cells := r.value.counts, r.value.cells;
    ghost var s, l :| GenPair(cap, s, l);
    assert ReportOk(cap, cap, s, l, r.value);
    GenPairUnique(cap, s, l);
    SelfCells(cap, s, l, cells);
    AllMatch(cells, counts);
    HasCells(cap, s, l, cells);
    exit := if counts.match_ == counts.total && counts.total > 0 then 0 else 2;
  }

  lemma HasCells(cap: seq<Entry>, s: nat, l: nat, cells: map<Key, Cell>)
    requires GenPair(cap, s, l) && cells.Keys == Keys(cap)
    ensures |cells.Keys| > 0
  {
    assert s in Gens(cap);
    var e :| e in cap && e.gen == s;
    assert KeyOf(e) in cells.Keys;
  }

  ghost predicate AllUsable(cap: seq<Entry>, s: nat, l: nat) {
    forall k :: k in Keys(cap) ==> EntryUsable(Lookup(cap, k, s)) && EntryUsable(Lookup(cap, k, l))
  }

  /** Identity comparison cannot diverge. */
  lemma SelfCells(cap: seq<Entry>, s: nat, l: nat, cells: map<Key, Cell>)
    requires cells.Keys == Keys(cap)
    requires forall k :: k in cells ==> CellOk(cap, cap, k, s, l, cells[k])
    ensures forall k :: k in cells ==> cells[k].verdict == Match || cells[k].verdict == HarnessFail
    ensures (forall k :: k in cells ==> cells[k].verdict == Match) <==> AllUsable(cap, s, l)
  {
    forall k | k in cells
      ensures cells[k].verdict == Match || cells[k].verdict == HarnessFail
      ensures cells[k].verdict == Match <==>
                EntryUsable(Lookup(cap, k, s)) && EntryUsable(Lookup(cap, k, l))
    {
      assert CellOk(cap, cap, k, s, l, cells[k]);
    }
  }
}
