/**
 * What the walk of get_results guarantees.  The central fact is a
 * conservation law: whatever the walk adds to the totals is either recorded
 * in one of the three count arrays (so the totals are the counts weighted by
 * the table entries) or is one of the initiation terms, which are not
 * counted.
 */
module WalkProperties {
  import opened Wrappers
  import opened Faults
  import opened Sequences
  import opened Tables
  import opened Settings
  import opened Walk

  /** The part of a total that the count arrays do not account for. */
  function Excess(t: Totals, p: Params, q: Quantity): real
    requires t.WellSized()
  {
    t.Amount(q) - Dot(t.crick, p.nn.data, q) - Dot(t.mismatch, p.mm.data, q) - Dot(t.dangends, p.de.data, q)
  }

  lemma ExcessOfZero(p: Params, q: Quantity)
    ensures Zero().WellSized() && Excess(Zero(), p, q) == 0.0
  {
    DotZero(NB, p.nn.data, q);
    DotZero(NB, p.mm.data, q);
    DotZero(NB, p.de.data, q);
  }

  /** Counting a regular step and adding its parameters leaves the excess alone. */
  lemma ExcessCountCrick(t: Totals, p: Params, j: nat, q: Quantity)
    requires t.WellSized() && j < NB
    ensures Excess(t.CountCrick(j).Plus(p.nn.data[j]), p, q) == Excess(t, p, q)
  {
    DotBump(t.crick, p.nn.data, q, j);
  }

  /** Counting a mismatch and adding its parameters leaves the excess alone. */
  lemma ExcessCountMismatch(t: Totals, p: Params, j: nat, q: Quantity)
    requires t.WellSized() && j < NB
    ensures Excess(t.CountMismatch(j).Plus(p.mm.data[j]), p, q) == Excess(t, p, q)
  {
    DotBump(t.mismatch, p.mm.data, q, j);
  }

  /** Counting a dangling end and adding its parameters leaves the excess alone. */
  lemma ExcessCountDangling(t: Totals, p: Params, j: nat, q: Quantity)
    requires t.WellSized() && j < NB
    ensures Excess(t.Plus(p.de.data[j]).CountDangling(j), p, q) == Excess(t, p, q)
  {
    DotBump(t.dangends, p.de.data, q, j);
  }

  /**
   * The dangling-end search adds and counts every entry from slot `k` on
   * whose code names the window at `at`, reports whether there was one, and
   * changes nothing else.
   */
  lemma {:induction false} DanglingScanCounts(p: Params, at: int, k: nat, t: Totals, found: bool)
    requires k <= NBDE && t.WellSized()
    requires DanglingScan(p, at, k, t, found).Success?
    ensures var (t', f) := DanglingScan(p, at, k, t, found).value;
      && t'.WellSized() && t'.crick == t.crick && t'.mismatch == t.mismatch
      && (forall j :: 0 <= j < NB ==>
            t'.dangends[j] == t.dangends[j] +
              (if k <= j < NBDE && NamesPair(p.de.data[j], p.sequence, p.complement, at) then 1 else 0))
      && (f <==> found || exists j :: k <= j < NBDE && NamesPair(p.de.data[j], p.sequence, p.complement, at))
      && (forall q :: Excess(t', p, q) == Excess(t, p, q))
    decreases NBDE - k
  {
    if k < NBDE {
      var e := p.de.data[k];
      var hit := PairHit(e, p.sequence, p.complement, at).value;
      if hit {
        var t1 := t.Plus(e).CountDangling(k);
        DanglingScanCounts(p, at, k + 1, t1, true);
        forall q ensures Excess(t1, p, q) == Excess(t, p, q) {
          ExcessCountDangling(t, p, k, q);
        }
      } else {
        DanglingScanCounts(p, at, k + 1, t, found);
      }
    }
  }

  /**
   * The regular search adds and counts every entry from slot `j` on whose
   * code names the step at `i`; when none does, the step contributes nothing.
   */
  lemma {:induction false} RegularScanCounts(p: Params, i: int, j: nat, t: Totals)
    requires j <= NBNN && t.WellSized()
    requires RegularScan(p, i, j, t).Success?
    ensures var t' := RegularScan(p, i, j, t).value;
      && t'.WellSized() && t'.mismatch == t.mismatch && t'.dangends == t.dangends
      && (forall m :: 0 <= m < NB ==>
            t'.crick[m] == t.crick[m] + (if j <= m < NBNN && NamesStep(p.nn.data[m], p.sequence, i) then 1 else 0))
      && (forall q :: Excess(t', p, q) == Excess(t, p, q))
      && ((forall m :: j <= m < NBNN ==> !NamesStep(p.nn.data[m], p.sequence, i)) ==> t' == t)
    decreases NBNN - j
  {
    if j < NBNN {
      var e := p.nn.data[j];
      var hit := StepHit(e, p.sequence, i).value;
      if hit {
        var t1 := t.CountCrick(j).Plus(e);
        RegularScanCounts(p, i, j + 1, t1);
        forall q ensures Excess(t1, p, q) == Excess(t, p, q) {
          ExcessCountCrick(t, p, j, q);
        }
      } else {
        RegularScanCounts(p, i, j + 1, t);
      }
    }
  }

  /** Slot `f` holds the first mismatch entry from slot `j` on that names the window at `i`. */
  predicate FirstPairFrom(p: Params, i: int, j: nat, f: nat) {
    j <= f < NBMM && NamesPair(p.mm.data[f], p.sequence, p.complement, i) &&
    forall m :: j <= m < f ==> !NamesPair(p.mm.data[m], p.sequence, p.complement, i)
  }

  /**
   * The mismatch search counts the first entry naming the window, even an
   * undefined one, and adds it only when it is defined; with no such entry
   * nothing changes and the mismatch stays unresolved.
   */
  lemma {:induction false} MismatchScanFirst(p: Params, i: int, j: nat, t: Totals)
    requires j <= NBMM && t.WellSized()
    requires MismatchScan(p, i, j, t).Success?
    ensures var (t', unresolved) := MismatchScan(p, i, j, t).value;
      && t'.WellSized() && t'.crick == t.crick && t'.dangends == t.dangends
      && ((forall m :: j <= m < NBMM ==> !NamesPair(p.mm.data[m], p.sequence, p.complement, i)) ==> t' == t && unresolved)
      && (forall f: nat :: FirstPairFrom(p, i, j, f) ==>
            && t'.mismatch == t.mismatch[f := t.mismatch[f] + 1]
            && (unresolved <==> p.mm.data[f].enthalpy == UNDEFINED_ENTHALPY)
            && (unresolved ==> t'.enthalpy == t.enthalpy && t'.entropy == t.entropy)
            && (!unresolved ==> t'.enthalpy == t.enthalpy + p.mm.data[f].enthalpy &&
                                t'.entropy == t.entropy + p.mm.data[f].entropy))
      && (!unresolved ==> forall q :: Excess(t', p, q) == Excess(t, p, q))
    decreases NBMM - j
  {
    if j < NBMM {
      var e := p.mm.data[j];
      var hit := PairHit(e, p.sequence, p.complement, i).value;
      if !hit {
        MismatchScanFirst(p, i, j + 1, t);
        forall f: nat | FirstPairFrom(p, i, j, f) ensures FirstPairFrom(p, i, j + 1, f) {
        }
      } else {
        forall f: nat | FirstPairFrom(p, i, j, f) ensures f == j {
        }
        if e.enthalpy != UNDEFINED_ENTHALPY {
          forall q ensures Excess(t.CountMismatch(j).Plus(e), p, q) == Excess(t, p, q) {
            ExcessCountMismatch(t, p, j, q);
          }
        }
      }
    }
  }

  /**
   * A dangling end moves its offset by exactly one, and every dangling-end
   * entry naming its window is added and counted; without a gap nothing
   * changes and the offset stays zero.
   */
  lemma DanglingEndOffset(p: Params, gap: bool, at: int, t: Totals)
    requires t.WellSized() && DanglingEnd(p, gap, at, t).Success?
    ensures var (t', offset) := DanglingEnd(p, gap, at, t).value;
      && offset == (if gap then 1 else 0)
      && t'.WellSized() && t'.crick == t.crick && t'.mismatch == t.mismatch
      && (forall j :: 0 <= j < NB ==>
            t'.dangends[j] == t.dangends[j] +
              (if gap && j < NBDE && NamesPair(p.de.data[j], p.sequence, p.complement, at) then 1 else 0))
      && (gap ==> exists j :: 0 <= j < NBDE && NamesPair(p.de.data[j], p.sequence, p.complement, at))
      && (forall q :: Excess(t', p, q) == Excess(t, p, q))
  {
    if gap {
      DanglingScanCounts(p, at, 0, t, false);
    }
  }

  /** A gap whose window no dangling-end entry names stops the computation. */
  lemma DanglingEndUnknown(p: Params, at: int, t: Totals)
    requires t.WellSized() && DanglingScan(p, at, 0, t, false).Success?
    requires forall j :: 0 <= j < NBDE ==> !NamesPair(p.de.data[j], p.sequence, p.complement, at)
    ensures DanglingEnd(p, true, at, t).Failure?
    ensures 0 <= at && at + 2 <= |p.sequence| && at + 2 <= |p.complement| ==>
      DanglingEnd(p, true, at, t) == Failure(ParametersNotFound)
  {
    DanglingScanCounts(p, at, 0, t, false);
  }

  /**
   * A successful scan keeps the conservation law: every step it takes is
   * counted in full, and the dangling-end counts are not touched.
   */
  lemma {:induction false} ScanConserves(p: Params, prox: nat, length: int, i: int, t: Totals)
    requires t.WellSized() && Scan(p, prox, length, i, t).Success?
    ensures var t' := Scan(p, prox, length, i, t).value;
      && t'.WellSized() && t'.dangends == t.dangends
      && forall q :: Excess(t', p, q) == Excess(t, p, q)
    decreases length - i
  {
    if i < length {
      if WindowMismatch(p, i).value {
        MismatchScanFirst(p, i, 0, t);
        ScanConserves(p, prox, length, i + 1, MismatchScan(p, i, 0, t).value.0);
      } else {
        RegularScanCounts(p, i, 0, t);
        ScanConserves(p, prox, length, i + 1, RegularScan(p, i, 0, t).value);
      }
    }
  }

  /**
   * A successful scan read every window from `i` to `length - 1` and found
   * no mismatch on the first or the last scanned step.
   */
  lemma {:induction false} ScanKeepsExtremesPaired(p: Params, prox: nat, length: int, i: int, t: Totals)
    requires t.WellSized() && prox <= i && Scan(p, prox, length, i, t).Success?
    ensures forall m :: i <= m < length ==> WindowMismatch(p, m).Success?
    ensures forall m :: i <= m < length && (m == prox || m == length - 1) ==> WindowMismatch(p, m) == Success(false)
    decreases length - i
  {
    if i < length {
      if WindowMismatch(p, i).value {
        ScanKeepsExtremesPaired(p, prox, length, i + 1, MismatchScan(p, i, 0, t).value.0);
      } else {
        ScanKeepsExtremesPaired(p, prox, length, i + 1, RegularScan(p, i, 0, t).value);
      }
    }
  }

  /** A mismatch at the first scanned step ends the computation, whatever the tables hold. */
  lemma ScanRefusesFirstMismatch(p: Params, prox: nat, length: int, t: Totals)
    requires t.WellSized() && prox < length && WindowMismatch(p, prox) == Success(true)
    ensures Scan(p, prox, length, prox, t) == Failure(ExtremeMismatch)
  {
  }

  /** The proximal offset: one when the first position of either strand is a gap. */
  function ProxOffset(p: Params): nat {
    if GapAt(p, 0, 0) == Success(true) then 1 else 0
  }

  /** The distal offset: one when the last position of either strand is a gap. */
  function DistOffset(p: Params): nat {
    if GapAt(p, |p.sequence| - 1, |p.complement| - 1) == Success(true) then 1 else 0
  }

  /** A terminal base that brings an initiation term. */
  predicate Initiates(c: char) {
    c == 'A' || c == 'T' || c == 'G' || c == 'C'
  }

  /** How many of the two terminal bases, after the offsets, bring an initiation term. */
  function InitiationEnds(p: Params): nat {
    var s := p.sequence;
    var a := ProxOffset(p);
    var b := |s| - 1 - DistOffset(p);
    (if a < |s| && Initiates(s[a]) then 1 else 0) + (if 0 <= b < |s| && Initiates(s[b]) then 1 else 0)
  }

  /** Each initiating terminal base adds the first "IA" entry once, G/C ends included. */
  lemma InitiationAddsIA(p: Params, prox: nat, dist: nat, t: Totals)
    requires Initiation(p, prox, dist, t).Success?
    ensures GetIndex(p.nn.data, "IA").Success?
    ensures var ia := p.nn.data[GetIndex(p.nn.data, "IA").value];
      var s := p.sequence;
      var n := (if Initiates(s[prox]) then 1 else 0) + (if Initiates(s[|s| - 1 - dist]) then 1 else 0);
      forall q :: Initiation(p, prox, dist, t).value.Amount(q) == t.Amount(q) + n as real * Value(ia, q)
  {
    var ia := p.nn.data[GetIndex(p.nn.data, "IA").value];
    var s := p.sequence;
    assert GetIndex(p.nn.data, "IG") == GetIndex(p.nn.data, "IA");
    var t1 := InitiationTerm(t, s[prox], ia, ia);
    assert Initiation(p, prox, dist, t) == Success(InitiationTerm(t1, s[|s| - 1 - dist], ia, ia));
  }

  /** The two dangling-end stages of a successful start, with the offsets they produce. */
  lemma DanglingEndsStages(p: Params) returns (prox: (Totals, nat), dist: (Totals, nat))
    requires DanglingEnds(p).Success?
    ensures |p.sequence| > 0
    ensures DanglingEnd(p, ProxOffset(p) == 1, 0, Zero()) == Success(prox)
    ensures prox.0.WellSized() && prox.1 == ProxOffset(p)
    ensures DanglingEnd(p, DistOffset(p) == 1, |p.sequence| - 2, prox.0) == Success(dist)
    ensures dist.0.WellSized() && dist.1 == DistOffset(p)
    ensures DanglingEnds(p) == Success((dist.0, prox.1, dist.1))
  {
    var proxGap := GapAt(p, 0, 0).value;
    prox := DanglingEnd(p, proxGap, 0, Zero()).value;
    var distGap := GapAt(p, |p.sequence| - 1, |p.complement| - 1).value;
    dist := DanglingEnd(p, distGap, |p.sequence| - 2, prox.0).value;
    DanglingEndOffset(p, proxGap, 0, Zero());
    DanglingEndOffset(p, distGap, |p.sequence| - 2, prox.0);
  }

  /** The stages of a successful walk: the ends, the initiation terms, and the scan that gives the result. */
  lemma AnalyseStages(p: Params) returns (ends: (Totals, nat, nat), t0: Totals, length: int)
    requires Analyse(p).Success?
    ensures |p.sequence| > 0
    ensures DanglingEnds(p) == Success(ends)
    ensures ends.0.WellSized() && ends.1 == ProxOffset(p) && ends.2 == DistOffset(p)
    ensures Initiation(p, ends.1, ends.2, ends.0) == Success(t0)
    ensures t0.WellSized()
    ensures length == |p.sequence| - 1 - ends.1 - ends.2
    ensures Scan(p, ends.1, length, ends.1, t0).Success?
    ensures Analyse(p) == Scan(p, ends.1, length, ends.1, t0)
  {
    ends := DanglingEnds(p).value;
    var prox, dist := DanglingEndsStages(p);
    t0 := Initiation(p, ends.1, ends.2, ends.0).value;
    length := |p.sequence| - 1 - ends.1 - ends.2;
  }

  /**
   * The conservation law of the walk: the totals are the counts weighted by
   * their table entries plus one "IA" entry for every initiating terminal base.
   */
  lemma AnalyseConserves(p: Params)
    requires Analyse(p).Success?
    ensures GetIndex(p.nn.data, "IA").Success?
    ensures var t := Analyse(p).value;
      var ia := p.nn.data[GetIndex(p.nn.data, "IA").value];
      && t.WellSized()
      && forall q :: t.Amount(q) ==
           Dot(t.crick, p.nn.data, q) + Dot(t.mismatch, p.mm.data, q) + Dot(t.dangends, p.de.data, q)
           + InitiationEnds(p) as real * Value(ia, q)
  {
    AnalyseExcess(p);
  }

  /** The excess left by the whole walk is the initiation terms. */
  lemma AnalyseExcess(p: Params)
    requires Analyse(p).Success?
    ensures GetIndex(p.nn.data, "IA").Success?
    ensures var t := Analyse(p).value;
      var ia := p.nn.data[GetIndex(p.nn.data, "IA").value];
      t.WellSized() && forall q :: Excess(t, p, q) == InitiationEnds(p) as real * Value(ia, q)
  {
    var ends, t0, length := AnalyseStages(p);
    ScanConserves(p, ends.1, length, ends.1, t0);
    InitiationExcess(p, ends.1, ends.2, ends.0);
    var prox, dist := DanglingEndsStages(p);
    forall q ensures Excess(ends.0, p, q) == 0.0 {
      ExcessOfZero(p, q);
      DanglingEndOffset(p, ProxOffset(p) == 1, 0, Zero());
      DanglingEndOffset(p, DistOffset(p) == 1, |p.sequence| - 2, prox.0);
    }
  }

  /** The initiation stage adds one "IA" entry per initiating terminal base and counts nothing. */
  lemma InitiationExcess(p: Params, prox: nat, dist: nat, t: Totals)
    requires t.WellSized() && Initiation(p, prox, dist, t).Success?
    requires prox == ProxOffset(p) && dist == DistOffset(p)
    ensures GetIndex(p.nn.data, "IA").Success?
    ensures var ia := p.nn.data[GetIndex(p.nn.data, "IA").value];
      var t' := Initiation(p, prox, dist, t).value;
      t'.WellSized() && forall q :: Excess(t', p, q) == Excess(t, p, q) + InitiationEnds(p) as real * Value(ia, q)
  {
    InitiationAddsIA(p, prox, dist, t);
  }

  /**
   * After a successful walk the dangling-end counts are exactly the entries
   * naming the proximal window (when that end has a gap) plus those naming
   * the distal window (when that end has a gap).
   */
  lemma AnalyseDanglingCounts(p: Params)
    requires Analyse(p).Success?
    ensures var t := Analyse(p).value;
      var s := p.sequence;
      && t.WellSized()
      && forall j :: 0 <= j < NB ==>
           t.dangends[j] ==
             (if ProxOffset(p) == 1 && j < NBDE && NamesPair(p.de.data[j], s, p.complement, 0) then 1 else 0) +
             (if DistOffset(p) == 1 && j < NBDE && NamesPair(p.de.data[j], s, p.complement, |s| - 2) then 1 else 0)
  {
    var ends, t0, length := AnalyseStages(p);
    var prox, dist := DanglingEndsStages(p);
    DanglingEndOffset(p, ProxOffset(p) == 1, 0, Zero());
    DanglingEndOffset(p, DistOffset(p) == 1, |p.sequence| - 2, prox.0);
    ScanConserves(p, ends.1, length, ends.1, t0);
  }

  /** After a successful walk neither the first nor the last scanned step is a mismatch. */
  lemma AnalyseExtremesPaired(p: Params)
    requires Analyse(p).Success?
    ensures var length := |p.sequence| - 1 - ProxOffset(p) - DistOffset(p);
      forall m :: ProxOffset(p) <= m < length && (m == ProxOffset(p) || m == length - 1) ==>
        WindowMismatch(p, m) == Success(false)
  {
    var ends, t0, length := AnalyseStages(p);
    ScanKeepsExtremesPaired(p, ends.1, length, ends.1, t0);
  }

  /**
   * The "not found" exit stops the program with ParametersNotFound when the
   * four characters its message reads exist, and raises an index exception
   * otherwise.
   */
  lemma NotFoundFault(p: Params, at: int)
    ensures var r: Result<Totals, Fault> := NotFound(p, at);
      && (r.error == ParametersNotFound || r.error == IndexOutOfBounds)
      && (r.error == ParametersNotFound <==> 0 <= at && at + 1 < |p.sequence| && at + 1 < |p.complement|)
  {
  }

  /** A step is paired exactly when both of its positions exist on both strands and form Watson-Crick pairs. */
  lemma WindowPairedIff(p: Params, i: int)
    ensures WindowMismatch(p, i) == Success(false) <==>
      && 0 <= i && i + 1 < |p.sequence| && i + 1 < |p.complement|
      && WatsonCrick(p.sequence[i], p.complement[i]) && WatsonCrick(p.sequence[i + 1], p.complement[i + 1])
  {
  }

  /** How many of the steps `i` to `length - 1` are paired and named by regular slot `m`. */
  function CrickSteps(p: Params, m: nat, i: int, length: int): nat
    requires m < NB
    decreases length - i
  {
    if i >= length then 0
    else
      (if WindowMismatch(p, i) == Success(false) && NamesStep(p.nn.data[m], p.sequence, i) then 1 else 0)
      + CrickSteps(p, m, i + 1, length)
  }

  /** How many of the steps `i` to `length - 1` are mismatched and first named by mismatch slot `m`. */
  function MismatchSteps(p: Params, m: nat, i: int, length: int): nat
    decreases length - i
  {
    if i >= length then 0
    else
      (if WindowMismatch(p, i) == Success(true) && FirstPairFrom(p, i, 0, m) then 1 else 0)
      + MismatchSteps(p, m, i + 1, length)
  }

  /** When some mismatch entry from slot `j` on names the window, a first one exists. */
  lemma {:induction false} FirstPairExists(p: Params, i: int, j: nat, m: nat)
    requires j <= m < NBMM && NamesPair(p.mm.data[m], p.sequence, p.complement, i)
    ensures exists f: nat :: FirstPairFrom(p, i, j, f)
    decreases m - j
  {
    if NamesPair(p.mm.data[j], p.sequence, p.complement, i) {
      assert FirstPairFrom(p, i, j, j);
    } else {
      FirstPairExists(p, i, j + 1, m);
      var f: nat :| FirstPairFrom(p, i, j + 1, f);
      assert FirstPairFrom(p, i, j, f);
    }
  }

  /** The first naming entry is unique. */
  lemma FirstPairUnique(p: Params, i: int, j: nat, f: nat, g: nat)
    requires FirstPairFrom(p, i, j, f) && FirstPairFrom(p, i, j, g)
    ensures f == g
  {
  }

  /** A resolved mismatch search had a first naming entry, and counted exactly that slot. */
  lemma ResolvedMismatchCountsFirst(p: Params, i: int, t: Totals) returns (f: nat)
    requires t.WellSized() && MismatchScan(p, i, 0, t).Success? && !MismatchScan(p, i, 0, t).value.1
    ensures FirstPairFrom(p, i, 0, f)
    ensures var t' := MismatchScan(p, i, 0, t).value.0;
      && t'.WellSized() && t'.crick == t.crick
      && forall m :: 0 <= m < NB ==> t'.mismatch[m] == t.mismatch[m] + (if FirstPairFrom(p, i, 0, m) then 1 else 0)
  {
    MismatchScanFirst(p, i, 0, t);
    var m :| 0 <= m < NBMM && NamesPair(p.mm.data[m], p.sequence, p.complement, i);
    FirstPairExists(p, i, 0, m);
    f :| FirstPairFrom(p, i, 0, f);
    forall g | 0 <= g < NB && FirstPairFrom(p, i, 0, g) ensures g == f {
      FirstPairUnique(p, i, 0, f, g);
    }
  }

  /**
   * A successful scan counts, in each regular slot, the paired steps it
   * names, and in each mismatch slot the mismatched steps it is the first
   * to name; only the steps `i` to `length - 1` are visited.
   */
  lemma {:induction false} ScanCounts(p: Params, prox: nat, length: int, i: int, t: Totals)
    requires t.WellSized() && Scan(p, prox, length, i, t).Success?
    ensures var t' := Scan(p, prox, length, i, t).value;
      && t'.WellSized()
      && (forall m :: 0 <= m < NB ==> t'.crick[m] == t.crick[m] + (if m < NBNN then CrickSteps(p, m, i, length) else 0))
      && (forall m :: 0 <= m < NB ==> t'.mismatch[m] == t.mismatch[m] + MismatchSteps(p, m, i, length))
    decreases length - i
  {
    if i < length {
      if WindowMismatch(p, i).value {
        var f := ResolvedMismatchCountsFirst(p, i, t);
        ScanCounts(p, prox, length, i + 1, MismatchScan(p, i, 0, t).value.0);
      } else {
        RegularScanCounts(p, i, 0, t);
        ScanCounts(p, prox, length, i + 1, RegularScan(p, i, 0, t).value);
      }
    }
  }

  /** A mismatch search that resolves its step found a first naming entry with a defined enthalpy. */
  lemma MismatchStepResolved(p: Params, i: int, t: Totals) returns (f: nat)
    requires t.WellSized() && MismatchScan(p, i, 0, t).Success? && !MismatchScan(p, i, 0, t).value.1
    ensures FirstPairFrom(p, i, 0, f) && p.mm.data[f].enthalpy != UNDEFINED_ENTHALPY
  {
    f := ResolvedMismatchCountsFirst(p, i, t);
    MismatchScanFirst(p, i, 0, t);
  }

  /**
   * A successful scan resolved every mismatched step it visited: the first
   * mismatch entry naming the step exists and is not the undefined marker.
   */
  lemma {:induction false} ScanResolvesMismatches(p: Params, prox: nat, length: int, i: int, t: Totals)
    requires t.WellSized() && Scan(p, prox, length, i, t).Success?
    ensures forall m :: i <= m < length && WindowMismatch(p, m) == Success(true) ==>
      exists f: nat :: FirstPairFrom(p, m, 0, f) && p.mm.data[f].enthalpy != UNDEFINED_ENTHALPY
    decreases length - i
  {
    if i < length {
      if WindowMismatch(p, i).value {
        var f := MismatchStepResolved(p, i, t);
        ScanResolvesMismatches(p, prox, length, i + 1, MismatchScan(p, i, 0, t).value.0);
      } else {
        ScanResolvesMismatches(p, prox, length, i + 1, RegularScan(p, i, 0, t).value);
      }
    }
  }

  /** The scanned steps of a walk: from the proximal offset, stopping before the distal offset and the proximal one. */
  function ScanLength(p: Params): int {
    |p.sequence| - 1 - ProxOffset(p) - DistOffset(p)
  }

  /** The scan of a successful walk starts with no regular and no mismatch step counted. */
  lemma ScanStartUncounted(p: Params) returns (t0: Totals)
    requires Analyse(p).Success?
    ensures t0.WellSized() && Analyse(p) == Scan(p, ProxOffset(p), ScanLength(p), ProxOffset(p), t0)
    ensures forall m :: 0 <= m < NB ==> t0.crick[m] == 0 && t0.mismatch[m] == 0
  {
    var ends, t, length := AnalyseStages(p);
    t0 := t;
    var prox, dist := DanglingEndsStages(p);
    DanglingEndOffset(p, ProxOffset(p) == 1, 0, Zero());
    DanglingEndOffset(p, DistOffset(p) == 1, |p.sequence| - 2, prox.0);
  }

  /**
   * After a successful walk each regular count is the number of paired steps
   * from ProxOffset to ScanLength - 1 that the slot names, and each mismatch
   * count the number of mismatched steps the slot is the first to name.
   */
  lemma AnalyseStepCounts(p: Params)
    requires Analyse(p).Success?
    ensures var t := Analyse(p).value;
      && t.WellSized()
      && (forall m :: 0 <= m < NB ==>
            t.crick[m] == if m < NBNN then CrickSteps(p, m, ProxOffset(p), ScanLength(p)) else 0)
      && (forall m :: 0 <= m < NB ==> t.mismatch[m] == MismatchSteps(p, m, ProxOffset(p), ScanLength(p)))
  {
    var t0 := ScanStartUncounted(p);
    ScanCounts(p, ProxOffset(p), ScanLength(p), ProxOffset(p), t0);
  }

  /**
   * After a successful walk every mismatched step between the offsets had a
   * first naming mismatch entry with a defined enthalpy.
   */
  lemma AnalyseResolvesMismatches(p: Params)
    requires Analyse(p).Success?
    ensures forall m :: ProxOffset(p) <= m < ScanLength(p) && WindowMismatch(p, m) == Success(true) ==>
      exists f: nat :: FirstPairFrom(p, m, 0, f) && p.mm.data[f].enthalpy != UNDEFINED_ENTHALPY
  {
    var t0 := ScanStartUncounted(p);
    ScanResolvesMismatches(p, ProxOffset(p), ScanLength(p), ProxOffset(p), t0);
  }

  /** One more step at the end of the range adds exactly that step's own count. */
  lemma {:induction false} CrickStepsExtend(p: Params, m: nat, i: int, length: int)
    requires m < NB && i <= length
    ensures CrickSteps(p, m, i, length + 1) ==
      CrickSteps(p, m, i, length) +
      (if WindowMismatch(p, length) == Success(false) && NamesStep(p.nn.data[m], p.sequence, length) then 1 else 0)
    decreases length - i
  {
    if i < length {
      CrickStepsExtend(p, m, i + 1, length);
    }
  }

  /** A gap at the first base makes the first step a mismatch, so a paired step at |sequence| - 2 means three bases or more. */
  lemma ProximalGapLength(p: Params)
    requires ProxOffset(p) == 1 && WindowMismatch(p, |p.sequence| - 2) == Success(false)
    ensures |p.sequence| >= 3
  {
  }

  /**
   * With a gap at the proximal end and none at the distal end, the last step
   * of the duplex (at |sequence| - 2) is not scanned: a paired last step
   * named by a regular slot is missing from that slot's count.
   */
  lemma ProximalGapSkipsLastStep(p: Params, m: nat)
    requires Analyse(p).Success? && ProxOffset(p) == 1 && DistOffset(p) == 0 && m < NBNN
    requires WindowMismatch(p, |p.sequence| - 2) == Success(false)
    requires NamesStep(p.nn.data[m], p.sequence, |p.sequence| - 2)
    ensures Analyse(p).value.WellSized()
    ensures Analyse(p).value.crick[m] + 1 == CrickSteps(p, m, 1, |p.sequence| - 1)
  {
    AnalyseStepCounts(p);
    assert ScanLength(p) == |p.sequence| - 2;
    ProximalGapLength(p);
    CrickStepsExtend(p, m, 1, |p.sequence| - 2);
  }
}
