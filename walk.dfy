/**
 * The nearest-neighbour walk of get_results (Melting.java): the dangling
 * ends, the initiation terms and the scan of adjacent steps, written as
 * functions that follow the Java code's order of evaluation, so that the
 * first exception or exit it meets is the fault they return.
 */
module Walk {
  import opened Wrappers
  import opened Faults
  import opened JavaStrings
  import opened Sequences
  import opened Tables
  import opened Settings

  /** What get_results accumulates: the two totals and the three count arrays. */
  datatype Totals = Totals(enthalpy: real, entropy: real, crick: seq<int>, mismatch: seq<int>, dangends: seq<int>)
  {
    predicate WellSized() {
      |crick| == NB && |mismatch| == NB && |dangends| == NB
    }

    function Amount(q: Quantity): real {
      match q
      case Enthalpy => enthalpy
      case Entropy => entropy
    }

    /** Adds the parameters of `e` to the totals. */
    function Plus(e: CalorConst): Totals {
      this.(enthalpy := enthalpy + e.enthalpy, entropy := entropy + e.entropy)
    }

    function CountCrick(j: nat): Totals
      requires j < |crick|
    {
      this.(crick := crick[j := crick[j] + 1])
    }

    function CountMismatch(j: nat): Totals
      requires j < |mismatch|
    {
      this.(mismatch := mismatch[j := mismatch[j] + 1])
    }

    function CountDangling(j: nat): Totals
      requires j < |dangends|
    {
      this.(dangends := dangends[j := dangends[j] + 1])
    }
  }

  /** The state get_results starts from. */
  function Zero(): Totals {
    Totals(0.0, 0.0, seq(NB, _ => 0), seq(NB, _ => 0), seq(NB, _ => 0))
  }

  /** The die("NN parameters for XY/ZW not found") at window `at`, whose message reads four characters. */
  function NotFound<T>(p: Params, at: int): Result<T, Fault> {
    if 0 <= at && at + 1 < |p.sequence| && at + 1 < |p.complement| then Failure(ParametersNotFound)
    else Failure(IndexOutOfBounds)
  }

  /** `sequence.charAt(i) == '-' || complement.charAt(j) == '-'`, evaluated left to right. */
  function GapAt(p: Params, i: int, j: int): (r: Result<bool, Fault>)
    ensures r.Success? <==> 0 <= i < |p.sequence| && (p.sequence[i] == '-' || 0 <= j < |p.complement|)
    ensures r.Failure? ==> r.error == IndexOutOfBounds
    ensures r.Success? ==> (r.value <==> p.sequence[i] == '-' || p.complement[j] == '-')
  {
    var top :- CharAt(p.sequence, i);
    if top == '-' then Success(true)
    else
      var bot :- CharAt(p.complement, j);
      Success(bot == '-')
  }

  /** The dangling-end search from slot `k`: every entry naming the window at `at` is added and counted. */
  function DanglingScan(p: Params, at: int, k: nat, t: Totals, found: bool): (r: Result<(Totals, bool), Fault>)
    requires k <= NBDE && t.WellSized()
    ensures r.Success? ==> r.value.0.WellSized()
    decreases NBDE - k
  {
    if k == NBDE then Success((t, found))
    else
      var e := p.de.data[k];
      var hit :- PairHit(e, p.sequence, p.complement, at);
      if hit then DanglingScan(p, at, k + 1, t.Plus(e).CountDangling(k), true)
      else DanglingScan(p, at, k + 1, t, found)
  }

  /** One end of the duplex: with a gap, its window at `at` must be named by some dangling-end entry; the offset is returned. */
  function DanglingEnd(p: Params, gap: bool, at: int, t: Totals): (r: Result<(Totals, nat), Fault>)
    requires t.WellSized()
    ensures r.Success? ==> r.value.0.WellSized()
  {
    if !gap then Success((t, 0))
    else
      var scan :- DanglingScan(p, at, 0, t, false);
      if scan.1 then Success((scan.0, 1)) else NotFound(p, at)
  }

  /** The initiation term of one terminal base: A/T adds the slot `ia`, G/C the slot `ig`. */
  function InitiationTerm(t: Totals, c: char, ia: CalorConst, ig: CalorConst): Totals {
    var t1 := if c == 'A' || c == 'T' then t.Plus(ia) else t;
    if c == 'G' || c == 'C' then t1.Plus(ig) else t1
  }

  /** The initiation terms of the proximal and the distal terminal bases, after the offsets. */
  function Initiation(p: Params, prox: nat, dist: nat, t: Totals): (r: Result<Totals, Fault>)
    ensures r.Success? ==> r.value.crick == t.crick && r.value.mismatch == t.mismatch && r.value.dangends == t.dangends
  {
    var ia :- GetIndex(p.nn.data, "IA");
    // get_index ignores the name it is given: this second search repeats the first and succeeds
    var ig := GetIndex(p.nn.data, "IG").value;
    var proxChar :- CharAt(p.sequence, prox);
    var distChar :- CharAt(p.sequence, |p.sequence| - 1 - dist);
    var t1 := InitiationTerm(t, proxChar, p.nn.data[ia], p.nn.data[ig]);
    Success(InitiationTerm(t1, distChar, p.nn.data[ia], p.nn.data[ig]))
  }

  /** `is_mismatch(i) || is_mismatch(i + 1)`, evaluated left to right. */
  function WindowMismatch(p: Params, i: int): (r: Result<bool, Fault>)
    ensures r.Failure? ==> r.error == IndexOutOfBounds
    ensures r == Success(true) ==> 0 <= i < |p.sequence| && i < |p.complement|
  {
    var here :- IsMismatch(p.sequence, p.complement, i);
    if here then Success(true) else IsMismatch(p.sequence, p.complement, i + 1)
  }

  /**
   * The mismatch search from slot `j`: the first entry naming the window at
   * `i` is counted and, unless its enthalpy is the undefined marker, added.
   * The flag returned is true while the mismatch is still unresolved.
   */
  function MismatchScan(p: Params, i: int, j: nat, t: Totals): (r: Result<(Totals, bool), Fault>)
    requires j <= NBMM && t.WellSized()
    ensures r.Success? ==> r.value.0.WellSized()
    decreases NBMM - j
  {
    if j == NBMM then Success((t, true))
    else
      var e := p.mm.data[j];
      var hit :- PairHit(e, p.sequence, p.complement, i);
      if !hit then MismatchScan(p, i, j + 1, t)
      else if e.enthalpy != UNDEFINED_ENTHALPY then Success((t.CountMismatch(j).Plus(e), false))
      else Success((t.CountMismatch(j), true))
  }

  /** The regular search from slot `j`: every entry naming the step at `i` is counted and added. */
  function RegularScan(p: Params, i: int, j: nat, t: Totals): (r: Result<Totals, Fault>)
    requires j <= NBNN && t.WellSized()
    ensures r.Success? ==> r.value.WellSized()
    decreases NBNN - j
  {
    if j == NBNN then Success(t)
    else
      var e := p.nn.data[j];
      var hit :- StepHit(e, p.sequence, i);
      RegularScan(p, i, j + 1, if hit then t.CountCrick(j).Plus(e) else t)
  }

  /** The scan of the steps `i` to `length - 1`; a mismatch on the first or the last of them is refused. */
  function Scan(p: Params, prox: nat, length: int, i: int, t: Totals): (r: Result<Totals, Fault>)
    requires t.WellSized()
    ensures r.Success? ==> r.value.WellSized()
    ensures i >= length ==> r == Success(t)
    decreases length - i
  {
    if i >= length then Success(t)
    else
      var mismatch :- WindowMismatch(p, i);
      if mismatch then
        if i == prox || i == length - 1 then Failure(ExtremeMismatch)
        else
          var found :- MismatchScan(p, i, 0, t);
          if found.1 then NotFound(p, i)
          else Scan(p, prox, length, i + 1, found.0)
      else
        var t' :- RegularScan(p, i, 0, t);
        Scan(p, prox, length, i + 1, t')
  }

  /** The two ends of the duplex, from zero totals: the totals after them and the proximal and distal offsets. */
  function DanglingEnds(p: Params): (r: Result<(Totals, nat, nat), Fault>)
    ensures r.Success? ==> r.value.0.WellSized()
  {
    var proxGap :- GapAt(p, 0, 0);
    var prox :- DanglingEnd(p, proxGap, 0, Zero());
    var distGap :- GapAt(p, |p.sequence| - 1, |p.complement| - 1);
    var dist :- DanglingEnd(p, distGap, |p.sequence| - 2, prox.0);
    Success((dist.0, prox.1, dist.1))
  }

  /** What follows the ends: the initiation terms, the emptiness test and the scan of the steps. */
  function InitiationAndScan(p: Params, prox: nat, dist: nat, t: Totals): (r: Result<Totals, Fault>)
    requires t.WellSized()
    ensures r.Success? ==> r.value.WellSized() && prox < |p.sequence|
  {
    var t' :- Initiation(p, prox, dist, t);
    if |p.sequence| <= 0 then Failure(EmptySequence)
    else Scan(p, prox, |p.sequence| - 1 - prox - dist, prox, t')
  }

  /** The nearest-neighbour part of get_results, before the melting temperature. */
  function Analyse(p: Params): (r: Result<Totals, Fault>)
    ensures r.Success? ==> r.value.WellSized() && |p.sequence| > 0
  {
    var ends :- DanglingEnds(p);
    InitiationAndScan(p, ends.1, ends.2, ends.0)
  }
}
