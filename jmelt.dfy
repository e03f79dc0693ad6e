/**
 * The stateful part of Melting.java: the parameter record the program
 * fills in (`MeltingParams`), the result record get_results builds in place
 * (`Thermodynamic`, with its three count arrays), and the class whose static
 * flags steer the computation.  Every method is proved against the function
 * of the Walk and Temperature modules that states what it computes.
 */
module JMelt {
  import opened Wrappers
  import opened Faults
  import opened JavaStrings
  import opened Sequences
  import opened Tables
  import opened Settings
  import opened Walk
  import Temperature

  /** The result of one analysis: the two totals, the temperature and the counts of each table entry used. */
  class Thermodynamic {
    var totalEnthalpy: real
    var totalEntropy: real
    var tm: Temperature.Tm
    const crick: array<int>
    const mismatch: array<int>
    const dangends: array<int>

    ghost predicate Valid()
      reads this
    {
      && crick.Length == NB && mismatch.Length == NB && dangends.Length == NB
      && crick != mismatch && crick != dangends && mismatch != dangends
    }

    /** The totals and counts as a value. */
    function View(): Totals
      reads this, crick, mismatch, dangends
    {
      Totals(totalEnthalpy, totalEntropy, crick[..], mismatch[..], dangends[..])
    }

    /** A fresh record: every total, count and the temperature are zero. */
    constructor()
      ensures Valid() && View() == Zero() && tm == Temperature.Unset
      ensures fresh(crick) && fresh(mismatch) && fresh(dangends)
    {
      totalEnthalpy := 0.0;
      totalEntropy := 0.0;
      tm := Temperature.Unset;
      crick := new int[NB](_ => 0);
      mismatch := new int[NB](_ => 0);
      dangends := new int[NB](_ => 0);
    }

    /** Adds the enthalpy and the entropy of one table entry to the totals. */
    method Add(e: CalorConst)
      modifies this
      ensures View() == old(View()).Plus(e) && tm == old(tm)
    {
      totalEnthalpy := totalEnthalpy + e.enthalpy;
      totalEntropy := totalEntropy + e.entropy;
    }

    /** Counts one more use of slot `j` of the regular table. */
    method CountCrick(j: nat)
      requires Valid() && j < NB
      modifies crick
      ensures View() == old(View()).CountCrick(j)
    {
      crick[j] := crick[j] + 1;
    }

    /** Counts one more use of slot `j` of the mismatch table. */
    method CountMismatch(j: nat)
      requires Valid() && j < NB
      modifies mismatch
      ensures View() == old(View()).CountMismatch(j)
    {
      mismatch[j] := mismatch[j] + 1;
    }

    /** Counts one more use of slot `j` of the dangling-end table. */
    method CountDangling(j: nat)
      requires Valid() && j < NB
      modifies dangends
      ensures View() == old(View()).CountDangling(j)
    {
      dangends[j] := dangends[j] + 1;
    }
  }

  /** Sets every count of `a` to zero. */
  method ClearCounts(a: array<int>)
    modifies a
    ensures a[..] == seq(a.Length, _ => 0)
  {
    for i := 0 to a.Length
      invariant forall k :: 0 <= k < i ==> a[k] == 0
    {
      a[i] := 0;
    }
  }

  /** The parameters of the present computation. */
  class MeltingParams {
    var sequence: string
    var complement: string
    var concProbe: real
    var concSalt: real
    var gnat: real
    var nn: Table
    var mm: Table
    var de: Table
    var sodiumCorrection: string

    function Value(): Params
      reads this
    {
      Params(sequence, complement, concProbe, concSalt, gnat, nn, mm, de, sodiumCorrection)
    }

    /** The defaults: 50 mM sodium, 50 nM probe, a correction factor of 4, the san98a salt correction. */
    constructor(nn: Table, mm: Table, de: Table)
      ensures Value() == Params("", "", 0.00000005, 0.05, DEFAULT_NUC_CORR, nn, mm, de, DEFAULT_SALT_CORR)
    {
      concSalt := 0.05;
      concProbe := 0.00000005;
      sequence := "";
      complement := "";
      gnat := DEFAULT_NUC_CORR;
      this.nn := nn;
      this.de := de;
      this.mm := mm;
      sodiumCorrection := DEFAULT_SALT_CORR;
    }
  }

  /** get_tm: the complement is derived from the primer, and the temperature of the pair computed. */
  function TmOfPrimer(flags: Flags, p: Params, primer: string, ln: real -> real): (r: Result<Temperature.Tm, Fault>)
    ensures (exists i :: 0 <= i < |primer| && !IsBaseOrGap(primer[i])) ==> r == Failure(IllegalBase)
    ensures r.Success? ==> |primer| > 0
    ensures r.Success? ==> (r.value.GcContent? <==> flags.approx || |primer| > flags.threshold)
  {
    var complement :- MakeComplement(primer);
    var results :- Temperature.Results(flags, p.(sequence := primer, complement := complement), ln);
    Success(results.1)
  }

  /**
   * On the approximate path get_tm's temperature is the G+C formula of the
   * primer alone: the present strands and the tables play no part.
   */
  lemma TmOfPrimerApproximate(flags: Flags, p: Params, primer: string, ln: real -> real)
    requires MakeComplement(primer).Success? && (flags.approx || |primer| > flags.threshold)
    ensures TmOfPrimer(flags, p, primer, ln) == Temperature.TmApprox(flags, p.(sequence := primer))
  {
    var q := p.(sequence := primer, complement := MakeComplement(primer).value);
    Temperature.ApproximateResultsAreTmOnly(flags, q, ln);
    Temperature.TmApproxReadsSequenceAndSalt(flags, q, p.(sequence := primer));
  }

  /** The program-wide state: the flags that steer the computation and the present parameters. */
  class Melting {
    var approx: bool
    var threshold: int
    var dnadna: bool
    var dnarna: bool
    var rnarna: bool
    var param: MeltingParams

    function CurrentFlags(): Flags
      reads this
    {
      Flags(approx, threshold, dnadna, dnarna, rnarna)
    }

    /** The start-up state: exact computation up to MAX_SIZE_NN bases, DNA/DNA hybridisation. */
    constructor(param: MeltingParams)
      ensures CurrentFlags() == Flags(false, MAX_SIZE_NN, true, false, false) && this.param == param
    {
      approx := false;
      threshold := MAX_SIZE_NN;
      dnadna := true;
      dnarna := false;
      rnarna := false;
      this.param := param;
    }

    /** The search of the dangling-end table for the window at `at`; true when some entry names it. */
    static method SeekDanglingEnds(p: Params, at: int, r: Thermodynamic) returns (res: Result<bool, Fault>)
      requires r.Valid()
      modifies r, r.dangends
      ensures r.Valid() && r.tm == old(r.tm)
      ensures res.Failure? ==> DanglingScan(p, at, 0, old(r.View()), false) == Failure(res.error)
      ensures res.Success? ==> DanglingScan(p, at, 0, old(r.View()), false) == Success((r.View(), res.value))
    {
      var found := false;
      var i := 0;
      while i < NBDE
        invariant 0 <= i <= NBDE && r.Valid() && r.tm == old(r.tm)
        invariant DanglingScan(p, at, i, r.View(), found) == DanglingScan(p, at, 0, old(r.View()), false)
      {
        var e := p.de.data[i];
        var hit :- PairHit(e, p.sequence, p.complement, at);
        ghost var before, foundBefore := r.View(), found;
        if hit {
          r.Add(e);
          r.CountDangling(i);
          found := true;
        }
        assert DanglingScan(p, at, i, before, foundBefore) == DanglingScan(p, at, i + 1, r.View(), found);
        i := i + 1;
      }
      return Success(found);
    }

    /** One end of the duplex: with a gap its dangling-end term must exist; the offset it causes is returned. */
    static method ApplyDanglingEnd(p: Params, gap: bool, at: int, r: Thermodynamic) returns (res: Result<nat, Fault>)
      requires r.Valid()
      modifies r, r.dangends
      ensures r.Valid() && r.tm == old(r.tm)
      ensures res.Failure? ==> DanglingEnd(p, gap, at, old(r.View())) == Failure(res.error)
      ensures res.Success? ==> DanglingEnd(p, gap, at, old(r.View())) == Success((r.View(), res.value))
    {
      if !gap {
        return Success(0);
      }
      var found :- SeekDanglingEnds(p, at, r);
      if !found {
        return NotFound(p, at);
      }
      return Success(1);
    }

    /** The initiation terms of the two terminal bases left after the dangling ends. */
    static method AddInitiationTerms(p: Params, prox: nat, dist: nat, r: Thermodynamic) returns (res: Result<(), Fault>)
      requires r.Valid()
      modifies r
      ensures r.Valid() && r.tm == old(r.tm)
      ensures res.Failure? ==> Initiation(p, prox, dist, old(r.View())) == Failure(res.error)
      ensures res.Success? ==> Initiation(p, prox, dist, old(r.View())) == Success(r.View())
    {
      var ia :- GetIndex(p.nn.data, "IA");
      // get_index ignores the name it is given: this second search repeats the first and succeeds
      var ig := GetIndex(p.nn.data, "IG").value;
      var proxChar :- CharAt(p.sequence, prox);
      var distChar :- CharAt(p.sequence, |p.sequence| - 1 - dist);
      if proxChar == 'A' || proxChar == 'T' {
        r.Add(p.nn.data[ia]);
      }
      if proxChar == 'G' || proxChar == 'C' {
        r.Add(p.nn.data[ig]);
      }
      if distChar == 'A' || distChar == 'T' {
        r.Add(p.nn.data[ia]);
      }
      if distChar == 'G' || distChar == 'C' {
        r.Add(p.nn.data[ig]);
      }
      return Success(());
    }

    /**
     * The search of the mismatch table for the window at `i`: the first entry
     * naming it is counted and, unless its enthalpy is undefined, added.
     * True when the mismatch is still unresolved.
     */
    static method SeekMismatchTerm(p: Params, i: int, r: Thermodynamic) returns (res: Result<bool, Fault>)
      requires r.Valid()
      modifies r, r.mismatch
      ensures r.Valid() && r.tm == old(r.tm)
      ensures res.Failure? ==> MismatchScan(p, i, 0, old(r.View())) == Failure(res.error)
      ensures res.Success? ==> MismatchScan(p, i, 0, old(r.View())) == Success((r.View(), res.value))
    {
      var j := 0;
      while j < NBMM
        invariant 0 <= j <= NBMM && r.Valid() && r.tm == old(r.tm)
        invariant MismatchScan(p, i, j, r.View()) == MismatchScan(p, i, 0, old(r.View()))
      {
        var e := p.mm.data[j];
        ghost var before := r.View();
        var hit :- PairHit(e, p.sequence, p.complement, i);
        if hit {
          r.CountMismatch(j);
          if e.enthalpy != UNDEFINED_ENTHALPY {
            r.Add(e);
            return Success(false);
          }
          return Success(true);
        }
        assert MismatchScan(p, i, j, before) == MismatchScan(p, i, j + 1, r.View());
        j := j + 1;
      }
      return Success(true);
    }

    /** The search of the regular table for the step at `i`: every entry naming it is counted and added. */
    static method SeekRegularTerms(p: Params, i: int, r: Thermodynamic) returns (res: Result<(), Fault>)
      requires r.Valid()
      modifies r, r.crick
      ensures r.Valid() && r.tm == old(r.tm)
      ensures res.Failure? ==> RegularScan(p, i, 0, old(r.View())) == Failure(res.error)
      ensures res.Success? ==> RegularScan(p, i, 0, old(r.View())) == Success(r.View())
    {
      var j := 0;
      while j < NBNN
        invariant 0 <= j <= NBNN && r.Valid() && r.tm == old(r.tm)
        invariant RegularScan(p, i, j, r.View()) == RegularScan(p, i, 0, old(r.View()))
      {
        var e := p.nn.data[j];
        var hit :- StepHit(e, p.sequence, i);
        if hit {
          r.CountCrick(j);
          r.Add(e);
        }
        j := j + 1;
      }
      return Success(());
    }

    /** One step of the scan: the step at `i` is a mismatch step or a regular step. */
    static method ScanStep(p: Params, prox: nat, length: int, i: int, r: Thermodynamic) returns (res: Result<(), Fault>)
      requires r.Valid() && i < length
      modifies r, r.crick, r.mismatch
      ensures r.Valid() && r.tm == old(r.tm)
      ensures res.Failure? ==> Scan(p, prox, length, i, old(r.View())) == Failure(res.error)
      ensures res.Success? ==> Scan(p, prox, length, i, old(r.View())) == Scan(p, prox, length, i + 1, r.View())
    {
      var mismatch :- WindowMismatch(p, i);
      if mismatch {
        if i == prox || i == length - 1 {
          return Failure(ExtremeMismatch);
        }
        var unresolved :- SeekMismatchTerm(p, i, r);
        if unresolved {
          return NotFound(p, i);
        }
      } else {
        var _ :- SeekRegularTerms(p, i, r);
      }
      return Success(());
    }

    /** The scan of the steps from `prox` to `length - 1`. */
    static method ScanDuplex(p: Params, prox: nat, length: int, r: Thermodynamic) returns (res: Result<(), Fault>)
      requires r.Valid()
      modifies r, r.crick, r.mismatch
      ensures r.Valid() && r.tm == old(r.tm)
      ensures res.Failure? ==> Scan(p, prox, length, prox, old(r.View())) == Failure(res.error)
      ensures res.Success? ==> Scan(p, prox, length, prox, old(r.View())) == Success(r.View())
    {
      var i: int := prox;
      while i < length
        invariant r.Valid() && r.tm == old(r.tm)
        invariant Scan(p, prox, length, i, r.View()) == Scan(p, prox, length, prox, old(r.View()))
        decreases length - i
      {
        var _ :- ScanStep(p, prox, length, i, r);
        i := i + 1;
      }
      return Success(());
    }

    /** tm_exact: applies the salt correction to the totals and gives the nearest-neighbour temperature. */
    static method TmExact(p: Params, r: Thermodynamic, ln: real -> real) returns (res: Result<Temperature.Tm, Fault>)
      modifies r
      ensures r.totalEnthalpy == old(r.totalEnthalpy) && r.tm == old(r.tm)
      ensures res.Failure? ==> Temperature.TmExact(p, old(r.totalEnthalpy), old(r.totalEntropy), ln) == Failure(res.error)
      ensures res.Success? ==> Temperature.TmExact(p, old(r.totalEnthalpy), old(r.totalEntropy), ln) == Success((r.totalEntropy, res.value))
    {
      var offset := Temperature.NoOffset;
      ghost var model := Temperature.NoCorrection;
      var san98a :- StrNCmp(Some(p.sodiumCorrection), Some("san98a"), 6);
      if san98a == 0 {
        model := Temperature.San98a;
        r.totalEntropy := r.totalEntropy + 0.368 * (|p.sequence| - 1) as real * ln(p.concSalt);
      } else {
        var wet91a :- StrNCmp(Some(p.sodiumCorrection), Some("wet91a"), 6);
        if wet91a == 0 {
          model := Temperature.Wet91a;
          offset := Temperature.Wetmur91(p.concSalt);
        } else {
          var san96a :- StrNCmp(Some(p.sodiumCorrection), Some("san96a"), 6);
          if san96a == 0 {
            model := Temperature.San96a;
            offset := Temperature.SantaLucia96(p.concSalt);
          } else {
            var nak99a :- StrNCmp(Some(p.sodiumCorrection), Some("nak99a"), 6);
            if nak99a == 0 {
              return Failure(NotImplemented);
            }
          }
        }
      }
      assert Temperature.SelectSaltCorrection(p.sodiumCorrection) == Success(model);
      assert r.totalEntropy == Temperature.CorrectedEntropy(model, p, old(r.totalEntropy), ln);
      assert offset == Temperature.SaltOffsetOf(model, p);
      return Success(Temperature.NearestNeighbour(r.totalEnthalpy, r.totalEntropy, p.concProbe, p.gnat, offset));
    }

    /** Both ends of the duplex, from zero totals; the proximal and the distal offsets are returned. */
    static method ApplyDanglingEnds(p: Params, r: Thermodynamic) returns (res: Result<(nat, nat), Fault>)
      requires r.Valid() && r.View() == Zero()
      modifies r, r.dangends
      ensures r.Valid() && r.tm == old(r.tm)
      ensures res.Failure? ==> DanglingEnds(p) == Failure(res.error)
      ensures res.Success? ==> DanglingEnds(p) == Success((r.View(), res.value.0, res.value.1))
    {
      var proxGap :- GapAt(p, 0, 0);
      var prox :- ApplyDanglingEnd(p, proxGap, 0, r);
      var distGap :- GapAt(p, |p.sequence| - 1, |p.complement| - 1);
      var dist :- ApplyDanglingEnd(p, distGap, |p.sequence| - 2, r);
      return Success((prox, dist));
    }

    /** What follows the ends: the initiation terms, the emptiness test and the scan. */
    static method InitiateAndScan(p: Params, prox: nat, dist: nat, r: Thermodynamic) returns (res: Result<(), Fault>)
      requires r.Valid()
      modifies r, r.crick, r.mismatch
      ensures r.Valid() && r.tm == old(r.tm)
      ensures res.Failure? ==> InitiationAndScan(p, prox, dist, old(r.View())) == Failure(res.error)
      ensures res.Success? ==> InitiationAndScan(p, prox, dist, old(r.View())) == Success(r.View())
    {
      var _ :- AddInitiationTerms(p, prox, dist, r);
      if |p.sequence| <= 0 {
        return Failure(EmptySequence);
      }
      var _ :- ScanDuplex(p, prox, |p.sequence| - 1 - prox - dist, r);
      return Success(());
    }

    /** The nearest-neighbour part of get_results: dangling ends, initiation terms and the scan. */
    static method NearestNeighbourWalk(p: Params, r: Thermodynamic) returns (res: Result<(), Fault>)
      requires r.Valid() && r.View() == Zero()
      modifies r, r.crick, r.mismatch, r.dangends
      ensures r.Valid() && r.tm == old(r.tm)
      ensures res.Failure? ==> Analyse(p) == Failure(res.error)
      ensures res.Success? ==> Analyse(p) == Success(r.View())
    {
      var offsets :- ApplyDanglingEnds(p, r);
      var _ :- InitiateAndScan(p, offsets.0, offsets.1, r);
      return Success(());
    }

    /**
     * get_results: a fresh result record holding either the approximate
     * temperature alone or the nearest-neighbour totals, counts and
     * temperature.  A sequence longer than the threshold switches the
     * approximate mode on for good.
     */
    method GetResults(p: MeltingParams, ln: real -> real) returns (res: Result<Thermodynamic, Fault>)
      modifies this
      ensures CurrentFlags() == old(CurrentFlags()).(approx := old(approx) || |p.sequence| > threshold)
      ensures param == old(param)
      ensures res.Failure? ==> Temperature.Results(old(CurrentFlags()), p.Value(), ln) == Failure(res.error)
      ensures res.Success? ==> fresh(res.value) && res.value.Valid()
      ensures res.Success? ==> Temperature.Results(old(CurrentFlags()), p.Value(), ln) == Success((res.value.View(), res.value.tm))
    {
      var v := p.Value();
      var r := new Thermodynamic();
      r.totalEnthalpy := 0.0;
      r.totalEntropy := 0.0;
      ClearCounts(r.crick);
      ClearCounts(r.mismatch);
      ClearCounts(r.dangends);
      r.tm := Temperature.Unset;
      assert r.View() == Zero();

      if |v.sequence| > threshold {
        approx := true;
      }
      if approx {
        var tm :- Temperature.TmApprox(CurrentFlags(), v);
        r.tm := tm;
        return Success(r);
      }

      var _ :- NearestNeighbourWalk(v, r);
      var tm :- TmExact(v, r, ln);
      r.tm := tm;
      return Success(r);
    }

    /** get_tm: the present parameters take the primer and its complement, and the temperature is computed. */
    method GetTm(primer: string, ln: real -> real) returns (res: Result<Temperature.Tm, Fault>)
      modifies this, param
      ensures param == old(param) && param.sequence == primer
      ensures res == TmOfPrimer(old(CurrentFlags()), old(param.Value()), primer, ln)
      ensures MakeComplement(primer).Success? ==>
                param.Value() == old(param.Value()).(sequence := primer, complement := MakeComplement(primer).value)
      ensures MakeComplement(primer).Failure? ==> param.Value() == old(param.Value()).(sequence := primer)
      ensures MakeComplement(primer).Success? ==>
                CurrentFlags() == old(CurrentFlags()).(approx := old(approx) || |primer| > old(threshold))
      ensures MakeComplement(primer).Failure? ==> CurrentFlags() == old(CurrentFlags())
    {
      param.sequence := primer;
      var complement :- MakeComplement(param.sequence);
      param.complement := complement;
      var results :- GetResults(param, ln);
      return Success(results.tm);
    }
  }
}
