/**
 * The melting temperature (Melting.java, `tm_approx`, `tm_exact`, and the
 * choice between them in get_results).  The natural logarithm of the Java
 * library is a parameter `ln`; the program's own log10 is ln(d) / ln(10).
 * The temperature is kept as the formula chosen and its operands, and
 * `Celsius` evaluates it where no division by zero occurs.
 */
module Temperature {
  import opened Wrappers
  import opened Faults
  import opened JavaStrings
  import opened Settings
  import opened Walk

  datatype Hybridisation = DnaDna | DnaRna | RnaRna {
    /** The constant term of the approximate formula. */
    function Base(): real {
      match this
      case DnaDna => 81.5
      case DnaRna => 67.0
      case RnaRna => 78.0
    }

    /** The coefficient of the percentage of G+C in the approximate formula. */
    function GcFactor(): real {
      match this
      case DnaDna => 0.41
      case DnaRna => 0.8
      case RnaRna => 0.8
    }
  }

  /** The salt correction applied to the temperature itself. */
  datatype SaltOffset = NoOffset | Wetmur91(salt: real) | SantaLucia96(salt: real)

  /** The melting temperature in degrees Celsius, as the formula that gives it. */
  datatype Tm =
    /** The 0.0 a result holds before any temperature is computed. */
    | Unset
    /** enthalpy / (entropy + 1.987 ln(concProbe / gnat)) + offset - 273.15 */
    | NearestNeighbour(enthalpy: real, entropy: real, concProbe: real, gnat: real, offset: SaltOffset)
    /** Base + 16.6 log10(salt / (1 + 0.7 salt)) + GcFactor * percentGC - 500 / size */
    | GcContent(hybrid: Hybridisation, salt: real, percentGC: real, size: nat)

  /** The program's log10: ln(d) / ln(10). */
  function Log10(ln: real -> real, d: real): real
    requires ln(10.0) != 0.0
  {
    ln(d) / ln(10.0)
  }

  function OffsetValue(o: SaltOffset, ln: real -> real): real
    requires ln(10.0) != 0.0
    requires o.Wetmur91? ==> 1.0 + 0.7 * o.salt != 0.0
  {
    match o
    case NoOffset => 0.0
    case Wetmur91(salt) => 16.6 * Log10(ln, salt / (1.0 + 0.7 * salt)) + 3.85
    case SantaLucia96(salt) => 12.5 * Log10(ln, salt)
  }

  /** The value of an approximate temperature. */
  function ApproxCelsius(hybrid: Hybridisation, salt: real, percentGC: real, size: nat, ln: real -> real): real
    requires ln(10.0) != 0.0 && 1.0 + 0.7 * salt != 0.0 && size > 0
  {
    hybrid.Base() + 16.6 * Log10(ln, salt / (1.0 + 0.7 * salt)) + hybrid.GcFactor() * percentGC - 500.0 / size as real
  }

  /** The value of a temperature, or None where the formula divides by zero. */
  function Celsius(t: Tm, ln: real -> real): Option<real>
    requires ln(10.0) != 0.0
  {
    match t
    case Unset => Some(0.0)
    case NearestNeighbour(h, s, probe, gnat, offset) =>
      if gnat == 0.0 || s + 1.987 * ln(probe / gnat) == 0.0 then None
      else if offset.Wetmur91? && 1.0 + 0.7 * offset.salt == 0.0 then None
      else Some(h / (s + 1.987 * ln(probe / gnat)) + OffsetValue(offset, ln) - 273.15)
    case GcContent(hybrid, salt, percentGC, size) =>
      if 1.0 + 0.7 * salt == 0.0 || size == 0 then None
      else Some(ApproxCelsius(hybrid, salt, percentGC, size, ln))
  }

  /** The approximate temperature rises strictly with the percentage of G+C. */
  lemma ApproxRisesWithGC(hybrid: Hybridisation, salt: real, gc1: real, gc2: real, size: nat, ln: real -> real)
    requires ln(10.0) != 0.0 && salt > 0.0 && size > 0 && gc1 < gc2
    ensures ApproxCelsius(hybrid, salt, gc1, size, ln) < ApproxCelsius(hybrid, salt, gc2, size, ln)
  {
  }

  /** The approximate temperature rises strictly with the length of the duplex. */
  lemma ApproxRisesWithSize(hybrid: Hybridisation, salt: real, gc: real, n1: nat, n2: nat, ln: real -> real)
    requires ln(10.0) != 0.0 && salt > 0.0 && 0 < n1 < n2
    ensures ApproxCelsius(hybrid, salt, gc, n1, ln) < ApproxCelsius(hybrid, salt, gc, n2, ln)
  {
    assert 500.0 / n2 as real < 500.0 / n1 as real by {
      assert 500.0 / n2 as real * n2 as real == 500.0;
      assert 500.0 / n1 as real * n1 as real == 500.0;
    }
  }

  /** The number of G and C bases of `s` (upper case only, as tm_approx reads them). */
  function CountGC(s: string): (n: nat)
    ensures n <= |s|
  {
    if |s| == 0 then 0
    else (if s[0] == 'G' || s[0] == 'C' then 1 else 0) + CountGC(s[1..])
  }

  /** The G+C count of a concatenation is the sum of the counts of its parts. */
  lemma {:induction false} CountGCAppend(s: string, t: string)
    ensures CountGC(s + t) == CountGC(s) + CountGC(t)
    decreases |s|
  {
    if |s| == 0 {
      assert s + t == t;
    } else {
      assert (s + t)[1..] == s[1..] + t;
      CountGCAppend(s[1..], t);
    }
  }

  /** One character counts exactly when it is an upper-case G or C. */
  lemma CountGCSingle(c: char)
    ensures CountGC([c]) == if c == 'G' || c == 'C' then 1 else 0
  {
    assert [c][1..] == [];
  }

  /** tm_approx: the temperature from the percentage of G+C, by hybridisation type. */
  function TmApprox(flags: Flags, p: Params): (r: Result<Tm, Fault>)
    ensures r.Success? <==> |p.sequence| > 0 && (flags.dnadna || flags.dnarna || flags.rnarna)
    ensures |p.sequence| == 0 ==> r == Failure(EmptyDuplex)
    ensures |p.sequence| > 0 && !(flags.dnadna || flags.dnarna || flags.rnarna) ==> r == Failure(NoHybridisationType)
    ensures r.Success? ==> r.value.GcContent? && r.value.salt == p.concSalt && r.value.size == |p.sequence|
    ensures r.Success? ==> 0.0 <= r.value.percentGC <= 100.0
    ensures r.Success? ==> r.value.percentGC == CountGC(p.sequence) as real / |p.sequence| as real * 100.0
    ensures r.Success? ==>
              r.value.hybrid == (if flags.dnadna then DnaDna else if flags.dnarna then DnaRna else RnaRna)
  {
    if |p.sequence| == 0 then Failure(EmptyDuplex)
    else
      var size := |p.sequence|;
      var percent := (CountGC(p.sequence) as real / size as real) * 100.0;
      assert 0.0 <= percent <= 100.0 by {
        assert CountGC(p.sequence) as real / size as real <= 1.0;
      }
      if flags.dnadna then Success(GcContent(DnaDna, p.concSalt, percent, size))
      else if flags.dnarna then Success(GcContent(DnaRna, p.concSalt, percent, size))
      else if flags.rnarna then Success(GcContent(RnaRna, p.concSalt, percent, size))
      else Failure(NoHybridisationType)
  }

  /** tm_approx reads only the sequence and the sodium concentration of the parameters. */
  lemma TmApproxReadsSequenceAndSalt(flags: Flags, p: Params, q: Params)
    requires p.sequence == q.sequence && p.concSalt == q.concSalt
    ensures TmApprox(flags, p) == TmApprox(flags, q)
  {
  }

  /** Dividing by the same positive number keeps a strict order. */
  lemma DivisionRises(a: real, b: real, n: real)
    requires a < b && n > 0.0
    ensures a / n * 100.0 < b / n * 100.0
  {
    assert a / n * n == a && b / n * n == b;
  }

  /** The temperature tm_approx gives has the value of the approximate formula on its own operands. */
  lemma TmApproxCelsius(flags: Flags, p: Params, ln: real -> real)
    requires ln(10.0) != 0.0 && 1.0 + 0.7 * p.concSalt != 0.0 && TmApprox(flags, p).Success?
    ensures var t := TmApprox(flags, p).value;
      Celsius(t, ln) == Some(ApproxCelsius(t.hybrid, p.concSalt, CountGC(p.sequence) as real / |p.sequence| as real * 100.0, |p.sequence|, ln))
  {
  }

  /**
   * Of two duplexes of the same length under the same salt and flags, the one
   * with more G and C bases has the higher approximate temperature.
   */
  lemma TmApproxRisesWithGC(flags: Flags, p: Params, q: Params, ln: real -> real)
    requires ln(10.0) != 0.0 && p.concSalt > 0.0 && q.concSalt == p.concSalt
    requires |p.sequence| == |q.sequence| && CountGC(p.sequence) < CountGC(q.sequence)
    requires TmApprox(flags, p).Success?
    ensures TmApprox(flags, q).Success?
    ensures Celsius(TmApprox(flags, p).value, ln).Some? && Celsius(TmApprox(flags, q).value, ln).Some?
    ensures Celsius(TmApprox(flags, p).value, ln).value < Celsius(TmApprox(flags, q).value, ln).value
  {
    var n := |p.sequence| as real;
    var gp := CountGC(p.sequence) as real / n * 100.0;
    var gq := CountGC(q.sequence) as real / n * 100.0;
    DivisionRises(CountGC(p.sequence) as real, CountGC(q.sequence) as real, n);
    TmApproxCelsius(flags, p, ln);
    TmApproxCelsius(flags, q, ln);
    ApproxRisesWithGC(TmApprox(flags, p).value.hybrid, p.concSalt, gp, gq, |p.sequence|, ln);
  }

  /** The salt corrections tm_exact knows. */
  datatype SaltModel = San98a | Wet91a | San96a | NoCorrection

  /** The salt correction chosen by the first six characters of its code, in tm_exact's order. */
  function SelectSaltCorrection(code: string): (r: Result<SaltModel, Fault>)
    ensures |code| < 6 ==> r == Failure(IndexOutOfBounds)
  {
    var san98a :- StrNCmp(Some(code), Some("san98a"), 6);
    if san98a == 0 then Success(San98a)
    else
      var wet91a :- StrNCmp(Some(code), Some("wet91a"), 6);
      if wet91a == 0 then Success(Wet91a)
      else
        var san96a :- StrNCmp(Some(code), Some("san96a"), 6);
        if san96a == 0 then Success(San96a)
        else
          var nak99a :- StrNCmp(Some(code), Some("nak99a"), 6);
          if nak99a == 0 then Failure(NotImplemented) else Success(NoCorrection)
  }

  /**
   * The salt correction is the one whose name the code starts with; nak99a
   * is refused, an unknown code corrects nothing, and a code shorter than six
   * characters cannot be compared.
   */
  lemma SaltCorrectionByName(code: string)
    ensures |code| < 6 ==> SelectSaltCorrection(code) == Failure(IndexOutOfBounds)
    ensures |code| >= 6 ==>
              SelectSaltCorrection(code) ==
                (if code[..6] == "san98a" then Success(San98a)
                 else if code[..6] == "wet91a" then Success(Wet91a)
                 else if code[..6] == "san96a" then Success(San96a)
                 else if code[..6] == "nak99a" then Failure(NotImplemented)
                 else Success(NoCorrection))
  {
    StrNCmpZeroIffSamePrefix(Some(code), Some("san98a"), 6);
    StrNCmpZeroIffSamePrefix(Some(code), Some("wet91a"), 6);
    StrNCmpZeroIffSamePrefix(Some(code), Some("san96a"), 6);
    StrNCmpZeroIffSamePrefix(Some(code), Some("nak99a"), 6);
  }

  /** The entropy after tm_exact's salt correction: only san98a changes it. */
  function CorrectedEntropy(model: SaltModel, p: Params, entropy: real, ln: real -> real): real {
    if model == San98a then entropy + 0.368 * (|p.sequence| - 1) as real * ln(p.concSalt) else entropy
  }

  /** The temperature offset of tm_exact's salt correction: only wet91a and san96a have one. */
  function SaltOffsetOf(model: SaltModel, p: Params): SaltOffset {
    match model
    case Wet91a => Wetmur91(p.concSalt)
    case San96a => SantaLucia96(p.concSalt)
    case _ => NoOffset
  }

  /** tm_exact: the corrected entropy and the nearest-neighbour temperature. */
  function TmExact(p: Params, enthalpy: real, entropy: real, ln: real -> real): (r: Result<(real, Tm), Fault>)
    ensures r.Failure? <==> SelectSaltCorrection(p.sodiumCorrection).Failure?
    ensures r.Success? ==>
              && r.value.1.NearestNeighbour? && r.value.1.enthalpy == enthalpy && r.value.1.entropy == r.value.0
              && r.value.1.concProbe == p.concProbe && r.value.1.gnat == p.gnat
  {
    var model :- SelectSaltCorrection(p.sodiumCorrection);
    var corrected := CorrectedEntropy(model, p, entropy, ln);
    Success((corrected, NearestNeighbour(enthalpy, corrected, p.concProbe, p.gnat, SaltOffsetOf(model, p))))
  }

  /** tm_exact applied to the totals of the walk: the entropy is replaced by its corrected value. */
  function ExactResults(p: Params, t: Totals, ln: real -> real): Result<(Totals, Tm), Fault> {
    var exact :- TmExact(p, t.enthalpy, t.entropy, ln);
    Success((t.(entropy := exact.0), exact.1))
  }

  /**
   * tm_exact keeps the walk's counts and enthalpy; the entropy changes only
   * by the san98a correction, and the temperature is the nearest-neighbour
   * formula on the corrected totals.  It fails exactly when the salt
   * correction code does.
   */
  lemma ExactResultsFollowTheWalk(p: Params, t: Totals, ln: real -> real)
    ensures ExactResults(p, t, ln).Success? <==> SelectSaltCorrection(p.sodiumCorrection).Success?
    ensures ExactResults(p, t, ln).Success? ==>
              var r := ExactResults(p, t, ln).value;
              var model := SelectSaltCorrection(p.sodiumCorrection).value;
              && r.0.crick == t.crick && r.0.mismatch == t.mismatch && r.0.dangends == t.dangends
              && r.0.enthalpy == t.enthalpy
              && r.0.entropy == (if model == San98a then t.entropy + 0.368 * (|p.sequence| - 1) as real * ln(p.concSalt) else t.entropy)
              && r.1 == NearestNeighbour(r.0.enthalpy, r.0.entropy, p.concProbe, p.gnat, SaltOffsetOf(model, p))
  {
  }

  /** The computation takes the approximate path when it is requested or the sequence is too long. */
  predicate ApproximatePath(flags: Flags, p: Params) {
    flags.approx || |p.sequence| > flags.threshold
  }

  /**
   * get_results: the approximate temperature alone, or the nearest-neighbour
   * totals and counts with the temperature computed from them.
   */
  function Results(flags: Flags, p: Params, ln: real -> real): (r: Result<(Totals, Tm), Fault>)
    ensures r.Success? ==> r.value.0.WellSized()
    ensures r.Success? ==>
              if ApproximatePath(flags, p) then r.value.1.GcContent? && r.value.0 == Zero()
              else r.value.1.NearestNeighbour?
  {
    if ApproximatePath(flags, p) then
      var tm :- TmApprox(flags, p);
      Success((Zero(), tm))
    else
      var t :- Analyse(p);
      ExactResults(p, t, ln)
  }

  /** On the approximate path the totals and all counts stay zero and the temperature is the G+C one. */
  lemma ApproximateResultsAreTmOnly(flags: Flags, p: Params, ln: real -> real)
    requires ApproximatePath(flags, p)
    ensures Results(flags, p, ln).Success? <==> TmApprox(flags, p).Success?
    ensures Results(flags, p, ln).Success? ==> Results(flags, p, ln).value == (Zero(), TmApprox(flags, p).value)
  {
  }
}
