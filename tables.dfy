/**
 * Parameter tables of the nearest-neighbour model (Melting.java,
 * `calor_const`, `dataset`, `get_index`) and the tests by which the analyser
 * decides that a table entry names a stretch of the duplex.
 */
module Tables {
  import opened Wrappers
  import opened Faults
  import opened JavaStrings

  /** Number of slots of every parameter set. */
  const NB: nat := 240
  /** Slots scanned for regular nearest-neighbour steps. */
  const NBNN: nat := 18
  /** Slots scanned for mismatches. */
  const NBMM: nat := 240
  /** Slots scanned for dangling ends. */
  const NBDE: nat := 64
  /** Enthalpy of a mismatch entry whose parameters are unknown. */
  const UNDEFINED_ENTHALPY: real := 99999.0

  /**
   * A Crick pair and its calorimetric parameters.  The code is "XY" for a
   * regular step, "IA"/"IG" for the initiation terms, and "XY/ZW" for
   * mismatches and dangling ends; a slot that was never filled has no code.
   */
  datatype CalorConst = CalorConst(crickPair: Option<string>, enthalpy: real, entropy: real)

  /** The slot a freshly allocated dataset holds. */
  const EMPTY_SLOT: CalorConst := CalorConst(None, 0.0, 0.0)

  /** A parameter set: the citations, the NB slots, and the file it came from. */
  datatype Dataset = Dataset(reference: seq<string>, data: seq<CalorConst>, file: string)

  /** A parameter set with its fixed number of slots. */
  type Table = d: Dataset | |d.data| == NB witness Dataset([], seq(NB, _ => EMPTY_SLOT), "")

  /** The code of `e` is present and at least `n` characters long. */
  predicate HasCode(e: CalorConst, n: nat) {
    e.crickPair.Some? && n <= |e.crickPair.value|
  }

  /** The first two characters of the code of `e` are "IA". */
  predicate IsInitiationIA(e: CalorConst) {
    SamePrefix(e.crickPair, Some("IA"), 2)
  }

  /** The search of get_index, from slot `i` on. */
  function IndexFrom(data: seq<CalorConst>, i: nat): (r: Result<nat, Fault>)
    requires i <= |data|
    ensures r.Success? ==> i <= r.value < |data| && IsInitiationIA(data[r.value])
    ensures r.Success? ==> forall j :: i <= j < r.value ==> HasCode(data[j], 2) && !IsInitiationIA(data[j])
    ensures r == Failure(BadIndexName) <==>
      forall j :: i <= j < |data| ==> HasCode(data[j], 2) && !IsInitiationIA(data[j])
    decreases |data| - i
  {
    if i == |data| then Failure(BadIndexName)
    else
      StrNCmpZeroIffSamePrefix(data[i].crickPair, Some("IA"), 2);
      var cmp :- StrNCmp(data[i].crickPair, Some("IA"), 2);
      if cmp == 0 then Success(i) else IndexFrom(data, i + 1)
  }

  /**
   * get_index: the first slot whose code begins with "IA".  The name asked
   * for is not consulted, so asking for "IG" also yields the "IA" slot.
   */
  function GetIndex(data: seq<CalorConst>, name: string): (r: Result<nat, Fault>)
    ensures r.Success? ==> r.value < |data| && IsInitiationIA(data[r.value])
    ensures r.Success? ==> forall j :: 0 <= j < r.value ==> !IsInitiationIA(data[j])
    ensures r == Failure(BadIndexName) <==> forall j :: 0 <= j < |data| ==> HasCode(data[j], 2) && !IsInitiationIA(data[j])
    ensures r.Failure? && r.error != BadIndexName ==> exists j :: 0 <= j < |data| && !HasCode(data[j], 2)
  {
    var r := IndexFrom(data, 0);
    if r.Failure? && r.error != BadIndexName then
      NullOrShortCodeFound(data, 0);
      r
    else r
  }

  lemma {:induction false} NullOrShortCodeFound(data: seq<CalorConst>, i: nat)
    requires i <= |data|
    requires IndexFrom(data, i).Failure? && IndexFrom(data, i).error != BadIndexName
    ensures exists j :: i <= j < |data| && !HasCode(data[j], 2)
    decreases |data| - i
  {
    StrNCmpZeroIffSamePrefix(data[i].crickPair, Some("IA"), 2);
    if HasCode(data[i], 2) {
      NullOrShortCodeFound(data, i + 1);
    }
  }

  /** The regular step at position `at` of `sequence` is named by the code of `e`. */
  predicate NamesStep(e: CalorConst, sequence: string, at: int) {
    HasCode(e, 2) && 0 <= at && at + 2 <= |sequence| &&
    e.crickPair.value[..2] == sequence[at..at + 2]
  }

  /**
   * The two-by-two window at `at` is named by the code "XY/ZW" of `e`: XY is
   * the window of the sequence and ZW that of the complement.
   */
  predicate NamesPair(e: CalorConst, sequence: string, complement: string, at: int) {
    NamesStep(e, sequence, at) && HasCode(e, 5) && at + 2 <= |complement| &&
    e.crickPair.value[3..5] == complement[at..at + 2]
  }

  /** `strncmp(sequence.substring(at), code, 2) == 0`, with its exceptions. */
  function StepHit(e: CalorConst, sequence: string, at: int): (r: Result<bool, Fault>)
    ensures r == Success(true) <==> NamesStep(e, sequence, at)
    ensures r.Failure? <==> !(0 <= at <= |sequence| - 2 && HasCode(e, 2))
  {
    var window :- Substring(Some(sequence), at);
    StrNCmpZeroIffSamePrefix(Some(window), e.crickPair, 2);
    var cmp :- StrNCmp(Some(window), e.crickPair, 2);
    Success(cmp == 0)
  }

  /**
   * The window test of the dangling-end and mismatch searches:
   * `strncmp(sequence.substring(at), code, 2) == 0 &&
   *  strncmp(complement.substring(at), code.substring(3), 2) == 0`,
   * evaluated left to right with its exceptions.
   */
  function PairHit(e: CalorConst, sequence: string, complement: string, at: int): (r: Result<bool, Fault>)
    ensures r == Success(true) <==> NamesPair(e, sequence, complement, at)
    ensures r.Failure? ==> !NamesPair(e, sequence, complement, at)
    ensures !StepHit(e, sequence, at).Failure? && !NamesStep(e, sequence, at) ==> r == Success(false)
  {
    var window :- Substring(Some(sequence), at);
    StrNCmpZeroIffSamePrefix(Some(window), e.crickPair, 2);
    var first :- StrNCmp(Some(window), e.crickPair, 2);
    assert |window| >= 2 ==> window[..2] == sequence[at..at + 2];
    if first != 0 then Success(false)
    else
      var bottom :- Substring(Some(complement), at);
      var tail :- Substring(e.crickPair, 3);
      StrNCmpZeroIffSamePrefix(Some(bottom), Some(tail), 2);
      assert |tail| >= 2 ==> tail[..2] == e.crickPair.value[3..5];
      assert |bottom| >= 2 ==> bottom[..2] == complement[at..at + 2];
      var second :- StrNCmp(Some(bottom), Some(tail), 2);
      Success(second == 0)
  }

  /** Which of the two calorimetric quantities of an entry is meant. */
  datatype Quantity = Enthalpy | Entropy

  function Value(e: CalorConst, q: Quantity): real {
    match q
    case Enthalpy => e.enthalpy
    case Entropy => e.entropy
  }

  /**
   * The contribution that occurrence counts stand for: the sum over the slots
   * of the count of the slot times its value.
   */
  function Dot(counts: seq<int>, data: seq<CalorConst>, q: Quantity): real
    requires |counts| <= |data|
  {
    if |counts| == 0 then 0.0
    else Dot(counts[..|counts| - 1], data, q) + counts[|counts| - 1] as real * Value(data[|counts| - 1], q)
  }

  /** Counting one more occurrence of slot `k` adds the value of that slot. */
  lemma {:induction false} DotBump(counts: seq<int>, data: seq<CalorConst>, q: Quantity, k: nat)
    requires k < |counts| <= |data|
    ensures Dot(counts[k := counts[k] + 1], data, q) == Dot(counts, data, q) + Value(data[k], q)
    decreases |counts|
  {
    var n := |counts| - 1;
    var bumped := counts[k := counts[k] + 1];
    if k < n {
      assert bumped[..n] == counts[..n][k := counts[k] + 1];
      DotBump(counts[..n], data, q, k);
    } else {
      assert bumped[..n] == counts[..n];
    }
  }

  /** No occurrences stand for no contribution. */
  lemma {:induction false} DotZero(n: nat, data: seq<CalorConst>, q: Quantity)
    requires n <= |data|
    ensures Dot(seq(n, _ => 0), data, q) == 0.0
  {
    if n > 0 {
      assert seq(n, _ => 0)[..n - 1] == seq(n - 1, _ => 0);
      DotZero(n - 1, data, q);
    }
  }
}
