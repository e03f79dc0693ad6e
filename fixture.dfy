/**
 * A worked duplex: the probe "AT" facing "TA", with a regular table whose
 * slot 0 holds the "IA" initiation entry, slot 1 the "AT" step, and every
 * other slot a "GG" step.  The walk succeeds, uses no dangling end and no
 * mismatch, and counts the "AT" step once.
 */
module Fixture {
  import opened Wrappers
  import opened Tables
  import opened Settings
  import opened Walk
  import opened WalkProperties

  const IA_ENTRY: CalorConst := CalorConst(Some("IA"), 0.2, -5.7)
  const AT_ENTRY: CalorConst := CalorConst(Some("AT"), -7.2, -20.4)
  const GG_ENTRY: CalorConst := CalorConst(Some("GG"), -8.0, -19.9)

  function RegularTable(): Table {
    Dataset([], seq(NB, i => if i == 0 then IA_ENTRY else if i == 1 then AT_ENTRY else GG_ENTRY), "")
  }

  function EmptyTable(): Table {
    Dataset([], seq(NB, _ => EMPTY_SLOT), "")
  }

  function Example(): Params {
    Params("AT", "TA", 0.00000005, 0.05, DEFAULT_NUC_CORR, RegularTable(), EmptyTable(), EmptyTable(), DEFAULT_SALT_CORR)
  }

  /** The regular search cannot fail on a full step window when every scanned slot has a code. */
  lemma {:induction false} RegularScanSucceeds(p: Params, i: int, j: nat, t: Totals)
    requires j <= NBNN && t.WellSized() && 0 <= i && i + 2 <= |p.sequence|
    requires forall m :: j <= m < NBNN ==> HasCode(p.nn.data[m], 2)
    ensures RegularScan(p, i, j, t).Success?
    decreases NBNN - j
  {
    if j < NBNN {
      var e := p.nn.data[j];
      var hit := StepHit(e, p.sequence, i).value;
      RegularScanSucceeds(p, i, j + 1, if hit then t.CountCrick(j).Plus(e) else t);
    }
  }

  /** The start of the example's walk: no dangling end, and one "IA" entry for each terminal base. */
  lemma ExampleStart()
    ensures DanglingEnds(Example()) == Success((Zero(), 0, 0))
    ensures Initiation(Example(), 0, 0, Zero()) == Success(ExampleStartTotals())
  {
    var p := Example();
    assert GapAt(p, 0, 0) == Success(false);
    assert GapAt(p, 1, 1) == Success(false);
    assert p.nn.data[0] == IA_ENTRY;
    assert GetIndex(p.nn.data, "IA") == Success(0);
  }

  /** The totals after the example's initiation: two "IA" entries and no counts. */
  function ExampleStartTotals(): (t: Totals)
    ensures t.WellSized()
    ensures forall j :: 0 <= j < NB ==> t.crick[j] == 0 && t.mismatch[j] == 0 && t.dangends[j] == 0
  {
    Zero().Plus(IA_ENTRY).Plus(IA_ENTRY)
  }

  /** The regular search of the example's only step does not fail. */
  lemma ExampleRegularSucceeds()
    ensures RegularScan(Example(), 0, 0, ExampleStartTotals()).Success?
  {
    ExampleCodesPresent();
    RegularScanSucceeds(Example(), 0, 0, ExampleStartTotals());
  }

  /** The regular search of the example's only step counts slot 1 and nothing else. */
  lemma ExampleRegularStep() returns (t': Totals)
    ensures RegularScan(Example(), 0, 0, ExampleStartTotals()) == Success(t')
    ensures t'.WellSized()
    ensures forall j :: 0 <= j < NB ==> t'.crick[j] == if j == 1 then 1 else 0
    ensures forall j :: 0 <= j < NB ==> t'.mismatch[j] == 0 && t'.dangends[j] == 0
  {
    var p := Example();
    var t := ExampleStartTotals();
    ExampleRegularSucceeds();
    RegularScanCounts(p, 0, 0, t);
    t' := RegularScan(p, 0, 0, t).value;
    forall j | 0 <= j < NB ensures t'.crick[j] == if j == 1 then 1 else 0 {
      OnlySlotOneNamesAT(j);
    }
  }

  /** The walk of the example succeeds and counts exactly one "AT" step. */
  lemma ExampleWalk()
    ensures Analyse(Example()).Success?
    ensures var t := Analyse(Example()).value;
      && t.WellSized()
      && (forall j :: 0 <= j < NB ==> t.crick[j] == if j == 1 then 1 else 0)
      && (forall j :: 0 <= j < NB ==> t.mismatch[j] == 0 && t.dangends[j] == 0)
  {
    var p := Example();
    ExampleStart();
    var t := ExampleStartTotals();
    var t' := ExampleRegularStep();
    assert WindowMismatch(p, 0) == Success(false);
    assert Scan(p, 0, 1, 0, t) == Success(t');
    assert Analyse(p) == Success(t');
  }

  /** Every regular slot of the example has a code of two characters. */
  lemma ExampleCodesPresent()
    ensures forall m :: 0 <= m < NBNN ==> HasCode(Example().nn.data[m], 2)
  {
    forall m | 0 <= m < NBNN ensures HasCode(Example().nn.data[m], 2) {
      var e := Example().nn.data[m];
      assert e == IA_ENTRY || e == AT_ENTRY || e == GG_ENTRY;
    }
  }

  /** Of the regular slots of the example, only slot 1 names the step "AT". */
  lemma OnlySlotOneNamesAT(j: nat)
    requires j < NB
    ensures NamesStep(Example().nn.data[j], "AT", 0) <==> j == 1
  {
    var e := Example().nn.data[j];
    if j == 0 {
      assert e == IA_ENTRY;
      assert e.crickPair.value[..2] == "IA" != "AT" == "AT"[0..2];
    } else if j == 1 {
      assert e == AT_ENTRY;
    } else {
      assert e == GG_ENTRY;
      assert e.crickPair.value[..2] == "GG" != "AT" == "AT"[0..2];
    }
  }
}
