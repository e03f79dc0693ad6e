/**
 * The sequence utilities of the melting program: the legality check, the
 * base-by-base complement and the pairing test (Melting.java,
 * `check_sequence`, `make_complement`, `is_mismatch`).
 */
module Sequences {
  import opened Wrappers
  import opened Faults
  import opened JavaStrings

  /** Upper-casing of one character as String.toUpperCase does it for the letters a-z. */
  function ToUpper(c: char): char {
    if 'a' <= c <= 'z' then (c as int - 32) as char else c
  }

  /** The base check_sequence inspects: upper-cased, with uridine read as thymidine. */
  function Folded(c: char): char {
    var u := ToUpper(c);
    if u == 'U' then 'T' else u
  }

  /** One of the symbols a sequence may hold: a base or the dangling-end gap. */
  predicate IsBaseOrGap(c: char) {
    c == 'A' || c == 'G' || c == 'C' || c == 'T' || c == '-'
  }

  /** A character check_sequence accepts. */
  predicate Legal(c: char) {
    IsBaseOrGap(Folded(c))
  }

  /** check_sequence: the number of characters of `s` that are not legal. */
  function CheckSequence(s: string): (mistakes: nat)
    ensures mistakes <= |s|
    ensures mistakes == 0 <==> forall i :: 0 <= i < |s| ==> Legal(s[i])
  {
    if |s| == 0 then 0
    else (if Legal(s[0]) then 0 else 1) + CheckSequence(s[1..])
  }

  /**
   * The mistakes of a concatenation are the sum of the mistakes of its parts;
   * with the one-character case this pins CheckSequence down as a count.
   */
  lemma {:induction false} CheckSequenceAppend(s: string, t: string)
    ensures CheckSequence(s + t) == CheckSequence(s) + CheckSequence(t)
    decreases |s|
  {
    if |s| == 0 {
      assert s + t == t;
    } else {
      assert (s + t)[1..] == s[1..] + t;
      CheckSequenceAppend(s[1..], t);
    }
  }

  /** One character counts as one mistake exactly when it is not legal. */
  lemma CheckSequenceSingle(c: char)
    ensures CheckSequence([c]) == if Legal(c) then 0 else 1
  {
    assert [c][1..] == [];
  }

  /** The Watson-Crick pairs A/T, T/A, G/C and C/G. */
  predicate WatsonCrick(top: char, bot: char) {
    (top == 'A' && bot == 'T') || (top == 'T' && bot == 'A') ||
    (top == 'G' && bot == 'C') || (top == 'C' && bot == 'G')
  }

  /** The complement of one symbol, as make_complement writes it. */
  function ComplementBase(c: char): Result<char, Fault> {
    if c == 'A' then Success('T')
    else if c == 'C' then Success('G')
    else if c == 'G' then Success('C')
    else if c == 'T' then Success('A')
    else if c == '-' then Success('-')
    else Failure(IllegalBase)
  }

  /**
   * make_complement: the complement of `s`, position by position and not
   * reversed.  Only the upper-case bases and '-' have a complement; any other
   * character (a lower-case base, 'U') ends the program.
   */
  function MakeComplement(s: string): (r: Result<string, Fault>)
    ensures r.Success? <==> forall i :: 0 <= i < |s| ==> IsBaseOrGap(s[i])
    ensures r.Failure? ==> r.error == IllegalBase
    ensures r.Success? ==> |r.value| == |s|
    ensures r.Success? ==> forall i :: 0 <= i < |s| ==> ComplementBase(s[i]) == Success(r.value[i])
  {
    if |s| == 0 then Success("")
    else
      var c :- ComplementBase(s[0]);
      var rest :- MakeComplement(s[1..]);
      Success([c] + rest)
  }

  /** Complementing twice gives back the sequence. */
  lemma MakeComplementInvolution(s: string)
    requires MakeComplement(s).Success?
    ensures MakeComplement(MakeComplement(s).value) == Success(s)
  {
    var c := MakeComplement(s).value;
    assert forall i :: 0 <= i < |c| ==> IsBaseOrGap(c[i]) by {
      forall i | 0 <= i < |c| ensures IsBaseOrGap(c[i]) {
        assert ComplementBase(s[i]) == Success(c[i]);
      }
    }
    var d := MakeComplement(c).value;
    forall i | 0 <= i < |s| ensures d[i] == s[i] {
      assert ComplementBase(s[i]) == Success(c[i]);
      assert ComplementBase(c[i]) == Success(d[i]);
    }
    assert d == s;
  }

  /**
   * is_mismatch: whether position `i` of the duplex is not a Watson-Crick pair.
   * A top symbol other than A, G, C, T (a gap, 'U', a lower-case base) counts
   * as a mismatch.
   */
  function IsMismatch(sequence: string, complement: string, i: int): (r: Result<bool, Fault>)
    ensures r.Success? <==> 0 <= i < |sequence| && i < |complement|
    ensures r.Failure? ==> r.error == IndexOutOfBounds
    ensures r.Success? ==> (r.value <==> !WatsonCrick(sequence[i], complement[i]))
  {
    var top :- CharAt(sequence, i);
    var bot :- CharAt(complement, i);
    Success(
      if top == 'A' then bot != 'T'
      else if top == 'G' then bot != 'C'
      else if top == 'C' then bot != 'G'
      else if top == 'T' then bot != 'A'
      else true)
  }

  /** A base of a sequence never mismatches its own computed complement. */
  lemma ComplementNeverMismatches(s: string, i: int)
    requires MakeComplement(s).Success?
    requires 0 <= i < |s| && (s[i] == 'A' || s[i] == 'C' || s[i] == 'G' || s[i] == 'T')
    ensures IsMismatch(s, MakeComplement(s).value, i) == Success(false)
  {
    var c := MakeComplement(s).value;
    assert ComplementBase(s[i]) == Success(c[i]);
    assert WatsonCrick(s[i], c[i]);
  }
}
