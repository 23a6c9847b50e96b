/**
 * Direction codec of the navigator: the opposite of a compass code
 * (`simple_slip`, `flip_direction`) and its English word
 * (`direction_narrative`).
 */
module Direction {
  import opened Wrappers
  import opened Errors

  /** The four one-letter codes that have an opposite. */
  predicate IsCardinal(d: string) {
    d == "N" || d == "E" || d == "S" || d == "W"
  }

  /** The codes on the north-south axis. */
  predicate OnNorthSouthAxis(d: string) {
    d == "N" || d == "S"
  }

  /** The eight compass codes the narrator knows a word for. */
  predicate IsCompass(d: string) {
    IsCardinal(d) || d == "NW" || d == "NE" || d == "SW" || d == "SE"
  }

  /**
   * The opposite of a one-letter code: the other end of the same axis.
   * Anything else is a ValueError naming the code.
   */
  function SimpleSlip(d: string): (r: Result<string, NavError>)
    ensures r.Success? <==> IsCardinal(d)
    ensures r.Success? ==> IsCardinal(r.value) && r.value != d
    ensures r.Success? ==> (OnNorthSouthAxis(r.value) <==> OnNorthSouthAxis(d))
    ensures r.Failure? ==> r.error == InvalidDirection(d)
  {
    if d == "E" then Success("W")
    else if d == "W" then Success("E")
    else if d == "N" then Success("S")
    else if d == "S" then Success("N")
    else Failure(InvalidDirection(d))
  }

  /** Taking the opposite twice gives the code back. */
  lemma SimpleSlipInvolution(d: string)
    requires IsCardinal(d)
    ensures SimpleSlip(d).Success? && SimpleSlip(SimpleSlip(d).value) == Success(d)
  {
  }

  /**
   * The opposite of a one- or two-letter code, letter by letter: the first
   * letter is flipped (and may fail) before the second is looked at. Codes
   * of any other length fail naming the whole code.
   */
  function FlipDirection(d: string): (r: Result<string, NavError>)
    ensures |d| == 1 ==> r == SimpleSlip(d)
    ensures r.Success? <==> (|d| == 1 || |d| == 2) && forall i :: 0 <= i < |d| ==> IsCardinal([d[i]])
    ensures r.Success? ==> |r.value| == |d| && forall i :: 0 <= i < |d| ==> SimpleSlip([d[i]]) == Success([r.value[i]])
    ensures |d| != 1 && |d| != 2 ==> r == Failure(InvalidDirection(d))
    ensures |d| == 2 && !IsCardinal([d[0]]) ==> r == Failure(InvalidDirection([d[0]]))
    ensures |d| == 2 && IsCardinal([d[0]]) && !IsCardinal([d[1]]) ==> r == Failure(InvalidDirection([d[1]]))
  {
    if |d| == 1 then
      SimpleSlip(d)
    else if |d| == 2 then
      match SimpleSlip([d[0]])
      case Failure(e) => Failure(e)
      case Success(first) =>
        match SimpleSlip([d[1]])
        case Failure(e) => Failure(e)
        case Success(second) =>
          assert [(first + second)[0]] == first && [(first + second)[1]] == second;
          Success(first + second)
    else
      Failure(InvalidDirection(d))
  }

  /** Flipping is an involution on every code it accepts. */
  lemma {:induction false} FlipInvolution(d: string)
    requires FlipDirection(d).Success?
    ensures FlipDirection(FlipDirection(d).value) == Success(d)
  {
    var f := FlipDirection(d).value;
    if |d| == 1 {
      SimpleSlipInvolution(d);
    } else {
      assert |d| == 2 && |f| == 2;
      SimpleSlipInvolution([d[0]]);
      SimpleSlipInvolution([d[1]]);
      assert SimpleSlip([f[0]]) == Success([d[0]]);
      assert SimpleSlip([f[1]]) == Success([d[1]]);
      assert [d[0]] + [d[1]] == d;
    }
  }

  /** The eight compass codes are closed under flipping, and none is its own opposite. */
  lemma {:induction false} FlipCompassClosed(d: string)
    requires IsCompass(d)
    ensures FlipDirection(d).Success?
    ensures IsCompass(FlipDirection(d).value)
    ensures FlipDirection(d).value != d
  {
    if |d| == 2 {
      assert [d[0]] == d[..1] && [d[1]] == d[1..];
      var f := FlipDirection(d).value;
      assert f == [f[0]] + [f[1]];
    }
  }

  /**
   * The English word of a compass code; any other code is a ValueError.
   */
  function DirectionNarrative(d: string): (r: Result<string, NavError>)
    ensures r.Success? <==> IsCompass(d)
    ensures r.Failure? ==> r.error == InvalidDirection(d)
  {
    if d == "N" then Success("North")
    else if d == "E" then Success("East")
    else if d == "S" then Success("South")
    else if d == "W" then Success("West")
    else if d == "NW" then Success("Northwest")
    else if d == "NE" then Success("Northeast")
    else if d == "SW" then Success("Southwest")
    else if d == "SE" then Success("Southeast")
    else Failure(InvalidDirection(d))
  }

  /** Different compass codes are narrated by different words. */
  lemma NarrativeInjective(d1: string, d2: string)
    requires DirectionNarrative(d1).Success? && DirectionNarrative(d2).Success?
    requires DirectionNarrative(d1).value == DirectionNarrative(d2).value
    ensures d1 == d2
  {
  }
}
