/**
 * `CustomRandom` of stream/script.js: a sampler over the integers
 * `[start, end)` that never returns its previous value twice in a row. The
 * values of `Math.random()` it consumes are passed in as `draws`, reals in
 * `[0, 1)`; each of its loops rejects draws until one differs from
 * `lastValue`, so a call needs some such draw among those it is given.
 */
module StreamRandom {

  /** `Math.floor(Math.random() * (end - start)) + start` for the draw `u`. */
  function Sample(u: real, start: int, end: int): int {
    (u * (end - start) as real).Floor + start
  }

  predicate ValidDraws(draws: seq<real>) {
    forall i :: 0 <= i < |draws| ==> 0.0 <= draws[i] < 1.0
  }

  /** Some draw yields a value other than `last`, so the rejection loop stops. */
  predicate HasFresh(draws: seq<real>, start: int, end: int, last: int) {
    exists i :: 0 <= i < |draws| && Sample(draws[i], start, end) != last
  }

  /** The index of the draw a rejection loop accepts: the first whose value is not `last`. */
  function FirstFresh(draws: seq<real>, start: int, end: int, last: int): (k: nat)
    requires HasFresh(draws, start, end, last)
    ensures k < |draws| && Sample(draws[k], start, end) != last
    ensures forall j :: 0 <= j < k ==> Sample(draws[j], start, end) == last
    decreases |draws|
  {
    if Sample(draws[0], start, end) != last then 0
    else
      assert HasFresh(draws[1..], start, end, last) by {
        var i :| 0 <= i < |draws| && Sample(draws[i], start, end) != last;
        assert draws[1..][i - 1] == draws[i];
      }
      var k := 1 + FirstFresh(draws[1..], start, end, last);
      assert forall j :: 1 <= j < k ==> draws[j] == draws[1..][j - 1];
      k
  }

  /** A draw in `[0, 1)` yields a value in `[start, end)` when the range is not empty. */
  lemma SampleInRange(u: real, start: int, end: int)
    requires 0.0 <= u < 1.0 && start < end
    ensures start <= Sample(u, start, end) < end
  {
    var w := (end - start) as real;
    var f := (u * w).Floor;
    assert f as real <= u * w < f as real + 1.0;
    assert 0.0 <= u * w;
    assert u * w < w by {
      assert w - u * w == (1.0 - u) * w;
      assert (1.0 - u) * w > 0.0;
    }
    assert 0 <= f < end - start;
  }

  /** `abs(v - last) == 0` is the same test as `v == last` on integers. */
  function Abs(x: int): (r: nat)
    ensures r == 0 <==> x == 0
  {
    if x < 0 then -x else x
  }

  class CustomRandom {
    const start: int
    const end: int
    var lastValue: int

    /** The `seed` argument is accepted and ignored; `lastValue` starts at 0. */
    constructor (seed: int, start: int, end: int)
      ensures this.start == start && this.end == end && lastValue == 0
    {
      this.start := start;
      this.end := end;
      lastValue := 0;
    }

    /**
     * `getRandomValue`: draws until the value differs from `lastValue`,
     * records it as `lastValue` and returns it. `used` is the number of
     * draws consumed.
     */
    method GetRandomValue(draws: seq<real>) returns (value: int, used: nat)
      requires ValidDraws(draws) && HasFresh(draws, start, end, lastValue)
      modifies this`lastValue
      ensures used == FirstFresh(draws, start, end, old(lastValue)) + 1
      ensures value == Sample(draws[used - 1], start, end)
      ensures value != old(lastValue) && lastValue == value
      ensures start < end ==> start <= value < end
    {
      ghost var k := FirstFresh(draws, start, end, lastValue);
      var i := 0;
      value := Sample(draws[0], start, end);
      while value == lastValue
        invariant 0 <= i <= k
        invariant value == Sample(draws[i], start, end)
        decreases k - i
      {
        i := i + 1;
        value := Sample(draws[i], start, end);
      }
      used := i + 1;
      if start < end {
        SampleInRange(draws[i], start, end);
      }
      lastValue := value;
    }

    /**
     * `getNotNearlyRandomValue`: the same loop with the exit test
     * `abs(value - lastValue) != 0`, so the same result.
     */
    method GetNotNearlyRandomValue(draws: seq<real>) returns (value: int, used: nat)
      requires ValidDraws(draws) && HasFresh(draws, start, end, lastValue)
      modifies this`lastValue
      ensures used == FirstFresh(draws, start, end, old(lastValue)) + 1
      ensures value == Sample(draws[used - 1], start, end)
      ensures value != old(lastValue) && lastValue == value
      ensures start < end ==> start <= value < end
    {
      ghost var k := FirstFresh(draws, start, end, lastValue);
      var i := 0;
      value := Sample(draws[0], start, end);
      while Abs(value - lastValue) == 0
        invariant 0 <= i <= k
        invariant value == Sample(draws[i], start, end)
        decreases k - i
      {
        i := i + 1;
        value := Sample(draws[i], start, end);
      }
      used := i + 1;
      if start < end {
        SampleInRange(draws[i], start, end);
      }
      lastValue := value;
    }
  }

  /**
   * Draws whose samples are 2, 2, 5, 5, 2 on `[0, 10)` give the outputs
   * 2, 5, 2: a repeat of the previous output is resampled, and the first
   * output is not 0 because `lastValue` starts at 0.
   */
  method RepeatedSamplesExample() returns (outputs: seq<int>)
    ensures outputs == [2, 5, 2]
  {
    var r := new CustomRandom(1000, 0, 10);
    var draws := [0.2, 0.2, 0.5, 0.5, 0.2];
    assert Sample(0.2, 0, 10) == 2 && Sample(0.5, 0, 10) == 5;
    assert HasFresh(draws, 0, 10, 0) by { assert Sample(draws[0], 0, 10) != 0; }
    var a, used := r.GetRandomValue(draws);
    assert used == 1;
    assert HasFresh(draws[1..], 0, 10, 2) by { assert Sample(draws[1..][1], 0, 10) != 2; }
    var b, used2 := r.GetRandomValue(draws[1..]);
    assert used2 == 2;
    assert HasFresh(draws[3..], 0, 10, 5) by { assert Sample(draws[3..][1], 0, 10) != 5; }
    var c, used3 := r.GetNotNearlyRandomValue(draws[3..]);
    outputs := [a, b, c];
  }
}
