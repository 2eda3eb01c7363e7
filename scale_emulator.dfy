/** The software scale: a counter-driven trend (load, settle, reset) plus bounded noise,
    clamped at zero and encoded in the device's line format
    `ST,GS,<sign><zero padding><digits>.<2 digits>kg\r\n`.
    Weights here are integer hundredths of a kilogram, which is what the line carries;
    the random noise and the random reset base are parameters. */
module ScaleEmulator {
  import opened Text
  import opened FloatText

  /** Constructor defaults: 100.0 kg, 1.0 kg of noise, 0.5 kg per step. */
  const DefaultInitialWeight: int := 10000
  const DefaultFluctuation: nat := 100
  const DefaultIncrementStep: int := 50

  /** Anchor and spread of the base a cycle restarts from: 100.0 kg plus or minus 10.0 kg. */
  const ResetAnchor: int := 10000
  const ResetSpread: int := 1000

  /** Counter values at which loading stops and the cycle resets. */
  const LoadingReadings: int := 50
  const CycleReadings: int := 70

  // ----- the line encoding -----

  function SignChar(h: int): (r: char) {
    if h < 0 then '-' else '+'
  }

  /** The zeros `'0='` inserts after the sign to reach the width of ten. */
  function Padding(h: int): (r: nat) {
    var n := |FixedPoint2(Abs(h))|;
    if n < 9 then 9 - n else 0
  }

  /** `format(h / 100, '0=+10.2f')`: a sign that is always written, zeros after the
      sign up to a total width of ten, and the fixed-point magnitude; never shorter than
      ten characters, and longer only when the number itself needs more. */
  function WeightField(h: int): (r: string)
    ensures |r| == if 1 + |FixedPoint2(Abs(h))| < 10 then 10 else 1 + |FixedPoint2(Abs(h))|
  {
    [SignChar(h)] + Zeros(Padding(h)) + FixedPoint2(Abs(h))
  }

  const LinePrefix: string := "ST,GS,"
  const LineSuffix: string := "kg\r\n"

  /** The line the emulator emits for a weight of `h` hundredths. */
  function EncodeLine(h: int): (r: string) {
    LinePrefix + WeightField(h) + LineSuffix
  }

  // ----- the trend -----

  /** One step of the trend before noise: `counter` below 50 adds a step, below 70
      subtracts half a step, otherwise the weight restarts from `resetBase` and the
      counter from zero; the counter is then incremented. */
  function Advance(weight: int, counter: int, step: int, resetBase: int): (int, int)
  {
    if counter < LoadingReadings then (weight + step, counter + 1)
    else if counter < CycleReadings then (weight - step / 2, counter + 1)
    else (resetBase, 1)
  }

  /** `n` readings taken from the state `(weight, counter)`, every reset using `resetBase`. */
  function Run(n: nat, weight: int, counter: int, step: int, resetBase: int): (int, int)
  {
    if n == 0 then (weight, counter)
    else
      var (w, c) := Run(n - 1, weight, counter, step, resetBase);
      Advance(w, c, step, resetBase)
  }

  /** After any reading from a counter in `[0, 70]` the counter is in `[1, 70]`. */
  lemma {:induction false} CounterStaysInCycle(n: nat, weight: int, counter: int, step: int, resetBase: int)
    requires 0 <= counter <= CycleReadings
    ensures 0 <= Run(n, weight, counter, step, resetBase).1 <= CycleReadings
    ensures n > 0 ==> 1 <= Run(n, weight, counter, step, resetBase).1
  {
    if n > 0 {
      CounterStaysInCycle(n - 1, weight, counter, step, resetBase);
    }
  }

  /** The loading phase: from a fresh cycle, the first 50 readings each add one step. */
  lemma {:induction false} LoadingPhase(k: nat, weight: int, step: int, resetBase: int)
    requires k <= LoadingReadings
    ensures Run(k, weight, 0, step, resetBase) == (weight + k * step, k)
  {
    if k > 0 {
      LoadingPhase(k - 1, weight, step, resetBase);
    }
  }

  /** The settling phase: readings 51 to 70 each take off half a step. */
  lemma {:induction false} SettlingPhase(j: nat, weight: int, step: int, resetBase: int)
    requires j <= CycleReadings - LoadingReadings
    ensures Run(LoadingReadings + j, weight, 0, step, resetBase) ==
            (weight + LoadingReadings * step - j * (step / 2), LoadingReadings + j)
  {
    if j == 0 {
      LoadingPhase(LoadingReadings, weight, step, resetBase);
    } else {
      SettlingPhase(j - 1, weight, step, resetBase);
    }
  }

  /** A whole cycle: 70 readings end 40 steps above the start (for an even step), and
      the 71st restarts from the reset base with the counter at 1. */
  lemma FullCycle(weight: int, step: int, resetBase: int)
    ensures Run(CycleReadings, weight, 0, step, resetBase) ==
            (weight + 50 * step - 20 * (step / 2), CycleReadings)
    ensures Run(CycleReadings + 1, weight, 0, step, resetBase) == (resetBase, 1)
  {
    SettlingPhase(CycleReadings - LoadingReadings, weight, step, resetBase);
  }

  /** The emitted weight: trend plus noise, clamped so that it is never negative. */
  function Emitted(weight: int, noise: int): (e: nat)
    ensures e >= weight + noise
    ensures e == weight + noise || e == 0
  {
    if weight + noise < 0 then 0 else weight + noise
  }

  /** Because of the clamp, every emitted line carries a `+` sign. */
  lemma EmittedSignIsPlus(weight: int, noise: int)
    ensures EncodeLine(Emitted(weight, noise))[|LinePrefix|] == '+'
  {
    var field := WeightField(Emitted(weight, noise));
    assert EncodeLine(Emitted(weight, noise))[|LinePrefix|] == field[0];
  }

  /** `ScaleEmulator`: the trend state is updated in place on every reading. */
  class Emulator {
    var currentWeight: int
    const fluctuation: nat
    const incrementStep: int
    var counter: int

    ghost predicate Valid()
      reads this
    {
      0 <= counter <= CycleReadings && incrementStep % 2 == 0
    }

    constructor (initialWeight: int, fluctuation: nat, incrementStep: int)
      requires incrementStep % 2 == 0
      ensures Valid()
      ensures currentWeight == initialWeight && counter == 0
      ensures this.fluctuation == fluctuation && this.incrementStep == incrementStep
    {
      currentWeight := initialWeight;
      this.fluctuation := fluctuation;
      this.incrementStep := incrementStep;
      counter := 0;
    }

    /** `get_simulated_reading`: advance the trend, add the noise to a copy (the stored
        weight never carries noise), clamp at zero and encode the line. */
    method GetSimulatedReading(noise: int, resetBase: int) returns (line: string)
      requires Valid()
      requires -(fluctuation as int) <= noise <= fluctuation
      requires ResetAnchor - ResetSpread <= resetBase <= ResetAnchor + ResetSpread
      modifies this
      ensures Valid() && 1 <= counter <= CycleReadings
      ensures (currentWeight, counter) == Advance(old(currentWeight), old(counter), incrementStep, resetBase)
      ensures line == EncodeLine(Emitted(currentWeight, noise))
    {
      if counter < LoadingReadings {
        currentWeight := currentWeight + incrementStep;
      } else if counter < CycleReadings {
        currentWeight := currentWeight - incrementStep / 2;
      } else {
        currentWeight := resetBase;
        counter := 0;
      }
      counter := counter + 1;
      var effective := currentWeight + noise;
      if effective < 0 {
        effective := 0;
      }
      line := LinePrefix + WeightField(effective) + LineSuffix;
    }
  }
}
