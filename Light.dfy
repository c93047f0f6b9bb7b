// home_devs/hub/src/hub_light.c: the home hub's lights. A TSL2550 light
// sensor on I2C address 0x39 has two ADC channels, read through registers
// 0x43 and 0x83 after register 0x03 powers it up; each reading is a valid
// bit, a 3-bit chord and a 4-bit step, which make a count on a piecewise
// linear scale. A timer switches the lights on below a low threshold of
// channel 0 and off at or above a high one, and writes the relay every tick.
module HubLight {
  import opened Wrappers
  import opened Thresholds

  /** The TSL2550's I2C address and the registers the reader uses. */
  const SensorAddr: int := 0x39
  const PowerUpReg: int := 0x03

  /** The ADC register of channel n: 0x43 for channel 0, 0x83 for any other. */
  function AdcReg(n: int): (reg: int)
    ensures reg == 0x43 || reg == 0x83
    ensures reg == 0x43 <==> n == 0
  {
    if n == 0 then 0x43 else 0x83
  }

  function Pow2(n: nat): (p: nat)
    ensures p >= 1
  {
    if n == 0 then 1 else 2 * Pow2(n - 1)
  }

  /** Bits 6-4 and 3-0 of a reading: the chord and the step. */
  function Chord(x: nat): nat {
    (x / 16) % 8
  }

  function StepOf(x: nat): nat {
    x % 16
  }

  /** 16.5 * (2^chord - 1) + step * 2^chord: the count of a chord and a step. */
  function Lux(chord: nat, step: nat): real {
    16.5 * (Pow2(chord) - 1) as real + (step * Pow2(chord)) as real
  }

  /** The count of a reading's low seven bits. */
  function Count(x: nat): real {
    Lux(Chord(x), StepOf(x))
  }

  /** Within a chord each step adds 2^chord. */
  lemma LuxStep(c: nat, s: nat)
    ensures Lux(c, s + 1) == Lux(c, s) + Pow2(c) as real
  {
    assert (s + 1) * Pow2(c) == s * Pow2(c) + Pow2(c);
  }

  /** The first step of a chord is 1.5 * 2^chord above the last step of the one before. */
  lemma LuxNextChord(c: nat)
    ensures Lux(c + 1, 0) == Lux(c, 15) + 1.5 * Pow2(c) as real
  {
    assert Pow2(c + 1) == 2 * Pow2(c);
  }

  /** The step between two neighbouring codes: 2^chord within a chord, 1.5 * 2^chord into the next one. */
  lemma CountStep(x: nat)
    requires x < 127
    ensures x % 16 < 15 ==> Count(x + 1) == Count(x) + Pow2(Chord(x)) as real
    ensures x % 16 == 15 ==> Count(x + 1) == Count(x) + 1.5 * Pow2(Chord(x)) as real
  {
    var c := x / 16;
    assert c < 8 && x == 16 * c + x % 16;
    if x % 16 == 15 {
      assert x + 1 == 16 * (c + 1) + 0;
      assert Chord(x + 1) == c + 1 && StepOf(x + 1) == 0 && Chord(x) == c && StepOf(x) == 15;
      LuxNextChord(c);
    } else {
      assert x + 1 == 16 * c + (x % 16 + 1);
      assert Chord(x + 1) == c && StepOf(x + 1) == StepOf(x) + 1 && Chord(x) == c;
      LuxStep(c, x % 16);
    }
  }

  /** The scale has no ties and no reversals: a larger 7-bit code is always a larger count. */
  lemma {:induction false} CountMonotone(x: nat, y: nat)
    requires x < y < 128
    ensures Count(x) < Count(y)
  {
    CountStep(y - 1);
    if x < y - 1 {
      CountMonotone(x, y - 1);
    }
  }

  /** The lowest code counts 0 and the highest 4015.5. */
  lemma CountEnds()
    ensures Count(0) == 0.0 && Count(127) == 4015.5
  {
    assert Chord(0) == 0 && StepOf(0) == 0;
    assert Chord(127) == 7 && StepOf(127) == 15;
    assert Pow2(1) == 2 && Pow2(2) == 4 && Pow2(3) == 8 && Pow2(4) == 16;
    assert Pow2(5) == 32 && Pow2(6) == 64 && Pow2(7) == 128;
  }

  /** The counts run from 0 to 4015.5. */
  lemma CountBounds(x: nat)
    requires x < 128
    ensures 0.0 <= Count(x) <= 4015.5
  {
    CountEnds();
    if x > 0 {
      CountMonotone(0, x);
    }
    if x < 127 {
      CountMonotone(x, 127);
    }
  }

  /**
   * read_sensor as written, given what the two register reads return (-1
   * for a failed read): the second result goes unchecked into a uint8_t,
   * so it is the checked read of that byte, where a failure becomes 0xFF, a
   * valid reading of the top code.
   */
  function ReadSensorAsWritten(power: int, adc: int): (r: real)
    ensures power < 0 ==> r == -1.0
    ensures power >= 0 && adc >= 0 ==> r == ReadSensor(power, adc)
    ensures power >= 0 && adc == -1 ==> r == 4015.5
  {
    var b := adc % 256;
    assert b % 256 == b && (adc >= 0 ==> adc % 256 == b) && (adc == -1 ==> b == 255);
    CountEnds();
    ReadSensor(power, b)
  }

  /** A failed ADC read is taken as the brightest light the sensor can report. */
  lemma ReadSensorAsWrittenFailure()
    ensures ReadSensorAsWritten(0, -1) == 4015.5
    ensures ReadSensor(0, -1) == -1.0
  {
    assert -1 % 256 == 255;
    CountEnds();
  }

  /** read_sensor with both reads checked: -1 for a failed read or a reading without the valid bit. */
  function ReadSensor(power: int, adc: int): (r: real)
    ensures r == -1.0 || 0.0 <= r <= 4015.5
    ensures r >= 0.0 ==> power >= 0 && adc >= 0
  {
    if power < 0 || adc < 0 then -1.0
    else
      var v := adc % 256;
      if v < 0x80 then -1.0
      else
        CountBounds(v - 0x80);
        Count(v - 0x80)
  }

  /**
   * A reading is valid exactly when both reads succeed and bit 7 is set;
   * it is then the count of the low seven bits, between 0 and 4015.5,
   * and an invalid one is -1.
   */
  lemma ReadSensorMeans(power: int, adc: int)
    ensures ReadSensor(power, adc) >= 0.0 <==> power >= 0 && adc >= 0 && adc % 256 >= 0x80
    ensures ReadSensor(power, adc) < 0.0 ==> ReadSensor(power, adc) == -1.0
    ensures ReadSensor(power, adc) >= 0.0 ==> ReadSensor(power, adc) == Count(adc % 256 - 0x80) <= 4015.5
    ensures power >= 0 && 0 <= adc < 256 ==> ReadSensor(power, adc) == ReadSensorAsWritten(power, adc)
  {
    if power >= 0 && adc >= 0 && adc % 256 >= 0x80 {
      CountBounds(adc % 256 - 0x80);
    }
  }

  /** What the two register reads of one channel returned. */
  datatype I2cReads = I2cReads(power: int, adc: int)

  /** The two flags of the module and the values written to the relay pin, oldest first. */
  datatype LightState = LightState(lightsOn: bool, sensorOk: bool, relay: seq<bool>)

  /** The flags at start. */
  const Initial: LightState := LightState(false, false, [])

  /**
   * lights_timer_cb on a state, with channel readings s0 and s1 and
   * thresholds thrLo and thrHi: a failed channel leaves the lights alone;
   * dark turns them on, bright off (writing the relay off first).
   */
  function TickSpec(c: LightState, s0: real, s1: real, thrLo: real, thrHi: real): (r: LightState)
    ensures |r.relay| > |c.relay| && r.relay[..|c.relay|] == c.relay
    ensures r.relay[|r.relay| - 1] == r.lightsOn
  {
    if s0 < 0.0 || s1 < 0.0 then c.(sensorOk := false, relay := c.relay + [c.lightsOn])
    else if s0 < thrLo && !c.lightsOn then c.(lightsOn := true, sensorOk := true, relay := c.relay + [true])
    else if s0 >= thrHi && c.lightsOn then c.(lightsOn := false, sensorOk := true, relay := c.relay + [false, false])
    else c.(sensorOk := true, relay := c.relay + [c.lightsOn])
  }

  /**
   * Every tick ends with the relay at the lights' state; the sensor is ok
   * exactly when both channels read; a failed read keeps the lights; a good
   * one applies the heater limits' hysteresis to channel 0, lights on
   * below thrLo and off at or above thrHi.
   */
  lemma TickMeans(c: LightState, s0: real, s1: real, thrLo: real, thrHi: real)
    ensures var r := TickSpec(c, s0, s1, thrLo, thrHi);
      && |r.relay| > |c.relay| && r.relay[..|c.relay|] == c.relay
      && r.relay[|r.relay| - 1] == r.lightsOn
      && (forall k :: |c.relay| <= k < |r.relay| ==> r.relay[k] == r.lightsOn)
      && (r.sensorOk <==> s0 >= 0.0 && s1 >= 0.0)
      && (!r.sensorOk ==> r.lightsOn == c.lightsOn)
      && (r.sensorOk ==> r.lightsOn == Wants(true, Some(Reading(0.0, s0)), 0.0, c.lightsOn, thrLo, thrHi))
  {
  }

  /**
   * With lights on, a failed ADC read on channel 0 and a good channel 1, the
   * tick as written sees the brightest light and switches the lights off,
   * while the tick on checked reads keeps them on and marks the sensor bad.
   */
  lemma TickAsWrittenSwitchesOff(c: LightState, r1: I2cReads, thrLo: real, thrHi: real)
    requires c.lightsOn && thrHi <= 4015.5
    requires r1.power >= 0 && 0x80 <= r1.adc < 0x100
    ensures TickSpec(c, ReadSensorAsWritten(0, -1), ReadSensorAsWritten(r1.power, r1.adc), thrLo, thrHi) ==
            c.(lightsOn := false, sensorOk := true, relay := c.relay + [false, false])
    ensures TickSpec(c, ReadSensor(0, -1), ReadSensor(r1.power, r1.adc), thrLo, thrHi) ==
            c.(sensorOk := false, relay := c.relay + [true])
  {
    ReadSensorAsWrittenFailure();
    var s1 := ReadSensor(r1.power, r1.adc);
    ReadSensorMeans(r1.power, r1.adc);
    assert ReadSensorAsWritten(r1.power, r1.adc) == s1 >= 0.0;
    TickBrightOrFailed(c, 4015.5, s1, thrLo, thrHi);
  }

  /** With lights on and channel 1 good, a bright channel 0 switches them off and a failed one keeps them. */
  lemma TickBrightOrFailed(c: LightState, bright: real, s1: real, thrLo: real, thrHi: real)
    requires c.lightsOn && bright >= thrHi && bright >= 0.0 && s1 >= 0.0
    ensures TickSpec(c, bright, s1, thrLo, thrHi) == c.(lightsOn := false, sensorOk := true, relay := c.relay + [false, false])
    ensures TickSpec(c, -1.0, s1, thrLo, thrHi) == c.(sensorOk := false, relay := c.relay + [true])
  {
  }

  /** With thrLo <= thrHi, readings in between keep the lights as they were, below turn them on and above off. */
  lemma LightsDeadBand(c: LightState, s0: real, s1: real, thrLo: real, thrHi: real)
    requires thrLo <= thrHi && s0 >= 0.0 && s1 >= 0.0
    ensures var r := TickSpec(c, s0, s1, thrLo, thrHi);
      && (s0 < thrLo ==> r.lightsOn)
      && (s0 >= thrHi ==> !r.lightsOn)
      && (thrLo <= s0 < thrHi ==> r.lightsOn == c.lightsOn)
  {
    TickMeans(c, s0, s1, thrLo, thrHi);
    DeadBand(Reading(0.0, s0), 0.0, c.lightsOn, thrLo, thrHi);
  }

  /** With thrLo <= thrHi, a second tick on the same readings switches nothing. */
  lemma LightsSettle(c: LightState, s0: real, s1: real, thrLo: real, thrHi: real)
    requires thrLo <= thrHi
    ensures var r := TickSpec(c, s0, s1, thrLo, thrHi);
      TickSpec(r, s0, s1, thrLo, thrHi).lightsOn == r.lightsOn
  {
    var r := TickSpec(c, s0, s1, thrLo, thrHi);
    TickMeans(c, s0, s1, thrLo, thrHi);
    TickMeans(r, s0, s1, thrLo, thrHi);
    if s0 >= 0.0 && s1 >= 0.0 {
      Settles(true, Some(Reading(0.0, s0)), 0.0, c.lightsOn, thrLo, thrHi);
    }
  }

  class Lights {
    /** s_lights_on and s_sensor_ok. */
    var lightsOn: bool
    var sensorOk: bool
    /** The values written to the relay pin, oldest first. */
    var relay: seq<bool>

    function State(): LightState
      reads this
    {
      LightState(lightsOn, sensorOk, relay)
    }

    /** hub_light_init: the flags start off and the first tick runs at once. */
    constructor(r0: I2cReads, r1: I2cReads, thrLo: real, thrHi: real)
      ensures State() == TickSpec(Initial, ReadSensor(r0.power, r0.adc), ReadSensor(r1.power, r1.adc), thrLo, thrHi)
    {
      lightsOn, sensorOk, relay := false, false, [];
      new;
      Tick(r0, r1, thrLo, thrHi);
    }

    /**
     * lights_timer_cb, given the results of the register reads of both
     * channels, each read with the corrected ReadSensor.
     */
    method Tick(r0: I2cReads, r1: I2cReads, thrLo: real, thrHi: real)
      modifies this
      ensures State() == TickSpec(old(State()), ReadSensor(r0.power, r0.adc), ReadSensor(r1.power, r1.adc), thrLo, thrHi)
    {
      var s0 := ReadSensor(r0.power, r0.adc);
      var s1 := ReadSensor(r1.power, r1.adc);
      if s0 < 0.0 || s1 < 0.0 {
        sensorOk := false;
      } else {
        sensorOk := true;
        if s0 < thrLo && !lightsOn {
          lightsOn := true;
        } else if s0 >= thrHi && lightsOn {
          relay := relay + [false];
          lightsOn := false;
        }
      }
      relay := relay + [lightsOn];
    }
  }
}
