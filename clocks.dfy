/**
 * The two MIDI clocks: `InternalMidiClock`, which raises timing-clock events
 * from a system timer at a tempo in beats per minute, and `ExternalMidiClock`,
 * which forwards the timing-clock messages arriving from a MIDI input device.
 *
 * The timer and the device are modelled by the calls the clocks make on them;
 * the `TimingClock` event is modelled by a ghost count of the events raised.
 */
module Clocks {
  import opened Common
  import opened Midi
  import opened Messages

  /** `Timeout.Infinite`: a due time that never fires. */
  const Infinite: int := -1

  /**
   * `Math.Round` of the quotient `a / b` (round half to even, the .NET
   * default): the integer nearest to `a / b`, the even one on a tie.
   */
  function RoundHalfEven(a: nat, b: int): (r: nat)
    requires b > 0
    ensures -b <= 2 * (a - r * b) <= b
    ensures 2 * (a - r * b) == b || 2 * (a - r * b) == -b ==> r % 2 == 0
  {
    var q, m := a / b, a % b;
    DivMod(a, b);
    var r := if 2 * m < b || (2 * m == b && q % 2 == 0) then q else q + 1;
    HalfEvenChoice(a, b, q, m, r);
    r
  }

  /** Division of a natural number: the quotient and remainder recompose it. */
  lemma DivMod(a: nat, b: int)
    requires b > 0
    ensures a / b >= 0 && 0 <= a % b < b && a == (a / b) * b + a % b
  {
  }

  /** Rounding `a = q * b + m` to `q`, or to `q + 1` past the half, leaves at most half of `b` over or under. */
  lemma HalfEvenChoice(a: int, b: int, q: int, m: int, r: int)
    requires b > 0 && 0 <= m < b && a == q * b + m
    requires r == if 2 * m < b || (2 * m == b && q % 2 == 0) then q else q + 1
    ensures -b <= 2 * (a - r * b) <= b
    ensures 2 * (a - r * b) == b || 2 * (a - r * b) == -b ==> r % 2 == 0
  {
    if r == q + 1 {
      assert r * b == q * b + b;
    }
  }

  /** The tempo times the clocks per beat, as the source's 32-bit `int` product. */
  function ClocksPerMin(bpm: int): int {
    Wrap32(bpm * ClocksPerBeat)
  }

  /**
   * The timer period in milliseconds for a tempo,
   * `Math.Round(1000.0 / ((bpm * 24) / 60.0))`: 60000 divided by the clocks
   * per minute, rounded half to even.
   */
  function Period(bpm: int): (ms: nat)
    requires ClocksPerMin(bpm) > 0
    ensures -ClocksPerMin(bpm) <= 2 * (60000 - ms * ClocksPerMin(bpm)) <= ClocksPerMin(bpm)
  {
    RoundHalfEven(60000, ClocksPerMin(bpm))
  }

  /** Every tempo the setter can store gives a positive product and a period of 7 to 2500 ms. */
  lemma PeriodBounds(bpm: int)
    requires 1 <= bpm <= 360
    ensures ClocksPerMin(bpm) == 24 * bpm
    ensures 7 <= Period(bpm) <= 2500
  {
    var w, ms := ClocksPerMin(bpm), Period(bpm);
    assert 24 <= w <= 8640;
    assert (2 * ms + 1) * w == 2 * (ms * w) + w;
    MulMonotone(2 * ms + 1, w, 2 * ms + 1, 8640);
    assert (2 * ms + 1) * 8640 >= 120000;
    assert (2 * ms - 1) * w == 2 * (ms * w) - w;
    MulMonotone(2 * ms - 1, 24, 2 * ms - 1, w);
    assert (2 * ms - 1) * 24 <= 120000;
  }

  lemma MulMonotone(a: nat, b: nat, c: nat, d: nat)
    requires a <= c && b <= d
    ensures a * b <= c * d
  {
    assert a * b <= c * b by {
      assert (c - a) * b >= 0;
    }
    assert c * b <= c * d by {
      assert c * (d - b) >= 0;
    }
  }

  /**
   * The retiming step of `OnTick` as written: when a new tempo is pending,
   * the period is recomputed from the tempo being replaced, and only then is
   * the new tempo adopted. Returns the tempo and period afterwards.
   */
  function RetimeAsWritten(bpm: int, newBpm: int, period: int): (r: (int, int))
    requires ClocksPerMin(bpm) > 0
  {
    if newBpm != bpm then (newBpm, Period(bpm)) else (bpm, period)
  }

  /** The retiming step as intended: the period of the tempo being adopted. */
  function Retime(bpm: int, newBpm: int, period: int): (r: (int, int))
    requires ClocksPerMin(newBpm) > 0
  {
    if newBpm != bpm then (newBpm, Period(newBpm)) else (bpm, period)
  }

  /** With the intended step the period always matches the tempo in effect. */
  lemma RetimeKeepsInStep(bpm: int, newBpm: int, period: int)
    requires ClocksPerMin(bpm) > 0 && ClocksPerMin(newBpm) > 0 && period == Period(bpm)
    ensures Retime(bpm, newBpm, period).0 == newBpm
    ensures Retime(bpm, newBpm, period).1 == Period(Retime(bpm, newBpm, period).0)
  {
  }

  /**
   * The tempo and period after one retiming step per timer tick, where
   * `tempos[k]` is the tempo pending (`_newbpm`) at the k-th tick.
   */
  function RetimeRun(bpm: int, period: int, tempos: seq<int>): (int, int)
    requires forall t :: t in tempos ==> ClocksPerMin(t) > 0
    decreases |tempos|
  {
    if tempos == [] then (bpm, period)
    else
      var (b, p) := Retime(bpm, tempos[0], period);
      RetimeRun(b, p, tempos[1..])
  }

  /**
   * Over any run of ticks and tempo changes, the intended step leaves the
   * clock at the last tempo set, with that tempo's period: the timer never
   * runs at the period of a tempo no longer in effect.
   */
  lemma {:induction false} RetimeRunInStep(bpm: int, period: int, tempos: seq<int>)
    requires ClocksPerMin(bpm) > 0 && period == Period(bpm)
    requires forall t :: t in tempos ==> ClocksPerMin(t) > 0
    ensures tempos != [] ==> RetimeRun(bpm, period, tempos).0 == tempos[|tempos| - 1]
    ensures RetimeRun(bpm, period, tempos).1 == Period(RetimeRun(bpm, period, tempos).0)
    decreases |tempos|
  {
    if tempos != [] {
      assert tempos[0] in tempos;
      RetimeKeepsInStep(bpm, tempos[0], period);
      var (b, p) := Retime(bpm, tempos[0], period);
      var rest := tempos[1..];
      assert forall t :: t in rest ==> t in tempos;
      RetimeRunInStep(b, p, rest);
      if rest != [] {
        assert rest[|rest| - 1] == tempos[|tempos| - 1];
      }
    }
  }

  /**
   * As written the period lags one tempo change behind: a clock in step at
   * 120 bpm (21 ms) that is set to 60 bpm adopts 60 bpm but keeps ticking
   * every 21 ms, where 60 bpm needs 42 ms.
   */
  lemma TempoChangeLags()
    ensures Period(120) == 21 && Period(60) == 42
    ensures RetimeAsWritten(120, 60, 21) == (60, 21)
    ensures Retime(120, 60, 21) == (60, 42)
  {
    assert ClocksPerMin(120) == 2880 && ClocksPerMin(60) == 1440;
    assert Period(120) == 21 by {
      assert 60000 / 2880 == 20 && 60000 % 2880 == 2400;
    }
    assert Period(60) == 42 by {
      assert 60000 / 1440 == 41 && 60000 % 1440 == 960;
    }
  }

  class InternalMidiClock {
    /** `_bpm`: the tempo adopted at the last retiming. */
    var bpm: int
    /** `_newbpm`: the pending tempo, adopted at the next tick. */
    var newBpm: int
    /** `_period`: the timer period in milliseconds. */
    var period: int
    /** `_isDisposing`: set by `Dispose` and never cleared. */
    var isDisposing: bool
    /** The due time and period of the timer's last `Change` (or its construction). */
    var timerDue: int
    var timerPeriod: int
    var timerDisposed: bool
    /** The `TimingClock` events raised so far. */
    ghost var ticks: nat

    /**
     * Both tempos give a positive clocks-per-minute product, the timer runs
     * at the stored period, and the timer is disposed exactly when the clock
     * is disposing.
     */
    predicate Valid()
      reads this
    {
      ClocksPerMin(bpm) > 0 && ClocksPerMin(newBpm) > 0 && period >= 0 &&
      timerPeriod == period && (timerDisposed <==> isDisposing)
    }

    /**
     * `InternalMidiClock(bpm)`: both tempos are the argument, unclamped; the
     * timer is created stopped with the period of that tempo.
     */
    constructor (bpm: int)
      requires ClocksPerMin(bpm) > 0
      ensures Valid()
      ensures this.bpm == bpm && newBpm == bpm && period == Period(bpm)
      ensures !isDisposing && timerDue == Infinite && !timerDisposed && ticks == 0
    {
      this.bpm := bpm;
      newBpm := bpm;
      period := Period(bpm);
      timerDue, timerPeriod := Infinite, Period(bpm);
      timerDisposed := false;
      isDisposing := false;
      ticks := 0;
    }

    /** The `BeatsPerMin` getter: the pending tempo, not necessarily the one in effect. */
    function BeatsPerMin(): int
      reads this
    {
      newBpm
    }

    /** The `BeatsPerMin` setter: the pending tempo becomes the value clamped to 1..360; the timer is untouched. */
    method SetBeatsPerMin(value: int)
      requires Valid()
      modifies this
      ensures Valid()
      ensures BeatsPerMin() == Clamp(value, 1, 360)
      ensures bpm == old(bpm) && period == old(period) && isDisposing == old(isDisposing)
      ensures timerDue == old(timerDue) && timerPeriod == old(timerPeriod) && timerDisposed == old(timerDisposed)
      ensures ticks == old(ticks)
    {
      newBpm := Clamp(value, 1, 360);
    }

    /** `Start`: the timer fires now and then every period; a disposed timer throws. */
    method Start() returns (r: Outcome)
      requires Valid()
      modifies this
      ensures Valid()
      ensures r.Fail? <==> timerDisposed
      ensures r.Fail? ==> r.error == ObjectDisposed && unchanged(this)
      ensures r.Pass? ==> timerDue == 0 && timerPeriod == period
      ensures bpm == old(bpm) && newBpm == old(newBpm) && period == old(period)
      ensures isDisposing == old(isDisposing) && timerDisposed == old(timerDisposed) && ticks == old(ticks)
    {
      if timerDisposed {
        return Fail(ObjectDisposed);
      }
      timerDue, timerPeriod := 0, period;
      return Pass;
    }

    /** `Stop`: the timer never fires again until restarted; a disposed timer throws. */
    method Stop() returns (r: Outcome)
      requires Valid()
      modifies this
      ensures Valid()
      ensures r.Fail? <==> timerDisposed
      ensures r.Fail? ==> r.error == ObjectDisposed && unchanged(this)
      ensures r.Pass? ==> timerDue == Infinite && timerPeriod == period
      ensures bpm == old(bpm) && newBpm == old(newBpm) && period == old(period)
      ensures isDisposing == old(isDisposing) && timerDisposed == old(timerDisposed) && ticks == old(ticks)
    {
      if timerDisposed {
        return Fail(ObjectDisposed);
      }
      timerDue, timerPeriod := Infinite, period;
      return Pass;
    }

    /** `Dispose`: marks the clock disposing, for good, and disposes the timer. */
    method Dispose()
      requires Valid()
      modifies this
      ensures Valid()
      ensures isDisposing && timerDisposed
      ensures bpm == old(bpm) && newBpm == old(newBpm) && period == old(period)
      ensures timerDue == old(timerDue) && ticks == old(ticks)
    {
      isDisposing := true;
      timerDisposed := true;
    }

    /**
     * `OnTick`, the timer callback. A disposing clock does nothing. Otherwise
     * a pending tempo is adopted, with the timer retimed to the period of the
     * tempo it replaces (see `RetimeAsWritten`), and exactly one timing-clock
     * event is raised.
     */
    method OnTick()
      requires Valid()
      modifies this
      ensures Valid()
      ensures old(isDisposing) ==> unchanged(this)
      ensures !old(isDisposing) ==> ticks == old(ticks) + 1 && bpm == newBpm && newBpm == old(newBpm)
      ensures !old(isDisposing) ==> (bpm, period) == RetimeAsWritten(old(bpm), old(newBpm), old(period))
      ensures !old(isDisposing) && old(newBpm) != old(bpm) ==> timerDue == period && period == Period(old(bpm))
      ensures !old(isDisposing) && old(newBpm) == old(bpm) ==> timerDue == old(timerDue) && period == old(period)
      ensures isDisposing == old(isDisposing) && timerDisposed == old(timerDisposed)
    {
      if isDisposing {
        return;
      }
      if newBpm != bpm {
        period := Period(bpm);
        timerDue, timerPeriod := period, period;
        bpm := newBpm;
      }
      ticks := ticks + 1;
    }
  }

  class ExternalMidiClock {
    /** `_ownsInputDevice`: whether the clock opens and disposes the device itself. */
    const ownsInputDevice: bool
    /** `_isRunning`: whether timing clocks are forwarded. */
    var isRunning: bool
    /** `_isDisposing`: set by `Dispose` and never cleared. */
    var isDisposing: bool
    /** The clock's handler is registered for the device's real-time messages. */
    var subscribed: bool
    /** The clock has opened the device and started it receiving. */
    var deviceStarted: bool
    /** The clock has stopped the device receiving and disposed it. */
    var deviceReleased: bool
    /** The `TimingClock` events raised so far. */
    ghost var ticks: nat

    /**
     * The handler is registered exactly while the clock is not disposing, and
     * the clock starts and releases the device only if it owns it.
     */
    predicate Valid()
      reads this
    {
      (subscribed <==> !isDisposing) && deviceStarted == ownsInputDevice &&
      (deviceReleased <==> ownsInputDevice && isDisposing)
    }

    /**
     * `ExternalMidiClock(inDev, ownsInputDevice)`: registers the handler and,
     * only when it owns the device, opens it and starts it receiving. A new
     * clock is neither running nor disposing.
     */
    constructor (ownsInputDevice: bool)
      ensures Valid()
      ensures this.ownsInputDevice == ownsInputDevice
      ensures !isRunning && !isDisposing && subscribed && deviceStarted == ownsInputDevice && !deviceReleased
      ensures ticks == 0
    {
      this.ownsInputDevice := ownsInputDevice;
      isRunning := false;
      isDisposing := false;
      subscribed := true;
      deviceStarted := ownsInputDevice;
      deviceReleased := false;
      ticks := 0;
    }

    /** `Start`: forwarding on; the subscription and the device are untouched. */
    method Start()
      requires Valid()
      modifies this
      ensures Valid()
      ensures isRunning
      ensures isDisposing == old(isDisposing) && subscribed == old(subscribed)
      ensures deviceStarted == old(deviceStarted) && deviceReleased == old(deviceReleased) && ticks == old(ticks)
    {
      isRunning := true;
    }

    /** `Stop`: forwarding off; the subscription and the device are untouched. */
    method Stop()
      requires Valid()
      modifies this
      ensures Valid()
      ensures !isRunning
      ensures isDisposing == old(isDisposing) && subscribed == old(subscribed)
      ensures deviceStarted == old(deviceStarted) && deviceReleased == old(deviceReleased) && ticks == old(ticks)
    {
      isRunning := false;
    }

    /**
     * `Dispose`: marks the clock disposing, unregisters the handler and, when
     * the clock owns the device, stops and disposes it.
     */
    method Dispose()
      requires Valid()
      modifies this
      ensures Valid()
      ensures isDisposing && !subscribed
      ensures deviceReleased == ownsInputDevice
      ensures isRunning == old(isRunning) && deviceStarted == old(deviceStarted) && ticks == old(ticks)
    {
      isDisposing := true;
      subscribed := false;
      if ownsInputDevice {
        deviceReleased := true;
      }
    }

    /**
     * `RealTime`, the device's real-time message handler: raises one
     * timing-clock event exactly when the clock is not disposing, is running
     * and the message is a timing clock. Start, Stop and Continue messages
     * do not change the running flag.
     */
    method RealTime(msgType: RealTimeMessageType)
      requires Valid()
      modifies this
      ensures Valid()
      ensures ticks == old(ticks) + (if !isDisposing && isRunning && msgType == TimingClock then 1 else 0)
      ensures isRunning == old(isRunning) && isDisposing == old(isDisposing) && subscribed == old(subscribed)
      ensures deviceStarted == old(deviceStarted) && deviceReleased == old(deviceReleased)
    {
      if isDisposing {
        return;
      }
      if isRunning && msgType == TimingClock {
        ticks := ticks + 1;
      }
    }
  }
}
