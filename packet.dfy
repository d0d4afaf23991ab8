/** A captured packet (Packet.cs): an immutable value whose fields the reader sets
    once, and the conversion of its native timestamp to a .NET DateTime, written
    as a count of DateTime ticks (100 ns units since 0001-01-01). */
module Packets {
  import opened Exceptions
  import opened NativeMethods

  const TicksPerSecond: int := 10_000_000
  const TicksPerMillisecond: int := 10_000
  /** DateTime.MaxValue.Ticks; DateTime.MinValue.Ticks is 0 */
  const MaxTicks: int := 3_155_378_975_999_999_999
  /** The largest magnitude DateTime.Add accepts, in milliseconds */
  const MaxMillis: int := 315_537_897_600_000

  const AddValueMessage := "Value to add was out of range."
  const DateArithmeticMessage := "The added or subtracted value results in an un-representable DateTime."

  predicate InDateRange(ticks: int) {
    0 <= ticks <= MaxTicks
  }

  /** Two's-complement 64-bit wrap-around of an unchecked `long` product */
  function Wrap64(x: int): (r: int)
    ensures -0x8000_0000_0000_0000 <= r < 0x8000_0000_0000_0000
    ensures -0x8000_0000_0000_0000 <= x < 0x8000_0000_0000_0000 ==> r == x
  {
    (x + 0x8000_0000_0000_0000) % 0x1_0000_0000_0000_0000 - 0x8000_0000_0000_0000
  }

  /** DateTime.AddTicks: raises when the result leaves the DateTime range. */
  function AddTicks(ticks: int, value: int): (r: Result<int>)
    ensures r.Ok? <==> InDateRange(ticks + value)
    ensures r.Ok? ==> r.value == ticks + value
    ensures r.Err? ==> r.error.ArgumentOutOfRange?
  {
    if value > MaxTicks - ticks || value < -ticks then
      Err(ArgumentOutOfRange("value", DateArithmeticMessage))
    else
      Ok(ticks + value)
  }

  /** DateTime.AddSeconds for a whole number of seconds: the millisecond count is
      range-checked first, then the ticks are added. (For whole seconds the
      double arithmetic of DateTime.AddSeconds is exact wherever the result is in range.) */
  function AddSeconds(ticks: int, seconds: int): (r: Result<int>)
    ensures r.Ok? <==> -MaxMillis < seconds * 1000 < MaxMillis && InDateRange(ticks + seconds * TicksPerSecond)
    ensures r.Ok? ==> r.value == ticks + seconds * TicksPerSecond
    ensures r.Err? ==> r.error.ArgumentOutOfRange?
  {
    var millis := seconds * 1000;
    if millis <= -MaxMillis || millis >= MaxMillis then
      Err(ArgumentOutOfRange("value", AddValueMessage))
    else
      AddTicks(ticks, millis * TicksPerMillisecond)
  }

  datatype Packet = Packet(data: seq<byte>, nativeTimestamp: Timeval, linkLayerType: int)
  {
    /** The Timestamp getter: the Unix epoch plus the native seconds plus the native
        microseconds times ten ticks, or an out-of-range error when the instant
        does not fit a DateTime. */
    function Timestamp(): (r: Result<int>)
      ensures var base := UnixEpochTicks + nativeTimestamp.seconds as int * TicksPerSecond;
              var extra := Wrap64(nativeTimestamp.microseconds as int * MicrosecondsToTicks);
              && (r.Ok? <==> InDateRange(base) && InDateRange(base + extra))
              && (r.Ok? ==> r.value == base + extra)
    ensures r.Err? ==> r.error.ArgumentOutOfRange?
    {
      var afterSeconds := AddSeconds(UnixEpochTicks, nativeTimestamp.seconds as int);
      if afterSeconds.Err? then Err(afterSeconds.error)
      else AddTicks(afterSeconds.value, Wrap64(nativeTimestamp.microseconds as int * MicrosecondsToTicks))
    }
  }

  /** A native timestamp of zero seconds and zero microseconds is 1970-01-01T00:00:00. */
  lemma TimestampOfZero(data: seq<byte>, linkLayerType: int)
    ensures Packet(data, Timeval(0, 0), linkLayerType).Timestamp() == Ok(UnixEpochTicks)
  {
  }

  /** One more microsecond is exactly ten more ticks (where neither product wraps). */
  lemma MicrosecondStep(p: Packet)
    requires -0x0CCC_CCCC_CCCC_CCCC <= p.nativeTimestamp.microseconds as int < 0x0CCC_CCCC_CCCC_CCCC
    requires p.Timestamp().Ok?
    requires p.(nativeTimestamp := p.nativeTimestamp.(microseconds := p.nativeTimestamp.microseconds + 1)).Timestamp().Ok?
    ensures p.(nativeTimestamp := p.nativeTimestamp.(microseconds := p.nativeTimestamp.microseconds + 1)).Timestamp().value
         == p.Timestamp().value + MicrosecondsToTicks
  {
  }

  /** One more second is exactly ten million more ticks. */
  lemma SecondStep(p: Packet)
    requires p.nativeTimestamp.seconds < 0x7FFF_FFFF_FFFF_FFFF
    requires p.Timestamp().Ok?
    requires p.(nativeTimestamp := p.nativeTimestamp.(seconds := p.nativeTimestamp.seconds + 1)).Timestamp().Ok?
    ensures p.(nativeTimestamp := p.nativeTimestamp.(seconds := p.nativeTimestamp.seconds + 1)).Timestamp().value
         == p.Timestamp().value + TicksPerSecond
  {
  }
}
