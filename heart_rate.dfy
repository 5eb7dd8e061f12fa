/**
 * The BLE heart-rate sniffer: decoding of Heart Rate Measurement
 * notifications into a session's heart-rate and RR-interval lists, and the
 * summary statistics printed at the end of a session.
 */
module HeartRate {
  import opened Common

  /** `int.from_bytes(bs, "little")`; an empty slice reads as 0. */
  function LittleEndian(bs: seq<Byte>): (v: nat)
    ensures |bs| <= 2 ==> v < 65536
    ensures |bs| == 1 ==> v == bs[0]
  {
    if |bs| == 0 then 0 else bs[0] + 256 * LittleEndian(bs[1..])
  }

  /** Flags bit 0: the heart-rate value is 16 bits wide. */
  predicate WideHeartRate(flags: Byte) { flags % 2 == 1 }

  /** Flags bit 4: RR intervals follow. */
  predicate HasRrIntervals(flags: Byte) { (flags / 16) % 2 == 1 }

  /**
   * One decoded notification. RR intervals are kept in the sensor's unit of
   * 1/1024 s: the float Python appends, `word / 1024`, is exactly
   * `Seconds(word)`.
   */
  datatype Packet = Packet(heartRate: nat, rrIntervals: seq<nat>)

  function Seconds(ticks: nat): real
  {
    ticks as real / 1024.0
  }

  /** What Python raises instead of producing a packet. */
  datatype ParseError =
    | EmptyPayload          // `data[0]` on an empty payload
    | MissingHeartRateByte  // `data[1]` on an 8-bit packet of one byte

  datatype Decoded = Ok(packet: Packet) | Err(error: ParseError)

  /** The index just after the heart-rate field. */
  function HeartRateEnd(flags: Byte): nat
  {
    if WideHeartRate(flags) then 3 else 2
  }

  /** The RR intervals of the 16-bit little-endian words from `pos`, read while two bytes remain. */
  function RrFrom(data: seq<Byte>, pos: nat): (rr: seq<nat>)
    ensures pos + 1 < |data| ==> |rr| == (|data| - pos) / 2
    ensures forall k :: 0 <= k < |rr| ==> rr[k] < 65536
    decreases |data| - pos
  {
    if pos + 1 < |data| then [LittleEndian(data[pos..pos + 2])] + RrFrom(data, pos + 2)
    else []
  }

  /**
   * What `parse_hr_packet` appends for one payload. A 16-bit value is read
   * from whatever bytes the slice holds (a short slice is not rejected), and
   * the flags' energy-expended bit is not consulted: RR words are read right
   * after the heart-rate field.
   */
  function Decode(data: seq<Byte>): Decoded
  {
    if |data| == 0 then Err(EmptyPayload)
    else if !WideHeartRate(data[0]) && |data| < 2 then Err(MissingHeartRateByte)
    else Ok(Packet(HeartRateField(data), RrField(data)))
  }

  /** The heart-rate value: a little-endian word from the (possibly short) slice `data[1:3]`, or the byte `data[1]`. */
  function HeartRateField(data: seq<Byte>): nat
    requires |data| > 0 && (WideHeartRate(data[0]) || |data| > 1)
  {
    if WideHeartRate(data[0]) then LittleEndian(data[1..if |data| < 3 then |data| else 3]) else data[1]
  }

  /** The RR intervals, when the flags announce them. */
  function RrField(data: seq<Byte>): seq<nat>
    requires |data| > 0
  {
    if HasRrIntervals(data[0]) then RrFrom(data, HeartRateEnd(data[0])) else []
  }

  /** A well-formed notification: flags, the heart rate in 8 or 16 bits, then RR words in 1/1024 s. */
  function Encode(wide: bool, heartRate: nat, rrTicks: seq<nat>): (data: seq<Byte>)
    requires heartRate < (if wide then 65536 else 256)
    requires forall k :: 0 <= k < |rrTicks| ==> rrTicks[k] < 65536
  {
    var flags: Byte := (if wide then 1 else 0) + (if |rrTicks| > 0 then 16 else 0);
    var hr: seq<Byte> := if wide then [heartRate % 256, heartRate / 256] else [heartRate];
    [flags] + hr + EncodeTicks(rrTicks)
  }

  function EncodeTicks(ticks: seq<nat>): (data: seq<Byte>)
    requires forall k :: 0 <= k < |ticks| ==> ticks[k] < 65536
    ensures |data| == 2 * |ticks|
  {
    if |ticks| == 0 then [] else [ticks[0] % 256, ticks[0] / 256] + EncodeTicks(ticks[1..])
  }

  lemma {:induction false} RrFromTicks(prefix: seq<Byte>, ticks: seq<nat>)
    requires forall k :: 0 <= k < |ticks| ==> ticks[k] < 65536
    ensures RrFrom(prefix + EncodeTicks(ticks), |prefix|) == ticks
    decreases |ticks|
  {
    var data := prefix + EncodeTicks(ticks);
    if |ticks| > 0 {
      var t := ticks[0];
      assert EncodeTicks(ticks) == [t % 256, t / 256] + EncodeTicks(ticks[1..]);
      assert data[|prefix|..|prefix| + 2] == [t % 256, t / 256];
      assert LittleEndian([t % 256, t / 256]) == t;
      var prefix' := prefix + [t % 256, t / 256];
      assert data == prefix' + EncodeTicks(ticks[1..]);
      RrFromTicks(prefix', ticks[1..]);
    }
  }

  lemma LittleEndianWord(t: nat)
    requires t < 65536
    ensures LittleEndian([t % 256, t / 256]) == t
  {
    assert [t % 256, t / 256][1..] == [t / 256];
  }

  lemma EncodedFlags(wide: bool, withRr: bool)
    ensures var flags: Byte := (if wide then 1 else 0) + (if withRr then 16 else 0);
      WideHeartRate(flags) == wide && HasRrIntervals(flags) == withRr
  {
  }

  /** Decoding a well-formed notification gives back its heart rate and RR intervals. */
  lemma DecodeEncode(wide: bool, heartRate: nat, rrTicks: seq<nat>)
    requires heartRate < (if wide then 65536 else 256)
    requires forall k :: 0 <= k < |rrTicks| ==> rrTicks[k] < 65536
    ensures Decode(Encode(wide, heartRate, rrTicks)) == Ok(Packet(heartRate, rrTicks))
  {
    var data := Encode(wide, heartRate, rrTicks);
    var flags := data[0];
    EncodedFlags(wide, |rrTicks| > 0);
    var hr: seq<Byte> := if wide then [heartRate % 256, heartRate / 256] else [heartRate];
    var prefix := [flags] + hr;
    assert data == prefix + EncodeTicks(rrTicks);
    assert |prefix| == HeartRateEnd(flags);
    if wide {
      assert data[1..3] == hr;
      LittleEndianWord(heartRate);
    } else {
      assert data[1] == heartRate;
    }
    if |rrTicks| > 0 {
      RrFromTicks(prefix, rrTicks);
    } else {
      assert !HasRrIntervals(flags);
    }
  }

  /** Every decoded value is within the range its field can express. */
  lemma DecodeBounds(data: seq<Byte>)
    requires Decode(data).Ok?
    ensures Decode(data).packet.heartRate < 65536
    ensures forall k :: 0 <= k < |Decode(data).packet.rrIntervals| ==> Seconds(Decode(data).packet.rrIntervals[k]) < 64.0
    ensures HasRrIntervals(data[0]) && |data| > HeartRateEnd(data[0]) ==>
      |Decode(data).packet.rrIntervals| == (|data| - HeartRateEnd(data[0])) / 2
  {
  }

  /** A payload fails exactly when it is empty, or is an 8-bit packet without its value byte. */
  lemma DecodeFails(data: seq<Byte>)
    ensures Decode(data).Err? <==> |data| == 0 || (!WideHeartRate(data[0]) && |data| == 1)
  {
  }

  datatype HeartRateSummary = HeartRateSummary(min: nat, max: nat, mean: real)

  function Sum(s: seq<nat>): nat
  {
    if |s| == 0 then 0 else s[0] + Sum(s[1..])
  }

  function Min(s: seq<nat>): (m: nat)
    requires |s| > 0
    ensures m in s && forall k :: 0 <= k < |s| ==> m <= s[k]
  {
    if |s| == 1 then s[0] else var rest := Min(s[1..]); if s[0] <= rest then s[0] else rest
  }

  function Max(s: seq<nat>): (m: nat)
    requires |s| > 0
    ensures m in s && forall k :: 0 <= k < |s| ==> s[k] <= m
  {
    if |s| == 1 then s[0] else var rest := Max(s[1..]); if s[0] >= rest then s[0] else rest
  }

  lemma {:induction false} SumBetween(s: seq<nat>, lo: nat, hi: nat)
    requires forall k :: 0 <= k < |s| ==> lo <= s[k] <= hi
    ensures |s| * lo <= Sum(s) <= |s| * hi
  {
    if |s| > 0 {
      var n := |s| - 1;
      SumBetween(s[1..], lo, hi);
      assert |s| * lo == n * lo + lo && |s| * hi == n * hi + hi;
    }
  }

  /** The min, max and mean heart rate of a session; nothing when no value was recorded. */
  function HeartRateStats(hr: seq<nat>): (r: Option<HeartRateSummary>)
    ensures r.None? <==> |hr| == 0
  {
    if |hr| == 0 then None
    else Some(HeartRateSummary(Min(hr), Max(hr), Sum(hr) as real / |hr| as real))
  }

  lemma MeanBetween(sum: nat, n: nat, lo: nat, hi: nat)
    requires n > 0 && n * lo <= sum <= n * hi
    ensures lo as real <= sum as real / n as real <= hi as real
  {
    var m := sum as real / n as real;
    assert m * n as real == sum as real;
    assert (n * lo) as real == lo as real * n as real;
    assert (n * hi) as real == hi as real * n as real;
    MulLe(lo as real, m, n as real);
    MulLe(m, hi as real, n as real);
  }

  lemma MulLe(a: real, b: real, n: real)
    requires n > 0.0 && a * n <= b * n
    ensures a <= b
  {
  }

  /** The mean lies between the extremes, and the extremes are recorded values bounding all others. */
  lemma HeartRateStatsOrdered(hr: seq<nat>)
    requires |hr| > 0
    ensures var st := HeartRateStats(hr).value;
      st.min in hr && st.max in hr && st.min as real <= st.mean <= st.max as real
      && forall k :: 0 <= k < |hr| ==> st.min <= hr[k] <= st.max
  {
    var lo, hi := Min(hr), Max(hr);
    SumBetween(hr, lo, hi);
    MeanBetween(Sum(hr), |hr|, lo, hi);
  }

  /** Sum of the squared successive differences of the intervals, in squared sensor units. */
  function SquaredDiffSum(rr: seq<nat>): (r: nat)
  {
    if |rr| < 2 then 0
    else
      var d := rr[1] as int - rr[0] as int;
      d * d + SquaredDiffSum(rr[1..])
  }

  /** A squared difference of 1/1024 s units in squared milliseconds: (1000/1024)^2. */
  const MsPerTickSquared: real := 15625.0 / 16384.0

  /**
   * The HRV figure of a session: the mean squared successive difference of
   * the RR intervals in milliseconds (RMSSD squared), or nothing when fewer
   * than two intervals were recorded.
   */
  function RmssdSquared(rr: seq<nat>): (r: Option<real>)
    ensures r.None? <==> |rr| <= 1
    ensures r.Some? ==> r.value >= 0.0
  {
    if |rr| > 1 then Some(SquaredDiffSum(rr) as real * MsPerTickSquared / (|rr| - 1) as real) else None
  }

  predicate AllEqual(rr: seq<nat>)
  {
    forall k :: 0 <= k < |rr| ==> rr[k] == rr[0]
  }

  lemma {:induction false} SteadySquaredDiffSum(rr: seq<nat>)
    requires AllEqual(rr)
    ensures SquaredDiffSum(rr) == 0
  {
    if |rr| >= 2 {
      assert AllEqual(rr[1..]) by {
        forall k | 0 <= k < |rr[1..]| ensures rr[1..][k] == rr[1..][0] {
          assert rr[1..][k] == rr[k + 1];
        }
      }
      SteadySquaredDiffSum(rr[1..]);
    }
  }

  lemma {:induction false} UnsteadySquaredDiffSum(rr: seq<nat>)
    requires !AllEqual(rr)
    ensures SquaredDiffSum(rr) > 0
  {
    var d := rr[1] as int - rr[0] as int;
    if rr[1] != rr[0] {
      assert d * d > 0;
    } else {
      assert !AllEqual(rr[1..]) by {
        var k :| 0 <= k < |rr| && rr[k] != rr[0];
        assert rr[1..][k - 1] != rr[1..][0];
      }
      UnsteadySquaredDiffSum(rr[1..]);
    }
  }

  /** RMSSD is zero exactly when every recorded interval is the same. */
  lemma RmssdZeroIffSteady(rr: seq<nat>)
    requires |rr| > 1
    ensures RmssdSquared(rr).value == 0.0 <==> AllEqual(rr)
  {
    if AllEqual(rr) {
      SteadySquaredDiffSum(rr);
    } else {
      UnsteadySquaredDiffSum(rr);
      PositiveQuotient(SquaredDiffSum(rr), |rr| - 1);
    }
  }

  lemma PositiveQuotient(sum: nat, n: nat)
    requires sum > 0 && n > 0
    ensures sum as real * MsPerTickSquared / n as real > 0.0
  {
  }

  datatype SessionStats = SessionStats(heartRate: Option<HeartRateSummary>, hrv: Option<real>)

  /** The session state the sniffer owns: every heart rate and RR interval received so far. */
  class HeartRateSession {
    var hrList: seq<nat>
    var rrList: seq<nat>

    constructor ()
      ensures hrList == [] && rrList == []
    {
      hrList := [];
      rrList := [];
    }

    /**
     * `parse_hr_packet`: appends the packet's heart rate and RR intervals; a
     * payload Python would fail on leaves the session unchanged.
     */
    method ParseHrPacket(data: seq<Byte>) returns (result: Decoded)
      modifies this
      ensures result == Decode(data)
      ensures result.Ok? ==>
        (hrList == old(hrList) + [result.packet.heartRate] && rrList == old(rrList) + result.packet.rrIntervals)
      ensures result.Err? ==> hrList == old(hrList) && rrList == old(rrList)
    {
      if |data| == 0 {
        return Err(EmptyPayload);
      }
      var flags := data[0];
      var pos := 1;
      var hr: nat;
      if WideHeartRate(flags) {
        var stop := if |data| < pos + 2 then |data| else pos + 2;
        hr := LittleEndian(data[pos..stop]);
        pos := pos + 2;
      } else {
        if |data| <= pos {
          return Err(MissingHeartRateByte);
        }
        hr := data[pos];
        pos := pos + 1;
      }
      assert hr == HeartRateField(data);
      hrList := hrList + [hr];
      ghost var start := pos;
      if HasRrIntervals(flags) {
        while pos + 1 < |data|
          invariant start <= pos
          invariant hrList == old(hrList) + [hr]
          invariant rrList + RrFrom(data, pos) == old(rrList) + RrFrom(data, start)
          decreases |data| - pos
        {
          var rr := LittleEndian(data[pos..pos + 2]);
          assert RrFrom(data, pos) == [rr] + RrFrom(data, pos + 2);
          assert (rrList + [rr]) + RrFrom(data, pos + 2) == rrList + RrFrom(data, pos);
          rrList := rrList + [rr];
          pos := pos + 2;
        }
      }
      assert rrList == old(rrList) + RrField(data);
      result := Ok(Packet(hr, RrField(data)));
    }

    /** What `print_stats` reports for the session so far. */
    function Stats(): (st: SessionStats)
      reads this
      ensures st.heartRate.None? <==> |hrList| == 0
      ensures st.hrv.None? <==> |rrList| <= 1
    {
      SessionStats(HeartRateStats(hrList), RmssdSquared(rrList))
    }
  }
}
