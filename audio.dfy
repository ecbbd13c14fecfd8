/**
 * The capture side of the pipeline: mixing interleaved channels down to
 * mono, pushing them into the bounded sample ring, choosing the stream's
 * sample rate and finding an input device by name.
 */
module Audio {
  import opened Wrappers
  import opened Text
  import opened Ring

  /** Capacity of the sample ring: 8192 samples, about 185 ms at 44.1 kHz. */
  const RingBufferCapacity: nat := 8192

  /** The sample ring shared by the capture callback and the analysis thread. */
  method CreateRingBuffer() returns (ring: SampleRing)
    ensures fresh(ring.Repr) && ring.Valid()
    ensures ring.capacity == RingBufferCapacity && ring.Contents == []
  {
    ring := new SampleRing(RingBufferCapacity);
  }

  /** Sum of the samples, front to back. */
  function Sum(s: seq<real>): real
  {
    if s == [] then 0.0 else Sum(s[..|s| - 1]) + s[|s| - 1]
  }

  /** Mono samples of the complete frames of `data`, each the mean of its channels. */
  function MonoFrames(data: seq<real>, channels: nat): seq<real>
    requires channels >= 1
    decreases |data|
  {
    if |data| < channels then []
    else [Sum(data[..channels]) / channels as real] + MonoFrames(data[channels..], channels)
  }

  /**
   * One interleaved block mixed down to mono: a single channel passes
   * through; otherwise every complete frame of `channels` samples becomes
   * their mean and an incomplete trailing frame is ignored.
   */
  function Mixdown(data: seq<real>, channels: nat): (mono: seq<real>)
    requires channels >= 1
    ensures channels == 1 ==> mono == data
    ensures |mono| == |data| / channels
  {
    if channels == 1 then data
    else
      MonoFramesLength(data, channels);
      MonoFrames(data, channels)
  }

  /** `n + c` holds one more complete frame of `c` samples than `n`. */
  lemma FramesStep(n: nat, c: nat)
    requires c >= 1
    ensures (n + c) / c == n / c + 1
  {
    var q, r := n / c, n % c;
    var q', r' := (n + c) / c, (n + c) % c;
    var d := q' - q - 1;
    assert d * c == r - r' by {
      assert n == q * c + r && n + c == q' * c + r';
      assert d * c == q' * c - q * c - c;
    }
  }

  lemma {:induction false} MonoFramesLength(data: seq<real>, channels: nat)
    requires channels >= 1
    ensures |MonoFrames(data, channels)| == |data| / channels
    decreases |data|
  {
    if |data| >= channels {
      var rest := data[channels..];
      MonoFramesLength(rest, channels);
      FramesStep(|rest|, channels);
      assert |MonoFrames(data, channels)| == 1 + |MonoFrames(rest, channels)|;
      assert |rest| + channels == |data|;
    } else {
      NoCompleteFrame(|data|, channels);
    }
  }

  lemma NoCompleteFrame(n: nat, c: nat)
    requires n < c
    ensures n / c == 0
  {
  }

  lemma {:induction false} MonoFramesAt(data: seq<real>, channels: nat, k: nat)
    requires channels >= 1 && k * channels + channels <= |data|
    ensures k < |MonoFrames(data, channels)|
    ensures MonoFrames(data, channels)[k] == Sum(data[k * channels..k * channels + channels]) / channels as real
    decreases k
  {
    var c := channels;
    if k > 0 {
      var rest := data[c..];
      var start := (k - 1) * c;
      FrameStart(k, c);
      MonoFramesAt(rest, c, k - 1);
      assert MonoFrames(data, c)[k] == MonoFrames(rest, c)[k - 1];
      SliceOfSuffix(data, c, start, start + c);
    } else {
      assert k * c == 0;
    }
  }

  lemma SliceOfSuffix(s: seq<real>, d: nat, i: nat, j: nat)
    requires i <= j && d + j <= |s|
    ensures s[d..][i..j] == s[d + i..d + j]
  {
  }

  /** Frame `k` starts one frame after frame `k - 1`. */
  lemma FrameStart(k: nat, c: nat)
    requires k > 0
    ensures (k - 1) * c >= 0 && (k - 1) * c + c == k * c
  {
  }

  /**
   * The mixed-down block has one sample per complete frame, and sample `k`
   * is the mean of frame `k`'s channels; a mono block is unchanged.
   */
  lemma MixdownSpec(data: seq<real>, channels: nat)
    requires channels >= 1
    ensures channels == 1 ==> Mixdown(data, channels) == data
    ensures |Mixdown(data, channels)| == |data| / channels
    ensures forall k: nat :: k * channels + channels <= |data| ==>
      k < |Mixdown(data, channels)| &&
      Mixdown(data, channels)[k] == Sum(data[k * channels..k * channels + channels]) / channels as real
  {
    if channels == 1 {
      forall k: nat | k * 1 + 1 <= |data|
        ensures Mixdown(data, 1)[k] == Sum(data[k * 1..k * 1 + 1]) / 1 as real
      {
        assert data[k..k + 1] == [data[k]];
        assert Sum([data[k]]) == data[k] by {
          assert [data[k]][..0] == [];
        }
      }
    } else {
      MonoFramesLength(data, channels);
      forall k: nat | k * channels + channels <= |data|
        ensures k < |Mixdown(data, channels)|
        ensures Mixdown(data, channels)[k] == Sum(data[k * channels..k * channels + channels]) / channels as real
      {
        MonoFramesAt(data, channels, k);
      }
    }
  }

  /** Two stereo frames [[1, -1], [2, 0]] become the mono block [0, 1]. */
  lemma StereoMixdownExample()
    ensures Mixdown([1.0, -1.0, 2.0, 0.0], 2) == [0.0, 1.0]
  {
    var data := [1.0, -1.0, 2.0, 0.0];
    assert Sum([1.0, -1.0]) == 0.0 by {
      assert [1.0, -1.0][..1] == [1.0];
      assert [1.0][..0] == [];
    }
    assert Sum([2.0, 0.0]) == 2.0 by {
      assert [2.0, 0.0][..1] == [2.0];
      assert [2.0][..0] == [];
    }
    assert data[..2] == [1.0, -1.0] && data[2..] == [2.0, 0.0];
    assert data[2..][..2] == [2.0, 0.0] && data[2..][2..] == [];
    assert MonoFrames(data[2..], 2) == [1.0];
  }

  /**
   * The capture callback. When the producer lock cannot be taken nothing is
   * pushed; otherwise the mixed-down block is offered to the ring, which
   * keeps the prefix that fits. `dropped` is the number of samples the
   * overrun warning reports.
   */
  method AudioCallback(data: seq<real>, producer: SampleRing, channels: nat, lockAcquired: bool)
    returns (dropped: nat)
    requires channels >= 1 && producer.Valid()
    modifies producer.Repr
    ensures producer.Valid() && producer.Repr == old(producer.Repr)
    ensures !lockAcquired ==> producer.Contents == old(producer.Contents) && dropped == 0
    ensures lockAcquired ==>
      var mono := Mixdown(data, channels);
      var kept := |mono| - dropped;
      && dropped <= |mono|
      && kept == (if |mono| <= old(producer.Free()) then |mono| else old(producer.Free()))
      && producer.Contents == old(producer.Contents) + mono[..kept]
  {
    if !lockAcquired {
      return 0;
    }
    var mono := if channels == 1 then data else MonoFrames(data, channels);
    var written := producer.PushSlice(mono);
    dropped := |mono| - written;
  }

  // ---------------------------------------------------------------------
  // Device selection

  datatype DeviceError = EnumerationFailed | DeviceNotFound(query: string)

  /** A device whose name could be read and contains the query, ignoring case. */
  predicate NameMatches(device: Option<string>, query: string)
  {
    device.Some? && Contains(ToLower(device.value), ToLower(query))
  }

  /** Index of the first matching device, in enumeration order. */
  function FirstMatch(devices: seq<Option<string>>, query: string): (r: Option<nat>)
    ensures r.Some? ==> r.value < |devices| && NameMatches(devices[r.value], query)
    ensures r.Some? ==> forall j :: 0 <= j < r.value ==> !NameMatches(devices[j], query)
    ensures r.None? <==> forall j :: 0 <= j < |devices| ==> !NameMatches(devices[j], query)
  {
    if devices == [] then None
    else if NameMatches(devices[0], query) then Some(0)
    else
      match FirstMatch(devices[1..], query)
      case None => None
      case Some(i) => Some(i + 1)
  }

  /**
   * `find_device_by_name`: the first enumerated device whose lower-cased
   * name contains the lower-cased query; devices whose name cannot be read
   * are skipped. `enumeration` is None when the host cannot list devices.
   */
  function FindDeviceByName(enumeration: Option<seq<Option<string>>>, query: string)
    : (r: Result<nat, DeviceError>)
    ensures enumeration.None? ==> r == Err(EnumerationFailed)
    ensures r.Ok? ==>
      && enumeration.Some? && r.value < |enumeration.value|
      && NameMatches(enumeration.value[r.value], query)
      && (forall j :: 0 <= j < r.value ==> !NameMatches(enumeration.value[j], query))
    ensures enumeration.Some? && r.Err? ==>
      && r == Err(DeviceNotFound(query))
      && (forall j :: 0 <= j < |enumeration.value| ==> !NameMatches(enumeration.value[j], query))
  {
    match enumeration
    case None => Err(EnumerationFailed)
    case Some(devices) =>
      match FirstMatch(devices, query)
      case Some(i) => Ok(i)
      case None => Err(DeviceNotFound(query))
  }

  // ---------------------------------------------------------------------
  // Stream configuration

  const DesiredSampleRate: nat := 44100
  const TwoTo31: int := 0x8000_0000
  const TwoTo32: int := 0x1_0000_0000

  /** What the device's default input configuration reports. */
  datatype SupportedConfig = SupportedConfig(channels: nat, sampleRate: nat)

  datatype StreamConfig = StreamConfig(channels: nat, sampleRate: nat)

  /** `v as i32` for a `u32` value: the same bits read as two's complement. */
  function U32AsI32(v: nat): (r: int)
    requires v < TwoTo32
    ensures -TwoTo31 <= r < TwoTo31
    ensures (r - v) % TwoTo32 == 0
  {
    if v < TwoTo31 then v else v - TwoTo32
  }

  /** Wrap-around of an `i32` result, as in a release build. */
  function WrapI32(x: int): (r: int)
    ensures -TwoTo31 <= r < TwoTo31
    ensures (r - x) % TwoTo32 == 0
    ensures -TwoTo31 <= x < TwoTo31 ==> r == x
  {
    (x + TwoTo31) % TwoTo32 - TwoTo31
  }

  /** `i32::abs` in a release build: the absolute value of `i32::MIN` is `i32::MIN`. */
  function AbsI32(x: int): (r: int)
    requires -TwoTo31 <= x < TwoTo31
    ensures x != -TwoTo31 ==> r >= 0 && (r == x || r == -x)
    ensures x == -TwoTo31 ==> r == x
  {
    if x == -TwoTo31 then x else if x < 0 then -x else x
  }

  /**
   * `create_stream_config` as written: 44100 Hz when the device's rate,
   * read as an `i32`, is within 1000 of 44100, otherwise the device's rate;
   * the channel count is copied.
   */
  function CreateStreamConfig(supported: SupportedConfig): (r: StreamConfig)
    requires supported.sampleRate < TwoTo32
    ensures r.channels == supported.channels
    ensures r.sampleRate == DesiredSampleRate || r.sampleRate == supported.sampleRate
    ensures supported.sampleRate < TwoTo31 ==>
      r == StreamConfig(supported.channels, IntendedSampleRate(supported.sampleRate))
    ensures supported.sampleRate >= TwoTo31 ==>
      (r.sampleRate == DesiredSampleRate <==> supported.sampleRate == TwoTo31 + DesiredSampleRate)
  {
    var diff := AbsI32(WrapI32(U32AsI32(supported.sampleRate) - 44100));
    StreamConfig(supported.channels, if diff < 1000 then DesiredSampleRate else supported.sampleRate)
  }

  /** The rate choice the code means: 44100 Hz iff the device rate is within 1000 Hz of it. */
  function IntendedSampleRate(actual: nat): (r: nat)
    ensures -1000 < actual - 44100 < 1000 ==> r == DesiredSampleRate
    ensures !(-1000 < actual - 44100 < 1000) ==> r == actual
    ensures 43100 < r < 45100 ==> r == DesiredSampleRate
  {
    if -1000 < actual - 44100 < 1000 then DesiredSampleRate else actual
  }

  /**
   * A device reporting 2^31 + 44100 Hz makes the `i32` difference
   * `i32::MIN`, whose absolute value stays negative, so the code picks
   * 44100 Hz for a rate nowhere near it.
   */
  lemma StreamRateWrapCounterexample()
    ensures CreateStreamConfig(SupportedConfig(2, 2147527748)).sampleRate == 44100
    ensures IntendedSampleRate(2147527748) == 2147527748
  {
    assert U32AsI32(2147527748) == -2147439548;
  }
}
