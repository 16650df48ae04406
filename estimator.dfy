/** The size estimator: a per-height bitrate bucket times the duration,
    divided by 8 and truncated. */
module SizeEstimator {
  import opened Wrappers
  import opened Config

  /** The part of the probed metadata the bot reads. */
  datatype Info = Info(title: Option<string>, duration: Option<nat>)

  /** `info.get("duration", 0)`. */
  function Duration(info: Info): nat {
    match info.duration
    case None => 0
    case Some(d) => d
  }

  /** Bitrate bucket per pixel height. */
  const BitrateTable: map<string, nat> := map[
    "360" := 1,
    "480" := 2,
    "720" := 4,
    "1080" := 7,
    "1440" := 12,
    "2160" := 20
  ]

  /** Bucket used for a height missing from the table. */
  const DefaultBitrate: nat := 5

  /** `.get(height, 5)`: since 5 is no bucket of the table, the fallback
      is taken exactly when the height is unknown. */
  function Bitrate(height: string): (b: nat)
    ensures b == DefaultBitrate <==> height !in BitrateTable
    ensures height in BitrateTable ==> b == BitrateTable[height]
  {
    if height in BitrateTable then BitrateTable[height] else DefaultBitrate
  }

  /** `int(duration * bitrate / 8)`: the quotient is exact in floating
      point for these magnitudes, and `int` truncates toward zero. */
  function EstimateSizeMb(info: Info, height: string): nat {
    (Duration(info) * Bitrate(height)) / 8
  }

  /** The estimate is the largest `r` with `8 * r <= duration * bitrate`. */
  lemma EstimateIsTruncatedQuotient(info: Info, height: string)
    ensures 8 * EstimateSizeMb(info, height) <= Duration(info) * Bitrate(height) < 8 * EstimateSizeMb(info, height) + 8
  {
  }

  /** A zero or missing duration estimates to zero at every height. */
  lemma EstimateOfNoDuration(title: Option<string>, height: string)
    ensures EstimateSizeMb(Info(title, None), height) == 0
    ensures EstimateSizeMb(Info(title, Some(0)), height) == 0
  {
  }

  /** An hour at 1080p estimates to 3600 * 7 / 8 = 3150. */
  lemma EstimateOfHourAt1080(title: Option<string>)
    ensures EstimateSizeMb(Info(title, Some(3600)), "1080") == 3150
  {
  }

  /** Ten minutes at 720p estimates to 600 * 4 / 8 = 300. */
  lemma EstimateOfTenMinutesAt720(title: Option<string>)
    ensures EstimateSizeMb(Info(title, Some(600)), "720") == 300
  {
  }

  /** An unknown height falls back to bucket 5. */
  lemma EstimateOfUnknownHeight(info: Info, height: string)
    requires height !in BitrateTable
    ensures EstimateSizeMb(info, height) == (Duration(info) * 5) / 8
  {
  }

  lemma {:induction false} ScaledQuotientMonotone(a: nat, b: nat, c: nat, d: nat)
    requires a <= b && c <= d
    ensures (a * c) / 8 <= (b * d) / 8
  {
    assert a * c <= b * c;
    assert b * c <= b * d;
  }

  /** A longer video never gets a smaller estimate. */
  lemma EstimateMonotoneInDuration(info1: Info, info2: Info, height: string)
    requires Duration(info1) <= Duration(info2)
    ensures EstimateSizeMb(info1, height) <= EstimateSizeMb(info2, height)
  {
    ScaledQuotientMonotone(Duration(info1), Duration(info2), Bitrate(height), Bitrate(height));
  }

  /** Every height on the menu has its own bucket: the fallback is never
      taken for a height chosen from the menu. */
  lemma MenuHeightsHaveBuckets(key: string)
    requires key in Resolutions
    ensures Resolutions[key] in BitrateTable
    ensures Bitrate(Resolutions[key]) != DefaultBitrate
  {
  }

  /** Bitrate of the `n`-th button of the menu. */
  function MenuBitrate(n: nat): nat
    requires n < |MenuOrder|
  {
    Bitrate(Resolutions[MenuOrder[n]])
  }

  /** Along the menu from 360p to 4K the estimate for a fixed duration
      never decreases. */
  lemma MenuEstimateNondecreasing(info: Info, m: nat, n: nat)
    requires m <= n < |MenuOrder|
    ensures MenuOrder[m] in Resolutions && MenuOrder[n] in Resolutions
    ensures EstimateSizeMb(info, Resolutions[MenuOrder[m]]) <= EstimateSizeMb(info, Resolutions[MenuOrder[n]])
  {
    assert MenuBitrate(0) == 1 && MenuBitrate(1) == 2 && MenuBitrate(2) == 4;
    assert MenuBitrate(3) == 7 && MenuBitrate(4) == 12 && MenuBitrate(5) == 20;
    ScaledQuotientMonotone(Duration(info), Duration(info), MenuBitrate(m), MenuBitrate(n));
  }
}
