/**
 * The brightness policy every driver shares (`KeyboardBrightness`'s provided methods):
 * stepping the level up or down, and the snapshot of level, maximum and percentage.
 */
module Brightness {
  import opened Prelude
  import opened Text
  import opened Errors
  import opened Attributes
  import opened Drivers

  // ---------------------------------------------------------------- percentage

  /**
   * `calculate_percent`: `current * 100 / max` computed in 16 bits, then cast to `u8`;
   * a zero maximum gives 0. The product is at most 25500, so the 16-bit step cannot
   * overflow (the `uint16` variable checks it), but the cast keeps only the low eight bits.
   */
  function CalculatePercent(current: uint8, max: uint8): (r: uint8)
    ensures max == 0 ==> r == 0
    ensures 0 < max && current <= max ==> r == current * 100 / max <= 100
  {
    if max == 0 then 0
    else
      var wide: uint16 := current * 100;
      var quotient := wide / max;
      if current <= max then
        DivBelow(wide, max, 101);
        TruncateToU8(quotient)
      else
        TruncateToU8(quotient)
  }

  /** Within the range the device reports, the percentage is 100 exactly at the maximum. */
  lemma {:induction false} PercentFullExactlyAtMax(current: uint8, max: uint8)
    requires 0 < max && current <= max
    ensures CalculatePercent(current, max) == 100 <==> current == max
  {
    if current == max {
      DivExact(100, max);
    } else {
      assert current * 100 < 100 * max;
      DivBelow(current * 100, max, 100);
    }
  }

  /** Multiplying by a positive factor keeps a strict order. */
  lemma {:induction false} MulCancelLess(a: int, b: int, d: int)
    requires 0 < d && a * d < b * d
    ensures a < b
  {
    assert (b - a) * d == b * d - a * d;
  }

  lemma {:induction false} MulMonotone(a: nat, b: nat, d: nat)
    requires a <= b
    ensures a * d <= b * d
  {
    assert b * d - a * d == (b - a) * d;
  }

  /** A quotient is below `k` when the dividend is below `k` divisors. */
  lemma {:induction false} DivBelow(x: nat, d: nat, k: nat)
    requires 0 < d && x < k * d
    ensures x / d < k
  {
    var q := x / d;
    assert q * d <= x;
    MulCancelLess(q, k, d);
  }

  /** Dividing a multiple of `d` by `d` gives the factor back. */
  lemma {:induction false} DivExact(k: nat, d: nat)
    requires 0 < d
    ensures k * d / d == k
  {
    var q, m := k * d / d, k * d % d;
    assert k * d == q * d + m && 0 <= m < d;
    assert (k - q) * d == m;
    if k > q {
      MulMonotone(1, k - q, d);
    }
  }

  /** Within the range the device reports, a brighter level never shows a smaller percentage. */
  lemma {:induction false} PercentMonotone(c1: uint8, c2: uint8, max: uint8)
    requires c1 <= c2 <= max
    ensures CalculatePercent(c1, max) <= CalculatePercent(c2, max)
  {
    if 0 < max {
      var x, y := c1 * 100, c2 * 100;
      MulMonotone(c1, c2, 100);
      var p, q := x / max, y / max;
      assert p * max <= x <= y < (q + 1) * max;
      MulCancelLess(p, q + 1, max);
    }
  }

  /** Above the maximum the cast wraps: the percentage is the quotient's low eight bits, unclamped. */
  lemma {:induction false} PercentWrapsAboveMax(current: uint8, max: uint8)
    requires 0 < max
    ensures CalculatePercent(current, max) == (current * 100 / max) % 0x100
    ensures CalculatePercent(255, 1) == 156
  {
  }

  /** The values `test_calculate_percent` and `test_calculate_percent_edge_cases` expect. */
  lemma {:induction false} PercentSamples()
    ensures CalculatePercent(0, 255) == 0
    ensures CalculatePercent(255, 255) == 100
    ensures CalculatePercent(128, 255) == 50
    ensures CalculatePercent(64, 255) == 25
    ensures CalculatePercent(0, 0) == 0
    ensures CalculatePercent(10, 0) == 0
  {
  }

  // ---------------------------------------------------------------- stepping

  /**
   * `u8::saturating_add`: never below either operand nor above their sum, and short of
   * the ceiling 255 only when it is the exact sum.
   */
  function SaturatingAdd(a: uint8, b: uint8): (r: uint8)
    ensures a <= r && b <= r && r <= a + b
    ensures r < 0xFF ==> r == a + b
  {
    if a + b <= 0xFF then a + b else 0xFF
  }

  /**
   * `u8::saturating_sub`: never above the minuend nor below the exact difference, and
   * above the floor 0 only when it is the exact difference.
   */
  function SaturatingSub(a: uint8, b: uint8): (r: uint8)
    ensures a - b <= r <= a
    ensures 0 < r ==> r == a - b
  {
    if b <= a then a - b else 0
  }

  /**
   * The level `increase_brightness` writes: `current.saturating_add(step).min(max)`.
   * It never exceeds the maximum, never wraps, and a level already above the maximum
   * is pulled down to it.
   */
  function IncreasedLevel(current: uint8, step: uint8, max: uint8): (r: uint8)
    ensures r == Min(current + step, max)
    ensures r <= max
    ensures current <= max ==> current <= r
    ensures current > max ==> r == max
  {
    Min(SaturatingAdd(current, step), max)
  }

  /** The level `decrease_brightness` writes: `current.saturating_sub(step)`, floored at zero. */
  function DecreasedLevel(current: uint8, step: uint8): (r: uint8)
    ensures r == Max(current - step, 0)
    ensures r <= current
    ensures 0 < step && 0 < current ==> r < current
  {
    SaturatingSub(current, step)
  }

  /** Stepping down then up by the same amount returns to the level, as long as neither step is cut off. */
  lemma {:induction false} StepsCancel(current: uint8, step: uint8, max: uint8)
    requires step <= current <= max
    ensures IncreasedLevel(DecreasedLevel(current, step), step, max) == current
  {
  }

  // ---------------------------------------------------------------- effects on the attribute files

  /**
   * `increase_brightness(step)`: read the level, read the maximum, write the stepped
   * level. A failed read is returned as it is, and nothing is written.
   */
  function IncreaseEffect(kb: Backend, files: map<string, string>, writable: set<string>, step: uint8)
    : (e: Effect)
    ensures ReadLevel(files, kb.brightnessPath).Err? ==>
              e == Effect(Err(ReadLevel(files, kb.brightnessPath).error), files)
    ensures ReadLevel(files, kb.brightnessPath).Ok? && ReadLevel(files, kb.maxBrightnessPath).Err? ==>
              e == Effect(Err(ReadLevel(files, kb.maxBrightnessPath).error), files)
    ensures ReadLevel(files, kb.brightnessPath).Ok? && ReadLevel(files, kb.maxBrightnessPath).Ok? ==>
              e == WriteEffect(files, writable, kb.brightnessPath,
                               Decimal(Min(ReadLevel(files, kb.brightnessPath).value + step,
                                           ReadLevel(files, kb.maxBrightnessPath).value)))
    ensures AgreeExcept(e.files, files, kb.brightnessPath)
  {
    match ReadLevel(files, kb.brightnessPath)
    case Err(err) => Effect(Err(err), files)
    case Ok(current) =>
      match ReadLevel(files, kb.maxBrightnessPath)
      case Err(err) => Effect(Err(err), files)
      case Ok(max) => WriteEffect(files, writable, kb.brightnessPath, Decimal(IncreasedLevel(current, step, max)))
  }

  /**
   * `decrease_brightness(step)`: read the level, write the stepped level. The maximum is
   * never read; a failed read is returned as it is, and nothing is written.
   */
  function DecreaseEffect(kb: Backend, files: map<string, string>, writable: set<string>, step: uint8)
    : (e: Effect)
    ensures ReadLevel(files, kb.brightnessPath).Err? ==>
              e == Effect(Err(ReadLevel(files, kb.brightnessPath).error), files)
    ensures ReadLevel(files, kb.brightnessPath).Ok? ==>
              e == WriteEffect(files, writable, kb.brightnessPath,
                               Decimal(Max(ReadLevel(files, kb.brightnessPath).value - step, 0)))
    ensures AgreeExcept(e.files, files, kb.brightnessPath)
  {
    match ReadLevel(files, kb.brightnessPath)
    case Err(err) => Effect(Err(err), files)
    case Ok(current) => WriteEffect(files, writable, kb.brightnessPath, Decimal(DecreasedLevel(current, step)))
  }

  /**
   * After a successful increase the level reads back as `min(current + step, max)`, so
   * never above the maximum, and the maximum and colour attributes are as they were.
   */
  lemma {:induction false} IncreaseStaysWithinMax(kb: Backend, files: map<string, string>, writable: set<string>, step: uint8)
    requires kb.DistinctPaths()
    ensures var e := IncreaseEffect(kb, files, writable, step);
            e.result.Ok? ==>
              && ReadLevel(files, kb.brightnessPath).Ok?
              && ReadLevel(files, kb.maxBrightnessPath).Ok?
              && var current := ReadLevel(files, kb.brightnessPath).value;
                 var max := ReadLevel(files, kb.maxBrightnessPath).value;
                 && ReadLevel(e.files, kb.brightnessPath) == Ok(Min(current + step, max))
                 && ReadLevel(e.files, kb.maxBrightnessPath) == Ok(max)
                 && ReadRgb(e.files, kb.colorPath) == ReadRgb(files, kb.colorPath)
  {
    var e := IncreaseEffect(kb, files, writable, step);
    if e.result.Ok? {
      var current := ReadLevel(files, kb.brightnessPath).value;
      var max := ReadLevel(files, kb.maxBrightnessPath).value;
      SetThenGetBrightness(kb, files, writable, IncreasedLevel(current, step, max));
    }
  }

  /** After a successful decrease the level reads back as `max(current - step, 0)`; the other attributes are as they were. */
  lemma {:induction false} DecreaseFloorsAtZero(kb: Backend, files: map<string, string>, writable: set<string>, step: uint8)
    requires kb.DistinctPaths()
    ensures var e := DecreaseEffect(kb, files, writable, step);
            e.result.Ok? ==>
              && ReadLevel(files, kb.brightnessPath).Ok?
              && var current := ReadLevel(files, kb.brightnessPath).value;
                 && ReadLevel(e.files, kb.brightnessPath) == Ok(Max(current - step, 0))
                 && ReadLevel(e.files, kb.maxBrightnessPath) == ReadLevel(files, kb.maxBrightnessPath)
                 && ReadRgb(e.files, kb.colorPath) == ReadRgb(files, kb.colorPath)
  {
    var e := DecreaseEffect(kb, files, writable, step);
    if e.result.Ok? {
      SetThenGetBrightness(kb, files, writable, DecreasedLevel(ReadLevel(files, kb.brightnessPath).value, step));
    }
  }

  /**
   * Decreasing never looks at the maximum: whatever the maximum attribute holds, or
   * whether it exists at all, the result is the same and the files change the same way.
   */
  lemma {:induction false} DecreaseIgnoresMax(kb: Backend, f1: map<string, string>, f2: map<string, string>,
                                              writable: set<string>, step: uint8)
    requires kb.DistinctPaths()
    requires AgreeExcept(f1, f2, kb.maxBrightnessPath)
    ensures var e1 := DecreaseEffect(kb, f1, writable, step);
            var e2 := DecreaseEffect(kb, f2, writable, step);
            e1.result == e2.result && AgreeExcept(e1.files, e2.files, kb.maxBrightnessPath)
  {
    var p := kb.brightnessPath;
    assert SameFile(f1, p, f2, p);
    var r := ReadLevel(f1, p);
    assert r == ReadLevel(f2, p);
    if r.Ok? {
      var v := Decimal(DecreasedLevel(r.value, step));
      WrittenKeepsAgreement(f1, f2, writable, kb.maxBrightnessPath, p, v);
    }
  }

  /** Writing the same text to the same path keeps two file maps agreeing outside `q`. */
  lemma {:induction false} WrittenKeepsAgreement(f1: map<string, string>, f2: map<string, string>, writable: set<string>,
                                                 q: string, p: string, v: string)
    requires AgreeExcept(f1, f2, q)
    ensures AgreeExcept(Written(f1, writable, p, v), Written(f2, writable, p, v), q)
  {
  }

  // ---------------------------------------------------------------- snapshot

  /** `BrightnessInfo`: the raw level and maximum, the percentage, and whether the backlight is lit. */
  datatype BrightnessInfo = BrightnessInfo(current: uint8, max: uint8, percent: uint8, isOn: bool) {
    /** The derived fields agree with the raw level and maximum, as `brightness_info` fills them in. */
    predicate Consistent() {
      percent == CalculatePercent(current, max) && isOn == (current > 0)
    }
  }

  /** `brightness_info`: the level, then the maximum; the first failed read is returned as it is. */
  function ReadInfo(kb: Backend, files: map<string, string>): (r: Result<BrightnessInfo>)
    ensures r.Ok? <==> ReadLevel(files, kb.brightnessPath).Ok? && ReadLevel(files, kb.maxBrightnessPath).Ok?
    ensures ReadLevel(files, kb.brightnessPath).Err? ==> r == Err(ReadLevel(files, kb.brightnessPath).error)
    ensures ReadLevel(files, kb.brightnessPath).Ok? && ReadLevel(files, kb.maxBrightnessPath).Err? ==>
              r == Err(ReadLevel(files, kb.maxBrightnessPath).error)
    ensures r.Ok? ==> && r.value.current == ReadLevel(files, kb.brightnessPath).value
                      && r.value.max == ReadLevel(files, kb.maxBrightnessPath).value
                      && r.value.Consistent()
  {
    match ReadLevel(files, kb.brightnessPath)
    case Err(err) => Err(err)
    case Ok(current) =>
      match ReadLevel(files, kb.maxBrightnessPath)
      case Err(err) => Err(err)
      case Ok(max) => Ok(BrightnessInfo(current, max, CalculatePercent(current, max), current > 0))
  }

  /**
   * What a consistent snapshot shows: a positive percentage only for a lit backlight, and,
   * within the reported range, a percentage of at most 100 that reaches 100 only at the maximum.
   */
  lemma {:induction false} ConsistentInfoBounds(info: BrightnessInfo)
    requires info.Consistent()
    ensures info.percent > 0 ==> info.isOn
    ensures 0 < info.max && info.current <= info.max ==>
              info.percent <= 100 && (info.percent == 100 <==> info.current == info.max)
  {
    if 0 < info.max && info.current <= info.max {
      PercentFullExactlyAtMax(info.current, info.max);
    }
  }

  /** A level just written reads back into the snapshot, with the maximum that was there. */
  lemma {:induction false} SetThenInfo(kb: Backend, files: map<string, string>, writable: set<string>, level: uint8)
    requires kb.DistinctPaths() && kb.brightnessPath in writable
    requires ReadLevel(files, kb.maxBrightnessPath).Ok?
    ensures var max := ReadLevel(files, kb.maxBrightnessPath).value;
            var after := WriteEffect(files, writable, kb.brightnessPath, Decimal(level)).files;
            ReadInfo(kb, after) == Ok(BrightnessInfo(level, max, CalculatePercent(level, max), level > 0))
  {
    SetThenGetBrightness(kb, files, writable, level);
  }

  // ---------------------------------------------------------------- the operations

  method IncreaseBrightness(kb: Backend, fs: FileSystem, step: uint8) returns (r: Result<()>)
    modifies fs
    ensures Effect(r, fs.files) == IncreaseEffect(kb, old(fs.files), fs.writable, step)
  {
    var current :- GetBrightness(kb, fs);
    var max :- GetMaxBrightness(kb, fs);
    r := SetBrightness(kb, fs, IncreasedLevel(current, step, max));
  }

  method DecreaseBrightness(kb: Backend, fs: FileSystem, step: uint8) returns (r: Result<()>)
    modifies fs
    ensures Effect(r, fs.files) == DecreaseEffect(kb, old(fs.files), fs.writable, step)
  {
    var current :- GetBrightness(kb, fs);
    r := SetBrightness(kb, fs, DecreasedLevel(current, step));
  }

  method GetBrightnessInfo(kb: Backend, fs: FileSystem) returns (r: Result<BrightnessInfo>)
    ensures r == ReadInfo(kb, fs.files)
  {
    var current :- GetBrightness(kb, fs);
    var max :- GetMaxBrightness(kb, fs);
    var percent := CalculatePercent(current, max);
    var isOn := current > 0;
    r := Ok(BrightnessInfo(current, max, percent, isOn));
  }
}
