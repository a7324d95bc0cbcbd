/** The indicator's live status view draws the temperatures and the fan speed
    as 20-character bars: `status_get_temp_bar` and `status_get_fan_bar`,
    which differ only in their parameter names. */
module StatusBar {
  import opened Base

  /** Characters in a bar, not counting the terminating NUL. */
  const Width: nat := 20

  /** The callers' scales: temperatures out of 100, speeds out of 4400. */
  const TempScale: int := 100
  const RpmScale: int := 4400

  /** `filled`: `value * 20 / max` with C's truncating division, then
      clamped to at most 20 and then to at least 0. */
  function Filled(value: int, max: int): (k: nat)
    requires max != 0
    ensures k <= Width
  {
    var q := CDiv(value * Width, max);
    var high := if q > Width then Width else q;
    if high < 0 then 0 else high
  }

  function Repeat(c: char, n: nat): (s: string)
    ensures |s| == n && forall i :: 0 <= i < n ==> s[i] == c
  {
    if n == 0 then [] else [c] + Repeat(c, n - 1)
  }

  /** The bar the loop draws: `Filled` hashes, then dashes up to 20. */
  method DrawBar(value: int, max: int) returns (bar: string)
    requires max != 0
    ensures bar == Repeat('#', Filled(value, max)) + Repeat('-', Width - Filled(value, max))
  {
    var filled := Filled(value, max);
    bar := [];
    var i := 0;
    while i < Width
      invariant 0 <= i <= Width && |bar| == i
      invariant forall j :: 0 <= j < i ==> bar[j] == (if j < filled then '#' else '-')
    {
      bar := bar + [if i < filled then '#' else '-'];
      i := i + 1;
    }
    var reference := Repeat('#', filled) + Repeat('-', Width - filled);
    assert forall j :: 0 <= j < Width ==> bar[j] == reference[j];
  }

  /** For a positive scale: nothing is filled at or below zero, the bar is
      full at or above the scale, and in between the fill is the floor of
      `20 * value / max`. */
  lemma FilledReference(value: int, max: int)
    requires max > 0
    ensures value <= 0 ==> Filled(value, max) == 0
    ensures value >= max ==> Filled(value, max) == Width
    ensures 0 <= value <= max ==> Filled(value, max) == value * Width / max
  {
    var a := value * Width;
    if value <= 0 {
      assert a <= 0;
    } else {
      assert CDiv(a, max) == a / max;
      if value >= max {
        assert a >= max * Width;
        DivAtLeast(a, max, Width);
      } else {
        assert a <= max * Width;
        DivAtMost(a, max, Width);
      }
    }
  }

  lemma DivAtLeast(a: int, m: int, k: nat)
    requires m > 0 && a >= m * k
    ensures a / m >= k
  {
    var q := a / m;
    assert m * q + a % m == a;
    if q < k {
      MulMono(q + 1, k, m);
    }
  }

  lemma DivAtMost(a: int, m: int, k: nat)
    requires m > 0 && 0 <= a <= m * k
    ensures a / m <= k
  {
    var q := a / m;
    assert m * q + a % m == a;
    if q > k {
      MulMono(k + 1, q, m);
    }
  }

  /** A hotter reading (or a faster fan) never draws a shorter bar. */
  lemma FilledMonotone(v: int, w: int, max: int)
    requires max > 0 && v <= w
    ensures Filled(v, max) <= Filled(w, max)
  {
    FilledReference(v, max);
    FilledReference(w, max);
    if 0 < v && w < max {
      DivMonotone(v * Width, w * Width, max);
    }
  }

  /** On the callers' scales each bar step is 5 degrees or 220 rpm: 64 and
      65 degrees draw 12 and 13 hashes, 4399 and 4400 rpm 19 and 20. */
  lemma CallerScales()
    ensures Filled(64, TempScale) == 12 && Filled(65, TempScale) == 13
    ensures Filled(-5, TempScale) == 0 && Filled(120, TempScale) == Width
    ensures Filled(4399, RpmScale) == 19 && Filled(4400, RpmScale) == Width
  {
    FilledReference(64, TempScale);
    FilledReference(65, TempScale);
    FilledReference(-5, TempScale);
    FilledReference(120, TempScale);
    FilledReference(4399, RpmScale);
    FilledReference(4400, RpmScale);
  }
}
