/** The adaptive tuner's 60-slot temperature ring buffer and the
    oscillation measure computed from it: the population standard deviation
    of the held samples, or 0 while fewer than 10 are held. */
module History {
  import opened Base

  const Capacity: nat := 60
  const MinSamples: nat := 10

  /** `buf` is the fixed array, `index` the next slot to write and `size`
      the number of samples held. */
  datatype Ring = Ring(buf: seq<real>, index: int, size: int)

  /** The shape every reachable ring has: while not yet full, the samples
      occupy the prefix `buf[..size]` and `index == size`. */
  predicate Valid(h: Ring) {
    && |h.buf| == Capacity
    && 0 <= h.index < Capacity
    && 0 <= h.size <= Capacity
    && (h.size < Capacity ==> h.index == h.size)
  }

  /** The zero-initialised static array at program start. */
  const Initial: Ring := Ring(Zeros(Capacity), 0, 0)

  function Zeros(n: nat): (z: seq<real>)
    ensures |z| == n && forall i :: 0 <= i < n ==> z[i] == 0.0
  {
    if n == 0 then [] else Zeros(n - 1) + [0.0]
  }

  /** A non-negative square root; only these two facts about `sqrt` are
      used. */
  type Sqrt = f: real -> real | (forall x: real :: f(x) >= 0.0) && f(0.0) == 0.0
    witness (x: real) => 0.0

  lemma InitialValid()
    ensures Valid(Initial)
  {
  }

  /** `adaptive_pid_add_temp_history`. */
  function Push(h: Ring, temp: int): (h': Ring)
    requires |h.buf| == Capacity && 0 <= h.index < Capacity
    ensures |h'.buf| == Capacity && 0 <= h'.index < Capacity
    ensures Valid(h) ==> Valid(h')
    ensures h'.buf[h.index] == temp as real
    ensures forall i :: 0 <= i < Capacity && i != h.index ==> h'.buf[i] == h.buf[i]
    ensures h.size < Capacity ==> h'.size == h.size + 1
    ensures h.size >= Capacity ==> h'.size == h.size
  {
    Ring(h.buf[h.index := temp as real], (h.index + 1) % Capacity,
      if h.size < Capacity then h.size + 1 else h.size)
  }

  /** Forgets the samples; the array contents stay as they were. */
  function Clear(h: Ring): (h': Ring)
    ensures Valid(h') <==> |h.buf| == Capacity
    ensures h'.size == 0 && h'.buf == h.buf
  {
    h.(index := 0, size := 0)
  }

  /** The held samples, oldest first. */
  function Samples(h: Ring): (s: seq<real>)
    requires Valid(h)
    ensures |s| == h.size
  {
    if h.size < Capacity then h.buf[..h.size] else h.buf[h.index..] + h.buf[..h.index]
  }

  /** A push appends to the samples, dropping the oldest once 60 are held. */
  lemma PushSamples(h: Ring, temp: int)
    requires Valid(h)
    ensures Samples(Push(h, temp)) ==
      if h.size < Capacity then Samples(h) + [temp as real] else Samples(h)[1..] + [temp as real]
  {
    if h.size < Capacity {
      PushFilling(h, temp);
    } else {
      PushFull(h, temp);
    }
  }

  lemma PushFilling(h: Ring, temp: int)
    requires Valid(h) && h.size < Capacity
    ensures Samples(Push(h, temp)) == Samples(h) + [temp as real]
  {
    var h' := Push(h, temp);
    assert h'.buf[..h.size + 1] == h.buf[..h.size] + [temp as real];
    if h'.size == Capacity {
      assert h'.index == 0;
      assert h'.buf[h'.index..] + h'.buf[..h'.index] == h'.buf[..h.size + 1];
    }
  }

  lemma PushFull(h: Ring, temp: int)
    requires Valid(h) && h.size == Capacity
    ensures Samples(Push(h, temp)) == Samples(h)[1..] + [temp as real]
  {
    var h' := Push(h, temp);
    var t := temp as real;
    assert Samples(h)[1..] == h.buf[h.index + 1..] + h.buf[..h.index];
    if h.index == Capacity - 1 {
      assert h'.index == 0;
      assert h'.buf == h.buf[..h.index] + [t];
      assert h'.buf[h'.index..] + h'.buf[..h'.index] == h'.buf;
    } else {
      assert h'.index == h.index + 1;
      assert h'.buf[h'.index..] == h.buf[h.index + 1..];
      assert h'.buf[..h'.index] == h.buf[..h.index] + [t];
    }
  }

  /** Whatever the slot order, the buffer prefix the oscillation reads holds
      exactly the samples. */
  lemma PrefixHoldsSamples(h: Ring)
    requires Valid(h)
    ensures multiset(h.buf[..h.size]) == multiset(Samples(h))
  {
    if h.size == Capacity {
      assert h.buf == h.buf[..h.index] + h.buf[h.index..];
      assert h.buf[..h.size] == h.buf;
    }
  }

  function PushAll(h: Ring, temps: seq<int>): (h': Ring)
    requires Valid(h)
    ensures Valid(h')
    decreases |temps|
  {
    if temps == [] then h else PushAll(Push(h, temps[0]), temps[1..])
  }

  function Reals(temps: seq<int>): (r: seq<real>)
    ensures |r| == |temps|
    ensures forall i :: 0 <= i < |temps| ==> r[i] == temps[i] as real
  {
    if temps == [] then [] else [temps[0] as real] + Reals(temps[1..])
  }

  /** The last 60 values of `s`, or all of them when there are fewer. */
  function Recent(s: seq<real>): (r: seq<real>)
    ensures |r| == if |s| <= Capacity then |s| else Capacity
  {
    if |s| <= Capacity then s else s[|s| - Capacity..]
  }

  lemma AppendAssoc(prefix: seq<real>, t: real, rest: seq<real>)
    ensures (prefix + [t]) + rest == prefix + ([t] + rest)
  {
  }

  lemma AppendAfterDrop(prefix: seq<real>, t: real, rest: seq<real>)
    requires |prefix| == Capacity
    ensures Recent((prefix[1..] + [t]) + rest) == Recent(prefix + ([t] + rest))
  {
    var all := prefix + ([t] + rest);
    assert (prefix[1..] + [t]) + rest == all[1..];
  }

  /** A ring holding `prefix` as samples, after pushing `temps`, holds the
      last 60 of `prefix + temps`. */
  lemma {:induction false} PushAllSamples(h: Ring, prefix: seq<real>, temps: seq<int>)
    requires Valid(h) && Samples(h) == prefix
    ensures Samples(PushAll(h, temps)) == Recent(prefix + Reals(temps))
    decreases |temps|
  {
    if temps == [] {
      assert prefix + Reals(temps) == prefix;
    } else {
      var t := temps[0] as real;
      PushSamples(h, temps[0]);
      var h1 := Push(h, temps[0]);
      var p1 := Samples(h1);
      assert PushAll(h, temps) == PushAll(h1, temps[1..]);
      PushAllSamples(h1, p1, temps[1..]);
      assert Reals(temps) == [t] + Reals(temps[1..]);
      if h.size < Capacity {
        AppendAssoc(prefix, t, Reals(temps[1..]));
      } else {
        AppendAfterDrop(prefix, t, Reals(temps[1..]));
      }
    }
  }

  /** From a cleared ring, the held samples are the most recent
      `min(n, 60)` temperatures pushed, oldest first. */
  lemma SamplesAfterClear(h: Ring, temps: seq<int>)
    requires |h.buf| == Capacity
    ensures Samples(PushAll(Clear(h), temps)) == Recent(Reals(temps))
  {
    PushAllSamples(Clear(h), [], temps);
    assert [] + Reals(temps) == Reals(temps);
  }

  function Sum(s: seq<real>): real {
    if s == [] then 0.0 else Sum(s[..|s| - 1]) + s[|s| - 1]
  }

  /** Sum of squared deviations from `m`. */
  function SquaredDeviation(s: seq<real>, m: real): (r: real)
    ensures r >= 0.0
  {
    if s == [] then 0.0
    else
      var d := s[|s| - 1] - m;
      SquareNonNegative(d);
      SquaredDeviation(s[..|s| - 1], m) + d * d
  }

  lemma SquareNonNegative(d: real)
    ensures d * d >= 0.0
  {
    if d < 0.0 {
      assert d * d == (-d) * (-d);
    }
  }

  function Variance(s: seq<real>): (v: real)
    requires |s| > 0
    ensures v >= 0.0
  {
    var mean := Sum(s) / |s| as real;
    SquaredDeviation(s, mean) / |s| as real
  }

  /** `adaptive_pid_calculate_oscillation`, over the first `size` slots. */
  function Oscillation(h: Ring, sqrt: Sqrt): (o: real)
    requires Valid(h)
    ensures o >= 0.0
    ensures h.size < MinSamples ==> o == 0.0
  {
    if h.size < MinSamples then 0.0 else sqrt(Variance(h.buf[..h.size]))
  }

  lemma {:induction false} SumConstant(s: seq<real>, c: real)
    requires forall i :: 0 <= i < |s| ==> s[i] == c
    ensures Sum(s) == |s| as real * c
  {
    if s != [] {
      SumConstant(s[..|s| - 1], c);
    }
  }

  lemma {:induction false} SquaredDeviationConstant(s: seq<real>, c: real)
    requires forall i :: 0 <= i < |s| ==> s[i] == c
    ensures SquaredDeviation(s, c) == 0.0
  {
    if s != [] {
      SquaredDeviationConstant(s[..|s| - 1], c);
    }
  }

  /** A history of one repeated temperature shows no oscillation. */
  lemma SteadyHistoryNoOscillation(h: Ring, sqrt: Sqrt, c: real)
    requires Valid(h)
    requires forall i :: 0 <= i < h.size ==> h.buf[i] == c
    ensures Oscillation(h, sqrt) == 0.0
  {
    if h.size >= MinSamples {
      var s := h.buf[..h.size];
      SumConstant(s, c);
      assert Sum(s) / |s| as real == c;
      SquaredDeviationConstant(s, c);
    }
  }
}
