/** The embedded-controller port protocol of chapter 12 of the ACPI
    specification, as the fan controller drives it: the EC_SC status/command
    port (0x66) with its OBF (bit 0) and IBF (bit 1) flags from section
    12.2.1, the EC_DATA port (0x62), the RD_EC command 0x80 of section
    12.3.1, and the vendor-specific fan-duty write command 0x99.

    The hardware is an oracle `Device`: `status(k)` is the byte the k-th
    read of the status port returns and `data(k)` the byte the k-th read of
    the data port returns; the `Bus` counts the reads made so far in `sc`
    and `dc`. Status polls
    are counted by `sc`; every other port access -- the commands, addresses
    and data bytes -- is appended to `trace`. The 1 ms sleeps between polls
    are not modelled. */
module EcPort {
  import opened Base
  import Codec

  const EcSc: int := 0x66
  const EcData: int := 0x62
  const IbfBit: nat := 1
  const ObfBit: nat := 0
  const RdEc: Byte := 0x80
  const WrFanDuty: Byte := 0x99
  const FanDutyAddr: Byte := 0x01
  /** Number of polls allowed after the first status read. */
  const WaitBudget: nat := 100

  datatype Io = In(port: int, value: Byte) | Out(port: int, value: Byte)

  /** The controller as seen from the ports: the answers to successive
      status and data reads. */
  datatype Device = Device(status: nat -> Byte, data: nat -> Byte)

  /** How far the reads have progressed, and the traffic so far. */
  datatype Bus = Bus(sc: nat, dc: nat, trace: seq<Io>)

  datatype WaitResult = WaitResult(ok: bool, bus: Bus)

  datatype ReadResult = ReadResult(value: Byte, bus: Bus)

  function Pow2(n: nat): (p: nat)
    ensures p >= 1
  {
    if n == 0 then 1 else 2 * Pow2(n - 1)
  }

  /** Bit `flag` of `data`, as `(data >> flag) & 1`. */
  function Bit(data: Byte, flag: nat): (b: int)
    ensures b == 0 || b == 1
  {
    (data / Pow2(flag)) % 2
  }

  /** The `k`-th status read from the current position shows `flag == value`. */
  ghost predicate Hit(dev: Device, b: Bus, flag: nat, value: int, k: nat) {
    Bit(dev.status(b.sc + k), flag) == value
  }

  /** Writes one byte to a port. */
  function Output(b: Bus, port: int, value: Byte): (b': Bus)
    ensures b'.trace == b.trace + [Out(port, value)]
    ensures b'.sc == b.sc && b'.dc == b.dc
  {
    b.(trace := b.trace + [Out(port, value)])
  }

  /** The polling loop of `ec_io_wait`: `i` is the C loop counter when the
      next status byte is read. The loop leaves on a match, or after the
      read that follows `i == 100`; success is reported only when `i < 100`
      at exit. */
  function Poll(dev: Device, b: Bus, flag: nat, value: int, i: nat): (r: WaitResult)
    requires i <= WaitBudget
    ensures b.sc + 1 <= r.bus.sc <= b.sc + WaitBudget + 1 - i
    ensures r.bus.trace == b.trace && r.bus.dc == b.dc
    decreases WaitBudget - i
  {
    var v := dev.status(b.sc);
    var b' := b.(sc := b.sc + 1);
    if Bit(v, flag) == value then WaitResult(i < WaitBudget, b')
    else if i < WaitBudget then Poll(dev, b', flag, value, i + 1)
    else WaitResult(false, b')
  }

  /** `ec_io_wait`: waits until bit `flag` of the status port equals `value`.
      It only reads the status port. */
  function Wait(dev: Device, b: Bus, flag: nat, value: int): (r: WaitResult)
    ensures b.sc + 1 <= r.bus.sc <= b.sc + WaitBudget + 1
    ensures r.bus.trace == b.trace && r.bus.dc == b.dc
  {
    Poll(dev, b, flag, value, 0)
  }

  lemma {:induction false} PollSpec(dev: Device, b: Bus, flag: nat, value: int, i: nat)
    requires i <= WaitBudget
    ensures var r := Poll(dev, b, flag, value, i);
      && (r.ok <==> exists k :: 0 <= k < WaitBudget - i && Hit(dev, b, flag, value, k))
      && (forall k :: 0 <= k < r.bus.sc - b.sc - 1 ==> !Hit(dev, b, flag, value, k))
      && (r.ok ==> Hit(dev, b, flag, value, r.bus.sc - b.sc - 1))
      && (!r.ok ==> r.bus.sc - b.sc == WaitBudget + 1 - i)
    decreases WaitBudget - i
  {
    var b' := b.(sc := b.sc + 1);
    var r := Poll(dev, b, flag, value, i);
    assert Hit(dev, b, flag, value, 0) <==> Bit(dev.status(b.sc), flag) == value;
    if !Hit(dev, b, flag, value, 0) && i < WaitBudget {
      PollSpec(dev, b', flag, value, i + 1);
      forall k | 0 <= k
        ensures Hit(dev, b', flag, value, k) <==> Hit(dev, b, flag, value, k + 1)
      {
        assert b'.sc + k == b.sc + (k + 1);
      }
      if r.ok {
        var k :| 0 <= k < WaitBudget - (i + 1) && Hit(dev, b', flag, value, k);
        assert Hit(dev, b, flag, value, k + 1);
      }
      if exists k :: 0 <= k < WaitBudget - i && Hit(dev, b, flag, value, k) {
        var k :| 0 <= k < WaitBudget - i && Hit(dev, b, flag, value, k);
        assert Hit(dev, b', flag, value, k - 1);
      }
      forall k | 0 <= k < r.bus.sc - b.sc - 1
        ensures !Hit(dev, b, flag, value, k)
      {
        if k > 0 {
          assert !Hit(dev, b', flag, value, k - 1);
        }
      }
    }
  }

  /** `ec_io_wait` succeeds iff the flag shows `value` within the first 100
      status reads. It reads at most 101 times, the reads before the last
      all missed, and a failure always costs all 101 reads -- so a match on
      the 101st read is still reported as a failure. */
  lemma WaitSpec(dev: Device, b: Bus, flag: nat, value: int)
    ensures var r := Wait(dev, b, flag, value);
      && (r.ok <==> exists k :: 0 <= k < WaitBudget && Hit(dev, b, flag, value, k))
      && (forall k :: 0 <= k < r.bus.sc - b.sc - 1 ==> !Hit(dev, b, flag, value, k))
      && (r.ok ==> Hit(dev, b, flag, value, r.bus.sc - b.sc - 1))
      && (!r.ok ==> r.bus.sc - b.sc == WaitBudget + 1)
  {
    PollSpec(dev, b, flag, value, 0);
  }

  /** One handshake step: wait for the flag, ignoring the outcome, then
      write a byte. */
  function WaitThenOut(dev: Device, b: Bus, flag: nat, value: int, port: int, v: Byte): (b': Bus)
    ensures b.sc + 1 <= b'.sc <= b.sc + WaitBudget + 1
    ensures b'.trace == b.trace + [Out(port, v)]
    ensures b'.dc == b.dc
  {
    Output(Wait(dev, b, flag, value).bus, port, v)
  }

  /** Two handshake steps, each waiting for the input buffer to drain. */
  function SendTwo(dev: Device, b: Bus, p1: int, v1: Byte, p2: int, v2: Byte): (b': Bus)
    ensures b.sc + 2 <= b'.sc <= b.sc + 2 * (WaitBudget + 1)
    ensures b'.trace == b.trace + [Out(p1, v1), Out(p2, v2)]
    ensures b'.dc == b.dc
  {
    var b1 := WaitThenOut(dev, b, IbfBit, 0, p1, v1);
    WaitThenOut(dev, b1, IbfBit, 0, p2, v2)
  }

  /** `ec_io_read`: RD_EC to EC_SC, the register address to EC_DATA, then
      one byte from EC_DATA, each step after a wait whose result is
      ignored. The byte read is returned whether or not the controller
      ever signalled it. */
  function IoRead(dev: Device, b: Bus, addr: Byte): (r: ReadResult)
    ensures r.value == dev.data(b.dc)
    ensures b.sc + 3 <= r.bus.sc <= b.sc + 3 * (WaitBudget + 1)
    ensures r.bus.dc == b.dc + 1
    ensures r.bus.trace == b.trace + [Out(EcSc, RdEc), Out(EcData, addr), In(EcData, r.value)]
  {
    var b2 := SendTwo(dev, b, EcSc, RdEc, EcData, addr);
    var w3 := Wait(dev, b2, ObfBit, 1).bus;
    var v := dev.data(w3.dc);
    ReadResult(v, w3.(dc := w3.dc + 1, trace := w3.trace + [In(EcData, v)]))
  }

  /** The status read at which the final wait of `ec_io_do` starts: after
      the three waits that precede the command, address and value bytes.
      Where it lies depends only on the status port, not on the bytes
      sent. */
  function FinalWaitStart(dev: Device, b: Bus): (s: nat)
    ensures b.sc + 3 <= s <= b.sc + 3 * (WaitBudget + 1)
  {
    var b2 := SendTwo(dev, b, EcSc, 0, EcData, 0);
    WaitThenOut(dev, b2, IbfBit, 0, EcData, 0).sc
  }

  /** `ec_io_do`: command, address and value bytes, each after a wait; the
      result is that of the final wait only: success iff IBF reads clear
      within the 100 status reads from `FinalWaitStart`, whatever the
      earlier waits saw. */
  function IoDo(dev: Device, b: Bus, cmd: Byte, addr: Byte, value: Byte): (r: WaitResult)
    ensures b.sc + 4 <= r.bus.sc <= b.sc + 4 * (WaitBudget + 1)
    ensures r.bus.dc == b.dc
    ensures r.bus.trace == b.trace + [Out(EcSc, cmd), Out(EcData, addr), Out(EcData, value)]
    ensures var s := FinalWaitStart(dev, b);
      && s < r.bus.sc <= s + WaitBudget + 1
      && (r.ok <==> exists k :: 0 <= k < WaitBudget && Hit(dev, b.(sc := s), IbfBit, 0, k))
      && (forall k :: 0 <= k < r.bus.sc - s - 1 ==> !Hit(dev, b.(sc := s), IbfBit, 0, k))
  {
    var b2 := SendTwo(dev, b, EcSc, cmd, EcData, addr);
    var b3 := WaitThenOut(dev, b2, IbfBit, 0, EcData, value);
    FinalWaitStartIgnoresBytes(dev, b, cmd, addr, value);
    FinalWait(dev, b3, b.(sc := b3.sc));
    Wait(dev, b3, IbfBit, 0)
  }

  /** `WaitSpec` for IBF clearing, phrased for any bus at the same status
      position. */
  lemma FinalWait(dev: Device, b: Bus, c: Bus)
    requires b.sc == c.sc
    ensures var r := Wait(dev, b, IbfBit, 0);
      && c.sc < r.bus.sc <= c.sc + WaitBudget + 1
      && (r.ok <==> exists k :: 0 <= k < WaitBudget && Hit(dev, c, IbfBit, 0, k))
      && (forall k :: 0 <= k < r.bus.sc - c.sc - 1 ==> !Hit(dev, c, IbfBit, 0, k))
  {
    WaitSpec(dev, b, IbfBit, 0);
    assert forall k :: Hit(dev, b, IbfBit, 0, k) == Hit(dev, c, IbfBit, 0, k);
  }

  /** The positions the waits reach are those of the status port alone. */
  lemma FinalWaitStartIgnoresBytes(dev: Device, b: Bus, cmd: Byte, addr: Byte, value: Byte)
    ensures var b2 := SendTwo(dev, b, EcSc, cmd, EcData, addr);
      WaitThenOut(dev, b2, IbfBit, 0, EcData, value).sc == FinalWaitStart(dev, b)
  {
    WaitIgnoresTrace(dev, b, b.(trace := []), IbfBit, 0);
    var b1 := WaitThenOut(dev, b, IbfBit, 0, EcSc, cmd);
    var c1 := WaitThenOut(dev, b, IbfBit, 0, EcSc, 0);
    WaitIgnoresTrace(dev, b1, c1, IbfBit, 0);
    var b2 := WaitThenOut(dev, b1, IbfBit, 0, EcData, addr);
    var c2 := WaitThenOut(dev, c1, IbfBit, 0, EcData, 0);
    WaitIgnoresTrace(dev, b2, c2, IbfBit, 0);
  }

  /** A wait's status reads depend only on where the status port stands. */
  lemma WaitIgnoresTrace(dev: Device, b: Bus, c: Bus, flag: nat, value: int)
    requires b.sc == c.sc
    ensures Wait(dev, b, flag, value).ok == Wait(dev, c, flag, value).ok
    ensures Wait(dev, b, flag, value).bus.sc == Wait(dev, c, flag, value).bus.sc
  {
    PollIgnoresTrace(dev, b, c, flag, value, 0);
  }

  lemma {:induction false} PollIgnoresTrace(dev: Device, b: Bus, c: Bus, flag: nat, value: int, i: nat)
    requires b.sc == c.sc && i <= WaitBudget
    ensures Poll(dev, b, flag, value, i).ok == Poll(dev, c, flag, value, i).ok
    ensures Poll(dev, b, flag, value, i).bus.sc == Poll(dev, c, flag, value, i).bus.sc
    decreases WaitBudget - i
  {
    if Bit(dev.status(b.sc), flag) != value && i < WaitBudget {
      PollIgnoresTrace(dev, b.(sc := b.sc + 1), c.(sc := c.sc + 1), flag, value, i + 1);
    }
  }

  /** A status port that reports IBF set for its first 101 reads and clear
      afterwards. */
  function BusyThenReady(k: nat): Byte {
    if k <= WaitBudget then 0x02 else 0x00
  }

  lemma WaitImmediate(dev: Device, b: Bus, flag: nat, value: int)
    requires Hit(dev, b, flag, value, 0)
    ensures Wait(dev, b, flag, value).ok && Wait(dev, b, flag, value).bus.sc == b.sc + 1
  {
    WaitSpec(dev, b, flag, value);
  }

  /** `ec_io_do` reports success although its first wait timed out: the
      intermediate wait results are discarded. */
  lemma IoDoIgnoresEarlierTimeouts(data: nat -> Byte)
    ensures var dev, b := Device(BusyThenReady, data), Bus(0, 0, []);
      && !Wait(dev, b, IbfBit, 0).ok
      && IoDo(dev, b, WrFanDuty, FanDutyAddr, 0x80).ok
  {
    var dev, b := Device(BusyThenReady, data), Bus(0, 0, []);
    WaitSpec(dev, b, IbfBit, 0);
    forall k | 0 <= k < WaitBudget
      ensures !Hit(dev, b, IbfBit, 0, k)
    {
      assert dev.status(b.sc + k) == 0x02;
    }
    var b1 := WaitThenOut(dev, b, IbfBit, 0, EcSc, WrFanDuty);
    assert b1.sc == WaitBudget + 1;
    assert dev.status(b1.sc) == 0;
    WaitImmediate(dev, b1, IbfBit, 0);
    var b2 := WaitThenOut(dev, b1, IbfBit, 0, EcData, FanDutyAddr);
    assert dev.status(b2.sc) == 0;
    WaitImmediate(dev, b2, IbfBit, 0);
    var b3 := WaitThenOut(dev, b2, IbfBit, 0, EcData, 0x80);
    assert dev.status(b3.sc) == 0;
    WaitImmediate(dev, b3, IbfBit, 0);
  }

  /** A status port whose IBF clears on its 101st read. */
  function ReadyOnLastRead(k: nat): Byte {
    if k < WaitBudget then 0x02 else 0x00
  }

  /** `ec_io_wait` makes a 101st status read but never looks at it: when
      that read is the first to show the flag, the wait still fails. */
  lemma LastReadIgnored(data: nat -> Byte)
    ensures var dev, b := Device(ReadyOnLastRead, data), Bus(0, 0, []);
      var r := Wait(dev, b, IbfBit, 0);
      && Hit(dev, b, IbfBit, 0, WaitBudget)
      && r.bus.sc == WaitBudget + 1
      && !r.ok
  {
    var dev, b := Device(ReadyOnLastRead, data), Bus(0, 0, []);
    WaitSpec(dev, b, IbfBit, 0);
    forall k | 0 <= k < WaitBudget
      ensures !Hit(dev, b, IbfBit, 0, k)
    {
      assert dev.status(b.sc + k) == 0x02;
    }
  }

  /** `ec_write_fan_duty`: a percentage outside 1..100 is rejected with no
      port traffic; otherwise the raw value is written with command 0x99 to
      register 0x01. */
  function WriteFanDuty(dev: Device, b: Bus, p: int): (r: WaitResult)
    ensures (p < 1 || p > 100) ==> !r.ok && r.bus == b
    ensures 1 <= p <= 100 ==> exists raw: Byte ::
      && raw * 100 <= p * 255 < (raw + 1) * 100
      && r.bus.trace == b.trace + [Out(EcSc, WrFanDuty), Out(EcData, FanDutyAddr), Out(EcData, raw)]
    ensures r.bus.dc == b.dc
  {
    if p < 1 || p > 100 then WaitResult(false, b)
    else IoDo(dev, b, WrFanDuty, FanDutyAddr, Codec.DutyToRaw(p))
  }

  /** Reading back the byte an accepted write sent loses at most one
      percent. */
  lemma WriteFanDutyReadsBack(dev: Device, b: Bus, p: int)
    requires 1 <= p <= 100
    ensures var raw := WriteFanDuty(dev, b, p).bus.trace[|b.trace| + 2].value;
      Codec.DutyFromRaw(raw) == p || Codec.DutyFromRaw(raw) == p - 1
  {
    Codec.DutyRoundTrip(p);
  }
}
