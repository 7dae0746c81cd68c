/**
 The X idle monitor: a table of watches, each with two server alarms, and the
 conversions between 64-bit integers and the X server's split counter values.
 */
module IdleMonitor {
  import opened Wrappers

  const TWO_32 := 0x1_0000_0000
  const TWO_63 := 0x8000_0000_0000_0000
  const TWO_64 := 0x1_0000_0000_0000_0000

  // ----- counter values -----

  /** A counter value as the X server holds it: a signed high word, an unsigned low word. */
  datatype CounterValue = CounterValue(high: int, low: nat)

  predicate IsWire(v: CounterValue) {
    -0x8000_0000 <= v.high < 0x8000_0000 && v.low < TWO_32
  }

  predicate IsInt64(n: int) {
    -TWO_63 <= n < TWO_63
  }

  /** The two's complement reading of a 64-bit pattern. */
  function Signed64(bits: nat): int
    requires bits < TWO_64
  {
    if bits < TWO_63 then bits else bits - TWO_64
  }

  /** The 64-bit pattern of a signed number (the cast to an unsigned 64-bit word). */
  function Bits64(n: int): nat
    requires IsInt64(n)
  {
    if n < 0 then n + TWO_64 else n
  }

  /** The two's complement reading of a 32-bit pattern. */
  function Signed32(bits: nat): int
    requires bits < TWO_32
  {
    if bits < 0x8000_0000 then bits else bits - TWO_32
  }

  function Bits32(n: int): nat
    requires -0x8000_0000 <= n < 0x8000_0000
  {
    if n < 0 then n + TWO_32 else n
  }

  function FromCounter(v: CounterValue): int
    requires IsWire(v)
  {
    // The high word is sign-extended, shifted left by 32 in an unsigned 64-bit
    // word (which drops the extension again) and joined with the low word.
    var bits := Bits32(v.high) * TWO_32 + v.low;
    Signed64(bits)
  }

  function ToCounter(n: int): CounterValue
    requires IsInt64(n)
  {
    CounterValue(Signed32(Bits64(n) / TWO_32), Bits64(n) % TWO_32)
  }

  /** The two conversions are inverse to each other, on every value of either side. */
  lemma CounterRoundTrip(n: int, v: CounterValue)
    requires IsInt64(n) && IsWire(v)
    ensures IsWire(ToCounter(n)) && FromCounter(ToCounter(n)) == n
    ensures IsInt64(FromCounter(v)) && ToCounter(FromCounter(v)) == v
  {
    var bits := Bits64(n);
    assert bits == bits / TWO_32 * TWO_32 + bits % TWO_32;
    var back := Bits32(v.high) * TWO_32 + v.low;
    assert back / TWO_32 == Bits32(v.high) && back % TWO_32 == v.low;
    assert Bits64(FromCounter(v)) == back;
  }

  // ----- the watch table -----

  /** Watch serials live in 1..2^31-1; the generator wraps back to 1. */
  const SERIAL_LIMIT := 0x8000_0000

  datatype Watch = Watch(interval: nat, positive: nat, negative: nat)

  /** `serial` is the next watch serial, `alarms` the next identifier the X server hands out. */
  datatype Monitor = Monitor(watches: map<nat, Watch>, serial: nat, alarms: nat)

  predicate SerialsInRange(m: Monitor) {
    && 1 <= m.serial < SERIAL_LIMIT
    && 1 <= m.alarms
  }

  function NextSerial(serial: nat): nat {
    if serial + 1 >= SERIAL_LIMIT then 1 else serial + 1
  }

  function AddWatch(m: Monitor, interval: nat): Monitor {
    Monitor(m.watches[m.serial := Watch(interval, m.alarms, m.alarms + 1)], NextSerial(m.serial), m.alarms + 2)
  }

  function RemoveWatch(m: Monitor, id: nat): Monitor {
    m.(watches := m.watches - {id})
  }

  ghost predicate Owns(m: Monitor, id: nat, alarm: nat) {
    id in m.watches && alarm in {m.watches[id].positive, m.watches[id].negative}
  }

  class WatchTable {
    var watches: map<nat, Watch>
    var serial: nat
    var alarms: nat

    ghost function State(): Monitor
      reads this
    {
      Monitor(watches, serial, alarms)
    }

    constructor ()
      ensures State() == Monitor(map[], 1, 1)
    {
      watches, serial, alarms := map[], 1, 1;
    }

    method GetNextSerial() returns (id: nat)
      modifies this`serial
      ensures id == old(serial) && serial == NextSerial(old(serial))
    {
      id := serial;
      serial := serial + 1;
      if serial >= SERIAL_LIMIT {
        serial := 1;
      }
    }

    method Add(interval: nat) returns (id: nat)
      modifies this
      ensures id == old(serial) && State() == AddWatch(old(State()), interval)
    {
      id := GetNextSerial();
      var positive := alarms;
      alarms := alarms + 1;
      var negative := alarms;
      alarms := alarms + 1;
      watches := watches[id := Watch(interval, positive, negative)];
    }

    method Remove(id: nat)
      modifies this`watches
      ensures State() == RemoveWatch(old(State()), id)
    {
      watches := watches - {id};
    }

    /** Finds the watch that owns an alarm, and says whether it is the watch's positive alarm. */
    method FindAlarm(alarm: nat) returns (found: Option<bool>)
      ensures found.None? <==> forall id :: !Owns(State(), id, alarm)
      ensures found.Some? ==> exists id :: Owns(State(), id, alarm) && (found.value <==> watches[id].positive == alarm)
    {
      var ids := watches.Keys;
      while ids != {}
        invariant ids <= watches.Keys
        invariant forall id | id in watches.Keys - ids :: !Owns(State(), id, alarm)
      {
        var id :| id in ids;
        if watches[id].positive == alarm || watches[id].negative == alarm {
          assert Owns(State(), id, alarm);
          return Some(watches[id].positive == alarm);
        }
        ids := ids - {id};
      }
      return None;
    }
  }
}
