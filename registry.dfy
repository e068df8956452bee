/**
 The device registry: a map from device name to record, together with the
 order in which the names were first seen (the order in which a Python dict
 yields its keys, and so the order of the watchdog's pass), and the
 watchdog's pass over all records.
 */
module Registry {
  import opened DeviceState

  type Devices = map<string, DeviceRecord>

  /** `order` lists every registered name exactly once and every record is in range. */
  ghost predicate WellFormed(order: seq<string>, m: Devices)
  {
    && (forall i, j :: 0 <= i < j < |order| ==> order[i] != order[j])
    && (forall d :: d in m <==> d in order)
    && (forall d :: d in m ==> InRange(m[d]))
  }

  /** Creation on first sight: an absent name gets a copy of the defaults. */
  function WithDevice(m: Devices, dev: string): (r: Devices)
    ensures r.Keys == m.Keys + {dev}
    ensures dev !in m ==> r[dev] == Defaults
    ensures forall d :: d in m ==> r[d] == m[d]
  {
    if dev in m then m else m[dev := Defaults]
  }

  /** The record `dev` has once it is guaranteed to exist. */
  function Prior(m: Devices, dev: string): DeviceRecord
  {
    if dev in m then m[dev] else Defaults
  }

  /** The insertion order after `dev` is made sure to exist. */
  function WithName(order: seq<string>, m: Devices, dev: string): (r: seq<string>)
    ensures dev in m ==> r == order
    ensures dev !in m ==> r == order + [dev]
  {
    if dev in m then order else order + [dev]
  }

  lemma WithDeviceIdempotent(m: Devices, dev: string)
    ensures WithDevice(WithDevice(m, dev), dev) == WithDevice(m, dev)
    ensures WithDevice(m, dev)[dev] == Prior(m, dev)
  {
  }

  /** Writing a record after creating it is the same as writing it. */
  lemma WithDeviceThenWrite(m: Devices, dev: string, r: DeviceRecord)
    ensures WithDevice(m, dev)[dev := r] == m[dev := r]
  {
  }

  lemma WithDeviceWellFormed(order: seq<string>, m: Devices, dev: string)
    requires WellFormed(order, m)
    ensures WellFormed(WithName(order, m, dev), WithDevice(m, dev))
  {
    DefaultsInRange();
  }

  /** Writing an in-range record for a registered name keeps the registry well formed. */
  lemma UpdateWellFormed(order: seq<string>, m: Devices, dev: string, r: DeviceRecord)
    requires WellFormed(order, m) && dev in m && InRange(r)
    ensures WellFormed(order, m[dev := r])
  {
  }

  // ---------- watchdog pass ----------

  /** Every record after one watchdog pass at `now`. */
  function TickAll(m: Devices, now: int): (r: Devices)
    ensures r.Keys == m.Keys
    ensures forall d :: d in m ==> r[d] == TickRecord(m[d], now)
  {
    map d | d in m :: TickRecord(m[d], now)
  }

  /** The records after a pass that has so far visited the names in `ds`. */
  function TickVisited(m: Devices, ds: seq<string>, now: int): (r: Devices)
    ensures r.Keys == m.Keys
    ensures forall d :: d in m ==> r[d] == if d in ds then TickRecord(m[d], now) else m[d]
  {
    map d | d in m :: if d in ds then TickRecord(m[d], now) else m[d]
  }

  lemma TickVisitedNone(m: Devices, now: int)
    ensures TickVisited(m, [], now) == m
  {
  }

  /** Visiting one more registered name updates just that name's record. */
  lemma TickVisitedStep(m: Devices, ds: seq<string>, d: string, now: int)
    requires d in m && d !in ds
    ensures TickVisited(m, ds + [d], now) == TickVisited(m, ds, now)[d := TickRecord(m[d], now)]
  {
  }

  /** One step of the pass: the visited record is written only when it is due. */
  lemma TickVisitedVisit(m: Devices, ds: seq<string>, d: string, now: int)
    requires d in m && d !in ds
    ensures TickVisited(m, ds, now)[d] == m[d]
    ensures TickVisited(m, ds + [d], now) ==
      if ShouldAlert(m[d], now) then TickVisited(m, ds, now)[d := m[d].(lastAlarm := now)]
      else TickVisited(m, ds, now)
  {
    TickVisitedStep(m, ds, d, now);
    var v := TickVisited(m, ds, now);
    if !ShouldAlert(m[d], now) {
      assert v[d := m[d]] == v;
    }
  }

  /** Visiting the `i`-th name of a duplicate-free order, as one step of the pass. */
  lemma TickLoopStep(m: Devices, ds: seq<string>, i: nat, now: int)
    requires i < |ds| && ds[i] in m
    requires forall a, b :: 0 <= a < b < |ds| ==> ds[a] != ds[b]
    ensures TickVisited(m, ds[..i], now)[ds[i]] == m[ds[i]]
    ensures TickVisited(m, ds[..i + 1], now) ==
      if ShouldAlert(m[ds[i]], now) then TickVisited(m, ds[..i], now)[ds[i] := m[ds[i]].(lastAlarm := now)]
      else TickVisited(m, ds[..i], now)
    ensures Alerted(ds[..i + 1], m, now) ==
      Alerted(ds[..i], m, now) + (if ShouldAlert(m[ds[i]], now) then [ds[i]] else [])
  {
    var d := ds[i];
    assert ds[..i + 1] == ds[..i] + [d];
    assert d !in ds[..i];
    TickVisitedVisit(m, ds[..i], d, now);
    AlertedStep(ds[..i], d, m, now);
  }

  lemma TickVisitedAll(m: Devices, ds: seq<string>, now: int)
    requires forall d :: d in m ==> d in ds
    ensures TickVisited(m, ds, now) == TickAll(m, now)
  {
  }

  /** The names, in the order of `ds`, that a pass at `now` alerts. */
  function Alerted(ds: seq<string>, m: Devices, now: int): seq<string>
  {
    if ds == [] then []
    else
      var d := ds[|ds| - 1];
      Alerted(ds[..|ds| - 1], m, now) + (if d in m && ShouldAlert(m[d], now) then [d] else [])
  }

  lemma AlertedStep(ds: seq<string>, d: string, m: Devices, now: int)
    ensures Alerted(ds + [d], m, now) == Alerted(ds, m, now) + (if d in m && ShouldAlert(m[d], now) then [d] else [])
  {
    assert (ds + [d])[..|ds|] == ds;
  }

  /** A name is alerted exactly when it is visited, registered and due. */
  lemma {:induction false} AlertedMembers(ds: seq<string>, m: Devices, now: int, d: string)
    ensures d in Alerted(ds, m, now) <==> d in ds && d in m && ShouldAlert(m[d], now)
  {
    if ds != [] {
      var init := ds[..|ds| - 1];
      AlertedMembers(init, m, now, d);
      assert ds == init + [ds[|ds| - 1]];
    }
  }

  /** Alerts come in visiting order, each name once. */
  lemma {:induction false} AlertedDistinct(ds: seq<string>, m: Devices, now: int)
    requires forall i, j :: 0 <= i < j < |ds| ==> ds[i] != ds[j]
    ensures var a := Alerted(ds, m, now); forall i, j :: 0 <= i < j < |a| ==> a[i] != a[j]
  {
    if ds != [] {
      var init, last := ds[..|ds| - 1], ds[|ds| - 1];
      AlertedDistinct(init, m, now);
      AlertedMembers(init, m, now, last);
      assert last !in init;
    }
  }

  lemma TickAllWellFormed(order: seq<string>, m: Devices, now: int)
    requires WellFormed(order, m)
    ensures WellFormed(order, TickAll(m, now))
  {
    forall d | d in m ensures InRange(TickAll(m, now)[d]) {
      var r := m[d];
      assert forall p :: Get(TickRecord(r, now), p) == Get(r, p);
    }
  }

  /** A device that has never pinged is never alerted. */
  lemma NeverPingedNeverAlertedAll(ds: seq<string>, m: Devices, now: int, d: string)
    requires d in m && m[d].lastPing == 0
    ensures d !in Alerted(ds, m, now)
  {
    AlertedMembers(ds, m, now, d);
  }

  /** A second pass no later than the timeout after one that alerted a device does not alert it again. */
  lemma NoRealert(ds: seq<string>, m: Devices, t: int, t': int, d: string)
    requires t' - t <= PingTimeoutS
    requires d in Alerted(ds, m, t)
    ensures d !in Alerted(ds, TickAll(m, t), t')
  {
    AlertedMembers(ds, m, t, d);
    AlertedMembers(ds, TickAll(m, t), t', d);
  }

  /** An event at `t` (which sets `lastAlarm`) keeps the device out of every pass up to the timeout later. */
  lemma EventSuppressesAlert(ds: seq<string>, m: Devices, dev: string, t: int, now: int)
    requires now - t <= PingTimeoutS
    ensures dev !in Alerted(ds, m[dev := Prior(m, dev).(lastAlarm := t)], now)
  {
    AlertedMembers(ds, m[dev := Prior(m, dev).(lastAlarm := t)], now, dev);
  }

  /** A pass only ever moves `lastAlarm`, and only of the devices it alerts. */
  lemma TickAllFrame(ds: seq<string>, m: Devices, now: int, d: string)
    requires d in m && d in ds
    ensures TickAll(m, now)[d] == m[d].(lastAlarm := TickAll(m, now)[d].lastAlarm)
    ensures TickAll(m, now)[d] != m[d] ==> d in Alerted(ds, m, now) && TickAll(m, now)[d].lastAlarm == now
  {
    AlertedMembers(ds, m, now, d);
  }
}
