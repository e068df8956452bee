/**
 One device's record as the relay keeps it, and the pure rules that act on a
 single record: the defaults a new device starts from, the range saturation of
 the detection parameters, the calibration handshake and the watchdog's alert
 rule. Timestamps are whole seconds; 0 means "never".
 */
module DeviceState {
  import opened Wrappers

  /** A JSON value a device sends (an RMS figure), kept as its text and never interpreted. */
  datatype Reading = Reading(json: string)

  datatype DeviceRecord = DeviceRecord(
    armed: bool,
    thr: int,
    holdMs: int,
    cooldownS: int,
    windowMs: int,
    lastPing: int,
    lastAlarm: int,
    calibReqTs: int,
    calibResult: Option<Reading>,
    calibResultTs: int)

  /** The template every device is created from. */
  const Defaults: DeviceRecord := DeviceRecord(
    armed := true, thr := 35, holdMs := 900, cooldownS := 30, windowMs := 360,
    lastPing := 0, lastAlarm := 0,
    calibReqTs := 0, calibResult := None, calibResultTs := 0)

  /** Seconds without a ping before the watchdog alerts, and the alert cooldown. */
  const PingTimeoutS: int := 260

  /** Age in seconds up to which a calibration result is reused. */
  const CalibFreshS: int := 60

  // ---------- detection parameters ----------

  /** The four parameters an operator may set. */
  datatype Param = Thr | HoldMs | CooldownS | WindowMs

  function Lo(p: Param): int
  {
    match p
    case Thr => 1
    case HoldMs => 1
    case CooldownS => 1
    case WindowMs => 18
  }

  function Hi(p: Param): int
  {
    match p
    case Thr => 1023
    case HoldMs => 10000
    case CooldownS => 600
    case WindowMs => 7200
  }

  function Max(a: int, b: int): int { if a < b then b else a }

  function Min(a: int, b: int): int { if a < b then a else b }

  /** Python's `max(lo, min(hi, v))`: saturate `v` into `[lo, hi]`. */
  function Clamp(v: int, lo: int, hi: int): (r: int)
    ensures lo <= hi ==> lo <= r <= hi
    ensures lo <= v <= hi ==> r == v
    ensures lo <= hi && v < lo ==> r == lo
    ensures lo <= hi && hi < v ==> r == hi
    ensures hi < lo ==> r == lo
  {
    Max(lo, Min(hi, v))
  }

  /** The value of parameter `p` in `r`. */
  function Get(r: DeviceRecord, p: Param): int
  {
    match p
    case Thr => r.thr
    case HoldMs => r.holdMs
    case CooldownS => r.cooldownS
    case WindowMs => r.windowMs
  }

  /** Every parameter lies in its range. */
  predicate InRange(r: DeviceRecord)
  {
    forall p: Param :: Lo(p) <= Get(r, p) <= Hi(p)
  }

  lemma DefaultsInRange()
    ensures InRange(Defaults)
  {
    forall p: Param ensures Lo(p) <= Get(Defaults, p) <= Hi(p) {
    }
  }

  /** Store `v`, saturated into the range of `p`, as parameter `p`; nothing else changes. */
  function ApplySet(r: DeviceRecord, p: Param, v: int): (r': DeviceRecord)
    ensures Lo(p) <= Get(r', p) <= Hi(p)
    ensures Lo(p) <= v <= Hi(p) ==> Get(r', p) == v
    ensures v < Lo(p) ==> Get(r', p) == Lo(p)
    ensures Hi(p) < v ==> Get(r', p) == Hi(p)
    ensures forall q :: q != p ==> Get(r', q) == Get(r, q)
    ensures r'.armed == r.armed && r'.lastPing == r.lastPing && r'.lastAlarm == r.lastAlarm
    ensures r'.calibReqTs == r.calibReqTs && r'.calibResult == r.calibResult
    ensures r'.calibResultTs == r.calibResultTs
  {
    var c := Clamp(v, Lo(p), Hi(p));
    match p
    case Thr => r.(thr := c)
    case HoldMs => r.(holdMs := c)
    case CooldownS => r.(cooldownS := c)
    case WindowMs => r.(windowMs := c)
  }

  lemma ApplySetInRange(r: DeviceRecord, p: Param, v: int)
    requires InRange(r)
    ensures InRange(ApplySet(r, p, v))
  {
    var r' := ApplySet(r, p, v);
    forall q: Param ensures Lo(q) <= Get(r', q) <= Hi(q) {
      if q != p {
        assert Get(r', q) == Get(r, q);
      }
    }
  }

  /** A record that keeps all four parameters of an in-range record is in range. */
  lemma SameParamsInRange(r: DeviceRecord, r': DeviceRecord)
    requires InRange(r)
    requires r'.thr == r.thr && r'.holdMs == r.holdMs && r'.cooldownS == r.cooldownS && r'.windowMs == r.windowMs
    ensures InRange(r')
  {
    forall p: Param ensures Lo(p) <= Get(r', p) <= Hi(p) {
      assert Get(r', p) == Get(r, p);
    }
  }

  // ---------- calibration handshake ----------

  /** A stored result younger than the freshness window, which the operator is shown instead of a new measurement. */
  predicate IsFresh(r: DeviceRecord, now: int)
  {
    r.calibResultTs != 0 && now - r.calibResultTs <= CalibFreshS && r.calibResult.Some?
  }

  /** Ask for a new measurement at `now`, discarding the stored result. */
  function RequestCalib(r: DeviceRecord, now: int): (r': DeviceRecord)
    ensures r'.calibReqTs == now
    ensures r'.calibResult == None && r'.calibResultTs == 0
    ensures r' == r.(calibReqTs := r'.calibReqTs, calibResult := r'.calibResult, calibResultTs := r'.calibResultTs)
    ensures forall t :: !IsFresh(r', t)
  {
    r.(calibReqTs := now, calibResult := None, calibResultTs := 0)
  }

  /** A device reports a measurement at `now`, solicited or not. */
  function StoreCalibResult(r: DeviceRecord, value: Option<Reading>, now: int): (r': DeviceRecord)
    ensures r'.calibResult == value && r'.calibResultTs == now
    ensures r' == r.(calibResult := r'.calibResult, calibResultTs := r'.calibResultTs)
    ensures forall t :: IsFresh(r', t) <==> value.Some? && now != 0 && t - now <= CalibFreshS
  {
    r.(calibResult := value, calibResultTs := now)
  }

  /** A measurement requested and then reported is shown for exactly the freshness window. */
  lemma RequestThenReport(r: DeviceRecord, tReq: int, x: Reading, tRes: int, t: int)
    requires tRes != 0
    ensures IsFresh(StoreCalibResult(RequestCalib(r, tReq), Some(x), tRes), t) <==> t - tRes <= CalibFreshS
    ensures StoreCalibResult(RequestCalib(r, tReq), Some(x), tRes).calibReqTs == tReq
  {
  }

  // ---------- status report ----------

  /** What `/status` shows: the record and the ages of the last ping and result, -1 for "never". */
  datatype StatusView = StatusView(record: DeviceRecord, lastPingAgo: int, calibAge: int)

  function StatusOf(r: DeviceRecord, now: int): StatusView
  {
    StatusView(r,
      if r.lastPing != 0 then now - r.lastPing else -1,
      if r.calibResultTs != 0 then now - r.calibResultTs else -1)
  }

  // ---------- watchdog rule ----------

  /** A pinged device silent for longer than the timeout, and not alerted (or evented) within it. */
  predicate ShouldAlert(r: DeviceRecord, now: int)
  {
    r.lastPing != 0 && now - r.lastPing > PingTimeoutS && now - r.lastAlarm > PingTimeoutS
  }

  /** The watchdog's effect on one record at `now`. */
  function TickRecord(r: DeviceRecord, now: int): (r': DeviceRecord)
    ensures ShouldAlert(r, now) ==> r' == r.(lastAlarm := now)
    ensures !ShouldAlert(r, now) ==> r' == r
  {
    if ShouldAlert(r, now) then r.(lastAlarm := now) else r
  }

  /** The rule is not edge-triggered: a device that stays silent is alerted again once the cooldown has passed. */
  lemma SilentDeviceAlertedAgain(r: DeviceRecord, t: int, t': int)
    requires ShouldAlert(r, t) && t' - t > PingTimeoutS
    ensures ShouldAlert(TickRecord(r, t), t')
  {
  }

  lemma NeverPingedNeverAlerted(r: DeviceRecord, now: int)
    requires r.lastPing == 0
    ensures !ShouldAlert(r, now)
  {
  }

  /** Once alerted (or once an event was reported) a device stays quiet for the timeout. */
  lemma AlarmSuppresses(r: DeviceRecord, t: int, now: int)
    requires now - t <= PingTimeoutS
    ensures !ShouldAlert(r.(lastAlarm := t), now)
  {
  }
}
