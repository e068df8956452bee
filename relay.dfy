/**
 The relay server's state and its handlers: the registry of devices, the set
 of subscribed chats, the device-facing writes (`/cfg`, `/ping`, `/event`,
 `/calib`), the operator's command handler and one tick of the watchdog.
 Time is the integer `now` each handler is given; messages the server would
 send are returned instead of sent.
 */
module Relay {
  import opened Wrappers
  import opened DeviceState
  import opened Registry
  import opened Commands

  /** The device a request means when it names none; also the only device operator commands act on. */
  const DefaultDevice: string := "EGE"

  function DeviceName(dev: Option<string>): string
  {
    match dev
    case Some(d) => d
    case None => DefaultDevice
  }

  /** What `/cfg` reports to a device. */
  datatype ConfigView = ConfigView(
    armed: bool, thr: int, holdMs: int, cooldownS: int, windowMs: int,
    calibReqTs: int, serverTime: int)

  /** A message broadcast to every subscriber. */
  datatype Notice =
    | EventNotice(dev: string, rms: Option<Reading>)
    | CalibReady(dev: string, rmsAvg: Option<Reading>)

  /** The answer sent back to the chat that issued a command. */
  datatype Reply =
    | NoReply
    | Started
    | Left
    | HelpText
    | Armed
    | Disarmed
    | StatusReport(view: StatusView)
    | CalibCached(value: Reading)
    | CalibRequested
    | SetUsage
    | UnknownParam
    | Updated(key: string)
    | UnknownText

  /**
   What a device command does to the registry `m`, giving `m'`, and what it answers.
   `r` is the default device's record, created with the defaults if it was absent.
   */
  ghost predicate CommandEffect(cmd: Command, now: int, m: Devices, m': Devices, reply: Reply)
  {
    var r := Prior(m, DefaultDevice);
    match cmd
    case On => reply == Armed && m' == m[DefaultDevice := r.(armed := true)]
    case Off => reply == Disarmed && m' == m[DefaultDevice := r.(armed := false)]
    case Status => reply == StatusReport(StatusOf(r, now)) && m' == WithDevice(m, DefaultDevice)
    case Calib =>
      if IsFresh(r, now) then
        reply == CalibCached(r.calibResult.value) && m' == WithDevice(m, DefaultDevice)
      else
        reply == CalibRequested && m' == m[DefaultDevice := RequestCalib(r, now)]
    case Set(key, p, v) => reply == Updated(key) && m' == m[DefaultDevice := ApplySet(r, p, v)]
    case SetMalformed => reply == SetUsage && m' == WithDevice(m, DefaultDevice)
    case SetUnknownKey(_) => reply == UnknownParam && m' == WithDevice(m, DefaultDevice)
    case Unknown => reply == UnknownText && m' == WithDevice(m, DefaultDevice)
    case _ => false
  }

  /** A recognised `/set` answers with the key as typed and stores the saturated value. */
  lemma SetStoresSaturated(key: string, p: Param, v: int, now: int, m: Devices, m': Devices, reply: Reply)
    requires CommandEffect(Set(key, p, v), now, m, m', reply)
    ensures reply == Updated(key)
    ensures m'.Keys == m.Keys + {DefaultDevice}
    ensures m'[DefaultDevice] == ApplySet(Prior(m, DefaultDevice), p, v)
    ensures forall d :: d in m && d != DefaultDevice ==> m'[d] == m[d]
  {
  }

  /** `/set cooldown 99999` succeeds and stores the upper bound 600. */
  lemma CooldownSaturates(now: int, m: Devices, m': Devices, reply: Reply)
    requires CommandEffect(ParseCommand("/set cooldown 99999"), now, m, m', reply)
    ensures reply == Updated("cooldown")
    ensures DefaultDevice in m' && m'[DefaultDevice] == Prior(m, DefaultDevice).(cooldownS := 600)
  {
    CooldownExample();
    CooldownSetSaturates(ParseCommand("/set cooldown 99999"), now, m, m', reply);
  }

  lemma CooldownSetSaturates(cmd: Command, now: int, m: Devices, m': Devices, reply: Reply)
    requires cmd == Set("cooldown", CooldownS, 99999)
    requires CommandEffect(cmd, now, m, m', reply)
    ensures reply == Updated("cooldown")
    ensures DefaultDevice in m' && m'[DefaultDevice] == Prior(m, DefaultDevice).(cooldownS := 600)
  {
    SetStoresSaturated("cooldown", CooldownS, 99999, now, m, m', reply);
    var r := Prior(m, DefaultDevice);
    assert ApplySet(r, CooldownS, 99999) == r.(cooldownS := 600);
  }

  /** `/set thr abc` is answered with the usage text and changes no record. */
  lemma NonIntegerLeavesState(now: int, m: Devices, m': Devices, reply: Reply)
    requires CommandEffect(ParseCommand("/set thr abc"), now, m, m', reply)
    ensures reply == SetUsage
    ensures m' == WithDevice(m, DefaultDevice)
  {
    NonIntegerExample();
  }

  /** A result reported at `t` is shown, without a new request, by a `/calib` up to 60 s later. */
  lemma ReportedResultReused(m: Devices, x: Reading, t: int, now: int, m': Devices, reply: Reply)
    requires t != 0 && now - t <= CalibFreshS
    requires CommandEffect(Calib, now, m[DefaultDevice := StoreCalibResult(Prior(m, DefaultDevice), Some(x), t)], m', reply)
    ensures reply == CalibCached(x)
    ensures m' == m[DefaultDevice := StoreCalibResult(Prior(m, DefaultDevice), Some(x), t)]
  {
  }

  /** A `/calib` right after one that issued a request issues a new one rather than report anything stale. */
  lemma RequestNeverReportsStale(m: Devices, now: int, m1: Devices, reply1: Reply, later: int, m2: Devices, reply2: Reply)
    requires CommandEffect(Calib, now, m, m1, reply1) && reply1 == CalibRequested
    requires CommandEffect(Calib, later, m1, m2, reply2)
    ensures reply2 == CalibRequested
    ensures m2[DefaultDevice].calibReqTs == later && m2[DefaultDevice].calibResult == None
  {
    assert Prior(m1, DefaultDevice) == RequestCalib(Prior(m, DefaultDevice), now);
  }

  class Server {
    /** The webhook secret; empty means no check. */
    const secret: string
    var devices: Devices
    /** Device names in the order they were first seen. */
    var order: seq<string>
    var subscribers: set<int>

    ghost predicate Valid()
      reads this
    {
      WellFormed(order, devices)
    }

    constructor (secret: string)
      ensures Valid()
      ensures this.secret == secret
      ensures devices == map[] && order == [] && subscribers == {}
    {
      this.secret := secret;
      devices := map[];
      order := [];
      subscribers := {};
    }

    /** Create `dev` with the defaults unless it exists. */
    method EnsureDev(dev: string)
      requires Valid()
      modifies this`devices, this`order
      ensures Valid()
      ensures devices == WithDevice(old(devices), dev)
      ensures order == WithName(old(order), old(devices), dev)
    {
      WithDeviceWellFormed(order, devices, dev);
      if dev !in devices {
        devices := devices[dev := Defaults];
        order := order + [dev];
      }
    }

    /** `/cfg`: the device's parameters and pending request time. */
    method Cfg(dev: Option<string>, now: int) returns (view: ConfigView)
      requires Valid()
      modifies this`devices, this`order
      ensures Valid()
      ensures devices == WithDevice(old(devices), DeviceName(dev))
      ensures order == WithName(old(order), old(devices), DeviceName(dev))
      ensures var r := Prior(old(devices), DeviceName(dev));
        view == ConfigView(r.armed, r.thr, r.holdMs, r.cooldownS, r.windowMs, r.calibReqTs, now)
    {
      var name := DeviceName(dev);
      EnsureDev(name);
      var s := devices[name];
      view := ConfigView(s.armed, s.thr, s.holdMs, s.cooldownS, s.windowMs, s.calibReqTs, now);
    }

    /** `/ping`: record that the device was heard from at `now`. */
    method Ping(dev: Option<string>, now: int)
      requires Valid()
      modifies this`devices, this`order
      ensures Valid()
      ensures var name := DeviceName(dev);
        devices == old(devices)[name := Prior(old(devices), name).(lastPing := now)]
      ensures order == WithName(old(order), old(devices), DeviceName(dev))
    {
      var name := DeviceName(dev);
      ghost var m0 := devices;
      EnsureDev(name);
      WithDeviceIdempotent(m0, name);
      var s := devices[name].(lastPing := now);
      WithDeviceThenWrite(m0, name, s);
      SameParamsInRange(devices[name], s);
      UpdateWellFormed(order, devices, name, s);
      devices := devices[name := s];
    }

    /** `/event`: the device detected crying; broadcast it and restart the alert cooldown. */
    method Event(dev: Option<string>, rms: Option<Reading>, now: int) returns (notice: Notice)
      requires Valid()
      modifies this`devices, this`order
      ensures Valid()
      ensures var name := DeviceName(dev);
        devices == old(devices)[name := Prior(old(devices), name).(lastAlarm := now)]
      ensures order == WithName(old(order), old(devices), DeviceName(dev))
      ensures notice == EventNotice(DeviceName(dev), rms)
    {
      var name := DeviceName(dev);
      ghost var m0 := devices;
      EnsureDev(name);
      WithDeviceIdempotent(m0, name);
      var s := devices[name].(lastAlarm := now);
      WithDeviceThenWrite(m0, name, s);
      SameParamsInRange(devices[name], s);
      UpdateWellFormed(order, devices, name, s);
      devices := devices[name := s];
      notice := EventNotice(name, rms);
    }

    /** `/calib` from a device: store its measurement, requested or not. */
    method SubmitCalib(dev: Option<string>, rmsAvg: Option<Reading>, now: int) returns (notice: Notice)
      requires Valid()
      modifies this`devices, this`order
      ensures Valid()
      ensures var name := DeviceName(dev);
        devices == old(devices)[name := StoreCalibResult(Prior(old(devices), name), rmsAvg, now)]
      ensures order == WithName(old(order), old(devices), DeviceName(dev))
      ensures notice == CalibReady(DeviceName(dev), rmsAvg)
    {
      var name := DeviceName(dev);
      ghost var m0 := devices;
      EnsureDev(name);
      WithDeviceIdempotent(m0, name);
      var s := StoreCalibResult(devices[name], rmsAvg, now);
      WithDeviceThenWrite(m0, name, s);
      SameParamsInRange(devices[name], s);
      UpdateWellFormed(order, devices, name, s);
      devices := devices[name := s];
      notice := CalibReady(name, rmsAvg);
    }

    /** One pass of the watchdog at `now`: the names it alerts, in registration order. */
    method Tick(now: int) returns (alerted: seq<string>)
      requires Valid()
      modifies this`devices
      ensures Valid()
      ensures devices == TickAll(old(devices), now)
      ensures alerted == Alerted(order, old(devices), now)
    {
      alerted := [];
      var i := 0;
      TickVisitedNone(devices, now);
      while i < |order|
        invariant 0 <= i <= |order|
        invariant devices == TickVisited(old(devices), order[..i], now)
        invariant alerted == Alerted(order[..i], old(devices), now)
      {
        var d := order[i];
        TickLoopStep(old(devices), order, i, now);
        var s := devices[d];
        if ShouldAlert(s, now) {
          alerted := alerted + [d];
          devices := devices[d := s.(lastAlarm := now)];
        }
        i := i + 1;
      }
      assert order[..i] == order;
      TickVisitedAll(old(devices), order, now);
      TickAllWellFormed(order, old(devices), now);
    }

    /** The message is let through: no secret is set or the right one came, and it names a chat. */
    predicate Admitted(querySecret: string, chatId: Option<int>)
    {
      (secret == "" || querySecret == secret) && chatId.Some?
    }

    /** An admitted message from a subscriber that acts on the device. */
    ghost predicate ActsOnDevice(querySecret: string, chatId: Option<int>, text: string)
      reads this
    {
      && Admitted(querySecret, chatId)
      && chatId.value in subscribers
      && ParseCommand(text) !in {Start, Leave, Help}
    }

    /** The operator's chat message `text` from `chatId`. */
    method Telegram(querySecret: string, chatId: Option<int>, text: string, now: int) returns (reply: Reply)
      requires Valid()
      modifies this
      ensures Valid()
      ensures !Admitted(querySecret, chatId) ==>
        reply == NoReply && devices == old(devices) && order == old(order) && subscribers == old(subscribers)
      ensures Admitted(querySecret, chatId) && ParseCommand(text) == Start ==>
        reply == Started && subscribers == old(subscribers) + {chatId.value}
        && devices == old(devices) && order == old(order)
      ensures Admitted(querySecret, chatId) && ParseCommand(text) == Leave ==>
        reply == Left && subscribers == old(subscribers) - {chatId.value}
        && devices == old(devices) && order == old(order)
      ensures (Admitted(querySecret, chatId) && ParseCommand(text) !in {Start, Leave}
               && chatId.value !in old(subscribers)) ==>
        reply == NoReply && devices == old(devices) && order == old(order) && subscribers == old(subscribers)
      ensures Admitted(querySecret, chatId) && ParseCommand(text) == Help && chatId.value in old(subscribers) ==>
        reply == HelpText && devices == old(devices) && order == old(order) && subscribers == old(subscribers)
      ensures old(ActsOnDevice(querySecret, chatId, text)) ==>
        && subscribers == old(subscribers)
        && order == WithName(old(order), old(devices), DefaultDevice)
        && CommandEffect(ParseCommand(text), now, old(devices), devices, reply)
    {
      if secret != "" && querySecret != secret {
        return NoReply;
      }
      if chatId.None? {
        return NoReply;
      }
      var chat := chatId.value;
      var cmd := ParseCommand(text);
      if cmd == Start {
        subscribers := subscribers + {chat};
        return Started;
      }
      if cmd == Leave {
        if chat in subscribers {
          subscribers := subscribers - {chat};
        }
        return Left;
      }
      if chat !in subscribers {
        return NoReply;
      }
      if cmd == Help {
        return HelpText;
      }
      reply := DeviceCommand(cmd, now);
    }

    /** The commands that act on the default device, which is created first if need be. */
    method DeviceCommand(cmd: Command, now: int) returns (reply: Reply)
      requires Valid()
      requires cmd !in {Start, Leave, Help}
      modifies this`devices, this`order
      ensures Valid()
      ensures order == WithName(old(order), old(devices), DefaultDevice)
      ensures CommandEffect(cmd, now, old(devices), devices, reply)
    {
      EnsureDev(DefaultDevice);
      WithDeviceIdempotent(old(devices), DefaultDevice);
      var s := devices[DefaultDevice];
      var s' := s;
      match cmd {
        case On =>
          s' := s.(armed := true);
          reply := Armed;
        case Off =>
          s' := s.(armed := false);
          reply := Disarmed;
        case Status =>
          reply := StatusReport(StatusOf(s, now));
        case Calib =>
          if IsFresh(s, now) {
            reply := CalibCached(s.calibResult.value);
          } else {
            s' := RequestCalib(s, now);
            reply := CalibRequested;
          }
        case Set(key, p, v) =>
          ApplySetInRange(s, p, v);
          s' := ApplySet(s, p, v);
          reply := Updated(key);
        case SetMalformed =>
          reply := SetUsage;
        case SetUnknownKey(_) =>
          reply := UnknownParam;
        case Unknown =>
          reply := UnknownText;
      }
      if cmd in {On, Off, Calib} || cmd.Set? {
        if !cmd.Set? {
          SameParamsInRange(s, s');
        }
        UpdateWellFormed(order, devices, DefaultDevice, s');
        WithDeviceThenWrite(old(devices), DefaultDevice, s');
        devices := devices[DefaultDevice := s'];
      }
    }
  }
}
