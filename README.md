# Relay state model (ege_cry `app.py`)

`app.py` is a small server that relays between acoustic-monitoring devices and
a Telegram chat. Underneath its HTTP and Telegram plumbing it keeps one piece
of state:

- a dictionary `DEVICES` from device name to a record holding the detection
  parameters (`armed`, `thr`, `hold_ms`, `cooldown_s`, `window_ms`), the
  liveness timestamps (`last_ping`, `last_alarm`) and the calibration handshake
  (`calib_req_ts`, `calib_result`, `calib_result_ts`);
- a set `SUBSCRIBERS` of chat ids that receive broadcasts.

This project models that state and every operation that changes it, and
proves what those operations promise.

- `Server` (module `Relay`) holds the state. Its fields are the device map, the
  names in the order they were first seen (the order in which a Python dict
  iterates), the subscriber set and the webhook secret.
- Its methods are the handlers:
  - `EnsureDev` is `ensure_dev`;
  - `Cfg`, `Ping`, `Event` and `SubmitCalib` are the device routes;
  - `Telegram` and `DeviceCommand` are the operator's command dispatch;
  - `Tick` is one pass of the watchdog loop.
- Clock time is an integer parameter `now`.
- Messages the server would send are returned instead of sent:
  - a `Reply` goes to the chat that sent the command;
  - a `Notice`, or the list of names the watchdog alerted, is broadcast to
    the subscribers.
- The pure rules live in their own modules:
  - `DeviceState`: the defaults, `clamp`, `/set`, calibration freshness and
    the watchdog's alert rule;
  - `Registry`: creation on first sight and the watchdog pass as functions
    on the map;
  - `Commands`: which command a text selects;
  - `Text`: Python's `strip`, `split`, `lower` and `int` as far as the
    handler uses them.

The watchdog rule is the one `app.py` implements, which is not edge-triggered.
A device is alerted when all of these hold:
- it has been pinged at least once;
- it has been silent for more than 260 s (`PING_TIMEOUT_S`);
- its `last_alarm` (set by an earlier alert or by `/event`) is more than 260 s old.

A device that stays silent is therefore alerted again every 260 s or so.
`app.py` uses this one timeout for every device, armed or not, and it does not
alert on the offline and online edges.

## Model

| member | source | states |
|---|---|---|
| `DeviceState.Clamp` | app.py:57-58 | `max(lo, min(hi, v))` lies in `[lo, hi]` when `lo <= hi`. It equals `v` when `v` is already in range, both bounds included. Values below the range give `lo`, values above give `hi`, and an empty range gives `lo`. |
| `DeviceState.DefaultsInRange` | app.py:18-31 | The default record (armed, thr 35, hold 900 ms, cooldown 30 s, window 360 ms, all timestamps 0, no result) has every parameter inside its `/set` range. |
| `DeviceState.ApplySet` | app.py:243-250 | Setting parameter `p` to `v` stores `v` saturated into `p`'s range (thr [1,1023], hold [1,10000], cooldown [1,600], window [18,7200]). It stores `v` itself when `v` is in range and the nearer bound otherwise. Every other parameter and field is unchanged. |
| `DeviceState.ApplySetInRange` | app.py:243-250 | A `/set` keeps an in-range record in range, so no code path stores an out-of-range parameter. |
| `DeviceState.RequestCalib` | app.py:228-230 | A new request sets `calib_req_ts := now`, clears the result and its timestamp, and changes nothing else. Afterwards the record is fresh at no time. |
| `DeviceState.StoreCalibResult` | app.py:122-123 | A device report stores its value and `calib_result_ts := now` and touches no other field. `calib_req_ts` is not consulted, so an unrequested report is accepted. The record is then fresh at `t` exactly when the value is not None, `now != 0` and `t - now <= 60`. |
| `DeviceState.RequestThenReport` | app.py:222-232 | After a request and then a report at `tRes`, the result is shown for at most 60 s after `tRes`, and the request time is kept. |
| `DeviceState.StatusOf` | app.py:205-219 | Definition: the `/status` reply is the record with the age of the last ping and of the last result, each -1 when its timestamp is 0. `/status` changes no record (the `Status` case of `Relay.CommandEffect`). |
| `DeviceState.IsFresh` | app.py:224 | Definition: a stored result is reused when its timestamp is non-zero, at most 60 s old and the result is not None. `StoreCalibResult` and `RequestThenReport` state when it holds. |
| `DeviceState.ShouldAlert` | app.py:65-67 | Definition: a record is due when it has been pinged, its last ping is more than 260 s old and its `last_alarm` is more than 260 s old. The lemmas below are stated in terms of it. |
| `DeviceState.TickRecord` | app.py:65-69 | The watchdog sets `last_alarm := now` on a due record and leaves every other record as it is. |
| `DeviceState.NeverPingedNeverAlerted` | app.py:65 | A record with `last_ping == 0` is never due. |
| `DeviceState.AlarmSuppresses` | app.py:67-69 | A record whose `last_alarm` is at most 260 s old is not due. |
| `DeviceState.SilentDeviceAlertedAgain` | app.py:65-69 | The rule is not edge-triggered: a device that is still silent more than 260 s after an alert is due again. |
| `Registry.WithDevice` | app.py:38-40 | `ensure_dev` adds the name when it is absent, with a copy of the defaults. It leaves every existing entry untouched and adds no other key. |
| `Registry.WithName` | app.py:38-40 | A name is appended to the iteration order only when it is new. |
| `Registry.WithDeviceIdempotent` | app.py:38-40 | A second `ensure_dev` changes nothing. The record obtained is the existing one, or the defaults. |
| `Registry.WithDeviceWellFormed` | app.py:38-40 | Creation keeps each name listed once in the order and every record in range. |
| `Registry.TickAll` | app.py:64-69 | One pass applies the per-record rule to every device and to no other key. |
| `Registry.Alerted` | app.py:64-69 | Definition: the names of a pass's broadcasts, in visiting order. `AlertedMembers` and `AlertedDistinct` characterise it. |
| `Registry.AlertedMembers` | app.py:64-69 | A name is in the pass's alert list exactly when it is visited, registered and due. Both directions are proved. |
| `Registry.AlertedDistinct` | app.py:64-69 | A pass alerts each device at most once. |
| `Registry.NeverPingedNeverAlertedAll` | app.py:65 | A device that has never been pinged is never in a pass's alert list. |
| `Registry.NoRealert` | app.py:67-69 | A device alerted by a pass at `t` is not alerted again by a pass at any `t'` with `t' - t <= 260`. |
| `Registry.EventSuppressesAlert` | app.py:108 | After `/event` at `t`, no pass up to 260 s later alerts that device. |
| `Registry.TickAllFrame` | app.py:64-69 | A pass changes only `last_alarm`, and only for the devices it alerts, which get `now`. |
| `Registry.TickAllWellFormed` | app.py:64-69 | A pass keeps the registry well formed. |
| `Text.Strip` | app.py:141 | The stripped text is a window of the text with only whitespace before and after it. It has no whitespace at either end. It is empty exactly when the text is all whitespace. Text with no whitespace at its ends is unchanged. |
| `Text.Split` | app.py:237 | `split()` yields non-empty tokens that contain no whitespace. An all-whitespace text, the empty text included, has no tokens. With that, the three lemmas below fix its result on every text, since every text is runs of whitespace alternating with words. |
| `Text.SplitSkipsSpace` | app.py:237 | Any run of leading whitespace, of whatever characters and length, is skipped by `split()`. |
| `Text.SplitWordThenSpace` | app.py:237 | A word followed by any non-empty run of whitespace is one token, and splitting goes on after the run. So a run of whitespace is a single separator. |
| `Text.SplitWord` | app.py:237 | A lone word splits into exactly itself. |
| `Text.SplitJoinWords` | app.py:237 | Splitting words joined by single spaces gives back exactly those words. |
| `Text.Lower` | app.py:222 | Lower-casing keeps the length and maps each character through the ASCII lower-case map. |
| `Text.ParseInt` | app.py:238 | `int(val)` succeeds on an optional sign followed by at least one ASCII decimal digit, and on nothing else. Its value is that of the digits: unchanged after a `+`, negated after a `-`. |
| `Text.ParseFormatInt` | app.py:238 | `int()` reads back the decimal notation of every integer. |
| `Commands.ParamOf` | app.py:243-253 | The keys are `thr`, `hold`, `cooldown`, and `window` or `window_ms` for the same parameter. Every other key names no parameter. |
| `Commands.ParseCommand` | app.py:141 | Definition: the command is chosen from the stripped message text by `Commands.Dispatch`. |
| `Commands.Dispatch` | app.py:152-259 | Definition: the handler's chain of tests in its order: `/start`, `/leave`, `/help` or `help`, `/on`, `/off`, `/status`, `/calib` or any case of `calib`, a `/set` prefix, and otherwise an unknown command. |
| `Commands.ParseSet` | app.py:235-253 | Definition: the `/set` branch. It splits the text, requires three tokens and an integer third token, and only then looks up the key. The first token is not checked. |
| `Commands.SetPrefixSelectsSet` | app.py:235 | Any text whose stripped form starts with `/set` reaches the `/set` branch. None of the earlier commands can catch it. |
| `Commands.CalibAnyCase` | app.py:222 | `calib` in any mix of upper and lower case selects the calibration command. |
| `Commands.ParseSetCases` | app.py:235-253 | A `/set` text is recognised exactly when it has three tokens, an integer third and a known second. It is malformed exactly when the token count is not 3 or the value is not an integer. Its key is unknown exactly when the value is an integer but the key is not recognised. |
| `Commands.SetRecognised` | app.py:235-250 | `/set <key> <n>` with a known key is recognised with that key, parameter and value, for every integer `n`. |
| `Commands.SetNonIntegerRejected` | app.py:236-241 | A `/set` whose value is not an integer is malformed, whatever the key. |
| `Commands.SetUnknownKeyRejected` | app.py:251-253 | A `/set` with an integer value and an unrecognised key is rejected and names that key. |
| `Commands.SetWrongArityRejected` | app.py:236-241 | A `/set` whose text does not split into exactly three tokens is malformed. |
| `Commands.SetAnySpacing` | app.py:237 | `/set`, a key and a value separated by any non-empty runs of whitespace (tabs, several spaces) split into exactly those three tokens. |
| `Commands.CooldownExample` | app.py:247-248 | `/set cooldown 99999` is recognised with value 99999. |
| `Commands.NonIntegerExample` | app.py:238-241 | `/set thr abc` is malformed. |
| `Relay.SetStoresSaturated` | app.py:243-256 | A recognised `/set` answers with the key as typed. It writes the saturated value into the default device only and leaves every other device alone. |
| `Relay.CooldownSaturates` | app.py:247-248 | `/set cooldown 99999` succeeds and stores 600, with the rest of the record unchanged. |
| `Relay.NonIntegerLeavesState` | app.py:236-241 | `/set thr abc` is answered with the usage text. At most it creates the default device and changes no record. |
| `Relay.ReportedResultReused` | app.py:224-226 | A result reported at `t` is answered from the cache by any `/calib` within 60 s, and the state is unchanged. |
| `Relay.RequestNeverReportsStale` | app.py:228-232 | A `/calib` that follows one which issued a request issues a new request. It never reports an old result. |
| `Relay.DeviceName` | app.py:81 | Definition: a request that names no device means `EGE`, as `get("dev", "EGE")` does in each device route (app.py:81, 96, 104, 116). |
| `Relay.Server.Admitted` | app.py:131-144 | Definition: a chat message is let through when no secret is set or the query's secret matches, and the message names a chat. |
| `Relay.CommandEffect` | app.py:188-260 | Definition: the reply and the new device map of each command from a subscriber, once `EGE` exists. `Server.DeviceCommand` and `Server.Telegram` are proved against it. |
| `Relay.Server.constructor` | app.py:12-32 | The server starts with the given secret, no devices and no subscribers. |
| `Relay.Server.EnsureDev` | app.py:38-40 | The device map becomes `WithDevice` of the old map, and the order gains the name only if it is new. |
| `Relay.Server.Cfg` | app.py:80-92 | `/cfg` creates the device if needed (the name defaults to `EGE`). It reports the device's parameters, pending request time and `now`, and changes nothing else. |
| `Relay.Server.Ping` | app.py:95-98 | `/ping` creates the device if needed and sets only its `last_ping := now`. |
| `Relay.Server.Event` | app.py:102-110 | `/event` creates the device if needed, sets only its `last_alarm := now` and broadcasts the event with its RMS value. |
| `Relay.Server.SubmitCalib` | app.py:114-125 | A calibration report creates the device if needed, stores the result and its time whether or not a request is pending, and broadcasts it. |
| `Relay.Server.Tick` | app.py:63-69 | One watchdog pass updates the map to `TickAll` of the old one and returns `Alerted`: the due devices, in the order they were first seen. The order and the subscribers are unchanged. |
| `Relay.Server.Telegram` | app.py:129-186 | Nothing changes and nothing is answered in these cases: a secret is set and the query's differs; there is no chat id; a non-subscriber sends anything but `/start` or `/leave`. `/start` adds the chat. `/leave` removes it, and is harmless when the chat is absent. `/help` changes nothing. Every other command from a subscriber has the effect `CommandEffect` describes and leaves the subscribers alone. |
| `Relay.Server.DeviceCommand` | app.py:188-260 | The command first creates the default device `EGE`. `/on` and `/off` set `armed`. `/status` reports. `/calib` returns a fresh cached result unchanged, or else issues a request. `/set` writes one saturated parameter. Malformed text, unknown keys and unknown commands change no record. |

## Left out

- HTTP routing, JSON decoding, status codes and the `/` health route: transport only. Every handler takes its arguments already extracted. An absent `dev` is `None` and stands for `EGE`.
- A JSON `"dev": null`, which `app.py` would use as the dictionary key `None`: device names are strings here.
- `int(chat_id)` on a chat id that is not a number: chat ids arrive as integers.
- Telegram delivery (`tg_send`, `tg_broadcast`, the bot token): network calls. Replies and broadcasts are returned as values.
- The background thread, `time.sleep(CHECK_PERIOD_S)` and the infinite loop: only one pass (`Tick`) is modelled. Interleavings are out of scope too. In `app.py` a handler can insert into `DEVICES` while the watchdog iterates over it, which Python reports as an error.
- Wall-clock time: `now` is an integer parameter. The float arithmetic of `time.time()` and the `int(...)` truncations at app.py:123 and app.py:228 are therefore identities.
- Reply text: emoji, the Turkish wording and the `/help` text are not modelled, and neither is the `dur_s` field (it only appears in the broadcast text). A reply is a value naming which answer is sent.
- The RMS payloads (`rms`, `rms_avg`) are opaque `Reading` values that are never interpreted. JSON null or absence is `None`.
- Text.ParseInt: accepts an optional sign and ASCII digits only, of any length. Python 3.11 and later (and the security releases of 3.7 to 3.10) make `int()` raise on more than 4300 digits. There `/set thr <5000 digits>` gets the usage reply and changes nothing, while the model stores the saturated value. Python's `int()` also accepts underscores between digits and non-ASCII decimal digits. Surrounding whitespace cannot occur, because the token comes from `split()`.
- Text.Lower: lower-cases ASCII letters only. This is exact for the one comparison the handler makes (with `calib`). The only non-ASCII characters whose lower case is ASCII are U+0130, which becomes two characters, and the Kelvin sign, which becomes `k`; neither can produce `calib`.
- Environment variables: `SECRET` is the constructor's parameter. `BOT_TOKEN` and `PORT` only matter to delivery and serving.
