# matej_light: lamp client model

A Dafny model of the client library for one networked smart lamp. The client
keeps the lamp's last known state in memory. It clamps each command's inputs
and converts between user units and device units: percent brightness, Kelvin
colour temperature, and the device's 0..100 "percent warm" scale. Each command
is posted to the lamp as a small JSON body.

The project has three modules and one file of client scenarios:

- `Conversion` (`conversion.dfy`) holds the pure helpers: the linear rescale
  `map_val`, the saturation `clip`, and the two conversions between percent
  warm and Kelvin. Python computes `map_val` as a float division and then
  `int()`, which truncates the whole value toward zero. The model uses exact
  rational arithmetic: it puts the whole expression over the denominator
  `in_max - in_min` and applies `TruncDiv`, an explicit division that
  truncates toward zero. Dafny's own `/` is not used on signed operands.
- `LampModel` (`lamp_model.dfy`) holds the values the client handles: status
  records, payloads (a map from JSON field name to integer), device replies,
  and the one error kind with a variant per raise site. It also holds a
  value-level specification of every public command on a `Client`, which has
  four parts:
  - the current record;
  - the saved pre-off record;
  - whether the two are one shared record;
  - the log of payloads posted so far.

  `Run` applies a sequence of commands. Its lemmas state what each command
  does and what every sequence keeps: the temperature stays clipped, power
  stays 0 or 1, a shared record is the same in both places, and every value
  ever posted is within the device's range.
- `Lamp` (`lamp.dfy`) holds the `MatejLight` class. The status dictionary is a
  heap object, `Status`. The fields `status` and `statusBeforeOff` point to it
  the same way the Python attributes do: the constructor, `TurnOff` and
  `TurnOn` make them refer to one shared object, and `Update` installs a fresh
  one. This is why a brightness set while the lamp is off is what `TurnOn`
  restores. `Abstract()` reads the object graph as a `Client`, with `shared`
  meaning that both fields refer to the same object. Every command method is
  proved to move `Abstract()` exactly as the matching step of `LampModel`
  does, and to keep that step's invariant. The transport is a parameter. Each post
  takes a `PostReply`: the device was unreachable, or it answered with some
  text, where only `"OK"` counts as success. Each read takes a `GetReply`:
  the device was unreachable, or its body decoded to a configuration, or it
  did not decode. The ghost field `posted` logs every payload handed to the
  transport, in order. The model keeps the source's order of effects:
  - the set commands write local state before they post;
  - power changes only after a successful post;
  - the turn-off snapshot is taken before the post;
  - an exception (`Fail`) skips everything after it.
- `LampScenarios` (`scenarios.dfy`) runs command sequences on a lamp object
  and states what the contracts above let a caller conclude. Examples: off
  then on, a set while off, a read then on, and the edge cases of brightness
  and temperature.

Points of the code the model keeps:

- the snapshot is shared by reference, not deep-copied;
- turning off sets power to 0 only after the post succeeds;
- turning on sets power to 1 as soon as the brightness re-send succeeds, so a
  rejected colour re-send fails with power already 1;
- the percent-to-Kelvin-and-back round trip is exact, not just within one
  step.

The device's brightness field is read back as it is. The one that was
subtracted on write is not added back, and the model keeps this.

## Model

| member | source | states |
|---|---|---|
| Conversion.TruncDiv | matej_light/core.py:12 | `int()` of an exact quotient: its magnitude is the floor of \|n\|/\|d\| and its sign is that of the quotient, so it rounds toward zero for negative values too |
| Conversion.Clip | matej_light/core.py:15-16 | the result is `lo` below the range, `hi` above it and `x` inside it, so it lies in [lo, hi] when lo <= hi; when lo > hi the result is `lo` |
| Conversion.MapVal | matej_light/core.py:11-12 | the rescale truncated toward zero sends `in_min` to `out_min` and `in_max` to `out_max` |
| Conversion.TruncDivExact | matej_light/core.py:12 | an exact multiple comes out of `int()` of the quotient with nothing lost |
| Conversion.PercentWarmToKelvin | matej_light/core.py:35-38 | every warm-percent maps into [3000, 5000] K |
| Conversion.KelvinToPercentWarm | matej_light/core.py:40-43 | every Kelvin value maps into [0, 100] percent warm |
| Conversion.PercentRescaleExact | matej_light/core.py:11-12 | for every integer, the percent-to-Kelvin rescale is exactly 5000 - 20 * p, with nothing lost to truncation |
| Conversion.KelvinRescaleBounds | matej_light/core.py:11-12 | the Kelvin-to-percent rescale is (5000 - k) / 20 truncated toward zero: it is positive exactly below 5000 K unless it truncates to 0 (every value from 4981 to 5019 K gives 0), and its magnitude is the floor of \|5000 - k\| / 20 |
| Conversion.PercentWarmToKelvinClosedForm | matej_light/core.py:36-38 | 5000 K at or below 0 percent, 3000 K at or above 100, and 5000 - 20 * p between them |
| Conversion.KelvinToPercentWarmClosedForm | matej_light/core.py:41-43 | 100 at or below 3000 K, 0 at or above 5000 K, and floor((5000 - k) / 20) between them |
| Conversion.KelvinRescaleInRange | matej_light/core.py:61-65 | for a clipped Kelvin value, the unclipped `map_val` that the temperature command sends equals KelvinToPercentWarm and lies in [0, 100] |
| Conversion.Endpoints | matej_light/core.py:36-43 | 0 percent is 5000 K, 100 percent is 3000 K, 3000 K is 100 percent and 5000 K is 0 percent |
| Conversion.TruncationExamples | matej_light/core.py:11-12 | 3010 K is 99.5 percent warm and becomes 99; 5010 K is -0.5 and its rescale becomes 0, not -1 |
| Conversion.KelvinToPercentWarmAntitone | matej_light/core.py:41-43 | the Kelvin-to-percent map is non-increasing over all integers |
| Conversion.PercentWarmToKelvinAntitone | matej_light/core.py:36-38 | the percent-to-Kelvin map is non-increasing over all integers |
| Conversion.PercentRoundTrip | matej_light/core.py:36-43 | every p in [0, 100] is returned unchanged after conversion to Kelvin and back |
| Conversion.KelvinRoundTrip | matej_light/core.py:36-43 | a Kelvin value in range comes back no lower, and less than 20 K higher, after conversion to percent and back |
| LampModel.PostOutcome | matej_light/core.py:45-52 | a post succeeds exactly when the reply text is "OK"; no connection raises the connect error, and any other text raises the not-successful error carrying the data sent |
| LampModel.ReadOutcome | matej_light/core.py:96-107 | a read succeeds exactly when the body decodes, and then yields the decoded configuration; otherwise it raises the connect or the decode error |
| LampModel.StateFromConfig | matej_light/core.py:109-115 | brightness and colour are copied from the device, power is the local flag, and the temperature is `percent_warm_2_kelvin(whiteTemp)`: 5000 K at or below 0, 3000 K at or above 100, exactly 5000 - 20 * whiteTemp between them, which converts back to whiteTemp |
| LampModel.GetStatus | matej_light/core.py:109-115 | the status read succeeds exactly when the device's body decodes; it then returns StateFromConfig of the decoded configuration with the local power flag, and otherwise the read's error |
| LampModel.WarmReadExample | matej_light/core.py:109-115 | a device reporting whiteTemp 25 is read as 4500 K, with its brightness, colour and the local power flag |
| LampModel.Initial | matej_light/core.py:25-33 | the state after construction (brightness 0, 3000 K, colour (0,0,0), power 0, one shared record, nothing sent) satisfies the invariant |
| LampModel.SetBrightness | matej_light/core.py:54-59 | the clipped brightness is stored even when the post fails, the post carries it minus one, power becomes 1 exactly when the post is accepted, and a shared saved record follows |
| LampModel.SetTemperature | matej_light/core.py:61-69 | the clipped Kelvin value is stored whatever the reply, and the whiteTemp posted is its KelvinToPercentWarm, in [0, 100]; power and colour are untouched and a shared saved record follows |
| LampModel.SetAuxRgb | matej_light/core.py:71-79 | the three clipped channels are stored whatever the reply, and the R, G, B posted are the stored channels; nothing else changes and a shared saved record follows |
| LampModel.TurnOff | matej_light/core.py:81-88 | the current record becomes the shared saved one before the post; brightness 0 and R, G, B 0 are posted with no whiteTemp; power becomes 0 exactly when the post is accepted |
| LampModel.TurnOn | matej_light/core.py:90-94 | the saved record becomes current; its clipped brightness is re-sent, and the clipped colour only if that post was accepted; power is 1 once the brightness post is accepted, and the command succeeds exactly when both posts are accepted |
| LampModel.Update | matej_light/core.py:117-118 | a failed read changes nothing; a successful one installs StateFromConfig with the old power flag as a record no longer shared; the saved record and the log are untouched |
| LampModel.Apply | matej_light/core.py:54-118 | each public command only appends to the log, as many payloads as it posts |
| LampModel.Run | matej_light/core.py:45-118 | over any sequence of commands, from any state, what has been posted stays posted, in order |
| LampModel.ApplyKeepsInv | matej_light/core.py:54-118 | every public command keeps the invariant: clipped temperature, power 0 or 1, a consistent shared record and only in-range values posted |
| LampModel.RunKeepsInv | matej_light/core.py:54-118 | any sequence of commands, with any device replies, keeps the invariant: clipped temperature, power 0 or 1, a consistent shared record and only in-range values ever posted |
| LampModel.ReachableKeepsInv | matej_light/core.py:25-118 | every state reachable from construction satisfies the invariant |
| LampModel.OffThenOnRestores | matej_light/core.py:81-94 | off then on with every post accepted posts the off body and then the pre-off brightness and colour (clipped), and ends with those values and power 1 |
| LampModel.OnAfterOff | matej_light/core.py:81-94 | turning on right after turning off, every post accepted, restores the clipped pre-off brightness and colour with power 1, after the three posts |
| LampModel.SetWhileOffIsRestored | matej_light/core.py:54-94 | because the saved record is shared, a brightness set while off is what turning on restores |
| LampModel.ReadThenOnRestoresSaved | matej_light/core.py:90-118 | after a successful read, turning on restores the saved record's values, not the device's |
| Lamp.Status.constructor | matej_light/core.py:27-30 | a new status record holds exactly the four given entries |
| Lamp.MatejLight.constructor | matej_light/core.py:25-33 | the state is the initial one, with the snapshot the same object as the status; both URLs are built from the address |
| Lamp.MatejLight.SendData | matej_light/core.py:45-52 | the payload is appended to the log, and the call raises or returns as PostOutcome says |
| Lamp.MatejLight.SetBrightness | matej_light/core.py:54-59 | updates the shared record in place exactly as the model's SetBrightness step, keeps the invariant, and returns that step's outcome |
| Lamp.MatejLight.SetTemperature | matej_light/core.py:61-65 | updates the record in place exactly as the model's SetTemperature step, keeps the invariant, and returns that step's outcome |
| Lamp.MatejLight.SetTemperaturePercent | matej_light/core.py:67-69 | posts the given warm-percent unchanged and changes no status record |
| Lamp.MatejLight.SetAuxRgb | matej_light/core.py:71-79 | updates the record in place exactly as the model's SetAuxRgb step, keeps the invariant, and returns that step's outcome |
| Lamp.MatejLight.TurnOff | matej_light/core.py:81-88 | makes the snapshot field refer to the current record, then acts as the model's TurnOff step and keeps the invariant |
| Lamp.MatejLight.TurnOn | matej_light/core.py:90-94 | makes the status field refer to the snapshot, then acts as the model's TurnOn step and keeps the invariant |
| Lamp.MatejLight.GetData | matej_light/core.py:96-107 | returns exactly ReadOutcome of the device's reply |
| Lamp.MatejLight.GetStatus | matej_light/core.py:109-115 | returns exactly the model's status read of the current state, changing nothing |
| Lamp.MatejLight.Update | matej_light/core.py:117-118 | on success installs a freshly allocated record, so the snapshot is no longer the current one; on failure keeps the same object; acts as the model's Update step |
| Lamp.MatejLight.IsAvailable | matej_light/core.py:120-126 | true exactly when a status read would succeed, that is, when the device's body decodes |
| LampScenarios.OffThenOn | matej_light/core.py:81-94 | on an object, off then on with every post accepted re-sends and restores the pre-off brightness and colour (clipped), with power 1, and both fields still refer to the original record |
| LampScenarios.SetWhileOff | matej_light/core.py:54-94 | on an object, a brightness set while off is what turning on restores |
| LampScenarios.ReadThenOn | matej_light/core.py:90-118 | after a read replaced the status, turning on brings back the older record (brightness 50 set before the read), not the device's values |
| LampScenarios.BrightnessEdges | matej_light/core.py:54-59 | 150 is sent as 99 and 0 as -1; a rejected post leaves the new brightness stored and power unchanged |
| LampScenarios.TemperatureEdges | matej_light/core.py:61-69 | 9000 K is stored as 5000 K and sent as 0 percent warm even when the device is unreachable |

## Left out

- HTTP transport: the POST and GET requests, the 2-second timeout and the exceptions of the requests library are out. The device's reply is a parameter (`PostReply`, `GetReply`). `PostUnreachable` and `GetUnreachable` stand for a connect timeout or a connection error, which the source turns into its own exception. A read timeout (connected, but no answer in time) escapes as an exception of the requests library instead. Its effect on the state is the same, but the model does not tell that error kind apart.
- JSON encoding and decoding are out. A read is an already-decoded `DeviceConfig` or a decode failure.
- A body without one of the five fields, or one that is not an object, or whose `whiteTemp` is not a number, raises `KeyError` or `TypeError` in Python. A non-integer brightness or colour field is stored unchecked, and a fractional `whiteTemp` goes through `map_val` (25.5 gives 4490 K). The model has integer fields only and treats any body it cannot represent as a failed read, which is how `IsAvailable`'s catch-all handler treats the raising cases.
- Exception message texts are out. `LampError` keeps one variant per raise site, and the not-successful variant keeps the data that was sent.
- Float arithmetic in `map_val` is out. The model uses exact rationals. This is the same as Python for the constant ranges the lamp uses, but not for inputs so large that a double loses precision.
- Conversion.MapVal: requires `inMin != inMax`. Python raises `ZeroDivisionError` there, and every caller passes distinct constant bounds.
- Python's dynamic typing is out. Every argument and device field is an integer.
- Lamp.MatejLight.GetStatus: returns the new record as a value, not as a fresh dictionary. No other reference can share it, and `Update` allocates a fresh `Status` from it, so the alias is broken just as in the source.
- Lamp.MatejLight.SetTemperaturePercent: posts whatever it is given. The source calls it only from the temperature command, with a value in [0, 100], so it is not one of the model's public commands, and the range invariant is proved for its caller rather than for it.
- LampModel.Run: models a caller that catches every exception and goes on with the next command. A caller that stops at the first exception sees a prefix of the same run.
- The demonstration block at the end of the module, which talks to a real device, is left out, and so is the packaging script `setup.py`.
