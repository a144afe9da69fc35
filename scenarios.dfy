/** Command sequences on a lamp object, with what the contracts of its
    methods and the lemmas of LampModel let a caller conclude about them. */
module LampScenarios {
  import opened Conversion
  import opened LampModel
  import opened Lamp

  /** Turning off and on again with every post accepted: the off body is
      sent, then the saved brightness and colour, and power ends at 1; the
      two fields still refer to the caller's original record. */
  method OffThenOn(lamp: MatejLight) returns (off: Outcome, on: Outcome)
    requires lamp.Valid()
    modifies lamp, lamp.status
    ensures lamp.Valid()
    ensures off == Pass && on == Pass
    ensures lamp.status == old(lamp.status) && lamp.statusBeforeOff == lamp.status
    ensures var before := old(lamp.status.Value());
            var b := Clip(before.brightness, 0, 100);
            var rgb := ClipRgb(before.auxRgb);
            lamp.status.Value() == before.(brightness := b, auxRgb := rgb, power := 1) &&
            lamp.posted == old(lamp.posted) + [OffPayload(), BrightnessPayload(b), RgbPayload(rgb)]
  {
    ghost var start := lamp.Abstract();
    var ok := PostReplied("OK");
    off := lamp.TurnOff(ok);
    ghost var mid := lamp.Abstract();
    on := lamp.TurnOn(ok, ok);
    OffThenOnRestores(start);
    var cmds := [TurnOffCmd(ok), TurnOnCmd(ok, ok)];
    assert cmds[1..] == [TurnOnCmd(ok, ok)] && cmds[1..][1..] == [];
    assert Run(start, cmds) == Run(mid, cmds[1..]) == lamp.Abstract();
  }

  /** The saved record is the current record, so a brightness set while
      the lamp is off is what turning on restores. */
  method SetWhileOff(lamp: MatejLight, percent: int) returns (on: Outcome)
    requires lamp.Valid()
    modifies lamp, lamp.status
    ensures lamp.Valid() && on == Pass
    ensures lamp.status == old(lamp.status)
    ensures lamp.status.brightness == Clip(percent, 0, 100) && lamp.status.power == 1
  {
    var ok := PostReplied("OK");
    var off := lamp.TurnOff(ok);
    var setResult := lamp.SetBrightness(percent, ok);
    assert lamp.statusBeforeOff.brightness == Clip(percent, 0, 100);
    on := lamp.TurnOn(ok, ok);
  }

  /** A read from the device installs a fresh record, so turning on
      afterwards, with no turn-off in between, brings back the record
      from before the read and not what the device reported. */
  method ReadThenOn(ip: string, config: DeviceConfig) returns (lamp: MatejLight)
    ensures lamp.Valid()
    ensures lamp.status.brightness == 50 && lamp.status.auxRgb == Rgb(0, 0, 0)
  {
    lamp := new MatejLight(ip);
    var ok := PostReplied("OK");
    var setResult := lamp.SetBrightness(50, ok);
    var read := lamp.Update(GetReplied(Some(config)));
    var on := lamp.TurnOn(ok, ok);
  }

  /** The clipped brightness is sent minus one and not clipped again: 150
      is sent as 99 and 0 as -1. A rejected post still leaves the new
      brightness stored, and power stays as it was. */
  method BrightnessEdges(ip: string) returns (lamp: MatejLight)
    ensures lamp.posted == [map["brightness" := 99], map["brightness" := -1], map["brightness" := 29]]
    ensures lamp.status.brightness == 30 && lamp.status.power == 1
  {
    lamp := new MatejLight(ip);
    var high := lamp.SetBrightness(150, PostReplied("OK"));
    var low := lamp.SetBrightness(0, PostReplied("OK"));
    var rejected := lamp.SetBrightness(30, PostReplied("ERR"));
    assert rejected == Fail(CommandNotSuccessful(map["brightness" := 29]));
  }

  /** A temperature above the range is stored as 5000 K, and the matching
      warm-percent 0 is sent even though the device cannot be reached. */
  method TemperatureEdges(ip: string) returns (lamp: MatejLight)
    ensures lamp.status.temperature == KelvinMax && lamp.status.power == 0
    ensures lamp.posted == [WhiteTempPayload(0)]
  {
    assert MapVal(KelvinMax, KelvinMin, KelvinMax, 100, 0) == 0 by {
      KelvinRescaleInRange(KelvinMax);
      Endpoints();
    }
    lamp := new MatejLight(ip);
    var res := lamp.SetTemperature(9000, PostUnreachable);
  }
}
