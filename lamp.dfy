/** The lamp client as the object the source defines: a status record on the
    heap, a second field that may refer to the same record, and commands
    that update it in place around a post to the device. Each command is
    proved to do what the value-level semantics in LampModel says. */
module Lamp {
  import opened Conversion
  import opened LampModel

  /** The mutable status record. Several references to one Status share it,
      as two names for one dictionary do. */
  class Status {
    var brightness: int
    var temperature: int
    var auxRgb: Rgb
    var power: int

    constructor (s: LampState)
      ensures Value() == s
    {
      brightness, temperature, auxRgb, power := s.brightness, s.temperature, s.auxRgb, s.power;
    }

    function Value(): LampState
      reads this
    {
      LampState(brightness, temperature, auxRgb, power)
    }
  }

  class MatejLight {
    const ip: string
    const postUrl: string
    const getUrl: string
    /** The current status record. */
    var status: Status
    /** The record saved by the last turn-off. It is the same object as
        `status` except after a read from the device replaced `status`. */
    var statusBeforeOff: Status
    /** Every payload handed to the transport, in order, accepted or not. */
    ghost var posted: seq<Payload>

    /** The client's state as values; `shared` says whether the two fields
        refer to one record. */
    ghost function Abstract(): Client
      reads this, status, statusBeforeOff
    {
      Client(status.Value(), statusBeforeOff.Value(), status == statusBeforeOff, posted)
    }

    ghost predicate Valid()
      reads this, status, statusBeforeOff
    {
      Inv(Abstract())
    }

    constructor (ip: string)
      ensures Valid()
      ensures this.ip == ip
      ensures postUrl == "http://" + ip + "/chngConfig" && getUrl == "http://" + ip + "/getConfig"
      ensures fresh(status) && statusBeforeOff == status
      ensures Abstract() == Initial()
    {
      this.ip := ip;
      var s := new Status(InitialState);
      status := s;
      postUrl := "http://" + ip + "/chngConfig";
      getUrl := "http://" + ip + "/getConfig";
      statusBeforeOff := s;
      posted := [];
    }

    /** Posts `data`; the device's reply decides whether this raises. */
    method SendData(data: Payload, reply: PostReply) returns (res: Outcome)
      modifies this`posted
      ensures posted == old(posted) + [data]
      ensures res == PostOutcome(data, reply)
    {
      posted := posted + [data];
      if reply.PostUnreachable? {
        return Fail(CouldNotConnect);
      }
      if reply.text != "OK" {
        return Fail(CommandNotSuccessful(data));
      }
      return Pass;
    }

    /** Stores the clipped brightness, posts it minus one, and sets power
        to 1 once the post has succeeded. */
    method SetBrightness(percent: int, reply: PostReply) returns (res: Outcome)
      requires Valid()
      modifies this`posted, status
      ensures Valid()
      ensures status == old(status) && statusBeforeOff == old(statusBeforeOff)
      ensures var e := LampModel.SetBrightness(old(Abstract()), percent, reply);
              Abstract() == e.client && res == e.outcome
    {
      ghost var before := Abstract();
      var p := Clip(percent, 0, 100);
      var data := BrightnessPayload(p);
      status.brightness := p;
      res := SendData(data, reply);
      if res.Pass? {
        status.power := 1;
      }
      ApplyKeepsInv(before, SetBrightnessCmd(percent, reply));
    }

    /** Stores the clipped Kelvin value, then posts its warm-percent. */
    method SetTemperature(kelvin: int, reply: PostReply) returns (res: Outcome)
      requires Valid()
      modifies this`posted, status
      ensures Valid()
      ensures status == old(status) && statusBeforeOff == old(statusBeforeOff)
      ensures var e := LampModel.SetTemperature(old(Abstract()), kelvin, reply);
              Abstract() == e.client && res == e.outcome
    {
      ghost var before := Abstract();
      var k := Clip(kelvin, KelvinMin, KelvinMax);
      var percentWarm := MapVal(k, KelvinMin, KelvinMax, 100, 0);
      status.temperature := k;
      res := SetTemperaturePercent(percentWarm, reply);
      ApplyKeepsInv(before, SetTemperatureCmd(kelvin, reply));
    }

    /** Posts a raw warm-percent as it is. */
    method SetTemperaturePercent(percentWarm: int, reply: PostReply) returns (res: Outcome)
      modifies this`posted
      ensures posted == old(posted) + [WhiteTempPayload(percentWarm)]
      ensures res == PostOutcome(WhiteTempPayload(percentWarm), reply)
    {
      var data := WhiteTempPayload(percentWarm);
      res := SendData(data, reply);
    }

    /** Stores the clipped colour, then posts the stored channels. */
    method SetAuxRgb(r: int, g: int, b: int, reply: PostReply) returns (res: Outcome)
      requires Valid()
      modifies this`posted, status
      ensures Valid()
      ensures status == old(status) && statusBeforeOff == old(statusBeforeOff)
      ensures var e := LampModel.SetAuxRgb(old(Abstract()), r, g, b, reply);
              Abstract() == e.client && res == e.outcome
    {
      ghost var before := Abstract();
      var r' := Clip(r, 0, 100);
      var g' := Clip(g, 0, 100);
      var b' := Clip(b, 0, 100);
      status.auxRgb := Rgb(r', g', b');
      var data := RgbPayload(Rgb(r', g', b'));
      res := SendData(data, reply);
      ApplyKeepsInv(before, SetAuxRgbCmd(r, g, b, reply));
    }

    /** Saves the current record by reference before posting zero
        brightness and colour; power becomes 0 once the post has succeeded. */
    method TurnOff(reply: PostReply) returns (res: Outcome)
      requires Valid()
      modifies this`statusBeforeOff, this`posted, status
      ensures Valid()
      ensures status == old(status) && statusBeforeOff == status
      ensures var e := LampModel.TurnOff(old(Abstract()), reply);
              Abstract() == e.client && res == e.outcome
    {
      ghost var before := Abstract();
      statusBeforeOff := status;
      var data := OffPayload();
      res := SendData(data, reply);
      if res.Pass? {
        status.power := 0;
      }
      ApplyKeepsInv(before, TurnOffCmd(reply));
    }

    /** Makes the saved record current again and re-sends its brightness and
        colour, each through the full set-and-post path. */
    method TurnOn(brightnessReply: PostReply, rgbReply: PostReply) returns (res: Outcome)
      requires Valid()
      modifies this`status, this`posted, statusBeforeOff
      ensures Valid()
      ensures status == old(statusBeforeOff) && statusBeforeOff == old(statusBeforeOff)
      ensures var e := LampModel.TurnOn(old(Abstract()), brightnessReply, rgbReply);
              Abstract() == e.client && res == e.outcome
    {
      status := statusBeforeOff;
      res := SetBrightness(status.brightness, brightnessReply);
      if res.Fail? {
        return;
      }
      var saved := status.auxRgb;
      res := SetAuxRgb(saved.r, saved.g, saved.b, rgbReply);
      if res.Fail? {
        return;
      }
      status.power := 1;
    }

    /** Reads the device configuration. */
    method GetData(reply: GetReply) returns (res: Result<DeviceConfig>)
      ensures res == ReadOutcome(reply)
    {
      if reply.GetUnreachable? {
        return Err(CouldNotConnect);
      }
      if reply.decoded.None? {
        return Err(CouldNotDecode);
      }
      return Ok(reply.decoded.value);
    }

    /** The device's state in local units, with the local power flag. The
        method changes nothing. */
    method GetStatus(reply: GetReply) returns (res: Result<LampState>)
      ensures res == LampModel.GetStatus(Abstract(), reply)
    {
      var data := GetData(reply);
      if data.Err? {
        return Err(data.error);
      }
      var config := data.value;
      res := Ok(StateFromConfig(config, status.power));
    }

    /** Replaces the current record with a fresh one read from the device. */
    method Update(reply: GetReply) returns (res: Outcome)
      requires Valid()
      modifies this`status
      ensures Valid()
      ensures statusBeforeOff == old(statusBeforeOff)
      ensures res.Pass? ==> fresh(status)
      ensures res.Fail? ==> status == old(status)
      ensures var e := LampModel.Update(old(Abstract()), reply);
              Abstract() == e.client && res == e.outcome
    {
      ghost var before := Abstract();
      var s := GetStatus(reply);
      if s.Err? {
        return Fail(s.error);
      }
      status := new Status(s.value);
      res := Pass;
      ApplyKeepsInv(before, UpdateCmd(reply));
    }

    /** Whether a status read succeeds; any failure reads as unavailable. */
    method IsAvailable(reply: GetReply) returns (available: bool)
      ensures available <==> LampModel.GetStatus(Abstract(), reply).Ok?
      ensures available <==> reply.GetReplied? && reply.decoded.Some?
    {
      var s := GetStatus(reply);
      available := s.Ok?;
    }
  }
}
