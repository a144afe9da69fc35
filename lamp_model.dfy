/** The values the lamp client works with (status records, payloads, device
    replies, errors) and a value-level specification of its commands:
    each command maps the client's state to a new state and a normal
    return or an exception. */
module LampModel {
  import opened Conversion

  /** Auxiliary colour, each channel on the device's 0..100 scale. */
  datatype Rgb = Rgb(r: int, g: int, b: int)

  /** The four entries of the status record: brightness, temperature,
      aux_rgb and power. */
  datatype LampState = LampState(brightness: int, temperature: int, auxRgb: Rgb, power: int)

  /** A JSON body posted to the device: field name to integer value. */
  type Payload = map<string, int>

  /** What the device answers to a POST: no connection (timeout or refused),
      or a response body. */
  datatype PostReply = PostUnreachable | PostReplied(text: string)

  /** The already-decoded configuration the device reports. */
  datatype DeviceConfig = DeviceConfig(brightness: int, whiteTemp: int, r: int, g: int, b: int)

  datatype Option<+T> = None | Some(value: T)

  /** What the device answers to a GET: no connection, or a response body
      that either decodes to a configuration or does not. */
  datatype GetReply = GetUnreachable | GetReplied(decoded: Option<DeviceConfig>)

  /** The one exception kind, one variant per place it is raised. */
  datatype LampError =
    | CouldNotConnect
    | CommandNotSuccessful(data: Payload)
    | CouldNotDecode

  /** Normal return of a command, or the exception it raises. */
  datatype Outcome = Pass | Fail(error: LampError)

  datatype Result<+T> = Ok(value: T) | Err(error: LampError)

  const InitialState := LampState(0, KelvinMin, Rgb(0, 0, 0), 0)

  function BrightnessPayload(percent: int): (p: Payload) {
    map["brightness" := percent - 1]
  }

  function WhiteTempPayload(percentWarm: int): (p: Payload) {
    map["whiteTemp" := percentWarm]
  }

  function RgbPayload(c: Rgb): (p: Payload) {
    map["R" := c.r, "G" := c.g, "B" := c.b]
  }

  function OffPayload(): (p: Payload) {
    map["brightness" := 0, "R" := 0, "G" := 0, "B" := 0]
  }

  function ClipRgb(c: Rgb): (clipped: Rgb) {
    Rgb(Clip(c.r, 0, 100), Clip(c.g, 0, 100), Clip(c.b, 0, 100))
  }

  /** A POST succeeds exactly when the device answers with the text "OK". */
  predicate Accepted(reply: PostReply) {
    reply == PostReplied("OK")
  }

  /** What posting `data` yields for a given device reply. */
  function PostOutcome(data: Payload, reply: PostReply): (r: Outcome)
    ensures r.Pass? <==> Accepted(reply)
    ensures reply.PostUnreachable? ==> r == Fail(CouldNotConnect)
    ensures reply.PostReplied? && reply.text != "OK" ==> r == Fail(CommandNotSuccessful(data))
  {
    match reply
    case PostUnreachable => Fail(CouldNotConnect)
    case PostReplied(text) => if text == "OK" then Pass else Fail(CommandNotSuccessful(data))
  }

  /** What reading the configuration yields for a given device reply. */
  function ReadOutcome(reply: GetReply): (r: Result<DeviceConfig>)
    ensures r.Ok? <==> reply.GetReplied? && reply.decoded.Some?
    ensures r.Ok? ==> r.value == reply.decoded.value
    ensures r.Err? ==> r.error == if reply.GetUnreachable? then CouldNotConnect else CouldNotDecode
  {
    match reply
    case GetUnreachable => Err(CouldNotConnect)
    case GetReplied(None) => Err(CouldNotDecode)
    case GetReplied(Some(config)) => Ok(config)
  }

  /** The status record built from a device configuration: the Kelvin value
      is recovered from the device's warm-percent, and power is the locally
      tracked flag, since the device does not report it. */
  function StateFromConfig(config: DeviceConfig, power: int): (s: LampState)
    ensures s.brightness == config.brightness && s.power == power
    ensures s.auxRgb == Rgb(config.r, config.g, config.b)
    ensures KelvinMin <= s.temperature <= KelvinMax
    ensures config.whiteTemp <= 0 ==> s.temperature == KelvinMax
    ensures config.whiteTemp >= 100 ==> s.temperature == KelvinMin
    ensures 0 <= config.whiteTemp <= 100 ==> s.temperature == KelvinMax - 20 * config.whiteTemp
    ensures 0 <= config.whiteTemp <= 100 ==> KelvinToPercentWarm(s.temperature) == config.whiteTemp
  {
    var s := LampState(config.brightness, PercentWarmToKelvin(config.whiteTemp),
                       Rgb(config.r, config.g, config.b), power);
    PercentWarmToKelvinClosedForm(config.whiteTemp);
    if 0 <= config.whiteTemp <= 100 then PercentRoundTrip(config.whiteTemp); s else s
  }

  /** What a status record always satisfies: the temperature is a clipped
      Kelvin value and power is 0 or 1. Brightness and colour are not
      bounded, because a read from the device installs them unchecked. */
  predicate StateInv(s: LampState) {
    KelvinMin <= s.temperature <= KelvinMax && (s.power == 0 || s.power == 1)
  }

  /** Every value a payload carries is in the device's range: brightness
      (already one less than the percentage) in [-1, 99], the warm-percent
      and the colour channels in [0, 100]. */
  predicate PayloadInRange(p: Payload) {
    ("brightness" in p ==> -1 <= p["brightness"] <= 99) &&
    ("whiteTemp" in p ==> 0 <= p["whiteTemp"] <= 100) &&
    ("R" in p ==> 0 <= p["R"] <= 100) &&
    ("G" in p ==> 0 <= p["G"] <= 100) &&
    ("B" in p ==> 0 <= p["B"] <= 100)
  }

  ghost predicate AllInRange(log: seq<Payload>) {
    forall i :: 0 <= i < |log| ==> PayloadInRange(log[i])
  }

  /** The client's state as values: the current record, the record saved by
      the last turn-off, whether the two are one shared record, and the log
      of payloads posted so far. */
  datatype Client = Client(current: LampState, saved: LampState, shared: bool, log: seq<Payload>)

  ghost predicate Inv(c: Client) {
    StateInv(c.current) && StateInv(c.saved) && (c.shared ==> c.saved == c.current) && AllInRange(c.log)
  }

  /** The state right after construction: one record, shared, nothing sent. */
  function Initial(): (c: Client)
    ensures Inv(c)
  {
    Client(InitialState, InitialState, true, [])
  }

  /** A new value for the current record; a shared saved record follows it. */
  function SetCurrent(c: Client, s: LampState): (next: Client) {
    c.(current := s, saved := if c.shared then s else c.saved)
  }

  function Post(c: Client, data: Payload): (next: Client) {
    c.(log := c.log + [data])
  }

  datatype Effect = Effect(client: Client, outcome: Outcome)

  /** The brightness is stored (clipped) before the post and stays stored
      when the post fails; power becomes 1 only on success. */
  function SetBrightness(c: Client, percent: int, reply: PostReply): (e: Effect)
    ensures var p := Clip(percent, 0, 100);
            e.client.current == c.current.(brightness := p, power := if Accepted(reply) then 1 else c.current.power) &&
            e.client.log == c.log + [map["brightness" := p - 1]] &&
            e.client.shared == c.shared &&
            e.client.saved == (if c.shared then e.client.current else c.saved) &&
            (e.outcome.Pass? <==> Accepted(reply))
  {
    var p := Clip(percent, 0, 100);
    var stored := SetCurrent(c, c.current.(brightness := p));
    var sent := Post(stored, BrightnessPayload(p));
    var outcome := PostOutcome(BrightnessPayload(p), reply);
    if outcome.Fail? then Effect(sent, outcome)
    else Effect(SetCurrent(sent, sent.current.(power := 1)), outcome)
  }

  /** The clipped Kelvin value is stored whatever the reply, and the
      warm-percent sent is its conversion, in [0, 100]. */
  function SetTemperature(c: Client, kelvin: int, reply: PostReply): (e: Effect)
    ensures var k := Clip(kelvin, KelvinMin, KelvinMax);
            e.client.current == c.current.(temperature := k) &&
            e.client.log == c.log + [map["whiteTemp" := KelvinToPercentWarm(k)]] &&
            0 <= KelvinToPercentWarm(k) <= 100 &&
            e.client.shared == c.shared &&
            e.client.saved == (if c.shared then e.client.current else c.saved) &&
            (e.outcome.Pass? <==> Accepted(reply))
  {
    var k := Clip(kelvin, KelvinMin, KelvinMax);
    KelvinRescaleInRange(k);
    var percentWarm := MapVal(k, KelvinMin, KelvinMax, 100, 0);
    var stored := SetCurrent(c, c.current.(temperature := k));
    Effect(Post(stored, WhiteTempPayload(percentWarm)), PostOutcome(WhiteTempPayload(percentWarm), reply))
  }

  /** The clipped colour is stored whatever the reply, and the channels
      sent are the stored ones. */
  function SetAuxRgb(c: Client, r: int, g: int, b: int, reply: PostReply): (e: Effect)
    ensures var rgb := e.client.current.auxRgb;
            rgb == ClipRgb(Rgb(r, g, b)) &&
            e.client.current == c.current.(auxRgb := rgb) &&
            e.client.log == c.log + [map["R" := rgb.r, "G" := rgb.g, "B" := rgb.b]] &&
            e.client.shared == c.shared &&
            e.client.saved == (if c.shared then e.client.current else c.saved) &&
            (e.outcome.Pass? <==> Accepted(reply))
  {
    var rgb := Rgb(Clip(r, 0, 100), Clip(g, 0, 100), Clip(b, 0, 100));
    var stored := SetCurrent(c, c.current.(auxRgb := rgb));
    Effect(Post(stored, RgbPayload(rgb)), PostOutcome(RgbPayload(rgb), reply))
  }

  /** The current record is saved (shared) before the post, which zeroes
      brightness and colour and leaves the white temperature alone; power
      becomes 0 only on success. */
  function TurnOff(c: Client, reply: PostReply): (e: Effect)
    ensures e.client.shared && e.client.saved == e.client.current
    ensures e.client.current == c.current.(power := if Accepted(reply) then 0 else c.current.power)
    ensures e.client.log == c.log + [map["brightness" := 0, "R" := 0, "G" := 0, "B" := 0]]
    ensures "whiteTemp" !in e.client.log[|c.log|]
    ensures e.outcome.Pass? <==> Accepted(reply)
  {
    var saved := c.(saved := c.current, shared := true);
    var sent := Post(saved, OffPayload());
    var outcome := PostOutcome(OffPayload(), reply);
    if outcome.Fail? then Effect(sent, outcome)
    else Effect(SetCurrent(sent, sent.current.(power := 0)), outcome)
  }

  /** Turning on makes the saved record current and re-sends its brightness
      and colour, clipped, each through its set command. Power becomes 1 as
      soon as the brightness post is accepted, so a rejected colour post
      fails with power already 1; the command succeeds exactly when both
      posts are accepted. */
  function TurnOn(c: Client, brightnessReply: PostReply, rgbReply: PostReply): (e: Effect)
    ensures var b := Clip(c.saved.brightness, 0, 100);
            var rgb := ClipRgb(c.saved.auxRgb);
            e.client.shared && e.client.saved == e.client.current &&
            (e.outcome.Pass? <==> Accepted(brightnessReply) && Accepted(rgbReply)) &&
            (Accepted(brightnessReply) ==>
               e.client.log == c.log + [BrightnessPayload(b), RgbPayload(rgb)] &&
               e.client.current == c.saved.(brightness := b, auxRgb := rgb, power := 1)) &&
            (!Accepted(brightnessReply) ==>
               e.client.log == c.log + [BrightnessPayload(b)] &&
               e.client.current == c.saved.(brightness := b))
  {
    var restored := c.(current := c.saved, shared := true);
    var first := SetBrightness(restored, restored.current.brightness, brightnessReply);
    if first.outcome.Fail? then first
    else
      var rgb := first.client.current.auxRgb;
      var second := SetAuxRgb(first.client, rgb.r, rgb.g, rgb.b, rgbReply);
      if second.outcome.Fail? then second
      else Effect(SetCurrent(second.client, second.client.current.(power := 1)), Pass)
  }

  /** The status read with the current power flag; the state is unchanged. */
  function GetStatus(c: Client, reply: GetReply): (r: Result<LampState>)
    ensures r.Ok? <==> reply.GetReplied? && reply.decoded.Some?
    ensures r.Ok? ==> r.value == StateFromConfig(reply.decoded.value, c.current.power)
    ensures r.Err? ==> r.error == ReadOutcome(reply).error
  {
    match ReadOutcome(reply)
    case Err(e) => Err(e)
    case Ok(config) => Ok(StateFromConfig(config, c.current.power))
  }

  /** A read changes nothing on failure; on success it installs the device's
      values with the old power flag, as a record no longer shared. */
  function Update(c: Client, reply: GetReply): (e: Effect)
    ensures e.client.log == c.log && e.client.saved == c.saved
    ensures e.outcome.Pass? <==> reply.GetReplied? && reply.decoded.Some?
    ensures e.outcome.Fail? ==> e.client == c
    ensures e.outcome.Pass? ==>
              !e.client.shared && e.client.current == StateFromConfig(reply.decoded.value, c.current.power)
  {
    match GetStatus(c, reply)
    case Err(e) => Effect(c, Fail(e))
    case Ok(s) => Effect(c.(current := s, shared := false), Pass)
  }

  /** The client's public commands, each with the device's replies. */
  datatype Command =
    | SetBrightnessCmd(percent: int, reply: PostReply)
    | SetTemperatureCmd(kelvin: int, reply: PostReply)
    | SetAuxRgbCmd(r: int, g: int, b: int, reply: PostReply)
    | TurnOffCmd(reply: PostReply)
    | TurnOnCmd(brightnessReply: PostReply, rgbReply: PostReply)
    | UpdateCmd(getReply: GetReply)

  /** How many payloads a command posts for given replies. */
  function PostCount(cmd: Command): nat {
    match cmd
    case UpdateCmd(_) => 0
    case TurnOnCmd(brightnessReply, _) => if Accepted(brightnessReply) then 2 else 1
    case _ => 1
  }

  /** One command: it only appends to the log, as many payloads as it posts. */
  function Apply(c: Client, cmd: Command): (e: Effect)
    ensures c.log <= e.client.log
    ensures |e.client.log| == |c.log| + PostCount(cmd)
  {
    match cmd
    case SetBrightnessCmd(percent, reply) => SetBrightness(c, percent, reply)
    case SetTemperatureCmd(kelvin, reply) => SetTemperature(c, kelvin, reply)
    case SetAuxRgbCmd(r, g, b, reply) => SetAuxRgb(c, r, g, b, reply)
    case TurnOffCmd(reply) => TurnOff(c, reply)
    case TurnOnCmd(brightnessReply, rgbReply) => TurnOn(c, brightnessReply, rgbReply)
    case UpdateCmd(getReply) => Update(c, getReply)
  }

  /** The state after a sequence of commands, each exception caught by the
      caller before the next command. */
  function Run(c: Client, cmds: seq<Command>): (last: Client)
    ensures c.log <= last.log
    decreases |cmds|
  {
    if cmds == [] then c else Run(Apply(c, cmds[0]).client, cmds[1..])
  }

  // ---------------------------------------------------------------------
  // Invariants kept by every command and by every sequence of commands

  /** Every command keeps the invariant: clipped temperature, power 0 or 1,
      a shared record equal in both places, and only in-range values sent. */
  lemma ApplyKeepsInv(c: Client, cmd: Command)
    requires Inv(c)
    ensures Inv(Apply(c, cmd).client)
  {
    var e := Apply(c, cmd);
    var added := e.client.log[|c.log|..];
    match cmd
    case SetTemperatureCmd(kelvin, reply) =>
      assert added == [WhiteTempPayload(KelvinToPercentWarm(Clip(kelvin, KelvinMin, KelvinMax)))];
      AppendInRange(c.log, added);
    case SetBrightnessCmd(percent, reply) =>
      assert added == [BrightnessPayload(Clip(percent, 0, 100))];
      AppendInRange(c.log, added);
    case SetAuxRgbCmd(r, g, b, reply) =>
      assert added == [RgbPayload(ClipRgb(Rgb(r, g, b)))];
      AppendInRange(c.log, added);
    case TurnOffCmd(reply) =>
      assert added == [OffPayload()];
      AppendInRange(c.log, added);
    case TurnOnCmd(brightnessReply, rgbReply) =>
      var b := Clip(c.saved.brightness, 0, 100);
      var rgb := ClipRgb(c.saved.auxRgb);
      if Accepted(brightnessReply) {
        assert added == [BrightnessPayload(b), RgbPayload(rgb)];
      } else {
        assert added == [BrightnessPayload(b)];
      }
      AppendInRange(c.log, added);
    case UpdateCmd(reply) =>
  }

  lemma AppendInRange(log: seq<Payload>, added: seq<Payload>)
    requires AllInRange(log) && AllInRange(added)
    ensures AllInRange(log + added)
  {
    assert forall i :: |log| <= i < |log + added| ==> (log + added)[i] == added[i - |log|];
  }

  /** Any sequence of commands keeps the invariant, whatever the device
      replies; in particular every value ever sent is in range. */
  lemma {:induction false} RunKeepsInv(c: Client, cmds: seq<Command>)
    requires Inv(c)
    ensures Inv(Run(c, cmds))
    decreases |cmds|
  {
    if cmds != [] {
      ApplyKeepsInv(c, cmds[0]);
      RunKeepsInv(Apply(c, cmds[0]).client, cmds[1..]);
    }
  }

  /** From the initial state, whatever commands are issued and whatever the
      device replies, the invariant holds. */
  lemma ReachableKeepsInv(cmds: seq<Command>)
    ensures Inv(Run(Initial(), cmds))
  {
    RunKeepsInv(Initial(), cmds);
  }

  // ---------------------------------------------------------------------
  // Sequences of commands

  /** Off then on, every post accepted: the off body, then the saved
      brightness and colour (clipped) are sent, and power ends at 1. */
  lemma OffThenOnRestores(c: Client)
    ensures var ok := PostReplied("OK");
            var after := Run(c, [TurnOffCmd(ok), TurnOnCmd(ok, ok)]);
            var b := Clip(c.current.brightness, 0, 100);
            var rgb := ClipRgb(c.current.auxRgb);
            after.current == c.current.(brightness := b, auxRgb := rgb, power := 1) &&
            after.log == c.log + [OffPayload(), BrightnessPayload(b), RgbPayload(rgb)]
  {
    var ok := PostReplied("OK");
    var off := TurnOff(c, ok).client;
    OnAfterOff(c);
    assert Run(off, [TurnOnCmd(ok, ok)]) == TurnOn(off, ok, ok).client;
  }

  lemma OnAfterOff(c: Client)
    ensures var ok := PostReplied("OK");
            var on := TurnOn(TurnOff(c, ok).client, ok, ok).client;
            var b := Clip(c.current.brightness, 0, 100);
            var rgb := ClipRgb(c.current.auxRgb);
            on.current == c.current.(brightness := b, auxRgb := rgb, power := 1) &&
            on.log == c.log + [OffPayload(), BrightnessPayload(b), RgbPayload(rgb)]
  {
    var ok := PostReplied("OK");
    var off := TurnOff(c, ok).client;
    assert off.saved == c.current.(power := 0) && off.log == c.log + [OffPayload()];
    var b := Clip(c.current.brightness, 0, 100);
    var rgb := ClipRgb(c.current.auxRgb);
    assert c.log + [OffPayload()] + [BrightnessPayload(b), RgbPayload(rgb)]
        == c.log + [OffPayload(), BrightnessPayload(b), RgbPayload(rgb)];
  }

  /** The saved record is shared, so a brightness set while the lamp is off
      is what turning on restores. */
  lemma SetWhileOffIsRestored(c: Client, percent: int)
    ensures var ok := PostReplied("OK");
            var after := Run(c, [TurnOffCmd(ok), SetBrightnessCmd(percent, ok), TurnOnCmd(ok, ok)]);
            after.current.brightness == Clip(percent, 0, 100) && after.current.power == 1
  {
    var ok := PostReplied("OK");
    var off := TurnOff(c, ok).client;
    var lit := SetBrightness(off, percent, ok).client;
    var cmds := [TurnOffCmd(ok), SetBrightnessCmd(percent, ok), TurnOnCmd(ok, ok)];
    assert cmds[1..][1..] == [TurnOnCmd(ok, ok)];
    assert Run(c, cmds) == Run(off, cmds[1..]) == Run(lit, [TurnOnCmd(ok, ok)]);
    assert Run(lit, [TurnOnCmd(ok, ok)]) == TurnOn(lit, ok, ok).client;
  }

  /** After a successful read the current record is no longer the saved
      one, so turning on brings back the saved values, not the device's. */
  lemma ReadThenOnRestoresSaved(c: Client, config: DeviceConfig)
    ensures var ok := PostReplied("OK");
            var after := Run(c, [UpdateCmd(GetReplied(Some(config))), TurnOnCmd(ok, ok)]);
            after.current == c.saved.(brightness := Clip(c.saved.brightness, 0, 100),
                                      auxRgb := ClipRgb(c.saved.auxRgb), power := 1)
  {
    var ok := PostReplied("OK");
    var read := Update(c, GetReplied(Some(config))).client;
    assert Run(c, [UpdateCmd(GetReplied(Some(config))), TurnOnCmd(ok, ok)]) == Run(read, [TurnOnCmd(ok, ok)]);
    assert Run(read, [TurnOnCmd(ok, ok)]) == TurnOn(read, ok, ok).client;
  }

  /** A read of whiteTemp 25 reports 4500 K: the Kelvin value is the
      device's warm-percent converted back, not a value near it. */
  lemma WarmReadExample(c: Client)
    ensures GetStatus(c, GetReplied(Some(DeviceConfig(40, 25, 1, 2, 3)))) ==
            Ok(LampState(40, 4500, Rgb(1, 2, 3), c.current.power))
  {
  }
}
