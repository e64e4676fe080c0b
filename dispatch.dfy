/** The main activity's command dispatcher: it turns joystick samples, button clicks, the speed
    slider and the lifecycle callbacks into commands for the TCP client and entries in the
    command log.

    The client object is abstracted to whether one exists and the calls made on it; the log
    and settings database to a sequence of commands and a map. `Handler.post` and
    `postDelayed` become a count of pending ticker runs, and the handler's firing of one of
    them is the `TickerFires` event. Every handler is a function on `State`; the class of the
    `Activity` module performs the same updates on fields and is proved against them. */
module Dispatch {
  import opened Wrappers
  import Text
  import Joystick

  /** The port used when the port field does not parse as an integer. */
  const DefaultPort: int := 12345
  /** The slider position used when the slider is unavailable. */
  const DefaultProgress: nat := 512

  const IpKey: string := "ip"
  const PortKey: string := "port"

  // ---------------------------------------------------------------------------
  // Direction quantisation
  // ---------------------------------------------------------------------------

  /** The five commands of the directional channel. */
  predicate IsDirection(cmd: string) {
    cmd == "forward" || cmd == "backward" || cmd == "left" || cmd == "right" || cmd == "stop"
  }

  /** `directionFrom`: `stop` inside the dead zone (its literal 0.08 is the joystick view's
      dead zone); otherwise the dominant axis decides, and a tie goes to the vertical axis.
      The result is always a directional command, and it is `stop` exactly inside the dead
      zone. */
  function DirectionFrom(dx: real, dy: real, norm: real): (d: string)
    ensures IsDirection(d)
    ensures d == "stop" <==> norm < Joystick.DeadZone
  {
    if norm < Joystick.DeadZone then "stop"
    else if Joystick.Abs(dx) > Joystick.Abs(dy) then (if dx > 0.0 then "right" else "left")
    else if dy > 0.0 then "forward" else "backward"
  }

  /** Which command each region of the input plane gives, outside the dead zone. */
  lemma DirectionRegions(dx: real, dy: real, norm: real)
    ensures DirectionFrom(dx, dy, norm) == "right" <==>
              norm >= Joystick.DeadZone && Joystick.Abs(dx) > Joystick.Abs(dy) && dx > 0.0
    ensures DirectionFrom(dx, dy, norm) == "left" <==>
              norm >= Joystick.DeadZone && Joystick.Abs(dx) > Joystick.Abs(dy) && dx <= 0.0
    ensures DirectionFrom(dx, dy, norm) == "forward" <==>
              norm >= Joystick.DeadZone && Joystick.Abs(dx) <= Joystick.Abs(dy) && dy > 0.0
    ensures DirectionFrom(dx, dy, norm) == "backward" <==>
              norm >= Joystick.DeadZone && Joystick.Abs(dx) <= Joystick.Abs(dy) && dy <= 0.0
  {
  }

  /** Quantisation examples: a horizontal lean gives `right`, a vertical lean `forward`, a
      diagonal tie downwards `backward`, and the centre `stop`. */
  lemma DirectionExamples()
    ensures DirectionFrom(0.5, 0.1, 0.5) == "right"
    ensures DirectionFrom(0.1, 0.5, 0.5) == "forward"
    ensures DirectionFrom(-0.5, -0.5, 0.7) == "backward"
    ensures DirectionFrom(0.0, 0.0, 0.0) == "stop"
  {
  }

  /** The move listener stores the sample with its y axis negated (screen y grows downwards).
      A sample the joystick reports inside its dead zone quantises to `stop`; the released
      sample is one of them, its magnitude being 0. */
  lemma DeadZoneSampleStops(smp: Joystick.Sample)
    requires smp.norm < Joystick.DeadZone
    ensures DirectionFrom(smp.x, -smp.y, smp.norm) == "stop"
  {
  }

  // ---------------------------------------------------------------------------
  // Buttons and commands
  // ---------------------------------------------------------------------------

  datatype Button =
    | ForwardButton | BackwardButton | LeftButton | RightButton | StopButton
    | LedOnButton | LedOffButton | ForkUpButton | ForkDownButton | CamAButton | CamBButton

  /** The buttons whose click handler also records the command as the last direction. */
  predicate SetsDirection(b: Button) {
    b.ForwardButton? || b.BackwardButton? || b.LeftButton? || b.RightButton? || b.StopButton?
  }

  /** The command each button sends. Exactly the direction and stop buttons send a
      directional command. */
  function ButtonCommand(b: Button): (cmd: string)
    ensures IsDirection(cmd) <==> SetsDirection(b)
  {
    match b
    case ForwardButton => "forward"
    case BackwardButton => "backward"
    case LeftButton => "left"
    case RightButton => "right"
    case StopButton => "stop"
    case LedOnButton => "led_on"
    case LedOffButton => "led_off"
    case ForkUpButton => "forklift_up"
    case ForkDownButton => "forklift_down"
    case CamAButton => "cam_a"
    case CamBButton => "cam_b"
  }

  const SpeedPrefix: string := "set_speed:"

  /** The slider's command: `set_speed:` followed by the canonical decimal numeral of the
      position. It is never a directional command. */
  function SpeedCommand(progress: nat): (cmd: string)
    ensures |cmd| > |SpeedPrefix| && cmd[..|SpeedPrefix|] == SpeedPrefix
    ensures var digits := cmd[|SpeedPrefix|..];
            Text.AllDigits(digits) && Text.DecimalValue(digits) == progress && (digits[0] == '0' <==> progress == 0)
    ensures !IsDirection(cmd)
  {
    var digits := Text.IntToString(progress);
    Text.DecimalValueOfNatToString(progress);
    var cmd := SpeedPrefix + digits;
    assert cmd[..|SpeedPrefix|] == SpeedPrefix && cmd[|SpeedPrefix|..] == digits;
    cmd
  }

  /** The position in a speed command reads back with `toIntOrNull` as the position sent,
      for every position a Kotlin `Int` holds. */
  lemma SpeedCommandReadsBack(progress: nat)
    requires progress <= Text.IntMax
    ensures Text.ToIntOrNull(SpeedCommand(progress)[|SpeedPrefix|..]) == Some(progress)
  {
    var cmd := SpeedCommand(progress);
    assert cmd[|SpeedPrefix|..] == Text.IntToString(progress);
    Text.IntToStringRoundTrip(progress);
  }

  /** The calls the activity makes on its client object. */
  datatype ClientCall = Open(host: string, port: int) | Send(cmd: string) | Close

  // ---------------------------------------------------------------------------
  // The activity's state and its handlers
  // ---------------------------------------------------------------------------

  /** The activity's fields: the latest joystick sample and whether it is pressed, the last
      direction and speed sent, whether a client exists, how many ticker runs are posted, the
      calls made on client objects, the command log and the settings store. */
  datatype State = State(
    joyPressed: bool,
    joyDx: real,
    joyDy: real,
    joyNorm: real,
    lastDirSent: string,
    lastSpeedSent: int,
    hasClient: bool,
    tickersPending: nat,
    calls: seq<ClientCall>,
    log: seq<string>,
    settings: map<string, string>)

  /** The activity as created, over the settings already in the store. */
  function Initial(stored: map<string, string>): State {
    State(false, 0.0, 0.0, 0.0, "stop", -1, false, 0, [], [], stored)
  }

  /** `sendCmd`: the command goes to the client if there is one, and into the log in any case.
      Nothing else changes. */
  function SendCmd(s: State, cmd: string): (r: State)
    ensures r.log == s.log + [cmd]
    ensures r.calls == s.calls + (if s.hasClient then [Send(cmd)] else [])
    ensures r.(log := s.log, calls := s.calls) == s
  {
    s.(log := s.log + [cmd], calls := s.calls + (if s.hasClient then [Send(cmd)] else []))
  }

  /** The move listener. The sample is stored with y negated. The stick counts as pressed
      exactly when the sample is pressed and a client exists, and a ticker run is posted only
      on the transition into that pressed state. Nothing is sent. */
  function OnMove(s: State, x: real, y: real, norm: real, pressed: bool): (r: State)
    ensures r.joyDx == x && r.joyDy == -y && r.joyNorm == norm
    ensures r.joyPressed == (pressed && s.hasClient)
    ensures r.tickersPending == s.tickersPending + (if pressed && s.hasClient && !s.joyPressed then 1 else 0)
    ensures r.(joyPressed := s.joyPressed, joyDx := s.joyDx, joyDy := s.joyDy, joyNorm := s.joyNorm,
               tickersPending := s.tickersPending) == s
  {
    var t := s.(joyDx := x, joyDy := -y, joyNorm := norm);
    if pressed && s.hasClient then
      if !s.joyPressed then t.(joyPressed := true, tickersPending := s.tickersPending + 1) else t
    else t.(joyPressed := false)
  }

  /** The direction the latest sample asks for. */
  function Desired(s: State): (d: string)
    ensures IsDirection(d)
  {
    DirectionFrom(s.joyDx, s.joyDy, s.joyNorm)
  }

  /** What the last direction becomes after a ticker run. */
  function TickTarget(s: State): string {
    if s.joyPressed then Desired(s) else "stop"
  }

  /** One run of the joystick ticker, consuming one posted run. While pressed it sends the
      desired direction only if it differs from the last one sent, and posts itself again.
      When released it sends one `stop` unless `stop` was the last direction sent, and does
      not post itself again. Either way the last direction sent is then the target. */
  function RunTicker(s: State): (r: State)
    requires s.tickersPending > 0
    ensures r.lastDirSent == TickTarget(s)
    ensures r.log == s.log + (if TickTarget(s) != s.lastDirSent then [TickTarget(s)] else [])
    ensures r.calls == s.calls + (if TickTarget(s) != s.lastDirSent && s.hasClient then [Send(TickTarget(s))] else [])
    ensures r.tickersPending == if s.joyPressed then s.tickersPending else s.tickersPending - 1
    ensures r.(lastDirSent := s.lastDirSent, log := s.log, calls := s.calls, tickersPending := s.tickersPending) == s
  {
    var t := s.(tickersPending := s.tickersPending - 1);
    if t.joyPressed then
      var desired := Desired(t);
      var u := if desired != t.lastDirSent then SendCmd(t, desired).(lastDirSent := desired) else t;
      u.(tickersPending := u.tickersPending + 1)
    else if t.lastDirSent != "stop" then SendCmd(t, "stop").(lastDirSent := "stop")
    else t
  }

  /** A button click: its command is sent, and the direction and stop buttons also record
      it as the last direction; the other buttons leave the last direction alone. */
  function Click(s: State, b: Button): (r: State)
    ensures r.log == s.log + [ButtonCommand(b)]
    ensures r.calls == s.calls + (if s.hasClient then [Send(ButtonCommand(b))] else [])
    ensures r.lastDirSent == if SetsDirection(b) then ButtonCommand(b) else s.lastDirSent
    ensures r.(log := s.log, calls := s.calls, lastDirSent := s.lastDirSent) == s
  {
    var t := SendCmd(s, ButtonCommand(b));
    if SetsDirection(b) then t.(lastDirSent := ButtonCommand(b)) else t
  }

  /** Releasing the speed slider: with a client, `set_speed:<progress>` is sent and recorded
      as the last speed; without one nothing happens at all. */
  function SpeedReleased(s: State, progress: Option<nat>): (r: State)
    ensures s.hasClient ==> r == SendCmd(s, SpeedCommand(progress.GetOr(DefaultProgress))).(lastSpeedSent := progress.GetOr(DefaultProgress))
    ensures !s.hasClient ==> r == s
  {
    var p := progress.GetOr(DefaultProgress);
    if s.hasClient then SendCmd(s, SpeedCommand(p)).(lastSpeedSent := p) else s
  }

  /** The endpoint `connect` dials: the trimmed address, and the trimmed port field parsed as
      an integer, or the default port when it does not parse. */
  function Endpoint(ipText: string, portText: string): (e: ClientCall)
    ensures e.Open? && e.host == Text.Trim(ipText) && Text.IntMin <= e.port <= Text.IntMax
    ensures Text.ToIntOrNull(Text.Trim(portText)).Some? ==> e.port == Text.ToIntOrNull(Text.Trim(portText)).value
    ensures Text.ToIntOrNull(Text.Trim(portText)) == None ==> e.port == DefaultPort
  {
    Open(Text.Trim(ipText), Text.ToIntOrNull(Text.Trim(portText)).GetOr(DefaultPort))
  }

  /** The two settings `connect` saves: the address, and the port as text. */
  function SaveEndpoint(settings: map<string, string>, host: string, port: int): map<string, string> {
    settings[IpKey := host][PortKey := Text.IntToString(port)]
  }

  /** The saved address is the one given, the saved port text reads back as the same port,
      and every other setting is kept. */
  lemma SavedEndpointReadsBack(settings: map<string, string>, host: string, port: int)
    requires Text.IntMin <= port <= Text.IntMax
    ensures var m := SaveEndpoint(settings, host, port);
            && IpKey in m && m[IpKey] == host
            && PortKey in m && Text.ToIntOrNull(m[PortKey]) == Some(port)
            && forall k :: k in settings && k != IpKey && k != PortKey ==> k in m && m[k] == settings[k]
  {
    Text.IntToStringRoundTrip(port);
  }

  /** `connect`: save address and port, make a new client and ask it to connect to that
      endpoint. Nothing else changes. */
  function Connect(s: State, ipText: string, portText: string): (r: State)
    ensures r.hasClient
    ensures r.calls == s.calls + [Endpoint(ipText, portText)]
    ensures r.settings == SaveEndpoint(s.settings, Endpoint(ipText, portText).host, Endpoint(ipText, portText).port)
    ensures r.(hasClient := s.hasClient, calls := s.calls, settings := s.settings) == s
  {
    var e := Endpoint(ipText, portText);
    s.(settings := SaveEndpoint(s.settings, e.host, e.port), calls := s.calls + [e], hasClient := true)
  }

  /** `disconnect`: the stick counts as released, the client (if any) is asked to disconnect
      and is dropped. Nothing is sent and the last direction is left as it is. */
  function Disconnect(s: State): (r: State)
    ensures !r.hasClient && !r.joyPressed
    ensures r.calls == s.calls + (if s.hasClient then [Close] else [])
    ensures r.(joyPressed := s.joyPressed, calls := s.calls, hasClient := s.hasClient) == s
  {
    s.(joyPressed := false, calls := s.calls + (if s.hasClient then [Close] else []), hasClient := false)
  }

  /** The connect button: connect when there is no client, disconnect when there is one. */
  function ConnectClicked(s: State, ipText: string, portText: string): (r: State)
    ensures r.hasClient == !s.hasClient
    ensures !s.hasClient ==> r == Connect(s, ipText, portText)
    ensures s.hasClient ==> r == Disconnect(s)
  {
    if s.hasClient then Disconnect(s) else Connect(s, ipText, portText)
  }

  /** The listener's `onError`: the client is dropped; the stick state is left alone. */
  function OnError(s: State): (r: State)
    ensures !r.hasClient && r.(hasClient := s.hasClient) == s
  {
    s.(hasClient := false)
  }

  /** `onPause` as the source writes it: with a client, send `stop` and disconnect; but the
      `stop` is not recorded as the last direction. */
  function PauseAsWritten(s: State): (r: State)
    ensures !r.hasClient && r.lastDirSent == s.lastDirSent
    ensures s.hasClient ==> r.log == s.log + ["stop"] && r.calls == s.calls + [Send("stop"), Close] && !r.joyPressed
    ensures r.(joyPressed := s.joyPressed, hasClient := s.hasClient, log := s.log, calls := s.calls) == s
    ensures !s.hasClient ==> r == s
  {
    if s.hasClient then Disconnect(SendCmd(s, "stop")) else s
  }

  /** `onPause` with the `stop` it sends also recorded as the last direction, as every other
      sender of a directional command does. */
  function Pause(s: State): (r: State)
    ensures !r.hasClient
    ensures s.hasClient ==> r.log == s.log + ["stop"] && r.calls == s.calls + [Send("stop"), Close]
                            && r.lastDirSent == "stop" && !r.joyPressed
    ensures r.(joyPressed := s.joyPressed, hasClient := s.hasClient, log := s.log, calls := s.calls,
               lastDirSent := s.lastDirSent) == s
    ensures !s.hasClient ==> r == s
  {
    if s.hasClient then Disconnect(SendCmd(s, "stop").(lastDirSent := "stop")) else s
  }

  // ---------------------------------------------------------------------------
  // Event traces
  // ---------------------------------------------------------------------------

  /** What can happen to the activity. `TickerFires` is the handler running one posted ticker;
      it does nothing when none is posted. The listener's `onConnected`, `onDisconnected` and
      `onMessage` only update the screen and do not appear. */
  datatype UiEvent =
    | Touch(x: real, y: real, norm: real, pressed: bool)
    | TickerFires
    | ButtonClicked(button: Button)
    | SliderReleased(progress: Option<nat>)
    | ConnectButton(ipText: string, portText: string)
    | LinkError
    | Paused

  /** The handler fires the next posted ticker run, if there is one. */
  function Tick(s: State): State {
    if s.tickersPending == 0 then s else RunTicker(s)
  }

  function Step(s: State, e: UiEvent): State {
    match e
    case Touch(x, y, norm, pressed) => OnMove(s, x, y, norm, pressed)
    case TickerFires => Tick(s)
    case ButtonClicked(b) => Click(s, b)
    case SliderReleased(p) => SpeedReleased(s, p)
    case ConnectButton(ip, port) => ConnectClicked(s, ip, port)
    case LinkError => OnError(s)
    case Paused => Pause(s)
  }

  function Run(s: State, es: seq<UiEvent>): State
    decreases |es|
  {
    if es == [] then s else Run(Step(s, es[0]), es[1..])
  }

  // ---------------------------------------------------------------------------
  // The last direction sent tracks the log
  // ---------------------------------------------------------------------------

  /** The most recent directional command in a log, or `stop` if there is none. */
  function LastDirection(log: seq<string>): (d: string)
    ensures IsDirection(d)
    decreases |log|
  {
    if log == [] then "stop"
    else if IsDirection(log[|log| - 1]) then log[|log| - 1]
    else LastDirection(log[..|log| - 1])
  }

  lemma LastDirectionAppend(log: seq<string>, cmd: string)
    ensures LastDirection(log + [cmd]) == if IsDirection(cmd) then cmd else LastDirection(log)
  {
    assert (log + [cmd])[..|log|] == log;
  }

  /** The state invariant: the last direction sent is the latest directional command logged
      (passed to `sendCmd`, whether or not a client existed to receive it), and a pressed stick always has a ticker run posted (so a release is
      always followed by a run that stops the robot). */
  ghost predicate Inv(s: State) {
    s.lastDirSent == LastDirection(s.log) && (s.joyPressed ==> s.tickersPending > 0)
  }

  lemma InitialInv(stored: map<string, string>)
    ensures Inv(Initial(stored))
  {
  }

  lemma StepPreservesInv(s: State, e: UiEvent)
    requires Inv(s)
    ensures Inv(Step(s, e))
  {
    match e
    case Touch(x, y, norm, pressed) =>
    case TickerFires =>
      if s.tickersPending > 0 && TickTarget(s) != s.lastDirSent {
        LastDirectionAppend(s.log, TickTarget(s));
      }
    case ButtonClicked(b) =>
      LastDirectionAppend(s.log, ButtonCommand(b));
    case SliderReleased(p) =>
      LastDirectionAppend(s.log, SpeedCommand(p.GetOr(DefaultProgress)));
    case ConnectButton(ip, port) =>
    case LinkError =>
    case Paused =>
      LastDirectionAppend(s.log, "stop");
  }

  /** The invariant holds after any sequence of events from a state that satisfies it, in
      particular from the initial state. */
  lemma {:induction false} RunPreservesInv(s: State, es: seq<UiEvent>)
    requires Inv(s)
    ensures Inv(Run(s, es))
    decreases |es|
  {
    if es != [] {
      StepPreservesInv(s, es[0]);
      RunPreservesInv(Step(s, es[0]), es[1..]);
    }
  }

  /** The source's `onPause` breaks the invariant: after a directional command other than
      `stop`, it sends `stop` but keeps the old direction as the last one sent. */
  lemma PauseAsWrittenBreaksInv(s: State)
    requires Inv(s) && s.hasClient && s.lastDirSent != "stop"
    ensures !Inv(PauseAsWritten(s))
  {
    LastDirectionAppend(s.log, "stop");
  }

  /** Connect, then press the forward button. */
  lemma ForwardAfterConnect(stored: map<string, string>, ip: string, port: string)
    ensures var before := Click(Connect(Initial(stored), ip, port), ForwardButton);
            && before.hasClient && !before.joyPressed && before.tickersPending == 0
            && before.lastDirSent == "forward" && before.calls == [Endpoint(ip, port), Send("forward")]
  {
  }

  /** From a state without client or pressed stick: reconnect, push the stick fully forward,
      and let the ticker run once. The ticker sends `forward` unless `forward` is already
      recorded as the last direction. */
  lemma ReconnectAndPushForward(p: State, ip: string, port: string)
    requires !p.hasClient && !p.joyPressed && p.tickersPending == 0
    ensures var pushed := OnMove(Connect(p, ip, port), 0.0, -1.0, 1.0, true);
            && pushed.joyPressed && Desired(pushed) == "forward" && pushed.tickersPending == 1
            && Tick(pushed).calls == p.calls + [Endpoint(ip, port)]
                                     + (if p.lastDirSent == "forward" then [] else [Send("forward")])
  {
    var pushed := OnMove(Connect(p, ip, port), 0.0, -1.0, 1.0, true);
    assert pushed.lastDirSent == p.lastDirSent && pushed.calls == p.calls + [Endpoint(ip, port)];
  }

  /** A run that shows what that costs: connect, forward button, pause, reconnect, push the
      stick fully forward, ticker runs. With the source's `onPause` the last command the robot
      received is the pause's `stop` and the ticker sends nothing, because it believes
      `forward` was sent last. */
  lemma PauseAsWrittenSuppressesForward(stored: map<string, string>, ip: string, port: string)
    ensures var paused := PauseAsWritten(Click(Connect(Initial(stored), ip, port), ForwardButton));
            var pushed := OnMove(Connect(paused, ip, port), 0.0, -1.0, 1.0, true);
            && paused.calls == [Endpoint(ip, port), Send("forward"), Send("stop"), Close]
            && pushed.joyPressed && Desired(pushed) == "forward"
            && Tick(pushed).calls == paused.calls + [Endpoint(ip, port)]
  {
    ForwardAfterConnect(stored, ip, port);
    ReconnectAndPushForward(PauseAsWritten(Click(Connect(Initial(stored), ip, port), ForwardButton)), ip, port);
  }

  /** The same run with the corrected pause: the ticker sends `forward`. */
  lemma PauseThenPushSendsForward(stored: map<string, string>, ip: string, port: string)
    ensures var paused := Pause(Click(Connect(Initial(stored), ip, port), ForwardButton));
            var pushed := OnMove(Connect(paused, ip, port), 0.0, -1.0, 1.0, true);
            && paused.calls == [Endpoint(ip, port), Send("forward"), Send("stop"), Close]
            && Tick(pushed).calls == paused.calls + [Endpoint(ip, port), Send("forward")]
  {
    var before := Click(Connect(Initial(stored), ip, port), ForwardButton);
    ForwardAfterConnect(stored, ip, port);
    var paused := Pause(before);
    assert paused.lastDirSent == "stop" && !paused.hasClient && !paused.joyPressed && paused.tickersPending == 0;
    assert paused.calls == before.calls + [Send("stop"), Close];
    ReconnectAndPushForward(paused, ip, port);
    var pushed := OnMove(Connect(paused, ip, port), 0.0, -1.0, 1.0, true);
    assert Tick(pushed).calls == paused.calls + [Endpoint(ip, port)] + [Send("forward")];
    AppendTwo(paused.calls, Endpoint(ip, port), Send("forward"));
  }

  lemma AppendTwo<T>(s: seq<T>, a: T, b: T)
    ensures s + [a] + [b] == s + [a, b]
  {
  }

  /** The invariant speaks of the log, not of what reached the robot: a direction button
      pressed without a client records its direction although nothing is sent, and after a
      connect, pushing the stick the same way then sends nothing either. */
  lemma ButtonWithoutClientSuppressesForward(stored: map<string, string>, ip: string, port: string)
    ensures var clicked := Click(Initial(stored), ForwardButton);
            var pushed := OnMove(Connect(clicked, ip, port), 0.0, -1.0, 1.0, true);
            && Inv(clicked) && clicked.calls == [] && clicked.lastDirSent == "forward"
            && pushed.joyPressed && Desired(pushed) == "forward"
            && Tick(pushed).calls == [Endpoint(ip, port)]
  {
    var clicked := Click(Initial(stored), ForwardButton);
    LastDirectionAppend([], "forward");
    ReconnectAndPushForward(clicked, ip, port);
  }

  // ---------------------------------------------------------------------------
  // De-duplication and stop on release
  // ---------------------------------------------------------------------------

  /** Runs of the ticker with no other event in between. */
  function Ticks(s: State, n: nat): State
    decreases n
  {
    if n == 0 then s else Ticks(Tick(s), n - 1)
  }

  /** The last direction sent already is what the ticker would send. */
  ghost predicate Settled(s: State) {
    s.lastDirSent == TickTarget(s)
  }

  lemma SettledTickQuiet(s: State)
    requires Settled(s)
    ensures var r := Tick(s);
            r.log == s.log && r.calls == s.calls && Settled(r)
  {
  }

  lemma {:induction false} SettledTicksQuiet(s: State, n: nat)
    requires Settled(s)
    ensures Ticks(s, n).log == s.log && Ticks(s, n).calls == s.calls
    ensures Ticks(s, n).lastDirSent == s.lastDirSent
    decreases n
  {
    if n > 0 {
      SettledTickQuiet(s);
      SettledTicksQuiet(Tick(s), n - 1);
    }
  }

  /** De-duplication: however many times the ticker runs with the same sample, it sends at
      most one command, and that command is the final last direction. */
  lemma {:induction false} TicksSendAtMostOne(s: State, n: nat)
    ensures var r := Ticks(s, n);
            || (r.log == s.log && r.calls == s.calls)
            || (r.log == s.log + [r.lastDirSent]
                && r.calls == s.calls + (if s.hasClient then [Send(r.lastDirSent)] else []))
    decreases n
  {
    if n > 0 {
      var t := Tick(s);
      if s.tickersPending == 0 {
        TicksSendAtMostOne(t, n - 1);
      } else {
        assert Settled(t);
        SettledTicksQuiet(t, n - 1);
      }
    }
  }

  /** A pressed tick sends the desired direction exactly when it differs from the last one. */
  lemma PressedTickSendsOnChange(s: State)
    requires s.joyPressed && s.tickersPending > 0
    ensures var r := Tick(s);
            && r.lastDirSent == Desired(s)
            && (r.log != s.log <==> Desired(s) != s.lastDirSent)
            && r.tickersPending == s.tickersPending
  {
  }

  /** Stop on release: releasing a stick that was driving sends, at the next ticker run,
      exactly one `stop` (forwarded to the client if there is one), and the ticker stops. */
  lemma ReleaseSendsOneStop(s: State, x: real, y: real, norm: real)
    requires Inv(s) && s.joyPressed && s.lastDirSent != "stop"
    ensures var r := Tick(OnMove(s, x, y, norm, false));
            && r.log == s.log + ["stop"]
            && r.calls == s.calls + (if s.hasClient then [Send("stop")] else [])
            && r.lastDirSent == "stop" && !r.joyPressed
            && r.tickersPending == s.tickersPending - 1
  {
  }

  /** With a client, a touch inside the joystick's dead zone followed by a ticker run leaves
      `stop` as the last direction, sending it only if it was not already the last direction. */
  lemma DeadZoneTouchStops(s: State, dx: real, dy: real, dist: real, radius: real)
    requires Inv(s) && s.hasClient && radius > 0.0
    requires Joystick.Track(dx, dy, dist, radius).norm < Joystick.DeadZone
    ensures var smp := Joystick.Track(dx, dy, dist, radius);
            var r := Tick(OnMove(s, smp.x, smp.y, smp.norm, smp.pressed));
            && r.lastDirSent == "stop"
            && r.log == s.log + (if s.lastDirSent != "stop" then ["stop"] else [])
  {
    var smp := Joystick.Track(dx, dy, dist, radius);
    DeadZoneSampleStops(smp);
  }
}
