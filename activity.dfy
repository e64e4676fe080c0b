/** The main activity as an object whose handlers update its fields in place. Each method
    performs the same assignments as the corresponding handler and is proved to leave the
    fields as the matching function of the `Dispatch` module says, so every property proved
    there about states and event traces holds of the object. The one exception is `OnPause`,
    which also records the `stop` it sends as the last direction (the corrected pause that
    `Handle` and `HandleAll` use); `OnPauseAsWritten` performs `onPause` as the source
    writes it. */
module Activity {
  import opened Wrappers
  import Text
  import Dispatch

  class MainActivity {
    var joyPressed: bool
    var joyDx: real
    var joyDy: real
    var joyNorm: real
    var lastDirSent: string
    var lastSpeedSent: int
    var hasClient: bool
    var tickersPending: nat
    var calls: seq<Dispatch.ClientCall>
    var log: seq<string>
    var settings: map<string, string>

    function Snapshot(): Dispatch.State
      reads this
    {
      Dispatch.State(joyPressed, joyDx, joyDy, joyNorm, lastDirSent, lastSpeedSent,
                     hasClient, tickersPending, calls, log, settings)
    }

    /** The activity over the settings already in the store. */
    constructor (stored: map<string, string>)
      ensures Snapshot() == Dispatch.Initial(stored)
    {
      joyPressed, joyDx, joyDy, joyNorm := false, 0.0, 0.0, 0.0;
      lastDirSent, lastSpeedSent := "stop", -1;
      hasClient, tickersPending := false, 0;
      calls, log, settings := [], [], stored;
    }

    method SendCmd(cmd: string)
      modifies this
      ensures Snapshot() == Dispatch.SendCmd(old(Snapshot()), cmd)
    {
      if hasClient {
        calls := calls + [Dispatch.Send(cmd)];
      }
      log := log + [cmd];
    }

    /** The joystick's move listener. */
    method OnMove(x: real, y: real, norm: real, pressed: bool)
      modifies this
      ensures Snapshot() == Dispatch.OnMove(old(Snapshot()), x, y, norm, pressed)
    {
      joyDx := x;
      joyDy := -y;
      joyNorm := norm;
      if pressed && hasClient {
        if !joyPressed {
          joyPressed := true;
          tickersPending := tickersPending + 1;
        }
      } else {
        joyPressed := false;
      }
    }

    /** One run of the joystick ticker taken off the handler's queue. */
    method RunTicker()
      requires tickersPending > 0
      modifies this
      ensures Snapshot() == Dispatch.RunTicker(old(Snapshot()))
    {
      tickersPending := tickersPending - 1;
      if joyPressed {
        var desired := Dispatch.DirectionFrom(joyDx, joyDy, joyNorm);
        if desired != lastDirSent {
          SendCmd(desired);
          lastDirSent := desired;
        }
        tickersPending := tickersPending + 1;
      } else {
        if lastDirSent != "stop" {
          SendCmd("stop");
          lastDirSent := "stop";
        }
      }
    }

    /** The click listener of one of the eleven command buttons. */
    method Click(b: Dispatch.Button)
      modifies this
      ensures Snapshot() == Dispatch.Click(old(Snapshot()), b)
    {
      var cmd := Dispatch.ButtonCommand(b);
      SendCmd(cmd);
      if Dispatch.SetsDirection(b) {
        lastDirSent := cmd;
      }
    }

    /** The slider's `onStopTrackingTouch`; `progress` is `None` when the slider is absent. */
    method SpeedReleased(progress: Option<nat>)
      modifies this
      ensures Snapshot() == Dispatch.SpeedReleased(old(Snapshot()), progress)
    {
      var p := progress.GetOr(Dispatch.DefaultProgress);
      if hasClient {
        SendCmd(Dispatch.SpeedCommand(p));
        lastSpeedSent := p;
      }
    }

    method Connect(ipText: string, portText: string)
      modifies this
      ensures Snapshot() == Dispatch.Connect(old(Snapshot()), ipText, portText)
    {
      var e := Dispatch.Endpoint(ipText, portText);
      settings := Dispatch.SaveEndpoint(settings, e.host, e.port);
      calls := calls + [e];
      hasClient := true;
    }

    method Disconnect()
      modifies this
      ensures Snapshot() == Dispatch.Disconnect(old(Snapshot()))
    {
      joyPressed := false;
      if hasClient {
        calls := calls + [Dispatch.Close];
      }
      hasClient := false;
    }

    /** The connect button's click listener. */
    method ConnectClicked(ipText: string, portText: string)
      modifies this
      ensures Snapshot() == Dispatch.ConnectClicked(old(Snapshot()), ipText, portText)
    {
      if !hasClient {
        Connect(ipText, portText);
      } else {
        Disconnect();
      }
    }

    /** The listener's `onError`. */
    method OnError()
      modifies this
      ensures Snapshot() == Dispatch.OnError(old(Snapshot()))
    {
      hasClient := false;
    }

    /** `onPause`, with the `stop` it sends recorded as the last direction. */
    method OnPause()
      modifies this
      ensures Snapshot() == Dispatch.Pause(old(Snapshot()))
    {
      if hasClient {
        SendCmd("stop");
        lastDirSent := "stop";
        Disconnect();
      }
    }

    /** `onPause` as the source writes it: the `stop` is sent but not recorded. */
    method OnPauseAsWritten()
      modifies this
      ensures Snapshot() == Dispatch.PauseAsWritten(old(Snapshot()))
    {
      if hasClient {
        SendCmd("stop");
        Disconnect();
      }
    }

    /** Deliver one event to the handler it is meant for; a ticker event with no run posted
        does nothing. */
    method Handle(e: Dispatch.UiEvent)
      modifies this
      ensures Snapshot() == Dispatch.Step(old(Snapshot()), e)
    {
      match e
      case Touch(x, y, norm, pressed) => OnMove(x, y, norm, pressed);
      case TickerFires => if tickersPending > 0 { RunTicker(); }
      case ButtonClicked(b) => Click(b);
      case SliderReleased(p) => SpeedReleased(p);
      case ConnectButton(ip, port) => ConnectClicked(ip, port);
      case LinkError => OnError();
      case Paused => OnPause();
    }

    /** Deliver a sequence of events in order. The invariant of `Dispatch` holds afterwards
        whenever it held before. */
    method HandleAll(es: seq<Dispatch.UiEvent>)
      modifies this
      ensures Snapshot() == Dispatch.Run(old(Snapshot()), es)
      ensures Dispatch.Inv(old(Snapshot())) ==> Dispatch.Inv(Snapshot())
    {
      var i := 0;
      while i < |es|
        invariant 0 <= i <= |es|
        invariant Dispatch.Run(old(Snapshot()), es) == Dispatch.Run(Snapshot(), es[i..])
      {
        assert es[i..][1..] == es[i + 1..];
        Handle(es[i]);
        i := i + 1;
      }
      if Dispatch.Inv(old(Snapshot())) {
        Dispatch.RunPreservesInv(old(Snapshot()), es);
      }
    }
  }
}
