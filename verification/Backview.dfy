/**
 The camera driver: one object whose fields the message handler updates step by
 step, proved to refine the one-line views of BackviewView.
 */
module Backview {
  import opened Bytes
  import opened Options
  import opened BackviewView

  /** Enable counts of the five camera clocks, and the decoder's power. */
  datatype Clocks = Clocks(pd: int, aclk: int, hclk: int, cifIn: int, cifOut: int, power: bool)

  class Camera {
    // car status
    var status: Want
    // device
    var camOn: bool
    var adv: bool
    var gate: bool
    var poll: bool
    var clocks: Clocks
    // display
    var layer0: bool
    var layer1: bool
    var backlight: bool
    var route: Option<Route>
    // how often the overlay covered a stopped camera, and a running camera was started
    ghost var blackouts: nat
    ghost var restarts: nat

    ghost function Shows(): Screen
      reads this
    {
      Screen(layer1, poll, adv, blackouts, restarts)
    }

    ghost function View(): View
      reads this
    {
      BackviewView.View(status, Shows(), layer0, backlight, camOn, route)
    }

    /** Every clock is enabled once while the gate is set and never otherwise. */
    ghost predicate Clocked()
      reads this
    {
      var n := if gate then 1 else 0;
      clocks == Clocks(n, n, n, n, n, gate)
    }

    /** Between messages the overlay is open exactly while the camera runs. */
    ghost predicate Valid()
      reads this
    {
      Clocked() && gate == layer1 && (status.camState ==> gate)
    }

    constructor (videoMode: int, adv: bool)
      ensures Valid() && View() == Boot(videoMode, adv)
      ensures !gate && !layer1 && layer0 && backlight && !poll && !camOn && status.videoMode == videoMode % 256
      ensures !status.camState && !status.camSignal && !status.r8 && !status.r9 && !status.r11 && !status.r13
    {
      status := Want(false, false, false, false, false, false, false, LowByte(videoMode), 0, 0);
      camOn, this.adv, gate, poll := false, adv, false, false;
      clocks := Clocks(0, 0, 0, 0, 0, false);
      layer0, layer1, backlight, route := true, false, true, None;
      blackouts, restarts := 0, 0;
    }

    // ----- the routines the handler is made of -----

    method CloseOverlay()
      modifies `layer1
      ensures !layer1
    {
      layer1 := false;
    }

    method OpenOverlay()
      modifies `layer1, `blackouts
      ensures layer1 && blackouts == old(blackouts) + (if gate then 0 else 1)
    {
      layer1 := true;
      if !gate { blackouts := blackouts + 1; }
    }

    method CameraStop()
      requires Clocked()
      modifies `gate, `poll, `clocks, `blackouts
      ensures Clocked() && !gate && poll == (old(poll) && !old(gate))
      ensures blackouts == old(blackouts) + (if old(gate) && layer1 then 1 else 0)
    {
      if gate {
        gate := false;
        poll := false;
        clocks := clocks.(aclk := clocks.aclk - 1, hclk := clocks.hclk - 1,
                          cifIn := clocks.cifIn - 1, cifOut := clocks.cifOut - 1);
        clocks := clocks.(pd := clocks.pd - 1);
        clocks := clocks.(power := false);
        if layer1 { blackouts := blackouts + 1; }
      }
    }

    method CameraStart(e: Env)
      requires Clocked()
      modifies `gate, `poll, `clocks, `adv, `blackouts, `restarts
      ensures Clocked() && gate && poll && adv == e.adv
      ensures blackouts == old(blackouts) + (if old(gate) && layer1 then 1 else 0)
      ensures restarts == old(restarts) + (if old(gate) then 1 else 0)
    {
      if gate {
        CameraStop();
        restarts := restarts + 1;
      }
      clocks := clocks.(power := true);
      clocks := clocks.(pd := clocks.pd + 1, aclk := clocks.aclk + 1, hclk := clocks.hclk + 1,
                        cifIn := clocks.cifIn + 1, cifOut := clocks.cifOut + 1);
      adv := e.adv;
      gate := true;
      poll := true;
    }

    /** Choose the picture source and tell the MCU. */
    method VideoChannel(e: Env)
      modifies `route
      ensures route == Some(RouteOf(status, e.frontCfg))
    {
      var r: Route;
      if status.videoMode == 255 || status.videoMode == 0 {
        r := Source(0);
        if status.camState {
          r := if e.frontCfg && status.r9 then Front else Rear;
        } else if status.camSignal {
          r := Side;
        } else if status.r11 {
          r := if e.frontCfg && status.staView != 0 then Front else Side;
        }
      } else {
        r := Source(status.videoMode);
        if status.camState {
          r := if e.frontCfg && status.r9 then Front else Rear;
        } else {
          if !status.camSignal && status.r11 && e.frontCfg && status.staView != 0 {
            r := Front;
          } else if status.camSignal || status.r11 {
            r := Side;
          }
        }
      }
      route := Some(r);
    }

    /** Close the overlay and stop the camera. */
    method CloseAndStop()
      requires Clocked() && gate == layer1
      modifies `layer1, `gate, `poll, `clocks, `blackouts
      ensures Clocked() && !gate && !layer1 && Shows() == Hide(old(Shows()))
    {
      CloseOverlay();
      CameraStop();
    }

    /** Start the camera and open the overlay. */
    method StartAndOpen(e: Env)
      requires Clocked() && gate == layer1
      modifies `layer1, `gate, `poll, `clocks, `adv, `blackouts, `restarts
      ensures Clocked() && gate && layer1 && Shows() == Show(old(Shows()), e)
    {
      CameraStart(e);
      OpenOverlay();
    }

    /** Choose the source, then show the picture: the tail most handlers jump to. */
    method RouteAndShow(e: Env)
      requires Clocked() && gate == layer1
      modifies `layer1, `gate, `poll, `clocks, `adv, `blackouts, `restarts, `route
      ensures Clocked() && gate && layer1 && Shows() == Show(old(Shows()), e)
      ensures route == Some(RouteOf(status, e.frontCfg))
    {
      VideoChannel(e);
      StartAndOpen(e);
    }

    /** Show the picture again for whoever still wants it. */
    method ShowAgain(e: Env, again: bool)
      requires Clocked() && gate == layer1
      modifies `layer1, `gate, `poll, `clocks, `adv, `blackouts, `restarts
      ensures Clocked() && gate == layer1 == (old(gate) || again)
      ensures Shows() == if again then Show(old(Shows()), e) else old(Shows())
    {
      if again {
        StartAndOpen(e);
      }
    }

    /** Take the picture away, choose the source again, show it to whoever still wants it. */
    method Rerun(e: Env, again: bool)
      requires Clocked() && gate == layer1
      modifies `layer1, `gate, `poll, `clocks, `adv, `blackouts, `restarts, `route
      ensures Clocked() && gate == layer1 == again && Shows() == Again(old(Shows()), e, again)
      ensures route == Some(RouteOf(status, e.frontCfg))
    {
      CloseAndStop();
      VideoChannel(e);
      ShowAgain(e, again);
    }

    // ----- the messages -----

    method SourceGone()
      requires Valid() && status.r13
      modifies `status, `layer1, `gate, `poll, `clocks, `blackouts
      ensures Valid() && status == old(status).(r13 := false)
      ensures Shows() == if status.camState || Status(status) then old(Shows()) else Hide(old(Shows()))
    {
      status := status.(r13 := false);
      if !status.camState && !(status.camSignal || status.r11) {
        CloseAndStop();
      }
    }

    method DropOldSource()
      requires Valid()
      modifies `status, `layer1, `gate, `poll, `clocks, `blackouts
      ensures Valid()
      ensures View() == Settled(old(View()))
    {
      if status.videoMode != 0 && status.r13 {
        SourceGone();
      }
    }

    method OnSetMode(cmd2: int, e: Env)
      requires Valid()
      modifies this
      ensures Valid() && View() == SetMode(old(View()), cmd2, e)
    {
      DropOldSource();
      camOn := true;
      status := status.(videoMode := if Decoded(cmd2) then cmd2 else 0);
      VideoChannel(e);
    }

    method OnSource(cmd2: int, e: Env)
      requires Valid()
      modifies this
      ensures Valid() && View() == SourceOn(old(View()), cmd2, e)
    {
      if status.videoMode == cmd2 && !status.r13 {
        status := status.(r13 := true);
        if !status.camState && !(status.camSignal || status.r11) {
          StartAndOpen(e);
        }
      }
    }

    method OnStatus(cmd2: int, e: Env)
      requires Valid()
      modifies this
      ensures Valid() && View() == StatusOn(old(View()), cmd2, e)
    {
      if status.r11 {
        if !status.camState && !status.camSignal && status.staView != cmd2 {
          status := status.(staView := LowByte(cmd2));
          Rerun(e, true);
        }
      } else {
        status := status.(r11 := true, staView := LowByte(cmd2));
        if !status.camState && !status.camSignal {
          if status.r13 {
            Rerun(e, true);
          } else {
            RouteAndShow(e);
          }
        }
      }
    }

    method OnStatusGone(e: Env)
      requires Valid()
      modifies this
      ensures Valid() && View() == StatusOff(old(View()), e)
    {
      if !status.r11 { return; }
      status := status.(r11 := false);
      if status.camState || status.camSignal { return; }
      Rerun(e, status.videoMode != 0 && status.r13);
    }

    method OnSignal(e: Env)
      requires Valid()
      modifies this
      ensures Valid() && View() == SignalOn(old(View()), e)
    {
      if !status.camState && !status.camSignal {
        status := status.(camSignal := true);
        if status.r11 || status.r13 {
          CloseAndStop();
        }
        RouteAndShow(e);
        layer0 := false;
      }
    }

    method OnSignalGone(e: Env)
      requires Valid()
      modifies this
      ensures Valid() && View() == SignalOff(old(View()), e)
    {
      if status.camState || !status.camSignal { return; }
      status := status.(camSignal := status.camState);
      layer0 := true;
      Rerun(e, status.r11 || (status.videoMode != 0 && status.r13));
    }

    method OnReverse(cmd2: int, e: Env)
      requires Valid()
      modifies this
      ensures Valid() && View() == Reverse(old(View()), cmd2, e)
    {
      if status.camState && (!status.r8 || !status.r9) { return; }
      if status.camState {
        status := status.(r8 := false, r9 := false, camSignal := false, radar := LowByte(cmd2));
        Rerun(e, true);
      } else {
        status := status.(r8 := false, r9 := false, camState := true, camSignal := false,
                          r10 := status.r10 || e.callActive, radar := LowByte(cmd2));
        if status.r11 || status.r13 {
          Rerun(e, true);
        } else {
          RouteAndShow(e);
        }
        layer0 := layer0 && e.callActive && status.radar == 0;
        backlight := true;
      }
    }

    method OnWarn(e: Env)
      requires Valid()
      modifies this
      ensures Valid() && View() == Warn(old(View()), e)
    {
      if !status.camState { return; }
      if e.callActive {
        status := status.(r10 := true);
      }
      Rerun(e, true);
    }

    method OnReverseGone(e: Env)
      requires Valid()
      modifies this
      ensures Valid() && View() == ReverseOff(old(View()), e)
    {
      if status.camState {
        status := status.(r8 := false, camState := false, r10 := status.r10 && !e.callActive);
        backlight := backlight && e.powered;
        layer0 := true;
        Rerun(e, status.r11 || (status.videoMode != 0 && status.r13));
      }
    }

    method OnFront(e: Env)
      requires Valid()
      modifies this
      ensures Valid() && View() == FrontOn(old(View()), e)
    {
      if status.camState {
        if !status.r8 {
          status := status.(r9 := true, r8 := true);
          Rerun(e, true);
        }
      }
    }

    method OnSwap(e: Env)
      requires Valid()
      modifies this
      ensures Valid() && View() == Swap(old(View()), e)
    {
      if status.camState {
        backlight := false;
        status := status.(r9 := !status.r9);
        status := status.(r10 := true);
        CameraStop();
        VideoChannel(e);
        CameraStart(e);
        backlight := true;
      }
    }

    /** The message handler. */
    method CaptureWork(m: Msg)
      requires Valid()
      modifies this
      ensures Valid() && View() == Next(old(View()), m)
    {
      var cmd2, e := m.cmd2, m.env;
      match m.cmd1
      case 46 => OnSetMode(cmd2, e);
      case 47 => if camOn { VideoChannel(e); }
      case 48 => OnSource(cmd2, e);
      case 49 =>
        if status.videoMode == cmd2 {
          if status.r13 { SourceGone(); }
        }
      case 52 => OnStatus(cmd2, e);
      case 53 => OnStatusGone(e);
      case 54 => OnSignal(e);
      case 55 => OnSignalGone(e);
      case 56 => OnReverse(cmd2, e);
      case 57 => OnWarn(e);
      case 58 => if status.camState { status := status.(radar := LowByte(cmd2), r10 := true); }
      case 59 => OnReverseGone(e);
      case 60 => OnFront(e);
      case 61 =>
        if status.r13 && !status.camState && !(status.camSignal || status.r11) {
          if (status.videoMode == 5 || status.videoMode == 3 || status.videoMode == 7) && !adv {
            poll := true;
          }
        }
      case 64 => if status.camState { status := status.(radar := 0); layer0 := true; }
      case 66 => OnSwap(e);
      case _ =>
    }

    /** Any run of messages: the fields follow the views, and the gate, the clocks and
        the overlay agree at every message boundary. */
    method Serve(ms: seq<Msg>)
      requires Valid()
      modifies this
      ensures Valid() && View() == Run(old(View()), ms)
    {
      var i := 0;
      assert ms[0..] == ms;
      while i < |ms|
        invariant 0 <= i <= |ms|
        invariant Valid() && Run(View(), ms[i..]) == Run(old(View()), ms)
      {
        assert ms[i..][0] == ms[i] && ms[i..][1..] == ms[i + 1..];
        CaptureWork(ms[i]);
        i := i + 1;
      }
    }
  }

  /** From power-up, over every run.  Gate, clocks and overlay agree, reversing and the signal
      exclude each other, and the screen fails at most a source.  It shows the picture exactly
      when somebody wants it, at every message boundary, exactly when no message leaves a source
      without a video mode all there is to show; sources that name their channels are enough. */
  method PowerUp(videoMode: int, adv: bool, ms: seq<Msg>) returns (c: Camera)
    ensures fresh(c) && c.View() == Run(Boot(videoMode, adv), ms)
    ensures c.gate == c.layer1
    ensures var n := if c.gate then 1 else 0; c.clocks == Clocks(n, n, n, n, n, c.gate)
    ensures !(c.status.camState && c.status.camSignal) && (c.status.r8 ==> c.status.camState)
    ensures !c.status.camState && !c.status.camSignal ==> c.layer0
    ensures c.status.camState || c.status.camSignal || c.status.r11 ==> c.gate
    ensures c.gate ==> c.poll && Shown(c.status)
    ensures c.blackouts == LiveSwitches(Boot(videoMode, adv), ms)
    ensures c.restarts == TakeOvers(Boot(videoMode, adv), ms)
    ensures PictureThroughout(Boot(videoMode, adv), ms) <==> NoLoss(Boot(videoMode, adv), ms)
    ensures NoLoss(Boot(videoMode, adv), ms) ==> c.gate == c.poll == Shown(c.status)
    ensures Channelled(Boot(videoMode, adv), ms) ==> NoLoss(Boot(videoMode, adv), ms)
  {
    var boot := Boot(videoMode, adv);
    RunsStaySolid(boot, ms);
    GlitchesAreLiveSwitches(boot, ms);
    RunsKeepPicture(boot, ms);
    if NoLoss(boot, ms) {
      PictureAtEnd(boot, ms);
    }
    if Channelled(boot, ms) {
      ChannelledLosesNothing(boot, ms);
    }
    c := new Camera(videoMode, adv);
    c.Serve(ms);
    Agrees(c);
  }

  lemma Agrees(c: Camera)
    ensures c.View().want == c.status && c.View().ui == c.layer0
    ensures c.View().screen == Screen(c.layer1, c.poll, c.adv, c.blackouts, c.restarts)
  {
  }
}
