/**
 What the camera driver owes its users, one message at a time.

 A `View` is the part of the car status and of the display that the camera
 driver owns.  The camera gate, the five camera clocks and overlay layer 1 are
 folded into the single boolean `overlay`; module Backview proves that the
 driver's step-by-step code keeps them equal.
 */
module BackviewView {
  import opened Bytes
  import opened Options

  /** Where the MCU is told to take the picture from. */
  datatype Route = Front | Rear | Side | Source(mode: int)

  /** Who wants the picture: the flags of the car status. */
  datatype Want = Want(
    camState: bool,     // reversing
    camSignal: bool,    // the signal input
    r8: bool,           // a front session runs inside the reversing one
    r9: bool,           // the front camera is selected
    r10: bool,          // the application was told about reversing
    r11: bool,          // the status view
    r13: bool,          // a playing source
    videoMode: int,
    staView: int,
    radar: int
  )

  datatype Screen = Screen(
    overlay: bool,
    poll: bool,         // the signal poll is queued
    adv: bool,          // the decoder found at the last camera start
    blackouts: nat,     // times the overlay was open over a stopped camera
    restarts: nat       // times the camera was started while it ran
  )

  datatype View = View(
    want: Want,
    screen: Screen,
    ui: bool,
    backlight: bool,
    camOn: bool,
    route: Option<Route>
  )

  /** What a handler reads from the rest of the system while it runs. */
  datatype Env = Env(callActive: bool, powered: bool, adv: bool, frontCfg: bool)

  datatype Msg = Msg(cmd1: int, cmd2: int, env: Env)

  /** The state at power-up, for the video mode and decoder left by the boot code. */
  function Boot(videoMode: int, adv: bool): View {
    View(Want(false, false, false, false, false, false, false, LowByte(videoMode), 0, 0),
         Screen(false, false, adv, 0, 0), true, true, false, None)
  }

  /** Somebody wants the picture. */
  predicate Shown(w: Want) { w.camState || w.camSignal || w.r11 || w.r13 }

  /** The status word test of the driver: the signal input or the status view. */
  predicate Status(w: Want) { w.camSignal || w.r11 }

  /** Somebody still wants the picture when neither reversing nor the signal input does. */
  predicate Wanted(w: Want) { w.r11 || (w.videoMode != 0 && w.r13) }

  predicate Decoded(mode: int) { mode == 2 || mode == 3 || mode == 5 || mode == 7 || mode == 255 }

  function RouteOf(w: Want, frontCfg: bool): Route {
    if w.camState then (if frontCfg && w.r9 then Front else Rear)
    else if w.camSignal then Side
    else if w.r11 then (if frontCfg && w.staView != 0 then Front else Side)
    else Source(if w.videoMode == 255 then 0 else w.videoMode)
  }

  function Hide(s: Screen): Screen { if s.overlay then s.(overlay := false, poll := false) else s }

  function Show(s: Screen, e: Env): Screen {
    Screen(true, true, e.adv,
           s.blackouts + (if s.overlay then 1 else 0), s.restarts + (if s.overlay then 1 else 0))
  }

  /** The view when `w` wants the picture, the route has been chosen again and the screen is `s`. */
  function Become(v: View, w: Want, s: Screen, e: Env): View {
    v.(want := w, screen := s, route := Some(RouteOf(w, e.frontCfg)))
  }

  /** Hide the picture, choose the route again, show it when somebody still wants it. */
  function Reroute(v: View, w: Want, e: Env, again: bool): View {
    Become(v, w, Again(v.screen, e, again), e)
  }

  function Again(s: Screen, e: Env, again: bool): Screen {
    if again then Show(Hide(s), e) else Hide(s)
  }

  /** The effect of one message. */
  function Next(v: View, m: Msg): View {
    match m.cmd1
    case 46 => SetMode(v, m.cmd2, m.env)
    case 47 => if v.camOn then Become(v, v.want, v.screen, m.env) else v
    case 48 => SourceOn(v, m.cmd2, m.env)
    case 49 => if v.want.videoMode == m.cmd2 && v.want.r13 then Dropped(v) else v
    case 52 => StatusOn(v, m.cmd2, m.env)
    case 53 => StatusOff(v, m.env)
    case 54 => SignalOn(v, m.env)
    case 55 => SignalOff(v, m.env)
    case 56 => Reverse(v, m.cmd2, m.env)
    case 57 => Warn(v, m.env)
    case 58 => RadarOn(v, m.cmd2)
    case 59 => ReverseOff(v, m.env)
    case 60 => FrontOn(v, m.env)
    case 61 => if Repolls(v) then v.(screen := v.screen.(poll := true)) else v
    case 64 => RadarOff(v)
    case 66 => Swap(v, m.env)
    case _ => v
  }

  /** A source of another video mode takes over; the old one no longer wants the picture. */
  function SetMode(v: View, cmd2: int, e: Env): View {
    Remode(Settled(v), if Decoded(cmd2) then cmd2 else 0, e)
  }

  function Settled(v: View): View {
    if v.want.videoMode != 0 && v.want.r13 then Dropped(v) else v
  }

  function Remode(v: View, mode: int, e: Env): View {
    var w := v.want.(videoMode := mode);
    View(w, v.screen, v.ui, v.backlight, true, Some(RouteOf(w, e.frontCfg)))
  }

  function SourceOn(v: View, cmd2: int, e: Env): View {
    if v.want.videoMode != cmd2 || v.want.r13 then v
    else
      v.(want := v.want.(r13 := true),
         screen := if v.want.camState || Status(v.want) then v.screen else Show(v.screen, e))
  }

  function Dropped(v: View): View {
    v.(want := v.want.(r13 := false),
       screen := if v.want.camState || Status(v.want) then v.screen else Hide(v.screen))
  }

  predicate Repolls(v: View) {
    && v.want.r13 && !v.want.camState && !Status(v.want) && !v.screen.adv
    && (v.want.videoMode == 3 || v.want.videoMode == 5 || v.want.videoMode == 7)
  }

  function StatusOn(v: View, cmd2: int, e: Env): View {
    var w := v.want.(r11 := true, staView := LowByte(cmd2));
    if v.want.camState || v.want.camSignal then (if v.want.r11 then v else v.(want := w))
    else if v.want.r11 && v.want.staView == cmd2 then v
    else if v.want.r11 || v.want.r13 then Reroute(v, w, e, true)
    else Become(v, w, Show(v.screen, e), e)
  }

  function StatusOff(v: View, e: Env): View {
    var w := v.want.(r11 := false);
    if !v.want.r11 then v
    else if v.want.camState || v.want.camSignal then v.(want := w)
    else Reroute(v, w, e, Wanted(w))
  }

  function SignalOn(v: View, e: Env): View {
    var w := v.want.(camSignal := true);
    if v.want.camState || v.want.camSignal then v
    else View(w, ShowOver(v, e), false, v.backlight, v.camOn, Some(RouteOf(w, e.frontCfg)))
  }

  function SignalOff(v: View, e: Env): View {
    var w := v.want.(camSignal := false);
    if v.want.camState || !v.want.camSignal then v
    else View(w, Again(v.screen, e, Wanted(w)), true, v.backlight, v.camOn, Some(RouteOf(w, e.frontCfg)))
  }

  /** Start a reversing session, or go back to the rear camera inside one. */
  function Reverse(v: View, cmd2: int, e: Env): View {
    if !v.want.camState then ReverseStart(v, cmd2, e)
    else if v.want.r8 && v.want.r9 then
      Reroute(v, v.want.(camSignal := false, r8 := false, r9 := false, radar := LowByte(cmd2)), e, true)
    else v
  }

  function ReverseStart(v: View, cmd2: int, e: Env): View {
    var w := v.want.(camState := true, camSignal := false, r8 := false, r9 := false,
                     r10 := v.want.r10 || e.callActive, radar := LowByte(cmd2));
    // the user interface gives way, unless an application draws the picture without radar
    View(w, ShowOver(v, e), v.ui && e.callActive && w.radar == 0, true, v.camOn, Some(RouteOf(w, e.frontCfg)))
  }

  /** Hide the status view or the source before showing something else. */
  function ShowOver(v: View, e: Env): Screen {
    if v.want.r11 || v.want.r13 then Show(Hide(v.screen), e) else Show(v.screen, e)
  }

  function ReverseOff(v: View, e: Env): View {
    var w := v.want.(camState := false, r8 := false, r10 := v.want.r10 && !e.callActive);
    if !v.want.camState then v
    else View(w, Again(v.screen, e, Wanted(w)), true, v.backlight && e.powered, v.camOn, Some(RouteOf(w, e.frontCfg)))
  }

  function Warn(v: View, e: Env): View {
    if !v.want.camState then v
    else Reroute(v, v.want.(r10 := v.want.r10 || e.callActive), e, true)
  }

  function RadarOn(v: View, cmd2: int): View {
    if !v.want.camState then v else v.(want := v.want.(radar := LowByte(cmd2), r10 := true))
  }

  function RadarOff(v: View): View {
    if !v.want.camState then v else v.(want := v.want.(radar := 0), ui := true)
  }

  /** The front camera replaces the rear one inside a reversing session. */
  function FrontOn(v: View, e: Env): View {
    if !v.want.camState || v.want.r8 then v
    else Reroute(v, v.want.(r8 := true, r9 := true), e, true)
  }

  /** Front and rear camera change places without hiding the overlay. */
  function Swap(v: View, e: Env): View {
    if !v.want.camState then v
    else
      var w := v.want.(r9 := !v.want.r9, r10 := true);
      View(w, Swapped(v.screen, e), v.ui, true, v.camOn, Some(RouteOf(w, e.frontCfg)))
  }

  /** The camera is stopped and started again under the open overlay. */
  function Swapped(s: Screen, e: Env): Screen {
    s.(poll := true, adv := e.adv, blackouts := s.blackouts + (if s.overlay then 1 else 0))
  }

  // ----- what holds between messages -----

  /** What the flags must satisfy. */
  predicate Exclusive(w: Want) { !(w.camState && w.camSignal) && (w.r8 ==> w.camState) }

  /** A source that wants the picture has a video mode. */
  predicate HasChannel(w: Want) { w.r13 ==> w.videoMode != 0 }

  /** The screen shows the picture exactly when somebody wants it. */
  predicate Faithful(s: Screen, w: Want) { s.overlay == Shown(w) && s.poll == s.overlay }

  /** What is left of that when a source has lost its picture: the screen shows nothing that
      nobody wants, and fails nobody but a source. */
  predicate Firm(s: Screen, w: Want) {
    && (w.camState || w.camSignal || w.r11 ==> s.overlay)
    && (s.overlay ==> Shown(w) && s.poll)
  }

  predicate Solid(v: View) { Exclusive(v.want) && Firm(v.screen, v.want) }

  predicate Picture(v: View) { Exclusive(v.want) && Faithful(v.screen, v.want) }

  /** The user interface is there unless the picture replaces it. */
  predicate Interface(v: View) { !v.want.camState && !v.want.camSignal ==> v.ui }

  predicate Routed(v: View, frontCfg: bool) { v.route.Some? ==> v.route.value == RouteOf(v.want, frontCfg) }

  predicate Inv(v: View, frontCfg: bool) {
    Picture(v) && HasChannel(v.want) && Interface(v) && Routed(v, frontCfg)
  }

  /** The one message after which a source can be without a video mode. */
  predicate NoChannel(v: View, m: Msg) { m.cmd1 == 48 && m.cmd2 == 0 && v.want.videoMode == 0 }

  /** A source without a video mode is all that is left to show. */
  predicate LosesPicture(v: View, m: Msg) {
    && v.want.r13 && v.want.videoMode == 0
    && (|| (m.cmd1 == 53 && v.want.r11 && !v.want.camState && !v.want.camSignal)
        || (m.cmd1 == 55 && v.want.camSignal && !v.want.camState && !v.want.r11)
        || (m.cmd1 == 59 && v.want.camState && !v.want.r11))
  }

  /** Reversing takes the screen over from the bare signal input. */
  predicate TakesOverSignal(v: View, m: Msg) {
    m.cmd1 == 56 && !v.want.camState && v.want.camSignal && !v.want.r11 && !v.want.r13
  }

  /** The messages that restart the camera underneath an open overlay. */
  predicate SwitchesLive(v: View, m: Msg) {
    (m.cmd1 == 66 && v.want.camState) || TakesOverSignal(v, m)
  }

  /** What message m may do to v by changing it into w. */
  predicate Steps(v: View, w: View, m: Msg) {
    && (Solid(v) ==>
          && Solid(w)
          && w.screen.blackouts == v.screen.blackouts + (if SwitchesLive(v, m) then 1 else 0)
          && w.screen.restarts == v.screen.restarts + (if TakesOverSignal(v, m) then 1 else 0))
    && (Picture(v) ==> Exclusive(w.want) && (Faithful(w.screen, w.want) <==> !LosesPicture(v, m)))
    && (HasChannel(v.want) ==> (HasChannel(w.want) <==> !NoChannel(v, m)))
    && (Interface(v) ==> Interface(w))
    && (Routed(v, m.env.frontCfg) ==> Routed(w, m.env.frontCfg))
  }

  /** Every message keeps the screen firm, covers a stopped camera exactly when it switches live,
      restarts a running one exactly when it takes over the signal, and keeps a picture exactly
      when it does not leave a source without a video mode all there is to show. */
  lemma NextSteps(v: View, m: Msg)
    ensures Steps(v, Next(v, m), m)
  {
    match m.cmd1
    case 46 => SetModeSteps(v, m);
    case 47 =>
    case 48 => SourceOnSteps(v, m);
    case 49 => if v.want.r13 { DroppedSteps(v, m); }
    case 52 => StatusOnSteps(v, m);
    case 53 => StatusOffSteps(v, m);
    case 54 => SignalOnSteps(v, m);
    case 55 => SignalOffSteps(v, m);
    case 56 => ReverseSteps(v, m);
    case 57 => WarnSteps(v, m);
    case 58 => RadarOnSteps(v, m);
    case 59 => ReverseOffSteps(v, m);
    case 60 => FrontOnSteps(v, m);
    case 61 =>
    case 64 => RadarOffSteps(v, m);
    case 66 => SwapSteps(v, m);
    case _ =>
  }

  lemma DroppedSteps(v: View, m: Msg)
    requires v.want.r13 && (m.cmd1 == 46 || m.cmd1 == 49)
    ensures Steps(v, Dropped(v), m)
  {
  }

  lemma SetModeSteps(v: View, m: Msg)
    requires m.cmd1 == 46
    ensures Steps(v, SetMode(v, m.cmd2, m.env), m)
  {
    if v.want.r13 { DroppedSteps(v, m); }
  }

  lemma SourceOnSteps(v: View, m: Msg)
    requires m.cmd1 == 48
    ensures Steps(v, SourceOn(v, m.cmd2, m.env), m)
  {
  }

  lemma StatusOnSteps(v: View, m: Msg)
    requires m.cmd1 == 52
    ensures Steps(v, StatusOn(v, m.cmd2, m.env), m)
  {
  }

  lemma StatusOffSteps(v: View, m: Msg)
    requires m.cmd1 == 53
    ensures Steps(v, StatusOff(v, m.env), m)
  {
  }

  lemma SignalOnSteps(v: View, m: Msg)
    requires m.cmd1 == 54
    ensures Steps(v, SignalOn(v, m.env), m)
  {
  }

  lemma SignalOffSteps(v: View, m: Msg)
    requires m.cmd1 == 55
    ensures Steps(v, SignalOff(v, m.env), m)
  {
  }

  lemma ReverseSteps(v: View, m: Msg)
    requires m.cmd1 == 56
    ensures Steps(v, Reverse(v, m.cmd2, m.env), m)
  {
  }

  lemma WarnSteps(v: View, m: Msg)
    requires m.cmd1 == 57
    ensures Steps(v, Warn(v, m.env), m)
  {
  }

  lemma RadarOnSteps(v: View, m: Msg)
    requires m.cmd1 == 58
    ensures Steps(v, RadarOn(v, m.cmd2), m)
  {
  }

  lemma ReverseOffSteps(v: View, m: Msg)
    requires m.cmd1 == 59
    ensures Steps(v, ReverseOff(v, m.env), m)
  {
  }

  lemma FrontOnSteps(v: View, m: Msg)
    requires m.cmd1 == 60
    ensures Steps(v, FrontOn(v, m.env), m)
  {
  }

  lemma RadarOffSteps(v: View, m: Msg)
    requires m.cmd1 == 64
    ensures Steps(v, RadarOff(v), m)
  {
  }

  lemma SwapSteps(v: View, m: Msg)
    requires m.cmd1 == 66
    ensures Steps(v, Swap(v, m.env), m)
  {
  }

  /** A message keeps the invariant exactly when it is not a source without a channel. */
  lemma NextKeepsInv(v: View, m: Msg)
    requires Inv(v, m.env.frontCfg)
    ensures Inv(Next(v, m), m.env.frontCfg) <==> !NoChannel(v, m)
  {
    NextSteps(v, m);
  }

  // ----- runs -----

  function Run(v: View, ms: seq<Msg>): View
    decreases |ms|
  {
    if ms == [] then v else Run(Next(v, ms[0]), ms[1..])
  }

  predicate PictureThroughout(v: View, ms: seq<Msg>)
    decreases |ms|
  {
    Picture(v) && (ms != [] ==> PictureThroughout(Next(v, ms[0]), ms[1..]))
  }

  predicate NoLoss(v: View, ms: seq<Msg>)
    decreases |ms|
  {
    ms != [] ==> !LosesPicture(v, ms[0]) && NoLoss(Next(v, ms[0]), ms[1..])
  }

  predicate InvThroughout(v: View, ms: seq<Msg>, frontCfg: bool)
    decreases |ms|
  {
    Inv(v, frontCfg) && (ms != [] ==> InvThroughout(Next(v, ms[0]), ms[1..], frontCfg))
  }

  predicate Channelled(v: View, ms: seq<Msg>)
    decreases |ms|
  {
    ms != [] ==> !NoChannel(v, ms[0]) && Channelled(Next(v, ms[0]), ms[1..])
  }

  /** The configuration block does not change during a run. */
  predicate SameConfig(ms: seq<Msg>, frontCfg: bool) {
    forall i :: 0 <= i < |ms| ==> ms[i].env.frontCfg == frontCfg
  }

  /** Over a run the picture is shown exactly when somebody wants it, at every message boundary,
      exactly when no message leaves a source without a video mode all there is to show. */
  lemma {:induction false} RunsKeepPicture(v: View, ms: seq<Msg>)
    requires Picture(v)
    ensures PictureThroughout(v, ms) <==> NoLoss(v, ms)
    decreases |ms|
  {
    if ms != [] {
      NextSteps(v, ms[0]);
      if !LosesPicture(v, ms[0]) {
        RunsKeepPicture(Next(v, ms[0]), ms[1..]);
      }
    }
  }

  lemma {:induction false} PictureAtEnd(v: View, ms: seq<Msg>)
    requires PictureThroughout(v, ms)
    ensures Picture(Run(v, ms))
    decreases |ms|
  {
    if ms != [] {
      PictureAtEnd(Next(v, ms[0]), ms[1..]);
    }
  }

  /** Sources that name their channels are enough. */
  lemma {:induction false} ChannelledLosesNothing(v: View, ms: seq<Msg>)
    requires HasChannel(v.want) && Channelled(v, ms)
    ensures NoLoss(v, ms)
    decreases |ms|
  {
    if ms != [] {
      NextSteps(v, ms[0]);
      ChannelledLosesNothing(Next(v, ms[0]), ms[1..]);
    }
  }

  /** Over every run whatever: the screen stays firm and the user interface returns. */
  lemma {:induction false} RunsStaySolid(v: View, ms: seq<Msg>)
    requires Solid(v) && Interface(v)
    ensures Solid(Run(v, ms)) && Interface(Run(v, ms))
    decreases |ms|
  {
    if ms != [] {
      NextSteps(v, ms[0]);
      RunsStaySolid(Next(v, ms[0]), ms[1..]);
    }
  }

  /** A run keeps the whole invariant at every message boundary exactly when every source
      request that finds no video mode names a channel. */
  lemma {:induction false} RunsKeepInv(v: View, ms: seq<Msg>, frontCfg: bool)
    requires Inv(v, frontCfg) && SameConfig(ms, frontCfg)
    ensures InvThroughout(v, ms, frontCfg) <==> Channelled(v, ms)
    decreases |ms|
  {
    if ms != [] {
      NextKeepsInv(v, ms[0]);
      if NoChannel(v, ms[0]) {
        assert !Inv(Next(v, ms[0]), frontCfg);
      } else {
        RunsKeepInv(Next(v, ms[0]), ms[1..], frontCfg);
      }
    }
  }

  lemma {:induction false} RunEndsInInv(v: View, ms: seq<Msg>, frontCfg: bool)
    requires InvThroughout(v, ms, frontCfg)
    ensures Inv(Run(v, ms), frontCfg)
    decreases |ms|
  {
    if ms != [] {
      RunEndsInInv(Next(v, ms[0]), ms[1..], frontCfg);
    }
  }

  /** From power-up, whatever messages arrive. */
  lemma BootRunsKeepInv(videoMode: int, adv: bool, ms: seq<Msg>, frontCfg: bool)
    requires SameConfig(ms, frontCfg) && Channelled(Boot(videoMode, adv), ms)
    ensures InvThroughout(Boot(videoMode, adv), ms, frontCfg)
    ensures Inv(Run(Boot(videoMode, adv), ms), frontCfg)
  {
    RunsKeepInv(Boot(videoMode, adv), ms, frontCfg);
    RunEndsInInv(Boot(videoMode, adv), ms, frontCfg);
  }

  /** Why a channel is needed: after a source without one, a passing signal leaves
      the source wanting a picture that is not shown. */
  lemma ZeroChannelLosesThePicture(e: Env)
    ensures var v := Run(Boot(0, false), [Msg(48, 0, e), Msg(54, 0, e), Msg(55, 0, e)]);
            v.want.r13 && !v.screen.overlay
  {
    var v0 := Boot(0, false);
    var v1 := Next(v0, Msg(48, 0, e));
    var v2 := Next(v1, Msg(54, 0, e));
    var v3 := Next(v2, Msg(55, 0, e));
    assert Run(v3, []) == v3;
    assert Run(v2, [Msg(55, 0, e)]) == v3;
    assert [Msg(54, 0, e), Msg(55, 0, e)][1..] == [Msg(55, 0, e)];
    assert Run(v1, [Msg(54, 0, e), Msg(55, 0, e)]) == v3;
    assert [Msg(48, 0, e), Msg(54, 0, e), Msg(55, 0, e)][1..] == [Msg(54, 0, e), Msg(55, 0, e)];
  }

  // ----- glitches -----

  function LiveSwitches(v: View, ms: seq<Msg>): nat
    decreases |ms|
  {
    if ms == [] then 0
    else LiveSwitches(Next(v, ms[0]), ms[1..]) + (if SwitchesLive(v, ms[0]) then 1 else 0)
  }

  function TakeOvers(v: View, ms: seq<Msg>): nat
    decreases |ms|
  {
    if ms == [] then 0
    else TakeOvers(Next(v, ms[0]), ms[1..]) + (if TakesOverSignal(v, ms[0]) then 1 else 0)
  }

  /** Over every run the overlay covers a stopped camera once for each live switch and never
      otherwise; the camera is started while running only by a take-over. */
  lemma {:induction false} GlitchesAreLiveSwitches(v: View, ms: seq<Msg>)
    requires Solid(v)
    ensures Run(v, ms).screen.blackouts == v.screen.blackouts + LiveSwitches(v, ms)
    ensures Run(v, ms).screen.restarts == v.screen.restarts + TakeOvers(v, ms)
    decreases |ms|
  {
    if ms != [] {
      NextSteps(v, ms[0]);
      GlitchesAreLiveSwitches(Next(v, ms[0]), ms[1..]);
    }
  }

  // ----- sessions are undone -----

  /** A signal that comes and goes leaves every other wish, the screen and its glitch counts
      as they were, whatever else has changed meanwhile. */
  lemma SignalRoundTrip(v: View, e: Env, x: int, f: Env, y: int)
    requires Inv(v, e.frontCfg) && !v.want.camState && !v.want.camSignal
    ensures var w := Next(Next(v, Msg(54, x, e)), Msg(55, y, f));
            w == v.(route := Some(RouteOf(v.want, f.frontCfg)),
                    screen := v.screen.(adv := if v.screen.overlay then f.adv else e.adv))
  {
    var a := Next(v, Msg(54, x, e));
    assert a.want == v.want.(camSignal := true) && a.screen.overlay && !a.ui;
    var w := Next(a, Msg(55, y, f));
    assert w.want == v.want;
    assert w.screen == v.screen.(adv := if v.screen.overlay then f.adv else e.adv);
  }

  /** A reversing session gives the screen back to whoever had it, except the signal input. */
  lemma ReverseRoundTrip(v: View, e: Env, x: int, f: Env, y: int)
    requires Inv(v, e.frontCfg) && !v.want.camState
    ensures var w := Next(Next(v, Msg(56, x, e)), Msg(59, y, f));
            && w.screen.overlay == (v.want.r11 || v.want.r13) && w.ui
            && w.want == v.want.(camSignal := false, r8 := false, r9 := false, radar := LowByte(x), r10 := w.want.r10)
            && w.route == Some(RouteOf(w.want, f.frontCfg))
            && w.backlight == f.powered
  {
    var a := Next(v, Msg(56, x, e));
    assert a.want.camState && a.want.r11 == v.want.r11 && a.want.r13 == v.want.r13;
    var w := Next(a, Msg(59, y, f));
    assert w == ReverseOff(a, f);
  }

  // ----- the status word -----

  /** Bytes 36..39 of the car status as the little-endian word the driver loads. */
  function StatusWord(b36: bv8, b37: bv8, b38: bv8, b39: bv8): bv32 {
    b36 as bv32 | (b37 as bv32 << 8) | (b38 as bv32 << 16) | (b39 as bv32 << 24)
  }

  /** The driver's mask looks at cam_signal (byte 37) and reserved_11 (byte 39) only. */
  lemma MaskSelectsSignalAndView(b36: bv8, b37: bv8, b38: bv8, b39: bv8)
    ensures StatusWord(b36, b37, b38, b39) & 0xFF00_FF00 != 0 <==> b37 != 0 || b39 != 0
  {
    assert StatusWord(b36, b37, b38, b39) & 0xFF00_FF00 == (b37 as bv32 << 8) | (b39 as bv32 << 24);
    assert (b37 as bv32 << 8) & 0xFF00 == (b37 as bv32 << 8);
  }
}
