/**
 The messages read by column: for every flag the messages that change it, for the picture the
 camera that is shown, and over runs which message had the last word.
 */
module BackviewFacts {
  import opened Bytes
  import opened Options
  import opened BackviewView

  // ----- one message -----

  /** Message 56 starts a reversing session, or ends the front session inside one. */
  predicate TakesRear(v: View, m: Msg) {
    m.cmd1 == 56 && (!v.want.camState || (v.want.r8 && v.want.r9))
  }

  predicate Free(v: View) { !v.want.camState && !v.want.camSignal }

  /** Who wants the picture after a message. */
  ghost predicate WishesAfter(v: View, w: View, m: Msg) {
    && w.want.camState == (m.cmd1 == 56 || (v.want.camState && m.cmd1 != 59))
    && w.want.camSignal == ((m.cmd1 == 54 && !v.want.camState)
                            || (v.want.camSignal && !(m.cmd1 == 55 && !v.want.camState) && !TakesRear(v, m)))
    && w.want.r11 == (m.cmd1 == 52 || (v.want.r11 && m.cmd1 != 53))
    && w.want.r13 == ((m.cmd1 == 48 && v.want.videoMode == m.cmd2)
                      || (v.want.r13 && !(m.cmd1 == 46 && v.want.videoMode != 0)
                          && !(m.cmd1 == 49 && v.want.videoMode == m.cmd2)))
    && w.want.videoMode == (if m.cmd1 != 46 then v.want.videoMode
                            else if m.cmd2 == 2 || m.cmd2 == 3 || m.cmd2 == 5 || m.cmd2 == 7 || m.cmd2 == 255
                            then m.cmd2 else 0)
    && w.want.staView == (if m.cmd1 == 52 && (v.want.r11 ==> Free(v) && v.want.staView != m.cmd2)
                          then LowByte(m.cmd2) else v.want.staView)
  }

  /** The flags of the reversing session after a message. */
  ghost predicate SessionAfter(v: View, w: View, m: Msg) {
    && w.want.r8 == ((m.cmd1 == 60 && v.want.camState)
                     || (v.want.r8 && !(m.cmd1 == 59 && v.want.camState) && !TakesRear(v, m)))
    && w.want.r9 == (if m.cmd1 == 60 && v.want.camState && !v.want.r8 then true
                     else if m.cmd1 == 66 && v.want.camState then !v.want.r9
                     else v.want.r9 && !TakesRear(v, m))
    && w.want.r10 == (if (m.cmd1 == 58 || m.cmd1 == 66) && v.want.camState then true
                      else if (m.cmd1 == 56 && !v.want.camState) || (m.cmd1 == 57 && v.want.camState)
                      then v.want.r10 || m.env.callActive
                      else v.want.r10 && !(m.cmd1 == 59 && v.want.camState && m.env.callActive))
    && w.want.radar == (if TakesRear(v, m) || (m.cmd1 == 58 && v.want.camState) then LowByte(m.cmd2)
                        else if m.cmd1 == 64 && v.want.camState then 0 else v.want.radar)
  }

  /** Layer 0, the backlight and the camera switch after a message. */
  ghost predicate DisplayAfter(v: View, w: View, m: Msg) {
    && w.ui == (if m.cmd1 == 54 && Free(v) then false
                else if m.cmd1 == 56 && !v.want.camState then v.ui && m.env.callActive && LowByte(m.cmd2) == 0
                else v.ui || (m.cmd1 == 55 && !v.want.camState && v.want.camSignal)
                     || ((m.cmd1 == 59 || m.cmd1 == 64) && v.want.camState))
    && w.backlight == (if (m.cmd1 == 56 && !v.want.camState) || (m.cmd1 == 66 && v.want.camState) then true
                       else v.backlight && !(m.cmd1 == 59 && v.want.camState && !m.env.powered))
    && w.camOn == (v.camOn || m.cmd1 == 46)
  }

  /** The messages that start the camera, and so look for its decoder. */
  predicate StartsCamera(v: View, m: Msg) {
    var source := v.want.videoMode != 0 && v.want.r13;
    || (m.cmd1 == 48 && v.want.videoMode == m.cmd2 && !v.want.r13 && Free(v) && !v.want.r11)
    || (m.cmd1 == 52 && Free(v) && (v.want.r11 ==> v.want.staView != m.cmd2))
    || (m.cmd1 == 53 && Free(v) && v.want.r11 && source)
    || (m.cmd1 == 54 && Free(v))
    || (m.cmd1 == 55 && !v.want.camState && v.want.camSignal && (v.want.r11 || source))
    || TakesRear(v, m)
    || ((m.cmd1 == 57 || m.cmd1 == 66) && v.want.camState)
    || (m.cmd1 == 59 && v.want.camState && (v.want.r11 || source))
    || (m.cmd1 == 60 && v.want.camState && !v.want.r8)
  }

  /** The decoder found when the camera was last started. */
  ghost predicate DecoderAfter(v: View, w: View, m: Msg) {
    w.screen.adv == if StartsCamera(v, m) then m.env.adv else v.screen.adv
  }

  ghost predicate After(v: View, w: View, m: Msg) {
    WishesAfter(v, w, m) && SessionAfter(v, w, m) && DisplayAfter(v, w, m) && DecoderAfter(v, w, m)
  }

  lemma ModeFlags(v: View, m: Msg)
    requires Exclusive(v.want) && m.cmd1 == 46
    ensures After(v, SetMode(v, m.cmd2, m.env), m)
  {
    var w := SetMode(v, m.cmd2, m.env);
    ModeOnly(v, m.cmd2, m.env);
    assert WishesAfter(v, w, m);
    assert SessionAfter(v, w, m);
  }

  lemma ModeOnly(v: View, cmd2: int, e: Env)
    ensures var w := SetMode(v, cmd2, e);
            && w.want == v.want.(r13 := v.want.r13 && v.want.videoMode == 0,
                                 videoMode := if Decoded(cmd2) then cmd2 else 0)
            && w.ui == v.ui && w.backlight == v.backlight && w.camOn
  {
  }

  lemma SourceFlags(v: View, m: Msg)
    requires Exclusive(v.want) && m.cmd1 == 48
    ensures After(v, SourceOn(v, m.cmd2, m.env), m)
  {
    var w := SourceOn(v, m.cmd2, m.env);
    SourceOnly(v, m.cmd2, m.env);
    assert WishesAfter(v, w, m);
    assert SessionAfter(v, w, m);
    assert DisplayAfter(v, w, m);
  }

  lemma SourceOnly(v: View, cmd2: int, e: Env)
    ensures var w, on := SourceOn(v, cmd2, e), v.want.videoMode == cmd2 && !v.want.r13;
            && w.want == v.want.(r13 := v.want.r13 || on)
            && w.ui == v.ui && w.backlight == v.backlight && w.camOn == v.camOn
            && w.screen.adv == if on && Free(v) && !v.want.r11 then e.adv else v.screen.adv
  {
  }

  lemma StatusFlags(v: View, m: Msg)
    requires Exclusive(v.want) && m.cmd1 == 52
    ensures After(v, StatusOn(v, m.cmd2, m.env), m)
  {
  }

  lemma StatusOffFlags(v: View, m: Msg)
    requires Exclusive(v.want) && m.cmd1 == 53
    ensures After(v, StatusOff(v, m.env), m)
  {
  }

  lemma SignalFlags(v: View, m: Msg)
    requires Exclusive(v.want) && m.cmd1 == 54
    ensures After(v, SignalOn(v, m.env), m)
  {
  }

  lemma SignalOffFlags(v: View, m: Msg)
    requires Exclusive(v.want) && m.cmd1 == 55
    ensures After(v, SignalOff(v, m.env), m)
  {
  }

  lemma ReverseFlags(v: View, m: Msg)
    requires Exclusive(v.want) && m.cmd1 == 56
    ensures After(v, Reverse(v, m.cmd2, m.env), m)
  {
  }

  lemma WarnFlags(v: View, m: Msg)
    requires Exclusive(v.want) && m.cmd1 == 57
    ensures After(v, Warn(v, m.env), m)
  {
  }

  lemma RadarFlags(v: View, m: Msg)
    requires Exclusive(v.want) && m.cmd1 == 58
    ensures After(v, RadarOn(v, m.cmd2), m)
  {
  }

  lemma ReverseOffFlags(v: View, m: Msg)
    requires Exclusive(v.want) && m.cmd1 == 59
    ensures After(v, ReverseOff(v, m.env), m)
  {
  }

  lemma FrontFlags(v: View, m: Msg)
    requires Exclusive(v.want) && m.cmd1 == 60
    ensures After(v, FrontOn(v, m.env), m)
  {
  }

  lemma RadarOffFlags(v: View, m: Msg)
    requires Exclusive(v.want) && m.cmd1 == 64
    ensures After(v, RadarOff(v), m)
  {
  }

  lemma SwapFlags(v: View, m: Msg)
    requires Exclusive(v.want) && m.cmd1 == 66
    ensures After(v, Swap(v, m.env), m)
  {
  }

  lemma GoneFlags(v: View, m: Msg)
    requires Exclusive(v.want) && m.cmd1 == 49
    ensures After(v, if v.want.videoMode == m.cmd2 && v.want.r13 then Dropped(v) else v, m)
  {
  }

  /** Every flag is changed by the messages named for it and by no other. */
  lemma FlagsAfter(v: View, m: Msg)
    requires Exclusive(v.want)
    ensures WishesAfter(v, Next(v, m), m)
    ensures SessionAfter(v, Next(v, m), m)
    ensures DisplayAfter(v, Next(v, m), m)
    ensures DecoderAfter(v, Next(v, m), m)
  {
    match m.cmd1
    case 46 => ModeFlags(v, m);
    case 48 => SourceFlags(v, m);
    case 49 => GoneFlags(v, m);
    case 52 => StatusFlags(v, m);
    case 53 => StatusOffFlags(v, m);
    case 54 => SignalFlags(v, m);
    case 55 => SignalOffFlags(v, m);
    case 56 => ReverseFlags(v, m);
    case 57 => WarnFlags(v, m);
    case 58 => RadarFlags(v, m);
    case 59 => ReverseOffFlags(v, m);
    case 60 => FrontFlags(v, m);
    case 64 => RadarOffFlags(v, m);
    case 66 => SwapFlags(v, m);
    case _ =>
  }

  /** Which camera each message brings up. */
  ghost predicate RouteAfter(v: View, w: View, m: Msg) {
    var cfg := m.env.frontCfg;
    // reversing starts with the rear camera, and goes back to it
    && (TakesRear(v, m) ==> w.route == Some(Rear))
    // the front camera, where there is one
    && (m.cmd1 == 60 && v.want.camState && !v.want.r8 ==> w.route == Some(if cfg then Front else Rear))
    && (m.cmd1 == 66 && v.want.camState ==> w.route == Some(if cfg && !v.want.r9 then Front else Rear))
    && (m.cmd1 == 57 && v.want.camState ==> w.route == Some(if cfg && v.want.r9 then Front else Rear))
    // the signal
    && (m.cmd1 == 54 && Free(v) ==> w.route == Some(Side))
    // the status view
    && (m.cmd1 == 52 && Free(v) && (v.want.r11 ==> v.want.staView != m.cmd2) ==>
          w.route == Some(if cfg && LowByte(m.cmd2) != 0 then Front else Side))
    // a new source, when nobody else wants the picture
    && (m.cmd1 == 46 && Free(v) && !v.want.r11 ==>
          w.route == Some(Source(if m.cmd2 == 2 || m.cmd2 == 3 || m.cmd2 == 5 || m.cmd2 == 7 then m.cmd2 else 0)))
  }

  /** What is shown when a wish has ended. */
  ghost predicate RouteBack(v: View, w: View, m: Msg) {
    && ((m.cmd1 == 55 && !v.want.camState && v.want.camSignal)
        || (m.cmd1 == 59 && v.want.camState && !v.want.camSignal)
        || (m.cmd1 == 53 && v.want.r11 && Free(v)) ==>
          w.route == Some(if v.want.r11 && m.cmd1 != 53
                          then (if m.env.frontCfg && v.want.staView != 0 then Front else Side)
                          else Source(if v.want.videoMode == 255 then 0 else v.want.videoMode)))
  }

  /** Messages that bring up no camera. */
  ghost predicate RouteStays(v: View, w: View, m: Msg) {
    && (m.cmd1 !in {46, 47, 52, 53, 54, 55, 56, 57, 59, 60, 66} ==> w.route == v.route)
    && (m.cmd1 in {57, 59, 60, 66} && !v.want.camState ==> w.route == v.route)
    && (m.cmd1 in {52, 53, 54, 55} && v.want.camState ==> w.route == v.route)
    && (m.cmd1 == 56 && v.want.camState && !TakesRear(v, m) ==> w.route == v.route)
  }

  lemma RoutesAfter(v: View, m: Msg)
    requires Exclusive(v.want)
    ensures RouteAfter(v, Next(v, m), m) && RouteBack(v, Next(v, m), m) && RouteStays(v, Next(v, m), m)
  {
  }

  /** Swapping inside a session exchanges front and rear exactly where there is a front camera. */
  lemma SwapExchanges(v: View, m: Msg)
    requires m.cmd1 == 66 && v.want.camState && Exclusive(v.want)
    requires v.route == Some(if m.env.frontCfg && v.want.r9 then Front else Rear)
    ensures var w := Next(v, m);
            && (w.route == Some(Front) || w.route == Some(Rear))
            && (w.route != v.route <==> m.env.frontCfg)
  {
    RoutesAfter(v, m);
  }

  /** Message 61 polls again; between messages that show a picture it changes nothing. */
  lemma PollAgain(v: View, m: Msg)
    requires m.cmd1 == 61 && Picture(v)
    ensures Next(v, m) == v
  {
  }

  // ----- runs -----

  /** The last of the messages on and off is on; before is what held before them. */
  predicate LastIs(ms: seq<Msg>, on: int, off: int, before: bool)
    decreases |ms|
  {
    if ms == [] then before
    else LastIs(ms[1..], on, off, ms[0].cmd1 == on || (before && ms[0].cmd1 != off))
  }

  /** Over every run: reversing holds exactly when the last of messages 56 and 59 was 56, and the
      status view is wanted exactly when the last of 52 and 53 was 52. */
  lemma {:induction false} LastWordDecides(v: View, ms: seq<Msg>)
    requires Exclusive(v.want)
    ensures Run(v, ms).want.camState == LastIs(ms, 56, 59, v.want.camState)
    ensures Run(v, ms).want.r11 == LastIs(ms, 52, 53, v.want.r11)
    decreases |ms|
  {
    if ms != [] {
      FlagsAfter(v, ms[0]);
      StaysExclusive(v, ms[0]);
      LastWordDecides(Next(v, ms[0]), ms[1..]);
    }
  }

  lemma StaysExclusive(v: View, m: Msg)
    requires Exclusive(v.want)
    ensures Exclusive(Next(v, m).want)
  {
    FlagsAfter(v, m);
  }

  /** The camera each wish must have been given. */
  ghost predicate Given(v: View, frontCfg: bool) {
    && (v.want.camState ==> v.route == Some(if frontCfg && v.want.r9 then Front else Rear))
    && (v.want.camSignal ==> v.route == Some(Side))
    && (Free(v) && v.want.r11 ==> v.route == Some(if frontCfg && v.want.staView != 0 then Front else Side))
  }

  /** Over every run from power-up: reversing shows the rear camera, or the front one when it is
      selected and there is one; else the signal shows the side camera; else the status view shows
      the front or the side camera. */
  lemma ShownCamera(videoMode: int, adv: bool, ms: seq<Msg>, frontCfg: bool)
    requires SameConfig(ms, frontCfg)
    ensures Given(Run(Boot(videoMode, adv), ms), frontCfg)
  {
    RunsGive(Boot(videoMode, adv), ms, frontCfg);
  }

  lemma {:induction false} RunsGive(v: View, ms: seq<Msg>, frontCfg: bool)
    requires SameConfig(ms, frontCfg) && Exclusive(v.want) && Given(v, frontCfg)
    ensures Given(Run(v, ms), frontCfg)
    decreases |ms|
  {
    if ms != [] {
      StaysExclusive(v, ms[0]);
      StaysGiven(v, ms[0]);
      RunsGive(Next(v, ms[0]), ms[1..], frontCfg);
    }
  }

  lemma StaysGiven(v: View, m: Msg)
    requires Exclusive(v.want) && Given(v, m.env.frontCfg)
    ensures Given(Next(v, m), m.env.frontCfg)
  {
    FlagsAfter(v, m);
    RoutesAfter(v, m);
  }
}
