/**
 Where the output goes: the channel last routed, whether it is playing, and how that follows the
 channel named, told from the acts the hardware sees.
 */
module AudioRoutes {
  import opened AudioSwitch

  /** The channel last routed; before is the one routed so far. */
  function Routed(acts: seq<Act>, before: int): int
    decreases |acts|
  {
    if acts == [] then before
    else Routed(acts[1..], if acts[0].Select? then acts[0].ch else before)
  }

  lemma {:induction false} RoutedJoins(s: seq<Act>, t: seq<Act>, before: int)
    ensures Routed(s + t, before) == Routed(t, Routed(s, before))
    decreases |s|
  {
    if s == [] {
      assert s + t == t;
    } else {
      assert (s + t)[1..] == s[1..] + t;
      RoutedJoins(s[1..], t, if s[0].Select? then s[0].ch else before);
    }
  }

  lemma {:induction false} RoutedStays(s: seq<Act>, before: int)
    requires forall i :: 0 <= i < |s| ==> !s[i].Select?
    ensures Routed(s, before) == before
    decreases |s|
  {
    if s != [] {
      RoutedStays(s[1..], before);
    }
  }

  lemma SelectOne(ch: int, before: int)
    ensures Routed([Select(ch)], before) == ch
  {
    assert [Select(ch)][1..] == [];
  }

  // ----- one command -----

  /** The command is carried out as a full switch. */
  predicate Switches(cfg: Config, a: Audio, c: Command) {
    Acts(a, c) && !c.busy && !QuickSwap(cfg, a.ch, if c.enter then c.ch else 1)
  }

  lemma SwitchIs(cfg: Config, a: Audio, c: Command)
    requires Switches(cfg, a, c)
    ensures var to := if c.enter then c.ch else 1;
            Next(cfg, a, c) == Switch(cfg, a, to, c.enter) && ActsOf(cfg, a, c) == SwitchActs(cfg, a, to)
  {
  }

  lemma SwitchEnds(cfg: Config, a: Audio, to: int, enter: bool)
    ensures var b := Switch(cfg, a, to, enter);
            && b.ch == to && b.mute == (a.mute && !enter) && b.pending == (to == 2 || to == 4 || to == 5)
            && b.pin == (a.pin && !RaisesPin(cfg, a.ch, to))
  {
    var raised := RaisesPin(cfg, a.ch, to);
    var up := Pinned(a, a.pin || raised);
    var there := Arrive(Power(up, to, true), to, enter);
    PowerKeeps(up, to, true);
    PowerKeeps(there, a.ch, false);
  }

  lemma PowerKeeps(a: Audio, ch: int, on: bool)
    ensures var b := Power(a, ch, on); b.ch == a.ch && b.mute == a.mute && b.pin == a.pin && b.pending == a.pending
  {
  }

  lemma SwitchPowers(cfg: Config, a: Audio, to: int, enter: bool)
    ensures var b := Switch(cfg, a, to, enter);
            && b.radio == ((a.radio || to == FM) && a.ch != FM)
            && b.tv == ((a.tv || to == DTV) && a.ch != DTV)
            && b.dvd == ((a.dvd || to == DVD) && a.ch != DVD)
  {
  }

  lemma HeldIs(cfg: Config, a: Audio, c: Command)
    requires Acts(a, c) && c.busy
    ensures var b := Next(cfg, a, c);
            && b == a.(ch := if a.ch == DVD then DVD else if c.enter then c.ch else 1,
                       radio := a.radio && a.ch != FM, tv := a.tv && a.ch != DTV, dvd := a.dvd && a.ch != DVD)
            && ActsOf(cfg, a, c) == StopActs(a.ch)
  {
  }

  lemma SwapIs(cfg: Config, a: Audio, c: Command)
    requires Acts(a, c) && !c.busy && !Switches(cfg, a, c)
    ensures Next(cfg, a, c) == a.(ch := if c.enter then c.ch else 1, mute := false, pending := false)
    ensures ActsOf(cfg, a, c) == []
  {
  }

  lemma IgnoredIs(cfg: Config, a: Audio, c: Command)
    requires !Acts(a, c)
    ensures Next(cfg, a, c) == a.(mute := a.mute && !(c.enter && c.ch == 1)) && ActsOf(cfg, a, c) == []
  {
  }

  /** The command leads to the channel it names, and an exit to the system channel. */
  lemma WhereItLeads(cfg: Config, a: Audio, c: Command)
    requires c.enter || c.ch == a.ch
    ensures !(c.busy && a.ch == DVD) ==> Next(cfg, a, c).ch == if c.enter then c.ch else 1
  {
    Leads(cfg, a, c);
  }

  lemma Leads(cfg: Config, a: Audio, c: Command)
    ensures Next(cfg, a, c).ch == if !Acts(a, c) || (c.busy && a.ch == DVD) then a.ch else if c.enter then c.ch else 1
  {
    if !Acts(a, c) {
      IgnoredIs(cfg, a, c);
    } else if c.busy {
      HeldIs(cfg, a, c);
    } else if Switches(cfg, a, c) {
      SwitchIs(cfg, a, c);
      SwitchEnds(cfg, a, if c.enter then c.ch else 1, c.enter);
    } else {
      SwapIs(cfg, a, c);
    }
  }

  /** A command that names another channel is ignored, and so is an exit from one not named. */
  lemma OthersAreIgnored(cfg: Config, a: Audio, c: Command)
    ensures !c.enter && (a.ch != c.ch || c.ch == 1) ==> Next(cfg, a, c) == a && ActsOf(cfg, a, c) == []
    ensures c.enter && a.ch == c.ch && c.ch != 1 && c.ch != 3 ==> Next(cfg, a, c) == a && ActsOf(cfg, a, c) == []
  {
  }

  lemma SwitchRoutes(cfg: Config, a: Audio, new': int, before: int)
    ensures Routed(SwitchActs(cfg, a, new'), before) == new'
  {
    var raised := RaisesPin(cfg, a.ch, new');
    var first := (if raised then PinActs(a.pin, true) else []) + StartActs(new');
    var last := LeaveActs(a.ch, a.pin || raised, raised);
    RoutedStays(first, before);
    RoutedJoins(first, [Select(new')], before);
    SelectOne(new', before);
    RoutedJoins(first + [Select(new')], last, before);
    RoutedStays(last, new');
    assert SwitchActs(cfg, a, new') == first + [Select(new')] + last;
  }

  /** A command names another channel without routing it: a quick swap, or a switch while a call
      holds the output that does not leave a DVD. */
  predicate Unrouted(cfg: Config, a: Audio, c: Command) {
    var to := if c.enter then c.ch else 1;
    && Acts(a, c) && to != a.ch
    && (if c.busy then a.ch != DVD else QuickSwap(cfg, a.ch, to))
  }

  /** The channel named stays the one routed exactly when the command is not of that kind. */
  lemma RoutesWhatItNames(cfg: Config, a: Audio, c: Command)
    ensures Routed(ActsOf(cfg, a, c), a.ch) == Next(cfg, a, c).ch <==> !Unrouted(cfg, a, c)
  {
    Leads(cfg, a, c);
    if !Acts(a, c) {
      IgnoredIs(cfg, a, c);
    } else if c.busy {
      HeldIs(cfg, a, c);
      RoutedStays(StopActs(a.ch), a.ch);
    } else if Switches(cfg, a, c) {
      SwitchIs(cfg, a, c);
      SwitchRoutes(cfg, a, if c.enter then c.ch else 1, a.ch);
    } else {
      SwapIs(cfg, a, c);
    }
  }

  /** The Bluetooth kinds 2, 6 and 7. */
  predicate SwapKit(cfg: Config) { cfg.bt == 2 || cfg.bt == 6 || cfg.bt == 7 }

  /** With the output free the hardware is left alone exactly when a kit of that kind changes
      between the phone and the system channel. */
  lemma SwapsSilently(cfg: Config, a: Audio, c: Command)
    requires Acts(a, c) && !c.busy
    ensures var to := if c.enter then c.ch else 1;
            ActsOf(cfg, a, c) == [] <==> SwapKit(cfg) && ((a.ch == 0 && to == 1) || (a.ch == 1 && to == 0))
  {
    if Switches(cfg, a, c) {
      var to := if c.enter then c.ch else 1;
      SwitchIs(cfg, a, c);
      SwitchRoutes(cfg, a, to, to + 1);
    } else {
      SwapIs(cfg, a, c);
    }
  }

  /** Leaving the named channel with the output free: the system channel is named and routed and
      no source is powered. */
  lemma LeavingEndsAtSystem(cfg: Config, a: Audio, before: int)
    requires Named(a) && a.ch != 1 && !(SwapKit(cfg) && a.ch == 0)
    ensures var c := Command(a.ch, false, false);
            var b := Next(cfg, a, c);
            && b.ch == 1 && !b.radio && !b.tv && !b.dvd
            && Routed(ActsOf(cfg, a, c), before) == 1
  {
    SwitchIs(cfg, a, Command(a.ch, false, false));
    SwitchEnds(cfg, a, 1, false);
    SwitchPowers(cfg, a, 1, false);
    SwitchRoutes(cfg, a, 1, before);
  }

  /** Entering a channel anew with the output free names it and routes it. */
  lemma EnteringRoutes(cfg: Config, a: Audio, ch: int, before: int)
    requires a.ch != ch && !(SwapKit(cfg) && ((a.ch == 0 && ch == 1) || (a.ch == 1 && ch == 0)))
    ensures var c := Command(ch, true, false);
            Next(cfg, a, c).ch == ch && Routed(ActsOf(cfg, a, c), before) == ch
  {
    SwitchIs(cfg, a, Command(ch, true, false));
    SwitchEnds(cfg, a, ch, true);
    SwitchRoutes(cfg, a, ch, before);
  }

  /** What a command does to the mute flag, the pin and the delay of the sound. */
  lemma FlagsFollow(cfg: Config, a: Audio, c: Command)
    ensures var b, to := Next(cfg, a, c), if c.enter then c.ch else 1;
            var switches := Acts(a, c) && !c.busy;
            var swaps := switches && QuickSwap(cfg, a.ch, to);
            && b.mute == (a.mute && !swaps && !(c.enter && (switches || (a.ch == 1 && c.ch == 1))))
            && b.pending == (if !switches then a.pending
                             else !swaps && (to == 2 || to == 4 || to == 5))
            && b.pin == (a.pin && !(switches && !swaps && RaisesPin(cfg, a.ch, to)))
  {
    if !Acts(a, c) {
      IgnoredIs(cfg, a, c);
    } else if c.busy {
      HeldIs(cfg, a, c);
    } else if Switches(cfg, a, c) {
      SwitchIs(cfg, a, c);
      SwitchEnds(cfg, a, if c.enter then c.ch else 1, c.enter);
    } else {
      SwapIs(cfg, a, c);
    }
  }

  /** The pin is raised exactly for a command during which something would click. */
  lemma PinOnlyForClicks(cfg: Config, a: Audio, c: Command)
    requires !a.pin && !c.busy
    ensures Pin(true) in ActsOf(cfg, a, c) <==>
            exists i :: 0 <= i < |ActsOf(cfg, a, c)| && Clicks(cfg, ActsOf(cfg, a, c)[i])
  {
    var acts := ActsOf(cfg, a, c);
    if Acts(a, c) && !QuickSwap(cfg, a.ch, Target(c)) {
      if RaisesPin(cfg, a.ch, Target(c)) {
        assert acts[0] == Pin(true);
        if Target(c) == DTV || Target(c) == FM {
          assert acts[1] == Start(Target(c)) && Clicks(cfg, acts[1]);
        } else {
          assert Stop(FM) in LeaveActs(a.ch, true, true) by {
            assert LeaveActs(a.ch, true, true)[0] == Stop(FM);
          }
          assert Stop(FM) in acts;
          var i :| 0 <= i < |acts| && acts[i] == Stop(FM);
          assert Clicks(cfg, acts[i]);
        }
      } else {
        assert acts == StartActs(Target(c)) + [Select(Target(c))] + StopActs(a.ch);
      }
    }
  }

  /** Told by channels: DTV coming, or FM coming or going with a tuner that is not of kind 2 or 4. */
  lemma PinWhen(cfg: Config, a: Audio, c: Command)
    requires !a.pin && Switches(cfg, a, c)
    ensures var to := if c.enter then c.ch else 1;
            Pin(true) in ActsOf(cfg, a, c) <==>
            to == 5 || (cfg.radio != 2 && cfg.radio != 4 && (to == 4 || a.ch == 4))
  {
    var to := if c.enter then c.ch else 1;
    SwitchIs(cfg, a, c);
    var acts := SwitchActs(cfg, a, to);
    if RaisesPin(cfg, a.ch, to) {
      assert acts[0] == Pin(true);
    } else {
      assert acts == StartActs(to) + [Select(to)] + StopActs(a.ch);
    }
  }

  /** The last act of a switch: a DVD is stopped when the pin is down again, any other source
      before the pin goes down. */
  lemma LastAct(cfg: Config, a: Audio, to: int)
    requires !a.pin
    ensures var acts := SwitchActs(cfg, a, to);
            acts[|acts| - 1] == if a.ch == 2 then Stop(2)
                                else if RaisesPin(cfg, a.ch, to) then Pin(false)
                                else if a.ch == 4 || a.ch == 5 then Stop(a.ch) else Select(to)
  {
  }

  // ----- playing while routed -----

  /** Nothing is routed that is a source and not started, and nothing is stopped while it is
      routed: the output never falls silent in the middle of a switch. */
  predicate Continuous(acts: seq<Act>, routed: int, on: set<int>)
    decreases |acts|
  {
    acts == [] ||
    match acts[0]
    case Pin(_) => Continuous(acts[1..], routed, on)
    case Start(ch) => Continuous(acts[1..], routed, on + {ch})
    case Stop(ch) => ch != routed && Continuous(acts[1..], routed, on - {ch})
    case Select(ch) => (IsSource(ch) ==> ch in on) && Continuous(acts[1..], ch, on)
  }

  /** The sources playing after the acts. */
  function Playing(acts: seq<Act>, on: set<int>): set<int>
    decreases |acts|
  {
    if acts == [] then on
    else Playing(acts[1..], match acts[0]
                            case Start(ch) => on + {ch}
                            case Stop(ch) => on - {ch}
                            case _ => on)
  }

  lemma {:induction false} ContinuousJoins(s: seq<Act>, t: seq<Act>, routed: int, on: set<int>)
    ensures Continuous(s + t, routed, on) <==>
            Continuous(s, routed, on) && Continuous(t, Routed(s, routed), Playing(s, on))
    ensures Playing(s + t, on) == Playing(t, Playing(s, on))
    decreases |s|
  {
    if s == [] {
      assert s + t == t;
    } else {
      assert (s + t)[1..] == s[1..] + t;
      var on' := match s[0] case Start(ch) => on + {ch} case Stop(ch) => on - {ch} case _ => on;
      ContinuousJoins(s[1..], t, if s[0].Select? then s[0].ch else routed, on');
    }
  }

  /** The sources powered. */
  function On(a: Audio): set<int> {
    (if a.radio then {FM} else {}) + (if a.tv then {DTV} else {}) + (if a.dvd then {DVD} else {})
  }

  /** The routed channel is the named one when that is a powered source, and no source else. */
  predicate Heard(a: Audio, routed: int) {
    Named(a) && if Powered(a, a.ch) then routed == a.ch else !IsSource(routed)
  }

  /** A held output: the source being played is stopped. */
  predicate Silences(a: Audio, c: Command) { c.busy && Acts(a, c) && Powered(a, a.ch) }

  lemma PinsAreSilent(b: bool, up: bool, routed: int, on: set<int>)
    ensures var acts := PinActs(b, up);
            Continuous(acts, routed, on) && Playing(acts, on) == on && Routed(acts, routed) == routed
  {
    assert [Pin(up)][1..] == [];
  }

  lemma StopsOne(ch: int, routed: int, on: set<int>)
    ensures Continuous(StopActs(ch), routed, on) <==> !IsSource(ch) || ch != routed
    ensures Playing(StopActs(ch), on) == if IsSource(ch) then on - {ch} else on
    ensures Routed(StopActs(ch), routed) == routed
  {
    assert [Stop(ch)][1..] == [];
  }

  lemma LeavesOne(old': int, pin: bool, raised: bool, routed: int, on: set<int>)
    requires routed != old' || !IsSource(old')
    ensures var acts := LeaveActs(old', pin, raised);
            Continuous(acts, routed, on) && Playing(acts, on) == if IsSource(old') then on - {old'} else on
  {
    var down := if raised then PinActs(pin, false) else [];
    PinsAreSilent(pin, false, routed, on);
    PinsAreSilent(pin, false, routed, if IsSource(old') then on - {old'} else on);
    StopsOne(old', routed, on);
    ContinuousJoins(down, StopActs(old'), routed, on);
    ContinuousJoins(StopActs(old'), down, routed, on);
  }

  lemma RoutesOne(ch: int, routed: int, on: set<int>)
    requires IsSource(ch) ==> ch in on
    ensures Continuous([Select(ch)], routed, on) && Playing([Select(ch)], on) == on
  {
    assert [Select(ch)][1..] == [];
    assert Playing([], on) == on;
  }

  lemma TakesOne(pin: bool, raised: bool, new': int, routed: int, on: set<int>)
    ensures var acts := TakeActs(pin, raised, new');
            && Continuous(acts, routed, on) && Routed(acts, routed) == new'
            && Playing(acts, on) == if IsSource(new') then on + {new'} else on
  {
    var up := if raised then PinActs(pin, true) else [];
    var on' := if IsSource(new') then on + {new'} else on;
    PinsAreSilent(pin, true, routed, on);
    var rest := StartActs(new') + [Select(new')];
    SelectOne(new', routed);
    RoutesOne(new', routed, on');
    assert Continuous(rest, routed, on) && Routed(rest, routed) == new' && Playing(rest, on) == on' by {
      if IsSource(new') {
        assert rest[1..] == [Select(new')];
      } else {
        assert rest == [Select(new')];
      }
    }
    ContinuousJoins(up, rest, routed, on);
    RoutedJoins(up, rest, routed);
    assert TakeActs(pin, raised, new') == up + rest;
  }

  lemma SwitchIsContinuous(cfg: Config, a: Audio, new': int, routed: int)
    requires Heard(a, routed) && (IsSource(new') ==> new' != a.ch)
    ensures var acts := SwitchActs(cfg, a, new');
            && Continuous(acts, routed, On(a)) && Routed(acts, routed) == new'
            && Playing(acts, On(a)) == if IsSource(new') then {new'} else {}
  {
    var raised := RaisesPin(cfg, a.ch, new');
    var take, leave := TakeActs(a.pin, raised, new'), LeaveActs(a.ch, a.pin || raised, raised);
    var on := if IsSource(new') then On(a) + {new'} else On(a);
    TakesOne(a.pin, raised, new', routed, On(a));
    LeavesOne(a.ch, a.pin || raised, raised, new', on);
    ContinuousJoins(take, leave, routed, On(a));
    SwitchRoutes(cfg, a, new', routed);
  }

  /** A command keeps the sound going exactly when it does not silence a playing source for a
      call; then the powered sources are those started and not stopped. */
  lemma CommandIsContinuous(cfg: Config, a: Audio, c: Command, routed: int)
    requires Heard(a, routed)
    ensures var acts, b := ActsOf(cfg, a, c), Next(cfg, a, c);
            && (Continuous(acts, routed, On(a)) <==> !Silences(a, c))
            && Playing(acts, On(a)) == On(b)
            && (!Silences(a, c) ==> Heard(b, Routed(acts, routed)))
  {
    if !Acts(a, c) {
      IgnoredIs(cfg, a, c);
    } else if c.busy {
      HeldIs(cfg, a, c);
      StopsOne(a.ch, routed, On(a));
    } else if Switches(cfg, a, c) {
      var to := if c.enter then c.ch else 1;
      SwitchIs(cfg, a, c);
      SwitchEnds(cfg, a, to, c.enter);
      SwitchPowers(cfg, a, to, c.enter);
      SwitchIsContinuous(cfg, a, to, routed);
    } else {
      SwapIs(cfg, a, c);
    }
  }

  predicate NoSilence(cfg: Config, a: Audio, cs: seq<Command>)
    decreases |cs|
  {
    cs != [] ==> !Silences(a, cs[0]) && NoSilence(cfg, Next(cfg, a, cs[0]), cs[1..])
  }

  /** Over whole sessions: the sound keeps going through every switch exactly when no playing
      source is silenced for a call. */
  lemma {:induction false} SessionsAreContinuous(cfg: Config, a: Audio, cs: seq<Command>, routed: int)
    requires Heard(a, routed)
    ensures Continuous(Trace(cfg, a, cs), routed, On(a)) <==> NoSilence(cfg, a, cs)
    decreases |cs|
  {
    if cs != [] {
      var acts, b := ActsOf(cfg, a, cs[0]), Next(cfg, a, cs[0]);
      CommandIsContinuous(cfg, a, cs[0], routed);
      ContinuousJoins(acts, Trace(cfg, b, cs[1..]), routed, On(a));
      if !Silences(a, cs[0]) {
        SessionsAreContinuous(cfg, b, cs[1..], Routed(acts, routed));
      }
    }
  }

  // ----- what is routed over a session -----

  predicate RoutedThroughout(cfg: Config, a: Audio, cs: seq<Command>, routed: int)
    decreases |cs|
  {
    && routed == a.ch
    && (cs != [] ==>
          RoutedThroughout(cfg, Next(cfg, a, cs[0]), cs[1..], Routed(ActsOf(cfg, a, cs[0]), routed)))
  }

  predicate AllRouted(cfg: Config, a: Audio, cs: seq<Command>)
    decreases |cs|
  {
    cs != [] ==> !Unrouted(cfg, a, cs[0]) && AllRouted(cfg, Next(cfg, a, cs[0]), cs[1..])
  }

  /** Over whole sessions: the channel last routed is the one named after every command exactly
      when no command names a channel without routing it. */
  lemma {:induction false} SessionsRouteWhatTheyName(cfg: Config, a: Audio, cs: seq<Command>)
    ensures RoutedThroughout(cfg, a, cs, a.ch) <==> AllRouted(cfg, a, cs)
    decreases |cs|
  {
    if cs != [] {
      RoutesWhatItNames(cfg, a, cs[0]);
      if !Unrouted(cfg, a, cs[0]) {
        SessionsRouteWhatTheyName(cfg, Next(cfg, a, cs[0]), cs[1..]);
      }
    }
  }

  /** The channel last routed in the whole trace of such a session is the one named at its end. */
  lemma {:induction false} TraceEndsAtNamed(cfg: Config, a: Audio, cs: seq<Command>)
    requires AllRouted(cfg, a, cs)
    ensures Routed(Trace(cfg, a, cs), a.ch) == Run(cfg, a, cs).ch
    decreases |cs|
  {
    if cs != [] {
      var b := Next(cfg, a, cs[0]);
      RoutesWhatItNames(cfg, a, cs[0]);
      RoutedJoins(ActsOf(cfg, a, cs[0]), Trace(cfg, b, cs[1..]), a.ch);
      TraceEndsAtNamed(cfg, b, cs[1..]);
    }
  }
}
