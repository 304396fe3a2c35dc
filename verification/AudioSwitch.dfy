/**
 Switching between audio sources: which sources are powered, which channel is
 named, and the hardware mute pin.
 */
module AudioSwitch {

  const GSM_BT: int := 0
  const SYS: int := 1
  const DVD: int := 2
  const LINE: int := 3
  const FM: int := 4
  const DTV: int := 5

  datatype Config = Config(bt: int, radio: int)

  /** The audio state between commands. */
  datatype Audio = Audio(
    ch: int,            // the channel named as playing
    mute: bool,
    pin: bool,          // hardware mute
    pending: bool,      // sound is held back until the new source settles
    radio: bool,
    tv: bool,
    dvd: bool
  )

  /** An enter (1) or exit (0) command, and whether a call, AJX or traffic
      announcement holds the output while it runs. */
  datatype Command = Command(ch: int, enter: bool, busy: bool)

  const SESSION := Audio(SYS, false, false, false, false, false, false)

  predicate IsSource(ch: int) { ch == DVD || ch == FM || ch == DTV }

  predicate Powered(a: Audio, ch: int) {
    if ch == FM then a.radio else if ch == DTV then a.tv else if ch == DVD then a.dvd else false
  }

  function Power(a: Audio, ch: int, on: bool): Audio {
    if ch == FM then a.(radio := on) else if ch == DTV then a.(tv := on) else if ch == DVD then a.(dvd := on) else a
  }

  /** The channel a command leads to. */
  function Target(c: Command): int { if c.enter then c.ch else SYS }

  /** The command changes something about the channel. */
  predicate Acts(a: Audio, c: Command) {
    if c.enter then a.ch != c.ch || c.ch == LINE else a.ch == c.ch && a.ch != SYS
  }

  /** Bluetooth kits whose sound shares the system channel. */
  predicate SharedBt(cfg: Config) { cfg.bt == 2 || cfg.bt == 6 || cfg.bt == 7 }

  predicate QuickSwap(cfg: Config, old': int, new': int) {
    SharedBt(cfg) && ((new' == SYS && old' == GSM_BT) || (new' == GSM_BT && old' == SYS))
  }

  /** Tuners that pop when switched need the mute pin. */
  predicate Pops(cfg: Config) { cfg.radio != 2 && cfg.radio != 4 }

  predicate RaisesPin(cfg: Config, old': int, new': int) {
    new' == DTV || (Pops(cfg) && (new' == FM || old' == FM))
  }

  /** The effect of one command. */
  function Next(cfg: Config, a: Audio, c: Command): Audio {
    var new' := Target(c);
    if !Acts(a, c) then
      (if c.enter && c.ch == SYS then a.(mute := false) else a)
    else if c.busy then
      Power(a, a.ch, false).(ch := if a.ch == DVD then DVD else new')
    else if QuickSwap(cfg, a.ch, new') then
      a.(ch := new', mute := false, pending := false)
    else
      Switch(cfg, a, new', c.enter)
  }

  function Switch(cfg: Config, a: Audio, new': int, enter: bool): Audio {
    var raised := RaisesPin(cfg, a.ch, new');
    Pinned(Power(Arrive(Power(Pinned(a, a.pin || raised), new', true), new', enter), a.ch, false), a.pin && !raised)
  }

  function Pinned(a: Audio, pin: bool): Audio { a.(pin := pin) }

  function Arrive(a: Audio, new': int, enter: bool): Audio {
    a.(ch := new', mute := a.mute && !enter, pending := IsSource(new'))
  }

  // ----- what the hardware sees -----

  /** The pin is moved, a source is started or stopped, the output is routed to a channel. */
  datatype Act = Pin(up: bool) | Start(ch: int) | Stop(ch: int) | Select(ch: int)

  function PinActs(pin: bool, up: bool): seq<Act> { if pin == up then [] else [Pin(up)] }

  function StartActs(ch: int): seq<Act> { if IsSource(ch) then [Start(ch)] else [] }

  function StopActs(ch: int): seq<Act> { if IsSource(ch) then [Stop(ch)] else [] }

  /** The pin goes up, the new source starts and is routed, the old one stops; a DVD is left
      playing until the pin is down again. */
  function SwitchActs(cfg: Config, a: Audio, new': int): seq<Act> {
    var raised := RaisesPin(cfg, a.ch, new');
    TakeActs(a.pin, raised, new') + LeaveActs(a.ch, a.pin || raised, raised)
  }

  function TakeActs(pin: bool, raised: bool, new': int): seq<Act> {
    (if raised then PinActs(pin, true) else []) + StartActs(new') + [Select(new')]
  }

  function LeaveActs(old': int, pin: bool, raised: bool): seq<Act> {
    var down := if raised then PinActs(pin, false) else [];
    if old' == DVD then down + StopActs(old') else StopActs(old') + down
  }

  function ActsOf(cfg: Config, a: Audio, c: Command): seq<Act> {
    if !Acts(a, c) then []
    else if c.busy then StopActs(a.ch)
    else if QuickSwap(cfg, a.ch, Target(c)) then []
    else SwitchActs(cfg, a, Target(c))
  }

  function PinAfter(pin: bool, act: Act): bool { if act.Pin? then act.up else pin }

  /** Heard as a click unless the hardware is muted.  The driver does not say what clicks; these
      are the acts for which its switch raises the pin, so what is proved is that the pin is up
      at the moment of the act, not that the list is complete. */
  predicate Clicks(cfg: Config, act: Act) {
    (act.Start? && act.ch == DTV) || ((act.Start? || act.Stop?) && act.ch == FM && Pops(cfg))
  }

  /** Nothing clicks while the pin is low, the pin is moved only to change it, and it is low
      at the end. */
  predicate Quiet(cfg: Config, acts: seq<Act>, pin: bool)
    decreases |acts|
  {
    if acts == [] then !pin
    else
      && (Clicks(cfg, acts[0]) ==> pin)
      && (acts[0].Pin? ==> acts[0].up != pin)
      && Quiet(cfg, acts[1..], PinAfter(pin, acts[0]))
  }

  /** The tuner is switched off under a held output, without the pin. */
  predicate Cut(cfg: Config, a: Audio, c: Command) { c.busy && Acts(a, c) && a.ch == FM && Pops(cfg) }

  /** A command is quiet exactly when it does not cut off a tuner that pops. */
  lemma CommandIsQuiet(cfg: Config, a: Audio, c: Command)
    requires !a.pin
    ensures Quiet(cfg, ActsOf(cfg, a, c), false) <==> !Cut(cfg, a, c)
  {
    if Acts(a, c) && !c.busy && !QuickSwap(cfg, a.ch, Target(c)) {
      SwitchIsQuiet(cfg, a, Target(c));
    }
  }

  lemma SwitchIsQuiet(cfg: Config, a: Audio, new': int)
    requires !a.pin
    ensures Quiet(cfg, SwitchActs(cfg, a, new'), false)
  {
    var raised := RaisesPin(cfg, a.ch, new');
    var rest := [Select(new')] + LeaveActs(a.ch, raised, raised);
    LeaveIsQuiet(cfg, a.ch, new');
    assert Quiet(cfg, rest, raised) by {
      assert rest[1..] == LeaveActs(a.ch, raised, raised);
    }
    var body := StartActs(new') + rest;
    assert Quiet(cfg, body, raised) by {
      if IsSource(new') {
        assert body[1..] == rest;
      } else {
        assert body == rest;
      }
    }
    if raised {
      assert SwitchActs(cfg, a, new') == [Pin(true)] + body && ([Pin(true)] + body)[1..] == body;
    } else {
      assert SwitchActs(cfg, a, new') == body;
    }
  }

  lemma LeaveIsQuiet(cfg: Config, old': int, new': int)
    ensures var raised := RaisesPin(cfg, old', new'); Quiet(cfg, LeaveActs(old', raised, raised), raised)
  {
    var raised := RaisesPin(cfg, old', new');
    var acts := LeaveActs(old', raised, raised);
    if old' == DVD {
      assert Quiet(cfg, [Stop(DVD)], false);
      assert raised ==> acts[1..] == [Stop(DVD)];
    } else if IsSource(old') {
      assert raised ==> acts[1..] == [Pin(false)] && Quiet(cfg, [Pin(false)], true);
    } else {
      assert raised ==> acts == [Pin(false)];
    }
  }

  lemma Joined(a: seq<Act>, b: seq<Act>, c: seq<Act>)
    ensures a + b + c == a + (b + c)
  {
  }

  lemma {:induction false} QuietJoins(cfg: Config, s: seq<Act>, t: seq<Act>, pin: bool)
    requires Quiet(cfg, s, pin)
    ensures Quiet(cfg, s + t, pin) <==> Quiet(cfg, t, false)
    decreases |s|
  {
    if s == [] {
      assert s + t == t;
    } else {
      assert (s + t)[1..] == s[1..] + t;
      QuietJoins(cfg, s[1..], t, PinAfter(pin, s[0]));
    }
  }

  // ----- what holds between commands -----

  /** Only the named channel may be powered. */
  predicate Named(a: Audio) {
    (a.radio ==> a.ch == FM) && (a.tv ==> a.ch == DTV) && (a.dvd ==> a.ch == DVD)
  }

  /** The named channel is powered, and nothing else. */
  predicate Exact(a: Audio) {
    a.radio == (a.ch == FM) && a.tv == (a.ch == DTV) && a.dvd == (a.ch == DVD)
  }

  /** An interrupted switch: the output is held, and either a source is named that is
      not started, or the DVD is stopped and stays named. */
  predicate Interrupted(a: Audio, c: Command) {
    c.busy && Acts(a, c) && (a.ch == DVD || IsSource(Target(c)))
  }

  lemma NextKeepsNamed(cfg: Config, a: Audio, c: Command)
    requires Named(a)
    ensures Named(Next(cfg, a, c))
    ensures !a.pin ==> !Next(cfg, a, c).pin
  {
  }

  /** The named source stays the powered one exactly when the command is not interrupted. */
  lemma NextKeepsExact(cfg: Config, a: Audio, c: Command)
    requires Exact(a)
    ensures Exact(Next(cfg, a, c)) <==> !Interrupted(a, c)
  {
  }

  function Run(cfg: Config, a: Audio, cs: seq<Command>): Audio
    decreases |cs|
  {
    if cs == [] then a else Run(cfg, Next(cfg, a, cs[0]), cs[1..])
  }

  function Trace(cfg: Config, a: Audio, cs: seq<Command>): seq<Act>
    decreases |cs|
  {
    if cs == [] then [] else ActsOf(cfg, a, cs[0]) + Trace(cfg, Next(cfg, a, cs[0]), cs[1..])
  }

  /** What a session adds to the acts so far. */
  function Play(cfg: Config, a: Audio, acts: seq<Act>, cs: seq<Command>): seq<Act>
    decreases |cs|
  {
    if cs == [] then acts else Play(cfg, Next(cfg, a, cs[0]), acts + ActsOf(cfg, a, cs[0]), cs[1..])
  }

  lemma {:induction false} PlayAddsTrace(cfg: Config, a: Audio, acts: seq<Act>, cs: seq<Command>)
    ensures Play(cfg, a, acts, cs) == acts + Trace(cfg, a, cs)
    decreases |cs|
  {
    if cs != [] {
      PlayAddsTrace(cfg, Next(cfg, a, cs[0]), acts + ActsOf(cfg, a, cs[0]), cs[1..]);
    }
  }

  predicate NoCut(cfg: Config, a: Audio, cs: seq<Command>)
    decreases |cs|
  {
    cs != [] ==> !Cut(cfg, a, cs[0]) && NoCut(cfg, Next(cfg, a, cs[0]), cs[1..])
  }

  /** A session never clicks exactly when no tuner that pops is cut off in it. */
  lemma {:induction false} SessionsAreQuiet(cfg: Config, a: Audio, cs: seq<Command>)
    requires Named(a) && !a.pin
    ensures Quiet(cfg, Trace(cfg, a, cs), false) <==> NoCut(cfg, a, cs)
    decreases |cs|
  {
    if cs != [] {
      var acts, rest := ActsOf(cfg, a, cs[0]), Trace(cfg, Next(cfg, a, cs[0]), cs[1..]);
      NextKeepsNamed(cfg, a, cs[0]);
      CommandIsQuiet(cfg, a, cs[0]);
      if Cut(cfg, a, cs[0]) {
        assert (acts + rest)[0] == Stop(FM);
      } else {
        SessionsAreQuiet(cfg, Next(cfg, a, cs[0]), cs[1..]);
        QuietJoins(cfg, acts, rest, false);
      }
    }
  }

  ghost predicate ExactThroughout(cfg: Config, a: Audio, cs: seq<Command>)
    decreases |cs|
  {
    Exact(a) && (cs != [] ==> ExactThroughout(cfg, Next(cfg, a, cs[0]), cs[1..]))
  }

  ghost predicate Uninterrupted(cfg: Config, a: Audio, cs: seq<Command>)
    decreases |cs|
  {
    cs != [] ==> !Interrupted(a, cs[0]) && Uninterrupted(cfg, Next(cfg, a, cs[0]), cs[1..])
  }

  /** Whatever is entered, left or interrupted in a session, no source but the named one
      is powered and the mute pin is low after every command. */
  lemma {:induction false} SessionsKeepNamed(cfg: Config, a: Audio, cs: seq<Command>)
    requires Named(a) && !a.pin
    ensures Named(Run(cfg, a, cs)) && !Run(cfg, a, cs).pin
    decreases |cs|
  {
    if cs != [] {
      NextKeepsNamed(cfg, a, cs[0]);
      SessionsKeepNamed(cfg, Next(cfg, a, cs[0]), cs[1..]);
    }
  }

  /** The named source is the powered one after every command of a session exactly when no
      command is interrupted. */
  lemma {:induction false} SessionsKeepExact(cfg: Config, a: Audio, cs: seq<Command>)
    requires Exact(a)
    ensures ExactThroughout(cfg, a, cs) <==> Uninterrupted(cfg, a, cs)
    decreases |cs|
  {
    if cs != [] {
      NextKeepsExact(cfg, a, cs[0]);
      if Interrupted(a, cs[0]) {
        assert !Exact(Next(cfg, a, cs[0]));
      } else {
        SessionsKeepExact(cfg, Next(cfg, a, cs[0]), cs[1..]);
      }
    }
  }

  /** Entering a source while nothing holds the output powers it, unless it was already
      named: then it is left as it was. */
  lemma EnterPowers(cfg: Config, a: Audio, ch: int)
    requires Named(a) && IsSource(ch)
    ensures var b := Next(cfg, a, Command(ch, true, false));
            b.ch == ch && (Powered(b, ch) <==> a.ch != ch || Powered(a, ch))
  {
  }

  /** A DVD stopped during a call stays named, so entering it again does not start it. */
  lemma DvdStaysOff(cfg: Config)
    ensures var a := Next(cfg, Next(cfg, SESSION, Command(DVD, true, false)), Command(DVD, false, true));
            a.ch == DVD && !a.dvd && Next(cfg, a, Command(DVD, true, false)) == a
  {
  }

  // ----- the driver's code -----

  class Card {
    const cfg: Config
    var audioCh: int
    var mute: bool
    var muteAll: bool
    var pending: bool
    var radio: bool
    var tv: bool
    var dvd: bool
    ghost var trace: seq<Act>

    constructor (cfg: Config)
      ensures State() == SESSION && this.cfg == cfg && trace == []
    {
      this.cfg := cfg;
      audioCh, mute, muteAll, pending := SYS, false, false, false;
      radio, tv, dvd, trace := false, false, false, [];
    }

    ghost function State(): Audio
      reads this
    {
      Audio(audioCh, mute, muteAll, pending, radio, tv, dvd)
    }

    method SetMutePin(pin: bool)
      modifies `muteAll, `trace
      ensures muteAll == pin && trace == old(trace) + PinActs(old(muteAll), pin)
    {
      if muteAll != pin {
        muteAll := pin;
        trace := trace + [Pin(pin)];
      }
    }

    method RaisePin(raised: bool)
      modifies `muteAll, `trace
      ensures State() == Pinned(old(State()), old(muteAll) || raised)
      ensures trace == old(trace) + if raised then PinActs(old(muteAll), true) else []
    {
      if raised {
        SetMutePin(true);
      }
    }

    method StartSource(ch: int)
      modifies `radio, `tv, `dvd, `trace
      ensures State() == Power(old(State()), ch, true) && trace == old(trace) + StartActs(ch)
    {
      if ch == FM {
        radio, trace := true, trace + [Start(FM)];
      } else if ch == DTV {
        tv, trace := true, trace + [Start(DTV)];
      } else if ch == DVD {
        dvd, trace := true, trace + [Start(DVD)];
      }
    }

    method StopSource(ch: int)
      modifies `radio, `tv, `dvd, `trace
      ensures State() == Power(old(State()), ch, false) && trace == old(trace) + StopActs(ch)
    {
      if ch == FM {
        radio, trace := false, trace + [Stop(FM)];
      } else if ch == DTV {
        tv, trace := false, trace + [Stop(DTV)];
      } else if ch == DVD {
        dvd, trace := false, trace + [Stop(DVD)];
      }
    }

    /** Stop the old source without starting the new one. */
    method Interrupt(old': int, setCh: int)
      requires audioCh == old'
      modifies `audioCh, `radio, `tv, `dvd, `trace
      ensures State() == Power(old(State()), old', false).(ch := if old' == DVD then DVD else setCh)
      ensures trace == old(trace) + StopActs(old')
    {
      StopSource(old');
      if old' == DVD { return; }
      audioCh := setCh;
    }

    method Name(setCh: int, mode: bool)
      modifies `audioCh, `mute, `pending, `trace
      ensures State() == Arrive(old(State()), setCh, mode) && trace == old(trace) + [Select(setCh)]
    {
      if mode {
        mute := false;
      }
      audioCh := setCh;
      trace := trace + [Select(setCh)];
      pending := setCh == DVD || setCh == FM || setCh == DTV;
    }

    /** Stop the old source and lower the pin if it was raised.  The DVD keeps playing until
        the pin has been lowered; every other source stops first. */
    method Leave(old': int, raised: bool, tvOrFm: bool)
      requires old' == DVD ==> raised == tvOrFm
      modifies `muteAll, `radio, `tv, `dvd, `trace
      ensures State() == Pinned(Power(old(State()), old', false), old(muteAll) && !raised)
      ensures trace == old(trace) + LeaveActs(old', old(muteAll), raised)
    {
      if old' == DVD {
        if tvOrFm {
          SetMutePin(false);
        }
        StopSource(DVD);
      } else {
        StopSource(old');
        if raised {
          SetMutePin(false);
        }
      }
    }

    /** Raise the pin if the switch needs it, start the new source and route it. */
    method Take(setCh: int, mode: bool, raised: bool)
      modifies this
      ensures State() == Arrive(Power(Pinned(old(State()), old(muteAll) || raised), setCh, true), setCh, mode)
      ensures trace == old(trace) + TakeActs(old(muteAll), raised, setCh)
    {
      RaisePin(raised);
      StartSource(setCh);
      Name(setCh, mode);
    }

    /** Does the switch need the pin, and is that because of the new source? */
    method NeedsPin(old': int, setCh: int) returns (raised: bool, tvOrFm: bool)
      ensures raised == RaisesPin(cfg, old', setCh)
      ensures old' != FM ==> raised == tvOrFm
    {
      raised, tvOrFm := false, false;
      if setCh != DTV && (setCh != FM || cfg.radio == 2 || cfg.radio == 4) {
        raised := !(old' != FM || cfg.radio == 2 || cfg.radio == 4);
      } else {
        tvOrFm, raised := true, true;
      }
    }

    /** The full switch. */
    method SwitchTo(old': int, setCh: int, mode: bool)
      requires audioCh == old'
      modifies this
      ensures State() == Switch(cfg, old(State()), setCh, mode)
      ensures trace == old(trace) + SwitchActs(cfg, old(State()), setCh)
    {
      var raised, tvOrFm := NeedsPin(old', setCh);
      ghost var pin, was := muteAll, trace;
      Take(setCh, mode, raised);
      assert muteAll == (pin || raised);
      Leave(old', raised, tvOrFm);
      Joined(was, TakeActs(pin, raised, setCh), LeaveActs(old', pin || raised, raised));
    }

    method EnterChannel(setCh: int, mode: bool, busy: bool)
      modifies this
      ensures State() == Next(cfg, old(State()), Command(setCh, mode, busy))
      ensures trace == old(trace) + ActsOf(cfg, old(State()), Command(setCh, mode, busy))
    {
      var new', old' := setCh, audioCh;
      if mode {
        if old' == setCh {
          if old' == SYS {
            if !mute { return; }
            mute := false;
            return;
          }
          if old' != LINE { return; }
        }
      } else {
        if old' != setCh || old' == SYS { return; }
        new' := SYS;
      }
      if busy {
        Interrupt(old', new');
        return;
      }
      if cfg.bt == 2 || cfg.bt == 6 || cfg.bt == 7 {
        if (new' == SYS && old' == GSM_BT) || (new' == GSM_BT && old' == SYS) {
          audioCh := new';
          mute := false;
          pending := false;
          return;
        }
      }
      SwitchTo(old', new', mode);
    }

    /** A whole session of commands. */
    method Serve(cs: seq<Command>)
      requires Named(State()) && !muteAll && trace == []
      modifies this
      ensures State() == Run(cfg, old(State()), cs) && trace == Trace(cfg, old(State()), cs)
      ensures Named(State()) && !muteAll
      ensures Quiet(cfg, trace, false) <==> NoCut(cfg, old(State()), cs)
    {
      Follow(cs);
      PlayAddsTrace(cfg, old(State()), [], cs);
      SessionsKeepNamed(cfg, old(State()), cs);
      SessionsAreQuiet(cfg, old(State()), cs);
    }

    method Follow(cs: seq<Command>)
      modifies this
      ensures State() == Run(cfg, old(State()), cs) && trace == Play(cfg, old(State()), old(trace), cs)
    {
      var i := 0;
      assert cs[0..] == cs;
      while i < |cs|
        invariant 0 <= i <= |cs|
        invariant Run(cfg, State(), cs[i..]) == Run(cfg, old(State()), cs)
        invariant Play(cfg, State(), trace, cs[i..]) == Play(cfg, old(State()), old(trace), cs)
      {
        assert cs[i..][0] == cs[i] && cs[i..][1..] == cs[i + 1..];
        EnterChannel(cs[i].ch, cs[i].enter, cs[i].busy);
        i := i + 1;
      }
    }
  }
}
