/**
 * Properties of the option state machine of module Options over whole
 * option streams: which option wins, which flags stick, how key bindings
 * accumulate, when loading the configuration halts and with what exit code.
 */
module OptionProperties {
  import opened Wrappers
  import opened CString
  import Names
  import Filenames
  import opened Options

  /** The value supplied by the last option that `pick` selects, or `d` when none does. */
  function Last<T>(opts: seq<Opt>, pick: Opt -> Option<T>, d: T): T
    decreases |opts|
  {
    if opts == [] then d
    else match pick(opts[|opts| - 1])
      case Some(v) => v
      case None => Last(opts[..|opts| - 1], pick, d)
  }

  /** Reading the stream front to back: the first option's value becomes the default for the rest. */
  lemma {:induction false} LastFront<T>(opts: seq<Opt>, pick: Opt -> Option<T>, d: T)
    requires opts != []
    ensures Last(opts, pick, d) == Last(opts[1..], pick, Last([opts[0]], pick, d))
    decreases |opts|
  {
    var n := |opts|;
    if n > 1 {
      var init := opts[..n - 1];
      LastFront(init, pick, d);
      assert init[1..] == opts[1..][..n - 2];
      assert init[0] == opts[0];
    } else {
      assert opts[1..] == [];
    }
  }

  // The options that set each single-valued field.
  function SkipFramesArg(o: Opt): Option<int> { if o.SkipFrames? then Some(o.frames) else None }
  function AudioRateArg(o: Opt): Option<int> { if o.AudioRate? then Some(o.hz) else None }
  function AudioBufferArg(o: Opt): Option<int> { if o.AudioBufferSize? then Some(o.samples) else None }
  function HacksFileArg(o: Opt): Option<Option<string>> { if o.HacksFile? then Some(Some(o.path)) else None }
  function ScancodeArg(o: Opt): Option<Key> { if o.Scancode? then Some(ToScancode(o.code)) else None }

  /** `--mouse` and `--superscope` both pick the controller. */
  function ControllerArg(o: Opt): Option<Controller>
  {
    match o
    case Mouse(port) => Some(MousePort(port))
    case SuperScope => Some(SnesSuperScope)
    case _ => None
  }

  /** Every `--hacks` decides whether hacks are on: off only for "no"/"n". */
  function HacksEnabledArg(o: Opt): Option<bool>
  {
    if o.Hacks? then Some(!(o.value.Some? && ClassifyHacks(o.value.value) == No)) else None
  }

  /** A `--hacks` value that is not a hacks mode names the ROM. */
  function RomArg(o: Opt): Option<Option<string>>
  {
    if o.Hacks? && o.value.Some? && ClassifyHacks(o.value.value) == RomPath
    then Some(Some(Filenames.RomFileOf(o.value.value)))
    else None
  }

  /** The value `pick` takes from one option, or `d`. */
  function Pick<T>(o: Opt, pick: Opt -> Option<T>, d: T): T
  {
    match pick(o)
    case Some(v) => v
    case None => d
  }

  lemma LastOne<T>(o: Opt, pick: Opt -> Option<T>, d: T)
    ensures Last([o], pick, d) == Pick(o, pick, d)
  {
    assert [o][..0] == [];
  }

  /** The frame skip and the audio parameters after one step: the option's own value or the old one. */
  lemma StepAudioLastWins(st: State, sc: Key, o: Opt)
    requires Step(st, sc, o).Running?
    ensures var s := Step(st, sc, o).st.settings;
      && s.SkipFrames == (match SkipFramesArg(o) case Some(v) => v case None => st.settings.SkipFrames)
      && s.SoundPlaybackRate == (match AudioRateArg(o) case Some(v) => v case None => st.settings.SoundPlaybackRate)
      && s.SoundBufferSize == (match AudioBufferArg(o) case Some(v) => v case None => st.settings.SoundBufferSize)
  {
    match o
    case Hacks(v) => SetHacksEffect(st.(settings := st.settings.(HacksEnabled := true)), v);
    case _ =>
  }

  /** The controller and the hacks switch after one step. */
  lemma StepSwitchesLastWins(st: State, sc: Key, o: Opt)
    requires Step(st, sc, o).Running?
    ensures var s := Step(st, sc, o).st.settings;
      && s.ControllerOption == (match ControllerArg(o) case Some(v) => v case None => st.settings.ControllerOption)
      && s.HacksEnabled == (match HacksEnabledArg(o) case Some(v) => v case None => st.settings.HacksEnabled)
  {
    match o
    case Hacks(v) => SetHacksEffect(st.(settings := st.settings.(HacksEnabled := true)), v);
    case _ =>
  }

  /** The hacks file after one step. */
  lemma StepHacksFileLastWins(st: State, sc: Key, o: Opt)
    requires Step(st, sc, o).Running?
    ensures Step(st, sc, o).st.config.hacksFile == (match HacksFileArg(o) case Some(v) => v case None => st.config.hacksFile)
  {
    match o
    case Hacks(v) => SetHacksEffect(st.(settings := st.settings.(HacksEnabled := true)), v);
    case _ =>
  }

  /** The ROM after one step. */
  lemma StepRomLastWins(st: State, sc: Key, o: Opt)
    requires Step(st, sc, o).Running?
    ensures Step(st, sc, o).st.romFile == (match RomArg(o) case Some(v) => v case None => st.romFile)
  {
    match o
    case Hacks(v) => SetHacksEffect(st.(settings := st.settings.(HacksEnabled := true)), v);
    case _ =>
  }

  /**
   * The scancode register after one step, in the two shapes its users need:
   * the `Last`/`ScancodeArg` form for `RunLastWins`, the `NextScancode`
   * form for the binding lemmas.
   */
  lemma StepScancodeLastWins(st: State, sc: Key, o: Opt)
    requires Step(st, sc, o).Running?
    ensures Step(st, sc, o).scancode == (match ScancodeArg(o) case Some(v) => v case None => sc)
    ensures Step(st, sc, o).scancode == NextScancode(sc, o)
  {
  }

  /**
   * Single-valued settings keep the value of the LAST option that sets them
   * (frame skip, audio rate and buffer size verbatim, the controller from
   * `--mouse`/`--superscope`, hacks on or off, the hacks file, the ROM from a
   * `--hacks` fallback, the scancode register); with no such option they keep
   * their value from before.
   */
  lemma {:induction false} RunLastWins(st: State, sc: Key, opts: seq<Opt>)
    requires Run(st, sc, opts).Running?
    ensures var r := Run(st, sc, opts);
      && r.st.settings.SkipFrames == Last(opts, SkipFramesArg, st.settings.SkipFrames)
      && r.st.settings.SoundPlaybackRate == Last(opts, AudioRateArg, st.settings.SoundPlaybackRate)
      && r.st.settings.SoundBufferSize == Last(opts, AudioBufferArg, st.settings.SoundBufferSize)
      && r.st.settings.ControllerOption == Last(opts, ControllerArg, st.settings.ControllerOption)
      && r.st.settings.HacksEnabled == Last(opts, HacksEnabledArg, st.settings.HacksEnabled)
      && r.st.config.hacksFile == Last(opts, HacksFileArg, st.config.hacksFile)
      && r.st.romFile == Last(opts, RomArg, st.romFile)
      && r.scancode == Last(opts, ScancodeArg, sc)
    decreases |opts|
  {
    if opts != [] {
      var next := Step(st, sc, opts[0]);
      StepAudioLastWins(st, sc, opts[0]);
      StepSwitchesLastWins(st, sc, opts[0]);
      StepHacksFileLastWins(st, sc, opts[0]);
      StepRomLastWins(st, sc, opts[0]);
      StepScancodeLastWins(st, sc, opts[0]);
      LastOne(opts[0], SkipFramesArg, st.settings.SkipFrames);
      LastOne(opts[0], AudioRateArg, st.settings.SoundPlaybackRate);
      LastOne(opts[0], AudioBufferArg, st.settings.SoundBufferSize);
      LastOne(opts[0], ControllerArg, st.settings.ControllerOption);
      LastOne(opts[0], HacksEnabledArg, st.settings.HacksEnabled);
      LastOne(opts[0], HacksFileArg, st.config.hacksFile);
      LastOne(opts[0], RomArg, st.romFile);
      LastOne(opts[0], ScancodeArg, sc);
      RunLastWins(next.st, next.scancode, opts[1..]);
      LastFront(opts, SkipFramesArg, st.settings.SkipFrames);
      LastFront(opts, AudioRateArg, st.settings.SoundPlaybackRate);
      LastFront(opts, AudioBufferArg, st.settings.SoundBufferSize);
      LastFront(opts, ControllerArg, st.settings.ControllerOption);
      LastFront(opts, HacksEnabledArg, st.settings.HacksEnabled);
      LastFront(opts, HacksFileArg, st.config.hacksFile);
      LastFront(opts, RomArg, st.romFile);
      LastFront(opts, ScancodeArg, sc);
    }
  }

  // ---------------------------------------------------------------------
  // One-way flags

  /** The switches options turn on and no option turns off. */
  datatype Flag =
    | AudioDisabled | FrameRateDisplayed | FullscreenOn | SixteenBitOn | TransparencyOn
    | PalForced | NtscForced | TurboOn | MouseEnabled | ScopeEnabled
    | LoadSnapshot | SaveSnapshot | TouchscreenOn | SpeedHacksOnly

  /** Whether flag `f` is on in `st`. */
  predicate FlagOn(st: State, f: Flag)
  {
    match f
    case AudioDisabled => !st.config.enableAudio
    case FrameRateDisplayed => st.settings.DisplayFrameRate
    case FullscreenOn => st.config.fullscreen
    case SixteenBitOn => st.settings.SixteenBit
    case TransparencyOn => st.settings.Transparency
    case PalForced => st.settings.ForcePAL
    case NtscForced => st.settings.ForceNTSC
    case TurboOn => st.settings.TurboMode
    case MouseEnabled => st.settings.Mouse
    case ScopeEnabled => st.settings.SuperScope
    case LoadSnapshot => st.config.snapshotLoad
    case SaveSnapshot => st.config.snapshotSave
    case TouchscreenOn => st.config.touchscreenInput
    case SpeedHacksOnly => st.settings.HacksFilter
  }

  /** Whether option `o` turns flag `f` on, by its case in `parseArgs` (and `setHacks`). */
  predicate SetsFlag(o: Opt, f: Flag)
  {
    match f
    case AudioDisabled => o.DisableAudio?
    case FrameRateDisplayed => o.DisplayFramerate?
    case FullscreenOn => o.Fullscreen?
    case SixteenBitOn => o.Transparency?
    case TransparencyOn => o.Transparency?
    case PalForced => o.Pal?
    case NtscForced => o.Ntsc?
    case TurboOn => o.Turbo?
    case MouseEnabled => o.Mouse?
    case ScopeEnabled => o.SuperScope?
    case LoadSnapshot => o.Snapshot?
    case SaveSnapshot => o.Snapshot?
    case TouchscreenOn => o.Touchscreen?
    case SpeedHacksOnly => o.Hacks? && o.value.Some? && ClassifyHacks(o.value.value) == SpeedOnly
  }

  /** Whether some option of the stream turns flag `f` on. */
  predicate AnySets(opts: seq<Opt>, f: Flag)
  {
    exists i | 0 <= i < |opts| :: SetsFlag(opts[i], f)
  }

  /** The options that assign `Settings` fields change a flag only by turning their own on. */
  lemma SettingsEffectFlags(st: State, o: Opt, f: Flag)
    requires SetsSettings(o)
    ensures FlagOn(st.(settings := SettingsEffect(st.settings, o)), f) <==> FlagOn(st, f) || SetsFlag(o, f)
  {
  }

  /** The options that assign `Config` fields change a flag only by turning their own on. */
  lemma ConfigEffectFlags(st: State, o: Opt, f: Flag)
    requires SetsConfig(o)
    ensures FlagOn(st.(config := ConfigEffect(st.config, o)), f) <==> FlagOn(st, f) || SetsFlag(o, f)
  {
    match f
    case AudioDisabled =>
    case FrameRateDisplayed =>
    case FullscreenOn =>
    case SixteenBitOn =>
    case TransparencyOn =>
    case PalForced =>
    case NtscForced =>
    case TurboOn =>
    case MouseEnabled =>
    case ScopeEnabled =>
    case LoadSnapshot =>
    case SaveSnapshot =>
    case TouchscreenOn =>
    case SpeedHacksOnly =>
  }

  /** `--hacks` changes a flag only by turning the speed-only filter on. */
  lemma HacksFlags(st: State, v: Option<string>, f: Flag)
    ensures FlagOn(SetHacks(st.(settings := st.settings.(HacksEnabled := true)), v), f) <==> FlagOn(st, f) || SetsFlag(Hacks(v), f)
  {
    var on := st.(settings := st.settings.(HacksEnabled := true));
    SetHacksEffect(on, v);
    match f
    case AudioDisabled =>
    case FrameRateDisplayed =>
    case FullscreenOn =>
    case SixteenBitOn =>
    case TransparencyOn =>
    case PalForced =>
    case NtscForced =>
    case TurboOn =>
    case MouseEnabled =>
    case ScopeEnabled =>
    case LoadSnapshot =>
    case SaveSnapshot =>
    case TouchscreenOn =>
    case SpeedHacksOnly =>
  }

  /** After one step a flag is on exactly when it was on before or the option turns it on. */
  lemma StepFlags(st: State, sc: Key, o: Opt, f: Flag)
    requires Step(st, sc, o).Running?
    ensures FlagOn(Step(st, sc, o).st, f) <==> FlagOn(st, f) || SetsFlag(o, f)
  {
    if SetsSettings(o) {
      SettingsEffectFlags(st, o, f);
    } else if SetsConfig(o) {
      ConfigEffectFlags(st, o, f);
    } else if o.Hacks? {
      HacksFlags(st, o.value, f);
    }
  }

  /** A stream's flags: its first option's, or those of the rest. */
  lemma AnySetsFront(opts: seq<Opt>, f: Flag)
    requires opts != []
    ensures AnySets(opts, f) <==> SetsFlag(opts[0], f) || AnySets(opts[1..], f)
  {
    if AnySets(opts, f) {
      var i :| 0 <= i < |opts| && SetsFlag(opts[i], f);
      if i > 0 {
        assert opts[1..][i - 1] == opts[i];
      }
    }
    if AnySets(opts[1..], f) {
      var j :| 0 <= j < |opts[1..]| && SetsFlag(opts[1..][j], f);
      assert opts[j + 1] == opts[1..][j];
    }
  }

  /**
   * After a stream that runs to its end, a flag is on exactly when it was on
   * before or some option of the stream turns it on: parseArgs never switches
   * these back off, and no option switches on a flag that is not its own.
   */
  lemma {:induction false} RunFlags(st: State, sc: Key, opts: seq<Opt>, f: Flag)
    requires Run(st, sc, opts).Running?
    ensures FlagOn(Run(st, sc, opts).st, f) <==> FlagOn(st, f) || AnySets(opts, f)
    decreases |opts|
  {
    if opts != [] {
      var next := Step(st, sc, opts[0]);
      StepFlags(st, sc, opts[0], f);
      RunFlags(next.st, next.scancode, opts[1..], f);
      AnySetsFront(opts, f);
    }
  }

  // ---------------------------------------------------------------------
  // What no option touches

  /** No option changes the settings only `loadDefaults` writes, nor `quitting` and `xsp`. */
  lemma StepKeepsCore(st: State, sc: Key, o: Opt)
    requires Step(st, sc, o).Running?
    ensures Step(st, sc, o).st.settings.core == st.settings.core
    ensures Step(st, sc, o).st.config.quitting == st.config.quitting
    ensures Step(st, sc, o).st.config.xsp == st.config.xsp
  {
    match o
    case Hacks(v) => SetHacksEffect(st.(settings := st.settings.(HacksEnabled := true)), v);
    case _ =>
  }

  /** So after a whole stream those fields still hold the values they had before it. */
  lemma {:induction false} RunKeepsCore(st: State, sc: Key, opts: seq<Opt>)
    requires Run(st, sc, opts).Running?
    ensures Run(st, sc, opts).st.settings.core == st.settings.core
    ensures Run(st, sc, opts).st.config.quitting == st.config.quitting
    ensures Run(st, sc, opts).st.config.xsp == st.config.xsp
    decreases |opts|
  {
    if opts != [] {
      var next := Step(st, sc, opts[0]);
      StepKeepsCore(st, sc, opts[0]);
      RunKeepsCore(next.st, next.scancode, opts[1..]);
    }
  }

  /**
   * The loop body stops exactly on a parser error (`OptionError`) and on an
   * unknown button or action name (the `DIE` of the lookup); every other
   * option lets the loop go on.
   */
  lemma StepHalts(st: State, sc: Key, o: Opt)
    ensures Step(st, sc, o).Halted? <==>
      o.ParseError? || (o.Button? && Names.ButtonNameToBit(o.name).None?) || (o.Action? && Names.ActionNameToBit(o.name).None?)
    ensures Step(st, sc, o).Halted? ==>
      Step(st, sc, o).halt == (if o.ParseError? then OptionError else if o.Button? then BadButtonName(o.name) else BadActionName(o.name))
  {
    match o
    case Button(name) =>
      if Names.ButtonNameToBit(name).Some? {
        StepButtonBit(st, sc, name);
      } else {
        StepBadButton(st, sc, name);
      }
    case Action(name) =>
      if Names.ActionNameToBit(name).Some? {
        StepActionBit(st, sc, name);
      } else {
        StepBadAction(st, sc, name);
      }
    case _ =>
  }

  // ---------------------------------------------------------------------
  // Key bindings

  /** The scancode register after option `o`. */
  function NextScancode(sc: Key, o: Opt): Key
  {
    if o.Scancode? then ToScancode(o.code) else sc
  }

  /** The button bits option `o` binds to key `k` when the register holds `sc`. */
  function ButtonHere(sc: Key, o: Opt, k: Key): bv16
  {
    if o.Button? && sc == k && Names.ButtonNameToBit(o.name).Some?
    then Names.ButtonNameToBit(o.name).value else 0
  }

  /** The action bits option `o` binds to key `k` when the register holds `sc`. */
  function ActionHere(sc: Key, o: Opt, k: Key): bv8
  {
    if o.Action? && sc == k && Names.ActionNameToBit(o.name).Some?
    then Names.ActionNameToBit(o.name).value else 0
  }

  /** The button bits a stream binds to key `k`, the register starting at `sc`. */
  function ButtonBits(sc: Key, opts: seq<Opt>, k: Key): bv16
    decreases |opts|
  {
    if opts == [] then 0
    else
      var o := opts[0];
      ButtonHere(sc, o, k) | ButtonBits(NextScancode(sc, o), opts[1..], k)
  }

  /** The action bits a stream binds to key `k`, the register starting at `sc`. */
  function ActionBits(sc: Key, opts: seq<Opt>, k: Key): bv8
    decreases |opts|
  {
    if opts == [] then 0
    else
      var o := opts[0];
      ActionHere(sc, o, k) | ActionBits(NextScancode(sc, o), opts[1..], k)
  }

  /** Options other than `--button` and `--action` leave both key tables alone. */
  lemma StepKeepsTables(st: State, sc: Key, o: Opt)
    requires Step(st, sc, o).Running? && !o.Button? && !o.Action?
    ensures Step(st, sc, o).st.config.joypad1Mapping == st.config.joypad1Mapping
    ensures Step(st, sc, o).st.config.action == st.config.action
  {
    if o.Hacks? {
      SetHacksEffect(st.(settings := st.settings.(HacksEnabled := true)), o.value);
    }
  }

  /**
   * A `--button` that does not abort ORs its bit into the entry the register
   * selects and leaves the action table alone.
   */
  lemma StepButtonTables(st: State, sc: Key, o: Opt, k: Key)
    requires Step(st, sc, o).Running? && o.Button?
    ensures Step(st, sc, o).st.config.joypad1Mapping[k] == st.config.joypad1Mapping[k] | ButtonHere(sc, o, k)
    ensures Step(st, sc, o).st.config.action == st.config.action
  {
    var name := o.name;
    assert o == Button(name);
    if Names.ButtonNameToBit(name).Some? {
      StepButtonBit(st, sc, name);
    } else {
      StepBadButton(st, sc, name);
      assert false;
    }
  }

  /**
   * An `--action` that does not abort ORs its bit into the entry the register
   * selects and leaves the button table alone.
   */
  lemma StepActionTables(st: State, sc: Key, o: Opt, k: Key)
    requires Step(st, sc, o).Running? && o.Action?
    ensures Step(st, sc, o).st.config.action[k] == st.config.action[k] | ActionHere(sc, o, k)
    ensures Step(st, sc, o).st.config.joypad1Mapping == st.config.joypad1Mapping
  {
    var name := o.name;
    assert o == Action(name);
    if Names.ActionNameToBit(name).Some? {
      StepActionBit(st, sc, name);
    } else {
      StepBadAction(st, sc, name);
      assert false;
    }
  }

  lemma StepButtonBindings(st: State, sc: Key, o: Opt, k: Key)
    requires Step(st, sc, o).Running?
    ensures Step(st, sc, o).st.config.joypad1Mapping[k] == st.config.joypad1Mapping[k] | ButtonHere(sc, o, k)
  {
    if o.Button? {
      StepButtonTables(st, sc, o, k);
    } else if o.Action? {
      StepActionTables(st, sc, o, k);
    } else {
      StepKeepsTables(st, sc, o);
    }
  }

  lemma StepActionBindings(st: State, sc: Key, o: Opt, k: Key)
    requires Step(st, sc, o).Running?
    ensures Step(st, sc, o).st.config.action[k] == st.config.action[k] | ActionHere(sc, o, k)
  {
    if o.Button? {
      StepButtonTables(st, sc, o, k);
    } else if o.Action? {
      StepActionTables(st, sc, o, k);
    } else {
      StepKeepsTables(st, sc, o);
    }
  }

  /**
   * Button bindings accumulate: after a stream that runs to its end, entry
   * `k` holds its old bits ORed with every mask bound while the register
   * held `k`; an entry no option addresses keeps its value.
   */
  lemma {:induction false} RunButtonBindings(st: State, sc: Key, opts: seq<Opt>, k: Key)
    requires Run(st, sc, opts).Running?
    ensures Run(st, sc, opts).st.config.joypad1Mapping[k] == st.config.joypad1Mapping[k] | ButtonBits(sc, opts, k)
    decreases |opts|
  {
    if opts != [] {
      var o := opts[0];
      var next := Step(st, sc, o);
      StepButtonBindings(st, sc, o, k);
      StepScancodeLastWins(st, sc, o);
      RunButtonBindings(next.st, next.scancode, opts[1..], k);
      var here, rest := ButtonHere(sc, o, k), ButtonBits(next.scancode, opts[1..], k);
      var x := st.config.joypad1Mapping[k];
      assert (x | here) | rest == x | (here | rest);
    }
  }

  /** Action bindings accumulate in the same way. */
  lemma {:induction false} RunActionBindings(st: State, sc: Key, opts: seq<Opt>, k: Key)
    requires Run(st, sc, opts).Running?
    ensures Run(st, sc, opts).st.config.action[k] == st.config.action[k] | ActionBits(sc, opts, k)
    decreases |opts|
  {
    if opts != [] {
      var o := opts[0];
      var next := Step(st, sc, o);
      StepActionBindings(st, sc, o, k);
      StepScancodeLastWins(st, sc, o);
      RunActionBindings(next.st, next.scancode, opts[1..], k);
      var here, rest := ActionHere(sc, o, k), ActionBits(next.scancode, opts[1..], k);
      var x := st.config.action[k];
      assert (x | here) | rest == x | (here | rest);
    }
  }

  // ---------------------------------------------------------------------
  // Composition and halting

  /** Running `a + b` is running `a`, then `b` from where `a` left off. */
  lemma {:induction false} RunAppend(st: State, sc: Key, a: seq<Opt>, b: seq<Opt>)
    ensures Run(st, sc, a + b) ==
      match Run(st, sc, a)
      case Halted(h) => Halted(h)
      case Running(st', sc') => Run(st', sc', b)
    decreases |a|
  {
    if a == [] {
      assert a + b == b;
    } else {
      assert (a + b)[0] == a[0];
      assert (a + b)[1..] == a[1..] + b;
      var next := Step(st, sc, a[0]);
      if next.Running? {
        RunAppend(next.st, next.scancode, a[1..], b);
      }
    }
  }

  /** A popt error stops loading with exit status 2, whatever follows it. */
  lemma OptionErrorExits(pre: seq<Opt>, post: seq<Opt>, extra: Option<string>, hgwLaunched: bool)
    requires Run(Defaults(), 0, pre).Running?
    ensures LoadConfig(pre + [ParseError] + post, extra, hgwLaunched) == Stopped(OptionError)
    ensures ExitCode(OptionError) == Some(2)
  {
    assert pre + [ParseError] + post == pre + ([ParseError] + post);
    RunAppend(Defaults(), 0, pre, [ParseError] + post);
  }

  /** An unknown button name aborts loading at that option (no exit status). */
  lemma BadButtonAborts(pre: seq<Opt>, name: string, post: seq<Opt>, extra: Option<string>, hgwLaunched: bool)
    requires Run(Defaults(), 0, pre).Running?
    requires Names.ButtonNameToBit(name).None?
    ensures LoadConfig(pre + [Button(name)] + post, extra, hgwLaunched) == Stopped(BadButtonName(name))
    ensures ExitCode(BadButtonName(name)).None?
  {
    assert pre + [Button(name)] + post == pre + ([Button(name)] + post);
    RunAppend(Defaults(), 0, pre, [Button(name)] + post);
  }

  /** An unknown action name aborts loading at that option (no exit status). */
  lemma BadActionAborts(pre: seq<Opt>, name: string, post: seq<Opt>, extra: Option<string>, hgwLaunched: bool)
    requires Run(Defaults(), 0, pre).Running?
    requires Names.ActionNameToBit(name).None?
    ensures LoadConfig(pre + [Action(name)] + post, extra, hgwLaunched) == Stopped(BadActionName(name))
    ensures ExitCode(BadActionName(name)).None?
  {
    assert pre + [Action(name)] + post == pre + ([Action(name)] + post);
    RunAppend(Defaults(), 0, pre, [Action(name)] + post);
  }

  /**
   * When the stream runs to its end, loading fails with exit status 2
   * exactly when no ROM was named — neither by a leftover argument nor by a
   * `--hacks` value — and the program was not launched by the desktop
   * service; otherwise the leftover argument, if any, is the ROM.
   */
  lemma {:induction false} RomRequired(opts: seq<Opt>, extra: Option<string>, hgwLaunched: bool)
    requires Run(Defaults(), 0, opts).Running?
    ensures var rom := Last(opts, RomArg, None);
      LoadConfig(opts, extra, hgwLaunched) == Stopped(NoRom) <==> extra.None? && rom.None? && !hgwLaunched
    ensures LoadConfig(opts, extra, hgwLaunched).Loaded? ==>
      var st := LoadConfig(opts, extra, hgwLaunched).st;
      && (GotRomFile(st) || hgwLaunched)
      && PathsAgree(st.romFile, st.basePath)
      && st.romFile == (if extra.Some? then Some(Filenames.RomFileOf(extra.value)) else Last(opts, RomArg, None))
    ensures ExitCode(NoRom) == Some(2)
  {
    RunLastWins(Defaults(), 0, opts);
    RunKeepsPaths(Defaults(), 0, opts);
  }

  lemma StepKeepsPaths(st: State, sc: Key, o: Opt)
    requires PathsAgree(st.romFile, st.basePath)
    requires Step(st, sc, o).Running?
    ensures PathsAgree(Step(st, sc, o).st.romFile, Step(st, sc, o).st.basePath)
  {
    match o
    case Hacks(v) => SetHacksEffect(st.(settings := st.settings.(HacksEnabled := true)), v);
    case _ =>
  }

  /** The ROM path and the base path agree after every stream that runs to its end. */
  lemma {:induction false} RunKeepsPaths(st: State, sc: Key, opts: seq<Opt>)
    requires PathsAgree(st.romFile, st.basePath)
    requires Run(st, sc, opts).Running?
    ensures PathsAgree(Run(st, sc, opts).st.romFile, Run(st, sc, opts).st.basePath)
    decreases |opts|
  {
    if opts != [] {
      var next := Step(st, sc, opts[0]);
      StepKeepsPaths(st, sc, opts[0]);
      RunKeepsPaths(next.st, next.scancode, opts[1..]);
    }
  }

  /** A second `S9xSetRomFile` replaces the ROM and the base path of the first. */
  lemma SetRomFileReplaces(st: State, p: string, q: string)
    ensures SetRomFile(SetRomFile(st, p), q) == SetRomFile(st, q)
  {
  }
}
