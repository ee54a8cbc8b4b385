/**
 * The option state machine of platform/config.cpp as a pure specification:
 * the emulator's `Settings` record, the front end's `Config` record and the
 * ROM/base path pair as one value, the decoded option stream, and the effect
 * of `loadDefaults`, `S9xSetRomFile`, `setHacks`, `parseArgs`,
 * `S9xLoadConfig` and `S9xUnloadConfig` on that value. The classes in module
 * Loader are proved to update their fields exactly as these functions say.
 */
module Options {
  import opened Wrappers
  import opened CString
  import Names
  import Filenames

  /** `Settings.ControllerOption`: the device plugged into the controller ports. */
  datatype Controller = SnesJoypad | SnesMouseSwapped | SnesMouse | SnesSuperScope

  /**
   * The fields of the emulator's `Settings` record that `loadDefaults` sets
   * and no option changes afterwards.
   */
  datatype CoreSettings = CoreSettings(
    JoystickEnabled: bool,
    Stereo: bool,
    CyclesPercentage: int,
    DisableSoundEcho: bool,
    APUEnabled: bool,
    Shutdown: bool,
    ShutdownMaster: bool,
    FrameTimePAL: int,
    FrameTimeNTSC: int,
    FrameTime: int,
    DisableSampleCaching: bool,
    DisableMasterVolume: bool,
    MultiPlayer5: bool,
    ForceTransparency: bool,
    SupportHiRes: bool,
    NetPlay: bool,
    AutoSaveDelay: int,
    ApplyCheats: bool,
    TurboSkipFrames: int)

  /**
   * The fields of the emulator's `Settings` record that the front end sets:
   * those only `loadDefaults` writes grouped in `core`, then those the
   * options write.
   */
  datatype Settings = Settings(
    core: CoreSettings,
    SoundPlaybackRate: int,
    SoundBufferSize: int,
    SkipFrames: int,
    Mouse: bool,
    SuperScope: bool,
    ControllerOption: Controller,
    Transparency: bool,
    SixteenBit: bool,
    TurboMode: bool,
    ForcePAL: bool,
    ForceNTSC: bool,
    HacksEnabled: bool,
    HacksFilter: bool,
    DisplayFrameRate: bool)

  /** A scancode: the value range of the `unsigned char` register. */
  type Key = k: int | 0 <= k < 256

  /** The 256-entry key tables of `Config`, indexed by scancode. */
  type ButtonTable = s: seq<bv16> | |s| == 256 witness seq(256, _ => 0 as bv16)
  type ActionTable = s: seq<bv8> | |s| == 256 witness seq(256, _ => 0 as bv8)

  /** The front end's own `Config` record. */
  datatype Config = Config(
    quitting: bool,
    enableAudio: bool,
    fullscreen: bool,
    xsp: bool,
    hacksFile: Option<string>,
    touchscreenInput: bool,
    snapshotLoad: bool,
    snapshotSave: bool,
    joypad1Mapping: ButtonTable,
    action: ActionTable)

  /** Everything the option code reads and writes: both records and the two file-static paths. */
  datatype State = State(settings: Settings, config: Config, romFile: Option<string>, basePath: Option<string>)

  /**
   * One option as the option parser hands it over, its argument already
   * decoded. `Conf` is a `--conf FILE`: the file's options are spliced into
   * the stream by the parser itself. `ParseError` is any error code below -1.
   */
  datatype Opt =
    | DisableAudio
    | DisplayFramerate
    | SkipFrames(frames: int)
    | Fullscreen
    | Transparency
    | Hacks(value: Option<string>)
    | Pal
    | Ntsc
    | Turbo
    | Conf(file: string)
    | Mouse(port: Option<int>)
    | SuperScope
    | Snapshot
    | AudioRate(hz: int)
    | AudioBufferSize(samples: int)
    | Touchscreen
    | Scancode(code: int)
    | Button(name: string)
    | Action(name: string)
    | HacksFile(path: string)
    | ParseError

  /** Why loading the configuration stops the process. */
  datatype Halt =
    | BadButtonName(button: string)  // DIE: abort()
    | BadActionName(act: string)     // DIE: abort()
    | OptionError                    // exit(2) after an option parser error
    | NoRom                          // exit(2): no ROM and not launched with one

  /** `exit(2)` for the two usage errors; `abort()` (no exit code) for the two bad names. */
  function ExitCode(h: Halt): (r: Option<int>)
    ensures r.Some? ==> r.value == 2
    ensures r.None? <==> h.BadButtonName? || h.BadActionName?
  {
    if h.OptionError? || h.NoRom? then Some(2) else None
  }

  /** The state of the option loop: the records and the `scancode` register, or a halt. */
  datatype Progress = Running(st: State, scancode: Key) | Halted(halt: Halt)

  /** The outcome of `parseArgs` and of `S9xLoadConfig`. */
  datatype Outcome = Loaded(st: State) | Stopped(halt: Halt)

  /** The base path always belongs to the current ROM path. */
  predicate PathsAgree(romFile: Option<string>, basePath: Option<string>)
  {
    match romFile
    case None => basePath.None?
    case Some(rom) => basePath == Some(Filenames.BasePathOf(rom)) && |rom| <= PATH_MAX
  }

  /** The `Settings` record as `loadDefaults` leaves it (zeroed, then the listed fields set). */
  function DefaultSettings(): Settings
  {
    Settings(
      core := CoreSettings(
        JoystickEnabled := false, Stereo := true, CyclesPercentage := 100,
        DisableSoundEcho := false, APUEnabled := false, Shutdown := true, ShutdownMaster := true,
        FrameTimePAL := 20, FrameTimeNTSC := 16, FrameTime := 16,
        DisableSampleCaching := false, DisableMasterVolume := false, MultiPlayer5 := false,
        ForceTransparency := false, SupportHiRes := false, NetPlay := false,
        AutoSaveDelay := 15 * 60, ApplyCheats := false, TurboSkipFrames := 15),
      SoundPlaybackRate := 22050, SoundBufferSize := 512, SkipFrames := AUTO_FRAMERATE,
      Mouse := false, SuperScope := false, ControllerOption := SnesJoypad,
      Transparency := false, SixteenBit := true, TurboMode := false,
      ForcePAL := false, ForceNTSC := false, HacksEnabled := false, HacksFilter := false,
      DisplayFrameRate := false)
  }

  /** The `Config` record as `loadDefaults` leaves it: both key tables all zero. */
  function DefaultConfig(): Config
  {
    Config(
      quitting := false, enableAudio := true, fullscreen := false, xsp := false,
      hacksFile := None, touchscreenInput := false, snapshotLoad := false, snapshotSave := false,
      joypad1Mapping := seq(256, _ => 0 as bv16), action := seq(256, _ => 0 as bv8))
  }

  /** The state `loadDefaults` leaves: both records reset and no ROM path. */
  function Defaults(): (d: State)
    ensures d.romFile.None? && PathsAgree(d.romFile, d.basePath)
    ensures d.config.enableAudio && !d.config.fullscreen && d.config.hacksFile.None?
    ensures d.settings.SoundPlaybackRate == 22050 && d.settings.SoundBufferSize == 512
    ensures d.settings.SkipFrames == AUTO_FRAMERATE
    ensures d.settings.core.FrameTime == d.settings.core.FrameTimeNTSC == 16
    ensures d.settings.ControllerOption == SnesJoypad
    ensures !d.settings.HacksEnabled && !d.settings.HacksFilter
    ensures d.settings.core.AutoSaveDelay == 900
    ensures forall k | 0 <= k < 256 :: d.config.joypad1Mapping[k] == 0 && d.config.action[k] == 0
  {
    State(DefaultSettings(), DefaultConfig(), None, None)
  }

  /** `AUTO_FRAMERATE`: the frame-skip value meaning "choose automatically" (the emulator header's value). */
  const AUTO_FRAMERATE: int := 200

  /** `S9xSetRomFile`: both paths replaced, the base path cut from the stored ROM path. */
  function SetRomFile(st: State, path: string): (r: State)
    ensures r.romFile == Some(Filenames.RomFileOf(path))
    ensures |path| <= PATH_MAX ==> r.romFile == Some(path)
    ensures r.romFile.Some? && PathsAgree(r.romFile, r.basePath)
    ensures var rom := r.romFile.value; var base := r.basePath.value;
      ('.' !in rom ==> base == rom) &&
      ('.' in rom ==> rom == base + "." + rom[|base| + 1..] && '.' !in rom[|base| + 1..])
    ensures r.settings == st.settings && r.config == st.config
  {
    var rom := Filenames.RomFileOf(path);
    st.(romFile := Some(rom), basePath := Some(Filenames.BasePathOf(rom)))
  }

  /** The four readings `setHacks` gives a value. */
  datatype HacksValue = SpeedOnly | Yes | No | RomPath

  /** The `strcasecmp` tests of `setHacks`, in the order it makes them. */
  function ClassifyHacks(v: string): (r: HacksValue)
    ensures r == SpeedOnly <==> Lower(v) in {"speed-only", "speed", "s"}
    ensures r == Yes <==> Lower(v) in {"yes", "y"}
    ensures r == No <==> Lower(v) in {"no", "n"}
  {
    var key := Lower(v);
    if key == "speed-only" || key == "speed" || key == "s" then SpeedOnly
    else if key == "yes" || key == "y" then Yes
    else if key == "no" || key == "n" then No
    else RomPath
  }

  /** `setHacks`: enable hacks, then act on the optional value. */
  function SetHacks(st: State, value: Option<string>): State
  {
    var on := st.(settings := st.settings.(HacksEnabled := true));
    match value
    case None => on
    case Some(v) =>
      match ClassifyHacks(v)
      case SpeedOnly => on.(settings := on.settings.(HacksFilter := true))
      case Yes => on
      case No => on.(settings := on.settings.(HacksEnabled := false))
      case RomPath => SetRomFile(on, v)
  }

  /**
   * What `setHacks` does, value by value: hacks end up enabled unless the
   * value is "no"/"n"; "speed-only"/"speed"/"s" also sets the filter; any
   * unrecognised value becomes the ROM path; no other setting changes and the
   * `Config` record is untouched.
   */
  lemma SetHacksEffect(st: State, value: Option<string>)
    ensures var r := SetHacks(st, value);
      var kind := if value.Some? then Some(ClassifyHacks(value.value)) else None;
      && (r.settings.HacksEnabled <==> kind != Some(No))
      && (r.settings.HacksFilter <==> st.settings.HacksFilter || kind == Some(SpeedOnly))
      && r.romFile == (if kind == Some(RomPath) then Some(Filenames.RomFileOf(value.value)) else st.romFile)
      && (PathsAgree(st.romFile, st.basePath) ==> PathsAgree(r.romFile, r.basePath))
      && r.settings == st.settings.(HacksEnabled := r.settings.HacksEnabled, HacksFilter := r.settings.HacksFilter)
      && r.config == st.config
  {
    match value
    case None =>
    case Some(v) =>
      match ClassifyHacks(v)
      case SpeedOnly =>
      case Yes =>
      case No =>
      case RomPath =>
  }

  /** The controller a `--mouse` option selects. */
  function MousePort(port: Option<int>): Controller
  {
    if port.None? || port.value <= 1 then SnesMouseSwapped else SnesMouse
  }

  /** `scancode = atoi(...)` into an `unsigned char`: the value modulo 256. */
  function ToScancode(code: int): (r: Key)
    ensures 0 <= code < 256 ==> r == code
    ensures (code - r) % 256 == 0
  {
    code % 256
  }

  /** The options whose case in `parseArgs` only assigns fields of `Settings`. */
  predicate SetsSettings(opt: Opt)
  {
    opt.DisplayFramerate? || opt.SkipFrames? || opt.Transparency? || opt.Pal? || opt.Ntsc?
    || opt.Turbo? || opt.Mouse? || opt.SuperScope? || opt.AudioRate? || opt.AudioBufferSize?
  }

  /** The options whose case in `parseArgs` only assigns scalar fields of `Config`. */
  predicate SetsConfig(opt: Opt)
  {
    opt.DisableAudio? || opt.Fullscreen? || opt.Snapshot? || opt.Touchscreen? || opt.HacksFile?
  }

  /** The `Settings` assignments of those cases. */
  function SettingsEffect(s: Settings, opt: Opt): Settings
    requires SetsSettings(opt)
  {
    match opt
    case DisplayFramerate => s.(DisplayFrameRate := true)
    case SkipFrames(n) => s.(SkipFrames := n)
    case Transparency => s.(SixteenBit := true, Transparency := true)
    case Pal => s.(ForcePAL := true)
    case Ntsc => s.(ForceNTSC := true)
    case Turbo => s.(TurboMode := true)
    case Mouse(port) => s.(Mouse := true, ControllerOption := MousePort(port))
    case SuperScope => s.(SuperScope := true, ControllerOption := SnesSuperScope)
    case AudioRate(hz) => s.(SoundPlaybackRate := hz)
    case AudioBufferSize(n) => s.(SoundBufferSize := n)
  }

  /** The `Config` assignments of those cases. */
  function ConfigEffect(c: Config, opt: Opt): (r: Config)
    requires SetsConfig(opt)
    ensures r.joypad1Mapping == c.joypad1Mapping && r.action == c.action
    ensures r.quitting == c.quitting && r.xsp == c.xsp
  {
    match opt
    case DisableAudio => c.(enableAudio := false)
    case Fullscreen => c.(fullscreen := true)
    case Snapshot => c.(snapshotLoad := true, snapshotSave := true)
    case Touchscreen => c.(touchscreenInput := true)
    case HacksFile(path) => c.(hacksFile := Some(path))
  }

  /** One pass of the `parseArgs` loop body for an option. */
  function Step(st: State, scancode: Key, opt: Opt): Progress
  {
    var s, c := st.settings, st.config;
    if SetsSettings(opt) then Running(st.(settings := SettingsEffect(s, opt)), scancode)
    else if SetsConfig(opt) then Running(st.(config := ConfigEffect(c, opt)), scancode)
    else match opt
    case Hacks(v) => Running(SetHacks(st.(settings := s.(HacksEnabled := true)), v), scancode)
    case Conf(_) => Running(st, scancode)
    case Scancode(code) => Running(st, ToScancode(code))
    case Button(name) =>
      (match Names.ButtonNameToBit(name)
       case None => Halted(BadButtonName(name))
       case Some(m) =>
         var k := scancode;
         Running(WithButtons(st, c.joypad1Mapping[k := c.joypad1Mapping[k] | m]), scancode))
    case Action(name) =>
      (match Names.ActionNameToBit(name)
       case None => Halted(BadActionName(name))
       case Some(m) =>
         var k := scancode;
         Running(WithActions(st, c.action[k := c.action[k] | m]), scancode))
    case ParseError => Halted(OptionError)
  }

  /** The state with the joypad table replaced. */
  function WithButtons(st: State, t: ButtonTable): State
  {
    st.(config := st.config.(joypad1Mapping := t))
  }

  /** The state with the action table replaced. */
  function WithActions(st: State, t: ActionTable): State
  {
    st.(config := st.config.(action := t))
  }

  /** A known button name ORs its bit into the table entry the register selects. */
  lemma StepButtonBit(st: State, scancode: Key, name: string)
    requires Names.ButtonNameToBit(name).Some?
    ensures Step(st, scancode, Button(name)) == Running(WithButtons(st, st.config.joypad1Mapping[scancode :=
      st.config.joypad1Mapping[scancode] | Names.ButtonNameToBit(name).value]), scancode)
  {
  }

  /** A known action name ORs its bit into the table entry the register selects. */
  lemma StepActionBit(st: State, scancode: Key, name: string)
    requires Names.ActionNameToBit(name).Some?
    ensures Step(st, scancode, Action(name)) == Running(WithActions(st, st.config.action[scancode :=
      st.config.action[scancode] | Names.ActionNameToBit(name).value]), scancode)
  {
  }

  /** An unknown button name halts the loop with `BadButtonName`. */
  lemma StepBadButton(st: State, scancode: Key, name: string)
    requires Names.ButtonNameToBit(name).None?
    ensures Step(st, scancode, Button(name)) == Halted(BadButtonName(name))
  {
  }

  /** An unknown action name halts the loop with `BadActionName`. */
  lemma StepBadAction(st: State, scancode: Key, name: string)
    requires Names.ActionNameToBit(name).None?
    ensures Step(st, scancode, Action(name)) == Halted(BadActionName(name))
  {
  }

  /** The `parseArgs` loop over the rest of the stream, from a given state and register. */
  function Run(st: State, scancode: Key, opts: seq<Opt>): Progress
    decreases |opts|
  {
    if opts == [] then Running(st, scancode)
    else match Step(st, scancode, opts[0])
      case Halted(h) => Halted(h)
      case Running(st', scancode') => Run(st', scancode', opts[1..])
  }

  /** `parseArgs`: the loop with the register at 0, then the first leftover argument as ROM. */
  function ParseArgs(st: State, opts: seq<Opt>, extra: Option<string>): Outcome
  {
    match Run(st, 0, opts)
    case Halted(h) => Stopped(h)
    case Running(st', _) => Loaded(if extra.Some? then SetRomFile(st', extra.value) else st')
  }

  /** `gotRomFile`: whether a ROM path has been set. */
  predicate GotRomFile(st: State)
  {
    st.romFile.Some?
  }

  /**
   * `S9xLoadConfig`: defaults, then the stream (default config file first,
   * then the command line), then the check that a ROM is known.
   */
  function LoadConfig(opts: seq<Opt>, extra: Option<string>, hgwLaunched: bool): Outcome
  {
    match ParseArgs(Defaults(), opts, extra)
    case Stopped(h) => Stopped(h)
    case Loaded(st) => if !GotRomFile(st) && !hgwLaunched then Stopped(NoRom) else Loaded(st)
  }

  /** `S9xUnloadConfig`: both paths and the hacks file released. */
  function UnloadConfig(st: State): (r: State)
    ensures PathsAgree(r.romFile, r.basePath) && !GotRomFile(r)
    ensures forall t :: Filenames.GetFilename(r.romFile, r.basePath, t).None?
    ensures r.config.hacksFile.None?
    ensures r.settings == st.settings
    ensures r.config == st.config.(hacksFile := None)
  {
    st.(romFile := None, basePath := None, config := st.config.(hacksFile := None))
  }
}
