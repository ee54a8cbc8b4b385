/**
 * The global state of platform/config.cpp and the functions that fill it,
 * written the way the source works: the emulator's `Settings` struct and the
 * fields of the front end's `Config` struct are assigned one statement at a
 * time, the two 256-entry key tables are arrays updated in place, and
 * `parseArgs` is a loop over the option stream with the `scancode` register
 * as a local. Every method is proved to leave exactly the state the matching
 * function of module Options describes.
 */
module Loader {
  import opened Wrappers
  import Names
  import Filenames
  import Options

  /**
   * The globals the option code writes: the `Settings` struct (a plain record,
   * updated field by field), the fields of `Config`, its two fixed-size key
   * tables, and the file-static `romFile` and `basePath`.
   */
  class ConfigLoader {
    var settings: Options.Settings
    var quitting: bool
    var enableAudio: bool
    var fullscreen: bool
    var xsp: bool
    var hacksFile: Option<string>
    var touchscreenInput: bool
    var snapshotLoad: bool
    var snapshotSave: bool
    const joypad1Mapping: array<bv16>
    const action: array<bv8>
    var romFile: Option<string>
    var basePath: Option<string>

    /** The key tables have the 256 entries of the `unsigned char` register's range. */
    predicate Valid()
    {
      joypad1Mapping.Length == 256 && action.Length == 256
    }

    /** The `Config` struct as a value. */
    function ConfigValue(): Options.Config
      requires Valid()
      reads this`quitting, this`enableAudio, this`fullscreen, this`xsp, this`hacksFile,
        this`touchscreenInput, this`snapshotLoad, this`snapshotSave, joypad1Mapping, action
    {
      Options.Config(
        quitting, enableAudio, fullscreen, xsp, hacksFile, touchscreenInput,
        snapshotLoad, snapshotSave, joypad1Mapping[..], action[..])
    }

    /** Everything the loader holds, as the value module Options works on. */
    function Value(): Options.State
      requires Valid()
      reads this, joypad1Mapping, action
    {
      Options.State(settings, ConfigValue(), romFile, basePath)
    }

    constructor ()
      ensures Valid() && fresh(joypad1Mapping) && fresh(action)
    {
      joypad1Mapping := new bv16[256];
      action := new bv8[256];
    }

    /** `loadDefaults`: both structs reset and both paths cleared. */
    method LoadDefaults()
      requires Valid()
      modifies this, joypad1Mapping, action
      ensures Value() == Options.Defaults()
    {
      LoadDefaultSettings();
      LoadDefaultConfig();
      romFile := None;
      basePath := None;
    }

    /**
     * The `Settings` half of `loadDefaults`: zeroed, then the listed fields set
     * in the source's order (`AutoSaveDelay` to 30 and later to 15 minutes).
     */
    method LoadDefaultSettings()
      modifies this`settings
      ensures settings == Options.DefaultSettings()
    {
      // Zeroing: of the modelled fields, only this one is not set again below.
      var s := settings.(DisplayFrameRate := false);
      var core := s.core;
      core := core.(JoystickEnabled := false);
      s := s.(SoundPlaybackRate := 22050);
      core := core.(Stereo := true);
      s := s.(SoundBufferSize := 512);
      core := core.(CyclesPercentage := 100, DisableSoundEcho := false, APUEnabled := false);
      s := s.(SkipFrames := Options.AUTO_FRAMERATE);
      core := core.(Shutdown := true, ShutdownMaster := true);
      core := core.(FrameTimePAL := 20, FrameTimeNTSC := 16);
      core := core.(FrameTime := core.FrameTimeNTSC);
      core := core.(DisableSampleCaching := false, DisableMasterVolume := false);
      s := s.(Mouse := false, SuperScope := false);
      core := core.(MultiPlayer5 := false);
      s := s.(ControllerOption := Options.SnesJoypad);
      core := core.(ForceTransparency := false);
      s := s.(Transparency := false, SixteenBit := true);
      core := core.(SupportHiRes := false, NetPlay := false, AutoSaveDelay := 30, ApplyCheats := false);
      s := s.(TurboMode := false);
      core := core.(TurboSkipFrames := 15);
      s := s.(ForcePAL := false, ForceNTSC := false);
      s := s.(HacksEnabled := false, HacksFilter := false);
      core := core.(AutoSaveDelay := 15 * 60);
      s := s.(core := core);
      settings := s;
    }

    /** The `Config` half of `loadDefaults`: zeroed (both key tables), then the listed fields set. */
    method LoadDefaultConfig()
      requires Valid()
      modifies this`quitting, this`enableAudio, this`fullscreen, this`xsp, this`hacksFile,
        this`touchscreenInput, this`snapshotLoad, this`snapshotSave, joypad1Mapping, action
      ensures ConfigValue() == Options.DefaultConfig()
    {
      forall k | 0 <= k < 256 {
        joypad1Mapping[k] := 0;
      }
      forall k | 0 <= k < 256 {
        action[k] := 0;
      }
      snapshotLoad, snapshotSave := false, false;
      quitting := false;
      enableAudio := true;
      fullscreen := false;
      xsp := false;
      hacksFile := None;
      touchscreenInput := false;
      assert joypad1Mapping[..] == seq(256, _ => 0 as bv16);
      assert action[..] == seq(256, _ => 0 as bv8);
    }

    /** `S9xSetRomFile`: the ROM path (cut to `PATH_MAX`) and the base path cut from it. */
    method SetRomFile(path: string)
      requires Valid()
      modifies this`romFile, this`basePath
      ensures Value() == Options.SetRomFile(old(Value()), path)
    {
      var rom := Filenames.RomFileOf(path);
      romFile := Some(rom);
      basePath := Some(Filenames.BasePathOf(rom));
    }

    /**
     * `gotRomFile`. The first ensures ties the answer to the specification;
     * the second states it on the loader's own field.
     */
    method GotRomFile() returns (b: bool)
      requires Valid()
      ensures b == Options.GotRomFile(Value())
      ensures b <==> romFile.Some?
    {
      b := romFile.Some?;
    }

    /** `setHacks`: hacks on, then the value decides. */
    method SetHacks(value: Option<string>)
      requires Valid()
      modifies this`settings, this`romFile, this`basePath
      ensures Value() == Options.SetHacks(old(Value()), value)
    {
      settings := settings.(HacksEnabled := true);
      if value.None? {
        return;
      }
      var v := value.value;
      match Options.ClassifyHacks(v)
      case SpeedOnly =>
        settings := settings.(HacksFilter := true);
      case Yes =>
      case No =>
        settings := settings.(HacksEnabled := false);
      case RomPath =>
        SetRomFile(v);
    }

    /**
     * One pass of the `parseArgs` loop body. `halt` is the `DIE` of an
     * unknown name, or the end of the loop on a parser error; otherwise the
     * structs and the register have moved as `Options.Step` says.
     */
    method Apply(opt: Options.Opt, scancode: Options.Key) returns (halt: Option<Options.Halt>, next: Options.Key)
      requires Valid()
      modifies this, joypad1Mapping, action
      ensures halt.None? ==> Options.Step(old(Value()), scancode, opt) == Options.Running(Value(), next)
      ensures halt.Some? ==> Options.Step(old(Value()), scancode, opt) == Options.Halted(halt.value)
    {
      halt, next := None, scancode;
      if Options.SetsSettings(opt) {
        ApplyToSettings(opt);
      } else if Options.SetsConfig(opt) {
        ApplyToConfig(opt);
      } else {
        match opt
        case Hacks(v) =>
          settings := settings.(HacksEnabled := true);
          SetHacks(v);
        case Conf(_) =>
        case Scancode(code) =>
          next := Options.ToScancode(code);
        case Button(name) =>
          halt := ApplyButton(name, scancode);
        case Action(name) =>
          halt := ApplyAction(name, scancode);
        case ParseError =>
          halt := Some(Options.OptionError);
      }
    }

    /** `--button`: look the name up, `DIE` if unknown, else OR its bit into the register's entry. */
    method ApplyButton(name: string, scancode: Options.Key) returns (halt: Option<Options.Halt>)
      requires Valid()
      modifies joypad1Mapping
      ensures halt.None? ==> Options.Step(old(Value()), scancode, Options.Button(name)) == Options.Running(Value(), scancode)
      ensures halt.Some? ==> Options.Step(old(Value()), scancode, Options.Button(name)) == Options.Halted(halt.value)
    {
      match Names.ButtonNameToBit(name) {
        case None =>
          Options.StepBadButton(Value(), scancode, name);
          halt := Some(Options.BadButtonName(name));
        case Some(bit) =>
          Options.StepButtonBit(Value(), scancode, name);
          OrButton(scancode, bit);
          halt := None;
      }
    }

    /** `--action`: look the name up, `DIE` if unknown, else OR its bit into the register's entry. */
    method ApplyAction(name: string, scancode: Options.Key) returns (halt: Option<Options.Halt>)
      requires Valid()
      modifies action
      ensures halt.None? ==> Options.Step(old(Value()), scancode, Options.Action(name)) == Options.Running(Value(), scancode)
      ensures halt.Some? ==> Options.Step(old(Value()), scancode, Options.Action(name)) == Options.Halted(halt.value)
    {
      match Names.ActionNameToBit(name) {
        case None =>
          Options.StepBadAction(Value(), scancode, name);
          halt := Some(Options.BadActionName(name));
        case Some(bit) =>
          Options.StepActionBit(Value(), scancode, name);
          OrAction(scancode, bit);
          halt := None;
      }
    }

    /** The option cases that assign fields of `Settings`. */
    method ApplyToSettings(opt: Options.Opt)
      requires Valid()
      requires Options.SetsSettings(opt)
      modifies this`settings
      ensures settings == Options.SettingsEffect(old(settings), opt)
    {
      match opt
      case DisplayFramerate =>
        settings := settings.(DisplayFrameRate := true);
      case SkipFrames(n) =>
        settings := settings.(SkipFrames := n);
      case Transparency =>
        settings := settings.(SixteenBit := true);
        settings := settings.(Transparency := true);
      case Pal =>
        settings := settings.(ForcePAL := true);
      case Ntsc =>
        settings := settings.(ForceNTSC := true);
      case Turbo =>
        settings := settings.(TurboMode := true);
      case Mouse(port) =>
        settings := settings.(Mouse := true);
        settings := settings.(ControllerOption := Options.MousePort(port));
      case SuperScope =>
        settings := settings.(SuperScope := true);
        settings := settings.(ControllerOption := Options.SnesSuperScope);
      case AudioRate(hz) =>
        settings := settings.(SoundPlaybackRate := hz);
      case AudioBufferSize(n) =>
        settings := settings.(SoundBufferSize := n);
    }

    /** The option cases that assign scalar fields of `Config`. */
    method ApplyToConfig(opt: Options.Opt)
      requires Valid()
      requires Options.SetsConfig(opt)
      modifies this`enableAudio, this`fullscreen, this`snapshotLoad, this`snapshotSave,
        this`touchscreenInput, this`hacksFile
      ensures ConfigValue() == Options.ConfigEffect(old(ConfigValue()), opt)
    {
      match opt
      case DisableAudio =>
        enableAudio := false;
      case Fullscreen =>
        fullscreen := true;
      case Snapshot =>
        snapshotLoad := true;
        snapshotSave := true;
      case Touchscreen =>
        touchscreenInput := true;
      case HacksFile(path) =>
        hacksFile := Some(path);
    }

    /** `Config.joypad1Mapping[scancode] |= bit`. */
    method OrButton(scancode: Options.Key, bit: bv16)
      requires Valid()
      modifies joypad1Mapping
      ensures joypad1Mapping[..] == old(joypad1Mapping[..])[scancode := old(joypad1Mapping[scancode]) | bit]
    {
      joypad1Mapping[scancode] := joypad1Mapping[scancode] | bit;
    }

    /** `Config.action[scancode] |= bit`. */
    method OrAction(scancode: Options.Key, bit: bv8)
      requires Valid()
      modifies action
      ensures action[..] == old(action[..])[scancode := old(action[scancode]) | bit]
    {
      action[scancode] := action[scancode] | bit;
    }

    /**
     * `parseArgs`: the loop with the register starting at 0, stopping at the
     * first halt; then the first leftover argument, if any, becomes the ROM.
     */
    method ParseArgs(opts: seq<Options.Opt>, extra: Option<string>) returns (halt: Option<Options.Halt>)
      requires Valid()
      modifies this, joypad1Mapping, action
      ensures halt.None? ==> Options.ParseArgs(old(Value()), opts, extra) == Options.Loaded(Value())
      ensures halt.Some? ==> Options.ParseArgs(old(Value()), opts, extra) == Options.Stopped(halt.value)
    {
      var scancode: Options.Key := 0;
      var i := 0;
      halt := None;
      while i < |opts|
        invariant 0 <= i <= |opts|
        invariant Options.Run(old(Value()), 0, opts) == Options.Run(Value(), scancode, opts[i..])
      {
        var h, sc := Apply(opts[i], scancode);
        assert opts[i..][0] == opts[i] && opts[i..][1..] == opts[i + 1..];
        if h.Some? {
          return h;
        }
        scancode, i := sc, i + 1;
      }
      if extra.Some? {
        SetRomFile(extra.value);
      }
    }

    /** `S9xLoadConfig`: defaults, the option stream, then the ROM check (`exit(2)`). */
    method LoadConfig(opts: seq<Options.Opt>, extra: Option<string>, hgwLaunched: bool) returns (halt: Option<Options.Halt>)
      requires Valid()
      modifies this, joypad1Mapping, action
      ensures halt.None? ==> Options.LoadConfig(opts, extra, hgwLaunched) == Options.Loaded(Value())
      ensures halt.Some? ==> Options.LoadConfig(opts, extra, hgwLaunched) == Options.Stopped(halt.value)
    {
      LoadDefaults();
      halt := ParseArgs(opts, extra);
      if halt.None? {
        var got := GotRomFile();
        if !got && !hgwLaunched {
          halt := Some(Options.NoRom);
        }
      }
    }

    /** `S9xUnloadConfig`: both paths and the hacks file released. */
    method UnloadConfig()
      requires Valid()
      modifies this`romFile, this`basePath, this`hacksFile
      ensures Value() == Options.UnloadConfig(old(Value()))
    {
      romFile := None;
      basePath := None;
      hacksFile := None;
    }
  }
}
