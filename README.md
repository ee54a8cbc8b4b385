# DrNokSnes option processing, in Dafny

This project models the configuration core of the DrNokSnes front end to the
Snes9x emulator (`platform/config.cpp`). That core does five things:

- It resets the emulator's `Settings` struct and the front end's `Config`
  struct to their defaults (`loadDefaults`).
- It runs the option loop of `parseArgs`. The loop consumes the default config
  file's options and the command line's as one stream. It sets flags and
  values, keeps a one-byte `scancode` register, and ORs button and action
  masks into the two 256-entry key tables at that register's index.
- It maps button and action names to their masks, ignoring case
  (`buttonNameToBit`, `actionNameToBit`).
- It keeps the ROM path and its base path. The base path is the ROM path cut
  at the last `.` (`S9xSetRomFile`, `gotRomFile`, and the fallback in
  `setHacks`). From the base path it derives the names of the save, freeze,
  cheat, patch, screenshot and S-DD1 files (`S9xGetFilename`).
- It checks that a ROM is known (`S9xLoadConfig`) and releases the paths
  (`S9xUnloadConfig`).

The project has seven modules:

- `Wrappers`: `Option`.
- `CString`: models `strcasecmp`, `strrchr` and the bounded `strndup`/`snprintf`.
- `Names`: the button and action name tables.
- `Filenames`: `S9xGetFilename` and the base-path cut.
- `Options`: the configuration as a value. The option loop is a fold (`Step`/`Run`) over the stream of options the parser hands over.
- `OptionProperties`: lemmas about whole option streams.
- `Loader`: the class `ConfigLoader`, described next.

The class `Loader.ConfigLoader` holds the same state the way the C code does:

- `Settings` is a record that the methods update field by field.
- The `Config` fields are mutable fields.
- The two key tables are arrays that the methods update in place.
- `parseArgs` is a `while` loop with the register as a local variable.

Each method is proved to leave exactly the state that the matching function of
`Options` describes. The lemmas then state what the source promises about that
state.

How the model represents the C code:

- Integers are unbounded. The register is the C `unsigned char`: `atoi`'s
  value is reduced modulo 256.
- The button table holds `bv16` and the action table holds `bv8`, the
  widths the C functions return.
- `DIE` (an `abort()`) and `exit(2)` are the `Halt` values. `ExitCode` gives
  each one's exit status.

## Model

| member | source | states |
|---|---|---|
| Names.FindName | platform/config.cpp:84-122 | the `strcasecmp` chain: the result is the first table entry equal to the name ignoring case; no earlier entry matches; the table length means no entry matches |
| Names.ButtonNameToBit | platform/config.cpp:84-112 | `buttonNameToBit`: no answer exactly when the name matches no table entry ignoring case (the `DIE` at line 110); an answer is the mask of an entry the name matches; `ButtonLookupMatchesTable` adds that it is the mask of every entry it matches |
| Names.ActionNameToBit | platform/config.cpp:114-122 | `actionNameToBit`: no answer exactly when the name is neither "quit" nor "fullscreen" ignoring case (line 120); an answer is the bit of the name it matches |
| Names.ButtonLookupMatchesTable | platform/config.cpp:84-112 | `buttonNameToBit` accepts a name exactly when it equals one of A, B, X, Y, L, R, UP, DOWN, LEFT, RIGHT, START, SELECT ignoring case, and then answers that name's own mask; any other name is rejected (the `DIE` at line 110) |
| Names.ActionLookupMatchesTable | platform/config.cpp:114-122 | `actionNameToBit` accepts exactly "quit" and "fullscreen" ignoring case, with the quit and toggle-fullscreen bits; any other name is rejected (line 120) |
| Names.LookupsIgnoreCase | platform/config.cpp:84-122 | two names that differ only in letter case get the same answer from both lookups |
| Names.ButtonNamesExclusive | platform/config.cpp:84-112 | no name matches two entries of the button chain, so the order of the tests does not matter |
| Names.MasksAreDistinctBits | platform/config.cpp:84-122 | there are twelve button masks and two action masks; each is a single bit and no two share one (a fact about the assumed mask values; no other proof needs it) |
| Filenames.RomFileOf | platform/config.cpp:223 | `strndup(path, PATH_MAX)`: the stored ROM path is a prefix of the argument; it is the argument itself when that fits in `PATH_MAX` characters, and exactly its first `PATH_MAX` characters otherwise |
| Filenames.BasePathOf | platform/config.cpp:224-230 | the base path is a prefix of the ROM path: the part before the last `.` if there is one, else the whole path |
| Filenames.GetFilename | platform/config.cpp:124-156 | the ROM kind answers the ROM path; every other kind answers a name only when a base path exists; that name is a prefix of `base.ext`: all of it when it is shorter than `PATH_MAX`, and exactly its first `PATH_MAX - 1` characters otherwise |
| Filenames.Extension | platform/config.cpp:131-151 | the extension of each non-ROM kind has at least three characters, and only the freeze file's ("frz.gz") contains a dot; `SiblingsDistinct` and `SiblingBasePath` build on it |
| Filenames.SiblingsDistinct | platform/config.cpp:131-154 | different file kinds of one short base path get different names (the extensions differ) |
| Filenames.CutExtension | platform/config.cpp:227-230 | cutting `base.ext` at its last dot gives `base` back when `ext` has no dot |
| Filenames.SiblingBasePath | platform/config.cpp:124-156 | cutting a derived file name at its last dot gives back the base path; the freeze file ("frz.gz") takes two cuts |
| CString.CaseEq | platform/config.cpp:85-120 | `strcasecmp(a, b) == 0`: the strings have the same length and agree character by character after `tolower`, which in the C locale folds only the ASCII capitals |
| CString.LastIndexOf | platform/config.cpp:227 | `strrchr`: the index answered holds the character and no later index does; no answer means the character is absent |
| CString.LastIndexOfAppend | platform/config.cpp:227 | the last dot of `prefix + "." + suffix` is the separator when `suffix` has no dot |
| Options.Defaults | platform/config.cpp:158-214 | after `loadDefaults`: no ROM, audio on, 22050 Hz and 512-sample buffer, automatic frame skip (200), NTSC frame time 16 with the frame time set to it, joypad controller, hacks off, auto-save delay 15 minutes (the later of the two assignments), both key tables zero, no hacks file |
| Options.SetRomFile | platform/config.cpp:216-231 | the stored ROM path is `RomFileOf` of the argument, so the argument itself when it fits in `PATH_MAX`; the base path is the ROM path without its last `.ext`, with no dot left in the cut-off part; nothing else changes |
| OptionProperties.SetRomFileReplaces | platform/config.cpp:218-224 | a second call replaces both paths of the first: two calls leave the state one call with the second path leaves |
| Options.ClassifyHacks | platform/config.cpp:245-254 | a value is "speed-only" mode exactly when it is "speed-only", "speed" or "s" ignoring case; "yes" exactly for "yes"/"y"; "no" exactly for "no"/"n"; otherwise a ROM path |
| Options.SetHacks | platform/config.cpp:238-261 | no contract of its own: `setHacks` as a function of the state; `SetHacksEffect` and `OptionProperties.HacksFlags` state what it does |
| Options.SetHacksEffect | platform/config.cpp:238-261 | after `setHacks`: hacks are enabled unless the value is "no"/"n"; the filter is set by a speed value and kept otherwise; an unrecognised value becomes the ROM path; the paths stay in agreement; no other setting and nothing in `Config` changes |
| Options.MousePort | platform/config.cpp:329-338 | no contract of its own: the controller `--mouse` selects (swapped for no port or a port of at most 1); `StepSwitchesLastWins` and `RunLastWins` state that the last `--mouse`/`--superscope` decides the controller |
| Options.ToScancode | platform/config.cpp:357-359 | storing `atoi`'s value in the `unsigned char` register: codes 0..255 are kept; others are reduced modulo 256 |
| Options.ConfigEffect | platform/config.cpp:297-371 | the `Config` flags an option sets (audio off, fullscreen, snapshot load and save, touchscreen) never touch the key tables, `quitting` or `xsp` |
| Options.Step | platform/config.cpp:296-374 | no contract of its own: one pass of the loop body; `OptionProperties.StepHalts` says which options stop the loop, and the `Step*` lemmas of `OptionProperties` state its effect field by field |
| Options.Run | platform/config.cpp:294-374 | no contract of its own: the loop over the stream; `RunLastWins`, `RunFlags`, `RunKeepsCore`, `RunButtonBindings`, `RunActionBindings`, `RunKeepsPaths` and `RunAppend` state what it computes |
| Options.ParseArgs | platform/config.cpp:289-390 | no contract of its own: the loop from register 0, then the leftover argument as ROM; `RomRequired` states the ROM it leaves |
| Options.LoadConfig | platform/config.cpp:392-419 | no contract of its own: defaults, the stream, the ROM check; `RomRequired`, `OptionErrorExits`, `BadButtonAborts` and `BadActionAborts` state when and how it stops |
| Options.ExitCode | platform/config.cpp:378-416 | exit status 2 for a parser error (line 383) and for a missing ROM (line 415); no exit status exactly for the two bad names, which abort through `DIE` (lines 15, 110, 120) |
| Options.UnloadConfig | platform/config.cpp:421-435 | after `S9xUnloadConfig` no ROM is known, every derived file name is absent, the hacks file is released, and the settings and every other `Config` field are untouched |
| OptionProperties.LastFront | platform/config.cpp:294 | reading a stream front to back: the first option's value is the default the rest of the stream overrides |
| OptionProperties.StepAudioLastWins | platform/config.cpp:303-353 | one option leaves the frame skip, audio rate and buffer size at its own value when it sets them, else at the old value |
| OptionProperties.StepSwitchesLastWins | platform/config.cpp:313-343 | one option sets the controller (`--mouse` by port, `--superscope`) and the hacks switch, or leaves them |
| OptionProperties.StepHacksFileLastWins | platform/config.cpp:368-371 | one option sets the hacks file or leaves it |
| OptionProperties.StepRomLastWins | platform/config.cpp:313-316 | one option changes the ROM only when it is a `--hacks` fallback value |
| OptionProperties.StepScancodeLastWins | platform/config.cpp:357-359 | only `--scancode` moves the register |
| OptionProperties.RunLastWins | platform/config.cpp:294-374 | over a whole stream, each single-valued setting (frame skip, audio rate and buffer, controller, hacks on or off, hacks file, ROM from `--hacks`, the register) holds the value of the last option that sets it, or its earlier value when none does |
| OptionProperties.HacksFlags | platform/config.cpp:238-261 | of the one-way flags, `setHacks` turns on only the speed-only filter, and only for a speed value |
| OptionProperties.StepFlags | platform/config.cpp:297-356 | after one option, a flag is on exactly when it was on before or it is that option's own flag: an option switches on its own flags and no other, and switches none off |
| OptionProperties.RunFlags | platform/config.cpp:294-374 | after a whole stream, a flag is on exactly when it was on before or some option of the stream sets it |
| OptionProperties.StepKeepsCore | platform/config.cpp:296-374 | no option changes the settings only `loadDefaults` writes (the auto-save delay, the frame times and the rest), nor `Config.quitting` and `Config.xsp` |
| OptionProperties.RunKeepsCore | platform/config.cpp:294-374 | those fields hold after a whole stream the values they had before it |
| OptionProperties.StepHalts | platform/config.cpp:294-374 | the loop body stops exactly on a parser error and on an unknown button or action name, with `OptionError`, `BadButtonName` or `BadActionName`; every other option lets the loop go on |
| OptionProperties.StepKeepsTables | platform/config.cpp:297-371 | no option other than `--button` and `--action` touches either key table |
| OptionProperties.StepButtonTables | platform/config.cpp:360-363 | `--button` changes only the entry the register selects, ORing the mask in, and leaves the action table alone |
| OptionProperties.StepActionTables | platform/config.cpp:364-367 | `--action` changes only the entry the register selects, and leaves the button table alone |
| OptionProperties.StepButtonBindings | platform/config.cpp:357-363 | after one option, entry `k` of the button table is its old value ORed with the mask bound there |
| OptionProperties.StepActionBindings | platform/config.cpp:357-367 | after one option, entry `k` of the action table is its old value ORed with the bit bound there |
| OptionProperties.RunButtonBindings | platform/config.cpp:292-363 | button bindings accumulate: with the register starting where the loop starts it, entry `k` ends as its old value ORed with every mask bound while the register held `k`; an entry nobody addresses keeps its value |
| OptionProperties.RunActionBindings | platform/config.cpp:292-367 | action bindings accumulate the same way |
| OptionProperties.RunAppend | platform/config.cpp:294 | running two streams one after the other is running their concatenation; a halt in the first ends it |
| OptionProperties.OptionErrorExits | platform/config.cpp:378-384 | a parser error stops loading with exit status 2, whatever follows it |
| OptionProperties.BadButtonAborts | platform/config.cpp:360-363 | an unknown button name aborts loading at that option, with no exit status |
| OptionProperties.BadActionAborts | platform/config.cpp:364-367 | an unknown action name aborts loading at that option, with no exit status |
| OptionProperties.RomRequired | platform/config.cpp:386-416 | when the stream runs to its end, loading fails with exit status 2 exactly when there is no leftover argument, no `--hacks` ROM and no launch by the desktop service; otherwise a ROM is known (or the service launched the program), the paths agree, and the ROM is the leftover argument if there is one, else the last `--hacks` ROM |
| OptionProperties.StepKeepsPaths | platform/config.cpp:297-373 | no option breaks the agreement between the ROM path and the base path |
| OptionProperties.RunKeepsPaths | platform/config.cpp:294-374 | the ROM path and the base path agree after every stream that runs to its end |
| Loader.ConfigLoader.constructor | platform/config.cpp:18-25 | the globals exist with two 256-entry key tables |
| Loader.ConfigLoader.LoadDefaults | platform/config.cpp:158-214 | `loadDefaults` leaves exactly the default state `Options.Defaults` describes |
| Loader.ConfigLoader.LoadDefaultSettings | platform/config.cpp:160-213 | the `Settings` half: after the zeroing and the assignments in the source's order, the record equals the default settings |
| Loader.ConfigLoader.LoadDefaultConfig | platform/config.cpp:161-171 | the `Config` half: both key tables are zeroed in place and the listed flags are set |
| Loader.ConfigLoader.SetRomFile | platform/config.cpp:216-231 | `S9xSetRomFile` changes only the two paths, as `Options.SetRomFile` says |
| Loader.ConfigLoader.GotRomFile | platform/config.cpp:233-236 | answers true exactly when a ROM path is stored |
| Loader.ConfigLoader.SetHacks | platform/config.cpp:238-261 | `setHacks` leaves the state `Options.SetHacks` describes, whose effect `Options.SetHacksEffect` states |
| Loader.ConfigLoader.Apply | platform/config.cpp:296-374 | one pass of the loop body: either the abort the option causes, or the state and register `Options.Step` gives |
| Loader.ConfigLoader.ApplyButton | platform/config.cpp:360-363 | `--button`: an unknown name aborts; a known one ORs its mask into the button table in place |
| Loader.ConfigLoader.ApplyAction | platform/config.cpp:364-367 | `--action`: an unknown name aborts; a known one ORs its bit into the action table in place |
| Loader.ConfigLoader.ApplyToSettings | platform/config.cpp:300-353 | the options that write only `Settings` assign exactly the fields they name |
| Loader.ConfigLoader.ApplyToConfig | platform/config.cpp:297-371 | the options that write only `Config` flags assign exactly those flags |
| Loader.ConfigLoader.OrButton | platform/config.cpp:361-362 | ORing into `Config.joypad1Mapping[scancode]`: that entry gains the bit and every other entry is unchanged |
| Loader.ConfigLoader.OrAction | platform/config.cpp:365-366 | ORing into `Config.action[scancode]`: that entry gains the bit and every other entry is unchanged |
| Loader.ConfigLoader.ParseArgs | platform/config.cpp:289-390 | the loop, with the register starting at 0, stops at the first abort or parser error; otherwise the leftover argument becomes the ROM; the result is `Options.ParseArgs` |
| Loader.ConfigLoader.LoadConfig | platform/config.cpp:392-419 | `S9xLoadConfig`: defaults, the option stream, then the ROM check; the outcome is `Options.LoadConfig`, whose halting behaviour `OptionProperties.RomRequired` states |
| Loader.ConfigLoader.UnloadConfig | platform/config.cpp:421-435 | `S9xUnloadConfig` releases both paths and the hacks file, as `Options.UnloadConfig` says |

## Left out

- `platform/sdlv.cpp` (SDL/OpenGL video setup, frame presentation and screenshots) is not part of this model. It is display plumbing with no option logic.
- The popt library is not modelled: its tables (lines 27-82), `poptGetNextOpt` and `poptGetArg`. The model starts from the stream of decoded options the parser would return. A parser error is the `ParseError` option. The first leftover argument is a parameter.
- `loadConfig` (lines 263-287) is not modelled: it reads `$HOME/apps/DrNokSnes.txt`, and `--conf FILE` (option 10) reads a file the same way. Both splice the file's options into the same stream with `poptStuffArgs`. The model assumes that splicing has already happened, so `Conf` changes nothing. File I/O, `getenv("HOME")` and the `DIE` on an unparsable config file are left out.
- `atoi` is not modelled: option arguments arrive as already-decoded integers. A missing `--mouse` argument is `None`.
- Memory handling is left out: `strdup`, `strndup`, `free`, the leak noted at line 286, and the NUL terminators.
- Settings fields that take their values from emulator-core constants outside this file are left out: `H_Max` (line 180) and `HBlankStart` (line 211).
- `Settings.ServerName` is left out: `loadDefaults` only empties that character array (line 199), and no option writes it.
- Fields that `ZeroMemory` clears and `loadDefaults` never sets again are left out, except `Settings.DisplayFrameRate`, `Config.snapshotLoad`, `Config.snapshotSave` and the two key tables, which the options write. The zero value of `Settings.ControllerOption` is not modelled either, because line 191 overwrites it.
- The C integer widths of `Settings` fields are not modelled. Only the register's 8-bit width and the two tables' element widths matter to this code.
- Header values are assumed: `SNES_*_MASK`, `kActionQuit`, `kActionToggleFullscreen` and `AUTO_FRAMERATE` come from headers that are not part of this model. They use the usual Snes9x values: bits 4 to 15 for buttons, 1 and 2 for actions, and 200 for `AUTO_FRAMERATE` (the "(200)" of the `Options.Defaults` row rests on it). No proof depends on these values: every property holds for any masks and any frame-skip constant. `MasksAreDistinctBits` records that the assumed values are distinct single bits.
- Filenames.RomFileOf, Filenames.GetFilename: the `PATH_MAX` bounds count Dafny characters, where `strndup` and `snprintf` count bytes, so a path with multi-byte UTF-8 characters is cut at a different place.
- Filenames.GetFilename: it returns `None` when there is no base path. In C, `snprintf` with a NULL `%s` is undefined behaviour; glibc prints "(null)".
- Filenames.GetFilename: it returns a fresh value. The static buffer that every call overwrites in C, and the aliasing between the returned pointers, are not modelled.
- The `default:` branch of `parseArgs` (line 373) is not modelled. It aborts on an option code the table does not define, and the `Opt` datatype has no such code.
- Names.ButtonNameToBit: it answers `None` for an unknown name. In C, `DIE` never returns; the caller turns `None` into the abort.
- The fields of `Settings` that only `loadDefaults` writes are grouped into one record, `CoreSettings`. This changes the layout of the struct, not its values.
- It is not proved that reordering the `--button` options bound to one scancode gives an equal whole state. Per entry, `RunButtonBindings` gives the table as an OR of all masks bound to that entry, and OR is order-independent.

In three places the model follows the code's exact behaviour:

- The ROM path is cut to `PATH_MAX` (4096) characters by `strndup`.
- Derived file names are cut to `PATH_MAX - 1` characters by `snprintf`.
- An unknown button or action name aborts through `DIE` (`abort()`), which is not a usage-error exit.
