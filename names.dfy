/**
 * The case-insensitive name lookups of platform/config.cpp: a SNES button name
 * to its joypad bit (`buttonNameToBit`) and an emulator action name to its
 * action bit (`actionNameToBit`). An unknown name is fatal in the source
 * (`DIE`); here the lookup answers `None` and the caller halts.
 */
module Names {
  import opened Wrappers
  import opened CString

  // Joypad bits of the emulator's controller word (SNES_*_MASK).
  const SNES_TR_MASK: bv16 := 0x10
  const SNES_TL_MASK: bv16 := 0x20
  const SNES_X_MASK: bv16 := 0x40
  const SNES_A_MASK: bv16 := 0x80
  const SNES_RIGHT_MASK: bv16 := 0x100
  const SNES_LEFT_MASK: bv16 := 0x200
  const SNES_DOWN_MASK: bv16 := 0x400
  const SNES_UP_MASK: bv16 := 0x800
  const SNES_START_MASK: bv16 := 0x1000
  const SNES_SELECT_MASK: bv16 := 0x2000
  const SNES_Y_MASK: bv16 := 0x4000
  const SNES_B_MASK: bv16 := 0x8000

  // Emulator actions bound to a key.
  const kActionQuit: bv8 := 0x1
  const kActionToggleFullscreen: bv8 := 0x2

  /** The button names accepted, in the order the lookup tries them, and their bits. */
  const ButtonNames: seq<string> :=
    ["A", "B", "X", "Y", "L", "R", "UP", "DOWN", "LEFT", "RIGHT", "START", "SELECT"]
  const ButtonMasks: seq<bv16> :=
    [SNES_A_MASK, SNES_B_MASK, SNES_X_MASK, SNES_Y_MASK, SNES_TL_MASK, SNES_TR_MASK,
     SNES_UP_MASK, SNES_DOWN_MASK, SNES_LEFT_MASK, SNES_RIGHT_MASK, SNES_START_MASK, SNES_SELECT_MASK]

  const ActionNames: seq<string> := ["quit", "fullscreen"]
  const ActionMasks: seq<bv8> := [kActionQuit, kActionToggleFullscreen]

  /**
   * The first position, from `i` on, whose name equals `s` ignoring case
   * (`|names|` when none does): the chain of `strcasecmp` tests, tried in
   * table order.
   */
  function FindName(names: seq<string>, s: string, i: nat): (r: nat)
    requires i <= |names|
    ensures i <= r <= |names|
    ensures r < |names| ==> CaseEq(s, names[r])
    ensures forall j | i <= j < r :: !CaseEq(s, names[j])
    decreases |names| - i
  {
    if i == |names| then i
    else if CaseEq(s, names[i]) then i
    else FindName(names, s, i + 1)
  }

  /** `buttonNameToBit`; `None` stands for `DIE`. */
  function ButtonNameToBit(s: string): (r: Option<bv16>)
    ensures r.None? <==> forall i | 0 <= i < |ButtonNames| :: !CaseEq(s, ButtonNames[i])
    ensures r.Some? ==> exists i | 0 <= i < |ButtonNames| :: CaseEq(s, ButtonNames[i]) && r.value == ButtonMasks[i]
  {
    var i := FindName(ButtonNames, s, 0);
    if i < |ButtonMasks| then Some(ButtonMasks[i]) else None
  }

  /** `actionNameToBit`; `None` stands for `DIE`. */
  function ActionNameToBit(s: string): (r: Option<bv8>)
    ensures r.None? <==> forall i | 0 <= i < |ActionNames| :: !CaseEq(s, ActionNames[i])
    ensures r.Some? ==> exists i | 0 <= i < |ActionNames| :: CaseEq(s, ActionNames[i]) && r.value == ActionMasks[i]
  {
    var i := FindName(ActionNames, s, 0);
    if i < |ActionMasks| then Some(ActionMasks[i]) else None
  }

  /** Each bit is a single bit, and no two names share one. */
  predicate DistinctSingleBits16(ms: seq<bv16>)
  {
    (forall i | 0 <= i < |ms| :: ms[i] != 0 && ms[i] & (ms[i] - 1) == 0) &&
    (forall i, j | 0 <= i < j < |ms| :: ms[i] & ms[j] == 0)
  }

  predicate DistinctSingleBits8(ms: seq<bv8>)
  {
    (forall i | 0 <= i < |ms| :: ms[i] != 0 && ms[i] & (ms[i] - 1) == 0) &&
    (forall i, j | 0 <= i < j < |ms| :: ms[i] & ms[j] == 0)
  }

  lemma MasksAreDistinctBits()
    ensures |ButtonMasks| == |ButtonNames| == 12
    ensures DistinctSingleBits16(ButtonMasks)
    ensures |ActionMasks| == |ActionNames| == 2
    ensures DistinctSingleBits8(ActionMasks)
  {
  }

  /** The table names folded to lower case, as the lookup chain compares them. */
  lemma ButtonTableEntries()
    ensures Lower(ButtonNames[0]) == "a"
    ensures Lower(ButtonNames[1]) == "b"
    ensures Lower(ButtonNames[2]) == "x"
    ensures Lower(ButtonNames[3]) == "y"
    ensures Lower(ButtonNames[4]) == "l"
    ensures Lower(ButtonNames[5]) == "r"
    ensures Lower(ButtonNames[6]) == "up"
    ensures Lower(ButtonNames[7]) == "down"
    ensures Lower(ButtonNames[8]) == "left"
    ensures Lower(ButtonNames[9]) == "right"
    ensures Lower(ButtonNames[10]) == "start"
    ensures Lower(ButtonNames[11]) == "select"
  {
    assert Lower("A") == "a";
    assert Lower("B") == "b";
    assert Lower("X") == "x";
    assert Lower("Y") == "y";
    assert Lower("L") == "l";
    assert Lower("R") == "r";
    assert Lower("UP") == "up";
    assert Lower("DOWN") == "down";
    assert Lower("LEFT") == "left";
    assert Lower("RIGHT") == "right";
    assert Lower("START") == "start";
    assert Lower("SELECT") == "select";
  }

  /** A name matches at most one entry of the button table. */
  lemma ButtonNamesExclusive(s: string, i: nat, j: nat)
    requires i < j < |ButtonNames|
    ensures !(CaseEq(s, ButtonNames[i]) && CaseEq(s, ButtonNames[j]))
  {
    ButtonTableEntries();
  }

  /**
   * `buttonNameToBit` accepts exactly the twelve table names, ignoring case,
   * and answers each with its own bit.
   */
  lemma ButtonLookupMatchesTable(s: string)
    ensures ButtonNameToBit(s).None? <==> forall i | 0 <= i < |ButtonNames| :: !CaseEq(s, ButtonNames[i])
    ensures forall i | 0 <= i < |ButtonNames| :: CaseEq(s, ButtonNames[i]) ==> ButtonNameToBit(s) == Some(ButtonMasks[i])
  {
    ButtonTableEntries();
  }

  /** `actionNameToBit` accepts exactly `quit` and `fullscreen`, ignoring case. */
  lemma ActionLookupMatchesTable(s: string)
    ensures ActionNameToBit(s).None? <==> forall i | 0 <= i < |ActionNames| :: !CaseEq(s, ActionNames[i])
    ensures forall i | 0 <= i < |ActionNames| :: CaseEq(s, ActionNames[i]) ==> ActionNameToBit(s) == Some(ActionMasks[i])
  {
    assert Lower(ActionNames[0]) == "quit" && Lower(ActionNames[1]) == "fullscreen";
  }

  /** Names equal up to case stop the search at the same position. */
  lemma {:induction false} FindNameIgnoresCase(names: seq<string>, s: string, t: string, i: nat)
    requires i <= |names|
    requires CaseEq(s, t)
    ensures FindName(names, s, i) == FindName(names, t, i)
    decreases |names| - i
  {
    if i < |names| && !CaseEq(s, names[i]) {
      FindNameIgnoresCase(names, s, t, i + 1);
    }
  }

  /** Both lookups ignore case: names equal up to case get the same answer. */
  lemma LookupsIgnoreCase(s: string, t: string)
    requires CaseEq(s, t)
    ensures ButtonNameToBit(s) == ButtonNameToBit(t)
    ensures ActionNameToBit(s) == ActionNameToBit(t)
  {
    FindNameIgnoresCase(ButtonNames, s, t, 0);
    FindNameIgnoresCase(ActionNames, s, t, 0);
  }
}
