/**
 * The modifier-key snapshot (daemon/src/hotkey/keys.rs): which of Control,
 * Option and Command are held, the named combinations the mode rules test,
 * and the decoding of a macOS event-flag mask.
 */
module Keys {

  /** Which of the three tracked modifier keys are held. Compared by value. */
  datatype ModifierState = ModifierState(control: bool, option: bool, command: bool)

  /** `ModifierState::default()`. */
  function Released(): (m: ModifierState)
    ensures !m.control && !m.option && !m.command
  {
    ModifierState(false, false, false)
  }

  /** All three keys released. */
  predicate IsEmpty(m: ModifierState) {
    !m.control && !m.option && !m.command
  }

  /** Control alone (the Dictation combination). */
  predicate IsControlOnly(m: ModifierState) {
    m.control && !m.option && !m.command
  }

  /** Control and Option without Command (the Intelligent combination). */
  predicate IsControlOption(m: ModifierState) {
    m.control && m.option && !m.command
  }

  /** Control and Command without Option (the Agent toggle). */
  predicate IsControlCommand(m: ModifierState) {
    m.control && m.command && !m.option
  }

  /** Each named combination is held by exactly one snapshot. */
  lemma CombinationsPinTheSnapshot(m: ModifierState)
    ensures IsEmpty(m) <==> m == Released()
    ensures IsControlOnly(m) <==> m == ModifierState(true, false, false)
    ensures IsControlOption(m) <==> m == ModifierState(true, true, false)
    ensures IsControlCommand(m) <==> m == ModifierState(true, false, true)
  {
  }

  /** At most one combination holds, and none with all three keys held. */
  lemma CombinationsExclusive(m: ModifierState)
    ensures !(IsControlOnly(m) && IsControlOption(m))
    ensures !(IsControlOnly(m) && IsControlCommand(m))
    ensures !(IsControlOption(m) && IsControlCommand(m))
    ensures !(IsEmpty(m) && (IsControlOnly(m) || IsControlOption(m) || IsControlCommand(m)))
    ensures m.control && m.option && m.command ==>
              !IsControlOnly(m) && !IsControlOption(m) && !IsControlCommand(m)
  {
  }

  /** A `CGEventFlags` bit mask. */
  type Flags = bv64

  /** `CGEventFlagControl`. */
  const CONTROL: Flags := 0x0004_0000
  /** `CGEventFlagAlternate` (the Option key). */
  const OPTION: Flags := 0x0008_0000
  /** `CGEventFlagCommand`. */
  const COMMAND: Flags := 0x0010_0000

  /** The three bits `FromFlags` looks at. */
  const TRACKED: Flags := CONTROL | OPTION | COMMAND

  /** `flags.contains(mask)` of the bitflags crate. */
  predicate Contains(flags: Flags, mask: Flags) {
    flags & mask == mask
  }

  /** `ModifierState::from_flags`: one field per tracked flag bit. */
  function FromFlags(flags: Flags): (m: ModifierState)
    ensures m.control <==> flags & CONTROL != 0
    ensures m.option <==> flags & OPTION != 0
    ensures m.command <==> flags & COMMAND != 0
  {
    ModifierState(Contains(flags, CONTROL), Contains(flags, OPTION), Contains(flags, COMMAND))
  }

  /** The mask that has exactly the tracked bits of `m` set. */
  function ToFlags(m: ModifierState): (flags: Flags)
    ensures flags & TRACKED == flags
  {
    (if m.control then CONTROL else 0) | (if m.option then OPTION else 0)
      | (if m.command then COMMAND else 0)
  }

  /** Every snapshot is decoded from some mask: `ToFlags` is a right inverse. */
  lemma FromToFlags(m: ModifierState)
    ensures FromFlags(ToFlags(m)) == m
  {
  }

  /** Bits other than the three tracked ones do not influence the decoding. */
  lemma FromFlagsIgnoresOtherBits(f: Flags, g: Flags)
    requires f & TRACKED == g & TRACKED
    ensures FromFlags(f) == FromFlags(g)
  {
    assert f & CONTROL == (f & TRACKED) & CONTROL;
    assert g & CONTROL == (g & TRACKED) & CONTROL;
    assert f & OPTION == (f & TRACKED) & OPTION;
    assert g & OPTION == (g & TRACKED) & OPTION;
    assert f & COMMAND == (f & TRACKED) & COMMAND;
    assert g & COMMAND == (g & TRACKED) & COMMAND;
  }
}
