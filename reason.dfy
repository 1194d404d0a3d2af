/**
 * The restart-reason encoder of msm_restart_prepare: the reboot command
 * (possibly NULL) decides which 32-bit magic word is left at IMEM offset
 * 0x65C for the boot loader, or that emergency download is armed instead.
 */
module RestartReason {
  import opened CStrings

  const REASON_BOOTLOADER: bv32 := 0x7766_5500
  const REASON_UNKNOWN: bv32 := 0x7766_5501
  const REASON_RECOVERY: bv32 := 0x7766_5502
  const REASON_RTC: bv32 := 0x7766_5503
  const REASON_FOTA: bv32 := 0x7766_5566
  const REASON_OEM_BASE: bv32 := 0x6f65_6d00

  // The command prefixes msm_restart_prepare compares against
  const CMD_BOOTLOADER: CString := "bootloader"
  const CMD_RECOVERY: CString := "recovery"
  const CMD_FOTA: CString := "fota"
  const CMD_RTC: CString := "rtc"
  const CMD_OEM: CString := "oem-"
  const CMD_EDL: CString := "edl"

  /** What the tail of msm_restart_prepare does with the command. */
  datatype ReasonAction =
    | WriteReason(code: bv32)   // __raw_writel(code, restart_reason)
    | ArmEmergencyDload         // enable_emergency_dload_mode()
    | NoReason                  // nothing is written

  /** The code for "oem-<hex>": the vendor tag in the top three bytes, the value's low byte below. */
  function OemCode(v: bv32): (r: bv32)
    ensures r & 0xffff_ff00 == REASON_OEM_BASE && r & 0xff == v & 0xff
    ensures REASON_OEM_BASE <= r <= 0x6f65_6dff
  {
    REASON_OEM_BASE | (v & 0xff)
  }

  /**
   * The if/else chain over the command, tested in restart.c's order, with
   * its strncmp lengths; a NULL command writes the rtc code only
   * when CONFIG_LGE_HANDLE_PANIC is set.
   */
  function ReasonFor(cmd: Option<CString>, lgeHandlePanic: bool): ReasonAction
  {
    match cmd
    case None => if lgeHandlePanic then WriteReason(REASON_RTC) else NoReason
    case Some(s) =>
      if StrNCmp(s, CMD_BOOTLOADER, 10) == 0 then WriteReason(REASON_BOOTLOADER)
      else if StrNCmp(s, CMD_RECOVERY, 8) == 0 then WriteReason(REASON_RECOVERY)
      else if StrNCmp(s, CMD_FOTA, 4) == 0 then WriteReason(REASON_FOTA)
      else if StrCmp(s, CMD_RTC) == 0 then WriteReason(REASON_RTC)
      else if StrNCmp(s, CMD_OEM, 4) == 0 then
        StrNCmpIsPrefix(s, CMD_OEM, 4);
        WriteReason(OemCode(StrToULHex(s[4..])))
      else if StrNCmp(s, CMD_EDL, 3) == 0 then ArmEmergencyDload
      else WriteReason(REASON_UNKNOWN)
  }

  /** The same table stated with prefixes and equality: the first pattern that fits wins. */
  function ReasonTable(cmd: Option<CString>, lgeHandlePanic: bool): ReasonAction
  {
    match cmd
    case None => if lgeHandlePanic then WriteReason(REASON_RTC) else NoReason
    case Some(s) =>
      if "bootloader" <= s then WriteReason(REASON_BOOTLOADER)
      else if "recovery" <= s then WriteReason(REASON_RECOVERY)
      else if "fota" <= s then WriteReason(REASON_FOTA)
      else if s == "rtc" then WriteReason(REASON_RTC)
      else if "oem-" <= s then WriteReason(OemCode(StrToULHex(s[4..])))
      else if "edl" <= s then ArmEmergencyDload
      else WriteReason(REASON_UNKNOWN)
  }

  lemma ReasonForIsTable(cmd: Option<CString>, lgeHandlePanic: bool)
    ensures ReasonFor(cmd, lgeHandlePanic) == ReasonTable(cmd, lgeHandlePanic)
  {
    if cmd.Some? {
      var s := cmd.value;
      StrNCmpIsPrefix(s, CMD_BOOTLOADER, 10);
      StrNCmpIsPrefix(s, CMD_RECOVERY, 8);
      StrNCmpIsPrefix(s, CMD_FOTA, 4);
      StrCmpIsEquality(s, CMD_RTC);
      StrNCmpIsPrefix(s, CMD_OEM, 4);
      StrNCmpIsPrefix(s, CMD_EDL, 3);
    }
  }

  /** Every code written belongs to the closed set of reasons, oem codes included. */
  lemma ReasonCodesAreClosed(cmd: Option<CString>, lgeHandlePanic: bool)
    ensures var a := ReasonFor(cmd, lgeHandlePanic);
      a.WriteReason? ==>
        a.code in {REASON_BOOTLOADER, REASON_UNKNOWN, REASON_RECOVERY, REASON_RTC, REASON_FOTA}
        || REASON_OEM_BASE <= a.code <= 0x6f65_6dff
  {
    ReasonForIsTable(cmd, lgeHandlePanic);
  }

  /** A NULL command writes nothing, except the rtc code under CONFIG_LGE_HANDLE_PANIC. */
  lemma NullCommand(lgeHandlePanic: bool)
    ensures ReasonFor(None, lgeHandlePanic).NoReason? <==> !lgeHandlePanic
    ensures lgeHandlePanic ==> ReasonFor(None, lgeHandlePanic) == WriteReason(REASON_RTC)
  {
  }

  /** Only an exact "rtc" gives the rtc code; the empty string is an unknown command. */
  lemma RtcIsExactAndEmptyIsUnknown(lgeHandlePanic: bool)
    ensures ReasonFor(Some("rtc"), lgeHandlePanic) == WriteReason(REASON_RTC)
    ensures ReasonFor(Some("rtcx"), lgeHandlePanic) == WriteReason(REASON_UNKNOWN)
    ensures ReasonFor(Some(""), lgeHandlePanic) == WriteReason(REASON_UNKNOWN)
  {
    ReasonForIsTable(Some("rtc"), lgeHandlePanic);
    ReasonForIsTable(Some("rtcx"), lgeHandlePanic);
    ReasonForIsTable(Some(""), lgeHandlePanic);
  }

  /** Prefixes are tested in order: "bootloader..." wins over whatever follows it. */
  lemma FirstMatchWins(s: CString, lgeHandlePanic: bool)
    requires "bootloader" <= s
    ensures ReasonFor(Some(s), lgeHandlePanic) == WriteReason(REASON_BOOTLOADER)
  {
    StrNCmpIsPrefix(s, CMD_BOOTLOADER, 10);
  }

  /** Emergency download is armed exactly for commands that start with "edl". */
  lemma EdlIffPrefix(s: CString, lgeHandlePanic: bool)
    ensures ReasonFor(Some(s), lgeHandlePanic) == ArmEmergencyDload <==> "edl" <= s
  {
    StrNCmpIsPrefix(s, CMD_EDL, 3);
    if "edl" <= s {
      assert s[0] == 'e';
      StrNCmpIsPrefix(s, CMD_BOOTLOADER, 10);
      StrNCmpIsPrefix(s, CMD_RECOVERY, 8);
      StrNCmpIsPrefix(s, CMD_FOTA, 4);
      StrCmpIsEquality(s, CMD_RTC);
      StrNCmpIsPrefix(s, CMD_OEM, 4);
    }
  }

  /**
   * For "oem-<text>" the written code keeps only the low byte of the parsed
   * value, which the last two hex digits of the digit run decide.
   */
  lemma OemCodeFromLastTwoDigits(s: CString, lgeHandlePanic: bool)
    requires "oem-" <= s
    ensures var run := HexRun(SkipHexPrefix(s[4..]));
      AllHexDigits(run) &&
      ReasonFor(Some(s), lgeHandlePanic) == WriteReason(REASON_OEM_BASE | Low32(LastTwoDigits(run)))
  {
    ReasonForIsTable(Some(s), lgeHandlePanic);
    assert s[0] == 'o';
    assert s != "rtc";
    var run := HexRun(SkipHexPrefix(s[4..]));
    HexRunIsLongest(SkipHexPrefix(s[4..]));
    LowByteOfHexAccum(run);
    LowByteTruncation(HexAccum(run), LastTwoDigits(run));
  }

  lemma LowByteTruncation(x: bv64, b: bv64)
    requires x & 0xff == b
    ensures Low32(x) & 0xff == Low32(b) && Low32(b) == Low32(b) & 0xff
  {
  }

  /** The digit run of "1ff" is the whole text, and its last two digits are ff. */
  lemma DigitsOf1ff()
    ensures SkipHexPrefix("1ff") == "1ff" && HexRun("1ff") == "1ff" && AllHexDigits("1ff")
    ensures LastTwoDigits("1ff") == 0xff
  {
    assert "1ff"[1..] == "ff" && "ff"[1..] == "f" && "f"[1..] == "";
    assert HexDigitValue('f') == 15;
  }

  lemma OemBaseOr0xff()
    ensures REASON_OEM_BASE | Low32(0xff) == 0x6f65_6dff
  {
  }

  /** A worked example: "oem-1ff" parses to 0x1ff and keeps only 0xff. */
  lemma OemExample(lgeHandlePanic: bool)
    ensures ReasonFor(Some("oem-1ff"), lgeHandlePanic) == WriteReason(0x6f65_6dff)
  {
    var s: CString := "oem-1ff";
    OemCodeFromLastTwoDigits(s, lgeHandlePanic);
    assert s[4..] == "1ff";
    DigitsOf1ff();
    OemBaseOr0xff();
  }
}
