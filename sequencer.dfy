/**
 * The power sequencer as a specification: the complete trace of actions
 * that msm_restart_prepare, msm_restart and __msm_power_off take, as
 * functions of the platform and of the driver's globals when they start.
 * The class in module Restart performs these actions one at a time and is
 * proved to produce exactly these traces; the lemmas here state what the
 * traces do to the hardware.
 */
module PowerSequencer {
  import opened CStrings
  import opened Hardware
  import opened RestartReason
  import opened DownloadMode

  /** The process-wide variables of the driver that the sequencer reads. */
  datatype Globals = Globals(
    downloadMode: int,       // download_mode, the master kill switch
    inPanic: bool,           // in_panic, the panic latch
    restartMode: int,        // restart_mode, set by msm_set_restart_mode
    dloadModeEnabled: bool)  // dload_mode_enabled, the cache of the stored pair

  // ----- msm_restart_prepare -----

  /** The set_dload_mode calls at the head of msm_restart_prepare for these globals. */
  function Steps(p: Platform, g: Globals): seq<bool>
  {
    PrepareSteps(p.lgeHandlePanic, g.downloadMode, g.inPanic, g.restartMode)
  }

  /** get_dload_mode() once the precedence has run. */
  function ArmedAfterPrepare(p: Platform, g: Globals): bool
  {
    CacheAfter(p, g.dloadModeEnabled, Steps(p, g))
  }

  /** The reset style of the default board branch, from the armed state, the latch, the command and restart_mode. */
  function ResetStyle(p: Platform, armed: bool, inPanic: bool, cmd: Option<CString>, restartMode: int): PonPowerOff
  {
    if armed || inPanic || (cmd.Some? && At(cmd.value, 0) != '\0')
       || (p.lafGDriver && restartMode == RESTART_DLOAD)
    then WarmReset
    else HardReset
  }

  /** The style msm_restart_prepare hands to qpnp_pon_system_pwr_off. */
  function PrepareStyle(p: Platform, g: Globals, cmd: Option<CString>): PonPowerOff
  {
    ResetStyle(p, ArmedAfterPrepare(p, g), g.inPanic, cmd, g.restartMode)
  }

  /** The actions of the reason table's verdict. */
  function ReasonEvents(p: Platform, a: ReasonAction): seq<Event>
  {
    match a
    case WriteReason(code) => [Write(Imem(RESTART_REASON_ADDR), code)]
    case ArmEmergencyDload => EmergencyDloadEvents(p)
    case NoReason => []
  }

  /** The crash-handler calls made under CONFIG_LGE_HANDLE_PANIC. */
  function LgeEvents(p: Platform, inPanic: bool, restartMode: int): seq<Event>
  {
    if !p.lgeHandlePanic then []
    else
      (if restartMode == RESTART_DLOAD then [LgeCrashHandler(SetRestartReason)] else [])
      + (if inPanic then [LgeCrashHandler(SetPanicReason)] else [])
      + [LgeCrashHandler(SetFb1Addr)]
  }

  /** The set_dload_mode calls, then the PMIC told to reset and in which style. */
  function BeforeReason(p: Platform, g: Globals, style: PonPowerOff): seq<Event>
  {
    StepsEvents(p, Steps(p, g)) + [PmicResetPwrOff(1), PonSystemPwrOff(style)]
  }

  /** The crash-handler calls, then both cache flushes. */
  function AfterReason(p: Platform, g: Globals): seq<Event>
  {
    LgeEvents(p, g.inPanic, g.restartMode) + [FlushCacheAll, OuterFlushAll]
  }

  /** The actions of msm_restart_prepare for a given reset style and reason verdict, in order. */
  function PrepareTrace(p: Platform, g: Globals, style: PonPowerOff, a: ReasonAction): seq<Event>
  {
    BeforeReason(p, g, style) + ReasonEvents(p, a) + AfterReason(p, g)
  }

  /** Everything msm_restart_prepare(cmd) does. */
  function PrepareEvents(p: Platform, g: Globals, cmd: Option<CString>): seq<Event>
  {
    PrepareTrace(p, g, PrepareStyle(p, g, cmd), ReasonFor(cmd, p.lgeHandlePanic))
  }

  // ----- halt_spmi_pmic_arbiter, msm_restart and __msm_power_off -----

  /** halt_spmi_pmic_arbiter: the secure-monitor call, only when init found it available. */
  function ArbiterHaltEvents(p: Platform): seq<Event>
  {
    if p.arbiterHaltSupported then [ScmCall(SvcPwr, SCM_IO_DISABLE_PMIC_ARBITER, 0)] else []
  }

  /** The watchdog the legacy path leaves running in case PS_HOLD did not reset the chip. */
  function WatchdogFallbackEvents(): seq<Event>
  {
    [Write(Tmr0(WDT0_RST), 1),
     Write(Tmr0(WDT0_BARK_TIME), 5 * WDT0_BITE_TICKS),
     Write(Tmr0(WDT0_BITE_TIME), WDT0_BITE_TICKS),
     Write(Tmr0(WDT0_EN), 1)]
  }

  /** PS_HOLD lowered on a v2 platform: the arbiter halted first. */
  function V2PsHoldEvents(p: Platform): seq<Event>
  {
    ArbiterHaltEvents(p) + [Write(Mpm2PsHold, 0)]
  }

  /** The legacy reset: watchdog off, PS_HOLD low unless on a fusion board, then the watchdog fallback. */
  function LegacyResetEvents(p: Platform): seq<Event>
  {
    [Write(Tmr0(WDT0_EN), 0)]
    + (if !p.fusionBoard then [Barrier, Write(PsHoldSu, 0), Delay(5000)] else [])
    + WatchdogFallbackEvents()
  }

  /** The v2 reset: the debug image bypassed, then PS_HOLD lowered. */
  function V2ResetEvents(p: Platform): seq<Event>
  {
    [DisableWdogDebug] + V2PsHoldEvents(p)
  }

  /** The wait after PS_HOLD is lowered and the failure message when the chip is still running. */
  function FailEvents(phase: Phase): seq<Event>
  {
    [Delay(10000), Failed(phase)]
  }

  /** What msm_restart does after msm_restart_prepare, up to its failure message. */
  function ResetEvents(p: Platform): seq<Event>
  {
    (if !p.restartV2 then LegacyResetEvents(p) else V2ResetEvents(p)) + FailEvents(Restarting)
  }

  /** Everything msm_restart(mode, cmd) does; mode is not read. */
  function RestartEvents(p: Platform, g: Globals, cmd: Option<CString>): seq<Event>
  {
    PrepareEvents(p, g, cmd) + ResetEvents(p)
  }

  /** The PS_HOLD register of the platform lowered (on v2, after the arbiter halt). */
  function PsHoldEvents(p: Platform): seq<Event>
  {
    if !p.restartV2 then [Write(PsHoldSu, 0)] else V2PsHoldEvents(p)
  }

  /** The actions of __msm_power_off after its preparation, depending on lower_pshold. */
  function PsHoldLowEvents(p: Platform, lowerPshold: int): seq<Event>
  {
    if lowerPshold == 0 then [] else PsHoldEvents(p) + FailEvents(PoweringOff)
  }

  /** Everything __msm_power_off(lower_pshold) does. */
  function PowerOffEvents(p: Platform, lowerPshold: int): seq<Event>
  {
    SetDloadEvents(p, false) + [PmicResetPwrOff(0), PonSystemPwrOff(Shutdown)] + PsHoldLowEvents(p, lowerPshold)
  }

  // ----- properties of the preparation -----

  /**
   * WARM reset exactly when, after the precedence, download mode is armed, or a
   * panic was seen, or the command is a non-empty string, or (under
   * CONFIG_LAF_G_DRIVER) download mode was requested; HARD reset otherwise.
   */
  lemma ResetStyleRule(p: Platform, g: Globals, cmd: Option<CString>)
    requires !p.dloadMapped ==> !g.dloadModeEnabled
    ensures PrepareStyle(p, g, cmd) == WarmReset <==>
      || (p.dloadMapped && g.downloadMode != 0
          && (g.inPanic || (!p.lgeHandlePanic && g.restartMode == RESTART_DLOAD)))
      || g.inPanic
      || (cmd.Some? && cmd.value != "")
      || (p.lafGDriver && g.restartMode == RESTART_DLOAD)
    ensures PrepareStyle(p, g, cmd) != WarmReset ==> PrepareStyle(p, g, cmd) == HardReset
  {
    PrecedenceOutcome(p, g.downloadMode, g.inPanic, g.restartMode, g.dloadModeEnabled);
    if cmd.Some? && cmd.value != "" {
      assert At(cmd.value, 0) == cmd.value[0] != '\0';
    }
  }

  /** The set_dload_mode calls only write the pair and fence. */
  lemma {:induction false} StepsEventsShape(p: Platform, steps: seq<bool>)
    ensures forall i | 0 <= i < |StepsEvents(p, steps)| ::
      || StepsEvents(p, steps)[i] == Barrier
      || (StepsEvents(p, steps)[i].Write?
          && StepsEvents(p, steps)[i].loc in {Imem(DLOAD_MODE_ADDR), Imem(DLOAD_MODE_ADDR + 4)})
    decreases |steps|
  {
    if steps != [] {
      StepsEventsShape(p, steps[..|steps| - 1]);
    }
  }

  /** The part of the preparation after the set_dload_mode calls. */
  function AfterSteps(p: Platform, g: Globals, style: PonPowerOff, a: ReasonAction): seq<Event>
  {
    [PmicResetPwrOff(1), PonSystemPwrOff(style)]
    + ReasonEvents(p, a)
    + LgeEvents(p, g.inPanic, g.restartMode)
    + [FlushCacheAll, OuterFlushAll]
  }

  lemma PrepareTraceSplit(p: Platform, g: Globals, style: PonPowerOff, a: ReasonAction)
    ensures PrepareTrace(p, g, style, a) == StepsEvents(p, Steps(p, g)) + AfterSteps(p, g, style, a)
    ensures AfterSteps(p, g, style, a)
      == [PmicResetPwrOff(1), PonSystemPwrOff(style)] + ReasonEvents(p, a)
         + (LgeEvents(p, g.inPanic, g.restartMode) + [FlushCacheAll, OuterFlushAll])
  {
  }

  /** The reason verdict's actions write no word of the download pair. */
  lemma ReasonEventsKeepPair(p: Platform, a: ReasonAction)
    ensures Untouched(ReasonEvents(p, a), Imem(DLOAD_MODE_ADDR))
    ensures Untouched(ReasonEvents(p, a), Imem(DLOAD_MODE_ADDR + 4))
  {
    if a.ArmEmergencyDload? {
      EmergencyDloadCalls(p);
    }
  }

  /** The events after the set_dload_mode calls touch neither word of the pair. */
  lemma AfterStepsKeepsPair(p: Platform, g: Globals, style: PonPowerOff, a: ReasonAction)
    ensures Untouched(AfterSteps(p, g, style, a), Imem(DLOAD_MODE_ADDR))
    ensures Untouched(AfterSteps(p, g, style, a), Imem(DLOAD_MODE_ADDR + 4))
  {
    var pm: seq<Event> := [PmicResetPwrOff(1), PonSystemPwrOff(style)];
    var r := ReasonEvents(p, a);
    var tail := LgeEvents(p, g.inPanic, g.restartMode) + [FlushCacheAll, OuterFlushAll];
    PrepareTraceSplit(p, g, style, a);
    ReasonEventsKeepPair(p, a);
    assert AfterSteps(p, g, style, a) == pm + r + tail;
    var l0, l4 := Imem(DLOAD_MODE_ADDR), Imem(DLOAD_MODE_ADDR + 4);
    assert Untouched(pm, l0) && Untouched(pm, l4) && Untouched(tail, l0) && Untouched(tail, l4);
    UntouchedConcat(pm, r, l0);
    UntouchedConcat(pm + r, tail, l0);
    UntouchedConcat(pm, r, l4);
    UntouchedConcat(pm + r, tail, l4);
  }

  lemma PrepareTraceOnlyPrepares(p: Platform, g: Globals, style: PonPowerOff, a: ReasonAction)
    ensures forall i | 0 <= i < |PrepareTrace(p, g, style, a)| ::
      IsPreparation(PrepareTrace(p, g, style, a)[i]) || PrepareTrace(p, g, style, a)[i].Barrier?
  {
    StepsEventsShape(p, Steps(p, g));
    PrepareTraceSplit(p, g, style, a);
    var s, r := StepsEvents(p, Steps(p, g)), AfterSteps(p, g, style, a);
    assert forall i | 0 <= i < |r| :: IsPreparation(r[i]) || r[i].Barrier?;
    forall i | 0 <= i < |s + r| ensures IsPreparation((s + r)[i]) || (s + r)[i].Barrier? {
      if i < |s| {
        assert (s + r)[i] == s[i];
      } else {
        assert (s + r)[i] == r[i - |s|];
      }
    }
  }

  /** msm_restart_prepare only prepares and fences: it drives no register and calls no secure monitor. */
  lemma PrepareOnlyPrepares(p: Platform, g: Globals, cmd: Option<CString>)
    ensures forall i | 0 <= i < |PrepareEvents(p, g, cmd)| ::
      IsPreparation(PrepareEvents(p, g, cmd)[i]) || PrepareEvents(p, g, cmd)[i].Barrier?
    ensures HwWrites(PrepareEvents(p, g, cmd)) == []
  {
    var t := PrepareTrace(p, g, PrepareStyle(p, g, cmd), ReasonFor(cmd, p.lgeHandlePanic));
    PrepareTraceOnlyPrepares(p, g, PrepareStyle(p, g, cmd), ReasonFor(cmd, p.lgeHandlePanic));
    HwWritesNone(t);
  }

  lemma PrepareTraceReason(p: Platform, g: Globals, style: PonPowerOff, a: ReasonAction, io: map<Loc, Word>)
    requires !a.ArmEmergencyDload?
    ensures var io' := Apply(io, PrepareTrace(p, g, style, a));
      a.WriteReason? ==> Imem(RESTART_REASON_ADDR) in io' && io'[Imem(RESTART_REASON_ADDR)] == a.code
    ensures a.NoReason? ==> Untouched(PrepareTrace(p, g, style, a), Imem(RESTART_REASON_ADDR))
  {
    var l := Imem(RESTART_REASON_ADDR);
    var head := StepsEvents(p, Steps(p, g)) + [PmicResetPwrOff(1), PonSystemPwrOff(style)];
    var r := ReasonEvents(p, a);
    var tail := LgeEvents(p, g.inPanic, g.restartMode) + [FlushCacheAll, OuterFlushAll];
    assert PrepareTrace(p, g, style, a) == head + r + tail;
    assert Untouched(tail, l);
    if a.WriteReason? {
      ApplyAppend(io, head + r, tail);
      ApplyAppend(io, head, r);
      ApplySingle(Apply(io, head), r[0]);
      ApplyUntouched(Apply(io, head + r), tail, l);
    } else {
      StepsEventsShape(p, Steps(p, g));
      UntouchedConcat(StepsEvents(p, Steps(p, g)), [PmicResetPwrOff(1), PonSystemPwrOff(style)], l);
      UntouchedConcat(head, r, l);
      UntouchedConcat(head + r, tail, l);
    }
  }

  lemma PrepareTraceAroundReason(p: Platform, g: Globals, style: PonPowerOff, a: ReasonAction)
    ensures PrepareTrace(p, g, style, a) == BeforeReason(p, g, style) + ReasonEvents(p, a) + AfterReason(p, g)
  {
  }

  /** Before and after the verdict, no IMEM word but the pair is written, and the watchdog is not touched. */
  lemma AroundReasonOnlyPair(p: Platform, g: Globals, style: PonPowerOff, l: Loc)
    requires l != Imem(DLOAD_MODE_ADDR) && l != Imem(DLOAD_MODE_ADDR + 4)
    ensures Untouched(BeforeReason(p, g, style), l) && Untouched(AfterReason(p, g), l)
    ensures PonWdConfig(0) !in BeforeReason(p, g, style) && PonWdConfig(0) !in AfterReason(p, g)
  {
    StepsEventsShape(p, Steps(p, g));
    var s := StepsEvents(p, Steps(p, g));
    UntouchedConcat(s, [PmicResetPwrOff(1), PonSystemPwrOff(style)], l);
    assert PonWdConfig(0) !in s;
  }

  lemma PrepareTraceEmergencyNoReason(p: Platform, g: Globals, style: PonPowerOff)
    ensures Untouched(PrepareTrace(p, g, style, ArmEmergencyDload), Imem(RESTART_REASON_ADDR))
  {
    var b, e, c := BeforeReason(p, g, style), EmergencyDloadEvents(p), AfterReason(p, g);
    PrepareTraceAroundReason(p, g, style, ArmEmergencyDload);
    EmergencyDloadCalls(p);
    var l := Imem(RESTART_REASON_ADDR);
    AroundReasonOnlyPair(p, g, style, l);
    UntouchedConcat(b, e, l);
    UntouchedConcat(b + e, c, l);
  }

  lemma PrepareTraceEmergencyWatchdog(p: Platform, g: Globals, style: PonPowerOff)
    ensures multiset(PrepareTrace(p, g, style, ArmEmergencyDload))[PonWdConfig(0)] == if p.emergencyMapped then 1 else 0
  {
    var b, e, c := BeforeReason(p, g, style), EmergencyDloadEvents(p), AfterReason(p, g);
    PrepareTraceAroundReason(p, g, style, ArmEmergencyDload);
    EmergencyDloadCalls(p);
    AroundReasonOnlyPair(p, g, style, Imem(RESTART_REASON_ADDR));
    assert multiset(b + e + c) == multiset(b) + multiset(e) + multiset(c);
  }

  lemma PrepareTraceEmergencyWords(p: Platform, g: Globals, style: PonPowerOff, io: map<Loc, Word>, k: int)
    requires k in {0, 4, 8}
    ensures var l := Imem(EMERGENCY_DLOAD_MODE_ADDR + k);
      var io' := Apply(io, PrepareTrace(p, g, style, ArmEmergencyDload));
      p.emergencyMapped ==>
        && l in io' && l in Apply(Apply(io, BeforeReason(p, g, style)), EmergencyDloadEvents(p))
        && io'[l] == Apply(Apply(io, BeforeReason(p, g, style)), EmergencyDloadEvents(p))[l]
    ensures !p.emergencyMapped ==> Untouched(PrepareTrace(p, g, style, ArmEmergencyDload), Imem(EMERGENCY_DLOAD_MODE_ADDR + k))
  {
    var b, e, c := BeforeReason(p, g, style), EmergencyDloadEvents(p), AfterReason(p, g);
    var l := Imem(EMERGENCY_DLOAD_MODE_ADDR + k);
    PrepareTraceAroundReason(p, g, style, ArmEmergencyDload);
    AroundReasonOnlyPair(p, g, style, l);
    if p.emergencyMapped {
      ApplyAppend(io, b + e, c);
      ApplyAppend(io, b, e);
      EmergencyDloadStores(p, Apply(io, b));
      ApplyUntouched(Apply(io, b + e), c, l);
    } else {
      assert b + e + c == b + c;
      UntouchedConcat(b, c, l);
    }
  }

  lemma PrepareTraceEmergency(p: Platform, g: Globals, style: PonPowerOff, io: map<Loc, Word>)
    ensures Untouched(PrepareTrace(p, g, style, ArmEmergencyDload), Imem(RESTART_REASON_ADDR))
    ensures multiset(PrepareTrace(p, g, style, ArmEmergencyDload))[PonWdConfig(0)] == if p.emergencyMapped then 1 else 0
    ensures var io' := Apply(io, PrepareTrace(p, g, style, ArmEmergencyDload));
      p.emergencyMapped ==>
        && Imem(EMERGENCY_DLOAD_MODE_ADDR) in io' && io'[Imem(EMERGENCY_DLOAD_MODE_ADDR)] == EMERGENCY_DLOAD_MAGIC1
        && Imem(EMERGENCY_DLOAD_MODE_ADDR + 4) in io' && io'[Imem(EMERGENCY_DLOAD_MODE_ADDR + 4)] == EMERGENCY_DLOAD_MAGIC2
        && Imem(EMERGENCY_DLOAD_MODE_ADDR + 8) in io' && io'[Imem(EMERGENCY_DLOAD_MODE_ADDR + 8)] == EMERGENCY_DLOAD_MAGIC3
    ensures !p.emergencyMapped ==>
      && Untouched(PrepareTrace(p, g, style, ArmEmergencyDload), Imem(EMERGENCY_DLOAD_MODE_ADDR))
      && Untouched(PrepareTrace(p, g, style, ArmEmergencyDload), Imem(EMERGENCY_DLOAD_MODE_ADDR + 4))
      && Untouched(PrepareTrace(p, g, style, ArmEmergencyDload), Imem(EMERGENCY_DLOAD_MODE_ADDR + 8))
  {
    PrepareTraceEmergencyNoReason(p, g, style);
    PrepareTraceEmergencyWatchdog(p, g, style);
    PrepareTraceEmergencyWords(p, g, style, io, 0);
    PrepareTraceEmergencyWords(p, g, style, io, 4);
    PrepareTraceEmergencyWords(p, g, style, io, 8);
    EmergencyDloadStores(p, Apply(io, BeforeReason(p, g, style)));
    assert EMERGENCY_DLOAD_MODE_ADDR + 0 == EMERGENCY_DLOAD_MODE_ADDR;
  }

  /**
   * The reason table reaches IMEM: a code it chooses is the word left at
   * offset 0x65C, and with no code (a NULL command without
   * CONFIG_LGE_HANDLE_PANIC, or "edl") that word is not written at all.
   */
  lemma ReasonWordWritten(p: Platform, g: Globals, cmd: Option<CString>, io: map<Loc, Word>)
    ensures var a := ReasonFor(cmd, p.lgeHandlePanic);
      var io' := Apply(io, PrepareEvents(p, g, cmd));
      a.WriteReason? ==> Imem(RESTART_REASON_ADDR) in io' && io'[Imem(RESTART_REASON_ADDR)] == a.code
    ensures !ReasonFor(cmd, p.lgeHandlePanic).WriteReason? ==>
      Untouched(PrepareEvents(p, g, cmd), Imem(RESTART_REASON_ADDR))
  {
    var a := ReasonFor(cmd, p.lgeHandlePanic);
    if a.ArmEmergencyDload? {
      PrepareTraceEmergency(p, g, PrepareStyle(p, g, cmd), io);
    } else {
      PrepareTraceReason(p, g, PrepareStyle(p, g, cmd), a, io);
    }
  }

  /**
   * A command starting with "edl" writes no reason word, leaves the emergency
   * triple in place and disables the PMIC watchdog exactly once; with the
   * emergency region unmapped it neither writes the triple nor touches the
   * watchdog.
   */
  lemma EdlPrepare(p: Platform, g: Globals, s: CString, io: map<Loc, Word>)
    requires "edl" <= s
    ensures Untouched(PrepareEvents(p, g, Some(s)), Imem(RESTART_REASON_ADDR))
    ensures multiset(PrepareEvents(p, g, Some(s)))[PonWdConfig(0)] == if p.emergencyMapped then 1 else 0
    ensures var io' := Apply(io, PrepareEvents(p, g, Some(s)));
      p.emergencyMapped ==>
        && Imem(EMERGENCY_DLOAD_MODE_ADDR) in io' && io'[Imem(EMERGENCY_DLOAD_MODE_ADDR)] == EMERGENCY_DLOAD_MAGIC1
        && Imem(EMERGENCY_DLOAD_MODE_ADDR + 4) in io' && io'[Imem(EMERGENCY_DLOAD_MODE_ADDR + 4)] == EMERGENCY_DLOAD_MAGIC2
        && Imem(EMERGENCY_DLOAD_MODE_ADDR + 8) in io' && io'[Imem(EMERGENCY_DLOAD_MODE_ADDR + 8)] == EMERGENCY_DLOAD_MAGIC3
    ensures !p.emergencyMapped ==>
      && Untouched(PrepareEvents(p, g, Some(s)), Imem(EMERGENCY_DLOAD_MODE_ADDR))
      && Untouched(PrepareEvents(p, g, Some(s)), Imem(EMERGENCY_DLOAD_MODE_ADDR + 4))
      && Untouched(PrepareEvents(p, g, Some(s)), Imem(EMERGENCY_DLOAD_MODE_ADDR + 8))
  {
    EdlIffPrefix(s, p.lgeHandlePanic);
    PrepareTraceEmergency(p, g, PrepareStyle(p, g, Some(s)), io);
  }

  /**
   * After msm_restart_prepare the stored pair is the one matching the final
   * armed state (the cached flag), so the boot loader sees what
   * get_dload_mode reports.
   */
  lemma PreparePairMatchesCache(p: Platform, g: Globals, cmd: Option<CString>, io: map<Loc, Word>)
    requires p.dloadMapped
    ensures DloadPairIs(Apply(io, PrepareEvents(p, g, cmd)), ArmedAfterPrepare(p, g))
  {
    var style, a := PrepareStyle(p, g, cmd), ReasonFor(cmd, p.lgeHandlePanic);
    var steps := Steps(p, g);
    var rest := AfterSteps(p, g, style, a);
    PrepareTraceSplit(p, g, style, a);
    StepsStoreLast(p, io, steps);
    ApplyAppend(io, StepsEvents(p, steps), rest);
    AfterStepsKeepsPair(p, g, style, a);
    ApplyUntouched(Apply(io, StepsEvents(p, steps)), rest, Imem(DLOAD_MODE_ADDR));
    ApplyUntouched(Apply(io, StepsEvents(p, steps)), rest, Imem(DLOAD_MODE_ADDR + 4));
  }

  // ----- properties of the reset and power-off sequences -----

  /** Nothing after msm_restart_prepare prepares anything. */
  lemma ResetDoesNotPrepare(p: Platform)
    ensures forall i | 0 <= i < |ResetEvents(p)| :: !IsPreparation(ResetEvents(p)[i])
  {
  }

  lemma LegacyPsHoldWrites(p: Platform)
    ensures HwWrites(if !p.fusionBoard then [Barrier, Write(PsHoldSu, 0), Delay(5000)] else [])
      == if !p.fusionBoard then [Write(PsHoldSu, 0)] else []
  {
    if !p.fusionBoard {
      var ps: seq<Event> := [Barrier, Write(PsHoldSu, 0), Delay(5000)];
      assert ps == [Barrier] + ([Write(PsHoldSu, 0)] + [Delay(5000)]);
      HwWritesAppend([Barrier], [Write(PsHoldSu, 0)] + [Delay(5000)]);
      HwWritesAppend([Write(PsHoldSu, 0)], [Delay(5000)]);
      HwWritesOne(Barrier);
      HwWritesOne(Write(PsHoldSu, 0));
      HwWritesOne(Delay(5000));
    }
  }

  lemma WatchdogFallbackWrites()
    ensures HwWrites(WatchdogFallbackEvents()) == WatchdogFallbackEvents()
  {
    var wd := WatchdogFallbackEvents();
    assert wd == [wd[0]] + ([wd[1]] + ([wd[2]] + [wd[3]]));
    HwWritesAppend([wd[0]], [wd[1]] + ([wd[2]] + [wd[3]]));
    HwWritesAppend([wd[1]], [wd[2]] + [wd[3]]);
    HwWritesAppend([wd[2]], [wd[3]]);
    HwWritesOne(wd[0]);
    HwWritesOne(wd[1]);
    HwWritesOne(wd[2]);
    HwWritesOne(wd[3]);
  }

  /**
   * The register writes of a restart, in order. Legacy: watchdog off, PS_HOLD
   * low unless on a fusion board, then the watchdog reprogrammed with bark
   * five times bite and re-enabled. v2: only the v2 PS_HOLD register.
   */
  lemma RestartRegisterWrites(p: Platform, g: Globals, cmd: Option<CString>)
    ensures HwWrites(RestartEvents(p, g, cmd)) ==
      if !p.restartV2 then
        [Write(Tmr0(WDT0_EN), 0)]
        + (if !p.fusionBoard then [Write(PsHoldSu, 0)] else [])
        + [Write(Tmr0(WDT0_RST), 1), Write(Tmr0(WDT0_BARK_TIME), 5 * 0x31F3),
           Write(Tmr0(WDT0_BITE_TIME), 0x31F3), Write(Tmr0(WDT0_EN), 1)]
      else [Write(Mpm2PsHold, 0)]
  {
    PrepareOnlyPrepares(p, g, cmd);
    HwWritesAppend(PrepareEvents(p, g, cmd), ResetEvents(p));
    ResetRegisterWrites(p);
  }

  lemma ResetRegisterWrites(p: Platform)
    ensures HwWrites(ResetEvents(p)) ==
      if !p.restartV2 then
        [Write(Tmr0(WDT0_EN), 0)]
        + (if !p.fusionBoard then [Write(PsHoldSu, 0)] else [])
        + WatchdogFallbackEvents()
      else [Write(Mpm2PsHold, 0)]
  {
    var fin: seq<Event> := [Delay(10000), Failed(Restarting)];
    HwWritesNone(fin);
    if !p.restartV2 {
      var ps: seq<Event> := if !p.fusionBoard then [Barrier, Write(PsHoldSu, 0), Delay(5000)] else [];
      var en0: seq<Event> := [Write(Tmr0(WDT0_EN), 0)];
      var wd := WatchdogFallbackEvents();
      assert ResetEvents(p) == en0 + ps + wd + fin;
      HwWritesAppend(en0 + ps + wd, fin);
      HwWritesAppend(en0 + ps, wd);
      HwWritesAppend(en0, ps);
      HwWritesOne(Write(Tmr0(WDT0_EN), 0));
      LegacyPsHoldWrites(p);
      WatchdogFallbackWrites();
    } else {
      var v := V2PsHoldEvents(p);
      assert ResetEvents(p) == [DisableWdogDebug] + v + fin;
      HwWritesAppend([DisableWdogDebug] + v, fin);
      HwWritesAppend([DisableWdogDebug], v);
      HwWritesAppend(ArbiterHaltEvents(p), [Write(Mpm2PsHold, 0)]);
      HwWritesNone([DisableWdogDebug]);
      HwWritesNone(ArbiterHaltEvents(p));
      HwWritesOne(Write(Mpm2PsHold, 0));
    }
  }

  /**
   * Every register write of a restart comes after both cache flushes and
   * after every IMEM write and PMIC call of the preparation.
   */
  lemma RestartOrdered(p: Platform, g: Globals, cmd: Option<CString>)
    ensures FlushedBeforeRegisters(RestartEvents(p, g, cmd))
  {
    PrepareOnlyPrepares(p, g, cmd);
    ResetDoesNotPrepare(p);
    var t := PrepareEvents(p, g, cmd);
    assert t[|t| - 2] == FlushCacheAll && t[|t| - 1] == OuterFlushAll;
    PrepareThenDrive(t, ResetEvents(p));
  }

  /**
   * On a v2 platform the restart lowers the v2 PS_HOLD register, and the
   * arbiter is halted before it exactly when init found the call available;
   * the arbiter is never halted otherwise.
   */
  lemma V2ArbiterBeforePsHold(p: Platform, g: Globals, cmd: Option<CString>)
    requires p.restartV2
    ensures var t := RestartEvents(p, g, cmd);
      exists j | 0 <= j < |t| :: t[j] == Write(Mpm2PsHold, 0)
        && (ScmCall(SvcPwr, SCM_IO_DISABLE_PMIC_ARBITER, 0) in t[..j] <==> p.arbiterHaltSupported)
    ensures ScmCall(SvcPwr, SCM_IO_DISABLE_PMIC_ARBITER, 0) in RestartEvents(p, g, cmd) <==> p.arbiterHaltSupported
  {
    var a := PrepareEvents(p, g, cmd);
    var h := ArbiterHaltEvents(p);
    var t := RestartEvents(p, g, cmd);
    var scm := ScmCall(SvcPwr, SCM_IO_DISABLE_PMIC_ARBITER, 0);
    PrepareOnlyPrepares(p, g, cmd);
    assert scm !in a;
    assert t == a + [DisableWdogDebug] + h + [Write(Mpm2PsHold, 0), Delay(10000), Failed(Restarting)];
    var j := |a| + 1 + |h|;
    assert t[j] == Write(Mpm2PsHold, 0);
    assert t[..j] == a + [DisableWdogDebug] + h;
  }

  /**
   * __msm_power_off(lower_pshold) drives a register exactly when lower_pshold
   * is non-zero, and then only the PS_HOLD register of the platform.
   */
  lemma PowerOffRegisterWrites(p: Platform, lowerPshold: int)
    ensures HwWrites(PowerOffEvents(p, lowerPshold)) ==
      if lowerPshold == 0 then []
      else if !p.restartV2 then [Write(PsHoldSu, 0)]
      else [Write(Mpm2PsHold, 0)]
  {
    var pre := SetDloadEvents(p, false) + [PmicResetPwrOff(0), PonSystemPwrOff(Shutdown)];
    var low := PsHoldLowEvents(p, lowerPshold);
    assert PowerOffEvents(p, lowerPshold) == pre + low;
    HwWritesAppend(pre, low);
    HwWritesNone(pre);
    if lowerPshold != 0 {
      var fin: seq<Event> := [Delay(10000), Failed(PoweringOff)];
      HwWritesNone(fin);
      if !p.restartV2 {
        assert low == [Write(PsHoldSu, 0)] + fin;
        HwWritesAppend([Write(PsHoldSu, 0)], fin);
        assert [Write(PsHoldSu, 0)][1..] == [];
      } else {
        assert low == ArbiterHaltEvents(p) + [Write(Mpm2PsHold, 0)] + fin;
        HwWritesAppend(ArbiterHaltEvents(p) + [Write(Mpm2PsHold, 0)], fin);
        HwWritesAppend(ArbiterHaltEvents(p), [Write(Mpm2PsHold, 0)]);
        HwWritesNone(ArbiterHaltEvents(p));
        assert [Write(Mpm2PsHold, 0)][1..] == [];
      }
    } else {
      assert low == [];
    }
  }

  /**
   * __msm_power_off first disarms download mode (the pair reads (0, 0)) and
   * makes its PMIC calls before any PS_HOLD write.
   */
  lemma PowerOffDisarmsFirst(p: Platform, lowerPshold: int, io: map<Loc, Word>)
    ensures p.dloadMapped ==> DloadPairIs(Apply(io, PowerOffEvents(p, lowerPshold)), false)
    ensures !DloadArmedIn(p, Apply(io, PowerOffEvents(p, lowerPshold)))
    ensures PreparedBeforeRegisters(PowerOffEvents(p, lowerPshold))
  {
    PowerOffPair(p, lowerPshold, io);
    PowerOffOrder(p, lowerPshold);
  }

  lemma PowerOffPair(p: Platform, lowerPshold: int, io: map<Loc, Word>)
    ensures p.dloadMapped ==> DloadPairIs(Apply(io, PowerOffEvents(p, lowerPshold)), false)
    ensures !DloadArmedIn(p, Apply(io, PowerOffEvents(p, lowerPshold)))
  {
    var d := SetDloadEvents(p, false);
    var rest := [PmicResetPwrOff(0), PonSystemPwrOff(Shutdown)] + PsHoldLowEvents(p, lowerPshold);
    assert PowerOffEvents(p, lowerPshold) == d + rest;
    if p.dloadMapped {
      SetDloadStores(p, io, false);
      ApplyAppend(io, d, rest);
      assert Untouched(rest, Imem(DLOAD_MODE_ADDR)) && Untouched(rest, Imem(DLOAD_MODE_ADDR + 4));
      ApplyUntouched(Apply(io, d), rest, Imem(DLOAD_MODE_ADDR));
      ApplyUntouched(Apply(io, d), rest, Imem(DLOAD_MODE_ADDR + 4));
    }
  }

  lemma PowerOffOrder(p: Platform, lowerPshold: int)
    ensures PreparedBeforeRegisters(PowerOffEvents(p, lowerPshold))
  {
    var pre := SetDloadEvents(p, false) + [PmicResetPwrOff(0), PonSystemPwrOff(Shutdown)];
    var low := PsHoldLowEvents(p, lowerPshold);
    assert PowerOffEvents(p, lowerPshold) == pre + low;
    PrepareThenDrive(pre, low);
  }

  /**
   * On a v2 platform, a power-off that lowers PS_HOLD halts the arbiter
   * exactly when init found the call available.
   */
  lemma PowerOffArbiter(p: Platform, lowerPshold: int)
    requires p.restartV2
    ensures ScmCall(SvcPwr, SCM_IO_DISABLE_PMIC_ARBITER, 0) in PowerOffEvents(p, lowerPshold)
      <==> lowerPshold != 0 && p.arbiterHaltSupported
  {
    var scm := ScmCall(SvcPwr, SCM_IO_DISABLE_PMIC_ARBITER, 0);
    var pre := SetDloadEvents(p, false) + [PmicResetPwrOff(0), PonSystemPwrOff(Shutdown)];
    assert scm !in pre;
    assert PowerOffEvents(p, lowerPshold) == pre + PsHoldLowEvents(p, lowerPshold);
  }
}
