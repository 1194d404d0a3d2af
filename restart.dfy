/**
 * The driver's state and operations: the process-wide globals of the
 * restart driver (download_mode, dload_mode_enabled, in_panic,
 * restart_mode), the memory-mapped words it writes and the trace of its
 * actions, with one method per function of the driver. Each method is
 * proved to append exactly the trace the sequencer specification gives for
 * the state it started in, and to keep the cached download-mode flag equal
 * to the pair stored in IMEM.
 */
module Restart {
  import opened CStrings
  import opened Hardware
  import opened RestartReason
  import opened DownloadMode
  import opened PowerSequencer

  /** NOTIFY_DONE of the kernel's notifier chains. */
  const NOTIFY_DONE: int := 0

  class RestartController {
    /** Build options, board and the addresses and capability found at init. */
    const platform: Platform
    /** The memory-mapped words before the driver's first action. */
    ghost const io0: map<Loc, Word>

    var downloadMode: int       // download_mode
    var dloadModeEnabled: bool  // dload_mode_enabled
    var inPanic: bool           // in_panic
    var restartMode: int        // restart_mode
    var io: map<Loc, Word>      // the memory-mapped words
    var trace: seq<Event>       // every action taken so far

    /** The words are what the trace wrote. */
    ghost predicate Consistent()
      reads this
    {
      io == Apply(io0, trace)
    }

    /**
     * The driver's invariant: the cache mirrors the stored pair (and stays
     * false while the region is unmapped), and the master switch is 0 or 1.
     */
    ghost predicate Valid()
      reads this
    {
      && Ready()
      && (platform.dloadMapped ==> DloadPairIs(io, dloadModeEnabled))
    }

    /** Valid but for the stored pair, which set_dload_mode establishes. */
    ghost predicate Ready()
      reads this
    {
      && Consistent()
      && (!platform.dloadMapped ==> !dloadModeEnabled)
      && (downloadMode == 0 || downloadMode == 1)
    }

    /** The globals the sequencer reads. */
    function State(): Globals
      reads this
    {
      Globals(downloadMode, inPanic, restartMode, dloadModeEnabled)
    }

    /** Performs one action: a write updates the word, every action is recorded. */
    method Record(e: Event)
      requires Consistent()
      modifies this
      ensures Consistent()
      ensures trace == old(trace) + [e]
      ensures io == if e.Write? then old(io)[e.loc := e.value] else old(io)
      ensures State() == old(State())
    {
      ApplyAppend(io0, trace, [e]);
      ApplySingle(Apply(io0, trace), e);
      if e.Write? {
        io := io[e.loc := e.value];
      }
      trace := trace + [e];
    }

    /** An action that leaves the download pair alone keeps the driver's invariant. */
    method Emit(e: Event)
      requires Valid()
      requires !(e.Write? && e.loc in {Imem(DLOAD_MODE_ADDR), Imem(DLOAD_MODE_ADDR + 4)})
      modifies this
      ensures Valid()
      ensures trace == old(trace) + [e]
      ensures State() == old(State())
    {
      Record(e);
    }

    /**
     * msm_restart_init: download mode set from download_mode, and under
     * CONFIG_LGE_HANDLE_PANIC a default restart reason written, whose value
     * comes from a header that is not part of this model. download_mode is
     * 0 unless a boot argument stored another value through dload_set,
     * which admits only 0 and 1; dload_set found the region unmapped then,
     * so it wrote nothing.
     */
    constructor (p: Platform, initialIo: map<Loc, Word>, bootDownloadMode: int, tzCrashReason: Word)
      requires bootDownloadMode == 0 || bootDownloadMode == 1
      ensures Valid()
      ensures platform == p && io0 == initialIo
      ensures downloadMode == bootDownloadMode && !inPanic && restartMode == 0
      ensures dloadModeEnabled == (p.dloadMapped && bootDownloadMode == 1)
      ensures trace == SetDloadEvents(p, bootDownloadMode != 0)
                       + (if p.lgeHandlePanic then [Write(Imem(RESTART_REASON_ADDR), tzCrashReason)] else [])
    {
      platform := p;
      io0 := initialIo;
      downloadMode := bootDownloadMode;
      dloadModeEnabled := false;
      inPanic := false;
      restartMode := 0;
      io := initialIo;
      trace := [];
      new;
      SetDloadMode(downloadMode);
      if platform.lgeHandlePanic {
        Emit(Write(Imem(RESTART_REASON_ADDR), tzCrashReason));
      }
    }

    /** panic_prep_restart: latches the panic. */
    method PanicPrepRestart() returns (r: int)
      requires Valid()
      modifies this
      ensures Valid()
      ensures r == NOTIFY_DONE && inPanic
      ensures trace == old(trace) && io == old(io)
      ensures downloadMode == old(downloadMode) && dloadModeEnabled == old(dloadModeEnabled)
      ensures restartMode == old(restartMode)
    {
      inPanic := true;
      r := NOTIFY_DONE;
    }

    /**
     * set_dload_mode(on): with the region mapped, the pair for on is stored,
     * fenced and cached; unmapped, nothing changes.
     */
    method SetDloadMode(on: int)
      requires Ready()
      modifies this
      ensures Valid()
      ensures trace == old(trace) + SetDloadEvents(platform, on != 0)
      ensures dloadModeEnabled == if platform.dloadMapped then on != 0 else old(dloadModeEnabled)
      ensures platform.dloadMapped ==> DloadPairIs(io, on != 0)
      ensures !platform.dloadMapped ==> io == old(io)
      ensures downloadMode == old(downloadMode) && inPanic == old(inPanic) && restartMode == old(restartMode)
    {
      if platform.dloadMapped {
        Record(Write(Imem(DLOAD_MODE_ADDR), if on != 0 then DLOAD_MAGIC1 else 0));
        Record(Write(Imem(DLOAD_MODE_ADDR + 4), if on != 0 then DLOAD_MAGIC2 else 0));
        Record(Barrier);
        dloadModeEnabled := on != 0;
      }
    }

    /** get_dload_mode: the cache, which is what the stored pair says. */
    function GetDloadMode(): (r: bool)
      reads this
      ensures Valid() ==> (r <==> DloadArmedIn(platform, io))
    {
      dloadModeEnabled
    }

    /** enable_emergency_dload_mode: the triple, the PMIC watchdog off and a fence, when mapped. */
    method EnableEmergencyDloadMode()
      requires Valid()
      modifies this
      ensures Valid()
      ensures trace == old(trace) + EmergencyDloadEvents(platform)
      ensures State() == old(State())
    {
      if platform.emergencyMapped {
        Emit(Write(Imem(EMERGENCY_DLOAD_MODE_ADDR), EMERGENCY_DLOAD_MAGIC1));
        Emit(Write(Imem(EMERGENCY_DLOAD_MODE_ADDR + 4), EMERGENCY_DLOAD_MAGIC2));
        Emit(Write(Imem(EMERGENCY_DLOAD_MODE_ADDR + 8), EMERGENCY_DLOAD_MAGIC3));
        Emit(PonWdConfig(0));
        Emit(Barrier);
      }
    }

    /**
     * dload_set: param_set_int is not part of this model, so its return code
     * and the value it parsed are parameters. A failure is passed on; a value
     * other than 0 or 1 is undone and rejected with -EINVAL; otherwise the
     * value is stored and download mode set from it.
     */
    method DloadSet(paramSetResult: int, parsed: int) returns (ret: int)
      requires Valid()
      modifies this
      ensures Valid()
      ensures paramSetResult != 0 ==>
        ret == paramSetResult && State() == old(State()) && trace == old(trace) && io == old(io)
      ensures paramSetResult == 0 && !(parsed == 0 || parsed == 1) ==>
        ret == -EINVAL && State() == old(State()) && trace == old(trace) && io == old(io)
      ensures paramSetResult == 0 && (parsed == 0 || parsed == 1) ==>
        && ret == 0 && downloadMode == parsed
        && trace == old(trace) + SetDloadEvents(platform, parsed == 1)
        && dloadModeEnabled == (if platform.dloadMapped then parsed == 1 else old(dloadModeEnabled))
      ensures inPanic == old(inPanic) && restartMode == old(restartMode)
    {
      var oldVal := downloadMode;
      ret := paramSetResult;
      if ret != 0 {
        return;
      }
      downloadMode := parsed;
      if !AcceptsDownloadMode(downloadMode) {
        downloadMode := oldVal;
        return -EINVAL;
      }
      SetDloadMode(downloadMode);
      return 0;
    }

    /** msm_set_restart_mode. */
    method SetRestartMode(mode: int)
      requires Valid()
      modifies this
      ensures Valid()
      ensures restartMode == mode
      ensures trace == old(trace) && io == old(io)
      ensures downloadMode == old(downloadMode) && dloadModeEnabled == old(dloadModeEnabled)
      ensures inPanic == old(inPanic)
    {
      restartMode := mode;
    }

    /** halt_spmi_pmic_arbiter. */
    method HaltSpmiPmicArbiter()
      requires Valid()
      modifies this
      ensures Valid()
      ensures trace == old(trace) + ArbiterHaltEvents(platform)
      ensures State() == old(State())
    {
      if platform.arbiterHaltSupported {
        Emit(ScmCall(SvcPwr, SCM_IO_DISABLE_PMIC_ARBITER, 0));
      }
    }

    /** __msm_power_off(lower_pshold). */
    method PowerOff(lowerPshold: int)
      requires Valid()
      modifies this
      ensures Valid()
      ensures trace == old(trace) + PowerOffEvents(platform, lowerPshold)
      ensures !GetDloadMode()
      ensures downloadMode == old(downloadMode) && inPanic == old(inPanic) && restartMode == old(restartMode)
    {
      ghost var t0 := trace;
      SetDloadMode(0);
      ghost var t1 := trace;
      Emit(PmicResetPwrOff(0));
      Emit(PonSystemPwrOff(Shutdown));
      assert trace == t1 + [PmicResetPwrOff(0), PonSystemPwrOff(Shutdown)];
      AppendAssoc(t0, SetDloadEvents(platform, false), [PmicResetPwrOff(0), PonSystemPwrOff(Shutdown)]);
      LowerPsHold(lowerPshold);
      AppendAssoc(t0, SetDloadEvents(platform, false) + [PmicResetPwrOff(0), PonSystemPwrOff(Shutdown)],
                  PsHoldLowEvents(platform, lowerPshold));
    }

    /** The tail of __msm_power_off: PS_HOLD lowered and the failure noted, only when asked to. */
    method LowerPsHold(lowerPshold: int)
      requires Valid()
      modifies this
      ensures Valid()
      ensures trace == old(trace) + PsHoldLowEvents(platform, lowerPshold)
      ensures State() == old(State())
    {
      if lowerPshold != 0 {
        ghost var t0 := trace;
        if !platform.restartV2 {
          Emit(Write(PsHoldSu, 0));
        } else {
          V2PsHold();
        }
        Fail(PoweringOff);
        AppendAssoc(t0, PsHoldEvents(platform), FailEvents(PoweringOff));
      }
    }

    /** msm_power_off, the pm_power_off hook: a power-off that lowers PS_HOLD. */
    method MsmPowerOff()
      requires Valid()
      modifies this
      ensures Valid()
      ensures trace == old(trace) + PowerOffEvents(platform, 1)
      ensures !dloadModeEnabled
      ensures downloadMode == old(downloadMode) && inPanic == old(inPanic) && restartMode == old(restartMode)
    {
      PowerOff(1);
    }

    /** The download-mode precedence at the head of msm_restart_prepare. */
    method PrepareDownloadMode()
      requires Valid()
      modifies this
      ensures Valid()
      ensures trace == old(trace) + StepsEvents(platform, Steps(platform, old(State())))
      ensures dloadModeEnabled == ArmedAfterPrepare(platform, old(State()))
      ensures downloadMode == old(downloadMode) && inPanic == old(inPanic) && restartMode == old(restartMode)
    {
      ghost var g := State();
      ghost var t0 := trace;
      ghost var steps: seq<bool> := [];
      assert trace == t0 + StepsEvents(platform, steps);
      ghost var s1 := SetDloadStep(t0, g.dloadModeEnabled, steps, true, false);
      ghost var s2 := SetDloadStep(t0, g.dloadModeEnabled, s1, true, inPanic);
      ghost var s3 := SetDloadStep(t0, g.dloadModeEnabled, s2, !platform.lgeHandlePanic && restartMode == RESTART_DLOAD, true);
      steps := SetDloadStep(t0, g.dloadModeEnabled, s3, downloadMode == 0, false);
      PrepareStepsInOrder(platform.lgeHandlePanic, g.downloadMode, g.inPanic, g.restartMode, s1, s2, s3, steps);
      assert steps == Steps(platform, g);
    }

    /**
     * One set_dload_mode call of the precedence, made when taken, accounted
     * for: after the calls steps, starting from trace t0 and cache cache0,
     * one more call on.
     */
    method SetDloadStep(ghost t0: seq<Event>, ghost cache0: bool, ghost steps: seq<bool>, taken: bool, on: bool)
      returns (ghost steps': seq<bool>)
      requires Valid()
      requires trace == t0 + StepsEvents(platform, steps)
      requires dloadModeEnabled == CacheAfter(platform, cache0, steps)
      modifies this
      ensures Valid()
      ensures steps' == steps + (if taken then [on] else [])
      ensures trace == t0 + StepsEvents(platform, steps')
      ensures dloadModeEnabled == CacheAfter(platform, cache0, steps')
      ensures downloadMode == old(downloadMode) && inPanic == old(inPanic) && restartMode == old(restartMode)
    {
      if taken {
        SetDloadMode(if on then 1 else 0);
        StepsEventsSnoc(platform, steps, on);
        AppendAssoc(t0, StepsEvents(platform, steps), SetDloadEvents(platform, on));
        steps' := steps + [on];
      } else {
        steps' := steps;
        assert steps' == steps + [];
      }
    }

    /** The actions for the reason table's verdict. */
    method WriteRestartReason(a: ReasonAction)
      requires Valid()
      modifies this
      ensures Valid()
      ensures trace == old(trace) + ReasonEvents(platform, a)
      ensures State() == old(State())
    {
      match a
      case WriteReason(code) =>
        Emit(Write(Imem(RESTART_REASON_ADDR), code));
      case ArmEmergencyDload =>
        EnableEmergencyDloadMode();
      case NoReason =>
    }

    /** The crash-handler calls under CONFIG_LGE_HANDLE_PANIC. */
    method NotifyCrashHandler()
      requires Valid()
      modifies this
      ensures Valid()
      ensures trace == old(trace) + LgeEvents(platform, inPanic, restartMode)
      ensures State() == old(State())
    {
      if platform.lgeHandlePanic {
        if restartMode == RESTART_DLOAD {
          Emit(LgeCrashHandler(SetRestartReason));
        }
        if inPanic {
          Emit(LgeCrashHandler(SetPanicReason));
        }
        Emit(LgeCrashHandler(SetFb1Addr));
      }
    }

    /** msm_restart_prepare(cmd). */
    method RestartPrepare(cmd: Option<CString>)
      requires Valid()
      modifies this
      ensures Valid()
      ensures trace == old(trace) + PrepareEvents(platform, old(State()), cmd)
      ensures dloadModeEnabled == ArmedAfterPrepare(platform, old(State()))
      ensures downloadMode == old(downloadMode) && inPanic == old(inPanic) && restartMode == old(restartMode)
    {
      ghost var g := State();
      ghost var t0 := trace;
      PrepareDownloadMode();
      var style := ChooseResetStyle(cmd);
      var action := ReasonFor(cmd, platform.lgeHandlePanic);
      WriteRestartReason(action);
      FinishPrepare();
      ghost var s, b, r, f := StepsEvents(platform, Steps(platform, g)), [PmicResetPwrOff(1), PonSystemPwrOff(style)],
                              ReasonEvents(platform, action), AfterReason(platform, g);
      AppendAssoc(t0, s, b);
      AppendAssoc(t0, s + b, r);
      AppendAssoc(t0, s + b + r, f);
    }

    /** The PMIC told to reset on power-off, in the style the reset-style rule picks. */
    method ChooseResetStyle(cmd: Option<CString>) returns (style: PonPowerOff)
      requires Valid()
      modifies this
      ensures Valid()
      ensures style == ResetStyle(platform, dloadModeEnabled, inPanic, cmd, restartMode)
      ensures trace == old(trace) + [PmicResetPwrOff(1), PonSystemPwrOff(style)]
      ensures State() == old(State())
    {
      Emit(PmicResetPwrOff(1));
      style := ResetStyle(platform, GetDloadMode(), inPanic, cmd, restartMode);
      Emit(PonSystemPwrOff(style));
    }

    /** The end of msm_restart_prepare: the crash handler told, the caches flushed. */
    method FinishPrepare()
      requires Valid()
      modifies this
      ensures Valid()
      ensures trace == old(trace) + AfterReason(platform, State())
      ensures State() == old(State())
    {
      NotifyCrashHandler();
      Emit(FlushCacheAll);
      Emit(OuterFlushAll);
    }

    /** msm_restart(mode, cmd): mode is not read. */
    method Restart(mode: char, cmd: Option<CString>)
      requires Valid()
      modifies this
      ensures Valid()
      ensures trace == old(trace) + RestartEvents(platform, old(State()), cmd)
      ensures dloadModeEnabled == ArmedAfterPrepare(platform, old(State()))
      ensures downloadMode == old(downloadMode) && inPanic == old(inPanic) && restartMode == old(restartMode)
    {
      ghost var t0 := trace;
      RestartPrepare(cmd);
      ResetChip();
      AppendAssoc(t0, PrepareEvents(platform, old(State()), cmd), ResetEvents(platform));
    }

    /** What msm_restart does once prepared: PS_HOLD lowered, the watchdog fallback on legacy platforms. */
    method ResetChip()
      requires Valid()
      modifies this
      ensures Valid()
      ensures trace == old(trace) + ResetEvents(platform)
      ensures State() == old(State())
    {
      if !platform.restartV2 {
        LegacyReset();
      } else {
        V2Reset();
      }
      Fail(Restarting);
    }

    /** mdelay(10000) and the failure message: the chip should have gone down meanwhile. */
    method Fail(phase: Phase)
      requires Valid()
      modifies this
      ensures Valid()
      ensures trace == old(trace) + FailEvents(phase)
      ensures State() == old(State())
    {
      Emit(Delay(10000));
      Emit(Failed(phase));
    }

    /** The v2 path: the debug image bypassed, the arbiter halted when supported, PS_HOLD low. */
    method V2Reset()
      requires Valid()
      modifies this
      ensures Valid()
      ensures trace == old(trace) + V2ResetEvents(platform)
      ensures State() == old(State())
    {
      Emit(DisableWdogDebug);
      V2PsHold();
    }

    /** PS_HOLD lowered on a v2 platform, after the arbiter halt. */
    method V2PsHold()
      requires Valid()
      modifies this
      ensures Valid()
      ensures trace == old(trace) + V2PsHoldEvents(platform)
      ensures State() == old(State())
    {
      HaltSpmiPmicArbiter();
      Emit(Write(Mpm2PsHold, 0));
    }

    /** The legacy path: watchdog off, PS_HOLD low unless on a fusion board, then the watchdog fallback. */
    method LegacyReset()
      requires Valid()
      modifies this
      ensures Valid()
      ensures trace == old(trace) + LegacyResetEvents(platform)
      ensures State() == old(State())
    {
      Emit(Write(Tmr0(WDT0_EN), 0));
      if !platform.fusionBoard {
        DropPsHold();
      }
      WatchdogFallback();
    }

    /** PS_HOLD lowered on a legacy platform, after a fence, with time to take effect. */
    method DropPsHold()
      requires Valid()
      modifies this
      ensures Valid()
      ensures trace == old(trace) + [Barrier, Write(PsHoldSu, 0), Delay(5000)]
      ensures State() == old(State())
    {
      Emit(Barrier);
      Emit(Write(PsHoldSu, 0));
      Emit(Delay(5000));
    }

    /** The watchdog reprogrammed and re-enabled, in case PS_HOLD did not reset the chip. */
    method WatchdogFallback()
      requires Valid()
      modifies this
      ensures Valid()
      ensures trace == old(trace) + WatchdogFallbackEvents()
      ensures State() == old(State())
    {
      Emit(Write(Tmr0(WDT0_RST), 1));
      Emit(Write(Tmr0(WDT0_BARK_TIME), 5 * WDT0_BITE_TICKS));
      Emit(Write(Tmr0(WDT0_BITE_TIME), WDT0_BITE_TICKS));
      Emit(Write(Tmr0(WDT0_EN), 1));
    }
  }
}
