/**
 * The hardware this restart driver touches, seen from the driver: 32-bit
 * memory-mapped words (the IMEM diagnostic region, the timer-0 watchdog
 * registers and the two PS_HOLD control registers) and the calls it makes
 * into code outside this file (PMIC, secure monitor, cache maintenance,
 * delays). Every action the driver takes is recorded as an Event, and the
 * content of the memory-mapped words is what the Write events of a trace
 * leave behind (Apply).
 */
module Hardware {

  /** A 32-bit word as written by __raw_writel. */
  type Word = bv32

  /** The memory-mapped words the driver writes. */
  datatype Loc =
    | Imem(offset: int)   // MSM_IMEM_BASE + offset
    | Tmr0(offset: int)   // msm_tmr0_base + offset
    | PsHoldSu            // PSHOLD_CTL_SU, the legacy PS_HOLD register
    | Mpm2PsHold          // MSM_MPM2_PSHOLD_BASE, the v2 PS_HOLD register

  // IMEM layout
  const RESTART_REASON_ADDR: int := 0x65C
  const DLOAD_MODE_ADDR: int := 0x0
  const EMERGENCY_DLOAD_MODE_ADDR: int := 0xFE0

  // Download-mode magic pair (armed) and the emergency-download triple
  const DLOAD_MAGIC1: Word := 0xE47B_337D
  const DLOAD_MAGIC2: Word := 0xCE14_091A
  const EMERGENCY_DLOAD_MAGIC1: Word := 0x322A_4F99
  const EMERGENCY_DLOAD_MAGIC2: Word := 0xC67E_4350
  const EMERGENCY_DLOAD_MAGIC3: Word := 0x7777_7777

  // Timer-0 watchdog register offsets
  const WDT0_RST: int := 0x38
  const WDT0_EN: int := 0x40
  const WDT0_BARK_TIME: int := 0x4C
  const WDT0_BITE_TIME: int := 0x5C

  /** The watchdog bite interval the fallback programs; the bark interval is five times it. */
  const WDT0_BITE_TICKS: Word := 0x31F3

  /** Sub-command of the secure monitor's power service that disables the SPMI PMIC arbiter. */
  const SCM_IO_DISABLE_PMIC_ARBITER: int := 1

  /** The argument of qpnp_pon_system_pwr_off. */
  datatype PonPowerOff = Shutdown | WarmReset | HardReset

  /** Secure-monitor services called by this file. */
  datatype ScmService = SvcPwr

  /** Calls into the LGE crash handler, recorded without their arguments. */
  datatype LgeCall = SetRestartReason | SetPanicReason | SetFb1Addr

  /** Which operation fell through its final delay. */
  datatype Phase = Restarting | PoweringOff

  datatype Event =
    | Write(loc: Loc, value: Word)                   // __raw_writel(value, loc)
    | Barrier                                        // mb()
    | PmicResetPwrOff(reset: int)                    // pm8xxx_reset_pwr_off(reset)
    | PonSystemPwrOff(kind: PonPowerOff)             // qpnp_pon_system_pwr_off(kind)
    | PonWdConfig(enable: int)                       // qpnp_pon_wd_config(enable)
    | ScmCall(svc: ScmService, cmd: int, arg: int)   // scm_call_atomic1(svc, cmd, arg)
    | DisableWdogDebug                               // msm_disable_wdog_debug()
    | FlushCacheAll                                  // flush_cache_all()
    | OuterFlushAll                                  // outer_flush_all()
    | LgeCrashHandler(call: LgeCall)                 // lge_set_* of the crash handler, taken to write no word here
    | Delay(ms: nat)                                 // mdelay(ms)
    | Failed(phase: Phase)                           // the "... has failed" fall-through

  /**
   * What is fixed before any operation of the driver runs: the build options,
   * the board, and what msm_restart_init found.
   */
  datatype Platform = Platform(
    lgeHandlePanic: bool,        // CONFIG_LGE_HANDLE_PANIC
    lafGDriver: bool,            // CONFIG_LAF_G_DRIVER
    restartV2: bool,             // use_restart_v2(), i.e. CONFIG_MSM_RESTART_V2
    fusionBoard: bool,           // machine_is_msm8x60_fusion() || machine_is_msm8x60_fusn_ffa()
    dloadMapped: bool,           // dload_mode_addr != NULL
    emergencyMapped: bool,       // emergency_dload_mode_addr != NULL
    arbiterHaltSupported: bool)  // scm_pmic_arbiter_disable_supported

  /** The memory-mapped words after the writes of trace t, starting from m. */
  function Apply(m: map<Loc, Word>, t: seq<Event>): map<Loc, Word>
    decreases |t|
  {
    if t == [] then m
    else Apply(if t[0].Write? then m[t[0].loc := t[0].value] else m, t[1..])
  }

  /** A trace that does not write location l. */
  predicate Untouched(t: seq<Event>, l: Loc)
  {
    forall i | 0 <= i < |t| :: !(t[i].Write? && t[i].loc == l)
  }

  lemma {:induction false} ApplyAppend(m: map<Loc, Word>, a: seq<Event>, b: seq<Event>)
    ensures Apply(m, a + b) == Apply(Apply(m, a), b)
    decreases |a|
  {
    if a == [] {
      assert a + b == b;
    } else {
      assert (a + b)[0] == a[0];
      assert (a + b)[1..] == a[1..] + b;
      ApplyAppend(if a[0].Write? then m[a[0].loc := a[0].value] else m, a[1..], b);
    }
  }

  lemma AppendAssoc(a: seq<Event>, b: seq<Event>, c: seq<Event>)
    ensures (a + b) + c == a + (b + c)
  {
  }

  lemma ApplySingle(m: map<Loc, Word>, e: Event)
    ensures Apply(m, [e]) == if e.Write? then m[e.loc := e.value] else m
  {
    assert [e][1..] == [];
  }

  /** A location no event of t writes keeps its value (or its absence). */
  lemma {:induction false} ApplyUntouched(m: map<Loc, Word>, t: seq<Event>, l: Loc)
    requires Untouched(t, l)
    ensures (l in Apply(m, t)) == (l in m)
    ensures l in m ==> Apply(m, t)[l] == m[l]
    decreases |t|
  {
    if t != [] {
      assert !(t[0].Write? && t[0].loc == l);
      ApplyUntouched(if t[0].Write? then m[t[0].loc := t[0].value] else m, t[1..], l);
    }
  }

  /** A concatenation leaves l alone exactly when both parts do. */
  lemma UntouchedConcat(a: seq<Event>, b: seq<Event>, l: Loc)
    ensures Untouched(a + b, l) <==> Untouched(a, l) && Untouched(b, l)
  {
    if Untouched(a, l) && Untouched(b, l) {
      forall i | 0 <= i < |a + b| ensures !((a + b)[i].Write? && (a + b)[i].loc == l) {
        if i >= |a| {
          assert (a + b)[i] == b[i - |a|];
        }
      }
    }
    if Untouched(a + b, l) {
      forall i | 0 <= i < |b| ensures !(b[i].Write? && b[i].loc == l) {
        assert (a + b)[|a| + i] == b[i];
      }
      forall i | 0 <= i < |a| ensures !(a[i].Write? && a[i].loc == l) {
        assert (a + b)[i] == a[i];
      }
    }
  }

  /** A write to the IMEM diagnostic region. */
  predicate IsImemWrite(e: Event)
  {
    e.Write? && e.loc.Imem?
  }

  /** A write to a timer or PS_HOLD register, i.e. one that acts on the reset hardware. */
  predicate IsHwWrite(e: Event)
  {
    e.Write? && !e.loc.Imem?
  }

  /** The register writes of a trace, in order. */
  function HwWrites(t: seq<Event>): (r: seq<Event>)
    decreases |t|
  {
    if t == [] then []
    else (if IsHwWrite(t[0]) then [t[0]] else []) + HwWrites(t[1..])
  }

  lemma {:induction false} HwWritesAppend(a: seq<Event>, b: seq<Event>)
    ensures HwWrites(a + b) == HwWrites(a) + HwWrites(b)
    decreases |a|
  {
    if a != [] {
      assert (a + b)[0] == a[0];
      assert (a + b)[1..] == a[1..] + b;
      HwWritesAppend(a[1..], b);
    } else {
      assert a + b == b;
    }
  }

  lemma HwWritesOne(e: Event)
    ensures HwWrites([e]) == if IsHwWrite(e) then [e] else []
  {
    assert [e][1..] == [];
  }

  /** A trace without register writes filters to nothing. */
  lemma {:induction false} HwWritesNone(t: seq<Event>)
    requires forall i | 0 <= i < |t| :: !IsHwWrite(t[i])
    ensures HwWrites(t) == []
    decreases |t|
  {
    if t != [] {
      HwWritesNone(t[1..]);
    }
  }

  /**
   * The actions that prepare a restart or power-off for the next boot stage:
   * IMEM writes, PMIC configuration, crash-handler calls and cache flushes.
   */
  predicate IsPreparation(e: Event)
  {
    IsImemWrite(e) || e.PmicResetPwrOff? || e.PonSystemPwrOff? || e.PonWdConfig?
    || e.LgeCrashHandler? || e.FlushCacheAll? || e.OuterFlushAll?
  }

  /** No preparation happens after a register write. */
  predicate PreparedBeforeRegisters(t: seq<Event>)
  {
    forall j | 0 <= j < |t| && IsHwWrite(t[j]) ::
      forall i | j < i < |t| :: !IsPreparation(t[i])
  }

  /** Every register write comes after both cache flushes and after all preparation. */
  predicate FlushedBeforeRegisters(t: seq<Event>)
  {
    && PreparedBeforeRegisters(t)
    && forall j | 0 <= j < |t| && IsHwWrite(t[j]) :: FlushCacheAll in t[..j] && OuterFlushAll in t[..j]
  }

  /**
   * A trace that first only prepares (and fences) and then only drives the
   * hardware has its preparation before every register write; if the first
   * part flushes the caches, every register write is flushed behind.
   */
  lemma PrepareThenDrive(a: seq<Event>, b: seq<Event>)
    requires forall i | 0 <= i < |a| :: IsPreparation(a[i]) || a[i].Barrier?
    requires forall i | 0 <= i < |b| :: !IsPreparation(b[i])
    ensures PreparedBeforeRegisters(a + b)
    ensures FlushCacheAll in a && OuterFlushAll in a ==> FlushedBeforeRegisters(a + b)
  {
    var t := a + b;
    assert forall k | 0 <= k < |a| :: t[k] == a[k];
    forall j | 0 <= j < |t| && IsHwWrite(t[j])
      ensures |a| <= j
      ensures forall i | j < i < |t| :: !IsPreparation(t[i])
      ensures FlushCacheAll in a ==> FlushCacheAll in t[..j]
      ensures OuterFlushAll in a ==> OuterFlushAll in t[..j]
    {
      assert t[..j][..|a|] == a;
      forall i | j < i < |t| ensures !IsPreparation(t[i]) {
        assert t[i] == b[i - |a|];
      }
      if FlushCacheAll in a {
        var k :| 0 <= k < |a| && a[k] == FlushCacheAll;
        assert t[..j][k] == FlushCacheAll;
      }
      if OuterFlushAll in a {
        var k :| 0 <= k < |a| && a[k] == OuterFlushAll;
        assert t[..j][k] == OuterFlushAll;
      }
    }
  }
}
