/**
 * The download-mode state machine: the magic pair at IMEM offset 0 that
 * tells the boot loader to capture a crash dump, the emergency-download
 * triple at offset 0xFE0, the master kill switch download_mode, and the
 * order in which msm_restart_prepare arms and disarms the pair.
 */
module DownloadMode {
  import opened Hardware

  /** RESTART_DLOAD of mach/restart.h, the restart_mode that asks for download mode. */
  const RESTART_DLOAD: int := 1

  /** EINVAL of the kernel's errno numbers; dload_set returns its negation. */
  const EINVAL: int := 22

  // ----- set_dload_mode -----

  /** The actions of set_dload_mode(on): the pair, then a barrier; nothing when the region is unmapped. */
  function SetDloadEvents(p: Platform, on: bool): seq<Event>
  {
    if p.dloadMapped then
      [Write(Imem(DLOAD_MODE_ADDR), if on then DLOAD_MAGIC1 else 0),
       Write(Imem(DLOAD_MODE_ADDR + 4), if on then DLOAD_MAGIC2 else 0),
       Barrier]
    else []
  }

  /** The stored pair is the one set_dload_mode(on) writes. */
  predicate DloadPairIs(io: map<Loc, Word>, on: bool)
  {
    && Imem(DLOAD_MODE_ADDR) in io && Imem(DLOAD_MODE_ADDR + 4) in io
    && io[Imem(DLOAD_MODE_ADDR)] == (if on then DLOAD_MAGIC1 else 0)
    && io[Imem(DLOAD_MODE_ADDR + 4)] == (if on then DLOAD_MAGIC2 else 0)
  }

  /** Download mode as the next boot stage sees it: both magic words in place. */
  predicate DloadArmedIn(p: Platform, io: map<Loc, Word>)
  {
    && p.dloadMapped
    && Imem(DLOAD_MODE_ADDR) in io && Imem(DLOAD_MODE_ADDR + 4) in io
    && io[Imem(DLOAD_MODE_ADDR)] == DLOAD_MAGIC1
    && io[Imem(DLOAD_MODE_ADDR + 4)] == DLOAD_MAGIC2
  }

  /** set_dload_mode(on) leaves the pair for on and touches no other word. */
  lemma SetDloadStores(p: Platform, io: map<Loc, Word>, on: bool)
    ensures p.dloadMapped ==> DloadPairIs(Apply(io, SetDloadEvents(p, on)), on)
    ensures forall l | l != Imem(DLOAD_MODE_ADDR) && l != Imem(DLOAD_MODE_ADDR + 4) ::
      Untouched(SetDloadEvents(p, on), l)
    ensures HwWrites(SetDloadEvents(p, on)) == []
  {
    var t := SetDloadEvents(p, on);
    if p.dloadMapped {
      ApplyAppend(io, t[..1], t[1..]);
      ApplyAppend(Apply(io, t[..1]), t[1..2], t[2..]);
      ApplySingle(io, t[0]);
      ApplySingle(Apply(io, t[..1]), t[1]);
      ApplySingle(Apply(Apply(io, t[..1]), t[1..2]), t[2]);
      assert t == t[..1] + t[1..] && t[1..] == t[1..2] + t[2..];
      assert t[..1] == [t[0]] && t[1..2] == [t[1]] && t[2..] == [t[2]];
    }
    HwWritesNone(t);
  }

  /** Arming and then disarming leaves the pair (0, 0), which reads as disarmed. */
  lemma ArmThenDisarm(p: Platform, io: map<Loc, Word>)
    requires p.dloadMapped
    ensures DloadPairIs(Apply(io, SetDloadEvents(p, true) + SetDloadEvents(p, false)), false)
    ensures !DloadArmedIn(p, Apply(io, SetDloadEvents(p, true) + SetDloadEvents(p, false)))
  {
    ApplyAppend(io, SetDloadEvents(p, true), SetDloadEvents(p, false));
    SetDloadStores(p, Apply(io, SetDloadEvents(p, true)), false);
  }

  // ----- enable_emergency_dload_mode -----

  /** The three magic words, the PMIC watchdog disabled, a barrier; nothing when unmapped. */
  function EmergencyDloadEvents(p: Platform): seq<Event>
  {
    if p.emergencyMapped then
      [Write(Imem(EMERGENCY_DLOAD_MODE_ADDR), EMERGENCY_DLOAD_MAGIC1),
       Write(Imem(EMERGENCY_DLOAD_MODE_ADDR + 4), EMERGENCY_DLOAD_MAGIC2),
       Write(Imem(EMERGENCY_DLOAD_MODE_ADDR + 8), EMERGENCY_DLOAD_MAGIC3),
       PonWdConfig(0),
       Barrier]
    else []
  }

  /** Emergency download writes the triple; unmapped, it changes no word. */
  lemma EmergencyDloadStores(p: Platform, io: map<Loc, Word>)
    ensures var io' := Apply(io, EmergencyDloadEvents(p));
      p.emergencyMapped ==>
        && Imem(EMERGENCY_DLOAD_MODE_ADDR) in io' && io'[Imem(EMERGENCY_DLOAD_MODE_ADDR)] == EMERGENCY_DLOAD_MAGIC1
        && Imem(EMERGENCY_DLOAD_MODE_ADDR + 4) in io' && io'[Imem(EMERGENCY_DLOAD_MODE_ADDR + 4)] == EMERGENCY_DLOAD_MAGIC2
        && Imem(EMERGENCY_DLOAD_MODE_ADDR + 8) in io' && io'[Imem(EMERGENCY_DLOAD_MODE_ADDR + 8)] == EMERGENCY_DLOAD_MAGIC3
    ensures !p.emergencyMapped ==> Apply(io, EmergencyDloadEvents(p)) == io
  {
    var t := EmergencyDloadEvents(p);
    if p.emergencyMapped {
      var m1 := io[Imem(EMERGENCY_DLOAD_MODE_ADDR) := EMERGENCY_DLOAD_MAGIC1];
      var m2 := m1[Imem(EMERGENCY_DLOAD_MODE_ADDR + 4) := EMERGENCY_DLOAD_MAGIC2];
      var m3 := m2[Imem(EMERGENCY_DLOAD_MODE_ADDR + 8) := EMERGENCY_DLOAD_MAGIC3];
      calc {
        Apply(io, t);
        Apply(m1, t[1..]);
        { assert t[1..][1..] == t[2..]; }
        Apply(m2, t[2..]);
        { assert t[2..][1..] == t[3..]; }
        Apply(m3, t[3..]);
        { assert t[3..][1..] == t[4..]; }
        Apply(m3, t[4..]);
        { assert t[4..][1..] == []; }
        Apply(m3, []);
      }
    }
  }

  /**
   * Emergency download disables the PMIC watchdog exactly once when mapped,
   * and writes no word but the triple.
   */
  lemma EmergencyDloadCalls(p: Platform)
    ensures multiset(EmergencyDloadEvents(p))[PonWdConfig(0)] == if p.emergencyMapped then 1 else 0
    ensures forall l | l != Imem(EMERGENCY_DLOAD_MODE_ADDR) && l != Imem(EMERGENCY_DLOAD_MODE_ADDR + 4)
                         && l != Imem(EMERGENCY_DLOAD_MODE_ADDR + 8) ::
      Untouched(EmergencyDloadEvents(p), l)
    ensures HwWrites(EmergencyDloadEvents(p)) == []
  {
    HwWritesNone(EmergencyDloadEvents(p));
  }

  // ----- dload_set -----

  /**
   * The validation of dload_set: download_mode >> 1 must be 0. On a signed
   * int the shift is arithmetic, i.e. floor division by 2, which is Dafny's
   * division by a positive divisor.
   */
  function AcceptsDownloadMode(v: int): (ok: bool)
    ensures ok <==> v == 0 || v == 1
  {
    v / 2 == 0
  }

  // ----- the precedence at the start of msm_restart_prepare -----

  /**
   * The arguments of the successive set_dload_mode calls: normal reboot off,
   * then the panic latch, then an explicit download request (only without
   * CONFIG_LGE_HANDLE_PANIC), then off again when the master switch is off.
   */
  function PrepareSteps(lgeHandlePanic: bool, downloadMode: int, inPanic: bool, restartMode: int): seq<bool>
  {
    [false, inPanic]
    + (if !lgeHandlePanic && restartMode == RESTART_DLOAD then [true] else [])
    + (if downloadMode == 0 then [false] else [])
  }

  /** The actions of a sequence of set_dload_mode calls. */
  function StepsEvents(p: Platform, steps: seq<bool>): seq<Event>
    decreases |steps|
  {
    if steps == [] then []
    else StepsEvents(p, steps[..|steps| - 1]) + SetDloadEvents(p, steps[|steps| - 1])
  }

  /** dload_mode_enabled after a sequence of set_dload_mode calls: the last one wins, if the region is mapped. */
  function CacheAfter(p: Platform, cache: bool, steps: seq<bool>): bool
  {
    if !p.dloadMapped || steps == [] then cache else steps[|steps| - 1]
  }

  /**
   * The precedence: armed after preparation exactly when the master switch is
   * on and either a panic was seen or (without CONFIG_LGE_HANDLE_PANIC)
   * download mode was requested.
   */
  lemma PrecedenceOutcome(p: Platform, downloadMode: int, inPanic: bool, restartMode: int, cache: bool)
    ensures CacheAfter(p, cache, PrepareSteps(p.lgeHandlePanic, downloadMode, inPanic, restartMode))
      == if p.dloadMapped
         then downloadMode != 0 && (inPanic || (!p.lgeHandlePanic && restartMode == RESTART_DLOAD))
         else cache
  {
  }

  /** The kill switch wins: with download_mode == 0 the pair is always disarmed. */
  lemma MasterSwitchOffDisarms(p: Platform, io: map<Loc, Word>, inPanic: bool, restartMode: int)
    requires p.dloadMapped
    ensures var steps := PrepareSteps(p.lgeHandlePanic, 0, inPanic, restartMode);
      !CacheAfter(p, true, steps) && !DloadArmedIn(p, Apply(io, StepsEvents(p, steps)))
  {
    var steps := PrepareSteps(p.lgeHandlePanic, 0, inPanic, restartMode);
    StepsStoreLast(p, io, steps);
  }

  /** The calls in the order the source makes them, the conditional ones only when taken, give PrepareSteps. */
  lemma PrepareStepsInOrder(lgeHandlePanic: bool, downloadMode: int, inPanic: bool, restartMode: int,
                            s1: seq<bool>, s2: seq<bool>, s3: seq<bool>, s4: seq<bool>)
    requires s1 == [] + (if true then [false] else [])
    requires s2 == s1 + (if true then [inPanic] else [])
    requires s3 == s2 + (if !lgeHandlePanic && restartMode == RESTART_DLOAD then [true] else [])
    requires s4 == s3 + (if downloadMode == 0 then [false] else [])
    ensures s4 == PrepareSteps(lgeHandlePanic, downloadMode, inPanic, restartMode)
  {
    assert s2 == [false, inPanic];
  }

  lemma StepsEventsSnoc(p: Platform, steps: seq<bool>, on: bool)
    ensures StepsEvents(p, steps + [on]) == StepsEvents(p, steps) + SetDloadEvents(p, on)
  {
    assert (steps + [on])[..|steps|] == steps;
  }

  /** A sequence of set_dload_mode calls leaves the pair of the last one and writes nothing else. */
  lemma {:induction false} StepsStoreLast(p: Platform, io: map<Loc, Word>, steps: seq<bool>)
    requires steps != []
    ensures p.dloadMapped ==> DloadPairIs(Apply(io, StepsEvents(p, steps)), steps[|steps| - 1])
    ensures forall l | l != Imem(DLOAD_MODE_ADDR) && l != Imem(DLOAD_MODE_ADDR + 4) ::
      Untouched(StepsEvents(p, steps), l)
    ensures HwWrites(StepsEvents(p, steps)) == []
    decreases |steps|
  {
    var init, last := steps[..|steps| - 1], steps[|steps| - 1];
    var a, b := StepsEvents(p, init), SetDloadEvents(p, last);
    assert StepsEvents(p, steps) == a + b;
    ApplyAppend(io, a, b);
    SetDloadStores(p, Apply(io, a), last);
    HwWritesAppend(a, b);
    if init != [] {
      StepsStoreLast(p, io, init);
    }
    forall l | l != Imem(DLOAD_MODE_ADDR) && l != Imem(DLOAD_MODE_ADDR + 4)
      ensures Untouched(a + b, l)
    {
      assert Untouched(a, l) && Untouched(b, l);
    }
  }
}
