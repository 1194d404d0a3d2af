# MSM restart and power-off driver, modelled in Dafny

This project models `arch/arm/mach-msm/restart.c` of an MSM8226 Android kernel. That file is the driver that prepares an MSM SoC for a restart or a power-off and then carries it out.

- **Restart reason.** Before a reboot the driver writes a 32-bit *restart reason* into the IMEM diagnostic region at offset 0x65C. The next boot stage reads it. The word is chosen from the reboot command by an ordered strncmp/strcmp chain. For `edl` the driver arms *emergency download* instead: a magic triple at 0xFE0..0xFE8, plus the PMIC watchdog disabled.
- **Download mode.** The driver keeps a two-word *download-mode* magic pair at IMEM offset 0, which asks the boot loader for a crash dump. It caches that pair in `dload_mode_enabled` and guards it with a master kill switch, `download_mode`. A panic latch, `in_panic`, records that a panic was seen.
- **Reset.** After the preparation the driver lowers PS_HOLD (except on msm8x60 fusion boards). On a legacy platform it also leaves the timer-0 watchdog armed as a fallback. On a v2 platform it first halts the SPMI PMIC arbiter through the secure monitor (only when init found that call available), then writes the v2 PS_HOLD register.

The model is split into modules that follow the file's structure:

- `hardware.dfy` (module `Hardware`). Words are `bv32`. Every memory-mapped word the driver writes lives in one map `Loc -> Word`. It covers the IMEM offsets, the timer-0 watchdog registers and both PS_HOLD registers.
  - Every action of the driver is an `Event` in a trace. Register writes and barriers are events. So are the calls into code this model does not see: PMIC, secure monitor, cache maintenance, the LGE crash handler and `mdelay`. The "... has failed" fall-through is a terminal `Failed` event.
  - `Apply` gives the words a trace leaves behind.
  - Build options, the board, and what init found are one `Platform` value of constant booleans.
- `cstrings.dfy` (module `CStrings`). NUL-terminated strings, `strncmp`, `strcmp`, and `simple_strtoul(s, NULL, 16)` as the digit loop of the kernel's integer parser. The parser accumulates in 64 bits and truncates to the 32-bit `unsigned long` of ARM.
- `reason.dfy` (module `RestartReason`). The pure decision from the command to the restart-reason action, and the facts about it.
- `dload.dfy` (module `DownloadMode`). The traces of `set_dload_mode` and `enable_emergency_dload_mode`, what they store, the `dload_set` validation, and the precedence of the `set_dload_mode` calls at the head of `msm_restart_prepare`.
- `sequencer.dfy` (module `PowerSequencer`). The complete trace that `msm_restart_prepare`, `msm_restart` and `__msm_power_off` produce, as functions of the platform and the globals. It also holds the properties of those traces: the reason word reaches IMEM, the stored pair matches the cache, the reset style rule, the ordering of preparation and cache flushes before every register write, and the register writes in order.
- `restart.dfy` (module `Restart`). Class `RestartController` holds the driver's globals, the word map and the trace, with one method per function of the driver. Each method is proved to append exactly the trace the sequencer gives for the state it started in. It is also proved to keep the class invariant `Valid()`: the words equal what the trace wrote, the cached flag equals the stored pair, and the master switch is 0 or 1.

Configuration assumed:
- `CONFIG_MSM_DLOAD_MODE` is on. The default board branch reads `in_panic`, which exists only under that option.
- `CONFIG_LGE_HANDLE_PANIC`, `CONFIG_LAF_G_DRIVER`, `CONFIG_MSM_RESTART_V2` and the fusion-board test are platform parameters.
- The addresses mapped at init and the arbiter-halt capability are platform parameters too.
- Header constants that the file does not define are taken as values: `RESTART_DLOAD` = 1, `EINVAL` = 22, `NOTIFY_DONE` = 0.

Three points of the code that are easy to misread:
- **A non-NULL empty command** writes 0x77665501, because the reason chain is guarded by `cmd != NULL` only (restart.c:328) and "" matches none of the prefixes.
- **A NULL command** writes 0x77665503 exactly when `CONFIG_LGE_HANDLE_PANIC` is set, whatever the panic latch says (restart.c:360-363).
- **`oem-<hex>`** hands the whole rest of the string to `simple_strtoul` (restart.c:352). That reads the longest run of hex digits after an optional `0x`, and only the low byte of the result is kept.

## Model

| member | source | states |
|---|---|---|
| CStrings.StrNCmpIsPrefix | Dokumenty/ROM/kernel_git/arch/arm/mach-msm/restart.c:329-354 | `strncmp(s, lit, strlen(lit)) == 0` holds exactly when `lit` is a prefix of `s` |
| CStrings.StrCmpIsEquality | Dokumenty/ROM/kernel_git/arch/arm/mach-msm/restart.c:348 | `strcmp(s, t) == 0` holds exactly when the strings are equal |
| CStrings.HexRunIsLongest | Dokumenty/ROM/kernel_git/arch/arm/mach-msm/restart.c:352 | the digits `simple_strtoul` reads are a prefix made of hex digits that no further digit extends |
| CStrings.LowByteOfHexAccum | Dokumenty/ROM/kernel_git/arch/arm/mach-msm/restart.c:352 | the low byte of the accumulated value is decided by the last two digits alone, whatever the wrap-around above it |
| CStrings.SimpleStrtoulHex | Dokumenty/ROM/kernel_git/arch/arm/mach-msm/restart.c:352 | the digit loop returns the base-16 value of the longest digit run, truncated to 32 bits, and 0 with no digits |
| RestartReason.OemCode | Dokumenty/ROM/kernel_git/arch/arm/mach-msm/restart.c:350-353 | the oem code has the vendor tag 0x6f656d in its top three bytes and the value's low byte below, so it lies in 0x6f656d00..0x6f656dff |
| RestartReason.ReasonForIsTable | Dokumenty/ROM/kernel_git/arch/arm/mach-msm/restart.c:328-363 | the strncmp/strcmp chain equals the table stated with prefixes and equality, tested in order, first match wins |
| RestartReason.ReasonCodesAreClosed | Dokumenty/ROM/kernel_git/arch/arm/mach-msm/restart.c:328-363 | every code written is one of the five fixed reasons or lies in the oem range |
| RestartReason.NullCommand | Dokumenty/ROM/kernel_git/arch/arm/mach-msm/restart.c:360-363 | a NULL command writes nothing exactly when CONFIG_LGE_HANDLE_PANIC is off, and 0x77665503 when it is on |
| RestartReason.RtcIsExactAndEmptyIsUnknown | Dokumenty/ROM/kernel_git/arch/arm/mach-msm/restart.c:348-358 | "rtc" gives 0x77665503; "rtcx" and the empty string fall through to 0x77665501 |
| RestartReason.FirstMatchWins | Dokumenty/ROM/kernel_git/arch/arm/mach-msm/restart.c:329-330 | any command starting with "bootloader" gives 0x77665500, whatever follows |
| RestartReason.EdlIffPrefix | Dokumenty/ROM/kernel_git/arch/arm/mach-msm/restart.c:354-355 | emergency download is chosen if and only if the command starts with "edl" |
| RestartReason.OemCodeFromLastTwoDigits | Dokumenty/ROM/kernel_git/arch/arm/mach-msm/restart.c:350-353 | for "oem-..." the code is the vendor tag OR the value of the last two digits of the parsed run, i.e. it depends only on the value mod 256 |
| RestartReason.OemExample | Dokumenty/ROM/kernel_git/arch/arm/mach-msm/restart.c:350-353 | "oem-1ff" gives 0x6f656dff |
| DownloadMode.SetDloadStores | Dokumenty/ROM/kernel_git/arch/arm/mach-msm/restart.c:99-109 | with the region mapped, set_dload_mode(on) leaves (0xE47B337D, 0xCE14091A) when on and (0, 0) otherwise at offsets 0 and 4; it writes no other word and no register |
| DownloadMode.ArmThenDisarm | Dokumenty/ROM/kernel_git/arch/arm/mach-msm/restart.c:99-109 | arming and then disarming leaves the pair (0, 0), which does not read as armed |
| DownloadMode.EmergencyDloadStores | Dokumenty/ROM/kernel_git/arch/arm/mach-msm/restart.c:117-134 | when mapped, the three words at 0xFE0, 0xFE4 and 0xFE8 become 0x322A4F99, 0xC67E4350 and 0x77777777; when unmapped, no word changes |
| DownloadMode.EmergencyDloadCalls | Dokumenty/ROM/kernel_git/arch/arm/mach-msm/restart.c:117-134 | the PMIC watchdog is disabled exactly once when mapped and never otherwise; no word but the triple is written |
| DownloadMode.AcceptsDownloadMode | Dokumenty/ROM/kernel_git/arch/arm/mach-msm/restart.c:146-150 | `v >> 1 == 0` on a signed int holds exactly for 0 and 1, so negative values are rejected too |
| DownloadMode.PrecedenceOutcome | Dokumenty/ROM/kernel_git/arch/arm/mach-msm/restart.c:270-285 | after off, panic, request (only without CONFIG_LGE_HANDLE_PANIC) and kill switch, the cache is `download_mode != 0 && (in_panic \|\| restart_mode == RESTART_DLOAD)`, without the request clause under CONFIG_LGE_HANDLE_PANIC; it is unchanged when unmapped |
| DownloadMode.MasterSwitchOffDisarms | Dokumenty/ROM/kernel_git/arch/arm/mach-msm/restart.c:282-284 | with the master switch off, neither the cache nor the stored pair is armed after the precedence |
| DownloadMode.StepsStoreLast | Dokumenty/ROM/kernel_git/arch/arm/mach-msm/restart.c:270-285 | a sequence of set_dload_mode calls leaves the pair of the last call and writes no other word and no register |
| PowerSequencer.ResetStyleRule | Dokumenty/ROM/kernel_git/arch/arm/mach-msm/restart.c:318-326 | WARM reset if and only if download mode is armed after the precedence, or the panic latch is set, or the command is non-empty, or (under CONFIG_LAF_G_DRIVER) restart_mode is RESTART_DLOAD; HARD otherwise |
| PowerSequencer.PrepareOnlyPrepares | Dokumenty/ROM/kernel_git/arch/arm/mach-msm/restart.c:263-387 | msm_restart_prepare only writes IMEM, calls the PMIC and the crash handler, flushes and fences; it writes no register |
| PowerSequencer.ReasonWordWritten | Dokumenty/ROM/kernel_git/arch/arm/mach-msm/restart.c:328-363 | the code the table chooses is the word the driver leaves at 0x65C after the preparation (the crash-handler calls are taken to write no IMEM word, see "Left out"); with no code, the driver does not write 0x65C |
| PowerSequencer.EdlPrepare | Dokumenty/ROM/kernel_git/arch/arm/mach-msm/restart.c:354-355 | for "edl..." no reason word is written; mapped, the triple is in place and the PMIC watchdog is disabled exactly once; unmapped, the triple is untouched and the watchdog is left alone |
| PowerSequencer.PreparePairMatchesCache | Dokumenty/ROM/kernel_git/arch/arm/mach-msm/restart.c:268-285 | after the preparation, the stored pair is the one for the armed state get_dload_mode reports |
| PowerSequencer.ResetDoesNotPrepare | Dokumenty/ROM/kernel_git/arch/arm/mach-msm/restart.c:395-438 | nothing after msm_restart_prepare writes IMEM, calls the PMIC or flushes |
| PowerSequencer.ResetRegisterWrites | Dokumenty/ROM/kernel_git/arch/arm/mach-msm/restart.c:395-435 | the register writes of the reset: legacy WDT0_EN=0, PS_HOLD=0 (not on fusion boards), WDT0_RST=1, BARK=5*0x31F3, BITE=0x31F3, WDT0_EN=1; v2 only the v2 PS_HOLD write |
| PowerSequencer.RestartRegisterWrites | Dokumenty/ROM/kernel_git/arch/arm/mach-msm/restart.c:389-439 | the same register writes, in that order, are all the register writes of a whole msm_restart |
| PowerSequencer.RestartOrdered | Dokumenty/ROM/kernel_git/arch/arm/mach-msm/restart.c:385-435 | every register write of a restart comes after both cache flushes and after all preparation |
| PowerSequencer.V2ArbiterBeforePsHold | Dokumenty/ROM/kernel_git/arch/arm/mach-msm/restart.c:430-435 | on v2 the PS_HOLD write is preceded by the arbiter halt exactly when init found it available, and the halt happens nowhere else |
| PowerSequencer.PowerOffRegisterWrites | Dokumenty/ROM/kernel_git/arch/arm/mach-msm/restart.c:191-212 | __msm_power_off writes a register exactly when lower_pshold is non-zero, and then only the platform's PS_HOLD register |
| PowerSequencer.PowerOffDisarmsFirst | Dokumenty/ROM/kernel_git/arch/arm/mach-msm/restart.c:194-206 | power-off leaves the pair disarmed (0, 0) and makes every PMIC call before any PS_HOLD write |
| PowerSequencer.PowerOffArbiter | Dokumenty/ROM/kernel_git/arch/arm/mach-msm/restart.c:200-206 | on v2 a power-off halts the arbiter exactly when it lowers PS_HOLD and init found the call available |
| Restart.RestartController.constructor | Dokumenty/ROM/kernel_git/arch/arm/mach-msm/restart.c:467-490 | init sets download mode from download_mode (0, or the 0 or 1 a boot argument stored through dload_set), so it starts armed exactly when that value is 1 and the region is mapped; it writes the default TZ reason under CONFIG_LGE_HANDLE_PANIC, and establishes the invariant |
| Restart.RestartController.PanicPrepRestart | Dokumenty/ROM/kernel_git/arch/arm/mach-msm/restart.c:88-93 | sets the panic latch and returns NOTIFY_DONE; nothing else changes; every other method keeps the latch as it was |
| Restart.RestartController.SetDloadMode | Dokumenty/ROM/kernel_git/arch/arm/mach-msm/restart.c:99-109 | mapped: the pair for on is stored, fenced and cached; unmapped: words and cache are unchanged; the invariant holds after |
| Restart.RestartController.GetDloadMode | Dokumenty/ROM/kernel_git/arch/arm/mach-msm/restart.c:111-115 | returns the cache, which under the invariant is true exactly when both magic words are stored |
| Restart.RestartController.EnableEmergencyDloadMode | Dokumenty/ROM/kernel_git/arch/arm/mach-msm/restart.c:117-134 | appends the triple, the watchdog call and the fence when mapped, nothing otherwise |
| Restart.RestartController.DloadSet | Dokumenty/ROM/kernel_git/arch/arm/mach-msm/restart.c:136-155 | a parse failure is passed on; a value other than 0 or 1 restores the old value, returns -EINVAL and changes no word, cache or global; 0 or 1 is stored and download mode set from it |
| Restart.RestartController.SetRestartMode | Dokumenty/ROM/kernel_git/arch/arm/mach-msm/restart.c:170-173 | stores restart_mode and changes nothing else |
| Restart.RestartController.HaltSpmiPmicArbiter | Dokumenty/ROM/kernel_git/arch/arm/mach-msm/restart.c:183-189 | the secure-monitor call happens exactly when init found it available |
| Restart.RestartController.PowerOff | Dokumenty/ROM/kernel_git/arch/arm/mach-msm/restart.c:191-212 | appends exactly the power-off trace and leaves download mode disarmed |
| Restart.RestartController.LowerPsHold | Dokumenty/ROM/kernel_git/arch/arm/mach-msm/restart.c:200-210 | lowers the platform's PS_HOLD and notes the failure only when lower_pshold is non-zero |
| Restart.RestartController.MsmPowerOff | Dokumenty/ROM/kernel_git/arch/arm/mach-msm/restart.c:214-218 | a power-off that lowers PS_HOLD and leaves download mode disarmed |
| Restart.RestartController.PrepareDownloadMode | Dokumenty/ROM/kernel_git/arch/arm/mach-msm/restart.c:268-285 | appends the set_dload_mode calls of the precedence and leaves the cache at the precedence's outcome |
| Restart.RestartController.SetDloadStep | Dokumenty/ROM/kernel_git/arch/arm/mach-msm/restart.c:271-284 | one call of the precedence, made only when its condition holds, extends the call list and its trace by one |
| Restart.RestartController.ChooseResetStyle | Dokumenty/ROM/kernel_git/arch/arm/mach-msm/restart.c:287-326 | tells the PMIC to reset on power-off, then hands it the style of the reset-style rule for the current state |
| Restart.RestartController.WriteRestartReason | Dokumenty/ROM/kernel_git/arch/arm/mach-msm/restart.c:328-363 | writes the chosen code at 0x65C, arms emergency download, or does nothing, as the table decided |
| Restart.RestartController.NotifyCrashHandler | Dokumenty/ROM/kernel_git/arch/arm/mach-msm/restart.c:365-383 | under CONFIG_LGE_HANDLE_PANIC: the restart reason call for RESTART_DLOAD, the panic reason call when the latch is set, and always the frame-buffer call |
| Restart.RestartController.FinishPrepare | Dokumenty/ROM/kernel_git/arch/arm/mach-msm/restart.c:365-386 | the crash-handler calls, then both cache flushes |
| Restart.RestartController.RestartPrepare | Dokumenty/ROM/kernel_git/arch/arm/mach-msm/restart.c:263-387 | appends exactly the preparation trace for the starting state and leaves the cache at the precedence's outcome |
| Restart.RestartController.Restart | Dokumenty/ROM/kernel_git/arch/arm/mach-msm/restart.c:389-439 | appends exactly the restart trace: preparation, then the reset of the platform; the cache is left at the precedence's outcome |
| Restart.RestartController.ResetChip | Dokumenty/ROM/kernel_git/arch/arm/mach-msm/restart.c:395-438 | the legacy or v2 reset, then the wait and the failure note |
| Restart.RestartController.Fail | Dokumenty/ROM/kernel_git/arch/arm/mach-msm/restart.c:437-438 | the ten-second wait and the terminal failure event |
| Restart.RestartController.V2Reset | Dokumenty/ROM/kernel_git/arch/arm/mach-msm/restart.c:430-435 | the debug image bypassed, then PS_HOLD lowered after the arbiter halt |
| Restart.RestartController.V2PsHold | Dokumenty/ROM/kernel_git/arch/arm/mach-msm/restart.c:433-434 | the arbiter halt when available, then the v2 PS_HOLD write |
| Restart.RestartController.LegacyReset | Dokumenty/ROM/kernel_git/arch/arm/mach-msm/restart.c:395-429 | watchdog off, PS_HOLD low unless on a fusion board, then the watchdog fallback |
| Restart.RestartController.DropPsHold | Dokumenty/ROM/kernel_git/arch/arm/mach-msm/restart.c:397-404 | a fence, PS_HOLD low, five seconds for it to act |
| Restart.RestartController.WatchdogFallback | Dokumenty/ROM/kernel_git/arch/arm/mach-msm/restart.c:426-429 | WDT0_RST=1, bark five times the bite interval, bite 0x31F3, WDT0_EN=1, in that order |

## Left out

- `cpu_power_off` and `resout_irq_handler` (restart.c:220-259): cross-CPU broadcast, preemption control and endless busy loops, which are concurrency. They call `__msm_power_off(0)`, which by `PowerSequencer.PowerOffRegisterWrites` writes no PS_HOLD register.
- `msm_pmic_restart_init`, the panic-notifier registration and the module parameter registration: kernel plumbing. The mapped addresses and the arbiter capability found at init are platform parameters.
- The `CONFIG_KEXEC_HARDBOOT` block inside `msm_restart`: as written it nests a function definition inside another, which is not valid C, so it has no behaviour to model.
- The AKA/B2LN/JAGN board branch, and the extra codes of `CONFIG_LGE_BNR_RECOVERY_REBOOT` and `CONFIG_LGE_LCD_OFF_DIMMING`: build variants outside the default board branch.
- PowerSequencer.ReasonWordWritten: the LGE crash-handler calls that follow the reason write under `CONFIG_LGE_HANDLE_PANIC` (`lge_set_restart_reason`, `lge_set_panic_reason`, restart.c:365-379) are taken to write no IMEM word. The crash handler is not part of this model, so the claim about the word at 0x65C is about the driver's own writes; it may itself store a reason through the exported `restart_reason` (restart.c:72).
- Restart.RestartController.NotifyCrashHandler: the crash-handler calls are recorded without their arguments (the ram-test flag and its reset, `LAF_DLOAD_MODE`, the frame-buffer address), because the crash handler is not part of this model.
- Restart.RestartController.constructor: the default TZ reason value (`LGE_RB_MAGIC | LGE_ERR_TZ`) is a parameter, because the header defining it is not part of this model.
- Restart.RestartController.DloadSet: `param_set_int` is not part of this model, so its return code and the value it stored are parameters.
- All `printk`/`pr_*` logging, and the timing of `mdelay`. A delay is an event carrying its length in milliseconds.
- The effects of the foreign calls (`mb`, the cache flushes, the secure-monitor call, the PMIC calls, `msm_disable_wdog_debug`): each is an event with no hardware semantics.
- `msm_restart` ignores its `mode` argument, and so does the model.
- A C command is modelled as a string of Unicode characters rather than bytes. Every comparison is against an ASCII literal and the hex digits are ASCII, so no outcome changes.
