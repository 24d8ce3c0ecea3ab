/** The tracer with its static variables and its window table, updated in place by each callback. */
module TracerMachine {
  import opened Counting
  import opened Wrappers
  import opened Geometries
  import opened Canonical
  import opened Tracer

  class Plugin {
    const config: Config
    const tallies: array<Tally>
    var ready: bool
    var tracing: bool
    var startSeen: bool
    var stopSeen: bool
    var invalid: bool
    var lockedSatp: Address
    var lockedPid: Address
    var lockedTid: Address
    var validSeen: nat
    var capturedRows: nat
    var filteredNonU: nat
    var filteredForeignSatp: nat
    var misalignedEvents: nat
    var crossLineEvents: nat
    var expandedReplayAccesses: nat
    var canonicalReplayAccesses: nat
    var capturedCanonicalReplayAccesses: nat
    var violations: nat
    var registerReadFailures: nat
    var firstViolation: Option<Code>
    var output: seq<Record>

    function View(): State
      reads this, tallies
    {
      State(ready, tracing, startSeen, stopSeen, invalid, lockedSatp, lockedPid, lockedTid,
            validSeen, capturedRows, filteredNonU, filteredForeignSatp,
            misalignedEvents, crossLineEvents, expandedReplayAccesses, canonicalReplayAccesses,
            capturedCanonicalReplayAccesses, violations, registerReadFailures, firstViolation, tallies[..], output)
    }

    predicate Valid() {
      tallies.Length == |config.windows|
    }

    constructor (c: Config)
      ensures Valid() && fresh(tallies) && config == c
      ensures View() == Installed(c)
    {
      config := c;
      tallies := new Tally[|c.windows|](_ => EMPTY_TALLY);
      ready, tracing, startSeen, stopSeen, invalid := false, false, false, false, false;
      lockedSatp, lockedPid, lockedTid := 0, 0, 0;
      validSeen, capturedRows, filteredNonU, filteredForeignSatp := 0, 0, 0, 0;
      misalignedEvents, crossLineEvents, expandedReplayAccesses, canonicalReplayAccesses := 0, 0, 0, 0;
      capturedCanonicalReplayAccesses, violations, registerReadFailures, firstViolation := 0, 0, 0, None;
      output := [Schema, Columns, DataPolicy,
                 Context(c.mode, c.nonce, c.command, if c.expectedTotal.Some? then c.expectedTotal.value else 0)]
                + Configs(c.windows);
      new;
      assert tallies[..] == seq(|c.windows|, _ => EMPTY_TALLY);
    }

    method RecordViolation(code: Code)
      modifies `invalid, `tracing, `violations, `firstViolation, `output
      ensures View() == Violate(old(View()), code)
    {
      if firstViolation.None? { firstViolation := Some(code); }
      invalid, tracing, violations, output := true, false, violations + 1, output + [Violation(code, validSeen)];
    }

    method RecordViolationIf(condition: bool, code: Code)
      modifies `invalid, `tracing, `violations, `firstViolation, `output
      ensures View() == ViolateIf(old(View()), condition, code)
    {
      if condition { RecordViolation(code); }
    }

    method VcpuInitCallback(vcpu: nat, found: Option<bool>)
      modifies this
      ensures View() == OnVcpuInit(old(View()), vcpu, found)
    {
      if vcpu != 0 {
        RecordViolation(UnexpectedVcpuInit);
      } else if found.None? {
        RecordViolation(RegisterListFailed);
      } else {
        ready := found.value;
        if !ready {
          RecordViolation(RequiredRegisterMissing);
        } else {
          output := output + [Registers];
        }
      }
    }

    /** The scan over the window table: stops at the first window that lies ahead or holds the event. */
    method FindWindow(n: nat) returns (found: Option<nat>)
      ensures found == WindowFrom(config.windows, 0, n)
    {
      for i := 0 to |config.windows|
        invariant WindowFrom(config.windows, i, n) == WindowFrom(config.windows, 0, n)
      {
        var w := config.windows[i];
        if n < w.start { return None; }
        if n < w.start + w.count { return Some(i); }
      }
      return None;
    }

    method WriteRow(event: RawEvent, plan: Plan)
      requires Valid()
      modifies `capturedRows, `capturedCanonicalReplayAccesses, `output, tallies
      ensures View() == Captured(config, old(View()), event, plan)
    {
      if config.mode.Capture? {
        var found := FindWindow(validSeen);
        if found.Some? {
          var i := found.value;
          var t := tallies[i];
          output := output + (if t.announced then [] else [WindowMark(i, config.windows[i])]) + [Row(event)];
          capturedRows := capturedRows + 1;
          capturedCanonicalReplayAccesses := capturedCanonicalReplayAccesses + plan.accesses;
          tallies[i] := Tallied(t, plan);
        }
      }
    }

    method MemoryCallback(cb: Callback)
      requires Valid() && cb.Memory?
      modifies this, tallies
      ensures View() == OnMemory(config, old(View()), cb)
    {
      hide Violate, Captured, Counted, JudgeTarget;
      if !tracing { return; }
      if !ready || cb.context.None? {
        registerReadFailures := registerReadFailures + 1;
        RecordViolation(RegisterReadFailed);
        return;
      }
      var (priv, satp) := cb.context.value;
      match Classify(cb.vcpu, priv, satp, lockedSatp) {
        case InvalidVcpu => RecordViolation(MemoryVcpuChanged); return;
        case IgnoreNonU => filteredNonU := filteredNonU + 1; return;
        case IgnoreForeignSatp => filteredForeignSatp := filteredForeignSatp + 1; return;
        case Target =>
      }
      TargetAccess(cb, satp);
    }

    /** An access of the traced program: counted, unless something about it cannot be trusted. */
    method TargetAccess(cb: Callback, satp: Address)
      requires Valid() && cb.Memory? && tracing && Judge(View(), cb) == JudgeTarget(cb, satp)
      modifies this, tallies
      ensures View() == OnMemory(config, old(View()), cb)
    {
      hide Violate, Captured, Counted, Judge;
      if cb.sizeShift > 3 { RecordViolation(UnsupportedAccessSize); return; }
      if cb.physical.None? { RecordViolation(PhysicalAddressUnavailable); return; }
      if cb.physical.value.1 { RecordViolation(UserIoAccess); return; }
      var paddr := cb.physical.value.0;
      var touches := new TouchPlan();
      var result := PlanLineTouches(cb.vaddr, paddr, cb.sizeShift, cb.translate, touches);
      if result.AddressOverflow? { RecordViolation(AccessAddressOverflow); return; }
      if result.TranslationFailed? { RecordViolation(CrossLineTranslationFailed); return; }
      var plan := touches.View();
      hide PlanOf;
      CountEvent(cb, plan, paddr, satp);
    }

    method CountEvent(cb: Callback, plan: Plan, paddr: Address, satp: Address)
      requires Valid() && cb.Memory? && cb.sizeShift <= 3
      modifies this, tallies
      ensures View() == Captured(config, Counted(old(View()), plan),
                                 Recorded(old(validSeen), satp, cb.pc, cb.write, cb.sizeShift, cb.vaddr, paddr, plan),
                                 plan)
                        .(seen := old(validSeen) + 1)
    {
      hide Captured, Counted;
      TallyEvent(plan);
      WriteRow(Recorded(validSeen, satp, cb.pc, cb.write, cb.sizeShift, cb.vaddr, paddr, plan), plan);
      validSeen := validSeen + 1;
    }

    method TallyEvent(plan: Plan)
      modifies `misalignedEvents, `crossLineEvents, `expandedReplayAccesses, `canonicalReplayAccesses
      ensures View() == Counted(old(View()), plan)
    {
      misalignedEvents := misalignedEvents + Bit(plan.misaligned);
      crossLineEvents := crossLineEvents + Bit(plan.crossLine);
      expandedReplayAccesses := expandedReplayAccesses + (plan.accesses - 1);
      canonicalReplayAccesses := canonicalReplayAccesses + plan.accesses;
    }

    method MarkerCallback(cb: Callback)
      requires cb.Marker?
      modifies this
      ensures View() == OnMarker(config, old(View()), cb)
    {
      hide Violate, OnStart, OnStop;
      if !ready {
        registerReadFailures := registerReadFailures + 1;
        RecordViolation(RegistersNotReady);
        return;
      }
      if cb.args.None? {
        registerReadFailures := registerReadFailures + 1;
        RecordViolation(MarkerRegisterReadFailed);
        return;
      }
      if cb.context.None? {
        registerReadFailures := registerReadFailures + 1;
        RecordViolation(RegisterReadFailed);
        return;
      }
      var (magic, nonce, event, command, pid, tid) := cb.args.value;
      var (priv, satp) := cb.context.value;
      if cb.vcpu != 0 {
        RecordViolation(MarkerWrongVcpu);
      } else if magic != ROI_MAGIC {
        RecordViolation(MarkerMagicOrVersionMismatch);
      } else if nonce != config.nonce {
        RecordViolation(MarkerNonceMismatch);
      } else if command != config.command {
        RecordViolation(MarkerCommandMismatch);
      } else if pid == 0 || tid == 0 {
        RecordViolation(MarkerPidTidInvalid);
      } else if event == ROI_EVENT_START {
        Start(priv, satp, pid, tid);
      } else if event == ROI_EVENT_STOP {
        Stop(priv, satp, pid, tid);
      } else {
        RecordViolation(MarkerEventInvalid);
      }
    }

    method Start(priv: Address, satp: Address, pid: Address, tid: Address)
      modifies this
      ensures View() == OnStart(config, old(View()), priv, satp, pid, tid)
    {
      hide Violate;
      if startSeen || stopSeen {
        RecordViolation(DuplicateStart);
      } else if priv != 0 {
        RecordViolation(StartNotUserMode);
      } else if BareSatp(satp) {
        RecordViolation(StartBareSatp);
      } else {
        Bind(priv, satp, pid, tid);
      }
    }

    /** An accepted START binds the context and restarts the event numbers. */
    method Bind(priv: Address, satp: Address, pid: Address, tid: Address)
      modifies this
      ensures View() == old(View()).(
        startSeen := true, tracing := true, satp := satp, pid := pid, tid := tid, seen := 0, capturedRows := 0,
        output := old(output) + [RoiStart(Identity(config.nonce, config.command, satp, pid, tid, 0, priv))])
    {
      Lock(satp, pid, tid);
      startSeen, tracing := true, true;
      output := output + [RoiStart(Identity(config.nonce, config.command, satp, pid, tid, 0, priv))];
    }

    method Lock(satp: Address, pid: Address, tid: Address)
      modifies `lockedSatp, `lockedPid, `lockedTid, `validSeen, `capturedRows
      ensures View() == old(View()).(satp := satp, pid := pid, tid := tid, seen := 0, capturedRows := 0)
    {
      lockedSatp, lockedPid, lockedTid := satp, pid, tid;
      validSeen, capturedRows := 0, 0;
    }

    method Stop(priv: Address, satp: Address, pid: Address, tid: Address)
      modifies this
      ensures View() == OnStop(config, old(View()), priv, satp, pid, tid)
    {
      hide Violate;
      if !startSeen {
        RecordViolation(StopBeforeStart);
      } else if stopSeen {
        RecordViolation(DuplicateStop);
      } else if priv != 0 {
        RecordViolation(StopNotUserMode);
      } else if satp != lockedSatp {
        RecordViolation(StopSatpMismatch);
      } else if pid != lockedPid || tid != lockedTid {
        RecordViolation(StopPidTidMismatch);
      } else {
        stopSeen, tracing := true, false;
        output := output + [RoiStop(Identity(config.nonce, config.command, satp, pid, tid, 0, priv), validSeen)];
      }
    }

    method ValidateFinal()
      requires Valid()
      modifies `invalid, `tracing, `violations, `firstViolation, `output
      ensures View() == Validated(config, old(View()))
    {
      hide Violate, ViolateIf, WindowUnbalanced, CheckWindows;
      RecordViolationIf(!ready, RequiredRegisterMissingAtExit);
      RecordViolationIf(!startSeen, MissingStart);
      RecordViolationIf(!stopSeen, MissingStop);
      RecordViolationIf(Unbalanced(View()), CanonicalizationConservationFailed);
      hide Unbalanced;
      if config.mode.Capture? {
        RecordViolationIf(config.expectedTotal.None? || validSeen != config.expectedTotal.value,
                          CountCaptureTotalMismatch);
        ValidateWindows();
      }
    }

    method ValidateWindow(i: nat)
      requires Valid() && i < |config.windows|
      modifies `invalid, `tracing, `violations, `firstViolation, `output
      ensures View() == CheckWindow(config, old(View()), i)
    {
      hide Violate, ViolateIf, WindowUnbalanced;
      RecordViolationIf(tallies[i].captured != config.windows[i].count, CaptureWindowIncomplete);
      RecordViolationIf(WindowUnbalanced(tallies[i]), WindowCanonicalizationFailed);
    }

    method ValidateWindows()
      requires Valid()
      modifies `invalid, `tracing, `violations, `firstViolation, `output
      ensures View() == CheckWindows(config, old(View()), |config.windows|)
    {
      hide CheckWindow;
      for i := 0 to |config.windows|
        invariant View() == CheckWindows(config, old(View()), i)
      {
        ValidateWindow(i);
      }
    }

    /** The exit callback finishes the trace file. */
    method WriteSummary()
      requires Valid()
      modifies this
      ensures output == Stream(config, old(View()))
    {
      hide Validated, SummaryOf;
      ValidateFinal();
      var end := View();
      output := output + [SummaryLine(SummaryOf(config, end))];
      ghost var lines := WindowSummaries(config, end);
      ghost var head := output;
      for i := 0 to |config.windows|
        invariant output == head + lines[..i]
      {
        var t := tallies[i];
        assert lines[..i + 1] == lines[..i] + [lines[i]];
        output := output + [WindowSummary(i, config.windows[i], t, t.captured == config.windows[i].count)];
      }
      assert lines[..|lines|] == lines;
    }
  }
}
