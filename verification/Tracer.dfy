/**
 The memory tracer of scripts/qemu_memtrace.c as a callback-driven state machine: region
 markers open and close the trace, memory callbacks are filtered, counted and written into
 capture windows, and any irregularity makes the capture invalid for good. Register reads and
 address translations arrive with the callbacks.
 */
module Tracer {
  import opened Counting
  import opened Wrappers
  import opened Geometries
  import opened LoadStore
  import opened Canonical
  import opened WindowText

  const ROI_MAGIC: Address := 0x4c31_4452_4f49_0002
  const ROI_EVENT_START: Address := 1
  const ROI_EVENT_STOP: Address := 2
  const SATP_MODE_UNIT: nat := 0x1000_0000_0000_0000

  datatype Mode = Count | Capture

  datatype Config = Config(mode: Mode, nonce: Address, command: Address, expectedTotal: Option<Address>,
                           windows: seq<WindowSpec>)
  {
    /** What the install function insists on. */
    predicate Installed() {
      && nonce != 0
      && ValidWindows(windows)
      && (mode.Count? ==> windows == [])
      && (mode.Capture? ==> expectedTotal.Some? && windows != [])
    }
  }

  datatype Identity = Identity(nonce: Address, command: Address, satp: Address, pid: Address, tid: Address, vcpu: nat,
                               priv: Address)

  datatype Tally = Tally(captured: nat, misaligned: nat, crossLine: nat, canonical: nat, announced: bool)

  const EMPTY_TALLY: Tally := Tally(0, 0, 0, 0, false)

  datatype Summary = Summary(pass: bool, mode: Mode, totalEvents: nat, capturedRows: nat, expectedTotal: nat,
                             countMatches: bool, startSeen: bool, stopSeen: bool, identity: Identity,
                             filteredNonU: nat, filteredForeign: nat, misaligned: nat, crossLine: nat,
                             expanded: nat, canonical: nat, capturedCanonical: nat, readFailures: nat,
                             violations: nat, first: Option<Code>)

  /** Why a capture is invalid. */
  datatype Code =
    | UnexpectedVcpuInit
    | RegisterListFailed
    | RequiredRegisterMissing
    | MemoryVcpuChanged
    | UnsupportedAccessSize
    | PhysicalAddressUnavailable
    | UserIoAccess
    | AccessAddressOverflow
    | CrossLineTranslationFailed
    | RegisterReadFailed
    | DuplicateStart
    | StartNotUserMode
    | StartBareSatp
    | StopBeforeStart
    | DuplicateStop
    | StopNotUserMode
    | StopSatpMismatch
    | StopPidTidMismatch
    | RegistersNotReady
    | MarkerRegisterReadFailed
    | MarkerWrongVcpu
    | MarkerMagicOrVersionMismatch
    | MarkerNonceMismatch
    | MarkerCommandMismatch
    | MarkerPidTidInvalid
    | MarkerEventInvalid
    | CaptureWindowIncomplete
    | WindowCanonicalizationFailed
    | RequiredRegisterMissingAtExit
    | MissingStart
    | MissingStop
    | CanonicalizationConservationFailed
    | CountCaptureTotalMismatch

  /** One line of the trace file. */
  datatype Record =
    | Schema
    | Columns
    | DataPolicy
    | Context(mode: Mode, nonce: Address, command: Address, expectedTotal: nat)
    | WindowConfig(index: nat, window: WindowSpec)
    | Registers
    | RoiStart(identity: Identity)
    | RoiStop(identity: Identity, total: nat)
    | WindowMark(index: nat, window: WindowSpec)
    | Row(event: RawEvent)
    | Violation(code: Code, total: nat)
    | SummaryLine(summary: Summary)
    | WindowSummary(index: nat, window: WindowSpec, tally: Tally, pass: bool)

  /** A callback from the emulator, with the registers and addresses it can read. */
  datatype Callback =
    | VcpuInit(vcpu: nat, found: Option<bool>)
    | Memory(vcpu: nat, context: Option<(Address, Address)>, pc: Address, sizeShift: nat, write: bool,
             vaddr: Address, physical: Option<(Address, bool)>, translate: Address -> Option<Address>)
    | Marker(vcpu: nat, args: Option<(Address, Address, Address, Address, Address, Address)>,
             context: Option<(Address, Address)>)

  datatype State = State(
    ready: bool, tracing: bool, startSeen: bool, stopSeen: bool, invalid: bool,
    satp: Address, pid: Address, tid: Address,
    seen: nat, capturedRows: nat, filteredNonU: nat, filteredForeign: nat,
    misaligned: nat, crossLine: nat, expanded: nat, canonical: nat, capturedCanonical: nat,
    violations: nat, readFailures: nat,
    first: Option<Code>, tallies: seq<Tally>, output: seq<Record>)

  function Configs(windows: seq<WindowSpec>): (r: seq<Record>)
    ensures |r| == |windows|
  {
    seq(|windows|, i requires 0 <= i < |windows| => WindowConfig(i, windows[i]))
  }

  /** The state after installation, with the header lines written. */
  function Installed(c: Config): State {
    State(false, false, false, false, false, 0, 0, 0, 0, 0, 0, 0, 0, 0, 0, 0, 0, 0, 0, None,
          seq(|c.windows|, _ => EMPTY_TALLY),
          [Schema, Columns, DataPolicy,
           Context(c.mode, c.nonce, c.command, if c.expectedTotal.Some? then c.expectedTotal.value else 0)]
          + Configs(c.windows))
  }

  function Violate(s: State, code: Code): State {
    s.(invalid := true, tracing := false, violations := s.violations + 1,
       first := if s.first.None? then Some(code) else s.first,
       output := s.output + [Violation(code, s.seen)])
  }

  function OnVcpuInit(s: State, vcpu: nat, found: Option<bool>): (r: State)
    ensures r.tallies == s.tallies
  {
    if vcpu != 0 then Violate(s, UnexpectedVcpuInit)
    else if found.None? then Violate(s, RegisterListFailed)
    else if !found.value then Violate(s.(ready := false), RequiredRegisterMissing)
    else s.(ready := true, output := s.output + [Registers])
  }

  // ------------------------------------------------------------------------ memory events

  datatype Class = Target | IgnoreNonU | IgnoreForeignSatp | InvalidVcpu

  function Classify(vcpu: nat, priv: Address, satp: Address, bound: Address): Class {
    if vcpu != 0 then InvalidVcpu else if priv != 0 then IgnoreNonU
    else if satp != bound then IgnoreForeignSatp else Target
  }

  /** What a memory callback amounts to in a state that traces. */
  datatype Verdict =
    | ReadFailed
    | Ignored(kind: Class)
    | Refused(code: Code)
    | Attributed(plan: Plan, paddr: Address, satp: Address)

  function Judge(s: State, cb: Callback): Verdict
    requires cb.Memory?
  {
    if !s.ready || cb.context.None? then ReadFailed
    else
      var (priv, satp) := cb.context.value;
      match Classify(cb.vcpu, priv, satp, s.satp)
      case InvalidVcpu => Refused(MemoryVcpuChanged)
      case IgnoreNonU => Ignored(IgnoreNonU)
      case IgnoreForeignSatp => Ignored(IgnoreForeignSatp)
      case Target => JudgeTarget(cb, satp)
  }

  /** An access of the traced program itself. */
  function JudgeTarget(cb: Callback, satp: Address): Verdict
    requires cb.Memory?
  {
    if cb.sizeShift > 3 then Refused(UnsupportedAccessSize)
    else if cb.physical.None? then Refused(PhysicalAddressUnavailable)
    else if cb.physical.value.1 then Refused(UserIoAccess)
    else
      match PlanOf(cb.vaddr, cb.physical.value.0, cb.sizeShift, cb.translate)
      case Err(AddressOverflow) => Refused(AccessAddressOverflow)
      case Err(_) => Refused(CrossLineTranslationFailed)
      case Ok(plan) => Attributed(plan, cb.physical.value.0, satp)
  }

  /** The event that an attributed callback stands for, numbered by the events before it. */
  function EventOf(s: State, cb: Callback): RawEvent
    requires cb.Memory? && Judge(s, cb).Attributed?
  {
    var v := Judge(s, cb);
    Recorded(s.seen, v.satp, cb.pc, cb.write, cb.sizeShift, cb.vaddr, v.paddr, v.plan)
  }

  predicate Within(w: WindowSpec, n: nat) {
    w.start <= n < w.start + w.count
  }

  /** The window that event number n falls into, searching from window i. */
  function WindowFrom(windows: seq<WindowSpec>, i: nat, n: nat): (w: Option<nat>)
    requires i <= |windows|
    ensures w.Some? ==> i <= w.value < |windows| && Within(windows[w.value], n)
    decreases |windows| - i
  {
    if i == |windows| || n < windows[i].start then None
    else if n < windows[i].start + windows[i].count then Some(i)
    else WindowFrom(windows, i + 1, n)
  }

  function Tallied(t: Tally, plan: Plan): Tally {
    Tally(t.captured + 1, t.misaligned + Bit(plan.misaligned), t.crossLine + Bit(plan.crossLine),
          t.canonical + plan.accesses, true)
  }

  /** Counts an attributed event; the window table is not involved. */
  function Counted(s: State, plan: Plan): State {
    s.(misaligned := s.misaligned + Bit(plan.misaligned), crossLine := s.crossLine + Bit(plan.crossLine),
       expanded := s.expanded + (plan.accesses - 1), canonical := s.canonical + plan.accesses)
  }

  /** Writes an attributed event into the window that it falls into, if there is one. */
  function Captured(c: Config, s: State, event: RawEvent, plan: Plan): State {
    var found := WindowFrom(c.windows, 0, s.seen);
    if !c.mode.Capture? || found.None? || found.value >= |s.tallies| then s
    else
      var i := found.value;
      s.(capturedRows := s.capturedRows + 1, capturedCanonical := s.capturedCanonical + plan.accesses,
         tallies := s.tallies[i := Tallied(s.tallies[i], plan)],
         output := s.output + (if s.tallies[i].announced then [] else [WindowMark(i, c.windows[i])]) + [Row(event)])
  }

  function OnMemory(c: Config, s: State, cb: Callback): (r: State)
    requires cb.Memory?
    ensures |r.tallies| == |s.tallies|
  {
    if !s.tracing then s
    else
      match Judge(s, cb)
      case ReadFailed => Violate(s.(readFailures := s.readFailures + 1), RegisterReadFailed)
      case Refused(code) => Violate(s, code)
      case Ignored(kind) =>
        if kind.IgnoreNonU? then s.(filteredNonU := s.filteredNonU + 1)
        else s.(filteredForeign := s.filteredForeign + 1)
      case Attributed(plan, _, _) =>
        var counted := Captured(c, Counted(s, plan), EventOf(s, cb), plan);
        counted.(seen := s.seen + 1)
  }

  // ------------------------------------------------------------------------------ markers

  /** The full non-Bare translation mode lives in the top four bits. */
  predicate BareSatp(satp: Address) {
    satp / SATP_MODE_UNIT == 0
  }

  function OnStart(c: Config, s: State, priv: Address, satp: Address, pid: Address, tid: Address): State {
    if s.startSeen || s.stopSeen then Violate(s, DuplicateStart)
    else if priv != 0 then Violate(s, StartNotUserMode)
    else if BareSatp(satp) then Violate(s, StartBareSatp)
    else
      s.(startSeen := true, tracing := true, satp := satp, pid := pid, tid := tid, seen := 0, capturedRows := 0,
         output := s.output + [RoiStart(Identity(c.nonce, c.command, satp, pid, tid, 0, priv))])
  }

  function OnStop(c: Config, s: State, priv: Address, satp: Address, pid: Address, tid: Address): State {
    if !s.startSeen then Violate(s, StopBeforeStart)
    else if s.stopSeen then Violate(s, DuplicateStop)
    else if priv != 0 then Violate(s, StopNotUserMode)
    else if satp != s.satp then Violate(s, StopSatpMismatch)
    else if pid != s.pid || tid != s.tid then Violate(s, StopPidTidMismatch)
    else
      s.(stopSeen := true, tracing := false,
         output := s.output + [RoiStop(Identity(c.nonce, c.command, satp, pid, tid, 0, priv), s.seen)])
  }

  function OnMarker(c: Config, s: State, cb: Callback): (r: State)
    requires cb.Marker?
    ensures r.tallies == s.tallies
  {
    var failed := s.(readFailures := s.readFailures + 1);
    if !s.ready then Violate(failed, RegistersNotReady)
    else if cb.args.None? then Violate(failed, MarkerRegisterReadFailed)
    else if cb.context.None? then Violate(failed, RegisterReadFailed)
    else
      var (magic, nonce, event, command, pid, tid) := cb.args.value;
      var (priv, satp) := cb.context.value;
      if cb.vcpu != 0 then Violate(s, MarkerWrongVcpu)
      else if magic != ROI_MAGIC then Violate(s, MarkerMagicOrVersionMismatch)
      else if nonce != c.nonce then Violate(s, MarkerNonceMismatch)
      else if command != c.command then Violate(s, MarkerCommandMismatch)
      else if pid == 0 || tid == 0 then Violate(s, MarkerPidTidInvalid)
      else if event == ROI_EVENT_START then OnStart(c, s, priv, satp, pid, tid)
      else if event == ROI_EVENT_STOP then OnStop(c, s, priv, satp, pid, tid)
      else Violate(s, MarkerEventInvalid)
  }

  function OnCallback(c: Config, s: State, cb: Callback): (r: State)
    ensures |r.tallies| == |s.tallies|
  {
    match cb
    case VcpuInit(vcpu, found) => OnVcpuInit(s, vcpu, found)
    case Memory(_, _, _, _, _, _, _, _) => OnMemory(c, s, cb)
    case Marker(_, _, _) => OnMarker(c, s, cb)
  }

  function After(c: Config, run: seq<Callback>): (s: State)
    ensures |s.tallies| == |c.windows|
  {
    if run == [] then Installed(c) else OnCallback(c, After(c, run[..|run| - 1]), run[|run| - 1])
  }

  // --------------------------------------------------------------------------------- exit

  function ViolateIf(s: State, condition: bool, code: Code): State {
    if condition then Violate(s, code) else s
  }

  predicate Unbalanced(s: State) {
    s.expanded != s.crossLine || s.canonical != s.seen + s.expanded || s.crossLine > s.misaligned
  }

  predicate WindowUnbalanced(t: Tally) {
    t.canonical != t.captured + t.crossLine || t.crossLine > t.misaligned
  }

  function CheckWindow(c: Config, s: State, i: nat): State
    requires i < |c.windows| == |s.tallies|
  {
    var t := s.tallies[i];
    ViolateIf(ViolateIf(s, t.captured != c.windows[i].count, CaptureWindowIncomplete),
              WindowUnbalanced(t), WindowCanonicalizationFailed)
  }

  function CheckWindows(c: Config, s: State, i: nat): State
    requires i <= |c.windows| == |s.tallies|
    ensures CheckWindows(c, s, i).tallies == s.tallies
  {
    if i == 0 then s else CheckWindow(c, CheckWindows(c, s, i - 1), i - 1)
  }

  /** The checks made when the emulator exits. */
  function Validated(c: Config, s: State): State
    requires |c.windows| == |s.tallies|
  {
    var a := ViolateIf(s, !s.ready, RequiredRegisterMissingAtExit);
    var b := ViolateIf(a, !s.startSeen, MissingStart);
    var d := ViolateIf(b, !s.stopSeen, MissingStop);
    var e := ViolateIf(d, Unbalanced(d), CanonicalizationConservationFailed);
    if c.mode.Count? then e
    else
      var f := ViolateIf(e, c.expectedTotal.None? || e.seen != c.expectedTotal.value, CountCaptureTotalMismatch);
      CheckWindows(c, f, |c.windows|)
  }

  function SummaryOf(c: Config, s: State): Summary {
    Summary(!s.invalid, c.mode, s.seen, s.capturedRows,
            if c.expectedTotal.Some? then c.expectedTotal.value else s.seen,
            c.expectedTotal.None? || c.expectedTotal.value == s.seen,
            s.startSeen, s.stopSeen, Identity(c.nonce, c.command, s.satp, s.pid, s.tid, 0, 0),
            s.filteredNonU, s.filteredForeign, s.misaligned, s.crossLine, s.expanded, s.canonical,
            s.capturedCanonical, s.readFailures, s.violations, s.first)
  }

  function WindowSummaries(c: Config, s: State): seq<Record>
    requires |c.windows| == |s.tallies|
  {
    seq(|c.windows|, i requires 0 <= i < |c.windows| =>
      WindowSummary(i, c.windows[i], s.tallies[i], s.tallies[i].captured == c.windows[i].count))
  }

  /** The whole trace file. */
  function Stream(c: Config, s: State): seq<Record>
    requires |c.windows| == |s.tallies|
  {
    var end := Validated(c, s);
    assert end.tallies == s.tallies;
    end.output + [SummaryLine(SummaryOf(c, end))] + WindowSummaries(c, end)
  }

  /** A run whose capture is reported as PASS. */
  predicate Pass(c: Config, s: State)
    requires |c.windows| == |s.tallies|
  {
    !Validated(c, s).invalid
  }
}
