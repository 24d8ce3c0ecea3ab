/**
 The tracer seen from outside: what a sequence of callbacks has to be like for a run to pass,
 which violation is recorded first when it is not, and what the rows of a trace file say about
 the memory accesses that were made. Everything is stated about the callbacks themselves.
 */
module TracerSessions {
  import opened Counting
  import opened Wrappers
  import opened Geometries
  import opened LoadStore
  import opened Canonical
  import opened WindowText
  import opened Tracer
  import opened Splitter
  import opened TracerRuns
  import opened TracerResults

  // ----------------------------------------------------------------- the traced program

  predicate Initialised(run: seq<Callback>) {
    exists k :: 0 <= k < |run| && run[k].VcpuInit?
  }

  function MarkersIn(run: seq<Callback>): seq<Callback> {
    if run == [] then []
    else
      var last := run[|run| - 1];
      MarkersIn(run[..|run| - 1]) + if last.Marker? then [last] else []
  }

  datatype Process = Process(satp: Address, pid: Address, tid: Address)

  /** The process that issued a marker. */
  function Issuer(marker: Callback): Option<Process>
  {
    if marker.Marker? && marker.args.Some? && marker.context.Some?
    then Some(Process(marker.context.value.1, marker.args.value.4, marker.args.value.5))
    else None
  }

  /** The process that the first marker of the run binds the trace to. */
  function Bound(run: seq<Callback>): Option<Process> {
    if MarkersIn(run) == [] then None else Issuer(MarkersIn(run)[0])
  }

  /** One marker has come and the other has not. */
  predicate Open(run: seq<Callback>) {
    |MarkersIn(run)| == 1
  }

  /** An access made while the region is open, by the bound process in user mode. */
  predicate OfTarget(before: seq<Callback>, cb: Callback) {
    && cb.Memory? && Open(before) && cb.context.Some? && cb.vcpu == 0
    && cb.context.value.0 == 0 && Bound(before).Some? && cb.context.value.1 == Bound(before).value.satp
  }

  /** The accesses of the bound process inside the region, in order. */
  function Targets(run: seq<Callback>): seq<Callback> {
    if run == [] then []
    else
      var before, last := run[..|run| - 1], run[|run| - 1];
      Targets(before) + if OfTarget(before, last) then [last] else []
  }

  /** Memory accesses inside the region outside user mode. */
  function Privileged(run: seq<Callback>): nat {
    if run == [] then 0
    else
      var before, last := run[..|run| - 1], run[|run| - 1];
      Privileged(before) + Bit(last.Memory? && Open(before) && last.context.Some? && last.context.value.0 != 0)
  }

  /** User accesses inside the region by other address spaces. */
  function Foreign(run: seq<Callback>): nat {
    if run == [] then 0
    else
      var before, last := run[..|run| - 1], run[|run| - 1];
      Foreign(before) + Bit(last.Memory? && Open(before) && last.context.Some? && last.context.value.0 == 0
                            && !OfTarget(before, last))
  }

  // --------------------------------------------------------------- what is asked of a run

  /** A requirement, the violation that breaking it is recorded as, and the requirements after it. */
  function Require(met: bool, code: Code, rest: Option<Code>): Option<Code> {
    if met then rest else Some(code)
  }

  /** The access ends in the line it begins in. */
  predicate OneLine(cb: Callback)
    requires cb.Memory? && cb.sizeShift <= 3
  {
    cb.vaddr / LINE == (cb.vaddr + AccessBytes(cb.sizeShift) - 1) / LINE
  }

  function InitComplaint(cb: Callback): Option<Code>
    requires cb.VcpuInit?
  {
    Require(cb.vcpu == 0, UnexpectedVcpuInit,
    Require(cb.found.Some?, RegisterListFailed,
    Require(cb.found == Some(true), RequiredRegisterMissing, None)))
  }

  function AccessComplaint(cb: Callback): Option<Code>
    requires cb.Memory?
  {
    if cb.sizeShift > 3 then Some(UnsupportedAccessSize)
    else
      var end := cb.vaddr + AccessBytes(cb.sizeShift);
      Require(cb.physical.Some?, PhysicalAddressUnavailable,
      Require(cb.physical.Some? && !cb.physical.value.1, UserIoAccess,
      Require(end <= ADDRESS_SPACE, AccessAddressOverflow,
      if OneLine(cb) then
        Require(cb.physical.Some? && cb.physical.value.0 + AccessBytes(cb.sizeShift) <= ADDRESS_SPACE,
                AccessAddressOverflow, None)
      else
        Require(end <= ADDRESS_SPACE && cb.translate(end - 1).Some?, CrossLineTranslationFailed, None))))
  }

  /** Inside the region the registers can be read, the CPU stays the same, and target accesses are traceable. */
  function MemoryComplaint(before: seq<Callback>, cb: Callback): Option<Code>
    requires cb.Memory?
  {
    if !Open(before) then None
    else
      Require(cb.context.Some?, RegisterReadFailed,
      Require(cb.vcpu == 0, MemoryVcpuChanged,
      if OfTarget(before, cb) then AccessComplaint(cb) else None))
  }

  /** The first marker is a START from a translated user process, the second a STOP from the same one. */
  function OrderComplaint(before: seq<Callback>, event: Address, priv: Address, who: Process): Option<Code> {
    if event == ROI_EVENT_START then
      Require(MarkersIn(before) == [], DuplicateStart,
      Require(priv == 0, StartNotUserMode,
      Require(!BareSatp(who.satp), StartBareSatp, None)))
    else if event == ROI_EVENT_STOP then
      Require(MarkersIn(before) != [], StopBeforeStart,
      Require(|MarkersIn(before)| < 2, DuplicateStop,
      Require(priv == 0, StopNotUserMode,
      Require(Bound(before).Some? && who.satp == Bound(before).value.satp, StopSatpMismatch,
      Require(Bound(before) == Some(who), StopPidTidMismatch, None)))))
    else Some(MarkerEventInvalid)
  }

  function MarkerComplaint(c: Config, before: seq<Callback>, cb: Callback): Option<Code>
    requires cb.Marker?
  {
    Require(Initialised(before), RegistersNotReady,
    Require(cb.args.Some?, MarkerRegisterReadFailed,
    Require(cb.context.Some?, RegisterReadFailed,
    if cb.args.None? || cb.context.None? then None
    else
      var (magic, nonce, event, command, pid, tid) := cb.args.value;
      Require(cb.vcpu == 0, MarkerWrongVcpu,
      Require(magic == ROI_MAGIC, MarkerMagicOrVersionMismatch,
      Require(nonce == c.nonce, MarkerNonceMismatch,
      Require(command == c.command, MarkerCommandMismatch,
      Require(pid != 0 && tid != 0, MarkerPidTidInvalid,
      OrderComplaint(before, event, cb.context.value.0, Process(cb.context.value.1, pid, tid))))))))))
  }

  function CallbackComplaint(c: Config, before: seq<Callback>, cb: Callback): Option<Code> {
    match cb
    case VcpuInit(_, _) => InitComplaint(cb)
    case Memory(_, _, _, _, _, _, _, _) => MemoryComplaint(before, cb)
    case Marker(_, _, _) => MarkerComplaint(c, before, cb)
  }

  /** The first thing that is wrong with a run, if anything is. */
  function Complaint(c: Config, run: seq<Callback>): Option<Code> {
    if run == [] then None
    else
      var before := run[..|run| - 1];
      if Complaint(c, before).Some? then Complaint(c, before)
      else CallbackComplaint(c, before, run[|run| - 1])
  }

  /** What is still asked for when the emulator exits. */
  ghost function ExitComplaint(c: Config, run: seq<Callback>): Option<Code> {
    Require(Initialised(run), RequiredRegisterMissingAtExit,
    Require(MarkersIn(run) != [], MissingStart,
    Require(|MarkersIn(run)| >= 2, MissingStop,
    if c.mode.Count? then None
    else
      Require(c.expectedTotal == Some(|Targets(run)|), CountCaptureTotalMismatch,
      Require(Inside(c.windows, |Targets(run)|), CaptureWindowIncomplete, None)))))
  }

  // ------------------------------------------------------------------- runs without complaint

  /** The state of the tracer, told from the callbacks. */
  ghost predicate InStep(run: seq<Callback>, s: State) {
    && !s.invalid && s.first.None? && s.violations == 0 && s.readFailures == 0
    && s.ready == Initialised(run)
    && s.startSeen == (MarkersIn(run) != []) && s.stopSeen == (|MarkersIn(run)| >= 2) && s.tracing == Open(run)
    && (MarkersIn(run) != [] ==> s.ready && Bound(run) == Some(Process(s.satp, s.pid, s.tid)))
    && (MarkersIn(run) == [] ==> Targets(run) == [])
    && s.seen == |Targets(run)| && s.filteredNonU == Privileged(run) && s.filteredForeign == Foreign(run)
  }

  /** A callback that breaks a requirement makes the run invalid, and the violation is recorded. */
  ghost predicate Broken(s: State, code: Code) {
    s.invalid && s.first == Some(code)
  }

  lemma MarkerAdds(run: seq<Callback>, cb: Callback)
    ensures MarkersIn(run + [cb]) == MarkersIn(run) + if cb.Marker? then [cb] else []
  {
    assert (run + [cb])[..|run|] == run;
  }

  lemma InitAdds(run: seq<Callback>, cb: Callback)
    ensures Initialised(run + [cb]) <==> Initialised(run) || cb.VcpuInit?
  {
    var longer := run + [cb];
    assert longer[|run|] == cb;
    assert forall k :: 0 <= k < |run| ==> longer[k] == run[k];
  }

  lemma MarkersExtend(run: seq<Callback>, cb: Callback)
    ensures MarkersIn(run + [cb]) == MarkersIn(run) + if cb.Marker? then [cb] else []
    ensures Initialised(run + [cb]) <==> Initialised(run) || cb.VcpuInit?
    ensures MarkersIn(run) != [] ==> Bound(run + [cb]) == Bound(run)
    ensures MarkersIn(run) == [] && cb.Marker? ==> Bound(run + [cb]) == Issuer(cb)
  {
    hide MarkersIn, Initialised, Issuer;
    MarkerAdds(run, cb);
    InitAdds(run, cb);
  }

  lemma CountsExtend(run: seq<Callback>, cb: Callback)
    ensures Targets(run + [cb]) == Targets(run) + if OfTarget(run, cb) then [cb] else []
    ensures Privileged(run + [cb]) == Privileged(run)
              + Bit(cb.Memory? && Open(run) && cb.context.Some? && cb.context.value.0 != 0)
    ensures Foreign(run + [cb]) == Foreign(run)
              + Bit(cb.Memory? && Open(run) && cb.context.Some? && cb.context.value.0 == 0 && !OfTarget(run, cb))
  {
    hide OfTarget, Open;
    var longer := run + [cb];
    assert longer[..|run|] == run && longer[|run|] == cb;
  }

  lemma InitInStep(c: Config, run: seq<Callback>, s: State, cb: Callback)
    requires InStep(run, s) && cb.VcpuInit?
    ensures var t := OnCallback(c, s, cb);
            match InitComplaint(cb)
            case None => InStep(run + [cb], t)
            case Some(code) => Broken(t, code)
  {
    hide MarkersIn, Targets, Privileged, Foreign, Initialised, Bound;
    MarkersExtend(run, cb);
    CountsExtend(run, cb);
  }

  /** The planner's verdict on an access of the target. */
  lemma AccessJudged(cb: Callback, satp: Address)
    requires cb.Memory?
    ensures match AccessComplaint(cb)
            case None => JudgeTarget(cb, satp).Attributed?
            case Some(code) => JudgeTarget(cb, satp) == Refused(code)
  {
  }

  lemma AccessJudgedInState(run: seq<Callback>, s: State, cb: Callback)
    requires InStep(run, s) && cb.Memory? && Open(run)
    ensures match MemoryComplaint(run, cb)
            case Some(code) =>
              Judge(s, cb) == Refused(code) || (code == RegisterReadFailed && Judge(s, cb) == ReadFailed)
            case None =>
              if OfTarget(run, cb) then Judge(s, cb).Attributed?
              else Judge(s, cb) == Ignored(if cb.context.value.0 != 0 then IgnoreNonU else IgnoreForeignSatp)
    ensures MemoryComplaint(run, cb) == None ==> cb.context.Some?
  {
    hide MarkersIn, Targets, Privileged, Foreign, JudgeTarget, AccessComplaint;
    if cb.context.Some? {
      AccessJudged(cb, cb.context.value.1);
    }
  }

  lemma MemoryInStep(c: Config, run: seq<Callback>, s: State, cb: Callback)
    requires InStep(run, s) && cb.Memory?
    ensures var t := OnCallback(c, s, cb);
            match MemoryComplaint(run, cb)
            case None => InStep(run + [cb], t)
            case Some(code) => Broken(t, code)
  {
    hide MarkersIn, Targets, Privileged, Foreign, Initialised, Bound, Judge, MemoryComplaint, EventOf, Captured;
    MarkersExtend(run, cb);
    CountsExtend(run, cb);
    if Open(run) {
      AccessJudgedInState(run, s, cb);
      if OfTarget(run, cb) && MemoryComplaint(run, cb).None? {
        CapturedKeeps(c, s, EventOf(s, cb), Judge(s, cb).plan);
        CapturedKeepsCounts(c, s, EventOf(s, cb), Judge(s, cb).plan);
      }
    } else {
      NothingAsked(run, cb);
    }
  }

  lemma NothingAsked(run: seq<Callback>, cb: Callback)
    requires cb.Memory? && !Open(run)
    ensures MemoryComplaint(run, cb) == None
  {
  }

  lemma CapturedKeepsCounts(c: Config, s: State, e: RawEvent, plan: Plan)
    ensures var t := Captured(c, Counted(s, plan), e, plan);
      && t.seen == s.seen && t.filteredNonU == s.filteredNonU && t.filteredForeign == s.filteredForeign
      && t.ready == s.ready && t.first == s.first && t.readFailures == s.readFailures
  {
    hide WindowFrom, Tallied;
  }

  lemma MarkerInStep(c: Config, run: seq<Callback>, s: State, cb: Callback)
    requires InStep(run, s) && cb.Marker?
    ensures var t := OnCallback(c, s, cb);
            match MarkerComplaint(c, run, cb)
            case None => InStep(run + [cb], t)
            case Some(code) => Broken(t, code)
  {
    hide MarkersIn, Targets, Privileged, Foreign, Initialised, Bound, BareSatp;
    MarkersExtend(run, cb);
    CountsExtend(run, cb);
  }

  // ------------------------------------------------------------------------- whole runs

  /** Once a violation has been recorded, the first one stays. */
  lemma FirstStays(c: Config, s: State, cb: Callback)
    requires s.first.Some?
    ensures OnCallback(c, s, cb).first == s.first
  {
    hide Judge, EventOf, Captured, BareSatp;
    if cb.Memory? && s.tracing && Judge(s, cb).Attributed? {
      CapturedKeepsCounts(c, s, EventOf(s, cb), Judge(s, cb).plan);
    }
  }

  lemma CallbackInStep(c: Config, run: seq<Callback>, s: State, cb: Callback)
    requires InStep(run, s)
    ensures match CallbackComplaint(c, run, cb)
            case None => InStep(run + [cb], OnCallback(c, s, cb))
            case Some(code) => Broken(OnCallback(c, s, cb), code)
  {
    hide InStep, Broken, OnCallback, InitComplaint, MemoryComplaint, MarkerComplaint;
    match cb
    case VcpuInit(_, _) => InitInStep(c, run, s, cb);
    case Memory(_, _, _, _, _, _, _, _) => MemoryInStep(c, run, s, cb);
    case Marker(_, _, _) => MarkerInStep(c, run, s, cb);
  }

  lemma StaysBroken(c: Config, s: State, cb: Callback, code: Code)
    requires Broken(s, code)
    ensures Broken(OnCallback(c, s, cb), code)
  {
    hide OnCallback;
    StepKeepsInvalid(c, s, cb);
    FirstStays(c, s, cb);
  }

  /**
   The run is valid exactly while every callback meets its requirements; the violation recorded
   first is the first requirement that was broken.
   */
  lemma {:induction false} ComplaintDecides(c: Config, run: seq<Callback>)
    ensures match Complaint(c, run)
            case None => InStep(run, After(c, run))
            case Some(code) => Broken(After(c, run), code)
  {
    hide InStep, Broken, OnCallback, CallbackComplaint;
    if run == [] {
      StartsInStep(c);
    } else {
      var before, cb := run[..|run| - 1], run[|run| - 1];
      assert run == before + [cb];
      ComplaintDecides(c, before);
      match Complaint(c, before)
      case None => CallbackInStep(c, before, After(c, before), cb);
      case Some(code) => StaysBroken(c, After(c, before), cb, code);
    }
  }

  lemma StartsInStep(c: Config)
    ensures InStep([], Installed(c))
  {
  }

  predicate Full(c: Config, s: State, i: nat)
    requires i <= |c.windows| == |s.tallies|
  {
    forall k :: 0 <= k < i ==> s.tallies[k].captured == c.windows[k].count
  }

  lemma {:induction false} WindowsChecked(c: Config, s: State, i: nat)
    requires i <= |c.windows| == |s.tallies| && (s.invalid <==> s.first.Some?)
    requires forall k :: 0 <= k < i ==> !WindowUnbalanced(s.tallies[k])
    ensures var t := CheckWindows(c, s, i);
      && (t.invalid <==> t.first.Some?)
      && t.first == if s.first.Some? then s.first else if Full(c, s, i) then None else Some(CaptureWindowIncomplete)
  {
    hide WindowUnbalanced;
    if i > 0 {
      WindowsChecked(c, s, i - 1);
      assert Full(c, s, i) <==> Full(c, s, i - 1) && s.tallies[i - 1].captured == c.windows[i - 1].count;
      hide Full;
    }
  }

  /** Checking the windows keeps the first violation; without one, only windows that are not full complain. */
  lemma AllWindowsChecked(c: Config, s: State)
    requires |c.windows| == |s.tallies| && (s.invalid <==> s.first.Some?)
    requires forall i :: 0 <= i < |s.tallies| ==> !WindowUnbalanced(s.tallies[i])
    ensures var t := CheckWindows(c, s, |c.windows|);
      && (t.invalid <==> t.first.Some?)
      && t.first == if s.first.Some? then s.first else if Full(c, s, |c.windows|) then None
                    else Some(CaptureWindowIncomplete)
  {
    WindowsChecked(c, s, |c.windows|);
  }

  /** The state before the checks of a capture run, and what they add. */
  function Settled(s: State): State
    requires !Unbalanced(s)
  {
    ViolateIf(ViolateIf(ViolateIf(s, !s.ready, RequiredRegisterMissingAtExit), !s.startSeen, MissingStart),
              !s.stopSeen, MissingStop)
  }

  lemma SettledIs(c: Config, s: State)
    requires |c.windows| == |s.tallies| && !Unbalanced(s)
    ensures var d := Settled(s);
      && d.tallies == s.tallies && d.seen == s.seen
      && d.invalid == (s.invalid || !s.ready || !s.startSeen || !s.stopSeen)
      && d.first == (if s.first.Some? then s.first else if !s.ready then Some(RequiredRegisterMissingAtExit)
                     else if !s.startSeen then Some(MissingStart) else if !s.stopSeen then Some(MissingStop) else None)
      && Validated(c, s)
           == if c.mode.Count? then d
              else CheckWindows(c, ViolateIf(d, c.expectedTotal.None? || d.seen != c.expectedTotal.value,
                                             CountCaptureTotalMismatch), |c.windows|)
  {
    hide CheckWindows, WindowUnbalanced;
  }

  lemma BrokenAtExit(c: Config, s: State, code: Code)
    requires |c.windows| == |s.tallies| && Broken(s, code) && !Unbalanced(s)
    requires forall i :: 0 <= i < |s.tallies| ==> !WindowUnbalanced(s.tallies[i])
    ensures !Pass(c, s) && Validated(c, s).first == Some(code)
  {
    hide Unbalanced, WindowUnbalanced, CheckWindows, Validated, Settled, Full;
    SettledIs(c, s);
    if c.mode.Capture? {
      AllWindowsChecked(c, ViolateIf(Settled(s), c.expectedTotal.None? || s.seen != c.expectedTotal.value,
                                     CountCaptureTotalMismatch));
    }
  }

  lemma InStepAtExit(c: Config, run: seq<Callback>, s: State)
    requires |c.windows| == |s.tallies| && InStep(run, s) && !Unbalanced(s)
    requires forall i :: 0 <= i < |s.tallies| ==> !WindowUnbalanced(s.tallies[i])
    requires (forall i :: 0 <= i < |c.windows| ==> s.tallies[i].captured == c.windows[i].count)
        <==> Inside(c.windows, s.seen)
    ensures (Pass(c, s) <==> ExitComplaint(c, run) == None) && Validated(c, s).first == ExitComplaint(c, run)
  {
    hide Unbalanced, WindowUnbalanced, CheckWindows, Validated, Settled;
    hide Inside, MarkersIn, Initialised, Targets, Privileged, Foreign, Bound;
    SettledIs(c, s);
    if c.mode.Capture? {
      AllWindowsChecked(c, ViolateIf(Settled(s), c.expectedTotal.None? || s.seen != c.expectedTotal.value,
                                     CountCaptureTotalMismatch));
    }
  }

  /**
   The exact condition for PASS, in terms of the callbacks: no callback breaks a requirement, both
   markers came, and a capture run saw the expected number of accesses with all its windows
   inside. The code reported first is the first requirement that was broken, at exit if not before.
   */
  lemma PassesExactlyWhenOrderly(c: Config, run: seq<Callback>)
    requires c.Installed()
    ensures var complaint := if Complaint(c, run).Some? then Complaint(c, run) else ExitComplaint(c, run);
      && (Pass(c, After(c, run)) <==> complaint == None)
      && Validated(c, After(c, run)).first == complaint
  {
    hide After, Complaint, ExitComplaint, Validated, Pass, Events;
    hide InStep, Broken, Unbalanced, WindowUnbalanced, Inside, Counters, Tallies, Flow, EventsBelong, Followed;
    ComplaintDecides(c, run);
    RunIsSound(c, run);
    CountersAlwaysBalance(c, run);
    var s, h := After(c, run), Events(c, run);
    FullExactlyWhenInside(c, s, h);
    SeenIsLength(s, h);
    match Complaint(c, run)
    case Some(code) => BrokenAtExit(c, s, code);
    case None => InStepAtExit(c, run, s);
  }

  // -------------------------------------------------------------------- what a row says

  /** The event is this access: who made it, what it did, and the physical bytes at its two ends. */
  ghost predicate Mirrors(e: RawEvent, cb: Callback, n: nat) {
    && cb.Memory? && cb.context.Some? && cb.physical.Some? && cb.sizeShift <= 3
    && e.seqId == n && e.vcpu == cb.vcpu && e.priv == cb.context.value.0 && e.satp == cb.context.value.1
    && e.pc == cb.pc && e.write == cb.write && e.size == AccessBytes(cb.sizeShift)
    && e.vaddr == cb.vaddr && e.paddr == cb.physical.value.0
    && var last := cb.vaddr + AccessBytes(cb.sizeShift) - 1;
       && last < ADDRESS_SPACE
       && if OneLine(cb) then e.paddrEnd == e.paddr + e.size - 1 else cb.translate(last) == Some(e.paddrEnd)
  }

  lemma EventMirrors(s: State, cb: Callback)
    requires cb.Memory? && Judge(s, cb).Attributed?
    ensures Mirrors(EventOf(s, cb), cb, s.seen)
  {
  }

  /** In any run, whatever a callback adds to the events is its own access, numbered by the events before it. */
  lemma EventsAreAccesses(c: Config, run: seq<Callback>, cb: Callback)
    requires c.Installed()
    ensures var s, h, h' := After(c, run), Events(c, run), Events(c, run + [cb]);
      if Counts(s, cb) then |h'| == |h| + 1 && h == h'[..|h|] && Mirrors(h'[|h|], cb, |h|) else h' == h
  {
    hide Sound, Mirrors, Judge, EventOf, After;
    assert (run + [cb])[..|run|] == run;
    RunIsSound(c, run);
    EventsCounted(c, After(c, run), Events(c, run));
    if Counts(After(c, run), cb) {
      EventMirrors(After(c, run), cb);
    }
  }

  lemma EventsCounted(c: Config, s: State, h: seq<RawEvent>)
    requires c.Installed() && Sound(c, s, h)
    ensures s.seen == |h|
  {
  }

  /** While nothing is wrong, exactly the accesses of the bound process inside the region are events. */
  lemma TargetsCount(c: Config, run: seq<Callback>, cb: Callback)
    requires Complaint(c, run) == None && CallbackComplaint(c, run, cb) == None
    ensures Counts(After(c, run), cb) <==> OfTarget(run, cb)
  {
    hide Complaint, After, MarkersIn, Targets, Judge, MemoryComplaint;
    ComplaintDecides(c, run);
    if cb.Memory? && Open(run) {
      AccessJudgedInState(run, After(c, run), cb);
    }
  }

  /** The events of a run without complaint are the accesses of the bound process, one by one. */
  lemma {:induction false} EventsMirrorTargets(c: Config, run: seq<Callback>)
    requires c.Installed() && Complaint(c, run) == None
    ensures |Events(c, run)| == |Targets(run)|
    ensures forall k :: 0 <= k < |Targets(run)| ==> Mirrors(Events(c, run)[k], Targets(run)[k], k)
  {
    hide After, Counts, Mirrors, OfTarget, CallbackComplaint, Complaint, Events, Targets;
    if run == [] {
      NoEvents(c);
    } else {
      var before, cb := run[..|run| - 1], run[|run| - 1];
      assert run == before + [cb];
      ComplaintBefore(c, run);
      EventsMirrorTargets(c, before);
      EventsAreAccesses(c, before, cb);
      TargetsCount(c, before, cb);
      CountsExtend(before, cb);
    }
  }

  lemma NoEvents(c: Config)
    ensures Events(c, []) == [] && Targets([]) == []
  {
  }

  lemma ComplaintBefore(c: Config, run: seq<Callback>)
    requires run != [] && Complaint(c, run) == None
    ensures var k := |run| - 1; Complaint(c, run[..k]) == None && CallbackComplaint(c, run[..k], run[k]) == None
  {
  }

  /** Row k of window i in an accepted file is the access that the bound process made as number start + k. */
  lemma RowsAreAccesses(c: Config, run: seq<Callback>, i: nat, k: nat)
    requires c.Installed() && c.mode.Capture? && i < |c.windows|
    requires Parsed(Stream(c, After(c, run))).Some? && k < c.windows[i].count
    ensures var file, n := Parsed(Stream(c, After(c, run))).value, c.windows[i].start + k;
      && i < |file| && k < |file[i].rows| && 0 <= n < |Targets(run)|
      && Mirrors(file[i].rows[k], Targets(run)[n], n)
  {
    hide After, Events, Parsed, Stream, Pass, Mirrors, Complaint, ExitComplaint, Targets;
    AcceptedExactlyWhenPassed(c, run);
    PassesExactlyWhenOrderly(c, run);
    EventsMirrorTargets(c, run);
    assert ValidWindow(c.windows[i]);
  }

  // ----------------------------------------------------------------- what the summary says

  /** The totals of the traced process and the accesses that were filtered out. */
  ghost predicate Reports(t: Summary, c: Config, run: seq<Callback>) {
    var h, n := Events(c, run), |Targets(run)|;
    && t.pass && t.mode == c.mode && t.totalEvents == n
    && t.expectedTotal == (if c.expectedTotal.Some? then c.expectedTotal.value else n)
    && t.countMatches == (t.expectedTotal == n)
    && t.startSeen && t.stopSeen && t.violations == 0 && t.readFailures == 0 && t.first == None
    && t.identity.nonce == c.nonce && t.identity.command == c.command && t.identity.vcpu == t.identity.priv == 0
    && Bound(run) == Some(Process(t.identity.satp, t.identity.pid, t.identity.tid))
    && t.filteredNonU == Privileged(run) && t.filteredForeign == Foreign(run)
    && t.misaligned == MisalignedIn(h) && t.crossLine == t.expanded == CrossLineIn(h) && t.canonical == CanonicalIn(h)
  }

  /**
   Every file has exactly one summary line. It reports PASS exactly when nothing was wrong, names
   the first thing that was, and for a run that passes its totals are those of the callbacks.
   */
  lemma SummaryTellsTheRun(c: Config, run: seq<Callback>) returns (j: nat)
    requires c.Installed()
    ensures var file, complaint := Stream(c, After(c, run)),
                                   if Complaint(c, run).Some? then Complaint(c, run) else ExitComplaint(c, run);
      && j < |file| && file[j].SummaryLine?
      && (file[j].summary.pass <==> complaint == None) && file[j].summary.first == complaint
      && (complaint == None ==> Reports(file[j].summary, c, run))
  {
    hide After, Events, Complaint, ExitComplaint, Reports, Unbalanced, CheckWindows;
    var s := After(c, run);
    PassesExactlyWhenOrderly(c, run);
    j := |Validated(c, s).output|;
    if Pass(c, s) {
      PassIsClean(c, s);
      hide Validated;
      PassReports(c, run);
    }
  }

  lemma PassReports(c: Config, run: seq<Callback>)
    requires c.Installed() && Complaint(c, run) == None
    requires After(c, run).startSeen && After(c, run).stopSeen
    ensures Reports(SummaryOf(c, After(c, run)), c, run)
  {
    hide After, Events, Complaint, MarkersIn, Targets, Bound, Privileged, Foreign, Initialised;
    hide MisalignedIn, CrossLineIn, CanonicalIn;
    ComplaintDecides(c, run);
    RunIsSound(c, run);
  }

  lemma TalliesStay(s: State, condition: bool, code: Code)
    ensures ViolateIf(s, condition, code).tallies == s.tallies
  {
  }

  lemma ExitKeepsTallies(c: Config, s: State)
    requires |c.windows| == |s.tallies|
    ensures Validated(c, s).tallies == s.tallies
  {
    hide Violate, ViolateIf, Unbalanced;
    TalliesStay(s, !s.ready, RequiredRegisterMissingAtExit);
    var a := ViolateIf(s, !s.ready, RequiredRegisterMissingAtExit);
    TalliesStay(a, !s.startSeen, MissingStart);
    var b := ViolateIf(a, !s.startSeen, MissingStart);
    TalliesStay(b, !s.stopSeen, MissingStop);
    var d := ViolateIf(b, !s.stopSeen, MissingStop);
    TalliesStay(d, Unbalanced(d), CanonicalizationConservationFailed);
    var e := ViolateIf(d, Unbalanced(d), CanonicalizationConservationFailed);
    TalliesStay(e, c.expectedTotal.None? || e.seen != c.expectedTotal.value, CountCaptureTotalMismatch);
  }

  /**
   Every file has a summary line for each window: it counts the events that fall into the window,
   and says PASS exactly when the window ends inside the region.
   */
  lemma WindowLinesTellTheRun(c: Config, run: seq<Callback>, i: nat) returns (j: nat, t: Tally)
    requires c.Installed() && i < |c.windows|
    ensures var file, w, h := Stream(c, After(c, run)), c.windows[i], Events(c, run);
      && j < |file| && file[j] == WindowSummary(i, w, t, w.start + w.count <= |h|)
      && t.captured == |Slice(w, h)| && t.misaligned == MisalignedIn(Slice(w, h))
      && t.crossLine == CrossLineIn(Slice(w, h)) && t.canonical == CanonicalIn(Slice(w, h))
  {
    hide After, Events, Counters, EventsBelong, Flow, Followed, Validated;
    var s, h := After(c, run), Events(c, run);
    RunIsSound(c, run);
    ExitKeepsTallies(c, s);
    var end := Validated(c, s);
    assert Stream(c, s) == end.output + [SummaryLine(SummaryOf(c, end))] + WindowSummaries(c, end);
    j, t := |end.output| + 1 + i, s.tallies[i];
    assert ValidWindow(c.windows[i]);
    assert Stream(c, s)[j] == WindowSummaries(c, end)[i];
  }

  // --------------------------------------------------------------- what violation lines say

  /** The codes of the violation lines, in order. */
  function CodesIn(records: seq<Record>): seq<Code> {
    if records == [] then []
    else
      var last := records[|records| - 1];
      CodesIn(records[..|records| - 1]) + if last.Violation? then [last.code] else []
  }

  /** How many of them are failed reads of a register. */
  function ReadFailuresIn(codes: seq<Code>): nat {
    if codes == [] then 0
    else
      ReadFailuresIn(codes[..|codes| - 1])
      + Bit(ReadCode(codes[|codes| - 1]))
  }

  lemma {:induction false} CodesConcat(a: seq<Record>, b: seq<Record>)
    ensures CodesIn(a + b) == CodesIn(a) + CodesIn(b)
  {
    if b == [] {
      assert a + b == a;
    } else {
      assert (a + b)[..|a + b| - 1] == a + b[..|b| - 1];
      CodesConcat(a, b[..|b| - 1]);
    }
  }

  lemma {:induction false} NoCodes(records: seq<Record>)
    requires forall i :: 0 <= i < |records| ==> !records[i].Violation?
    ensures CodesIn(records) == []
  {
    if records != [] {
      NoCodes(records[..|records| - 1]);
    }
  }

  /** The counters of trouble, against the lines written so far. */
  ghost predicate Told(s: State) {
    var codes := CodesIn(s.output);
    && s.violations == |codes| && (s.invalid <==> codes != [])
    && s.first == (if codes == [] then None else Some(codes[0]))
    && s.readFailures == ReadFailuresIn(codes)
  }

  predicate ReadCode(code: Code) {
    code in {RegisterReadFailed, RegistersNotReady, MarkerRegisterReadFailed}
  }

  lemma CodesAdd(records: seq<Record>, code: Code, total: nat)
    ensures CodesIn(records + [Violation(code, total)]) == CodesIn(records) + [code]
  {
    assert (records + [Violation(code, total)])[..|records|] == records;
  }

  lemma ReadFailuresAdd(codes: seq<Code>, code: Code)
    ensures ReadFailuresIn(codes + [code]) == ReadFailuresIn(codes) + Bit(ReadCode(code))
  {
    hide ReadCode;
    assert (codes + [code])[..|codes|] == codes;
  }

  lemma ViolateTells(s: State, code: Code)
    requires Told(s)
    ensures Told(Violate(if ReadCode(code) then s.(readFailures := s.readFailures + 1) else s, code))
  {
    hide CodesIn, ReadFailuresIn, ReadCode;
    CodesAdd(s.output, code, s.seen);
    ReadFailuresAdd(CodesIn(s.output), code);
  }

  /** Whatever else a callback writes, it changes none of these counters. */
  lemma WritingTells(s: State, t: State, lines: seq<Record>)
    requires Told(s) && t.output == s.output + lines && forall i :: 0 <= i < |lines| ==> !lines[i].Violation?
    requires t.violations == s.violations && t.invalid == s.invalid && t.first == s.first
    requires t.readFailures == s.readFailures
    ensures Told(t)
  {
    CodesConcat(s.output, lines);
    NoCodes(lines);
    assert CodesIn(s.output) + [] == CodesIn(s.output);
  }

  lemma InitTells(s: State, vcpu: nat, found: Option<bool>)
    requires Told(s)
    ensures Told(OnVcpuInit(s, vcpu, found))
  {
    hide Told, Violate;
    WritingTells(s, s.(ready := false), []);
    ViolateTells(s, UnexpectedVcpuInit);
    ViolateTells(s, RegisterListFailed);
    ViolateTells(s.(ready := false), RequiredRegisterMissing);
    WritingTells(s, s.(ready := true, output := s.output + [Registers]), [Registers]);
  }

  lemma MemoryTells(c: Config, s: State, cb: Callback)
    requires Told(s) && cb.Memory?
    ensures Told(OnMemory(c, s, cb))
  {
    hide Told, Violate, Judge, EventOf, WindowFrom, Tallied;
    var t := OnMemory(c, s, cb);
    if s.tracing {
      match Judge(s, cb)
      case ReadFailed => ViolateTells(s, RegisterReadFailed);
      case Refused(code) => RefusedElsewhere(s, cb); ViolateTells(s, code);
      case Ignored(_) => WritingTells(s, t, []);
      case Attributed(_, _, _) => AttributedTells(c, s, cb);
    }
  }

  lemma AttributedTells(c: Config, s: State, cb: Callback)
    requires Told(s) && cb.Memory? && s.tracing && Judge(s, cb).Attributed?
    ensures Told(OnMemory(c, s, cb))
  {
    hide Told, Judge, EventOf, WindowFrom, Tallied, Counted;
    var t, v := OnMemory(c, s, cb), Judge(s, cb);
    var counted, found := Counted(s, v.plan), WindowFrom(c.windows, 0, s.seen);
    CountedTells(s, v.plan);
    if !c.mode.Capture? || found.None? || found.value >= |s.tallies| {
      WritingTells(counted, t, []);
    } else {
      var i := found.value;
      var mark := if s.tallies[i].announced then [] else [WindowMark(i, c.windows[i])];
      WritingTells(counted, t, mark + [Row(EventOf(s, cb))]);
    }
  }

  lemma CountedTells(s: State, plan: Plan)
    requires Told(s)
    ensures Told(Counted(s, plan)) && Counted(s, plan).tallies == s.tallies && Counted(s, plan).seen == s.seen
    ensures Counted(s, plan).output == s.output
  {
    hide CodesIn;
  }

  lemma RefusedElsewhere(s: State, cb: Callback)
    requires cb.Memory? && Judge(s, cb).Refused?
    ensures !ReadCode(Judge(s, cb).code)
  {
  }

  lemma StartTells(c: Config, s: State, priv: Address, satp: Address, pid: Address, tid: Address)
    requires Told(s)
    ensures Told(OnStart(c, s, priv, satp, pid, tid))
  {
    hide Told, Violate, BareSatp;
    var t := OnStart(c, s, priv, satp, pid, tid);
    ViolateTells(s, DuplicateStart);
    ViolateTells(s, StartNotUserMode);
    ViolateTells(s, StartBareSatp);
    if t.startSeen && !s.startSeen && !s.stopSeen && priv == 0 && !BareSatp(satp) {
      WritingTells(s, t, [RoiStart(Identity(c.nonce, c.command, satp, pid, tid, 0, priv))]);
    }
  }

  lemma StopTells(c: Config, s: State, priv: Address, satp: Address, pid: Address, tid: Address)
    requires Told(s)
    ensures Told(OnStop(c, s, priv, satp, pid, tid))
  {
    hide Told, Violate;
    var t := OnStop(c, s, priv, satp, pid, tid);
    ViolateTells(s, StopBeforeStart);
    ViolateTells(s, DuplicateStop);
    ViolateTells(s, StopNotUserMode);
    ViolateTells(s, StopSatpMismatch);
    ViolateTells(s, StopPidTidMismatch);
    if s.startSeen && !s.stopSeen && priv == 0 && satp == s.satp && pid == s.pid && tid == s.tid {
      WritingTells(s, t, [RoiStop(Identity(c.nonce, c.command, satp, pid, tid, 0, priv), s.seen)]);
    }
  }

  lemma MarkerTells(c: Config, s: State, cb: Callback)
    requires Told(s) && cb.Marker?
    ensures Told(OnMarker(c, s, cb))
  {
    hide Told, Violate, OnStart, OnStop;
    ViolateTells(s, RegistersNotReady);
    ViolateTells(s, MarkerRegisterReadFailed);
    ViolateTells(s, RegisterReadFailed);
    ViolateTells(s, MarkerWrongVcpu);
    ViolateTells(s, MarkerMagicOrVersionMismatch);
    ViolateTells(s, MarkerNonceMismatch);
    ViolateTells(s, MarkerCommandMismatch);
    ViolateTells(s, MarkerPidTidInvalid);
    ViolateTells(s, MarkerEventInvalid);
    if cb.args.Some? && cb.context.Some? {
      var (priv, satp) := cb.context.value;
      StartTells(c, s, priv, satp, cb.args.value.4, cb.args.value.5);
      StopTells(c, s, priv, satp, cb.args.value.4, cb.args.value.5);
    }
  }

  lemma InstallTells(c: Config)
    ensures Told(Installed(c))
  {
    hide CodesIn;
    NoCodes(Installed(c).output);
  }

  lemma {:induction false} RunTells(c: Config, run: seq<Callback>)
    ensures Told(After(c, run))
  {
    hide Told, OnMemory, OnMarker, OnVcpuInit, Installed;
    if run == [] {
      InstallTells(c);
    } else {
      var s, cb := After(c, run[..|run| - 1]), run[|run| - 1];
      RunTells(c, run[..|run| - 1]);
      match cb {
        case VcpuInit(vcpu, found) => InitTells(s, vcpu, found);
        case Memory(_, _, _, _, _, _, _, _) => MemoryTells(c, s, cb);
        case Marker(_, _, _) => MarkerTells(c, s, cb);
      }
    }
  }

  lemma {:induction false} WindowsTell(c: Config, s: State, i: nat)
    requires i <= |c.windows| == |s.tallies| && Told(s)
    ensures Told(CheckWindows(c, s, i))
  {
    hide Told, Violate, WindowUnbalanced;
    if i > 0 {
      WindowsTell(c, s, i - 1);
      var t := CheckWindows(c, s, i - 1);
      ViolateTells(t, CaptureWindowIncomplete);
      ViolateTells(ViolateIf(t, t.tallies[i - 1].captured != c.windows[i - 1].count, CaptureWindowIncomplete),
                   WindowCanonicalizationFailed);
    }
  }

  lemma ExitTells(c: Config, s: State)
    requires |c.windows| == |s.tallies| && Told(s)
    ensures Validated(c, s).tallies == s.tallies && Told(Validated(c, s))
  {
    hide Told, Violate, Unbalanced;
    ViolateTells(s, RequiredRegisterMissingAtExit);
    var a := ViolateIf(s, !s.ready, RequiredRegisterMissingAtExit);
    ViolateTells(a, MissingStart);
    var b := ViolateIf(a, !s.startSeen, MissingStart);
    ViolateTells(b, MissingStop);
    var d := ViolateIf(b, !s.stopSeen, MissingStop);
    ViolateTells(d, CanonicalizationConservationFailed);
    var e := ViolateIf(d, Unbalanced(d), CanonicalizationConservationFailed);
    ViolateTells(e, CountCaptureTotalMismatch);
    TalliesStay(s, !s.ready, RequiredRegisterMissingAtExit);
    TalliesStay(a, !s.startSeen, MissingStart);
    TalliesStay(b, !s.stopSeen, MissingStop);
    TalliesStay(d, Unbalanced(d), CanonicalizationConservationFailed);
    if c.mode.Capture? {
      var mismatch := c.expectedTotal.None? || e.seen != c.expectedTotal.value;
      TalliesStay(e, mismatch, CountCaptureTotalMismatch);
      WindowsTell(c, ViolateIf(e, mismatch, CountCaptureTotalMismatch), |c.windows|);
    }
  }

  /**
   Every file tells its troubles line by line: its summary counts the violation lines, repeats the
   first of them, counts those about registers that could not be read, and reports PASS exactly
   when there are none.
   */
  lemma ViolationsAreWritten(c: Config, run: seq<Callback>) returns (n: nat)
    ensures var file := Stream(c, After(c, run));
      && n < |file| && file[n].SummaryLine?
      && var codes, t := CodesIn(file), file[n].summary;
         && t.violations == |codes| && (t.pass <==> codes == [])
         && t.first == (if codes == [] then None else Some(codes[0]))
         && t.readFailures == ReadFailuresIn(codes)
  {
    var s := After(c, run);
    hide After, Validated, CodesIn;
    RunTells(c, run);
    ExitTells(c, s);
    var end := Validated(c, s);
    n := |end.output|;
    var tail := [SummaryLine(SummaryOf(c, end))] + WindowSummaries(c, end);
    assert Stream(c, s) == end.output + tail;
    CodesConcat(end.output, tail);
    NoCodes(tail);
    assert CodesIn(end.output) + [] == CodesIn(end.output);
  }

  /** The lines written since, where every violation carries this total. */
  ghost predicate Writes(s: State, t: State, total: nat) {
    && s.output <= t.output
    && forall i :: |s.output| <= i < |t.output| && t.output[i].Violation? ==> t.output[i].total == total
  }

  lemma ViolateWrites(s: State, t: State, code: Code, total: nat)
    requires Writes(s, t, total) && t.seen == total
    ensures Writes(s, Violate(t, code), total)
    ensures Violate(t, code).seen == t.seen && Violate(t, code).tallies == t.tallies
  {
  }

  lemma LinesWrite(s: State, t: State, lines: seq<Record>, total: nat)
    requires t.output == s.output + lines && forall i :: 0 <= i < |lines| ==> !lines[i].Violation?
    ensures Writes(s, t, total)
  {
    assert forall i :: |s.output| <= i < |t.output| ==> t.output[i] == lines[i - |s.output|];
  }

  /** Every refusal of a callback writes one line. */
  lemma RefusalsWrite(s: State)
    ensures forall code :: Writes(s, Violate(s, code), s.seen)
    ensures var failed := s.(readFailures := s.readFailures + 1);
            forall code :: Writes(s, Violate(failed, code), s.seen)
  {
  }

  lemma MarkerWrites(c: Config, s: State, cb: Callback)
    requires cb.Marker?
    ensures Writes(s, OnMarker(c, s, cb), s.seen)
  {
    hide Writes, Violate, BareSatp;
    RefusalsWrite(s);
    var t := OnMarker(c, s, cb);
    if cb.args.Some? && cb.context.Some? {
      var (_, _, _, _, pid, tid) := cb.args.value;
      var (priv, satp) := cb.context.value;
      var id := Identity(c.nonce, c.command, satp, pid, tid, 0, priv);
      if t.output == s.output + [RoiStart(id)] {
        LinesWrite(s, t, [RoiStart(id)], s.seen);
      }
      if t.output == s.output + [RoiStop(id, s.seen)] {
        LinesWrite(s, t, [RoiStop(id, s.seen)], s.seen);
      }
    }
  }

  lemma MemoryWrites(c: Config, s: State, cb: Callback)
    requires cb.Memory?
    ensures Writes(s, OnMemory(c, s, cb), s.seen)
  {
    hide Writes, Violate, Judge, EventOf, WindowFrom, Tallied;
    RefusalsWrite(s);
    LinesWrite(s, s, [], s.seen);
    var t := OnMemory(c, s, cb);
    if t.output == s.output {
      LinesWrite(s, t, [], s.seen);
    } else if s.tracing && Judge(s, cb).Attributed? {
      AttributedWrites(c, s, cb);
    }
  }

  lemma AttributedWrites(c: Config, s: State, cb: Callback)
    requires cb.Memory? && s.tracing && Judge(s, cb).Attributed?
    ensures Writes(s, OnMemory(c, s, cb), s.seen)
  {
    hide Writes, Violate, Judge, EventOf, WindowFrom, Tallied;
    var t := OnMemory(c, s, cb);
    LinesWrite(s, t, t.output[|s.output|..], s.seen);
  }

  lemma CallbackWrites(c: Config, s: State, cb: Callback)
    ensures Writes(s, OnCallback(c, s, cb), s.seen)
  {
    hide Writes, Violate, OnMarker, OnMemory;
    match cb {
      case VcpuInit(vcpu, found) =>
        RefusalsWrite(s);
        LinesWrite(s, s.(ready := false), [], s.seen);
        ViolateWrites(s, s.(ready := false), RequiredRegisterMissing, s.seen);
        LinesWrite(s, s.(ready := true, output := s.output + [Registers]), [Registers], s.seen);
      case Memory(_, _, _, _, _, _, _, _) => MemoryWrites(c, s, cb);
      case Marker(_, _, _) => MarkerWrites(c, s, cb);
    }
  }

  lemma CheckWrites(s: State, t: State, condition: bool, code: Code, total: nat)
    requires Writes(s, t, total) && t.seen == total
    ensures var u := ViolateIf(t, condition, code); Writes(s, u, total) && u.seen == total && u.tallies == t.tallies
  {
    ViolateWrites(s, t, code, total);
  }

  lemma {:induction false} WindowsWrite(c: Config, s: State, t: State, i: nat, total: nat)
    requires i <= |c.windows| == |t.tallies| && Writes(s, t, total) && t.seen == total
    ensures var u := CheckWindows(c, t, i); Writes(s, u, total) && u.seen == total
  {
    hide Writes, ViolateIf, WindowUnbalanced;
    if i > 0 {
      WindowsWrite(c, s, t, i - 1, total);
      var u := CheckWindows(c, t, i - 1);
      var tally := t.tallies[i - 1];
      CheckWrites(s, u, tally.captured != c.windows[i - 1].count, CaptureWindowIncomplete, total);
      CheckWrites(s, ViolateIf(u, tally.captured != c.windows[i - 1].count, CaptureWindowIncomplete),
                  WindowUnbalanced(tally), WindowCanonicalizationFailed, total);
    }
  }

  lemma ExitWrites(c: Config, s: State)
    requires |c.windows| == |s.tallies|
    ensures Writes(s, Validated(c, s), s.seen)
  {
    hide Writes, ViolateIf, Unbalanced, CheckWindows;
    LinesWrite(s, s, [], s.seen);
    CheckWrites(s, s, !s.ready, RequiredRegisterMissingAtExit, s.seen);
    var a := ViolateIf(s, !s.ready, RequiredRegisterMissingAtExit);
    CheckWrites(s, a, !s.startSeen, MissingStart, s.seen);
    var b := ViolateIf(a, !s.startSeen, MissingStart);
    CheckWrites(s, b, !s.stopSeen, MissingStop, s.seen);
    var d := ViolateIf(b, !s.stopSeen, MissingStop);
    CheckWrites(s, d, Unbalanced(d), CanonicalizationConservationFailed, s.seen);
    var e := ViolateIf(d, Unbalanced(d), CanonicalizationConservationFailed);
    if c.mode.Capture? {
      var mismatch := c.expectedTotal.None? || e.seen != c.expectedTotal.value;
      CheckWrites(s, e, mismatch, CountCaptureTotalMismatch, s.seen);
      WindowsWrite(c, s, ViolateIf(e, mismatch, CountCaptureTotalMismatch), |c.windows|, s.seen);
    }
  }

  /** A violation line carries the number of events attributed before the callback, or before the exit. */
  lemma ViolationsCarryTotals(c: Config, run: seq<Callback>, cb: Callback)
    requires c.Installed()
    ensures Writes(After(c, run), After(c, run + [cb]), |Events(c, run)|)
    ensures Writes(After(c, run), Validated(c, After(c, run)), |Events(c, run)|)
  {
    hide Sound, Writes, OnCallback, Validated;
    assert (run + [cb])[..|run|] == run;
    RunIsSound(c, run);
    EventsCounted(c, After(c, run), Events(c, run));
    CallbackWrites(c, After(c, run), cb);
    ExitWrites(c, After(c, run));
  }
}
