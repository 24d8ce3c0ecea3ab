/** The one-entry next-line candidate generator (src/l1d_next_line_prefetch.sv). */
module NextLine {
  import opened Counting
  import opened Geometries

  /** The three registers of the generator. */
  datatype Register = Register(pending: bool, addr: Address, dropped: bool)

  const RESET := Register(false, 0, false)

  datatype Input = Input(enable: bool, fill: bool, fillAddr: Address, ready: bool)

  function Successor(g: Geometry, a: nat): (next: Address)
    requires g.Positive()
  {
    (g.LineAddr(a) + g.lineBytes) % ADDRESS_SPACE
  }

  /** One clock edge; later assignments in the always_ff block win. */
  function Clock(g: Geometry, r: Register, i: Input): Register
    requires g.Positive()
  {
    var pending := if !i.enable then false else if r.pending && i.ready then false else r.pending;
    if i.fill && i.enable then
      if r.pending && !i.ready then Register(pending, r.addr, true)
      else Register(true, Successor(g, i.fillAddr), false)
    else
      Register(pending, r.addr, false)
  }

  /** The generator as the clocked object instantiated by the cache. */
  class Generator {
    const g: Geometry
    var pending: bool
    var pendingAddr: Address
    var dropped: bool

    ghost function View(): Register
      reads this
    {
      Register(pending, pendingAddr, dropped)
    }

    constructor (g: Geometry)
      ensures this.g == g && View() == RESET
    {
      this.g := g;
      pending, pendingAddr, dropped := false, 0, false;
    }

    method Edge(i: Input)
      requires g.Positive()
      modifies this
      ensures View() == Clock(g, old(View()), i)
    {
      var wasPending := pending;
      dropped := false;
      if !i.enable {
        pending := false;
      } else if wasPending && i.ready {
        pending := false;
      }
      if i.fill && i.enable {
        if wasPending && !i.ready {
          dropped := true;
        } else {
          pending := true;
          pendingAddr := (g.LineAddr(i.fillAddr) + g.lineBytes) % ADDRESS_SPACE;
        }
      }
    }
  }

  // ------------------------------------------------------------- accounting over a run

  function After(g: Geometry, run: seq<Input>): Register
    requires g.Positive()
  {
    if run == [] then RESET else Clock(g, After(g, run[..|run| - 1]), run[|run| - 1])
  }

  /** What the outside of the generator has counted during a run. */
  datatype Tally = Tally(fills: nat, drops: nat, accepted: nat, cancelled: nat)

  /** A candidate taken in the cycle that disables the generator counts as accepted only. */
  function Counted(t: Tally, r: Register, i: Input): Tally {
    Tally(
      t.fills + Bit(i.fill && i.enable),
      t.drops + Bit(i.fill && i.enable && r.pending && !i.ready),
      t.accepted + Bit(r.pending && i.ready),
      t.cancelled + Bit(r.pending && !i.ready && !i.enable))
  }

  function TallyOf(g: Geometry, run: seq<Input>): Tally
    requires g.Positive()
  {
    if run == [] then Tally(0, 0, 0, 0)
    else Counted(TallyOf(g, run[..|run| - 1]), After(g, run[..|run| - 1]), run[|run| - 1])
  }

  /**
   Every enabled demand fill is dropped, accepted, cancelled by a disable, or still pending,
   and the `dropped` register shows exactly the drop of the previous cycle.
   */
  lemma {:induction false} FillsAreConserved(g: Geometry, run: seq<Input>)
    requires g.Positive()
    ensures var t, r := TallyOf(g, run), After(g, run);
            t.fills == t.drops + t.accepted + t.cancelled + Bit(r.pending)
    ensures run != [] ==>
              var k := |run| - 1;
              After(g, run).dropped <==> TallyOf(g, run).drops == TallyOf(g, run[..k]).drops + 1
  {
    if run != [] {
      FillsAreConserved(g, run[..|run| - 1]);
    }
  }

  /**
   Fill k made the candidate on offer: the register was free for it, or was just being emptied,
   and nothing has taken or cancelled the candidate since.
   */
  ghost predicate MadeFrom(g: Geometry, run: seq<Input>, k: nat)
    requires g.Positive()
  {
    && k < |run| && run[k].fill && run[k].enable
    && (After(g, run[..k]).pending ==> run[k].ready)
    && forall j :: k < j < |run| ==> run[j].enable && !run[j].ready
  }

  /** An edge either makes a new candidate, or keeps or drops the old one. */
  lemma Edges(g: Geometry, r: Register, i: Input)
    requires g.Valid()
    ensures var r' := Clock(g, r, i);
            if i.fill && i.enable && (r.pending ==> i.ready)
            then r'.pending && g.Follows(r'.addr, i.fillAddr)
            else r'.addr == r.addr && (r'.pending <==> r.pending && i.enable && !i.ready)
  {
    g.NextLineFollows(i.fillAddr);
    hide Geometry.Follows;
  }

  lemma MadeExtends(g: Geometry, run: seq<Input>, i: Input)
    requires g.Positive()
    ensures After(g, run + [i]) == Clock(g, After(g, run), i)
    ensures forall k: nat ::
              MadeFrom(g, run + [i], k) <==>
                if k == |run| then i.fill && i.enable && (After(g, run).pending ==> i.ready)
                else MadeFrom(g, run, k) && i.enable && !i.ready
  {
    hide Clock;
    var more := run + [i];
    assert more[..|run|] == run && more[|run|] == i;
    forall k: nat | k < |run|
      ensures MadeFrom(g, more, k) <==> MadeFrom(g, run, k) && i.enable && !i.ready
    {
      assert more[..k] == run[..k];
      assert forall j :: 0 <= j < |run| ==> more[j] == run[j];
    }
  }

  lemma MadeInside(g: Geometry, run: seq<Input>)
    requires g.Positive()
    ensures forall k: nat :: MadeFrom(g, run, k) ==> k < |run|
  {
  }

  /**
   There is a candidate on offer exactly when some enabled fill found the register free and
   nothing has taken or cancelled the candidate since; it is the line after that fill's line.
   */
  lemma {:induction false} CandidateIsNextLine(g: Geometry, run: seq<Input>)
    requires g.Valid()
    ensures After(g, run).pending <==> exists k: nat :: MadeFrom(g, run, k)
    ensures forall k: nat | k < |run| && MadeFrom(g, run, k) :: g.Follows(After(g, run).addr, run[k].fillAddr)
  {
    if run != [] {
      hide After, Clock, MadeFrom, Geometry.Follows;
      var before, i := run[..|run| - 1], run[|run| - 1];
      assert run == before + [i];
      CandidateIsNextLine(g, before);
      MadeInside(g, before);
      MadeExtends(g, before, i);
      Edges(g, After(g, before), i);
      if i.fill && i.enable && (After(g, before).pending ==> i.ready) {
        assert MadeFrom(g, run, |before|);
      } else if After(g, run).pending {
        var k: nat :| MadeFrom(g, before, k);
        assert MadeFrom(g, run, k);
      }
      assert forall k :: 0 <= k < |before| ==> before[k] == run[k];
    }
  }
}
