/** When nothing is lost, a connection with nothing in flight has delivered everything. */
module TcpQuiescence {
  import opened Bytes
  import opened SeqArith
  import opened Segment
  import opened TcpMachine
  import opened TcpNetwork
  import opened TcpInvariant
  import opened TcpRuns
  import opened TcpRefine
  import opened TcpSimulation
  import opened TcpLossFree
  import opened TcpTheorems

  /** Nothing is lost, closed or aborted by any action of the run: the network may still
      delay, reorder and duplicate, and timers may still retransmit. */
  predicate LossFree(c: Config, acts: seq<Action>) {
    forall k :: 0 <= k < |acts| ==> CalmIn(Reach(c, acts[..k]), acts[k])
  }

  predicate CalmIn(s: Sys, act: Action) { Calm(s.From(act.side).a, s.From(act.side).ba, act) }

  ghost predicate QuietSys(s: Sys) { QuietFor(s.a, s.b, s.ab, s.ba) }

  lemma QuietSysFlip(s: Sys)
    requires QuietSys(s)
    ensures QuietSys(s.Flip())
  {
    FlipInv(s);
    hide Inv, Supplied, OneBlock;
  }

  lemma StepQuiet(s: Sys, act: Action)
    requires QuietSys(s) && CalmIn(s, act)
    ensures QuietSys(Step(Unbounded, s, act))
  {
    if act.side == A {
      ActQuiet(s.a, s.b, s.ab, s.ba, act);
    } else {
      QuietSysFlip(s);
      ActQuiet(s.b, s.a, s.ba, s.ab, act);
      QuietSysFlip(ActA(Unbounded, s.Flip(), act));
    }
    hide Act, QuietFor, Calm;
  }

  /** The unbounded action behind a calm action is calm. */
  lemma LiftCalm(s: Sys, act: Action)
    requires CalmIn(WrapSys(s), act)
    ensures CalmIn(s, LiftSys(s, act))
  {
  }

  lemma {:induction false} BehindQuiet(c: Config, acts: seq<Action>)
    requires SmallSys(Reach(c, acts)) && LossFree(c, acts)
    ensures QuietSys(Behind(c, acts))
  {
    if acts == [] {
      StartInv(c);
    } else {
      var init, last := acts[..|acts| - 1], acts[|acts| - 1];
      StepWritten(Mod32, Reach(c, init), last);
      assert forall k :: 0 <= k < |init| ==> init[..k] == acts[..k];
      BehindQuiet(c, init);
      Refines(c, init);
      assert LiftRun(c, acts)[..|acts| - 1] == LiftRun(c, init);
      LiftCalm(Behind(c, init), last);
      StepQuiet(Behind(c, init), LiftSys(Behind(c, init), last));
      hide *;
    }
  }

  /** Opened on both sides, and not by two listeners waiting for each other. */
  predicate Opened(s: Sys) {
    s.a.started && s.b.started && !(s.a.tcb.state == LISTEN && s.b.tcb.state == LISTEN)
  }

  predicate NothingInFlight(s: Sys) { s.ab.flight == [] && s.ba.flight == [] }

  /** This side is up, and everything it wrote has reached its peer and is known to have. */
  predicate Done(x: Node, y: Node) {
    x.tcb.state == ESTABLISHED && x.tcb.sendBuf == [] && !x.tcb.haveUnacked && y.Received() == x.written
  }

  /** Every loss-free run that has gone quiet has delivered everything, both ways.  This is
      about segments, for any advertised MSS; above 65495 some of them fit no IPv4
      packet and packing them raises (TcpOversize). */
  lemma Quiescence(c: Config, acts: seq<Action>)
    requires SmallSys(Reach(c, acts)) && LossFree(c, acts)
    requires var s := Reach(c, acts); Opened(s) && NothingInFlight(s)
    ensures var s := Reach(c, acts); Done(s.a, s.b) && Done(s.b, s.a)
  {
    Refines(c, acts);
    BehindQuiet(c, acts);
    var u := Behind(c, acts);
    WrapBuffers(u.a);
    WrapBuffers(u.b);
    QuietSysFlip(u);
    hide WrapTcb;
    QuietDone(u);
    QuietDone(u.Flip());
  }

  lemma QuietDone(u: Sys)
    requires QuietSys(u) && Opened(u) && NothingInFlight(u)
    ensures Done(u.a, u.b)
  {
    NobodyWaits(u);
    assert StreamOk(u.a, u.b);
    QuietForQuiet(u.a, u.b, u.ab, u.ba);
    hide OneBlock;
  }

  lemma NobodyWaits(u: Sys)
    requires QuietSys(u) && Opened(u) && NothingInFlight(u)
    ensures u.a.tcb.state == ESTABLISHED && !u.a.tcb.haveUnacked
    ensures u.b.tcb.state == ESTABLISHED
  {
    QuietForQuiet(u.a, u.b, u.ab, u.ba);
    QuietFlip(u.a, u.b, u.ab.sent, u.ba.sent, u.ab.flight, u.ba.flight);
    PeerOfSynSent(u.a, u.b, u.ab.sent, u.ba.sent, u.ab.flight, u.ba.flight);
    PeerOfSynSent(u.b, u.a, u.ba.sent, u.ab.sent, u.ba.flight, u.ab.flight);
    hide OneBlock, Half;
  }
}
