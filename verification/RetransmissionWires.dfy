// Which wires the retry loop has pushed: over every run, the wires it handed to senders
// and those still waiting in the pass under way are exactly each call's own wire, as
// often as that call's residency was pushed.
module RetransmissionWires {
  import opened Retransmission
  import opened RetransmissionProofs
  import opened RetransmissionTheorems

  function WaitingWires(loop: Loop): seq<seq<bv8>> {
    match loop
    case Iterating(_, wires, _) => wires
    case Sending(wires, _) => wires
    case _ => []
  }

  /** Each call's wire, once per push. */
  function PushedWires(calls: seq<Call>): multiset<seq<bv8>> {
    if calls == [] then multiset{}
    else
      var last := calls[|calls| - 1];
      PushedWires(calls[..|calls| - 1]) + multiset{}[last.data.wire := last.pushes]
  }

  ghost predicate WiresOk(s: State) {
    multiset(s.sent + WaitingWires(s.loop)) == PushedWires(s.calls)
  }

  lemma {:induction false} PushedWiresAppend(calls: seq<Call>, c: Call)
    ensures PushedWires(calls + [c]) == PushedWires(calls) + multiset{}[c.data.wire := c.pushes]
  {
    assert (calls + [c])[..|calls|] == calls;
  }

  lemma {:induction false} PushedWiresUpdate(calls: seq<Call>, i: nat, c: Call, more: nat)
    requires i < |calls| && c.data.wire == calls[i].data.wire && c.pushes == calls[i].pushes + more
    ensures PushedWires(calls[i := c]) == PushedWires(calls) + multiset{}[c.data.wire := more]
  {
    var n := |calls| - 1;
    if i == n {
      assert calls[i := c][..n] == calls[..n];
    } else {
      assert calls[i := c][..n] == calls[..n][i := c];
      PushedWiresUpdate(calls[..n], i, c, more);
    }
  }

  lemma WiresElsewhere(cfg: Config, s: State, e: Event)
    requires Enabled(cfg, s, e) && !e.Visit?
    ensures Apply(cfg, s, e).sent + WaitingWires(Apply(cfg, s, e).loop) == s.sent + WaitingWires(s.loop)
  {
  }

  lemma CallKeepsWire(cfg: Config, s: State, e: Event)
    requires Enabled(cfg, s, e) && OfCall(e)
    ensures e.call < |s.calls|
    ensures Apply(cfg, s, e).calls == s.calls[e.call := Apply(cfg, s, e).calls[e.call]]
    ensures Apply(cfg, s, e).calls[e.call].data == s.calls[e.call].data
    ensures Apply(cfg, s, e).calls[e.call].pushes == s.calls[e.call].pushes
  {
  }

  lemma VisitPushes(cfg: Config, s: State, key: string)
    requires Enabled(cfg, s, Visit(key)) && EntryOk(s.calls, key, s.store[key])
    ensures var t, owner, wire := Apply(cfg, s, Visit(key)), s.store[key].owner, s.store[key].data.wire;
      && s.calls[owner].data.wire == wire
      && t.calls == s.calls[owner := s.calls[owner].(pushes := s.calls[owner].pushes + 1)]
      && t.sent == s.sent && WaitingWires(t.loop) == s.loop.wires + [wire]
  {
  }

  lemma {:induction false} VisitKeepsWires(cfg: Config, s: State, key: string)
    requires Enabled(cfg, s, Visit(key)) && EntryOk(s.calls, key, s.store[key]) && WiresOk(s)
    ensures WiresOk(Apply(cfg, s, Visit(key)))
  {
    var t, owner, wire := Apply(cfg, s, Visit(key)), s.store[key].owner, s.store[key].data.wire;
    VisitPushes(cfg, s, key);
    PushedWiresUpdate(s.calls, owner, t.calls[owner], 1);
    assert t.sent + WaitingWires(t.loop) == s.sent + s.loop.wires + [wire];
  }

  lemma {:induction false} CallsPushSame(cfg: Config, s: State, e: Event)
    requires Enabled(cfg, s, e) && !e.Visit?
    ensures PushedWires(Apply(cfg, s, e).calls) == PushedWires(s.calls)
  {
    var calls := Apply(cfg, s, e).calls;
    if OfCall(e) {
      CallKeepsWire(cfg, s, e);
      PushedWiresUpdate(s.calls, e.call, calls[e.call], 0);
    } else {
      OtherCalls(cfg, s, e);
      if e.Arrive? {
        assert calls == s.calls + [calls[|s.calls|]];
        PushedWiresAppend(s.calls, calls[|s.calls|]);
      }
    }
  }

  lemma {:induction false} WiresStep(cfg: Config, s: State, e: Event)
    requires Shape(cfg, s) && Enabled(cfg, s, e) && WiresOk(s)
    ensures WiresOk(Apply(cfg, s, e))
  {
    if e.Visit? {
      VisitKeepsWires(cfg, s, e.key);
    } else {
      WiresElsewhere(cfg, s, e);
      CallsPushSame(cfg, s, e);
    }
  }

  /** In every reachable state, disturbed or not: nothing but stored transactions' own
      wires is ever pushed, each exactly as often as its residency was visited. */
  lemma {:induction false} SentWiresArePushes(cfg: Config, r: Run)
    requires Legal(cfg, r)
    ensures WiresOk(Final(cfg, r))
  {
    if r.Then? {
      SentWiresArePushes(cfg, r.before);
      InvariantHolds(cfg, r.before);
      WiresStep(cfg, Final(cfg, r.before), r.event);
    }
  }
}
