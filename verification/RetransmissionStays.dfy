// When a stored stay can be lost to another call. Removal is by signature and the
// store's test and insert are separate, so a stay may be removed by another call's
// confirm task or overwritten by another call's insert. Both have an exact condition on
// the present state.
module RetransmissionStays {
  import opened Traces
  import opened Retransmission
  import opened RetransmissionProofs
  import opened RetransmissionTheorems
  import opened RetransmissionProgress

  /** The stay of `key` that call `owner` began is stored. */
  ghost predicate Stay(s: State, key: string, owner: nat) {
    key in s.store && s.store[key].owner == owner
  }

  /** The stay is stored from one run up to another. */
  ghost predicate Held(cfg: Config, later: Run, from: Run, key: string, owner: nat)
    requires Legal(cfg, later)
  {
    && Stay(Final(cfg, later), key, owner)
    && (later == from || (later.Then? && Held(cfg, later.before, from, key, owner)))
  }

  // ---- Lost to another call ----

  /** How another call ends a stay: by its confirm task or by inserting over it. */
  datatype Way = Evict | Overwrite

  predicate Takes(e: Event, owner: nat, way: Way) {
    match way
    case Evict => e.EndConfirm? && e.call != owner
    case Overwrite => e.Insert? && e.call != owner
  }

  /** A call that has found its signature missing will insert; one that is past the
      duplicate gate without being about to insert will run a confirm task, or does. */
  predicate Threatens(c: Call, way: Way) {
    match way
    case Evict => c.stage in {AtTest, AtSpawn} || c.confirm == Running
    case Overwrite => c.stage == AtInsert
  }

  ghost predicate RivalAt(s: State, key: string, owner: nat, way: Way, c: nat) {
    c < |s.calls| && c != owner && HasKey(s, c) && KeyOf(s, c) == key && Threatens(s.calls[c], way)
  }

  /** Another call of the signature is at the stage from which it takes stays this way. */
  ghost predicate Rivalled(s: State, key: string, owner: nat, way: Way) {
    exists c: nat :: RivalAt(s, key, owner, way, c)
  }

  /** The last step of `later` ends the stay this way. */
  ghost predicate LostTo(cfg: Config, later: Run, from: Run, key: string, owner: nat, way: Way) {
    && Legal(cfg, later) && later.Then?
    && Held(cfg, later.before, from, key, owner)
    && Takes(later.event, owner, way) && !Stay(Final(cfg, later), key, owner)
  }

  lemma RivalsOfHandlers(cfg: Config, s: State, e: Event, key: string, owner: nat, way: Way, c: nat)
    requires Enabled(cfg, s, e) && OfCall(e) && Stay(s, key, owner) && Stay(Apply(cfg, s, e), key, owner)
    requires forall i :: 0 <= i < |s.calls| ==> CallOk(cfg, s.calls[i])
    requires RivalAt(Apply(cfg, s, e), key, owner, way, c)
    ensures RivalAt(s, key, owner, way, c)
  {
  }

  lemma RivalsElsewhere(cfg: Config, s: State, e: Event, key: string, owner: nat, way: Way, c: nat)
    requires Enabled(cfg, s, e) && !OfCall(e) && RivalAt(Apply(cfg, s, e), key, owner, way, c)
    ensures RivalAt(s, key, owner, way, c)
  {
    if !e.Visit? {
      OtherCalls(cfg, s, e);
    }
  }

  /** While a stay lasts, no call newly comes to threaten it. */
  lemma NoNewRivals(cfg: Config, s: State, e: Event, key: string, owner: nat, way: Way)
    requires Shape(cfg, s) && Enabled(cfg, s, e)
    requires Stay(s, key, owner) && Stay(Apply(cfg, s, e), key, owner)
    ensures Rivalled(Apply(cfg, s, e), key, owner, way) ==> Rivalled(s, key, owner, way)
  {
    var t := Apply(cfg, s, e);
    if Rivalled(t, key, owner, way) {
      var c: nat :| RivalAt(t, key, owner, way, c);
      if OfCall(e) {
        RivalsOfHandlers(cfg, s, e, key, owner, way, c);
      } else {
        RivalsElsewhere(cfg, s, e, key, owner, way, c);
      }
    }
  }

  /** Only a threatening call takes a stay. */
  lemma OnlyRivalsTake(cfg: Config, s: State, e: Event, key: string, owner: nat, way: Way)
    requires Enabled(cfg, s, e) && Takes(e, owner, way)
    requires Stay(s, key, owner) && !Stay(Apply(cfg, s, e), key, owner)
    ensures Rivalled(s, key, owner, way)
  {
    assert RivalAt(s, key, owner, way, e.call);
  }

  lemma {:induction false} RivalsPersist(cfg: Config, later: Run, from: Run, key: string, owner: nat, way: Way)
    requires Legal(cfg, from) && Legal(cfg, later) && Held(cfg, later, from, key, owner)
    requires Rivalled(Final(cfg, later), key, owner, way)
    ensures Rivalled(Final(cfg, from), key, owner, way)
  {
    if later != from {
      InvariantHolds(cfg, later.before);
      NoNewRivals(cfg, Final(cfg, later.before), later.event, key, owner, way);
      RivalsPersist(cfg, later.before, from, key, owner, way);
    }
  }

  /** A stay without rivals stays, however the run goes on, until its own call's confirm
      task or the loop ends it. */
  lemma {:induction false} NoRivalNoLoss(cfg: Config, later: Run, from: Run, key: string, owner: nat, way: Way)
    requires Legal(cfg, from) && LostTo(cfg, later, from, key, owner, way)
    ensures Rivalled(Final(cfg, from), key, owner, way)
  {
    OnlyRivalsTake(cfg, Final(cfg, later.before), later.event, key, owner, way);
    RivalsPersist(cfg, later.before, from, key, owner, way);
  }

  /** One step of a call that leaves the store alone. */
  lemma {:induction false} HoldOn(cfg: Config, r: Run, from: Run, s: State, e: Event, key: string, owner: nat)
    returns (q: Run, t: State)
    requires Legal(cfg, r) && Final(cfg, r) == s && Held(cfg, r, from, key, owner)
    requires Enabled(cfg, s, e) && (e.TestStored? || e.SpawnConfirm?)
    ensures q == Then(r, e) && Legal(cfg, q) && t == Final(cfg, q) == Apply(cfg, s, e)
    ensures t.store == s.store && Held(cfg, q, from, key, owner)
  {
    q, t := Extend(cfg, r, s, e);
  }

  lemma RivalTakes(cfg: Config, s: State, key: string, owner: nat, c: nat, e: Event)
    requires Stay(s, key, owner) && c < |s.calls| && c != owner && HasKey(s, c) && KeyOf(s, c) == key
    requires Enabled(cfg, s, e) && (e == EndConfirm(c) || e == Insert(c))
    ensures !Stay(Apply(cfg, s, e), key, owner)
  {
  }

  /** A call at its confirm task, or two steps before it, can evict the stay. */
  lemma {:induction false} EvictNow(cfg: Config, r: Run, from: Run, s: State, key: string, owner: nat, c: nat)
    returns (q: Run)
    requires Legal(cfg, r) && Final(cfg, r) == s && Held(cfg, r, from, key, owner)
    requires c < |s.calls| && c != owner && HasKey(s, c) && KeyOf(s, c) == key
    requires s.calls[c].stage == AtSpawn || s.calls[c].confirm == Running
    ensures LostTo(cfg, q, from, key, owner, Evict)
  {
    var p, t := r, s;
    if s.calls[c].confirm != Running {
      p, t := HoldOn(cfg, p, from, t, SpawnConfirm(c), key, owner);
    }
    RivalTakes(cfg, t, key, owner, c, EndConfirm(c));
    q, t := Extend(cfg, p, t, EndConfirm(c));
  }

  /** From a threat to a loss: at most three steps. */
  lemma {:induction false} EvictSoon(cfg: Config, r: Run, s: State, key: string, owner: nat, c: nat) returns (q: Run)
    requires Legal(cfg, r) && Final(cfg, r) == s && Stay(s, key, owner) && RivalAt(s, key, owner, Evict, c)
    ensures LostTo(cfg, q, r, key, owner, Evict)
  {
    var p, t := r, s;
    if s.calls[c].stage == AtTest {
      p, t := HoldOn(cfg, r, r, s, TestStored(c), key, owner);
    }
    q := EvictNow(cfg, p, r, t, key, owner, c);
  }

  lemma {:induction false} OverwriteNow(cfg: Config, r: Run, s: State, key: string, owner: nat, c: nat) returns (q: Run)
    requires Legal(cfg, r) && Final(cfg, r) == s && Stay(s, key, owner) && RivalAt(s, key, owner, Overwrite, c)
    ensures LostTo(cfg, q, r, key, owner, Overwrite)
  {
    RivalTakes(cfg, s, key, owner, c, Insert(c));
    var t;
    q, t := Extend(cfg, r, s, Insert(c));
  }

  lemma {:induction false} RivalCanTake(cfg: Config, r: Run, key: string, owner: nat, way: Way) returns (q: Run)
    requires Legal(cfg, r) && Stay(Final(cfg, r), key, owner) && Rivalled(Final(cfg, r), key, owner, way)
    ensures LostTo(cfg, q, r, key, owner, way)
  {
    var s := Final(cfg, r);
    var c: nat :| RivalAt(s, key, owner, way, c);
    match way
    case Evict => q := EvictSoon(cfg, r, s, key, owner, c);
    case Overwrite => q := OverwriteNow(cfg, r, s, key, owner, c);
  }

  ghost predicate CanBeLost(cfg: Config, r: Run, key: string, owner: nat, way: Way) {
    exists later :: LostTo(cfg, later, r, key, owner, way)
  }

  /** In every reachable state, over all continuations: a stored stay can be removed by
      another call's confirm task iff another call of its signature has passed the gate
      and is about to test or to spawn, or has its confirm task running. It can be
      overwritten iff another call of its signature is about to insert. */
  lemma {:induction false} LostIffRivalled(cfg: Config, r: Run, key: string, owner: nat, way: Way)
    requires Legal(cfg, r) && Stay(Final(cfg, r), key, owner)
    ensures CanBeLost(cfg, r, key, owner, way) <==> Rivalled(Final(cfg, r), key, owner, way)
  {
    if CanBeLost(cfg, r, key, owner, way) {
      var later :| LostTo(cfg, later, r, key, owner, way);
      NoRivalNoLoss(cfg, later, r, key, owner, way);
    }
    if Rivalled(Final(cfg, r), key, owner, way) {
      var q := RivalCanTake(cfg, r, key, owner, way);
    }
  }
}
