/** When the panel has settled, every user's block state is the one his row calls for. */
module Quiescence {
  import opened Wrappers
  import opened IPv4
  import opened Peers
  import opened Enforcement
  import opened Reset
  import opened Machine
  import opened Conservation
  import opened Stability

  // ---- the invariant ----

  predicate Ticking(k: Lock) {
    k.TickBegun? || k.TickWG? || k.TickOV? || k.TickLoop?
  }

  /** Every written row has a handler whose own pass will still take its snapshot. */
  predicate Covered(s: State) {
    && (forall i :: i in s.touched ==>
          exists pid :: pid in s.waiting && s.waiting[pid] == i && !(s.lock.TickLoop? && s.lock.who == Some(pid)))
    && (Ticking(s.lock) && s.lock.who.Some? ==> s.lock.who.value in s.waiting)
    && ((s.lock.ResetBegun? || s.lock.ResetSampled?) ==> s.lock.pid !in s.waiting)
  }

  predicate ClocksRight(s: State) {
    && (s.lastTick.Some? ==> s.lastTick.value <= s.clock)
    && (s.lock.TickOV? || s.lock.TickLoop? ==> s.lock.now <= s.clock)
  }

  predicate FlagsRight(s: State) {
    s.lastTick.Some? && !s.lock.TickLoop? ==>
      forall i :: 0 <= i < |s.rows| && i !in s.touched ==>
        s.rows[i].blocked == EffectiveBlocked(s.rows[i], s.lastTick.value)
  }

  function Done(s: State): seq<Peer>
    requires s.lock.TickLoop?
  {
    TickRows(s.lock.snap, s.lock.tr, s.lock.ov, s.lock.now)
  }

  /**
   * The block set has the blocked users' addresses, without those attached since the last snapshot and with
   * those left behind by users deleted since.
   */
  predicate SetRight(s: State) {
    && (s.lock.TickLoop? ==> s.lock.next <= |s.lock.snap| &&
                             s.ipset * Claimed(Done(s)[..s.lock.next]) == LastClaim(Done(s)[..s.lock.next]))
    && (!s.lock.TickLoop? && s.lastTick.Some? ==> s.ipset == (BlockedIPs(s.rows) - s.late) + s.stuck)
  }

  /** The pass under way finds the user blocked who stood here at its snapshot and is gone. */
  predicate GoneBlocked(s: State, i: nat)
    requires s.lock.TickLoop? && i < |s.rows| == |s.lock.snap|
  {
    Vacant(s.rows[i]) && TickRow(s.lock.snap[i], s.lock.tr, s.lock.ov, s.lock.now).blocked
  }

  /**
   * What the pass under way has not seen: users created since its snapshot are unblocked; the addresses that
   * the others got since are late, and their old ones are not; the addresses of those who went are stuck
   * exactly if the pass blocks them.
   */
  predicate Unseen(s: State) {
    s.lock.TickLoop? && |s.lock.snap| == |s.rows| ==>
      && DistinctIPs(s.lock.snap)
      && (forall i :: 0 <= i < |s.rows| && Vacant(s.lock.snap[i]) && !Vacant(s.rows[i]) ==>
            !s.rows[i].blocked && (i !in s.touched ==> !EffectiveBlocked(s.rows[i], s.lock.now)))
      && (forall i :: 0 <= i < |s.rows| && !Vacant(s.lock.snap[i]) && !Vacant(s.rows[i]) ==>
            IPs(s.lock.snap[i]) <= IPs(s.rows[i]) <= IPs(s.lock.snap[i]) + s.late && IPs(s.lock.snap[i]) !! s.late)
      && s.stuck == set i, ip | 0 <= i < |s.rows| && GoneBlocked(s, i) && ip in IPs(s.lock.snap[i]) :: ip
  }

  predicate Settling(s: State)
    requires |s.lines| == |s.rows|
  {
    Balanced(s) && Covered(s) && ClocksRight(s) && DistinctIPs(s.rows) && FlagsRight(s) && SetRight(s) && Unseen(s)
  }

  // ---- handlers, clocks, addresses ----

  lemma StepKeepsCovered(s: State, e: Event)
    requires |s.lines| == |s.rows| && Covered(s) && LockOk(s) && CanStep(s, e)
    ensures Covered(Apply(s, e))
  {
    hide MergeTick, TickRow, Recharged, ApplyWrite, SampleOf, ZeroLine, Claimed, IPs, WgListing, OvListing, Newcomer;
    hide LeftBehind, WithOvpn, MayAttach;
    var s' := Apply(s, e);
    forall i | i in s'.touched
      ensures exists pid ::
                pid in s'.waiting && s'.waiting[pid] == i && !(s'.lock.TickLoop? && s'.lock.who == Some(pid))
    {
      if e.PanelWrite? && i == e.user {
        assert e.pid in s'.waiting;
      } else if e.RechargeCommit? && i == s.lock.user {
        assert s.lock.pid in s'.waiting;
      } else {
        assert i in s.touched;
        var pid :| pid in s.waiting && s.waiting[pid] == i && !(s.lock.TickLoop? && s.lock.who == Some(pid));
        assert pid in s'.waiting;
      }
    }
  }

  lemma StepKeepsClocks(s: State, e: Event)
    requires |s.lines| == |s.rows| && ClocksRight(s) && CanStep(s, e)
    ensures ClocksRight(Apply(s, e))
  {
    hide MergeTick, TickRow, Recharged, ApplyWrite, SampleOf, ZeroLine, Claimed, IPs, WgListing, OvListing, Newcomer;
  }

  lemma FewerIPs(rows: seq<Peer>, rows': seq<Peer>)
    requires |rows| == |rows'| && DistinctIPs(rows) && forall i :: 0 <= i < |rows| ==> IPs(rows'[i]) <= IPs(rows[i])
    ensures DistinctIPs(rows')
  {
    hide IPs;
    forall i, j | 0 <= i < j < |rows'|
      ensures IPs(rows'[i]) !! IPs(rows'[j])
    {
      assert IPs(rows[i]) !! IPs(rows[j]);
    }
  }

  lemma NobodyHasNoIP()
    ensures IPs(NOBODY) == {}
  {
  }

  /** Steps that hand out no address keep every row's addresses, or take them away. */
  lemma StepKeepsIPs(s: State, e: Event, i: nat)
    requires |s.lines| == |s.rows| && Balanced(s) && CanStep(s, e) && !e.Create? && !e.Attach? && i < |s.rows|
    ensures IPs(Apply(s, e).rows[i]) <= IPs(s.rows[i])
  {
    hide MergeTick, TickRow, SampleOf, ZeroLine, Claimed, LastClaim, WgListing, OvListing, Books, SoundLine, Core, IPs;
    hide Recharged, ApplyWrite, Newcomer, Expected, Body, Grown, LeftBehind;
    if Calm(e) {
      CalmStepKeepsRows(s, e);
    } else if e.Delete? {
      NobodyHasNoIP();
    } else if e.TickPeer? && i == s.lock.next && !Vacant(s.lock.snap[i]) && !Vacant(s.rows[i]) {
      MergeWritesAll(s.rows[i], s.lock.snap[i], s.lock.tr, s.lock.ov, s.lock.now);
    }
  }

  lemma StepKeepsDistinct(s: State, e: Event)
    requires |s.lines| == |s.rows| && Balanced(s) && CanStep(s, e) && DistinctIPs(s.rows)
    ensures DistinctIPs(Apply(s, e).rows)
  {
    hide IPs, Balanced, Apply;
    var rows' := Apply(s, e).rows;
    if e.Create? {
      CreatedRow(s, e.row);
      OneMoreApart(s.rows, s.born, e.row, IPs(e.row));
    } else if e.Attach? {
      AttachedRow(s, e);
      OneMoreApart(s.rows, e.user, rows'[e.user], {e.ip});
    } else {
      forall i | 0 <= i < |s.rows|
        ensures IPs(rows'[i]) <= IPs(s.rows[i])
      {
        StepKeepsIPs(s, e, i);
      }
      FewerIPs(s.rows, rows');
    }
  }

  /** One row gets addresses that nobody holds. */
  lemma OneMoreApart(rows: seq<Peer>, k: nat, p: Peer, new_: set<Addr>)
    requires DistinctIPs(rows) && k < |rows| && IPs(p) <= IPs(rows[k]) + new_
    requires forall i :: 0 <= i < |rows| ==> IPs(rows[i]) !! new_
    ensures DistinctIPs(rows[k := p])
  {
    hide IPs;
    var rows' := rows[k := p];
    forall i, j | 0 <= i < j < |rows'|
      ensures IPs(rows'[i]) !! IPs(rows'[j])
    {
      assert IPs(rows[i]) !! IPs(rows[j]);
    }
  }

  lemma AttachedRow(s: State, e: Event)
    requires |s.lines| == |s.rows| && CanStep(s, e) && e.Attach?
    ensures var u, s' := e.user, Apply(s, e);
            && u < |s.rows| && !Vacant(s.rows[u]) && s' == s.(rows := s'.rows, late := s.late + {e.ip})
            && s'.rows == s.rows[u := s'.rows[u]] && s'.rows[u] == WithOvpn(s.rows[u], e.ip, e.cred)
            && IPs(s'.rows[u]) == IPs(s.rows[u]) + {e.ip} && s'.rows[u].blocked == s.rows[u].blocked
            && !Vacant(s'.rows[u])
    ensures forall i :: 0 <= i < |s.rows| ==> IPs(s.rows[i]) !! {e.ip}
    ensures forall t :: EffectiveBlocked(Apply(s, e).rows[e.user], t) == EffectiveBlocked(s.rows[e.user], t)
  {
    hide IPs, EffectiveBlocked;
    var p, q := s.rows[e.user], WithOvpn(s.rows[e.user], e.ip, e.cred);
    AttachedBody(p, e.ip, e.cred);
    forall t
      ensures EffectiveBlocked(q, t) == EffectiveBlocked(p, t)
    {
      SameDecision(p, q, t);
    }
  }

  lemma CreatedRow(s: State, p: Peer)
    requires |s.lines| == |s.rows| && CanStep(s, Create(p))
    ensures s.born < |s.rows| && Apply(s, Create(p)).rows == s.rows[s.born := p]
    ensures forall i :: 0 <= i < |s.rows| ==> IPs(s.rows[i]) !! IPs(p)
  {
    hide IPs;
  }

  // ---- flags and set outside the loop ----

  lemma SameFlags(a: seq<Peer>, b: seq<Peer>)
    requires |a| == |b| && forall i :: 0 <= i < |a| ==> IPs(a[i]) == IPs(b[i]) && a[i].blocked == b[i].blocked
    ensures BlockedIPs(a) == BlockedIPs(b)
  {
    hide IPs;
  }

  predicate Calm(e: Event) {
    !e.TickPeer? && !e.TickEnd? && !e.TickSnapshot? && !e.Create? && !e.Delete? && !e.Attach?
  }

  /** Such a step changes neither flags nor addresses, and no row comes or goes. */
  lemma CalmStepKeepsRows(s: State, e: Event)
    requires |s.lines| == |s.rows| && CanStep(s, e) && Calm(e)
    ensures var s' := Apply(s, e);
            && (forall i :: 0 <= i < |s.rows| ==>
                  && IPs(s'.rows[i]) == IPs(s.rows[i]) && s'.rows[i].blocked == s.rows[i].blocked
                  && (Vacant(s'.rows[i]) <==> Vacant(s.rows[i]))
                  && (i !in s'.touched ==> i !in s.touched && s'.rows[i] == s.rows[i]))
            && s'.ipset == s.ipset && s'.stuck == s.stuck && s'.late == s.late && s'.lastTick == s.lastTick
            && (s'.lock.TickLoop? <==> s.lock.TickLoop?) && (s.lock.TickLoop? ==> s'.lock == s.lock)
  {
    hide SampleOf, ZeroLine, Claimed, LastClaim, WgListing, OvListing, Newcomer, IPs, Recharged, ApplyWrite;
    RechargeKeepsIPs(s, e);
  }

  lemma RechargeKeepsIPs(s: State, e: Event)
    requires |s.lines| == |s.rows|
    ensures e.RechargeCommit? && s.lock.ResetSampled? && s.lock.user < |s.rows| ==>
              var p, q := s.rows[s.lock.user], Recharged(s.rows[s.lock.user], s.lock.req, s.lock.base);
              IPs(p) == IPs(q) && p.blocked == q.blocked && p.username == q.username
    ensures e.PanelWrite? && e.user < |s.rows| ==>
              var p, q := s.rows[e.user], ApplyWrite(s.rows[e.user], e.write);
              IPs(p) == IPs(q) && p.blocked == q.blocked && p.username == q.username
  {
  }

  lemma CalmStepSettles(s: State, e: Event)
    requires |s.lines| == |s.rows| && Settling(s) && CanStep(s, e) && Calm(e)
    ensures FlagsRight(Apply(s, e)) && SetRight(Apply(s, e)) && Unseen(Apply(s, e))
  {
    hide Balanced, Covered, CanStep, Apply, Claimed, LastClaim, TickRows, IPs, EffectiveBlocked, BlockedIPs;
    CalmStepKeepsRows(s, e);
    SameFlags(s.rows, Apply(s, e).rows);
  }

  lemma EarlierToo(p: Peer, t: int, u: int)
    requires !EffectiveBlocked(p, u) && t <= u
    ensures !EffectiveBlocked(p, t)
  {
  }

  lemma CreationSettles(s: State, p: Peer)
    requires |s.lines| == |s.rows| && Settling(s) && CanStep(s, Create(p))
    ensures FlagsRight(Apply(s, Create(p))) && SetRight(Apply(s, Create(p))) && Unseen(Apply(s, Create(p)))
  {
    hide Balanced, Claimed, LastClaim, TickRows, IPs, EffectiveBlocked, BlockedIPs, DistinctIPs, Covered, TickRow;
    assert LockOk(s) && SnapshotCurrent(s) by {
      BalancedParts(s);
    }
    var s' := Apply(s, Create(p));
    if s.lastTick.Some? {
      EarlierToo(p, s.lastTick.value, s.clock);
    }
    if s.lock.TickLoop? {
      EarlierToo(p, s.lock.now, s.clock);
    }
    UnblockedAdds(s.rows, s.born, p);
    assert s'.rows == s.rows[s.born := p];
    if s.lock.TickLoop? {
      NobodyHasNoIP();
      assert forall i :: 0 <= i < |s.rows| && i != s.born ==> (GoneBlocked(s', i) <==> GoneBlocked(s, i));
    }
  }

  lemma BalancedParts(s: State)
    requires |s.lines| == |s.rows| && Balanced(s)
    ensures LockOk(s) && SnapshotCurrent(s)
  {
  }

  lemma UnblockedAdds(rows: seq<Peer>, k: nat, p: Peer)
    requires k < |rows| && rows[k] == NOBODY && !p.blocked
    ensures BlockedIPs(rows[k := p]) == BlockedIPs(rows)
  {
    hide IPs;
    var rows' := rows[k := p];
    forall ip
      ensures ip in BlockedIPs(rows') <==> ip in BlockedIPs(rows)
    {
      if ip in BlockedIPs(rows) {
        var i :| 0 <= i < |rows| && rows[i].blocked && ip in IPs(rows[i]);
        assert rows'[i] == rows[i];
      }
      if ip in BlockedIPs(rows') {
        var i :| 0 <= i < |rows'| && rows'[i].blocked && ip in IPs(rows'[i]);
        assert rows'[i] == rows[i];
      }
    }
  }

  lemma DeletionSettles(s: State, u: nat)
    requires |s.lines| == |s.rows| && Settling(s) && CanStep(s, Delete(u))
    ensures FlagsRight(Apply(s, Delete(u))) && SetRight(Apply(s, Delete(u))) && Unseen(Apply(s, Delete(u)))
  {
    hide Balanced, Claimed, LastClaim, TickRows, IPs, BlockedIPs, DistinctIPs, Covered, TickRow, Core, EffectiveBlocked;
    hide Unseen;
    assert LockOk(s) by {
      BalancedParts(s);
    }
    var s' := Apply(s, Delete(u));
    NobodyIsFree(s.lastTick);
    assert s'.rows == s.rows[u := NOBODY];
    if s.lock.TickLoop? {
      DeletionUnseen(s, u);
    } else {
      DeletionUnblocks(s.rows, u);
      NothingUnseen(s');
    }
  }

  lemma NothingUnseen(s: State)
    requires !s.lock.TickLoop?
    ensures Unseen(s)
  {
  }

  lemma DeletionUnseen(s: State, u: nat)
    requires |s.lines| == |s.rows| && Settling(s) && s.lock.TickLoop? && CanStep(s, Delete(u))
    ensures Unseen(Apply(s, Delete(u)))
  {
    hide Balanced, Claimed, LastClaim, TickRows, IPs, BlockedIPs, DistinctIPs, Covered, TickRow, FlagsRight, SetRight;
    hide ClocksRight, EffectiveBlocked;
    assert LockOk(s) && SnapshotCurrent(s) by {
      BalancedParts(s);
    }
    var s' := Apply(s, Delete(u));
    assert s'.rows == s.rows[u := NOBODY];
    assert forall i :: 0 <= i < |s.rows| ==> (GoneBlocked(s', i) <==>
        GoneBlocked(s, i) || (i == u && TickRow(s.lock.snap[u], s.lock.tr, s.lock.ov, s.lock.now).blocked));
  }

  lemma AttachmentSettles(s: State, e: Event)
    requires |s.lines| == |s.rows| && Settling(s) && CanStep(s, e) && e.Attach?
    ensures FlagsRight(Apply(s, e)) && SetRight(Apply(s, e)) && Unseen(Apply(s, e))
  {
    hide Balanced, Claimed, LastClaim, TickRows, IPs, BlockedIPs, DistinctIPs, Covered, TickRow, Core, CanStep, Apply;
    hide EffectiveBlocked, WithOvpn;
    assert SnapshotCurrent(s) by {
      BalancedParts(s);
    }
    var s', u := Apply(s, e), e.user;
    AttachedRow(s, e);
    if s.lock.TickLoop? {
      assert forall i :: 0 <= i < |s.rows| ==> (GoneBlocked(s', i) <==> GoneBlocked(s, i));
    } else {
      AttachmentAdds(s.rows, u, s'.rows[u], e.ip);
    }
  }

  lemma AttachmentAdds(rows: seq<Peer>, u: nat, q: Peer, ip: Addr)
    requires u < |rows| && q.blocked == rows[u].blocked && IPs(q) == IPs(rows[u]) + {ip}
    requires forall i :: 0 <= i < |rows| ==> IPs(rows[i]) !! {ip}
    ensures BlockedIPs(rows[u := q]) - {ip} == BlockedIPs(rows) && ip !in BlockedIPs(rows)
  {
    hide IPs;
    var rows' := rows[u := q];
    forall x | x != ip
      ensures x in BlockedIPs(rows') <==> x in BlockedIPs(rows)
    {
      if x in BlockedIPs(rows) {
        var i :| 0 <= i < |rows| && rows[i].blocked && x in IPs(rows[i]);
        assert rows'[i].blocked && x in IPs(rows'[i]);
      }
      if x in BlockedIPs(rows') {
        var i :| 0 <= i < |rows'| && rows'[i].blocked && x in IPs(rows'[i]);
        assert rows[i].blocked && x in IPs(rows[i]);
      }
    }
  }

  lemma NobodyIsFree(t: Option<int>)
    ensures t.Some? ==> NOBODY.blocked == EffectiveBlocked(NOBODY, t.value)
  {
  }

  lemma SnapshotFlag(s: State, i: nat)
    requires |s.lines| == |s.rows| && Balanced(s) && s.lock.TickLoop? && i < |s.rows| == |s.lock.snap|
    requires !Vacant(s.lock.snap[i]) && !Vacant(s.rows[i]) && i < s.lock.next
    ensures s.rows[i].blocked == TickRow(s.lock.snap[i], s.lock.tr, s.lock.ov, s.lock.now).blocked
  {
    hide Books, SoundLine, TickRow, Body, IPs;
    var k := s.lock;
    RowAfterPass(s.rows[i], k.snap[i], k.tr, k.ov, k.now);
  }

  /** Where addresses are distinct, a deletion takes exactly the user's own from the blocked ones. */
  lemma DeletionUnblocks(rows: seq<Peer>, u: nat)
    requires u < |rows| && DistinctIPs(rows)
    ensures BlockedIPs(rows[u := NOBODY]) == BlockedIPs(rows) - IPs(rows[u])
    ensures if rows[u].blocked then IPs(rows[u]) <= BlockedIPs(rows) else IPs(rows[u]) !! BlockedIPs(rows)
  {
    hide IPs;
    NobodyHasNoIP();
    var rows' := rows[u := NOBODY];
    forall ip | ip in BlockedIPs(rows')
      ensures ip in BlockedIPs(rows) && ip !in IPs(rows[u])
    {
      var i :| 0 <= i < |rows'| && rows'[i].blocked && ip in IPs(rows'[i]);
      assert rows'[i] == rows[i];
    }
    forall ip | ip in BlockedIPs(rows) && ip !in IPs(rows[u])
      ensures ip in BlockedIPs(rows')
    {
      var i :| 0 <= i < |rows| && rows[i].blocked && ip in IPs(rows[i]);
      assert rows'[i] == rows[i];
    }
  }

  // ---- the pass ----

  lemma SnapshotSettles(s: State)
    requires |s.lines| == |s.rows| && Settling(s) && CanStep(s, TickSnapshot)
    ensures FlagsRight(Apply(s, TickSnapshot)) && SetRight(Apply(s, TickSnapshot)) && Unseen(Apply(s, TickSnapshot))
  {
    hide Balanced, Covered, IPs, TickRow;
    NoClaims(Done(Apply(s, TickSnapshot)));
    NobodyHasNoIP();
    assert forall i :: 0 <= i < |s.rows| && Vacant(s.rows[i]) ==> s.rows[i] == NOBODY by {
      BalancedParts(s);
    }
  }

  lemma TickPeerSettles(s: State)
    requires |s.lines| == |s.rows| && Settling(s) && CanStep(s, TickPeer)
    ensures FlagsRight(Apply(s, TickPeer)) && SetRight(Apply(s, TickPeer)) && Unseen(Apply(s, TickPeer))
  {
    hide MergeTick, TickRow, Claimed, LastClaim, IPs, Books, SoundLine, Body, EffectiveBlocked, DistinctIPs, Covered;
    hide Expected, Grown;
    var k, s' := s.lock, Apply(s, TickPeer);
    TickRowParts(k.snap[k.next], k.tr, k.ov, k.now);
    ClaimsStep(Done(s), k.next, s.ipset, s'.ipset);
    if !Vacant(k.snap[k.next]) && !Vacant(s.rows[k.next]) {
      MergeWritesAll(s.rows[k.next], k.snap[k.next], k.tr, k.ov, k.now);
    }
    assert forall i :: 0 <= i < |s.rows| ==> (GoneBlocked(s', i) <==> GoneBlocked(s, i));
  }

  lemma RowAfterPass(p: Peer, q: Peer, tr: Transfers, ov: Sessions, now: int)
    requires Body(p) == Body(TickRow(q, tr, ov, now))
    ensures p.blocked == TickRow(q, tr, ov, now).blocked
    ensures SameAdmin(p, q) ==> p.blocked == EffectiveBlocked(p, now)
  {
    hide Billed, TickRow, Body, IPs;
    var t, b := TickRow(q, tr, ov, now), Billed(q, tr, ov);
    TickRowParts(q, tr, ov, now);
    BodyFields(p, t);
    BilledKeepsAdmin(q, tr, ov);
    SameDecision(p, b, now);
  }

  lemma BilledKeepsAdmin(q: Peer, tr: Transfers, ov: Sessions)
    ensures SameAdmin(Billed(q, tr, ov), q)
  {
  }

  lemma SameDecision(p: Peer, q: Peer, now: int)
    requires p.used == q.used && p.usedOvpn == q.usedOvpn
    ensures SameAdmin(p, q) ==> EffectiveBlocked(p, now) == EffectiveBlocked(q, now)
  {
  }

  lemma EndSettlesFlags(s: State)
    requires |s.lines| == |s.rows| && Settling(s) && CanStep(s, TickEnd)
    ensures FlagsRight(Apply(s, TickEnd))
  {
    hide TickRow, Claimed, LastClaim, IPs, Body, Grown, Expected, SameAdmin;
    hide EffectiveBlocked, Covered, Books, SoundLine, BlockedIPs;
    var k := s.lock;
    forall i | 0 <= i < |s.rows| && i !in s.touched
      ensures s.rows[i].blocked == EffectiveBlocked(s.rows[i], k.now)
    {
      if Vacant(s.rows[i]) {
        NobodyIsFree(Some(k.now));
      } else if !Vacant(k.snap[i]) {
        RowAfterPass(s.rows[i], k.snap[i], k.tr, k.ov, k.now);
      }
    }
  }

  lemma EndSettlesSet(s: State)
    requires |s.lines| == |s.rows| && Settling(s) && CanStep(s, TickEnd)
    ensures SetRight(Apply(s, TickEnd)) && Unseen(Apply(s, TickEnd))
  {
    hide TickRow, Claimed, LastClaim, IPs, Body, Grown, Expected, SameAdmin;
    hide EffectiveBlocked, Covered, BlockedIPs, SoundLine, Books;
    hide DistinctIPs;
    var k, s', done := s.lock, Apply(s, TickEnd), Done(s);
    forall i | 0 <= i < |done|
      ensures IPs(k.snap[i]) == IPs(done[i])
    {
      TickRowParts(k.snap[i], k.tr, k.ov, k.now);
    }
    assert done[..k.next] == done;
    SameClaims(k.snap, done);
    FewerIPs(k.snap, done);
    DistinctIsExact(done);
    forall i | 0 <= i < |s.rows|
      ensures !Vacant(k.snap[i]) && !Vacant(s.rows[i]) ==> s.rows[i].blocked == done[i].blocked
    {
      if !Vacant(k.snap[i]) && !Vacant(s.rows[i]) {
        SnapshotFlag(s, i);
      }
    }
    assert LockOk(s);
    SnapshotVacant(s);
    assert forall i :: 0 <= i < |s.rows| ==> (GoneBlocked(s, i) <==> Vacant(s.rows[i]) && done[i].blocked);
    DoneAndRows(done, k.snap, s.rows, s.stuck, s.late);
  }

  /** Empty places in the snapshot are really empty. */
  lemma SnapshotVacant(s: State)
    requires |s.lines| == |s.rows| && Balanced(s) && s.lock.TickLoop?
    ensures forall i :: 0 <= i < |s.rows| && Vacant(s.lock.snap[i]) ==> s.lock.snap[i] == NOBODY
  {
  }

  /** What the pass has blocked, told from the rows as they are now. */
  lemma DoneAndRows(done: seq<Peer>, snap: seq<Peer>, rows: seq<Peer>, stuck: set<Addr>, late: set<Addr>)
    requires |done| == |snap| == |rows|
    requires forall i :: 0 <= i < |rows| ==> IPs(done[i]) == IPs(snap[i])
    requires forall i :: 0 <= i < |rows| && !Vacant(snap[i]) && !Vacant(rows[i]) ==>
               && IPs(snap[i]) <= IPs(rows[i]) <= IPs(snap[i]) + late && IPs(snap[i]) !! late
               && rows[i].blocked == done[i].blocked
    requires forall i :: 0 <= i < |rows| && Vacant(snap[i]) ==> snap[i] == NOBODY
    requires forall i :: 0 <= i < |rows| && Vacant(rows[i]) ==> rows[i] == NOBODY
    requires forall i :: 0 <= i < |rows| && Vacant(snap[i]) && !Vacant(rows[i]) ==> !rows[i].blocked
    requires stuck == set i, ip | 0 <= i < |rows| && Vacant(rows[i]) && done[i].blocked && ip in IPs(snap[i]) :: ip
    ensures BlockedIPs(done) == (BlockedIPs(rows) - late) + stuck
  {
    hide IPs;
    NobodyHasNoIP();
    forall ip
      ensures ip in BlockedIPs(done) <==> ip in (BlockedIPs(rows) - late) + stuck
    {
      if ip in BlockedIPs(done) {
        var i :| 0 <= i < |done| && done[i].blocked && ip in IPs(done[i]);
        if !Vacant(rows[i]) {
          assert rows[i].blocked && ip in IPs(rows[i]);
        }
      }
      if ip in BlockedIPs(rows) - late {
        var i :| 0 <= i < |rows| && rows[i].blocked && ip in IPs(rows[i]);
        assert done[i].blocked && ip in IPs(done[i]);
      }
    }
  }

  // ---- every run ----

  lemma StepKeepsSettling(s: State, e: Event)
    requires |s.lines| == |s.rows| && Settling(s) && CanStep(s, e)
    ensures Settling(Apply(s, e))
  {
    BalancedParts(s);
    StepSettles(s, e);
    hide Balanced, Covered, ClocksRight, DistinctIPs, FlagsRight, SetRight, Unseen, LockOk, SnapshotCurrent;
    hide CanStep, Apply;
    StepKeepsBalance(s, e);
    StepKeepsCovered(s, e);
    StepKeepsClocks(s, e);
    StepKeepsDistinct(s, e);
  }

  /** Every step leaves flags and set right. */
  lemma StepSettles(s: State, e: Event)
    requires |s.lines| == |s.rows| && Settling(s) && CanStep(s, e)
    ensures FlagsRight(Apply(s, e)) && SetRight(Apply(s, e)) && Unseen(Apply(s, e))
  {
    hide Settling, FlagsRight, SetRight, Unseen, CanStep, Apply;
    match e
    case TickPeer => TickPeerSettles(s);
    case TickEnd => EndSettlesFlags(s); EndSettlesSet(s);
    case TickSnapshot => SnapshotSettles(s);
    case Create(p) => CreationSettles(s, p);
    case Delete(u) => DeletionSettles(s, u);
    case Attach(_, _, _) => AttachmentSettles(s, e);
    case _ => CalmStepSettles(s, e);
  }

  lemma {:induction false} RunsKeepSettling(s: State, es: seq<Event>)
    requires |s.lines| == |s.rows| && Settling(s) && CanRun(s, es)
    ensures Settling(RunAll(s, es))
    decreases |es|
  {
    hide Settling, CanStep;
    if es == [] {
    } else {
      StepKeepsSettling(s, es[0]);
      RunsKeepSettling(Apply(s, es[0]), es[1..]);
    }
  }

  /** A system before its first pass is on the way. */
  lemma StartSettles(s: State)
    requires |s.lines| == |s.rows| && Start(s) && s.waiting == map[] && s.touched == {} && s.lastTick.None?
    requires DistinctIPs(s.rows)
    ensures Settling(s)
  {
    hide Balanced, DistinctIPs;
    StartBalances(s);
  }

  /**
   * After any run, with the lock free and no handler between its write and the end of its own pass:
   * every user's flag is what his current row calls for at the clock of the last pass. So is the membership
   * of each of his addresses, exactly unless he is to be blocked and it was attached since that pass's
   * snapshot, or he is not and a user deleted since has left it in the set.
   */
  lemma QuietMeansEnforced(s: State, es: seq<Event>)
    requires |s.lines| == |s.rows| && Settling(s) && CanRun(s, es)
    requires var t := RunAll(s, es); t.lock.Free? && t.waiting == map[] && t.lastTick.Some?
    ensures var t := RunAll(s, es);
            && (forall i :: 0 <= i < |t.rows| ==> t.rows[i].blocked == EffectiveBlocked(t.rows[i], t.lastTick.value))
            && t.ipset == (BlockedIPs(t.rows) - t.late) + t.stuck
            && (forall i, ip :: 0 <= i < |t.rows| && ip in IPs(t.rows[i]) ==>
                  var blocked := EffectiveBlocked(t.rows[i], t.lastTick.value);
                  (ip in t.ipset <==> blocked) <==> if blocked then ip !in t.late || ip in t.stuck else ip !in t.stuck)
  {
    hide Balanced, Covered, BlockedIPs, EffectiveBlocked, IPs, CanRun, RunAll;
    RunsKeepSettling(s, es);
    var t := RunAll(s, es);
    NobodyWaiting(t);
    forall i, ip | 0 <= i < |t.rows| && ip in IPs(t.rows[i])
      ensures ip in BlockedIPs(t.rows) <==> t.rows[i].blocked
    {
      OwnerDecides(t.rows, i, ip);
    }
  }

  lemma NobodyWaiting(s: State)
    requires Covered(s) && s.waiting == map[]
    ensures s.touched == {}
  {
    forall i
      ensures i !in s.touched
    {
    }
  }

  lemma OwnerDecides(rows: seq<Peer>, i: nat, ip: Addr)
    requires DistinctIPs(rows) && i < |rows| && ip in IPs(rows[i])
    ensures ip in BlockedIPs(rows) <==> rows[i].blocked
  {
    hide IPs;
    assert forall j, k :: 0 <= j < k < |rows| ==> !(ip in IPs(rows[j]) && ip in IPs(rows[k]));
  }

  // ---- what is stuck and what is late, told from the run ----

  predicate HasSnapshot(es: seq<Event>) {
    exists k :: 0 <= k < |es| && es[k].TickSnapshot?
  }

  /** In the run, with no snapshot after it, a user is deleted whom that leaves with this address in the set. */
  predicate Leaves(s: State, es: seq<Event>, ip: Addr)
    requires |s.lines| == |s.rows| && CanRun(s, es)
    decreases |es|
  {
    es != [] && ((es[0].Delete? && ip in LeftBehind(s, es[0].user) && !HasSnapshot(es[1..])) ||
                 Leaves(Apply(s, es[0]), es[1..], ip))
  }

  predicate Attaches(es: seq<Event>, ip: Addr) {
    exists k :: 0 <= k < |es| && es[k].Attach? && es[k].ip == ip && !HasSnapshot(es[k..])
  }

  lemma StepSticks(s: State, e: Event, ip: Addr)
    requires |s.lines| == |s.rows| && CanStep(s, e)
    ensures ip in Apply(s, e).stuck <==>
            !e.TickSnapshot? && (ip in s.stuck || (e.Delete? && ip in LeftBehind(s, e.user)))
    ensures ip in Apply(s, e).late <==> !e.TickSnapshot? && (ip in s.late || (e.Attach? && e.ip == ip))
  {
    hide MergeTick, TickRow, Recharged, ApplyWrite, SampleOf, ZeroLine, Claimed, IPs, WgListing, OvListing, Newcomer;
    hide LeftBehind, WithOvpn, MayAttach, Vacant;
  }

  /** An address is stuck exactly if a deletion since the last snapshot, or else the state before, has left it. */
  lemma {:induction false} StuckIsLeft(s: State, es: seq<Event>, ip: Addr)
    requires |s.lines| == |s.rows| && CanRun(s, es)
    ensures ip in RunAll(s, es).stuck <==> Leaves(s, es, ip) || (ip in s.stuck && !HasSnapshot(es))
    decreases |es|
  {
    hide CanStep, Apply, LeftBehind;
    if es == [] {
    } else {
      StepSticks(s, es[0], ip);
      StuckIsLeft(Apply(s, es[0]), es[1..], ip);
      SnapshotFirst(es);
    }
  }

  /** An address is late exactly if it was attached since the last snapshot, or was late before and none came. */
  lemma {:induction false} LateIsAttached(s: State, es: seq<Event>, ip: Addr)
    requires |s.lines| == |s.rows| && CanRun(s, es)
    ensures ip in RunAll(s, es).late <==> Attaches(es, ip) || (ip in s.late && !HasSnapshot(es))
    decreases |es|
  {
    hide CanStep, Apply, LeftBehind;
    if es == [] {
    } else {
      StepSticks(s, es[0], ip);
      LateIsAttached(Apply(s, es[0]), es[1..], ip);
      SnapshotFirst(es);
      AttachesFirst(es, ip);
    }
  }

  lemma SnapshotFirst(es: seq<Event>)
    requires es != []
    ensures HasSnapshot(es) <==> es[0].TickSnapshot? || HasSnapshot(es[1..])
  {
    if k :| 0 <= k < |es| && es[k].TickSnapshot? {
      assert k > 0 ==> es[1..][k - 1] == es[k];
    }
    if k :| 0 <= k < |es[1..]| && es[1..][k].TickSnapshot? {
      assert es[k + 1].TickSnapshot?;
    }
  }

  lemma AttachesFirst(es: seq<Event>, ip: Addr)
    requires es != []
    ensures Attaches(es, ip) <==> (es[0].Attach? && es[0].ip == ip && !HasSnapshot(es[1..])) || Attaches(es[1..], ip)
  {
    hide HasSnapshot;
    SnapshotFirst(es);
    assert es[0..] == es;
    if k :| 0 <= k < |es| && es[k].Attach? && es[k].ip == ip && !HasSnapshot(es[k..]) {
      assert k > 0 ==> es[1..][k - 1] == es[k] && es[1..][k - 1..] == es[k..];
    }
    if k :| 0 <= k < |es[1..]| && es[1..][k].Attach? && es[1..][k].ip == ip && !HasSnapshot(es[1..][k..]) {
      assert es[k + 1] == es[1..][k] && es[k + 1..] == es[1..][k..];
    }
  }

  // ---- between passes ----

  predicate NoPassWrites(es: seq<Event>) {
    forall k :: 0 <= k < |es| ==> !es[k].TickPeer? && !es[k].TickEnd?
  }

  lemma StepKeepsSet(s: State, e: Event)
    requires |s.lines| == |s.rows| && CanStep(s, e) && !e.TickPeer? && !e.TickEnd?
    ensures Apply(s, e).ipset == s.ipset
    ensures forall i :: 0 <= i < |s.rows| && !s.rows[i].blocked ==> !Apply(s, e).rows[i].blocked
  {
    hide IPs, Newcomer, WithOvpn, LeftBehind, WgListing, OvListing, SampleOf, ZeroLine, Recharged, ApplyWrite;
    if Calm(e) {
      CalmStepKeepsRows(s, e);
    } else if e.Attach? {
      AttachedRow(s, e);
    } else if e.Create? {
      CreatedUnblocked(s, e.row);
    }
  }

  lemma CreatedUnblocked(s: State, p: Peer)
    requires Newcomer(s, p)
    ensures !p.blocked
  {
  }

  lemma {:induction false} RunKeepsSet(s: State, es: seq<Event>)
    requires |s.lines| == |s.rows| && CanRun(s, es) && NoPassWrites(es)
    ensures RunAll(s, es).ipset == s.ipset
    ensures forall i :: 0 <= i < |s.rows| && !s.rows[i].blocked ==> !RunAll(s, es).rows[i].blocked
    decreases |es|
  {
    hide CanStep, Apply;
    if es == [] {
    } else {
      StepKeepsSet(s, es[0]);
      RunKeepsSet(Apply(s, es[0]), es[1..]);
    }
  }

  /**
   * Between passes, whatever happens: a new user who has got the address that user u had is unblocked, and his
   * address is in the block set exactly if u was blocked with it or it had been left there before.
   */
  lemma ReissuedExactly(s: State, es: seq<Event>, u: nat, i: nat, ip: Addr)
    requires |s.lines| == |s.rows| && Settling(s) && !s.lock.TickLoop? && s.lastTick.Some?
    requires CanRun(s, es) && NoPassWrites(es) && u < |s.rows| && ip in IPs(s.rows[u])
    requires s.born <= i < |s.rows| && ip in IPs(RunAll(s, es).rows[i])
    ensures var t := RunAll(s, es);
            !t.rows[i].blocked && (ip in t.ipset <==> (s.rows[u].blocked && ip !in s.late) || ip in s.stuck)
  {
    hide Balanced, Covered, IPs, CanRun, RunAll, NoPassWrites, BlockedIPs;
    assert LockOk(s) by {
      BalancedParts(s);
    }
    RunKeepsSet(s, es);
    OwnerDecides(s.rows, u, ip);
  }

  // ---- two runs from the start ----

  /** A user with one WireGuard address who expires at time 0. */
  function Expiring(x: Addr): Peer {
    NOBODY.(username := "alice", address := Some(x), expires := Some(0))
  }

  /** He is created, time passes, and a pass finds him expired. */
  function ExpiryRun(x: Addr): seq<Event> {
    [Create(Expiring(x)), Clock(1)] + Pass(map[], map[], 2)
  }

  lemma EmptyIsStart()
    ensures |EMPTY.lines| == |EMPTY.rows| && Start(EMPTY) && Settling(EMPTY)
  {
    assert forall i :: 0 <= i < 2 ==> EMPTY.rows[i] == NOBODY && EMPTY.lines[i] == QUIET;
    NobodyHasNoIP();
    StartSettles(EMPTY);
  }

  /** The user is blocked and in the set, and nothing else is. */
  lemma ExpiryBlocks(x: Addr)
    ensures |EMPTY.lines| == |EMPTY.rows| && CanRun(EMPTY, ExpiryRun(x))
    ensures var t := RunAll(EMPTY, ExpiryRun(x));
            && t.rows == [Expiring(x).(blocked := true), NOBODY] && t.ipset == {x} && t.born == 1
            && t.lock.Free? && t.waiting == map[] && t.clock == 1 && t.lastTick == Some(1)
            && t.stuck == {} && t.late == {}
  {
    hide Pass;
    var s1 := EMPTY.(rows := [Expiring(x), NOBODY], born := 1);
    var s2 := s1.(clock := 1);
    var es: seq<Event> := [Create(Expiring(x)), Clock(1)];
    CreatesAlice(x);
    assert Apply(s1, Clock(1)) == s2;
    EndOfRun(s2);
    RunPrefix(s1, Clock(1), []);
    RunPrefix(EMPTY, Create(Expiring(x)), [Clock(1)]);
    assert [Create(Expiring(x))] + ([Clock(1)] + []) == es && [Clock(1)] + [] == [Clock(1)];
    UninterruptedPass(s2, map[], map[]);
    JoinRuns(EMPTY, es, Pass(map[], map[], 2));
    ExpiredIsClaimed(x);
  }

  lemma CreatesAlice(x: Addr)
    ensures |EMPTY.lines| == |EMPTY.rows| && CanStep(EMPTY, Create(Expiring(x)))
    ensures Apply(EMPTY, Create(Expiring(x))) == EMPTY.(rows := [Expiring(x), NOBODY], born := 1)
  {
    assert Newcomer(EMPTY, Expiring(x));
    assert EMPTY.lines[0 := QUIET] == EMPTY.lines;
  }

  lemma ExpiredIsClaimed(x: Addr)
    ensures var rows := TickRows([Expiring(x), NOBODY], map[], map[], 1);
            rows == [Expiring(x).(blocked := true), NOBODY] && LastClaim(rows) == {x}
  {
    var p := Expiring(x).(blocked := true);
    assert TickRow(Expiring(x), map[], map[], 1) == p;
    NobodyStaysNobody(map[], map[], 1);
    assert TickRows([Expiring(x), NOBODY], map[], map[], 1) == [p, NOBODY];
    assert [p, NOBODY][..1] == [p] && [p][..0] == [];
    NobodyHasNoIP();
    assert LastClaim([p]) == {x};
  }

  function Successor(x: Addr): Peer {
    NOBODY.(username := "bob", address := Some(x))
  }

  /**
   * A run from the start after which a user is in the block set who is not to be blocked: a blocked user is
   * deleted, and his address handed to the next one.
   */
  lemma ReissuedAddressStaysBlocked(x: Addr) returns (es: seq<Event>)
    ensures |EMPTY.lines| == |EMPTY.rows| && Start(EMPTY) && Settling(EMPTY) && CanRun(EMPTY, es)
    ensures var t := RunAll(EMPTY, es);
            && t.lock.Free? && t.waiting == map[] && t.lastTick.Some?
            && x in IPs(t.rows[1]) && !t.rows[1].blocked && !EffectiveBlocked(t.rows[1], t.clock) && x in t.ipset
  {
    EmptyIsStart();
    ExpiryBlocks(x);
    var s1 := RunAll(EMPTY, ExpiryRun(x));
    es := ExpiryRun(x) + [Delete(0), Create(Successor(x))];
    DeletesAlice(s1, x);
    JoinRuns(EMPTY, ExpiryRun(x), [Delete(0), Create(Successor(x))]);
  }

  lemma DeletesAlice(s: State, x: Addr)
    requires |s.lines| == |s.rows| && s.rows == [Expiring(x).(blocked := true), NOBODY] && s.born == 1 && s.lock.Free?
    ensures CanRun(s, [Delete(0), Create(Successor(x))])
    ensures var t := RunAll(s, [Delete(0), Create(Successor(x))]);
            && t.rows == [NOBODY, Successor(x)] && t.ipset == s.ipset && t.lock == s.lock && t.waiting == s.waiting
            && t.lastTick == s.lastTick && t.clock == s.clock
            && x in IPs(t.rows[1]) && !t.rows[1].blocked && !EffectiveBlocked(t.rows[1], t.clock)
  {
    var p := Successor(x);
    var s1 := Apply(s, Delete(0));
    assert s1.rows == [NOBODY, NOBODY];
    assert Newcomer(s1, p);
    var s2 := Apply(s1, Create(p));
    assert s2.rows == [NOBODY, p];
    EndOfRun(s2);
    RunPrefix(s1, Create(p), []);
    RunPrefix(s, Delete(0), [Create(p)]);
    assert [Create(p)] + [] == [Create(p)] && [Delete(0)] + [Create(p)] == [Delete(0), Create(p)];
  }

  /**
   * A run from the start after which a blocked user has an address outside the block set: he is given an
   * OpenVPN identity.
   */
  lemma AttachedAddressIsOpen(x: Addr, y: Addr) returns (es: seq<Event>)
    requires x != y
    ensures |EMPTY.lines| == |EMPTY.rows| && Start(EMPTY) && Settling(EMPTY) && CanRun(EMPTY, es)
    ensures var t := RunAll(EMPTY, es);
            && t.lock.Free? && t.waiting == map[] && t.lastTick.Some?
            && y in IPs(t.rows[0]) && t.rows[0].blocked && EffectiveBlocked(t.rows[0], t.clock) && y !in t.ipset
  {
    EmptyIsStart();
    ExpiryBlocks(x);
    var s1 := RunAll(EMPTY, ExpiryRun(x));
    var e := Attach(0, y, Credentials("", ""));
    es := ExpiryRun(x) + [e];
    assert MayAttach(s1, 0, y);
    EndOfRun(Apply(s1, e));
    RunPrefix(s1, e, []);
    assert [e] + [] == [e];
    JoinRuns(EMPTY, ExpiryRun(x), [e]);
  }
}
