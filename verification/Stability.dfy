/** Blocks stay, and a pass that is not interrupted is the sequential pass. */
module Stability {
  import opened Wrappers
  import opened Peers
  import opened Enforcement
  import opened Metering
  import opened Reset
  import opened Machine

  // ---- a block stays until an administrator acts ----

  /** Steps by which somebody changes this user's row on purpose. */
  predicate Admin(e: Event, i: nat) {
    (e.PanelWrite? || e.RechargeBegin? || e.Delete? || e.Attach?) && e.user == i
  }

  /** Whatever passes are under way or still to come will find user i blocked, at any clock from t0 on. */
  predicate Doomed(s: State, i: nat, t0: int)
    requires |s.lines| == |s.rows|
  {
    && i < |s.rows| && i < s.born && !Vacant(s.rows[i]) && i !in s.touched && t0 <= s.clock
    && (s.lock.TickLoop? && i < |s.lock.snap| ==> !Vacant(s.lock.snap[i]))
    && (s.lock.TickOV? ==> t0 <= s.lock.now)
    && (s.lock.TickLoop? && s.lock.next <= i ==> t0 <= s.lock.now)
    && (s.lock.TickLoop? && s.lock.next <= i < |s.lock.snap| ==> IPs(s.rows[i]) == IPs(s.lock.snap[i]))
    && (s.lock.ResetBegun? || s.lock.ResetSampled? ==> s.lock.user != i)
    && EffectiveBlocked(Expected(s, i), t0)
  }

  lemma LaterAndMore(p: Peer, q: Peer, t: int, u: int)
    requires EffectiveBlocked(p, t) && t <= u && SameAdmin(p, q) && UsedTotal(p) <= UsedTotal(q)
    ensures EffectiveBlocked(q, u)
  {
  }

  lemma ReadingsOnlyAdd(p: Peer, l: Line, tr: Transfers, ov: Sessions)
    requires p.publicKey in tr && p.publicKey != "" ==> tr[p.publicKey] == (l.rx.live, l.tx.live)
    requires p.lastRx >= 0 && p.lastTx >= 0
    ensures UsedTotal(p) <= UsedTotal(BillWG(p, tr)) && SameAdmin(p, BillWG(p, tr))
    ensures SameAdmin(p, Billed(p, tr, ov))
    ensures BillWG(p, tr).cn == p.cn
  {
  }

  lemma SessionsOnlyAdd(p: Peer, l: Line, ov: Sessions)
    requires p.cn != "" && p.cn in ov ==> ov[p.cn] == l.ov.live
    requires p.lastOvpn >= 0
    ensures UsedTotal(p) <= UsedTotal(BillOV(p, ov)) && SameAdmin(p, BillOV(p, ov))
  {
  }

  /** Reading the counters can only add to the usage on which the decision will be based. */
  lemma ExpectedAfterReading(s: State, e: Event, i: nat)
    requires |s.lines| == |s.rows| && Balanced(s) && CanStep(s, e) && i < |s.rows| && (e.TickReadWG? || e.TickReadOV?)
    ensures var p, q := Expected(s, i), Expected(Apply(s, e), i);
            SameAdmin(p, q) && UsedTotal(p) <= UsedTotal(q)
  {
    hide BillWG, BillOV, SoundLine;
    assert Books(Expected(s, i), s.lines[i]);
    match e
    case TickReadWG(tr, ok) => ReadingsOnlyAdd(s.rows[i], s.lines[i], tr, map[]);
    case TickReadOV(ov, ok) =>
      BillKeepsCn(s.rows[i], s.lock.tr);
      SessionsOnlyAdd(BillWG(s.rows[i], s.lock.tr), s.lines[i], ov);
  }

  lemma BillKeepsCn(p: Peer, tr: Transfers)
    ensures BillWG(p, tr).cn == p.cn
  {
  }

  lemma ExpectedAfterPassStep(s: State, e: Event, i: nat)
    requires |s.lines| == |s.rows| && Balanced(s) && CanStep(s, e) && i < |s.rows| && i !in s.touched
    requires !Vacant(s.rows[i]) && (s.lock.TickLoop? && i < |s.lock.snap| ==> !Vacant(s.lock.snap[i]))
    requires e.TickSnapshot? || e.TickPeer? || e.TickEnd? || e.TickBegin?
    ensures var p, q := Expected(s, i), Expected(Apply(s, e), i);
            SameAdmin(p, q) && UsedTotal(p) == UsedTotal(q)
    ensures !Vacant(Apply(s, e).rows[i])
  {
    hide BillWG, BillOV, SoundLine, Books, TickRow, MergeTick, Body, Grown, SameAdmin;
    SameAdminItself(Expected(s, i));
    if e.TickPeer? && i == s.lock.next {
      var k := s.lock;
      MergeWritesAll(s.rows[i], k.snap[i], k.tr, k.ov, k.now);
      BilledAdmin(k.snap[i], s.rows[i], MergeTick(s.rows[i], k.snap[i], k.tr, k.ov, k.now), k.tr, k.ov);
    }
  }

  lemma SameAdminItself(p: Peer)
    ensures SameAdmin(p, p)
  {
  }

  lemma BilledAdmin(p: Peer, cur: Peer, m: Peer, tr: Transfers, ov: Sessions)
    requires SameAdmin(cur, p) && SameAdmin(m, cur)
    ensures SameAdmin(Billed(p, tr, ov), m)
  {
  }

  lemma StepKeepsDoomed(s: State, e: Event, i: nat, t0: int)
    requires |s.lines| == |s.rows| && Balanced(s) && CanStep(s, e) && Doomed(s, i, t0) && !Admin(e, i)
    ensures Doomed(Apply(s, e), i, t0)
  {
    hide BillWG, BillOV, SoundLine, TickRow, MergeTick, EffectiveBlocked, Balanced, SampleOf, ZeroLine, IPs, Claimed;
    hide WgListing, OvListing, Expected, Newcomer, Recharged, ApplyWrite, UsedTotal, LeftBehind, WithOvpn;
    var s' := Apply(s, e);
    if e.TickReadWG? || e.TickReadOV? {
      ExpectedAfterReading(s, e, i);
      LaterAndMore(Expected(s, i), Expected(s', i), t0, t0);
    } else if e.TickSnapshot? || e.TickPeer? || e.TickEnd? || e.TickBegin? {
      ExpectedAfterPassStep(s, e, i);
      LaterAndMore(Expected(s, i), Expected(s', i), t0, t0);
    } else {
      OthersKeepExpected(s, e, i);
    }
  }

  /** What other processes do does not show in the row the lock holder will write. */
  lemma OthersKeepExpected(s: State, e: Event, i: nat)
    requires |s.lines| == |s.rows| && CanStep(s, e) && i < |s.rows| && i < s.born && !Admin(e, i) && !e.TickReadWG?
    requires !e.TickReadOV?
    requires !e.TickSnapshot? && !e.TickPeer? && !e.TickEnd? && !e.TickBegin?
    requires s.lock.ResetBegun? || s.lock.ResetSampled? ==> s.lock.user != i
    ensures Expected(Apply(s, e), i) == Expected(s, i)
  {
    hide Billed, BillWG, IPs, SampleOf, ZeroLine, WgListing, OvListing, Newcomer, Recharged, ApplyWrite, ResetRow;
    hide LeftBehind, WithOvpn;
  }

  /** A pass that finds an untouched user blocked has found one who stays blocked. */
  lemma FoundBlockedIsDoomed(s: State, i: nat)
    requires |s.lines| == |s.rows| && Balanced(s) && CanStep(s, TickPeer) && s.lock.next == i && i !in s.touched
    requires i < s.born && !Vacant(s.rows[i]) && !Vacant(s.lock.snap[i])
    requires s.lock.now <= s.clock && TickRow(s.lock.snap[i], s.lock.tr, s.lock.ov, s.lock.now).blocked
    ensures Doomed(Apply(s, TickPeer), i, s.lock.now)
  {
    hide BillWG, BillOV, SoundLine, MergeTick, EffectiveBlocked, TickRow, Body, Grown, SameAdmin;
    var k := s.lock;
    MergeWritesAll(s.rows[i], k.snap[i], k.tr, k.ov, k.now);
    TickRowParts(k.snap[i], k.tr, k.ov, k.now);
    BilledAdmin(k.snap[i], s.rows[i], MergeTick(s.rows[i], k.snap[i], k.tr, k.ov, k.now), k.tr, k.ov);
    LaterAndMore(Billed(k.snap[i], k.tr, k.ov), Apply(s, TickPeer).rows[i], k.now, k.now);
  }

  /** The next pass over a doomed user blocks him again. */
  lemma DoomedIsBlocked(s: State, i: nat, t0: int)
    requires |s.lines| == |s.rows| && Balanced(s) && CanStep(s, TickPeer) && s.lock.next == i && Doomed(s, i, t0)
    ensures var s' := Apply(s, TickPeer);
            s'.rows[i].blocked && forall ip :: ip in IPs(s'.rows[i]) ==> ip in s'.ipset
  {
    hide BillWG, BillOV, SoundLine, Books, MergeTick, EffectiveBlocked, TickRow, Body, Grown, SameAdmin, IPs;
    var k := s.lock;
    MergeWritesAll(s.rows[i], k.snap[i], k.tr, k.ov, k.now);
    TickRowParts(k.snap[i], k.tr, k.ov, k.now);
    SameAdminItself(Billed(k.snap[i], k.tr, k.ov));
    LaterAndMore(Billed(k.snap[i], k.tr, k.ov), Billed(k.snap[i], k.tr, k.ov), t0, k.now);
  }

  lemma {:induction false} RunsKeepDoomed(s: State, es: seq<Event>, i: nat, t0: int)
    requires |s.lines| == |s.rows| && Balanced(s) && CanRun(s, es) && Doomed(s, i, t0)
    requires forall k :: 0 <= k < |es| ==> !Admin(es[k], i)
    ensures Balanced(RunAll(s, es)) && Doomed(RunAll(s, es), i, t0)
    decreases |es|
  {
    hide Balanced, Doomed, CanStep, Apply;
    if es == [] {
    } else {
      assert !Admin(es[0], i);
      StepKeepsBalance(s, es[0]);
      StepKeepsDoomed(s, es[0], i, t0);
      assert forall k :: 0 <= k < |es[1..]| ==> es[1..][k] == es[k + 1];
      RunsKeepDoomed(Apply(s, es[0]), es[1..], i, t0);
    }
  }

  /**
   * Once a pass finds a user blocked, every later pass does: through any traffic, restarts, other
   * users' changes and unread counters, until somebody changes the user's own row.
   */
  lemma BlockStays(s: State, es: seq<Event>, i: nat)
    requires |s.lines| == |s.rows| && Balanced(s) && FindsBlocked(s, i)
    requires CanRun(Apply(s, TickPeer), es) && forall k :: 0 <= k < |es| ==> !Admin(es[k], i)
    ensures NextBlocks(RunAll(Apply(s, TickPeer), es), i)
  {
    hide *;
    BlockedIsDoomed(s, i);
    StepKeepsBalance(s, TickPeer);
    var t0 :| Doomed(Apply(s, TickPeer), i, t0);
    RunsKeepDoomed(Apply(s, TickPeer), es, i, t0);
    DoomedNextBlocks(RunAll(Apply(s, TickPeer), es), i, t0);
  }

  /**
   * The pass under way comes to user i next, nobody has changed his row since its snapshot, and it finds him
   * blocked.
   */
  predicate FindsBlocked(s: State, i: nat)
    requires |s.lines| == |s.rows|
    ensures FindsBlocked(s, i) ==> CanStep(s, TickPeer)
  {
    && CanStep(s, TickPeer) && s.lock.next == i && i !in s.touched
    && i < s.born && !Vacant(s.rows[i]) && !Vacant(s.lock.snap[i])
    && s.lock.now <= s.clock && TickRow(s.lock.snap[i], s.lock.tr, s.lock.ov, s.lock.now).blocked
  }

  lemma BlockedIsDoomed(s: State, i: nat)
    requires |s.lines| == |s.rows| && Balanced(s) && FindsBlocked(s, i)
    ensures exists t0 :: Doomed(Apply(s, TickPeer), i, t0)
  {
    hide Balanced, Doomed, TickRow, Apply;
    FoundBlockedIsDoomed(s, i);
  }

  /** If a pass comes to user i next, it leaves him blocked, with all his addresses in the block set. */
  predicate NextBlocks(t: State, i: nat)
    requires |t.lines| == |t.rows|
  {
    CanStep(t, TickPeer) && t.lock.next == i ==>
      && Apply(t, TickPeer).rows[i].blocked
      && forall ip :: ip in IPs(Apply(t, TickPeer).rows[i]) ==> ip in Apply(t, TickPeer).ipset
  }

  lemma DoomedNextBlocks(t: State, i: nat, t0: int)
    requires |t.lines| == |t.rows| && Balanced(t) && Doomed(t, i, t0)
    ensures NextBlocks(t, i)
  {
    hide Balanced, Doomed, Apply;
    if CanStep(t, TickPeer) && t.lock.next == i {
      DoomedIsBlocked(t, i, t0);
    }
  }

  // ---- one pass, uninterrupted ----

  function Repeat(e: Event, n: nat): seq<Event> {
    if n == 0 then [] else [e] + Repeat(e, n - 1)
  }

  /** All steps of one background pass, nothing in between. */
  function Pass(tr: Transfers, ov: Sessions, n: nat): seq<Event> {
    [TickBegin(None), TickReadWG(tr, true), TickReadOV(ov, true), TickSnapshot] + (Repeat(TickPeer, n) + [TickEnd])
  }

  /** All but table, counters, block set, lock and the clock of the last pass. */
  predicate SameElsewhere(s: State, t: State) {
    && t.born == s.born && t.waiting == s.waiting && t.clock == s.clock
    && t.touched == s.touched && t.stuck == s.stuck && t.late == s.late
  }

  /** One turn of the loop. */
  lemma LoopStep(s: State)
    requires |s.lines| == |s.rows| && CanStep(s, TickPeer)
    requires forall i :: 0 <= i < |s.rows| && Vacant(s.lock.snap[i]) ==> s.lock.snap[i] == NOBODY
    requires var done := TickRows(s.lock.snap, s.lock.tr, s.lock.ov, s.lock.now);
             && s.rows == done[..s.lock.next] + s.lock.snap[s.lock.next..]
             && s.ipset * Claimed(done[..s.lock.next]) == LastClaim(done[..s.lock.next])
    ensures var k, s', done := s.lock, Apply(s, TickPeer), TickRows(s.lock.snap, s.lock.tr, s.lock.ov, s.lock.now);
            && s'.rows == done[..k.next + 1] + k.snap[k.next + 1..]
            && s'.ipset * Claimed(done[..k.next + 1]) == LastClaim(done[..k.next + 1])
            && SameElsewhere(s, s')
  {
    hide TickRow, MergeTick, LastClaim, Claimed, IPs;
    var k, s' := s.lock, Apply(s, TickPeer);
    var done := TickRows(k.snap, k.tr, k.ov, k.now);
    assert s.rows[k.next] == k.snap[k.next];
    MergeOntoSnapshot(k.snap[k.next], k.tr, k.ov, k.now);
    NobodyStaysNobody(k.tr, k.ov, k.now);
    TickRowParts(k.snap[k.next], k.tr, k.ov, k.now);
    ClaimsStep(done, k.next, s.ipset, s'.ipset);
  }

  /** From the loop on. */
  lemma {:induction false} LoopRuns(s: State, n: nat)
    requires |s.lines| == |s.rows| && s.lock.TickLoop? && |s.lock.snap| == |s.rows| && s.lock.next + n == |s.rows|
    requires forall i :: 0 <= i < |s.rows| && Vacant(s.lock.snap[i]) ==> s.lock.snap[i] == NOBODY
    requires var done := TickRows(s.lock.snap, s.lock.tr, s.lock.ov, s.lock.now);
             && s.rows == done[..s.lock.next] + s.lock.snap[s.lock.next..]
             && s.ipset * Claimed(done[..s.lock.next]) == LastClaim(done[..s.lock.next])
    ensures var es := Repeat(TickPeer, n) + [TickEnd];
            && CanRun(s, es)
            && var t := RunAll(s, es);
            && t.rows == TickRows(s.lock.snap, s.lock.tr, s.lock.ov, s.lock.now)
            && t.ipset == LastClaim(t.rows) && t.lock.Free? && t.lastTick == Some(s.lock.now)
            && (s.lock.who.None? ==> SameElsewhere(s, t))
    decreases n
  {
    hide TickRow, MergeTick, LastClaim, Claimed, IPs;
    var k := s.lock;
    var done := TickRows(k.snap, k.tr, k.ov, k.now);
    var es := Repeat(TickPeer, n) + [TickEnd];
    if n == 0 {
      assert es == [TickEnd] && es[1..] == [];
      assert done[..k.next] == done && s.rows == done;
      forall i | 0 <= i < |done|
        ensures IPs(k.snap[i]) == IPs(done[i])
      {
        TickRowParts(k.snap[i], k.tr, k.ov, k.now);
      }
      SameClaims(k.snap, done);
      EndOfRun(Apply(s, TickEnd));
    } else {
      assert es[0] == TickPeer && es[1..] == Repeat(TickPeer, n - 1) + [TickEnd];
      var s' := Apply(s, TickPeer);
      LoopStep(s);
      LoopRuns(s', n - 1);
    }
  }

  lemma NobodyStaysNobody(tr: Transfers, ov: Sessions, now: int)
    ensures TickRow(NOBODY, tr, ov, now) == NOBODY
  {
  }

  /** An uninterrupted pass of the machine does what the sequential pass does to table and block set. */
  lemma UninterruptedPass(s: State, tr: Transfers, ov: Sessions)
    requires |s.lines| == |s.rows| && s.lock.Free? && WgListing(s, tr, true) && OvListing(s, ov, true)
    requires forall i :: 0 <= i < |s.rows| && Vacant(s.rows[i]) ==> s.rows[i] == NOBODY
    ensures CanRun(s, Pass(tr, ov, |s.rows|))
    ensures var t := RunAll(s, Pass(tr, ov, |s.rows|));
            && t.rows == TickRows(s.rows, tr, ov, s.clock) && t.ipset == LastClaim(t.rows)
            && t.lock.Free? && t.lastTick == Some(s.clock)
            && SameElsewhere(s.(touched := {}, stuck := {}, late := {}), t)
  {
    hide Apply, CanStep, CanRun, RunAll, Repeat, TickRows, LastClaim, WgListing, OvListing;
    var tail := Repeat(TickPeer, |s.rows|) + [TickEnd];
    PassBegins(s, tr, ov);
    var s4 := Apply(Apply(Apply(Apply(s, TickBegin(None)), TickReadWG(tr, true)), TickReadOV(ov, true)), TickSnapshot);
    PassLoops(s4, tr, ov, s.clock);
    FourSteps(s, TickBegin(None), TickReadWG(tr, true), TickReadOV(ov, true), TickSnapshot, tail);
  }

  lemma FourSteps(s: State, a: Event, b: Event, c: Event, d: Event, tail: seq<Event>)
    requires |s.lines| == |s.rows| && CanStep(s, a) && CanStep(Apply(s, a), b) && CanStep(Apply(Apply(s, a), b), c)
    requires CanStep(Apply(Apply(Apply(s, a), b), c), d) && CanRun(Apply(Apply(Apply(Apply(s, a), b), c), d), tail)
    ensures CanRun(s, [a, b, c, d] + tail)
    ensures RunAll(s, [a, b, c, d] + tail) == RunAll(Apply(Apply(Apply(Apply(s, a), b), c), d), tail)
  {
    hide Apply, CanStep, CanRun, RunAll;
    RunPrefix(Apply(Apply(Apply(s, a), b), c), d, tail);
    RunPrefix(Apply(Apply(s, a), b), c, [d] + tail);
    RunPrefix(Apply(s, a), b, [c] + ([d] + tail));
    RunPrefix(s, a, [b] + ([c] + ([d] + tail)));
    assert [a] + ([b] + ([c] + ([d] + tail))) == [a, b, c, d] + tail;
  }

  /** Up to the snapshot the rows stay as they are. */
  lemma PassBegins(s: State, tr: Transfers, ov: Sessions)
    requires |s.lines| == |s.rows| && s.lock.Free? && WgListing(s, tr, true) && OvListing(s, ov, true)
    ensures CanStep(s, TickBegin(None))
    ensures var s1 := Apply(s, TickBegin(None));
            && CanStep(s1, TickReadWG(tr, true))
            && var s2 := Apply(s1, TickReadWG(tr, true));
            && CanStep(s2, TickReadOV(ov, true))
            && var s3 := Apply(s2, TickReadOV(ov, true));
            && CanStep(s3, TickSnapshot)
            && var s4 := Apply(s3, TickSnapshot);
            && s4.rows == s.rows && s4.lock == TickLoop(None, tr, ov, s.clock, s.rows, 0)
            && SameElsewhere(s.(touched := {}, stuck := {}, late := {}), s4)
  {
    hide ReadLineOV, ReadLineWG, MergeTick, TickRow, LeftBehind, Recharged, IPs, Claimed, WgListing, OvListing;
    var s1 := Apply(s, TickBegin(None));
    SameListings(s, s1, tr, ov);
    assert OvListing(Apply(s1, TickReadWG(tr, true)), ov, true) by {
      ReadingWGKeepsOV(s1, tr, ov);
    }
  }

  lemma SameListings(s: State, t: State, tr: Transfers, ov: Sessions)
    requires |s.lines| == |s.rows| && t.lines == s.lines && t.rows == s.rows
    ensures WgListing(s, tr, true) == WgListing(t, tr, true) && OvListing(s, ov, true) == OvListing(t, ov, true)
  {
  }

  /** The loop from its start. */
  lemma PassLoops(s: State, tr: Transfers, ov: Sessions, now: int)
    requires |s.lines| == |s.rows| && s.lock == TickLoop(None, tr, ov, now, s.rows, 0)
    requires forall i :: 0 <= i < |s.rows| && Vacant(s.rows[i]) ==> s.rows[i] == NOBODY
    ensures var es := Repeat(TickPeer, |s.rows|) + [TickEnd];
            && CanRun(s, es)
            && var t := RunAll(s, es);
            && t.rows == TickRows(s.rows, tr, ov, now) && t.ipset == LastClaim(t.rows)
            && t.lock.Free? && t.lastTick == Some(now) && SameElsewhere(s, t)
  {
    hide CanRun, RunAll, Repeat, LastClaim, Claimed, TickRow;
    NoClaims(TickRows(s.rows, tr, ov, now));
    LoopRuns(s, |s.rows|);
  }

  lemma ReadingWGKeepsOV(s: State, tr: Transfers, ov: Sessions)
    requires |s.lines| == |s.rows| && s.lock.TickBegun? && WgListing(s, tr, true) && OvListing(s, ov, true)
    ensures OvListing(Apply(s, TickReadWG(tr, true)), ov, true)
  {
    hide Read;
  }
}
