/** What the balanced books mean for billing, over every run of the concurrent system. */
module Conservation {
  import opened Wrappers
  import opened IPv4
  import opened Peers
  import opened Enforcement
  import opened Metering
  import opened Reset
  import opened Machine
  import opened Stability

  /** Real bytes since the last reset are the bytes billed, the bytes still to be read and the bytes lost. */
  predicate Conserved(p: Peer, l: Line) {
    && l.rx.truth + l.tx.truth ==
       p.used + Delta(l.rx.live, p.lastRx) + Delta(l.tx.live, p.lastTx) + l.rx.lost + l.tx.lost
    && l.ov.truth == p.usedOvpn + Delta(l.ov.live, p.lastOvpn) + l.ov.lost
  }

  /** A system before its first pass. */
  predicate Start(s: State)
    requires |s.lines| == |s.rows|
  {
    && LockOk(s) && s.lock.Free?
    && forall i :: 0 <= i < |s.rows| ==>
         && var p := s.rows[i];
         && p.used == 0 && p.usedOvpn == 0 && p.lastRx == 0 && p.lastTx == 0 && p.lastOvpn == 0
         && s.lines[i] == QUIET
  }

  /** Nobody yet, and places for two users. */
  const EMPTY := State([NOBODY, NOBODY], 0, [QUIET, QUIET], {}, Free, map[], 0, None, {}, {}, {})

  lemma StartBalances(s: State)
    requires |s.lines| == |s.rows| && Start(s)
    ensures Balanced(s)
  {
    hide SoundLine, Books;
    forall i | 0 <= i < |s.rows|
      ensures SoundLine(s.rows[i], s.lines[i]) && Books(s.rows[i], s.lines[i])
    {
      QuietBooks(s.rows[i], s.lines[i]);
    }
  }

  lemma BalancedConserves(s: State, i: nat)
    requires |s.lines| == |s.rows| && Balanced(s) && i < |s.rows|
    ensures Conserved(Expected(s, i), s.lines[i])
    ensures Expected(s, i).used <= s.lines[i].rx.truth + s.lines[i].tx.truth
    ensures Expected(s, i).usedOvpn <= s.lines[i].ov.truth
  {
    hide Expected;
    assert SoundLine(s.rows[i], s.lines[i]) && Books(Expected(s, i), s.lines[i]);
  }

  /**
   * Over any interleaving of traffic, restarts, passes, recharges, panel writes, creations, attachments and
   * deletions: usage is conserved for every user whenever the lock is free, and never more than what really flowed.
   */
  lemma UsageConserved(s: State, es: seq<Event>, i: nat)
    requires |s.lines| == |s.rows| && Balanced(s) && CanRun(s, es) && i < |s.rows|
    requires RunAll(s, es).lock.Free?
    ensures var t := RunAll(s, es);
            && Conserved(t.rows[i], t.lines[i])
            && t.rows[i].used <= t.lines[i].rx.truth + t.lines[i].tx.truth
            && t.rows[i].usedOvpn <= t.lines[i].ov.truth
  {
    hide Balanced, Conserved;
    RunsKeepBalance(s, es);
    BalancedConserves(RunAll(s, es), i);
  }

  // ---- the real bytes ----

  function Bytes(e: Event, i: nat, which: Which): nat {
    if e.Traffic? && e.user == i && e.which == which then e.bytes else 0
  }

  /** What the run carried on one of user i's counters. */
  function Flowed(es: seq<Event>, i: nat, which: Which): nat {
    if es == [] then 0 else Bytes(es[0], i, which) + Flowed(es[1..], i, which)
  }

  /** In the run a recharge takes a new baseline for user i, or he is deleted. */
  predicate Rebased(s: State, es: seq<Event>, i: nat)
    requires |s.lines| == |s.rows| && CanRun(s, es)
    decreases |es|
  {
    es != [] && (Rebases(s, es[0], i) || Rebased(Apply(s, es[0]), es[1..], i))
  }

  predicate Rebases(s: State, e: Event, i: nat)
    requires |s.lines| == |s.rows| && CanStep(s, e)
  {
    (e.RechargeSample? && s.lock.user == i && s.lock.req.WantsReset()) || (e.Delete? && e.user == i)
  }

  lemma StepCountsTraffic(s: State, e: Event, i: nat)
    requires |s.lines| == |s.rows| && CanStep(s, e) && i < |s.rows| && i < s.born && !Rebases(s, e, i)
    ensures i < Apply(s, e).born
    ensures var (l, k) := (s.lines[i], Apply(s, e).lines[i]);
            && k.rx.truth == l.rx.truth + Bytes(e, i, RX) && k.tx.truth == l.tx.truth + Bytes(e, i, TX)
            && k.ov.truth == l.ov.truth + Bytes(e, i, OV)
  {
    hide MergeTick, TickRow, Recharged, ApplyWrite, SampleOf, Claimed, IPs, WgListing, OvListing;
  }

  /** The account of real bytes grows by exactly the traffic of the run. */
  lemma {:induction false} TruthIsTraffic(s: State, es: seq<Event>, i: nat)
    requires |s.lines| == |s.rows| && CanRun(s, es) && i < |s.rows| && i < s.born && !Rebased(s, es, i)
    ensures var (l, k) := (s.lines[i], RunAll(s, es).lines[i]);
            && k.rx.truth == l.rx.truth + Flowed(es, i, RX) && k.tx.truth == l.tx.truth + Flowed(es, i, TX)
            && k.ov.truth == l.ov.truth + Flowed(es, i, OV)
    decreases |es|
  {
    hide CanStep, Apply, Bytes, Rebases;
    if es == [] {
    } else {
      StepCountsTraffic(s, es[0], i);
      TruthIsTraffic(Apply(s, es[0]), es[1..], i);
    }
  }

  // ---- exact without restarts ----

  predicate Unbroken(l: Line) {
    !l.rx.restarted && !l.tx.restarted && !l.ov.restarted && l.rx.lost == 0 && l.tx.lost == 0 && l.ov.lost == 0
  }

  predicate Interrupts(e: Event, i: nat) {
    (e.WgSession? || e.OvSession? || e.Delete?) && e.user == i
  }

  lemma StepKeepsUnbroken(s: State, e: Event, i: nat)
    requires |s.lines| == |s.rows| && Balanced(s) && CanStep(s, e) && i < |s.rows| && i < s.born
    requires Unbroken(s.lines[i]) && !Interrupts(e, i)
    ensures i < Apply(s, e).born
    ensures Unbroken(Apply(s, e).lines[i])
  {
    hide TickRow, MergeTick, Recharged, BillWG, BillOV, SnapshotCurrent, Claimed, IPs, ApplyWrite, ReadLineWG;
    hide ReadLineOV;
    hide ApplyTraffic, Unbroken, ZeroLine, SampleOf, Expected, Books, SoundLine;
    BalancedLine(s, i);
    NothingRead(s, i);
    LineStaysUnbroken(s.rows[i], s.lines[i], e);
  }

  lemma LineStaysUnbroken(p: Peer, l: Line, e: Event)
    requires SoundLine(p, l) && Unbroken(l)
    ensures e.Traffic? ==> Unbroken(ApplyTraffic(l, e.which, e.bytes))
    ensures forall tr :: Unbroken(ReadLineWG(p, l, tr))
    ensures forall ov :: Unbroken(ReadLineOV(p, l, ov))
    ensures Books(p, l) ==> Unbroken(ZeroLine(l, SampleOf(p, l)))
  {
  }

  lemma NothingRead(s: State, i: nat)
    requires i < |s.rows|
    ensures s.lock.ResetBegun? ==> Expected(s, i) == s.rows[i]
  {
  }

  /**
   * No byte escapes, through passes, recharges and other users' restarts, while the user's own counters keep
   * running.
   */
  lemma {:induction false} ExactWithoutRestarts(s: State, es: seq<Event>, i: nat)
    requires |s.lines| == |s.rows| && Balanced(s) && CanRun(s, es) && i < |s.rows| && i < s.born && Unbroken(s.lines[i])
    requires forall k :: 0 <= k < |es| ==> !Interrupts(es[k], i)
    ensures var t := RunAll(s, es);
            && Unbroken(t.lines[i])
            && t.lines[i].rx.truth + t.lines[i].tx.truth ==
               Expected(t, i).used + (t.lines[i].rx.live - t.lines[i].rx.ref) + (t.lines[i].tx.live - t.lines[i].tx.ref)
            && t.lines[i].ov.truth == Expected(t, i).usedOvpn + (t.lines[i].ov.live - t.lines[i].ov.ref)
    decreases |es|
  {
    hide Balanced, CanStep, Expected, Apply;
    if es == [] {
      BalancedLine(s, i);
    } else {
      assert !Interrupts(es[0], i);
      StepKeepsBalance(s, es[0]);
      StepKeepsUnbroken(s, es[0], i);
      assert forall k :: 0 <= k < |es[1..]| ==> es[1..][k] == es[k + 1];
      ExactWithoutRestarts(Apply(s, es[0]), es[1..], i);
    }
  }

  // ---- the bytes hidden ----

  /** The bytes that a step hides from the readings of user i's counters for good. */
  function Hides(s: State, e: Event, i: nat): nat
    requires |s.lines| == |s.rows| && i < |s.rows|
  {
    var l := s.lines[i];
    match e
    case WgSession(u, _) => if u == i then Unread(l.rx) + Unread(l.tx) else 0
    case OvSession(u, _) => if u == i then Unread(l.ov) else 0
    case Traffic(u, which, n) => if u == i then CatchesUp(MeterOf(l, which), n) else 0
    case _ => 0
  }

  function MeterOf(l: Line, which: Which): Meter {
    match which
    case RX => l.rx
    case TX => l.tx
    case OV => l.ov
  }

  function Hidden(s: State, es: seq<Event>, i: nat): nat
    requires |s.lines| == |s.rows| && i < |s.rows| && CanRun(s, es)
    decreases |es|
  {
    if es == [] then 0 else Hides(s, es[0], i) + Hidden(Apply(s, es[0]), es[1..], i)
  }

  function Lost(l: Line): nat { l.rx.lost + l.tx.lost + l.ov.lost }

  lemma StepLosesHidden(s: State, e: Event, i: nat)
    requires |s.lines| == |s.rows| && CanStep(s, e) && i < |s.rows| && i < s.born && !Rebases(s, e, i)
    ensures Lost(Apply(s, e).lines[i]) == Lost(s.lines[i]) + Hides(s, e, i)
  {
    hide MergeTick, TickRow, Recharged, ApplyWrite, SampleOf, Claimed, IPs, WgListing, OvListing, LeftBehind, WithOvpn;
  }

  /** What is lost is what was hidden: bytes unread at a restart, or a restart that traffic covered up. */
  lemma {:induction false} LostIsHidden(s: State, es: seq<Event>, i: nat)
    requires |s.lines| == |s.rows| && CanRun(s, es) && i < |s.rows| && i < s.born && !Rebased(s, es, i)
    ensures Lost(RunAll(s, es).lines[i]) == Lost(s.lines[i]) + Hidden(s, es, i)
    decreases |es|
  {
    hide CanStep, Apply, Hides, Lost, Rebases;
    if es == [] {
    } else {
      StepCountsTraffic(s, es[0], i);
      StepLosesHidden(s, es[0], i);
      LostIsHidden(Apply(s, es[0]), es[1..], i);
    }
  }

  /** Every byte that flowed is billed or can still be read. */
  predicate Exact(p: Peer, l: Line) {
    && l.rx.truth + l.tx.truth == p.used + Delta(l.rx.live, p.lastRx) + Delta(l.tx.live, p.lastTx)
    && l.ov.truth == p.usedOvpn + Delta(l.ov.live, p.lastOvpn)
  }

  /**
   * From an account without losses, through any run without a new baseline: nothing escapes exactly if nothing
   * was hidden. Restarts do no harm by themselves.
   */
  lemma ExactUnlessHidden(s: State, es: seq<Event>, i: nat)
    requires |s.lines| == |s.rows| && Balanced(s) && CanRun(s, es) && i < |s.rows| && i < s.born && !Rebased(s, es, i)
    requires Lost(s.lines[i]) == 0 && RunAll(s, es).lock.Free?
    ensures var t := RunAll(s, es);
            Exact(t.rows[i], t.lines[i]) <==> Hidden(s, es, i) == 0
  {
    hide Balanced, CanRun, RunAll, Rebased, Hidden;
    LostIsHidden(s, es, i);
    UsageConserved(s, es, i);
  }

  /** A restart hides nothing right after a reading; traffic hides something only behind a restart. */
  lemma WhatHides(s: State, e: Event, i: nat)
    requires |s.lines| == |s.rows| && Balanced(s) && i < |s.rows|
    ensures var l := s.lines[i];
            && (e.WgSession? && l.rx.live == l.rx.ref && l.tx.live == l.tx.ref ==> Hides(s, e, i) == 0)
            && (e.OvSession? && l.ov.live == l.ov.ref ==> Hides(s, e, i) == 0)
            && (e.Traffic? && !MeterOf(l, e.which).restarted ==> Hides(s, e, i) == 0)
  {
    hide Expected;
    assert SoundLine(s.rows[i], s.lines[i]);
  }

  lemma BalancedLine(s: State, i: nat)
    requires |s.lines| == |s.rows| && Balanced(s) && i < |s.rows|
    ensures SoundLine(s.rows[i], s.lines[i]) && Books(Expected(s, i), s.lines[i])
  {
  }

  // ---- the lock, and the columns ----

  /** What user i owes for the traffic of a run, no byte twice and none of an earlier period. */
  predicate OwesFor(p: Peer, l: Line, es: seq<Event>, i: nat) {
    && p.used + Delta(l.rx.live, p.lastRx) + Delta(l.tx.live, p.lastTx) + l.rx.lost + l.tx.lost ==
       Flowed(es, i, RX) + Flowed(es, i, TX)
    && p.usedOvpn + Delta(l.ov.live, p.lastOvpn) + l.ov.lost == Flowed(es, i, OV)
    && p.used <= Flowed(es, i, RX) + Flowed(es, i, TX) && p.usedOvpn <= Flowed(es, i, OV)
  }

  lemma SampleStartsAtZero(s: State)
    requires |s.lines| == |s.rows| && Balanced(s) && CanStep(s, RechargeSample) && s.lock.req.WantsReset()
    ensures s.lock.user < s.born <= |s.rows| && Apply(s, RechargeSample).born == s.born
    ensures var l := Apply(s, RechargeSample).lines[s.lock.user];
            l.rx.truth == 0 && l.tx.truth == 0 && l.ov.truth == 0
  {
    BalancedLine(s, s.lock.user);
  }

  /**
   * From the moment a recharge takes its baseline, whatever runs, before its commit or after it: once the lock
   * is free the user owes for exactly the bytes that flowed since, until a new baseline is taken.
   */
  lemma ResetIsNotLost(s: State, es: seq<Event>, i: nat)
    requires |s.lines| == |s.rows| && Balanced(s) && CanStep(s, RechargeSample) && s.lock.user == i
    requires s.lock.req.WantsReset()
    requires CanRun(Apply(s, RechargeSample), es) && !Rebased(Apply(s, RechargeSample), es, i)
    requires RunAll(Apply(s, RechargeSample), es).lock.Free?
    ensures i < |s.rows|
    ensures var t := RunAll(Apply(s, RechargeSample), es);
            OwesFor(t.rows[i], t.lines[i], es, i)
  {
    hide Balanced, Apply, CanStep, CanRun, RunAll, Rebased, Conserved;
    SampleStartsAtZero(s);
    StepKeepsBalance(s, RechargeSample);
    TruthIsTraffic(Apply(s, RechargeSample), es, i);
    UsageConserved(Apply(s, RechargeSample), es, i);
    ConservedMeans(RunAll(Apply(s, RechargeSample), es), i);
  }

  lemma ConservedMeans(t: State, i: nat)
    requires |t.lines| == |t.rows| && i < |t.rows| && Conserved(t.rows[i], t.lines[i])
    ensures var (p, l) := (t.rows[i], t.lines[i]);
            && l.rx.truth + l.tx.truth ==
               p.used + Delta(l.rx.live, p.lastRx) + Delta(l.tx.live, p.lastTx) + l.rx.lost + l.tx.lost
            && l.ov.truth == p.usedOvpn + Delta(l.ov.live, p.lastOvpn) + l.ov.lost
  {
  }

  // ---- the reset that does not ask for the lock ----

  /** The command-line reset: one row written by another process, whoever holds the lock. */
  function CliWrite(s: State, i: nat): (s': State)
    requires |s.lines| == |s.rows| && i < |s.rows|
    ensures |s'.lines| == |s'.rows| == |s.rows|
  {
    s.(rows := s.rows[i := CliReset(s.rows[i])])
  }

  /** The pass under way has yet to write this user's WireGuard usage, from its snapshot. */
  predicate TurnToCome(s: State, i: nat) {
    && s.lock.TickLoop? && s.lock.next <= i < |s.lock.snap| && !Vacant(s.lock.snap[i])
    && s.lock.snap[i].publicKey != "" && s.lock.snap[i].publicKey in s.lock.tr
  }

  datatype Usage = Usage(used: int, rx: int, tx: int)

  const RESET := Usage(0, 0, 0)

  function UsageOf(p: Peer): Usage {
    Usage(p.used, p.lastRx, p.lastTx)
  }

  /** What the user's WireGuard usage will be when the pass under way has had his turn. */
  function Coming(s: State, i: nat): Usage
    requires i < |s.rows|
  {
    if TurnToCome(s, i) then UsageOf(BillWG(s.lock.snap[i], s.lock.tr)) else UsageOf(s.rows[i])
  }

  /** Another write on purpose to the user's usage, or the next pass. */
  predicate Rewrites(s: State, e: Event, i: nat)
    requires |s.lines| == |s.rows| && CanStep(s, e)
  {
    e.TickSnapshot? || (e.Delete? && e.user == i) ||
    (e.RechargeCommit? && s.lock.user == i && s.lock.req.WantsReset())
  }

  predicate Rewritten(s: State, es: seq<Event>, i: nat)
    requires |s.lines| == |s.rows| && CanRun(s, es)
    decreases |es|
  {
    es != [] && (Rewrites(s, es[0], i) || Rewritten(Apply(s, es[0]), es[1..], i))
  }

  lemma UsageOfMerge(cur: Peer, p: Peer, tr: Transfers, ov: Sessions, now: int)
    ensures var m := MergeTick(cur, p, tr, ov, now);
            && UsageOf(m) == (if p.publicKey != "" && p.publicKey in tr then UsageOf(BillWG(p, tr)) else UsageOf(cur))
            && (Vacant(m) <==> Vacant(cur))
  {
  }

  lemma UsageElsewhere(s: State, e: Event)
    requires |s.lines| == |s.rows|
    ensures e.RechargeCommit? && s.lock.ResetSampled? && s.lock.user < |s.rows| ==>
              var p, q := s.rows[s.lock.user], Recharged(s.rows[s.lock.user], s.lock.req, s.lock.base);
              (s.lock.req.WantsReset() || UsageOf(p) == UsageOf(q)) && (Vacant(p) <==> Vacant(q))
    ensures e.PanelWrite? && e.user < |s.rows| ==>
              var p, q := s.rows[e.user], ApplyWrite(s.rows[e.user], e.write);
              UsageOf(p) == UsageOf(q) && (Vacant(p) <==> Vacant(q))
    ensures e.Attach? && e.user < |s.rows| ==>
              var p, q := s.rows[e.user], WithOvpn(s.rows[e.user], e.ip, e.cred);
              UsageOf(p) == UsageOf(q) && (Vacant(p) <==> Vacant(q))
  {
  }

  lemma StepKeepsComing(s: State, e: Event, i: nat)
    requires |s.lines| == |s.rows| && CanStep(s, e) && i < |s.rows| && i < s.born && !Vacant(s.rows[i])
    requires !Rewrites(s, e, i)
    ensures var s' := Apply(s, e);
            i < s'.born && !Vacant(s'.rows[i]) && Coming(s', i) == Coming(s, i)
  {
    hide MergeTick, BillWG, Billed, TickRow, Recharged, ApplyWrite, WithOvpn, MayAttach, UsageOf, Vacant, Newcomer;
    hide SampleOf, ZeroLine, LeftBehind, IPs, Claimed, WgListing, OvListing;
    UsageElsewhere(s, e);
    if e.TickPeer? {
      var k := s.lock;
      UsageOfMerge(s.rows[k.next], k.snap[k.next], k.tr, k.ov, k.now);
    }
  }

  lemma {:induction false} RunKeepsComing(s: State, es: seq<Event>, i: nat)
    requires |s.lines| == |s.rows| && CanRun(s, es) && i < |s.rows| && i < s.born && !Vacant(s.rows[i])
    requires !Rewritten(s, es, i)
    ensures Coming(RunAll(s, es), i) == Coming(s, i)
    decreases |es|
  {
    hide CanStep, Apply, Coming, Rewrites;
    if es == [] {
    } else {
      StepKeepsComing(s, es[0], i);
      RunKeepsComing(Apply(s, es[0]), es[1..], i);
    }
  }

  /**
   * A command-line reset at any moment, then any run without another such write, up to a state in which the
   * user's turn in the pass is not still to come. If it was not to come at the reset either (the lock free, a
   * recharge under way, the snapshot not yet taken or the turn past), the reset stands. Otherwise the pass puts
   * the bill in its hands over it; so the reset stands only if that bill is itself the reset one.
   */
  lemma CliResetStandsExactly(s: State, es: seq<Event>, i: nat)
    requires |s.lines| == |s.rows| && i < |s.rows| && i < s.born && !Vacant(s.rows[i])
    requires CanRun(CliWrite(s, i), es) && !Rewritten(CliWrite(s, i), es, i)
    requires !TurnToCome(RunAll(CliWrite(s, i), es), i)
    ensures var u := UsageOf(RunAll(CliWrite(s, i), es).rows[i]);
            && (TurnToCome(s, i) ==> u == UsageOf(BillWG(s.lock.snap[i], s.lock.tr)))
            && (u == RESET <==> (TurnToCome(s, i) ==> UsageOf(BillWG(s.lock.snap[i], s.lock.tr)) == RESET))
  {
    hide CanRun, RunAll, Rewritten, BillWG;
    RunKeepsComing(CliWrite(s, i), es, i);
  }

  /** The bill in hand is the reset one only for a user who had used nothing and whose counters stand at zero. */
  lemma ResetBill(p: Peer, tr: Transfers)
    requires p.publicKey != "" && p.publicKey in tr && p.used >= 0 && p.lastRx >= 0 && p.lastTx >= 0
    ensures UsageOf(BillWG(p, tr)) == RESET <==> p.used == 0 && tr[p.publicKey] == (0, 0)
  {
  }

  // ---- a reset that is undone ----

  function WithKey(): Peer {
    NOBODY.(username := "alice", publicKey := "k")
  }

  /** A user is created, connects and receives b bytes. */
  function TrafficRun(b: nat): seq<Event> {
    [Create(WithKey()), WgSession(0, true), Traffic(0, RX, b)]
  }

  /** A pass reads the counters and takes its snapshot. */
  function SnapshotRun(b: nat): seq<Event> {
    [TickBegin(None), TickReadWG(map["k" := (b, 0)], true), TickReadOV(map[], true), TickSnapshot]
  }

  const ZERO := Meter(0, 0, 0, 0, 0, false)

  const UP := Line(ZERO.(restarted := true), ZERO.(restarted := true), ZERO, true, false)

  function AfterTraffic(b: nat): State {
    var up := Line(Meter(b, 0, b, 0, 0, true), ZERO.(restarted := true), ZERO, true, false);
    EMPTY.(rows := [WithKey(), NOBODY], born := 1, lines := [up, QUIET])
  }

  function Connected(): State {
    EMPTY.(rows := [WithKey(), NOBODY], born := 1, lines := [UP, QUIET])
  }

  lemma Creates()
    ensures |EMPTY.lines| == |EMPTY.rows| && CanStep(EMPTY, Create(WithKey()))
    ensures Apply(EMPTY, Create(WithKey())) == EMPTY.(rows := [WithKey(), NOBODY], born := 1)
    ensures WithKey().publicKey != ""
  {
    assert Newcomer(EMPTY, WithKey());
    assert EMPTY.lines[0 := QUIET] == EMPTY.lines;
  }

  lemma Connects(s: State)
    requires |s.lines| == |s.rows| && 0 < |s.rows| && s.rows[0].publicKey != "" && s.lines[0] == QUIET
    ensures CanStep(s, WgSession(0, true)) && Apply(s, WgSession(0, true)) == s.(lines := s.lines[0 := UP])
  {
    hide TickRow, MergeTick, LeftBehind, Recharged, IPs, SampleOf, Restart;
    assert Restart(ZERO) == ZERO.(restarted := true) by {
      RestartsZero();
    }
  }

  lemma RestartsZero()
    ensures Restart(ZERO) == ZERO.(restarted := true)
  {
  }

  lemma Receives(b: nat)
    ensures var s := Connected();
            |s.lines| == |s.rows| && CanStep(s, Traffic(0, RX, b)) && Apply(s, Traffic(0, RX, b)) == AfterTraffic(b)
  {
  }

  lemma TrafficRuns(b: nat)
    ensures |EMPTY.lines| == |EMPTY.rows| && CanRun(EMPTY, TrafficRun(b))
    ensures RunAll(EMPTY, TrafficRun(b)) == AfterTraffic(b)
  {
    hide Apply, CanStep, CanRun, RunAll, WithKey;
    Creates();
    Connects(EMPTY.(rows := [WithKey(), NOBODY], born := 1));
    assert [QUIET, QUIET][0 := UP] == [UP, QUIET];
    Receives(b);
    ThreeSteps(EMPTY, Create(WithKey()), WgSession(0, true), Traffic(0, RX, b));
  }

  lemma ThreeSteps(s: State, a: Event, b: Event, c: Event)
    requires |s.lines| == |s.rows| && CanStep(s, a) && CanStep(Apply(s, a), b) && CanStep(Apply(Apply(s, a), b), c)
    ensures CanRun(s, [a, b, c]) && RunAll(s, [a, b, c]) == Apply(Apply(Apply(s, a), b), c)
  {
    hide Apply, CanStep, CanRun, RunAll;
    EndOfRun(Apply(Apply(Apply(s, a), b), c));
    RunPrefix(Apply(Apply(s, a), b), c, []);
    assert [c] + [] == [c];
    RunPrefix(Apply(s, a), b, [c]);
    assert [b] + [c] == [b, c];
    RunPrefix(s, a, [b, c]);
    assert [a] + [b, c] == [a, b, c];
  }

  lemma SnapshotRuns(b: nat)
    ensures var s := AfterTraffic(b);
            && |s.lines| == |s.rows| && CanRun(s, SnapshotRun(b))
            && var t := RunAll(s, SnapshotRun(b));
            && t.rows == s.rows && t.born == 1
            && t.lock == TickLoop(None, map["k" := (b, 0)], map[], 0, s.rows, 0)
  {
    hide Apply, CanStep, CanRun, RunAll;
    var tr: Transfers, ov: Sessions := map["k" := (b, 0)], map[];
    var s := AfterTraffic(b);
    assert WgListing(s, tr, true) && OvListing(s, ov, true);
    PassBegins(s, tr, ov);
    EndOfRun(Apply(Apply(Apply(Apply(s, TickBegin(None)), TickReadWG(tr, true)), TickReadOV(ov, true)), TickSnapshot));
    FourSteps(s, TickBegin(None), TickReadWG(tr, true), TickReadOV(ov, true), TickSnapshot, []);
    assert SnapshotRun(b) + [] == SnapshotRun(b);
  }

  /**
   * From the start there is a run into the middle of a pass after which a command-line reset is undone: once
   * the pass has had its turn, the user has used the same b bytes again.
   */
  lemma CliResetIsUndone(b: nat) returns (es: seq<Event>)
    requires b > 0
    ensures |EMPTY.lines| == |EMPTY.rows| && Start(EMPTY) && CanRun(EMPTY, es)
    ensures var s := RunAll(EMPTY, es);
            && |s.rows| > 0 && CanStep(CliWrite(s, 0), TickPeer)
            && CliWrite(s, 0).rows[0].used == 0 && Apply(CliWrite(s, 0), TickPeer).rows[0].used == b
            && TurnToCome(s, 0) && !TurnToCome(Apply(CliWrite(s, 0), TickPeer), 0)
  {
    es := TrafficRun(b) + SnapshotRun(b);
    assert Start(EMPTY) by {
      assert forall i :: 0 <= i < 2 ==> EMPTY.rows[i] == NOBODY && EMPTY.lines[i] == QUIET;
    }
    TrafficRuns(b);
    SnapshotRuns(b);
    JoinRuns(EMPTY, TrafficRun(b), SnapshotRun(b));
    var s := RunAll(EMPTY, es);
    UsageOfMerge(CliReset(s.rows[0]), s.lock.snap[0], s.lock.tr, s.lock.ov, s.lock.now);
  }

  /** Panel writes need no lock: they commute with the writes of a pass. */
  lemma WritesCommuteWithPass(s: State, pid: Pid, i: nat, w: Write)
    requires |s.lines| == |s.rows| && CanStep(s, TickPeer) && CanStep(s, PanelWrite(pid, i, w))
    ensures CanStep(Apply(s, TickPeer), PanelWrite(pid, i, w)) && CanStep(Apply(s, PanelWrite(pid, i, w)), TickPeer)
    ensures Apply(Apply(s, TickPeer), PanelWrite(pid, i, w)) == Apply(Apply(s, PanelWrite(pid, i, w)), TickPeer)
  {
    hide TickRow, MergeTick, ApplyWrite, IPs;
    var k := s.lock;
    forall p: Peer, w
      ensures ApplyWrite(p, w).username == p.username
    {
      WriteKeepsName(p, w);
    }
    MergeKeepsName(s.rows[k.next], k.snap[k.next], k.tr, k.ov, k.now);
    if i == k.next {
      WriteCommutesWithMerge(s.rows[i], k.snap[i], k.tr, k.ov, k.now, w);
    }
    var a, b := Apply(Apply(s, TickPeer), PanelWrite(pid, i, w)), Apply(Apply(s, PanelWrite(pid, i, w)), TickPeer);
    assert a.rows == b.rows;
  }

  lemma WriteKeepsName(p: Peer, w: Write)
    ensures ApplyWrite(p, w).username == p.username
  {
  }

  lemma MergeKeepsName(cur: Peer, p: Peer, tr: Transfers, ov: Sessions, now: int)
    ensures MergeTick(cur, p, tr, ov, now).username == cur.username
  {
    hide TickRow;
  }

  lemma WriteCommutesWithMerge(cur: Peer, p: Peer, tr: Transfers, ov: Sessions, now: int, w: Write)
    ensures ApplyWrite(MergeTick(cur, p, tr, ov, now), w) == MergeTick(ApplyWrite(cur, w), p, tr, ov, now)
  {
    hide TickRow, PutWG, PutOV, PutFlag, ApplyWrite;
    var q := TickRow(p, tr, ov, now);
    var c1 := PutWG(cur, p, q, tr);
    var c2 := PutOV(c1, p, q, ov);
    WriteCommutesWithPuts(cur, p, q, tr, ov, w);
    WriteCommutesWithPuts(c1, p, q, tr, ov, w);
    WriteCommutesWithPuts(c2, p, q, tr, ov, w);
  }

  lemma WriteCommutesWithPuts(cur: Peer, p: Peer, q: Peer, tr: Transfers, ov: Sessions, w: Write)
    ensures ApplyWrite(PutWG(cur, p, q, tr), w) == PutWG(ApplyWrite(cur, w), p, q, tr)
    ensures ApplyWrite(PutOV(cur, p, q, ov), w) == PutOV(ApplyWrite(cur, w), p, q, ov)
    ensures ApplyWrite(PutFlag(cur, p, q), w) == PutFlag(ApplyWrite(cur, w), p, q)
  {
    WriteCommutesWithUsage(cur, w, q.used, q.lastRx, q.lastTx);
    WriteCommutesWithOvpn(cur, w, q.usedOvpn, q.lastOvpn);
    WriteCommutesWithFlag(cur, w, q.blocked);
    hide ApplyWrite;
  }

  lemma WriteCommutesWithUsage(p: Peer, w: Write, used: int, rx: int, tx: int)
    ensures ApplyWrite(p.(used := used, lastRx := rx, lastTx := tx), w) ==
              ApplyWrite(p, w).(used := used, lastRx := rx, lastTx := tx)
  {
  }

  lemma WriteCommutesWithOvpn(p: Peer, w: Write, used: int, bytes: int)
    ensures ApplyWrite(p.(usedOvpn := used, lastOvpn := bytes), w) ==
              ApplyWrite(p, w).(usedOvpn := used, lastOvpn := bytes)
  {
  }

  lemma WriteCommutesWithFlag(p: Peer, w: Write, blocked: bool)
    ensures ApplyWrite(p.(blocked := blocked), w) == ApplyWrite(p, w).(blocked := blocked)
  {
  }
}
