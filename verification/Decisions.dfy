/** Who is blocked, told from the traffic that flowed and from what the administrator wrote. */
module Decisions {
  import opened Wrappers
  import opened IPv4
  import opened Peers
  import opened Enforcement
  import opened Metering
  import opened Reset
  import opened Machine
  import opened Conservation
  import opened Quiescence

  /** A billing period begins: nothing has flowed in it yet, and nothing is lost. */
  predicate NewPeriod(l: Line) {
    && l.rx.truth == 0 && l.tx.truth == 0 && l.ov.truth == 0
    && l.rx.lost == 0 && l.tx.lost == 0 && l.ov.lost == 0
  }

  lemma ResetStartsPeriod(s: State)
    requires |s.lines| == |s.rows| && Balanced(s) && CanStep(s, RechargeSample) && s.lock.req.WantsReset()
    ensures s.lock.user < s.born <= |s.rows| && NewPeriod(Apply(s, RechargeSample).lines[s.lock.user])
  {
    BalancedLine(s, s.lock.user);
  }

  /**
   * A reset leaves nothing unread on the counters it sees: on the OpenVPN session's always, connected or not, on
   * WireGuard's when the peer is up. No traffic is hidden there until the next restart.
   */
  lemma ResetReadsAll(s: State)
    requires |s.lines| == |s.rows| && Balanced(s) && CanStep(s, RechargeSample) && s.lock.req.WantsReset()
    ensures s.lock.user < |s.rows|
    ensures var p, l := s.rows[s.lock.user], Apply(s, RechargeSample).lines[s.lock.user];
            && (p.cn != "" ==> Unread(l.ov) == 0 && !l.ov.restarted)
            && (l.wgUp ==> Unread(l.rx) == 0 && Unread(l.tx) == 0 && !l.rx.restarted && !l.tx.restarted)
  {
    BalancedLine(s, s.lock.user);
  }

  lemma CreationStartsPeriod(s: State, p: Peer)
    requires |s.lines| == |s.rows| && CanStep(s, Create(p))
    ensures s.born < |s.rows| && NewPeriod(Apply(s, Create(p)).lines[s.born])
  {
  }

  function AllFlowed(es: seq<Event>, i: nat): nat {
    Flowed(es, i, RX) + Flowed(es, i, TX) + Flowed(es, i, OV)
  }

  function AllUnread(l: Line): nat {
    Unread(l.rx) + Unread(l.tx) + Unread(l.ov)
  }

  /** No handler has written this user's row and still has its own pass to finish. */
  predicate NoneWaitingFor(s: State, i: nat) {
    forall pid :: pid in s.waiting ==> s.waiting[pid] != i
  }

  lemma NotTouched(s: State, i: nat)
    requires Covered(s) && NoneWaitingFor(s, i)
    ensures i !in s.touched
  {
  }

  /** With the lock free, usage in the row is what flowed, less what is unread and what was hidden. */
  lemma UsedIsFlowed(s: State, es: seq<Event>, i: nat)
    requires |s.lines| == |s.rows| && Balanced(s) && CanRun(s, es) && i < |s.rows| && i < s.born
    requires NewPeriod(s.lines[i]) && !Rebased(s, es, i) && RunAll(s, es).lock.Free?
    ensures var t := RunAll(s, es);
            t.rows[i].used + t.rows[i].usedOvpn + AllUnread(t.lines[i]) + Hidden(s, es, i) == AllFlowed(es, i)
  {
    hide Balanced, CanRun, RunAll, Rebased, Hidden, Flowed;
    TruthIsTraffic(s, es, i);
    LostIsHidden(s, es, i);
    RunsKeepBalance(s, es);
    BalancedLine(RunAll(s, es), i);
    BookedUsage(RunAll(s, es).rows[i], RunAll(s, es).lines[i]);
  }

  lemma BookedUsage(p: Peer, l: Line)
    requires SoundLine(p, l) && Books(p, l)
    ensures p.used + p.usedOvpn + AllUnread(l) + Lost(l) == l.rx.truth + l.tx.truth + l.ov.truth
  {
  }

  /**
   * Over every run from the beginning of a user's billing period, with the lock free and no handler waiting
   * for him: he is blocked exactly if he is disabled, or has expired by the last pass's clock, or has a
   * quota that the bytes of both protocols since then reach, not counting those unread or hidden.
   */
  lemma BlockedExactly(s: State, es: seq<Event>, i: nat)
    requires |s.lines| == |s.rows| && Settling(s) && CanRun(s, es) && i < |s.rows| && i < s.born
    requires NewPeriod(s.lines[i]) && !Rebased(s, es, i)
    requires var t := RunAll(s, es); t.lock.Free? && t.lastTick.Some? && NoneWaitingFor(t, i)
    ensures var t := RunAll(s, es);
            var p := t.rows[i];
            p.blocked <==>
              || !p.enabled
              || (p.expires.Some? && p.expires.value < t.lastTick.value)
              || (p.quota > 0 && AllFlowed(es, i) >= p.quota + AllUnread(t.lines[i]) + Hidden(s, es, i))
  {
    hide Balanced, CanRun, RunAll, Rebased, Hidden, Covered, AllFlowed, AllUnread, SetRight, Unseen, ClocksRight;
    var t := RunAll(s, es);
    RunsKeepSettling(s, es);
    NotTouched(t, i);
    UsedIsFlowed(s, es, i);
  }

  /** With every byte read and none hidden, a quota blocks exactly when it has been used up. */
  lemma QuotaBlocksExactly(s: State, es: seq<Event>, i: nat)
    requires |s.lines| == |s.rows| && Settling(s) && CanRun(s, es) && i < |s.rows| && i < s.born
    requires NewPeriod(s.lines[i]) && !Rebased(s, es, i)
    requires var t := RunAll(s, es); t.lock.Free? && t.lastTick.Some? && NoneWaitingFor(t, i)
    requires AllUnread(RunAll(s, es).lines[i]) == 0 && Hidden(s, es, i) == 0
    requires var t := RunAll(s, es);
             && t.rows[i].enabled && t.rows[i].quota > 0
             && (t.rows[i].expires.None? || t.lastTick.value <= t.rows[i].expires.value)
    ensures RunAll(s, es).rows[i].blocked <==> AllFlowed(es, i) >= RunAll(s, es).rows[i].quota
  {
    hide CanRun, RunAll, Rebased, Hidden, AllFlowed, AllUnread, Settling;
    BlockedExactly(s, es, i);
  }

  /**
   * Whatever was used: with the lock free and no handler waiting for him, a disabled or expired user is blocked,
   * an enabled one without quota and not expired is not; and the set has the addresses of just the blocked,
   * but for late and stuck ones.
   */
  lemma AdministrationEnforced(s: State, es: seq<Event>, i: nat)
    requires |s.lines| == |s.rows| && Settling(s) && CanRun(s, es) && i < |s.rows|
    requires var t := RunAll(s, es); t.lock.Free? && t.lastTick.Some? && NoneWaitingFor(t, i)
    ensures var t := RunAll(s, es);
            var p := t.rows[i];
            && (!p.enabled || (p.expires.Some? && p.expires.value < t.lastTick.value) ==> p.blocked)
            && (p.enabled && (p.expires.None? || t.lastTick.value <= p.expires.value) && p.quota <= 0 ==> !p.blocked)
            && forall ip :: p.address == Some(ip) || p.ovpnIP == Some(ip) ==>
                 (ip in t.ipset <==> (p.blocked && ip !in t.late) || ip in t.stuck)
  {
    hide Balanced, CanRun, RunAll, Covered, Unseen, ClocksRight, BlockedIPs, DistinctIPs;
    var t := RunAll(s, es);
    var p := t.rows[i];
    RunsKeepSettling(s, es);
    NotTouched(t, i);
    forall ip | p.address == Some(ip) || p.ovpnIP == Some(ip)
      ensures ip in BlockedIPs(t.rows) <==> p.blocked
    {
      OwnerDecides(t.rows, i, ip);
    }
  }

  // ---- what the administrator writes is enforced ----

  /** Nobody else writes the user's quota, expiry or enabled columns. */
  predicate AdminIsQuiet(s: State, es: seq<Event>, i: nat) {
    && (s.lock.ResetBegun? || s.lock.ResetSampled? ==> s.lock.user != i)
    && forall k :: 0 <= k < |es| ==> !((es[k].PanelWrite? || es[k].RechargeBegin? || es[k].Delete?) && es[k].user == i)
  }

  lemma StepKeepsAdmin(s: State, e: Event, i: nat)
    requires |s.lines| == |s.rows| && Balanced(s) && CanStep(s, e) && i < |s.rows| && i < s.born
    requires AdminIsQuiet(s, [e], i)
    ensures var t := Apply(s, e);
            && SameAdmin(t.rows[i], s.rows[i]) && i < t.born && AdminIsQuiet(t, [], i)
            && t.rows[i].username == s.rows[i].username
  {
    hide TickRow, IPs, SampleOf, ZeroLine, WgListing, OvListing, Newcomer, Recharged, ApplyWrite, LeftBehind, Body;
    hide Grown;
    hide Books, SoundLine, Expected, MergeTick, Claimed;
    assert !(([e][0].PanelWrite? || [e][0].RechargeBegin? || [e][0].Delete?) && [e][0].user == i);
    if e.TickPeer? && i == s.lock.next && !Vacant(s.lock.snap[i]) && !Vacant(s.rows[i]) {
      MergeWritesAll(s.rows[i], s.lock.snap[i], s.lock.tr, s.lock.ov, s.lock.now);
    }
  }

  lemma {:induction false} RunKeepsAdmin(s: State, es: seq<Event>, i: nat)
    requires |s.lines| == |s.rows| && Balanced(s) && CanRun(s, es) && i < |s.rows| && i < s.born
    requires AdminIsQuiet(s, es, i)
    ensures SameAdmin(RunAll(s, es).rows[i], s.rows[i]) && RunAll(s, es).rows[i].username == s.rows[i].username
    decreases |es|
  {
    hide Balanced, CanStep, Apply;
    if es == [] {
    } else {
      assert AdminIsQuiet(s, [es[0]], i) by {
        assert [es[0]][0] == es[0];
      }
      StepKeepsBalance(s, es[0]);
      StepKeepsAdmin(s, es[0], i);
      assert forall k :: 0 <= k < |es[1..]| ==> es[1..][k] == es[k + 1];
      RunKeepsAdmin(Apply(s, es[0]), es[1..], i);
    }
  }

  /**
   * A quota, an expiry or a switch written by a handler is what the row says until somebody writes it again; and
   * once the handler's own pass is over and the lock free, a user switched off, or given an expiry that has
   * passed, is blocked, with all his addresses in the set but late ones.
   */
  lemma WritesAreEnforced(s: State, pid: Pid, i: nat, w: Write, es: seq<Event>)
    requires |s.lines| == |s.rows| && Settling(s) && CanStep(s, PanelWrite(pid, i, w)) && i < s.born
    requires CanRun(Apply(s, PanelWrite(pid, i, w)), es) && AdminIsQuiet(Apply(s, PanelWrite(pid, i, w)), es, i)
    ensures i < |s.rows|
    ensures var (p, q) := (s.rows[i], RunAll(Apply(s, PanelWrite(pid, i, w)), es).rows[i]);
            match w
            case Quota(b) => q.quota == b && q.expires == p.expires && q.enabled == p.enabled
            case Expiry(e) => q.expires == e && q.quota == p.quota && q.enabled == p.enabled
            case Enabled(on) => q.enabled == on && q.quota == p.quota && q.expires == p.expires
    ensures var t := RunAll(Apply(s, PanelWrite(pid, i, w)), es);
            t.lock.Free? && t.lastTick.Some? && NoneWaitingFor(t, i) &&
            (w == Enabled(false) || (w.Expiry? && w.at.Some? && w.at.value < t.lastTick.value)) ==>
              && t.rows[i].blocked
              && forall ip :: (t.rows[i].address == Some(ip) || t.rows[i].ovpnIP == Some(ip)) && ip !in t.late ==>
                   ip in t.ipset
  {
    var e := PanelWrite(pid, i, w);
    var s1 := Apply(s, e);
    assert s1.rows[i] == ApplyWrite(s.rows[i], w) && i < s1.born;
    WrittenColumns(s.rows[i], w);
    StepKeepsSettling(s, e);
    hide Settling, CanRun, RunAll, Apply, CanStep, ApplyWrite;
    SettlingBalances(s1);
    RunKeepsAdmin(s1, es, i);
    var t := RunAll(s1, es);
    if t.lock.Free? && t.lastTick.Some? && NoneWaitingFor(t, i) {
      AdministrationEnforced(s1, es, i);
    }
  }

  lemma SettlingBalances(s: State)
    requires |s.lines| == |s.rows| && Settling(s)
    ensures Balanced(s)
  {
  }

  lemma WrittenColumns(p: Peer, w: Write)
    ensures var q := ApplyWrite(p, w);
            match w
            case Quota(b) => q.quota == b && q.expires == p.expires && q.enabled == p.enabled
            case Expiry(e) => q.expires == e && q.quota == p.quota && q.enabled == p.enabled
            case Enabled(on) => q.enabled == on && q.quota == p.quota && q.expires == p.expires
  {
  }
}
