/** One enforcement pass: billing counter deltas, deciding who is blocked, and syncing the block set. */
module Enforcement {
  import opened Wrappers
  import opened IPv4
  import opened Peers

  // ---- what a pass does to one row ----

  /** Bytes a counter reading adds to the bill; a reading below the last one means the counter restarted. */
  function Delta(cur: int, last: int): int {
    if cur < last then cur else cur - last
  }

  function UsedTotal(p: Peer): int { p.used + p.usedOvpn }

  predicate EffectiveBlocked(p: Peer, now: int) {
    || !p.enabled
    || (p.expires.Some? && now > p.expires.value)
    || (p.quota > 0 && UsedTotal(p) >= p.quota)
  }

  /** Cumulative counters: public key to (received, sent), and OpenVPN common name to session bytes. */
  type Transfers = map<string, (int, int)>
  type Sessions = map<string, int>

  function BillWG(p: Peer, tr: Transfers): Peer {
    if p.publicKey in tr && p.publicKey != "" then
      var (rx, tx) := tr[p.publicKey];
      p.(used := p.used + Delta(rx, p.lastRx) + Delta(tx, p.lastTx), lastRx := rx, lastTx := tx)
    else
      p
  }

  function BillOV(p: Peer, ov: Sessions): Peer {
    if p.cn != "" && p.cn in ov then
      p.(usedOvpn := p.usedOvpn + Delta(ov[p.cn], p.lastOvpn), lastOvpn := ov[p.cn])
    else
      p
  }

  function Billed(p: Peer, tr: Transfers, ov: Sessions): Peer {
    BillOV(BillWG(p, tr), ov)
  }

  function TickRow(p: Peer, tr: Transfers, ov: Sessions, now: int): Peer {
    Billed(p, tr, ov).(blocked := EffectiveBlocked(Billed(p, tr, ov), now))
  }

  function TickRows(rows: seq<Peer>, tr: Transfers, ov: Sessions, now: int): (r: seq<Peer>)
    ensures |r| == |rows|
  {
    seq(|rows|, i requires 0 <= i < |rows| => TickRow(rows[i], tr, ov, now))
  }

  // ---- the block set ----

  /** Every address goes by the last row that claims it. */
  function LastClaim(rows: seq<Peer>): set<Addr> {
    if rows == [] then
      {}
    else
      var p := rows[|rows| - 1];
      LastClaim(rows[..|rows| - 1]) - IPs(p) + if p.blocked then IPs(p) else {}
  }

  function Claimed(rows: seq<Peer>): set<Addr> {
    if rows == [] then {} else Claimed(rows[..|rows| - 1]) + IPs(rows[|rows| - 1])
  }

  /** The definition in one line: the addresses of the blocked users. */
  function BlockedIPs(rows: seq<Peer>): set<Addr> {
    set i, ip | 0 <= i < |rows| && rows[i].blocked && ip in IPs(rows[i]) :: ip
  }

  class Enforcer {
    var rows: seq<Peer>
    var ipset: set<Addr>

    constructor (rows: seq<Peer>, ipset: set<Addr>)
      ensures this.rows == rows && this.ipset == ipset
    {
      this.rows := rows;
      this.ipset := ipset;
    }

    method SetMember(ip: Option<Addr>, blocked: bool)
      modifies this`ipset
      ensures ipset == match ip
                       case None => old(ipset)
                       case Some(a) => if blocked then old(ipset) + {a} else old(ipset) - {a}
    {
      if ip.Some? {
        if blocked {
          ipset := ipset + {ip.value};
        } else {
          ipset := ipset - {ip.value};
        }
      }
    }

    /** The members of the set, in some order. */
    method Members() returns (ms: seq<Addr>)
      ensures forall a :: a in ms <==> a in ipset
    {
      ms := [];
      var rest := ipset;
      while rest != {}
        invariant rest <= ipset
        invariant forall a :: a in ms <==> a in ipset - rest
        decreases rest
      {
        var a :| a in rest;
        ms, rest := ms + [a], rest - {a};
      }
    }

    /** WireGuard usage of one user of the snapshot, written to the row. */
    method BillWireGuard(i: nat, p0: Peer, tr: Transfers) returns (p: Peer)
      requires i < |rows| && rows[i] == p0
      modifies this`rows
      ensures p == BillWG(p0, tr)
      ensures rows == old(rows)[i := p]
    {
      p := p0;
      if p.publicKey in tr && p.publicKey != "" {
        var (rx, tx) := tr[p.publicKey];
        var drx := rx - p.lastRx;
        if rx < p.lastRx {
          drx := rx;
        }
        var dtx := tx - p.lastTx;
        if tx < p.lastTx {
          dtx := tx;
        }
        p := p.(used := p.used + (drx + dtx), lastRx := rx, lastTx := tx);
        rows := rows[i := rows[i].(used := p.used, lastRx := rx, lastTx := tx)];
      }
    }

    /** OpenVPN usage of one user of the snapshot, written to the row. */
    method BillOpenVPN(i: nat, p0: Peer, ov: Sessions) returns (p: Peer)
      requires i < |rows| && rows[i] == p0
      modifies this`rows
      ensures p == BillOV(p0, ov)
      ensures rows == old(rows)[i := p]
    {
      p := p0;
      if p.cn != "" {
        if p.cn in ov {
          var cur := ov[p.cn];
          var d := cur - p.lastOvpn;
          if cur < p.lastOvpn {
            d := cur;
          }
          p := p.(usedOvpn := p.usedOvpn + d, lastOvpn := cur);
          rows := rows[i := rows[i].(usedOvpn := p.usedOvpn, lastOvpn := cur)];
        }
      }
    }

    /** Blocks or unblocks both addresses of one user. */
    method SyncPeer(i: nat, p: Peer, now: int)
      requires i < |rows| && rows[i] == p
      modifies this
      ensures rows == old(rows)[i := p.(blocked := EffectiveBlocked(p, now))]
      ensures rows[i].blocked <==>
                || !p.enabled || (p.expires.Some? && p.expires.value < now)
                || (p.quota > 0 && p.used + p.usedOvpn >= p.quota)
      ensures forall a ::
                a in ipset <==> if p.address == Some(a) || p.ovpnIP == Some(a) then rows[i].blocked else a in old(ipset)
      ensures ipset == old(ipset) - IPs(p) + if EffectiveBlocked(p, now) then IPs(p) else {}
    {
      var blocked := EffectiveBlocked(p, now);
      SetMember(p.address, blocked);
      SetMember(p.ovpnIP, blocked);
      if blocked != p.blocked {
        rows := rows[i := rows[i].(blocked := blocked)];
      }
    }

    /** Sweeps the addresses no user claims. */
    method Reconcile(peers: seq<Peer>)
      modifies this`ipset
      ensures ipset == old(ipset) * Claimed(peers)
    {
      var known: set<Addr> := {};
      for i := 0 to |peers|
        invariant known == Claimed(peers[..i])
      {
        assert peers[..i + 1][..i] == peers[..i];
        if peers[i].address.Some? {
          known := known + {peers[i].address.value};
        }
        if peers[i].ovpnIP.Some? {
          known := known + {peers[i].ovpnIP.value};
        }
      }
      assert peers[..|peers|] == peers;
      var have := Members();
      var stale := StaleIPs(have, known);
      Sweep(stale);
    }

    /**
     * The pass. Each row's columns are written as its turn comes; the block set is first adjusted
     * user by user and then swept of addresses nobody claims. The set it started from does not matter.
     */
    method EnforceTick(tr: Transfers, ov: Sessions, now: int)
      modifies this
      ensures rows == TickRows(old(rows), tr, ov, now)
      ensures forall i :: 0 <= i < |rows| ==>
                var p := rows[i];
                p.blocked <==>
                  || !p.enabled || (p.expires.Some? && p.expires.value < now)
                  || (p.quota > 0 && p.used + p.usedOvpn >= p.quota)
      ensures ipset == LastClaim(rows)
    {
      hide TickRow, BillWG, BillOV, LastClaim, Claimed, EffectiveBlocked, IPs;
      var peers := rows;
      ghost var done := TickRows(peers, tr, ov, now);
      NoClaims(done);
      for i := 0 to |peers|
        invariant |rows| == |peers|
        invariant forall k :: 0 <= k < |rows| ==> rows[k] == if k < i then done[k] else peers[k]
        invariant ipset * Claimed(done[..i]) == LastClaim(done[..i])
      {
        ghost var was := ipset;
        var w := BillWireGuard(i, peers[i], tr);
        var p := BillOpenVPN(i, w, ov);
        SyncPeer(i, p, now);
        TickRowParts(peers[i], tr, ov, now);
        ClaimsStep(done, i, was, ipset);
      }
      assert done[..|peers|] == done && rows == done;
      LastClaimClaimed(done);
      forall i | 0 <= i < |peers|
        ensures IPs(peers[i]) == IPs(done[i])
      {
        TickRowParts(peers[i], tr, ov, now);
      }
      SameClaims(peers, done);
      Reconcile(peers);
      forall i | 0 <= i < |rows|
        ensures rows[i] == TickRow(peers[i], tr, ov, now)
        ensures var p := rows[i];
                p.blocked <==>
                  || !p.enabled || (p.expires.Some? && p.expires.value < now)
                  || (p.quota > 0 && p.used + p.usedOvpn >= p.quota)
      {
        TickDecides(peers[i], tr, ov, now);
      }
    }

    method Sweep(stale: seq<Addr>)
      modifies this`ipset
      ensures ipset == old(ipset) - (set a | a in stale)
    {
      for i := 0 to |stale|
        invariant ipset == old(ipset) - (set a | a in stale[..i])
      {
        ipset := ipset - {stale[i]};
      }
    }
  }

  /** The members of have that nobody wants, in order. */
  function Stale(have: seq<Addr>, want: set<Addr>): seq<Addr> {
    if have == [] then
      []
    else
      Stale(have[..|have| - 1], want) + if have[|have| - 1] in want then [] else [have[|have| - 1]]
  }

  method StaleIPs(have: seq<Addr>, want: set<Addr>) returns (out: seq<Addr>)
    ensures out == Stale(have, want)
    ensures forall a :: a in out <==> a in have && a !in want
  {
    out := [];
    for i := 0 to |have|
      invariant out == Stale(have[..i], want)
      invariant forall a :: a in out <==> a in have[..i] && a !in want
    {
      assert have[..i + 1][..i] == have[..i];
      if have[i] !in want {
        out := out + [have[i]];
      }
    }
    assert have[..|have|] == have;
  }

  lemma TickRowParts(p: Peer, tr: Transfers, ov: Sessions, now: int)
    ensures TickRow(p, tr, ov, now) == Billed(p, tr, ov).(blocked := EffectiveBlocked(Billed(p, tr, ov), now))
    ensures TickRow(p, tr, ov, now).blocked == EffectiveBlocked(Billed(p, tr, ov), now)
    ensures IPs(TickRow(p, tr, ov, now)) == IPs(Billed(p, tr, ov)) == IPs(p)
  {
  }

  lemma TickDecides(p: Peer, tr: Transfers, ov: Sessions, now: int)
    ensures var q := TickRow(p, tr, ov, now);
            q.blocked <==>
              || !q.enabled || (q.expires.Some? && q.expires.value < now)
              || (q.quota > 0 && q.used + q.usedOvpn >= q.quota)
  {
  }

  lemma NoClaims(rows: seq<Peer>)
    ensures LastClaim(rows[..0]) == {} && Claimed(rows[..0]) == {}
  {
  }

  /** Handling one more user keeps the set right on the addresses claimed so far. */
  lemma ClaimsStep(rows: seq<Peer>, i: nat, was: set<Addr>, now: set<Addr>)
    requires i < |rows| && was * Claimed(rows[..i]) == LastClaim(rows[..i])
    requires now == was - IPs(rows[i]) + if rows[i].blocked then IPs(rows[i]) else {}
    ensures now * Claimed(rows[..i + 1]) == LastClaim(rows[..i + 1])
  {
    hide IPs;
    assert rows[..i + 1][..i] == rows[..i];
  }

  lemma {:induction false} SameClaims(rows: seq<Peer>, done: seq<Peer>)
    requires |rows| == |done| && forall i :: 0 <= i < |rows| ==> IPs(rows[i]) == IPs(done[i])
    ensures Claimed(rows) == Claimed(done)
  {
    if rows == [] {
    } else {
      SameClaims(rows[..|rows| - 1], done[..|done| - 1]);
    }
  }

  lemma {:induction false} LastClaimClaimed(rows: seq<Peer>)
    ensures LastClaim(rows) <= Claimed(rows)
  {
    if rows == [] {
    } else {
      LastClaimClaimed(rows[..|rows| - 1]);
    }
  }

  lemma {:induction false} ClaimedIPs(rows: seq<Peer>)
    ensures forall ip :: ip in Claimed(rows) <==> exists i :: 0 <= i < |rows| && ip in IPs(rows[i])
  {
    if rows == [] {
    } else {
      ClaimedIPs(rows[..|rows| - 1]);
      assert rows == rows[..|rows| - 1] + [rows[|rows| - 1]];
    }
  }

  // ---- when the block set is exactly the blocked users' addresses ----

  predicate LastClaimant(rows: seq<Peer>, i: int, ip: Addr) {
    0 <= i < |rows| && ip in IPs(rows[i]) && forall k :: i < k < |rows| ==> ip !in IPs(rows[k])
  }

  lemma {:induction false} LastClaimMeaning(rows: seq<Peer>, ip: Addr)
    ensures ip in LastClaim(rows) <==> exists i :: LastClaimant(rows, i, ip) && rows[i].blocked
  {
    if rows == [] {
    } else {
      var front, p := rows[..|rows| - 1], rows[|rows| - 1];
      LastClaimMeaning(front, ip);
      if ip in IPs(p) {
        assert LastClaimant(rows, |rows| - 1, ip);
      } else if ip in LastClaim(rows) {
        var i :| LastClaimant(front, i, ip) && front[i].blocked;
        assert LastClaimant(rows, i, ip);
      } else {
        forall i | LastClaimant(rows, i, ip) && rows[i].blocked
          ensures LastClaimant(front, i, ip)
        {
        }
      }
    }
  }

  /** A blocked user shares an address with a user further down who has it last and is not blocked. */
  predicate Overtaken(rows: seq<Peer>, i: nat, j: nat, ip: Addr) {
    i < j < |rows| && rows[i].blocked && ip in IPs(rows[i]) && !rows[j].blocked && LastClaimant(rows, j, ip)
  }

  lemma HasLastClaimant(rows: seq<Peer>, i: nat, ip: Addr) returns (j: nat)
    requires i < |rows| && ip in IPs(rows[i])
    ensures i <= j && LastClaimant(rows, j, ip)
  {
    j := |rows| - 1;
    while ip !in IPs(rows[j])
      invariant i <= j < |rows| && forall k :: j < k < |rows| ==> ip !in IPs(rows[k])
      decreases j
    {
      j := j - 1;
    }
  }

  /** The pass leaves exactly the blocked users' addresses unless some blocked user is overtaken. */
  lemma ExactBlockSet(rows: seq<Peer>)
    ensures LastClaim(rows) == BlockedIPs(rows) <==> !exists i, j, ip :: Overtaken(rows, i, j, ip)
  {
    forall ip
      ensures ip in LastClaim(rows) <==> exists i :: LastClaimant(rows, i, ip) && rows[i].blocked
    {
      LastClaimMeaning(rows, ip);
    }
    if i, j, ip :| Overtaken(rows, i, j, ip) {
      assert ip in BlockedIPs(rows);
      assert forall k :: LastClaimant(rows, k, ip) ==> k == j;
    } else {
      forall ip | ip in BlockedIPs(rows)
        ensures ip in LastClaim(rows)
      {
        var i :| 0 <= i < |rows| && rows[i].blocked && ip in IPs(rows[i]);
        var j := HasLastClaimant(rows, i, ip);
        assert !Overtaken(rows, i, j, ip);
      }
    }
  }

  function WithFlags(rows: seq<Peer>, flags: seq<bool>): seq<Peer>
    requires |flags| == |rows|
  {
    seq(|rows|, i requires 0 <= i < |rows| => rows[i].(blocked := flags[i]))
  }

  /** Distinct addresses are exactly what makes the pass right whoever happens to be blocked. */
  lemma DistinctMeansExact(rows: seq<Peer>)
    ensures DistinctIPs(rows) <==>
            forall flags: seq<bool> :: |flags| == |rows| ==>
              LastClaim(WithFlags(rows, flags)) == BlockedIPs(WithFlags(rows, flags))
  {
    if DistinctIPs(rows) {
      forall flags: seq<bool> | |flags| == |rows|
        ensures LastClaim(WithFlags(rows, flags)) == BlockedIPs(WithFlags(rows, flags))
      {
        DistinctIsExact(WithFlags(rows, flags));
      }
    } else {
      var i, j :| 0 <= i < j < |rows| && !(IPs(rows[i]) !! IPs(rows[j]));
      var ip :| ip in IPs(rows[i]) && ip in IPs(rows[j]);
      var flags := seq(|rows|, k => k == i);
      SharedIsInexact(WithFlags(rows, flags), i, j, ip);
    }
  }

  lemma DistinctIsExact(rows: seq<Peer>)
    requires DistinctIPs(rows)
    ensures LastClaim(rows) == BlockedIPs(rows)
  {
    hide LastClaim, BlockedIPs, IPs;
    ExactBlockSet(rows);
  }

  lemma SharedIsInexact(rows: seq<Peer>, i: nat, j: nat, ip: Addr)
    requires i < j < |rows| && ip in IPs(rows[i]) && ip in IPs(rows[j])
    requires forall k :: 0 <= k < |rows| ==> (rows[k].blocked <==> k == i)
    ensures LastClaim(rows) != BlockedIPs(rows)
  {
    hide LastClaim, BlockedIPs, IPs;
    var m := HasLastClaimant(rows, j, ip);
    assert Overtaken(rows, i, m, ip);
    ExactBlockSet(rows);
  }
}
