/** Recharging a user: zero the billing period at the live counters, and set or add quota. */
module Reset {
  import opened Wrappers
  import opened Peers
  import opened Enforcement

  // ---- the request ----

  datatype Field<T> = Absent | Malformed | Given(value: T)

  datatype Request = Request(reset: Field<bool>, setBytes: Field<int>, addBytes: Field<int>) {
    predicate WantsReset() { reset == Given(true) }
  }

  const MAX_BYTES := 0x8000_0000_0000_0000

  predicate ValidAmount(f: Field<int>) {
    f.Absent? || (f.Given? && 0 <= f.value < MAX_BYTES)
  }

  predicate Accepts(req: Request) {
    && !req.reset.Malformed? && ValidAmount(req.setBytes) && ValidAmount(req.addBytes)
    && (req.WantsReset() || !req.setBytes.Absent? || !req.addBytes.Absent?)
  }

  // ---- the new baseline ----

  /** One row of the WireGuard transfer listing; None when its numbers cannot be used. */
  datatype WgRow = WgRow(key: string, counters: Option<(int, int)>)

  datatype Counters = Counters(rx: int, tx: int, ovpn: int)

  /**
   * Where the next billing period starts: at the counters when they can be seen. A WireGuard peer
   * that is not listed keeps its old baseline; an OpenVPN user without a session starts at zero.
   */
  function Baseline(p: Peer, wg: Option<(int, int)>, ov: Option<int>): Counters {
    Counters(if p.publicKey != "" && wg.Some? then wg.value.0 else p.lastRx,
             if p.publicKey != "" && wg.Some? then wg.value.1 else p.lastTx,
             if p.cn != "" then (if ov.Some? then ov.value else 0) else p.lastOvpn)
  }

  predicate Usable(r: WgRow) {
    r.counters.Some? && r.counters.value.0 >= 0 && r.counters.value.1 >= 0
  }

  /** The user's rows are all usable. */
  predicate AllUsable(rows: seq<WgRow>, key: string) {
    forall r :: r in rows && r.key == key ==> Usable(r)
  }

  /** The last row of that key counts. */
  function LastReading(rows: seq<WgRow>, key: string): Option<(int, int)> {
    if rows == [] then None
    else if rows[|rows| - 1].key == key then rows[|rows| - 1].counters
    else LastReading(rows[..|rows| - 1], key)
  }

  /** The baseline the readings give; wg and ov are None when the source is unreadable, stale or not configured. */
  function Sample(p: Peer, wg: Option<seq<WgRow>>, ov: Option<Sessions>): Option<Counters> {
    if (p.publicKey != "" && (wg.None? || !AllUsable(wg.value, p.publicKey))) || (p.cn != "" && ov.None?) then
      None
    else
      Some(Baseline(p, if p.publicKey != "" then LastReading(wg.value, p.publicKey) else None,
                    if p.cn != "" && p.cn in ov.value then Some(ov.value[p.cn]) else None))
  }

  /**
   * An error for counters that must be read and cannot: a WireGuard listing that fails or has a bad row of the
   * user's, or no OpenVPN status. Otherwise his last row; where he has none, what the table has; the bytes of
   * his session, and zero without one.
   */
  method ReadResetCounters(p: Peer, wg: Option<seq<WgRow>>, ov: Option<Sessions>) returns (r: Option<Counters>)
    ensures r == Sample(p, wg, ov)
    ensures r.None? <==>
              || (p.publicKey != "" && (wg.None? || !forall w :: w in wg.value && w.key == p.publicKey ==>
                    w.counters.Some? && w.counters.value.0 >= 0 && w.counters.value.1 >= 0))
              || (p.cn != "" && ov.None?)
    ensures r.Some? && p.cn != "" ==> r.value.ovpn == if p.cn in ov.value then ov.value[p.cn] else 0
    ensures r.Some? && p.cn == "" ==> r.value.ovpn == p.lastOvpn
    ensures r.Some? && p.publicKey != "" ==>
              var rows := wg.value;
              && (forall k :: (0 <= k < |rows| && rows[k].key == p.publicKey &&
                    (forall j :: k < j < |rows| ==> rows[j].key != p.publicKey)) ==>
                    rows[k].counters == Some((r.value.rx, r.value.tx)))
              && ((forall w :: w in rows ==> w.key != p.publicKey) ==> r.value.rx == p.lastRx && r.value.tx == p.lastTx)
    ensures r.Some? && p.publicKey == "" ==> r.value.rx == p.lastRx && r.value.tx == p.lastTx
  {
    SampleMeans(p, wg, ov);
    var c := Counters(p.lastRx, p.lastTx, p.lastOvpn);
    if p.publicKey != "" {
      if wg.None? {
        return None;
      }
      var rows := wg.value;
      for i := 0 to |rows|
        invariant AllUsable(rows[..i], p.publicKey)
        invariant c.ovpn == p.lastOvpn
        invariant match LastReading(rows[..i], p.publicKey)
                  case None => c.rx == p.lastRx && c.tx == p.lastTx
                  case Some((rx, tx)) => c.rx == rx && c.tx == tx
      {
        assert rows[..i + 1][..i] == rows[..i];
        if rows[i].key != p.publicKey {
          continue;
        }
        if !Usable(rows[i]) {
          return None;
        }
        c := c.(rx := rows[i].counters.value.0, tx := rows[i].counters.value.1);
      }
      assert rows[..|rows|] == rows;
    }
    if p.cn != "" {
      if ov.None? {
        return None;
      }
      c := c.(ovpn := if p.cn in ov.value then ov.value[p.cn] else 0);
    }
    return Some(c);
  }

  predicate LastOf(rows: seq<WgRow>, key: string, k: nat) {
    k < |rows| && rows[k].key == key && forall j :: k < j < |rows| ==> rows[j].key != key
  }

  lemma {:induction false} LastReadingAt(rows: seq<WgRow>, key: string, k: nat)
    requires LastOf(rows, key, k)
    ensures LastReading(rows, key) == rows[k].counters
  {
    if k == |rows| - 1 {
    } else {
      LastReadingAt(rows[..|rows| - 1], key, k);
    }
  }

  lemma {:induction false} NoReading(rows: seq<WgRow>, key: string)
    requires forall w :: w in rows ==> w.key != key
    ensures LastReading(rows, key).None?
  {
    if rows == [] {
    } else {
      NoReading(rows[..|rows| - 1], key);
    }
  }

  lemma {:induction false} SomeReading(rows: seq<WgRow>, key: string) returns (k: nat)
    requires exists w :: w in rows && w.key == key
    ensures LastOf(rows, key, k)
  {
    var front, last := rows[..|rows| - 1], rows[|rows| - 1];
    assert rows == front + [last];
    if last.key == key {
      k := |rows| - 1;
    } else {
      k := SomeReading(front, key);
    }
  }

  lemma SampleMeans(p: Peer, wg: Option<seq<WgRow>>, ov: Option<Sessions>)
    ensures var r := Sample(p, wg, ov);
            && (r.None? <==>
              || (p.publicKey != "" && (wg.None? || !forall w :: w in wg.value && w.key == p.publicKey ==>
                    w.counters.Some? && w.counters.value.0 >= 0 && w.counters.value.1 >= 0))
              || (p.cn != "" && ov.None?)
              )
            && (r.Some? && p.cn != "" ==> r.value.ovpn == if p.cn in ov.value then ov.value[p.cn] else 0)
            && (r.Some? && p.cn == "" ==> r.value.ovpn == p.lastOvpn)
            && (r.Some? && p.publicKey != "" ==>
                  var rows := wg.value;
                  && (forall k :: (0 <= k < |rows| && rows[k].key == p.publicKey &&
                        (forall j :: k < j < |rows| ==> rows[j].key != p.publicKey)) ==>
                        rows[k].counters == Some((r.value.rx, r.value.tx)))
                  && ((forall w :: w in rows ==> w.key != p.publicKey) ==>
                        r.value.rx == p.lastRx && r.value.tx == p.lastTx))
            && (r.Some? && p.publicKey == "" ==> r.value.rx == p.lastRx && r.value.tx == p.lastTx)
  {
    if p.publicKey != "" && wg.Some? && AllUsable(wg.value, p.publicKey) {
      var rows := wg.value;
      if exists w :: w in rows && w.key == p.publicKey {
        var last := SomeReading(rows, p.publicKey);
        LastReadingAt(rows, p.publicKey, last);
        forall k | 0 <= k < |rows| && rows[k].key == p.publicKey &&
                   (forall j :: k < j < |rows| ==> rows[j].key != p.publicKey)
          ensures k == last
        {
        }
        assert rows[last] in rows && Usable(rows[last]);
      } else {
        NoReading(rows, p.publicKey);
      }
    }
  }

  /**
   * A user who is not connected starts his period at zero: whatever was recorded of him, the next pass bills his
   * next session in full.
   */
  lemma ResetOfUnconnected(p: Peer, wg: Option<seq<WgRow>>, ov: Sessions, tr: Transfers, later: Sessions)
    requires Sample(p, wg, Some(ov)).Some? && p.cn != "" && p.cn !in ov
    requires p.cn in later && later[p.cn] >= 0
    ensures var q := ResetRow(p, Sample(p, wg, Some(ov)).value);
            q.lastOvpn == 0 && q.usedOvpn == 0 && Billed(q, tr, later).usedOvpn == later[p.cn]
  {
  }

  // ---- the transaction ----

  function ResetRow(p: Peer, c: Counters): Peer {
    p.(used := 0, usedOvpn := 0, lastRx := c.rx, lastTx := c.tx, lastOvpn := c.ovpn)
  }

  function QuotaRow(p: Peer, req: Request): Peer {
    var q := if req.setBytes.Given? then req.setBytes.value else p.quota;
    p.(quota := if req.addBytes.Given? then q + req.addBytes.value else q)
  }

  function Recharged(p: Peer, req: Request, c: Counters): Peer {
    QuotaRow(if req.WantsReset() then ResetRow(p, c) else p, req)
  }

  /**
   * A refused recharge changes nothing. An accepted one changes one row, all at once: the quota is set, then
   * added to; a reset clears the usage of both protocols and starts the next period at the readings.
   */
  method RechargePeer(e: Enforcer, username: string, req: Request, wg: Option<seq<WgRow>>, ov: Option<Sessions>)
    returns (ok: bool)
    modifies e`rows
    ensures ok ==>
              && IndexOf(old(e.rows), username).Some?
              && var i := IndexOf(old(e.rows), username).value;
              && |e.rows| == |old(e.rows)|
              && var (p, q) := (old(e.rows)[i], e.rows[i]);
              && e.rows == old(e.rows)[i := q]
              && q == p.(quota := q.quota, used := q.used, usedOvpn := q.usedOvpn, lastRx := q.lastRx,
                         lastTx := q.lastTx, lastOvpn := q.lastOvpn)
              && q.quota == (match req.setBytes case Given(n) => n case _ => p.quota)
                            + (match req.addBytes case Given(n) => n case _ => 0)
              && (req.reset != Given(true) ==> q == p.(quota := q.quota))
              && (req.reset == Given(true) ==>
                    && q.used == 0 && q.usedOvpn == 0
                    && (p.cn != "" ==> ov.Some? && q.lastOvpn == if p.cn in ov.value then ov.value[p.cn] else 0)
                    && (p.cn == "" ==> q.lastOvpn == p.lastOvpn)
                    && (p.publicKey != "" ==>
                          && wg.Some?
                          && var rows := wg.value;
                          && (forall k :: (0 <= k < |rows| && rows[k].key == p.publicKey &&
                                (forall j :: k < j < |rows| ==> rows[j].key != p.publicKey)) ==>
                                rows[k].counters == Some((q.lastRx, q.lastTx)))
                          && ((forall w :: w in rows ==> w.key != p.publicKey) ==>
                                q.lastRx == p.lastRx && q.lastTx == p.lastTx))
                    && (p.publicKey == "" ==> q.lastRx == p.lastRx && q.lastTx == p.lastTx))
    ensures ok <==>
              && !req.reset.Malformed?
              && (req.reset == Given(true) || !req.setBytes.Absent? || !req.addBytes.Absent?)
              && (req.setBytes.Absent? || (req.setBytes.Given? && 0 <= req.setBytes.value < 0x8000_0000_0000_0000))
              && (req.addBytes.Absent? || (req.addBytes.Given? && 0 <= req.addBytes.value < 0x8000_0000_0000_0000))
              && IndexOf(old(e.rows), username).Some?
              && var p := old(e.rows)[IndexOf(old(e.rows), username).value];
              (req.reset == Given(true) ==>
                 && (p.cn != "" ==> ov.Some?)
                 && (p.publicKey != "" ==>
                       && wg.Some?
                       && forall w :: w in wg.value && w.key == p.publicKey ==>
                            w.counters.Some? && w.counters.value.0 >= 0 && w.counters.value.1 >= 0))
    ensures e.rows == if !ok then old(e.rows) else
                      var i := IndexOf(old(e.rows), username).value;
                      var c := if req.WantsReset() then Sample(old(e.rows)[i], wg, ov).value else Counters(0, 0, 0);
                      old(e.rows)[i := Recharged(old(e.rows)[i], req, c)]
  {
    var found := IndexOf(e.rows, username);
    if found.None? || !Accepts(req) {
      return false;
    }
    var i := found.value;
    var p := e.rows[i];
    SampleMeans(p, wg, ov);
    if req.WantsReset() {
      var c := ReadResetCounters(p, wg, ov);
      if c.None? {
        return false;
      }
      p := ResetRow(p, c.value);
    }
    if req.setBytes.Given? {
      p := p.(quota := req.setBytes.value);
    }
    if req.addBytes.Given? {
      p := p.(quota := p.quota + req.addBytes.value);
    }
    e.rows := e.rows[i := p];
    return true;
  }

  /** After a reset the next pass bills only what the counters have gained since. */
  lemma ResetThenTick(p: Peer, c: Counters, tr: Transfers, ov: Sessions)
    requires p.publicKey != "" && p.publicKey in tr && tr[p.publicKey].0 >= c.rx && tr[p.publicKey].1 >= c.tx
    requires p.cn != "" && p.cn in ov && ov[p.cn] >= c.ovpn
    ensures UsedTotal(Billed(ResetRow(p, c), tr, ov)) ==
              (tr[p.publicKey].0 - c.rx) + (tr[p.publicKey].1 - c.tx) + (ov[p.cn] - c.ovpn)
  {
  }

  // ---- the command-line reset ----

  /** The command-line recharge zeroes the WireGuard columns in the table, without looking at the counters. */
  function CliReset(p: Peer): Peer {
    p.(used := 0, lastRx := 0, lastTx := 0)
  }

  /** The next pass then bills the live counters from the start, as a proper reset would only if they stood
      at zero; OpenVPN usage is not reset at all. */
  lemma CliResetRebills(p: Peer, tr: Transfers, ov: Sessions)
    requires p.publicKey != "" && p.publicKey in tr && tr[p.publicKey].0 >= 0 && tr[p.publicKey].1 >= 0
    ensures Billed(CliReset(p), tr, ov).used == tr[p.publicKey].0 + tr[p.publicKey].1
    ensures Billed(CliReset(p), tr, ov).used ==
              Billed(ResetRow(p, Baseline(p, Some(tr[p.publicKey]), None)), tr, ov).used <==>
            tr[p.publicKey] == (0, 0)
    ensures Billed(CliReset(p), tr, ov).usedOvpn == Billed(p, tr, ov).usedOvpn
  {
  }
}
