/** The pool machine and the concurrent machine speak of the same users: every step of one is a step of the other. */
module Seats {
  import opened Wrappers
  import opened IPv4
  import opened Peers
  import opened Enforcement
  import opened Quiescence
  import Machine
  import Reset
  import P = Pools

  /** The columns by which a user is recognised and blocked. */
  predicate SamePerson(p: Peer, q: Peer) {
    p.username == q.username && p.address == q.address && p.cn == q.cn && p.ovpnIP == q.ovpnIP
  }

  predicate InTable(table: seq<Peer>, p: Peer) {
    exists j :: 0 <= j < |table| && SamePerson(p, table[j])
  }

  /** Every place is empty or has a user of the table, and nobody has two places. */
  predicate Seated(rows: seq<Peer>, table: seq<Peer>) {
    && (forall i :: 0 <= i < |rows| ==> if Vacant(rows[i]) then rows[i] == NOBODY else InTable(table, rows[i]))
    && (forall i, j :: 0 <= i < j < |rows| && !Vacant(rows[i]) ==> rows[i].username != rows[j].username)
  }

  /** The row that a successful creation appends. */
  predicate Creates(s: P.System, e: P.Event, p: Peer) {
    && P.CanStep(s, e) && (e.NewOvpnUser? || (e.InsertWG? && MayPut(s.rows, -1, e.row)))
    && P.Apply(s, e).rows == s.rows + [p]
  }

  /** As the statement that creates it leaves a row. */
  predicate Unused(p: Peer) {
    p.used == 0 && p.lastRx == 0 && p.lastTx == 0 && p.usedOvpn == 0 && p.lastOvpn == 0 && !p.blocked
  }

  /** The listings that a pass has in hand do not show this user. */
  predicate Unlisted(m: Machine.State, p: Peer) {
    && (m.lock.TickWG? || m.lock.TickOV? ==> p.publicKey == "" || p.publicKey !in m.lock.tr)
    && (m.lock.TickOV? ==> p.username !in m.lock.ov && (p.cn == "" || p.cn !in m.lock.ov))
  }

  /** Nobody seated holds the new row's addresses: the pools hand out what no row of the table has. */
  lemma NewAddressesAreFree(s: P.System, e: P.Event, p: Peer, q: Peer)
    requires P.Inv(s) && Creates(s, e, p) && InTable(s.rows, q)
    ensures IPs(p) !! IPs(q) && p.username != q.username && p.username != ""
  {
    P.StepKeepsInv(s, e);
    var s' := P.Apply(s, e);
    P.InvMeansDistinct(s');
    var j :| 0 <= j < |s.rows| && SamePerson(q, s.rows[j]);
    NewRowApart(s, e, p, j);
  }

  lemma NewRowApart(s: P.System, e: P.Event, p: Peer, j: nat)
    requires P.Inv(s) && Creates(s, e, p) && j < |s.rows|
    requires DistinctIPs(s.rows + [p]) && P.Inv(P.Apply(s, e))
    ensures IPs(s.rows[j]) !! IPs(p) && s.rows[j].username != p.username && p.username != ""
  {
    hide IPs;
    var rows := s.rows + [p];
    assert rows[j] == s.rows[j] && rows[|s.rows|] == p;
    assert P.Apart(rows[j], rows[|s.rows|]) && P.RowOk(P.Apply(s, e), rows[|s.rows|]);
  }

  /** A creation by the pool rules is a creation of the concurrent machine, whatever that is doing. */
  lemma CreationsAreNewcomers(s: P.System, e: P.Event, p: Peer, m: Machine.State)
    requires |m.lines| == |m.rows| && Seated(m.rows, s.rows) && P.Inv(s) && Creates(s, e, p)
    requires m.born < |m.rows| && Vacant(m.rows[m.born])
    requires Unused(p) && !EffectiveBlocked(p, m.clock) && Unlisted(m, p)
    ensures Machine.CanStep(m, Machine.Create(p))
    ensures Seated(Machine.Apply(m, Machine.Create(p)).rows, P.Apply(s, e).rows)
  {
    hide P.Inv, P.CanStep, P.Apply, EffectiveBlocked, IPs;
    forall i | 0 <= i < |m.rows|
      ensures IPs(m.rows[i]) !! IPs(p) && (!Vacant(m.rows[i]) ==> m.rows[i].username != p.username)
      ensures p.username != ""
    {
      if Vacant(m.rows[i]) {
        NobodyHasNoIP();
        CreatedHasName(s, e, p);
      } else {
        NewAddressesAreFree(s, e, p, m.rows[i]);
      }
    }
    assert Machine.Newcomer(m, p);
    MoreSeats(s.rows, p);
    assert Machine.Apply(m, Machine.Create(p)).rows == m.rows[m.born := p];
  }

  lemma CreatedHasName(s: P.System, e: P.Event, p: Peer)
    requires Creates(s, e, p)
    ensures p.username != ""
  {
    var last := P.Apply(s, e).rows[|s.rows|];
    assert p == last;
  }

  lemma MoreSeats(table: seq<Peer>, p: Peer)
    ensures InTable(table + [p], p)
    ensures forall q :: InTable(table, q) ==> InTable(table + [p], q)
  {
    assert SamePerson(p, (table + [p])[|table|]);
    forall q | InTable(table, q)
      ensures InTable(table + [p], q)
    {
      var j :| 0 <= j < |table| && SamePerson(q, table[j]);
      assert SamePerson(q, (table + [p])[j]);
    }
  }

  /** Attaching by the pool rules is attaching in the concurrent machine. */
  lemma AttachmentsAgree(s: P.System, e: P.Event, m: Machine.State, k: nat)
    requires |m.lines| == |m.rows| && Seated(m.rows, s.rows) && P.Inv(s) && P.CanStep(s, e) && e.AttachOvpn?
    requires k < |m.rows| && !Vacant(m.rows[k]) && m.rows[k].username == s.rows[e.i].username && Unlisted(m, m.rows[k])
    ensures var a := Machine.Attach(k, e.ip, e.cred);
            Machine.CanStep(m, a) && Seated(Machine.Apply(m, a).rows, P.Apply(s, e).rows)
  {
    hide IPs, P.CanStep, P.Apply, P.Inv;
    AttachedRows(s, e);
    OneOfThatName(s, m.rows[k], e.i);
    forall j | 0 <= j < |m.rows|
      ensures e.ip !in IPs(m.rows[j])
    {
      if Vacant(m.rows[j]) {
        NobodyHasNoIP();
      } else {
        FreshForAll(s, e, m.rows[j]);
      }
    }
    var a := Machine.Attach(k, e.ip, e.cred);
    assert Machine.MayAttach(m, k, e.ip);
    var rows' := Machine.Apply(m, a).rows;
    var table' := P.Apply(s, e).rows;
    assert rows' == m.rows[k := WithOvpn(m.rows[k], e.ip, e.cred)];
    forall i | 0 <= i < |rows'| && !Vacant(rows'[i])
      ensures InTable(table', rows'[i])
    {
      if i == k {
        assert SamePerson(rows'[k], table'[e.i]);
      } else {
        var j :| 0 <= j < |s.rows| && SamePerson(m.rows[i], s.rows[j]);
        assert SamePerson(rows'[i], table'[j]);
      }
    }
  }

  lemma AttachedRows(s: P.System, e: P.Event)
    requires P.CanStep(s, e) && e.AttachOvpn?
    ensures e.i < |s.rows| && s.rows[e.i].cn == ""
    ensures P.Apply(s, e).rows == s.rows[e.i := WithOvpn(s.rows[e.i], e.ip, e.cred)]
  {
    hide IPs;
  }

  /** Names are unique, so a seat with a row's name is that row's. */
  lemma OneOfThatName(s: P.System, p: Peer, i: nat)
    requires P.Inv(s) && i < |s.rows| && InTable(s.rows, p) && p.username == s.rows[i].username
    ensures SamePerson(p, s.rows[i]) && (s.rows[i].cn == "" ==> s.rows[i].ovpnIP.None?)
  {
    hide IPs, Disjoint, P.OvAddressOk, P.WgAddressOk;
    var j :| 0 <= j < |s.rows| && SamePerson(p, s.rows[j]);
    assert i < j ==> P.Apart(s.rows[i], s.rows[j]);
    assert j < i ==> P.Apart(s.rows[j], s.rows[i]);
    assert P.RowOk(s, s.rows[i]);
  }

  lemma FreshForAll(s: P.System, e: P.Event, q: Peer)
    requires P.Inv(s) && P.CanStep(s, e) && e.AttachOvpn? && InTable(s.rows, q)
    ensures e.ip !in IPs(q)
  {
    hide Disjoint;
    P.StepKeepsInv(s, e);
    var s' := P.Apply(s, e);
    P.InvMeansDistinct(s');
    AttachedRows(s, e);
    P.NewAddressFresh(s.ov.value, s.rows, e.ip);
    var j :| 0 <= j < |s.rows| && SamePerson(q, s.rows[j]);
    if j == e.i {
      assert s'.rows[j].address == s.rows[j].address && s'.rows[j].ovpnIP == Some(e.ip);
    } else {
      assert s'.rows[j] == s.rows[j] && e.ip in IPs(s'.rows[e.i]);
    }
  }

  /** Deleting by the pool rules empties that user's place. */
  lemma DeletionsAgree(s: P.System, e: P.Event, m: Machine.State, k: nat)
    requires |m.lines| == |m.rows| && Seated(m.rows, s.rows) && P.Inv(s) && P.CanStep(s, e) && e.Delete?
    requires k < |m.rows| && !Vacant(m.rows[k]) && m.rows[k].username == s.rows[e.i].username
    ensures Machine.CanStep(m, Machine.Delete(k))
    ensures Seated(Machine.Apply(m, Machine.Delete(k)).rows, P.Apply(s, e).rows)
  {
    hide IPs, P.Inv;
    var rows' := Machine.Apply(m, Machine.Delete(k)).rows;
    var table' := P.Apply(s, e).rows;
    forall i | 0 <= i < |rows'| && !Vacant(rows'[i])
      ensures InTable(table', rows'[i])
    {
      var j :| 0 <= j < |s.rows| && SamePerson(m.rows[i], s.rows[j]);
      assert m.rows[i].username != m.rows[k].username;
      assert j != e.i;
      assert SamePerson(rows'[i], table'[if j < e.i then j else j - 1]);
    }
  }

  /** Nothing else the concurrent machine does changes who sits where. */
  lemma OtherStepsKeepSeats(m: Machine.State, e: Machine.Event, table: seq<Peer>)
    requires |m.lines| == |m.rows| && Seated(m.rows, table) && Machine.CanStep(m, e)
    requires !e.Create? && !e.Delete? && !e.Attach?
    ensures Seated(Machine.Apply(m, e).rows, table)
  {
    hide IPs, InTable;
    var rows' := Machine.Apply(m, e).rows;
    forall i | 0 <= i < |rows'|
      ensures SamePerson(rows'[i], m.rows[i]) && (Vacant(m.rows[i]) ==> rows'[i] == m.rows[i])
    {
      PersonStays(m, e, i);
    }
    forall i | 0 <= i < |rows'| && !Vacant(rows'[i])
      ensures InTable(table, rows'[i])
    {
      SamePersonInTable(table, m.rows[i], rows'[i]);
    }
  }

  lemma SamePersonInTable(table: seq<Peer>, p: Peer, q: Peer)
    requires InTable(table, p) && SamePerson(q, p)
    ensures InTable(table, q)
  {
    var j :| 0 <= j < |table| && SamePerson(p, table[j]);
    assert SamePerson(q, table[j]);
  }

  lemma PersonStays(m: Machine.State, e: Machine.Event, i: nat)
    requires |m.lines| == |m.rows| && Machine.CanStep(m, e) && i < |m.rows|
    requires !e.Create? && !e.Delete? && !e.Attach?
    ensures var q := Machine.Apply(m, e).rows[i];
            SamePerson(q, m.rows[i]) && (Vacant(m.rows[i]) ==> q == m.rows[i])
  {
    hide IPs, TickRow, Machine.WgListing, Machine.OvListing, Machine.SampleOf, Machine.ZeroLine, Machine.LeftBehind;
    hide Machine.MergeTick, Machine.ApplyWrite, Reset.Recharged, SamePerson, Vacant, Machine.Newcomer, WithOvpn;
    SamePersons(m.rows[i], m.rows[i]);
    match e
    case PanelWrite(_, k, w) => WritePerson(m.rows[k], w);
    case RechargeCommit =>
      if m.lock.user < |m.rows| {
        RechargePerson(m.rows[m.lock.user], m.lock.req, m.lock.base);
      }
    case TickPeer =>
      var k := m.lock;
      MergePerson(m.rows[k.next], k.snap[k.next], k.tr, k.ov, k.now);
    case _ =>
  }

  lemma SamePersons(p: Peer, q: Peer)
    ensures p == q ==> SamePerson(p, q)
  {
  }

  lemma WritePerson(p: Peer, w: Machine.Write)
    ensures SamePerson(Machine.ApplyWrite(p, w), p)
  {
  }

  lemma RechargePerson(p: Peer, req: Reset.Request, c: Reset.Counters)
    ensures SamePerson(Reset.Recharged(p, req, c), p)
  {
  }

  lemma MergePerson(cur: Peer, p: Peer, tr: Transfers, ov: Sessions, now: int)
    ensures SamePerson(Machine.MergeTick(cur, p, tr, ov, now), cur)
  {
    hide TickRow;
  }

  // ---- both machines together ----

  datatype Step =
    | PoolOnly(event: P.Event)
    | Other(other: Machine.Event)
    | Arrival(creation: P.Event, row: Peer)
    | Attachment(user: nat, ip: Addr, cred: Credentials, seat: nat)
    | Departure(user: nat, dirKnown: bool, seat: nat)

  function PoolEvent(b: Step): Option<P.Event> {
    match b
    case PoolOnly(e) => Some(e)
    case Other(_) => None
    case Arrival(e, _) => Some(e)
    case Attachment(i, ip, cred, _) => Some(P.AttachOvpn(i, ip, cred))
    case Departure(i, dirKnown, _) => Some(P.Delete(i, dirKnown))
  }

  function MachineEvent(b: Step): Option<Machine.Event> {
    match b
    case PoolOnly(_) => None
    case Other(e) => Some(e)
    case Arrival(_, p) => Some(Machine.Create(p))
    case Attachment(_, ip, cred, k) => Some(Machine.Attach(k, ip, cred))
    case Departure(_, _, k) => Some(Machine.Delete(k))
  }

  /** A step of one machine or of both. Of a new row or address nothing is asked but what the pools ask. */
  predicate CanStep(s: P.System, m: Machine.State, b: Step)
    requires |m.lines| == |m.rows|
  {
    && (PoolEvent(b).Some? ==> P.CanStep(s, PoolEvent(b).value))
    && match b
       case PoolOnly(e) => e.PickWG? || e.Expand? || e.SetupOvpn? || (e.InsertWG? && !MayPut(s.rows, -1, e.row))
       case Other(e) => Machine.CanStep(m, e) && !e.Create? && !e.Delete? && !e.Attach?
       case Arrival(e, p) =>
         Creates(s, e, p) && m.born < |m.rows| && Unused(p) && !EffectiveBlocked(p, m.clock) && Unlisted(m, p)
       case Attachment(i, _, _, k) =>
         k < |m.rows| && !Vacant(m.rows[k]) && m.rows[k].username == s.rows[i].username && Unlisted(m, m.rows[k])
       case Departure(i, _, k) => k < |m.rows| && !Vacant(m.rows[k]) && m.rows[k].username == s.rows[i].username
  }

  function PoolNext(s: P.System, b: Step): P.System {
    if PoolEvent(b).Some? && P.CanStep(s, PoolEvent(b).value) then P.Apply(s, PoolEvent(b).value) else s
  }

  function MachineNext(m: Machine.State, b: Step): (m': Machine.State)
    requires |m.lines| == |m.rows|
    ensures |m'.lines| == |m'.rows|
  {
    if MachineEvent(b).Some? && Machine.CanStep(m, MachineEvent(b).value) then
      Machine.Apply(m, MachineEvent(b).value)
    else
      m
  }

  predicate Joint(s: P.System, m: Machine.State)
    requires |m.lines| == |m.rows|
  {
    P.Inv(s) && Seated(m.rows, s.rows) && Settling(m)
  }

  /** The concurrent machine can take every such step: the addresses it needs free are free. */
  lemma StepKeepsJoint(s: P.System, m: Machine.State, b: Step)
    requires |m.lines| == |m.rows| && Joint(s, m) && CanStep(s, m, b)
    ensures MachineEvent(b).Some? ==> Machine.CanStep(m, MachineEvent(b).value)
    ensures Joint(PoolNext(s, b), MachineNext(m, b))
  {
    hide P.Inv, Seated, P.CanStep, P.Apply, Machine.Apply, Machine.CanStep, Settling, Creates, Unlisted;
    if PoolEvent(b).Some? {
      P.StepKeepsInv(s, PoolEvent(b).value);
    }
    match b {
      case PoolOnly(e) => SameTable(s, e);
      case Other(e) => OtherStepsKeepSeats(m, e, s.rows);
      case Arrival(e, p) => EmptySeat(m); CreationsAreNewcomers(s, e, p, m);
      case Attachment(_, _, _, k) => AttachmentsAgree(s, PoolEvent(b).value, m, k);
      case Departure(_, _, k) => DeletionsAgree(s, PoolEvent(b).value, m, k);
    }
    if MachineEvent(b).Some? {
      StepKeepsSettling(m, MachineEvent(b).value);
    }
  }

  lemma SameTable(s: P.System, e: P.Event)
    requires P.CanStep(s, e) && (e.PickWG? || e.Expand? || e.SetupOvpn? || (e.InsertWG? && !MayPut(s.rows, -1, e.row)))
    ensures P.Apply(s, e).rows == s.rows
  {
  }

  lemma EmptySeat(m: Machine.State)
    requires |m.lines| == |m.rows| && Settling(m)
    ensures m.born < |m.rows| ==> Vacant(m.rows[m.born])
  {
    hide DistinctIPs, Machine.Books, Machine.SoundLine;
  }

  predicate CanRun(s: P.System, m: Machine.State, bs: seq<Step>)
    requires |m.lines| == |m.rows|
    decreases |bs|
  {
    bs == [] || (CanStep(s, m, bs[0]) && CanRun(PoolNext(s, bs[0]), MachineNext(m, bs[0]), bs[1..]))
  }

  function RunAll(s: P.System, m: Machine.State, bs: seq<Step>): (r: (P.System, Machine.State))
    requires |m.lines| == |m.rows|
    ensures |r.1.lines| == |r.1.rows|
    decreases |bs|
  {
    if bs == [] then (s, m) else RunAll(PoolNext(s, bs[0]), MachineNext(m, bs[0]), bs[1..])
  }

  /**
   * Pools and passes together, over any run: addresses stay valid and unique, the enforcement settles, and both
   * speak of the same users, although creations ask no more than the pools do.
   */
  lemma {:induction false} RunsKeepJoint(s: P.System, m: Machine.State, bs: seq<Step>)
    requires |m.lines| == |m.rows| && Joint(s, m) && CanRun(s, m, bs)
    ensures var (s', m') := RunAll(s, m, bs); Joint(s', m')
    decreases |bs|
  {
    hide Joint, CanStep, PoolNext, MachineNext;
    if bs == [] {
    } else {
      StepKeepsJoint(s, m, bs[0]);
      RunsKeepJoint(PoolNext(s, bs[0]), MachineNext(m, bs[0]), bs[1..]);
    }
  }
}
