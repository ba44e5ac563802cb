/** The two address pools over time: who holds which tunnel address while users come and go and pools widen. */
module Pools {
  import opened Wrappers
  import opened IPv4
  import opened Peers
  import opened Planner
  import Bitwise
  import Enforcement

  // ---- state ----

  /** A client's file in OpenVPN's client-config directory: its address and the prefix of its mask. */
  datatype CcdFile = CcdFile(ip: Addr, prefix: int)

  /**
   * wg and ov: the configured pools (for WireGuard, the server's own address in it).
   * picks: addresses chosen by creations that have not inserted their row yet.
   */
  datatype System = System(
    wg: Option<Cidr>,
    iface: string,
    ov: Option<Cidr>,
    rows: seq<Peer>,
    nextId: int,
    picks: map<int, Addr>,
    ccd: map<string, CcdFile>)

  function WgUsed(server: Addr, rows: seq<Peer>): set<Addr> {
    {server} + set i | 0 <= i < |rows| && rows[i].address.Some? :: rows[i].address.value
  }

  /** The OpenVPN server sits on network + 1. */
  function OvServer(c: Cidr): Addr {
    (NetworkOf(c).base + 1) % SPACE
  }

  function OvUsed(c: Cidr, rows: seq<Peer>): set<Addr> {
    {OvServer(c)} + set i | 0 <= i < |rows| && rows[i].ovpnIP.Some? :: rows[i].ovpnIP.value
  }

  function WithoutOvpn(p: Peer): Peer {
    p.(cn := "", ovpnIP := None, ovpnEnabled := false, usedOvpn := 0, lastOvpn := 0, ovpnCert := "", ovpnKey := "")
  }

  function RemoveAt(rows: seq<Peer>, i: nat): seq<Peer>
    requires i < |rows|
  {
    rows[..i] + rows[i + 1..]
  }

  /** Removing a file needs to know the OpenVPN directory and the name. */
  function Removed(ccd: map<string, CcdFile>, name: string, dirKnown: bool): map<string, CcdFile> {
    if dirKnown && name != "" then ccd - {name} else ccd
  }

  /** The files of OpenVPN users who have one get the new mask; nobody gets a file he did not have. */
  function Rewritten(ccd: map<string, CcdFile>, rows: seq<Peer>, prefix: int): map<string, CcdFile> {
    if rows == [] then
      ccd
    else
      var p := rows[|rows| - 1];
      var m := Rewritten(ccd, rows[..|rows| - 1], prefix);
      if p.cn != "" && p.ovpnIP.Some? && p.username in m then m[p.username := CcdFile(p.ovpnIP.value, prefix)] else m
  }

  // ---- steps ----

  datatype Event =
    | PickWG(pid: int, ip: Addr)
    | InsertWG(pid: int, row: Peer)
    | NewOvpnUser(row: Peer, ip: Addr, cred: Credentials)
    | AttachOvpn(i: nat, ip: Addr, cred: Credentials)
    | DetachOvpn(i: nat)
    | Delete(i: nat, dirKnown: bool)
    | Expand(prefix: int, entries: seq<NetEntry>, plan: Plan, doWG: bool, doOV: bool)
    | SetupOvpn(subnet: Cidr)

  /**
   * A new OpenVPN subnet suits the users who already hold an address: they fit in it and their files carry its
   * mask.
   */
  predicate FitsUsers(s: System, c: Cidr) {
    forall i :: 0 <= i < |s.rows| && s.rows[i].ovpnIP.Some? ==>
      && OvAddressOk(Some(c), s.rows[i].ovpnIP.value)
      && (s.rows[i].username in s.ccd ==> s.ccd[s.rows[i].username].prefix == c.prefix)
  }

  predicate CanStep(s: System, e: Event) {
    match e
    case PickWG(pid, ip) =>
      s.wg.Some? && pid !in s.picks && LowestFree(NetworkOf(s.wg.value), WgUsed(s.wg.value.ip, s.rows), Some(ip))
    case InsertWG(pid, row) =>
      pid in s.picks && row.id == s.nextId && row.address == Some(s.picks[pid]) && row.ovpnIP.None? && row.cn == "" &&
        row.username != ""
    case NewOvpnUser(row, ip, _) =>
      && s.ov.Some? && row.id == s.nextId && row.address.None? && row.ovpnIP.None? && row.publicKey == "" &&
         row.username != ""
      && MayPut(s.rows, -1, row) && LowestFree(NetworkOf(s.ov.value), OvUsed(s.ov.value, s.rows), Some(ip))
    case AttachOvpn(i, ip, _) =>
      && s.ov.Some? && i < |s.rows| && s.rows[i].cn == ""
      && LowestFree(NetworkOf(s.ov.value), OvUsed(s.ov.value, s.rows), Some(ip))
    case DetachOvpn(i) => i < |s.rows|
    case Delete(i, _) => i < |s.rows|
    case Expand(prefix, entries, plan, doWG, doOV) =>
      ValidEntries(entries) && PlanFor(Pools(s.wg, s.iface, s.ov), prefix, entries, plan) && Chosen(plan, doWG, doOV)
    case SetupOvpn(c) =>
      (s.wg.Some? ==> !NetsOverlap(NetworkOf(s.wg.value), NetworkOf(c))) && FitsUsers(s, c)
  }

  function Apply(s: System, e: Event): System
    requires CanStep(s, e)
  {
    match e
    case PickWG(pid, ip) => s.(picks := s.picks[pid := ip])
    case InsertWG(pid, row) =>
      if MayPut(s.rows, -1, row) then
        s.(rows := s.rows + [row], nextId := s.nextId + 1, picks := s.picks - {pid})
      else
        s.(picks := s.picks - {pid})
    case NewOvpnUser(row, ip, cred) =>
      s.(rows := s.rows + [WithOvpn(row, ip, cred)], nextId := s.nextId + 1,
         ccd := s.ccd[row.username := CcdFile(ip, s.ov.value.prefix)])
    case AttachOvpn(i, ip, cred) =>
      s.(rows := s.rows[i := WithOvpn(s.rows[i], ip, cred)],
         ccd := s.ccd[s.rows[i].username := CcdFile(ip, s.ov.value.prefix)])
    case DetachOvpn(i) =>
      s.(rows := s.rows[i := WithoutOvpn(s.rows[i])], ccd := Removed(s.ccd, s.rows[i].username, true))
    case Delete(i, dirKnown) =>
      s.(rows := RemoveAt(s.rows, i), ccd := Removed(s.ccd, s.rows[i].username, dirKnown))
    case Expand(prefix, entries, plan, doWG, doOV) =>
      s.(wg := After(s.wg, plan.wg, doWG), ov := After(s.ov, plan.ov, doOV),
         ccd := if doOV then Rewritten(s.ccd, s.rows, plan.ov.value.wide.prefix) else s.ccd)
    case SetupOvpn(c) => s.(ov := Some(c))
  }

  // ---- the invariant ----

  predicate WgAddressOk(wg: Option<Cidr>, a: Addr) {
    wg.Some? && Allocatable(NetworkOf(wg.value), a) && a != wg.value.ip
  }

  predicate OvAddressOk(ov: Option<Cidr>, a: Addr) {
    ov.Some? && Allocatable(NetworkOf(ov.value), a) && a != OvServer(ov.value)
  }

  predicate RowOk(s: System, p: Peer) {
    && (p.address.Some? ==> WgAddressOk(s.wg, p.address.value))
    && (p.ovpnIP.Some? ==> OvAddressOk(s.ov, p.ovpnIP.value))
    && (p.ovpnIP.Some? <==> p.cn != "")
    && (p.ovpnIP.Some? && p.username in s.ccd ==> s.ccd[p.username] == CcdFile(p.ovpnIP.value, s.ov.value.prefix))
    && p.id < s.nextId && p.username != ""
  }

  predicate Apart(p: Peer, q: Peer) {
    IndexApart(p, q) && p.id != q.id && (p.ovpnIP.Some? ==> p.ovpnIP != q.ovpnIP)
  }

  predicate Inv(s: System) {
    && (s.wg.Some? && s.ov.Some? ==> Disjoint(NetworkOf(s.wg.value), NetworkOf(s.ov.value)))
    && (forall i :: 0 <= i < |s.rows| ==> RowOk(s, s.rows[i]))
    && (forall i, j :: 0 <= i < j < |s.rows| ==> Apart(s.rows[i], s.rows[j]))
    && (forall pid :: pid in s.picks ==> WgAddressOk(s.wg, s.picks[pid]))
  }

  /** No tunnel address is shared, neither within a pool nor across the two. */
  lemma InvMeansDistinct(s: System)
    requires Inv(s)
    ensures DistinctIPs(s.rows)
    ensures forall i :: 0 <= i < |s.rows| && s.rows[i].address.Some? && s.rows[i].ovpnIP.Some? ==>
              s.rows[i].address != s.rows[i].ovpnIP
  {
    hide NetworkOf;
    forall i, j | 0 <= i < j < |s.rows|
      ensures IPs(s.rows[i]) !! IPs(s.rows[j])
    {
      assert RowOk(s, s.rows[i]) && RowOk(s, s.rows[j]) && Apart(s.rows[i], s.rows[j]);
    }
    forall i | 0 <= i < |s.rows| && s.rows[i].address.Some? && s.rows[i].ovpnIP.Some?
      ensures s.rows[i].address != s.rows[i].ovpnIP
    {
      assert RowOk(s, s.rows[i]);
    }
  }

  /** A system whose pools are kept this way always gets an exact block set. */
  lemma PoolsMakeBlockingExact(s: System, tr: Enforcement.Transfers, ov: Enforcement.Sessions, now: int)
    requires Inv(s)
    ensures var done := Enforcement.TickRows(s.rows, tr, ov, now);
            Enforcement.LastClaim(done) == Enforcement.BlockedIPs(done)
  {
    hide Inv;
    InvMeansDistinct(s);
    var done := Enforcement.TickRows(s.rows, tr, ov, now);
    forall i | 0 <= i < |done|
      ensures IPs(done[i]) == IPs(s.rows[i])
    {
      Enforcement.TickRowParts(s.rows[i], tr, ov, now);
    }
    Enforcement.DistinctIsExact(done);
  }

  // ---- every step keeps it ----

  lemma StepKeepsRows(s: System, e: Event)
    requires Inv(s) && CanStep(s, e) && (e.PickWG? || e.InsertWG?)
    ensures Inv(Apply(s, e))
  {
    hide Allocatable, NetworkOf;
    var s' := Apply(s, e);
    if e.InsertWG? && MayPut(s.rows, -1, e.row) {
      forall i | 0 <= i < |s'.rows|
        ensures RowOk(s', s'.rows[i])
      {
        assert i < |s.rows| ==> RowOk(s, s.rows[i]);
      }
    }
  }

  lemma NewAddressFresh(c: Cidr, rows: seq<Peer>, ip: Addr)
    requires LowestFree(NetworkOf(c), OvUsed(c, rows), Some(ip))
    ensures OvAddressOk(Some(c), ip) && forall i :: 0 <= i < |rows| ==> rows[i].ovpnIP != Some(ip)
  {
    forall i | 0 <= i < |rows|
      ensures rows[i].ovpnIP != Some(ip)
    {
      assert rows[i].ovpnIP.Some? ==> rows[i].ovpnIP.value in OvUsed(c, rows);
    }
  }

  lemma NewOvpnUserKeepsInv(s: System, e: Event)
    requires Inv(s) && CanStep(s, e) && e.NewOvpnUser?
    ensures Inv(Apply(s, e))
  {
    hide Allocatable, NetworkOf, LowestFree, OvUsed, OvServer, Disjoint;
    NewAddressFresh(s.ov.value, s.rows, e.ip);
    var s' := Apply(s, e);
    forall i | 0 <= i < |s'.rows|
      ensures RowOk(s', s'.rows[i])
    {
      assert i < |s.rows| ==> RowOk(s, s.rows[i]) && s.rows[i].username != e.row.username;
    }
  }

  lemma AttachKeepsInv(s: System, e: Event)
    requires Inv(s) && CanStep(s, e) && e.AttachOvpn?
    ensures Inv(Apply(s, e))
  {
    hide Allocatable, NetworkOf, LowestFree, OvUsed, OvServer, Disjoint;
    NewAddressFresh(s.ov.value, s.rows, e.ip);
    var s' := Apply(s, e);
    forall i | 0 <= i < |s'.rows|
      ensures RowOk(s', s'.rows[i])
    {
      assert RowOk(s, s.rows[i]) && (i < e.i ==> Apart(s.rows[i], s.rows[e.i])) &&
             (e.i < i ==> Apart(s.rows[e.i], s.rows[i]));
    }
    forall i, j | 0 <= i < j < |s'.rows|
      ensures Apart(s'.rows[i], s'.rows[j])
    {
      assert Apart(s.rows[i], s.rows[j]);
    }
  }

  lemma LeavingKeepsInv(s: System, e: Event)
    requires Inv(s) && CanStep(s, e) && (e.DetachOvpn? || e.Delete?)
    ensures Inv(Apply(s, e))
  {
    hide WgAddressOk, OvAddressOk, Disjoint, IndexApart;
    var s' := Apply(s, e);
    forall i | 0 <= i < |s'.rows|
      ensures RowOk(s', s'.rows[i])
    {
      var k := if e.Delete? && i >= e.i then i + 1 else i;
      assert RowOk(s, s.rows[k]);
    }
    forall i, j | 0 <= i < j < |s'.rows|
      ensures Apart(s'.rows[i], s'.rows[j])
    {
      var k, l := if e.Delete? && i >= e.i then i + 1 else i, if e.Delete? && j >= e.i then j + 1 else j;
      assert Apart(s.rows[k], s.rows[l]);
      StillApart(s.rows[k], s.rows[l]);
    }
  }

  lemma StillApart(p: Peer, q: Peer)
    requires Apart(p, q)
    ensures Apart(WithoutOvpn(p), q) && Apart(p, WithoutOvpn(q))
  {
  }

  predicate NoOvpnUser(rows: seq<Peer>, name: string) {
    forall p :: p in rows && p.username == name ==> p.cn == "" || p.ovpnIP.None?
  }

  /** All other files stay, and none is made. */
  lemma {:induction false} RewrittenOthers(ccd: map<string, CcdFile>, rows: seq<Peer>, prefix: int)
    ensures Rewritten(ccd, rows, prefix).Keys == ccd.Keys
    ensures forall name :: name in ccd && NoOvpnUser(rows, name) ==> Rewritten(ccd, rows, prefix)[name] == ccd[name]
  {
    if rows == [] {
    } else {
      var init, p := rows[..|rows| - 1], rows[|rows| - 1];
      assert p in rows && forall q :: q in init ==> q in rows;
      RewrittenOthers(ccd, init, prefix);
      assert forall name :: NoOvpnUser(rows, name) ==> NoOvpnUser(init, name);
    }
  }

  lemma {:induction false} RewrittenFiles(ccd: map<string, CcdFile>, rows: seq<Peer>, prefix: int)
    requires forall i, j :: 0 <= i < j < |rows| ==> rows[i].username != rows[j].username
    ensures Rewritten(ccd, rows, prefix).Keys == ccd.Keys
    ensures forall i :: 0 <= i < |rows| && rows[i].cn != "" && rows[i].ovpnIP.Some? && rows[i].username in ccd ==>
              Rewritten(ccd, rows, prefix)[rows[i].username] == CcdFile(rows[i].ovpnIP.value, prefix)
  {
    if rows == [] {
    } else {
      RewrittenFiles(ccd, rows[..|rows| - 1], prefix);
    }
  }

  lemma WideAddresses(c: Cidr, w: Cidr, prefix: int)
    requires 16 <= prefix <= c.prefix && NetworkOf(w) == Widened(NetworkOf(c), prefix)
    ensures forall a: Addr :: Allocatable(NetworkOf(c), a) ==> Allocatable(NetworkOf(w), a)
    ensures w.ip == c.ip ==> forall a :: WgAddressOk(Some(c), a) ==> WgAddressOk(Some(w), a)
    ensures NetworkOf(w).base == NetworkOf(c).base ==> forall a :: OvAddressOk(Some(c), a) ==> OvAddressOk(Some(w), a)
  {
    WideningKeepsHosts(NetworkOf(c), prefix);
  }

  lemma ExpandKeepsPools(s: System, e: Event)
    requires Inv(s) && CanStep(s, e) && e.Expand?
    ensures var s' := Apply(s, e);
            && (s'.wg.Some? && s'.ov.Some? ==> Disjoint(NetworkOf(s'.wg.value), NetworkOf(s'.ov.value)))
            && (forall a :: WgAddressOk(s.wg, a) ==> WgAddressOk(s'.wg, a))
            && (forall a :: OvAddressOk(s.ov, a) ==> OvAddressOk(s'.ov, a))
            && s'.ov.Some? == s.ov.Some?
  {
    var pools := Planner.Pools.Pools(s.wg, s.iface, s.ov);
    if s.wg.Some? && s.ov.Some? {
      PoolsEndDisjoint(pools, e.prefix, e.entries, e.plan, e.doWG, e.doOV);
    }
    ServersAndHostsStay(pools, e.prefix, e.entries, e.plan, e.doWG, e.doOV);
    hide NetworkOf, Allocatable, Widened, ClearOf, Rewritten, OvServer, ValidEntries, Disjoint;
    if e.doWG {
      WideAddresses(s.wg.value, e.plan.wg.value.wide, e.prefix);
    }
    if e.doOV {
      WideAddresses(s.ov.value, e.plan.ov.value.wide, e.prefix);
    }
  }

  lemma ExpandKeepsInv(s: System, e: Event)
    requires Inv(s) && CanStep(s, e) && e.Expand?
    ensures Inv(Apply(s, e))
  {
    ExpandKeepsPools(s, e);
    hide PlanFor, NetworkOf, WgAddressOk, OvAddressOk, ClearOf, Disjoint, Rewritten;
    assert forall i, j :: 0 <= i < j < |s.rows| ==> Apart(s.rows[i], s.rows[j]);
    RewrittenFiles(s.ccd, s.rows, if e.doOV then e.plan.ov.value.wide.prefix else 0);
    var s' := Apply(s, e);
    forall i | 0 <= i < |s'.rows|
      ensures RowOk(s', s'.rows[i])
    {
      assert RowOk(s, s.rows[i]);
    }
  }

  /** Choosing another OpenVPN subnet keeps the invariant exactly when it suits the users who hold an address. */
  lemma SetupExact(s: System, c: Cidr)
    requires Inv(s) && (s.wg.Some? ==> !NetsOverlap(NetworkOf(s.wg.value), NetworkOf(c)))
    ensures Inv(s.(ov := Some(c))) <==> FitsUsers(s, c)
  {
    hide NetworkOf, Allocatable, Disjoint, NetsOverlap, OvServer;
    if s.wg.Some? {
      NetsOverlapExact(NetworkOf(s.wg.value), NetworkOf(c));
    }
    var s' := s.(ov := Some(c));
    forall i | 0 <= i < |s.rows|
      ensures RowOk(s', s.rows[i]) <==>
                (s.rows[i].ovpnIP.Some? ==>
                   && OvAddressOk(Some(c), s.rows[i].ovpnIP.value)
                   && (s.rows[i].username in s.ccd ==> s.ccd[s.rows[i].username].prefix == c.prefix))
    {
      assert RowOk(s, s.rows[i]);
    }
    assert Inv(s') ==> forall i :: 0 <= i < |s'.rows| ==> RowOk(s', s'.rows[i]);
  }

  lemma StepKeepsInv(s: System, e: Event)
    requires Inv(s) && CanStep(s, e)
    ensures Inv(Apply(s, e))
  {
    hide Inv, CanStep, Apply;
    match e
    case PickWG(_, _) => StepKeepsRows(s, e);
    case InsertWG(_, _) => StepKeepsRows(s, e);
    case NewOvpnUser(_, _, _) => NewOvpnUserKeepsInv(s, e);
    case AttachOvpn(_, _, _) => AttachKeepsInv(s, e);
    case DetachOvpn(_) => LeavingKeepsInv(s, e);
    case Delete(_, _) => LeavingKeepsInv(s, e);
    case Expand(_, _, _, _, _) => ExpandKeepsInv(s, e);
    case SetupOvpn(c) => SetupStep(s, c);
  }

  lemma SetupStep(s: System, c: Cidr)
    requires Inv(s) && CanStep(s, SetupOvpn(c))
    ensures Inv(Apply(s, SetupOvpn(c)))
  {
    hide Inv, FitsUsers;
    SetupExact(s, c);
  }

  // ---- runs ----

  predicate CanRun(s: System, es: seq<Event>)
    decreases es
  {
    es == [] || (CanStep(s, es[0]) && CanRun(Apply(s, es[0]), es[1..]))
  }

  function RunAll(s: System, es: seq<Event>): System
    requires CanRun(s, es)
    decreases es
  {
    if es == [] then s else RunAll(Apply(s, es[0]), es[1..])
  }

  lemma {:induction false} RunsKeepInv(s: System, es: seq<Event>)
    requires Inv(s) && CanRun(s, es)
    ensures Inv(RunAll(s, es))
    decreases es
  {
    hide Inv, CanStep, Apply;
    if es == [] {
    } else {
      StepKeepsInv(s, es[0]);
      RunsKeepInv(Apply(s, es[0]), es[1..]);
    }
  }

  /** Row id loses its OpenVPN identity somewhere in the run. */
  predicate Detaches(s: System, es: seq<Event>, id: int)
    requires CanRun(s, es)
    decreases es
  {
    es != [] &&
    ((es[0].DetachOvpn? && s.rows[es[0].i].id == id) || Detaches(Apply(s, es[0]), es[1..], id))
  }

  /** Where the row at index j came from. */
  function Origin(e: Event, j: nat): nat {
    if e.Delete? && j >= e.i then j + 1 else j
  }

  lemma StepKeepsAddresses(s: System, e: Event, j: nat)
    requires Inv(s) && CanStep(s, e)
    requires j < |Apply(s, e).rows| && Apply(s, e).rows[j].id < s.nextId
    ensures Origin(e, j) < |s.rows| && s.nextId <= Apply(s, e).nextId
    ensures var p, q := s.rows[Origin(e, j)], Apply(s, e).rows[j];
            && p.id == q.id && p.username == q.username && p.address == q.address
            && (p.ovpnIP.Some? && !(e.DetachOvpn? && s.rows[e.i].id == p.id) ==> q.ovpnIP == p.ovpnIP)
  {
    hide PlanFor, Chosen, LowestFree, MayPut, Rewritten, FitsUsers, NetsOverlap, NetworkOf, Allocatable, Disjoint;
    assert e.AttachOvpn? ==> RowOk(s, s.rows[e.i]);
  }

  /** Whoever is still there at the end of a run has the addresses he had at its start, unless OpenVPN was detached. */
  lemma {:induction false} AddressesNeverMove(s: System, es: seq<Event>, j: nat) returns (i: nat)
    requires Inv(s) && CanRun(s, es)
    requires j < |RunAll(s, es).rows| && RunAll(s, es).rows[j].id < s.nextId
    ensures i < |s.rows|
    ensures var p, q := s.rows[i], RunAll(s, es).rows[j];
            && p.id == q.id && p.username == q.username && p.address == q.address
            && (p.ovpnIP.Some? && !Detaches(s, es, p.id) ==> q.ovpnIP == p.ovpnIP)
    decreases es
  {
    hide Inv, CanStep, Apply;
    if es == [] {
      i := j;
    } else {
      var mid := Apply(s, es[0]);
      StepKeepsInv(s, es[0]);
      IdsGrow(s, es[0]);
      var k := AddressesNeverMove(mid, es[1..], j);
      StepKeepsAddresses(s, es[0], k);
      i := Origin(es[0], k);
    }
  }

  lemma IdsGrow(s: System, e: Event)
    requires CanStep(s, e)
    ensures s.nextId <= Apply(s, e).nextId
  {
  }

  // ---- choosing another OpenVPN subnet ----

  /** A system without users and without WireGuard. */
  function Nobody(): System {
    System(None, "", None, [], 1, map[], map[])
  }

  /** The second address of a pool that has hosts besides its server. */
  lemma FirstHost(b: Cidr) returns (a: Addr)
    requires b.prefix <= 30
    ensures LowestFree(NetworkOf(b), OvUsed(b, []), Some(a))
  {
    hide NetworkOf, Size;
    var n := NetworkOf(b);
    BlockInSpace(n);
    FourFit(n);
    assert OvServer(b) == n.base + 1;
    a := n.base + 2;
    assert OvUsed(b, []) == {n.base + 1};
  }

  lemma FourFit(n: Block)
    requires n.Valid() && n.prefix <= 30
    ensures n.base % 4 == 0 && Size(n.prefix) >= 4
  {
    hide Bitwise.Pow2;
    var k, s := Bitwise.Pow2(30 - n.prefix), Size(n.prefix);
    Bitwise.Pow2Add(2, 30 - n.prefix);
    assert Bitwise.Pow2(2) == 4 by {
      Bitwise.Pow2Add(1, 1);
      One();
    }
    assert s == 4 * k;
    var q := n.base / s;
    assert n.base == s * q == 4 * (k * q);
  }

  lemma One()
    ensures Bitwise.Pow2(1) == 2
  {
    assert Bitwise.Pow2(0) == 1;
  }

  /** Set up a pool, then create one user in it. */
  lemma OneUserRun(b: Cidr, row: Peer, cred: Credentials) returns (es: seq<Event>)
    requires b.prefix <= 30 && row.id == 1 && row.address.None? && row.ovpnIP.None? && row.publicKey == ""
    requires row.username != ""
    ensures CanRun(Nobody(), es) && Inv(RunAll(Nobody(), es))
    ensures var t := RunAll(Nobody(), es);
            && |t.rows| == 1 && t.ov == Some(b) && t.wg.None? && t.rows[0].ovpnIP.Some?
            && t.ccd == map[row.username := CcdFile(t.rows[0].ovpnIP.value, b.prefix)] &&
               t.rows[0].username == row.username
            && LowestFree(NetworkOf(b), OvUsed(b, []), t.rows[0].ovpnIP) && t.nextId == 2
  {
    hide NetworkOf, LowestFree, OvUsed, Allocatable;
    var a := FirstHost(b);
    es := [SetupOvpn(b), NewOvpnUser(row, a, cred)];
    var s := Apply(Nobody(), es[0]);
    assert es[1..] == [es[1]] && [es[1]][1..] == [];
    assert CanRun(Apply(s, es[1]), []);
    assert CanRun(s, [es[1]]) && RunAll(s, [es[1]]) == Apply(s, es[1]);
    RunsKeepInv(Nobody(), es);
  }

  /**
   * Changing the subnet from b to c is safe for every table the invariant allows exactly when b has no
   * host besides its server, or c is the same network; and if it is not safe, it already fails after
   * one user has been created.
   */
  lemma ChangeSafeExactly(b: Cidr, c: Cidr)
    ensures (forall s ::
               Inv(s) && s.ov == Some(b) && (s.wg.Some? ==> !NetsOverlap(NetworkOf(s.wg.value), NetworkOf(c))) ==>
               Inv(s.(ov := Some(c)))) <==>
            b.prefix >= 31 || NetworkOf(b) == NetworkOf(c)
    ensures b.prefix >= 31 || NetworkOf(b) == NetworkOf(c) ||
            exists es :: CanRun(Nobody(), es) && RunAll(Nobody(), es).ov == Some(b) &&
              !Inv(RunAll(Nobody(), es).(ov := Some(c)))
  {
    hide Inv, NetsOverlap, CanRun, RunAll, NetworkOf;
    if b.prefix >= 31 || NetworkOf(b) == NetworkOf(c) {
      forall s | Inv(s) && s.ov == Some(b) && (s.wg.Some? ==> !NetsOverlap(NetworkOf(s.wg.value), NetworkOf(c)))
        ensures Inv(s.(ov := Some(c)))
      {
        SameNetworkFits(s, b, c);
        SetupExact(s, c);
      }
    } else {
      var es := ChangeBreaks(b, c);
      var t := RunAll(Nobody(), es);
      assert Inv(t) && t.ov == Some(b) && t.wg.None? && !Inv(t.(ov := Some(c)));
    }
  }

  lemma SameNetworkFits(s: System, b: Cidr, c: Cidr)
    requires Inv(s) && s.ov == Some(b) && (b.prefix >= 31 || NetworkOf(b) == NetworkOf(c))
    ensures FitsUsers(s, c)
  {
    hide NetworkOf, Disjoint;
    forall i | 0 <= i < |s.rows| && s.rows[i].ovpnIP.Some?
      ensures OvAddressOk(Some(c), s.rows[i].ovpnIP.value)
      ensures s.rows[i].username in s.ccd ==> s.ccd[s.rows[i].username].prefix == c.prefix
    {
      assert RowOk(s, s.rows[i]);
      if b.prefix >= 31 {
        TinyHasNoHost(NetworkOf(b), s.rows[i].ovpnIP.value);
      }
    }
  }

  lemma TinyHasNoHost(n: Block, a: Addr)
    requires n.Valid() && n.prefix >= 31
    ensures !Allocatable(n, a)
  {
    One();
    assert Bitwise.Pow2(0) == 1;
    assert Size(n.prefix) <= 2;
  }

  /** A user created in network b has no place in network c. */
  lemma ChangeBreaks(b: Cidr, c: Cidr) returns (es: seq<Event>)
    requires b.prefix <= 30 && NetworkOf(b) != NetworkOf(c)
    ensures CanRun(Nobody(), es) && Inv(RunAll(Nobody(), es))
    ensures RunAll(Nobody(), es).ov == Some(b) && RunAll(Nobody(), es).wg.None?
    ensures !Inv(RunAll(Nobody(), es).(ov := Some(c)))
  {
    hide CanRun, RunAll, NetworkOf, LowestFree, Size;
    var row := Peer(1, "u", "", "", "", None, 0, 0, 0, 0, None, true, false, "", None, false, 0, 0, "", "");
    es := OneUserRun(b, row, Credentials("", ""));
    var t := RunAll(Nobody(), es);
    var u := t.(ov := Some(c));
    var a := t.rows[0].ovpnIP.value;
    if Inv(u) {
      assert RowOk(t, t.rows[0]) by {
        assert Inv(t);
      }
      assert RowOk(u, u.rows[0]);
      var m, n := NetworkOf(b), NetworkOf(c);
      assert m.prefix == n.prefix && m.Has(a) && n.Has(a);
      SharedAddress(m, n, a);
    }
  }

  /** Blocks of one size that share an address are the same. */
  lemma SharedAddress(m: Block, n: Block, a: Addr)
    requires m.Valid() && n.Valid() && m.prefix == n.prefix && m.Has(a) && n.Has(a)
    ensures m == n
  {
    hide Size;
    BlockInSpace(m);
    BlockInSpace(n);
    Bitwise.ModUnique(a, Size(m.prefix), m.base / Size(m.prefix), a - m.base);
    Bitwise.ModUnique(a, Size(n.prefix), n.base / Size(n.prefix), a - n.base);
  }

  // ---- client files and their owners ----

  /** Every client file belongs to the user of that name and carries his address. */
  ghost predicate FilesOwned(s: System) {
    forall name :: name in s.ccd ==> exists i :: Owns(s, i, name)
  }

  predicate Owns(s: System, i: int, name: string) {
    0 <= i < |s.rows| && name in s.ccd && s.rows[i].username == name && s.rows[i].ovpnIP == Some(s.ccd[name].ip)
  }

  /** The only way to leave a file behind: a deletion that does not know the directory. */
  predicate Careless(e: Event) {
    e.Delete? && !e.dirKnown
  }

  lemma NewFilesOwned(s: System, e: Event)
    requires CanStep(s, e) && FilesOwned(s) && (e.NewOvpnUser? || e.AttachOvpn?) && Inv(s)
    ensures FilesOwned(Apply(s, e))
  {
    hide NetworkOf, Allocatable, LowestFree, Disjoint;
    var s' := Apply(s, e);
    var k := if e.NewOvpnUser? then |s.rows| else e.i;
    assert Owns(s', k, s'.rows[k].username);
    forall name | name in s'.ccd && name != s'.rows[k].username
      ensures exists i :: Owns(s', i, name)
    {
      var i :| Owns(s, i, name);
      assert Owns(s', i, name);
    }
  }

  lemma RemovedFilesOwned(s: System, e: Event)
    requires CanStep(s, e) && FilesOwned(s) && (e.DetachOvpn? || e.Delete?) && !Careless(e) && Inv(s)
    ensures FilesOwned(Apply(s, e))
  {
    hide WgAddressOk, OvAddressOk, Disjoint, Apart;
    var s' := Apply(s, e);
    assert RowOk(s, s.rows[e.i]);
    forall name | name in s'.ccd
      ensures exists i :: Owns(s', i, name)
    {
      var i :| Owns(s, i, name);
      assert Owns(s', if e.Delete? && i > e.i then i - 1 else i, name);
    }
  }

  lemma RewrittenFilesOwned(s: System, e: Event)
    requires CanStep(s, e) && FilesOwned(s) && e.Expand? && Inv(s)
    ensures FilesOwned(Apply(s, e))
  {
    hide NetworkOf, Allocatable, Disjoint, PlanFor, Rewritten, ValidEntries;
    var s' := Apply(s, e);
    assert forall i, j :: 0 <= i < j < |s.rows| ==> Apart(s.rows[i], s.rows[j]);
    RewrittenFiles(s.ccd, s.rows, if e.doOV then e.plan.ov.value.wide.prefix else 0);
    forall name | name in s'.ccd
      ensures exists i :: Owns(s', i, name)
    {
      var i :| Owns(s, i, name);
      assert RowOk(s, s.rows[i]);
      assert Owns(s', i, name);
    }
  }

  lemma StepKeepsOwners(s: System, e: Event)
    requires Inv(s) && CanStep(s, e) && FilesOwned(s) && !Careless(e)
    ensures FilesOwned(Apply(s, e))
  {
    hide NetworkOf, Allocatable, LowestFree, PlanFor, NetsOverlap, Inv, MayPut, FitsUsers, WgUsed, OvUsed, Careless;
    match e
    case NewOvpnUser(_, _, _) => NewFilesOwned(s, e);
    case AttachOvpn(_, _, _) => NewFilesOwned(s, e);
    case DetachOvpn(_) => RemovedFilesOwned(s, e);
    case Delete(_, _) => RemovedFilesOwned(s, e);
    case Expand(_, _, _, _, _) => RewrittenFilesOwned(s, e);
    case PickWG(_, _) => SameFilesOwned(s, Apply(s, e));
    case InsertWG(_, _) => SameFilesOwned(s, Apply(s, e));
    case SetupOvpn(_) => SameFilesOwned(s, Apply(s, e));
  }

  lemma SameFilesOwned(s: System, s': System)
    requires FilesOwned(s) && s'.ccd == s.ccd && s.rows <= s'.rows
    ensures FilesOwned(s')
  {
    forall name | name in s'.ccd
      ensures exists i :: Owns(s', i, name)
    {
      var i :| Owns(s, i, name);
      assert Owns(s', i, name);
    }
  }

  /** Over every run whose deletions know the directory, no two client files carry the same address. */
  lemma {:induction false} FilesStayDistinct(s: System, es: seq<Event>)
    requires Inv(s) && FilesOwned(s) && CanRun(s, es) && forall k :: 0 <= k < |es| ==> !Careless(es[k])
    ensures FilesOwned(RunAll(s, es))
    ensures var ccd := RunAll(s, es).ccd;
            forall a, b :: a in ccd && b in ccd && a != b ==> ccd[a].ip != ccd[b].ip
    decreases es
  {
    hide Inv, CanStep, Apply, Careless, FilesOwned;
    if es == [] {
      OwnedMeansDistinct(s);
    } else {
      assert !Careless(es[0]);
      StepKeepsInv(s, es[0]);
      StepKeepsOwners(s, es[0]);
      assert forall k :: 0 <= k < |es[1..]| ==> es[1..][k] == es[k + 1];
      FilesStayDistinct(Apply(s, es[0]), es[1..]);
    }
  }

  lemma OwnedMeansDistinct(s: System)
    requires Inv(s) && FilesOwned(s)
    ensures forall a, b :: a in s.ccd && b in s.ccd && a != b ==> s.ccd[a].ip != s.ccd[b].ip
  {
    hide NetworkOf, Disjoint, RowOk, WgAddressOk;
    forall a, b | a in s.ccd && b in s.ccd && a != b
      ensures s.ccd[a].ip != s.ccd[b].ip
    {
      var i :| Owns(s, i, a);
      var j :| Owns(s, j, b);
      assert i != j && (i < j ==> Apart(s.rows[i], s.rows[j])) && (j < i ==> Apart(s.rows[j], s.rows[i]));
    }
  }

  /** One careless deletion: the next user gets the address that the leftover file still hands out. */
  lemma LeftoverFileShares(b: Cidr, p: Peer, q: Peer, cred: Credentials) returns (es: seq<Event>)
    requires b.prefix <= 30 && p.username != "" && q.username != "" && p.username != q.username && p.id == 1
    requires q.id == 2
    requires p.address.None? && p.ovpnIP.None? && p.publicKey == "" && q.address.None? && q.ovpnIP.None?
    requires q.publicKey == ""
    ensures CanRun(Nobody(), es)
    ensures var t := RunAll(Nobody(), es);
            && p.username in t.ccd && q.username in t.ccd && t.ccd[p.username].ip == t.ccd[q.username].ip
            && |t.rows| == 1 && t.rows[0].username == q.username
  {
    hide NetworkOf, LowestFree, OvUsed, CanRun, RunAll, Inv;
    var front := OneUserRun(b, p, cred);
    var t := RunAll(Nobody(), front);
    var back := [Delete(0, false), NewOvpnUser(q, t.rows[0].ovpnIP.value, cred)];
    LeftoverSteps(t, b, q, cred);
    RunsAppend(Nobody(), front, back);
    es := front + back;
  }

  lemma LeftoverSteps(t: System, b: Cidr, q: Peer, cred: Credentials)
    requires |t.rows| == 1 && t.ov == Some(b) && t.nextId == 2 && t.rows[0].ovpnIP.Some?
    requires LowestFree(NetworkOf(b), OvUsed(b, []), t.rows[0].ovpnIP)
    requires q.id == 2 && q.address.None? && q.ovpnIP.None? && q.publicKey == "" && q.username != ""
    ensures var back := [Delete(0, false), NewOvpnUser(q, t.rows[0].ovpnIP.value, cred)];
            && CanRun(t, back)
            && RunAll(t, back).rows == [WithOvpn(q, t.rows[0].ovpnIP.value, cred)]
            && RunAll(t, back).ccd == t.ccd[q.username := CcdFile(t.rows[0].ovpnIP.value, b.prefix)]
  {
    hide NetworkOf, LowestFree, OvUsed;
    var back := [Delete(0, false), NewOvpnUser(q, t.rows[0].ovpnIP.value, cred)];
    var mid := Apply(t, back[0]);
    assert mid.rows == [];
    assert back[1..] == [back[1]] && [back[1]][1..] == [];
    assert CanRun(Apply(mid, back[1]), []);
    assert CanRun(mid, [back[1]]) && RunAll(mid, [back[1]]) == Apply(mid, back[1]);
  }

  lemma {:induction false} RunsAppend(s: System, es: seq<Event>, fs: seq<Event>)
    requires CanRun(s, es) && CanRun(RunAll(s, es), fs)
    ensures CanRun(s, es + fs) && RunAll(s, es + fs) == RunAll(RunAll(s, es), fs)
    decreases es
  {
    hide CanStep, Apply;
    if es == [] {
      assert es + fs == fs;
    } else {
      assert (es + fs)[1..] == es[1..] + fs;
      RunsAppend(Apply(s, es[0]), es[1..], fs);
    }
  }
}
