/** The operations on accounts and pools, acting on the peer table, the configured pools and the client-config files. */
module Accounts {
  import opened Wrappers
  import opened IPv4
  import opened Peers
  import opened Planner
  import opened P = Pools
  import PeerFile
  import Seats
  import Text
  import W = WgConf

  datatype Refusal = NameRequired | NameTaken | NotSetUp | PoolFull | KeyTaken | LivePeerUnknown | NoSuchUser
                   | HasOvpn | Overlaps

  /** The subnet OpenVPN gets when none is chosen: 10.8.0.0/16. */
  const STANDARD_SUBNET := Cidr(0x0A08_0000, 16)

  /** The address that the interface head of a wg0.conf text gives the server. */
  function PoolIn(conf: string, parse: string -> Option<Cidr>): Option<Cidr> {
    W.HeadAddress(W.HeadLines(Text.Split(conf, '\n')), parse)
  }

  datatype Keys = Keys(priv: string, pub: string, psk: string)

  function Blank(id: int, name: string, quota: int, expires: Option<int>): Peer {
    Peer(id, name, "", "", "", None, quota, 0, 0, 0, expires, true, false, "", None, false, 0, 0, "", "")
  }

  function WireGuardRow(p: Peer, keys: Keys, ip: Addr): Peer {
    p.(publicKey := keys.pub, privateKey := keys.priv, psk := keys.psk, address := Some(ip))
  }

  /** A new user as asked for: enabled, not blocked, with nothing used or read. */
  predicate NewUser(p: Peer, id: int, name: string, quota: int, expires: Option<int>) {
    p.id == id && p.username == name && p.quota == quota && p.expires == expires && p.enabled && Seats.Unused(p)
  }

  /** An address for a WireGuard user: the pool may hand it out, and neither the server nor a row has it. */
  predicate FreeWg(wg: Cidr, rows: seq<Peer>, a: Addr) {
    Allocatable(NetworkOf(wg), a) && a != wg.ip && forall i :: 0 <= i < |rows| ==> rows[i].address != Some(a)
  }

  /** One for OpenVPN, whose server is on network + 1. */
  predicate FreeOv(ov: Cidr, rows: seq<Peer>, a: Addr) {
    && Allocatable(NetworkOf(ov), a) && a != (NetworkOf(ov).base + 1) % SPACE
    && forall i :: 0 <= i < |rows| ==> rows[i].ovpnIP != Some(a)
  }

  lemma FreeMeans(c: Cidr, rows: seq<Peer>)
    ensures forall a: Addr :: FreeWg(c, rows, a) <==> Allocatable(NetworkOf(c), a) && a !in WgUsed(c.ip, rows)
    ensures forall a: Addr :: FreeOv(c, rows, a) <==> Allocatable(NetworkOf(c), a) && a !in OvUsed(c, rows)
  {
    hide NetworkOf, Allocatable;
    forall a: Addr
      ensures a in WgUsed(c.ip, rows) <==> a == c.ip || exists i :: 0 <= i < |rows| && rows[i].address == Some(a)
      ensures a in OvUsed(c, rows) <==> a == OvServer(c) || exists i :: 0 <= i < |rows| && rows[i].ovpnIP == Some(a)
    {
      if i :| 0 <= i < |rows| && rows[i].address == Some(a) {
        assert rows[i].address.value in WgUsed(c.ip, rows);
      }
      if i :| 0 <= i < |rows| && rows[i].ovpnIP == Some(a) {
        assert rows[i].ovpnIP.value in OvUsed(c, rows);
      }
    }
  }

  /** The pool machine has picked the address and inserted the row. */
  predicate Inserts(s: System, s': System, p: Peer) {
    && p.address.Some?
    && var pick := PickWG(0, p.address.value);
    && CanStep(s, pick)
    && var mid := P.Apply(s, pick);
    && Seats.Creates(mid, InsertWG(0, p), p) && s' == P.Apply(mid, InsertWG(0, p))
  }

  /** No live peer would be dropped from the interface by rendering these rows. */
  predicate LiveKnown(rows: seq<Peer>, live: set<string>) {
    forall pk :: pk in live ==> exists i :: 0 <= i < |rows| && rows[i].publicKey == pk
  }

  lemma OneMoreWg(server: Addr, rows: seq<Peer>, k: nat)
    requires k < |rows|
    ensures WgUsed(server, rows[..k + 1]) ==
            WgUsed(server, rows[..k]) + if rows[k].address.Some? then {rows[k].address.value} else {}
  {
    forall a | a in WgUsed(server, rows[..k]) && a != server
      ensures a in WgUsed(server, rows[..k + 1])
    {
      var i :| 0 <= i < k && rows[..k][i].address == Some(a);
      assert rows[..k + 1][i].address == Some(a);
    }
    assert rows[..k + 1][k] == rows[k];
  }

  lemma OneMoreOv(c: Cidr, rows: seq<Peer>, k: nat)
    requires k < |rows|
    ensures OvUsed(c, rows[..k + 1]) ==
            OvUsed(c, rows[..k]) + if rows[k].ovpnIP.Some? then {rows[k].ovpnIP.value} else {}
  {
    hide OvServer;
    forall a | a in OvUsed(c, rows[..k]) && a != OvServer(c)
      ensures a in OvUsed(c, rows[..k + 1])
    {
      var i :| 0 <= i < k && rows[..k][i].ovpnIP == Some(a);
      assert rows[..k + 1][i].ovpnIP == Some(a);
    }
    assert rows[..k + 1][k] == rows[k];
  }

  class Panel {
    var wg: Option<Cidr>
    var iface: string
    var ov: Option<Cidr>
    var ca: bool
    var rows: seq<Peer>
    var nextId: int
    var ccd: map<string, CcdFile>

    constructor (wg: Option<Cidr>, iface: string)
      ensures State() == System(wg, iface, None, [], 1, map[], map[]) && !ca
    {
      this.wg, this.iface, ov, ca := wg, iface, None, false;
      rows, nextId, ccd := [], 1, map[];
    }

    /** Setting OpenVPN up makes the certificate authority and saves the subnet. */
    ghost predicate Valid()
      reads this
    {
      ca ==> ov.Some?
    }

    /** Seen between two operations: no creation is under way. */
    ghost function State(): System
      reads this
    {
      System(wg, iface, ov, rows, nextId, map[], ccd)
    }

    method NextFreeIP() returns (r: Option<Addr>)
      requires wg.Some?
      ensures LowestFree(NetworkOf(wg.value), WgUsed(wg.value.ip, rows), r)
      ensures r.Some? ==>
                FreeWg(wg.value, rows, r.value) && forall a: Addr :: a < r.value ==> !FreeWg(wg.value, rows, a)
      ensures r.None? ==> forall a: Addr :: !FreeWg(wg.value, rows, a)
    {
      FreeMeans(wg.value, rows);
      hide NetworkOf, Allocatable, FreeWg;
      var used := {wg.value.ip};
      for i := 0 to |rows|
        invariant used == WgUsed(wg.value.ip, rows[..i])
      {
        OneMoreWg(wg.value.ip, rows, i);
        if rows[i].address.Some? {
          used := used + {rows[i].address.value};
        }
      }
      assert rows[..|rows|] == rows;
      r := NextFreeHost(NetworkOf(wg.value), used);
    }

    method OvpnNextFreeIP() returns (r: Option<Addr>)
      requires ov.Some?
      ensures LowestFree(NetworkOf(ov.value), OvUsed(ov.value, rows), r)
      ensures r.Some? ==>
                FreeOv(ov.value, rows, r.value) && forall a: Addr :: a < r.value ==> !FreeOv(ov.value, rows, a)
      ensures r.None? ==> forall a: Addr :: !FreeOv(ov.value, rows, a)
    {
      FreeMeans(ov.value, rows);
      hide NetworkOf, Allocatable, FreeOv;
      var srv := NextIP(ToBytes(NetworkOf(ov.value).base));
      var used := {Value(srv)};
      for i := 0 to |rows|
        invariant used == OvUsed(ov.value, rows[..i])
      {
        OneMoreOv(ov.value, rows, i);
        if rows[i].ovpnIP.Some? {
          used := used + {rows[i].ovpnIP.value};
        }
      }
      assert rows[..|rows|] == rows;
      r := NextFreeHost(NetworkOf(ov.value), used);
    }

    /** The row of a new WireGuard user: pick the address, insert under the unique indexes. */
    method InsertWireGuard(name: string, quota: int, expires: Option<int>, keys: Keys)
      returns (inserted: Option<Addr>, why: Refusal)
      modifies this
      ensures wg == old(wg) && ov == old(ov) && ca == old(ca)
      ensures inserted.Some? <==>
                && name != "" && (forall i :: 0 <= i < |old(rows)| ==> old(rows)[i].username != name)
                && wg.Some? && (exists a: Addr :: FreeWg(wg.value, old(rows), a))
                && (keys.pub == "" || forall i :: 0 <= i < |old(rows)| ==> old(rows)[i].publicKey != keys.pub)
      ensures inserted.None? ==> State() == old(State()) && rows == old(rows)
      ensures inserted.Some? ==>
                && FreeWg(wg.value, old(rows), inserted.value)
                && (forall a: Addr :: a < inserted.value ==> !FreeWg(wg.value, old(rows), a))
                && |rows| == |old(rows)| + 1
                && var p := rows[|old(rows)|];
                && rows == old(rows) + [p] && NewUser(p, old(nextId), name, quota, expires)
                && p.publicKey == keys.pub && p.privateKey == keys.priv && p.psk == keys.psk && p.address == inserted
                && p.cn == "" && p.ovpnIP.None? && !p.ovpnEnabled && p.ovpnCert == "" && p.ovpnKey == ""
                && Inserts(old(State()), State(), p)
    {
      inserted, why := None, NameRequired;
      if name == "" {
        return;
      }
      if IndexOf(rows, name).Some? {
        return None, NameTaken;
      }
      if wg.None? {
        return None, NotSetUp;
      }
      var ip := NextFreeIP();
      if ip.None? {
        return None, PoolFull;
      }
      hide NetworkOf, Allocatable, LowestFree, WgUsed;
      FreshAddress(wg.value.ip, rows, NetworkOf(wg.value), ip.value);
      var row := WireGuardRow(Blank(nextId, name, quota, expires), keys, ip.value);
      if !MayPut(rows, -1, row) {
        return None, KeyTaken;
      }
      rows, nextId := rows + [row], nextId + 1;
      inserted := ip;
      assert State().picks == old(State()).picks[0 := ip.value] - {0};
    }

    /**
     * A new WireGuard user: insert the row, render wg0.conf. The rendering refuses while a live peer is in no
     * row; the request then fails, but the row stays.
     */
    method CreateWireGuard(name: string, quota: int, expires: Option<int>, keys: Keys,
                           conf: W.ConfFile, live: set<string>, parse: string -> Option<Cidr>)
      returns (r: Result<Addr, Refusal>, inserted: Option<Addr>)
      requires wg.Some? ==> PoolIn(conf.text, parse) == wg
      modifies this, conf
      ensures wg == old(wg) && ov == old(ov) && ca == old(ca)
      ensures inserted.Some? <==>
                && name != "" && (forall i :: 0 <= i < |old(rows)| ==> old(rows)[i].username != name)
                && wg.Some? && (exists a: Addr :: FreeWg(wg.value, old(rows), a))
                && (keys.pub == "" || forall i :: 0 <= i < |old(rows)| ==> old(rows)[i].publicKey != keys.pub)
      ensures inserted.None? ==>
                r.Failure? && State() == old(State()) && rows == old(rows) && conf.text == old(conf.text)
      ensures inserted.Some? ==>
                && FreeWg(wg.value, old(rows), inserted.value)
                && (forall a: Addr :: a < inserted.value ==> !FreeWg(wg.value, old(rows), a))
                && |rows| == |old(rows)| + 1
                && var p := rows[|old(rows)|];
                && rows == old(rows) + [p] && NewUser(p, old(nextId), name, quota, expires)
                && p.publicKey == keys.pub && p.privateKey == keys.priv && p.psk == keys.psk && p.address == inserted
                && p.cn == "" && p.ovpnIP.None? && !p.ovpnEnabled && p.ovpnCert == "" && p.ovpnKey == ""
                && Inserts(old(State()), State(), p)
      ensures inserted.Some? ==>
                && r == (if LiveKnown(rows, live) then Success(inserted.value) else Failure(LivePeerUnknown))
                && conf.text ==
                   if r.Success? then W.Render(old(conf.text), PeerFile.ClientsOf(rows)) else old(conf.text)
      ensures wg.Some? ==> PoolIn(conf.text, parse) == wg
    {
      hide FreeWg, W.Render, PoolIn, Inserts, NewUser, LiveKnown;
      var why;
      inserted, why := InsertWireGuard(name, quota, expires, keys);
      if inserted.None? {
        return Failure(why), None;
      }
      var ok := Render(conf, false, live, parse);
      r := if ok then Success(inserted.value) else Failure(LivePeerUnknown);
    }

    /** wg0.conf from the table. */
    method Render(conf: W.ConfFile, force: bool, live: set<string>, parse: string -> Option<Cidr>) returns (ok: bool)
      requires wg.Some? && PoolIn(conf.text, parse) == wg
      modifies conf
      ensures ok <==> force || LiveKnown(rows, live)
      ensures conf.text == if ok then W.Render(old(conf.text), PeerFile.ClientsOf(rows)) else old(conf.text)
      ensures PoolIn(conf.text, parse) == wg
    {
      hide W.Render, W.HeadAddress, W.HeadLines;
      var cs := PeerFile.ClientsOf(rows);
      assert forall i :: 0 <= i < |rows| ==> cs[i].pub == rows[i].publicKey;
      W.RenderKeepsAddress(conf.text, cs, parse);
      ok := conf.RenderConf(cs, force, live, parse);
    }

    /**
     * A new user with OpenVPN only: insert the row, then attach; a failing attach takes the row and any file
     * back out.
     */
    method CreateOvpnOnly(name: string, quota: int, expires: Option<int>, cred: Credentials)
      returns (r: Result<Addr, Refusal>)
      requires Valid()
      modifies this
      ensures Valid() && wg == old(wg) && ov == old(ov) && ca == old(ca)
      ensures r.Failure? ==> rows == old(rows)
      ensures r.Success? <==>
                && name != "" && (forall i :: 0 <= i < |old(rows)| ==> old(rows)[i].username != name)
                && ca && (exists a: Addr :: FreeOv(ov.value, old(rows), a))
      ensures r.Failure? && r.error != PoolFull ==> State() == old(State())
      ensures r == Failure(PoolFull) ==> State() == old(State()).(nextId := old(nextId) + 1, ccd := old(ccd) - {name})
      ensures r.Success? ==>
                var e := NewOvpnUser(Blank(old(nextId), name, quota, expires), r.value, cred);
                && CanStep(old(State()), e) && State() == P.Apply(old(State()), e)
                && rows == old(rows) + [WithOvpn(e.row, r.value, cred)]
                && LowestFree(NetworkOf(ov.value), OvUsed(ov.value, old(rows)), Some(r.value))
      ensures r.Success? ==>
                && FreeOv(ov.value, old(rows), r.value)
                && (forall a: Addr :: a < r.value ==> !FreeOv(ov.value, old(rows), a))
                && |rows| == |old(rows)| + 1 && rows == old(rows) + [rows[|old(rows)|]]
                && (exists e :: Seats.Creates(old(State()), e, rows[|old(rows)|]) &&
                                State() == P.Apply(old(State()), e))
                && ccd == old(ccd)[name := CcdFile(r.value, ov.value.prefix)]
                && var p := rows[|old(rows)|];
                && NewUser(p, old(nextId), name, quota, expires)
                && p.publicKey == "" && p.privateKey == "" && p.psk == "" && p.address.None?
                && p.cn == name && p.ovpnIP == Some(r.value) && p.ovpnEnabled
                && p.ovpnCert == cred.cert && p.ovpnKey == cred.key
    {
      hide NetworkOf, Allocatable, LowestFree, OvUsed, OvServer, FreeOv;
      if name == "" {
        return Failure(NameRequired);
      }
      if IndexOf(rows, name).Some? {
        return Failure(NameTaken);
      }
      if !ca {
        return Failure(NotSetUp);
      }
      ghost var before := rows;
      SameFreeOv(ov.value, rows, Blank(nextId, name, quota, expires));
      var row := Blank(nextId, name, quota, expires);
      rows, nextId := rows + [row], nextId + 1;
      SameOvUsed(ov.value, before, row);
      r := Attach(|rows| - 1, cred);
      if r.Failure? {
        rows := rows[..|rows| - 1];
        RemoveFile(name, true);
      }
    }

    /**
     * The panel's create request: blanks around the name are dropped; without WireGuard every new user is
     * OpenVPN-only. A request that fails leaves a row behind exactly when the row could be inserted and a
     * live peer is in no row.
     */
    method CreatePeer(name: string, ovpnOnly: bool, quota: int, expires: Option<int>, keys: Keys, cred: Credentials,
                      conf: W.ConfFile, live: set<string>, parse: string -> Option<Cidr>)
      returns (r: Result<Addr, Refusal>)
      requires Valid() && (wg.Some? ==> PoolIn(conf.text, parse) == wg)
      modifies this, conf
      ensures Valid() && wg == old(wg) && ov == old(ov) && ca == old(ca)
      ensures var name' := Text.TrimSpace(name);
              r.Success? <==>
                && name' != "" && (forall i :: 0 <= i < |old(rows)| ==> old(rows)[i].username != name')
                && if ovpnOnly || wg.None? then
                     ca && exists a: Addr :: FreeOv(ov.value, old(rows), a)
                   else
                     && (exists a: Addr :: FreeWg(wg.value, old(rows), a))
                     && (keys.pub == "" || forall i :: 0 <= i < |old(rows)| ==> old(rows)[i].publicKey != keys.pub)
                     && LiveKnown(old(rows), live - {keys.pub})
      ensures r.Failure? ==>
                (rows != old(rows) <==>
                   && !ovpnOnly && wg.Some? && Text.TrimSpace(name) != ""
                   && (forall i :: 0 <= i < |old(rows)| ==> old(rows)[i].username != Text.TrimSpace(name))
                   && (exists a: Addr :: FreeWg(wg.value, old(rows), a))
                   && (keys.pub == "" || forall i :: 0 <= i < |old(rows)| ==> old(rows)[i].publicKey != keys.pub)
                   && !LiveKnown(old(rows), live - {keys.pub}))
      ensures r.Failure? && rows != old(rows) ==> r.error == LivePeerUnknown && conf.text == old(conf.text)
      ensures rows != old(rows) ==>
                && |rows| == |old(rows)| + 1 && rows[..|old(rows)|] == old(rows)
                && var p := rows[|old(rows)|];
                && p.id == old(nextId) && p.username == Text.TrimSpace(name)
                && p.quota == quota && p.expires == expires && p.enabled && !p.blocked
                && p.used == 0 && p.lastRx == 0 && p.lastTx == 0 && p.usedOvpn == 0 && p.lastOvpn == 0
                && Seats.Unused(p)
                && if ovpnOnly || wg.None? then
                     && p.publicKey == "" && p.privateKey == "" && p.psk == "" && p.address.None?
                     && p.cn == p.username && p.ovpnIP.Some? && p.ovpnEnabled
                     && p.ovpnCert == cred.cert && p.ovpnKey == cred.key
                     && FreeOv(ov.value, old(rows), p.ovpnIP.value)
                     && (forall a: Addr :: a < p.ovpnIP.value ==> !FreeOv(ov.value, old(rows), a))
                     && (exists e :: Seats.Creates(old(State()), e, p) && State() == P.Apply(old(State()), e))
                   else
                     && p.publicKey == keys.pub && p.privateKey == keys.priv && p.psk == keys.psk && p.address.Some?
                     && p.cn == "" && p.ovpnIP.None? && !p.ovpnEnabled && p.ovpnCert == "" && p.ovpnKey == ""
                     && FreeWg(wg.value, old(rows), p.address.value)
                     && (forall a: Addr :: a < p.address.value ==> !FreeWg(wg.value, old(rows), a))
                     && Inserts(old(State()), State(), p)
      ensures r.Success? ==>
                && rows != old(rows)
                && var p := rows[|old(rows)|];
                if ovpnOnly || wg.None? then
                  p.ovpnIP == Some(r.value) && conf.text == old(conf.text)
                else
                  && p.address == Some(r.value) && LiveKnown(rows, live)
                  && conf.text == W.Render(old(conf.text), PeerFile.ClientsOf(rows))
    {
      hide FreeWg, FreeOv, LowestFree, OvUsed, W.Render, PoolIn, P.Apply, CanStep, LiveKnown, Inserts, WithOvpn;
      hide PeerFile.ClientsOf, Text.TrimSpace, Seats.Creates;
      var username := Text.TrimSpace(name);
      if ovpnOnly || wg.None? {
        r := CreateOvpnOnly(username, quota, expires, cred);
        assert r.Success? ==> rows[..|old(rows)|] == old(rows);
      } else {
        var inserted;
        r, inserted := CreateWireGuard(username, quota, expires, keys, conf, live, parse);
        if inserted.Some? {
          OneMoreLive(old(rows), rows[|rows| - 1], live);
          assert rows[..|old(rows)|] == old(rows);
        }
      }
    }

    method Attach(i: nat, cred: Credentials) returns (r: Result<Addr, Refusal>)
      requires ov.Some? && i < |rows|
      modifies this
      ensures ov == old(ov) && ca == old(ca)
      ensures LowestFree(NetworkOf(ov.value), OvUsed(ov.value, old(rows)), if r.Success? then Some(r.value) else None)
      ensures r.Failure? ==> r.error == PoolFull && State() == old(State())
      ensures r.Success? ==>
                State() == old(State()).(
                  rows := old(rows)[i := WithOvpn(old(rows)[i], r.value, cred)],
                  ccd := old(ccd)[old(rows)[i].username := CcdFile(r.value, ov.value.prefix)])
      ensures r.Success? <==> exists a: Addr :: FreeOv(ov.value, old(rows), a)
      ensures r.Success? ==>
                && FreeOv(ov.value, old(rows), r.value)
                && (forall a: Addr :: a < r.value ==> !FreeOv(ov.value, old(rows), a))
                && rows == old(rows)[i := rows[i]]
                && var (p, q) := (old(rows)[i], rows[i]);
                && q.cn == p.username && q.ovpnIP == Some(r.value) && q.ovpnEnabled
                && q.ovpnCert == cred.cert && q.ovpnKey == cred.key
                && q == p.(cn := q.cn, ovpnIP := q.ovpnIP, ovpnEnabled := q.ovpnEnabled, ovpnCert := q.ovpnCert,
                           ovpnKey := q.ovpnKey)
    {
      hide NetworkOf, LowestFree, OvUsed, FreeOv;
      var ip := OvpnNextFreeIP();
      if ip.None? {
        return Failure(PoolFull);
      }
      ccd := ccd[rows[i].username := CcdFile(ip.value, ov.value.prefix)];
      rows := rows[i := WithOvpn(rows[i], ip.value, cred)];
      r := Success(ip.value);
    }

    /** OpenVPN for a user who has none yet. */
    method AddOvpn(name: string, cred: Credentials) returns (r: Result<Addr, Refusal>)
      requires Valid()
      modifies this
      ensures Valid() && ca == old(ca)
      ensures r.Failure? ==> State() == old(State())
      ensures r.Success? ==>
                && IndexOf(old(rows), name).Some?
                && var e := AttachOvpn(IndexOf(old(rows), name).value, r.value, cred);
                   CanStep(old(State()), e) && State() == P.Apply(old(State()), e)
      ensures r.Success? <==>
                && ca && IndexOf(old(rows), name).Some? && old(rows)[IndexOf(old(rows), name).value].cn == ""
                && exists a: Addr :: FreeOv(ov.value, old(rows), a)
    {
      hide NetworkOf, Allocatable, LowestFree, OvUsed, OvServer, FreeOv;
      if !ca {
        return Failure(NotSetUp);
      }
      var i := IndexOf(rows, name);
      if i.None? {
        return Failure(NoSuchUser);
      }
      if rows[i.value].cn != "" {
        return Failure(HasOvpn);
      }
      r := Attach(i.value, cred);
    }

    /** Removes a user's client-config file; nothing happens while the OpenVPN directory is not configured. */
    method RemoveFile(name: string, dirKnown: bool)
      modifies this`ccd
      ensures ccd == Removed(old(ccd), name, dirKnown)
      ensures ccd == if dirKnown && name != "" then old(ccd) - {name} else old(ccd)
    {
      if !dirKnown || name == "" {
        return;
      }
      ccd := ccd - {name};
    }

    method Detach(name: string) returns (ok: bool)
      modifies this
      ensures ok <==> exists i :: 0 <= i < |old(rows)| && old(rows)[i].username == name
      ensures State() == if ok then P.Apply(old(State()), DetachOvpn(IndexOf(old(rows), name).value)) else old(State())
      ensures ok ==>
                var i := IndexOf(old(rows), name).value;
                && old(rows)[i].username == name
                && rows == old(rows)[i := old(rows)[i].(cn := "", ovpnIP := None, ovpnEnabled := false, usedOvpn := 0,
                                                        lastOvpn := 0, ovpnCert := "", ovpnKey := "")]
                && ccd == if name != "" then old(ccd) - {name} else old(ccd)
    {
      var i := IndexOf(rows, name);
      if i.None? {
        return false;
      }
      RemoveFile(rows[i.value].username, true);
      rows := rows[i.value := WithoutOvpn(rows[i.value])];
      return true;
    }

    /**
     * Deleting a user: the file (if the handler's configuration names a directory), the row, and his entry in
     * wg0.conf.
     */
    method DeletePeer(name: string, dirKnown: bool, conf: W.ConfFile, parse: string -> Option<Cidr>) returns (ok: bool)
      requires wg.Some? ==> PoolIn(conf.text, parse) == wg
      modifies this, conf
      ensures ok <==> exists i :: 0 <= i < |old(rows)| && old(rows)[i].username == name
      ensures ok ==>
                var i := IndexOf(old(rows), name).value;
                && old(rows)[i].username == name && rows == old(rows)[..i] + old(rows)[i + 1..]
                && ccd == if dirKnown && name != "" then old(ccd) - {name} else old(ccd)
      ensures State() ==
              if ok then P.Apply(old(State()), Delete(IndexOf(old(rows), name).value, dirKnown)) else old(State())
      ensures conf.text == if ok && wg.Some? then W.Render(old(conf.text), PeerFile.ClientsOf(rows)) else old(conf.text)
      ensures wg.Some? ==> PoolIn(conf.text, parse) == wg
    {
      hide W.Render, PoolIn;
      var i := IndexOf(rows, name);
      if i.None? {
        return false;
      }
      RemoveFile(rows[i.value].username, dirKnown);
      rows := RemoveAt(rows, i.value);
      if wg.Some? {
        var rendered := Render(conf, true, {}, parse);
      }
      return true;
    }

    /** Gives the files of OpenVPN users who have one the mask of the widened pool. */
    method RewriteFiles(prefix: int)
      modifies this`ccd
      ensures ccd == Rewritten(old(ccd), rows, prefix)
      ensures ccd.Keys == old(ccd).Keys
      ensures (forall i, j :: 0 <= i < j < |rows| ==> rows[i].username != rows[j].username) ==>
                forall i :: 0 <= i < |rows| && rows[i].cn != "" && rows[i].ovpnIP.Some? && rows[i].username in ccd ==>
                  ccd[rows[i].username] == CcdFile(rows[i].ovpnIP.value, prefix)
      ensures forall name :: name in ccd && NoOvpnUser(rows, name) ==> ccd[name] == old(ccd)[name]
    {
      FilesRewritten(ccd, rows, prefix);
      hide NoOvpnUser;
      for i := 0 to |rows|
        invariant ccd == Rewritten(old(ccd), rows[..i], prefix)
      {
        assert rows[..i + 1][..i] == rows[..i];
        if rows[i].cn == "" || rows[i].ovpnIP.None? {
          continue;
        }
        if rows[i].username !in ccd {
          continue;
        }
        ccd := ccd[rows[i].username := CcdFile(rows[i].ovpnIP.value, prefix)];
      }
      assert rows[..|rows|] == rows;
    }

    /** Carries out what is left of a plan once the clashing protocols are dropped from it. */
    method ApplyPlan(prefix: int, entries: seq<NetEntry>, plan: Plan, chosen: Plan)
      requires ValidEntries(entries) && PlanFor(Planner.Pools.Pools(wg, iface, ov), prefix, entries, plan)
      requires chosen.wg == None || chosen.wg == plan.wg
      requires chosen.ov == None || chosen.ov == plan.ov
      requires Chosen(plan, chosen.wg.Some?, chosen.ov.Some?)
      modifies this
      ensures var e := Expand(prefix, entries, plan, chosen.wg.Some?, chosen.ov.Some?);
              CanStep(old(State()), e) && State() == P.Apply(old(State()), e)
      ensures wg == (if chosen.wg.Some? then Some(chosen.wg.value.wide) else old(wg))
      ensures ov == (if chosen.ov.Some? then Some(chosen.ov.value.wide) else old(ov))
      ensures rows == old(rows) && (chosen.ov.None? ==> ccd == old(ccd))
    {
      hide PlanFor, NetworkOf, Rewritten;
      if chosen.wg.Some? {
        wg := Some(chosen.wg.value.wide);
      }
      if chosen.ov.Some? {
        ov := Some(chosen.ov.value.wide);
        RewriteFiles(chosen.ov.value.wide.prefix);
      }
    }

    /** Setting OpenVPN up: the overlap check applies only when the subnet is being chosen. */
    method InitOvpn(flag: Option<Cidr>) returns (r: Result<(), Refusal>)
      modifies this
      ensures var c :=
                if flag.Some? then flag.value else if old(ov).Some? then old(ov).value else Cidr(0x0A08_0000, 16);
              && (r.Failure? <==>
                    (old(ov).None? || flag.Some?) && wg.Some? && !Disjoint(NetworkOf(wg.value), NetworkOf(c)))
              && State() == old(State()).(ov := if r.Success? then Some(c) else old(ov))
      ensures ca == (r.Success? || old(ca))
    {
      var choosing := ov.None? || flag.Some?;
      var c := if flag.Some? then flag.value else if ov.Some? then ov.value else STANDARD_SUBNET;
      if choosing && wg.Some? {
        NetsOverlapExact(NetworkOf(wg.value), NetworkOf(c));
        if NetsOverlap(NetworkOf(wg.value), NetworkOf(c)) {
          return Failure(Overlaps);
        }
      }
      ov, ca := Some(c), true;
      return Success(());
    }
  }

  lemma FilesRewritten(ccd: map<string, CcdFile>, rows: seq<Peer>, prefix: int)
    ensures var r := Rewritten(ccd, rows, prefix);
            && r.Keys == ccd.Keys
            && ((forall i, j :: 0 <= i < j < |rows| ==> rows[i].username != rows[j].username) ==>
                  forall i :: 0 <= i < |rows| && rows[i].cn != "" && rows[i].ovpnIP.Some? && rows[i].username in r ==>
                    r[rows[i].username] == CcdFile(rows[i].ovpnIP.value, prefix))
            && (forall name :: name in r && NoOvpnUser(rows, name) ==> r[name] == ccd[name])
  {
    hide Rewritten, NoOvpnUser;
    RewrittenOthers(ccd, rows, prefix);
    if forall i, j :: 0 <= i < j < |rows| ==> rows[i].username != rows[j].username {
      RewrittenFiles(ccd, rows, prefix);
    }
  }

  /** The key of the new row is known; the other live peers are as known as before. */
  lemma OneMoreLive(rows: seq<Peer>, p: Peer, live: set<string>)
    ensures LiveKnown(rows + [p], live) <==> LiveKnown(rows, live - {p.publicKey})
  {
    var all := rows + [p];
    assert all[|rows|] == p && forall i :: 0 <= i < |rows| ==> all[i] == rows[i];
    if LiveKnown(rows, live - {p.publicKey}) {
      forall pk | pk in live
        ensures exists i :: 0 <= i < |all| && all[i].publicKey == pk
      {
        if pk == p.publicKey {
          assert all[|rows|].publicKey == pk;
        } else {
          assert pk in live - {p.publicKey};
          var i :| 0 <= i < |rows| && rows[i].publicKey == pk;
          assert all[i].publicKey == pk;
        }
      }
    }
  }

  lemma FreshAddress(server: Addr, rows: seq<Peer>, n: Block, ip: Addr)
    requires n.Valid() && LowestFree(n, WgUsed(server, rows), Some(ip))
    ensures forall i :: 0 <= i < |rows| ==> rows[i].address != Some(ip)
  {
    forall i | 0 <= i < |rows|
      ensures rows[i].address != Some(ip)
    {
      assert rows[i].address.Some? ==> rows[i].address.value in WgUsed(server, rows);
    }
  }

  lemma SameFreeOv(c: Cidr, rows: seq<Peer>, row: Peer)
    requires row.ovpnIP.None?
    ensures forall a: Addr :: FreeOv(c, rows + [row], a) <==> FreeOv(c, rows, a)
  {
    hide NetworkOf, Allocatable;
    var all := rows + [row];
    assert all[|rows|] == row && forall i :: 0 <= i < |rows| ==> all[i] == rows[i];
  }

  /** A row without an OpenVPN address occupies nothing. */
  lemma SameOvUsed(c: Cidr, rows: seq<Peer>, row: Peer)
    requires row.ovpnIP.None?
    ensures OvUsed(c, rows + [row]) == OvUsed(c, rows)
  {
    var all := rows + [row];
    assert all[..|rows|] == rows && all[..|rows| + 1] == all;
    OneMoreOv(c, all, |rows|);
  }
}
