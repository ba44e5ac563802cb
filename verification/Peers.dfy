/** A user's row in the peer table. Empty text columns that hold an address or a time are None. */
module Peers {
  import opened Wrappers
  import opened IPv4

  datatype Peer = Peer(
    id: int,
    username: string,
    publicKey: string,
    privateKey: string,
    psk: string,
    address: Option<Addr>,
    quota: int,
    used: int,
    lastRx: int,
    lastTx: int,
    expires: Option<int>,
    enabled: bool,
    blocked: bool,
    cn: string,
    ovpnIP: Option<Addr>,
    ovpnEnabled: bool,
    usedOvpn: int,
    lastOvpn: int,
    ovpnCert: string,
    ovpnKey: string)

  /** What is left where a user was deleted, and what is there before one is created. */
  const NOBODY := Peer(0, "", "", "", "", None, 0, 0, 0, 0, None, true, false, "", None, false, 0, 0, "", "")

  predicate Vacant(p: Peer) { p.username == "" }

  function IPs(p: Peer): set<Addr> {
    (if p.address.Some? then {p.address.value} else {}) + (if p.ovpnIP.Some? then {p.ovpnIP.value} else {})
  }

  /** A client certificate and its key. */
  datatype Credentials = Credentials(cert: string, key: string)

  function WithOvpn(p: Peer, ip: Addr, cred: Credentials): Peer {
    p.(cn := p.username, ovpnIP := Some(ip), ovpnEnabled := true, ovpnCert := cred.cert, ovpnKey := cred.key)
  }

  /** No tunnel address is held by two users. */
  predicate DistinctIPs(rows: seq<Peer>) {
    forall i, j :: 0 <= i < j < |rows| ==> IPs(rows[i]) !! IPs(rows[j])
  }

  /**
   * The two rows may stand in one table: the unique indexes are on user names, non-empty keys and WireGuard
   * addresses.
   */
  predicate IndexApart(p: Peer, q: Peer) {
    && p.username != q.username
    && (p.publicKey != "" ==> p.publicKey != q.publicKey)
    && (p.address.Some? ==> p.address != q.address)
  }

  /** The indexes accept p as row k; as a new row when k is -1. */
  predicate MayPut(rows: seq<Peer>, k: int, p: Peer) {
    forall i :: 0 <= i < |rows| && i != k ==> IndexApart(rows[i], p)
  }

  predicate Known(rows: seq<Peer>, name: string) {
    exists i :: 0 <= i < |rows| && rows[i].username == name
  }

  /** The row with this user name. */
  function IndexOf(rows: seq<Peer>, name: string): (r: Option<nat>)
    ensures r.Some? ==> r.value < |rows| && rows[r.value].username == name
    ensures r.None? <==> !Known(rows, name)
  {
    if rows == [] then None
    else if rows[|rows| - 1].username == name then Some(|rows| - 1)
    else
      var r := IndexOf(rows[..|rows| - 1], name);
      assert forall i :: 0 <= i < |rows| - 1 ==> rows[..|rows| - 1][i] == rows[i];
      r
  }
}
