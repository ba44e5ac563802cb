/** Exporting the users of a table and importing such an export, in one transaction, into another. */
module Migration {
  import opened Wrappers
  import opened IPv4
  import opened Peers

  /** An exported user: every column but the id and the timestamps. */
  datatype Record = Record(
    username: string,
    publicKey: string,
    privateKey: string,
    psk: string,
    address: Option<Addr>,
    quota: int,
    used: int,
    lastRx: int,
    lastTx: int,
    expires: Option<int>,
    enabled: bool,
    blocked: bool,
    cn: string,
    ovpnIP: Option<Addr>,
    ovpnEnabled: bool,
    usedOvpn: int,
    lastOvpn: int,
    ovpnCert: string,
    ovpnKey: string)

  datatype File = File(version: int, users: seq<Record>)

  function RecordOf(p: Peer): Record {
    Record(p.username, p.publicKey, p.privateKey, p.psk, p.address, p.quota, p.used, p.lastRx, p.lastTx, p.expires,
           p.enabled, p.blocked, p.cn, p.ovpnIP, p.ovpnEnabled, p.usedOvpn, p.lastOvpn, p.ovpnCert, p.ovpnKey)
  }

  /** The row the INSERT statement creates. */
  function Inserted(id: int, r: Record): Peer {
    Peer(id, r.username, r.publicKey, r.privateKey, r.psk, r.address, r.quota, r.used, r.lastRx, r.lastTx, r.expires,
         r.enabled, r.blocked, r.cn, r.ovpnIP, r.ovpnEnabled, r.usedOvpn, r.lastOvpn, r.ovpnCert, r.ovpnKey)
  }

  /** The row after the UPDATE statement, which sets every column but the id and the user name. */
  function Updated(p: Peer, r: Record): Peer {
    p.(publicKey := r.publicKey, privateKey := r.privateKey, psk := r.psk, address := r.address,
       quota := r.quota, used := r.used, lastRx := r.lastRx, lastTx := r.lastTx, expires := r.expires,
       enabled := r.enabled, blocked := r.blocked, cn := r.cn, ovpnIP := r.ovpnIP, ovpnEnabled := r.ovpnEnabled,
       usedOvpn := r.usedOvpn, lastOvpn := r.lastOvpn, ovpnCert := r.ovpnCert, ovpnKey := r.ovpnKey)
  }

  /** A table the unique indexes accept, with ids handed out in increasing order below nextId. */
  predicate Table(rows: seq<Peer>, nextId: int) {
    && (forall i, j :: 0 <= i < j < |rows| ==> IndexApart(rows[i], rows[j]) && rows[i].id != rows[j].id)
    && (forall i :: 0 <= i < |rows| ==> rows[i].id < nextId)
  }

  // ---- export ----

  function Records(rows: seq<Peer>): seq<Record> {
    seq(|rows|, i requires 0 <= i < |rows| => RecordOf(rows[i]))
  }

  method MigrationFromDB(rows: seq<Peer>) returns (m: File)
    ensures m == File(1, Records(rows))
    ensures m.version == 1 && |m.users| == |rows|
    ensures forall i :: 0 <= i < |rows| ==>
              var (p, r) := (rows[i], m.users[i]);
              && r.username == p.username && r.publicKey == p.publicKey && r.privateKey == p.privateKey
              && r.psk == p.psk && r.address == p.address && r.quota == p.quota && r.used == p.used
              && r.lastRx == p.lastRx && r.lastTx == p.lastTx && r.expires == p.expires && r.enabled == p.enabled
              && r.blocked == p.blocked && r.cn == p.cn && r.ovpnIP == p.ovpnIP && r.ovpnEnabled == p.ovpnEnabled
              && r.usedOvpn == p.usedOvpn && r.lastOvpn == p.lastOvpn && r.ovpnCert == p.ovpnCert
              && r.ovpnKey == p.ovpnKey
  {
    var users: seq<Record> := [];
    for i := 0 to |rows|
      invariant users == Records(rows[..i])
    {
      users := users + [RecordOf(rows[i])];
    }
    assert rows[..|rows|] == rows;
    m := File(1, users);
  }

  // ---- import ----

  datatype Refusal = BadVersion | EmptyName | UpdateClash | InsertClash

  /** The table as the open transaction sees it, and the counters. */
  datatype Tx = Tx(rows: seq<Peer>, nextId: int, created: nat, updated: nat)

  function ById(rows: seq<Peer>, id: int): (r: Option<nat>)
    ensures r.Some? ==> r.value < |rows| && rows[r.value].id == id
    ensures r.None? ==> forall i :: 0 <= i < |rows| ==> rows[i].id != id
  {
    if rows == [] then None
    else if rows[|rows| - 1].id == id then Some(|rows| - 1)
    else ById(rows[..|rows| - 1], id)
  }

  /** One user of the file. Whether he exists is looked up in the committed table db, not in the transaction. */
  function One(db: seq<Peer>, t: Tx, r: Record): Result<Tx, Refusal> {
    if r.username == "" then
      Failure(EmptyName)
    else
      var known := IndexOf(db, r.username);
      if known.Some? then
        var at := ById(t.rows, db[known.value].id);
        if at.None? then
          Success(t.(updated := t.updated + 1))
        else
          var p := Updated(t.rows[at.value], r);
          if MayPut(t.rows, at.value, p) then
            Success(t.(rows := t.rows[at.value := p], updated := t.updated + 1))
          else
            Failure(UpdateClash)
      else
        var p := Inserted(t.nextId, r);
        if MayPut(t.rows, -1, p) then
          Success(Tx(t.rows + [p], t.nextId + 1, t.created + 1, t.updated))
        else
          Failure(InsertClash)
  }

  function All(db: seq<Peer>, nextId: int, users: seq<Record>): Result<Tx, Refusal> {
    if users == [] then
      Success(Tx(db, nextId, 0, 0))
    else
      var t := All(db, nextId, users[..|users| - 1]);
      if t.Failure? then t else One(db, t.value, users[|users| - 1])
  }

  lemma {:induction false} FailsEarly(db: seq<Peer>, nextId: int, users: seq<Record>, k: nat)
    requires k <= |users| && All(db, nextId, users[..k]).Failure?
    ensures All(db, nextId, users) == All(db, nextId, users[..k])
  {
    if k == |users| {
      assert users[..k] == users;
    } else {
      assert users[..|users| - 1][..k] == users[..k];
      FailsEarly(db, nextId, users[..|users| - 1], k);
    }
  }

  lemma AllMore(db: seq<Peer>, nextId: int, users: seq<Record>, r: Record)
    ensures var t := All(db, nextId, users);
            All(db, nextId, users + [r]) == if t.Failure? then t else One(db, t.value, r)
  {
    hide One;
    assert (users + [r])[..|users|] == users;
  }

  lemma NoUsers(db: seq<Peer>, nextId: int)
    ensures All(db, nextId, []) == Success(Tx(db, nextId, 0, 0))
  {
  }

  class Db {
    var rows: seq<Peer>
    var nextId: int

    constructor ()
      ensures rows == [] && nextId == 1
    {
      rows, nextId := [], 1;
    }

    /** All or nothing: the statements run in a transaction that is rolled back on the first failure. */
    method ImportMigration(m: File) returns (created: nat, updated: nat, failed: Option<Refusal>)
      modifies this
      ensures (m.version == 0 || m.version == 1) ==>
                match All(old(rows), old(nextId), m.users)
                case Success(t) => failed == None && rows == t.rows && nextId == t.nextId && created == t.created &&
                  updated == t.updated
                case Failure(e) => failed == Some(e)
      ensures !(m.version == 0 || m.version == 1) ==> failed == Some(BadVersion)
      ensures failed.Some? ==> rows == old(rows) && nextId == old(nextId)
    {
      hide IndexOf, ById, MayPut, Updated, Inserted, All;
      created, updated := 0, 0;
      var version := if m.version == 0 then 1 else m.version;
      if version != 1 {
        return 0, 0, Some(BadVersion);
      }
      var tx, next := rows, nextId;
      NoUsers(rows, nextId);
      for i := 0 to |m.users|
        invariant All(rows, nextId, m.users[..i]) == Success(Tx(tx, next, created, updated))
        invariant rows == old(rows) && nextId == old(nextId)
      {
        var r := m.users[i];
        assert m.users[..i + 1] == m.users[..i] + [r];
        AllMore(rows, nextId, m.users[..i], r);
        if All(rows, nextId, m.users[..i + 1]).Failure? {
          FailsEarly(rows, nextId, m.users, i + 1);
        }
        if r.username == "" {
          return created, updated, Some(EmptyName);
        }
        var existing := IndexOf(rows, r.username);
        if existing.Some? {
          var at := ById(tx, rows[existing.value].id);
          if at.Some? {
            var p := Updated(tx[at.value], r);
            if !MayPut(tx, at.value, p) {
              return created, updated, Some(UpdateClash);
            }
            tx := tx[at.value := p];
          }
          updated := updated + 1;
          continue;
        }
        var p := Inserted(next, r);
        if !MayPut(tx, -1, p) {
          return created, updated, Some(InsertClash);
        }
        tx, next := tx + [p], next + 1;
        created := created + 1;
      }
      assert m.users[..|m.users|] == m.users;
      rows, nextId := tx, next;
      failed := None;
    }
  }

  // ---- what a successful import leaves ----

  /** The last user of the file with this name. */
  function LastFor(users: seq<Record>, name: string): Option<Record> {
    if users == [] then None
    else if users[|users| - 1].username == name then Some(users[|users| - 1])
    else LastFor(users[..|users| - 1], name)
  }

  function Overridden(p: Peer, users: seq<Record>): Peer {
    var r := LastFor(users, p.username);
    if r.Some? then Inserted(p.id, r.value) else p
  }

  /** The users of the file that the table does not have. */
  function Newcomers(db: seq<Peer>, users: seq<Record>): seq<Record> {
    if users == [] then []
    else
      var r := users[|users| - 1];
      Newcomers(db, users[..|users| - 1]) + if Known(db, r.username) then [] else [r]
  }

  /** The old rows, each overridden by the file, followed by the newcomers under fresh ids. */
  function Merged(db: seq<Peer>, nextId: int, users: seq<Record>): seq<Peer> {
    var news := Newcomers(db, users);
    seq(|db|, i requires 0 <= i < |db| => Overridden(db[i], users))
    + seq(|news|, i requires 0 <= i < |news| => Inserted(nextId + i, news[i]))
  }

  lemma {:induction false} LastForName(users: seq<Record>, name: string)
    ensures LastFor(users, name).Some? ==> LastFor(users, name).value.username == name
    ensures LastFor(users, name).None? <==> forall r :: r in users ==> r.username != name
  {
    if users == [] {
    } else {
      LastForName(users[..|users| - 1], name);
    }
  }

  lemma UpdatedIsInserted(p: Peer, r: Record)
    requires p.username == r.username
    ensures Updated(p, r) == Inserted(p.id, r)
  {
  }

  lemma RowIds(p: Peer, id: int, r: Record)
    ensures Updated(p, r).id == p.id && Inserted(id, r).id == id
  {
  }

  lemma IdAt(rows: seq<Peer>, i: nat)
    requires i < |rows| && forall k, l :: 0 <= k < l < |rows| ==> rows[k].id != rows[l].id
    ensures ById(rows, rows[i].id) == Some(i)
  {
  }

  lemma NameAt(rows: seq<Peer>, i: nat)
    requires i < |rows| && forall k, l :: 0 <= k < l < |rows| ==> rows[k].username != rows[l].username
    ensures IndexOf(rows, rows[i].username) == Some(i)
  {
    assert Known(rows, rows[i].username);
  }

  lemma MergedIds(db: seq<Peer>, nextId: int, users: seq<Record>)
    requires Table(db, nextId)
    ensures var rows := Merged(db, nextId, users);
            && |rows| >= |db|
            && (forall i :: 0 <= i < |db| ==> rows[i].id == db[i].id && rows[i].username == db[i].username)
            && (forall k, l :: 0 <= k < l < |rows| ==> rows[k].id != rows[l].id)
  {
    hide Newcomers, LastFor, IndexApart;
    forall i | 0 <= i < |db|
      ensures Overridden(db[i], users).id == db[i].id && Overridden(db[i], users).username == db[i].username
    {
      LastForName(users, db[i].username);
    }
  }

  lemma UpdateMerges(db: seq<Peer>, nextId: int, users: seq<Record>, r: Record, i: nat)
    requires Table(db, nextId) && i < |db| && db[i].username == r.username
    ensures i < |Merged(db, nextId, users)|
    ensures Merged(db, nextId, users + [r]) == Merged(db, nextId, users)[i := Inserted(db[i].id, r)]
    ensures Newcomers(db, users + [r]) == Newcomers(db, users)
  {
    hide Inserted;
    assert (users + [r])[..|users|] == users;
    assert Known(db, r.username);
    var prev, grown := Merged(db, nextId, users), Merged(db, nextId, users + [r]);
    forall k | 0 <= k < |db|
      ensures grown[k] == if k == i then Inserted(db[i].id, r) else prev[k]
    {
      assert k < i ==> IndexApart(db[k], db[i]);
      assert i < k ==> IndexApart(db[i], db[k]);
    }
  }

  lemma OverriddenStays(p: Peer, users: seq<Record>, r: Record)
    requires p.username != r.username
    ensures Overridden(p, users + [r]) == Overridden(p, users)
  {
    hide Inserted;
    assert (users + [r])[..|users|] == users;
  }

  lemma OneMoreNewcomer(db: seq<Peer>, users: seq<Record>, r: Record)
    requires !Known(db, r.username)
    ensures Newcomers(db, users + [r]) == Newcomers(db, users) + [r]
  {
    hide Known;
    assert (users + [r])[..|users|] == users;
  }

  lemma InsertMerges(db: seq<Peer>, nextId: int, users: seq<Record>, r: Record)
    requires !Known(db, r.username)
    ensures Newcomers(db, users + [r]) == Newcomers(db, users) + [r]
    ensures Merged(db, nextId, users + [r]) ==
              Merged(db, nextId, users) + [Inserted(nextId + |Newcomers(db, users)|, r)]
  {
    hide Inserted, Newcomers, Overridden;
    OneMoreNewcomer(db, users, r);
    forall k | 0 <= k < |db|
      ensures Overridden(db[k], users + [r]) == Overridden(db[k], users)
    {
      OverriddenStays(db[k], users, r);
    }
  }

  /** A successful import leaves the merged table, counts every user of the file once, and keeps the unique indexes. */
  lemma {:induction false} ImportMerges(db: seq<Peer>, nextId: int, users: seq<Record>)
    requires Table(db, nextId)
    ensures All(db, nextId, users).Success? ==>
              var t := All(db, nextId, users).value;
              && t.rows == Merged(db, nextId, users)
              && t.created == |Newcomers(db, users)|
              && t.created + t.updated == |users|
              && t.nextId == nextId + t.created
              && Table(t.rows, t.nextId)
  {
    hide *;
    if users == [] {
      NoUsers(db, nextId);
      EmptyFile(db, nextId);
    } else {
      var init, r := users[..|users| - 1], users[|users| - 1];
      assert users == init + [r];
      ImportMerges(db, nextId, init);
      OneMerges(db, nextId, init, r);
    }
  }

  lemma EmptyFile(db: seq<Peer>, nextId: int)
    ensures Merged(db, nextId, []) == db && Newcomers(db, []) == []
  {
  }

  lemma OneMerges(db: seq<Peer>, nextId: int, users: seq<Record>, r: Record)
    requires Table(db, nextId)
    requires All(db, nextId, users).Success? ==>
               var t := All(db, nextId, users).value;
               && t.rows == Merged(db, nextId, users) && t.created == |Newcomers(db, users)|
               && t.created + t.updated == |users| && t.nextId == nextId + t.created && Table(t.rows, t.nextId)
    ensures All(db, nextId, users + [r]).Success? ==>
              var t := All(db, nextId, users + [r]).value;
              && t.rows == Merged(db, nextId, users + [r]) && t.created == |Newcomers(db, users + [r])|
              && t.created + t.updated == |users| + 1 && t.nextId == nextId + t.created && Table(t.rows, t.nextId)
  {
    hide Merged, Newcomers, All, Inserted, Updated, IndexOf, ById, IndexApart;
    AllMore(db, nextId, users, r);
    if All(db, nextId, users).Success? {
      var t := All(db, nextId, users).value;
      var known := IndexOf(db, r.username);
      if known.Some? {
        var i := known.value;
        MergedIds(db, nextId, users);
        IdAt(t.rows, i);
        UpdatedIsInserted(t.rows[i], r);
        UpdateMerges(db, nextId, users, r, i);
        RowIds(t.rows[i], t.nextId, r);
        if MayPut(t.rows, i, Updated(t.rows[i], r)) {
          PutKeepsTable(t.rows, t.nextId, i, Updated(t.rows[i], r));
        }
      } else {
        InsertMerges(db, nextId, users, r);
        if MayPut(t.rows, -1, Inserted(t.nextId, r)) {
          RowIds(Inserted(t.nextId, r), t.nextId, r);
          AppendKeepsTable(t.rows, t.nextId, Inserted(t.nextId, r));
        }
      }
    }
  }

  lemma ApartBothWays(p: Peer, q: Peer)
    ensures IndexApart(p, q) <==> IndexApart(q, p)
  {
  }

  lemma PutKeepsTable(rows: seq<Peer>, nextId: int, k: nat, p: Peer)
    requires Table(rows, nextId) && k < |rows| && p.id == rows[k].id && MayPut(rows, k, p)
    ensures Table(rows[k := p], nextId)
  {
    hide IndexApart;
    forall i | 0 <= i < |rows|
      ensures i != k ==> IndexApart(p, rows[i])
    {
      ApartBothWays(rows[i], p);
    }
  }

  lemma AppendKeepsTable(rows: seq<Peer>, nextId: int, p: Peer)
    requires Table(rows, nextId) && p.id == nextId && MayPut(rows, -1, p)
    ensures Table(rows + [p], nextId + 1)
  {
    hide IndexApart;
  }

  // ---- when an import succeeds ----

  predicate AllNamed(users: seq<Record>) {
    forall r :: r in users ==> r.username != ""
  }

  predicate NextTable(db: seq<Peer>, nextId: int, users: seq<Record>) {
    Table(Merged(db, nextId, users), nextId + |Newcomers(db, users)|)
  }

  lemma OneSucceeds(db: seq<Peer>, nextId: int, users: seq<Record>, r: Record)
    requires Table(db, nextId) && All(db, nextId, users).Success?
    ensures One(db, All(db, nextId, users).value, r).Success? <==>
              r.username != "" && NextTable(db, nextId, users + [r])
  {
    hide Merged, Newcomers, All, Inserted, Updated, IndexOf, ById, IndexApart, Table, MayPut;
    ImportMerges(db, nextId, users);
    var t := All(db, nextId, users).value;
    var known := IndexOf(db, r.username);
    if known.Some? {
      var i := known.value;
      MergedIds(db, nextId, users);
      IdAt(t.rows, i);
      UpdatedIsInserted(t.rows[i], r);
      RowIds(t.rows[i], t.nextId, r);
      UpdateMerges(db, nextId, users, r, i);
      PutExactly(t.rows, t.nextId, i, Updated(t.rows[i], r));
    } else {
      InsertMerges(db, nextId, users, r);
      RowIds(Inserted(t.nextId, r), t.nextId, r);
      AppendExactly(t.rows, t.nextId, Inserted(t.nextId, r));
    }
  }

  lemma PutExactly(rows: seq<Peer>, nextId: int, k: nat, p: Peer)
    requires Table(rows, nextId) && k < |rows| && p.id == rows[k].id
    ensures MayPut(rows, k, p) <==> Table(rows[k := p], nextId)
  {
    hide IndexApart;
    if MayPut(rows, k, p) {
      PutKeepsTable(rows, nextId, k, p);
    }
    var grown := rows[k := p];
    forall i | 0 <= i < |rows| && i != k && Table(grown, nextId)
      ensures IndexApart(rows[i], p)
    {
      assert if i < k then IndexApart(grown[i], grown[k]) else IndexApart(grown[k], grown[i]);
      ApartBothWays(rows[i], p);
    }
  }

  lemma AppendExactly(rows: seq<Peer>, nextId: int, p: Peer)
    requires Table(rows, nextId) && p.id == nextId
    ensures MayPut(rows, -1, p) <==> Table(rows + [p], nextId + 1)
  {
    hide IndexApart;
    if MayPut(rows, -1, p) {
      AppendKeepsTable(rows, nextId, p);
    }
    var grown := rows + [p];
    forall i | 0 <= i < |rows| && Table(grown, nextId + 1)
      ensures IndexApart(rows[i], p)
    {
      assert IndexApart(grown[i], grown[|rows|]);
    }
  }

  /**
   * An import succeeds exactly when all users have names and the unique indexes accept the table after every single
   * user.
   */
  lemma {:induction false} SucceedsExactly(db: seq<Peer>, nextId: int, users: seq<Record>)
    requires Table(db, nextId)
    ensures All(db, nextId, users).Success? <==>
              AllNamed(users) && forall k :: 0 <= k <= |users| ==> NextTable(db, nextId, users[..k])
  {
    hide NextTable, One, Table, All;
    if users == [] {
      EmptyImport(db, nextId);
    } else {
      var init, r := users[..|users| - 1], users[|users| - 1];
      assert users == init + [r] && users[..|users|] == users;
      SucceedsExactly(db, nextId, init);
      AllMore(db, nextId, init, r);
      assert forall k :: 0 <= k <= |init| ==> users[..k] == init[..k];
      assert AllNamed(users) <==> AllNamed(init) && r.username != "";
      if All(db, nextId, init).Success? {
        OneSucceeds(db, nextId, init, r);
      }
    }
  }

  lemma EmptyImport(db: seq<Peer>, nextId: int)
    requires Table(db, nextId)
    ensures All(db, nextId, []).Success? && NextTable(db, nextId, [])
  {
    EmptyFile(db, nextId);
  }

  /** A name the table does not have may not occur twice: whether it exists is looked up outside the transaction. */
  lemma NewNameTwiceFails(db: seq<Peer>, nextId: int, users: seq<Record>, i: nat, j: nat)
    requires Table(db, nextId) && i < j < |users| && users[i].username == users[j].username
    requires !Known(db, users[i].username)
    ensures All(db, nextId, users).Failure?
  {
    hide *;
    var part, r := users[..j], users[j];
    assert users[..j + 1] == part + [r] && part[i] == users[i];
    NewcomerRow(db, nextId, part, users[i]);
    InsertMerges(db, nextId, part, r);
    var rows := Merged(db, nextId, part);
    var k :| 0 <= k < |rows| && rows[k].username == r.username;
    NamesClash(rows, nextId + |Newcomers(db, part)|, r, k);
    NotNextTable(db, nextId, part, r);
    assert !NextTable(db, nextId, users[..j + 1]);
    SucceedsExactly(db, nextId, users);
  }

  lemma NotNextTable(db: seq<Peer>, nextId: int, users: seq<Record>, r: Record)
    requires !Table(Merged(db, nextId, users + [r]), nextId + |Newcomers(db, users + [r])|)
    ensures !NextTable(db, nextId, users + [r])
  {
  }

  lemma NamesClash(rows: seq<Peer>, id: int, r: Record, k: nat)
    requires k < |rows| && rows[k].username == r.username
    ensures forall n :: !Table(rows + [Inserted(id, r)], n)
  {
    var grown := rows + [Inserted(id, r)];
    assert !IndexApart(grown[k], grown[|rows|]);
  }

  lemma {:induction false} NewcomerRow(db: seq<Peer>, nextId: int, users: seq<Record>, r: Record)
    requires r in users && !Known(db, r.username)
    ensures exists k :: 0 <= k < |Merged(db, nextId, users)| && Merged(db, nextId, users)[k].username == r.username
  {
    IsNewcomer(db, users, r);
    var news := Newcomers(db, users);
    var i :| 0 <= i < |news| && news[i] == r;
    assert Merged(db, nextId, users)[|db| + i] == Inserted(nextId + i, r);
  }

  lemma {:induction false} IsNewcomer(db: seq<Peer>, users: seq<Record>, r: Record)
    requires r in users && !Known(db, r.username)
    ensures r in Newcomers(db, users)
  {
    if users[|users| - 1] == r {
    } else {
      IsNewcomer(db, users[..|users| - 1], r);
    }
  }

  // ---- export and import ----

  /**
   * Importing an export into an empty table succeeds exactly when all users have names, and recovers every column
   * but the ids.
   */
  lemma ExportImport(rows: seq<Peer>, oldNext: int, nextId: int)
    requires Table(rows, oldNext)
    ensures All([], nextId, Records(rows)).Success? <==> AllNamed(Records(rows))
    ensures All([], nextId, Records(rows)).Success? ==>
              var t := All([], nextId, Records(rows)).value;
              Records(t.rows) == Records(rows) && t.created == |rows| && t.updated == 0
  {
    hide All, NextTable, Merged, Newcomers, RecordOf, Inserted;
    var users := Records(rows);
    SucceedsExactly([], nextId, users);
    forall k | 0 <= k <= |users|
      ensures NextTable([], nextId, users[..k])
    {
      assert users[..k] == Records(rows[..k]);
      IntoEmpty(rows[..k], oldNext, nextId);
    }
    assert rows[..|rows|] == rows;
    IntoEmpty(rows, oldNext, nextId);
    ImportMerges([], nextId, users);
  }

  lemma IntoEmpty(rows: seq<Peer>, oldNext: int, nextId: int)
    requires Table(rows, oldNext)
    ensures NextTable([], nextId, Records(rows))
    ensures Records(Merged([], nextId, Records(rows))) == Records(rows) && |Newcomers([], Records(rows))| == |rows|
  {
    hide RecordOf, Inserted, Newcomers;
    AllNewcomers(Records(rows));
    var grown := Merged([], nextId, Records(rows));
    forall i | 0 <= i < |rows|
      ensures grown[i].id == nextId + i && RecordOf(grown[i]) == RecordOf(rows[i])
    {
      assert grown[i] == Inserted(nextId + i, RecordOf(rows[i]));
      RecordInserted(nextId + i, RecordOf(rows[i]));
    }
    forall i, j | 0 <= i < j < |grown|
      ensures IndexApart(grown[i], grown[j])
    {
      SameRecordsApart(rows[i], rows[j], grown[i], grown[j]);
    }
  }

  lemma {:induction false} AllNewcomers(users: seq<Record>)
    ensures Newcomers([], users) == users
  {
    if users == [] {
    } else {
      AllNewcomers(users[..|users| - 1]);
    }
  }

  lemma RecordInserted(id: int, r: Record)
    ensures RecordOf(Inserted(id, r)) == r && Inserted(id, r).id == id
  {
  }

  lemma SameRecordsApart(p: Peer, q: Peer, p': Peer, q': Peer)
    requires RecordOf(p) == RecordOf(p') && RecordOf(q) == RecordOf(q')
    ensures IndexApart(p, q) <==> IndexApart(p', q')
  {
  }

  /** Importing a table's own export succeeds exactly when all users have names, and changes no row. */
  lemma ImportOwnExport(rows: seq<Peer>, nextId: int)
    requires Table(rows, nextId)
    ensures All(rows, nextId, Records(rows)).Success? <==> AllNamed(Records(rows))
    ensures All(rows, nextId, Records(rows)).Success? ==>
              All(rows, nextId, Records(rows)).value == Tx(rows, nextId, 0, |rows|)
  {
    hide All, NextTable, Merged, Newcomers, RecordOf, Inserted;
    var users := Records(rows);
    SucceedsExactly(rows, nextId, users);
    forall k | 0 <= k <= |users|
      ensures NextTable(rows, nextId, users[..k])
    {
      OntoItself(rows, nextId, k);
    }
    assert users[..|users|] == users;
    OntoItself(rows, nextId, |users|);
    ImportMerges(rows, nextId, users);
  }

  lemma OntoItself(rows: seq<Peer>, nextId: int, k: nat)
    requires Table(rows, nextId) && k <= |rows|
    ensures NextTable(rows, nextId, Records(rows)[..k])
    ensures Merged(rows, nextId, Records(rows)[..k]) == rows && Newcomers(rows, Records(rows)[..k]) == []
  {
    hide RecordOf, Inserted, Newcomers, LastFor;
    var users := Records(rows)[..k];
    forall i | 0 <= i < |rows|
      ensures Overridden(rows[i], users) == rows[i]
    {
      LastOwn(rows, nextId, k, rows[i]);
      InsertedRecord(rows[i]);
    }
    NoNewcomers(rows, k);
  }

  lemma InsertedRecord(p: Peer)
    ensures Inserted(p.id, RecordOf(p)) == p && RecordOf(p).username == p.username
  {
  }

  lemma {:induction false} LastOwn(rows: seq<Peer>, nextId: int, k: nat, p: Peer)
    requires Table(rows, nextId) && k <= |rows| && p in rows
    ensures var r := LastFor(Records(rows)[..k], p.username); r == None || r == Some(RecordOf(p))
  {
    hide RecordOf;
    if k == 0 {
    } else {
      var users := Records(rows)[..k];
      assert users[..k - 1] == Records(rows)[..k - 1];
      LastOwn(rows, nextId, k - 1, p);
      InsertedRecord(rows[k - 1]);
      var i :| 0 <= i < |rows| && rows[i] == p;
      assert i < k - 1 ==> IndexApart(rows[i], rows[k - 1]);
      assert k - 1 < i ==> IndexApart(rows[k - 1], rows[i]);
    }
  }

  lemma {:induction false} NoNewcomers(rows: seq<Peer>, k: nat)
    requires k <= |rows|
    ensures Newcomers(rows, Records(rows)[..k]) == []
  {
    hide RecordOf;
    if k == 0 {
    } else {
      assert Records(rows)[..k][..k - 1] == Records(rows)[..k - 1];
      NoNewcomers(rows, k - 1);
      InsertedRecord(rows[k - 1]);
      assert Known(rows, rows[k - 1].username);
    }
  }

  /** An acceptable final table is not enough: a file that swaps two users' addresses is refused half-way. */
  lemma SwapRefused(p: Peer, q: Peer, nextId: int)
    requires Table([p, q], nextId) && p.username != "" && p.address.Some? && q.address.Some?
    ensures var users := [RecordOf(p).(address := q.address), RecordOf(q).(address := p.address)];
            && All([p, q], nextId, users) == Failure(UpdateClash)
            && Merged([p, q], nextId, users) == [p.(address := q.address), q.(address := p.address)]
            && NextTable([p, q], nextId, users)
  {
    hide *;
    var db := [p, q];
    var u, v := RecordOf(p).(address := q.address), RecordOf(q).(address := p.address);
    SwapFirst(p, q, nextId, u);
    assert [u, v][..1] == [u];
    FailsEarly(db, nextId, [u, v], 1);
    SwapMerges(p, q, nextId, u, v);
    SwappedTable(p, q, nextId);
    NextTableIs(db, nextId, [u, v]);
  }

  lemma NextTableIs(db: seq<Peer>, nextId: int, users: seq<Record>)
    ensures NextTable(db, nextId, users) <==> Table(Merged(db, nextId, users), nextId + |Newcomers(db, users)|)
  {
  }

  lemma SwappedTable(p: Peer, q: Peer, nextId: int)
    requires Table([p, q], nextId) && p.address.Some? && q.address.Some?
    ensures Table([p.(address := q.address), q.(address := p.address)], nextId)
  {
    var db := [p, q];
    assert IndexApart(db[0], db[1]) && db[0].id != db[1].id && db[0].id < nextId && db[1].id < nextId;
  }

  /** Both users are known, so the merged table has their rows with the columns of the file. */
  lemma SwapMerges(p: Peer, q: Peer, nextId: int, u: Record, v: Record)
    requires Table([p, q], nextId)
    requires u == RecordOf(p).(address := q.address) && v == RecordOf(q).(address := p.address)
    ensures Merged([p, q], nextId, [u, v]) == [p.(address := q.address), q.(address := p.address)]
    ensures Newcomers([p, q], [u, v]) == []
  {
    hide Table, Merged, Newcomers, RecordOf, Inserted;
    var db := [p, q];
    RecordBack(p, q.address);
    RecordBack(q, p.address);
    EmptyFile(db, nextId);
    UpdateMerges(db, nextId, [], u, 0);
    UpdateMerges(db, nextId, [u], v, 1);
    assert [] + [u] == [u] && [u] + [v] == [u, v];
    assert db[0 := p.(address := q.address)][1 := q.(address := p.address)] ==
           [p.(address := q.address), q.(address := p.address)];
  }

  lemma RecordBack(p: Peer, a: Option<Addr>)
    ensures RecordOf(p).(address := a).username == p.username
    ensures Inserted(p.id, RecordOf(p).(address := a)) == p.(address := a)
  {
  }

  lemma SwapFirst(p: Peer, q: Peer, nextId: int, u: Record)
    requires Table([p, q], nextId) && p.username != "" && p.address.Some? && q.address.Some?
    requires u == RecordOf(p).(address := q.address)
    ensures All([p, q], nextId, [u]) == Failure(UpdateClash)
  {
    hide All, One, Table, RecordOf, Updated;
    var db := [p, q];
    NoUsers(db, nextId);
    AllMore(db, nextId, [], u);
    assert [] + [u] == [u];
    SwapClashes(p, q, nextId, u);
  }

  lemma SwapClashes(p: Peer, q: Peer, nextId: int, u: Record)
    requires Table([p, q], nextId) && p.username != "" && p.address.Some? && q.address.Some?
    requires u == RecordOf(p).(address := q.address)
    ensures One([p, q], Tx([p, q], nextId, 0, 0), u) == Failure(UpdateClash)
  {
    hide IndexOf, ById;
    var db := [p, q];
    assert IndexApart(db[0], db[1]);
    NameAt(db, 0);
    IdAt(db, 0);
    assert !IndexApart(db[1], Updated(p, u));
  }
}
