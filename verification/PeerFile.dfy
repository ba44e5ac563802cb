/**
 * The peer table and wg0.conf together: a table kept by the pool rules survives being written to the file and
 * imported.
 */
module PeerFile {
  import opened Text
  import opened Numbers
  import opened IPv4
  import opened Peers
  import opened WgConf
  import P = Pools
  import I = ConfImport

  function Octets(a: Addr): seq<string> {
    var b := ToBytes(a);
    [Decimal(b[0] as int), Decimal(b[1] as int), Decimal(b[2] as int), Decimal(b[3] as int)]
  }

  /** The dotted form of an address, as the address columns hold it. */
  function Dotted(a: Addr): string {
    Join(Octets(a), '.')
  }

  lemma DecimalUnique(m: nat, n: nat)
    requires m < 256 && n < 256 && Decimal(m) == Decimal(n)
    ensures m == n
  {
    hide Decimal, ParseUint;
    ParseDecimal(m);
    ParseDecimal(n);
  }

  /** Different addresses are written differently. */
  lemma DottedUnique(a: Addr, b: Addr)
    requires Dotted(a) == Dotted(b)
    ensures a == b
  {
    hide Decimal, Join, Split, ToBytes;
    OctetChars(a);
    OctetChars(b);
    SplitJoin(Octets(a), '.');
    SplitJoin(Octets(b), '.');
    var x, y := ToBytes(a), ToBytes(b);
    assert Octets(a)[0] == Octets(b)[0] && Octets(a)[1] == Octets(b)[1] && Octets(a)[2] == Octets(b)[2] &&
           Octets(a)[3] == Octets(b)[3];
    DecimalUnique(x[0] as int, y[0] as int);
    DecimalUnique(x[1] as int, y[1] as int);
    DecimalUnique(x[2] as int, y[2] as int);
    DecimalUnique(x[3] as int, y[3] as int);
    assert x == y;
  }

  /** Four numbers between dots, the address in base 256. */
  lemma DottedReads(a: Addr)
    ensures var parts := Split(Dotted(a), '.');
            && |parts| == 4
            && a == 0x100_0000 * ParseInt(parts[0]) + 0x1_0000 * ParseInt(parts[1]) + 0x100 * ParseInt(parts[2])
                    + ParseInt(parts[3])
  {
    hide Decimal, Join, Split, ParseInt;
    OctetChars(a);
    SplitJoin(Octets(a), '.');
    var b := ToBytes(a);
    IntRoundTrip(b[0] as int);
    IntRoundTrip(b[1] as int);
    IntRoundTrip(b[2] as int);
    IntRoundTrip(b[3] as int);
  }

  lemma OctetChars(a: Addr)
    ensures forall k :: 0 <= k < 4 ==>
              Octets(a)[k] != "" && forall i :: 0 <= i < |Octets(a)[k]| ==> IsDigit(Octets(a)[k][i])
  {
    hide Decimal;
  }

  lemma DottedGood(a: Addr)
    ensures I.Word(Dotted(a)) && '/' !in Dotted(a) && ',' !in Dotted(a)
  {
    hide Decimal, ToBytes;
    OctetChars(a);
    var o := Octets(a);
    var t := o[2..];
    assert t[1..] == [o[3]] && Join(t, '.') == o[2] + ['.'] + o[3];
    assert o[1..][1..] == t && Join(o[1..], '.') == o[1] + ['.'] + Join(t, '.');
    assert Dotted(a) == o[0] + ['.'] + (o[1] + ['.'] + (o[2] + ['.'] + o[3]));
  }

  /** What wg0.conf shows of a row. */
  function ClientOf(p: Peer): Client {
    Client(p.username, p.publicKey, p.psk, if p.address.Some? then Dotted(p.address.value) else "")
  }

  function ClientsOf(rows: seq<Peer>): seq<Client> {
    seq(|rows|, i requires 0 <= i < |rows| => ClientOf(rows[i]))
  }

  predicate KeysApart(cs: seq<Client>) {
    forall i, j :: 0 <= i < j < |cs| && cs[i].pub != "" && cs[j].pub != "" ==>
      cs[i].name != cs[j].name && cs[i].pub != cs[j].pub && cs[i].host != cs[j].host
  }

  lemma {:induction false} KeyedDistinct(cs: seq<Client>)
    requires KeysApart(cs)
    ensures I.Distinct(I.WithKeys(cs))
  {
    if cs == [] {
    } else {
      var init, c := cs[..|cs| - 1], cs[|cs| - 1];
      KeyedDistinct(init);
      forall d | d in I.WithKeys(init) && c.pub != ""
        ensures d.name != c.name && d.pub != c.pub && d.host != c.host
      {
        var k :| 0 <= k < |init| && init[k] == d;
        assert cs[k] == d;
      }
    }
  }

  /** Every WireGuard row has an address, and its texts fit on one line and have no blanks at their ends. */
  predicate Printable(rows: seq<Peer>) {
    forall i :: 0 <= i < |rows| && rows[i].publicKey != "" ==>
      && rows[i].address.Some? && I.Word(rows[i].username) && I.Word(rows[i].publicKey)
      && (rows[i].psk == "" || I.Word(rows[i].psk))
  }

  /** The rows that have a WireGuard identity, in order. */
  function Keyed(rows: seq<Peer>): (r: seq<Peer>)
    ensures forall p :: p in r ==> p in rows && p.publicKey != ""
  {
    if rows == [] then []
    else Keyed(rows[..|rows| - 1]) + if rows[|rows| - 1].publicKey == "" then [] else [rows[|rows| - 1]]
  }

  lemma {:induction false} KeyedClients(rows: seq<Peer>)
    ensures I.WithKeys(ClientsOf(rows)) == ClientsOf(Keyed(rows))
  {
    hide ClientOf;
    if rows == [] {
    } else {
      var init, p := rows[..|rows| - 1], rows[|rows| - 1];
      KeyedClients(init);
      assert ClientOf(p).pub == p.publicKey by {
        ClientKey(p);
      }
      assert ClientsOf(rows)[..|rows| - 1] == ClientsOf(init);
    }
  }

  lemma ClientKey(p: Peer)
    ensures ClientOf(p).pub == p.publicKey
  {
  }

  /**
   * Importing the file rendered from such a table into an empty one recovers name, keys and address of every
   * WireGuard user, in order.
   */
  lemma TableRoundTrip(s: P.System, conf: string, legacy: map<string, I.Legacy>)
    requires P.Inv(s) && Printable(s.rows)
    requires forall l :: l in Split(TrimEnd(ConfHead(conf), '\n'), '\n') ==> !HasPrefix(TrimSpace(l), "PublicKey")
    ensures var r, ps := I.Imported(Render(conf, ClientsOf(s.rows)), [], legacy), Keyed(s.rows);
            && !r.broken && |r.table| == |ps|
            && forall i :: 0 <= i < |ps| ==>
                 var (e, p) := (r.table[i], ps[i]);
                 && e.name == p.username && e.pub == p.publicKey && e.psk == p.psk
                 && p.address.Some? && e.host == Dotted(p.address.value)
  {
    hide *;
    RowsApart(s);
    KeyedDistinct(ClientsOf(s.rows));
    RowsGood(s.rows);
    KeyedClients(s.rows);
    var ps := Keyed(s.rows);
    forall c | c in I.WithKeys(ClientsOf(s.rows))
      ensures !I.Taken([], c)
    {
      NobodyTaken(c);
    }
    I.ImportOfRendered(conf, ClientsOf(s.rows), [], legacy);
    forall i | 0 <= i < |ps|
      ensures |ClientsOf(ps)| == |ps| && ClientsOf(ps)[i] == ClientOf(ps[i])
      ensures var c := ClientOf(ps[i]);
              && c.name == ps[i].username && c.pub == ps[i].publicKey && c.psk == ps[i].psk
              && ps[i].address.Some? && c.host == Dotted(ps[i].address.value)
    {
      ClientColumns(s.rows, ps, i);
    }
    assert |ClientsOf(ps)| == |ps| by {
      ClientsLength(ps);
    }
  }

  lemma ClientsLength(rows: seq<Peer>)
    ensures |ClientsOf(rows)| == |rows|
  {
  }

  lemma NobodyTaken(c: Client)
    ensures !I.Taken([], c)
  {
  }

  lemma ClientColumns(rows: seq<Peer>, ps: seq<Peer>, i: nat)
    requires Printable(rows) && ps == Keyed(rows) && i < |ps|
    ensures |ClientsOf(ps)| == |ps| && ClientsOf(ps)[i] == ClientOf(ps[i])
    ensures var c := ClientOf(ps[i]);
            && c.name == ps[i].username && c.pub == ps[i].publicKey && c.psk == ps[i].psk
            && ps[i].address.Some? && c.host == Dotted(ps[i].address.value)
  {
    hide Dotted, I.Word;
    assert ps[i] in ps;
  }

  lemma RowsApart(s: P.System)
    requires P.Inv(s) && Printable(s.rows)
    ensures KeysApart(ClientsOf(s.rows))
  {
    hide Dotted, I.Word, P.RowOk;
    var cs := ClientsOf(s.rows);
    forall i, j | 0 <= i < j < |cs| && cs[i].pub != "" && cs[j].pub != ""
      ensures cs[i].name != cs[j].name && cs[i].pub != cs[j].pub && cs[i].host != cs[j].host
    {
      assert P.Apart(s.rows[i], s.rows[j]);
      if cs[i].host == cs[j].host {
        DottedUnique(s.rows[i].address.value, s.rows[j].address.value);
      }
    }
  }

  lemma RowsGood(rows: seq<Peer>)
    requires Printable(rows)
    ensures forall c :: c in I.WithKeys(ClientsOf(rows)) ==> I.Good(c)
  {
    hide Dotted, I.Word;
    forall c | c in I.WithKeys(ClientsOf(rows))
      ensures I.Good(c)
    {
      var i :| 0 <= i < |rows| && ClientsOf(rows)[i] == c;
      DottedGood(rows[i].address.value);
    }
  }
}
