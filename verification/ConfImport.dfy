/** Taking over the peers of an existing wg0.conf, and the round trip through a rendered one. */
module ConfImport {
  import opened Text
  import opened WgConf

  // ---- the table being filled ----

  datatype Entry = Entry(name: string, pub: string, psk: string, host: string, priv: string, quota: int, used: int,
                         expires: string)

  /** What an older database knew about a key. */
  datatype Legacy = Legacy(priv: string, quota: int, used: int, expires: string)

  function LegacyOf(legacy: map<string, Legacy>, pub: string): Legacy {
    if pub in legacy then legacy[pub] else Legacy("", 0, 0, "")
  }

  function EntryOf(c: Client, legacy: map<string, Legacy>): Entry {
    var l := LegacyOf(legacy, c.pub);
    Entry(c.name, c.pub, c.psk, c.host, l.priv, l.quota, l.used, l.expires)
  }

  /** Neither the user name nor the unique indexes stand in the way of a new entry. */
  predicate Fits(table: seq<Entry>, e: Entry) {
    forall i :: 0 <= i < |table| ==>
      && table[i].name != e.name
      && (e.pub != "" ==> table[i].pub != e.pub)
      && (e.host != "" ==> table[i].host != e.host)
  }

  // ---- the scan ----

  /**
   * The peer being collected, the table, and whether the scan broke off (a nameless peer with a key too short to
   * name it).
   */
  datatype Scan = Scan(name: string, pub: string, psk: string, ip: string, table: seq<Entry>, broken: bool)

  function Start(table: seq<Entry>): Scan {
    Scan("", "", "", "", table, false)
  }

  function Host(ip: string): string {
    Split(ip, '/')[0]
  }

  function Flushed(s: Scan, legacy: map<string, Legacy>): Scan {
    if s.pub == "" || s.ip == "" then
      Start(s.table)
    else if s.name == "" && |s.pub| < 6 then
      s.(broken := true)
    else
      var name := if s.name == "" then "peer-" + s.pub[..6] else s.name;
      var e := EntryOf(Client(name, s.pub, s.psk, Host(s.ip)), legacy);
      Start(if Fits(s.table, e) then s.table + [e] else s.table)
  }

  function Named(s: Scan, name: string): Scan {
    if s.broken then s else s.(name := name)
  }

  function Step(s: Scan, line: string, legacy: map<string, Legacy>): Scan {
    var t := TrimSpace(line);
    if s.broken then s
    else if HasPrefix(t, "### Client ") then Named(Flushed(s, legacy), TrimSpace(TrimPrefix(t, "### Client")))
    else if HasPrefix(t, "### wgmgr:") then Named(Flushed(s, legacy), TrimSpace(TrimPrefix(t, "### wgmgr:")))
    else if t == "[Peer]" then s
    else if HasPrefix(t, "PublicKey") then s.(pub := TrimSpace(AfterFirst(t, '=')))
    else if HasPrefix(t, "PresharedKey") then s.(psk := TrimSpace(AfterFirst(t, '=')))
    else if HasPrefix(t, "AllowedIPs") then s.(ip := TrimSpace(Split(AfterFirst(t, '='), ',')[0]))
    else s
  }

  function After(s: Scan, lines: seq<string>, legacy: map<string, Legacy>): Scan {
    if lines == [] then s else Step(After(s, lines[..|lines| - 1], legacy), lines[|lines| - 1], legacy)
  }

  function Imported(conf: string, table: seq<Entry>, legacy: map<string, Legacy>): Scan {
    var s := After(Start(table), Split(conf, '\n'), legacy);
    if s.broken then s else Flushed(s, legacy)
  }

  class Importer {
    var name: string
    var pub: string
    var psk: string
    var ip: string
    var table: seq<Entry>
    const legacy: map<string, Legacy>

    constructor (table: seq<Entry>, legacy: map<string, Legacy>)
      ensures State(false) == Start(table) && this.legacy == legacy
    {
      name, pub, psk, ip := "", "", "", "";
      this.table, this.legacy := table, legacy;
    }

    ghost function State(broken: bool): Scan
      reads this
    {
      Scan(name, pub, psk, ip, table, broken)
    }

    /** Stores the collected peer, if there is one, and starts over. */
    method Flush() returns (ok: bool)
      modifies this
      ensures State(!ok) == Flushed(old(State(false)), legacy)
    {
      if pub == "" || ip == "" {
        name, pub, psk, ip := "", "", "", "";
        return true;
      }
      var full := name;
      if name == "" {
        if |pub| < 6 {
          return false;
        }
        full := "peer-" + pub[..6];
      }
      var e := EntryOf(Client(full, pub, psk, Host(ip)), legacy);
      if Fits(table, e) {
        table := table + [e];
      }
      name, pub, psk, ip := "", "", "", "";
      return true;
    }

    method Import(conf: string) returns (ok: bool)
      requires State(false) == Start(table)
      modifies this
      ensures State(!ok) == Imported(conf, old(table), legacy)
    {
      hide TrimSpace, Split, HasPrefix, TrimPrefix, AfterFirst, Flushed;
      var lines := Split(conf, '\n');
      for i := 0 to |lines|
        invariant After(Start(old(table)), lines[..i], legacy) == State(false)
      {
        assert lines[..i + 1][..i] == lines[..i];
        var t := TrimSpace(lines[i]);
        if HasPrefix(t, "### Client ") || HasPrefix(t, "### wgmgr:") {
          var p := if HasPrefix(t, "### Client ") then "### Client" else "### wgmgr:";
          ok := Flush();
          if !ok {
            StaysBroken(Start(old(table)), lines, i + 1, legacy);
            return;
          }
          name := TrimSpace(TrimPrefix(t, p));
        } else if t == "[Peer]" {
        } else if HasPrefix(t, "PublicKey") {
          pub := TrimSpace(AfterFirst(t, '='));
        } else if HasPrefix(t, "PresharedKey") {
          psk := TrimSpace(AfterFirst(t, '='));
        } else if HasPrefix(t, "AllowedIPs") {
          ip := TrimSpace(Split(AfterFirst(t, '='), ',')[0]);
        }
      }
      assert lines[..|lines|] == lines;
      ok := Flush();
    }
  }

  lemma {:induction false} StaysBroken(s: Scan, lines: seq<string>, k: nat, legacy: map<string, Legacy>)
    requires k <= |lines| && After(s, lines[..k], legacy).broken
    ensures After(s, lines, legacy) == After(s, lines[..k], legacy)
  {
    if k == |lines| {
      assert lines[..k] == lines;
    } else {
      assert lines[..|lines| - 1][..k] == lines[..k];
      StaysBroken(s, lines[..|lines| - 1], k, legacy);
    }
  }

  lemma {:induction false} AfterBoth(s: Scan, a: seq<string>, b: seq<string>, legacy: map<string, Legacy>)
    ensures After(s, a + b, legacy) == After(After(s, a, legacy), b, legacy)
  {
    hide Step;
    if b == [] {
      assert a + b == a;
    } else {
      AfterBoth(s, a, b[..|b| - 1], legacy);
      assert (a + b)[..|a + b| - 1] == a + b[..|b| - 1];
    }
  }

  // ---- the lines of a rendered file ----

  predicate Word(s: string) {
    s != "" && Trimmed(s) && '\n' !in s
  }

  /** A client whose columns fit on one line each and survive trimming. */
  predicate Good(c: Client) {
    && Word(c.name) && Word(c.pub) && (c.psk == "" || Word(c.psk))
    && Word(c.host) && '/' !in c.host && ',' !in c.host
  }

  /** The lines of one peer below a heading. */
  function BareBlock(c: Client, after: string): seq<string> {
    ["[Peer]", "PublicKey = " + c.pub] + (if c.psk != "" then ["PresharedKey = " + c.psk] else [])
    + ["AllowedIPs = " + c.host + after]
  }

  /** What may stand behind the address: a prefix length or not, and further networks behind a comma. */
  predicate Behind(after: string) {
    Trimmed(after) && '\n' !in after && (after != "" ==> after[0] == '/' || after[0] == ',')
  }

  /**
   * A peer as it stands in a file: under which kind of heading, with or without a blank line before, and with what
   * behind his address.
   */
  datatype Listed = Listed(old_: bool, blank: bool, c: Client, after: string) {
    function Lines(): seq<string> {
      (if blank then [""] else []) + [(if old_ then "### Client " else "### wgmgr:") + c.name] + BareBlock(c, after)
    }

    predicate Fine() { Good(c) && Behind(after) }
  }

  function AllLines(ls: seq<Listed>): seq<string> {
    if ls == [] then [] else AllLines(ls[..|ls| - 1]) + ls[|ls| - 1].Lines()
  }

  lemma AfterMore(s: Scan, lines: seq<string>, l: string, legacy: map<string, Legacy>)
    ensures After(s, lines + [l], legacy) == Step(After(s, lines, legacy), l, legacy)
  {
    assert (lines + [l])[..|lines|] == lines;
  }

  // ---- what each rendered line does ----

  lemma BlankAndPeerLines(s: Scan, legacy: map<string, Legacy>)
    ensures Step(s, "", legacy) == s && Step(s, "[Peer]", legacy) == s
  {
    TrimmedStays("");
    TrimmedStays("[Peer]");
    assert "[Peer]"[0] == '[' && "### Client "[0] == '#' && "### wgmgr:"[0] == '#';
  }

  lemma NameLine(s: Scan, old_: bool, name: string, legacy: map<string, Legacy>)
    requires Word(name) && !s.broken
    ensures Step(s, (if old_ then "### Client " else "### wgmgr:") + name, legacy) == Named(Flushed(s, legacy), name)
  {
    hide Flushed, TrimSpace;
    TrimmedStays(name);
    if old_ {
      var t := "### Client " + name;
      assert t[0] == '#';
      TrimmedStays(t);
      TrimBlank(name);
      assert t[10..] == " " + name;
      assert "### Client" <= t && "### Client " <= t;
    } else {
      var t := "### wgmgr:" + name;
      assert t[0] == '#' && t[4] == 'w' && "### Client "[4] == 'C';
      TrimmedStays(t);
      assert t[10..] == name;
    }
  }

  lemma KeyLine(s: Scan, pub: string, legacy: map<string, Legacy>)
    requires Word(pub) && !s.broken
    ensures Step(s, "PublicKey = " + pub, legacy) == s.(pub := pub)
  {
    hide Flushed, TrimSpace, AfterFirst;
    var t := "PublicKey = " + pub;
    assert t[0] == 'P' && "### Client "[0] == '#' && "### wgmgr:"[0] == '#' && "[Peer]"[0] == '[';
    TrimmedStays(t);
    AfterFirstOf("PublicKey ", '=', " " + pub);
    assert t == "PublicKey " + ['='] + (" " + pub);
    TrimBlank(pub);
  }

  lemma PskLine(s: Scan, psk: string, legacy: map<string, Legacy>)
    requires Word(psk) && !s.broken
    ensures Step(s, "PresharedKey = " + psk, legacy) == s.(psk := psk)
  {
    hide Flushed, TrimSpace, AfterFirst;
    var t := "PresharedKey = " + psk;
    assert t[0] == 'P' && t[1] == 'r' && "### Client "[0] == '#' && "### wgmgr:"[0] == '#' && "[Peer]"[0] == '[';
    assert "PublicKey"[1] == 'u';
    TrimmedStays(t);
    AfterFirstOf("PresharedKey ", '=', " " + psk);
    assert t == "PresharedKey " + ['='] + (" " + psk);
    TrimBlank(psk);
  }

  /** What of the text counts: up to the first comma. */
  function FirstNet(host: string, after: string): string {
    host + Split(after, ',')[0]
  }

  lemma HostLine(s: Scan, host: string, after: string, legacy: map<string, Legacy>)
    requires Word(host) && ',' !in host && Behind(after) && !s.broken
    ensures Step(s, "AllowedIPs = " + host + after, legacy) == s.(ip := TrimSpace(FirstNet(host, after)))
  {
    hide Flushed, TrimSpace, AfterFirst, Split;
    var t := "AllowedIPs = " + host + after;
    assert t[0] == 'A' && "### Client "[0] == '#' && "### wgmgr:"[0] == '#' && "[Peer]"[0] == '[';
    assert "PublicKey"[0] == 'P' && "PresharedKey"[0] == 'P';
    assert t[|t| - 1] == if after == "" then host[|host| - 1] else after[|after| - 1];
    TrimmedStays(t);
    var v := host + after;
    AfterFirstOf("AllowedIPs ", '=', " " + v);
    assert t == "AllowedIPs " + ['='] + (" " + v);
    SplitFront(" " + host, ',', after);
    assert " " + v == " " + host + after && " " + host + Split(after, ',')[0] == " " + FirstNet(host, after);
    TrimOneBlank(FirstNet(host, after));
  }

  lemma TrimOneBlank(s: string)
    ensures TrimSpace(" " + s) == TrimSpace(s)
  {
    assert (" " + s)[1..] == s;
  }

  /** Text without the separator in front of a text belongs to its first part. */
  lemma {:induction false} SplitFront(w: string, c: char, rest: string)
    requires c !in w
    ensures Split(w + rest, c)[0] == w + Split(rest, c)[0]
  {
    if w == "" {
      assert w + rest == rest && w + Split(rest, c)[0] == Split(rest, c)[0];
    } else {
      SplitFront(w[1..], c, rest);
      assert (w + rest)[1..] == w[1..] + rest && (w + rest)[0] == w[0];
      assert [w[0]] + (w[1..] + Split(rest, c)[0]) == w + Split(rest, c)[0];
    }
  }

  /** The host is what stands in front of the prefix length, the comma or the end. */
  lemma HostOf(host: string, after: string)
    requires Word(host) && '/' !in host && Behind(after)
    ensures TrimSpace(FirstNet(host, after)) != "" && Host(TrimSpace(FirstNet(host, after))) == host
  {
    hide Split;
    var n := FirstNet(host, after);
    FirstPart(after);
    TrimRightKeeps(host, Split(after, ',')[0]);
    assert n[0] == host[0];
    var k := TrimSpace(n);
    var r := k[|host|..];
    assert k == host + r;
    SplitFront(host, '/', r);
    if r == "" {
      EmptyPart();
    } else {
      assert r == "" + ['/'] + r[1..];
      SplitAt("", '/', r[1..]);
    }
  }

  lemma EmptyPart()
    ensures Split("", '/')[0] == ""
  {
  }

  lemma FirstPart(after: string)
    requires Behind(after)
    ensures var r := Split(after, ',')[0]; r == "" || r[0] == '/'
  {
    if after != "" && after[0] == ',' {
      assert after == "" + [','] + after[1..];
      SplitAt("", ',', after[1..]);
    } else if after != "" {
      assert after == [after[0]] + after[1..];
      SplitFront([after[0]], ',', after[1..]);
    }
  }

  /** The lines below a heading only collect. */
  lemma OneBareBlock(s: Scan, c: Client, after: string, legacy: map<string, Legacy>)
    requires !s.broken && Good(c) && Behind(after)
    ensures After(s, BareBlock(c, after), legacy) ==
              s.(pub := c.pub, psk := if c.psk != "" then c.psk else s.psk, ip := TrimSpace(FirstNet(c.host, after)))
  {
    hide After, Step, FirstNet, Behind, TrimSpace;
    var l0, l1 := ["[Peer]"], ["PublicKey = " + c.pub];
    var l2 := if c.psk != "" then ["PresharedKey = " + c.psk] else [];
    AfterNone(s, legacy);
    AfterMore(s, [], "[Peer]", legacy);
    assert [] + l0 == l0;
    BlankAndPeerLines(s, legacy);
    AfterMore(s, l0, "PublicKey = " + c.pub, legacy);
    KeyLine(s, c.pub, legacy);
    var g := s.(pub := c.pub);
    if c.psk != "" {
      AfterMore(s, l0 + l1, "PresharedKey = " + c.psk, legacy);
      PskLine(g, c.psk, legacy);
      g := g.(psk := c.psk);
    } else {
      assert l0 + l1 + l2 == l0 + l1;
    }
    AfterMore(s, l0 + l1 + l2, "AllowedIPs = " + c.host + after, legacy);
    HostLine(g, c.host, after, legacy);
    assert BareBlock(c, after) == l0 + l1 + l2 + ["AllowedIPs = " + c.host + after];
  }

  /** The lines of one client, under either heading, store the client before it and leave this one collected. */
  lemma OneClient(s: Scan, l: Listed, legacy: map<string, Legacy>)
    requires !s.broken && !Flushed(s, legacy).broken && l.Fine()
    ensures After(s, l.Lines(), legacy) ==
              Scan(l.c.name, l.c.pub, l.c.psk, TrimSpace(FirstNet(l.c.host, l.after)), Flushed(s, legacy).table, false)
  {
    FineMeans(l);
    hide After, Step, BareBlock, Flushed, Good, Listed.Lines, Listed.Fine, FirstNet, Behind, TrimSpace;
    var c := l.c;
    var blank := if l.blank then [""] else [];
    var heading := (if l.old_ then "### Client " else "### wgmgr:") + c.name;
    AfterNone(s, legacy);
    if l.blank {
      AfterMore(s, [], "", legacy);
      assert [] + [""] == [""];
      BlankAndPeerLines(s, legacy);
    }
    AfterMore(s, blank, heading, legacy);
    NameLine(s, l.old_, c.name, legacy);
    FlushedIsFresh(s, legacy);
    AfterBoth(s, blank + [heading], BareBlock(c, l.after), legacy);
    OneBareBlock(Named(Flushed(s, legacy), c.name), c, l.after, legacy);
    LinesAre(l);
  }

  lemma FineMeans(l: Listed)
    requires l.Fine()
    ensures Good(l.c) && Behind(l.after) && Word(l.c.name)
  {
  }

  lemma LinesAre(l: Listed)
    ensures l.Lines() == (if l.blank then [""] else [])
                         + [(if l.old_ then "### Client " else "### wgmgr:") + l.c.name] + BareBlock(l.c, l.after)
  {
    hide BareBlock;
  }

  lemma FlushedIsFresh(s: Scan, legacy: map<string, Legacy>)
    requires !Flushed(s, legacy).broken
    ensures Flushed(s, legacy) == Start(Flushed(s, legacy).table)
  {
  }

  lemma AfterNone(s: Scan, legacy: map<string, Legacy>)
    ensures After(s, [], legacy) == s
  {
  }

  // ---- what is stored ----

  /** Somebody in the table has this name, this key or this address. */
  predicate Taken(table: seq<Entry>, c: Client) {
    exists i :: 0 <= i < |table| && (table[i].name == c.name || table[i].pub == c.pub || table[i].host == c.host)
  }

  /** The entry of a client: his own columns, and what the older database had under his key. */
  predicate IsEntry(e: Entry, c: Client, legacy: map<string, Legacy>) {
    && e.name == c.name && e.pub == c.pub && e.psk == c.psk && e.host == c.host
    && (c.pub in legacy ==> var l := legacy[c.pub];
                            e.priv == l.priv && e.quota == l.quota && e.used == l.used && e.expires == l.expires)
    && (c.pub !in legacy ==> e.priv == "" && e.quota == 0 && e.used == 0 && e.expires == "")
  }

  /** One after the other, those that are not taken by then. */
  function Stored(table: seq<Entry>, cs: seq<Client>, legacy: map<string, Legacy>): seq<Entry> {
    if cs == [] then
      table
    else
      var before := Stored(table, cs[..|cs| - 1], legacy);
      if Taken(before, cs[|cs| - 1]) then before else before + [EntryOf(cs[|cs| - 1], legacy)]
  }

  function Clients(ls: seq<Listed>): seq<Client> {
    seq(|ls|, i requires 0 <= i < |ls| => ls[i].c)
  }

  lemma FlushStores(c: Client, after: string, table: seq<Entry>, legacy: map<string, Legacy>)
    requires Good(c) && Behind(after)
    ensures Flushed(Scan(c.name, c.pub, c.psk, TrimSpace(FirstNet(c.host, after)), table, false), legacy) ==
              Start(if Taken(table, c) then table else table + [EntryOf(c, legacy)])
    ensures IsEntry(EntryOf(c, legacy), c, legacy)
  {
    hide TrimSpace, FirstNet, Behind, Host;
    HostOf(c.host, after);
  }

  lemma NothingToFlush(s: Scan, legacy: map<string, Legacy>)
    requires s.pub == ""
    ensures Flushed(s, legacy) == Start(s.table)
  {
  }

  lemma OneMoreListed(ls: seq<Listed>, l: Listed)
    ensures AllLines(ls + [l]) == AllLines(ls) + l.Lines()
    ensures Clients(ls + [l]) == Clients(ls) + [l.c]
  {
    assert (ls + [l])[..|ls|] == ls;
  }

  lemma OneMoreStored(table: seq<Entry>, cs: seq<Client>, c: Client, legacy: map<string, Legacy>)
    ensures var before := Stored(table, cs, legacy);
            Stored(table, cs + [c], legacy) == if Taken(before, c) then before else before + [EntryOf(c, legacy)]
  {
    assert (cs + [c])[..|cs|] == cs;
  }

  /** After the lines of these peers all but the last are stored, and the last is stored by one more flush. */
  lemma {:induction false} AfterClients(s: Scan, ls: seq<Listed>, legacy: map<string, Legacy>)
    requires !s.broken && s.pub == "" && forall l :: l in ls ==> l.Fine()
    ensures var r := After(s, AllLines(ls), legacy);
            !r.broken && Flushed(r, legacy) == Start(Stored(s.table, Clients(ls), legacy))
  {
    hide Good, After, AllLines, Flushed, Taken, EntryOf, Stored, IsEntry, Behind, FirstNet, TrimSpace, Listed.Fine;
    if ls == [] {
      NobodyListed(s.table, legacy);
      AfterNone(s, legacy);
      NothingToFlush(s, legacy);
    } else {
      var init, l := ls[..|ls| - 1], ls[|ls| - 1];
      assert ls == init + [l] && l in ls;
      AfterClients(s, init, legacy);
      OneMoreListed(init, l);
      OneMoreStored(s.table, Clients(init), l.c, legacy);
      AfterBoth(s, AllLines(init), l.Lines(), legacy);
      OneClient(After(s, AllLines(init), legacy), l, legacy);
      FineMeans(l);
      FlushStores(l.c, l.after, Stored(s.table, Clients(init), legacy), legacy);
    }
  }

  lemma NobodyListed(table: seq<Entry>, legacy: map<string, Legacy>)
    ensures AllLines([]) == [] && Clients([]) == [] && Stored(table, [], legacy) == table
  {
  }

  /** A head that names no key leaves nothing collected. */
  lemma {:induction false} QuietHead(table: seq<Entry>, lines: seq<string>, legacy: map<string, Legacy>)
    requires forall l :: l in lines ==> !HasPrefix(TrimSpace(l), "PublicKey")
    ensures var r := After(Start(table), lines, legacy); !r.broken && r.pub == "" && r.table == table
  {
    hide TrimSpace, Split, AfterFirst;
    if lines == [] {
    } else {
      assert lines[|lines| - 1] in lines;
      QuietHead(table, lines[..|lines| - 1], legacy);
    }
  }

  lemma {:induction false} BlankTail(s: Scan, lines: seq<string>, legacy: map<string, Legacy>)
    requires forall l :: l in lines ==> TrimSpace(l) == ""
    ensures After(s, lines, legacy) == s
  {
    hide TrimSpace, Flushed, Split, AfterFirst;
    if lines == [] {
    } else {
      assert lines[|lines| - 1] in lines;
      BlankTail(s, lines[..|lines| - 1], legacy);
    }
  }

  lemma ImportedIs(conf: string, table: seq<Entry>, legacy: map<string, Legacy>)
    ensures Imported(conf, table, legacy) ==
              var s := After(Start(table), Split(conf, '\n'), legacy); if s.broken then s else Flushed(s, legacy)
  {
  }

  /**
   * A file with a head that names no key, then peers under headings of either kind, then blank lines: the peers
   * are stored one after the other, unless the name, the key or the address is taken by then.
   */
  lemma ImportStores(conf: string, h: seq<string>, ls: seq<Listed>, tail: seq<string>, table: seq<Entry>,
                     legacy: map<string, Legacy>)
    requires Split(conf, '\n') == h + AllLines(ls) + tail
    requires forall l :: l in h ==> !HasPrefix(TrimSpace(l), "PublicKey")
    requires forall l :: l in tail ==> TrimSpace(l) == ""
    requires forall l :: l in ls ==> l.Fine()
    ensures Imported(conf, table, legacy) == Start(Stored(table, Clients(ls), legacy))
  {
    hide *;
    QuietHead(table, h, legacy);
    AfterClients(After(Start(table), h, legacy), ls, legacy);
    AfterBoth(Start(table), h, AllLines(ls), legacy);
    AfterBoth(Start(table), h + AllLines(ls), tail, legacy);
    BlankTail(After(Start(table), h + AllLines(ls), legacy), tail, legacy);
    ImportedIs(conf, table, legacy);
  }

  /** Entry i is that of a peer who shares neither name nor key nor address with an entry before it. */
  predicate FromFile(t: seq<Entry>, i: nat, cs: seq<Client>, legacy: map<string, Legacy>)
    requires i < |t|
  {
    exists j :: 0 <= j < |cs| && IsEntry(t[i], cs[j], legacy) && !Taken(t[..i], cs[j])
  }

  /**
   * What that leaves: the old entries, then entries of peers of the file that share neither name nor key nor
   * address with any before them; and no peer is missing but for such a reason.
   */
  lemma {:induction false} StoredMeans(table: seq<Entry>, cs: seq<Client>, legacy: map<string, Legacy>)
    ensures var t := Stored(table, cs, legacy);
            && |t| >= |table| && t[..|table|] == table
            && (forall i :: |table| <= i < |t| ==> FromFile(t, i, cs, legacy))
            && (forall j :: 0 <= j < |cs| ==> Taken(t, cs[j]))
  {
    hide EntryOf, LegacyOf, Taken, IsEntry;
    if cs == [] {
    } else {
      var init, c := cs[..|cs| - 1], cs[|cs| - 1];
      assert cs == init + [c];
      StoredMeans(table, init, legacy);
      EntryIsEntry(c, legacy);
      OneMoreStored(table, init, c, legacy);
      OneMoreMeans(table, Stored(table, init, legacy), init, c, legacy);
    }
  }

  lemma OneMoreMeans(table: seq<Entry>, before: seq<Entry>, init: seq<Client>, c: Client, legacy: map<string, Legacy>)
    requires |before| >= |table| && before[..|table|] == table && IsEntry(EntryOf(c, legacy), c, legacy)
    requires forall i :: |table| <= i < |before| ==> FromFile(before, i, init, legacy)
    requires forall j :: 0 <= j < |init| ==> Taken(before, init[j])
    ensures var t, cs := if Taken(before, c) then before else before + [EntryOf(c, legacy)], init + [c];
            && |t| >= |table| && t[..|table|] == table
            && (forall i :: |table| <= i < |t| ==> FromFile(t, i, cs, legacy))
            && (forall j :: 0 <= j < |cs| ==> Taken(t, cs[j]))
  {
    hide EntryOf, Taken, IsEntry;
    assert init <= init + [c];
    var t, cs := if Taken(before, c) then before else before + [EntryOf(c, legacy)], init + [c];
    assert forall j :: 0 <= j < |init| ==> cs[j] == init[j];
    EntryTakes(t, c, legacy);
    forall j | 0 <= j < |init|
      ensures Taken(t, cs[j])
    {
      MoreTaken(before, t, init[j]);
    }
    forall i | |table| <= i < |t|
      ensures FromFile(t, i, cs, legacy)
    {
      if i < |before| {
        FromLongerFile(before, t, i, init, cs, legacy);
      } else {
        assert t[..i] == before && cs[|init|] == c && IsEntry(t[i], c, legacy);
      }
    }
  }

  lemma FromLongerFile(before: seq<Entry>, t: seq<Entry>, i: nat, init: seq<Client>, cs: seq<Client>,
                       legacy: map<string, Legacy>)
    requires i < |before| && before <= t && init <= cs && FromFile(before, i, init, legacy)
    ensures FromFile(t, i, cs, legacy)
  {
    hide Taken, IsEntry;
    var j :| 0 <= j < |init| && IsEntry(before[i], init[j], legacy) && !Taken(before[..i], init[j]);
    assert t[..i] == before[..i] && cs[j] == init[j] && t[i] == before[i];
  }

  lemma EntryIsEntry(c: Client, legacy: map<string, Legacy>)
    ensures IsEntry(EntryOf(c, legacy), c, legacy)
  {
  }

  lemma MoreTaken(a: seq<Entry>, b: seq<Entry>, c: Client)
    requires Taken(a, c) && a <= b
    ensures Taken(b, c)
  {
    var i :| 0 <= i < |a| && (a[i].name == c.name || a[i].pub == c.pub || a[i].host == c.host);
    assert b[i] == a[i];
  }

  lemma EntryTakes(t: seq<Entry>, c: Client, legacy: map<string, Legacy>)
    ensures t != [] && t[|t| - 1] == EntryOf(c, legacy) ==> Taken(t, c)
  {
  }

  predicate Distinct(cs: seq<Client>) {
    forall i, j :: 0 <= i < j < |cs| ==> cs[i].name != cs[j].name && cs[i].pub != cs[j].pub && cs[i].host != cs[j].host
  }

  /** Nobody taken: exactly one entry per peer, in order. */
  lemma {:induction false} NoneTaken(table: seq<Entry>, cs: seq<Client>, legacy: map<string, Legacy>)
    requires Distinct(cs) && forall c :: c in cs ==> !Taken(table, c)
    ensures var t := Stored(table, cs, legacy);
            && |t| == |table| + |cs| && t[..|table|] == table
            && forall i :: 0 <= i < |cs| ==> IsEntry(t[|table| + i], cs[i], legacy)
  {
    hide EntryOf, LegacyOf, IsEntry, Taken, Distinct;
    if cs == [] {
    } else {
      var init, c := cs[..|cs| - 1], cs[|cs| - 1];
      assert cs == init + [c] && c in cs && forall d :: d in init ==> d in cs;
      DistinctInit(init, c);
      NoneTaken(table, init, legacy);
      EntryIsEntry(c, legacy);
      NotTakenBefore(table, Stored(table, init, legacy), init, c, legacy);
    }
  }

  lemma DistinctInit(init: seq<Client>, c: Client)
    requires Distinct(init + [c])
    ensures Distinct(init)
    ensures forall i :: 0 <= i < |init| ==> init[i].name != c.name && init[i].pub != c.pub && init[i].host != c.host
  {
    var cs := init + [c];
    assert cs[|init|] == c && forall i :: 0 <= i < |init| ==> cs[i] == init[i];
  }

  lemma NotTakenBefore(table: seq<Entry>, t: seq<Entry>, init: seq<Client>, c: Client, legacy: map<string, Legacy>)
    requires |t| == |table| + |init| && t[..|table|] == table && !Taken(table, c)
    requires forall i :: 0 <= i < |init| ==> IsEntry(t[|table| + i], init[i], legacy)
    requires forall i :: 0 <= i < |init| ==> init[i].name != c.name && init[i].pub != c.pub && init[i].host != c.host
    ensures !Taken(t, c)
  {
    hide IsEntry;
    forall i | 0 <= i < |t|
      ensures t[i].name != c.name && t[i].pub != c.pub && t[i].host != c.host
    {
      if i < |table| {
        assert t[i] == table[i];
      } else {
        EntryNames(t[|table| + (i - |table|)], init[i - |table|], legacy);
      }
    }
  }

  lemma EntryNames(e: Entry, c: Client, legacy: map<string, Legacy>)
    requires IsEntry(e, c, legacy)
    ensures e.name == c.name && e.pub == c.pub && e.host == c.host
  {
  }

  /**
   * Importing such a file into a table where nobody has the name, key or address of a peer of it gives one entry
   * per peer, in order, with the peer's name, key, preshared key and address, and what the older database
   * knew under the key.
   */
  lemma ImportInOrder(conf: string, h: seq<string>, ls: seq<Listed>, tail: seq<string>, table: seq<Entry>,
                      legacy: map<string, Legacy>)
    requires Split(conf, '\n') == h + AllLines(ls) + tail
    requires forall l :: l in h ==> !HasPrefix(TrimSpace(l), "PublicKey")
    requires forall l :: l in tail ==> TrimSpace(l) == ""
    requires forall l :: l in ls ==> l.Fine()
    requires Distinct(Clients(ls)) && forall c :: c in Clients(ls) ==> !Taken(table, c)
    ensures var r := Imported(conf, table, legacy);
            && !r.broken && |r.table| == |table| + |ls| && r.table[..|table|] == table
            && forall i :: 0 <= i < |ls| ==>
                 var (e, c) := (r.table[|table| + i], ls[i].c);
                 && e.name == c.name && e.pub == c.pub && e.psk == c.psk && e.host == c.host
                 && e.priv == (if c.pub in legacy then legacy[c.pub].priv else "")
                 && e.quota == (if c.pub in legacy then legacy[c.pub].quota else 0)
                 && e.used == (if c.pub in legacy then legacy[c.pub].used else 0)
                 && e.expires == (if c.pub in legacy then legacy[c.pub].expires else "")
  {
    hide Split, AllLines, HasPrefix, TrimSpace, Good, Taken, Stored, Imported, Distinct;
    ImportStores(conf, h, ls, tail, table, legacy);
    NoneTaken(table, Clients(ls), legacy);
    assert forall i :: 0 <= i < |ls| ==> Clients(ls)[i] == ls[i].c;
  }

  // ---- peers without a heading ----

  /**
   * A peer without a heading is named after the first six characters of his key; a shorter key breaks the import
   * off, and nothing is stored.
   */
  lemma ImportNameless(conf: string, c: Client, after: string, table: seq<Entry>, legacy: map<string, Legacy>)
    requires Split(conf, '\n') == BareBlock(c, after) && Good(c) && Behind(after)
    ensures var r := Imported(conf, table, legacy);
            && (r.broken <==> |c.pub| < 6) && (r.broken ==> r.table == table)
            && (|c.pub| >= 6 ==>
                  var d := c.(name := "peer-" + c.pub[..6]);
                  if Taken(table, d) then r.table == table
                  else |r.table| == |table| + 1 && r.table[..|table|] == table && IsEntry(r.table[|table|], d, legacy))
  {
    hide Taken, IsEntry, EntryOf, Split, After, TrimSpace, FirstNet, Behind;
    OneBareBlock(Start(table), c, after, legacy);
    ImportedIs(conf, table, legacy);
    NamelessFlush(Start(table), c, after, c.psk, legacy);
  }

  lemma NamelessFlush(s: Scan, c: Client, after: string, psk: string, legacy: map<string, Legacy>)
    requires Good(c) && Behind(after) && s.name == "" && s.psk == "" && !s.broken
    ensures var r := Flushed(s.(pub := c.pub, psk := psk, ip := TrimSpace(FirstNet(c.host, after))), legacy);
            && (r.broken <==> |c.pub| < 6) && (r.broken ==> r.table == s.table)
            && (|c.pub| >= 6 ==>
                  var d := c.(name := "peer-" + c.pub[..6], psk := psk);
                  && r == Start(if Taken(s.table, d) then s.table else s.table + [EntryOf(d, legacy)])
                  && IsEntry(EntryOf(d, legacy), d, legacy))
  {
    hide TrimSpace, FirstNet, Behind, Host;
    HostOf(c.host, after);
  }

  /**
   * Of several peers without headings only the last is stored, because only headings store the one before; with a
   * preshared key of the one before, if it has none itself.
   */
  lemma NamelessAreLost(conf: string, b: Client, c: Client, after: string, table: seq<Entry>,
                        legacy: map<string, Legacy>)
    requires Split(conf, '\n') == BareBlock(b, after) + BareBlock(c, after) && Good(b) && Good(c) && |c.pub| >= 6
    requires Behind(after)
    ensures var d := c.(name := "peer-" + c.pub[..6], psk := if c.psk != "" then c.psk else b.psk);
            Imported(conf, table, legacy) == Start(if Taken(table, d) then table else table + [EntryOf(d, legacy)])
  {
    hide Taken, IsEntry, EntryOf, Split, After, BareBlock, Flushed, TrimSpace, FirstNet, Behind;
    var s := Start(table);
    OneBareBlock(s, b, after, legacy);
    AfterBoth(s, BareBlock(b, after), BareBlock(c, after), legacy);
    OneBareBlock(After(s, BareBlock(b, after), legacy), c, after, legacy);
    ImportedIs(conf, table, legacy);
    NamelessFlush(s, c, after, if c.psk != "" then c.psk else b.psk, legacy);
  }

  /** A peer of whom the file gives only the key, or only the address, is not stored. */
  lemma ImportIncomplete(conf: string, c: Client, old_: bool, keyOnly: bool, table: seq<Entry>,
                         legacy: map<string, Legacy>)
    requires Good(c)
    requires Split(conf, '\n') == [(if old_ then "### Client " else "### wgmgr:") + c.name,
                                   if keyOnly then "PublicKey = " + c.pub else "AllowedIPs = " + c.host]
    ensures Imported(conf, table, legacy) == Start(table)
  {
    hide Split, After, Step, TrimSpace, Behind;
    var heading := (if old_ then "### Client " else "### wgmgr:") + c.name;
    var line := if keyOnly then "PublicKey = " + c.pub else "AllowedIPs = " + c.host;
    var s := Start(table);
    AfterNone(s, legacy);
    AfterMore(s, [], heading, legacy);
    AfterMore(s, [heading], line, legacy);
    assert [] + [heading] == [heading] && [heading] + [line] == [heading, line];
    NameLine(s, old_, c.name, legacy);
    NothingToFlush(s, legacy);
    var g := s.(name := c.name);
    if keyOnly {
      KeyLine(g, c.pub, legacy);
    } else {
      NothingBehind();
      HostLine(g, c.host, "", legacy);
      assert "AllowedIPs = " + c.host + "" == line;
    }
    ImportedIs(conf, table, legacy);
  }

  lemma NothingBehind()
    ensures Behind("")
  {
  }

  // ---- the round trip ----

  /** The users wg0.conf knows about. */
  function WithKeys(cs: seq<Client>): (r: seq<Client>)
    ensures forall c :: c in r <==> c in cs && c.pub != ""
  {
    if cs == [] then []
    else WithKeys(cs[..|cs| - 1]) + if cs[|cs| - 1].pub == "" then [] else [cs[|cs| - 1]]
  }

  lemma OneMoreKeyed(cs: seq<Client>, c: Client)
    ensures WithKeys(cs + [c]) == WithKeys(cs) + if c.pub == "" then [] else [c]
  {
    assert (cs + [c])[..|cs|] == cs;
  }

  /** As the renderer lists a client. */
  function Rendered(cs: seq<Client>): (ls: seq<Listed>)
    ensures |ls| == |cs| && forall i :: 0 <= i < |ls| ==> ls[i].c == cs[i] && ls[i].after == "/32"
  {
    seq(|cs|, i requires 0 <= i < |cs| => Listed(false, true, cs[i], "/32"))
  }

  lemma OneMoreRendered(cs: seq<Client>, c: Client)
    ensures AllLines(Rendered(cs + [c])) == AllLines(Rendered(cs)) + ClientLines(c)
  {
    hide AllLines;
    OneMoreListed(Rendered(cs), Listed(false, true, c, "/32"));
    assert Rendered(cs + [c]) == Rendered(cs) + [Listed(false, true, c, "/32")];
    assert Listed(false, true, c, "/32").Lines() == ClientLines(c) by {
      assert "AllowedIPs = " + c.host + "/32" == "AllowedIPs = " + c.host + "/32";
    }
  }

  lemma {:induction false} SectionIsLines(cs: seq<Client>)
    ensures Section(cs) == Section([]) + Unlines(AllLines(Rendered(WithKeys(cs))))
  {
    hide Unlines, ClientLines, Section, WithKeys, AllLines;
    if cs == [] {
      NoLines();
    } else {
      var init, c := cs[..|cs| - 1], cs[|cs| - 1];
      assert cs == init + [c];
      SectionIsLines(init);
      OneMoreInSection(init, c);
      OneMoreKeyed(init, c);
      if c.pub == "" {
        assert WithKeys(cs) == WithKeys(init) && Section(cs) == Section(init);
      } else {
        OneMoreRendered(WithKeys(init), c);
        UnlinesBoth(AllLines(Rendered(WithKeys(init))), ClientLines(c));
      }
    }
  }

  lemma NoLines()
    ensures Unlines(AllLines(Rendered(WithKeys([])))) == ""
  {
    assert Rendered([]) == [];
  }

  lemma {:induction false} RenderedOneLiners(cs: seq<Client>)
    requires forall c :: c in cs ==> Good(c)
    ensures forall l :: l in AllLines(Rendered(cs)) ==> '\n' !in l
  {
    hide Good, ClientLines, AllLines;
    if cs == [] {
      NobodyListed([], map[]);
      assert Rendered(cs) == [];
    } else {
      var init, c := cs[..|cs| - 1], cs[|cs| - 1];
      assert c in cs && cs == init + [c];
      OneLiners(c);
      RenderedOneLiners(init);
      OneMoreRendered(init, c);
    }
  }

  lemma OneLiners(c: Client)
    requires Good(c)
    ensures forall l :: l in ClientLines(c) ==> '\n' !in l
  {
    assert '\n' !in "### wgmgr:" + c.name;
    assert '\n' !in "PublicKey = " + c.pub;
    assert '\n' !in "PresharedKey = " + c.psk;
    assert '\n' !in "AllowedIPs = " + c.host + "/32";
  }

  /**
   * Importing a rendered file adds exactly the users it was rendered from, in order, with name, keys and address,
   * and what the older database knew under the key.
   */
  lemma ImportOfRendered(conf: string, cs: seq<Client>, table: seq<Entry>, legacy: map<string, Legacy>)
    requires forall l :: l in Split(TrimEnd(ConfHead(conf), '\n'), '\n') ==> !HasPrefix(TrimSpace(l), "PublicKey")
    requires Distinct(WithKeys(cs)) && forall c :: c in WithKeys(cs) ==> Good(c) && !Taken(table, c)
    ensures var r, ks := Imported(Render(conf, cs), table, legacy), WithKeys(cs);
            && !r.broken && |r.table| == |table| + |ks| && r.table[..|table|] == table
            && forall i :: 0 <= i < |ks| ==>
                 var (e, c) := (r.table[|table| + i], ks[i]);
                 && e.name == c.name && e.pub == c.pub && e.psk == c.psk && e.host == c.host
                 && e.priv == (if c.pub in legacy then legacy[c.pub].priv else "")
                 && e.quota == (if c.pub in legacy then legacy[c.pub].quota else 0)
                 && e.used == (if c.pub in legacy then legacy[c.pub].used else 0)
                 && e.expires == (if c.pub in legacy then legacy[c.pub].expires else "")
  {
    hide *;
    var ks, h := WithKeys(cs), TrimEnd(ConfHead(conf), '\n');
    var ls := Rendered(ks);
    SectionIsLines(cs);
    EmptySection();
    RenderedOneLiners(ks);
    SplitUnlines(AllLines(ls));
    MarkerEndsHead();
    RenderIs(conf, cs);
    RenderedLines(h, PEER_MARKER, Unlines(AllLines(ls)));
    var head := Split(h, '\n') + ["", PEER_MARKER];
    assert Split(Render(conf, cs), '\n') == head + AllLines(ls) + [""];
    QuietMarker();
    forall l | l in head
      ensures !HasPrefix(TrimSpace(l), "PublicKey")
    {
    }
    assert Clients(ls) == ks by {
      ClientsRendered(ks);
    }
    RenderedFine(ks);
    ImportInOrder(Render(conf, cs), head, ls, [""], table, legacy);
  }

  lemma RenderedFine(cs: seq<Client>)
    requires forall c :: c in cs ==> Good(c)
    ensures forall l :: l in Rendered(cs) ==> l.Fine()
  {
    hide Good;
    assert "/32"[0] == '/' && "/32"[2] == '2' && '\n' !in "/32";
  }

  lemma ClientsRendered(cs: seq<Client>)
    ensures Clients(Rendered(cs)) == cs
  {
  }

  lemma RenderIs(conf: string, cs: seq<Client>)
    ensures Render(conf, cs) == TrimEnd(ConfHead(conf), '\n') + Section(cs)
  {
  }

  lemma QuietMarker()
    ensures !HasPrefix(TrimSpace(PEER_MARKER), "PublicKey") && !HasPrefix(TrimSpace(""), "PublicKey")
    ensures TrimSpace("") == ""
  {
    var m := PEER_MARKER;
    assert m[0] == '#' && m[|m| - 1] == '>' && "PublicKey"[0] == 'P';
    TrimmedStays(m);
    TrimmedStays("");
  }
}
