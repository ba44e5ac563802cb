/** OpenVPN's status output in its two versions, and the usage per client that is read from it. */
module OvpnStatus {
  import opened Text
  import opened Numbers

  // ---- the reader ----

  function Fields(line: string): (f: seq<string>)
    ensures |f| >= 1
  {
    Split(TrimEnd(line, '\r'), ',')
  }

  function Added(m: map<string, int>, cn: string, rx: string, tx: string): map<string, int> {
    var name := TrimSpace(cn);
    if name == "" || name == "UNDEF" then
      m
    else
      var sum := Wrap64(ParseInt(TrimSpace(rx)) + ParseInt(TrimSpace(tx)));
      m[name := Wrap64((if name in m then m[name] else 0) + sum)]
  }

  predicate Ends(field: string) {
    field == "ROUTING TABLE" || field == "GLOBAL STATS" || field == "END"
  }

  /** Inside the client section of a version-1 file or not, and the usage so far. */
  datatype Scan = Scan(inV1: bool, usage: map<string, int>)

  function Step(s: Scan, f: seq<string>): Scan
    requires |f| >= 1
  {
    if |f| >= 7 && f[0] == "CLIENT_LIST" then s.(usage := Added(s.usage, f[1], f[5], f[6]))
    else if |f| >= 5 && f[0] == "Common Name" && f[2] == "Bytes Received" then s.(inV1 := true)
    else if Ends(f[0]) then s.(inV1 := false)
    else if s.inV1 && |f| >= 4 then s.(usage := Added(s.usage, f[0], f[2], f[3]))
    else s
  }

  type Row = f: seq<string> | |f| >= 1 witness [""]

  function After(s: Scan, rows: seq<Row>): Scan {
    if rows == [] then s else Step(After(s, rows[..|rows| - 1]), rows[|rows| - 1])
  }

  function RowsOf(out: string): seq<Row> {
    var lines := Split(out, '\n');
    seq(|lines|, i requires 0 <= i < |lines| => Fields(lines[i]))
  }

  /** The usage per client name being added up. */
  class Tally {
    var bytes: map<string, int>

    constructor ()
      ensures bytes == map[]
    {
      bytes := map[];
    }

    method Add(cn: string, rx: string, tx: string)
      modifies this
      ensures bytes == Added(old(bytes), cn, rx, tx)
    {
      var name := TrimSpace(cn);
      if name == "" || name == "UNDEF" {
        return;
      }
      var sum := Wrap64(ParseInt(TrimSpace(rx)) + ParseInt(TrimSpace(tx)));
      var before := if name in bytes then bytes[name] else 0;
      bytes := bytes[name := Wrap64(before + sum)];
    }
  }

  method ParseOvpnStatus(out: string) returns (m: map<string, int>)
    ensures m == After(Scan(false, map[]), RowsOf(out)).usage
  {
    var tally := new Tally();
    var inV1Clients := false;
    var lines := Split(out, '\n');
    ghost var rows := RowsOf(out);
    hide Added, Fields;
    for i := 0 to |lines|
      invariant After(Scan(false, map[]), rows[..i]) == Scan(inV1Clients, tally.bytes)
    {
      assert rows[..i + 1][..i] == rows[..i];
      var f := Fields(lines[i]);
      if |f| >= 7 && f[0] == "CLIENT_LIST" {
        tally.Add(f[1], f[5], f[6]);
      } else if |f| >= 5 && f[0] == "Common Name" && f[2] == "Bytes Received" {
        inV1Clients := true;
      } else if f[0] == "ROUTING TABLE" || f[0] == "GLOBAL STATS" || f[0] == "END" {
        inV1Clients := false;
      } else if inV1Clients && |f| >= 4 {
        tally.Add(f[0], f[2], f[3]);
      }
    }
    assert rows[..|lines|] == rows;
    return tally.bytes;
  }

  // ---- what OpenVPN writes ----

  /** rest1 and rest2: the columns behind the counters in version 1 and 2. */
  datatype Session = Session(cn: string, addr: string, virt: string, virt6: string, rx: nat, tx: nat,
                             rest1: seq<string>, rest2: seq<string>)

  datatype Route = Route(virt: string, cn: string, addr: string, ref: string)

  /** before and after: what version 2 writes around the client rows. */
  datatype Status = Status(time: string, sessions: seq<Session>, routes: seq<Route>, queue: string, before: seq<Row>,
                           after: seq<Row>)

  function V1Client(s: Session): Row {
    [s.cn, s.addr, Decimal(s.rx), Decimal(s.tx)] + s.rest1
  }

  function V2Client(s: Session): Row {
    ["CLIENT_LIST", s.cn, s.addr, s.virt, s.virt6, Decimal(s.rx), Decimal(s.tx)] + s.rest2
  }

  function V1Clients(ss: seq<Session>): seq<Row> {
    seq(|ss|, i requires 0 <= i < |ss| => V1Client(ss[i]))
  }

  function V2Clients(ss: seq<Session>): seq<Row> {
    seq(|ss|, i requires 0 <= i < |ss| => V2Client(ss[i]))
  }

  function V1Routes(rs: seq<Route>): seq<Row> {
    seq(|rs|, i requires 0 <= i < |rs| => [rs[i].virt, rs[i].cn, rs[i].addr, rs[i].ref])
  }

  function V1Head(st: Status): seq<Row> {
    [["OpenVPN CLIENT LIST"], ["Updated", st.time],
     ["Common Name", "Real Address", "Bytes Received", "Bytes Sent", "Connected Since"]]
  }

  function V1Tail(st: Status): seq<Row> {
    [["ROUTING TABLE"], ["Virtual Address", "Common Name", "Real Address", "Last Ref"]] + V1Routes(st.routes)
    + [["GLOBAL STATS"], ["Max bcast/mcast queue length", st.queue], ["END"]]
  }

  /** A row that has no effect outside the client section of version 1. */
  predicate Ignored(row: Row) {
    !(|row| >= 7 && row[0] == "CLIENT_LIST") && !(|row| >= 5 && row[0] == "Common Name" && row[2] == "Bytes Received")
  }

  predicate AllIgnored(rows: seq<Row>) {
    forall i :: 0 <= i < |rows| ==> Ignored(rows[i])
  }

  /** Title, time, header, routing and statistics rows, whatever their columns. */
  lemma UsualRowsIgnored(columns: seq<string>, name: string)
    requires name in {"TITLE", "TIME", "HEADER", "ROUTING_TABLE", "GLOBAL_STATS", "END"}
    ensures Ignored([name] + columns)
    ensures |columns| < 6 ==> Ignored(["CLIENT_LIST"] + columns)
  {
  }

  function V1(st: Status): seq<Row> { V1Head(st) + V1Clients(st.sessions) + V1Tail(st) }

  function V2(st: Status): seq<Row> { st.before + V2Clients(st.sessions) + st.after }

  function Line(row: Row, crlf: bool): string {
    Join(row, ',') + if crlf then "\r" else ""
  }

  /** The rows as text, every line ended by a newline (and by a carriage return before it, on the management socket). */
  function Document(rows: seq<Row>, crlf: bool): string {
    Join(seq(|rows|, i requires 0 <= i < |rows| => Line(rows[i], crlf)) + [""], '\n')
  }

  predicate Plain(field: string) {
    ',' !in field && '\n' !in field && '\r' !in field
  }

  predicate PlainRows(rows: seq<Row>) {
    forall i :: 0 <= i < |rows| ==> forall k :: 0 <= k < |rows[i]| ==> Plain(rows[i][k])
  }

  // ---- reading back lines ----

  lemma {:induction false} JoinedChars(row: Row, c: char, x: char)
    requires x != c && forall k :: 0 <= k < |row| ==> x !in row[k]
    ensures x !in Join(row, c)
  {
    if |row| <= 1 {
    } else {
      JoinedChars(row[1..], c, x);
    }
  }

  lemma NoTrim(s: string, c: char)
    requires c !in s
    ensures TrimEnd(s, c) == s
  {
  }

  lemma LineFields(row: Row, crlf: bool)
    requires forall k :: 0 <= k < |row| ==> Plain(row[k])
    ensures Fields(Line(row, crlf)) == row && '\n' !in Line(row, crlf)
  {
    hide Split, TrimEnd, Join;
    JoinedChars(row, ',', '\r');
    JoinedChars(row, ',', '\n');
    NoTrim(Join(row, ','), '\r');
    TrimEndOne(Join(row, ','), '\r');
    SplitJoin(row, ',');
    assert Join(row, ',') + "" == Join(row, ',');
  }

  lemma DocumentRows(rows: seq<Row>, crlf: bool)
    requires PlainRows(rows)
    ensures RowsOf(Document(rows, crlf)) == rows + [[""]]
  {
    hide Split, TrimEnd, Join, Line, Fields;
    var lines := seq(|rows|, i requires 0 <= i < |rows| => Line(rows[i], crlf)) + [""];
    forall i | 0 <= i < |rows|
      ensures Fields(lines[i]) == rows[i] && '\n' !in lines[i]
    {
      LineFields(rows[i], crlf);
    }
    SplitJoin(lines, '\n');
    EmptyLine();
  }

  lemma EmptyLine()
    ensures Fields("") == [""]
  {
  }

  lemma {:induction false} AfterBoth(s: Scan, a: seq<Row>, b: seq<Row>)
    ensures After(s, a + b) == After(After(s, a), b)
  {
    hide Step;
    if b == [] {
      assert a + b == a;
    } else {
      AfterBoth(s, a, b[..|b| - 1]);
      assert (a + b)[..|a + b| - 1] == a + b[..|b| - 1];
    }
  }

  // ---- what the usage should be ----

  /** A counter beyond the signed 64-bit numbers is read as the largest of them. */
  function Counted(n: nat): int {
    if n < 0x8000_0000_0000_0000 then n else 0x7FFF_FFFF_FFFF_FFFF
  }

  function Bytes(s: Session): int {
    Counted(s.rx) + Counted(s.tx)
  }

  /** Everything received and sent by the sessions under this name. */
  function SumOf(ss: seq<Session>, name: string): int {
    if ss == [] then 0
    else
      var s := ss[|ss| - 1];
      SumOf(ss[..|ss| - 1], name) + if TrimSpace(s.cn) == name then Bytes(s) else 0
  }

  function Names(ss: seq<Session>): (r: set<string>)
    ensures "" !in r && "UNDEF" !in r
  {
    set s | s in ss && TrimSpace(s.cn) != "" && TrimSpace(s.cn) != "UNDEF" :: TrimSpace(s.cn)
  }

  /** One entry per authenticated client name, the sum over its sessions (as 64-bit arithmetic has it). */
  function Totals(ss: seq<Session>): map<string, int> {
    map name | name in Names(ss) :: Wrap64(SumOf(ss, name))
  }

  lemma {:induction false} NoSessions(ss: seq<Session>, name: string)
    requires name != "" && name != "UNDEF" && name !in Names(ss)
    ensures SumOf(ss, name) == 0
  {
    hide TrimSpace;
    if ss == [] {
    } else {
      var init := ss[..|ss| - 1];
      assert Names(init) <= Names(ss);
      assert ss[|ss| - 1] in ss;
      NoSessions(init, name);
    }
  }

  lemma OneMoreSum(ss: seq<Session>, s: Session, name: string)
    ensures SumOf(ss + [s], name) == SumOf(ss, name) + if TrimSpace(s.cn) == name then Bytes(s) else 0
  {
    hide TrimSpace, Bytes;
    assert (ss + [s])[..|ss|] == ss;
  }

  lemma OneMoreName(ss: seq<Session>, s: Session)
    ensures Names(ss + [s]) ==
            Names(ss) + if TrimSpace(s.cn) != "" && TrimSpace(s.cn) != "UNDEF" then {TrimSpace(s.cn)} else {}
  {
    hide TrimSpace;
  }

  lemma OneMoreSession(ss: seq<Session>, s: Session)
    ensures Added(Totals(ss), s.cn, Decimal(s.rx), Decimal(s.tx)) == Totals(ss + [s])
  {
    hide Wrap64, TrimSpace, ParseInt, Decimal, Min, SumOf, Names;
    var name := TrimSpace(s.cn);
    IntRoundTrip(s.rx);
    IntRoundTrip(s.tx);
    DecimalTrimmed(s.rx);
    DecimalTrimmed(s.tx);
    OneMoreName(ss, s);
    var added, all := Added(Totals(ss), s.cn, Decimal(s.rx), Decimal(s.tx)), Totals(ss + [s]);
    assert added.Keys == all.Keys;
    forall n | n in all
      ensures added[n] == all[n]
    {
      OneMoreSum(ss, s, n);
      if n == name {
        WrapTwice(SumOf(ss, n), Bytes(s));
        if n !in Names(ss) {
          NoSessions(ss, n);
          WrapZero();
        }
      }
    }
  }

  lemma WrapZero()
    ensures Wrap64(0) == 0
  {
  }

  lemma DecimalTrimmed(n: nat)
    ensures TrimSpace(Decimal(n)) == Decimal(n) && Plain(Decimal(n)) && Decimal(n) != "Bytes Received"
  {
    hide TrimSpace;
    TrimmedStays(Decimal(n));
  }

  // ---- the sections ----

  lemma {:induction false} V2Section(ss: seq<Session>)
    ensures After(Scan(false, map[]), V2Clients(ss)) == Scan(false, Totals(ss))
  {
    hide Added, Decimal, SumOf, Names;
    if ss == [] {
      NoTotals();
    } else {
      var init, s := ss[..|ss| - 1], ss[|ss| - 1];
      V2Section(init);
      OneMoreSession(init, s);
      assert V2Clients(ss)[..|ss| - 1] == V2Clients(init);
      assert init + [s] == ss;
    }
  }

  lemma NoTotals()
    ensures Totals([]) == map[]
  {
  }

  predicate Clean(ss: seq<Session>) {
    forall s :: s in ss ==> s.cn != "ROUTING TABLE" && s.cn != "GLOBAL STATS" && s.cn != "END"
  }

  /** The sessions before the first one whose client name reads like the end of the section. */
  function Kept(ss: seq<Session>): (r: seq<Session>)
    ensures Clean(r) && forall s :: s in r ==> s in ss
    ensures Clean(ss) <==> r == ss
  {
    if Clean(ss) then ss else Kept(ss[..|ss| - 1])
  }

  lemma {:induction false} V1Section(ss: seq<Session>)
    requires forall s :: s in ss ==> |s.rest1| <= 2
    ensures After(Scan(true, map[]), V1Clients(ss)) == Scan(Clean(ss), Totals(Kept(ss)))
  {
    hide Added, Decimal, SumOf, Names, Totals, Step, Clean, Kept, Ends, V1Client;
    if ss == [] {
      NoTotals();
      KeptMore([]);
    } else {
      var init, s := ss[..|ss| - 1], ss[|ss| - 1];
      V1Section(init);
      KeptMore(ss);
      V1Step(Scan(Clean(init), Totals(Kept(init))), s);
      OneMoreSession(init, s);
      assert V1Clients(ss)[..|ss| - 1] == V1Clients(init);
      assert init + [s] == ss;
    }
  }

  /** One client row. */
  lemma V1Step(c: Scan, s: Session)
    requires |s.rest1| <= 2
    ensures Step(c, V1Client(s)) ==
            if c.inV1 && !Ends(s.cn) then c.(usage := Added(c.usage, s.cn, Decimal(s.rx), Decimal(s.tx)))
            else c.(inV1 := false)
  {
    hide Added, Decimal;
    DecimalTrimmed(s.rx);
  }

  lemma KeptMore(ss: seq<Session>)
    ensures ss == [] ==> Clean(ss) && Kept(ss) == []
    ensures ss != [] ==>
              var init, s := ss[..|ss| - 1], ss[|ss| - 1];
              && (Clean(ss) <==> Clean(init) && !Ends(s.cn))
              && Kept(ss) == (if Clean(ss) then ss else Kept(init))
              && (Clean(init) ==> Kept(init) == init)
  {
    if ss != [] {
      assert ss == ss[..|ss| - 1] + [ss[|ss| - 1]];
    }
  }

  /** Outside the client section nothing but a client row or the section's header has an effect. */
  lemma {:induction false} QuietRows(m: map<string, int>, rows: seq<Row>)
    requires AllIgnored(rows)
    ensures After(Scan(false, m), rows) == Scan(false, m)
  {
    if rows == [] {
    } else {
      QuietRows(m, rows[..|rows| - 1]);
    }
  }

  lemma V1HeadOpens(st: Status)
    ensures After(Scan(false, map[]), V1Head(st)) == Scan(true, map[])
  {
    var rows := V1Head(st);
    QuietRows(map[], rows[..2]);
    assert rows[..3] == rows && rows[..3][..2] == rows[..2];
  }

  lemma V1TailCloses(st: Status, inV1: bool, m: map<string, int>)
    ensures After(Scan(inV1, m), V1Tail(st) + [[""]]) == Scan(false, m)
  {
    var rows := V1Tail(st) + [[""]];
    var first: seq<Row> := [["ROUTING TABLE"]];
    assert rows == first + rows[1..];
    AfterBoth(Scan(inV1, m), first, rows[1..]);
    assert first[..0] == [];
    QuietRows(m, rows[1..]);
  }

  // ---- the theorems ----

  predicate PlainStatus(st: Status) {
    && PlainRows(V1(st)) && PlainRows(V2(st)) && AllIgnored(st.before) && AllIgnored(st.after)
    && forall s :: s in st.sessions ==> |s.rest1| <= 2
  }

  function Usage(out: string): map<string, int> {
    After(Scan(false, map[]), RowsOf(out)).usage
  }

  /** Version 2 gives every authenticated client the sum of its sessions. */
  lemma Version2Usage(st: Status, crlf: bool)
    requires PlainStatus(st)
    ensures Usage(Document(V2(st), crlf)) == Totals(st.sessions)
  {
    hide Totals, RowsOf, Document, Step, PlainRows;
    var start := Scan(false, map[]);
    DocumentRows(V2(st), crlf);
    var tail: seq<Row> := st.after + [[""]];
    assert V2(st) + [[""]] == st.before + (V2Clients(st.sessions) + tail);
    AfterBoth(start, st.before, V2Clients(st.sessions) + tail);
    AfterBoth(start, V2Clients(st.sessions), tail);
    QuietRows(map[], st.before);
    V2Section(st.sessions);
    QuietRows(Totals(st.sessions), tail);
  }

  /** Version 1 does so for the sessions before the first client named like an end of section. */
  lemma Version1Usage(st: Status, crlf: bool)
    requires PlainStatus(st)
    ensures Usage(Document(V1(st), crlf)) == Totals(Kept(st.sessions))
  {
    hide Totals, RowsOf, Document, Step, PlainRows, Kept, Clean;
    var start := Scan(false, map[]);
    DocumentRows(V1(st), crlf);
    var tail: seq<Row> := V1Tail(st) + [[""]];
    assert V1(st) + [[""]] == V1Head(st) + (V1Clients(st.sessions) + tail);
    AfterBoth(start, V1Head(st), V1Clients(st.sessions) + tail);
    AfterBoth(Scan(true, map[]), V1Clients(st.sessions), tail);
    V1HeadOpens(st);
    V1Section(st.sessions);
    V1TailCloses(st, Clean(st.sessions), Totals(Kept(st.sessions)));
  }

  lemma EndsIsNamed(cn: string)
    requires Ends(cn)
    ensures cn != "" && cn != "UNDEF"
    ensures forall ss: seq<Session>, s :: Clean(ss) && s in ss ==> s.cn != cn
  {
    assert |"UNDEF"| == 5 && "UNDEF"[0] == 'U';
    assert |"ROUTING TABLE"| == 13 && |"GLOBAL STATS"| == 12 && |"END"| == 3;
  }

  /** The two versions agree exactly when no client is named like an end of section. */
  lemma VersionsAgreeExactly(st: Status, crlf1: bool, crlf2: bool)
    requires PlainStatus(st) && forall s :: s in st.sessions ==> Trimmed(s.cn)
    ensures Usage(Document(V1(st), crlf1)) == Usage(Document(V2(st), crlf2)) <==>
            forall s :: s in st.sessions ==> s.cn != "ROUTING TABLE" && s.cn != "GLOBAL STATS" && s.cn != "END"
  {
    hide Usage, Document, PlainStatus, Kept, SumOf, Wrap64;
    Version1Usage(st, crlf1);
    Version2Usage(st, crlf2);
    if !Clean(st.sessions) {
      var s :| s in st.sessions && Ends(s.cn);
      TrimmedStays(s.cn);
      EndsIsNamed(s.cn);
      assert s.cn in Totals(st.sessions);
      forall t | t in Kept(st.sessions)
        ensures TrimSpace(t.cn) != s.cn
      {
        TrimmedStays(t.cn);
      }
      assert s.cn !in Totals(Kept(st.sessions));
    }
  }
}
