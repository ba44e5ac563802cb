/**
 * Mirroring live iptables rules from an old address pool to the wider pool that contains it:
 * the commands computed from a listing, their execution on the kernel's rule lists, and the
 * list transformation they amount to.
 */
module Firewall {
  import opened Text
  import opened Tokenizer

  type Token = string
  type Rule = seq<Token>

  // ---- one rule ----

  /** The copy of a rule for the wider pool. */
  function Subst(r: Rule, o: Token, n: Token): (s: Rule)
    ensures |s| == |r|
  {
    seq(|r|, i requires 0 <= i < |r| => if r[i] == o then n else r[i])
  }

  /** The old pool stands right behind "! <flag>". */
  predicate Negated(r: Rule, o: Token, n: Token) {
    exists k :: 2 <= k < |r| && r[k] == o && Subst(r, o, n)[k - 2] == "!"
  }

  predicate Eligible(r: Rule, o: Token, n: Token) {
    o in r && !Negated(r, o, n)
  }

  method ScanRule(toks: Rule, o: Token, n: Token) returns (rule: Rule, hit: bool, negated: bool)
    ensures rule == Subst(toks, o, n)
    ensures hit <==> o in toks
    ensures negated <==> Negated(toks, o, n)
  {
    hit, negated, rule := false, false, [];
    for i := 0 to |toks|
      invariant rule == Subst(toks, o, n)[..i]
      invariant hit <==> o in toks[..i]
      invariant negated <==> exists k :: 2 <= k < i && toks[k] == o && Subst(toks, o, n)[k - 2] == "!"
    {
      var t := toks[i];
      if t == o {
        t, hit := n, true;
        if |rule| >= 2 && rule[|rule| - 2] == "!" {
          negated := true;
        }
      }
      rule := rule + [t];
    }
  }

  // ---- from a listing to commands ----

  /** Check for the rule in the chain; when it is missing, insert it at a (1-based) position. */
  datatype Cmd = Cmd(chain: Token, pos: nat, rule: Rule)

  predicate IsRuleLine(t: seq<Token>) {
    |t| >= 2 && t[0] == "-A"
  }

  /** The rules of chain c, in listing order. */
  function RulesOf(lines: seq<seq<Token>>, c: Token): seq<Rule> {
    if lines == [] then
      []
    else
      var last := lines[|lines| - 1];
      RulesOf(lines[..|lines| - 1], c) + if IsRuleLine(last) && last[1] == c then [last[2..]] else []
  }

  lemma RulesOfNone(lines: seq<seq<Token>>)
    ensures forall c :: RulesOf(lines[..0], c) == []
  {
  }

  lemma RulesOfStep(lines: seq<seq<Token>>, i: nat)
    requires i < |lines|
    ensures forall c :: RulesOf(lines[..i + 1], c) ==
                        RulesOf(lines[..i], c)
                        + if IsRuleLine(lines[i]) && lines[i][1] == c then [lines[i][2..]] else []
  {
    assert lines[..i + 1][..i] == lines[..i];
  }

  /** The command for line i: a copy, at the place its rule has in its chain. */
  function CmdAt(lines: seq<seq<Token>>, i: nat, o: Token, n: Token): seq<Cmd>
    requires i < |lines|
  {
    var t := lines[i];
    if IsRuleLine(t) && Eligible(t[2..], o, n) then
      [Cmd(t[1], |RulesOf(lines[..i], t[1])| + 1, Subst(t[2..], o, n))]
    else
      []
  }

  function CmdsFrom(lines: seq<seq<Token>>, i: nat, o: Token, n: Token): seq<Cmd>
    requires i <= |lines|
    decreases |lines| - i
  {
    if i == |lines| then [] else CmdAt(lines, i, o, n) + CmdsFrom(lines, i + 1, o, n)
  }

  function Reverse<T>(s: seq<T>): (r: seq<T>)
    ensures |r| == |s|
  {
    seq(|s|, i requires 0 <= i < |s| => s[|s| - 1 - i])
  }

  /** The listing as token lines. */
  function TokenLines(saveOut: string): (r: seq<seq<Token>>) {
    var lines := Split(saveOut, '\n');
    seq(|lines|, i requires 0 <= i < |lines| => Lex(TrimSpace(lines[i]), false, false, ""))
  }

  /** Lines left for the operator: the old pool is excluded there, so a copy would not help. */
  function ManualFrom(table: string, lines: seq<string>, o: Token, n: Token): seq<string> {
    if lines == [] then
      []
    else
      var t := Lex(TrimSpace(lines[0]), false, false, "");
      (if IsRuleLine(t) && Negated(t[2..], o, n) then ["-t " + table + " " + TrimSpace(lines[0])] else [])
        + ManualFrom(table, lines[1..], o, n)
  }

  method WidenRuleArgs(table: string, saveOut: string, o: Token, n: Token) returns (cmds: seq<Cmd>, manual: seq<string>)
    ensures cmds == Reverse(CmdsFrom(TokenLines(saveOut), 0, o, n))
    ensures manual == ManualFrom(table, Split(saveOut, '\n'), o, n)
  {
    hide Split, Lex, TrimSpace, Negated, Subst, RulesOf, CmdsFrom, CmdAt, ManualFrom, Eligible, TokenLines;
    var pos: map<Token, nat> := map[];
    var lines := Split(saveOut, '\n');
    ghost var all := TokenLines(saveOut);
    cmds, manual := [], [];
    RulesOfNone(all);
    ListingEnd(saveOut, table, o, n);
    for i := 0 to |lines|
      invariant forall c :: |RulesOf(all[..i], c)| == if c in pos then pos[c] else 0
      invariant cmds + CmdsFrom(all, i, o, n) == CmdsFrom(all, 0, o, n)
      invariant manual + ManualFrom(table, lines[i..], o, n) == ManualFrom(table, lines, o, n)
    {
      var toks := SplitRule(TrimSpace(lines[i]));
      RulesOfStep(all, i);
      ListingStep(saveOut, table, i, o, n);
      if |toks| < 2 || toks[0] != "-A" {
        continue;
      }
      var chain := toks[1];
      pos := pos[chain := (if chain in pos then pos[chain] else 0) + 1];
      var rule, hit, negated := ScanRule(toks[2..], o, n);
      if !hit {
        continue;
      }
      if negated {
        manual := manual + ["-t " + table + " " + TrimSpace(lines[i])];
        continue;
      }
      cmds := cmds + [Cmd(chain, pos[chain], rule)];
    }
    assert cmds + [] == cmds && manual + [] == manual;
    cmds := ReverseInPlace(cmds);
  }

  lemma ListingEnd(saveOut: string, table: string, o: Token, n: Token)
    ensures var lines, all := Split(saveOut, '\n'), TokenLines(saveOut);
            && |all| == |lines| && lines[0..] == lines
            && CmdsFrom(all, |all|, o, n) == [] && ManualFrom(table, lines[|lines|..], o, n) == []
  {
  }

  lemma ListingStep(saveOut: string, table: string, i: nat, o: Token, n: Token)
    requires i < |Split(saveOut, '\n')|
    ensures var lines, all := Split(saveOut, '\n'), TokenLines(saveOut);
            && |all| == |lines|
            && var t := Lex(TrimSpace(lines[i]), false, false, "");
            && t == all[i]
            && CmdsFrom(all, i, o, n) == (if IsRuleLine(t) && o in t[2..] && !Negated(t[2..], o, n) then
                                            [Cmd(t[1], |RulesOf(all[..i], t[1])| + 1, Subst(t[2..], o, n))] else [])
                                         + CmdsFrom(all, i + 1, o, n)
            && ManualFrom(table, lines[i..], o, n) ==
               (if IsRuleLine(t) && Negated(t[2..], o, n) then ["-t " + table + " " + TrimSpace(lines[i])] else [])
               + ManualFrom(table, lines[i + 1..], o, n)
            && (IsRuleLine(t) && Negated(t[2..], o, n) ==> o in t[2..])
  {
    hide Split, Lex, TrimSpace, Subst, RulesOf;
    var lines := Split(saveOut, '\n');
    assert lines[i..][1..] == lines[i + 1..];
  }

  method ReverseInPlace(s: seq<Cmd>) returns (cmds: seq<Cmd>)
    ensures cmds == Reverse(s)
  {
    cmds := s;
    var i, j := 0, |cmds| - 1;
    while i < j
      invariant 0 <= i <= j + 1 && j == |s| - 1 - i && |cmds| == |s|
      invariant forall k :: 0 <= k < i ==> cmds[k] == s[|s| - 1 - k]
      invariant forall k :: i <= k <= j ==> cmds[k] == s[k]
      invariant forall k :: j < k < |s| ==> cmds[k] == s[|s| - 1 - k]
    {
      cmds := cmds[i := cmds[j]][j := cmds[i]];
      i, j := i + 1, j - 1;
    }
  }

  // ---- running the commands ----

  /** The rule lists of one table. */
  type Chains = map<Token, seq<Rule>>

  function Chain(ch: Chains, c: Token): seq<Rule> {
    if c in ch then ch[c] else []
  }

  predicate Fits(ch: Chains, cmd: Cmd) {
    cmd.chain in ch && 1 <= cmd.pos <= |ch[cmd.chain]| + 1
  }

  /** Check, then insert; an insert at an impossible place is refused and changes nothing. */
  function RunCmd(ch: Chains, cmd: Cmd): Chains {
    if cmd.rule in Chain(ch, cmd.chain) || !Fits(ch, cmd) then
      ch
    else
      var l := ch[cmd.chain];
      ch[cmd.chain := l[..cmd.pos - 1] + [cmd.rule] + l[cmd.pos - 1..]]
  }

  lemma RunCmdCases(ch: Chains, cmd: Cmd)
    ensures cmd.rule in Chain(ch, cmd.chain) || !Fits(ch, cmd) ==> RunCmd(ch, cmd) == ch
    ensures cmd.rule !in Chain(ch, cmd.chain) && Fits(ch, cmd) ==>
              var l := ch[cmd.chain];
              RunCmd(ch, cmd) == ch[cmd.chain := l[..cmd.pos - 1] + [cmd.rule] + l[cmd.pos - 1..]]
  {
  }

  function RunAll(ch: Chains, cmds: seq<Cmd>): Chains {
    if cmds == [] then ch else RunAll(RunCmd(ch, cmds[0]), cmds[1..])
  }

  /** The listing shows exactly the rules the kernel holds, chain by chain. */
  ghost predicate Lists(saveOut: string, ch: Chains) {
    forall c :: RulesOf(TokenLines(saveOut), c) == Chain(ch, c)
  }

  /** The kernel's tables, edited in place one command at a time. */
  class Kernel {
    var tables: map<string, Chains>

    constructor (tables: map<string, Chains>)
      ensures this.tables == tables
    {
      this.tables := tables;
    }

    method Check(table: string, cmd: Cmd) returns (present: bool)
      ensures present <==> table in tables && cmd.rule in Chain(tables[table], cmd.chain)
    {
      present := table in tables && cmd.chain in tables[table] && cmd.rule in tables[table][cmd.chain];
    }

    method Insert(table: string, cmd: Cmd) returns (ok: bool)
      modifies this
      ensures ok <==> table in old(tables) && Fits(old(tables)[table], cmd)
      ensures !ok ==> tables == old(tables)
      ensures ok ==> tables == old(tables)[table := old(tables)[table][cmd.chain :=
                       old(tables)[table][cmd.chain][..cmd.pos - 1] + [cmd.rule]
                       + old(tables)[table][cmd.chain][cmd.pos - 1..]]]
    {
      ok := table in tables && Fits(tables[table], cmd);
      if ok {
        var l := tables[table][cmd.chain];
        tables := tables[table := tables[table][cmd.chain := l[..cmd.pos - 1] + [cmd.rule] + l[cmd.pos - 1..]]];
      }
    }

    /** One table: list, compute, then check-and-insert command by command. */
    method WidenTable(table: string, saveOut: string, o: Token, n: Token) returns (manual: seq<string>)
      requires table in tables
      modifies this
      ensures tables ==
              old(tables)[table := RunAll(old(tables)[table], Reverse(CmdsFrom(TokenLines(saveOut), 0, o, n)))]
      ensures manual == ManualFrom(table, Split(saveOut, '\n'), o, n)
    {
      hide RunCmd, CmdsFrom, TokenLines, Split, ManualFrom, Reverse;
      var cmds;
      cmds, manual := WidenRuleArgs(table, saveOut, o, n);
      for i := 0 to |cmds|
        invariant tables.Keys == old(tables).Keys
        invariant RunAll(tables[table], cmds[i..]) == RunAll(old(tables)[table], cmds)
        invariant forall t :: t in tables && t != table ==> tables[t] == old(tables)[t]
      {
        assert cmds[i..][0] == cmds[i] && cmds[i..][1..] == cmds[i + 1..];
        RunCmdCases(tables[table], cmds[i]);
        var present := Check(table, cmds[i]);
        if present {
          continue;
        }
        var ok := Insert(table, cmds[i]);
      }
    }

    /**
     * The filter, nat and mangle tables, each through its own listing; one that cannot be listed, and any other
     * table, is left alone. The lines left to the operator are the rules there that exclude the old pool.
     */
    method WidenFirewall(saves: map<string, string>, o: Token, n: Token) returns (manual: seq<string>)
      modifies this
      ensures tables == WidenTables(TABLES, old(tables), saves, o, n)
      ensures tables.Keys == old(tables).Keys
      ensures forall t :: t in tables ==>
                if t in {"filter", "nat", "mangle"} && t in saves then
                  Lists(saves[t], old(tables)[t]) ==>
                    && tables[t].Keys == old(tables)[t].Keys
                    && forall c :: Chain(tables[t], c) == Mirror(Chain(old(tables)[t], c), o, n)
                else
                  tables[t] == old(tables)[t]
      ensures manual == ManualOf(TABLES, saves, old(tables).Keys, o, n)
      ensures o != "!" && n != "!" ==> forall l :: l in manual <==>
                exists t :: t in {"filter", "nat", "mangle"} && t in saves && t in tables && LeftOver(t, saves[t], l, o)
    {
      hide RunAll, CmdsFrom, TokenLines, Split, ManualFrom, Reverse;
      manual := [];
      for i := 0 to |TABLES|
        invariant tables == WidenTables(TABLES[..i], old(tables), saves, o, n)
        invariant manual == ManualOf(TABLES[..i], saves, old(tables).Keys, o, n)
      {
        var t := TABLES[i];
        assert TABLES[..i + 1][..i] == TABLES[..i];
        if t in saves && t in tables {
          var m := WidenTable(t, saves[t], o, n);
          manual := manual + m;
        }
      }
      assert TABLES[..|TABLES|] == TABLES;
      forall t | t in tables && (t in saves ==> Lists(saves[t], old(tables)[t]))
        ensures if t in {"filter", "nat", "mangle"} && t in saves
                then && tables[t].Keys == old(tables)[t].Keys
                     && forall c :: Chain(tables[t], c) == Mirror(Chain(old(tables)[t], c), o, n)
                else tables[t] == old(tables)[t]
      {
        FirewallMirrorsTables(old(tables), saves, o, n, t);
      }
      forall t | t in tables && !(t in {"filter", "nat", "mangle"} && t in saves)
        ensures tables[t] == old(tables)[t]
      {
        OtherTablesStay(old(tables), saves, o, n, t);
      }
      if o != "!" && n != "!" {
        ManualMeaning(saves, old(tables).Keys, o, n);
      }
    }
  }

  /** The tables ts, one after the other, each through its own listing. */
  function WidenTables(ts: seq<string>, tables: map<string, Chains>, saves: map<string, string>, o: Token, n: Token):
      (r: map<string, Chains>)
    ensures r.Keys == tables.Keys
  {
    if ts == [] then
      tables
    else
      var t := ts[|ts| - 1];
      var before := WidenTables(ts[..|ts| - 1], tables, saves, o, n);
      if t in saves && t in before then
        before[t := RunAll(before[t], Reverse(CmdsFrom(TokenLines(saves[t]), 0, o, n)))]
      else
        before
  }

  lemma {:induction false} EachTableOnce(ts: seq<string>, tables: map<string, Chains>, saves: map<string, string>,
                                         o: Token, n: Token, t: string)
    requires t in tables && forall i, j :: 0 <= i < j < |ts| ==> ts[i] != ts[j]
    ensures WidenTables(ts, tables, saves, o, n)[t] ==
            if t in ts && t in saves then RunAll(tables[t], Reverse(CmdsFrom(TokenLines(saves[t]), 0, o, n)))
              else tables[t]
  {
    if ts == [] {
    } else {
      assert ts == ts[..|ts| - 1] + [ts[|ts| - 1]];
      EachTableOnce(ts[..|ts| - 1], tables, saves, o, n, t);
    }
  }

  /** After the firewall run every listed table holds the mirrored chains, and nothing else has changed. */
  lemma FirewallMirrorsTables(tables: map<string, Chains>, saves: map<string, string>, o: Token, n: Token, t: string)
    requires t in tables && (t in saves ==> Lists(saves[t], tables[t]))
    ensures var after := WidenTables(TABLES, tables, saves, o, n)[t];
            if t in {"filter", "nat", "mangle"} && t in saves
            then after.Keys == tables[t].Keys && forall c :: Chain(after, c) == Mirror(Chain(tables[t], c), o, n)
            else after == tables[t]
  {
    EachTableOnce(TABLES, tables, saves, o, n, t);
    if t in saves {
      CommandsMirrorEveryChain(tables[t], saves[t], o, n);
    }
  }

  /** The lines left to the operator, over the tables that can be listed. */
  function ManualOf(ts: seq<string>, saves: map<string, string>, known: set<string>, o: Token, n: Token): seq<string> {
    if ts == [] then
      []
    else
      var t := ts[|ts| - 1];
      ManualOf(ts[..|ts| - 1], saves, known, o, n)
        + if t in saves && t in known then ManualFrom(t, Split(saves[t], '\n'), o, n) else []
  }

  const TABLES: seq<string> := ["filter", "nat", "mangle"]

  lemma OtherTablesStay(tables: map<string, Chains>, saves: map<string, string>, o: Token, n: Token, t: string)
    requires t in tables && !(t in {"filter", "nat", "mangle"} && t in saves)
    ensures WidenTables(TABLES, tables, saves, o, n)[t] == tables[t]
  {
    EachTableOnce(TABLES, tables, saves, o, n, t);
  }

  /** A line of the listing for the operator: a rule in which the old pool stands right behind "! -s" or the like. */
  predicate LeftOver(table: string, saveOut: string, l: string, o: Token) {
    exists line :: line in Split(saveOut, '\n') && l == "-t " + table + " " + TrimSpace(line) &&
      var t := Lex(TrimSpace(line), false, false, "");
      |t| >= 2 && t[0] == "-A" && exists k :: 4 <= k < |t| && t[k] == o && t[k - 2] == "!"
  }

  lemma NegatedMeaning(t: seq<Token>, o: Token, n: Token)
    requires o != "!" && n != "!" && |t| >= 2
    ensures Negated(t[2..], o, n) <==> exists k :: 4 <= k < |t| && t[k] == o && t[k - 2] == "!"
  {
    var r := t[2..];
    if k :| 4 <= k < |t| && t[k] == o && t[k - 2] == "!" {
      assert r[k - 2] == o && Subst(r, o, n)[k - 4] == "!";
    }
    if k :| 2 <= k < |r| && r[k] == o && Subst(r, o, n)[k - 2] == "!" {
      assert t[k + 2] == o && t[k] == "!";
    }
  }

  lemma {:induction false} ManualLines(table: string, lines: seq<string>, o: Token, n: Token, l: string)
    ensures l in ManualFrom(table, lines, o, n) <==>
            exists line :: line in lines && l == "-t " + table + " " + TrimSpace(line) &&
              var t := Lex(TrimSpace(line), false, false, ""); IsRuleLine(t) && Negated(t[2..], o, n)
  {
    hide Lex, TrimSpace, Negated;
    if lines == [] {
    } else {
      ManualLines(table, lines[1..], o, n, l);
      assert lines == [lines[0]] + lines[1..];
    }
  }

  lemma {:induction false} ManualTables(ts: seq<string>, saves: map<string, string>, known: set<string>, o: Token,
                                        n: Token, l: string)
    requires o != "!" && n != "!"
    ensures l in ManualOf(ts, saves, known, o, n) <==>
            exists t :: t in ts && t in saves && t in known && LeftOver(t, saves[t], l, o)
  {
    hide Lex, TrimSpace, Split, ManualFrom;
    if ts == [] {
    } else {
      var t := ts[|ts| - 1];
      ManualTables(ts[..|ts| - 1], saves, known, o, n, l);
      assert ts == ts[..|ts| - 1] + [t];
      if t in saves {
        LeftOverLines(t, saves[t], o, n, l);
      }
    }
  }

  lemma LeftOverLines(table: string, saveOut: string, o: Token, n: Token, l: string)
    requires o != "!" && n != "!"
    ensures l in ManualFrom(table, Split(saveOut, '\n'), o, n) <==> LeftOver(table, saveOut, l, o)
  {
    hide Lex, TrimSpace, Split, ManualFrom, Negated;
    ManualLines(table, Split(saveOut, '\n'), o, n, l);
    forall t: seq<Token> | |t| >= 2
      ensures Negated(t[2..], o, n) <==> exists k :: 4 <= k < |t| && t[k] == o && t[k - 2] == "!"
    {
      NegatedMeaning(t, o, n);
    }
  }

  lemma ManualMeaning(saves: map<string, string>, known: set<string>, o: Token, n: Token)
    requires o != "!" && n != "!"
    ensures forall l :: l in ManualOf(TABLES, saves, known, o, n) <==>
              exists t :: t in {"filter", "nat", "mangle"} && t in saves && t in known && LeftOver(t, saves[t], l, o)
  {
    hide ManualOf, LeftOver;
    forall l
      ensures l in ManualOf(TABLES, saves, known, o, n) <==>
              exists t :: t in {"filter", "nat", "mangle"} && t in saves && t in known && LeftOver(t, saves[t], l, o)
    {
      ManualTables(TABLES, saves, known, o, n, l);
    }
  }

  // ---- what the commands amount to ----

  /** The chain after handling its rules from the last one back to number k. */
  function MirrorFrom(rs: seq<Rule>, k: nat, o: Token, n: Token): (out: seq<Rule>)
    requires k <= |rs|
    ensures |out| >= |rs| && out[..k] == rs[..k]
    decreases |rs| - k
  {
    if k == |rs| then
      rs
    else
      var cur := MirrorFrom(rs, k + 1, o, n);
      if Eligible(rs[k], o, n) && Subst(rs[k], o, n) !in cur then
        cur[..k] + [Subst(rs[k], o, n)] + cur[k..]
      else
        cur
  }

  function Mirror(rs: seq<Rule>, o: Token, n: Token): seq<Rule> {
    MirrorFrom(rs, 0, o, n)
  }

  lemma {:induction false} RunAllAppend(ch: Chains, a: seq<Cmd>, b: seq<Cmd>)
    ensures RunAll(ch, a + b) == RunAll(RunAll(ch, a), b)
  {
    if a == [] {
      assert a + b == b;
    } else {
      assert (a + b)[1..] == a[1..] + b;
      RunAllAppend(RunCmd(ch, a[0]), a[1..], b);
    }
  }

  lemma {:induction false} RulesOfPrefix(lines: seq<seq<Token>>, i: nat, c: Token)
    requires i <= |lines|
    ensures RulesOf(lines[..i], c) <= RulesOf(lines, c)
    decreases |lines|
  {
    if i < |lines| {
      RulesOfPrefix(lines[..|lines| - 1], i, c);
      assert lines[..|lines| - 1][..i] == lines[..i];
    } else {
      assert lines[..i] == lines;
    }
  }

  /** The state after the commands of lines i, i+1, ..., executed last first. */
  function RunFrom(ch: Chains, lines: seq<seq<Token>>, i: nat, o: Token, n: Token): Chains
    requires i <= |lines|
  {
    RunAll(ch, Reverse(CmdsFrom(lines, i, o, n)))
  }

  lemma RunFromStep(ch: Chains, lines: seq<seq<Token>>, i: nat, o: Token, n: Token)
    requires i < |lines|
    ensures RunFrom(ch, lines, i, o, n) == RunAll(RunFrom(ch, lines, i + 1, o, n), CmdAt(lines, i, o, n))
  {
    var a, b := CmdAt(lines, i, o, n), CmdsFrom(lines, i + 1, o, n);
    assert Reverse(a + b) == Reverse(b) + a;
    RunAllAppend(ch, Reverse(b), a);
  }

  lemma RunFromEnd(ch: Chains, lines: seq<seq<Token>>, o: Token, n: Token)
    ensures RunFrom(ch, lines, |lines|, o, n) == ch
  {
  }

  lemma MirrorEnds(ch: Chains, o: Token, n: Token)
    ensures forall c :: MirrorFrom(Chain(ch, c), |Chain(ch, c)|, o, n) == Chain(ch, c)
  {
  }

  /** Precomputed positions stay right: later lines are handled first, and other chains do not matter. */
  lemma {:induction false} RunFromIsMirror(ch: Chains, lines: seq<seq<Token>>, i: nat, o: Token, n: Token)
    requires i <= |lines| && forall c :: RulesOf(lines, c) == Chain(ch, c)
    ensures RunFrom(ch, lines, i, o, n).Keys == ch.Keys
    ensures forall c :: |RulesOf(lines[..i], c)| <= |Chain(ch, c)| &&
                        Chain(RunFrom(ch, lines, i, o, n), c) ==
                          MirrorFrom(Chain(ch, c), |RulesOf(lines[..i], c)|, o, n)
    decreases |lines| - i
  {
    hide RulesOf, Subst, Eligible, MirrorFrom, RunAll, RunCmd, RunFrom;
    MirrorEnds(ch, o, n);
    forall c
      ensures RulesOf(lines[..i], c) <= RulesOf(lines, c)
    {
      RulesOfPrefix(lines, i, c);
    }
    if i == |lines| {
      assert lines[..i] == lines;
      RunFromEnd(ch, lines, o, n);
    } else {
      RunFromIsMirror(ch, lines, i + 1, o, n);
      RunFromStep(ch, lines, i, o, n);
      RulesOfStep(lines, i);
      var t := lines[i];
      RunOne(RunFrom(ch, lines, i + 1, o, n), CmdAt(lines, i, o, n));
      if IsRuleLine(t) {
        RulesOfPrefix(lines, i + 1, t[1]);
        assert Chain(ch, t[1])[|RulesOf(lines[..i], t[1])|] == t[2..];
        OneCommand(RunFrom(ch, lines, i + 1, o, n), Chain(ch, t[1]), |RulesOf(lines[..i], t[1])|, t[1], o, n);
        SkipStep(Chain(ch, t[1]), |RulesOf(lines[..i], t[1])|, o, n);
      }
    }
  }

  lemma RunOne(ch: Chains, cmds: seq<Cmd>)
    ensures cmds == [] ==> RunAll(ch, cmds) == ch
    ensures |cmds| == 1 ==> RunAll(ch, cmds) == RunCmd(ch, cmds[0])
  {
    assert |cmds| == 1 ==> RunAll(RunCmd(ch, cmds[0]), cmds[1..]) == RunCmd(ch, cmds[0]);
  }

  lemma SkipStep(rs: seq<Rule>, k: nat, o: Token, n: Token)
    requires k < |rs|
    ensures !Eligible(rs[k], o, n) ==> MirrorFrom(rs, k, o, n) == MirrorFrom(rs, k + 1, o, n)
  {
  }

  /** One step of the run on the chain it concerns. */
  lemma OneCommand(ch: Chains, rs: seq<Rule>, k: nat, c: Token, o: Token, n: Token)
    requires k < |rs| && Chain(ch, c) == MirrorFrom(rs, k + 1, o, n)
    ensures var cmd := Cmd(c, k + 1, Subst(rs[k], o, n));
            Fits(ch, cmd) && (Eligible(rs[k], o, n) ==> RunCmd(ch, cmd) == ch[c := MirrorFrom(rs, k, o, n)])
  {
    hide Subst, Eligible;
  }

  /** Running the whole command list performs the mirroring on every chain, however the listing mixes the chains. */
  lemma CommandsMirrorEveryChain(ch: Chains, saveOut: string, o: Token, n: Token)
    requires Lists(saveOut, ch)
    ensures var ch' := RunAll(ch, Reverse(CmdsFrom(TokenLines(saveOut), 0, o, n)));
            ch'.Keys == ch.Keys && forall c :: Chain(ch', c) == Mirror(Chain(ch, c), o, n)
  {
    RunFromIsMirror(ch, TokenLines(saveOut), 0, o, n);
    assert TokenLines(saveOut)[..0] == [];
  }

  /** No command is ever refused for its position. */
  lemma PositionsAlwaysFit(ch: Chains, saveOut: string, o: Token, n: Token, i: nat)
    requires Lists(saveOut, ch) && i < |TokenLines(saveOut)|
    ensures forall cmd :: cmd in CmdAt(TokenLines(saveOut), i, o, n) ==>
              Fits(RunFrom(ch, TokenLines(saveOut), i + 1, o, n), cmd)
  {
    hide RulesOf, Subst, Negated;
    var lines := TokenLines(saveOut);
    RunFromIsMirror(ch, lines, i + 1, o, n);
    RulesOfStep(lines, i);
    if IsRuleLine(lines[i]) {
      RulesOfPrefix(lines, i + 1, lines[i][1]);
    }
  }

  // ---- the one-pass form ----

  /** In one pass: a copy in front of every rule that names the old pool. */
  function MirrorAll(rs: seq<Rule>, o: Token, n: Token): seq<Rule> {
    if rs == [] then
      []
    else
      (if Eligible(rs[0], o, n) then [Subst(rs[0], o, n)] else []) + [rs[0]] + MirrorAll(rs[1..], o, n)
  }

  /** No copy is in the chain already, and no two rules have the same copy. */
  predicate Fresh(rs: seq<Rule>, o: Token, n: Token) {
    && (forall i :: 0 <= i < |rs| && Eligible(rs[i], o, n) ==> Subst(rs[i], o, n) !in rs)
    && (forall i, j :: 0 <= i < j < |rs| && Eligible(rs[i], o, n) && Eligible(rs[j], o, n) ==>
          Subst(rs[i], o, n) != Subst(rs[j], o, n))
  }

  function EligibleCount(rs: seq<Rule>, o: Token, n: Token): nat {
    if rs == [] then 0 else (if Eligible(rs[0], o, n) then 1 else 0) + EligibleCount(rs[1..], o, n)
  }

  lemma {:induction false} MirrorAllLength(rs: seq<Rule>, o: Token, n: Token)
    ensures |MirrorAll(rs, o, n)| == |rs| + EligibleCount(rs, o, n)
  {
    if rs == [] {
    } else {
      MirrorAllLength(rs[1..], o, n);
    }
  }

  /** Only rules and copies of rules occur. */
  lemma {:induction false} MirrorAllMembers(rs: seq<Rule>, o: Token, n: Token, x: Rule)
    requires x in MirrorAll(rs, o, n)
    ensures x in rs || exists j :: 0 <= j < |rs| && Eligible(rs[j], o, n) && x == Subst(rs[j], o, n)
  {
    if rs == [] || x == rs[0] || (Eligible(rs[0], o, n) && x == Subst(rs[0], o, n)) {
    } else {
      MirrorAllMembers(rs[1..], o, n, x);
      if x !in rs[1..] {
        var j :| 0 <= j < |rs[1..]| && Eligible(rs[1..][j], o, n) && x == Subst(rs[1..][j], o, n);
        assert rs[j + 1] == rs[1..][j];
      }
    }
  }

  lemma MirrorEnd(rs: seq<Rule>, o: Token, n: Token)
    ensures MirrorFrom(rs, |rs|, o, n) == rs
  {
  }

  lemma MirrorStep(rs: seq<Rule>, k: nat, o: Token, n: Token)
    requires k < |rs|
    ensures |MirrorFrom(rs, k + 1, o, n)| >= |rs|
    ensures var cur, x := MirrorFrom(rs, k + 1, o, n), Subst(rs[k], o, n);
            MirrorFrom(rs, k, o, n) == if Eligible(rs[k], o, n) && x !in cur then cur[..k] + [x] + cur[k..] else cur
  {
    hide Subst, Eligible;
  }

  lemma InsertInFront(rs: seq<Rule>, k: nat, x: Rule, rest: seq<Rule>, cur: seq<Rule>)
    requires k < |rs| && cur == rs[..k + 1] + rest
    ensures cur == rs[..k] + ([rs[k]] + rest)
    ensures cur[..k] + [x] + cur[k..] == rs[..k] + ([x] + ([rs[k]] + rest))
  {
    assert rs[..k + 1] == rs[..k] + [rs[k]];
  }

  lemma MirrorAllStep(rs: seq<Rule>, k: nat, o: Token, n: Token)
    requires k < |rs|
    ensures var rest := [rs[k]] + MirrorAll(rs[k + 1..], o, n);
            MirrorAll(rs[k..], o, n) == if Eligible(rs[k], o, n) then [Subst(rs[k], o, n)] + rest else rest
  {
    hide Subst, Eligible;
    assert rs[k..][1..] == rs[k + 1..];
    var x, rest := Subst(rs[k], o, n), MirrorAll(rs[k + 1..], o, n);
    assert [x] + [rs[k]] + rest == [x] + ([rs[k]] + rest);
  }

  lemma {:induction false} FreshTail(rs: seq<Rule>, k: nat, o: Token, n: Token)
    requires k <= |rs| && Fresh(rs, o, n)
    ensures MirrorFrom(rs, k, o, n) == rs[..k] + MirrorAll(rs[k..], o, n)
    decreases |rs| - k
  {
    hide Fresh, Subst, Eligible, MirrorFrom, MirrorAll;
    if k == |rs| {
      FreshEnd(rs, o, n);
    } else {
      FreshTail(rs, k + 1, o, n);
      MirrorStep(rs, k, o, n);
      MirrorAllStep(rs, k, o, n);
      if Eligible(rs[k], o, n) {
        FreshCopyIsNew(rs, k, o, n);
      }
      InsertInFront(rs, k, Subst(rs[k], o, n), MirrorAll(rs[k + 1..], o, n), MirrorFrom(rs, k + 1, o, n));
    }
  }

  lemma FreshEnd(rs: seq<Rule>, o: Token, n: Token)
    ensures MirrorFrom(rs, |rs|, o, n) == rs[..|rs|] + MirrorAll(rs[|rs|..], o, n)
  {
    assert rs[..|rs|] == rs && rs[|rs|..] == [];
  }

  lemma FreshCopyIsNew(rs: seq<Rule>, k: nat, o: Token, n: Token)
    requires k < |rs| && Fresh(rs, o, n) && Eligible(rs[k], o, n)
    ensures Subst(rs[k], o, n) !in rs[..k + 1] + MirrorAll(rs[k + 1..], o, n)
  {
    hide Eligible;
    var x, later := Subst(rs[k], o, n), rs[k + 1..];
    assert x !in rs && forall j :: 0 <= j < |later| ==> later[j] == rs[k + 1 + j];
    if x in MirrorAll(later, o, n) {
      MirrorAllMembers(later, o, n, x);
    }
  }

  /** Handling more rules only adds to the chain; a skipped copy shows in its length. */
  lemma {:induction false} MirrorLength(rs: seq<Rule>, k: nat, skipped: nat, o: Token, n: Token)
    requires k <= |rs|
    ensures |MirrorFrom(rs, k, o, n)| <= |rs| + EligibleCount(rs[k..], o, n)
    ensures (k <= skipped < |rs| && Eligible(rs[skipped], o, n) &&
            Subst(rs[skipped], o, n) in MirrorFrom(rs, skipped + 1, o, n)) ==>
              |MirrorFrom(rs, k, o, n)| < |rs| + EligibleCount(rs[k..], o, n)
    decreases |rs| - k
  {
    if k == |rs| {
    } else {
      MirrorLength(rs, k + 1, skipped, o, n);
      assert rs[k..][1..] == rs[k + 1..];
    }
  }

  lemma {:induction false} MirrorGrows(rs: seq<Rule>, k: nat, j: nat, x: Rule, o: Token, n: Token)
    requires k <= j <= |rs| && x in MirrorFrom(rs, j, o, n)
    ensures x in MirrorFrom(rs, k, o, n)
    decreases j - k
  {
    if k == j {
    } else {
      MirrorGrows(rs, k + 1, j, x, o, n);
    }
  }

  /** After rule j is handled its copy is in the chain. */
  lemma CopyArrives(rs: seq<Rule>, k: nat, j: nat, o: Token, n: Token)
    requires k <= j < |rs| && Eligible(rs[j], o, n)
    ensures Subst(rs[j], o, n) in MirrorFrom(rs, k, o, n)
  {
    var cur := MirrorFrom(rs, j + 1, o, n);
    var x := Subst(rs[j], o, n);
    assert x in MirrorFrom(rs, j, o, n) by {
      if x !in cur {
        assert (cur[..j] + [x] + cur[j..])[j] == x;
      }
    }
    MirrorGrows(rs, k, j, x, o, n);
  }

  /** The old pool is named, and nowhere right behind "! -s" or the like. */
  predicate Plainly(r: Rule, o: Token) {
    o in r && forall k :: 2 <= k < |r| && r[k] == o ==> r[k - 2] != "!"
  }

  lemma PlainlyMeans(r: Rule, o: Token, n: Token)
    requires o != "!" && n != "!"
    ensures Eligible(r, o, n) <==> Plainly(r, o)
  {
    if k :| 2 <= k < |r| && r[k] == o && r[k - 2] == "!" {
      assert Subst(r, o, n)[k - 2] == "!";
    }
    if k :| 2 <= k < |r| && r[k] == o && Subst(r, o, n)[k - 2] == "!" {
      assert r[k - 2] == "!";
    }
  }

  /** Nothing is added to a chain but copies of the rules that name the old pool plainly; each of these has its copy. */
  lemma OnlyPlainRulesCopied(rs: seq<Rule>, o: Token, n: Token)
    requires o != "!" && n != "!"
    ensures forall x :: x in Mirror(rs, o, n) <==>
              x in rs || exists r :: r in rs && Plainly(r, o) && x == Subst(r, o, n)
  {
    hide Subst, Eligible, MirrorFrom, Plainly;
    forall r
      ensures Eligible(r, o, n) <==> Plainly(r, o)
    {
      PlainlyMeans(r, o, n);
    }
    forall x
      ensures x in Mirror(rs, o, n) <==> x in rs || exists r :: r in rs && Plainly(r, o) && x == Subst(r, o, n)
    {
      if x in Mirror(rs, o, n) {
        MirrorMembers(rs, 0, x, o, n);
      }
      if x in rs {
        MirrorEnd(rs, o, n);
        MirrorGrows(rs, 0, |rs|, x, o, n);
      }
      if r :| r in rs && Plainly(r, o) && x == Subst(r, o, n) {
        var j :| 0 <= j < |rs| && rs[j] == r;
        CopyArrives(rs, 0, j, o, n);
      }
    }
  }

  /** The command run is the one-pass mirroring exactly when no check can succeed. */
  lemma OnePassExactlyWhenFresh(rs: seq<Rule>, o: Token, n: Token)
    ensures Mirror(rs, o, n) == MirrorAll(rs, o, n) <==> Fresh(rs, o, n)
  {
    assert rs[0..] == rs;
    if Fresh(rs, o, n) {
      FreshTail(rs, 0, o, n);
      assert rs[..0] + MirrorAll(rs, o, n) == MirrorAll(rs, o, n);
    } else {
      MirrorAllLength(rs, o, n);
      if i :| 0 <= i < |rs| && Eligible(rs[i], o, n) && Subst(rs[i], o, n) in rs {
        MirrorGrows(rs, i + 1, |rs|, Subst(rs[i], o, n), o, n);
        MirrorLength(rs, 0, i, o, n);
      } else {
        var i, j :| 0 <= i < j < |rs| && Eligible(rs[i], o, n) && Eligible(rs[j], o, n) &&
                    Subst(rs[i], o, n) == Subst(rs[j], o, n);
        CopyArrives(rs, i + 1, j, o, n);
        MirrorLength(rs, 0, i, o, n);
      }
    }
  }

  // ---- a second run ----

  predicate AllCopied(rs: seq<Rule>, o: Token, n: Token) {
    forall r :: r in rs && Eligible(r, o, n) ==> Subst(r, o, n) in rs
  }

  lemma {:induction false} MirrorMembers(rs: seq<Rule>, k: nat, x: Rule, o: Token, n: Token)
    requires k <= |rs| && x in MirrorFrom(rs, k, o, n)
    ensures x in rs || exists j :: 0 <= j < |rs| && Eligible(rs[j], o, n) && x == Subst(rs[j], o, n)
    decreases |rs| - k
  {
    if k == |rs| || (Eligible(rs[k], o, n) && x == Subst(rs[k], o, n)) {
    } else {
      MirrorMembers(rs, k + 1, x, o, n);
    }
  }

  lemma CopyIsFinal(r: Rule, o: Token, n: Token)
    ensures Eligible(Subst(r, o, n), o, n) ==> Subst(Subst(r, o, n), o, n) == Subst(r, o, n)
  {
    var s := Subst(r, o, n);
    if o == n {
      assert Subst(s, o, n) == s;
    } else {
      assert o !in s;
    }
  }

  lemma MirrorLeavesNothingToCopy(rs: seq<Rule>, o: Token, n: Token)
    ensures AllCopied(Mirror(rs, o, n), o, n)
  {
    var out := Mirror(rs, o, n);
    forall r | r in out && Eligible(r, o, n)
      ensures Subst(r, o, n) in out
    {
      MirrorMembers(rs, 0, r, o, n);
      if r in rs {
        var j :| 0 <= j < |rs| && rs[j] == r;
        CopyArrives(rs, 0, j, o, n);
      } else {
        var j :| 0 <= j < |rs| && r == Subst(rs[j], o, n);
        CopyIsFinal(rs[j], o, n);
      }
    }
  }

  lemma {:induction false} NothingToCopy(rs: seq<Rule>, k: nat, o: Token, n: Token)
    requires k <= |rs| && AllCopied(rs, o, n)
    ensures MirrorFrom(rs, k, o, n) == rs
    decreases |rs| - k
  {
    if k == |rs| {
    } else {
      NothingToCopy(rs, k + 1, o, n);
    }
  }

  /** Mirroring twice is mirroring once. */
  lemma MirrorIdempotent(rs: seq<Rule>, o: Token, n: Token)
    ensures Mirror(Mirror(rs, o, n), o, n) == Mirror(rs, o, n)
  {
    MirrorLeavesNothingToCopy(rs, o, n);
    NothingToCopy(Mirror(rs, o, n), 0, o, n);
  }

  /** A second full run on a listing of the result inserts nothing. */
  lemma SecondRunInsertsNothing(ch: Chains, save1: string, save2: string, o: Token, n: Token)
    requires Lists(save1, ch)
    requires Lists(save2, RunAll(ch, Reverse(CmdsFrom(TokenLines(save1), 0, o, n))))
    ensures var ch1 := RunAll(ch, Reverse(CmdsFrom(TokenLines(save1), 0, o, n)));
            RunAll(ch1, Reverse(CmdsFrom(TokenLines(save2), 0, o, n))) == ch1
  {
    var ch1 := RunAll(ch, Reverse(CmdsFrom(TokenLines(save1), 0, o, n)));
    var ch2 := RunAll(ch1, Reverse(CmdsFrom(TokenLines(save2), 0, o, n)));
    CommandsMirrorEveryChain(ch, save1, o, n);
    CommandsMirrorEveryChain(ch1, save2, o, n);
    forall c | c in ch1
      ensures ch2[c] == ch1[c]
    {
      MirrorIdempotent(Chain(ch, c), o, n);
      assert Chain(ch2, c) == Chain(ch1, c);
    }
  }
}
