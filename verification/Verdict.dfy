/** What a packet meets in a table of rule chains, before and after mirroring. */
module Verdict {
  import opened Wrappers
  import opened IPv4
  import opened Firewall

  // ---- packets and rules ----

  /** Source, destination, and a stand-in for everything else rules can look at. */
  datatype Packet = Packet(src: Addr, dst: Addr, rest: int)

  datatype Action = Stop(verdict: int) | Next | Return | Jump(chain: Token) | Goto(chain: Token)

  /** How the kernel reads address tokens, the remaining match tokens, and targets. */
  datatype Env = Env(nets: iset<(Token, Addr)>, others: iset<(Rule, Packet)>, acts: imap<Rule, Action>,
                     otherwise: Action) {
    ghost function Act(t: Rule): Action {
      if t in acts then acts[t] else otherwise
    }
  }

  datatype AddrTest = AddrTest(neg: bool, isSrc: bool, net: Token)

  /** A rule taken apart: address tests, other match tokens, and the target from -j or -g on. */
  datatype Parsed = Parsed(tests: seq<AddrTest>, others: Rule, target: Rule)

  predicate AddrFlag(t: Token) { t == "-s" || t == "-d" }

  predicate Keyword(t: Token) {
    t in ["-s", "-d", "!", "-j", "-g", "-m", "comment", "--comment"]
  }

  /** What the next tokens of a rule are. */
  datatype Part = End | Target | NegTest | PosTest | Comment | Plain

  function NextPart(r: Rule): Part {
    if r == [] then End
    else if r[0] == "-j" || r[0] == "-g" then Target
    else if |r| >= 3 && r[0] == "!" && AddrFlag(r[1]) then NegTest
    else if |r| >= 2 && AddrFlag(r[0]) then PosTest
    else if |r| >= 4 && r[0] == "-m" && r[1] == "comment" && r[2] == "--comment" then Comment
    else Plain
  }

  function Parse(r: Rule): Parsed
    decreases |r|
  {
    match NextPart(r)
    case End => Parsed([], [], [])
    case Target => Parsed([], [], r)
    case NegTest =>
      var p := Parse(r[3..]);
      p.(tests := [AddrTest(true, r[1] == "-s", r[2])] + p.tests)
    case PosTest =>
      var p := Parse(r[2..]);
      p.(tests := [AddrTest(false, r[0] == "-s", r[1])] + p.tests)
    case Comment => Parse(r[4..])
    case Plain =>
      var p := Parse(r[1..]);
      p.(others := [r[0]] + p.others)
  }

  ghost predicate TestHolds(env: Env, t: AddrTest, pkt: Packet) {
    ((t.net, if t.isSrc then pkt.src else pkt.dst) in env.nets) != t.neg
  }

  ghost predicate Matches(env: Env, r: Rule, pkt: Packet) {
    && (forall i :: 0 <= i < |Parse(r).tests| ==> TestHolds(env, Parse(r).tests[i], pkt))
    && (Parse(r).others == [] || (Parse(r).others, pkt) in env.others)
  }

  /** A rule without a target only counts packets. */
  ghost function ActionOf(env: Env, r: Rule): Action {
    if Parse(r).target == [] then Next else env.Act(Parse(r).target)
  }

  // ---- first match wins ----

  datatype Outcome = Decided(verdict: int) | Fell | OutOfDepth

  /** Walking a chain; a jump comes back when the called chain decides nothing, a goto does not. */
  ghost function Run(env: Env, ch: Chains, rules: seq<Rule>, pkt: Packet, depth: nat): Outcome
    decreases depth, |rules|
  {
    if rules == [] then
      Fell
    else if !Matches(env, rules[0], pkt) then
      Run(env, ch, rules[1..], pkt, depth)
    else
      match ActionOf(env, rules[0])
      case Stop(v) => Decided(v)
      case Next => Run(env, ch, rules[1..], pkt, depth)
      case Return => Fell
      case Jump(c) =>
        if depth == 0 then OutOfDepth else
        var sub := Run(env, ch, Chain(ch, c), pkt, depth - 1);
        if sub.Fell? then Run(env, ch, rules[1..], pkt, depth) else sub
      case Goto(c) =>
        if depth == 0 then OutOfDepth else Run(env, ch, Chain(ch, c), pkt, depth - 1)
  }

  /** What an action makes of the walk; nothing when the walk goes on behind the rule. */
  ghost function Effect(env: Env, ch: Chains, a: Action, pkt: Packet, depth: nat): Option<Outcome> {
    match a
    case Stop(v) => Some(Decided(v))
    case Next => None
    case Return => Some(Fell)
    case Jump(c) =>
      if depth == 0 then Some(OutOfDepth) else
      var sub := Run(env, ch, Chain(ch, c), pkt, depth - 1);
      if sub.Fell? then None else Some(sub)
    case Goto(c) => Some(if depth == 0 then OutOfDepth else Run(env, ch, Chain(ch, c), pkt, depth - 1))
  }

  /** The rule matches and ends the walk. */
  ghost predicate Ends(env: Env, ch: Chains, r: Rule, pkt: Packet, depth: nat) {
    Matches(env, r, pkt) && Effect(env, ch, ActionOf(env, r), pkt, depth).Some?
  }

  lemma RunStep(env: Env, ch: Chains, rules: seq<Rule>, pkt: Packet, depth: nat)
    requires rules != []
    ensures Run(env, ch, rules, pkt, depth) ==
            if Ends(env, ch, rules[0], pkt, depth) then Effect(env, ch, ActionOf(env, rules[0]), pkt, depth).value
            else Run(env, ch, rules[1..], pkt, depth)
  {
    hide Matches, ActionOf;
  }

  /** The first rule that ends the walk decides it. */
  lemma {:induction false} FirstEnds(env: Env, ch: Chains, rules: seq<Rule>, i: nat, pkt: Packet, depth: nat)
    requires i < |rules| && Ends(env, ch, rules[i], pkt, depth)
    requires forall j :: 0 <= j < i ==> !Ends(env, ch, rules[j], pkt, depth)
    ensures Run(env, ch, rules, pkt, depth) == Effect(env, ch, ActionOf(env, rules[i]), pkt, depth).value
    decreases i
  {
    hide Run, Ends, Effect, ActionOf;
    RunStep(env, ch, rules, pkt, depth);
    if i == 0 {
    } else {
      FirstEnds(env, ch, rules[1..], i - 1, pkt, depth);
    }
  }

  lemma {:induction false} NoneEnds(env: Env, ch: Chains, rules: seq<Rule>, pkt: Packet, depth: nat)
    requires forall j :: 0 <= j < |rules| ==> !Ends(env, ch, rules[j], pkt, depth)
    ensures Run(env, ch, rules, pkt, depth) == Fell
    decreases |rules|
  {
    hide Ends;
    if rules == [] {
    } else {
      RunStep(env, ch, rules, pkt, depth);
      NoneEnds(env, ch, rules[1..], pkt, depth);
    }
  }

  /** Jumps only go to chains of lower rank, as in any rule set the kernel accepts. */
  ghost predicate Acyclic(env: Env, ch: Chains, rank: map<Token, nat>) {
    forall c, r, d ::
      c in ch && r in ch[c] && (ActionOf(env, r) == Jump(d) || ActionOf(env, r) == Goto(d)) && d in ch ==>
      c in rank && d in rank && rank[d] < rank[c]
  }

  /** With depth enough for the ranks a walk is never cut short. */
  lemma {:induction false} DepthSuffices(env: Env, ch: Chains, rank: map<Token, nat>, c: Token, rules: seq<Rule>,
                                         pkt: Packet, depth: nat)
    requires Acyclic(env, ch, rank) && c in ch && (forall r :: r in rules ==> r in ch[c])
    requires depth >= 1 + if c in rank then rank[c] else 0
    ensures Run(env, ch, rules, pkt, depth) != OutOfDepth
    decreases depth, |rules|
  {
    if rules == [] {
    } else {
      DepthSuffices(env, ch, rank, c, rules[1..], pkt, depth);
      var a := ActionOf(env, rules[0]);
      if a.Jump? || a.Goto? {
        if a.chain in ch {
          DepthSuffices(env, ch, rank, a.chain, ch[a.chain], pkt, depth - 1);
        }
      }
    }
  }

  // ---- pools ----

  /** o and n are the tokens of the two pools, the old one inside the new one. */
  ghost predicate PoolTokens(env: Env, o: Token, n: Token, old_: Block, new_: Block) {
    && !Keyword(o) && !Keyword(n) && old_.Valid() && new_.Valid() && Within(old_, new_)
    && forall a: Addr :: ((o, a) in env.nets <==> old_.Has(a)) && ((n, a) in env.nets <==> new_.Has(a))
  }

  /** The rule names the old pool only as a source or destination address (or in its comment). */
  predicate AddressOnly(r: Rule, o: Token) {
    o !in Parse(r).others && o !in Parse(r).target
  }

  /** What the copy of such a rule decides is what the rule decides, or nothing at all. */
  predicate SafeToCopy(r: Rule, o: Token) {
    AddressOnly(r, o) || Parse(r).target == []
  }

  function SubstTests(ts: seq<AddrTest>, o: Token, n: Token): (r: seq<AddrTest>)
    ensures |r| == |ts|
  {
    seq(|ts|, i requires 0 <= i < |ts| => if ts[i].net == o then ts[i].(net := n) else ts[i])
  }

  lemma SubstSlice(r: Rule, k: nat, o: Token, n: Token)
    requires k <= |r|
    ensures Subst(r, o, n)[k..] == Subst(r[k..], o, n)
  {
  }

  lemma KeywordsStay(r: Rule, o: Token, n: Token)
    requires !Keyword(o) && !Keyword(n)
    ensures forall i :: 0 <= i < |r| && (Keyword(r[i]) || Keyword(Subst(r, o, n)[i])) ==> Subst(r, o, n)[i] == r[i]
  {
  }

  lemma PartStays(r: Rule, o: Token, n: Token)
    requires !Keyword(o) && !Keyword(n)
    ensures NextPart(Subst(r, o, n)) == NextPart(r)
  {
    hide Subst;
    KeywordsStay(r, o, n);
    assert forall t :: AddrFlag(t) ==> Keyword(t);
    assert Keyword("-j") && Keyword("-g") && Keyword("!") && Keyword("-m") && Keyword("comment") &&
           Keyword("--comment");
  }

  /** Copying a rule changes its address tests, its other matches and its target token by token. */
  lemma {:induction false} ParseSubst(r: Rule, o: Token, n: Token)
    requires !Keyword(o) && !Keyword(n)
    ensures Parse(Subst(r, o, n)) ==
            Parsed(SubstTests(Parse(r).tests, o, n), Subst(Parse(r).others, o, n), Subst(Parse(r).target, o, n))
    decreases |r|
  {
    hide Subst, Keyword, NextPart, SubstTests;
    PartStays(r, o, n);
    FlagsStay(r, o, n);
    SubstAt(r, o, n);
    SubstEmpty(o, n);
    var k := match NextPart(r) case NegTest => 3 case PosTest => 2 case Comment => 4 case Plain => 1 case _ => 0;
    if k == 0 {
    } else {
      PartLength(r);
      ParseSubst(r[k..], o, n);
      SubstSlice(r, k, o, n);
      SubstCons(r[0], Parse(r[k..]).others, o, n);
      SubstTestCons(AddrTest(NextPart(r).NegTest?, r[if k == 3 then 1 else 0] == "-s", r[k - 1]),
        Parse(r[k..]).tests, o, n);
    }
  }

  lemma PartLength(r: Rule)
    ensures NextPart(r).NegTest? ==> |r| >= 3
    ensures NextPart(r).PosTest? ==> |r| >= 2
    ensures NextPart(r).Comment? ==> |r| >= 4
    ensures NextPart(r).Plain? ==> |r| >= 1
  {
  }

  lemma SubstAt(r: Rule, o: Token, n: Token)
    ensures forall i :: 0 <= i < |r| ==> Subst(r, o, n)[i] == if r[i] == o then n else r[i]
  {
  }

  lemma SubstEmpty(o: Token, n: Token)
    ensures Subst([], o, n) == [] && SubstTests([], o, n) == []
  {
  }

  lemma SubstCons(t: Token, r: Rule, o: Token, n: Token)
    ensures Subst([t] + r, o, n) == [if t == o then n else t] + Subst(r, o, n)
  {
  }

  lemma SubstTestCons(t: AddrTest, ts: seq<AddrTest>, o: Token, n: Token)
    ensures SubstTests([t] + ts, o, n) == [if t.net == o then t.(net := n) else t] + SubstTests(ts, o, n)
  {
  }

  lemma FlagsStay(r: Rule, o: Token, n: Token)
    requires !Keyword(o) && !Keyword(n)
    ensures NextPart(r).NegTest? ==> (Subst(r, o, n)[1] == "-s" <==> r[1] == "-s")
    ensures NextPart(r).PosTest? ==> (Subst(r, o, n)[0] == "-s" <==> r[0] == "-s")
  {
  }

  lemma SubstAbsent(r: Rule, o: Token, n: Token)
    requires o !in r
    ensures Subst(r, o, n) == r
  {
  }

  // ---- old traffic ----

  /** Each address is inside the old pool or outside the new one. */
  predicate OldSide(pkt: Packet, old_: Block, new_: Block)
    requires old_.Valid() && new_.Valid()
  {
    (old_.Has(pkt.src) || !new_.Has(pkt.src)) && (old_.Has(pkt.dst) || !new_.Has(pkt.dst))
  }

  lemma CopyActsAlike(env: Env, r: Rule, o: Token, n: Token, old_: Block, new_: Block, pkt: Packet)
    requires PoolTokens(env, o, n, old_, new_) && OldSide(pkt, old_, new_) && AddressOnly(r, o)
    ensures Matches(env, Subst(r, o, n), pkt) <==> Matches(env, r, pkt)
    ensures ActionOf(env, Subst(r, o, n)) == ActionOf(env, r)
  {
    ParseSubst(r, o, n);
    SubstAbsent(Parse(r).others, o, n);
    SubstAbsent(Parse(r).target, o, n);
    var ts, us := Parse(r).tests, SubstTests(Parse(r).tests, o, n);
    forall i | 0 <= i < |ts|
      ensures TestHolds(env, us[i], pkt) <==> TestHolds(env, ts[i], pkt)
    {
    }
  }

  lemma SafeCopyActsAlike(env: Env, r: Rule, o: Token, n: Token, old_: Block, new_: Block, pkt: Packet)
    requires PoolTokens(env, o, n, old_, new_) && OldSide(pkt, old_, new_) && SafeToCopy(r, o)
    ensures ActionOf(env, Subst(r, o, n)) == ActionOf(env, r)
    ensures ActionOf(env, r) == Next || (Matches(env, Subst(r, o, n), pkt) <==> Matches(env, r, pkt))
  {
    if AddressOnly(r, o) {
      CopyActsAlike(env, r, o, n, old_, new_, pkt);
    } else {
      ParseSubst(r, o, n);
      assert Subst([], o, n) == [];
    }
  }

  /** out is rs with copies put directly before some of the rules that name the old pool. */
  ghost predicate Mirrored(rs: seq<Rule>, out: seq<Rule>, o: Token, n: Token) {
    if rs == [] then
      out == []
    else
      || (|out| >= 1 && out[0] == rs[0] && Mirrored(rs[1..], out[1..], o, n))
      || (&& |out| >= 2 && Eligible(rs[0], o, n) && out[0] == Subst(rs[0], o, n) && out[1] == rs[0]
          && Mirrored(rs[1..], out[2..], o, n))
  }

  ghost predicate MirroredTable(ch: Chains, ch': Chains, o: Token, n: Token) {
    forall c :: Mirrored(Chain(ch, c), Chain(ch', c), o, n)
  }

  predicate AllSafe(rs: seq<Rule>, o: Token, n: Token) {
    forall r :: r in rs && Eligible(r, o, n) ==> SafeToCopy(r, o)
  }

  /** Whichever copies were made, packets of the old pool and of the rest of the world fare as before. */
  lemma {:induction false} OldTrafficUntouched(env: Env, ch: Chains, ch': Chains, rs: seq<Rule>, out: seq<Rule>,
                                               pkt: Packet, depth: nat,
                                               o: Token, n: Token, old_: Block, new_: Block)
    requires PoolTokens(env, o, n, old_, new_) && OldSide(pkt, old_, new_)
    requires MirroredTable(ch, ch', o, n) && Mirrored(rs, out, o, n)
    requires AllSafe(rs, o, n) && forall c :: c in ch ==> AllSafe(ch[c], o, n)
    ensures Run(env, ch', out, pkt, depth) == Run(env, ch, rs, pkt, depth)
    decreases depth, |rs|
  {
    hide PoolTokens, OldSide, SafeToCopy, Subst, Matches, ActionOf, Eligible;
    if rs == [] {
    } else {
      var a := ActionOf(env, rs[0]);
      if (a.Jump? || a.Goto?) && depth > 0 {
        OldTrafficUntouched(env, ch, ch', Chain(ch, a.chain), Chain(ch', a.chain), pkt, depth - 1, o, n, old_, new_);
      }
      if |out| >= 1 && out[0] == rs[0] && Mirrored(rs[1..], out[1..], o, n) {
        OldTrafficUntouched(env, ch, ch', rs[1..], out[1..], pkt, depth, o, n, old_, new_);
      } else {
        assert out[1..][1..] == out[2..];
        OldTrafficUntouched(env, ch, ch', rs[1..], out[2..], pkt, depth, o, n, old_, new_);
        SafeCopyActsAlike(env, rs[0], o, n, old_, new_, pkt);
      }
    }
  }

  /** What the command run leaves is such a chain. */
  lemma {:induction false} MirrorIsMirrored(rs: seq<Rule>, k: nat, o: Token, n: Token)
    requires k <= |rs|
    ensures Mirrored(rs[k..], MirrorFrom(rs, k, o, n)[k..], o, n)
    decreases |rs| - k
  {
    hide Subst, Eligible;
    if k == |rs| {
    } else {
      MirrorIsMirrored(rs, k + 1, o, n);
      var cur := MirrorFrom(rs, k + 1, o, n);
      assert rs[k..][1..] == rs[k + 1..] && rs[k..][0] == rs[k];
      assert cur[k] == cur[..k + 1][k] == rs[k];
      assert cur[k..][0] == rs[k] && cur[k..][1..] == cur[k + 1..];
      if Eligible(rs[k], o, n) && Subst(rs[k], o, n) !in cur {
        var x := cur[..k] + [Subst(rs[k], o, n)] + cur[k..];
        assert x[k..] == [Subst(rs[k], o, n)] + cur[k..];
        assert x[k..][2..] == cur[k + 1..];
      }
    }
  }
}
