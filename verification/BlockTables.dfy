/**
 * The same questions when every network token stands for a given block of addresses: exactly which packets the
 * command run serves, and exactly when it leaves old traffic alone.
 */
module BlockTables {
  import opened IPv4
  import opened Firewall
  import opened Verdict
  import opened NewRange
  import opened ServedTables

  /** What the network tokens of the rules stand for. */
  type Blocks = map<Token, Block>

  predicate InNet(bs: Blocks, t: Token, a: Addr) {
    t in bs && bs[t].Valid() && bs[t].Has(a)
  }

  ghost function Nets(bs: Blocks): iset<(Token, Addr)> {
    iset t: Token, a: Addr | InNet(bs, t, a) :: (t, a)
  }

  /** The two pools among them. */
  predicate PoolBlocks(bs: Blocks, o: Token, n: Token) {
    && o in bs && n in bs && bs[o].Valid() && bs[n].Valid() && Within(bs[o], bs[n])
    && o != n && !Keyword(o) && !Keyword(n)
  }

  lemma BlocksArePools(env: Env, bs: Blocks, o: Token, n: Token)
    requires PoolBlocks(bs, o, n) && env.nets == Nets(bs)
    ensures PoolTokens(env, o, n, bs[o], bs[n])
  {
  }

  // ---- the view of an address pair ----

  /** How the rules see a packet with these addresses and these other match texts satisfied. */
  function BlockView(bs: Blocks, rs: seq<Rule>, src: Addr, dst: Addr, others: set<Rule>, o: Token, n: Token): View
    requires PoolBlocks(bs, o, n)
  {
    View(SideOf(src, bs[o], bs[n]), SideOf(dst, bs[o], bs[n]),
         (set t | t in NetsOf(rs) && InNet(bs, t, src)), (set t | t in NetsOf(rs) && InNet(bs, t, dst)), others)
  }

  /** A reading with these blocks and those match texts. */
  ghost function BlockEnv(bs: Blocks, others: set<Rule>, acts: imap<Rule, Action>): Env {
    Env(Nets(bs), iset m: Rule, q: Packet | m in others :: (m, q), acts, Next)
  }

  lemma ViewOfBlocks(env: Env, bs: Blocks, rs: seq<Rule>, p: Packet, o: Token, n: Token)
    requires PoolBlocks(bs, o, n) && env.nets == Nets(bs)
    ensures var m := set m | m in OthersOf(rs) && (m, p) in env.others;
            ViewOf(env, rs, p, bs[o], bs[n]) == BlockView(bs, rs, p.src, p.dst, m, o, n)
  {
    hide SideOf, NetsOf, OthersOf, PoolBlocks;
    forall t, a: Addr
      ensures (t, a) in env.nets <==> InNet(bs, t, a)
    {
    }
  }

  lemma ViewOfBlockEnv(bs: Blocks, rs: seq<Rule>, p: Packet, m: set<Rule>, acts: imap<Rule, Action>, o: Token,
                       n: Token)
    requires PoolBlocks(bs, o, n) && m <= OthersOf(rs)
    ensures ViewOf(BlockEnv(bs, m, acts), rs, p, bs[o], bs[n]) == BlockView(bs, rs, p.src, p.dst, m, o, n)
  {
    hide NetsOf, OthersOf, PoolBlocks;
    var env := BlockEnv(bs, m, acts);
    ViewOfBlocks(env, bs, rs, p, o, n);
    assert (set x | x in OthersOf(rs) && (x, p) in env.others) == m;
  }

  // ---- exactly which packets are served ----

  /** No address test of a deciding rule but those on the old pool tells the packet from its image. */
  predicate SeenAlike(bs: Blocks, rs: seq<Rule>, p: Packet, q: Packet, o: Token) {
    forall r, t :: r in rs && Parse(r).target != [] && t in Parse(r).tests && t.net != o ==>
      (InNet(bs, t.net, if t.isSrc then p.src else p.dst) <==> InNet(bs, t.net, if t.isSrc then q.src else q.dst))
  }

  /** The table ch' gives this packet what ch gives its image, whatever the other match texts and the targets do. */
  ghost predicate PacketServed(bs: Blocks, ch: Chains, ch': Chains, p: Packet, h: Hosts, o: Token, n: Token)
    requires PoolBlocks(bs, o, n)
  {
    forall env: Env, c: Token, depth: nat ::
      env.nets == Nets(bs) &&
      (forall d :: d in ch ==> AllIndifferent(env, ch[d], p, Image(p, h, bs[o], bs[n]), o)) ==>
        Run(env, ch', Chain(ch', c), p, depth) == Run(env, ch, Chain(ch, c), Image(p, h, bs[o], bs[n]), depth)
  }

  /** The check for one packet: whichever other match texts it satisfies, it overtakes no skipped copy. */
  predicate PacketInOrder(bs: Blocks, rs: seq<Rule>, p: Packet, o: Token, n: Token)
    requires PoolBlocks(bs, o, n)
  {
    forall m, k, i | m <= OthersOf(rs) && 0 <= k < i < |rs| ::
      !Overtaken(rs, k, i, BlockView(bs, rs, p.src, p.dst, m, o, n), o, n)
  }

  lemma PacketOrderFor(bs: Blocks, rs: seq<Rule>, p: Packet, m: set<Rule>, o: Token, n: Token)
    requires PoolBlocks(bs, o, n) && PacketInOrder(bs, rs, p, o, n) && m <= OthersOf(rs)
    ensures InOrderFor(rs, BlockView(bs, rs, p.src, p.dst, m, o, n), o, n)
  {
    hide OthersOf, BlockView, PoolBlocks, Hits, InPlace, Skipped;
  }

  lemma InOrderIsServed(bs: Blocks, ch: Chains, ch': Chains, p: Packet, h: Hosts, o: Token, n: Token)
    requires PoolBlocks(bs, o, n) && OldHosts(h, bs[o])
    requires forall d :: Chain(ch', d) == Mirror(Chain(ch, d), o, n) && AllServable(Chain(ch, d), o, n)
    requires forall c :: PacketInOrder(bs, Chain(ch, c), p, o, n)
    ensures PacketServed(bs, ch, ch', p, h, o, n)
  {
    BlocksDiffer(bs, o, n);
    hide PoolBlocks, PacketInOrder, AllServable, Mirror, Run, Indifferent, Image, OldHosts, BlockView, Nets, PoolTokens;
    hide OthersOf, ViewOf, InOrderFor;
    forall env: Env, c: Token, depth: nat
      | env.nets == Nets(bs) && (forall d :: d in ch ==> AllIndifferent(env, ch[d], p, Image(p, h, bs[o], bs[n]), o))
      ensures Run(env, ch', Chain(ch', c), p, depth) == Run(env, ch, Chain(ch, c), Image(p, h, bs[o], bs[n]), depth)
    {
      BlocksArePools(env, bs, o, n);
      forall d
        ensures ChainReady(env, ch, ch', d, p, h, o, n, bs[o], bs[n])
      {
        ViewOfBlocks(env, bs, Chain(ch, d), p, o, n);
        PacketOrderFor(bs, Chain(ch, d), p,
          (set m | m in OthersOf(Chain(ch, d)) && (m, p) in env.others), o, n);
        assert d in ch ==> Chain(ch, d) == ch[d];
      }
      PacketIsServed(env, ch, ch', c, p, depth, h, o, n, bs[o], bs[n]);
    }
  }

  lemma BlocksDiffer(bs: Blocks, o: Token, n: Token)
    requires PoolBlocks(bs, o, n)
    ensures o in bs && n in bs && o != n && bs[o].Valid() && bs[n].Valid()
  {
  }

  lemma OvertakerIsNotServed(bs: Blocks, ch: Chains, ch': Chains, c: Token, p: Packet, h: Hosts, o: Token, n: Token)
    requires PoolBlocks(bs, o, n) && OldHosts(h, bs[o])
    requires forall d :: Chain(ch', d) == Mirror(Chain(ch, d), o, n) && AllServable(Chain(ch, d), o, n)
    requires forall d :: d in ch ==> SeenAlike(bs, ch[d], p, Image(p, h, bs[o], bs[n]), o)
    requires !PacketInOrder(bs, Chain(ch, c), p, o, n)
    ensures !PacketServed(bs, ch, ch', p, h, o, n)
  {
    BlocksDiffer(bs, o, n);
    hide PoolBlocks, AllServable, Mirror, Run, Indifferent, Image, OldHosts, BlockView, Nets, PoolTokens, SeenAlike;
    hide Overtaken, Corresponds, BlockEnv, OthersOf, Parse, Chain;
    var rs := Chain(ch, c);
    var m, k: nat, i: nat :| m <= OthersOf(rs) && 0 <= k < i < |rs| &&
      Overtaken(rs, k, i, BlockView(bs, rs, p.src, p.dst, m, o, n), o, n);
    var v := BlockView(bs, rs, p.src, p.dst, m, o, n);
    var acts := imap[Parse(rs[k]).target := Stop(1), Parse(rs[i]).target := Stop(2)];
    var env := BlockEnv(bs, m, acts);
    BlockEnvIs(bs, m, acts);
    BlocksArePools(env, bs, o, n);
    ViewOfBlockEnv(bs, rs, p, m, acts, o, n);
    AllAlike(bs, ch, p, Image(p, h, bs[o], bs[n]), m, acts, o);
    forall j | 0 <= j < |rs|
      ensures Corresponds(env, rs, j, p, Image(p, h, bs[o], bs[n]), v, o, n)
    {
      RuleCorresponds(env, rs, j, p, h, o, n, bs[o], bs[n]);
    }
    TwoTargetsPart(env, ch, ch', c, k, i, v, p, h, o, n, bs[o], bs[n]);
    assert Run(env, ch', Chain(ch', c), p, 0) != Run(env, ch, Chain(ch, c), Image(p, h, bs[o], bs[n]), 0);
  }

  lemma AllAlike(bs: Blocks, ch: Chains, p: Packet, q: Packet, m: set<Rule>, acts: imap<Rule, Action>, o: Token)
    requires forall d :: d in ch ==> SeenAlike(bs, ch[d], p, q, o)
    ensures forall d :: d in ch ==> AllIndifferent(BlockEnv(bs, m, acts), ch[d], p, q, o)
    ensures forall d :: AllIndifferent(BlockEnv(bs, m, acts), Chain(ch, d), p, q, o)
  {
    hide SeenAlike, Indifferent, BlockEnv;
    forall d | d in ch
      ensures AllIndifferent(BlockEnv(bs, m, acts), ch[d], p, q, o)
    {
      AlikeIsIndifferent(bs, ch[d], p, q, m, acts, o);
    }
  }

  lemma BlockEnvIs(bs: Blocks, m: set<Rule>, acts: imap<Rule, Action>)
    ensures var env := BlockEnv(bs, m, acts); env.nets == Nets(bs) && env.acts == acts && env.otherwise == Next
  {
  }

  lemma AlikeIsIndifferent(bs: Blocks, rs: seq<Rule>, p: Packet, q: Packet, m: set<Rule>, acts: imap<Rule, Action>,
                           o: Token)
    requires SeenAlike(bs, rs, p, q, o)
    ensures AllIndifferent(BlockEnv(bs, m, acts), rs, p, q, o)
  {
    hide Parse;
  }

  /**
   * For one packet of the added range and its stand-ins, with every network token read as a block: after the
   * run it is served, whatever the other match texts and targets mean, exactly if it overtakes no skipped copy.
   */
  lemma PacketServedExactly(bs: Blocks, ch: Chains, saveOut: string, p: Packet, h: Hosts, o: Token, n: Token)
    requires PoolBlocks(bs, o, n) && OldHosts(h, bs[o]) && Lists(saveOut, ch)
    requires forall d :: AllServable(Chain(ch, d), o, n)
    requires forall d :: d in ch ==> SeenAlike(bs, ch[d], p, Image(p, h, bs[o], bs[n]), o)
    ensures var ch' := RunAll(ch, Reverse(CmdsFrom(TokenLines(saveOut), 0, o, n)));
            PacketServed(bs, ch, ch', p, h, o, n) <==> forall c :: c in ch ==> PacketInOrder(bs, ch[c], p, o, n)
  {
    hide PoolBlocks, PacketInOrder, AllServable, Mirror, Image, OldHosts, SeenAlike, Lists, RunAll, PacketServed;
    CommandsMirrorEveryChain(ch, saveOut, o, n);
    var ch' := RunAll(ch, Reverse(CmdsFrom(TokenLines(saveOut), 0, o, n)));
    forall c
      ensures PacketInOrder(bs, Chain(ch, c), p, o, n) <==> (c in ch ==> PacketInOrder(bs, ch[c], p, o, n))
    {
      EmptyInOrder(bs, p, o, n);
    }
    if forall c :: PacketInOrder(bs, Chain(ch, c), p, o, n) {
      InOrderIsServed(bs, ch, ch', p, h, o, n);
    } else {
      var c :| !PacketInOrder(bs, Chain(ch, c), p, o, n);
      OvertakerIsNotServed(bs, ch, ch', c, p, h, o, n);
    }
  }

  lemma EmptyInOrder(bs: Blocks, p: Packet, o: Token, n: Token)
    requires PoolBlocks(bs, o, n)
    ensures PacketInOrder(bs, [], p, o, n)
  {
  }

  // ---- exactly when old traffic is left alone ----

  /** The targets that a packet of this view meets in the chain, each at its first meeting. */
  function Meets(rules: seq<Rule>, v: View, o: Token, n: Token, seen: set<Rule>): (ts: seq<Rule>)
    ensures forall t :: t in ts ==> t !in seen && t != []
    ensures forall i, j :: 0 <= i < j < |ts| ==> ts[i] != ts[j]
  {
    if rules == [] then
      []
    else
      var t := Parse(rules[0]).target;
      if t != [] && t !in seen && Hits(v, rules[0], o, n) then
        [t] + Meets(rules[1..], v, o, n, seen + {t})
      else
        Meets(rules[1..], v, o, n, seen)
  }

  /** The first of the targets that ends the walk. */
  ghost function FirstOf(env: Env, ch: Chains, ts: seq<Rule>, p: Packet, depth: nat): Outcome {
    if ts == [] then
      Fell
    else
      var e := Effect(env, ch, env.Act(ts[0]), p, depth);
      if e.Some? then e.value else FirstOf(env, ch, ts[1..], p, depth)
  }

  /** A walk is decided by the targets met, in the order in which they are first met. */
  lemma {:induction false} WalkByTargets(env: Env, ch: Chains, rules: seq<Rule>, p: Packet, depth: nat, v: View,
                                         o: Token, n: Token, seen: set<Rule>)
    requires forall r :: r in rules ==> (Hits(v, r, o, n) <==> Matches(env, r, p))
    requires forall t :: t in seen ==> Effect(env, ch, env.Act(t), p, depth).None?
    ensures Run(env, ch, rules, p, depth) == FirstOf(env, ch, Meets(rules, v, o, n, seen), p, depth)
    decreases |rules|
  {
    hide Run, Hits, Matches, Effect, Parse, Ends;
    if rules == [] {
      EmptyWalk(env, ch, p, depth);
    } else {
      var t := Parse(rules[0]).target;
      assert rules[0] in rules && forall r :: r in rules[1..] ==> r in rules;
      FirstRule(env, ch, rules, p, depth);
      if Matches(env, rules[0], p) && t != [] && Effect(env, ch, env.Act(t), p, depth).None? {
        var seen' := if t in seen then seen else seen + {t};
        WalkByTargets(env, ch, rules[1..], p, depth, v, o, n, seen');
      } else {
        WalkByTargets(env, ch, rules[1..], p, depth, v, o, n, seen);
      }
    }
  }

  lemma EmptyWalk(env: Env, ch: Chains, p: Packet, depth: nat)
    ensures Run(env, ch, [], p, depth) == Fell
  {
  }

  lemma FirstRule(env: Env, ch: Chains, rules: seq<Rule>, p: Packet, depth: nat)
    requires rules != []
    ensures var t := Parse(rules[0]).target;
            var e := Effect(env, ch, env.Act(t), p, depth);
            Run(env, ch, rules, p, depth) ==
            if Matches(env, rules[0], p) && t != [] && e.Some? then e.value else Run(env, ch, rules[1..], p, depth)
  {
    hide Run, Matches, Parse, Effect;
    RunStep(env, ch, rules, p, depth);
    assert Effect(env, ch, Next, p, depth).None? by {
      NextGoesOn(env, ch, p, depth);
    }
  }

  lemma NextGoesOn(env: Env, ch: Chains, p: Packet, depth: nat)
    ensures Effect(env, ch, Next, p, depth).None?
  {
  }

  /** Old traffic fares alike in both tables, whatever the other match texts and the targets mean. */
  ghost predicate OldTrafficKept(bs: Blocks, ch: Chains, ch': Chains, o: Token, n: Token)
    requires PoolBlocks(bs, o, n)
  {
    forall env: Env, p: Packet, c: Token, depth: nat :: env.nets == Nets(bs) && OldSide(p, bs[o], bs[n]) ==>
      Run(env, ch', Chain(ch', c), p, depth) == Run(env, ch, Chain(ch, c), p, depth)
  }

  /**
   * The check on a chain before the run: from no old-side address pair, with whichever other match texts, does a
   * packet meet other targets first than before.
   */
  predicate MeetsAlike(bs: Blocks, rs: seq<Rule>, o: Token, n: Token)
    requires PoolBlocks(bs, o, n)
  {
    var out := Mirror(rs, o, n);
    forall src: int, dst: int, m |
      0 <= src < SPACE && 0 <= dst < SPACE && m <= OthersOf(out) && OldSide(Packet(src, dst, 0), bs[o], bs[n]) ::
      var v := BlockView(bs, out, src, dst, m, o, n);
      Meets(out, v, o, n, {}) == Meets(rs, v, o, n, {})
  }

  lemma MeetsAlikeFor(bs: Blocks, rs: seq<Rule>, p: Packet, m: set<Rule>, o: Token, n: Token)
    requires PoolBlocks(bs, o, n) && MeetsAlike(bs, rs, o, n)
    requires OldSide(p, bs[o], bs[n]) && m <= OthersOf(Mirror(rs, o, n))
    ensures var v := BlockView(bs, Mirror(rs, o, n), p.src, p.dst, m, o, n);
            Meets(Mirror(rs, o, n), v, o, n, {}) == Meets(rs, v, o, n, {})
  {
    BlocksDiffer(bs, o, n);
    hide BlockView, PoolBlocks, Meets, Mirror, OthersOf;
    assert OldSide(Packet(p.src, p.dst, 0), bs[o], bs[n]);
  }

  /** A view of all rules of the new chain tells of the old chain's rules too. */
  lemma ViewForBoth(env: Env, rs: seq<Rule>, p: Packet, o: Token, n: Token, old_: Block, new_: Block)
    requires PoolTokens(env, o, n, old_, new_)
    ensures var out := Mirror(rs, o, n);
            var v := ViewOf(env, out, p, old_, new_);
            && (forall r :: r in out ==> (Hits(v, r, o, n) <==> Matches(env, r, p)))
            && (forall r :: r in rs ==> (Hits(v, r, o, n) <==> Matches(env, r, p)))
  {
    assert old_.Valid() && new_.Valid();
    hide Mirror, PoolTokens, Hits, Matches, ViewOf;
    var out := Mirror(rs, o, n);
    MirrorHasAll(rs, o, n);
    forall r | r in out
      ensures Hits(ViewOf(env, out, p, old_, new_), r, o, n) <==> Matches(env, r, p)
    {
      ViewAgrees(env, out, r, p, o, n, old_, new_);
    }
  }

  /** One chain, given that called chains agree. */
  lemma ChainIsKept(env: Env, bs: Blocks, ch: Chains, ch': Chains, rs: seq<Rule>, p: Packet, depth: nat,
                    o: Token, n: Token)
    requires PoolBlocks(bs, o, n) && env.nets == Nets(bs) && OldSide(p, bs[o], bs[n]) && MeetsAlike(bs, rs, o, n)
    requires forall a :: Effect(env, ch', a, p, depth) == Effect(env, ch, a, p, depth)
    ensures Run(env, ch', Mirror(rs, o, n), p, depth) == Run(env, ch, rs, p, depth)
  {
    BlocksDiffer(bs, o, n);
    BlocksArePools(env, bs, o, n);
    hide *;
    var out := Mirror(rs, o, n);
    var v := ViewOf(env, out, p, bs[o], bs[n]);
    ViewForBoth(env, rs, p, o, n, bs[o], bs[n]);
    ViewOfBlocks(env, bs, out, p, o, n);
    MeetsAlikeFor(bs, rs, p, (set m | m in OthersOf(out) && (m, p) in env.others), o, n);
    WalkByTargets(env, ch', out, p, depth, v, o, n, {});
    WalkByTargets(env, ch, rs, p, depth, v, o, n, {});
    SameFirst(env, ch, ch', Meets(rs, v, o, n, {}), p, depth);
  }

  predicate ChainAlike(bs: Blocks, ch: Chains, ch': Chains, d: Token, o: Token, n: Token)
    requires PoolBlocks(bs, o, n)
  {
    Chain(ch', d) == Mirror(Chain(ch, d), o, n) && MeetsAlike(bs, Chain(ch, d), o, n)
  }

  lemma {:induction false} AlikeIsKept(env: Env, bs: Blocks, ch: Chains, ch': Chains, p: Packet, c: Token, depth: nat,
                                       o: Token, n: Token)
    requires PoolBlocks(bs, o, n) && env.nets == Nets(bs) && OldSide(p, bs[o], bs[n])
    requires forall d :: ChainAlike(bs, ch, ch', d, o, n)
    ensures Run(env, ch', Chain(ch', c), p, depth) == Run(env, ch, Chain(ch, c), p, depth)
    decreases depth
  {
    BlocksDiffer(bs, o, n);
    assert ChainAlike(bs, ch, ch', c, o, n) && Chain(ch', c) == Mirror(Chain(ch, c), o, n);
    assert MeetsAlike(bs, Chain(ch, c), o, n);
    hide *;
    forall d | depth > 0
      ensures Run(env, ch', Chain(ch', d), p, depth - 1) == Run(env, ch, Chain(ch, d), p, depth - 1)
    {
      AlikeIsKept(env, bs, ch, ch', p, d, depth - 1, o, n);
    }
    SameEffects(env, ch, ch', p, p, depth);
    ChainIsKept(env, bs, ch, ch', Chain(ch, c), p, depth, o, n);
  }

  lemma {:induction false} SameFirst(env: Env, ch: Chains, ch': Chains, ts: seq<Rule>, p: Packet, depth: nat)
    requires forall a :: Effect(env, ch', a, p, depth) == Effect(env, ch, a, p, depth)
    ensures FirstOf(env, ch', ts, p, depth) == FirstOf(env, ch, ts, p, depth)
  {
    hide Effect;
    if ts == [] {
    } else {
      SameFirst(env, ch, ch', ts[1..], p, depth);
    }
  }

  // ---- a reading that tells two orders apart ----

  /** Two targets such that the two orders meet a different one first, or one order meets neither. */
  predicate Apart(a: seq<Rule>, b: seq<Rule>, x: Rule, y: Rule) {
    x != y && FirstMark(a, x, y) != FirstMark(b, x, y)
  }

  function FirstMark(ts: seq<Rule>, x: Rule, y: Rule): Outcome {
    if ts == [] then Fell
    else if ts[0] == y then Decided(2)
    else if ts[0] == x then Decided(1)
    else FirstMark(ts[1..], x, y)
  }

  predicate Plain(ts: seq<Rule>) {
    (forall t :: t in ts ==> t != []) && forall i, j :: 0 <= i < j < |ts| ==> ts[i] != ts[j]
  }

  lemma {:induction false} OrdersApart(a: seq<Rule>, b: seq<Rule>) returns (x: Rule, y: Rule)
    requires a != b && Plain(a) && Plain(b)
    ensures Apart(a, b, x, y) && x in a + b && (y in a + b || y == [])
    decreases |a|
  {
    if a == [] {
      x, y := b[0], [];
      NoMark(b, y);
    } else if b == [] {
      x, y := a[0], [];
      NoMark(a, y);
    } else if a[0] != b[0] {
      x, y := a[0], b[0];
    } else {
      assert a == [a[0]] + a[1..] && b == [b[0]] + b[1..];
      PlainTail(a);
      PlainTail(b);
      x, y := OrdersApart(a[1..], b[1..]);
    }
  }

  lemma PlainTail(ts: seq<Rule>)
    requires Plain(ts) && ts != []
    ensures Plain(ts[1..]) && ts[0] !in ts[1..] && ts[0] != []
  {
    assert ts[0] in ts && forall t :: t in ts[1..] ==> t in ts;
  }

  lemma NoMark(ts: seq<Rule>, y: Rule)
    requires Plain(ts) && ts != [] && y == []
    ensures FirstMark(ts, ts[0], y) == Decided(1)
  {
    assert ts[0] in ts;
  }

  lemma {:induction false} FirstIsMark(env: Env, ch: Chains, ts: seq<Rule>, p: Packet, x: Rule, y: Rule)
    requires x != y && env.acts == imap[x := Stop(1), y := Stop(2)] && env.otherwise == Next
    ensures FirstOf(env, ch, ts, p, 0) == FirstMark(ts, x, y)
  {
    if ts == [] {
    } else {
      FirstIsMark(env, ch, ts[1..], p, x, y);
    }
  }

  lemma DifferentIsNotKept(bs: Blocks, ch: Chains, ch': Chains, c: Token, o: Token, n: Token)
    requires PoolBlocks(bs, o, n) && Chain(ch', c) == Mirror(Chain(ch, c), o, n)
    requires !MeetsAlike(bs, Chain(ch, c), o, n)
    ensures !OldTrafficKept(bs, ch, ch', o, n)
  {
    BlocksDiffer(bs, o, n);
    hide PoolBlocks, Mirror, Run, Nets, PoolTokens, BlockEnv, OthersOf, BlockView, Meets, Apart, FirstMark, FirstOf;
    hide ViewOf, Hits, Matches;
    var rs, out := Chain(ch, c), Mirror(Chain(ch, c), o, n);
    var src: int, dst: int, m :|
      0 <= src < SPACE && 0 <= dst < SPACE && m <= OthersOf(out) && OldSide(Packet(src, dst, 0), bs[o], bs[n]) &&
      Meets(out, BlockView(bs, out, src, dst, m, o, n), o, n, {}) !=
      Meets(rs, BlockView(bs, out, src, dst, m, o, n), o, n, {});
    var p, v := Packet(src, dst, 0), BlockView(bs, out, src, dst, m, o, n);
    var x, y := OrdersApart(Meets(out, v, o, n, {}), Meets(rs, v, o, n, {}));
    var acts := imap[x := Stop(1), y := Stop(2)];
    var env := BlockEnv(bs, m, acts);
    BlockEnvIs(bs, m, acts);
    BlocksArePools(env, bs, o, n);
    ViewOfBlockEnv(bs, out, p, m, acts, o, n);
    ViewForBoth(env, rs, p, o, n, bs[o], bs[n]);
    WalkByTargets(env, ch', out, p, 0, v, o, n, {});
    WalkByTargets(env, ch, rs, p, 0, v, o, n, {});
    ApartMeans(Meets(out, v, o, n, {}), Meets(rs, v, o, n, {}), x, y);
    FirstIsMark(env, ch', Meets(out, v, o, n, {}), p, x, y);
    FirstIsMark(env, ch, Meets(rs, v, o, n, {}), p, x, y);
    assert Run(env, ch', Chain(ch', c), p, 0) != Run(env, ch, Chain(ch, c), p, 0);
  }

  lemma ApartMeans(a: seq<Rule>, b: seq<Rule>, x: Rule, y: Rule)
    requires Apart(a, b, x, y)
    ensures x != y && FirstMark(a, x, y) != FirstMark(b, x, y)
  {
  }

  /**
   * With every network token read as a block: the command run leaves old traffic alone, whatever the other match
   * texts and the targets mean, exactly if the check passes on every chain before the run.
   */
  lemma OldTrafficExactly(bs: Blocks, ch: Chains, saveOut: string, o: Token, n: Token)
    requires PoolBlocks(bs, o, n) && Lists(saveOut, ch)
    ensures var ch' := RunAll(ch, Reverse(CmdsFrom(TokenLines(saveOut), 0, o, n)));
            OldTrafficKept(bs, ch, ch', o, n) <==> forall c :: c in ch ==> MeetsAlike(bs, ch[c], o, n)
  {
    hide PoolBlocks, Mirror, Lists, RunAll, MeetsAlike, Run, Nets;
    CommandsMirrorEveryChain(ch, saveOut, o, n);
    BlocksDiffer(bs, o, n);
    var ch' := RunAll(ch, Reverse(CmdsFrom(TokenLines(saveOut), 0, o, n)));
    forall c
      ensures MeetsAlike(bs, Chain(ch, c), o, n) <==> (c in ch ==> MeetsAlike(bs, ch[c], o, n))
    {
      EmptyMeetsAlike(bs, o, n);
    }
    if forall c :: MeetsAlike(bs, Chain(ch, c), o, n) {
      assert forall c :: ChainAlike(bs, ch, ch', c, o, n);
      forall env: Env, p: Packet, c: Token, depth: nat | env.nets == Nets(bs) && OldSide(p, bs[o], bs[n])
        ensures Run(env, ch', Chain(ch', c), p, depth) == Run(env, ch, Chain(ch, c), p, depth)
      {
        AlikeIsKept(env, bs, ch, ch', p, c, depth, o, n);
      }
    } else {
      var c :| !MeetsAlike(bs, Chain(ch, c), o, n);
      DifferentIsNotKept(bs, ch, ch', c, o, n);
    }
  }

  lemma EmptyMeetsAlike(bs: Blocks, o: Token, n: Token)
    requires PoolBlocks(bs, o, n)
    ensures MeetsAlike(bs, [], o, n)
  {
    MirrorEnd([], o, n);
    assert Mirror([], o, n) == [];
  }

  /** Chains in which every copy is safe pass the check. */
  lemma SafeMeetsAlike(bs: Blocks, rs: seq<Rule>, o: Token, n: Token)
    requires PoolBlocks(bs, o, n) && AllSafe(rs, o, n)
    ensures MeetsAlike(bs, rs, o, n)
  {
    BlocksDiffer(bs, o, n);
    hide PoolBlocks, MeetsAlike, Mirror, Run, Nets, PoolTokens, OldSide, SafeToCopy;
    if !MeetsAlike(bs, rs, o, n) {
      var ch, ch' := map["FORWARD" := rs], map["FORWARD" := Mirror(rs, o, n)];
      assert Mirror([], o, n) == [] by {
        MirrorEnd([], o, n);
        MirrorUnfolds(o, n);
      }
      forall env: Env, p: Packet, c: Token, depth: nat | env.nets == Nets(bs) && OldSide(p, bs[o], bs[n])
        ensures Run(env, ch', Chain(ch', c), p, depth) == Run(env, ch, Chain(ch, c), p, depth)
      {
        BlocksArePools(env, bs, o, n);
        OldTrafficOfMirror(env, ch, ch', c, p, depth, o, n, bs[o], bs[n]);
      }
      DifferentIsNotKept(bs, ch, ch', "FORWARD", o, n);
    }
  }

  lemma MirrorUnfolds(o: Token, n: Token)
    ensures Mirror([], o, n) == MirrorFrom([], 0, o, n)
  {
  }
}
