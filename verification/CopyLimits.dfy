/** Where mirroring stops being faithful: the exact conditions, with rules that break them. */
module CopyLimits {
  import opened IPv4
  import opened Firewall
  import opened Verdict
  import opened NewRange
  import opened ServedTables
  import Bitwise
  import Planner

  // ---- which copies never change old traffic ----

  /** Putting the copy before the rule changes no old-side verdict, in any chain, table and reading of the tokens. */
  ghost predicate Harmless(r: Rule, o: Token, n: Token, old_: Block, new_: Block)
    requires old_.Valid() && new_.Valid()
  {
    forall env: Env, ch: Chains, pre: seq<Rule>, post: seq<Rule>, p: Packet, depth: nat ::
      PoolTokens(env, o, n, old_, new_) && OldSide(p, old_, new_) ==>
        Run(env, ch, pre + [Subst(r, o, n), r] + post, p, depth) == Run(env, ch, pre + [r] + post, p, depth)
  }

  /** iptables accepts at most one source and one destination test in a rule. */
  predicate OneTestEach(r: Rule) {
    forall i, j :: 0 <= i < j < |Parse(r).tests| ==> Parse(r).tests[i].isSrc != Parse(r).tests[j].isSrc
  }

  lemma {:induction false} SameBefore(env: Env, ch: Chains, pre: seq<Rule>, a: seq<Rule>, b: seq<Rule>, p: Packet,
                                      depth: nat)
    requires Run(env, ch, a, p, depth) == Run(env, ch, b, p, depth)
    ensures Run(env, ch, pre + a, p, depth) == Run(env, ch, pre + b, p, depth)
  {
    hide Matches, ActionOf;
    if pre == [] {
      assert pre + a == a && pre + b == b;
    } else {
      SameBefore(env, ch, pre[1..], a, b, p, depth);
      assert (pre + a)[0] == pre[0] == (pre + b)[0];
      assert (pre + a)[1..] == pre[1..] + a && (pre + b)[1..] == pre[1..] + b;
    }
  }

  lemma CopyBehindPrefix(r: Rule, o: Token, n: Token, old_: Block, new_: Block,
                         env: Env, ch: Chains, pre: seq<Rule>, post: seq<Rule>, p: Packet, depth: nat)
    requires old_.Valid() && new_.Valid() && SafeToCopy(r, o)
    requires PoolTokens(env, o, n, old_, new_) && OldSide(p, old_, new_)
    ensures Run(env, ch, pre + [Subst(r, o, n), r] + post, p, depth) == Run(env, ch, pre + [r] + post, p, depth)
  {
    hide *;
    var x := Subst(r, o, n);
    SafeCopyActsAlike(env, r, o, n, old_, new_, p);
    OriginalBehindCopy(env, ch, x, r, post, p, depth);
    StartsAgree(env, ch, x, r, post, p, depth);
    SameBefore(env, ch, pre, [x] + ([r] + post), [r] + post, p, depth);
    assert pre + ([x] + ([r] + post)) == pre + [x, r] + post;
    assert pre + ([r] + post) == pre + [r] + post;
  }

  lemma SafeIsHarmless(r: Rule, o: Token, n: Token, old_: Block, new_: Block)
    requires old_.Valid() && new_.Valid() && SafeToCopy(r, o)
    ensures Harmless(r, o, n, old_, new_)
  {
    hide Run, Subst, SafeToCopy, PoolTokens, OldSide;
    forall env: Env, ch: Chains, pre: seq<Rule>, post: seq<Rule>, p: Packet, depth: nat
      | PoolTokens(env, o, n, old_, new_) && OldSide(p, old_, new_)
      ensures Run(env, ch, pre + [Subst(r, o, n), r] + post, p, depth) == Run(env, ch, pre + [r] + post, p, depth)
    {
      CopyBehindPrefix(r, o, n, old_, new_, env, ch, pre, post, p, depth);
    }
  }

  lemma StartsAgree(env: Env, ch: Chains, x: Rule, r: Rule, tail: seq<Rule>, p: Packet, depth: nat)
    requires ActionOf(env, x) == ActionOf(env, r)
    requires ActionOf(env, r) == Next || (Matches(env, x, p) <==> Matches(env, r, p))
    ensures Run(env, ch, [x] + tail, p, depth) == Run(env, ch, [r] + tail, p, depth)
  {
    hide Matches, ActionOf;
    assert ([x] + tail)[1..] == tail && ([r] + tail)[1..] == tail;
  }

  /** An old-side packet and a reading of the address tokens under which all tests of the rule hold. */
  ghost function Witness(ts: seq<AddrTest>, o: Token, n: Token, old_: Block, new_: Block):
      (w: (Packet, iset<(Token, Addr)>))
    requires old_.Valid() && new_.Valid() && Within(old_, new_) && old_.prefix <= 31 && 1 <= new_.prefix
  {
    TwoOld(old_);
    var out := Outside(new_);
    var src: Addr := if AddrTest(true, true, n) in ts then out else old_.base;
    var dst: Addr := if AddrTest(true, false, n) in ts then out else old_.base + 1;
    (Packet(src, dst, 0),
     iset t: Token, a: Addr
       | if t == o then old_.Has(a) else if t == n then new_.Has(a)
         else (AddrTest(false, true, t) in ts && a == src) || (AddrTest(false, false, t) in ts && a == dst)
       :: (t, a))
  }

  lemma TwoOld(n: Block)
    requires n.Valid() && n.prefix <= 31
    ensures n.Has(n.base) && n.Has(n.base + 1) && 0 <= n.base + 1 < SPACE
  {
    Planner.LongerIsSmaller(n.prefix, 32);
    Bitwise.Pow2Words();
    BlockInSpace(n);
  }

  ghost function Outside(n: Block): (a: Addr)
    requires n.Valid() && 1 <= n.prefix
    ensures !n.Has(a)
  {
    Planner.LongerIsSmaller(0, n.prefix);
    Bitwise.Pow2Words();
    BlockInSpace(n);
    if n.base > 0 then 0 else n.base + Size(n.prefix)
  }

  lemma WitnessHolds(r: Rule, o: Token, n: Token, old_: Block, new_: Block, env: Env, p: Packet)
    requires old_.Valid() && new_.Valid() && Within(old_, new_) && old_.prefix <= 31 && 1 <= new_.prefix
    requires !Keyword(o) && !Keyword(n) && o != n && !Negated(r, o, n) && OneTestEach(r)
    requires p == Witness(Parse(r).tests, o, n, old_, new_).0 && env.nets == Witness(Parse(r).tests, o, n, old_, new_).1
    ensures PoolTokens(env, o, n, old_, new_) && OldSide(p, old_, new_)
    ensures forall i :: 0 <= i < |Parse(r).tests| ==> TestHolds(env, Parse(r).tests[i], p)
  {
    hide Parse, Negated, Size;
    TwoOld(old_);
    NoNegatedTest(r, o, n);
    var ts := Parse(r).tests;
    assert p.src != p.dst || (AddrTest(true, true, n) in ts && AddrTest(true, false, n) in ts);
    forall i | 0 <= i < |ts|
      ensures TestHolds(env, ts[i], p)
    {
      var t := ts[i];
      assert forall j :: 0 <= j < |ts| && j != i ==> ts[j].isSrc != t.isSrc;
    }
  }

  /** A copy that differs outside its addresses decides some old-side packet differently. */
  lemma UnsafeIsHarmful(r: Rule, o: Token, n: Token, old_: Block, new_: Block)
    requires old_.Valid() && new_.Valid() && Within(old_, new_) && old_.prefix <= 31 && 1 <= new_.prefix
    requires !Keyword(o) && !Keyword(n) && o != n && !Negated(r, o, n) && OneTestEach(r) && !SafeToCopy(r, o)
    ensures !Harmless(r, o, n, old_, new_)
  {
    var x, pr := Subst(r, o, n), Parse(r);
    var (p, nets) := Witness(pr.tests, o, n, old_, new_);
    var to, tx := pr.target, Subst(pr.target, o, n);
    var oo, ox := pr.others, Subst(pr.others, o, n);
    ParseSubst(r, o, n);
    var env := Env(nets,
                   if o in to then iset q: Rule | true :: (q, p) else iset{(ox, p)},
                   if o in to then imap[to := Stop(2)] else imap[],
                   Stop(1));
    WitnessHolds(r, o, n, old_, new_, env, p);
    CopyActsAlikeTests(env, r, o, n, old_, new_, p);
    ChangedWhere(to, o, n);
    ChangedWhere(oo, o, n);
    var before: seq<Rule>, after := [] + [r] + [], [] + [x, r] + [];
    assert before == [r] && after == [x, r];
    if o in to {
      assert Matches(env, x, p) && Matches(env, r, p);
    } else {
      assert Matches(env, x, p) && !Matches(env, r, p);
    }
    assert Run(env, map[], after, p, 0) == Decided(1);
    assert Run(env, map[], before, p, 0) == if o in to then Decided(2) else Fell;
  }

  lemma ChangedWhere(r: Rule, o: Token, n: Token)
    requires o != n
    ensures o in r <==> Subst(r, o, n) != r
  {
    if o in r {
      var i :| 0 <= i < |r| && r[i] == o;
      assert Subst(r, o, n)[i] != r[i];
    } else {
      SubstAbsent(r, o, n);
    }
  }

  lemma CopyActsAlikeTests(env: Env, r: Rule, o: Token, n: Token, old_: Block, new_: Block, p: Packet)
    requires PoolTokens(env, o, n, old_, new_) && OldSide(p, old_, new_)
    requires forall i :: 0 <= i < |Parse(r).tests| ==> TestHolds(env, Parse(r).tests[i], p)
    ensures forall i :: 0 <= i < |Parse(Subst(r, o, n)).tests| ==> TestHolds(env, Parse(Subst(r, o, n)).tests[i], p)
  {
    hide Parse, Subst;
    ParseSubst(r, o, n);
  }

  /** A copied rule is harmless to old traffic exactly when it names the pool only as an address or has no target. */
  lemma HarmlessExactly(r: Rule, o: Token, n: Token, old_: Block, new_: Block)
    requires old_.Valid() && new_.Valid() && Within(old_, new_) && old_.prefix <= 31 && 1 <= new_.prefix
    requires !Keyword(o) && !Keyword(n) && o != n && Eligible(r, o, n) && OneTestEach(r)
    ensures Harmless(r, o, n, old_, new_) <==> SafeToCopy(r, o)
  {
    if SafeToCopy(r, o) {
      SafeIsHarmless(r, o, n, old_, new_);
    } else {
      UnsafeIsHarmful(r, o, n, old_, new_);
    }
  }

  /** An example: translating some network into the old pool. Its copy translates into the new one instead. */
  lemma NetmapCopyIsHarmful(o: Token, n: Token, net: Token, old_: Block, new_: Block)
    requires old_.Valid() && new_.Valid() && Within(old_, new_) && old_.prefix <= 31 && 1 <= new_.prefix
    requires !Keyword(o) && !Keyword(n) && o != n && net != o && net != "!" && o != "NETMAP" && o != "--to"
    ensures var r := ["-s", net, "-j", "NETMAP", "--to", o];
            Eligible(r, o, n) && !Harmless(r, o, n, old_, new_)
  {
    var r := ["-s", net, "-j", "NETMAP", "--to", o];
    var t := r[2..];
    assert t == ["-j", "NETMAP", "--to", o];
    assert NextPart(t) == Target && Parse(t) == Parsed([], [], t);
    assert NextPart(r) == PosTest && Parse(r) == Parsed([AddrTest(false, true, net)], [], t);
    assert r[5] == o && t[3] == o;
    assert Subst(r, o, n)[3] == "NETMAP";
    assert !Negated(r, o, n);
    UnsafeIsHarmful(r, o, n, old_, new_);
  }

  // ---- distinct rules can share a copy ----

  /**
   * Three distinct rules, none negated and no copy present: accept old-to-new, drop the rest,
   * accept new-to-old. Both accepting rules have the same copy, so only the last one is copied,
   * behind the drop; traffic inside the added range is then dropped where the old pool's was accepted.
   */
  lemma DistinctRulesNotEnough(o: Token, n: Token)
    requires !Keyword(o) && !Keyword(n) && o != n
    requires o != "ACCEPT" && n != "ACCEPT" && o != "DROP"
    ensures var a, d, b := ["-s", o, "-d", n, "-j", "ACCEPT"], ["-j", "DROP"], ["-s", n, "-d", o, "-j", "ACCEPT"];
            var rs := [a, d, b];
            var both := ["-s", n, "-d", n, "-j", "ACCEPT"];
            && a != d && a != b && b != d
            && (forall r :: r in rs ==> !Negated(r, o, n) && Subst(r, o, n) !in [a, b])
            && both !in rs && Subst(a, o, n) == both && Subst(b, o, n) == both
            && !Fresh(rs, o, n)
            && Mirror(rs, o, n) == [a, d, both, b]
  {
    var a, d, b := ["-s", o, "-d", n, "-j", "ACCEPT"], ["-j", "DROP"], ["-s", n, "-d", o, "-j", "ACCEPT"];
    var rs := [a, d, b];
    var both := ["-s", n, "-d", n, "-j", "ACCEPT"];
    assert a[1] == o && b[3] == o && d[0] == "-j";
    assert Subst(a, o, n) == both && Subst(b, o, n) == both && Subst(d, o, n) == d;
    assert a != both && b != both by {
      assert a[1] != both[1] && b[3] != both[3];
    }
    assert |d| == 2;
    assert both !in rs;
    assert !Negated(a, o, n) && !Negated(b, o, n) && !Negated(d, o, n);
    assert MirrorFrom(rs, 3, o, n) == rs;
    assert MirrorFrom(rs, 2, o, n) == [a, d, both, b];
    assert MirrorFrom(rs, 1, o, n) == [a, d, both, b];
    assert MirrorFrom(rs, 0, o, n) == [a, d, both, b];
  }

  /** A copy shared with a rule behind the drop is overtaken. */
  lemma SharedCopyIsOvertaken(o: Token, n: Token)
    requires !Keyword(o) && !Keyword(n) && o != n
    requires o != "ACCEPT" && n != "ACCEPT" && o != "DROP"
    ensures !InOrder([["-s", o, "-d", n, "-j", "ACCEPT"], ["-j", "DROP"], ["-s", n, "-d", o, "-j", "ACCEPT"]], o, n)
  {
    hide Skipped, Eligible, Subst, Fresh;
    var a, d, b := ["-s", o, "-d", n, "-j", "ACCEPT"], ["-j", "DROP"], ["-s", n, "-d", o, "-j", "ACCEPT"];
    var both := ["-s", n, "-d", n, "-j", "ACCEPT"];
    var rs := [a, d, b];
    var v := View(InAdded, InAdded, {}, {}, {});
    DistinctRulesNotEnough(o, n);
    SharedCopyIsSkipped(o, n);
    ParseTwoTests(o, n, "ACCEPT");
    ParseTwoTests(n, n, "ACCEPT");
    assert NextPart(d) == Target && Parse(d) == Parsed([], [], d);
    assert !Sees(v, Parse(a).tests[0], o, n);
    assert d[1] == "DROP";
    assert Overtaken(rs, 0, 1, v, o, n);
  }

  lemma SharedCopyIsSkipped(o: Token, n: Token)
    requires !Keyword(o) && !Keyword(n) && o != n
    requires o != "ACCEPT" && n != "ACCEPT" && o != "DROP"
    ensures var a, d, b := ["-s", o, "-d", n, "-j", "ACCEPT"], ["-j", "DROP"], ["-s", n, "-d", o, "-j", "ACCEPT"];
            Skipped([a, d, b], 0, o, n) && InPlace([a, d, b], 1, o, n) == d
  {
    hide Fresh, Mirror;
    DistinctRulesNotEnough(o, n);
    var a, d, b := ["-s", o, "-d", n, "-j", "ACCEPT"], ["-j", "DROP"], ["-s", n, "-d", o, "-j", "ACCEPT"];
    assert a[1] == o && b[3] == o;
    assert a in [a, d, b] && b in [a, d, b] && [a, d, b][2] == b;
    assert Eligible(a, o, n) && Eligible(b, o, n);
    assert o !in d;
  }

  /** What that costs a packet inside the added range. */
  lemma SharedCopyDropsNewRange(env: Env, o: Token, n: Token, old_: Block, new_: Block, p: Packet, h: Hosts)
    requires PoolTokens(env, o, n, old_, new_) && OldHosts(h, old_)
    requires new_.Has(p.src) && !old_.Has(p.src) && new_.Has(p.dst) && !old_.Has(p.dst)
    requires env.Act(["-j", "ACCEPT"]) == Stop(1) && env.Act(["-j", "DROP"]) == Stop(0)
    ensures var a, d, b := ["-s", o, "-d", n, "-j", "ACCEPT"], ["-j", "DROP"], ["-s", n, "-d", o, "-j", "ACCEPT"];
            && Run(env, map[], [a, d, b], Image(p, h, old_, new_), 0) == Decided(1)
            && Run(env, map[], [a, d, ["-s", n, "-d", n, "-j", "ACCEPT"], b], p, 0) == Decided(0)
  {
    var a, d, b := ["-s", o, "-d", n, "-j", "ACCEPT"], ["-j", "DROP"], ["-s", n, "-d", o, "-j", "ACCEPT"];
    var both := ["-s", n, "-d", n, "-j", "ACCEPT"];
    var q := Image(p, h, old_, new_);
    ParseTwoTests(o, n, "ACCEPT");
    assert NextPart(d) == Target && Parse(d) == Parsed([], [], d);
    assert new_.Has(h.dst);
    assert TestHolds(env, AddrTest(false, true, o), q) && TestHolds(env, AddrTest(false, false, n), q);
    assert Matches(env, a, q);
    assert !TestHolds(env, AddrTest(false, true, o), p);
    assert Parse(a).tests[0] == AddrTest(false, true, o);
    assert !Matches(env, a, p) && Matches(env, d, p);
    var rest := [d, both, b];
    assert [a, d, both, b][1..] == rest;
  }

  lemma ParseTwoTests(s: Token, t: Token, target: Token)
    ensures Parse(["-s", s, "-d", t, "-j", target]) ==
            Parsed([AddrTest(false, true, s), AddrTest(false, false, t)], [], ["-j", target])
  {
    var r := ["-s", s, "-d", t, "-j", target];
    var r2, r4 := r[2..], ["-j", target];
    assert r2[2..] == r4;
    assert NextPart(r4) == Target && Parse(r4) == Parsed([], [], r4);
    assert NextPart(r2) == PosTest && Parse(r2) == Parsed([AddrTest(false, false, t)], [], r4);
    assert NextPart(r) == PosTest;
  }

  // ---- exactly when the added range is served ----

  lemma ShorterIsTwice(p: Prefix, q: Prefix)
    requires p < q
    ensures Size(p) >= 2 * Size(q)
  {
    Bitwise.Pow2Mono(32 - q, 32 - p - 1);
  }

  /** The sides of the pools as intervals. */
  lemma SideBounds(old_: Block, new_: Block) returns (n0: int, o0: int, o1: int, n1: int)
    requires old_.Valid() && new_.Valid() && Within(old_, new_) && 1 <= new_.prefix < old_.prefix <= 31
    ensures 0 <= n0 <= o0 < o0 + 1 < o1 <= n1 <= SPACE && n1 - n0 >= 2 * (o1 - o0) && SPACE >= 2 * (n1 - n0)
    ensures forall a: Addr :: SideOf(a, old_, new_) ==
              if o0 <= a < o1 then InOld else if n0 <= a < n1 then InAdded else Elsewhere
  {
    hide Size;
    TwoOld(old_);
    ShorterIsTwice(new_.prefix, old_.prefix);
    ShorterIsTwice(0, new_.prefix);
    WholeSpace();
    BlockInSpace(new_);
    WithinBounds(old_, new_);
    n0, o0, o1, n1 := new_.base, old_.base, old_.base + Size(old_.prefix), new_.base + Size(new_.prefix);
  }

  lemma WithinBounds(m: Block, n: Block)
    requires m.Valid() && n.Valid() && Within(m, n)
    ensures n.base <= m.base && m.base + Size(m.prefix) <= n.base + Size(n.prefix)
  {
    BlockInSpace(m);
    BlockInSpace(n);
    assert m.Has(m.base) && m.Has(m.base + Size(m.prefix) - 1);
  }

  /** Two addresses on the given side of the pools. */
  lemma TwoOnSide(side: Side, old_: Block, new_: Block) returns (a: Addr, b: Addr)
    requires old_.Valid() && new_.Valid() && Within(old_, new_) && 1 <= new_.prefix < old_.prefix <= 31
    ensures a != b && SideOf(a, old_, new_) == side == SideOf(b, old_, new_)
  {
    var n0, o0, o1, n1 := SideBounds(old_, new_);
    hide *;
    match side
    case InOld => a, b := o0, o0 + 1;
    case InAdded =>
      a := if n0 < o0 then n0 else n1 - 1;
      b := if n0 + 1 < o0 then n0 + 1 else if n0 < o0 then n1 - 1 else n1 - 2;
    case Elsewhere =>
      a := if n0 > 0 then 0 else SPACE - 1;
      b := if n0 > 1 then 1 else if n0 > 0 then SPACE - 1 else SPACE - 2;
  }

  lemma WholeSpace()
    ensures Size(0) == SPACE
  {
    Bitwise.Pow2Words();
  }

  /** Every view is the view of some packet, with stand-ins to match. */
  lemma SomePacketLooksLike(v: View, old_: Block, new_: Block) returns (p: Packet, h: Hosts)
    requires old_.Valid() && new_.Valid() && Within(old_, new_) && 1 <= new_.prefix < old_.prefix <= 31
    ensures LooksLike(v, p, h, old_, new_)
  {
    var h1, h2 := TwoOnSide(InOld, old_, new_);
    var s1, s2 := TwoOnSide(v.src, old_, new_);
    var d1, d2 := TwoOnSide(v.dst, old_, new_);
    var src := if v.src.InOld? then h1 else s1;
    var dst := if v.dst.InOld? then h2 else if d1 == src then d2 else d1;
    p, h := Packet(src, dst, 0), Hosts(h1, h2);
  }

  /**
   * The table the command run leaves serves the added range, in every reading of the tokens, exactly when
   * the check on the chains before the run finds no skipped copy overtaken by a rule with another target.
   */
  lemma ServedExactly(ch: Chains, saveOut: string, o: Token, n: Token, old_: Block, new_: Block)
    requires Lists(saveOut, ch) && !Keyword(o) && !Keyword(n) && o != n
    requires old_.Valid() && new_.Valid() && Within(old_, new_) && 1 <= new_.prefix < old_.prefix <= 31
    requires forall d :: AllServable(Chain(ch, d), o, n)
    ensures var ch' := RunAll(ch, Reverse(CmdsFrom(TokenLines(saveOut), 0, o, n)));
            ServesNewRange(ch, ch', o, n, old_, new_) <==> forall c :: c in ch ==> CheckOrder(ch[c], o, n)
  {
    hide InOrder, CheckOrder, AllServable, Mirror, Lists, RunAll;
    var ch' := RunAll(ch, Reverse(CmdsFrom(TokenLines(saveOut), 0, o, n)));
    CommandsMirrorEveryChain(ch, saveOut, o, n);
    forall c
      ensures InOrder(Chain(ch, c), o, n) <==> (c in ch ==> CheckOrder(ch[c], o, n))
    {
      ChainInOrder(ch, c, o, n);
    }
    if forall c :: InOrder(Chain(ch, c), o, n) {
      InOrderServes(ch, ch', o, n, old_, new_);
    } else {
      var c :| !InOrder(Chain(ch, c), o, n);
      OvertakenIsNotServed(ch, ch', c, o, n, old_, new_);
    }
  }

  lemma ChainInOrder(ch: Chains, c: Token, o: Token, n: Token)
    requires !Keyword(o) && !Keyword(n) && AllServable(Chain(ch, c), o, n)
    ensures InOrder(Chain(ch, c), o, n) <==> (c in ch ==> CheckOrder(ch[c], o, n))
  {
    hide CheckOrder, Skipped, Hits, InPlace, AllServable;
    OrderIsCheckable(Chain(ch, c), o, n);
  }

  lemma InOrderServes(ch: Chains, ch': Chains, o: Token, n: Token, old_: Block, new_: Block)
    requires old_.Valid() && new_.Valid() && o != n
    requires forall d :: Chain(ch', d) == Mirror(Chain(ch, d), o, n)
    requires forall d :: AllServable(Chain(ch, d), o, n) && InOrder(Chain(ch, d), o, n)
    ensures ServesNewRange(ch, ch', o, n, old_, new_)
  {
    hide InOrder, AllServable, Mirror, Run, PoolTokens, OldHosts, Indifferent, Image;
    forall env: Env, p: Packet, h: Hosts, c: Token, depth: nat
      | && PoolTokens(env, o, n, old_, new_) && OldHosts(h, old_)
        && (forall d :: d in ch ==> AllIndifferent(env, ch[d], p, Image(p, h, old_, new_), o))
      ensures Run(env, ch', Chain(ch', c), p, depth) == Run(env, ch, Chain(ch, c), Image(p, h, old_, new_), depth)
    {
      forall d
        ensures AllIndifferent(env, Chain(ch, d), p, Image(p, h, old_, new_), o)
      {
        assert d in ch ==> Chain(ch, d) == ch[d];
      }
      NewRangeEquivalence(env, ch, ch', c, p, depth, h, o, n, old_, new_);
    }
  }

  lemma OvertakenIsNotServed(ch: Chains, ch': Chains, c: Token, o: Token, n: Token, old_: Block, new_: Block)
    requires !Keyword(o) && !Keyword(n) && o != n
    requires old_.Valid() && new_.Valid() && Within(old_, new_) && 1 <= new_.prefix < old_.prefix <= 31
    requires forall d :: Chain(ch', d) == Mirror(Chain(ch, d), o, n)
    requires AllServable(Chain(ch, c), o, n) && !InOrder(Chain(ch, c), o, n)
    ensures !ServesNewRange(ch, ch', o, n, old_, new_)
  {
    hide AllServable, Mirror, Run, PoolTokens, Indifferent, Image, Overtaken, LooksLike, Hits, Matches, Reading;
    var k: nat, i: nat, v :| Overtaken(Chain(ch, c), k, i, v, o, n);
    OvertakenPlaces(Chain(ch, c), k, i, v, o, n);
    var p, h := SomePacketLooksLike(v, old_, new_);
    LooksLikeHosts(v, p, h, old_, new_);
    OvertakenParts(ch, ch', c, k, i, v, p, h, o, n, old_, new_);
    var a, b := Parse(Chain(ch, c)[k]).target, Parse(Chain(ch, c)[i]).target;
    var env := Reading(v, p, h, a, b, o, n, old_, new_);
    forall r: Rule
      ensures PoolTokens(env, o, n, old_, new_) && Indifferent(env, r, p, Image(p, h, old_, new_), o)
    {
      ReadingIsPlain(v, p, h, a, b, o, n, old_, new_, r);
    }
    assert PoolTokens(env, o, n, old_, new_) by {
      ReadingIsPlain(v, p, h, a, b, o, n, old_, new_, []);
    }
  }

  lemma OvertakenPlaces(rs: seq<Rule>, k: nat, i: nat, v: View, o: Token, n: Token)
    requires Overtaken(rs, k, i, v, o, n)
    ensures k < i < |rs|
  {
  }
}
