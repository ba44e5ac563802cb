/** Which tables serve the added range after the command run, and the reading in which the others fail. */
module ServedTables {
  import opened IPv4
  import opened Firewall
  import opened Verdict
  import opened NewRange

  // ---- served tables ----

  /** The table ch' gives every packet of the added range what ch gives its image, in every reading of the tokens. */
  ghost predicate ServesNewRange(ch: Chains, ch': Chains, o: Token, n: Token, old_: Block, new_: Block)
    requires old_.Valid() && new_.Valid()
  {
    forall env: Env, p: Packet, h: Hosts, c: Token, depth: nat ::
      && PoolTokens(env, o, n, old_, new_) && OldHosts(h, old_)
      && (forall d :: d in ch ==> AllIndifferent(env, ch[d], p, Image(p, h, old_, new_), o)) ==>
        Run(env, ch', Chain(ch', c), p, depth) == Run(env, ch, Chain(ch, c), Image(p, h, old_, new_), depth)
  }

  /** The chain is mirrored and servable, and a packet that overtakes no copy in it looks to it like its image. */
  ghost predicate ChainReady(env: Env, ch: Chains, ch': Chains, d: Token, p: Packet, h: Hosts, o: Token, n: Token,
                             old_: Block, new_: Block)
    requires old_.Valid() && new_.Valid()
  {
    && Chain(ch', d) == Mirror(Chain(ch, d), o, n) && AllServable(Chain(ch, d), o, n)
    && InOrderFor(Chain(ch, d), ViewOf(env, Chain(ch, d), p, old_, new_), o, n)
    && AllIndifferent(env, Chain(ch, d), p, Image(p, h, old_, new_), o)
  }

  /** One chain, given that called chains agree. */
  lemma ChainIsServed(env: Env, ch: Chains, ch': Chains, c: Token, p: Packet, depth: nat, h: Hosts,
                      o: Token, n: Token, old_: Block, new_: Block)
    requires PoolTokens(env, o, n, old_, new_) && OldHosts(h, old_) && o != n
    requires ChainReady(env, ch, ch', c, p, h, o, n, old_, new_)
    requires forall a :: Effect(env, ch', a, p, depth) == Effect(env, ch, a, Image(p, h, old_, new_), depth)
    ensures Run(env, ch', Chain(ch', c), p, depth) == Run(env, ch, Chain(ch, c), Image(p, h, old_, new_), depth)
  {
    assert old_.Valid() && new_.Valid();
    var q, rs := Image(p, h, old_, new_), Chain(ch, c);
    assert Chain(ch', c) == Mirror(rs, o, n) && AllServable(rs, o, n) && AllIndifferent(env, rs, p, q, o);
    var v := ViewOf(env, rs, p, old_, new_);
    assert InOrderFor(rs, v, o, n);
    hide *;
    forall j | 0 <= j < |rs|
      ensures Corresponds(env, rs, j, p, q, v, o, n)
    {
      RuleCorresponds(env, rs, j, p, h, o, n, old_, new_);
    }
    ServedWalk(env, ch, ch', rs, p, q, v, depth, o, n);
    MirrorRuns(env, ch', rs, p, h, depth, o, n, old_, new_);
  }

  /**
   * A packet of the added range that overtakes no copy meets exactly the outcome that the original chains
   * give its image: through jumps, gotos and returns, from any chain.
   */
  lemma {:induction false} PacketIsServed(env: Env, ch: Chains, ch': Chains, c: Token, p: Packet, depth: nat,
                                          h: Hosts,
                                          o: Token, n: Token, old_: Block, new_: Block)
    requires PoolTokens(env, o, n, old_, new_) && OldHosts(h, old_) && o != n
    requires forall d :: ChainReady(env, ch, ch', d, p, h, o, n, old_, new_)
    ensures Run(env, ch', Chain(ch', c), p, depth) == Run(env, ch, Chain(ch, c), Image(p, h, old_, new_), depth)
    decreases depth
  {
    assert old_.Valid() && new_.Valid();
    hide *;
    var q := Image(p, h, old_, new_);
    forall d | depth > 0
      ensures Run(env, ch', Chain(ch', d), p, depth - 1) == Run(env, ch, Chain(ch, d), q, depth - 1)
    {
      PacketIsServed(env, ch, ch', d, p, depth - 1, h, o, n, old_, new_);
    }
    SameEffects(env, ch, ch', p, q, depth);
    ChainIsServed(env, ch, ch', c, p, depth, h, o, n, old_, new_);
  }

  /** With no copy overtaken at all, so does every packet. */
  lemma NewRangeEquivalence(env: Env, ch: Chains, ch': Chains, c: Token, p: Packet, depth: nat, h: Hosts,
                            o: Token, n: Token, old_: Block, new_: Block)
    requires PoolTokens(env, o, n, old_, new_) && OldHosts(h, old_) && o != n
    requires forall d :: Chain(ch', d) == Mirror(Chain(ch, d), o, n)
    requires forall d :: AllServable(Chain(ch, d), o, n) && InOrder(Chain(ch, d), o, n)
    requires forall d :: AllIndifferent(env, Chain(ch, d), p, Image(p, h, old_, new_), o)
    ensures Run(env, ch', Chain(ch', c), p, depth) == Run(env, ch, Chain(ch, c), Image(p, h, old_, new_), depth)
  {
    assert old_.Valid() && new_.Valid();
    hide Mirror, AllServable, InOrder, InOrderFor, AllIndifferent, Image, Run, ViewOf, PoolTokens, OldHosts, Chain;
    forall d
      ensures ChainReady(env, ch, ch', d, p, h, o, n, old_, new_)
    {
      InOrderForAll(Chain(ch, d), ViewOf(env, Chain(ch, d), p, old_, new_), o, n);
    }
    PacketIsServed(env, ch, ch', c, p, depth, h, o, n, old_, new_);
  }

  lemma InOrderForAll(rs: seq<Rule>, v: View, o: Token, n: Token)
    requires InOrder(rs, o, n)
    ensures InOrderFor(rs, v, o, n)
  {
  }

  lemma SameEffects(env: Env, ch: Chains, ch': Chains, p: Packet, q: Packet, depth: nat)
    requires depth > 0 ==> forall d ::
               Run(env, ch', Chain(ch', d), p, depth - 1) == Run(env, ch, Chain(ch, d), q, depth - 1)
    ensures forall a :: Effect(env, ch', a, p, depth) == Effect(env, ch, a, q, depth)
  {
    hide Run, Chain;
  }

  lemma MirrorRuns(env: Env, ch: Chains, rs: seq<Rule>, p: Packet, h: Hosts, depth: nat, o: Token, n: Token,
                   old_: Block, new_: Block)
    requires PoolTokens(env, o, n, old_, new_) && OldHosts(h, old_)
    requires AllServable(rs, o, n) && AllIndifferent(env, rs, p, Image(p, h, old_, new_), o)
    ensures Run(env, ch, Mirror(rs, o, n), p, depth) == Run(env, ch, InPlaceFrom(rs, 0, o, n), p, depth)
  {
    hide Run, Placed, MirrorFrom, InPlaceFrom, AllServable, AllIndifferent, PoolTokens;
    MirrorPlaces(rs, 0, o, n);
    assert rs[..0] + Placed(rs, 0, o, n) == Placed(rs, 0, o, n);
    PlacedRuns(env, ch, rs, 0, p, h, depth, o, n, old_, new_);
  }

  /** The same for the table the command run leaves, starting from a listing. */
  lemma NewRangeAfterRun(env: Env, ch: Chains, saveOut: string, c: Token, p: Packet, depth: nat, h: Hosts,
                         o: Token, n: Token, old_: Block, new_: Block)
    requires PoolTokens(env, o, n, old_, new_) && OldHosts(h, old_) && o != n && Lists(saveOut, ch)
    requires forall d :: AllServable(Chain(ch, d), o, n) && InOrder(Chain(ch, d), o, n)
    requires forall d :: AllIndifferent(env, Chain(ch, d), p, Image(p, h, old_, new_), o)
    ensures var ch' := RunAll(ch, Reverse(CmdsFrom(TokenLines(saveOut), 0, o, n)));
            Run(env, ch', Chain(ch', c), p, depth) == Run(env, ch, Chain(ch, c), Image(p, h, old_, new_), depth)
  {
    hide PoolTokens, OldHosts, AllServable, AllIndifferent, InOrder, Run, Image;
    CommandsMirrorEveryChain(ch, saveOut, o, n);
    NewRangeEquivalence(env, ch, RunAll(ch, Reverse(CmdsFrom(TokenLines(saveOut), 0, o, n))), c, p, depth, h, o, n,
      old_, new_);
  }

  /** And old traffic after the run, in order or not. */
  lemma OldTrafficAfterRun(env: Env, ch: Chains, saveOut: string, c: Token, p: Packet, depth: nat,
                           o: Token, n: Token, old_: Block, new_: Block)
    requires PoolTokens(env, o, n, old_, new_) && OldSide(p, old_, new_) && Lists(saveOut, ch)
    requires forall d :: AllSafe(Chain(ch, d), o, n)
    ensures var ch' := RunAll(ch, Reverse(CmdsFrom(TokenLines(saveOut), 0, o, n)));
            Run(env, ch', Chain(ch', c), p, depth) == Run(env, ch, Chain(ch, c), p, depth)
  {
    hide AllSafe, PoolTokens, OldSide, Run;
    CommandsMirrorEveryChain(ch, saveOut, o, n);
    OldTrafficOfMirror(env, ch, RunAll(ch, Reverse(CmdsFrom(TokenLines(saveOut), 0, o, n))), c, p, depth, o, n, old_,
      new_);
  }

  lemma OldTrafficOfMirror(env: Env, ch: Chains, ch': Chains, c: Token, p: Packet, depth: nat,
                           o: Token, n: Token, old_: Block, new_: Block)
    requires PoolTokens(env, o, n, old_, new_) && OldSide(p, old_, new_)
    requires forall d :: AllSafe(Chain(ch, d), o, n) && Chain(ch', d) == Mirror(Chain(ch, d), o, n)
    ensures Run(env, ch', Chain(ch', c), p, depth) == Run(env, ch, Chain(ch, c), p, depth)
  {
    hide PoolTokens, OldSide, AllSafe, Run;
    forall d
      ensures Mirrored(Chain(ch, d), Chain(ch', d), o, n)
    {
      MirrorIsMirrored(Chain(ch, d), 0, o, n);
      assert Chain(ch, d)[0..] == Chain(ch, d) && Chain(ch', d)[0..] == Chain(ch', d);
    }
    forall d | d in ch
      ensures AllSafe(ch[d], o, n)
    {
      assert Chain(ch, d) == ch[d];
    }
    OldTrafficUntouched(env, ch, ch', Chain(ch, c), Chain(ch', c), p, depth, o, n, old_, new_);
  }

  // ---- the whole firewall ----

  /** In each of the filter, nat and mangle tables that is listed, old traffic fares as before. */
  lemma FirewallKeepsOldTraffic(env: Env, tables: map<string, Chains>, saves: map<string, string>, t: string, c: Token,
                                p: Packet, depth: nat, o: Token, n: Token, old_: Block, new_: Block)
    requires PoolTokens(env, o, n, old_, new_) && OldSide(p, old_, new_)
    requires t in tables && t in saves && Lists(saves[t], tables[t]) && t in {"filter", "nat", "mangle"}
    requires forall d :: AllSafe(Chain(tables[t], d), o, n)
    ensures var after := WidenTables(TABLES, tables, saves, o, n)[t];
            Run(env, after, Chain(after, c), p, depth) == Run(env, tables[t], Chain(tables[t], c), p, depth)
  {
    hide AllSafe, PoolTokens, OldSide, Run, Lists, Mirror, WidenTables;
    FirewallMirrorsTables(tables, saves, o, n, t);
    OldTrafficOfMirror(env, tables[t], WidenTables(TABLES, tables, saves, o, n)[t], c, p, depth, o, n, old_, new_);
  }

  /** And a packet of the added range meets what its stand-in met. */
  lemma FirewallServesNewRange(env: Env, tables: map<string, Chains>, saves: map<string, string>, t: string, c: Token,
                               p: Packet, depth: nat, h: Hosts, o: Token, n: Token, old_: Block, new_: Block)
    requires PoolTokens(env, o, n, old_, new_) && OldHosts(h, old_) && o != n
    requires t in tables && t in saves && Lists(saves[t], tables[t]) && t in {"filter", "nat", "mangle"}
    requires forall d :: AllServable(Chain(tables[t], d), o, n) && InOrder(Chain(tables[t], d), o, n)
    requires forall d :: AllIndifferent(env, Chain(tables[t], d), p, Image(p, h, old_, new_), o)
    ensures var after := WidenTables(TABLES, tables, saves, o, n)[t];
            Run(env, after, Chain(after, c), p, depth) ==
              Run(env, tables[t], Chain(tables[t], c), Image(p, h, old_, new_), depth)
  {
    hide PoolTokens, OldHosts, AllServable, AllIndifferent, InOrder, Run, Image, Lists, Mirror, WidenTables;
    FirewallMirrorsTables(tables, saves, o, n, t);
    NewRangeEquivalence(env, tables[t], WidenTables(TABLES, tables, saves, o, n)[t], c, p, depth, h, o, n, old_, new_);
  }

  // ---- chains that are in order ----

  /** A skipped copy that stands in front of its rule is never overtaken. */
  predicate CopiesInFront(rs: seq<Rule>, o: Token, n: Token) {
    forall k :: 0 <= k < |rs| && Skipped(rs, k, o, n) ==> Subst(rs[k], o, n) in rs[..k]
  }

  lemma CopiesInFrontSuffice(rs: seq<Rule>, o: Token, n: Token)
    requires !Keyword(o) && !Keyword(n) && o != n && AllServable(rs, o, n) && CopiesInFront(rs, o, n)
    ensures InOrder(rs, o, n)
  {
    hide Hits, Skipped, Parse, Subst, InPlace;
    forall k: nat, i: nat, v
      ensures !Overtaken(rs, k, i, v, o, n)
    {
      if k < i < |rs| && Skipped(rs, k, o, n) && Hits(v, Subst(rs[k], o, n), o, n) {
        var j := CopyMetBefore(rs, k, v, o, n);
        assert j < k < i;
      }
    }
  }

  lemma CopyMetBefore(rs: seq<Rule>, k: nat, v: View, o: Token, n: Token) returns (j: nat)
    requires !Keyword(o) && !Keyword(n) && o != n && AllServable(rs, o, n)
    requires k < |rs| && Subst(rs[k], o, n) in rs[..k] && Hits(v, Subst(rs[k], o, n), o, n)
    ensures j < k && Hits(v, Subst(rs[j], o, n), o, n) && Parse(rs[j]).target == Parse(rs[k]).target
  {
    hide Hits, Skipped, Parse, Subst, InPlace;
    var x := Subst(rs[k], o, n);
    j :| 0 <= j < k && rs[j] == x;
    CopyOfCopy(rs[k], o, n);
    ServableTarget(rs[k], o, n);
  }

  lemma CopyOfCopy(r: Rule, o: Token, n: Token)
    ensures Subst(Subst(r, o, n), o, n) == Subst(r, o, n)
  {
  }

  lemma ServableTarget(r: Rule, o: Token, n: Token)
    requires !Keyword(o) && !Keyword(n) && Servable(r, o, n)
    ensures Parse(Subst(r, o, n)).target == Parse(r).target
  {
    ParseSubst(r, o, n);
    SubstEmpty(o, n);
    if Parse(r).target != [] {
      SubstAbsent(Parse(r).target, o, n);
    }
  }

  lemma FreshIsInOrder(rs: seq<Rule>, o: Token, n: Token)
    requires Fresh(rs, o, n)
    ensures InOrder(rs, o, n)
  {
    hide Hits, Parse, Subst, Eligible, InPlace;
    forall k: nat | k < |rs|
      ensures !Skipped(rs, k, o, n)
    {
      assert Eligible(rs[k], o, n) ==> Subst(rs[k], o, n) !in rs;
    }
  }

  /** What an operator can check before the first run: no rule names the new pool, and no rule to copy occurs twice. */
  predicate FirstRun(rs: seq<Rule>, o: Token, n: Token) {
    && (forall r :: r in rs ==> n !in r)
    && (forall i, j :: 0 <= i < j < |rs| && Eligible(rs[i], o, n) ==> rs[i] != rs[j])
  }

  /** Such a chain gets one copy in front of every rule that names the old pool, and is in order. */
  lemma FirstRunIsFresh(rs: seq<Rule>, o: Token, n: Token)
    requires FirstRun(rs, o, n)
    ensures Fresh(rs, o, n) && InOrder(rs, o, n)
  {
    forall i | 0 <= i < |rs| && Eligible(rs[i], o, n)
      ensures Subst(rs[i], o, n) !in rs
    {
      NamesNew(rs[i], o, n);
    }
    forall i, j | 0 <= i < j < |rs| && Eligible(rs[i], o, n) && Eligible(rs[j], o, n)
      ensures Subst(rs[i], o, n) != Subst(rs[j], o, n)
    {
      if Subst(rs[i], o, n) == Subst(rs[j], o, n) {
        SubstInjective(rs[i], rs[j], o, n);
      }
    }
    FreshIsInOrder(rs, o, n);
  }

  lemma NamesNew(r: Rule, o: Token, n: Token)
    requires o in r
    ensures n in Subst(r, o, n)
  {
    var i :| 0 <= i < |r| && r[i] == o;
    assert Subst(r, o, n)[i] == n;
  }

  lemma SubstInjective(r: Rule, s: Rule, o: Token, n: Token)
    requires n !in r && n !in s && Subst(r, o, n) == Subst(s, o, n)
    ensures r == s
  {
    forall i | 0 <= i < |r|
      ensures r[i] == s[i]
    {
      assert Subst(r, o, n)[i] == Subst(s, o, n)[i];
    }
  }

  /** A table that has been served stays served when the command run is repeated, which changes nothing. */
  lemma ServedAgain(ch: Chains, ch': Chains, o: Token, n: Token, old_: Block, new_: Block)
    requires old_.Valid() && new_.Valid() && ServesNewRange(ch, ch', o, n, old_, new_)
    requires forall d :: AllSafe(Chain(ch, d), o, n) && Chain(ch', d) == Mirror(Chain(ch, d), o, n)
    ensures ServesNewRange(ch', ch', o, n, old_, new_)
  {
    hide PoolTokens, OldHosts, AllSafe, Run, Indifferent, Image;
    forall env: Env, p: Packet, h: Hosts, c: Token, depth: nat
      | && PoolTokens(env, o, n, old_, new_) && OldHosts(h, old_)
        && (forall d :: d in ch' ==> AllIndifferent(env, ch'[d], p, Image(p, h, old_, new_), o))
      ensures Run(env, ch', Chain(ch', c), p, depth) == Run(env, ch', Chain(ch', c), Image(p, h, old_, new_), depth)
    {
      var q := Image(p, h, old_, new_);
      ImageIsOldSide(p, h, old_, new_);
      OldTrafficOfMirror(env, ch, ch', c, q, depth, o, n, old_, new_);
      forall d | d in ch
        ensures AllIndifferent(env, ch[d], p, q, o)
      {
        assert Chain(ch, d) == ch[d];
        MirrorHasAll(ch[d], o, n);
        assert d in ch' ==> Chain(ch', d) == ch'[d];
      }
    }
  }

  lemma ImageIsOldSide(p: Packet, h: Hosts, old_: Block, new_: Block)
    requires old_.Valid() && new_.Valid() && OldHosts(h, old_)
    ensures OldSide(Image(p, h, old_, new_), old_, new_)
  {
  }

  lemma MirrorHasAll(rs: seq<Rule>, o: Token, n: Token)
    ensures forall r :: r in rs ==> r in Mirror(rs, o, n)
  {
    forall r | r in rs
      ensures r in Mirror(rs, o, n)
    {
      MirrorEnd(rs, o, n);
      MirrorGrows(rs, 0, |rs|, r, o, n);
    }
  }

  // ---- the reading that an overtaken copy fails in ----

  /** A packet and stand-ins that look like the view. */
  ghost predicate LooksLike(v: View, p: Packet, h: Hosts, old_: Block, new_: Block)
    requires old_.Valid() && new_.Valid()
  {
    && SideOf(p.src, old_, new_) == v.src && SideOf(p.dst, old_, new_) == v.dst && OldHosts(h, old_)
    && {p.src, h.src} !! {p.dst, h.dst}
    && (p.src == h.src || !v.src.InOld?) && (p.dst == h.dst || !v.dst.InOld?)
  }

  /** The reading of tokens the view stands for; two targets decide, all others pass the packet on. */
  ghost function Reading(v: View, p: Packet, h: Hosts, a: Rule, b: Rule, o: Token, n: Token, old_: Block,
                         new_: Block): Env
    requires old_.Valid() && new_.Valid()
  {
    Env(iset t: Token, x: Addr
          | if t == o then old_.Has(x) else if t == n then new_.Has(x)
            else (t in v.srcNets && (x == p.src || x == h.src)) || (t in v.dstNets && (x == p.dst || x == h.dst))
          :: (t, x),
        iset m: Rule, q: Packet | m in v.others :: (m, q),
        imap[a := Stop(1), b := Stop(2)],
        Next)
  }

  lemma ReadingIsPlain(v: View, p: Packet, h: Hosts, a: Rule, b: Rule, o: Token, n: Token, old_: Block, new_: Block,
                       r: Rule)
    requires old_.Valid() && new_.Valid() && Within(old_, new_) && !Keyword(o) && !Keyword(n) && o != n
    requires LooksLike(v, p, h, old_, new_)
    ensures var env, q := Reading(v, p, h, a, b, o, n, old_, new_), Image(p, h, old_, new_);
            && PoolTokens(env, o, n, old_, new_) && Indifferent(env, r, p, q, o)
            && (Matches(env, r, p) <==> Hits(v, r, o, n))
  {
    hide Parse, Within, Sees, TestHolds, LooksLike, Reading, Image, Keyword;
    var env, q := Reading(v, p, h, a, b, o, n, old_, new_), Image(p, h, old_, new_);
    InBoth(old_, new_, v, p, h);
    forall t
      ensures TestHolds(env, t, p) <==> Sees(v, t, o, n)
      ensures t.net != o ==> (TestHolds(env, t, p) <==> TestHolds(env, t, q))
    {
      TestReads(v, p, h, a, b, o, n, old_, new_, t);
    }
    ReadingOfPools(v, p, h, a, b, o, n, old_, new_);
  }

  lemma ReadingOfPools(v: View, p: Packet, h: Hosts, a: Rule, b: Rule, o: Token, n: Token, old_: Block, new_: Block)
    requires old_.Valid() && new_.Valid() && Within(old_, new_) && !Keyword(o) && !Keyword(n) && o != n
    ensures var env := Reading(v, p, h, a, b, o, n, old_, new_);
            PoolTokens(env, o, n, old_, new_) && forall m, q :: (m, q) in env.others <==> m in v.others
  {
    hide Keyword, Within;
  }

  lemma InBoth(old_: Block, new_: Block, v: View, p: Packet, h: Hosts)
    requires old_.Valid() && new_.Valid() && Within(old_, new_) && LooksLike(v, p, h, old_, new_)
    ensures new_.Has(h.src) && new_.Has(h.dst) && forall x: Addr :: old_.Has(x) ==> new_.Has(x)
  {
  }

  lemma TestReads(v: View, p: Packet, h: Hosts, a: Rule, b: Rule, o: Token, n: Token, old_: Block, new_: Block,
                  t: AddrTest)
    requires old_.Valid() && new_.Valid() && o != n && LooksLike(v, p, h, old_, new_) && new_.Has(h.src)
    requires new_.Has(h.dst)
    requires forall x: Addr :: old_.Has(x) ==> new_.Has(x)
    ensures var env, q := Reading(v, p, h, a, b, o, n, old_, new_), Image(p, h, old_, new_);
            && (TestHolds(env, t, p) <==> Sees(v, t, o, n))
            && (t.net != o ==> (TestHolds(env, t, p) <==> TestHolds(env, t, q)))
  {
  }

  /** In that reading the packet and its image part. */
  lemma OvertakenParts(ch: Chains, ch': Chains, c: Token, k: nat, i: nat, v: View, p: Packet, h: Hosts,
                       o: Token, n: Token, old_: Block, new_: Block)
    requires old_.Valid() && new_.Valid() && Within(old_, new_) && !Keyword(o) && !Keyword(n) && o != n
    requires LooksLike(v, p, h, old_, new_)
    requires AllServable(Chain(ch, c), o, n) && Chain(ch', c) == Mirror(Chain(ch, c), o, n)
    requires Overtaken(Chain(ch, c), k, i, v, o, n)
    ensures var rs := Chain(ch, c);
            var env := Reading(v, p, h, Parse(rs[k]).target, Parse(rs[i]).target, o, n, old_, new_);
            && Run(env, ch, Chain(ch, c), Image(p, h, old_, new_), 0) == Decided(1)
            && Run(env, ch', Chain(ch', c), p, 0) == Decided(2)
  {
    hide Parse, Subst, Skipped, Matches, Hits, Run, InPlace, Servable, Indifferent, PoolTokens, LooksLike, MirrorFrom;
    hide Image, OldHosts, Mirror;
    var rs := Chain(ch, c);
    var a, b := Parse(rs[k]).target, Parse(rs[i]).target;
    var env := Reading(v, p, h, a, b, o, n, old_, new_);
    LooksLikeHosts(v, p, h, old_, new_);
    forall j | 0 <= j < |rs|
      ensures PoolTokens(env, o, n, old_, new_) && Indifferent(env, rs[j], p, Image(p, h, old_, new_), o)
      ensures Corresponds(env, rs, j, p, Image(p, h, old_, new_), v, o, n)
    {
      PlainCorresponds(env, rs, j, p, h, v, a, b, o, n, old_, new_);
    }
    TwoTargetsPart(env, ch, ch', c, k, i, v, p, h, o, n, old_, new_);
  }

  /** In any reading where just the two targets decide, packet and image part if the chain looks like that to them. */
  lemma TwoTargetsPart(env: Env, ch: Chains, ch': Chains, c: Token, k: nat, i: nat, v: View, p: Packet, h: Hosts,
                       o: Token, n: Token, old_: Block, new_: Block)
    requires PoolTokens(env, o, n, old_, new_) && OldHosts(h, old_) && o != n
    requires AllServable(Chain(ch, c), o, n) && Chain(ch', c) == Mirror(Chain(ch, c), o, n)
    requires AllIndifferent(env, Chain(ch, c), p, Image(p, h, old_, new_), o)
    requires Overtaken(Chain(ch, c), k, i, v, o, n)
    requires forall j :: 0 <= j < |Chain(ch, c)| ==>
               Corresponds(env, Chain(ch, c), j, p, Image(p, h, old_, new_), v, o, n)
    requires env.acts == imap[Parse(Chain(ch, c)[k]).target := Stop(1), Parse(Chain(ch, c)[i]).target := Stop(2)]
    requires env.otherwise == Next
    ensures Run(env, ch, Chain(ch, c), Image(p, h, old_, new_), 0) == Decided(1)
    ensures Run(env, ch', Chain(ch', c), p, 0) == Decided(2)
  {
    assert old_.Valid() && new_.Valid();
    hide Parse, Subst, Skipped, Matches, Hits, Run, InPlace, Servable, Indifferent, PoolTokens, MirrorFrom;
    hide Image, OldHosts, Mirror, ActionOf;
    var rs := Chain(ch, c);
    var q, out := Image(p, h, old_, new_), InPlaceFrom(rs, 0, o, n);
    var a, b := Parse(rs[k]).target, Parse(rs[i]).target;
    forall j | 0 <= j < |rs|
      ensures ActionOf(env, rs[j]) == TwoActs(Parse(rs[j]).target, a, b)
      ensures ActionOf(env, out[j]) == TwoActs(Parse(out[j]).target, a, b)
    {
      TwoDecide(env, rs[j], a, b);
      TwoDecide(env, out[j], a, b);
    }
    SkippedMeans(rs, k, o, n);
    forall j | 0 <= j < k
      ensures !Ends(env, ch, rs[j], q, 0)
    {
      assert Corresponds(env, rs, j, p, q, v, o, n);
    }
    assert Corresponds(env, rs, k, p, q, v, o, n) && Corresponds(env, rs, i, p, q, v, o, n);
    FirstEnds(env, ch, rs, k, q, 0);
    forall j | 0 <= j < i
      ensures !Ends(env, ch', out[j], p, 0)
    {
      assert Corresponds(env, rs, j, p, q, v, o, n);
    }
    assert out[i] == InPlace(rs, i, o, n);
    FirstEnds(env, ch', out, i, p, 0);
    MirrorRuns(env, ch', rs, p, h, 0, o, n, old_, new_);
  }

  function TwoActs(t: Rule, a: Rule, b: Rule): Action {
    if t == [] then Next else if t == b then Stop(2) else if t == a then Stop(1) else Next
  }

  lemma TwoDecide(env: Env, r: Rule, a: Rule, b: Rule)
    requires env.acts == imap[a := Stop(1), b := Stop(2)] && env.otherwise == Next
    ensures ActionOf(env, r) == TwoActs(Parse(r).target, a, b)
  {
  }

  lemma LooksLikeHosts(v: View, p: Packet, h: Hosts, old_: Block, new_: Block)
    requires old_.Valid() && new_.Valid() && LooksLike(v, p, h, old_, new_)
    ensures OldHosts(h, old_)
  {
  }

  lemma PlainCorresponds(env: Env, rs: seq<Rule>, j: nat, p: Packet, h: Hosts, v: View, a: Rule, b: Rule,
                         o: Token, n: Token, old_: Block, new_: Block)
    requires old_.Valid() && new_.Valid() && Within(old_, new_) && !Keyword(o) && !Keyword(n) && o != n
    requires LooksLike(v, p, h, old_, new_)
    requires j < |rs| && AllServable(rs, o, n) && env == Reading(v, p, h, a, b, o, n, old_, new_)
    ensures PoolTokens(env, o, n, old_, new_) && Indifferent(env, rs[j], p, Image(p, h, old_, new_), o)
    ensures Corresponds(env, rs, j, p, Image(p, h, old_, new_), v, o, n)
  {
    hide Parse, Subst, Skipped, Matches, Hits, Indifferent, PoolTokens, Reading, Image, LooksLike;
    LooksLikeHosts(v, p, h, old_, new_);
    ReadingIsPlain(v, p, h, a, b, o, n, old_, new_, rs[j]);
    ReadingIsPlain(v, p, h, a, b, o, n, old_, new_, Subst(rs[j], o, n));
    CopyServesNewRange(env, rs[j], p, h, o, n, old_, new_);
    if !Eligible(rs[j], o, n) && Parse(rs[j]).target != [] {
      SubstAbsent(rs[j], o, n);
    }
  }
}
