/** What the copies of rules do for packets of the added part of a widened pool, and when a skipped copy is missed. */
module NewRange {
  import opened IPv4
  import opened Firewall
  import opened Verdict

  // ---- stand-ins ----

  /** Two old-pool hosts that stand in for every source and every destination of the added range. */
  datatype Hosts = Hosts(src: Addr, dst: Addr)

  predicate OldHosts(h: Hosts, old_: Block)
    requires old_.Valid()
  {
    old_.Has(h.src) && old_.Has(h.dst)
  }

  function StandIn(a: Addr, h: Addr, old_: Block, new_: Block): Addr
    requires old_.Valid() && new_.Valid()
  {
    if new_.Has(a) && !old_.Has(a) then h else a
  }

  function Image(p: Packet, h: Hosts, old_: Block, new_: Block): Packet
    requires old_.Valid() && new_.Valid()
  {
    p.(src := StandIn(p.src, h.src, old_, new_), dst := StandIn(p.dst, h.dst, old_, new_))
  }

  /** The rule decides something, names the pool only as an address, and excludes it nowhere. */
  predicate Servable(r: Rule, o: Token, n: Token) {
    Parse(r).target != [] ==> AddressOnly(r, o) && !Negated(r, o, n)
  }

  /** Apart from the old pool itself, nothing a deciding rule looks at tells the packet from its image. */
  ghost predicate Indifferent(env: Env, r: Rule, p: Packet, q: Packet, o: Token) {
    Parse(r).target != [] ==>
      && (forall t :: t in Parse(r).tests && t.net != o ==> (TestHolds(env, t, p) <==> TestHolds(env, t, q)))
      && ((Parse(r).others, p) in env.others <==> (Parse(r).others, q) in env.others)
  }

  predicate AllServable(rs: seq<Rule>, o: Token, n: Token) {
    forall r :: r in rs ==> Servable(r, o, n)
  }

  ghost predicate AllIndifferent(env: Env, rs: seq<Rule>, p: Packet, q: Packet, o: Token) {
    forall r :: r in rs ==> Indifferent(env, r, p, q, o)
  }

  // ---- excluded tests ----

  lemma SubstNot(t: Token, r: Rule, i: nat, o: Token, n: Token)
    requires i < |r| && r[i] == t && Keyword(t) && !Keyword(o)
    ensures Subst(r, o, n)[i] == t
  {
  }

  lemma NegatedSuffix(r: Rule, k: nat, o: Token, n: Token)
    requires k <= |r| && Negated(r[k..], o, n)
    ensures Negated(r, o, n)
  {
    SubstSlice(r, k, o, n);
    var j :| 2 <= j < |r[k..]| && r[k..][j] == o && Subst(r[k..], o, n)[j - 2] == "!";
    assert Subst(r, o, n)[k..][j - 2] == Subst(r, o, n)[k + j - 2];
    assert r[k + j] == o;
  }

  /** The token scan finds every excluded address test on the old pool. */
  lemma {:induction false} NoNegatedTest(r: Rule, o: Token, n: Token)
    requires !Keyword(o) && !Negated(r, o, n)
    ensures forall t :: t in Parse(r).tests && t.net == o ==> !t.neg
    ensures o !in r ==> forall t :: t in Parse(r).tests ==> t.net != o
    decreases |r|
  {
    hide Negated, Subst, Keyword, NextPart;
    PartLength(r);
    var k := match NextPart(r) case NegTest => 3 case PosTest => 2 case Comment => 4 case Plain => 1 case _ => 0;
    if k == 0 {
    } else {
      NotNegatedSuffix(r, k, o, n);
      NoNegatedTest(r[k..], o, n);
      if k == 3 && r[2] == o {
        ExcludedIsNegated(r, o, n);
      }
    }
  }

  lemma NotNegatedSuffix(r: Rule, k: nat, o: Token, n: Token)
    requires k <= |r| && !Negated(r, o, n)
    ensures !Negated(r[k..], o, n)
  {
    if Negated(r[k..], o, n) {
      NegatedSuffix(r, k, o, n);
    }
  }

  lemma ExcludedIsNegated(r: Rule, o: Token, n: Token)
    requires NextPart(r).NegTest? && r[2] == o && !Keyword(o)
    ensures Negated(r, o, n)
  {
    SubstNot("!", r, 0, o, n);
  }

  // ---- what a copy does for the added range ----

  /** On the added range the copy does what the rule did for the image. */
  lemma CopyServesNewRange(env: Env, r: Rule, p: Packet, h: Hosts, o: Token, n: Token, old_: Block, new_: Block)
    requires PoolTokens(env, o, n, old_, new_) && OldHosts(h, old_)
    requires Servable(r, o, n) && Indifferent(env, r, p, Image(p, h, old_, new_), o)
    ensures ActionOf(env, Subst(r, o, n)) == ActionOf(env, r)
    ensures Parse(Subst(r, o, n)).target == Parse(r).target
    ensures Parse(r).target != [] ==>
              && (Matches(env, Subst(r, o, n), p) <==> Matches(env, r, Image(p, h, old_, new_)))
              && (Matches(env, r, p) ==> Matches(env, Subst(r, o, n), p))
  {
    hide Negated, Subst, Keyword, NextPart, Parse;
    ParseSubst(r, o, n);
    SubstEmpty(o, n);
    if Parse(r).target != [] {
      SubstAbsent(Parse(r).others, o, n);
      SubstAbsent(Parse(r).target, o, n);
      NoNegatedTest(r, o, n);
      TestsServeNewRange(env, Parse(r).tests, p, h, o, n, old_, new_);
    }
  }

  lemma TestsServeNewRange(env: Env, ts: seq<AddrTest>, p: Packet, h: Hosts, o: Token, n: Token, old_: Block,
                           new_: Block)
    requires PoolTokens(env, o, n, old_, new_) && OldHosts(h, old_)
    requires forall t :: t in ts && t.net == o ==> !t.neg
    requires forall t :: t in ts && t.net != o ==>
               (TestHolds(env, t, p) <==> TestHolds(env, t, Image(p, h, old_, new_)))
    ensures var us := SubstTests(ts, o, n);
            forall i :: 0 <= i < |ts| ==>
              && (TestHolds(env, us[i], p) <==> TestHolds(env, ts[i], Image(p, h, old_, new_)))
              && (TestHolds(env, ts[i], p) ==> TestHolds(env, us[i], p))
  {
    forall i | 0 <= i < |ts|
      ensures TestHolds(env, SubstTests(ts, o, n)[i], p) <==> TestHolds(env, ts[i], Image(p, h, old_, new_))
      ensures TestHolds(env, ts[i], p) ==> TestHolds(env, SubstTests(ts, o, n)[i], p)
    {
      assert ts[i] in ts;
      assert new_.Has(h.src) && new_.Has(h.dst);
    }
  }

  /** Behind its copy, a rule that matches less and does the same changes nothing. */
  lemma OriginalBehindCopy(env: Env, ch: Chains, x: Rule, r: Rule, tail: seq<Rule>, p: Packet, depth: nat)
    requires ActionOf(env, x) == ActionOf(env, r)
    requires ActionOf(env, r) == Next || (Matches(env, r, p) ==> Matches(env, x, p))
    ensures Run(env, ch, [x] + ([r] + tail), p, depth) == Run(env, ch, [x] + tail, p, depth)
  {
    hide Matches, ActionOf;
    assert ([x] + ([r] + tail))[1..] == [r] + tail && ([r] + tail)[1..] == tail && ([x] + tail)[1..] == tail;
  }

  /** Two walks agree when their first rules and their continuations do. */
  lemma WalksAgree(env: Env, ch: Chains, x: Rule, r: Rule, tail: seq<Rule>, tail': seq<Rule>, p: Packet, depth: nat)
    requires ActionOf(env, x) == ActionOf(env, r) && (Matches(env, x, p) <==> Matches(env, r, p))
    requires Run(env, ch, tail, p, depth) == Run(env, ch, tail', p, depth)
    ensures Run(env, ch, [x] + tail, p, depth) == Run(env, ch, [r] + tail', p, depth)
  {
    hide Matches, ActionOf;
    assert ([x] + tail)[1..] == tail && ([r] + tail')[1..] == tail';
  }

  // ---- the chain after the run, rule by rule ----

  /** The check for the copy of rule k succeeds: the chain holds that rule, or a later rule had the same copy. */
  predicate Skipped(rs: seq<Rule>, k: nat, o: Token, n: Token)
    requires k < |rs|
  {
    && Eligible(rs[k], o, n)
    && (Subst(rs[k], o, n) in rs ||
        exists j :: k < j < |rs| && Eligible(rs[j], o, n) && Subst(rs[j], o, n) == Subst(rs[k], o, n))
  }

  lemma SkippedByCheck(rs: seq<Rule>, k: nat, o: Token, n: Token)
    requires k < |rs| && Eligible(rs[k], o, n)
    ensures Skipped(rs, k, o, n) <==> Subst(rs[k], o, n) in MirrorFrom(rs, k + 1, o, n)
  {
    hide Subst, Eligible, MirrorFrom;
    var x := Subst(rs[k], o, n);
    if x in MirrorFrom(rs, k + 1, o, n) {
      MirrorMembersFrom(rs, k + 1, x, o, n);
    }
    if x in rs {
      MirrorEnd(rs, o, n);
      MirrorGrows(rs, k + 1, |rs|, x, o, n);
    } else if Skipped(rs, k, o, n) {
      var j :| k < j < |rs| && Eligible(rs[j], o, n) && Subst(rs[j], o, n) == x;
      CopyArrives(rs, k + 1, j, o, n);
    }
  }

  /** Rules and copies of rules from number k on. */
  lemma {:induction false} MirrorMembersFrom(rs: seq<Rule>, k: nat, x: Rule, o: Token, n: Token)
    requires k <= |rs| && x in MirrorFrom(rs, k, o, n)
    ensures x in rs || exists j :: k <= j < |rs| && Eligible(rs[j], o, n) && x == Subst(rs[j], o, n)
    decreases |rs| - k
  {
    hide Subst, Eligible;
    if k == |rs| {
    } else if !(Eligible(rs[k], o, n) && x == Subst(rs[k], o, n)) {
      MirrorMembersFrom(rs, k + 1, x, o, n);
    }
  }

  /** From rule k on, every rule behind its copy unless that was skipped. */
  function Placed(rs: seq<Rule>, k: nat, o: Token, n: Token): seq<Rule>
    requires k <= |rs|
    decreases |rs| - k
  {
    if k == |rs| then
      []
    else if Eligible(rs[k], o, n) && !Skipped(rs, k, o, n) then
      [Subst(rs[k], o, n)] + ([rs[k]] + Placed(rs, k + 1, o, n))
    else
      [rs[k]] + Placed(rs, k + 1, o, n)
  }

  lemma {:induction false} MirrorPlaces(rs: seq<Rule>, k: nat, o: Token, n: Token)
    requires k <= |rs|
    ensures MirrorFrom(rs, k, o, n) == rs[..k] + Placed(rs, k, o, n)
    decreases |rs| - k
  {
    hide Subst, Eligible, Skipped, MirrorFrom;
    if k == |rs| {
      MirrorEnd(rs, o, n);
      assert rs[..k] == rs;
    } else {
      MirrorPlaces(rs, k + 1, o, n);
      MirrorStep(rs, k, o, n);
      if Eligible(rs[k], o, n) {
        SkippedByCheck(rs, k, o, n);
      }
      InsertInFront(rs, k, Subst(rs[k], o, n), Placed(rs, k + 1, o, n), MirrorFrom(rs, k + 1, o, n));
    }
  }

  /** What packets meet at rule k: its copy, where there is one, matches all that the rule does. */
  function InPlace(rs: seq<Rule>, k: nat, o: Token, n: Token): Rule
    requires k < |rs|
  {
    if Eligible(rs[k], o, n) && !Skipped(rs, k, o, n) then Subst(rs[k], o, n) else rs[k]
  }

  function InPlaceFrom(rs: seq<Rule>, k: nat, o: Token, n: Token): (out: seq<Rule>)
    requires k <= |rs|
    ensures |out| == |rs| - k && forall i :: 0 <= i < |out| ==> out[i] == InPlace(rs, k + i, o, n)
  {
    seq(|rs| - k, i requires 0 <= i < |rs| - k => InPlace(rs, k + i, o, n))
  }

  lemma {:induction false} PlacedRuns(env: Env, ch: Chains, rs: seq<Rule>, k: nat, p: Packet, h: Hosts, depth: nat,
                                      o: Token, n: Token, old_: Block, new_: Block)
    requires PoolTokens(env, o, n, old_, new_) && OldHosts(h, old_) && k <= |rs|
    requires AllServable(rs, o, n) && AllIndifferent(env, rs, p, Image(p, h, old_, new_), o)
    ensures Run(env, ch, Placed(rs, k, o, n), p, depth) == Run(env, ch, InPlaceFrom(rs, k, o, n), p, depth)
    decreases |rs| - k
  {
    hide Subst, Eligible, Skipped, Run, Matches, ActionOf, Parse, Servable, Indifferent, PoolTokens, OldHosts;
    if k == |rs| {
      assert Placed(rs, k, o, n) == InPlaceFrom(rs, k, o, n);
    } else {
      PlacedRuns(env, ch, rs, k + 1, p, h, depth, o, n, old_, new_);
      var r, x, tail := rs[k], InPlace(rs, k, o, n), Placed(rs, k + 1, o, n);
      assert InPlaceFrom(rs, k, o, n) == [x] + InPlaceFrom(rs, k + 1, o, n);
      WalksAgree(env, ch, x, x, tail, InPlaceFrom(rs, k + 1, o, n), p, depth);
      CopyServesNewRange(env, r, p, h, o, n, old_, new_);
      TargetlessGoesOn(env, r);
      OriginalBehindCopy(env, ch, Subst(r, o, n), r, tail, p, depth);
    }
  }

  lemma TargetlessGoesOn(env: Env, r: Rule)
    ensures Parse(r).target == [] ==> ActionOf(env, r) == Next
  {
  }

  /** A skipped copy is in the chain somewhere. */
  lemma CopySomewhere(rs: seq<Rule>, k: nat, o: Token, n: Token) returns (j: nat)
    requires k < |rs| && Eligible(rs[k], o, n) && o != n
    ensures j < |rs| && InPlace(rs, j, o, n) == Subst(rs[k], o, n)
  {
    var x := Subst(rs[k], o, n);
    assert o !in x;
    if x in rs {
      j :| 0 <= j < |rs| && rs[j] == x;
    } else {
      j := |rs| - 1;
      while !(Eligible(rs[j], o, n) && Subst(rs[j], o, n) == x)
        invariant k <= j < |rs|
        invariant forall i :: j < i < |rs| ==> !(Eligible(rs[i], o, n) && Subst(rs[i], o, n) == x)
        decreases j
      {
        j := j - 1;
      }
    }
  }

  // ---- which skipped copies do harm ----

  datatype Side = InOld | InAdded | Elsewhere

  /**
   * All that the rules of a chain can tell of a packet: on which side of the pools each address lies,
   * which other networks it is in, and which other match texts it satisfies.
   */
  datatype View = View(src: Side, dst: Side, srcNets: set<Token>, dstNets: set<Token>, others: set<Rule>)

  predicate Sees(v: View, t: AddrTest, o: Token, n: Token) {
    var side := if t.isSrc then v.src else v.dst;
    (if t.net == o then side.InOld?
     else if t.net == n then !side.Elsewhere?
     else t.net in if t.isSrc then v.srcNets else v.dstNets) != t.neg
  }

  predicate Hits(v: View, r: Rule, o: Token, n: Token) {
    && (forall i :: 0 <= i < |Parse(r).tests| ==> Sees(v, Parse(r).tests[i], o, n))
    && (Parse(r).others == [] || Parse(r).others in v.others)
  }

  /**
   * The copy of rule k was skipped, and a packet that only this copy would have caught meets rule i,
   * with another target, first; neither target was met before.
   */
  predicate Overtaken(rs: seq<Rule>, k: nat, i: nat, v: View, o: Token, n: Token) {
    && k < i < |rs| && Skipped(rs, k, o, n) && Hits(v, Subst(rs[k], o, n), o, n) && !Hits(v, rs[k], o, n)
    && Hits(v, InPlace(rs, i, o, n), o, n)
    && Parse(rs[k]).target != Parse(rs[i]).target && NewTargets(rs, k, i, v, o, n)
  }

  /**
   * Rules k and i decide something, and no rule the packet meets before rule i, rule k aside, has the target of
   * either.
   */
  predicate NewTargets(rs: seq<Rule>, k: nat, i: nat, v: View, o: Token, n: Token)
    requires k < |rs| && i < |rs|
  {
    && Parse(rs[k]).target != [] && Parse(rs[i]).target != []
    && forall j :: 0 <= j < i && j != k && Hits(v, if j < k then Subst(rs[j], o, n) else InPlace(rs, j, o, n), o, n) ==>
         Parse(rs[j]).target != Parse(rs[k]).target && Parse(rs[j]).target != Parse(rs[i]).target
  }

  /** No skipped copy is overtaken by a packet that looks like this. */
  ghost predicate InOrderFor(rs: seq<Rule>, v: View, o: Token, n: Token) {
    forall k, i :: !Overtaken(rs, k, i, v, o, n)
  }

  /** No skipped copy is overtaken. */
  ghost predicate InOrder(rs: seq<Rule>, o: Token, n: Token) {
    forall k, i, v :: !Overtaken(rs, k, i, v, o, n)
  }

  // ---- checking it ----

  function NetsOf(rs: seq<Rule>): set<Token> {
    set r, i | r in rs && 0 <= i < |Parse(r).tests| :: Parse(r).tests[i].net
  }

  function OthersOf(rs: seq<Rule>): set<Rule> {
    set r | r in rs :: Parse(r).others
  }

  /** The views that can make a difference to a chain; there are finitely many. */
  function ViewsOf(rs: seq<Rule>): set<View> {
    set src: Side, dst: Side, a, b, c | a <= NetsOf(rs) && b <= NetsOf(rs) && c <= OthersOf(rs) ::
      View(src, dst, a, b, c)
  }

  /** The check that an operator can make before the run: it looks at the chain's tokens only. */
  predicate CheckOrder(rs: seq<Rule>, o: Token, n: Token) {
    forall k, i, v | 0 <= k < i < |rs| && v in ViewsOf(rs) :: !Overtaken(rs, k, i, v, o, n)
  }

  function Narrow(v: View, rs: seq<Rule>): (w: View)
    ensures w in ViewsOf(rs)
  {
    View(v.src, v.dst, v.srcNets * NetsOf(rs), v.dstNets * NetsOf(rs), v.others * OthersOf(rs))
  }

  lemma NarrowHits(v: View, rs: seq<Rule>, j: nat, o: Token, n: Token)
    requires !Keyword(o) && !Keyword(n) && j < |rs| && Servable(rs[j], o, n) && Parse(rs[j]).target != []
    ensures Hits(Narrow(v, rs), rs[j], o, n) <==> Hits(v, rs[j], o, n)
    ensures Hits(Narrow(v, rs), Subst(rs[j], o, n), o, n) <==> Hits(v, Subst(rs[j], o, n), o, n)
    ensures Hits(Narrow(v, rs), InPlace(rs, j, o, n), o, n) <==> Hits(v, InPlace(rs, j, o, n), o, n)
  {
    hide Parse, Subst, Skipped, Keyword;
    ParseSubst(rs[j], o, n);
    SubstAbsent(Parse(rs[j]).others, o, n);
    var ts := Parse(rs[j]).tests;
    forall i | 0 <= i < |ts|
      ensures Sees(Narrow(v, rs), ts[i], o, n) <==> Sees(v, ts[i], o, n)
      ensures Sees(Narrow(v, rs), SubstTests(ts, o, n)[i], o, n) <==> Sees(v, SubstTests(ts, o, n)[i], o, n)
    {
      assert ts[i].net in NetsOf(rs);
    }
    assert Parse(rs[j]).others in OthersOf(rs);
  }

  /** The check decides whether a chain is in order. */
  lemma OrderIsCheckable(rs: seq<Rule>, o: Token, n: Token)
    requires !Keyword(o) && !Keyword(n) && AllServable(rs, o, n)
    ensures CheckOrder(rs, o, n) <==> InOrder(rs, o, n)
  {
    hide Overtaken, ViewsOf, Narrow, AllServable;
    if !InOrder(rs, o, n) {
      var k: nat, i: nat, v :| Overtaken(rs, k, i, v, o, n);
      NarrowOvertaken(rs, k, i, v, o, n);
      assert Narrow(v, rs) in ViewsOf(rs);
    }
  }

  lemma NarrowOvertaken(rs: seq<Rule>, k: nat, i: nat, v: View, o: Token, n: Token)
    requires !Keyword(o) && !Keyword(n) && AllServable(rs, o, n) && Overtaken(rs, k, i, v, o, n)
    ensures k < i < |rs| && Overtaken(rs, k, i, Narrow(v, rs), o, n)
  {
    hide Parse, Subst, Skipped, Hits, InPlace, Servable, Keyword, ViewsOf, Narrow;
    NarrowHits(v, rs, k, o, n);
    NarrowHits(v, rs, i, o, n);
    forall j | 0 <= j < |rs| && Parse(rs[j]).target != []
      ensures Hits(Narrow(v, rs), InPlace(rs, j, o, n), o, n) <==> Hits(v, InPlace(rs, j, o, n), o, n)
      ensures Hits(Narrow(v, rs), Subst(rs[j], o, n), o, n) <==> Hits(v, Subst(rs[j], o, n), o, n)
    {
      NarrowHits(v, rs, j, o, n);
    }
  }

  // ---- from a reading to a view ----

  function SideOf(a: Addr, old_: Block, new_: Block): Side
    requires old_.Valid() && new_.Valid()
  {
    if old_.Has(a) then InOld else if new_.Has(a) then InAdded else Elsewhere
  }

  ghost function ViewOf(env: Env, rs: seq<Rule>, p: Packet, old_: Block, new_: Block): View
    requires old_.Valid() && new_.Valid()
  {
    View(SideOf(p.src, old_, new_), SideOf(p.dst, old_, new_),
         set t | t in NetsOf(rs) && (t, p.src) in env.nets, set t | t in NetsOf(rs) && (t, p.dst) in env.nets,
         set m | m in OthersOf(rs) && (m, p) in env.others)
  }

  /** The view tells of the chain's rules and of their copies what the reading does. */
  lemma ViewAgrees(env: Env, rs: seq<Rule>, r: Rule, p: Packet, o: Token, n: Token, old_: Block, new_: Block)
    requires PoolTokens(env, o, n, old_, new_) && r in rs
    ensures Hits(ViewOf(env, rs, p, old_, new_), r, o, n) <==> Matches(env, r, p)
    ensures AddressOnly(r, o) ==>
              (Hits(ViewOf(env, rs, p, old_, new_), Subst(r, o, n), o, n) <==> Matches(env, Subst(r, o, n), p))
  {
    hide Parse, Subst, Keyword;
    ParseSubst(r, o, n);
    if AddressOnly(r, o) {
      SubstAbsent(Parse(r).others, o, n);
    }
    var v, ts := ViewOf(env, rs, p, old_, new_), Parse(r).tests;
    forall i | 0 <= i < |ts|
      ensures Sees(v, ts[i], o, n) <==> TestHolds(env, ts[i], p)
      ensures Sees(v, SubstTests(ts, o, n)[i], o, n) <==> TestHolds(env, SubstTests(ts, o, n)[i], p)
    {
      assert ts[i].net in NetsOf(rs);
      assert Within(old_, new_);
    }
  }

  // ---- served chains ----

  /** What holds of every rule of the chain: the original on the image, the copy and the placed rule on the packet. */
  ghost predicate Corresponds(env: Env, rs: seq<Rule>, j: nat, p: Packet, q: Packet, v: View, o: Token, n: Token)
    requires j < |rs|
  {
    && ActionOf(env, InPlace(rs, j, o, n)) == ActionOf(env, rs[j])
    && Parse(InPlace(rs, j, o, n)).target == Parse(rs[j]).target == Parse(Subst(rs[j], o, n)).target
    && (Parse(rs[j]).target == [] ==> ActionOf(env, rs[j]) == Next)
    && (Parse(rs[j]).target != [] ==>
          && (Matches(env, rs[j], q) <==> Hits(v, Subst(rs[j], o, n), o, n))
          && (Matches(env, InPlace(rs, j, o, n), p) <==> Hits(v, InPlace(rs, j, o, n), o, n))
          && (Hits(v, InPlace(rs, j, o, n), o, n) ==> Hits(v, Subst(rs[j], o, n), o, n)))
    && (!Skipped(rs, j, o, n) && Parse(rs[j]).target != [] ==>
          (Hits(v, InPlace(rs, j, o, n), o, n) <==> Hits(v, Subst(rs[j], o, n), o, n)))
  }

  lemma RuleCorresponds(env: Env, rs: seq<Rule>, j: nat, p: Packet, h: Hosts, o: Token, n: Token, old_: Block,
                        new_: Block)
    requires PoolTokens(env, o, n, old_, new_) && OldHosts(h, old_) && j < |rs|
    requires AllServable(rs, o, n) && AllIndifferent(env, rs, p, Image(p, h, old_, new_), o)
    ensures Corresponds(env, rs, j, p, Image(p, h, old_, new_), ViewOf(env, rs, p, old_, new_), o, n)
  {
    hide Subst, Skipped, Parse, Matches, Hits, Indifferent, PoolTokens, OldHosts, ViewOf, Image;
    var r := rs[j];
    CopyServesNewRange(env, r, p, h, o, n, old_, new_);
    ViewAgrees(env, rs, r, p, o, n, old_, new_);
    TargetlessGoesOn(env, r);
    if !Eligible(r, o, n) && Parse(r).target != [] {
      SubstAbsent(r, o, n);
    }
  }

  /** The place of a skipped copy is behind its rule, or what it decides was decided before. */
  lemma ServedWalk(env: Env, ch: Chains, ch': Chains, rs: seq<Rule>, p: Packet, q: Packet, v: View, depth: nat,
                   o: Token, n: Token)
    requires o != n && InOrderFor(rs, v, o, n)
    requires forall j :: 0 <= j < |rs| ==> Corresponds(env, rs, j, p, q, v, o, n)
    requires forall a :: Effect(env, ch', a, p, depth) == Effect(env, ch, a, q, depth)
    ensures Run(env, ch', InPlaceFrom(rs, 0, o, n), p, depth) == Run(env, ch, rs, q, depth)
  {
    hide Subst, Skipped, Parse, Matches, Hits, Run, Effect, ActionOf, Overtaken, InPlace;
    var out := InPlaceFrom(rs, 0, o, n);
    if exists i :: 0 <= i < |rs| && Ends(env, ch, rs[i], q, depth) {
      var k := FirstEnding(env, ch, rs, q, depth);
      FirstEnds(env, ch, rs, k, q, depth);
      FewerEnd(env, ch, ch', rs, p, q, v, depth, o, n);
      assert Corresponds(env, rs, k, p, q, v, o, n);
      if Ends(env, ch', out[k], p, depth) {
        FirstEnds(env, ch', out, k, p, depth);
      } else {
        SkippedWalk(env, ch, ch', rs, k, p, q, v, depth, o, n);
      }
    } else {
      NoneEnds(env, ch, rs, q, depth);
      FewerEnd(env, ch, ch', rs, p, q, v, depth, o, n);
      NoneEnds(env, ch', out, p, depth);
    }
  }

  lemma SameTarget(env: Env, r: Rule, s: Rule)
    ensures Parse(r).target == Parse(s).target ==> ActionOf(env, r) == ActionOf(env, s)
  {
  }

  lemma SkippedMeans(rs: seq<Rule>, k: nat, o: Token, n: Token)
    requires k < |rs|
    ensures Skipped(rs, k, o, n) ==> Eligible(rs[k], o, n) && InPlace(rs, k, o, n) == rs[k]
  {
  }

  lemma FirstEnding(env: Env, ch: Chains, rs: seq<Rule>, p: Packet, depth: nat) returns (k: nat)
    requires exists i :: 0 <= i < |rs| && Ends(env, ch, rs[i], p, depth)
    ensures k < |rs| && Ends(env, ch, rs[k], p, depth) && forall j :: 0 <= j < k ==> !Ends(env, ch, rs[j], p, depth)
  {
    hide Ends;
    k := 0;
    while !Ends(env, ch, rs[k], p, depth)
      invariant k < |rs| && forall j :: 0 <= j < k ==> !Ends(env, ch, rs[j], p, depth)
      decreases |rs| - k
    {
      k := k + 1;
    }
  }

  lemma FewerEnd(env: Env, ch: Chains, ch': Chains, rs: seq<Rule>, p: Packet, q: Packet, v: View, depth: nat, o: Token,
                 n: Token)
    requires forall j :: 0 <= j < |rs| ==> Corresponds(env, rs, j, p, q, v, o, n)
    requires forall a :: Effect(env, ch', a, p, depth) == Effect(env, ch, a, q, depth)
    ensures forall j :: 0 <= j < |rs| && Ends(env, ch', InPlace(rs, j, o, n), p, depth) ==>
              Ends(env, ch, rs[j], q, depth)
  {
    hide Subst, Skipped, Parse, Matches, Hits, ActionOf, InPlace;
    forall j | 0 <= j < |rs| && Ends(env, ch', InPlace(rs, j, o, n), p, depth)
      ensures Ends(env, ch, rs[j], q, depth)
    {
      assert Corresponds(env, rs, j, p, q, v, o, n);
    }
  }

  /** Targets that end the walk were not met where it went on. */
  lemma EarlierTargets(env: Env, ch: Chains, ch': Chains, rs: seq<Rule>, k: nat, i: nat, p: Packet, q: Packet, v: View,
                       depth: nat, o: Token, n: Token)
    requires k < |rs| && i < |rs| && forall j :: 0 <= j < |rs| ==> Corresponds(env, rs, j, p, q, v, o, n)
    requires Ends(env, ch, rs[k], q, depth) && forall j :: 0 <= j < k ==> !Ends(env, ch, rs[j], q, depth)
    requires Ends(env, ch', InPlace(rs, i, o, n), p, depth)
    requires forall j :: 0 <= j < i ==> !Ends(env, ch', InPlace(rs, j, o, n), p, depth)
    requires forall a :: Effect(env, ch', a, p, depth) == Effect(env, ch, a, q, depth)
    ensures NewTargets(rs, k, i, v, o, n)
  {
    hide Subst, Skipped, Parse, Matches, Hits, InPlace, ActionOf;
    assert Corresponds(env, rs, k, p, q, v, o, n) && Corresponds(env, rs, i, p, q, v, o, n);
    forall j | 0 <= j < i && j != k && Hits(v, if j < k then Subst(rs[j], o, n) else InPlace(rs, j, o, n), o, n)
      ensures Parse(rs[j]).target != Parse(rs[k]).target && Parse(rs[j]).target != Parse(rs[i]).target
    {
      assert Corresponds(env, rs, j, p, q, v, o, n);
      SameTarget(env, rs[j], rs[k]);
      SameTarget(env, rs[j], rs[i]);
    }
  }

  /** Rule k ended the old walk but its copy was skipped: the walk ends the same way, or the copy is overtaken. */
  lemma SkippedWalk(env: Env, ch: Chains, ch': Chains, rs: seq<Rule>, k: nat, p: Packet, q: Packet, v: View, depth: nat,
                    o: Token, n: Token)
    requires k < |rs| && o != n
    requires forall j :: 0 <= j < |rs| ==> Corresponds(env, rs, j, p, q, v, o, n)
    requires forall a :: Effect(env, ch', a, p, depth) == Effect(env, ch, a, q, depth)
    requires Ends(env, ch, rs[k], q, depth) && forall j :: 0 <= j < k ==> !Ends(env, ch, rs[j], q, depth)
    requires !Ends(env, ch', InPlace(rs, k, o, n), p, depth)
    ensures Run(env, ch', InPlaceFrom(rs, 0, o, n), p, depth) == Effect(env, ch, ActionOf(env, rs[k]), q, depth).value
            || exists i :: Overtaken(rs, k, i, v, o, n)
  {
    hide Subst, Parse, Hits, Run, Skipped, Matches, ActionOf;
    var out := InPlaceFrom(rs, 0, o, n);
    FewerEnd(env, ch, ch', rs, p, q, v, depth, o, n);
    assert Corresponds(env, rs, k, p, q, v, o, n);
    SkippedMeans(rs, k, o, n);
    var c := CopySomewhere(rs, k, o, n);
    assert Corresponds(env, rs, c, p, q, v, o, n);
    SameTarget(env, rs[k], rs[c]);
    assert Ends(env, ch', out[c], p, depth);
    var i := FirstEnding(env, ch', out, p, depth);
    FirstEnds(env, ch', out, i, p, depth);
    assert Corresponds(env, rs, i, p, q, v, o, n);
    if Parse(rs[i]).target == Parse(rs[k]).target {
      SameTarget(env, rs[k], rs[i]);
    } else {
      assert forall j :: 0 <= j < i ==> InPlace(rs, j, o, n) == out[j];
      EarlierTargets(env, ch, ch', rs, k, i, p, q, v, depth, o, n);
      assert Overtaken(rs, k, i, v, o, n);
    }
  }
}
