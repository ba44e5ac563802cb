/** Planning the in-place widening of the two address pools, and which planned widenings may be applied. */
module Planner {
  import opened Wrappers
  import opened IPv4
  import Bitwise

  const MIN_EXPAND_PREFIX := 16

  /** An address with a prefix length, as "10.66.66.1/24" parses. */
  datatype Cidr = Cidr(ip: Addr, prefix: Prefix)

  /** Configuration text that is meant to hold a CIDR. */
  datatype CidrText = NotIPv4 | Text(cidr: Cidr)

  function NetworkOf(c: Cidr): (n: Block)
    ensures n.Valid() && n.prefix == c.prefix && n.Has(c.ip)
  {
    BlockOf(c.ip, c.prefix)
  }

  datatype Failure = BadCidr | BadPrefix

  /** The widened form of a CIDR; none when it is already that wide or wider. */
  function WidenCidr(t: CidrText, prefix: int, keepHost: bool): Result<Option<Cidr>, Failure> {
    if t.NotIPv4? then
      Failure(BadCidr)
    else if prefix < MIN_EXPAND_PREFIX || prefix > 30 then
      Failure(BadPrefix)
    else if t.cidr.prefix <= prefix then
      Success(None)
    else if keepHost then
      Success(Some(Cidr(t.cidr.ip, prefix)))
    else
      Success(Some(Cidr(Network(t.cidr.ip, prefix), prefix)))
  }

  /** A widened CIDR names the block around the old one, in both forms; it never narrows. */
  lemma WidenCidrMeaning(c: Cidr, prefix: int, keepHost: bool)
    ensures var r := WidenCidr(Text(c), prefix, keepHost);
            && (r.Failure? <==> !(16 <= prefix <= 30))
            && (r.Success? ==> (r.value.Some? <==> prefix < c.prefix))
            && (r.Success? && r.value.Some? ==>
                  && NetworkOf(r.value.value) == Widened(NetworkOf(c), prefix)
                  && Within(NetworkOf(c), NetworkOf(r.value.value))
                  && r.value.value.ip == if keepHost then c.ip else NetworkOf(r.value.value).base)
  {
    if 16 <= prefix < c.prefix && prefix <= 30 {
      NetworkTwice(c.ip, c.prefix, prefix);
      NetworkTwice(c.ip, prefix, prefix);
      WideningKeepsHosts(NetworkOf(c), prefix);
    }
  }

  // ---- host routes ----

  datatype NetEntry = NetEntry(dev: string, net: Block)

  predicate ValidEntries(entries: seq<NetEntry>) {
    forall e :: e in entries ==> e.net.Valid()
  }

  /** d is named explicitly, or carries a route or address lying inside the pool. */
  predicate OwnDev(pool: Block, entries: seq<NetEntry>, extra: seq<string>, d: string)
    requires pool.Valid() && ValidEntries(entries)
  {
    && d != ""
    && (d in extra || exists e :: e in entries && e.dev == d && Within(e.net, pool))
  }

  lemma InsideTest(pool: Block, n: Block)
    requires pool.Valid() && n.Valid()
    ensures n.prefix >= pool.prefix && pool.Contains(n.base) ==> Within(n, pool)
    ensures n.prefix < pool.prefix ==> !Within(n, pool)
    ensures !pool.Contains(n.base) ==> !Within(n, pool)
  {
    ContainsIsHas(pool, n.base);
    assert n.Has(n.base);
    if n.prefix >= pool.prefix && pool.Contains(n.base) {
      SharedMeansNested(n, pool, n.base);
    }
    if n.prefix < pool.prefix {
      LongerIsSmaller(n.prefix, pool.prefix);
      BlockInSpace(n);
      assert n.Has(n.Last()) && n.Has(n.base);
      assert !(pool.Has(n.base) && pool.Has(n.Last()));
    }
  }

  lemma LongerIsSmaller(p: Prefix, q: Prefix)
    requires p < q
    ensures Size(q) < Size(p)
  {
    Bitwise.Pow2Mono(32 - q, 32 - p - 1);
  }

  method PoolDevs(pool: Block, entries: seq<NetEntry>, extra: seq<string>) returns (own: set<string>)
    requires pool.Valid() && ValidEntries(entries)
    ensures forall d :: d in own <==> OwnDev(pool, entries, extra, d)
  {
    own := {};
    for i := 0 to |extra|
      invariant forall d :: d in own <==> d != "" && d in extra[..i]
    {
      if extra[i] != "" {
        own := own + {extra[i]};
      }
    }
    for i := 0 to |entries|
      invariant forall d :: d in own <==>
        d != "" && (d in extra || exists k :: 0 <= k < i && entries[k].dev == d && Within(entries[k].net, pool))
    {
      var e := entries[i];
      InsideTest(pool, e.net);
      if e.dev != "" && e.net.prefix >= pool.prefix && pool.Contains(e.net.base) {
        own := own + {e.dev};
      }
    }
  }

  /** The wide pool meets this route and the old pool did not. */
  predicate Collides(oldNet: Block, newNet: Block, e: NetEntry)
    requires oldNet.Valid() && newNet.Valid()
  {
    e.net.Valid() && Disjoint(oldNet, e.net) && !Disjoint(newNet, e.net)
  }

  method SubnetConflicts(oldNet: Block, newNet: Block, own: set<string>, entries: seq<NetEntry>)
    returns (out: seq<NetEntry>)
    requires oldNet.Valid() && newNet.Valid() && ValidEntries(entries)
    ensures forall e :: e in out <==> e in entries && Collides(oldNet, newNet, e) && e.dev !in own
    ensures forall j, k :: 0 <= j < k < |out| ==> out[j] != out[k]
  {
    hide Disjoint, NetsOverlap;
    var seen: set<NetEntry> := {};
    out := [];
    for i := 0 to |entries|
      invariant forall e :: e in out <==> e in entries[..i] && Collides(oldNet, newNet, e) && e.dev !in own
      invariant forall e :: e in seen <==> e in out
      invariant forall j, k :: 0 <= j < k < |out| ==> out[j] != out[k]
    {
      var e := entries[i];
      NetsOverlapExact(oldNet, e.net);
      NetsOverlapExact(newNet, e.net);
      if !(e.dev in own || NetsOverlap(oldNet, e.net) || !NetsOverlap(newNet, e.net)) {
        if e !in seen {
          seen := seen + {e};
          out := out + [e];
        }
      }
    }
  }

  // ---- the plan ----

  datatype Change = Change(narrow: Cidr, wide: Cidr)

  datatype Conflict =
    | RouteClash(wide: Block, route: NetEntry)
    | PoolClash(wide: Block, other: Block)
    | ServerMoves(before: Addr, after: Addr)

  datatype Plan = Plan(wg: Option<Change>, ov: Option<Change>, wgConflicts: seq<Conflict>, ovConflicts: seq<Conflict>) {
    predicate Empty() { wg.None? && ov.None? }
  }

  /** The two pools as configured; a protocol that is not set up has none. */
  datatype Pools = Pools(wg: Option<Cidr>, iface: string, ov: Option<Cidr>)

  function Wide(c: Option<Cidr>, prefix: int, keepHost: bool): Option<Change> {
    if c.Some? && MIN_EXPAND_PREFIX <= prefix <= 30 && c.value.prefix > prefix then
      Some(Change(c.value, WidenCidr(Text(c.value), prefix, keepHost).value.value))
    else
      None
  }

  /** No route clash, and no overlap with the other pool, neither as it is nor widened. */
  predicate ClearOf(c: Change, extra: seq<string>, entries: seq<NetEntry>, other: Option<Cidr>,
                    otherWide: Option<Change>)
    requires ValidEntries(entries)
  {
    && (forall e :: e in entries && Collides(NetworkOf(c.narrow), NetworkOf(c.wide), e) ==>
          OwnDev(NetworkOf(c.narrow), entries, extra, e.dev))
    && (other.Some? ==> Disjoint(NetworkOf(c.wide), NetworkOf(other.value)))
    && (otherWide.Some? ==> Disjoint(NetworkOf(c.wide), NetworkOf(otherWide.value.wide)))
  }

  /** What a plan promises: the widenings asked for, each with conflicts exactly when it would do harm. */
  predicate PlanFor(pools: Pools, prefix: int, entries: seq<NetEntry>, plan: Plan)
    requires ValidEntries(entries)
  {
    && plan.wg == Wide(pools.wg, prefix, true)
    && plan.ov == Wide(pools.ov, prefix, false)
    && (plan.wg.None? ==> plan.wgConflicts == [])
    && (plan.ov.None? ==> plan.ovConflicts == [])
    && (plan.wg.Some? ==> (plan.wgConflicts == [] <==>
         ClearOf(plan.wg.value, [pools.iface], entries, pools.ov, plan.ov)))
    && (plan.ov.Some? ==> (plan.ovConflicts == [] <==>
                             && ClearOf(plan.ov.value, [], entries, pools.wg, plan.wg)
                             && NetworkOf(plan.ov.value.narrow).base == NetworkOf(plan.ov.value.wide).base))
  }

  method PoolConflicts(c: Change, extra: seq<string>, entries: seq<NetEntry>, other: Option<Cidr>,
                       otherWide: Option<Change>)
    returns (out: seq<Conflict>)
    requires ValidEntries(entries)
    ensures out == [] <==> ClearOf(c, extra, entries, other, otherWide)
  {
    var oldNet, newNet := NetworkOf(c.narrow), NetworkOf(c.wide);
    var own := PoolDevs(oldNet, entries, extra);
    var clashes := SubnetConflicts(oldNet, newNet, own, entries);
    out := seq(|clashes|, i requires 0 <= i < |clashes| => RouteClash(newNet, clashes[i]));
    assert clashes != [] ==> clashes[0] in clashes;
    if other.Some? {
      NetsOverlapExact(newNet, NetworkOf(other.value));
    }
    if otherWide.Some? {
      NetsOverlapExact(newNet, NetworkOf(otherWide.value.wide));
    }
    if other.Some? && NetsOverlap(newNet, NetworkOf(other.value)) {
      out := out + [PoolClash(newNet, NetworkOf(other.value))];
    } else if otherWide.Some? && NetsOverlap(newNet, NetworkOf(otherWide.value.wide)) {
      out := out + [PoolClash(newNet, NetworkOf(otherWide.value.wide))];
    }
  }

  lemma SameNext(a: Addr, b: Addr)
    ensures (a + 1) % SPACE == (b + 1) % SPACE <==> a == b
  {
  }

  /** The alignment test: would the OpenVPN server, on network + 1, change its address? */
  method ServerMove(oldNet: Block, newNet: Block) returns (out: seq<Conflict>)
    requires oldNet.Valid() && newNet.Valid()
    ensures out == [] <==> oldNet.base == newNet.base
  {
    var oldBase: Addr, newBase: Addr := oldNet.base, newNet.base;
    hide *;
    var oldSrv := NextIP(ToBytes(oldBase));
    var newSrv := NextIP(ToBytes(newBase));
    SameValue(oldSrv, newSrv);
    SameNext(oldBase, newBase);
    if oldSrv != newSrv {
      return [ServerMoves(Value(oldSrv), Value(newSrv))];
    }
    return [];
  }

  method BuildExpandPlan(wg: Option<Cidr>, iface: string, ovText: Option<CidrText>, prefix: int, entries: seq<NetEntry>)
    returns (r: Result<Plan, Failure>)
    requires ValidEntries(entries)
    ensures r.Failure? <==> ovText == Some(NotIPv4) || ((wg.Some? || ovText.Some?) && !(16 <= prefix <= 30))
    ensures r.Success? ==>
              PlanFor(Pools(wg, iface, if ovText.Some? then Some(ovText.value.cidr) else None), prefix, entries,
                r.value)
  {
    var plan := Plan(None, None, [], []);
    var ov: Option<Cidr> := None;
    if wg.Some? {
      var w := WidenCidr(Text(wg.value), prefix, true);
      if w.Failure? {
        return Failure(w.error);
      }
      if w.value.Some? {
        plan := plan.(wg := Some(Change(wg.value, w.value.value)));
      }
    }
    if ovText.Some? {
      var w := WidenCidr(ovText.value, prefix, false);
      if w.Failure? {
        return Failure(w.error);
      }
      ov := Some(ovText.value.cidr);
      if w.value.Some? {
        plan := plan.(ov := Some(Change(ovText.value.cidr, w.value.value)));
      }
    }
    if plan.wg.Some? {
      var cs := PoolConflicts(plan.wg.value, [iface], entries, ov, plan.ov);
      plan := plan.(wgConflicts := cs);
    }
    if plan.ov.Some? {
      var moves := ServerMove(NetworkOf(plan.ov.value.narrow), NetworkOf(plan.ov.value.wide));
      var cs := PoolConflicts(plan.ov.value, [], entries, wg, plan.wg);
      plan := plan.(ovConflicts := moves + cs);
    }
    return Success(plan);
  }

  // ---- which widenings are applied ----

  datatype Decision = NothingToDo | Refused | Skipped | Apply(plan: Plan)

  /** A clash stops a manual expansion; --auto drops the protocols that clash and goes on with the rest. */
  method Decide(plan: Plan, auto: bool) returns (d: Decision)
    ensures auto ==> (d.Apply? <==> Chosen(plan, Clean(plan.wg, plan.wgConflicts), Clean(plan.ov, plan.ovConflicts)))
    ensures !auto ==> (d.Apply? <==> !plan.Empty() && plan.wgConflicts == [] && plan.ovConflicts == [])
    ensures d == NothingToDo <==> plan.Empty()
    ensures d == Refused <==> !auto && !plan.Empty() && (plan.wgConflicts != [] || plan.ovConflicts != [])
    ensures d == Skipped ==> auto && !plan.Empty()
    ensures d.Apply? ==> d.plan.wg == (if plan.wgConflicts == [] then plan.wg else None)
    ensures d.Apply? ==> d.plan.ov == (if plan.ovConflicts == [] then plan.ov else None)
  {
    if plan.Empty() {
      return NothingToDo;
    }
    var p := plan;
    if |plan.wgConflicts + plan.ovConflicts| > 0 {
      if !auto {
        return Refused;
      }
      if |plan.wgConflicts| > 0 {
        p := p.(wg := None);
      }
      if |plan.ovConflicts| > 0 {
        p := p.(ov := None);
      }
      if p.Empty() {
        return Skipped;
      }
    }
    return Apply(p);
  }

  /** A choice of conflict-free widenings, at least one. */
  predicate Chosen(plan: Plan, doWG: bool, doOV: bool) {
    && (doWG || doOV)
    && (doWG ==> plan.wg.Some? && plan.wgConflicts == [])
    && (doOV ==> plan.ov.Some? && plan.ovConflicts == [])
  }

  predicate Clean(c: Option<Change>, conflicts: seq<Conflict>) {
    c.Some? && conflicts == []
  }

  function After(cur: Option<Cidr>, change: Option<Change>, done: bool): Option<Cidr> {
    if done && change.Some? then Some(change.value.wide) else cur
  }

  /** Whatever part of the conflict-free plan is carried out, the two pools end up disjoint. */
  lemma PoolsEndDisjoint(pools: Pools, prefix: int, entries: seq<NetEntry>, plan: Plan, doWG: bool, doOV: bool)
    requires ValidEntries(entries) && PlanFor(pools, prefix, entries, plan) && Chosen(plan, doWG, doOV)
    requires pools.wg.Some? && pools.ov.Some?
    ensures Disjoint(NetworkOf(After(pools.wg, plan.wg, doWG).value), NetworkOf(After(pools.ov, plan.ov, doOV).value))
  {
  }

  /**
   * Widening a chosen pool keeps all its hosts, the WireGuard server address and the OpenVPN server address
   * (network + 1).
   */
  lemma ServersAndHostsStay(pools: Pools, prefix: int, entries: seq<NetEntry>, plan: Plan, doWG: bool, doOV: bool)
    requires ValidEntries(entries) && PlanFor(pools, prefix, entries, plan) && Chosen(plan, doWG, doOV)
    ensures doWG ==> && plan.wg.value.wide.ip == pools.wg.value.ip
                     && NetworkOf(plan.wg.value.wide) == Widened(NetworkOf(pools.wg.value), prefix)
                     && Within(NetworkOf(pools.wg.value), NetworkOf(plan.wg.value.wide))
    ensures doOV ==> && NetworkOf(plan.ov.value.wide).base == NetworkOf(pools.ov.value).base
                     && NetworkOf(plan.ov.value.wide) == Widened(NetworkOf(pools.ov.value), prefix)
                     && Within(NetworkOf(pools.ov.value), NetworkOf(plan.ov.value.wide))
  {
    if doWG {
      WidenCidrMeaning(pools.wg.value, prefix, true);
    }
    if doOV {
      WidenCidrMeaning(pools.ov.value, prefix, false);
    }
  }

  // ---- the whole command, up to carrying it out ----

  /**
   * A block may become this wider one: that meets neither block of the other pool, and no route that it did not
   * meet before, but for routes of the pool's own devices: the interface named, and any that has an address or a
   * route inside the pool.
   */
  predicate Clear(old_: Block, wide: Block, iface: string, entries: seq<NetEntry>, other: Option<Block>,
                  otherWide: Option<Block>)
    requires old_.Valid() && wide.Valid() && ValidEntries(entries)
    requires (other.Some? ==> other.value.Valid()) && (otherWide.Some? ==> otherWide.value.Valid())
  {
    && (other.Some? ==> Disjoint(wide, other.value)) && (otherWide.Some? ==> Disjoint(wide, otherWide.value))
    && forall e :: e in entries && !Disjoint(wide, e.net) ==>
         || !Disjoint(old_, e.net)
         || (e.dev != "" && (e.dev == iface || exists f :: f in entries && f.dev == e.dev && Within(f.net, old_)))
  }

  /** What a pool is widened to: the block of the new prefix around it, if it is narrower. */
  function WideBlock(c: Option<Cidr>, prefix: int): (b: Option<Block>)
    ensures b.Some? ==> b.value.Valid()
  {
    if c.Some? && 0 <= prefix < c.value.prefix then Some(BlockOf(c.value.ip, prefix)) else None
  }

  function OldBlock(c: Option<Cidr>): (b: Option<Block>)
    ensures b.Some? ==> b.value.Valid()
  {
    if c.Some? then Some(BlockOf(c.value.ip, c.value.prefix)) else None
  }

  /** WireGuard's pool is narrower than asked for and clear. */
  predicate WgHarmless(wg: Option<Cidr>, iface: string, ov: Option<Cidr>, prefix: int, entries: seq<NetEntry>)
    requires ValidEntries(entries)
  {
    && wg.Some? && 0 <= prefix < wg.value.prefix
    && Clear(BlockOf(wg.value.ip, wg.value.prefix), BlockOf(wg.value.ip, prefix), iface, entries, OldBlock(ov),
         WideBlock(ov, prefix))
  }

  /** So is OpenVPN's, and its network address, on which the server's depends, stays. */
  predicate OvHarmless(wg: Option<Cidr>, ov: Option<Cidr>, prefix: int, entries: seq<NetEntry>)
    requires ValidEntries(entries)
  {
    && ov.Some? && 0 <= prefix < ov.value.prefix
    && Clear(BlockOf(ov.value.ip, ov.value.prefix), BlockOf(ov.value.ip, prefix), "", entries, OldBlock(wg),
         WideBlock(wg, prefix))
    && Network(ov.value.ip, prefix) == Network(ov.value.ip, ov.value.prefix)
  }

  /** Which pools are up for widening, and to what. */
  lemma WideMeans(c: Option<Cidr>, prefix: int, keepHost: bool)
    requires 16 <= prefix <= 30
    ensures Wide(c, prefix, keepHost) ==
            if c.Some? && prefix < c.value.prefix then
              Some(Change(c.value, Cidr(if keepHost then c.value.ip else Network(c.value.ip, prefix), prefix)))
            else
              None
    ensures c.Some? && prefix < c.value.prefix ==>
              && NetworkOf(Wide(c, prefix, keepHost).value.wide) == BlockOf(c.value.ip, prefix)
              && WideBlock(c, prefix) == Some(NetworkOf(Wide(c, prefix, keepHost).value.wide))
    ensures c.Some? ==>
              NetworkOf(c.value) == BlockOf(c.value.ip, c.value.prefix) && OldBlock(c) == Some(NetworkOf(c.value))
  {
    if c.Some? && prefix < c.value.prefix {
      NetworkTwice(c.value.ip, prefix, prefix);
    }
  }

  lemma ClearMeans(c: Change, iface: string, entries: seq<NetEntry>, other: Option<Cidr>, otherWide: Option<Change>)
    requires ValidEntries(entries)
    ensures ClearOf(c, [iface], entries, other, otherWide) <==>
            Clear(NetworkOf(c.narrow), NetworkOf(c.wide), iface, entries,
              if other.Some? then Some(NetworkOf(other.value)) else None,
              if otherWide.Some? then Some(NetworkOf(otherWide.value.wide)) else None)
    ensures iface == "" ==>
              (ClearOf(c, [], entries, other, otherWide) <==> ClearOf(c, [iface], entries, other, otherWide))
  {
    hide Disjoint, Within, NetworkOf;
  }

  /**
   * From configuration and host routes to the changes that will be made. With --auto they are the harmless
   * widenings, and nothing is ever refused; without, all that are wanted, provided that all are harmless. There
   * is nothing to do when no pool is narrower than asked for.
   */
  method ExpandSubnet(wg: Option<Cidr>, iface: string, ovText: Option<CidrText>, prefix: int, entries: seq<NetEntry>,
                      auto: bool)
    returns (r: Result<Decision, Failure>)
    requires ValidEntries(entries)
    ensures r.Failure? <==> ovText == Some(NotIPv4) || ((wg.Some? || ovText.Some?) && !(16 <= prefix <= 30))
    ensures r.Success? ==>
              var ov := if ovText.Some? then Some(ovText.value.cidr) else None;
              var a, b := wg.Some? && prefix < wg.value.prefix, ov.Some? && prefix < ov.value.prefix;
              var w, o := WgHarmless(wg, iface, ov, prefix, entries), OvHarmless(wg, ov, prefix, entries);
              && (r.value == NothingToDo <==> !a && !b)
              && (auto ==> (r.value.Apply? <==> w || o) && (r.value == Skipped <==> (a || b) && !w && !o))
              && (!auto ==> && (r.value.Apply? <==> (a || b) && (a ==> w) && (b ==> o))
                            && (r.value == Refused <==> (a && !w) || (b && !o)))
              && (r.value.Apply? ==>
                    && r.value.plan.wg == (if w then Some(Change(wg.value, Cidr(wg.value.ip, prefix))) else None)
                    && r.value.plan.ov ==
                       (if o then Some(Change(ov.value, Cidr(Network(ov.value.ip, prefix), prefix))) else None))
  {
    hide Disjoint, OwnDev, Widened, Within, ClearOf, Clear;
    var built := BuildExpandPlan(wg, iface, ovText, prefix, entries);
    if built.Failure? {
      return Failure(built.error);
    }
    var plan := built.value;
    var d := Decide(plan, auto);
    ghost var ov := if ovText.Some? then Some(ovText.value.cidr) else None;
    if wg.Some? || ov.Some? {
      WideMeans(wg, prefix, true);
      WideMeans(ov, prefix, false);
      if plan.wg.Some? {
        ClearMeans(plan.wg.value, iface, entries, ov, plan.ov);
      }
      if plan.ov.Some? {
        ClearMeans(plan.ov.value, "", entries, wg, plan.wg);
      }
    }
    return Success(d);
  }

  /**
   * Making some harmless widenings, at least one, leaves the pools disjoint, with the servers and hosts they had.
   */
  lemma HarmlessMeans(wg: Option<Cidr>, iface: string, ov: Option<Cidr>, prefix: int, entries: seq<NetEntry>,
                      doWG: bool, doOV: bool)
    requires ValidEntries(entries) && 16 <= prefix <= 30 && (doWG || doOV)
    requires (doWG ==> WgHarmless(wg, iface, ov, prefix, entries)) && (doOV ==> OvHarmless(wg, ov, prefix, entries))
    ensures var wg' := if doWG then Some(Cidr(wg.value.ip, prefix)) else wg;
            var ov' := if doOV then Some(Cidr(Network(ov.value.ip, prefix), prefix)) else ov;
            && (wg'.Some? && ov'.Some? ==> Disjoint(NetworkOf(wg'.value), NetworkOf(ov'.value)))
            && (wg'.Some? ==> wg'.value.ip == wg.value.ip && Within(NetworkOf(wg.value), NetworkOf(wg'.value)))
            && (ov'.Some? ==> && NetworkOf(ov'.value).base == NetworkOf(ov.value).base
                              && Within(NetworkOf(ov.value), NetworkOf(ov'.value)))
  {
    hide Disjoint, Within;
    if wg.Some? {
      WithinItself(NetworkOf(wg.value));
    }
    if ov.Some? {
      WithinItself(NetworkOf(ov.value));
    }
    if doWG {
      WideMeans(wg, prefix, true);
      WidenCidrMeaning(wg.value, prefix, true);
    }
    if doOV {
      WideMeans(ov, prefix, false);
      WidenCidrMeaning(ov.value, prefix, false);
      if wg.Some? {
        DisjointBoth(NetworkOf(wg.value), BlockOf(ov.value.ip, prefix));
        DisjointBoth(BlockOf(wg.value.ip, prefix), BlockOf(ov.value.ip, prefix));
      }
    }
  }

  lemma WithinItself(n: Block)
    requires n.Valid()
    ensures Within(n, n)
  {
  }

  lemma DisjointBoth(m: Block, n: Block)
    requires m.Valid() && n.Valid()
    ensures Disjoint(m, n) <==> Disjoint(n, m)
  {
  }
}
