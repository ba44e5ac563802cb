/**
 * Enforcement passes, recharges, panel writes, creations, attachments and deletions running concurrently, as
 * interleaved steps over the table, the live counters, the block set and the enforcement lock.
 */
module Machine {
  import opened Wrappers
  import opened IPv4
  import opened Peers
  import opened Enforcement
  import opened Metering
  import opened Reset

  // ---- state ----

  /** A user's counters, and whether WireGuard and OpenVPN currently show him. */
  datatype Line = Line(rx: Meter, tx: Meter, ov: Meter, wgUp: bool, ovUp: bool)

  type Pid = int

  /** Who holds the lock, and how far the holder has come. */
  datatype Lock =
    | Free
    | TickBegun(who: Option<Pid>)
    | TickWG(who: Option<Pid>, tr: Transfers)
    | TickOV(who: Option<Pid>, tr: Transfers, ov: Sessions, now: int)
    | TickLoop(who: Option<Pid>, tr: Transfers, ov: Sessions, now: int, snap: seq<Peer>, next: nat)
    | ResetBegun(pid: Pid, user: nat, req: Request)
    | ResetSampled(pid: Pid, user: nat, req: Request, base: Counters)

  /**
   * rows: one place for every id that is ever handed out; ids are not used again. born: the next id.
   * waiting: handlers that have written a row and whose own pass has not finished, with that row.
   * lastTick: the clock of the last finished pass. touched: rows written since the last snapshot.
   * stuck: addresses that users deleted since then leave in the block set. late: addresses attached since then.
   */
  datatype State = State(
    rows: seq<Peer>,
    born: nat,
    lines: seq<Line>,
    ipset: set<Addr>,
    lock: Lock,
    waiting: map<Pid, nat>,
    clock: int,
    lastTick: Option<int>,
    touched: set<nat>,
    stuck: set<Addr>,
    late: set<Addr>)

  datatype Which = RX | TX | OV

  datatype Write = Quota(bytes: int) | Expiry(at: Option<int>) | Enabled(on: bool)

  datatype Event =
    | Traffic(user: nat, which: Which, bytes: nat)
    | WgSession(user: nat, up: bool)
    | OvSession(user: nat, up: bool)
    | Clock(to_: int)
    | PanelWrite(pid: Pid, user: nat, write: Write)
    | Create(row: Peer)
    | Delete(user: nat)
    | Attach(user: nat, ip: Addr, cred: Credentials)
    | RechargeBegin(pid: Pid, user: nat, req: Request)
    | RechargeFail
    | RechargeSample
    | RechargeCommit
    | TickBegin(who: Option<Pid>)
    | TickReadWG(tr: Transfers, ok: bool)
    | TickReadOV(ov: Sessions, ok: bool)
    | TickSnapshot
    | TickPeer
    | TickEnd

  // ---- steps ----

  function ApplyWrite(p: Peer, w: Write): Peer {
    match w
    case Quota(b) => p.(quota := b)
    case Expiry(t) => p.(expires := t)
    case Enabled(on) => p.(enabled := on)
  }

  function ApplyTraffic(l: Line, which: Which, n: nat): Line {
    match which
    case RX => l.(rx := Flow(l.rx, n))
    case TX => l.(tx := Flow(l.tx, n))
    case OV => l.(ov := Flow(l.ov, n))
  }

  /** A transfer listing shows every WireGuard user that is up, with his counters; a failed one shows nothing. */
  predicate WgListing(s: State, tr: Transfers, ok: bool)
    requires |s.lines| == |s.rows|
  {
    if ok then
      forall i :: 0 <= i < |s.rows| && s.rows[i].publicKey != "" ==>
        (s.rows[i].publicKey in tr <==> s.lines[i].wgUp) &&
        (s.lines[i].wgUp ==> tr[s.rows[i].publicKey] == (s.lines[i].rx.live, s.lines[i].tx.live))
    else
      tr == map[]
  }

  predicate OvListing(s: State, ov: Sessions, ok: bool)
    requires |s.lines| == |s.rows|
  {
    if ok then
      forall i :: 0 <= i < |s.rows| && s.rows[i].cn != "" ==>
        (s.rows[i].cn in ov <==> s.lines[i].ovUp) && (s.lines[i].ovUp ==> ov[s.rows[i].cn] == s.lines[i].ov.live)
    else
      ov == map[]
  }

  function ReadLineWG(p: Peer, l: Line, tr: Transfers): Line {
    if p.publicKey in tr && p.publicKey != "" then l.(rx := Read(l.rx), tx := Read(l.tx)) else l
  }

  function ReadLineOV(p: Peer, l: Line, ov: Sessions): Line {
    if p.cn != "" && p.cn in ov then l.(ov := Read(l.ov)) else l
  }

  function SampleOf(p: Peer, l: Line): Counters {
    Baseline(p, if l.wgUp then Some((l.rx.live, l.tx.live)) else None, if l.ovUp then Some(l.ov.live) else None)
  }

  function ZeroLine(l: Line, c: Counters): Line {
    if c.rx >= 0 && c.tx >= 0 && c.ovpn >= 0 then
      l.(rx := Zero(l.rx, c.rx), tx := Zero(l.tx, c.tx), ov := Zero(l.ov, c.ovpn))
    else l
  }

  /**
   * The columns a pass writes for one row: absolute values computed from the snapshot p, put over the row as it is
   * now.
   */
  function MergeTick(cur: Peer, p: Peer, tr: Transfers, ov: Sessions, now: int): Peer {
    var q := TickRow(p, tr, ov, now);
    PutFlag(PutOV(PutWG(cur, p, q, tr), p, q, ov), p, q)
  }

  function PutWG(cur: Peer, p: Peer, q: Peer, tr: Transfers): Peer {
    if p.publicKey in tr && p.publicKey != "" then cur.(used := q.used, lastRx := q.lastRx, lastTx := q.lastTx) else cur
  }

  function PutOV(cur: Peer, p: Peer, q: Peer, ov: Sessions): Peer {
    if p.cn != "" && p.cn in ov then cur.(usedOvpn := q.usedOvpn, lastOvpn := q.lastOvpn) else cur
  }

  function PutFlag(cur: Peer, p: Peer, q: Peer): Peer {
    if q.blocked != p.blocked then cur.(blocked := q.blocked) else cur
  }

  predicate Busy(s: State, pid: Pid) {
    pid in s.waiting || (s.lock.ResetBegun? && s.lock.pid == pid) || (s.lock.ResetSampled? && s.lock.pid == pid)
  }

  const QUIET :=
    Line(Meter(0, 0, 0, 0, 0, false), Meter(0, 0, 0, 0, 0, false), Meter(0, 0, 0, 0, 0, false), false, false)

  /** A new user: nothing used, not blocked, addresses nobody holds, and keys that no listing in hand shows. */
  predicate Newcomer(s: State, p: Peer) {
    && p.username != "" && p.used == 0 && p.lastRx == 0 && p.lastTx == 0 && p.usedOvpn == 0 && p.lastOvpn == 0
    && !p.blocked && !EffectiveBlocked(p, s.clock)
    && (forall i :: 0 <= i < |s.rows| ==> IPs(s.rows[i]) !! IPs(p))
    && (s.lock.TickWG? || s.lock.TickOV? ==> p.publicKey == "" || p.publicKey !in s.lock.tr)
    && (s.lock.TickOV? ==> p.cn == "" || p.cn !in s.lock.ov)
  }

  /** A user without an OpenVPN identity, an address nobody holds, and a name that no listing in hand shows. */
  predicate MayAttach(s: State, i: nat, ip: Addr) {
    && i < |s.rows| && !Vacant(s.rows[i]) && s.rows[i].cn == "" && s.rows[i].ovpnIP.None?
    && (forall j :: 0 <= j < |s.rows| ==> ip !in IPs(s.rows[j]))
    && (s.lock.TickOV? ==> s.rows[i].username !in s.lock.ov)
  }

  /**
   * What a user deleted now leaves in the block set. The pass under way goes by its snapshot; without one,
   * the set has what the last pass put there.
   */
  function LeftBehind(s: State, i: nat): set<Addr>
    requires i < |s.rows|
  {
    if s.lock.TickLoop? then
      if i < |s.lock.snap| && TickRow(s.lock.snap[i], s.lock.tr, s.lock.ov, s.lock.now).blocked then
        IPs(s.lock.snap[i])
      else
        {}
    else if s.rows[i].blocked then
      IPs(s.rows[i]) - s.late
    else
      {}
  }

  predicate CanStep(s: State, e: Event)
    requires |s.lines| == |s.rows|
  {
    match e
    case Traffic(i, which, _) => i < |s.rows| && (if which.OV? then s.lines[i].ovUp else s.lines[i].wgUp)
    case WgSession(i, up) => i < |s.rows| && (up ==> s.rows[i].publicKey != "")
    case OvSession(i, up) => i < |s.rows| && (up ==> s.rows[i].cn != "")
    case Clock(t) => s.clock <= t
    case PanelWrite(pid, i, _) => i < |s.rows| && !Vacant(s.rows[i]) && !Busy(s, pid)
    case Create(p) => s.born < |s.rows| && Newcomer(s, p)
    case Delete(i) => i < |s.rows| && !Vacant(s.rows[i])
    case Attach(i, ip, _) => MayAttach(s, i, ip)
    case RechargeBegin(pid, i, req) => s.lock.Free? && i < |s.rows| && !Vacant(s.rows[i]) && !Busy(s, pid) &&
      Accepts(req)
    case RechargeFail => s.lock.ResetBegun?
    case RechargeSample => s.lock.ResetBegun? && s.lock.user < |s.rows| && !Vacant(s.rows[s.lock.user])
    case RechargeCommit => s.lock.ResetSampled?
    case TickBegin(who) => s.lock.Free? && (who.Some? ==> who.value in s.waiting)
    case TickReadWG(tr, ok) => s.lock.TickBegun? && WgListing(s, tr, ok)
    case TickReadOV(ov, ok) => s.lock.TickWG? && OvListing(s, ov, ok)
    case TickSnapshot => s.lock.TickOV?
    case TickPeer => s.lock.TickLoop? && s.lock.next < |s.lock.snap| == |s.rows|
    case TickEnd => s.lock.TickLoop? && s.lock.next == |s.lock.snap|
  }

  function Apply(s: State, e: Event): (s': State)
    requires |s.lines| == |s.rows| && CanStep(s, e)
    ensures |s'.lines| == |s'.rows| == |s.rows|
  {
    match e
    case Traffic(i, which, n) => s.(lines := s.lines[i := ApplyTraffic(s.lines[i], which, n)])
    case WgSession(i, up) =>
      var l := s.lines[i];
      s.(lines := s.lines[i := l.(rx := Restart(l.rx), tx := Restart(l.tx), wgUp := up)])
    case OvSession(i, up) =>
      var l := s.lines[i];
      s.(lines := s.lines[i := l.(ov := Restart(l.ov), ovUp := up)])
    case Clock(t) => s.(clock := t)
    case PanelWrite(pid, i, w) =>
      s.(rows := s.rows[i := ApplyWrite(s.rows[i], w)], waiting := s.waiting[pid := i], touched := s.touched + {i})
    case Create(p) => s.(rows := s.rows[s.born := p], lines := s.lines[s.born := QUIET], born := s.born + 1)
    case Delete(i) =>
      s.(rows := s.rows[i := NOBODY], lines := s.lines[i := QUIET], stuck := s.stuck + LeftBehind(s, i))
    case Attach(i, ip, cred) =>
      s.(rows := s.rows[i := WithOvpn(s.rows[i], ip, cred)], late := s.late + {ip})
    case RechargeBegin(pid, i, req) => s.(lock := ResetBegun(pid, i, req))
    case RechargeFail => s.(lock := Free)
    case RechargeSample =>
      var k := s.lock;
      var c := SampleOf(s.rows[k.user], s.lines[k.user]);
      s.(lock := ResetSampled(k.pid, k.user, k.req, c),
         lines := if k.req.WantsReset() then s.lines[k.user := ZeroLine(s.lines[k.user], c)] else s.lines)
    case RechargeCommit =>
      var k := s.lock;
      if k.user < |s.rows| then
        s.(lock := Free,
           rows := if Vacant(s.rows[k.user]) then s.rows
             else s.rows[k.user := Recharged(s.rows[k.user], k.req, k.base)],
           waiting := s.waiting[k.pid := k.user], touched := s.touched + {k.user})
      else s
    case TickBegin(who) => s.(lock := TickBegun(who))
    case TickReadWG(tr, ok) =>
      s.(lock := TickWG(s.lock.who, tr),
         lines := seq(|s.lines|, i requires 0 <= i < |s.lines| => ReadLineWG(s.rows[i], s.lines[i], tr)))
    case TickReadOV(ov, ok) =>
      s.(lock := TickOV(s.lock.who, s.lock.tr, ov, s.clock),
         lines := seq(|s.lines|, i requires 0 <= i < |s.lines| => ReadLineOV(s.rows[i], s.lines[i], ov)))
    case TickSnapshot =>
      s.(lock := TickLoop(s.lock.who, s.lock.tr, s.lock.ov, s.lock.now, s.rows, 0), touched := {},
         stuck := {}, late := {})
    case TickPeer =>
      var k := s.lock;
      var p := k.snap[k.next];
      s.(rows := if Vacant(p) || Vacant(s.rows[k.next]) then s.rows
                 else s.rows[k.next := MergeTick(s.rows[k.next], p, k.tr, k.ov, k.now)],
         ipset := s.ipset - IPs(p) + (if TickRow(p, k.tr, k.ov, k.now).blocked then IPs(p) else {}),
         lock := k.(next := k.next + 1))
    case TickEnd =>
      s.(lock := Free, ipset := s.ipset * Claimed(s.lock.snap), lastTick := Some(s.lock.now),
         waiting := if s.lock.who.Some? then s.waiting - {s.lock.who.value} else s.waiting)
  }

  // ---- runs ----

  predicate CanRun(s: State, es: seq<Event>)
    requires |s.lines| == |s.rows|
    decreases |es|
  {
    es == [] || (CanStep(s, es[0]) && CanRun(Apply(s, es[0]), es[1..]))
  }

  function RunAll(s: State, es: seq<Event>): (s': State)
    requires |s.lines| == |s.rows| && CanRun(s, es)
    ensures |s'.lines| == |s'.rows| == |s.rows|
    decreases |es|
  {
    if es == [] then s else RunAll(Apply(s, es[0]), es[1..])
  }

  lemma EndOfRun(s: State)
    requires |s.lines| == |s.rows|
    ensures CanRun(s, []) && RunAll(s, []) == s
  {
  }

  lemma RunPrefix(s: State, e: Event, es: seq<Event>)
    requires |s.lines| == |s.rows| && CanStep(s, e) && CanRun(Apply(s, e), es)
    ensures CanRun(s, [e] + es) && RunAll(s, [e] + es) == RunAll(Apply(s, e), es)
  {
    assert ([e] + es)[1..] == es;
  }

  lemma {:induction false} JoinRuns(s: State, es: seq<Event>, fs: seq<Event>)
    requires |s.lines| == |s.rows| && CanRun(s, es) && CanRun(RunAll(s, es), fs)
    ensures CanRun(s, es + fs) && RunAll(s, es + fs) == RunAll(RunAll(s, es), fs)
    decreases |es|
  {
    hide CanStep, Apply;
    if es == [] {
      assert es + fs == fs;
    } else {
      JoinRuns(Apply(s, es[0]), es[1..], fs);
      assert (es + fs)[1..] == es[1..] + fs;
    }
  }

  // ---- the account books ----

  /** The row's usage columns agree with the counters' accounts. */
  predicate Books(p: Peer, l: Line) {
    && p.used == l.rx.billed + l.tx.billed && p.lastRx == l.rx.ref && p.lastTx == l.tx.ref
    && p.usedOvpn == l.ov.billed && p.lastOvpn == l.ov.ref
  }

  /** Row i once the lock holder has written what it has already read. */
  function Expected(s: State, i: nat): Peer
    requires i < |s.rows|
  {
    match s.lock
    case TickWG(_, tr) => BillWG(s.rows[i], tr)
    case TickOV(_, tr, ov, _) => Billed(s.rows[i], tr, ov)
    case TickLoop(_, tr, ov, _, snap, next) =>
      if next <= i < |snap| && !Vacant(snap[i]) && !Vacant(s.rows[i]) then Billed(snap[i], tr, ov) else s.rows[i]
    case ResetSampled(_, user, req, base) =>
      if i == user && req.WantsReset() && !Vacant(s.rows[i]) then ResetRow(s.rows[i], base) else s.rows[i]
    case _ => s.rows[i]
  }

  predicate SoundLine(p: Peer, l: Line) {
    && Sound(l.rx) && Sound(l.tx) && Sound(l.ov)
    && (l.wgUp ==> p.publicKey != "") && (l.ovUp ==> p.cn != "")
    && (!l.wgUp ==> l.rx.live == 0 && l.tx.live == 0) && (!l.ovUp ==> l.ov.live == 0)
  }

  /** The columns that quota, expiry and enabled writes leave alone. */
  function Core(p: Peer): Peer {
    p.(quota := 0, expires := None, enabled := false)
  }

  /** The core without the OpenVPN identity. */
  function Body(p: Peer): Peer {
    Core(p).(cn := "", ovpnIP := None, ovpnEnabled := false, ovpnCert := "", ovpnKey := "")
  }

  /** The identity is the same, or came later. */
  predicate Grown(p: Peer, q: Peer) {
    (q.cn == p.cn && q.ovpnIP == p.ovpnIP) || (p.cn == "" && p.ovpnIP.None?)
  }

  /** What a pass in progress knows of the rows that were there at its snapshot and still are. */
  predicate SnapshotCurrent(s: State) {
    s.lock.TickLoop? ==>
      && |s.lock.snap| == |s.rows| && s.lock.next <= |s.rows|
      && (forall i :: s.born <= i < |s.rows| ==> Vacant(s.lock.snap[i]))
      && (forall i :: 0 <= i < |s.rows| && Vacant(s.lock.snap[i]) ==> s.lock.snap[i] == NOBODY)
      && forall i :: 0 <= i < |s.rows| && !Vacant(s.lock.snap[i]) && !Vacant(s.rows[i]) ==>
           && var p := s.lock.snap[i];
           && Body(s.rows[i]) == Body(if i < s.lock.next then TickRow(p, s.lock.tr, s.lock.ov, s.lock.now) else p)
           && Grown(p, s.rows[i])
           && (i !in s.touched ==> SameAdmin(s.rows[i], s.lock.snap[i]))
  }

  predicate SameAdmin(p: Peer, q: Peer) {
    p.quota == q.quota && p.expires == q.expires && p.enabled == q.enabled
  }

  predicate LockOk(s: State) {
    && s.born <= |s.rows| && (forall i :: s.born <= i < |s.rows| ==> Vacant(s.rows[i]))
    && (forall i :: 0 <= i < |s.rows| && Vacant(s.rows[i]) ==> s.rows[i] == NOBODY)
    && ((s.lock.ResetBegun? || s.lock.ResetSampled?) ==> s.lock.user < s.born)
  }

  predicate Balanced(s: State)
    requires |s.lines| == |s.rows|
  {
    && LockOk(s) && SnapshotCurrent(s)
    && forall i :: 0 <= i < |s.rows| ==> SoundLine(s.rows[i], s.lines[i]) && Books(Expected(s, i), s.lines[i])
  }

  lemma TouchOneLine(s: State, s': State, k: nat)
    requires |s.lines| == |s.rows| && Balanced(s) && k < |s.rows|
    requires |s'.lines| == |s.lines| && s' == s.(lines := s.lines[k := s'.lines[k]])
    requires SoundLine(s.rows[k], s'.lines[k]) && Books(Expected(s, k), s'.lines[k])
    ensures Balanced(s')
  {
    hide SoundLine, Books, TickRow, Billed, BillWG, Core;
    forall i | 0 <= i < |s'.rows|
      ensures SoundLine(s'.rows[i], s'.lines[i]) && Books(Expected(s', i), s'.lines[i])
    {
      assert Expected(s', i) == Expected(s, i);
    }
  }

  lemma TrafficLine(p: Peer, q: Peer, l: Line, which: Which, n: nat)
    requires SoundLine(p, l) && Books(q, l) && (if which.OV? then l.ovUp else l.wgUp)
    ensures SoundLine(p, ApplyTraffic(l, which, n)) && Books(q, ApplyTraffic(l, which, n))
  {
  }

  lemma SessionLine(p: Peer, q: Peer, l: Line, up: bool)
    requires SoundLine(p, l) && Books(q, l)
    ensures (up ==> p.publicKey != "") ==> SoundLine(p, l.(rx := Restart(l.rx), tx := Restart(l.tx), wgUp := up))
    ensures Books(q, l.(rx := Restart(l.rx), tx := Restart(l.tx), wgUp := up))
    ensures (up ==> p.cn != "") ==> SoundLine(p, l.(ov := Restart(l.ov), ovUp := up))
    ensures Books(q, l.(ov := Restart(l.ov), ovUp := up))
  {
  }

  lemma TrafficKeepsBalance(s: State, e: Event)
    requires |s.lines| == |s.rows| && Balanced(s) && CanStep(s, e) && (e.Traffic? || e.WgSession? || e.OvSession?)
    ensures Balanced(Apply(s, e))
  {
    hide Expected, SnapshotCurrent, SoundLine, Books, ApplyTraffic;
    var i := e.user;
    var p, q, l := s.rows[i], Expected(s, i), s.lines[i];
    assert SoundLine(p, l) && Books(q, l);
    match e {
      case Traffic(_, which, n) => TrafficLine(p, q, l, which, n);
      case WgSession(_, up) => SessionLine(p, q, l, up);
      case OvSession(_, up) => SessionLine(p, q, l, up);
    }
    TouchOneLine(s, Apply(s, e), i);
  }

  lemma NewUserKeepsBalance(s: State, p: Peer)
    requires |s.lines| == |s.rows| && Balanced(s) && CanStep(s, Create(p))
    ensures Balanced(Apply(s, Create(p)))
  {
    hide TickRow, SoundLine, Books, IPs, Core, EffectiveBlocked, SameAdmin;
    var s' := Apply(s, Create(p));
    NewcomerBooks(s, p);
    NewcomerIsNotBilled(s, p);
    forall i | 0 <= i < |s.rows|
      ensures SoundLine(s'.rows[i], s'.lines[i]) && Books(Expected(s', i), s'.lines[i])
    {
      assert i != s.born ==> SoundLine(s.rows[i], s.lines[i]) && Books(Expected(s, i), s.lines[i]);
    }
  }

  lemma NewcomerBooks(s: State, p: Peer)
    requires Newcomer(s, p)
    ensures SoundLine(p, QUIET) && Books(p, QUIET) && !Vacant(p)
  {
    hide SoundLine, Books, IPs, EffectiveBlocked;
    QuietBooks(p, QUIET);
  }

  lemma NewcomerIsNotBilled(s: State, p: Peer)
    requires Newcomer(s, p)
    ensures s.lock.TickWG? ==> BillWG(p, s.lock.tr) == p
    ensures s.lock.TickOV? ==> Billed(p, s.lock.tr, s.lock.ov) == p
  {
    hide IPs, EffectiveBlocked, BillWG, Billed;
    if s.lock.TickWG? {
      UnseenIsNotBilled(p, s.lock.tr, map[]);
    } else if s.lock.TickOV? {
      UnseenIsNotBilled(p, s.lock.tr, s.lock.ov);
    }
  }

  lemma UnseenIsNotBilled(p: Peer, tr: Transfers, ov: Sessions)
    requires p.publicKey == "" || p.publicKey !in tr
    ensures BillWG(p, tr) == p
    ensures p.cn == "" || p.cn !in ov ==> Billed(p, tr, ov) == p
  {
  }

  /** Nobody owes anything, whatever the lock holder has read. */
  lemma ExpectedVacant(s: State, i: nat)
    requires i < |s.rows| && s.rows[i] == NOBODY
    ensures Expected(s, i) == NOBODY
  {
    hide BillWG, Billed;
    match s.lock
    case TickWG(_, tr) => UnseenIsNotBilled(NOBODY, tr, map[]);
    case TickOV(_, tr, ov, _) => UnseenIsNotBilled(NOBODY, tr, ov);
    case _ =>
  }

  lemma AttachmentKeepsBalance(s: State, e: Event)
    requires |s.lines| == |s.rows| && Balanced(s) && CanStep(s, e) && e.Attach?
    ensures Balanced(Apply(s, e))
  {
    hide SoundLine, Books, Expected, IPs, TickRow, Core;
    var s', k := Apply(s, e), e.user;
    AttachedBody(s.rows[k], e.ip, e.cred);
    assert SoundLine(s.rows[k], s.lines[k]) && Books(Expected(s, k), s.lines[k]);
    AttachedBill(s, e);
    BooksIgnoreRest(Expected(s, k), Expected(s', k), s.lines[k]);
    AttachedSoundness(s.rows[k], s'.rows[k], s.lines[k]);
    forall i | 0 <= i < |s.rows| && i != k
      ensures SoundLine(s'.rows[i], s'.lines[i]) && Books(Expected(s', i), s'.lines[i])
    {
      assert SoundLine(s.rows[i], s.lines[i]) && Books(Expected(s, i), s.lines[i]);
      ExpectedElsewhere(s, s', i);
    }
  }

  lemma AttachedBody(p: Peer, ip: Addr, cred: Credentials)
    requires p.cn == "" && p.ovpnIP.None?
    ensures var q := WithOvpn(p, ip, cred);
            && Body(q) == Body(p) && SameAdmin(q, p) && IPs(q) == IPs(p) + {ip}
            && q.username == p.username && q.blocked == p.blocked
    ensures forall r :: Grown(r, p) ==> Grown(r, WithOvpn(p, ip, cred))
  {
  }

  lemma AttachedSoundness(p: Peer, q: Peer, l: Line)
    requires p.publicKey == q.publicKey && (p.cn != "" ==> q.cn != "")
    ensures SoundLine(p, l) ==> SoundLine(q, l)
  {
  }

  /** What the lock holder has read, or will write from its snapshot, does not show the new identity. */
  lemma AttachedBill(s: State, e: Event)
    requires |s.lines| == |s.rows| && CanStep(s, e) && e.Attach?
    ensures var p, q := Expected(s, e.user), Expected(Apply(s, e), e.user);
            && p.used == q.used && p.lastRx == q.lastRx && p.lastTx == q.lastTx
            && p.usedOvpn == q.usedOvpn && p.lastOvpn == q.lastOvpn
  {
    hide IPs, BillWG, Billed, TickRow, Vacant, LeftBehind;
    var p := s.rows[e.user];
    match s.lock
    case TickWG(_, tr) => AttachedUnseen(p, e, tr, map[]);
    case TickOV(_, tr, ov, _) => AttachedUnseen(p, e, tr, ov);
    case TickLoop(_, _, _, _, _, _) => AttachedStays(p, e);
    case ResetSampled(_, _, _, _) => AttachedStays(p, e);
    case _ =>
  }

  lemma AttachedStays(p: Peer, e: Event)
    requires e.Attach?
    ensures Vacant(WithOvpn(p, e.ip, e.cred)) <==> Vacant(p)
  {
  }

  lemma AttachedUnseen(p: Peer, e: Event, tr: Transfers, ov: Sessions)
    requires e.Attach? && p.cn == "" && p.username !in ov
    ensures var a, b := BillWG(p, tr), BillWG(WithOvpn(p, e.ip, e.cred), tr);
            && a.used == b.used && a.lastRx == b.lastRx && a.lastTx == b.lastTx && a.usedOvpn == b.usedOvpn
            && a.lastOvpn == b.lastOvpn
    ensures var a, b := Billed(p, tr, ov), Billed(WithOvpn(p, e.ip, e.cred), tr, ov);
            && a.used == b.used && a.lastRx == b.lastRx && a.lastTx == b.lastTx && a.usedOvpn == b.usedOvpn
            && a.lastOvpn == b.lastOvpn
  {
  }

  lemma DeletionKeepsBalance(s: State, u: nat)
    requires |s.lines| == |s.rows| && Balanced(s) && CanStep(s, Delete(u))
    ensures Balanced(Apply(s, Delete(u)))
  {
    hide TickRow, SoundLine, Books, IPs, Core, SameAdmin, Expected;
    var s' := Apply(s, Delete(u));
    forall i | 0 <= i < |s.rows|
      ensures SoundLine(s'.rows[i], s'.lines[i]) && Books(Expected(s', i), s'.lines[i])
    {
      if i == u {
        DeletedBooks(s, u);
        assert Books(Expected(s', i), s'.lines[i]);
      } else {
        assert SoundLine(s.rows[i], s.lines[i]) && Books(Expected(s, i), s.lines[i]);
        ExpectedElsewhere(s, s', i);
        assert s'.lines[i] == s.lines[i];
        assert Books(Expected(s', i), s'.lines[i]);
      }
    }
  }

  lemma DeletedBooks(s: State, u: nat)
    requires |s.lines| == |s.rows| && CanStep(s, Delete(u))
    ensures var s' := Apply(s, Delete(u));
            SoundLine(s'.rows[u], s'.lines[u]) && Books(Expected(s', u), s'.lines[u])
  {
    hide IPs, SoundLine, Books, Expected;
    NobodyBooks();
    ExpectedVacant(Apply(s, Delete(u)), u);
  }

  lemma ExpectedElsewhere(s: State, s': State, i: nat)
    requires i < |s.rows| == |s'.rows| && s'.lock == s.lock && s'.rows[i] == s.rows[i]
    ensures Expected(s', i) == Expected(s, i)
  {
  }

  lemma NobodyBooks()
    ensures SoundLine(NOBODY, QUIET) && Books(NOBODY, QUIET)
  {
    QuietBooks(NOBODY, QUIET);
  }

  lemma QuietBooks(p: Peer, l: Line)
    requires p.used == 0 && p.usedOvpn == 0 && p.lastRx == 0 && p.lastTx == 0 && p.lastOvpn == 0
    requires l.rx == Meter(0, 0, 0, 0, 0, false) && l.tx == l.rx && l.ov == l.rx && !l.wgUp && !l.ovUp
    ensures SoundLine(p, l) && Books(p, l)
  {
    hide Sound;
    assert Sound(l.rx) by {
      ZeroIsSound();
    }
  }

  lemma ZeroIsSound()
    ensures Sound(Meter(0, 0, 0, 0, 0, false))
  {
  }

  lemma PanelWriteKeepsBalance(s: State, e: Event)
    requires |s.lines| == |s.rows| && Balanced(s) && CanStep(s, e) && e.PanelWrite?
    ensures Balanced(Apply(s, e))
  {
    hide TickRow, SoundLine, Books, Expected, ApplyWrite, Core, IPs, LeftBehind;
    var s', k := Apply(s, e), e.user;
    WriteKeepsCore(s.rows[k], e.write);
    CoreFields(s.rows[k], s'.rows[k]);
    assert SoundLine(s.rows[k], s.lines[k]) && Books(Expected(s, k), s.lines[k]);
    ExpectedWritten(s, s', k);
    BooksIgnoreRest(Expected(s, k), Expected(s', k), s.lines[k]);
    SameKeysSameSoundness(s.rows[k], s'.rows[k], s.lines[k]);
    forall i | 0 <= i < |s.rows| && i != k
      ensures SoundLine(s'.rows[i], s'.lines[i]) && Books(Expected(s', i), s'.lines[i])
    {
      assert SoundLine(s.rows[i], s.lines[i]) && Books(Expected(s, i), s.lines[i]);
      ExpectedElsewhere(s, s', i);
    }
  }

  /** Columns outside the core do not enter the usage the lock holder will write. */
  lemma ExpectedWritten(s: State, s': State, k: nat)
    requires k < |s.rows| == |s'.rows| && s'.lock == s.lock && Core(s'.rows[k]) == Core(s.rows[k])
    ensures var p, q := Expected(s, k), Expected(s', k);
            && p.used == q.used && p.lastRx == q.lastRx && p.lastTx == q.lastTx
            && p.usedOvpn == q.usedOvpn && p.lastOvpn == q.lastOvpn
  {
    hide Core, IPs, BillWG, Billed;
    var p, q := s.rows[k], s'.rows[k];
    CoreFields(p, q);
    match s.lock
    case TickWG(_, tr) =>
      BillIgnoresAdmin(p, q, tr, map[]);
      CoreFields(BillWG(p, tr), BillWG(q, tr));
    case TickOV(_, tr, ov, _) =>
      BillIgnoresAdmin(p, q, tr, ov);
      CoreFields(Billed(p, tr, ov), Billed(q, tr, ov));
    case _ =>
  }

  lemma WriteKeepsCore(p: Peer, w: Write)
    ensures Core(ApplyWrite(p, w)) == Core(p)
  {
  }

  lemma SameKeysSameSoundness(p: Peer, q: Peer, l: Line)
    requires p.publicKey == q.publicKey && p.cn == q.cn
    ensures SoundLine(p, l) <==> SoundLine(q, l)
  {
  }

  lemma BillIgnoresAdmin(p: Peer, q: Peer, tr: Transfers, ov: Sessions)
    requires Core(p) == Core(q)
    ensures Core(BillWG(p, tr)) == Core(BillWG(q, tr)) && Core(Billed(p, tr, ov)) == Core(Billed(q, tr, ov))
  {
  }

  lemma ReadingsKeepBalance(s: State, e: Event)
    requires |s.lines| == |s.rows| && Balanced(s) && CanStep(s, e) && (e.TickReadWG? || e.TickReadOV?)
    ensures Balanced(Apply(s, e))
  {
    hide SoundLine;
    var s' := Apply(s, e);
    forall i | 0 <= i < |s.rows|
      ensures SoundLine(s'.rows[i], s'.lines[i]) && Books(Expected(s', i), s'.lines[i])
    {
      assert SoundLine(s.rows[i], s.lines[i]) && Books(Expected(s, i), s.lines[i]);
      match e
      case TickReadWG(tr, ok) =>
        if s.rows[i].publicKey in tr && s.rows[i].publicKey != "" {
          assert tr[s.rows[i].publicKey] == (s.lines[i].rx.live, s.lines[i].tx.live);
        }
        BillReadWG(s.rows[i], s.lines[i], tr);
      case TickReadOV(ov, ok) =>
        if s.rows[i].cn != "" && s.rows[i].cn in ov {
          assert ov[s.rows[i].cn] == s.lines[i].ov.live;
        }
        BillReadOV(s.rows[i], s.lines[i], s.lock.tr, ov);
    }
  }

  lemma BillReadWG(p: Peer, l: Line, tr: Transfers)
    requires SoundLine(p, l) && Books(p, l)
    requires p.publicKey in tr && p.publicKey != "" ==> tr[p.publicKey] == (l.rx.live, l.tx.live)
    ensures SoundLine(p, ReadLineWG(p, l, tr)) && Books(BillWG(p, tr), ReadLineWG(p, l, tr))
  {
  }

  lemma BillReadOV(p: Peer, l: Line, tr: Transfers, ov: Sessions)
    requires SoundLine(p, l) && Books(BillWG(p, tr), l)
    requires p.cn != "" && p.cn in ov ==> ov[p.cn] == l.ov.live
    ensures SoundLine(p, ReadLineOV(p, l, ov)) && Books(Billed(p, tr, ov), ReadLineOV(p, l, ov))
  {
  }

  lemma TickWritesKeepBalance(s: State, e: Event)
    requires |s.lines| == |s.rows| && Balanced(s) && CanStep(s, e)
    requires e.TickPeer? || e.TickEnd? || e.TickSnapshot? || e.TickBegin? || e.Clock?
    ensures Balanced(Apply(s, e))
  {
    hide SoundLine, Books, TickRow, MergeTick, Core, Expected, IPs, Claimed;
    var s' := Apply(s, e);
    TickWritesKeepSnapshot(s, e);
    forall i | 0 <= i < |s.rows|
      ensures SoundLine(s'.rows[i], s'.lines[i]) && Books(Expected(s', i), s'.lines[i])
    {
      assert SoundLine(s.rows[i], s.lines[i]) && Books(Expected(s, i), s.lines[i]);
      TickWritesRow(s, e, i);
      SameKeysSameSoundness(s.rows[i], s'.rows[i], s.lines[i]);
      BooksIgnoreRest(Expected(s, i), Expected(s', i), s.lines[i]);
    }
  }

  lemma TickWritesRow(s: State, e: Event, i: nat)
    requires |s.lines| == |s.rows| && LockOk(s) && SnapshotCurrent(s) && CanStep(s, e) && i < |s.rows|
    requires e.TickPeer? || e.TickEnd? || e.TickSnapshot? || e.TickBegin? || e.Clock?
    ensures var p, q := s.rows[i], Apply(s, e).rows[i];
            p.publicKey == q.publicKey && p.cn == q.cn && Apply(s, e).lines[i] == s.lines[i]
    ensures var p, q := Expected(s, i), Expected(Apply(s, e), i);
            && p.used == q.used && p.lastRx == q.lastRx && p.lastTx == q.lastTx
            && p.usedOvpn == q.usedOvpn && p.lastOvpn == q.lastOvpn
  {
    hide TickRow, Billed, BillWG, MergeTick, Core, Body, Grown, IPs, Claimed, SameAdmin;
    if Vacant(s.rows[i]) {
      ExpectedVacant(s, i);
      ExpectedVacant(Apply(s, e), i);
    } else if e.TickPeer? {
      TickPeerWritesRow(s, i);
    }
  }

  lemma TickPeerWritesRow(s: State, i: nat)
    requires |s.lines| == |s.rows| && LockOk(s) && SnapshotCurrent(s) && CanStep(s, TickPeer) && i < |s.rows|
    requires !Vacant(s.rows[i])
    ensures var p, q := s.rows[i], Apply(s, TickPeer).rows[i];
            p.publicKey == q.publicKey && p.cn == q.cn && Apply(s, TickPeer).lines[i] == s.lines[i]
    ensures var p, q := Expected(s, i), Expected(Apply(s, TickPeer), i);
            && p.used == q.used && p.lastRx == q.lastRx && p.lastTx == q.lastTx
            && p.usedOvpn == q.usedOvpn && p.lastOvpn == q.lastOvpn
  {
    hide TickRow, Billed, BillWG, MergeTick, Core, Body, Grown, IPs, Claimed, SameAdmin;
    if i == s.lock.next && !Vacant(s.lock.snap[i]) {
      MergeWritesAll(s.rows[i], s.lock.snap[i], s.lock.tr, s.lock.ov, s.lock.now);
    }
  }

  lemma TickWritesKeepSnapshot(s: State, e: Event)
    requires |s.lines| == |s.rows| && LockOk(s) && SnapshotCurrent(s) && CanStep(s, e)
    requires e.TickPeer? || e.TickEnd? || e.TickSnapshot? || e.TickBegin? || e.Clock?
    ensures LockOk(Apply(s, e)) && SnapshotCurrent(Apply(s, e))
  {
    hide TickRow, MergeTick, Core, Body, IPs, Claimed;
    if e.TickPeer? {
      TickPeerKeepsSnapshot(s);
    }
  }

  lemma TickPeerKeepsSnapshot(s: State)
    requires |s.lines| == |s.rows| && LockOk(s) && SnapshotCurrent(s) && CanStep(s, TickPeer)
    ensures LockOk(Apply(s, TickPeer)) && SnapshotCurrent(Apply(s, TickPeer))
  {
    hide TickRow, MergeTick, Core, Body, IPs, Claimed;
    if !Vacant(s.lock.snap[s.lock.next]) && !Vacant(s.rows[s.lock.next]) {
      MergeWritesAll(s.rows[s.lock.next], s.lock.snap[s.lock.next], s.lock.tr, s.lock.ov, s.lock.now);
    }
  }

  lemma BooksIgnoreRest(p: Peer, q: Peer, l: Line)
    requires p.used == q.used && p.lastRx == q.lastRx && p.lastTx == q.lastTx && p.usedOvpn == q.usedOvpn
    requires p.lastOvpn == q.lastOvpn
    ensures Books(p, l) <==> Books(q, l)
  {
  }

  /**
   * Over a row whose body is as in the snapshot, the absolute writes of a pass amount to the whole row
   * computation; administration and a new OpenVPN identity stay.
   */
  lemma MergeWritesAll(cur: Peer, p: Peer, tr: Transfers, ov: Sessions, now: int)
    requires Body(cur) == Body(p)
    ensures var m, q := MergeTick(cur, p, tr, ov, now), TickRow(p, tr, ov, now);
            && Body(m) == Body(q) && SameAdmin(m, cur)
            && m.username == cur.username && m.publicKey == cur.publicKey && m.cn == cur.cn && m.ovpnIP == cur.ovpnIP
            && IPs(m) == IPs(cur) && m.blocked == q.blocked
            && var b := Billed(p, tr, ov);
            m.used == b.used && m.lastRx == b.lastRx && m.lastTx == b.lastTx && m.usedOvpn == b.usedOvpn &&
              m.lastOvpn == b.lastOvpn
  {
    hide *;
    var q := TickRow(p, tr, ov, now);
    var m := MergeTick(cur, p, tr, ov, now);
    MergeParts(cur, p, tr, ov, now);
    MergeParts(p, p, tr, ov, now);
    PutsAndBody(cur, p, q, tr, ov);
    PutsAndBody(p, p, q, tr, ov);
    PutsAndBody(PutWG(cur, p, q, tr), p, q, tr, ov);
    PutsAndBody(PutWG(p, p, q, tr), p, q, tr, ov);
    PutsAndBody(PutOV(PutWG(cur, p, q, tr), p, q, ov), p, q, tr, ov);
    PutsAndBody(PutOV(PutWG(p, p, q, tr), p, q, ov), p, q, tr, ov);
    MergeOntoSnapshot(p, tr, ov, now);
    BodyFields(m, q);
    BodyFields(cur, p);
    TickRowFields(p, tr, ov, now);
    SameIPs(m, cur);
  }

  lemma MergeParts(cur: Peer, p: Peer, tr: Transfers, ov: Sessions, now: int)
    ensures MergeTick(cur, p, tr, ov, now) ==
            PutFlag(PutOV(PutWG(cur, p, TickRow(p, tr, ov, now), tr), p, TickRow(p, tr, ov, now), ov), p,
              TickRow(p, tr, ov, now))
  {
  }

  predicate SameIdentity(p: Peer, q: Peer) { p.cn == q.cn && p.ovpnIP == q.ovpnIP }

  lemma SameIPs(p: Peer, q: Peer)
    ensures SameIdentity(p, q) ==> p.cn == q.cn && p.ovpnIP == q.ovpnIP
    ensures SameIdentity(p, q) && p.address == q.address ==> IPs(p) == IPs(q)
  {
  }

  lemma PutsAndBody(c: Peer, p: Peer, q: Peer, tr: Transfers, ov: Sessions)
    ensures Body(PutWG(c, p, q, tr)) == PutWG(Body(c), p, q, tr) && SameAdmin(PutWG(c, p, q, tr), c)
    ensures Body(PutOV(c, p, q, ov)) == PutOV(Body(c), p, q, ov) && SameAdmin(PutOV(c, p, q, ov), c)
    ensures Body(PutFlag(c, p, q)) == PutFlag(Body(c), p, q) && SameAdmin(PutFlag(c, p, q), c)
    ensures SameIdentity(PutWG(c, p, q, tr), c) && SameIdentity(PutOV(c, p, q, ov), c) &&
            SameIdentity(PutFlag(c, p, q), c)
    ensures forall a, b, d :: SameAdmin(a, b) && SameAdmin(b, d) ==> SameAdmin(a, d)
    ensures forall a, b, d :: SameIdentity(a, b) && SameIdentity(b, d) ==> SameIdentity(a, d)
  {
    PutsKeepIdentity(c, p, q, tr, ov);
    BodyOfUsage(c, q.used, q.lastRx, q.lastTx);
    BodyOfOvpn(c, q.usedOvpn, q.lastOvpn);
    BodyOfFlag(c, q.blocked);
    hide Body;
  }

  lemma PutsKeepIdentity(c: Peer, p: Peer, q: Peer, tr: Transfers, ov: Sessions)
    ensures SameIdentity(PutWG(c, p, q, tr), c) && SameIdentity(PutOV(c, p, q, ov), c) &&
            SameIdentity(PutFlag(c, p, q), c)
  {
  }

  lemma BodyOfUsage(p: Peer, used: int, rx: int, tx: int)
    ensures Body(p.(used := used, lastRx := rx, lastTx := tx)) == Body(p).(used := used, lastRx := rx, lastTx := tx)
  {
  }

  lemma BodyOfOvpn(p: Peer, used: int, bytes: int)
    ensures Body(p.(usedOvpn := used, lastOvpn := bytes)) == Body(p).(usedOvpn := used, lastOvpn := bytes)
  {
  }

  lemma BodyOfFlag(p: Peer, blocked: bool)
    ensures Body(p.(blocked := blocked)) == Body(p).(blocked := blocked)
  {
  }

  lemma MergeOntoSnapshot(p: Peer, tr: Transfers, ov: Sessions, now: int)
    ensures MergeTick(p, p, tr, ov, now) == TickRow(p, tr, ov, now)
  {
    hide BillWG, BillOV, EffectiveBlocked, PutWG, PutOV, PutFlag;
    var w := BillWG(p, tr);
    var b := BillOV(w, ov);
    var q := TickRow(p, tr, ov, now);
    TickRowParts(p, tr, ov, now);
    BillOVColumns(w, ov);
    PutsOntoSnapshot(p, w, q, tr);
    BillWGColumns(p, tr);
    PutsSessionsOnto(p, w, b, q, ov);
    PutsFlagOnto(p, b, q);
  }

  lemma BillOVColumns(w: Peer, ov: Sessions)
    ensures var b := BillOV(w, ov);
            b.used == w.used && b.lastRx == w.lastRx && b.lastTx == w.lastTx && b.cn == w.cn && b.blocked == w.blocked
  {
  }

  lemma BillWGColumns(p: Peer, tr: Transfers)
    ensures var w := BillWG(p, tr);
            w.cn == p.cn && w.lastOvpn == p.lastOvpn && w.usedOvpn == p.usedOvpn && w.blocked == p.blocked
  {
  }

  lemma PutsOntoSnapshot(p: Peer, w: Peer, q: Peer, tr: Transfers)
    requires w == BillWG(p, tr) && q.used == w.used && q.lastRx == w.lastRx && q.lastTx == w.lastTx
    ensures PutWG(p, p, q, tr) == w
  {
  }

  lemma PutsSessionsOnto(p: Peer, w: Peer, b: Peer, q: Peer, ov: Sessions)
    requires b == BillOV(w, ov) && w.cn == p.cn && q.usedOvpn == b.usedOvpn && q.lastOvpn == b.lastOvpn
    ensures PutOV(w, p, q, ov) == b
  {
  }

  lemma PutsFlagOnto(p: Peer, b: Peer, q: Peer)
    requires q == b.(blocked := q.blocked) && b.blocked == p.blocked
    ensures PutFlag(b, p, q) == q
  {
  }

  lemma CoreFields(p: Peer, q: Peer)
    requires Core(p) == Core(q)
    ensures p.username == q.username && p.publicKey == q.publicKey && p.cn == q.cn
    ensures IPs(p) == IPs(q) && p.ovpnIP == q.ovpnIP && p.blocked == q.blocked
    ensures p.used == q.used && p.lastRx == q.lastRx && p.lastTx == q.lastTx && p.usedOvpn == q.usedOvpn
    ensures p.lastOvpn == q.lastOvpn
  {
    var a, b := Core(p), Core(q);
    assert a.username == p.username && a.publicKey == p.publicKey && a.cn == p.cn && a.address == p.address &&
           a.ovpnIP == p.ovpnIP && a.blocked == p.blocked;
    assert b.username == q.username && b.publicKey == q.publicKey && b.cn == q.cn && b.address == q.address &&
           b.ovpnIP == q.ovpnIP && b.blocked == q.blocked;
    assert a.used == p.used && a.lastRx == p.lastRx && a.lastTx == p.lastTx && a.usedOvpn == p.usedOvpn &&
           a.lastOvpn == p.lastOvpn;
    assert b.used == q.used && b.lastRx == q.lastRx && b.lastTx == q.lastTx && b.usedOvpn == q.usedOvpn &&
           b.lastOvpn == q.lastOvpn;
  }

  lemma BodyFields(p: Peer, q: Peer)
    requires Body(p) == Body(q)
    ensures p.username == q.username && p.publicKey == q.publicKey && p.address == q.address && p.blocked == q.blocked
    ensures p.used == q.used && p.lastRx == q.lastRx && p.lastTx == q.lastTx && p.usedOvpn == q.usedOvpn
    ensures p.lastOvpn == q.lastOvpn
  {
    var a, b := Body(p), Body(q);
    assert a.username == p.username && a.publicKey == p.publicKey && a.address == p.address && a.blocked == p.blocked;
    assert b.username == q.username && b.publicKey == q.publicKey && b.address == q.address && b.blocked == q.blocked;
    assert a.used == p.used && a.lastRx == p.lastRx && a.lastTx == p.lastTx && a.usedOvpn == p.usedOvpn &&
           a.lastOvpn == p.lastOvpn;
    assert b.used == q.used && b.lastRx == q.lastRx && b.lastTx == q.lastTx && b.usedOvpn == q.usedOvpn &&
           b.lastOvpn == q.lastOvpn;
  }

  lemma TickRowFields(p: Peer, tr: Transfers, ov: Sessions, now: int)
    ensures var q, b := TickRow(p, tr, ov, now), Billed(p, tr, ov);
            && q.used == b.used && q.lastRx == b.lastRx && q.lastTx == b.lastTx && q.usedOvpn == b.usedOvpn &&
               q.lastOvpn == b.lastOvpn
            && q.username == p.username && q.publicKey == p.publicKey && q.cn == p.cn && q.address == p.address
            && IPs(q) == IPs(p)
  {
  }

  lemma RechargeKeepsBalance(s: State, e: Event)
    requires |s.lines| == |s.rows| && Balanced(s) && CanStep(s, e)
    requires e.RechargeBegin? || e.RechargeFail? || e.RechargeSample? || e.RechargeCommit?
    ensures Balanced(Apply(s, e))
  {
    hide SoundLine, Books, Expected, Recharged, SampleOf, ZeroLine;
    var s' := Apply(s, e);
    RechargeKeepsLock(s, e);
    forall i | 0 <= i < |s.rows|
      ensures SoundLine(s'.rows[i], s'.lines[i]) && Books(Expected(s', i), s'.lines[i])
    {
      assert SoundLine(s.rows[i], s.lines[i]) && Books(Expected(s, i), s.lines[i]);
      RechargeRow(s, e, i);
    }
  }

  lemma RechargeKeepsLock(s: State, e: Event)
    requires |s.lines| == |s.rows| && LockOk(s) && CanStep(s, e)
    requires e.RechargeBegin? || e.RechargeFail? || e.RechargeSample? || e.RechargeCommit?
    ensures LockOk(Apply(s, e)) && SnapshotCurrent(Apply(s, e))
  {
    hide SampleOf, ZeroLine;
  }

  lemma RechargeRow(s: State, e: Event, i: nat)
    requires |s.lines| == |s.rows| && LockOk(s) && CanStep(s, e) && i < |s.rows|
    requires e.RechargeBegin? || e.RechargeFail? || e.RechargeSample? || e.RechargeCommit?
    requires SoundLine(s.rows[i], s.lines[i]) && Books(Expected(s, i), s.lines[i])
    ensures var s' := Apply(s, e);
            SoundLine(s'.rows[i], s'.lines[i]) && Books(Expected(s', i), s'.lines[i])
  {
    hide SoundLine, Books, SampleOf, ZeroLine, Recharged, ResetRow;
    match e
    case RechargeSample =>
      SampleStartsPeriod(s.rows[i], s.lines[i]);
    case RechargeCommit =>
      RechargedColumns(s.rows[i], s.lock.req, s.lock.base);
      SameKeysSameSoundness(s.rows[i], Apply(s, e).rows[i], s.lines[i]);
      BooksIgnoreRest(Expected(s, i), Apply(s, e).rows[i], s.lines[i]);
    case _ =>
  }

  /** A recharge touches usage only by resetting it. */
  lemma RechargedColumns(p: Peer, req: Request, c: Counters)
    ensures var q, r := Recharged(p, req, c), if req.WantsReset() then ResetRow(p, c) else p;
            && q.publicKey == p.publicKey && q.cn == p.cn && q.used == r.used && q.lastRx == r.lastRx &&
               q.lastTx == r.lastTx
            && q.usedOvpn == r.usedOvpn && q.lastOvpn == r.lastOvpn
  {
  }

  lemma SampleStartsPeriod(p: Peer, l: Line)
    requires SoundLine(p, l) && Books(p, l)
    ensures var c := SampleOf(p, l);
            SoundLine(p, ZeroLine(l, c)) && Books(ResetRow(p, c), ZeroLine(l, c))
  {
  }

  lemma StepKeepsBalance(s: State, e: Event)
    requires |s.lines| == |s.rows| && Balanced(s) && CanStep(s, e)
    ensures Balanced(Apply(s, e))
  {
    hide *;
    match e
    case Traffic(_, _, _) => TrafficKeepsBalance(s, e);
    case WgSession(_, _) => TrafficKeepsBalance(s, e);
    case OvSession(_, _) => TrafficKeepsBalance(s, e);
    case Clock(_) => TickWritesKeepBalance(s, e);
    case PanelWrite(_, _, _) => PanelWriteKeepsBalance(s, e);
    case Create(p) => NewUserKeepsBalance(s, p);
    case Delete(u) => DeletionKeepsBalance(s, u);
    case Attach(_, _, _) => AttachmentKeepsBalance(s, e);
    case RechargeBegin(_, _, _) => RechargeKeepsBalance(s, e);
    case RechargeFail => RechargeKeepsBalance(s, e);
    case RechargeSample => RechargeKeepsBalance(s, e);
    case RechargeCommit => RechargeKeepsBalance(s, e);
    case TickBegin(_) => TickWritesKeepBalance(s, e);
    case TickReadWG(_, _) => ReadingsKeepBalance(s, e);
    case TickReadOV(_, _) => ReadingsKeepBalance(s, e);
    case TickSnapshot => TickWritesKeepBalance(s, e);
    case TickPeer => TickWritesKeepBalance(s, e);
    case TickEnd => TickWritesKeepBalance(s, e);
  }

  /** The books balance after any run. */
  lemma {:induction false} RunsKeepBalance(s: State, es: seq<Event>)
    requires |s.lines| == |s.rows| && Balanced(s) && CanRun(s, es)
    ensures Balanced(RunAll(s, es))
    decreases |es|
  {
    hide Balanced, CanStep;
    if es == [] {
    } else {
      StepKeepsBalance(s, es[0]);
      RunsKeepBalance(Apply(s, es[0]), es[1..]);
    }
  }
}
