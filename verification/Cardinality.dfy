/** The per-node series-cardinality guard: lazily swept maps that answer as their history says. */
module CardinalityGuard {
  import opened Prelude
  import opened MapSums

  type Name = seq<Byte>

  /** One hour in nanoseconds. */
  const SERIES_TTL: int := 3_600_000_000_000

  // ---------- the guard as a value ----------

  datatype Guard = Guard(tracked: map<Name, map<Name, int>>, frozen: set<Name>)

  /** The entries not yet stale at time now. */
  function Fresh(m: map<Name, int>, now: int): map<Name, int> {
    map k | k in m && now - m[k] < SERIES_TTL :: m[k]
  }

  function TrackedOf(g: Guard, tenant: Name): map<Name, int> {
    if tenant in g.tracked then g.tracked[tenant] else map[]
  }

  datatype Request = Request(tenant: Name, series: Name, cap: int, now: int)

  predicate Admits(live: map<Name, int>, series: Name, cap: int) {
    series in live || cap <= 0 || |live| < cap
  }

  /** Allow: sweep the tenant, forget its frozen mark if nothing survives, then decide. */
  function After(g: Guard, r: Request): Guard {
    var live := Fresh(TrackedOf(g, r.tenant), r.now);
    var frozen := if live == map[] then g.frozen - {r.tenant} else g.frozen;
    if Admits(live, r.series, r.cap) then Guard(g.tracked[r.tenant := live[r.series := r.now]], frozen)
    else Guard(g.tracked[r.tenant := live], frozen + {r.tenant})
  }

  // ---------- history ----------

  /** A past call and its answer. */
  datatype Call = Call(req: Request, allowed: bool)

  /** Last admission time of every series the tenant ever had admitted; never swept. */
  function Seen(h: seq<Call>, tenant: Name): map<Name, int> {
    if h == [] then map[]
    else
      var m, c := Seen(h[..|h| - 1], tenant), h[|h| - 1];
      if c.req.tenant == tenant && c.allowed then m[c.req.series := c.req.now] else m
  }

  /** Series k of the tenant was admitted within the hour before now. */
  ghost predicate AdmittedWithin(h: seq<Call>, tenant: Name, k: Name, now: int) {
    exists i :: 0 <= i < |h| && IsAdmission(h[i], tenant, k) && now - h[i].req.now < SERIES_TTL
  }

  predicate IsAdmission(c: Call, tenant: Name, k: Name) {
    c.allowed && c.req.tenant == tenant && c.req.series == k
  }

  /** The distinct series of the tenant admitted within the hour before now. */
  ghost function Window(h: seq<Call>, tenant: Name, now: int): set<Name> {
    set i | 0 <= i < |h| && h[i].allowed && h[i].req.tenant == tenant && now - h[i].req.now < SERIES_TTL ::
      h[i].req.series
  }

  /** The clock never runs backwards and has not passed now. */
  ghost predicate Ordered(h: seq<Call>, now: int) {
    && (forall i, j :: 0 <= i <= j < |h| ==> h[i].req.now <= h[j].req.now)
    && (forall i :: 0 <= i < |h| ==> h[i].req.now <= now)
  }

  /** A refusal happened since the tenant's last call that found its window empty. */
  ghost predicate RefusedSinceEmpty(h: seq<Call>, tenant: Name) {
    if h == [] then false
    else
      var before, c := h[..|h| - 1], h[|h| - 1];
      if c.req.tenant != tenant then RefusedSinceEmpty(before, tenant)
      else if !c.allowed then true
      else if Window(before, tenant, c.req.now) == {} then false
      else RefusedSinceEmpty(before, tenant)
  }

  // ---------- the never-swept map is the window ----------

  lemma {:induction false} SeenIsLast(h: seq<Call>, tenant: Name, k: Name, now: int)
    requires Ordered(h, now)
    ensures k in Seen(h, tenant) ==>
      exists i :: 0 <= i < |h| && IsAdmission(h[i], tenant, k) && h[i].req.now == Seen(h, tenant)[k]
    ensures forall i :: 0 <= i < |h| && IsAdmission(h[i], tenant, k) ==>
              k in Seen(h, tenant) && h[i].req.now <= Seen(h, tenant)[k]
  {
    if h != [] {
      var n := |h| - 1;
      var before := h[..n];
      SeenIsLast(before, tenant, k, now);
      assert forall i :: 0 <= i < n ==> before[i] == h[i];
      if IsAdmission(h[n], tenant, k) {
      } else if k in Seen(h, tenant) {
        var i :| 0 <= i < |before| && IsAdmission(before[i], tenant, k) && before[i].req.now == Seen(before, tenant)[k];
        assert h[i] == before[i];
      }
    }
  }

  /** Which series are fresh in the never-swept map is exactly which were admitted in the window. */
  lemma {:induction false} FreshIsWindow(h: seq<Call>, tenant: Name, now: int)
    requires Ordered(h, now)
    ensures Fresh(Seen(h, tenant), now).Keys == Window(h, tenant, now)
    ensures forall k :: k in Window(h, tenant, now) <==> AdmittedWithin(h, tenant, k, now)
  {
    forall k ensures k in Fresh(Seen(h, tenant), now) <==> AdmittedWithin(h, tenant, k, now) {
      SeenIsLast(h, tenant, k, now);
    }
    forall k ensures k in Window(h, tenant, now) <==> AdmittedWithin(h, tenant, k, now) {
    }
  }

  // ---------- the guard follows its history ----------

  /** From time now on, the swept map and the never-swept one look the same; the frozen mark is what
      the history says. */
  ghost predicate Follows(g: Guard, h: seq<Call>, now: int) {
    && (forall t, later :: now <= later ==> Fresh(TrackedOf(g, t), later) == Fresh(Seen(h, t), later))
    && (forall t :: t in g.frozen <==> RefusedSinceEmpty(h, t))
  }

  /** What was stale stays stale. */
  lemma FreshTwice(m: map<Name, int>, now: int, later: int)
    requires now <= later
    ensures Fresh(Fresh(m, now), later) == Fresh(m, later)
  {
  }

  lemma FreshUpdate(a: map<Name, int>, b: map<Name, int>, k: Name, at: int, later: int)
    requires Fresh(a, later) == Fresh(b, later)
    ensures Fresh(a[k := at], later) == Fresh(b[k := at], later)
  {
    var fa, fb := Fresh(a[k := at], later), Fresh(b[k := at], later);
    forall x ensures x in fa <==> x in fb {
      assert x in Fresh(a, later) <==> x in Fresh(b, later);
    }
    forall x | x in fa ensures fa[x] == fb[x] {
      if x != k {
        assert Fresh(a, later)[x] == Fresh(b, later)[x];
      }
    }
  }

  function Answer(g: Guard, r: Request): Call {
    Call(r, Admits(Fresh(TrackedOf(g, r.tenant), r.now), r.series, r.cap))
  }

  /** The decision of one call is a function of the history: admit iff the series was admitted within
      the hour, or the guard is off, or fewer than cap distinct series of the tenant were. */
  lemma {:induction false} AnswerIsHistorical(g: Guard, h: seq<Call>, since: int, r: Request)
    requires Follows(g, h, since) && since <= r.now && Ordered(h, r.now)
    ensures Answer(g, r).allowed <==>
              AdmittedWithin(h, r.tenant, r.series, r.now) || r.cap <= 0 || |Window(h, r.tenant, r.now)| < r.cap
    ensures (Fresh(TrackedOf(g, r.tenant), r.now) == map[]) <==> Window(h, r.tenant, r.now) == {}
  {
    FreshIsWindow(h, r.tenant, r.now);
    var live := Fresh(TrackedOf(g, r.tenant), r.now);
    assert live == Fresh(Seen(h, r.tenant), r.now);
    assert |live| == |live.Keys|;
    assert live == map[] <==> live.Keys == {};
  }

  lemma SeenSnoc(h: seq<Call>, c: Call, t: Name)
    ensures Seen(h + [c], t) ==
            if c.req.tenant == t && c.allowed then Seen(h, t)[c.req.series := c.req.now] else Seen(h, t)
    ensures RefusedSinceEmpty(h + [c], t) <==>
            if c.req.tenant != t then RefusedSinceEmpty(h, t)
            else !c.allowed || (Window(h, t, c.req.now) != {} && RefusedSinceEmpty(h, t))
  {
    assert (h + [c])[..|h|] == h;
  }

  lemma {:induction false} TrackedFollows(g: Guard, h: seq<Call>, since: int, r: Request, t: Name, later: int)
    requires Follows(g, h, since) && since <= r.now <= later
    ensures Fresh(TrackedOf(After(g, r), t), later) == Fresh(Seen(h + [Answer(g, r)], t), later)
  {
    SeenSnoc(h, Answer(g, r), t);
    if t == r.tenant {
      var m := TrackedOf(g, t);
      FreshTwice(m, r.now, later);
      assert Fresh(m, later) == Fresh(Seen(h, t), later);
      FreshUpdate(Fresh(m, r.now), Seen(h, t), r.series, r.now, later);
    } else {
      assert TrackedOf(After(g, r), t) == TrackedOf(g, t);
    }
  }

  lemma {:induction false} FrozenFollows(g: Guard, h: seq<Call>, since: int, r: Request, t: Name)
    requires Follows(g, h, since) && since <= r.now && Ordered(h, r.now)
    ensures t in After(g, r).frozen <==> RefusedSinceEmpty(h + [Answer(g, r)], t)
  {
    SeenSnoc(h, Answer(g, r), t);
    AnswerIsHistorical(g, h, since, r);
  }

  lemma {:induction false} StepFollows(g: Guard, h: seq<Call>, since: int, r: Request)
    requires Follows(g, h, since) && since <= r.now && Ordered(h, r.now)
    ensures Follows(After(g, r), h + [Answer(g, r)], r.now)
    ensures Ordered(h + [Answer(g, r)], r.now)
  {
    forall t, later | r.now <= later
      ensures Fresh(TrackedOf(After(g, r), t), later) == Fresh(Seen(h + [Answer(g, r)], t), later)
    {
      TrackedFollows(g, h, since, r, t, later);
    }
    forall t ensures t in After(g, r).frozen <==> RefusedSinceEmpty(h + [Answer(g, r)], t) {
      FrozenFollows(g, h, since, r, t);
    }
  }

  // ---------- whole runs ----------

  function GuardAfter(rs: seq<Request>): Guard {
    if rs == [] then Guard(map[], {}) else After(GuardAfter(rs[..|rs| - 1]), rs[|rs| - 1])
  }

  function HistoryOf(rs: seq<Request>): seq<Call> {
    if rs == [] then []
    else HistoryOf(rs[..|rs| - 1]) + [Answer(GuardAfter(rs[..|rs| - 1]), rs[|rs| - 1])]
  }

  ghost predicate Monotone(rs: seq<Request>) {
    forall i, j :: 0 <= i <= j < |rs| ==> rs[i].now <= rs[j].now
  }

  /** A time no later than any request still to come. */
  function Clock(rs: seq<Request>, first: int): int {
    if rs == [] then first else rs[|rs| - 1].now
  }

  /** With a clock that never runs backwards, the guard always equals what its history says. */
  lemma {:induction false} GuardFollowsHistory(rs: seq<Request>, first: int)
    requires Monotone(rs) && (rs != [] ==> first <= rs[0].now)
    ensures Follows(GuardAfter(rs), HistoryOf(rs), Clock(rs, first))
    ensures Ordered(HistoryOf(rs), Clock(rs, first))
  {
    if rs != [] {
      var before, r := rs[..|rs| - 1], rs[|rs| - 1];
      GuardFollowsHistory(before, first);
      StepFollows(GuardAfter(before), HistoryOf(before), Clock(before, first), r);
    }
  }

  // ---------- the cap ----------

  ghost predicate CapIs(h: seq<Call>, tenant: Name, cap: int) {
    forall i :: 0 <= i < |h| && h[i].req.tenant == tenant ==> h[i].req.cap == cap
  }

  /** Every answer in the history was the historical one. */
  ghost predicate Consistent(h: seq<Call>) {
    forall i :: 0 <= i < |h| ==> HistoricalAnswer(h, i)
  }

  ghost predicate HistoricalAnswer(h: seq<Call>, i: nat)
    requires i < |h|
  {
    var r := h[i].req;
    h[i].allowed <==>
      AdmittedWithin(h[..i], r.tenant, r.series, r.now) || r.cap <= 0 || |Window(h[..i], r.tenant, r.now)| < r.cap
  }

  lemma {:induction false} RunIsConsistent(rs: seq<Request>, first: int)
    requires Monotone(rs) && (rs != [] ==> first <= rs[0].now)
    ensures Consistent(HistoryOf(rs))
  {
    if rs != [] {
      var before, r := rs[..|rs| - 1], rs[|rs| - 1];
      var h, full := HistoryOf(before), HistoryOf(rs);
      RunIsConsistent(before, first);
      GuardFollowsHistory(before, first);
      GuardFollowsHistory(rs, first);
      AnswerIsHistorical(GuardAfter(before), h, Clock(before, first), r);
      forall i | 0 <= i < |full| ensures HistoricalAnswer(full, i) {
        if i < |h| {
          assert full[..i] == h[..i];
          assert HistoricalAnswer(h, i);
        } else {
          assert full[..i] == h;
        }
      }
    }
  }

  /** The distinct series of the tenant admitted in the hour that ends at time w. */
  ghost function WindowAt(h: seq<Call>, tenant: Name, w: int): set<Name> {
    set i | 0 <= i < |h| && h[i].allowed && h[i].req.tenant == tenant && w - SERIES_TTL < h[i].req.now <= w ::
      h[i].req.series
  }

  lemma {:induction false} CapStep(before: seq<Call>, c: Call, cap: int, w: int)
    requires Ordered(before, c.req.now) && c.allowed && c.req.now <= w
    requires |WindowAt(before, c.req.tenant, c.req.now)| <= cap
    requires AdmittedWithin(before, c.req.tenant, c.req.series, c.req.now)
             || |Window(before, c.req.tenant, c.req.now)| < cap
    ensures |WindowAt(before + [c], c.req.tenant, w)| <= cap
  {
    var t, h := c.req.tenant, before + [c];
    var recent := Window(before, t, c.req.now);
    assert recent == WindowAt(before, t, c.req.now);
    assert WindowAt(h, t, w) <= recent + {c.req.series} by {
      forall k | k in WindowAt(h, t, w) ensures k in recent + {c.req.series} {
        var i :| 0 <= i < |h| && h[i].allowed && h[i].req.tenant == t && w - SERIES_TTL < h[i].req.now <= w
                 && h[i].req.series == k;
        if i < |before| {
          assert before[i] == h[i];
        }
      }
    }
    if AdmittedWithin(before, t, c.req.series, c.req.now) {
      var i :| 0 <= i < |before| && IsAdmission(before[i], t, c.req.series)
               && c.req.now - before[i].req.now < SERIES_TTL;
      assert c.req.series in recent;
      Smaller(WindowAt(h, t, w), recent);
    } else {
      Smaller(WindowAt(h, t, w), recent + {c.req.series});
    }
  }

  lemma Smaller<T>(a: set<T>, b: set<T>)
    requires a <= b
    ensures |a| <= |b|
  {
    assert b == a + (b - a);
  }

  /** With a fixed cap, no hour ever holds more than cap distinct admitted series of a tenant. */
  lemma {:induction false} CapHolds(h: seq<Call>, tenant: Name, cap: int, w: int, now: int)
    requires cap > 0 && CapIs(h, tenant, cap) && Consistent(h) && Ordered(h, now)
    ensures |WindowAt(h, tenant, w)| <= cap
    decreases |h|
  {
    if h == [] {
      assert WindowAt(h, tenant, w) == {};
    } else {
      var n := |h| - 1;
      var before, c := h[..n], h[n];
      assert h == before + [c];
      assert Consistent(before) by {
        forall i | 0 <= i < n ensures HistoricalAnswer(before, i) {
          assert HistoricalAnswer(h, i) && before[..i] == h[..i];
        }
      }
      if c.allowed && c.req.tenant == tenant && c.req.now <= w {
        CapHolds(before, tenant, cap, c.req.now, c.req.now);
        assert HistoricalAnswer(h, n);
        CapStep(before, c, cap, w);
      } else {
        CapHolds(before, tenant, cap, w, c.req.now);
        assert WindowAt(h, tenant, w) == WindowAt(before, tenant, w);
      }
    }
  }

  /** The cap over a whole run of the guard. */
  lemma {:induction false} RunNeverExceedsCap(rs: seq<Request>, first: int, tenant: Name, cap: int, w: int)
    requires Monotone(rs) && (rs != [] ==> first <= rs[0].now) && cap > 0
    requires forall i :: 0 <= i < |rs| && rs[i].tenant == tenant ==> rs[i].cap == cap
    ensures |WindowAt(HistoryOf(rs), tenant, w)| <= cap
  {
    RunIsConsistent(rs, first);
    GuardFollowsHistory(rs, first);
    HistoryRequests(rs);
    CapHolds(HistoryOf(rs), tenant, cap, w, Clock(rs, first));
  }

  lemma {:induction false} HistoryRequests(rs: seq<Request>)
    ensures |HistoryOf(rs)| == |rs|
    ensures forall i :: 0 <= i < |rs| ==> HistoryOf(rs)[i].req == rs[i]
  {
    if rs != [] {
      HistoryRequests(rs[..|rs| - 1]);
    }
  }

  // ---------- tenants ----------

  function Only(rs: seq<Request>, tenant: Name): seq<Request> {
    if rs == [] then []
    else Only(rs[..|rs| - 1], tenant) + if rs[|rs| - 1].tenant == tenant then [rs[|rs| - 1]] else []
  }

  lemma OtherTenant(g: Guard, r: Request, tenant: Name)
    requires r.tenant != tenant
    ensures TrackedOf(After(g, r), tenant) == TrackedOf(g, tenant)
    ensures tenant in After(g, r).frozen <==> tenant in g.frozen
  {
  }

  lemma SameTenant(g: Guard, g': Guard, r: Request)
    requires TrackedOf(g, r.tenant) == TrackedOf(g', r.tenant)
    requires r.tenant in g.frozen <==> r.tenant in g'.frozen
    ensures TrackedOf(After(g, r), r.tenant) == TrackedOf(After(g', r), r.tenant)
    ensures r.tenant in After(g, r).frozen <==> r.tenant in After(g', r).frozen
  {
  }

  /** What the guard holds about a tenant depends on that tenant's requests alone. */
  lemma {:induction false} TenantsIsolated(rs: seq<Request>, tenant: Name)
    ensures TrackedOf(GuardAfter(rs), tenant) == TrackedOf(GuardAfter(Only(rs, tenant)), tenant)
    ensures tenant in GuardAfter(rs).frozen <==> tenant in GuardAfter(Only(rs, tenant)).frozen
  {
    if rs != [] {
      var before, r := rs[..|rs| - 1], rs[|rs| - 1];
      var mine := Only(before, tenant);
      TenantsIsolated(before, tenant);
      if r.tenant == tenant {
        assert Only(rs, tenant) == mine + [r] && (mine + [r])[..|mine|] == mine;
        SameTenant(GuardAfter(before), GuardAfter(mine), r);
      } else {
        assert Only(rs, tenant) == mine + [] == mine;
        OtherTenant(GuardAfter(before), r, tenant);
      }
    }
  }

  // ---------- the guard object ----------

  /** Dropping a tenant and tracking it again is tracking it. */
  lemma Readded(m: map<Name, map<Name, int>>, k: Name, v: map<Name, int>)
    ensures (m - {k})[k := v] == m[k := v]
  {
  }

  class Cardinality {
    var tracked: map<Name, map<Name, int>>
    var frozenAt: set<Name>

    ghost function View(): Guard
      reads this
    {
      Guard(tracked, frozenAt)
    }

    constructor ()
      ensures View() == GuardAfter([])
    {
      tracked, frozenAt := map[], {};
    }

    static method EvictStale(m: map<Name, int>, now: int) returns (live: map<Name, int>)
      ensures live == Fresh(m, now)
    {
      live := m;
      var rest := m.Keys;
      while rest != {}
        invariant rest <= m.Keys
        invariant live == map k | k in m && (k in rest || now - m[k] < SERIES_TTL) :: m[k]
        decreases |rest|
      {
        var k := Pick(rest);
        rest := rest - {k};
        if now - m[k] >= SERIES_TTL {
          live := live - {k};
        }
      }
    }

    method Allow(tenant: Name, series: Name, capacity: int, now: int) returns (allowed: bool, frozen: bool)
      modifies this
      ensures
        var r := Request(tenant, series, capacity, now);
        && View() == After(old(View()), r)
        && allowed == Answer(old(View()), r).allowed
        && frozen == (tenant in frozenAt)
    {
      var tracking := if tenant in tracked then tracked[tenant] else map[];
      var live := EvictStale(tracking, now);
      Readded(tracked, tenant, live);
      Readded(tracked, tenant, live[series := now]);
      if |live| == 0 {
        tracked := tracked - {tenant};
        frozenAt := frozenAt - {tenant};
      }
      if series in live {
        tracked := tracked[tenant := live[series := now]];
        return true, tenant in frozenAt;
      }
      if capacity <= 0 || |live| < capacity {
        tracked := tracked[tenant := live[series := now]];
        return true, tenant in frozenAt;
      }
      tracked := tracked[tenant := live];
      frozenAt := frozenAt + {tenant};
      return false, true;
    }

    method Frozen(tenant: Name) returns (frozen: bool)
      ensures frozen == (tenant in View().frozen)
    {
      frozen := tenant in frozenAt;
    }
  }
}
