/**
 * Consequences of approval: the geometric fence, removing actions, and looser limits.
 * The geometry is derived from `IsHypot` alone.
 */
module PolicyTheorems {
  import opened Models
  import opened Policy
  import opened PolicyGrammar

  // ----- plane geometry from h(x, y) * h(x, y) == x * x + y * y

  lemma CauchySchwarz(h: Hypot, a: real, b: real, c: real, d: real)
    requires IsHypot(h)
    ensures a * c + b * d <= h(a, b) * h(c, d)
  {
    var u, v, dot, cross := h(a, b), h(c, d), a * c + b * d, a * d - b * c;
    assert HypotAt(h, a, b) && HypotAt(h, c, d);
    LagrangeIdentity(a, b, c, d);
    assert (u * v) * (u * v) == (u * u) * (v * v);
    assert dot * dot <= (u * v) * (u * v);
    SquaresOrder(dot, u * v);
  }

  lemma LagrangeIdentity(a: real, b: real, c: real, d: real)
    ensures (a * a + b * b) * (c * c + d * d)
         == (a * c + b * d) * (a * c + b * d) + (a * d - b * c) * (a * d - b * c)
    ensures (a * d - b * c) * (a * d - b * c) >= 0.0
  {
  }

  lemma Triangle(h: Hypot, a: real, b: real, c: real, d: real)
    requires IsHypot(h)
    ensures h(a + c, b + d) <= h(a, b) + h(c, d)
  {
    var u, v, w := h(a, b), h(c, d), h(a + c, b + d);
    assert HypotAt(h, a, b) && HypotAt(h, c, d) && HypotAt(h, a + c, b + d);
    CauchySchwarz(h, a, b, c, d);
    assert w * w == u * u + v * v + 2.0 * (a * c + b * d);
    assert (u + v) * (u + v) == u * u + v * v + 2.0 * (u * v);
    SquaresOrder(w, u + v);
  }

  lemma Scaling(h: Hypot, t: real, x: real, y: real, tx: real, ty: real)
    requires IsHypot(h) && t >= 0.0 && tx == t * x && ty == t * y
    ensures h(tx, ty) == t * h(x, y)
  {
    var u := h(x, y);
    assert HypotAt(h, x, y) && HypotAt(h, tx, ty);
    assert tx * tx + ty * ty == (t * t) * (x * x + y * y);
    assert (t * u) * (t * u) == (t * t) * (u * u);
    SquaresDecide(h(tx, ty), t * u);
  }

  // ----- paths

  lemma {:induction false} PathSplit(h: Hypot, a: seq<Point>, b: seq<Point>)
    requires a != [] && b != []
    ensures PathLength(h, a + b) == PathLength(h, a) + Leg(h, a[|a| - 1], b[0]) + PathLength(h, b)
  {
    assert (a + b)[..|a + b| - 1] == a + b[..|b| - 1];
    if |b| == 1 {
      assert a + b[..0] == a;
    } else {
      PathSplit(h, a, b[..|b| - 1]);
    }
  }

  /** A path is at least as long as the straight line between its ends. */
  lemma {:induction false} PathReach(h: Hypot, path: seq<Point>)
    requires IsHypot(h) && path != []
    ensures PathLength(h, path) >= Leg(h, path[0], path[|path| - 1])
  {
    var p, last := path[0], path[|path| - 1];
    if |path| == 1 {
      HypotOrigin(h);
    } else {
      var q := path[|path| - 2];
      PathReach(h, path[..|path| - 1]);
      Triangle(h, q.north - p.north, q.east - p.east, last.north - q.north, last.east - q.east);
      assert (q.north - p.north) + (last.north - q.north) == last.north - p.north;
      assert (q.east - p.east) + (last.east - q.east) == last.east - p.east;
    }
  }

  /** Cutting a corner never lengthens a path. */
  lemma ShortCut(h: Hypot, a: seq<Point>, p: Point, b: seq<Point>)
    requires IsHypot(h) && a != []
    ensures PathLength(h, a + b) <= PathLength(h, a + [p] + b)
  {
    PathSplit(h, a, [p]);
    var last := a[|a| - 1];
    assert HypotAt(h, p.north - last.north, p.east - last.east);
    if b == [] {
      assert a + b == a && a + [p] + b == a + [p];
    } else {
      PathSplit(h, a, b);
      PathSplit(h, a + [p], b);
      Triangle(h, p.north - last.north, p.east - last.east, b[0].north - p.north, b[0].east - p.east);
      assert (p.north - last.north) + (b[0].north - p.north) == b[0].north - last.north;
      assert (p.east - last.east) + (b[0].east - p.east) == b[0].east - last.east;
    }
  }

  lemma {:induction false} TotalsSplit(a: seq<Action>, b: seq<Action>)
    ensures HoldTotal(a + b) == HoldTotal(a) + HoldTotal(b)
    ensures GotoCount(a + b) == GotoCount(a) + GotoCount(b)
    ensures Waypoints(a + b) == Waypoints(a) + Waypoints(b)[1..]
  {
    if b == [] {
      assert a + b == a;
    } else {
      TotalsSplit(a, b[..|b| - 1]);
      assert (a + b)[..|a + b| - 1] == a + b[..|b| - 1];
    }
  }

  // ----- removing a hold or a goto

  function Without(actions: seq<Action>, i: nat): seq<Action>
    requires i < |actions|
  {
    actions[..i] + actions[i + 1..]
  }

  lemma SentenceWithout(actions: seq<Action>, m: nat, i: nat)
    requires Sentence(actions, m) && i < |actions| && Loiters(actions[i])
    ensures Sentence(Without(actions, i), m - 1)
  {
    assert forall j :: m <= j < |actions| ==> actions[j] == actions[m..][j - m];
    assert Without(actions, i)[m - 1..] == actions[m..];
  }

  lemma TotalsWithout(h: Hypot, actions: seq<Action>, i: nat)
    requires IsHypot(h) && i < |actions| && Loiters(actions[i]) && ActionValid(actions[i])
    ensures HoldTotal(Without(actions, i)) <= HoldTotal(actions)
    ensures GotoCount(Without(actions, i)) <= GotoCount(actions)
    ensures PathLength(h, Waypoints(Without(actions, i))) <= PathLength(h, Waypoints(actions))
  {
    var a, g, b := actions[..i], [actions[i]], actions[i + 1..];
    assert actions == a + g + b;
    TotalsSplit(a, g);
    TotalsSplit(a + g, b);
    TotalsSplit(a, b);
    OneAction(actions[i]);
    if actions[i].GotoAction? {
      ShortCut(h, Waypoints(a), Point(actions[i].north, actions[i].east), Waypoints(b)[1..]);
    }
  }

  lemma OneAction(a: Action)
    requires Loiters(a)
    ensures HoldTotal([a]) == if a.HoldAction? then a.seconds else 0
    ensures GotoCount([a]) == if a.GotoAction? then 1 else 0
    ensures Waypoints([a]) == [ORIGIN] + (if a.GotoAction? then [Point(a.north, a.east)] else [])
  {
    assert [a][..0] == [];
  }

  lemma BudgetsWithout(h: Hypot, limits: PolicyLimits, actions: seq<Action>, i: nat)
    requires IsHypot(h) && i < |actions| && Loiters(actions[i]) && ActionValid(actions[i])
    requires WithinBudgets(h, limits, actions)
    ensures WithinBudgets(h, limits, Without(actions, i))
  {
    var fewer := Without(actions, i);
    assert forall j :: 0 <= j < |fewer| ==> fewer[j] == actions[if j < i then j else j + 1];
    TotalsWithout(h, actions, i);
  }

  /** Deleting any hold or goto from an approved mission leaves it schema-valid and approved. */
  lemma DeletionKeepsApproval(h: Hypot, limits: PolicyLimits, actions: seq<Action>, i: nat)
    requires IsHypot(h) && ActionsValid(actions) && Approved(h, limits, actions)
    requires i < |actions| && Loiters(actions[i])
    ensures ActionsValid(Without(actions, i)) && Approved(h, limits, Without(actions, i))
  {
    ApprovedIffPermitted(h, limits, actions);
    PermittedWithout(h, limits, actions, i);
    ValidWithout(actions, i);
    ApprovedIffPermitted(h, limits, Without(actions, i));
  }

  lemma ValidWithout(actions: seq<Action>, i: nat)
    requires ActionsValid(actions) && i < |actions| && Loiters(actions[i])
    ensures ActionsValid(Without(actions, i))
  {
    var fewer := Without(actions, i);
    assert forall j :: 0 <= j < |fewer| ==> fewer[j] == actions[if j < i then j else j + 1];
  }

  lemma PermittedWithout(h: Hypot, limits: PolicyLimits, actions: seq<Action>, i: nat)
    requires IsHypot(h) && i < |actions| && Loiters(actions[i]) && ActionValid(actions[i])
    requires Permitted(h, limits, actions)
    ensures Permitted(h, limits, Without(actions, i))
  {
    var m: nat :| Sentence(actions, m);
    SentenceWithout(actions, m, i);
    BudgetsWithout(h, limits, actions, i);
  }

  // ----- the fence

  lemma {:induction false} WaypointsInside(h: Hypot, limits: PolicyLimits, actions: seq<Action>)
    requires IsHypot(h) && limits.maxDistanceFromHome >= 0.0
    requires forall i :: 0 <= i < |actions| ==> WithinOwnLimits(h, limits, actions[i])
    ensures forall p :: p in Waypoints(actions) ==> h(p.north, p.east) <= limits.maxDistanceFromHome
  {
    HypotOrigin(h);
    if actions == [] {
    } else {
      WaypointsInside(h, limits, actions[..|actions| - 1]);
    }
  }

  function Between(p: Point, q: Point, t: real): Point {
    Point(p.north + t * (q.north - p.north), p.east + t * (q.east - p.east))
  }

  lemma MixInside(h: Hypot, p: Point, q: Point, s: real, t: real, d: real)
    requires IsHypot(h) && s >= 0.0 && t >= 0.0 && s + t == 1.0
    requires h(p.north, p.east) <= d && h(q.north, q.east) <= d
    ensures h(s * p.north + t * q.north, s * p.east + t * q.east) <= d
  {
    var a, b, c, e := s * p.north, s * p.east, t * q.north, t * q.east;
    var x, y := h(p.north, p.east), h(q.north, q.east);
    Triangle(h, a, b, c, e);
    Scaling(h, s, p.north, p.east, a, b);
    Scaling(h, t, q.north, q.east, c, e);
    Weighted(s, x, t, y, d);
  }

  lemma SegmentInside(h: Hypot, p: Point, q: Point, t: real, d: real)
    requires IsHypot(h) && 0.0 <= t <= 1.0
    requires h(p.north, p.east) <= d && h(q.north, q.east) <= d
    ensures h(Between(p, q, t).north, Between(p, q, t).east) <= d
  {
    var s := 1.0 - t;
    MixInside(h, p, q, s, t, d);
    var north, east := s * p.north + t * q.north, s * p.east + t * q.east;
    assert north == Between(p, q, t).north;
    assert east == Between(p, q, t).east;
    assert h(north, east) <= d;
  }

  lemma NonNegativeProduct(p: real, q: real)
    requires p >= 0.0 && q >= 0.0
    ensures p * q >= 0.0
  {
  }

  lemma Weighted(s: real, x: real, t: real, y: real, d: real)
    requires s >= 0.0 && t >= 0.0 && s + t == 1.0 && x <= d && y <= d
    ensures s * x + t * y <= d
  {
    NonNegativeProduct(s, d - x);
    NonNegativeProduct(t, d - y);
    assert s * d + t * d == d by {
      assert (s + t) * d == d;
    }
  }

  /**
   * Every point of every straight leg of an approved mission with a goto - home to the first waypoint,
   * waypoint to waypoint, and the last waypoint back home - is within the distance limit.
   */
  lemma Fence(h: Hypot, limits: PolicyLimits, actions: seq<Action>, g: nat, k: nat, t: real)
    requires IsHypot(h) && ActionsValid(actions) && Approved(h, limits, actions)
    requires g < |actions| && actions[g].GotoAction?
    requires k < |Waypoints(actions)| && 0.0 <= t <= 1.0
    ensures var closed := Waypoints(actions) + [ORIGIN];
            var p := Between(closed[k], closed[k + 1], t);
            h(p.north, p.east) <= limits.maxDistanceFromHome
  {
    ApprovedIffPermitted(h, limits, actions);
    assert WithinOwnLimits(h, limits, actions[g]);
    assert HypotAt(h, actions[g].north, actions[g].east);
    WaypointsInside(h, limits, actions);
    HypotOrigin(h);
    var closed := Waypoints(actions) + [ORIGIN];
    assert closed[k] in Waypoints(actions);
    assert Waypoints(actions)[0] == ORIGIN;
    assert closed[k + 1] in Waypoints(actions);
    SegmentInside(h, closed[k], closed[k + 1], t, limits.maxDistanceFromHome);
  }

  lemma PathJoin(h: Hypot, path: seq<Point>, k: nat)
    requires k + 1 < |path|
    ensures PathLength(h, path) == PathLength(h, path[..k + 1]) + PathLength(h, path[k..])
  {
    PathSplit(h, path[..k + 1], path[k + 1..]);
    PathSplit(h, [path[k]], path[k + 1..]);
    assert path[..k + 1] + path[k + 1..] == path;
    assert [path[k]] + path[k + 1..] == path[k..];
    assert PathLength(h, [path[k]]) == 0.0;
  }

  /** A path that starts and ends at home and touches `path[k]` is at least twice that far. */
  lemma ThereAndBack(h: Hypot, path: seq<Point>, k: nat)
    requires IsHypot(h) && k < |path| && path[0] == ORIGIN && path[|path| - 1] == ORIGIN
    ensures PathLength(h, path) >= 2.0 * h(path[k].north, path[k].east)
  {
    var p := path[k];
    if k + 1 < |path| {
      PathJoin(h, path, k);
      PathReach(h, path[..k + 1]);
      PathReach(h, path[k..]);
      HypotEven(h, p.north, p.east);
    } else {
      HypotOrigin(h);
      PathReach(h, path);
    }
  }

  /** A mission that returns home spends at least twice the distance of its farthest waypoint. */
  lemma HalfBudgetFence(h: Hypot, limits: PolicyLimits, actions: seq<Action>, r: nat, k: nat)
    requires IsHypot(h) && ActionsValid(actions) && Approved(h, limits, actions)
    requires r < |actions| && actions[r].ReturnHomeAction?
    requires k < |Waypoints(actions)|
    ensures var p := Waypoints(actions)[k]; 2.0 * h(p.north, p.east) <= limits.maxTotalDistance
  {
    ApprovedIffPermitted(h, limits, actions);
    ReturnEndsAtHome(actions, r);
    ThereAndBack(h, Waypoints(actions), k);
  }

  lemma ReturnEndsAtHome(actions: seq<Action>, r: nat)
    requires Grammatical(actions) && r < |actions| && actions[r].ReturnHomeAction?
    ensures Waypoints(actions)[|Waypoints(actions)| - 1] == ORIGIN
  {
    var m: nat :| Sentence(actions, m);
    var n := |actions|;
    assert r >= m;
    assert actions[r] == actions[m..][r - m];
    if r < n - 1 {
      assert actions[n - 1] == actions[m..][n - 1 - m];
      assert r == n - 2 && actions[..n - 1][n - 2] == actions[r];
    }
  }

  // ----- looser limits

  predicate Looser(a: PolicyLimits, b: PolicyLimits) {
    && a.maxAltitude <= b.maxAltitude
    && a.maxDistanceFromHome <= b.maxDistanceFromHome
    && a.maxHoldSeconds <= b.maxHoldSeconds
    && a.maxActions <= b.maxActions
    && a.maxTotalHold <= b.maxTotalHold
    && a.maxTotalDistance <= b.maxTotalDistance
    && a.maxGotos <= b.maxGotos
  }

  /** Loosening limits pointwise never turns an approval into a rejection, for any action list. */
  lemma LooserLimitsKeepApproval(h: Hypot, a: PolicyLimits, b: PolicyLimits, actions: seq<Action>)
    requires actions != [] && Approved(h, a, actions) && Looser(a, b)
    ensures Approved(h, b, actions)
  {
    GatheredClean(h, a, actions, |actions|);
    GatheredClean(h, b, actions, |actions|);
  }
}
