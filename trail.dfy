/** The pointer trail of the portfolio page: every `mousemove` appends the
    pointer position to the trail and keeps only the most recent fifteen
    entries, a bounded first-in first-out buffer (src/pages/Portfolio.jsx,
    handleMouseMove). */
module MouseTrail {

  /** How many positions the trail keeps (the `-15` of `slice(-15)`). */
  const TrailLength: nat := 15

  /** One retained pointer position. `id` is the `Date.now()` value of the
      event; two events in the same millisecond share it. */
  datatype TrailPoint = TrailPoint(x: real, y: real, id: int)

  /** A pointer-movement notification: `clientX`, `clientY` and the clock
      reading taken when it is handled. */
  datatype MouseEvent = MouseEvent(clientX: real, clientY: real, now: int)

  function Min(a: nat, b: nat): nat { if a < b then a else b }

  /** The last `min(|s|, n)` elements of `s`, in their order. */
  function Recent<T>(s: seq<T>, n: nat): seq<T> {
    s[|s| - Min(|s|, n)..]
  }

  /** Keeping the most recent `n` before or after appending one more
      element gives the same result. */
  lemma RecentAppend<T>(s: seq<T>, x: T, n: nat)
    requires n > 0
    ensures Recent(Recent(s, n) + [x], n) == Recent(s + [x], n)
  {
    var a := |s| - Min(|s|, n);
    assert Recent(s, n) + [x] == (s + [x])[a..];
    var t := (s + [x])[a..];
    var b := |t| - Min(|t|, n);
    assert t[b..] == (s + [x])[a + b..];
  }

  /** JavaScript's `Array.prototype.slice(n)` for a negative `n`: the
      elements from index `max(|s| + n, 0)` to the end. */
  function SliceNegative<T>(s: seq<T>, n: int): (r: seq<T>)
    requires n < 0
    ensures |r| == Min(|s|, -n)
    ensures r == Recent(s, -n)
  {
    s[if |s| + n > 0 then |s| + n else 0..]
  }

  /** The position an event puts on the trail. */
  function PointOf(e: MouseEvent): TrailPoint {
    TrailPoint(e.clientX, e.clientY, e.now)
  }

  /** The state updater handed to `setMouseTrail`: append the new point,
      then keep the last fifteen. The result is the last
      `min(|trail| + 1, 15)` entries of `trail + [p]`, the new point last. */
  function OnMouseMove(trail: seq<TrailPoint>, e: MouseEvent): (r: seq<TrailPoint>)
    ensures |r| == Min(|trail| + 1, TrailLength)
    ensures r == Recent(trail + [PointOf(e)], TrailLength)
    ensures r[|r| - 1] == PointOf(e)
    ensures |trail| < TrailLength ==> r == trail + [PointOf(e)]
  {
    SliceNegative(trail + [PointOf(e)], -15)
  }

  /** On a trail that is at most full, an event either appends (room left)
      or evicts exactly the oldest entry and appends (trail full). */
  lemma OnMouseMoveIsFifo(trail: seq<TrailPoint>, e: MouseEvent)
    requires |trail| <= TrailLength
    ensures OnMouseMove(trail, e) ==
              (if |trail| < TrailLength then trail else trail[1..]) + [PointOf(e)]
  {
    if |trail| == TrailLength {
      assert (trail + [PointOf(e)])[1..] == trail[1..] + [PointOf(e)];
    }
  }

  /** The positions of a stream of events, in arrival order. */
  function Points(evs: seq<MouseEvent>): (ps: seq<TrailPoint>)
    ensures |ps| == |evs|
    ensures forall k :: 0 <= k < |evs| ==> ps[k] == PointOf(evs[k])
  {
    seq(|evs|, k requires 0 <= k < |evs| => PointOf(evs[k]))
  }

  lemma PointsAppend(evs: seq<MouseEvent>)
    requires evs != []
    ensures Points(evs) == Points(evs[..|evs| - 1]) + [PointOf(evs[|evs| - 1])]
  {
    var init := evs[..|evs| - 1];
    assert |Points(evs)| == |Points(init) + [PointOf(evs[|evs| - 1])]|;
    forall k | 0 <= k < |evs|
      ensures Points(evs)[k] == (Points(init) + [PointOf(evs[|evs| - 1])])[k]
    {
      if k < |init| { assert init[k] == evs[k]; }
    }
  }

  /** The trail after the events `evs` are handled one after the other. */
  function Deliver(trail: seq<TrailPoint>, evs: seq<MouseEvent>): seq<TrailPoint>
    decreases |evs|
  {
    if evs == [] then trail
    else OnMouseMove(Deliver(trail, evs[..|evs| - 1]), evs[|evs| - 1])
  }

  /** However many events arrive, the trail holds exactly the last
      `min(|trail| + |evs|, 15)` positions of the old trail followed by the
      new points, in arrival order. */
  lemma {:induction false} DeliverKeepsLast(trail: seq<TrailPoint>, evs: seq<MouseEvent>)
    requires |trail| <= TrailLength
    ensures |Deliver(trail, evs)| == Min(|trail| + |evs|, TrailLength)
    ensures Deliver(trail, evs) == Recent(trail + Points(evs), TrailLength)
    decreases |evs|
  {
    if evs == [] {
      assert trail + Points(evs) == trail;
    } else {
      var init := evs[..|evs| - 1];
      var p := PointOf(evs[|evs| - 1]);
      DeliverKeepsLast(trail, init);
      var before := Deliver(trail, init);
      assert Deliver(trail, evs) == OnMouseMove(before, evs[|evs| - 1]);
      assert Deliver(trail, evs) == Recent(before + [p], TrailLength);
      PointsAppend(evs);
      assert trail + Points(evs) == (trail + Points(init)) + [p];
      RecentAppend(trail + Points(init), p, TrailLength);
    }
  }

  /** From the empty trail the page starts with, `15 + 5` events leave
      exactly the last fifteen positions, oldest first. */
  lemma TwentyEventsKeepLastFifteen(evs: seq<MouseEvent>)
    requires |evs| == TrailLength + 5
    ensures Deliver([], evs) == Points(evs[5..])
  {
    DeliverKeepsLast([], evs);
    var ps: seq<TrailPoint> := Points(evs);
    assert [] + ps == ps;
    assert Recent(ps, TrailLength) == ps[5..];
    assert ps[5..] == Points(evs[5..]) by {
      forall k | 0 <= k < |evs| - 5 ensures ps[5..][k] == Points(evs[5..])[k] {
        assert ps[5..][k] == ps[k + 5];
      }
    }
  }
}
