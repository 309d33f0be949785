/** The regression as it runs: GreedyPLR takes one point at a time, PLR::train feeds it
    the keys and collects the segments (mod/plr.cpp). */
module PlrTrain {
  import opened Plr

  datatype Mode = Need2 | Need1 | Ready | Finished

  /** The conversion of a double to uint64_t. */
  function Truncate(x: real): nat
    requires x >= 0.0
  {
    x.Floor
  }

  predicate Increasing(pts: seq<Point>) {
    forall i, j :: 0 <= i < j < |pts| ==> pts[i].x < pts[j].x
  }

  /** The line is within gamma of every point. */
  predicate Fits(l: Line, pts: seq<Point>, gamma: real) {
    forall i :: 0 <= i < |pts| ==> -gamma <= At(l, pts[i].x) - pts[i].y <= gamma
  }

  /** The line with slope m through s. */
  function LineAt(m: real, s: Point): Line {
    Line(m, -m * s.x + s.y)
  }

  function LineOf(seg: Segment): Line {
    Line(seg.k, seg.b)
  }

  lemma NearFits(m: real, s: Point, pts: seq<Point>, gamma: real)
    requires AllNear(m, s, pts, gamma)
    ensures Fits(LineAt(m, s), pts, gamma)
  {
    forall i | 0 <= i < |pts| ensures -gamma <= At(LineAt(m, s), pts[i].x) - pts[i].y <= gamma {
      assert Near(m, s, pts[i], gamma);
      MulMinus(m, pts[i].x, s.x);
    }
  }

  lemma BisectorFits(lower: Line, upper: Line, sint: Point, pts: seq<Point>, gamma: real, avg: real)
    requires Cone(lower, upper, sint, pts, gamma) && avg == (lower.a + upper.a) / 2.0
    ensures Fits(LineAt(avg, sint), pts, gamma)
    ensures avg == 0.0 ==> LineAt(avg, sint).b == sint.y
  {
    ConeFits(lower, upper, sint, pts, gamma, avg);
    NearFits(avg, sint, pts, gamma);
  }

  ghost predicate ReadyOk(accepted: seq<Point>, s0: Point, s1: Point, lower: Line, upper: Line, sint: Point, gamma: real) {
    && |accepted| >= 2 && accepted[0] == s0 && accepted[1] == s1
    && sint == Middle(s0, s1)
    && Cone(lower, upper, sint, accepted, gamma) && Tight(lower, upper, sint, accepted, gamma)
  }

  /** The line goes through the middle of the first two points, half-way between the
      extreme slopes there that fit all of them. */
  ghost predicate Bisects(seg: Segment, pts: seq<Point>, gamma: real) {
    && |pts| >= 2
    && var s := Middle(pts[0], pts[1]);
       && At(LineOf(seg), s.x) == s.y
       && exists lo, hi :: lo <= hi && FittingSlopes(lo, hi, s, pts, gamma) && seg.k == (lo + hi) / 2.0
  }

  lemma BisectorBisects(lower: Line, upper: Line, pts: seq<Point>, gamma: real, seg: Segment)
    requires |pts| >= 2 && Cone(lower, upper, Middle(pts[0], pts[1]), pts, gamma)
    requires Tight(lower, upper, Middle(pts[0], pts[1]), pts, gamma)
    requires LineOf(seg) == LineAt((lower.a + upper.a) / 2.0, Middle(pts[0], pts[1]))
    ensures Bisects(seg, pts, gamma)
  {
    ConeIsExact(lower, upper, Middle(pts[0], pts[1]), pts, gamma);
  }

  /** The point goes with the two or more before it. */
  ghost predicate Continues(pts: seq<Point>, pt: Point, gamma: real) {
    |pts| < 2 || Joins(Middle(pts[0], pts[1]), pts, pt, gamma)
  }

  class Greedy {
    var state: Mode
    const gamma: real
    var lastPt: Point
    var s0: Point
    var s1: Point
    var rhoLower: Line
    var rhoUpper: Line
    var sint: Point
    ghost var accepted: seq<Point>   // the points of the segment being built

    ghost predicate Valid()
      reads this
    {
      && gamma > 0.0 && Increasing(accepted)
      && (forall i :: 0 <= i < |accepted| ==> accepted[i].x >= 0.0)
      && match state
         case Need2 => accepted == []
         case Need1 => accepted == [s0] && lastPt == s0
         case Ready => ReadyOk(accepted, s0, s1, rhoLower, rhoUpper, sint, gamma) && lastPt == accepted[|accepted| - 1]
         case Finished => true
    }

    constructor (gamma: real)
      requires gamma > 0.0
      ensures Valid() && this.gamma == gamma && state == Need2 && accepted == []
    {
      this.gamma, state, accepted := gamma, Need2, [];
      var zero := Point(0.0, 0.0);
      lastPt, s0, s1, sint := zero, zero, zero, zero;
      rhoLower, rhoUpper := Line(0.0, 0.0), Line(0.0, 0.0);
    }

    method Setup()
      requires gamma > 0.0 && s0.x < s1.x
      modifies this`rhoLower, this`rhoUpper, this`sint
      ensures sint == Middle(s0, s1) && Cone(rhoLower, rhoUpper, sint, [s0, s1], gamma)
      ensures Tight(rhoLower, rhoUpper, sint, [s0, s1], gamma)
    {
      rhoLower := GetLine(UpperBound(s0, gamma), LowerBound(s1, gamma));
      rhoUpper := GetLine(LowerBound(s0, gamma), UpperBound(s1, gamma));
      SetupCone(s0, s1, gamma, rhoLower, rhoUpper);
      SetupTight(s0, s1, gamma, rhoLower, rhoUpper);
      Meet(rhoUpper, rhoLower);
      OneMeeting(rhoUpper, rhoLower, GetIntersection(rhoUpper, rhoLower), Middle(s0, s1));
      sint := GetIntersection(rhoUpper, rhoLower);
    }

    /** The bisector of the cone. */
    method CurrentSegment() returns (seg: Segment)
      requires ReadyOk(accepted, s0, s1, rhoLower, rhoUpper, sint, gamma) && s0.x >= 0.0 && lastPt.x >= 0.0
      ensures seg.x == Truncate(s0.x) && seg.x2 == Truncate(lastPt.x)
      ensures Fits(LineOf(seg), accepted, gamma) && Bisects(seg, accepted, gamma)
      ensures seg.k == 0.0 ==> seg.b == Middle(s0, s1).y
    {
      var avg := (rhoLower.a + rhoUpper.a) / 2.0;
      BisectorFits(rhoLower, rhoUpper, sint, accepted, gamma, avg);
      var line := LineAt(avg, sint);
      seg := Segment(Truncate(s0.x), line.a, line.b, Truncate(lastPt.x));
      BisectorBisects(rhoLower, rhoUpper, accepted, gamma, seg);
    }

    /** Takes the next point. Either it joins the segment being built and nothing is
        returned, or that segment is returned and the point starts the next one, exactly
        when no cone through the segment's points has it inside. */
    method Process(pt: Point) returns (seg: Segment, ghost cut: bool)
      requires Valid() && state != Finished && pt.x >= 0.0
      requires accepted != [] ==> accepted[|accepted| - 1].x < pt.x
      modifies this
      ensures Valid() && state != Finished
      ensures cut <==> !Continues(old(accepted), pt, gamma)
      ensures !cut ==> seg == NONE && accepted == old(accepted) + [pt]
      ensures cut ==> accepted == [pt] && |old(accepted)| >= 2
      ensures cut ==> Fits(LineOf(seg), old(accepted), gamma) && Bisects(seg, old(accepted), gamma)
      ensures cut ==> seg.x == Truncate(old(accepted)[0].x) && seg.x2 == Truncate(pt.x)
      ensures cut && seg.k == 0.0 ==> seg.b == Middle(old(accepted)[0], old(accepted)[1]).y
    {
      lastPt := pt;
      seg, cut := NONE, false;
      if state == Need2 {
        s0, accepted := pt, [pt];
        state := Need1;
      } else if state == Need1 {
        s1, accepted := pt, accepted + [pt];
        assert accepted == [s0, s1];
        Setup();
        state := Ready;
      } else {
        seg, cut := ProcessReady(pt);
      }
    }

    method ProcessReady(pt: Point) returns (seg: Segment, ghost cut: bool)
      requires gamma > 0.0 && state == Ready && Increasing(accepted) && lastPt == pt && pt.x >= 0.0
      requires forall i :: 0 <= i < |accepted| ==> accepted[i].x >= 0.0
      requires ReadyOk(accepted, s0, s1, rhoLower, rhoUpper, sint, gamma) && accepted[|accepted| - 1].x < pt.x
      modifies this
      ensures Valid() && state != Finished
      ensures cut <==> !Continues(old(accepted), pt, gamma)
      ensures !cut ==> seg == NONE && accepted == old(accepted) + [pt]
      ensures cut ==> accepted == [pt] && Fits(LineOf(seg), old(accepted), gamma) && Bisects(seg, old(accepted), gamma)
      ensures cut ==> seg.x == Truncate(old(accepted)[0].x) && seg.x2 == Truncate(pt.x)
      ensures cut && seg.k == 0.0 ==> seg.b == Middle(old(accepted)[0], old(accepted)[1]).y
    {
      InsideX(accepted, s0, s1, pt);
      JoinsExact(rhoLower, rhoUpper, sint, accepted, gamma, pt);
      if !(IsAbove(pt, rhoLower) && IsBelow(pt, rhoUpper)) {
        seg := CurrentSegment();
        s0, accepted, cut := pt, [pt], true;
        state := Need1;
        return;
      }
      ghost var lower, upper := rhoLower, rhoUpper;
      var above := UpperBound(pt, gamma);
      var below := LowerBound(pt, gamma);
      if IsBelow(above, rhoUpper) { rhoUpper := GetLine(sint, above); }
      if IsAbove(below, rhoLower) { rhoLower := GetLine(sint, below); }
      Narrow(lower, upper, sint, accepted, gamma, pt, rhoLower, rhoUpper);
      NarrowTight(lower, upper, sint, accepted, gamma, pt, rhoLower, rhoUpper);
      accepted := accepted + [pt];
      seg, cut := NONE, false;
    }

    method Finish() returns (seg: Segment)
      requires Valid() && state != Finished
      modifies this`state
      ensures state == Finished
      ensures accepted == [] ==> seg == NONE
      ensures accepted != [] ==> Fits(LineOf(seg), accepted, gamma)
      ensures accepted != [] ==> seg.x == Truncate(accepted[0].x) && seg.x2 == Truncate(accepted[|accepted| - 1].x)
      ensures |accepted| == 1 ==> seg.k == 0.0 && seg.b == accepted[0].y
      ensures |accepted| >= 2 ==> Bisects(seg, accepted, gamma)
      ensures |accepted| >= 2 && seg.k == 0.0 ==> seg.b == Middle(accepted[0], accepted[1]).y
    {
      if state == Need2 {
        seg := NONE;
      } else if state == Need1 {
        assert accepted[0] == s0;
        seg := Segment(Truncate(s0.x), 0.0, s0.y, Truncate(lastPt.x));
      } else {
        seg := CurrentSegment();
      }
      state := Finished;
    }
  }

  lemma InsideX(accepted: seq<Point>, s0: Point, s1: Point, pt: Point)
    requires |accepted| >= 2 && accepted[0] == s0 && accepted[1] == s1 && Increasing(accepted)
    requires accepted[|accepted| - 1].x < pt.x
    ensures Middle(s0, s1).x < pt.x
  {
  }

  // ----- training -----

  predicate Ascending(keys: seq<nat>) {
    forall i, j :: 0 <= i < j < |keys| ==> keys[i] < keys[j]
  }

  function PointAt(keys: seq<nat>, i: nat): Point
    requires i < |keys|
  {
    Point(keys[i] as real, i as real)
  }

  function PointsOf(keys: seq<nat>, lo: nat, hi: nat): seq<Point>
    requires lo <= hi <= |keys|
  {
    seq(hi - lo, j requires 0 <= j < hi - lo => PointAt(keys, lo + j))
  }

  /** Every key from lo up to hi goes with those since lo. */
  ghost predicate RunsOn(keys: seq<nat>, lo: nat, hi: nat, gamma: real)
    requires lo <= hi <= |keys|
  {
    forall i :: lo <= i < hi ==> Continues(PointsOf(keys, lo, i), PointAt(keys, i), gamma)
  }

  /** seg covers the keys at positions lo up to hi: it starts at the first of them, ends
      at the key after them or, at the end, at the last, and its line is within gamma
      of each one's position. It is the longest there is: every key in it goes with those
      before, and the key after it does not. */
  ghost predicate SegmentCovers(keys: seq<nat>, seg: Segment, lo: nat, hi: nat, gamma: real) {
    && lo < hi <= |keys| && seg.x == keys[lo]
    && seg.x2 == (if hi < |keys| then keys[hi] else keys[hi - 1])
    && Fits(LineOf(seg), PointsOf(keys, lo, hi), gamma)
    && (if hi == lo + 1 then seg.k == 0.0 && seg.b == lo as real else Bisects(seg, PointsOf(keys, lo, hi), gamma))
    && RunsOn(keys, lo, hi, gamma)
    && (hi < |keys| ==> !Continues(PointsOf(keys, lo, hi), PointAt(keys, hi), gamma))
  }

  /** The segments cover the first n keys, each exactly once and in order: segment j has
      the positions from starts[j] up to starts[j + 1]. */
  ghost predicate Cover(keys: seq<nat>, segs: seq<Segment>, starts: seq<nat>, n: nat, gamma: real) {
    && |starts| == |segs| + 1 && starts[0] == 0 && starts[|segs|] == n
    && forall j :: 0 <= j < |segs| ==> SegmentCovers(keys, segs[j], starts[j], starts[j + 1], gamma)
  }

  lemma CoverGrows(keys: seq<nat>, segs: seq<Segment>, starts: seq<nat>, n: nat, gamma: real, seg: Segment, m: nat)
    requires Cover(keys, segs, starts, n, gamma) && SegmentCovers(keys, seg, n, m, gamma)
    ensures Cover(keys, segs + [seg], starts + [m], m, gamma)
  {
    var ss, ts := segs + [seg], starts + [m];
    forall j | 0 <= j < |ss| ensures SegmentCovers(keys, ss[j], ts[j], ts[j + 1], gamma) {
      assert j < |segs| ==> ss[j] == segs[j] && ts[j] == starts[j] && ts[j + 1] == starts[j + 1];
    }
  }

  /** The fitting slopes are one interval, so its ends are determined. */
  lemma SameSlopes(lo: real, hi: real, lo': real, hi': real, s: Point, pts: seq<Point>, gamma: real)
    requires lo <= hi && FittingSlopes(lo, hi, s, pts, gamma) && lo' <= hi' && FittingSlopes(lo', hi', s, pts, gamma)
    ensures lo == lo' && hi == hi'
  {
    assert AllNear(lo, s, pts, gamma) && AllNear(hi, s, pts, gamma);
    assert AllNear(lo', s, pts, gamma) && AllNear(hi', s, pts, gamma);
  }

  lemma SameBisector(a: Segment, b: Segment, pts: seq<Point>, gamma: real)
    requires Bisects(a, pts, gamma) && Bisects(b, pts, gamma)
    ensures LineOf(a) == LineOf(b)
  {
    var s := Middle(pts[0], pts[1]);
    var lo, hi :| lo <= hi && FittingSlopes(lo, hi, s, pts, gamma) && a.k == (lo + hi) / 2.0;
    var lo', hi' :| lo' <= hi' && FittingSlopes(lo', hi', s, pts, gamma) && b.k == (lo' + hi') / 2.0;
    SameSlopes(lo, hi, lo', hi', s, pts, gamma);
  }

  /** A segment, and where it ends, is decided by the keys from its start on. */
  lemma SameSegment(keys: seq<nat>, a: Segment, b: Segment, lo: nat, hi: nat, hi': nat, gamma: real)
    requires SegmentCovers(keys, a, lo, hi, gamma) && SegmentCovers(keys, b, lo, hi', gamma)
    ensures hi == hi' && a == b
  {
    if hi > lo + 1 && hi == hi' { SameBisector(a, b, PointsOf(keys, lo, hi), gamma); }
  }

  /** There is one cover by such segments, so training can give nothing else. */
  lemma {:induction false} OneCover(keys: seq<nat>, ss: seq<Segment>, a: seq<nat>, ts: seq<Segment>, b: seq<nat>, gamma: real, j: nat)
    requires Cover(keys, ss, a, |keys|, gamma) && Cover(keys, ts, b, |keys|, gamma) && j <= |ss|
    ensures j <= |ts| && a[j] == b[j] && ss[..j] == ts[..j]
  {
    if j > 0 {
      OneCover(keys, ss, a, ts, b, gamma, j - 1);
      assert SegmentCovers(keys, ss[j - 1], a[j - 1], a[j], gamma);
      if j - 1 < |ts| {
        SameSegment(keys, ss[j - 1], ts[j - 1], a[j - 1], a[j], b[j], gamma);
        assert ss[..j] == ss[..j - 1] + [ss[j - 1]] && ts[..j] == ts[..j - 1] + [ts[j - 1]];
      }
    }
  }

  lemma SameCover(keys: seq<nat>, ss: seq<Segment>, a: seq<nat>, ts: seq<Segment>, b: seq<nat>, gamma: real)
    requires Cover(keys, ss, a, |keys|, gamma) && Cover(keys, ts, b, |keys|, gamma)
    ensures ss == ts
  {
    OneCover(keys, ss, a, ts, b, gamma, |ss|);
    OneCover(keys, ts, b, ss, a, gamma, |ts|);
    assert ss[..|ss|] == ss && ts[..|ts|] == ts;
  }

  lemma TruncateKey(k: nat)
    ensures Truncate(k as real) == k
  {
  }

  /** A segment of two or more points is never mistaken for the empty answer. */
  lemma NotNone(keys: seq<nat>, lo: nat, hi: nat, seg: Segment)
    requires Ascending(keys) && lo + 2 <= hi <= |keys| && seg.x == keys[lo]
    requires seg.k == 0.0 ==> seg.b == Middle(PointAt(keys, lo), PointAt(keys, lo + 1)).y
    ensures seg.x != 0 || seg.k != 0.0 || seg.b != 0.0
  {
  }

  lemma PointsEnds(keys: seq<nat>, lo: nat, hi: nat)
    requires lo < hi <= |keys|
    ensures var acc := PointsOf(keys, lo, hi);
            && |acc| == hi - lo && acc[0] == PointAt(keys, lo) && acc[hi - lo - 1] == PointAt(keys, hi - 1)
            && (lo + 1 < hi ==> acc[1] == PointAt(keys, lo + 1))
  {
  }

  lemma PointsGrow(keys: seq<nat>, lo: nat, i: nat)
    requires lo <= i < |keys|
    ensures PointsOf(keys, lo, i + 1) == PointsOf(keys, lo, i) + [PointAt(keys, i)]
    ensures PointsOf(keys, i, i + 1) == [PointAt(keys, i)]
  {
  }

  /** Passes the key at position i on; lo is where the segment being built starts. */
  method Feed(plr: Greedy, keys: seq<nat>, ghost lo: nat, i: nat) returns (seg: Segment, ghost cut: bool)
    requires Ascending(keys) && lo <= i < |keys| && (0 < i ==> lo < i)
    requires plr.Valid() && plr.state != Finished && plr.accepted == PointsOf(keys, lo, i) && RunsOn(keys, lo, i, plr.gamma)
    modifies plr
    ensures plr.Valid() && plr.state != Finished
    ensures !cut ==> seg == NONE && plr.accepted == PointsOf(keys, lo, i + 1) && RunsOn(keys, lo, i + 1, plr.gamma)
    ensures cut ==> lo < i && plr.accepted == PointsOf(keys, i, i + 1) && RunsOn(keys, i, i + 1, plr.gamma)
    ensures cut ==> SegmentCovers(keys, seg, lo, i, plr.gamma)
    ensures cut ==> seg.x != 0 || seg.k != 0.0 || seg.b != 0.0
  {
    PointsGrow(keys, lo, i);
    if lo < i { PointsEnds(keys, lo, i); }
    seg, cut := plr.Process(PointAt(keys, i));
    if cut {
      TruncateKey(keys[lo]);
      TruncateKey(keys[i]);
      NotNone(keys, lo, i, seg);
    }
  }

  predicate Empty(seg: Segment) {
    seg.x == 0 && seg.k == 0.0 && seg.b == 0.0
  }

  /** The keys before i: those before lo are covered, the others are being gathered. */
  ghost predicate Gathered(keys: seq<nat>, segs: seq<Segment>, starts: seq<nat>, lo: nat, i: nat, accepted: seq<Point>, gamma: real) {
    && lo <= i <= |keys| && (0 < i ==> lo < i) && Cover(keys, segs, starts, lo, gamma)
    && accepted == PointsOf(keys, lo, i) && RunsOn(keys, lo, i, gamma)
  }

  lemma NothingGathered(keys: seq<nat>, gamma: real)
    ensures Gathered(keys, [], [0], 0, 0, [], gamma)
  {
  }

  /** One more key, and the segment it closes, if any. */
  method Gather(plr: Greedy, keys: seq<nat>, i: nat, ghost segs: seq<Segment>, ghost starts: seq<nat>, ghost lo: nat)
    returns (seg: Segment, ghost segs': seq<Segment>, ghost starts': seq<nat>, ghost lo': nat)
    requires Ascending(keys) && i < |keys| && Going(plr, keys, segs, starts, lo, i)
    modifies plr
    ensures Going(plr, keys, segs', starts', lo', i + 1)
    ensures segs' == if Empty(seg) then segs else segs + [seg]
  {
    ghost var cut;
    seg, cut := Feed(plr, keys, lo, i);
    segs', starts', lo' := segs, starts, lo;
    if cut {
      CoverGrows(keys, segs, starts, lo, plr.gamma, seg, i);
      segs', starts', lo' := segs + [seg], starts + [i], i;
    }
  }

  /** Every tenth key of a level is an occasion to stop for a waiting compaction. */
  predicate GivesWay(awaiting: nat -> bool, i: nat) {
    (i + 1) % 10 == 0 && awaiting(i)
  }

  lemma SomethingCovered(keys: seq<nat>, segs: seq<Segment>, starts: seq<nat>, n: nat, gamma: real)
    requires Cover(keys, segs, starts, n, gamma)
    ensures segs != [] ==> n > 0
  {
    if segs != [] {
      assert SegmentCovers(keys, segs[|segs| - 1], starts[|segs| - 1], starts[|segs|], gamma);
    }
  }

  /** Keeps a segment that is not the empty answer. */
  function Push(segments: seq<Segment>, seg: Segment): seq<Segment> {
    if seg.x != 0 || seg.k != 0.0 || seg.b != 0.0 then segments + [seg] else segments
  }

  /** No occasion to stop among the first n keys. */
  ghost predicate NoWay(awaiting: nat -> bool, n: nat) {
    forall k :: 0 <= k < n ==> !GivesWay(awaiting, k)
  }

  /** The test after key i. */
  method MustStop(file: bool, count: nat, awaiting: nat -> bool, i: nat) returns (stop: bool, count': nat)
    requires !file ==> count == i && NoWay(awaiting, i)
    ensures stop <==> !file && GivesWay(awaiting, i)
    ensures !file ==> count' == i + 1 && (!stop ==> NoWay(awaiting, i + 1))
  {
    stop, count' := false, count;
    if !file {
      count' := count + 1;
      stop := count' % 10 == 0 && awaiting(i);
    }
  }

  /** The regression has taken the first i keys and is ready for more. */
  ghost predicate Going(plr: Greedy, keys: seq<nat>, segs: seq<Segment>, starts: seq<nat>, lo: nat, i: nat)
    reads plr
  {
    plr.Valid() && plr.state != Finished && Gathered(keys, segs, starts, lo, i, plr.accepted, plr.gamma)
  }

  /** Feeds the keys one by one, and gives up at a tenth key when that is asked for. */
  method FeedAll(plr: Greedy, keys: seq<nat>, file: bool, awaiting: nat -> bool)
    returns (aborted: bool, segs: seq<Segment>, ghost starts: seq<nat>, ghost lo: nat)
    requires Ascending(keys) && plr.Valid() && plr.state == Need2
    modifies plr
    ensures aborted <==> !file && !NoWay(awaiting, |keys|)
    ensures !aborted ==> Going(plr, keys, segs, starts, lo, |keys|)
  {
    segs, starts, lo, aborted := [], [0], 0, false;
    var count, i := 0, 0;
    NothingGathered(keys, plr.gamma);
    while i < |keys|
      invariant i <= |keys| && (!file ==> count == i && NoWay(awaiting, i))
      invariant Going(plr, keys, segs, starts, lo, i)
    {
      var seg;
      ghost var segs';
      seg, segs', starts, lo := Gather(plr, keys, i, segs, starts, lo);
      segs := Push(segs, seg);
      aborted, count := MustStop(file, count, awaiting, i);
      if aborted { return; }
      i := i + 1;
    }
  }

  class Trainer {
    const gamma: real
    var segments: seq<Segment>

    constructor (gamma: real)
      ensures this.gamma == gamma && segments == []
    {
      this.gamma, segments := gamma, [];
    }

    /** Unless it gives way to a waiting compaction, training adds segments that cover
        all the keys, exactly when the keys are not the single key 0. */
    method Train(keys: seq<nat>, file: bool, awaiting: nat -> bool) returns (aborted: bool, ghost segs: seq<Segment>, ghost starts: seq<nat>)
      requires gamma > 0.0 && Ascending(keys)
      modifies this
      ensures aborted <==> !file && exists i :: 0 <= i < |keys| && GivesWay(awaiting, i)
      ensures aborted ==> segments == []
      ensures !aborted ==> segments == old(segments) + segs
      ensures !aborted ==> if keys != [0] then Cover(keys, segs, starts, |keys|, gamma) else segs == []
    {
      var plr := new Greedy(gamma);
      var found;
      ghost var lo;
      aborted, found, starts, lo := FeedAll(plr, keys, file, awaiting);
      segs := found;
      if aborted {
        segments := [];
      } else {
        var last;
        last, segs, starts := Conclude(plr, keys, segs, starts, lo);
        segments := segments + Push(found, last);
      }
    }
  }

  /** The segment still open at the end of the keys. */
  method Conclude(plr: Greedy, keys: seq<nat>, ghost segs: seq<Segment>, ghost starts: seq<nat>, ghost lo: nat)
    returns (last: Segment, ghost segs': seq<Segment>, ghost starts': seq<nat>)
    requires Ascending(keys) && Going(plr, keys, segs, starts, lo, |keys|)
    modifies plr
    ensures segs' == if Empty(last) then segs else segs + [last]
    ensures if keys != [0] then Cover(keys, segs', starts', |keys|, plr.gamma) else segs' == []
  {
    last := plr.Finish();
    segs', starts' := segs, starts;
    SomethingCovered(keys, segs, starts, lo, plr.gamma);
    if keys != [] {
      PointsEnds(keys, lo, |keys|);
      LastSegment(keys, lo, plr.accepted, last, plr.gamma);
      if keys != [0] {
        CoverGrows(keys, segs, starts, lo, plr.gamma, last, |keys|);
        segs', starts' := segs + [last], starts + [|keys|];
      }
    }
  }

  lemma LastSegment(keys: seq<nat>, lo: nat, acc: seq<Point>, last: Segment, gamma: real)
    requires Ascending(keys) && lo < |keys| && acc == PointsOf(keys, lo, |keys|)
    requires |acc| == |keys| - lo && acc[0] == PointAt(keys, lo) && acc[|acc| - 1] == PointAt(keys, |keys| - 1)
    requires |acc| >= 2 ==> acc[1] == PointAt(keys, lo + 1)
    requires Fits(LineOf(last), acc, gamma)
    requires last.x == Truncate(acc[0].x) && last.x2 == Truncate(acc[|acc| - 1].x)
    requires |acc| == 1 ==> last.k == 0.0 && last.b == acc[0].y
    requires |acc| >= 2 ==> Bisects(last, acc, gamma)
    requires RunsOn(keys, lo, |keys|, gamma)
    requires |acc| >= 2 && last.k == 0.0 ==> last.b == Middle(acc[0], acc[1]).y
    ensures SegmentCovers(keys, last, lo, |keys|, gamma)
    ensures last.x == 0 && last.k == 0.0 && last.b == 0.0 <==> keys == [0]
  {
    TruncateKey(keys[lo]);
    TruncateKey(keys[|keys| - 1]);
    if |acc| >= 2 { NotNone(keys, lo, |keys|, last); }
  }
}
