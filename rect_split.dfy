/**
 * WorldSpaceRect::split_single and WorldSpaceRect::split: carving a rectangle by
 * the rectangles already requested, exactly as the source does it. The pieces are
 * not clipped to the carved rect, and a piece that a cut covers completely is kept.
 */
module RectSplit {
  import opened Wrappers
  import opened MapTypes

  /**
   * The strips split_single produces for `s` cut by `c`, in its order: left, right,
   * bottom, top. Left and right span the full height of `s`; bottom and top span
   * `c.left .. c.right`.
   */
  function Pieces(s: Rect, c: Rect): seq<Rect> {
    (if s.left < c.left then [Rect(s.left, c.left, s.bottom, s.top)] else [])
    + (if s.right > c.right then [Rect(c.right, s.right, s.bottom, s.top)] else [])
    + (if s.bottom < c.bottom then [Rect(c.left, c.right, s.bottom, c.bottom)] else [])
    + (if s.top > c.top then [Rect(c.left, c.right, c.top, s.top)] else [])
  }

  /** Every piece lies on the far side of one of `c`'s edges. */
  predicate BeyondAnEdge(p: Rect, c: Rect) {
    p.right <= c.left || c.right <= p.left || p.top <= c.bottom || c.top <= p.bottom
  }

  method SplitSingle(s: Rect, c: Rect) returns (res: Option<seq<Rect>>)
    ensures res.None? <==> Encloses(c, s)
    ensures res.Some? ==> 1 <= |res.value| <= 4
    ensures res.Some? ==> forall k :: 0 <= k < |res.value| ==> BeyondAnEdge(res.value[k], c)
    ensures res == if Pieces(s, c) == [] then None else Some(Pieces(s, c))
  {
    var result: seq<Rect> := [];
    if s.left < c.left {
      result := result + [Rect(s.left, c.left, s.bottom, s.top)];
    }
    assert result == (if s.left < c.left then [Rect(s.left, c.left, s.bottom, s.top)] else []);
    if s.right > c.right {
      result := result + [Rect(c.right, s.right, s.bottom, s.top)];
    }
    if s.bottom < c.bottom {
      result := result + [Rect(c.left, c.right, s.bottom, c.bottom)];
    }
    if s.top > c.top {
      result := result + [Rect(c.left, c.right, c.top, s.top)];
    }
    assert result == Pieces(s, c);
    if result == [] {
      res := None;
    } else {
      res := Some(result);
    }
  }

  /** The fixed order and extents of the strips. */
  lemma PiecesLayout(s: Rect, c: Rect)
    ensures |Pieces(s, c)| <= 4
    ensures forall p :: p in Pieces(s, c) ==>
      (p.bottom == s.bottom && p.top == s.top) || (p.left == c.left && p.right == c.right)
    ensures s.left < c.left ==> Pieces(s, c)[0] == Rect(s.left, c.left, s.bottom, s.top)
    ensures s.top > c.top ==> Pieces(s, c)[|Pieces(s, c)| - 1] == Rect(c.left, c.right, c.top, s.top)
    ensures s.left >= c.left && s.right > c.right ==> Pieces(s, c)[0] == Rect(c.right, s.right, s.bottom, s.top)
  {
  }

  /** No piece overlaps the interior of the cut. */
  lemma PiecesAvoidCut(s: Rect, c: Rect)
    ensures forall p :: p in Pieces(s, c) ==> !InteriorsOverlap(p, c)
  {
  }

  /** Every point of `s` outside the closed box of `c` is in some piece. */
  lemma PiecesCoverRest(s: Rect, c: Rect, x: real, y: real)
    requires InRect(s, x, y) && !InRect(c, x, y)
    ensures exists p :: p in Pieces(s, c) && InRect(p, x, y)
  {
    var ps := Pieces(s, c);
    if x < c.left {
      assert ps[0] == Rect(s.left, c.left, s.bottom, s.top);
      assert InRect(ps[0], x, y);
    } else if x > c.right {
      var q := Rect(c.right, s.right, s.bottom, s.top);
      assert q in ps;
      assert InRect(q, x, y);
    } else if y < c.bottom {
      var q := Rect(c.left, c.right, s.bottom, c.bottom);
      assert q in ps;
      assert InRect(q, x, y);
    } else {
      var q := Rect(c.left, c.right, c.top, s.top);
      assert q in ps;
      assert InRect(q, x, y);
    }
  }

  function SumAreas(ps: seq<Rect>): real
    decreases |ps|
  {
    if ps == [] then 0.0 else SumAreas(ps[..|ps| - 1]) + Area(ps[|ps| - 1])
  }

  lemma SumAreasAppend(a: seq<Rect>, b: seq<Rect>)
    ensures SumAreas(a + b) == SumAreas(a) + SumAreas(b)
    decreases |b|
  {
    if b != [] {
      assert (a + b)[..|a + b| - 1] == a + b[..|b| - 1];
      SumAreasAppend(a, b[..|b| - 1]);
    } else {
      assert a + b == a;
    }
  }

  /** A strip that split_single omits would have had zero area. */
  function MaybeStrip(present: bool, r: Rect): seq<Rect> {
    if present then [r] else []
  }

  lemma SumMaybe(present: bool, r: Rect)
    requires !present ==> Area(r) == 0.0
    ensures SumAreas(MaybeStrip(present, r)) == Area(r)
  {
    if present {
      assert MaybeStrip(present, r)[..0] == [];
    }
  }

  /** When the cut lies inside `s`, every piece lies inside `s` and is well formed. */
  lemma PiecesInsideWhenCutInside(s: Rect, c: Rect)
    requires WellFormed(c) && Encloses(s, c)
    ensures forall p :: p in Pieces(s, c) ==> Encloses(s, p) && WellFormed(p)
  {
  }

  /** When the cut lies inside `s`, the pieces have pairwise disjoint interiors. */
  lemma PiecesDisjointWhenCutInside(s: Rect, c: Rect)
    requires WellFormed(c) && Encloses(s, c)
    ensures forall i, j :: 0 <= i < j < |Pieces(s, c)| ==>
      !InteriorsOverlap(Pieces(s, c)[i], Pieces(s, c)[j])
  {
    var ps := Pieces(s, c);
    forall i, j | 0 <= i < j < |ps|
      ensures !InteriorsOverlap(ps[i], ps[j])
    {
      // each later strip starts where an earlier one ends, on some axis
      assert ps[i].right <= ps[j].left || ps[j].top <= ps[i].bottom
        || ps[i].top <= ps[j].bottom || ps[j].right <= ps[i].left;
    }
  }

  /** When the cut lies inside `s`, the pieces' areas sum to area(s) - area(c). */
  lemma PiecesAreaWhenCutInside(s: Rect, c: Rect)
    requires WellFormed(c) && Encloses(s, c)
    ensures SumAreas(Pieces(s, c)) == Area(s) - Area(c)
  {
    var l := Rect(s.left, c.left, s.bottom, s.top);
    var r := Rect(c.right, s.right, s.bottom, s.top);
    var b := Rect(c.left, c.right, s.bottom, c.bottom);
    var t := Rect(c.left, c.right, c.top, s.top);
    var ml, mr, mb, mt := MaybeStrip(s.left < c.left, l), MaybeStrip(s.right > c.right, r),
      MaybeStrip(s.bottom < c.bottom, b), MaybeStrip(s.top > c.top, t);
    assert Pieces(s, c) == ml + mr + mb + mt;
    SumMaybe(s.left < c.left, l);
    SumMaybe(s.right > c.right, r);
    SumMaybe(s.bottom < c.bottom, b);
    SumMaybe(s.top > c.top, t);
    SumAreasAppend(ml + mr + mb, mt);
    SumAreasAppend(ml + mr, mb);
    SumAreasAppend(ml, mr);
    StripAreas(s, c);
  }

  lemma StripAreas(s: Rect, c: Rect)
    ensures Area(Rect(s.left, c.left, s.bottom, s.top)) + Area(Rect(c.right, s.right, s.bottom, s.top))
      + Area(Rect(c.left, c.right, s.bottom, c.bottom)) + Area(Rect(c.left, c.right, c.top, s.top))
      == Area(s) - Area(c)
  {
    var h, w := s.top - s.bottom, c.right - c.left;
    calc {
      (c.left - s.left) * h + (s.right - c.right) * h + w * (c.bottom - s.bottom) + w * (s.top - c.top);
      ((c.left - s.left) + (s.right - c.right)) * h + w * ((c.bottom - s.bottom) + (s.top - c.top));
      ((s.right - s.left) - w) * h + w * (h - (c.top - c.bottom));
      (s.right - s.left) * h - w * (c.top - c.bottom);
    }
  }

  /** Pieces are not clipped to `s`: a cut over a corner yields a strip reaching beyond `s`. */
  lemma PiecesMayLeaveSelf()
    ensures Pieces(Rect(0.0, 10.0, 0.0, 10.0), Rect(5.0, 20.0, 5.0, 20.0))
      == [Rect(0.0, 5.0, 0.0, 10.0), Rect(5.0, 20.0, 0.0, 5.0)]
    ensures !Encloses(Rect(0.0, 10.0, 0.0, 10.0), Rect(5.0, 20.0, 0.0, 5.0))
  {
  }

  /** One cut applied to one piece: its strips, or the piece itself when none fires. */
  function CutOne(p: Rect, c: Rect): seq<Rect> {
    if Pieces(p, c) == [] then [p] else Pieces(p, c)
  }

  /** One cut applied to every current piece, in order (the inner loop of split). */
  function CutAll(ps: seq<Rect>, c: Rect): seq<Rect>
    decreases |ps|
  {
    if ps == [] then [] else CutAll(ps[..|ps| - 1], c) + CutOne(ps[|ps| - 1], c)
  }

  /** `s` carved by each cut in turn (the outer loop of split). */
  function Carve(s: Rect, cuts: seq<Rect>): seq<Rect>
    decreases |cuts|
  {
    if cuts == [] then [s] else CutAll(Carve(s, cuts[..|cuts| - 1]), cuts[|cuts| - 1])
  }

  method Split(s: Rect, rects: seq<Rect>) returns (res: Option<seq<Rect>>)
    ensures res == Some(Carve(s, rects))
    ensures rects == [] ==> res == Some([s])
  {
    var result := [s];
    var i := 0;
    while i < |rects|
      invariant 0 <= i <= |rects|
      invariant result == Carve(s, rects[..i])
    {
      var rect := rects[i];
      var newResult: seq<Rect> := [];
      var k := 0;
      while k < |result|
        invariant 0 <= k <= |result|
        invariant newResult == CutAll(result[..k], rect)
      {
        assert result[..k + 1][..k] == result[..k];
        var pieces := SplitSingle(result[k], rect);
        match pieces {
          case Some(ps) => newResult := newResult + ps;
          case None => newResult := newResult + [result[k]];
        }
        k := k + 1;
      }
      assert result[..k] == result;
      assert rects[..i + 1][..i] == rects[..i];
      result := newResult;
      i := i + 1;
    }
    assert rects[..i] == rects;
    res := Some(result);
  }

  /** A cut never lowers the number of pieces. */
  lemma {:induction false} CutAllNeverShrinks(ps: seq<Rect>, c: Rect)
    ensures |CutAll(ps, c)| >= |ps|
    decreases |ps|
  {
    if ps != [] {
      CutAllNeverShrinks(ps[..|ps| - 1], c);
    }
  }

  /** The piece count never decreases across cuts, so split never returns an empty list. */
  lemma {:induction false} CarveNeverShrinks(s: Rect, cuts: seq<Rect>, i: nat)
    requires i <= |cuts|
    ensures 1 <= |Carve(s, cuts[..i])| <= |Carve(s, cuts)|
    decreases |cuts|
  {
    if i == |cuts| {
      assert cuts[..i] == cuts;
      if cuts != [] {
        CarveNeverShrinks(s, cuts[..|cuts| - 1], |cuts| - 1);
        assert cuts[..|cuts| - 1][..|cuts| - 1] == cuts[..|cuts| - 1];
        CutAllNeverShrinks(Carve(s, cuts[..|cuts| - 1]), cuts[|cuts| - 1]);
      }
    } else {
      var init := cuts[..|cuts| - 1];
      assert init[..i] == cuts[..i];
      CarveNeverShrinks(s, init, i);
      CutAllNeverShrinks(Carve(s, init), cuts[|cuts| - 1]);
    }
  }

  /**
   * Each piece after a cut either avoids the cut's interior, or is a piece from before
   * that the cut encloses, which is kept rather than dropped.
   */
  lemma {:induction false} CutAllPieces(ps: seq<Rect>, c: Rect, p: Rect)
    requires p in CutAll(ps, c)
    ensures !InteriorsOverlap(p, c) || (p in ps && Encloses(c, p))
    decreases |ps|
  {
    var init := ps[..|ps| - 1];
    var last := ps[|ps| - 1];
    if p in CutAll(init, c) {
      CutAllPieces(init, c, p);
      if p in init {
        assert p in ps;
      }
    } else {
      assert p in CutOne(last, c);
      if Pieces(last, c) == [] {
        assert p == last;
      } else {
        PiecesAvoidCut(last, c);
      }
    }
  }

  /** A point covered by some piece stays covered by cutting it by a rect whose closed box misses it. */
  lemma {:induction false} CutAllKeepsPoint(ps: seq<Rect>, c: Rect, x: real, y: real, k: nat)
    requires k < |ps| && InRect(ps[k], x, y) && !InRect(c, x, y)
    ensures exists p :: p in CutAll(ps, c) && InRect(p, x, y)
    decreases |ps|
  {
    var init := ps[..|ps| - 1];
    if k < |ps| - 1 {
      CutAllKeepsPoint(init, c, x, y, k);
      var p :| p in CutAll(init, c) && InRect(p, x, y);
      assert p in CutAll(ps, c);
    } else {
      var last := ps[k];
      if Pieces(last, c) == [] {
        assert last in CutOne(last, c);
        assert last in CutAll(ps, c);
      } else {
        PiecesCoverRest(last, c, x, y);
        var p :| p in Pieces(last, c) && InRect(p, x, y);
        assert p in CutAll(ps, c);
      }
    }
  }

  /** No area is lost: every point of `s` outside every cut's closed box lies in some carved piece. */
  lemma {:induction false} CarveCoversUncut(s: Rect, cuts: seq<Rect>, x: real, y: real)
    requires InRect(s, x, y)
    requires forall k :: 0 <= k < |cuts| ==> !InRect(cuts[k], x, y)
    ensures exists p :: p in Carve(s, cuts) && InRect(p, x, y)
    decreases |cuts|
  {
    if cuts == [] {
      assert s in Carve(s, cuts);
    } else {
      var init := cuts[..|cuts| - 1];
      CarveCoversUncut(s, init, x, y);
      var p :| p in Carve(s, init) && InRect(p, x, y);
      var k :| 0 <= k < |Carve(s, init)| && Carve(s, init)[k] == p;
      CutAllKeepsPoint(Carve(s, init), cuts[|cuts| - 1], x, y, k);
    }
  }

  /** A rect carved by itself is kept whole: split does not drop a fully covered piece. */
  lemma CarveBySelfKeepsSelf(s: Rect)
    ensures Carve(s, [s]) == [s]
  {
    assert [s][..0] == [];
    assert Carve(s, [s][..0]) == [s];
    assert Pieces(s, s) == [];
    assert CutOne(s, s) == [s];
    assert [s][..0] == [];
    assert CutAll([s], s) == CutAll([], s) + CutOne(s, s);
  }
}
