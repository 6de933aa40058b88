/**
 What the arithmetic of `pixel_lines` means on the screen: pixels, pixel rows and centres.
 */
module PixelGeometry {
  import opened PixelLines
  import opened Common
  import opened Sorting

  /** The pixel rows from `a` up to `b`. */
  function PixelRows(a: int, b: int): (r: set<int>)
    ensures |r| == if a < b then b - a else 0
    ensures forall y: int :: y in r <==> a <= y < b
    decreases b - a
  {
    if a >= b then {} else PixelRows(a, b - 1) + {b - 1}
  }

  predicate WordHas(w: Word, x: int, y: int) { w.x <= x < w.x + w.width && w.y <= y < w.y + w.height }
  predicate RectangleHas(r: Rectangle, x: int, y: int) { r.left <= x < r.right && r.top <= y < r.bottom }

  /** A word lies inside when it has pixels and all of them do. */
  lemma InsideExactly(w: Word, r: Rectangle)
    ensures Inside(w, r) <==>
      && w.width > 0 && w.height > 0
      && forall x, y :: WordHas(w, x, y) ==> RectangleHas(r, x, y)
  {
    if w.width > 0 && w.height > 0 && forall x, y :: WordHas(w, x, y) ==> RectangleHas(r, x, y) {
      assert WordHas(w, w.x, w.y) && WordHas(w, w.x + w.width - 1, w.y + w.height - 1);
    }
  }

  /** It touches a rectangle when they share a pixel. */
  lemma TouchesExactly(w: Word, r: Rectangle)
    requires w.width > 0 && w.height > 0 && r.left < r.right && r.top < r.bottom
    ensures Touches(w, r) <==> exists x, y :: WordHas(w, x, y) && RectangleHas(r, x, y)
  {
    if Touches(w, r) {
      var x, y := if w.x < r.left then r.left else w.x, if w.y < r.top then r.top else w.y;
      assert WordHas(w, x, y) && RectangleHas(r, x, y);
    }
  }

  /** A row of the table counts when it is a word with text whose pixels all lie inside the
      bounds and none in an excluded rectangle. */
  lemma CountsExactly(row: Row, bounds: Rectangle, excluded: seq<Rectangle>)
    requires forall i | 0 <= i < |excluded| ::
      excluded[i].left < excluded[i].right && excluded[i].top < excluded[i].bottom
    ensures Counts(row, bounds, excluded) <==>
      && row.level == "5" && !row.blank && row.word.width > 0 && row.word.height > 0
      && forall x, y | WordHas(row.word, x, y) ::
           RectangleHas(bounds, x, y) && forall i | 0 <= i < |excluded| :: !RectangleHas(excluded[i], x, y)
  {
    InsideExactly(row.word, bounds);
    if row.word.width > 0 && row.word.height > 0 {
      forall i | 0 <= i < |excluded|
        ensures Touches(row.word, excluded[i])
          <==> exists x, y :: WordHas(row.word, x, y) && RectangleHas(excluded[i], x, y)
      {
        TouchesExactly(row.word, excluded[i]);
      }
    }
  }

  /** A word overlaps a line when they share at least six tenths of the pixel rows of the one
      that has fewer. */
  lemma OverlapsExactly(line: seq<Word>, w: Word)
    requires line != [] && w.height > 0 && Top(line) < Bottom(line)
    ensures
      var rows, extent := PixelRows(w.y, w.y + w.height), PixelRows(Top(line), Bottom(line));
      Overlaps(line, w) <==> 10 * |rows * extent| >= 6 * (if |rows| < |extent| then |rows| else |extent|)
  {
    var rows, extent := PixelRows(w.y, w.y + w.height), PixelRows(Top(line), Bottom(line));
    var from, to := Max(Top(line), w.y), Min(Bottom(line), w.y + w.height);
    assert rows * extent == PixelRows(from, to);
  }

  /** The distance is twice that of the centres. */
  lemma DistanceExactly(line: seq<Word>, w: Word)
    requires line != []
    ensures
      var line', word := (Top(line) + Bottom(line)) as real / 2.0, w.y as real + w.height as real / 2.0;
      Distance(line, w) as real / 2.0 == if line' < word then word - line' else line' - word
  {
  }

  /** Line `c` is the first of the nearest ones that the word overlaps. */
  predicate Nearest(lines: Lines, w: Word, c: nat) {
    && c < |lines| && Overlaps(lines[c], w)
    && forall i | 0 <= i < |lines| && Overlaps(lines[i], w) ::
         Distance(lines[c], w) < Distance(lines[i], w) || (Distance(lines[c], w) == Distance(lines[i], w) && c <= i)
  }

  /** A word joins that line, and begins a new one when it overlaps none. */
  lemma PlacedExactly(lines: Lines, w: Word)
    ensures (forall i | 0 <= i < |lines| :: !Overlaps(lines[i], w)) ==> Placed(lines, w) == lines + [[w]]
    ensures (exists i | 0 <= i < |lines| :: Overlaps(lines[i], w)) ==> exists c: nat :: Nearest(lines, w, c)
    ensures forall c: nat | Nearest(lines, w, c) :: Placed(lines, w) == lines[c := lines[c] + [w]]
  {
    var choice := Smallest(Offers(lines, w), |lines|);
    SmallestIsNearest(lines, w);
    forall c: nat | Nearest(lines, w, c) ensures choice == Some(c) { NearestIsSmallest(lines, w, c); }
  }

  lemma SmallestIsNearest(lines: Lines, w: Word)
    ensures
      var choice := Smallest(Offers(lines, w), |lines|);
      if choice.Some? then Nearest(lines, w, choice.value)
      else forall i | 0 <= i < |lines| :: !Overlaps(lines[i], w)
  {
    var offers := Offers(lines, w);
    forall i | 0 <= i < |lines|
      ensures offers[i] == if Overlaps(lines[i], w) then Some(Distance(lines[i], w)) else None
    {
    }
  }

  lemma NearestIsSmallest(lines: Lines, w: Word, c: nat)
    requires Nearest(lines, w, c)
    ensures Smallest(Offers(lines, w), |lines|) == Some(c)
  {
    var choice := Smallest(Offers(lines, w), |lines|);
    SmallestIsNearest(lines, w);
    assert choice.Some?;
    assert Overlaps(lines[choice.value], w) && Overlaps(lines[c], w);
  }

  /** The words are placed from the top down, and in one row from left to right. */
  lemma PlacedInOrder(words: seq<Word>)
    ensures multiset(Sorted(words, Above)) == multiset(words)
    ensures forall i, j | 0 <= i < j < |words| ::
      var a, b := Sorted(words, Above)[i], Sorted(words, Above)[j];
      a.y < b.y || (a.y == b.y && a.x <= b.x)
  {
    assert TotalPreorder(Above);
    SortedIsOrdered(words, Above);
    forall i, j | 0 <= i < j < |words| ensures Above(Sorted(words, Above)[i], Sorted(words, Above)[j]) {}
  }
}
