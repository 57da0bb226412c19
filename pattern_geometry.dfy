/** Ideal planar geometry of the calibration targets recognised by the pattern
    detector: the kinds of target, the layout rule of each kind, the row-major
    enumeration of a whole board, and its replication over a batch of images.
    Coordinates are exact reals; the source's single-precision floats are not
    modelled. */
module PatternGeometry {

  /** The unconditional target kinds (the tag-based grid exists only in builds
      with the CCTag extension and has no layout rule). */
  datatype Pattern = Chessboard | CirclesGrid | AsymmetricCirclesGrid

  /** Board dimensions as features per row (width = columns) and rows (height). */
  datatype Size = Size(width: int, height: int)

  /** A feature position in the target's own frame. */
  datatype Point3 = Point3(x: real, y: real, z: real)

  /** A detected feature position in image pixels; only counted and paired here. */
  datatype Point2 = Point2(x: real, y: real)

  datatype Option<T> = None | Some(value: T)

  /** Numeric value of each enumerator (CHESSBOARD = 0, then consecutive). */
  function PatternCode(p: Pattern): (c: int)
    ensures 0 <= c < 3
  {
    match p
    case Chessboard => 0
    case CirclesGrid => 1
    case AsymmetricCirclesGrid => 2
  }

  /** The enumerator with a given numeric value, if any. */
  function PatternOfCode(c: int): (r: Option<Pattern>)
    ensures r.Some? <==> 0 <= c < 3
  {
    if c == 0 then Some(Chessboard)
    else if c == 1 then Some(CirclesGrid)
    else if c == 2 then Some(AsymmetricCirclesGrid)
    else None
  }

  /** Decoding an enumerator's value gives back that enumerator. */
  lemma PatternCodeRoundTrip(p: Pattern)
    ensures PatternOfCode(PatternCode(p)) == Some(p)
  {
    match p
    case Chessboard =>
    case CirclesGrid =>
    case AsymmetricCirclesGrid =>
  }

  /** Every value that decodes is the value of the enumerator it decodes to:
      the three kinds are all there is. */
  lemma PatternOfCodeRoundTrip(c: int)
    requires PatternOfCode(c).Some?
    ensures PatternCode(PatternOfCode(c).value) == c
  {
    if c == 0 {
    } else if c == 1 {
    } else {
      assert c == 2;
    }
  }

  /** A board the generator accepts: at least one feature along each axis. */
  predicate ValidBoard(size: Size)
  {
    size.width >= 1 && size.height >= 1
  }

  /** Position of the feature in row `i`, column `j` for spacing `s`.
      Uniform grids place it at (j s, i s, 0); the asymmetric circles grid
      shifts odd rows by half a column pitch and halves the row pitch. */
  function Corner(pattern: Pattern, i: nat, j: nat, s: real): Point3
  {
    match pattern
    case Chessboard => Point3(j as real * s, i as real * s, 0.0)
    case CirclesGrid => Point3(j as real * s, i as real * s, 0.0)
    case AsymmetricCirclesGrid =>
      Point3(j as real * s + (if i % 2 == 1 then s / 2.0 else 0.0), i as real * s / 2.0, 0.0)
  }

  /** Row `i` of a board `w` features wide, left to right. */
  function Row(pattern: Pattern, i: nat, w: nat, s: real): seq<Point3>
  {
    seq(w, j requires 0 <= j < w => Corner(pattern, i, j, s))
  }

  /** The first `n` rows of a board `w` features wide, in row-major order. */
  function Rows(pattern: Pattern, w: nat, n: nat, s: real): (r: seq<Point3>)
    ensures |r| == n * w
    ensures forall k :: 0 <= k < |r| ==> r[k].z == 0.0
  {
    if n == 0 then [] else Rows(pattern, w, n - 1, s) + Row(pattern, n - 1, w, s)
  }

  /** All features of a board, row by row, each row by column. */
  function Corners(pattern: Pattern, size: Size, s: real): (r: seq<Point3>)
    requires ValidBoard(size)
    ensures |r| == size.width * size.height
    ensures forall k :: 0 <= k < |r| ==> r[k].z == 0.0
  {
    Rows(pattern, size.width, size.height, s)
  }

  lemma MulStrictBound(i: nat, n: nat, w: nat, j: nat)
    requires i < n && j < w
    ensures i * w + j < n * w
  {
    calc {
      i * w + j;
    <
      i * w + w;
    ==
      (i + 1) * w;
    <=
      { assert i + 1 <= n; }
      n * w;
    }
  }

  lemma MulMono(a: nat, b: nat, w: nat)
    requires a <= b
    ensures a * w <= b * w
  {
  }

  /** The feature in row `i`, column `j` sits at index `i * w + j` of the
      first `n` rows. */
  lemma {:induction false} RowsAt(pattern: Pattern, w: nat, n: nat, s: real, i: nat, j: nat)
    requires i < n && j < w
    ensures i * w + j < |Rows(pattern, w, n, s)|
    ensures Rows(pattern, w, n, s)[i * w + j] == Corner(pattern, i, j, s)
  {
    MulStrictBound(i, n, w, j);
    var prefix := Rows(pattern, w, n - 1, s);
    assert Rows(pattern, w, n, s) == prefix + Row(pattern, n - 1, w, s);
    if i < n - 1 {
      RowsAt(pattern, w, n - 1, s, i, j);
    } else {
      assert i * w + j - |prefix| == j;
    }
  }

  /** Row-major layout: index `i * width + j` holds the feature in row `i`,
      column `j`. */
  lemma CornersAt(pattern: Pattern, size: Size, s: real, i: nat, j: nat)
    requires ValidBoard(size)
    requires i < size.height && j < size.width
    ensures i * size.width + j < |Corners(pattern, size, s)|
    ensures Corners(pattern, size, s)[i * size.width + j] == Corner(pattern, i, j, s)
  {
    RowsAt(pattern, size.width, size.height, s, i, j);
  }

  /** Conversely, index `k` holds the feature in row `k / width`, column
      `k % width`. */
  lemma CornersIndex(pattern: Pattern, size: Size, s: real, k: nat)
    requires ValidBoard(size)
    requires k < size.width * size.height
    ensures k / size.width < size.height
    ensures Corners(pattern, size, s)[k] == Corner(pattern, k / size.width, k % size.width, s)
  {
    var w, h := size.width, size.height;
    var i, j := k / w, k % w;
    assert k == i * w + j;
    if i >= h {
      MulMono(h, i, w);
      assert false;
    }
    CornersAt(pattern, size, s, i, j);
  }

  /** Chessboards and uniform circles grids: the feature at index
      `i * width + j` is (j s, i s, 0). */
  lemma UniformCornerAt(pattern: Pattern, size: Size, s: real, i: nat, j: nat)
    requires pattern == Chessboard || pattern == CirclesGrid
    requires ValidBoard(size)
    requires i < size.height && j < size.width
    ensures i * size.width + j < size.width * size.height
    ensures Corners(pattern, size, s)[i * size.width + j]
         == Point3(j as real * s, i as real * s, 0.0)
  {
    CornersAt(pattern, size, s, i, j);
  }

  /** Asymmetric circles grid: the feature at index `i * width + j` is
      (j s + s/2 if i is odd, i s / 2, 0). */
  lemma StaggeredCornerAt(size: Size, s: real, i: nat, j: nat)
    requires ValidBoard(size)
    requires i < size.height && j < size.width
    ensures i * size.width + j < size.width * size.height
    ensures Corners(AsymmetricCirclesGrid, size, s)[i * size.width + j]
         == Point3(j as real * s + (if i % 2 == 1 then s / 2.0 else 0.0), i as real * s / 2.0, 0.0)
  {
    CornersAt(AsymmetricCirclesGrid, size, s, i, j);
  }

  /** Chessboards and uniform circles grids have the same layout. */
  lemma {:induction false} UniformKindsAgree(w: nat, n: nat, s: real)
    ensures Rows(Chessboard, w, n, s) == Rows(CirclesGrid, w, n, s)
  {
    if n > 0 {
      UniformKindsAgree(w, n - 1, s);
      assert Row(Chessboard, n - 1, w, s) == Row(CirclesGrid, n - 1, w, s);
    }
  }

  /** A one-feature board is the single origin point, whatever the kind. */
  lemma SingleCornerBoard(pattern: Pattern, s: real)
    ensures Corners(pattern, Size(1, 1), s) == [Point3(0.0, 0.0, 0.0)]
  {
    CornersAt(pattern, Size(1, 1), s, 0, 0);
  }

  /** A 3-wide, 2-high chessboard with spacing 10. */
  lemma ChessboardExample()
    ensures Corners(Chessboard, Size(3, 2), 10.0)
         == [Point3(0.0, 0.0, 0.0), Point3(10.0, 0.0, 0.0), Point3(20.0, 0.0, 0.0),
             Point3(0.0, 10.0, 0.0), Point3(10.0, 10.0, 0.0), Point3(20.0, 10.0, 0.0)]
  {
    CornersAt(Chessboard, Size(3, 2), 10.0, 0, 0);
    CornersAt(Chessboard, Size(3, 2), 10.0, 0, 1);
    CornersAt(Chessboard, Size(3, 2), 10.0, 0, 2);
    CornersAt(Chessboard, Size(3, 2), 10.0, 1, 0);
    CornersAt(Chessboard, Size(3, 2), 10.0, 1, 1);
    CornersAt(Chessboard, Size(3, 2), 10.0, 1, 2);
  }

  /** A 2-by-2 asymmetric circles grid with spacing 4. */
  lemma StaggeredExample()
    ensures Corners(AsymmetricCirclesGrid, Size(2, 2), 4.0)
         == [Point3(0.0, 0.0, 0.0), Point3(4.0, 0.0, 0.0),
             Point3(2.0, 2.0, 0.0), Point3(6.0, 2.0, 0.0)]
  {
    CornersAt(AsymmetricCirclesGrid, Size(2, 2), 4.0, 0, 0);
    CornersAt(AsymmetricCirclesGrid, Size(2, 2), 4.0, 0, 1);
    CornersAt(AsymmetricCirclesGrid, Size(2, 2), 4.0, 1, 0);
    CornersAt(AsymmetricCirclesGrid, Size(2, 2), 4.0, 1, 1);
  }

  /** Row and column of the feature at a given position: the inverse of the
      layout rule. */
  function Locate(pattern: Pattern, s: real, p: Point3): (int, int)
    requires s > 0.0
  {
    match pattern
    case Chessboard => ((p.y / s).Floor, (p.x / s).Floor)
    case CirclesGrid => ((p.y / s).Floor, (p.x / s).Floor)
    case AsymmetricCirclesGrid =>
      var i := (2.0 * p.y / s).Floor;
      (i, ((p.x - (if i % 2 == 1 then s / 2.0 else 0.0)) / s).Floor)
  }

  lemma ScaleBack(n: nat, s: real)
    requires s > 0.0
    ensures (n as real * s) / s == n as real
  {
  }

  /** Every feature's position gives back its row and column: no two grid
      cells share a position. */
  lemma LocateCorner(pattern: Pattern, s: real, i: nat, j: nat)
    requires s > 0.0
    ensures Locate(pattern, s, Corner(pattern, i, j, s)) == (i, j)
  {
    var p := Corner(pattern, i, j, s);
    ScaleBack(j, s);
    match pattern
    case Chessboard =>
      ScaleBack(i, s);
    case CirclesGrid =>
      ScaleBack(i, s);
    case AsymmetricCirclesGrid =>
      assert 2.0 * p.y == i as real * s;
      ScaleBack(i, s);
      assert (2.0 * p.y / s).Floor == i;
      assert p.x - (if i % 2 == 1 then s / 2.0 else 0.0) == j as real * s;
  }

  /** Row-major index of the feature at a given position on a board. */
  function IndexOf(pattern: Pattern, size: Size, s: real, p: Point3): int
    requires s > 0.0
  {
    var (i, j) := Locate(pattern, s, p);
    i * size.width + j
  }

  /** The position stored at index `k` leads back to `k`: the enumeration is
      a bijection between indices and feature positions. */
  lemma CornersIndexRoundTrip(pattern: Pattern, size: Size, s: real, k: nat)
    requires ValidBoard(size) && s > 0.0
    requires k < size.width * size.height
    ensures IndexOf(pattern, size, s, Corners(pattern, size, s)[k]) == k
  {
    CornersIndex(pattern, size, s, k);
    LocateCorner(pattern, s, k / size.width, k % size.width);
  }

  /** No two indices of a board hold the same position. */
  lemma CornersDistinct(pattern: Pattern, size: Size, s: real, a: nat, b: nat)
    requires ValidBoard(size) && s > 0.0
    requires a < b < size.width * size.height
    ensures Corners(pattern, size, s)[a] != Corners(pattern, size, s)[b]
  {
    CornersIndexRoundTrip(pattern, size, s, a);
    CornersIndexRoundTrip(pattern, size, s, b);
  }

  /** One copy of the board's features per observed image, in image order. */
  function ObjectPoints(pattern: Pattern, size: Size, s: real, imagePoints: seq<seq<Point2>>): seq<seq<Point3>>
    requires ValidBoard(size)
  {
    if |imagePoints| == 0 then []
    else ObjectPoints(pattern, size, s, imagePoints[..|imagePoints| - 1]) + [Corners(pattern, size, s)]
  }

  /** The batch has one entry per image, and every entry is the board's
      feature set. */
  lemma {:induction false} ObjectPointsShape(pattern: Pattern, size: Size, s: real, imagePoints: seq<seq<Point2>>)
    requires ValidBoard(size)
    ensures |ObjectPoints(pattern, size, s, imagePoints)| == |imagePoints|
    ensures forall k :: 0 <= k < |imagePoints| ==>
              ObjectPoints(pattern, size, s, imagePoints)[k] == Corners(pattern, size, s)
  {
    if |imagePoints| > 0 {
      ObjectPointsShape(pattern, size, s, imagePoints[..|imagePoints| - 1]);
    }
  }

  /** Only the number of images matters, never their detected coordinates. */
  lemma ObjectPointsIgnoreCoordinates(pattern: Pattern, size: Size, s: real, a: seq<seq<Point2>>, b: seq<seq<Point2>>)
    requires ValidBoard(size)
    requires |a| == |b|
    ensures ObjectPoints(pattern, size, s, a) == ObjectPoints(pattern, size, s, b)
  {
    ObjectPointsShape(pattern, size, s, a);
    ObjectPointsShape(pattern, size, s, b);
  }

  /** When every image delivered a full board, each object set pairs
      point for point with its image set. */
  lemma ObjectPointsPaired(pattern: Pattern, size: Size, s: real, imagePoints: seq<seq<Point2>>)
    requires ValidBoard(size)
    requires forall k :: 0 <= k < |imagePoints| ==> |imagePoints[k]| == size.width * size.height
    ensures |ObjectPoints(pattern, size, s, imagePoints)| == |imagePoints|
    ensures forall k :: 0 <= k < |imagePoints| ==>
              |ObjectPoints(pattern, size, s, imagePoints)[k]| == |imagePoints[k]|
  {
    ObjectPointsShape(pattern, size, s, imagePoints);
  }
}
