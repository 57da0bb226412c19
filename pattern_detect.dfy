/** The generator and the batch builder as the detector's callers use them:
    each fills a fresh output sequence with nested loops. */
module PatternDetect {
  import opened PatternGeometry

  /** Ideal positions of all features of one board, rows outermost. */
  method CalcChessboardCorners(boardSize: Size, squareSize: real, pattern: Pattern)
    returns (corners: seq<Point3>)
    requires ValidBoard(boardSize) && squareSize > 0.0
    ensures corners == Corners(pattern, boardSize, squareSize)
  {
    corners := [];
    var i := 0;
    while i < boardSize.height
      invariant 0 <= i <= boardSize.height
      invariant corners == Rows(pattern, boardSize.width, i, squareSize)
    {
      var j := 0;
      while j < boardSize.width
        invariant 0 <= j <= boardSize.width
        invariant corners == Rows(pattern, boardSize.width, i, squareSize) + Row(pattern, i, j, squareSize)
      {
        corners := corners + [Corner(pattern, i, j, squareSize)];
        j := j + 1;
      }
      i := i + 1;
    }
  }

  /** One copy of the board's features for every observed image. */
  method ComputeObjectPoints(boardSize: Size, pattern: Pattern, squareSize: real,
                             imagePoints: seq<seq<Point2>>)
    returns (objectPoints: seq<seq<Point3>>)
    requires ValidBoard(boardSize) && squareSize > 0.0
    ensures objectPoints == ObjectPoints(pattern, boardSize, squareSize, imagePoints)
  {
    var template := CalcChessboardCorners(boardSize, squareSize, pattern);
    objectPoints := [];
    var k := 0;
    while k < |imagePoints|
      invariant 0 <= k <= |imagePoints|
      invariant objectPoints == ObjectPoints(pattern, boardSize, squareSize, imagePoints[..k])
    {
      assert imagePoints[..k + 1][..k] == imagePoints[..k];
      objectPoints := objectPoints + [template];
      k := k + 1;
    }
    assert imagePoints[..k] == imagePoints;
  }
}
