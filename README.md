# Calibration target geometry

This project models the calibration-target geometry of the pattern detector
(`openMVG::patternDetect`). For a target kind, a board size and a square size,
it gives the ideal planar 3-D position of every feature on the target. It also
models the batch builder, which repeats that point set once per image whose
2-D features were detected.

- `PatternGeometry` holds the values and the specification. It has the three
  target kinds and their numeric values, the board size (width = columns,
  height = rows), 2-D and 3-D points, and the layout rule `Corner`. `Rows`
  and `Corners` give the row-major enumeration of a board, and
  `ObjectPoints` gives the per-image batch. The lemmas state the layout at
  each index, planarity, the worked examples, that the enumeration can be
  inverted, and the shape of the batch.
- `PatternDetect` holds `calcChessboardCorners` and `computeObjectPoints` as
  methods. Each builds its output with the source's loops: rows outside,
  columns inside, then one loop over the images. Each is proved equal to its
  specification function.

Layout rule, with row `i`, column `j` and spacing `s`:

- chessboard and circles grid: `(j*s, i*s, 0)`;
- asymmetric circles grid: `(j*s + (s/2 if i is odd), i*s/2, 0)`.

The header declares both operations without bodies. The layout above is the
documented design of this component. In the source, both operations write
into caller-owned output vectors. Here those vectors are the methods' return
values. Each output is therefore built from empty, and nothing the caller's
vector held before can remain in it.

## Model

| member | source | states |
|---|---|---|
| PatternGeometry.PatternCode | src/openMVG/calibration/patternDetect.hpp:9-17 | each target kind has a numeric value in 0..2 |
| PatternGeometry.PatternOfCode | src/openMVG/calibration/patternDetect.hpp:9-17 | a number names a target kind exactly when it is 0, 1 or 2 (the tag grid is not built) |
| PatternGeometry.PatternCodeRoundTrip | src/openMVG/calibration/patternDetect.hpp:9-17 | decoding a kind's value gives back that kind |
| PatternGeometry.PatternOfCodeRoundTrip | src/openMVG/calibration/patternDetect.hpp:9-17 | every value that decodes belongs to the kind it decodes to, so the three kinds are the whole set |
| PatternGeometry.Rows | src/openMVG/calibration/patternDetect.hpp:38-39 | the first n rows of a w-wide board hold n*w points, all with z = 0 |
| PatternGeometry.Corners | src/openMVG/calibration/patternDetect.hpp:30-39 | a board yields exactly width*height features, every one with z = 0 (planar target) |
| PatternGeometry.RowsAt | src/openMVG/calibration/patternDetect.hpp:38-39 | in the first n rows, index i*w + j holds the feature of row i, column j |
| PatternGeometry.CornersAt | src/openMVG/calibration/patternDetect.hpp:38-39 | row-major order: index i*width + j holds the feature of row i, column j |
| PatternGeometry.CornersIndex | src/openMVG/calibration/patternDetect.hpp:38-39 | index k holds the feature of row k / width, column k % width, and that row is on the board |
| PatternGeometry.UniformCornerAt | src/openMVG/calibration/patternDetect.hpp:38-39 | chessboard and circles grid: index i*width + j is (j*s, i*s, 0) |
| PatternGeometry.StaggeredCornerAt | src/openMVG/calibration/patternDetect.hpp:38-39 | asymmetric circles grid: index i*width + j is (j*s + s/2 if i is odd, i*s/2, 0) |
| PatternGeometry.UniformKindsAgree | src/openMVG/calibration/patternDetect.hpp:38-39 | chessboards and circles grids of the same size and spacing have identical layouts |
| PatternGeometry.SingleCornerBoard | src/openMVG/calibration/patternDetect.hpp:38-39 | a 1x1 board is the single point (0,0,0) for every kind |
| PatternGeometry.ChessboardExample | src/openMVG/calibration/patternDetect.hpp:38-39 | a 3-wide, 2-high chessboard with s = 10 is (0,0,0), (10,0,0), (20,0,0), (0,10,0), (10,10,0), (20,10,0) |
| PatternGeometry.StaggeredExample | src/openMVG/calibration/patternDetect.hpp:38-39 | a 2x2 asymmetric grid with s = 4 is (0,0,0), (4,0,0), (2,2,0), (6,2,0) |
| PatternGeometry.LocateCorner | src/openMVG/calibration/patternDetect.hpp:38-39 | for s > 0, a feature's position gives back its row and column, so the layout rule is one-to-one |
| PatternGeometry.CornersIndexRoundTrip | src/openMVG/calibration/patternDetect.hpp:38-39 | for s > 0, the position stored at index k leads back to k, so positions and indices correspond one to one |
| PatternGeometry.CornersDistinct | src/openMVG/calibration/patternDetect.hpp:38-39 | for s > 0, no two indices of a board hold the same position |
| PatternGeometry.ObjectPointsShape | src/openMVG/calibration/patternDetect.hpp:41-54 | the batch has one entry per image, and every entry equals the board's feature set |
| PatternGeometry.ObjectPointsIgnoreCoordinates | src/openMVG/calibration/patternDetect.hpp:50-54 | two image batches of the same length give the same object batch, so detected coordinates never affect the output |
| PatternGeometry.ObjectPointsPaired | src/openMVG/calibration/patternDetect.hpp:41-54 | when every image gave width*height points, each object set is as long as its paired image set |
| PatternDetect.CalcChessboardCorners | src/openMVG/calibration/patternDetect.hpp:30-39 | the nested row/column loops produce exactly `Corners` for the kind, size and spacing, with nothing from earlier contents |
| PatternDetect.ComputeObjectPoints | src/openMVG/calibration/patternDetect.hpp:41-54 | the per-image loop produces exactly `ObjectPoints`: one copy of the board per entry of the image batch |

Both methods return a value fixed by their arguments alone, so two calls with
the same arguments give the same sequence.

## Left out

- `findPattern` (patternDetect.hpp:28) is not modelled. It is an OpenCV detector over a grayscale image, and its output order is a contract with that library.
- The tag-based grid kind (`CCTAG_GRID`) exists only in builds with the CCTag extension. It has no layout rule, so it is not modelled.
- Single-precision floats (`float squareSize`, `cv::Point3f`) are modelled as exact reals. Rounding is not modelled.
- The OpenCV types `cv::Size`, `cv::Point2f` and `cv::Point3f` are replaced by plain datatypes.
- PatternDetect.CalcChessboardCorners: a board with a zero or negative side, or a non-positive square size, is excluded by the precondition. The model does not report it as an invalid configuration, because the header documents no error path for it.
- PatternDetect.ComputeObjectPoints: the same precondition applies. It does not check that each image set has width*height points, and neither does the source. `ObjectPointsPaired` states the pairing under that assumption.
- The model cannot check that the external detector returns its points in the same row-major order. `CornersAt` states the order it must match.
- src/aliceVision/exif/sensorWidthDatabase/parseDatabase_test.cpp is not part of this model. It is a test file whose cases read a sensor database from disk.
