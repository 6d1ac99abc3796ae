/** samples/zhangsuen.go: the per-pixel deletion tests of Zhang and Suen's
    parallel thinning algorithm (Communications of the ACM 27(3), 1984).
    Neighbours are numbered as in the paper: n[0] is the pixel itself,
    n[1..8] run clockwise from north: N, NE, E, SE, S, SW, W, NW. */
module ZhangSuen {

  type byte = x: int | 0 <= x < 256

  /** A single-channel 8-bit image, rows of `width` pixels; the Sample's
      Height() and Width() are those of its matrix. */
  datatype Image = Image(height: nat, width: nat, at: seq<seq<byte>>)

  predicate ValidImage(img: Image)
  {
    |img.at| == img.height && forall r :: 0 <= r < img.height ==> |img.at[r]| == img.width
  }

  /** The reference reading of one pixel: set when its value is non-zero,
      and unset outside the image. */
  function Pixel(img: Image, r: int, c: int): bool
    requires ValidImage(img)
  {
    0 <= r < img.height && 0 <= c < img.width && img.at[r][c] > 0
  }

  /** getNeighbours(sample, row, col), as written: the neighbour rows and
      columns are clamped to the image, and each neighbour is read only in
      the branch for a row or column that is not on the border. The east
      and west neighbours are read only inside the two row branches. */
  function GetNeighbours(img: Image, row: int, col: int): (n: seq<bool>)
    requires ValidImage(img) && 0 <= row < img.height && 0 <= col < img.width
    ensures |n| == 9
  {
    var y0 := if row - 1 < 0 then 0 else row - 1;
    var y1 := if row + 1 >= img.height then img.height - 1 else row + 1;
    var x0 := if col - 1 < 0 then 0 else col - 1;
    var x1 := if col + 1 >= img.width then img.width - 1 else col + 1;
    var p1 := img.at[row][col] > 0;
    var below := row != img.height - 1;
    var above := row != 0;
    var left := col != 0;
    var right := col != img.width - 1;
    var p6 := below && img.at[y1][col] > 0;
    var p7 := below && left && img.at[y1][x0] > 0;
    var p5 := below && right && img.at[y1][x1] > 0;
    var p2 := above && img.at[y0][col] > 0;
    var p9 := above && left && img.at[y0][x0] > 0;
    var p3 := above && right && img.at[y0][x1] > 0;
    var p8 := (below || above) && left && img.at[row][x0] > 0;
    var p4 := (below || above) && right && img.at[row][x1] > 0;
    [p1, p2, p3, p4, p5, p6, p7, p8, p9]
  }

  /** The neighbourhood as the algorithm defines it, every neighbour read
      with `Pixel`. */
  function ReferenceNeighbours(img: Image, row: int, col: int): seq<bool>
    requires ValidImage(img)
  {
    [Pixel(img, row, col), Pixel(img, row - 1, col), Pixel(img, row - 1, col + 1),
     Pixel(img, row, col + 1), Pixel(img, row + 1, col + 1), Pixel(img, row + 1, col),
     Pixel(img, row + 1, col - 1), Pixel(img, row, col - 1), Pixel(img, row - 1, col - 1)]
  }

  /** In an image of two or more rows getNeighbours reads exactly the
      reference neighbourhood, out-of-image neighbours being unset. */
  lemma NeighboursAreReference(img: Image, row: int, col: int)
    requires ValidImage(img) && 0 <= row < img.height && 0 <= col < img.width
    requires img.height >= 2
    ensures GetNeighbours(img, row, col) == ReferenceNeighbours(img, row, col)
  {
  }

  /** In a one-row image the east and west neighbours are never read: they
      are unset even where the pixels beside the centre are set; the other
      seven entries still follow the reference. */
  lemma OneRowLosesEastWest(img: Image, col: int)
    requires ValidImage(img) && img.height == 1 && 0 <= col < img.width
    ensures !GetNeighbours(img, 0, col)[3] && !GetNeighbours(img, 0, col)[7]
    ensures forall i :: 0 <= i < 9 && i != 3 && i != 7 ==>
      GetNeighbours(img, 0, col)[i] == ReferenceNeighbours(img, 0, col)[i]
  {
  }

  // ---- Counting ----

  /** The number of set-then-unset steps between consecutive entries. */
  function Falls(s: seq<bool>): nat
  {
    if |s| < 2 then 0 else (if s[0] && !s[1] then 1 else 0) + Falls(s[1..])
  }

  /** The number of unset-then-set steps between consecutive entries. */
  function Rises(s: seq<bool>): nat
  {
    if |s| < 2 then 0 else (if !s[0] && s[1] then 1 else 0) + Rises(s[1..])
  }

  /** The number of entries equal to b. */
  function Count(s: seq<bool>, b: bool): nat
  {
    if s == [] then 0 else (if s[0] == b then 1 else 0) + Count(s[1..], b)
  }

  /** The cycle n[1], ..., n[8], n[1] around the centre. */
  function Cycle(n: seq<bool>): (c: seq<bool>)
    requires |n| == 9
    ensures |c| == 9 && c[0] == c[8]
  {
    n[1..] + [n[1]]
  }

  /** transitions(n): the set-to-unset steps around the cycle. */
  function Transitions(n: seq<bool>): nat
    requires |n| == 9
  {
    Falls(Cycle(n))
  }

  /** nonZero(n): despite its name, the number of UNSET neighbours. */
  function NonZero(n: seq<bool>): nat
    requires |n| == 9
  {
    Count(n[1..], false)
  }

  /** Along any sequence, falls and rises differ only by where it starts
      and ends. */
  lemma {:induction false} FallsMinusRises(s: seq<bool>)
    requires |s| >= 1
    ensures Falls(s) as int - Rises(s) as int ==
            (if s[0] then 1 else 0) - (if s[|s| - 1] then 1 else 0)
  {
    if |s| >= 2 {
      FallsMinusRises(s[1..]);
    }
  }

  /** No two falls are adjacent, so a sequence has at most half its length
      in falls. */
  lemma {:induction false} FallsAtMostHalf(s: seq<bool>)
    ensures 2 * Falls(s) <= |s|
  {
    if |s| >= 2 {
      if s[0] && !s[1] {
        if |s| >= 3 {
          FallsAtMostHalf(s[2..]);
          assert s[1..][1..] == s[2..];
        }
      } else {
        FallsAtMostHalf(s[1..]);
      }
    }
  }

  /** There are as many unset-to-set as set-to-unset steps around the
      cycle, and at most four of each. */
  lemma TransitionsBounds(n: seq<bool>)
    requires |n| == 9
    ensures Transitions(n) == Rises(Cycle(n))
    ensures Transitions(n) <= 4
  {
    FallsMinusRises(Cycle(n));
    FallsAtMostHalf(Cycle(n));
  }

  /** Every entry is either set or unset. */
  lemma {:induction false} CountSplits(s: seq<bool>)
    ensures Count(s, false) + Count(s, true) == |s|
  {
    if s != [] {
      CountSplits(s[1..]);
    }
  }

  /** The unset count and the set count of the eight neighbours add up to
      8, so the window 2 <= b <= 6 on unset neighbours is the same window on
      set neighbours. */
  lemma NonZeroIsBackground(n: seq<bool>)
    requires |n| == 9
    ensures NonZero(n) + Count(n[1..], true) == 8
    ensures 2 <= NonZero(n) <= 6 <==> 2 <= Count(n[1..], true) <= 6
  {
    CountSplits(n[1..]);
  }

  // ---- Deletion tests ----

  /** basicConditionsMet(n). */
  predicate BasicConditionsMet(n: seq<bool>)
    requires |n| == 9
  {
    n[0] && 2 <= NonZero(n) <= 6 && Transitions(n) == 1
  }

  /** A background pixel, an isolated pixel, a pixel with a single set
      neighbour (a line end) and a pixel with all eight neighbours set (an
      interior pixel) never qualify. */
  lemma BasicConditionsExclude(n: seq<bool>)
    requires |n| == 9
    ensures !n[0] ==> !BasicConditionsMet(n)
    ensures Count(n[1..], true) <= 1 ==> !BasicConditionsMet(n)
    ensures Count(n[1..], true) == 8 ==> !BasicConditionsMet(n)
  {
    NonZeroIsBackground(n);
  }

  /** Step1ConditionsMet(sample, row, col). */
  predicate Step1ConditionsMet(img: Image, row: int, col: int)
    requires ValidImage(img) && 0 <= row < img.height && 0 <= col < img.width
  {
    var n := GetNeighbours(img, row, col);
    BasicConditionsMet(n) && !(n[1] && n[3] && n[5]) && !(n[3] && n[5] && n[7])
  }

  /** Step2ConditionsMet(sample, row, col). */
  predicate Step2ConditionsMet(img: Image, row: int, col: int)
    requires ValidImage(img) && 0 <= row < img.height && 0 <= col < img.width
  {
    var n := GetNeighbours(img, row, col);
    BasicConditionsMet(n) && !(n[1] && n[3] && n[7]) && !(n[1] && n[5] && n[7])
  }

  /** The first sub-iteration removes south-east boundary pixels and
      north-west corners: E or S unset, or both N and W unset. The second
      removes north-west boundary pixels and south-east corners. */
  lemma StepsRemoveBoundaries(img: Image, row: int, col: int)
    requires ValidImage(img) && 0 <= row < img.height && 0 <= col < img.width
    ensures var n := GetNeighbours(img, row, col);
      Step1ConditionsMet(img, row, col) <==>
        BasicConditionsMet(n) && (!n[3] || !n[5] || (!n[1] && !n[7]))
    ensures var n := GetNeighbours(img, row, col);
      Step2ConditionsMet(img, row, col) <==>
        BasicConditionsMet(n) && (!n[1] || !n[7] || (!n[3] && !n[5]))
  {
  }
}
