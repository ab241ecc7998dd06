/** Day 8: an image arrives as a flat run of digits and is cut into layers
    of h rows by w columns. The checksum counts digits in one layer; the
    rendered image takes, at every pixel, the first layer that is not
    transparent (digit 2) there. */
module Image {
  import opened Num

  /** A layer is a list of rows. */
  type Layer = seq<seq<int>>

  /** The layer has h rows of exactly w cells. */
  predicate Shaped(l: Layer, w: nat, h: nat) {
    |l| == h && forall i :: 0 <= i < h ==> |l[i]| == w
  }

  /** The cells of row i and column j (j < w) of an h by w grid, in row
      order, sit at i * w + j; the mapping is one to one and onto the
      indices below w * h. */
  lemma CellIndex(w: nat, h: nat, i: nat, j: nat)
    requires i < h && j < w
    ensures i * w + j < w * h
    ensures (i * w + j) / w == i && (i * w + j) % w == j
  {
    DivModUnique(i * w + j, w, i, j);
    MulAtLeast(h - i, w);
    assert (h - i) * w == h * w - i * w;
  }

  lemma CellOf(w: nat, h: nat, n: nat)
    requires n < w * h
    ensures w > 0 && n / w < h && n % w < w
  {
    if n / w >= h {
      MulAtLeast(n / w - h + 1, w);
    }
  }

  /** The rows laid end to end. */
  function Flatten(l: Layer): (s: seq<int>)
    decreases |l|
  {
    if l == [] then [] else Flatten(l[..|l| - 1]) + l[|l| - 1]
  }

  /** Digit m of nums sits in the layer at row m / w, column m % w. */
  predicate Holds(layer: Layer, w: nat, h: nat, nums: seq<int>, m: nat) {
    Shaped(layer, w, h) && m < |nums| && w > 0 && m / w < h && m % w < w && layer[m / w][m % w] == nums[m]
  }

  /** The first n digits of nums are in place. */
  predicate CutUpTo(layer: Layer, w: nat, h: nat, nums: seq<int>, n: nat) {
    Shaped(layer, w, h) && n <= |nums| && forall m :: 0 <= m < n ==> Holds(layer, w, h, nums, m)
  }

  /** NewLayer: h rows of w zeroes, then nums[n] written to row n / w and
      column n % w for every n below w * h. */
  method NewLayer(w: nat, h: nat, nums: seq<int>) returns (layer: Layer)
    requires |nums| >= w * h
    ensures Shaped(layer, w, h) && CutUpTo(layer, w, h, nums, w * h)
    ensures forall n :: 0 <= n < w * h ==> n / w < h && n % w < w && layer[n / w][n % w] == nums[n]
  {
    layer := Zeroes(w, h);
    var n := 0;
    while n < w * h
      invariant 0 <= n <= w * h && CutUpTo(layer, w, h, nums, n)
    {
      layer := Place(layer, w, h, nums, n);
      n := n + 1;
    }
    CutAll(layer, w, h, nums);
  }

  /** All w * h digits in place is the cell-by-cell statement of NewLayer. */
  lemma CutAll(layer: Layer, w: nat, h: nat, nums: seq<int>)
    requires CutUpTo(layer, w, h, nums, w * h)
    ensures Shaped(layer, w, h)
    ensures forall n :: 0 <= n < w * h ==> n / w < h && n % w < w && layer[n / w][n % w] == nums[n]
  {
    forall n | 0 <= n < w * h
      ensures n / w < h && n % w < w && layer[n / w][n % w] == nums[n]
    {
      assert Holds(layer, w, h, nums, n);
    }
  }

  /** The first loop of NewLayer: h rows of w zeroes. */
  method Zeroes(w: nat, h: nat) returns (layer: Layer)
    ensures Shaped(layer, w, h)
    ensures forall i, j :: 0 <= i < h && 0 <= j < w ==> layer[i][j] == 0
  {
    layer := [];
    var r := 0;
    while r < h
      invariant 0 <= r <= h && |layer| == r
      invariant forall i :: 0 <= i < r ==> layer[i] == seq(w, _ => 0)
    {
      layer := layer + [seq(w, _ => 0)];
      r := r + 1;
    }
  }

  /** The body of the second loop of NewLayer: writing nums[n] into row
      n / w and column n % w keeps the first n digits in place and adds
      the next one. */
  method Place(layer: Layer, w: nat, h: nat, nums: seq<int>, n: nat) returns (layer': Layer)
    requires n < w * h && CutUpTo(layer, w, h, nums, n) && n < |nums|
    ensures CutUpTo(layer', w, h, nums, n + 1)
  {
    CellOf(w, h, n);
    OtherCell(layer, w, h, n / w, n % w, nums[n], 0, 0);
    layer' := layer[n / w := layer[n / w][n % w := nums[n]]];
    forall m | 0 <= m < n + 1
      ensures Holds(layer', w, h, nums, m)
    {
      CutCell(layer, w, h, nums, n, m);
    }
  }

  /** After the write, cell m (at most n) holds nums[m]. */
  lemma CutCell(layer: Layer, w: nat, h: nat, nums: seq<int>, n: nat, m: nat)
    requires n < w * h && CutUpTo(layer, w, h, nums, n) && n < |nums| && m <= n
    ensures w > 0 && n / w < h && n % w < w
    ensures Holds(layer[n / w := layer[n / w][n % w := nums[n]]], w, h, nums, m)
  {
    CellOf(w, h, n);
    OtherCell(layer, w, h, n / w, n % w, nums[n], 0, 0);
    if m < n {
      assert Holds(layer, w, h, nums, m);
      CutOther(layer, w, h, n, m, nums[n]);
    }
  }

  /** Writing the cell of n leaves the cell of m != n alone. */
  lemma CutOther(layer: Layer, w: nat, h: nat, n: nat, m: nat, v: int)
    requires Shaped(layer, w, h) && w > 0 && m != n
    requires n / w < h && n % w < w && m / w < h && m % w < w
    ensures layer[n / w := layer[n / w][n % w := v]][m / w][m % w] == layer[m / w][m % w]
  {
    CellInjective(w, m, n);
    OtherCell(layer, w, h, n / w, n % w, v, m / w, m % w);
  }

  /** Writing cell (r, c) keeps the shape and leaves every other cell as it was. */
  lemma OtherCell(layer: Layer, w: nat, h: nat, r: nat, c: nat, v: int, i: nat, j: nat)
    requires Shaped(layer, w, h) && r < h && c < w
    ensures Shaped(layer[r := layer[r][c := v]], w, h)
    ensures i < h && j < w && (i != r || j != c) ==> layer[r := layer[r][c := v]][i][j] == layer[i][j]
  {
  }

  /** Different indices land on different cells. */
  lemma CellInjective(w: nat, m: nat, n: nat)
    requires w > 0 && m != n
    ensures m / w != n / w || m % w != n % w
  {
    assert m == (m / w) * w + m % w;
    assert n == (n / w) * w + n % w;
  }

  /** Row i of a layer cut from nums is nums[i * w .. i * w + w]. */
  lemma RowOfCut(l: Layer, w: nat, h: nat, nums: seq<int>, i: nat)
    requires CutUpTo(l, w, h, nums, w * h) && i < h
    ensures i * w + w <= w * h && l[i] == nums[i * w..i * w + w]
  {
    if w > 0 {
      CellIndex(w, h, i, w - 1);
    }
    forall j | 0 <= j < w
      ensures l[i][j] == nums[i * w + j]
    {
      CellIndex(w, h, i, j);
      assert Holds(l, w, h, nums, i * w + j);
    }
  }

  /** Dropping the last row of a layer cut from nums leaves the layer cut
      from the digits before that row. */
  lemma CutFront(l: Layer, w: nat, h: nat, nums: seq<int>)
    requires CutUpTo(l, w, h, nums, w * h) && h > 0
    ensures (h - 1) * w <= |nums| && CutUpTo(l[..h - 1], w, h - 1, nums[..(h - 1) * w], w * (h - 1))
  {
    var k := (h - 1) * w;
    assert k + w == w * h && w * (h - 1) == k;
    var front, h', prefix := l[..h - 1], h - 1, nums[..k];
    forall m | 0 <= m < k
      ensures Holds(front, w, h', prefix, m)
    {
      CellOf(w, h', m);
      assert Holds(l, w, h, nums, m);
    }
  }

  /** Reading the rows of a layer cut from nums back in order gives the
      first w * h digits. */
  lemma {:induction false} FlattenCut(l: Layer, w: nat, h: nat, nums: seq<int>)
    requires CutUpTo(l, w, h, nums, w * h)
    ensures Flatten(l) == nums[..w * h]
    decreases h
  {
    if h > 0 {
      RowOfCut(l, w, h, nums, h - 1);
      var k := (h - 1) * w;
      assert k + w == w * h;
      CutFront(l, w, h, nums);
      FlattenCut(l[..h - 1], w, h - 1, nums[..k]);
      assert nums[..w * h] == nums[..k] + nums[k..w * h];
    }
  }

  // ---------------------------------------------------------------------
  // Counting

  function CountRow(row: seq<int>, v: int): (c: nat)
    ensures c <= |row|
    decreases |row|
  {
    if row == [] then 0 else CountRow(row[..|row| - 1], v) + (if row[|row| - 1] == v then 1 else 0)
  }

  /** The number of cells of the layer equal to v. */
  function CountIn(l: Layer, v: int): (c: nat)
    ensures c <= |Flatten(l)|
    decreases |l|
  {
    if l == [] then 0 else CountIn(l[..|l| - 1], v) + CountRow(l[|l| - 1], v)
  }

  lemma {:induction false} CountRowMultiset(row: seq<int>, v: int)
    ensures CountRow(row, v) == multiset(row)[v]
    decreases |row|
  {
    if row != [] {
      CountRowMultiset(row[..|row| - 1], v);
      assert row == row[..|row| - 1] + [row[|row| - 1]];
    }
  }

  /** The count is the multiplicity of v among all the layer's cells. */
  lemma {:induction false} CountInMultiset(l: Layer, v: int)
    ensures CountIn(l, v) == multiset(Flatten(l))[v]
    decreases |l|
  {
    if l != [] {
      CountInMultiset(l[..|l| - 1], v);
      CountRowMultiset(l[|l| - 1], v);
    }
  }

  /** CountNum: a counter incremented for every cell equal to num, row by
      row. */
  method CountNum(l: Layer, num: int) returns (count: nat)
    ensures count == CountIn(l, num)
  {
    count := 0;
    var r := 0;
    while r < |l|
      invariant 0 <= r <= |l|
      invariant count == CountIn(l[..r], num)
    {
      var row := l[r];
      var c := 0;
      while c < |row|
        invariant 0 <= c <= |row|
        invariant count == CountIn(l[..r], num) + CountRow(row[..c], num)
      {
        assert row[..c + 1][..c] == row[..c];
        if row[c] == num {
          count := count + 1;
        }
        c := c + 1;
      }
      assert row[..c] == row;
      assert l[..r + 1][..r] == l[..r];
      r := r + 1;
    }
    assert l[..r] == l;
  }

  // ---------------------------------------------------------------------
  // Rendering

  /** The layer covers the h by w window: at least h rows, each of the
      first h at least w cells long. */
  predicate Covers(l: Layer, w: nat, h: nat) {
    |l| >= h && forall i :: 0 <= i < h ==> |l[i]| >= w
  }

  /** The value seen at (i, j) looking through layers k, k + 1, ...: the
      first one that is not 2 there, or 0 when all of them are 2. Layers
      that do not reach (i, j) are looked through. */
  function Seen(layers: seq<Layer>, k: nat, i: nat, j: nat): (v: int)
    requires k <= |layers|
    decreases |layers| - k
  {
    if k == |layers| then 0
    else if i < |layers[k]| && j < |layers[k][i]| && layers[k][i][j] != 2 then layers[k][i][j]
    else Seen(layers, k + 1, i, j)
  }

  /** On layers that all reach (i, j), the pixel seen is that of the first
      opaque layer, or 0 when every layer is transparent there. */
  lemma {:induction false} SeenIsFirstOpaque(layers: seq<Layer>, k: nat, i: nat, j: nat)
    requires k <= |layers|
    requires forall n :: k <= n < |layers| ==> |layers[n]| > i && |layers[n][i]| > j
    ensures (forall n :: k <= n < |layers| ==> layers[n][i][j] == 2) ==> Seen(layers, k, i, j) == 0
    ensures forall n :: (k <= n < |layers| && layers[n][i][j] != 2 &&
      forall p :: k <= p < n ==> layers[p][i][j] == 2) ==> Seen(layers, k, i, j) == layers[n][i][j]
    decreases |layers| - k
  {
    if k < |layers| {
      SeenIsFirstOpaque(layers, k + 1, i, j);
    }
  }

  /** Img: the layers in order. */
  class Img {
    var layers: seq<Layer>

    constructor ()
      ensures layers == []
    {
      layers := [];
    }

    /** AddLayer: appends one layer. */
    method AddLayer(l: Layer)
      modifies this
      ensures layers == old(layers) + [l]
    {
      layers := layers + [l];
    }

    /** Render: nothing for an image with no layers or whose first layer
        has no rows; otherwise the grid the size of the first layer whose
        pixels are the ones seen through the stack. Every layer must cover
        that grid. */
    method Render() returns (r: Option<Layer>)
      requires layers != [] && |layers[0]| > 0 ==>
        forall k :: 0 <= k < |layers| ==> Covers(layers[k], |layers[0][0]|, |layers[0]|)
      ensures r.None? <==> layers == [] || |layers[0]| == 0
      ensures r.Some? ==>
        var h, w := |layers[0]|, |layers[0][0]|;
        Shaped(r.value, w, h) &&
        forall i, j :: 0 <= i < h && 0 <= j < w ==> r.value[i][j] == Seen(layers, 0, i, j)
    {
      if |layers| == 0 {
        return None;
      }
      var h := |layers[0]|;
      if h == 0 {
        return None;
      }
      var w := |layers[0][0]|;
      var nums := new int[w * h](_ => 0);
      var i := 0;
      while i < h
        invariant 0 <= i <= h && Rendered(nums[..], layers, w, i * w)
      {
        RenderRow(nums, layers, w, h, i);
        i := i + 1;
      }
      var l := NewLayer(w, h, nums[..]);
      forall i, j | 0 <= i < h && 0 <= j < w
        ensures l[i][j] == Seen(layers, 0, i, j)
      {
        CellIndex(w, h, i, j);
        RenderedAt(nums[..], layers, w, h * w, i * w + j);
      }
      r := Some(l);
    }
  }

  /** The first n cells of s hold the pixels seen through the layers, row
      by row, and the cells from n on are still 0. */
  predicate Rendered(s: seq<int>, layers: seq<Layer>, w: nat, n: nat) {
    n <= |s| &&
    (forall m :: n <= m < |s| ==> s[m] == 0) &&
    (w > 0 ==> forall m :: 0 <= m < n ==> s[m] == Seen(layers, 0, m / w, m % w))
  }

  lemma RenderedAt(s: seq<int>, layers: seq<Layer>, w: nat, n: nat, m: nat)
    requires Rendered(s, layers, w, n) && w > 0 && m < n
    ensures s[m] == Seen(layers, 0, m / w, m % w)
  {
  }

  /** Writing the pixel at n, and nothing else, extends Rendered by one. */
  lemma RenderedStep(s: seq<int>, s': seq<int>, layers: seq<Layer>, w: nat, n: nat)
    requires Rendered(s, layers, w, n) && n < |s| == |s'| && w > 0
    requires s'[n] == Seen(layers, 0, n / w, n % w)
    requires forall m :: 0 <= m < |s| && m != n ==> s'[m] == s[m]
    ensures Rendered(s', layers, w, n + 1)
  {
  }

  /** The middle loop of Render: one row of w pixels. */
  method RenderRow(nums: array<int>, layers: seq<Layer>, w: nat, h: nat, i: nat)
    requires nums.Length == w * h && i < h
    requires forall k :: 0 <= k < |layers| ==> Covers(layers[k], w, h)
    requires Rendered(nums[..], layers, w, i * w)
    modifies nums
    ensures Rendered(nums[..], layers, w, (i + 1) * w)
  {
    var j := 0;
    while j < w
      invariant 0 <= j <= w && Rendered(nums[..], layers, w, i * w + j)
    {
      CellIndex(w, h, i, j);
      ghost var before := nums[..];
      Pixel(nums, layers, i, j, i * w + j);
      RenderedStep(before, nums[..], layers, w, i * w + j);
      j := j + 1;
    }
    assert i * w + w == (i + 1) * w;
  }

  /** The innermost loop of Render: the first layer that is not 2 at
      (i, j) gives the pixel at index n; if there is none the cell keeps
      its 0. */
  method Pixel(nums: array<int>, layers: seq<Layer>, i: nat, j: nat, n: nat)
    requires n < nums.Length && nums[n] == 0
    requires forall k :: 0 <= k < |layers| ==> |layers[k]| > i && |layers[k][i]| > j
    modifies nums
    ensures nums[n] == Seen(layers, 0, i, j)
    ensures forall m :: 0 <= m < nums.Length && m != n ==> nums[m] == old(nums[m])
  {
    var k := 0;
    while k < |layers|
      invariant 0 <= k <= |layers|
      invariant Seen(layers, k, i, j) == Seen(layers, 0, i, j)
      invariant nums[..] == old(nums[..])
    {
      var v := layers[k][i][j];
      if v != 2 {
        nums[n] := v;
        return;
      }
      k := k + 1;
    }
  }
}
