/**
 * The terrain mesh builder `GroundMeshData` of src/ground.rs: the buffer sizes
 * it computes in `u32`, and the two nested loops of `generate_mesh` that fill
 * the vertex buffers (one position, normal and UV per lattice point) and the
 * triangle-list index buffer (six indices per grid cell).
 *
 * Floating-point values are abstracted: a position or UV is recorded as the
 * integer lattice point its floats are computed from, and the height sampled
 * from the noise map is an opaque input.
 */
module Ground {
  import opened U32
  import opened Arithmetic

  /** The builder's configuration; `extent` only bounds the noise-sampling domain. */
  datatype GroundMeshData = GroundMeshData(width: u32, depth: u32, extent: real)

  /**
   * What `generate_mesh` ends in when built with overflow checks: a value, or
   * the panic raised by a `u32` operation that overflows.
   */
  datatype Result<T> = Ok(value: T) | Overflow

  /** A lattice point, `w` as the loops' inner coordinate and `d` as their outer one. */
  datatype Lattice = Lattice(w: nat, d: nat)

  /** A pushed position: its x and z stand for the lattice point they are computed from. */
  datatype Position = Position(at: Lattice, height: real)

  datatype Normal = Normal(x: real, y: real, z: real)

  /** A pushed texture coordinate: `[w / width, d / depth]`, kept as its lattice point. */
  datatype Uv = Uv(at: Lattice)

  datatype Vertices = Vertices(positions: seq<Position>, normals: seq<Normal>, uvs: seq<Uv>)

  datatype Mesh = Mesh(positions: seq<Position>, normals: seq<Normal>, uvs: seq<Uv>, triangles: seq<u32>)

  /** The one normal every vertex gets. */
  const Up: Normal := Normal(0.0, 1.0, 0.0)

  // ---------------------------------------------------------------------------
  // Buffer sizes, computed in u32

  /**
   * `(width + 1) * (depth + 1)` evaluated in `u32`: it overflows exactly when
   * the lattice has more than `u32::MAX` points, and otherwise is that number.
   */
  function VerticesCount(g: GroundMeshData): (r: Overflowing)
    ensures r.overflowed <==> (g.width + 1) * (g.depth + 1) > MAX
    ensures r.value == (g.width + 1) * (g.depth + 1) % MODULUS
    ensures !r.overflowed ==> r.value == (g.width + 1) * (g.depth + 1)
  {
    var w1 := OverflowingAdd(g.width, 1);
    var d1 := OverflowingAdd(g.depth, 1);
    var p := OverflowingMul(w1.value, d1.value);
    MulMod(g.width + 1, g.depth + 1, MODULUS);
    MulMonotone(1, g.depth + 1, g.width + 1);
    MulMonotone(1, g.width + 1, g.depth + 1);
    Overflowing(p.value, w1.overflowed || d1.overflowed || p.overflowed)
  }

  /**
   * `width * depth * 2 * 3` evaluated in `u32`, left to right: it overflows
   * exactly when the grid needs more than `u32::MAX` indices, and otherwise is
   * six indices per cell.
   */
  function TriangleCount(g: GroundMeshData): (r: Overflowing)
    ensures r.overflowed <==> g.width * g.depth * 6 > MAX
    ensures r.value == g.width * g.depth * 6 % MODULUS
    ensures !r.overflowed ==> r.value == g.width * g.depth * 6
  {
    var cells := OverflowingMul(g.width, g.depth);
    var halves := OverflowingMul(cells.value, 2);
    var p := OverflowingMul(halves.value, 3);
    MulMod(g.width * g.depth, 2, MODULUS);
    MulMod(g.width * g.depth * 2, 3, MODULUS);
    Overflowing(p.value, cells.overflowed || halves.overflowed || p.overflowed)
  }

  // ---------------------------------------------------------------------------
  // Triangulation

  /** The index the triangle loop uses for lattice point (w, d): rows of `width + 1` vertices. */
  function VertexIndex(width: nat, w: nat, d: nat): (r: nat)
    ensures w <= width ==> d * (width + 1) <= r < (d + 1) * (width + 1)
  {
    d * (width + 1) + w
  }

  /**
   * The six indices pushed for cell (w, d): the triangles (w, d), (w, d + 1),
   * (w + 1, d + 1) and (w, d), (w + 1, d + 1), (w + 1, d), which share the
   * diagonal from (w, d) to (w + 1, d + 1).
   */
  function CellIndices(width: nat, w: nat, d: nat): (r: seq<nat>)
    ensures |r| == 6
    ensures r[0] == r[3] == VertexIndex(width, w, d)
    ensures r[1] == VertexIndex(width, w, d + 1)
    ensures r[2] == r[4] == VertexIndex(width, w + 1, d + 1)
    ensures r[5] == VertexIndex(width, w + 1, d)
    ensures var a := VertexIndex(width, w, d);
      r == [a, a + width + 1, a + width + 2, a, a + width + 2, a + 1]
  {
    var row := d * (width + 1);
    var nextRow := (d + 1) * (width + 1);
    [row + w, nextRow + w, nextRow + w + 1, row + w, nextRow + w + 1, row + w + 1]
  }

  /** What the inner loop has pushed for row d after its first n passes. */
  function RowIndices(width: nat, d: nat, n: nat): (r: seq<nat>)
    ensures |r| == 6 * n
  {
    if n == 0 then [] else RowIndices(width, d, n - 1) + CellIndices(width, n - 1, d)
  }

  /** What the outer loop has pushed after its first `rows` passes. */
  function TriangleList(width: nat, rows: nat): (r: seq<nat>)
  {
    if rows == 0 then [] else TriangleList(width, rows - 1) + RowIndices(width, rows - 1, width)
  }

  /** Six indices per cell: `width * rows` cells after `rows` passes of the outer loop. */
  lemma {:induction false} TriangleListLength(width: nat, rows: nat)
    ensures |TriangleList(width, rows)| == width * rows * 6
  {
    if rows > 0 {
      TriangleListLength(width, rows - 1);
      assert width * rows * 6 == width * (rows - 1) * 6 + 6 * width;
    }
  }

  lemma {:induction false} RowIndicesAt(width: nat, d: nat, n: nat, w: nat, j: nat)
    requires w < n && j < 6
    ensures RowIndices(width, d, n)[6 * w + j] == CellIndices(width, w, d)[j]
  {
    if w < n - 1 {
      RowIndicesAt(width, d, n - 1, w, j);
    }
  }

  /**
   * Cells appear in row-major order, `d` outer and `w` inner: the indices of
   * cell (w, d) sit at positions `6 * (d * width + w)` to `6 * (d * width + w) + 5`.
   */
  lemma {:induction false} TriangleListAt(width: nat, depth: nat, w: nat, d: nat, j: nat)
    requires w < width && d < depth && j < 6
    ensures var i := 6 * (d * width + w) + j;
      i < |TriangleList(width, depth)| && TriangleList(width, depth)[i] == CellIndices(width, w, d)[j]
  {
    var before, last := TriangleList(width, depth - 1), RowIndices(width, depth - 1, width);
    assert TriangleList(width, depth) == before + last;
    if d < depth - 1 {
      TriangleListAt(width, depth - 1, w, d, j);
    } else {
      TriangleListLength(width, d);
      assert 6 * (d * width) == width * d * 6;
      assert 6 * (d * width + w) + j == |before| + 6 * w + j;
      RowIndicesAt(width, d, width, w, j);
    }
  }

  lemma {:induction false} RowIndicesBounded(width: nat, d: nat, n: nat)
    requires n <= width
    ensures forall x :: x in RowIndices(width, d, n) ==> x <= (d + 1) * (width + 1) + n
  {
    if n > 0 {
      RowIndicesBounded(width, d, n - 1);
      assert (d + 1) * (width + 1) == d * (width + 1) + width + 1;
    }
  }

  lemma {:induction false} TriangleListBounded(width: nat, rows: nat)
    ensures forall x :: x in TriangleList(width, rows) ==> x <= rows * (width + 1) + width
  {
    if rows > 0 {
      TriangleListBounded(width, rows - 1);
      RowIndicesBounded(width, rows - 1, width);
      assert rows * (width + 1) == (rows - 1) * (width + 1) + width + 1;
    }
  }

  /**
   * Every index is at most `depth * (width + 1) + width`, one less than the
   * number of lattice points, and on a grid with cells that largest index
   * occurs (the third index of cell (width - 1, depth - 1)).
   */
  lemma TriangleListMax(width: nat, depth: nat)
    ensures forall x :: x in TriangleList(width, depth) ==> x <= depth * (width + 1) + width
    ensures forall x :: x in TriangleList(width, depth) ==> x < (width + 1) * (depth + 1)
    ensures 0 < width && 0 < depth ==> depth * (width + 1) + width in TriangleList(width, depth)
  {
    TriangleListBounded(width, depth);
    assert (width + 1) * (depth + 1) == depth * (width + 1) + width + 1;
    if 0 < width && 0 < depth {
      TriangleListAt(width, depth, width - 1, depth - 1, 2);
    }
  }

  /**
   * With at most `u32::MAX` indices to push, none of the index computations of
   * cell (w, d) overflows, and they compute the cell's six indices.
   */
  lemma CellFits(width: nat, depth: nat, w: nat, d: nat)
    requires w < width && d < depth && width * depth * 6 <= MAX
    ensures width + 1 <= MAX
    ensures d * (width + 1) + w + 1 <= (d + 1) * (width + 1) + w + 1 <= MAX
    ensures CellIndices(width, w, d) == [
      d * (width + 1) + w, (d + 1) * (width + 1) + w, (d + 1) * (width + 1) + w + 1,
      d * (width + 1) + w, (d + 1) * (width + 1) + w + 1, d * (width + 1) + w + 1]
  {
    MulMonotone(1, depth, width);
    MulMonotone(1, width, depth);
    MulMonotone(d + 1, depth, width + 1);
    assert depth * (width + 1) == depth * width + depth;
    assert (d + 1) * (width + 1) == d * (width + 1) + width + 1;
  }

  /**
   * The index loop (after `triangle_count` at its head, which panics on
   * overflow) pushes six indices per cell in row-major order, all within `u32`.
   */
  method EmitTriangles(g: GroundMeshData) returns (r: Result<seq<u32>>)
    ensures r.Ok? <==> !TriangleCount(g).overflowed
    ensures r.Ok? ==> r.value == TriangleList(g.width, g.depth)
    ensures r.Ok? ==> |r.value| == TriangleCount(g).value
  {
    if TriangleCount(g).overflowed {
      return Overflow;
    }
    var triangles: seq<u32> := [];
    var d: nat := 0;
    while d < g.depth
      invariant d <= g.depth
      invariant triangles == TriangleList(g.width, d)
    {
      triangles := EmitCellRow(g, d, triangles);
      d := d + 1;
    }
    TriangleListLength(g.width, g.depth);
    r := Ok(triangles);
  }

  /** One pass of the index loop's outer loop: the inner loop over the cells of row d. */
  method EmitCellRow(g: GroundMeshData, d: nat, triangles: seq<u32>) returns (extended: seq<u32>)
    requires d < g.depth && g.width * g.depth * 6 <= MAX
    ensures extended == triangles + RowIndices(g.width, d, g.width)
  {
    extended := triangles;
    var w: nat := 0;
    while w < g.width
      invariant w <= g.width
      invariant extended == triangles + RowIndices(g.width, d, w)
    {
      CellFits(g.width, g.depth, w, d);
      // First triangle
      extended := extended + [d * (g.width + 1) + w];
      extended := extended + [(d + 1) * (g.width + 1) + w];
      extended := extended + [(d + 1) * (g.width + 1) + w + 1];
      // Second triangle
      extended := extended + [d * (g.width + 1) + w];
      extended := extended + [(d + 1) * (g.width + 1) + w + 1];
      extended := extended + [d * (g.width + 1) + w + 1];
      w := w + 1;
    }
  }

  // ---------------------------------------------------------------------------
  // Vertex emission

  /** The lattice points the inner vertex loop visits in its first n passes of outer pass d. */
  function LatticeRow(d: nat, n: nat): (r: seq<Lattice>)
    ensures |r| == n
    ensures forall w :: 0 <= w < n ==> r[w] == Lattice(w, d)
  {
    if n == 0 then [] else LatticeRow(d, n - 1) + [Lattice(n - 1, d)]
  }

  /**
   * The lattice points the vertex loop visits in its first `rows` outer passes;
   * the inner loop runs `w` over `0..=depth`, so each pass visits `depth + 1`.
   */
  function LatticeOrder(depth: nat, rows: nat): (r: seq<Lattice>)
  {
    if rows == 0 then [] else LatticeOrder(depth, rows - 1) + LatticeRow(rows - 1, depth + 1)
  }

  /** Each outer pass pushes `depth + 1` vertices. */
  lemma {:induction false} LatticeOrderLength(depth: nat, rows: nat)
    ensures |LatticeOrder(depth, rows)| == rows * (depth + 1)
  {
    if rows > 0 {
      LatticeOrderLength(depth, rows - 1);
      assert rows * (depth + 1) == (rows - 1) * (depth + 1) + depth + 1;
    }
  }

  /** The lattice points, in the order the whole vertex loop (`d` over `0..=width`) visits them. */
  function VertexLattice(g: GroundMeshData): (r: seq<Lattice>)
    ensures |r| == (g.width + 1) * (g.depth + 1)
  {
    LatticeOrderLength(g.depth, g.width + 1);
    LatticeOrder(g.depth, g.width + 1)
  }

  /** Outer pass d, inner pass w is the `d * (depth + 1) + w`-th vertex pushed. */
  lemma {:induction false} LatticeOrderAt(depth: nat, rows: nat, w: nat, d: nat)
    requires w <= depth && d < rows
    ensures d * (depth + 1) + w < |LatticeOrder(depth, rows)|
    ensures LatticeOrder(depth, rows)[d * (depth + 1) + w] == Lattice(w, d)
  {
    if d < rows - 1 {
      LatticeOrderAt(depth, rows - 1, w, d);
    } else {
      LatticeOrderLength(depth, d);
    }
  }

  /** The k-th pushed vertex is visited in outer pass d, inner pass w, where `k == d * (depth + 1) + w`. */
  lemma {:induction false} LatticeOrderIndex(depth: nat, rows: nat, k: nat)
    requires k < |LatticeOrder(depth, rows)|
    ensures var p := LatticeOrder(depth, rows)[k];
      p.w <= depth && p.d < rows && k == p.d * (depth + 1) + p.w
  {
    LatticeOrderLength(depth, rows);
    LatticeOrderLength(depth, rows - 1);
    var before := (rows - 1) * (depth + 1);
    if k < before {
      LatticeOrderIndex(depth, rows - 1, k);
    } else {
      assert LatticeOrder(depth, rows)[k] == LatticeRow(rows - 1, depth + 1)[k - before];
    }
  }

  /** The k-th pushed vertex stands for lattice point `(k mod (depth + 1), k div (depth + 1))`. */
  lemma VertexLatticeAt(g: GroundMeshData, k: nat)
    requires k < (g.width + 1) * (g.depth + 1)
    ensures k < |VertexLattice(g)| && var p := VertexLattice(g)[k];
      p.w == k % (g.depth + 1) && p.d == k / (g.depth + 1)
  {
    LatticeOrderLength(g.depth, g.width + 1);
    LatticeOrderIndex(g.depth, g.width + 1, k);
    var p := VertexLattice(g)[k];
    DivModUnique(k, g.depth + 1, p.d, p.w);
  }

  /**
   * The three parallel buffers hold one entry per lattice point each, the k-th
   * entry for the k-th lattice point the loop visits, and every normal points up.
   */
  ghost predicate VertexBuffersFrom(g: GroundMeshData, noise: (nat, nat) -> real, v: Vertices)
  {
    var order := VertexLattice(g);
    && |v.positions| == |order|
    && |v.normals| == |order|
    && |v.uvs| == |order|
    && (forall k :: 0 <= k < |order| ==> v.positions[k] == Position(order[k], noise(order[k].w, order[k].d)))
    && (forall k :: 0 <= k < |order| ==> v.normals[k] == Up)
    && (forall k :: 0 <= k < |order| ==> v.uvs[k] == Uv(order[k]))
  }

  /**
   * The vertex loop (after `vertices_count` at its head, which panics on
   * overflow) pushes one position, normal and UV per lattice point.
   */
  method EmitVertices(g: GroundMeshData, noise: (nat, nat) -> real) returns (r: Result<Vertices>)
    ensures r.Ok? <==> !VerticesCount(g).overflowed
    ensures r.Ok? ==> VertexBuffersFrom(g, noise, r.value)
    ensures r.Ok? ==> |r.value.positions| == VerticesCount(g).value
  {
    if VerticesCount(g).overflowed {
      return Overflow;
    }
    var positions: seq<Position> := [];
    var normals: seq<Normal> := [];
    var uvs: seq<Uv> := [];
    ghost var visited: seq<Lattice> := [];
    var d: nat := 0;
    while d <= g.width
      invariant d <= g.width + 1
      invariant visited == LatticeOrder(g.depth, d)
      invariant |positions| == |normals| == |uvs| == |visited|
      invariant forall k :: 0 <= k < |visited| ==> positions[k] == Position(visited[k], noise(visited[k].w, visited[k].d))
      invariant forall k :: 0 <= k < |visited| ==> normals[k] == Up
      invariant forall k :: 0 <= k < |visited| ==> uvs[k] == Uv(visited[k])
    {
      var w: nat := 0;
      while w <= g.depth
        invariant w <= g.depth + 1
        invariant visited == LatticeOrder(g.depth, d) + LatticeRow(d, w)
        invariant |positions| == |normals| == |uvs| == |visited|
        invariant forall k :: 0 <= k < |visited| ==> positions[k] == Position(visited[k], noise(visited[k].w, visited[k].d))
        invariant forall k :: 0 <= k < |visited| ==> normals[k] == Up
        invariant forall k :: 0 <= k < |visited| ==> uvs[k] == Uv(visited[k])
      {
        var height := noise(w, d);
        positions := positions + [Position(Lattice(w, d), height)];
        normals := normals + [Up];
        uvs := uvs + [Uv(Lattice(w, d))];
        visited := visited + [Lattice(w, d)];
        w := w + 1;
      }
      d := d + 1;
    }
    LatticeOrderLength(g.depth, g.width + 1);
    r := Ok(Vertices(positions, normals, uvs));
  }

  // ---------------------------------------------------------------------------
  // The two layouts, and the orientation of the triangles

  /** The triangle loop's index of every lattice point names the vertex pushed for that point. */
  ghost predicate LayoutsAgree(g: GroundMeshData)
  {
    forall w: nat, d: nat :: w <= g.width && d <= g.depth ==>
      VertexIndex(g.width, w, d) < |VertexLattice(g)| && VertexLattice(g)[VertexIndex(g.width, w, d)] == Lattice(w, d)
  }

  /**
   * The vertex loop's layout and the triangle loop's addressing agree exactly
   * when the grid is square, as at the one call site, `new(100, 100, 5.0)`.
   */
  lemma LayoutsAgreeIffSquare(g: GroundMeshData)
    ensures LayoutsAgree(g) <==> g.width == g.depth
  {
    if g.width == g.depth {
      SquareLayoutsAgree(g);
    } else if g.width < g.depth {
      NarrowLayoutDisagrees(g);
    } else {
      WideLayoutDisagrees(g);
    }
  }

  lemma SquareLayoutsAgree(g: GroundMeshData)
    requires g.width == g.depth
    ensures LayoutsAgree(g)
  {
    forall w: nat, d: nat | w <= g.width && d <= g.depth
      ensures VertexIndex(g.width, w, d) < |VertexLattice(g)|
      ensures VertexLattice(g)[VertexIndex(g.width, w, d)] == Lattice(w, d)
    {
      SquareCorner(g, w, d);
    }
  }

  /** On a square grid the triangle loop's index of lattice point (w, d) names the vertex pushed for it. */
  lemma SquareCorner(g: GroundMeshData, w: nat, d: nat)
    requires g.width == g.depth && w <= g.width && d <= g.depth
    ensures VertexIndex(g.width, w, d) < |VertexLattice(g)|
    ensures VertexLattice(g)[VertexIndex(g.width, w, d)] == Lattice(w, d)
  {
    LatticeOrderAt(g.depth, g.width + 1, w, d);
  }

  /** Lattice point (0, 1) is addressed as `width + 1`, where the vertex loop pushed (width + 1, 0). */
  lemma NarrowLayoutDisagrees(g: GroundMeshData)
    requires g.width < g.depth
    ensures VertexIndex(g.width, 0, 1) < |VertexLattice(g)|
    ensures VertexLattice(g)[VertexIndex(g.width, 0, 1)] == Lattice(g.width + 1, 0)
    ensures !LayoutsAgree(g)
  {
    LatticeOrderAt(g.depth, g.width + 1, g.width + 1, 0);
  }

  /** Lattice point (depth + 1, 0) is addressed as `depth + 1`, where the vertex loop pushed (0, 1). */
  lemma WideLayoutDisagrees(g: GroundMeshData)
    requires g.depth < g.width
    ensures VertexIndex(g.width, g.depth + 1, 0) < |VertexLattice(g)|
    ensures VertexLattice(g)[VertexIndex(g.width, g.depth + 1, 0)] == Lattice(0, 1)
    ensures !LayoutsAgree(g)
  {
    LatticeOrderAt(g.depth, g.width + 1, 0, 1);
  }

  /** The y component of `(b - a) × (c - a)` when lattice `w` is taken as x and `d` as z. */
  function CrossY(a: Lattice, b: Lattice, c: Lattice): (r: int)
  {
    (b.d - a.d) * (c.w - a.w) - (b.w - a.w) * (c.d - a.d)
  }

  /** Both triangles of a cell turn counter-clockwise seen from +y, on lattice coordinates. */
  lemma CellTrianglesCounterClockwise(w: nat, d: nat)
    ensures CrossY(Lattice(w, d), Lattice(w, d + 1), Lattice(w + 1, d + 1)) == 1
    ensures CrossY(Lattice(w, d), Lattice(w + 1, d + 1), Lattice(w + 1, d)) == 1
  {
  }

  /** Triangle t of the index buffer is half h of cell (w, d). */
  lemma CellOfTriangle(width: nat, depth: nat, t: nat) returns (w: nat, d: nat, h: nat)
    requires t < width * depth * 2
    ensures w < width && d < depth && h < 2
    ensures t == 2 * (d * width + w) + h
  {
    h := t % 2;
    var c := t / 2;
    w, d := c % width, c / width;
    if d >= depth {
      MulMonotone(depth, d, width);
    }
  }

  /** The three indices of triangle t are the first (h = 0) or last (h = 1) three of its cell's six. */
  lemma TriangleCorners(width: nat, depth: nat, t: nat) returns (w: nat, d: nat, h: nat)
    requires t < width * depth * 2
    ensures w < width && d < depth && h < 2
    ensures 3 * t + 2 < |TriangleList(width, depth)|
    ensures TriangleList(width, depth)[3 * t] == CellIndices(width, w, d)[3 * h]
    ensures TriangleList(width, depth)[3 * t + 1] == CellIndices(width, w, d)[3 * h + 1]
    ensures TriangleList(width, depth)[3 * t + 2] == CellIndices(width, w, d)[3 * h + 2]
  {
    w, d, h := CellOfTriangle(width, depth, t);
    var tris, cell := TriangleList(width, depth), CellIndices(width, w, d);
    var start := 6 * (d * width + w);
    assert 3 * t == start + 3 * h;
    TriangleListAt(width, depth, w, d, 3 * h);
    assert tris[start + 3 * h] == cell[3 * h];
    TriangleListAt(width, depth, w, d, 3 * h + 1);
    assert tris[start + 3 * h + 1] == cell[3 * h + 1];
    TriangleListAt(width, depth, w, d, 3 * h + 2);
    assert tris[start + 3 * h + 2] == cell[3 * h + 2];
  }

  /**
   * On a square grid, every triangle of the index buffer, read through the
   * lattice points the vertex loop pushed, is counter-clockwise seen from +y:
   * the y component of its edge cross product is +1.
   */
  lemma MeshTrianglesFaceUp(g: GroundMeshData, t: nat)
    requires g.width == g.depth
    requires t < g.width * g.depth * 2
    ensures 3 * t + 2 < |TriangleList(g.width, g.depth)|
    ensures var tris, order := TriangleList(g.width, g.depth), VertexLattice(g);
      && tris[3 * t] < |order| && tris[3 * t + 1] < |order| && tris[3 * t + 2] < |order|
      && CrossY(order[tris[3 * t]], order[tris[3 * t + 1]], order[tris[3 * t + 2]]) == 1
  {
    var tris, order := TriangleList(g.width, g.depth), VertexLattice(g);
    var w, d, h := TriangleCorners(g.width, g.depth, t);
    var a, b, c := Lattice(w, d), Lattice(w + 1, d + 1), Lattice(w + 1, d);
    if h == 0 {
      b, c := Lattice(w, d + 1), Lattice(w + 1, d + 1);
    }
    SquareCorner(g, a.w, a.d);
    SquareCorner(g, b.w, b.d);
    SquareCorner(g, c.w, c.d);
    assert tris[3 * t] == VertexIndex(g.width, a.w, a.d);
    assert tris[3 * t + 1] == VertexIndex(g.width, b.w, b.d);
    assert tris[3 * t + 2] == VertexIndex(g.width, c.w, c.d);
    CellTrianglesCounterClockwise(w, d);
  }

  // ---------------------------------------------------------------------------
  // The whole of generate_mesh

  /**
   * `generate_mesh` built with overflow checks: it panics exactly when one of
   * the two buffer sizes overflows `u32`; otherwise the vertex buffers hold
   * one entry per lattice point, the index buffer holds `triangle_count()`
   * indices laid out cell by cell, and none of them is out of range.
   */
  method GenerateMesh(g: GroundMeshData, noise: (nat, nat) -> real) returns (r: Result<Mesh>)
    ensures r.Ok? <==> (g.width + 1) * (g.depth + 1) <= MAX && g.width * g.depth * 6 <= MAX
    ensures r.Ok? ==> VertexBuffersFrom(g, noise, Vertices(r.value.positions, r.value.normals, r.value.uvs))
    ensures r.Ok? ==> r.value.triangles == TriangleList(g.width, g.depth)
    ensures r.Ok? ==> |r.value.positions| == VerticesCount(g).value
    ensures r.Ok? ==> |r.value.triangles| == TriangleCount(g).value
    ensures r.Ok? ==> forall i :: 0 <= i < |r.value.triangles| ==> r.value.triangles[i] < |r.value.positions|
  {
    var vertices := EmitVertices(g, noise);
    if vertices.Overflow? {
      return Overflow;
    }
    var triangles := EmitTriangles(g);
    if triangles.Overflow? {
      return Overflow;
    }
    var v, t := vertices.value, triangles.value;
    TriangleListMax(g.width, g.depth);
    forall i | 0 <= i < |t|
      ensures t[i] < |v.positions|
    {
      assert t[i] in TriangleList(g.width, g.depth);
    }
    r := Ok(Mesh(v.positions, v.normals, v.uvs, t));
  }
}
