# Ground mesh builder

This project models the terrain-mesh builder `GroundMeshData` of a small Bevy
application (src/ground.rs). A builder holds a grid size, `width` × `depth`
cells. Its `generate_mesh` fills four buffers:

- `positions`, `normals` and `uvs`, with one entry per lattice point;
- `triangles`, a triangle-list index buffer with six `u32` indices per cell.

The two buffer sizes, `vertices_count` and `triangle_count`, are computed in
`u32`.

The model has three modules:

- `U32` (u32.dfy) is Rust's `u32` with the overflowing addition and
  multiplication the sizes use. An operation returns the wrapped value and
  whether the exact result exceeded `u32::MAX`.
- `Arithmetic` (arithmetic.dfy) holds facts about products, Euclidean
  division and remainders that the proofs need.
- `Ground` (ground.dfy) holds the builder and everything below.

What `Ground` contains:

- **Buffer sizes.** `VerticesCount` and `TriangleCount` evaluate the two size
  expressions operator by operator, in the source's order.
- **The two loops of `generate_mesh`.** They are methods that append to
  sequences, with the source's loop bounds:
  - `EmitVertices` is the vertex loop;
  - `EmitTriangles` is the index loop, with its inner loop in `EmitCellRow`.

  Each method is proved against a specification function of what the loop
  pushes: `LatticeOrder` for the vertex loop and `TriangleList` for the index
  loop. Lemmas about those functions give the properties.
- **`GenerateMesh`** is the whole of `generate_mesh` as built with overflow
  checks. A `u32` operation that overflows panics there, which the model
  records as the result `Overflow`.

Floating-point values are abstracted:

- A position keeps the integer lattice point its x and z are computed from,
  together with the height read from the noise map.
- A UV keeps its lattice point.
- The noise map is a parameter `noise`, a function from lattice point to
  height, that the model knows nothing about.
- Every normal is the constant `(0, 1, 0)`.

The two loops lay out lattice points differently:

- The vertex loop runs `d` over `0..=width` outside and `w` over `0..=depth`
  inside. The k-th vertex is therefore point `(k mod (depth + 1), k div (depth + 1))`.
- The index loop addresses point `(w, d)` as `d * (width + 1) + w`.

`LayoutsAgreeIffSquare` proves that the two agree exactly when
`width == depth`. The only call site, `new(100, 100, 5.0)`, is square. On a
square grid, `MeshTrianglesFaceUp` proves that every triangle is
counter-clockwise seen from +y: the direction the constant normal points.

The code does not reject a zero `width` or `depth`, and it computes no
slope-based normals. The model follows the code: zero sizes give a strip of vertices and no triangles, and
the normal is constant.

## Model

| member | source | states |
|---|---|---|
| U32.OverflowingAdd | src/ground.rs:58 | a `u32` sum is exact when it does not exceed `u32::MAX`, and is the exact sum minus 2^32 when it does |
| U32.OverflowingMul | src/ground.rs:62 | a `u32` product overflows exactly when the exact product exceeds `u32::MAX`; its value is the exact product modulo 2^32, so the product itself when it does not overflow |
| Ground.VerticesCount | src/ground.rs:57-59 | `(width + 1) * (depth + 1)` in `u32` overflows exactly when the lattice has more than `u32::MAX` points; its value is the point count modulo 2^32, and the point count itself when it does not overflow |
| Ground.TriangleCount | src/ground.rs:61-63 | `width * depth * 2 * 3` in `u32` overflows, at whichever of its three multiplications, exactly when `6 * width * depth` exceeds `u32::MAX`; its value is `6 * width * depth` modulo 2^32, and exact when it does not overflow |
| Ground.VertexIndex | src/ground.rs:109-115 | the index loop's address `d * (width + 1) + w` of lattice point `(w, d)`; for `w <= width` it falls in the block of row d, from `d * (width + 1)` up to but excluding `(d + 1) * (width + 1)` |
| Ground.CellIndices | src/ground.rs:108-115 | with `a` the index of corner `(w, d)`, the six indices of a cell are `[a, a + width + 1, a + width + 2, a, a + width + 2, a + 1]`; they name corners `(w, d)`, `(w, d + 1)`, `(w + 1, d + 1)` and `(w, d)`, `(w + 1, d + 1)`, `(w + 1, d)`, so both triangles share the diagonal from `(w, d)` to `(w + 1, d + 1)` |
| Ground.RowIndices | src/ground.rs:107-116 | after n passes of the inner index loop, 6 * n indices have been pushed for the row |
| Ground.RowIndicesAt | src/ground.rs:107-116 | within a row, the indices of cell w sit at positions `6 * w` to `6 * w + 5` |
| Ground.TriangleList | src/ground.rs:106-117 | what the index loop has pushed after `rows` passes of its outer loop: the previous passes' indices followed by row `rows - 1`; its length, placement and bounds are the lemmas below |
| Ground.TriangleListLength | src/ground.rs:104-117 | the index loop pushes `6 * width * depth` indices, six per cell |
| Ground.TriangleListAt | src/ground.rs:106-116 | cells appear in row-major order, `d` outer and `w` inner: the j-th index of cell `(w, d)` is at position `6 * (d * width + w) + j` |
| Ground.RowIndicesBounded | src/ground.rs:107-116 | no index pushed for row d in the first n passes exceeds `(d + 1) * (width + 1) + n` |
| Ground.TriangleListBounded | src/ground.rs:106-117 | after `rows` outer passes, no index exceeds `rows * (width + 1) + width` |
| Ground.TriangleListMax | src/ground.rs:109-115 | every index is at most `depth * (width + 1) + width`, so is below `(width + 1) * (depth + 1)`; on a grid with cells, that largest index occurs |
| Ground.CellFits | src/ground.rs:109-115 | when `triangle_count` does not overflow, none of the `u32` index expressions of any cell overflows, and they compute the cell's six indices |
| Ground.EmitTriangles | src/ground.rs:104-117 | the index loop panics exactly when `triangle_count` overflows; otherwise it pushes exactly `TriangleList(width, depth)`, `triangle_count()` indices |
| Ground.EmitCellRow | src/ground.rs:107-116 | one pass of the outer index loop appends the six indices of each cell of row d, in order, without overflowing `u32` |
| Ground.LatticeRow | src/ground.rs:84-100 | the inner vertex loop's first n passes in outer pass d visit lattice points `(0, d)` to `(n - 1, d)`, in that order |
| Ground.LatticeOrder | src/ground.rs:83-84 | the lattice points the vertex loop visits in its first `rows` passes of `d`, each pass visiting `w` from 0 to `depth`; its length and contents are the lemmas below |
| Ground.VertexLattice | src/ground.rs:83-84 | the order in which the whole vertex loop visits lattice points; it has `(width + 1) * (depth + 1)` of them |
| Ground.LatticeOrderLength | src/ground.rs:83-101 | each outer pass of the vertex loop visits `depth + 1` lattice points |
| Ground.LatticeOrderAt | src/ground.rs:83-101 | lattice point `(w, d)` is the `d * (depth + 1) + w`-th point visited |
| Ground.LatticeOrderIndex | src/ground.rs:83-101 | the k-th point visited is some `(w, d)` with `w <= depth`, `d` within the outer range, and `k == d * (depth + 1) + w` |
| Ground.VertexLatticeAt | src/ground.rs:83-85 | the k-th vertex pushed stands for lattice point `(k mod (depth + 1), k div (depth + 1))` |
| Ground.EmitVertices | src/ground.rs:77-101 | the vertex loop panics exactly when `vertices_count` overflows; otherwise positions, normals and UVs each get `vertices_count()` entries, the k-th for the k-th lattice point visited, with that point's noise height, and every normal is `(0, 1, 0)` |
| Ground.LayoutsAgreeIffSquare | src/ground.rs:83-115 | the index loop's addressing names the vertex pushed for every lattice point if and only if `width == depth` |
| Ground.SquareLayoutsAgree | src/ground.rs:83-115 | on a square grid the index loop's addressing of every lattice point names the vertex pushed for it |
| Ground.SquareCorner | src/ground.rs:83-115 | on a square grid, index `d * (width + 1) + w` is in the vertex buffers and names lattice point `(w, d)` |
| Ground.NarrowLayoutDisagrees | src/ground.rs:83-115 | when `width < depth` the two layouts do not agree: index `width + 1`, point `(0, 1)` to the index loop, holds the vertex pushed for point `(width + 1, 0)` |
| Ground.WideLayoutDisagrees | src/ground.rs:83-115 | when `depth < width` the two layouts do not agree: index `depth + 1`, point `(depth + 1, 0)` to the index loop, holds the vertex pushed for point `(0, 1)` |
| Ground.CellTrianglesCounterClockwise | src/ground.rs:108-115 | both triangles of a cell have edge cross product with y component +1 when lattice `w` is x and `d` is z |
| Ground.CellOfTriangle | src/ground.rs:106-107 | triangle t of the buffer is half `t mod 2` of a cell `(w, d)` inside the grid, with `t == 2 * (d * width + w) + h` |
| Ground.TriangleCorners | src/ground.rs:106-116 | the three indices of triangle t are the first or the last three indices of its cell |
| Ground.MeshTrianglesFaceUp | src/ground.rs:92-115 | on a square grid, every triangle of the index buffer, read through the vertices it names, is counter-clockwise seen from +y |
| Ground.GenerateMesh | src/ground.rs:65-117 | `generate_mesh` panics exactly when one of the two sizes overflows `u32`; otherwise its buffers are as above, and every index is below the number of vertices |

## Left out

- The Perlin noise map (src/ground.rs:66-74 and 89) is a foreign library. The height at a lattice point is the opaque parameter `noise`. The map is built with `width × depth` samples while the loop reads `(width + 1) × (depth + 1)` points; what `get_value` returns outside the map is part of that library and is not modelled.
- The f32 and f64 arithmetic of positions and UVs (src/ground.rs:85-99) is left out; a position or UV keeps the lattice point it is computed from. This also leaves out the rounding of a lattice coordinate above 2^24 when it is converted to `f32`, and the division by zero in the positions and UVs of a grid with zero width or depth.
- The `extent` field only bounds the noise sampling (src/ground.rs:72-73). Positions use the local `extent` of 10.0 instead. Neither value appears in the model beyond the field.
- The `info!` logging of every height (src/ground.rs:90) is output only.
- Building the Bevy `Mesh` from the buffers (src/ground.rs:119-126) is engine code; `GenerateMesh` returns the four buffers.
- `spawn_ground` and `GroundPlugin` (src/ground.rs:9-44) spawn entities and register a system. src/camera.rs and src/main.rs are engine wiring. None of them has logic of its own.
- GenerateMesh: models a build with overflow checks, where an overflowing size panics. A release build goes on with the wrapped size as the vectors' capacity hint. The wrapped values are in `VerticesCount` and `TriangleCount`; what such a build pushes afterwards is not modelled.
- `Vec::with_capacity` and memory allocation failure are not modelled; the buffers are sequences that grow as pushed.
