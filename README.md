# miniRT in Dafny

A model of the core of miniRT, a small software ray tracer written in C++. It covers the
following parts:

- **Vector and matrix algebra.** These are the portable (non-SSE) paths of
  `miniRT_math.h`.
- **Geometry buffers.** The index buffer, the structure-of-arrays vertex buffer and the
  row-flipped screen buffer.
- **The light value.** This includes its single-slot occluder cache.
- **The triangle routines.** The plane-side test, the determinant and barycentric
  ray tests, the shadow test, and normal and colour interpolation.
- **The renderer.** The lock state machine and the per-triangle screen bounds found by
  `begin`. Also the draw loop with its strict depth test, `phong` with its per-light
  shadow cache, `clampRGBA`, `clear_buffer` and `add_light`.

Modules follow the source files:

| module | file |
|---|---|
| `VecMath` | `vec_math.dfy` |
| `IndexBuffers` | `index_buffer.dfy` |
| `VertexBuffers` | `vertex_buffer.dfy` |
| `ScreenBuffers` | `screen_buffer.dfy` |
| `Lights` | `light.dfy` |
| `Triangles` | `triangle.dfy` |
| `Sweep` | `sweep.dfy` |
| `Shading` | `shading.dfy` |
| `Render` | `render.dfy` |

`Sweep` holds the run tracker behind `begin`'s two bound sweeps. `Shading` holds the
specification of `clampRGBA`, `clear_buffer` and `phong`.

Scalars are `real`; `minirt_epsilon` is `Epsilon` (1e-5) and `minirt_huge` is `Huge`.

Objects that the source updates in place are classes:

- the buffers;
- the matrix;
- the renderer, with its depth buffer, colour buffer, `bound_tri` array and light array.

Their methods are proved against pure specification functions.

- **Begin.** `Renderer.Begin` fills `bound_tri` with `BoundOf`. Bounds are the last run of
  crossing columns and rows, as `Sweep.RunBound` defines them.
- **Draw.** `Renderer.Draw` leaves every depth cell at `DepthAfter`, the strict-minimum
  fold over the drawn triangles. Every changed colour cell sits on a pixel whose depth went
  strictly down. `Renderer.DrawPixel` states that such a pixel's colour is `phong`'s word
  for its hit.
- **Phong.** `Renderer.Phong` returns `ClampRGBA` of the colour that `Shading.Lighting`
  accumulates. It leaves the lights with the caches `Lighting` computes.

Everything that needs a square root, a reciprocal length or `tanf` is a parameter:

- **`Projection`** gives the normals of the column and row scan planes and the
  normalised ray through each pixel. These derive from the camera.
- **`Numerics`** gives `Normalize` and `sqrt` as `phong` uses them.

Two consequences of the source as written are proved rather than changed:

- **Last column and row.** A run of crossing columns that reaches the last column records
  `xmax = dx - 1`, and the draw loop stops before `xmax`. So the last column is never drawn
  for such a triangle, and the same holds for rows (`Render.BoundOfMeaning`,
  `Sweep.RunBoundMeaning`).
- **Order-dependent shadows.** The shadow scan keeps the first occluder in index order, not
  the nearest one (`Shading.FirstOccluderMeaning`).

## Model

| member | source | states |
|---|---|---|
| VecMath.At4Extensional | sources/miniRT_math.h:254-265 | a 4-vector is determined by its components at the indices 0..3 that the accessor accepts |
| VecMath.At3Extensional | sources/miniRT_math.h:357-368 | a 3-vector is determined by its components at indices 0..2 |
| VecMath.At2Extensional | sources/miniRT_math.h:458-469 | a 2-vector is determined by its components at indices 0..1 |
| VecMath.SetLane | sources/miniRT_math.h:258-261 | writing lane j through the accessor sets lane j and keeps the other three |
| VecMath.Add4Laws | sources/miniRT_math.h:1140-1217 | vector `+`, binary `-` and unary `-` act on each of the four lanes; `+` is commutative and associative with zero as neutral; `(a-b)+b == a` and `a-b == a+(-b)` |
| VecMath.Scale4Laws | sources/miniRT_math.h:1062-1101 | vector times float scales all four lanes; factor 1 is the identity and factor 0 gives zero |
| VecMath.Mul4Laws | sources/miniRT_math.h:1107-1118 | the element product `\|` multiplies lane by lane and distributes over `+` |
| VecMath.Dot4IsLaneSum | sources/miniRT_math.h:1022-1031 | the 4-vector dot product is the sum of the four lane products and is symmetric |
| VecMath.AddAssign4 | sources/miniRT_math.h:1174-1184 | `+=` agrees with binary `+` |
| VecMath.SubAssign4 | sources/miniRT_math.h:1190-1200 | `-=` agrees with binary `-` |
| VecMath.MulAssign4 | sources/miniRT_math.h:1124-1134 | `\|=` agrees with `\|` |
| VecMath.Cross4AsWrittenFlipsY | sources/miniRT_math.h:1047-1055 | the portable 4-vector `%` as written is the right-handed cross product with its y lane negated |
| VecMath.Cross4AsWrittenWrongSign | sources/miniRT_math.h:1049-1050 | counterexample: x-axis `%` z-axis has y = +1 as written where the cross product has -1 |
| VecMath.Cross4Orthogonal | sources/miniRT_math.h:1037-1056 | the corrected 4-vector `%` is the 3-vector cross product of the xyz lanes with w = 1, orthogonal to both inputs |
| VecMath.WidenXyz | sources/miniRT_math.h:1298-1306 | assigning a 3-vector to a 4-vector keeps the three lanes and sets w to 1 |
| VecMath.Add3Laws | sources/miniRT_math.h:1524-1608 | 3-vector `+`, `-` and unary `-` act lane by lane; `+` is commutative and associative with zero as neutral; `(a-b)+b == a` |
| VecMath.Mul3Laws | sources/miniRT_math.h:1491-1502 | the 3-vector element product multiplies lane by lane and distributes over `+` |
| VecMath.Dot3Symmetric | sources/miniRT_math.h:1407-1418 | the 3-vector dot product is symmetric and equals the 4-vector dot product of the widened vectors minus the w lanes' 1 |
| VecMath.AddAssign3 | sources/miniRT_math.h:1558-1568 | 3-vector `+=` agrees with `+` |
| VecMath.SubAssign3 | sources/miniRT_math.h:1574-1584 | 3-vector `-=` agrees with `-` |
| VecMath.MulAssign3 | sources/miniRT_math.h:1508-1518 | 3-vector `\|=` agrees with `\|` |
| VecMath.Cross3AsWrittenFlipsY | sources/miniRT_math.h:1435-1440 | the portable 3-vector `%` as written is the cross product with y negated, and `A % A` is zero |
| VecMath.Cross3AsWrittenNotOrthogonal | sources/miniRT_math.h:1438 | counterexample: (1,1,0) `%` (0,0,1) is (1,1,0) as written, whose dot product with (1,1,0) is 2, not 0 |
| VecMath.CrossOrthogonal | sources/miniRT_math.h:1424-1442 | the corrected cross product is orthogonal to both arguments |
| VecMath.CrossAntiCommutes | sources/miniRT_math.h:1424-1442 | the corrected cross product gives `a % a == 0` and `b % a == -(a % b)` |
| VecMath.CrossRightHanded | sources/miniRT_math.h:1426-1434 | the corrected cross product is right-handed (x `%` y = z, z `%` x = y), the convention of the SSE path |
| VecMath.Scale3AsWrittenIgnoresFactor | sources/miniRT_math.h:1448-1469 | counterexample: the portable `vector3 * float` as written returns (1,0,0) for (1,0,0) * 2 |
| VecMath.Scale3Laws | sources/miniRT_math.h:1475-1485 | the corrected `vector3 * float` scales each lane, as `*=` does; factor 1 is the identity and factor 0 gives zero |
| VecMath.MatExtensional | sources/miniRT_math.h:100-112 | two matrices with equal entries at every (i, j) are equal |
| VecMath.Offset | sources/miniRT_math.h:133-136 | the flat offset of entry (i, j) lies in [0, 16) |
| VecMath.Flat | sources/miniRT_math.h:102-111 | the float view `_11 .. _44` of a matrix holds 16 floats |
| VecMath.OffsetAddressesEntry | sources/miniRT_math.h:133-136 | flat offset `4i + j` addresses entry (i, j), with `offset / 4 == i` and `offset % 4 == j` |
| VecMath.Transposed | sources/miniRT_math.h:939-948 | entry (i, j) of the transpose is entry (j, i) of the matrix |
| VecMath.TransposeInvolutive | sources/miniRT_math.h:940-947 | transposing twice restores the matrix; the diagonal is never changed |
| VecMath.IdentityEntries | sources/miniRT_math.h:604-633 | the identity has 1 on the diagonal and 0 elsewhere; the zero matrix is 0 everywhere |
| VecMath.MatrixMultRow0 | sources/miniRT_math.h:673-680 | row 0 of `MatrixMult(A, B)` holds row 0 of A dotted with each column of B |
| VecMath.MatrixMultRow1 | sources/miniRT_math.h:682-689 | the same for row 1 |
| VecMath.MatrixMultRow2 | sources/miniRT_math.h:691-698 | the same for row 2 |
| VecMath.MatrixMultRow3 | sources/miniRT_math.h:700-707 | the same for row 3 |
| VecMath.MatrixMultEntry | sources/miniRT_math.h:645-710 | entry (i, j) of `MatrixMult(A, B)` is the sum over k of `A(i,k) * B(k,j)` |
| VecMath.IdentityNeutral | sources/miniRT_math.h:645-710 | the identity is neutral for `MatrixMult` on both sides |
| VecMath.Matrix.constructor | sources/miniRT_math.h:551-583 | the constructed matrix holds exactly the given entries |
| VecMath.Matrix.Get | sources/miniRT_math.h:133-136 | `m(i, j)` reads the float at flat offset `4i + j` |
| VecMath.Matrix.Set | sources/miniRT_math.h:133-136 | writing through `m(i, j)` sets entry (i, j) and no other |
| VecMath.Matrix.ZeroMatrix | sources/miniRT_math.h:604-613 | every entry becomes 0 |
| VecMath.Matrix.IdentityMatrix | sources/miniRT_math.h:619-634 | the matrix becomes the identity |
| VecMath.Matrix.Transpose | sources/miniRT_math.h:928-949 | the six swaps leave the transpose of the old matrix |
| IndexBuffers.IndexBuffer.constructor | sources/miniRT_index_buffer.cpp:17-24 | for `l > 0` the buffer holds its own fresh copy of the first l ints, and `size() == l` |
| IndexBuffers.IndexBuffer.Size | sources/miniRT_index_buffer.h:22 | `size()` is positive and is the number of stored ints |
| IndexBuffers.IndexBuffer.Get | sources/miniRT_index_buffer.cpp:38-42 | for `0 <= i < size()`, `get(i)` is the i-th stored int |
| IndexBuffers.IndexBuffer.SetAt | sources/miniRT_index_buffer.cpp:32-36 | writing through `operator[](i)` changes element i only; the size is unchanged |
| IndexBuffers.CopyIsIndependent | sources/miniRT_index_buffer.cpp:17-24 | a later write to the caller's array leaves the buffer's contents as they were copied |
| Lights.DefaultLight | sources/miniRT_light.h:21-26 | the default light is at the origin with specular (1,1,1,0), diffuse (0.5,0.5,0.5,0), ambient (0.2,0.2,0.2,0) and no cached occluder |
| Lights.NewLight | sources/miniRT_light.h:27-31 | the four-argument light stores its arguments and has no cached occluder |
| Lights.WithLastHit | sources/miniRT_light.h:41 | assigning through `last_hit()` sets the cache and keeps every other field |
| Lights.AssignToPositionCopy | sources/miniRT_light.h:40 | assigning to the copy returned by `position()` leaves the light unchanged |
| VertexBuffers.DefaultVertex | sources/miniRT_vertex.h:17-21 | the default vertex is at the origin with a zero normal, opaque white and uv (0, 0) |
| VertexBuffers.SlotsDisjoint | sources/miniRT_vertex_buffer.cpp:32-41 | slot `k*nb + i` lies in [0, 4nb), and distinct (plane, vertex) pairs get distinct slots |
| VertexBuffers.VertexBuffer.Plane | sources/miniRT_vertex_buffer.cpp:18-23 | each of the four attribute planes has nb slots |
| VertexBuffers.VertexBuffer.constructor | sources/miniRT_vertex_buffer.cpp:18-23 | for `size > 0`, `nb == size` and `4 * size` fresh slots |
| VertexBuffers.VertexBuffer.Size | sources/miniRT_vertex_buffer.h:29 | `size()` is nb, positive, and a quarter of the slot count |
| VertexBuffers.VertexBuffer.GetPos | sources/miniRT_vertex_buffer.cpp:44-48 | for `0 <= i < nb`, `get_pos(i)` reads slot i of plane 0 |
| VertexBuffers.VertexBuffer.GetNormal | sources/miniRT_vertex_buffer.cpp:50-54 | `get_normal(i)` reads slot `nb + i` |
| VertexBuffers.VertexBuffer.GetColor | sources/miniRT_vertex_buffer.cpp:56-60 | `get_color(i)` reads slot `2nb + i` |
| VertexBuffers.VertexBuffer.GetUV | sources/miniRT_vertex_buffer.cpp:62-66 | `get_UV(i)` reads slot `3nb + i` |
| VertexBuffers.VertexBuffer.StoreVertex | sources/miniRT_vertex_buffer.cpp:33-40 | one turn of the loop writes vertex i's four 3-float lanes to slots i, nb+i, 2nb+i and 3nb+i, and changes no other slot |
| VertexBuffers.VertexBuffer.StoreVertices | sources/miniRT_vertex_buffer.cpp:30-42 | after the loop, slot `k*nb + j` holds lane k of vertex j for every j and k |
| VertexBuffers.VertexBuffer.SetOptimized | sources/miniRT_vertex_buffer.cpp:30-42 | round trip: `get_pos(i) == p[i].pos` and `get_normal(i) == p[i].norm`; `get_color(i)` is the rgb of `p[i].rgba`; `get_UV(i)` starts with `p[i].uv` |
| ScreenBuffers.OffsetInRange | sources/miniRT_screen_buffer.h:20-23 | for an in-range (x, y), offset `x + ((dy-1)-y)*dx` lies in [0, dx*dy) |
| ScreenBuffers.OffsetFlipsRows | sources/miniRT_screen_buffer.h:20-21 | row y is storage row `dy-1-y` and column x is its x-th cell; row 0 is the last storage row |
| ScreenBuffers.OffsetInjective | sources/miniRT_screen_buffer.h:20-21 | two in-range pixels share an offset exactly when they are the same pixel |
| ScreenBuffers.ScreenBuffer.constructor | sources/miniRT_screen_buffer.h:28-35 | for `x > 0` and `y > 0` the buffer is x by y over `x*y` fresh cells |
| ScreenBuffers.ScreenBuffer.Get | sources/miniRT_screen_buffer.h:22-23 | `(x, y)` reads the cell at the flipped offset, which is in the array |
| ScreenBuffers.ScreenBuffer.Set | sources/miniRT_screen_buffer.h:20-21 | writing through `(x, y)` changes exactly that cell; every other pixel reads as before |
| ScreenBuffers.ScreenBuffer.Clear | sources/miniRT_screen_buffer.h:42-46 | every cell, and so every in-range pixel, holds v |
| Triangles.IntersectPlaneMeaning | sources/miniRT_triangle.cpp:21-48 | `intersect_plane` holds iff some corner is strictly below and either some corner is strictly above or the first corner is not below |
| Triangles.IntersectPlaneBand | sources/miniRT_triangle.cpp:36-47 | all three corners within epsilon of the plane gives false; corners strictly on both sides give true |
| Triangles.IntersectPlaneFavoursBelow | sources/miniRT_triangle.cpp:41-45 | a first corner on the plane plus one below counts as crossing, plus one above does not |
| Triangles.IntersectDetMeaning | sources/miniRT_triangle.cpp:50-76 | with the corrected `%` (the SSE path's product), `pvd` holds `d % e2`, orthogonal to d and e2, and its w lane is `e1 . (d % e2)`, minus the triple product of d, e1 and e2 |
| Triangles.IntersectDetAsWrittenFlipsY | sources/miniRT_triangle.cpp:72 | with the portable `%` as written, `pvd` has its y lane negated and det loses twice the y-lane product |
| Triangles.IntersectDetAsWrittenFlipsSign | sources/miniRT_triangle.cpp:72 | counterexample: corners (0,0,0), (0,1,0), (1,0,0) seen along +z give det = -1 as written (culled by the draw loop) and +1 corrected |
| Triangles.IntersectRay | sources/miniRT_triangle.cpp:78-110 | rejects whenever det > epsilon; otherwise accepts iff `-eps <= u <= det`, `v >= -eps` and `u + v <= det` |
| Triangles.BarycentricLadderMeaning | sources/miniRT_triangle.cpp:179-196 | rejection leaves u in lane y (and v in lane z if u passed); a hit divides t, u, v by det, holds iff both tests pass and `t/det > 0`, and gives `u + v <= 1` |
| Triangles.Barycentric | sources/miniRT_triangle.cpp:158-197 | on a hit, t > 0 and the scaled `u + v <= 1` |
| Triangles.BarycentricOverwrites | sources/miniRT_triangle.cpp:181-195 | the outcome does not depend on the incoming record except for its untouched w lane |
| Triangles.IntersectBarycentric | sources/miniRT_triangle.cpp:158-197 | the method's field-by-field writes to `tuv` give exactly the ladder's result |
| Triangles.ShadowHitMeaning | sources/miniRT_triangle.cpp:112-156 | `shadow_hit` holds iff denom != 0, `0 < beta < 1`, `gamma > 0`, `beta + gamma < 1` and `tmin <= t <= tmax` |
| Triangles.ShadowTermsAreBarycentric | sources/miniRT_triangle.cpp:129-153 | the Cramer's-rule terms of `shadow_hit` are the negated determinant, u, v and t numerators of the barycentric test |
| Triangles.ShadowAgreesWithBarycentric | sources/miniRT_triangle.cpp:112-156 | with det > epsilon and tmin > 0, a shadow hit is a barycentric hit at a depth in [tmin, tmax], and a strictly interior barycentric hit there is a shadow hit |
| Triangles.InterpolateNormalCorners | sources/miniRT_triangle.cpp:207-228 | with weights `1-(u+v)`, u and v: (0,0), (1,0) and (0,1) give the three corner normals, and equal corners give that normal |
| Triangles.IntersectNormalAsWrittenSums | sources/miniRT_triangle.cpp:221-227 | with the portable `vector3 * float` as written, the interpolated normal is the plain sum of the three normals |
| Triangles.IntersectNormalAsWrittenUnitNormals | sources/miniRT_triangle.cpp:221-227 | counterexample: three unit normals (0,0,1) give (0,0,3) as written and (0,0,1) corrected |
| Triangles.InterpolateColorCorners | sources/miniRT_triangle.cpp:261-282 | (0,0) gives corner v0's colour and equal corners give that colour; with the model's w = 1 for each cast corner, the weights sum to one so the result has w = 1 |
| Sweep.LastTrue | sources/miniRT_render.cpp:95-114 | the last crossing line, or -1 when none: it is crossed and no later line is |
| Sweep.RunStart | sources/miniRT_render.cpp:95-114 | the first line of the run of crossed lines ending at e: all lines from it to e are crossed and the one before it is not |
| Sweep.RunBoundMeaning | sources/miniRT_render.cpp:95-114 | no true column iff the bound is (-1, -1); otherwise it is the last run: it starts at lo, is true up to hi, ends at hi (or the last column), and nothing after is true |
| Sweep.Advance | sources/miniRT_render.cpp:101-113 | after one turn the found flag is the column's crossing |
| Sweep.StepRun | sources/miniRT_render.cpp:101-113 | entering a run records its start, leaving it records the end, and otherwise the bound is kept |
| Sweep.AdvanceTracks | sources/miniRT_render.cpp:101-113 | one loop turn keeps the tracker's state in step with the lines seen so far |
| Sweep.TracksFinal | sources/miniRT_render.cpp:95-114 | after every line the tracker's (lo, hi) is exactly the run bound |
| Sweep.RunStartPrefix | sources/miniRT_render.cpp:95-114 | the start of the run through column e depends only on columns 0..e |
| Render.ScanLines | sources/miniRT_render.cpp:95-114 | the sweep loop over n lines returns the tracker's final (lo, hi) |
| Render.Crossings | sources/miniRT_render.cpp:95-114 | one entry per scan line, and entry k is `intersect_plane` of the triangle against scan plane k |
| Render.ScanTrack | sources/miniRT_render.cpp:95-114 | the tracker of `begin` after x lines: `found` says whether line x - 1 crossed, and both ends are -1 or a line already seen |
| Render.ScanTrackTracks | sources/miniRT_render.cpp:95-114 | the tracker after the first x lines is in step with the crossings of those lines |
| Render.ScanBoundIsRunBound | sources/miniRT_render.cpp:95-114 | the tracker's final (lo, hi) is the run bound of the crossing sequence |
| Render.ScanBoundRange | sources/miniRT_render.cpp:95-114 | the bound is (-1, -1) or `0 <= lo <= hi < n`, and (-1, -1) iff no line crosses |
| Render.BoundFits | sources/miniRT_render.cpp:91-140 | every bound lies on the screen, and a bound with no crossing column or row covers no pixel |
| Render.BoundOfMeaning | sources/miniRT_render.cpp:91-140 | xmin = xmax = -1 iff no column crosses and ymin = ymax = -1 iff no row crosses; such a bound covers nothing |
| Render.PixelHit | sources/miniRT_render.cpp:194-206 | a hit of the pixel's ray (det > epsilon, then barycentric) is at a positive depth |
| Render.DepthStepMeaning | sources/miniRT_render.cpp:196-206 | the depth never goes up; it goes down iff the pixel is covered and hit strictly nearer, and then it becomes the hit depth; ties keep the old depth |
| Render.DepthAfterIsLowerBound | sources/miniRT_render.cpp:182-217 | after drawing [first, upto) a pixel's depth is at most its old depth and at most every covering triangle's hit depth |
| Render.DepthAfterIsAttained | sources/miniRT_render.cpp:182-217 | that depth is the old depth or the hit depth of some covering triangle in the range |
| Render.Renderer.Scene | sources/miniRT_render.cpp:171 | the triangle count is the index count divided by 3 |
| Render.Renderer.constructor | sources/miniRT_render.cpp:37-60 | for positive x, y and obj: unlocked, no buffers, no lights, x by y screen buffers and obj bounds |
| Render.Renderer.IsLocked | sources/miniRT_render.h:56 | `is_locked()` is the lock flag |
| Render.Renderer.End | sources/miniRT_render.cpp:146 | the renderer is unlocked |
| Render.Renderer.SetCamera | sources/miniRT_render.h:59 | only the camera changes, with no lock guard |
| Render.Renderer.SetVertexBuffer | sources/miniRT_render.cpp:148-154 | requires unlocked; only the vertex buffer changes |
| Render.Renderer.SetIndexBuffer | sources/miniRT_render.cpp:156-161 | requires unlocked and a size divisible by 3; only the index buffer changes |
| Render.Renderer.Begin | sources/miniRT_render.cpp:73-144 | requires unlocked with both buffers set; locks, returns true, sets bound t to `BoundOf` for every triangle and keeps the entries past the triangle count |
| Render.Renderer.SweepBounds | sources/miniRT_render.cpp:91-140 | both sweeps leave every triangle's `BoundOf`, each on the screen |
| Render.Renderer.SweepColumns | sources/miniRT_render.cpp:91-115 | the reset and column sweep give bound (xmin, -1, xmax, -1) for every triangle |
| Render.Renderer.SweepRows | sources/miniRT_render.cpp:117-140 | the row sweep adds (ymin, ymax) and keeps the column bounds |
| Render.Renderer.Draw | sources/miniRT_render.cpp:163-219 | requires lock and `0 <= first <= last < count`; each depth cell ends at `DepthAfter` over [first, last]; colours change only where the depth went strictly down; lights change only their caches |
| Render.Renderer.DrawRange | sources/miniRT_render.cpp:182-217 | the triangle loop draws triangles first to last in order |
| Render.Renderer.DrawTriangle | sources/miniRT_render.cpp:183-216 | rows [ymin, ymax) of the bound move every pixel from its depth after t triangles to its depth after t + 1 |
| Render.Renderer.DrawRow | sources/miniRT_render.cpp:190-215 | columns [xmin, xmax) of row y are passed in order, each by the depth step |
| Render.Renderer.DrawColumn | sources/miniRT_render.cpp:190-215 | one column turn passes pixel (x, y) and keeps the loop's invariants |
| Render.Renderer.DrawPixel | sources/miniRT_render.cpp:191-206 | the pixel's depth becomes its `DepthStep`, every other pixel is unchanged; when the depth went down the colour is `clampRGBA` of phong's colour for the hit record and the lights get phong's caches, otherwise colours and lights are unchanged |
| Render.Renderer.PaintPixel | sources/miniRT_render.cpp:205 | the colour cell gets `phong`'s word and the lights their new caches; no other pixel changes |
| Render.Renderer.AddLight | sources/miniRT_render.cpp:240-251 | the count grows by one, earlier lights keep their order, l is last, and the new count is returned |
| Render.Renderer.ClearBuffer | sources/miniRT_render.cpp:221-228 | every depth cell is `minirt_huge`, and every colour cell is the lights' background |
| Render.Renderer.Visibility | sources/miniRT_render.cpp:290-331 | the visible flag and the new cache are the decision of the cache policy, with the cached triangle retested over [eps, dist - eps] and the full scan over [eps, 1000] |
| Render.Renderer.AddTerms | sources/miniRT_render.cpp:333-348 | the colour after one light is `Shade` of the three branches |
| Render.Renderer.ShadeLight | sources/miniRT_render.cpp:290-349 | one turn of the light loop computes the colour and the light that `LightStep` specifies |
| Render.Renderer.ShadeTurn | sources/miniRT_render.cpp:290-349 | after turn j, the colour and lights [0, j] are `Lighting` of the first j + 1 lights, and the rest are untouched |
| Render.Renderer.ShadeLights | sources/miniRT_render.cpp:290-349 | the light loop's colour and light array are `Lighting` of the old lights |
| Render.Renderer.Phong | sources/miniRT_render.cpp:273-351 | the word is `clampRGBA` of the `Lighting` colour, and the lights end as `Lighting` leaves them |
| Shading.Truncate | sources/miniRT_render.cpp:254 | the float-to-int cast rounds toward zero |
| Shading.Channel | sources/miniRT_render.cpp:254-256 | a channel is in [0, 255]: 0 below 1/256, 255 from 255/256, otherwise the truncation of `c * 256` |
| Shading.ClampRGBA | sources/miniRT_render.cpp:253-271 | the word is below 2^24, with red in bits 0-7, green in bits 8-15 and blue in bits 16-23 |
| Shading.ClampIgnoresAlpha | sources/miniRT_render.cpp:266-270 | alpha is computed but not packed: the word does not depend on it |
| Shading.ClampRGBAUnpacks | sources/miniRT_render.cpp:270 | two words are equal iff their three channels are |
| Shading.BackgroundAsWrittenCarries | sources/miniRT_render.cpp:221-228 | counterexample: two lights with ambient (0.8,0,0,0) give 0x198 as written (the red sum carries into green) and 255 corrected |
| Shading.BackgroundSingleLight | sources/miniRT_render.cpp:221-228 | with one light the as-written and corrected backgrounds agree |
| Shading.Background | sources/miniRT_render.cpp:221-228 | the corrected background is a 24-bit word whose red channel clamps the summed ambient red |
| Shading.BackgroundIsShadowedWhite | sources/miniRT_render.cpp:221-228 | the corrected background is the word `phong` gives a white surface that every light shadows |
| Shading.FirstOccluder | sources/miniRT_render.cpp:313-329 | the scan returns -1 or an index in [from, count) |
| Shading.FirstOccluderMeaning | sources/miniRT_render.cpp:313-329 | the scan returns the first k in ascending order that is not skipped and that the shadow test hits, or -1 when none does |
| Shading.DecideMeaning | sources/miniRT_render.cpp:292-331 | facing away: not visible, cache kept; a cached occluder that still occludes: shadowed, cache kept, no scan; visible only with no occluder; the cache changes only to the scan's first occluder |
| Shading.DecideKeepsCacheInRange | sources/miniRT_render.cpp:298-329 | the cache stays -1 or a triangle index |
| Shading.ShadeShadowedIsAmbientOnly | sources/miniRT_render.cpp:345-348 | what a shadowed light adds depends only on its ambient colour, not on its diffuse, specular or angle |
| Shading.ShadeSpecularOnlyAbove | sources/miniRT_render.cpp:333-344 | the specular colour matters only when `ndotl > 0.9` |
| Shading.ShadeMultipliesEarlierLights | sources/miniRT_render.cpp:345-347 | `col \|= surface` also multiplies the colour that earlier lights added |
| Shading.HitPoint | sources/miniRT_render.cpp:286 | the hit point is the eye at depth 0 |
| Shading.LightStep | sources/miniRT_render.cpp:290-349 | one light changes only its cache, which stays -1 or a triangle index |
| Shading.LightStepCacheIsFirstOccluder | sources/miniRT_render.cpp:313-329 | a changed cache is the first triangle, in index order, that the full scan finds occluding |
| Shading.LightingKeepsLights | sources/miniRT_render.cpp:290-349 | the light loop keeps the number of lights and every field except each cache, and keeps caches in range |
| Shading.Phong | sources/miniRT_render.cpp:273-351 | `phong`'s word fits in 24 bits |

Helper lemmas that only unfold a definition for a loop proof have no row. Examples are `Shading.LightingSnoc` (for `Renderer.ShadeTurn`), the `Render.DrawnWithin*` lemmas and `Render.ColoursFollowStep` (for the draw loop), and the arithmetic facts in `ScreenBuffers` and `Triangles`.

## Left out

- **Triangles.IntersectDetMeaning: corrected `%`.** `intersect_det`, `intersect_ray`,
  `intersect_barycentric` and `shadow_hit` call the portable `%`, whose y lane has the
  wrong sign (see Findings). The model uses the corrected product, which the SSE path
  computes. As written, the sign of det changes for some triangles, and with it which
  triangles the draw loop culls (`Triangles.IntersectDetAsWrittenFlipsSign`). The
  orthogonality of `pvd` holds only for the corrected product.
- Triangles.IntersectRay: uses the corrected `%` for pvd and qvec, as for IntersectDetMeaning.
- Triangles.Barycentric: uses the corrected `%` for qvec, as for IntersectDetMeaning.
- Triangles.IntersectBarycentric: uses the corrected `%` for qvec, as for IntersectDetMeaning.
- Triangles.ShadowHitMeaning: uses the corrected `%` for both Cramer's-rule cross products,
  as for IntersectDetMeaning. The same holds for `Render.PixelHit`, `Render.Renderer.DrawPixel`
  and the shadow scan of `Render.Renderer.Visibility`, which call these tests.
- Triangles.InterpolateColorCorners: the source casts each 3-float corner colour to a
  4-vector without defining lane w. The model sets it to 1, so the w = 1 of the result is
  the model's choice. `clampRGBA` never packs w (`Shading.ClampIgnoresAlpha`).
- **Camera projection.**
  - `tanf(fov)`, `top_left`, `right_step`, `up_step` and the normalised scan-plane normals
    of `begin` become the parameter `Projection` (sources/miniRT_render.cpp:79-98).
  - The per-pixel ray direction also comes from `Projection`. In the source, the draw loop
    builds it by accumulating `right_step` into `yscanline` and normalising.
  - Where `Projection` itself comes from is not modelled, because it needs `tanf` and
    square roots.
- **Square roots in `phong`.** `Normalize` and `sqrt` come from the parameter `Numerics`.
  `Length`, `Normalize` and `~` of the math header are not modelled: they divide by zero on
  a zero vector.
- **Float rounding.** Scalars are exact reals, so IEEE rounding, infinities and NaN are not
  modelled.
  - A zero `denom` in `shadow_hit` is a rejection; with floats, every infinite or NaN
    outcome rejects too.
  - `bound_tri` holds integers where the source stores integer-valued floats and casts
    them back with `(int)`.
- **Depth buffer contents.** These are real numbers compared exactly.
- **Display and windowing.** `render::present`, the window, the event loop, `main`, the
  allocator overrides, the meshes and the camera class are not part of this model. They are
  OpenGL, SDL and asset code.
- **Destructors.** Memory release is not modelled.
- **Unused renderer state.** The `init`, `pw`, `sldx` and `sldy` fields are not used by the
  modelled operations.
- **`intersect_texmap` and `intersect_point`.** Neither is used by the renderer.
  `intersect_point`'s expression appears inside `phong` as `HitPoint`.
- **SSE paths.** All `_M_IX86` branches of the math header are left out.
- **Other math operations.**
  - Matrix `+`, `-`, scalar `*`, `*=` and vector-by-matrix products are not used by the
    modelled core.
  - `Inverse`, `Determinant`, the rotations and the 2-vector operators are left out too.
- **The triangle object.** The renderer's `tri` reads the vertex buffer. The model passes
  the vertex and index data as one value, `Geometry`.
- **Unread draw-loop state.** The draw loop's `found`/`lastx` bookkeeping is not modelled:
  nothing reads it, because `found` starts true.
- **Render.Renderer.DrawPixel: lane w of `tuvi`.**
  - The source carries lane w of `tuvi` over from earlier pixels. `intersect_barycentric`
    never writes that lane.
  - The model starts each pixel's hit record at zero. `phong` reads only lanes x, y and z.
- **Render.Renderer.Draw: requires `lcount > 0`.**
  - The source asserts this only inside `phong`, so only when some pixel is hit.
  - The contract states colours only as following the depths. The exact colour word is
    stated per pixel by `DrawPixel`, because each hit changes the light caches that later
    pixels read.
- **Render.Renderer.Begin: requires the triangle count to be at most `maxobj`.** The source
  does not check this, and past it `begin` writes beyond `bound_tri`.
- **Render.Renderer.Begin and Render.Renderer.Draw: derived values are parameters.**
  - They take the camera's `Projection` as a parameter.
  - The draw helpers, `Phong` and the sweeps are static methods. They take the renderer's
    arrays and values as parameters.
- **Render.Renderer.constructor: the camera.** The camera is given rather than
  default-constructed. `bound_tri` starts zeroed rather than uninitialised.
- **Shading.Phong and Render.Renderer.ClearBuffer: corrected operators.**
  - Both use the corrected `vector3 * float` and the corrected background (see Findings).
  - As written, `phong`'s hit point `pos + dir * t` would be `pos + dir`, and the normal
    would be the sum of the corner normals.
- **Shading.HitPoint.** Its own contract states only the depth-0 case. Its use is pinned by
  `Render.Renderer.Phong`.
- **VertexBuffers.VertexBuffer.SetOptimized: the uv slot.** The slot receives the 3-float
  copy of a 2-vector. Its third lane is whatever follows `uv` in memory (`Vertex.uvLane2`).

## Findings

| source | as written | input that shows it | evidently intended | confidence | as-written member | corrected member |
|---|---|---|---|---|---|---|
| sources/miniRT_math.h:1438 | portable `vector3 % vector3` sets `y = A.x*B.z - A.z*B.x` | A = (1,1,0), B = (0,0,1) gives (1,1,0), not orthogonal to A; in `intersect_det` the triangle (0,0,0), (0,1,0), (1,0,0) seen along +z gets det = -1 instead of +1 | `y = A.z*B.x - A.x*B.z`, the sign the SSE path computes | high, not executed | VecMath.Cross3AsWrittenNotOrthogonal, Triangles.IntersectDetAsWrittenFlipsSign | VecMath.CrossOrthogonal |
| sources/miniRT_math.h:1050 | portable `vector % vector` has the same y sign | x-axis `%` z-axis gives y = +1 | y = -1, as for the 3-vector cross product | high, not executed | VecMath.Cross4AsWrittenWrongSign | VecMath.Cross4Orthogonal |
| sources/miniRT_math.h:1448-1469 | portable `vector3 * float` computes the scaled vector but returns V | (1,0,0) * 2 gives (1,0,0); three unit normals interpolate to (0,0,3) in `intersect_normal` | return the scaled vector, as `*=` does | high, not executed | VecMath.Scale3AsWrittenIgnoresFactor, Triangles.IntersectNormalAsWrittenUnitNormals | VecMath.Scale3Laws, Triangles.InterpolateNormalCorners |
| sources/miniRT_render.cpp:223-227 | `clear_buffer` adds the packed `clampRGBA` words of the ambients | two lights with ambient (0.8,0,0,0) give 0x198: red 0x98 and a carry into green | clamp the summed ambient colour per channel, which is the colour `phong` gives a fully shadowed white surface | medium, not executed | Shading.BackgroundAsWrittenCarries | Shading.BackgroundIsShadowedWhite |
