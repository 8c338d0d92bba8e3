# JSettlers background renderer and material offers in Dafny

This project models two parts of JSettlers.

- **The map background renderer** (`Background`). It packs landscape tile images into one 1024 × 1024 texture atlas. It picks the atlas tile for each of a map cell's two triangles, including the border tile between two landscapes. It emits the triangle mesh, with positions, heights and texture coordinates, and a separate per-vertex shading buffer. On the synchronous update path it tracks which cells and points are stale, using two bit sets and a rebuild flag. Each draw refreshes only the stale cells inside the visible window.
- **`MaterialOffer`**. This is an offer of materials at a map position: a byte-sized unit count, a priority, and the active and removable predicates derived from the count.

Everything is modelled as immutable values and pure functions. The loops of the source are methods over sequences and sets:

- the atlas writer and the copy loop that follows it;
- the window scans of a draw.

Each loop is proved against a reference definition. For the scans that is the set of window cells and the dirty cells among them. For the atlas it is the texel a tile shows after its image is added.

Modules:

| module | file | contents |
|---|---|---|
| `Common` | common.dfy | `Option`, map `Point` |
| `Landscapes` | landscape.dfy | the landscape types `getBorder` names, plus `Other(id)` for the rest |
| `TextureTable` | texture_table.dfy | atlas constants and the 235-entry tile table |
| `Borders` | borders.dfy | `getBorder` as an if/else chain, and the same pairs as an order-free nested match |
| `JavaArith` | java_arith.dfy | Java's truncating `/` and `%`, `realModulo`, `(byte)` narrowing |
| `Geometry` | geometry.dfy | triangle classification, tile choice, texture offset, vertices of a cell |
| `Shading` | shading.dfy | the vertex brightness and its byte encoding |
| `Atlas` | atlas.dfy | `ImageWriter.writeLine`, `addTextures`, `getTexture` |
| `DirtyTracking` | dirty.dfy | change notifications, the stale bits and the draw-time scans |
| `MaterialOffers` | material_offer.dfy | the offer and its counter |

Some values come from outside the modelled code. They are parameters here:

- the landscape enumeration's image numbers;
- `DrawConstants.DISTANCE_X/Y`;
- the `ETextureOrientation` corner tables;
- the height and visibility providers;
- `FOG_OF_WAR_VISIBLE`;
- the tile decoder, given as the lines it delivers and whether it finished.

The `MaterialOffer` constructor and getters are the `MaterialOffer` datatype's constructor and fields. The datatype stores position, priority and amount exactly as given.

Some behaviour of the code is easy to misread; the model follows the code as written:

- **Copy loop after an image.** The loop after each image repeats the whole block of landed lines down the square: row t copies row t − h. It does not repeat only the last written row. It also runs for single-square tiles.
- **Decoder failure in `getTexture`.** `getTexture` catches the decoder's `IOException`. The caller therefore receives a partially built atlas, or an all-zero atlas when the file reader is missing, rather than nothing.
- **Length-3 visibility change at x = 20.** It marks columns 19 to 23, because `BitSet.set(from, to)` excludes `to`.
- **`decrementAmount`.** Its doc comment (MaterialOffer.java lines 58-62) promises the new value, but the method returns nothing.

## Model

All Background rows cite `jsettlers.graphics/src/main/java/jsettlers/graphics/map/draw/Background.java`. All MaterialOffers rows cite `jsettlers.logic/src/main/java/jsettlers/logic/map/grid/partition/manager/materials/offers/MaterialOffer.java`.

| member | source | states |
|---|---|---|
| TextureTable.PositionsFit | jsettlers.graphics/src/main/java/jsettlers/graphics/map/draw/Background.java:126-842 | the tile table has 235 entries, and each lies inside the 32 × 32 grid with a size of 1 to 5 squares |
| TextureTable.BorderRangeSingle | jsettlers.graphics/src/main/java/jsettlers/graphics/map/draw/Background.java:126-842 | every tile id from which border tiles are drawn (37 to 234, except the continuous 176, 217 and 230) is a single grid square |
| TextureTable.SharedSquare | jsettlers.graphics/src/main/java/jsettlers/graphics/map/draw/Background.java:422-447 | entries 98 and 105 are the same tile, square (30, 16) of size 1 |
| Borders.SecondVariant | jsettlers.graphics/src/main/java/jsettlers/graphics/map/draw/Background.java:985-1174 | the secondary variant is primary + 1 exactly for listed (outer, inner) pairs; for any other pair both variants are the outer landscape's image |
| Borders.GetBorder | jsettlers.graphics/src/main/java/jsettlers/graphics/map/draw/Background.java:985-1174 | a pair in the order-free border table gives its id, or the next id for the secondary variant; any other pair gives the outer landscape's image |
| Borders.ChainIsListed | jsettlers.graphics/src/main/java/jsettlers/graphics/map/draw/Background.java:985-1163 | the if/else chain gives the same tile as an order-free nested match with one case per pair |
| Borders.SharedBorderTile | jsettlers.graphics/src/main/java/jsettlers/graphics/map/draw/Background.java:1036-1075 | two different pairs, (Grass, MountainBorderOuter) and (Grass, DryGrass), both map to tile 116 |
| Borders.ReversePairListed | jsettlers.graphics/src/main/java/jsettlers/graphics/map/draw/Background.java:985-1163 | every listed pair's reverse is listed too, with an id exactly 2 away |
| Borders.ListedBorderIsTile | jsettlers.graphics/src/main/java/jsettlers/graphics/map/draw/Background.java:985-1174 | both variants of a listed border are valid tile ids |
| Borders.ListedBordersAreSingleSquares | jsettlers.graphics/src/main/java/jsettlers/graphics/map/draw/Background.java:985-1174 | both variants of a listed border are single-square tiles |
| JavaArith.Div | jsettlers.graphics/src/main/java/jsettlers/graphics/map/draw/Background.java:1397 | Java's quotient: Euclidean for n ≥ 0, and quotient × divisor + Java remainder == n |
| JavaArith.Rem | jsettlers.graphics/src/main/java/jsettlers/graphics/map/draw/Background.java:1468-1474 | Java's remainder takes the dividend's sign and is smaller than the divisor in magnitude |
| JavaArith.RealModulo | jsettlers.graphics/src/main/java/jsettlers/graphics/map/draw/Background.java:1468-1474 | a non-negative number gets its ordinary remainder; a negative one a value in 1..modulo |
| JavaArith.RealModuloRange | jsettlers.graphics/src/main/java/jsettlers/graphics/map/draw/Background.java:1468-1474 | `realModulo` lies in 0..modulo inclusive and is congruent to the number; it equals modulo exactly for negative multiples, and otherwise equals the Euclidean remainder |
| JavaArith.ToByte | jsettlers.graphics/src/main/java/jsettlers/graphics/map/draw/Background.java:1460 | `(byte)` narrowing gives a value in −128..127 that is congruent to the input modulo 256 |
| Geometry.SplitOf | jsettlers.graphics/src/main/java/jsettlers/graphics/map/draw/Background.java:1378-1390 | each layout happens exactly under its equality pattern of the three corners (iff for all four); a straight border is (left, a), a left split (left, right), and a right split (a, left) for the up triangle but (right, left) for the down triangle |
| Geometry.Classify | jsettlers.graphics/src/main/java/jsettlers/graphics/map/draw/Background.java:1374-1390 | the layout is the corners' split; a continuous triangle uses the landscape's own image, and every other layout the `getBorder` tile of the split's outer and inner landscape with the triangle's variant |
| Geometry.ChoiceIsTile | jsettlers.graphics/src/main/java/jsettlers/graphics/map/draw/Background.java:1378-1392 | every triangle's tile index is a valid table index whenever the image numbers are |
| Geometry.TextureOffsetRange | jsettlers.graphics/src/main/java/jsettlers/graphics/map/draw/Background.java:1392-1403 | a continuous tile's texture offset stays within one period (size − 1 squares) of the tile corner, both ends included; a single-square tile's offset is its corner |
| Geometry.TextureOffset | jsettlers.graphics/src/main/java/jsettlers/graphics/map/draw/Background.java:1392-1403 | a single-square tile is drawn from its corner; a larger tile's offset from its corner is congruent to the cell's screen position modulo the period (size − 1 squares) |
| Geometry.UseSecondParity | jsettlers.graphics/src/main/java/jsettlers/graphics/map/draw/Background.java:1348-1374 | the up triangle uses the second variant when x + y is even, the down triangle when x is even |
| Geometry.Triangle | jsettlers.graphics/src/main/java/jsettlers/graphics/map/draw/Background.java:1363-1433 | a triangle has three vertices on its sampled corners, in emission order, each with the height of its own point |
| Geometry.TriangleTexture | jsettlers.graphics/src/main/java/jsettlers/graphics/map/draw/Background.java:1392-1422 | each vertex's texture coordinates, scaled back to texels, are the layout's texel for that vertex shifted by exactly this cell's texture offset `(dx, dy)` into the tile the corner landscapes chose, and that shift lies in the tile's repeat region (exactly its corner for a single-square tile) |
| Geometry.Cell | jsettlers.graphics/src/main/java/jsettlers/graphics/map/draw/Background.java:1348-1351 | a cell's six vertices are the up triangle and then the down triangle; they lie on the cell's four corners in emission order (both triangles share the diagonal), each with its own point's height |
| Shading.Luminance | jsettlers.graphics/src/main/java/jsettlers/graphics/map/draw/Background.java:1446-1451 | brightness is 0.85 + 0.15 × the height step, clamped to 0.4..1.0: 1.0 from a step of +1 and 0.4 from −3 |
| Shading.LuminanceMonotone | jsettlers.graphics/src/main/java/jsettlers/graphics/map/draw/Background.java:1440-1451 | a larger height step never gives a darker point |
| Shading.Shade | jsettlers.graphics/src/main/java/jsettlers/graphics/map/draw/Background.java:1435-1453 | a point is black exactly when it is on the dark border or hidden by fog; otherwise its value is the clamped brightness 0.85 + 0.15 × (height above − own height) in 0.4..1, multiplied under fog by visibility / full visibility, so positive but no brighter than that share |
| Shading.CellColors | jsettlers.graphics/src/main/java/jsettlers/graphics/map/draw/Background.java:1353-1361 | a cell has six colours, black exactly at the dark sample points, and equal at the two corners both triangles share |
| Shading.ColorsFollowVertices | jsettlers.graphics/src/main/java/jsettlers/graphics/map/draw/Background.java:1348-1361 | colour k of a cell is the shade of the point where vertex k of the mesh lies |
| Shading.ColorBytesUnsigned | jsettlers.graphics/src/main/java/jsettlers/graphics/map/draw/Background.java:1455-1465 | for an intensity in 0..1, each grey byte read unsigned is the floor of intensity × 255, and alpha reads 255 |
| Shading.ColorBytes | jsettlers.graphics/src/main/java/jsettlers/graphics/map/draw/Background.java:1455-1465 | the three grey bytes are equal and congruent to floor(intensity × 255) modulo 256, and alpha is the byte 255 (−1 signed) |
| DirtyTracking.NewCache | jsettlers.graphics/src/main/java/jsettlers/graphics/map/draw/Background.java:1176-1199 | the buffer is one cell smaller than the map on each axis, and nothing starts out stale |
| DirtyTracking.InvalidateShapePoint | jsettlers.graphics/src/main/java/jsettlers/graphics/map/draw/Background.java:1339-1343 | inside the inclusive guard, the cell bit is added and the flag raised; outside it nothing changes |
| DirtyTracking.InvalidateAliasing | jsettlers.graphics/src/main/java/jsettlers/graphics/map/draw/Background.java:1339-1343 | invalidating (bufferWidth, y) has the same effect as invalidating (0, y + 1) |
| DirtyTracking.UpdateLine | jsettlers.graphics/src/main/java/jsettlers/graphics/map/draw/Background.java:1485-1496 | it throws exactly on a negative or reversed range and then changes nothing; otherwise it adds exactly the bit range |
| DirtyTracking.LineColumnsWiden | jsettlers.graphics/src/main/java/jsettlers/graphics/map/draw/Background.java:1502-1505 | for a change starting at any column 0..bufferWidth, the range widens by one on the left unless at column 0, one on the right while below the buffer width, and is otherwise cut off at the buffer width; it is never reversed |
| DirtyTracking.UpdateLinesMarks | jsettlers.graphics/src/main/java/jsettlers/graphics/map/draw/Background.java:1507-1509 | line updates of in-map rows complete and mark exactly the given columns of the given rows |
| DirtyTracking.ColorLineChangedAt | jsettlers.graphics/src/main/java/jsettlers/graphics/map/draw/Background.java:1499-1510 | a change on the last point row does nothing; any change keeps the cell bits, the flag and the buffer size, and only adds stale points |
| DirtyTracking.ColorLineMarks | jsettlers.graphics/src/main/java/jsettlers/graphics/map/draw/Background.java:1499-1510 | a visibility change on a mesh row starting at any in-map column marks exactly the widened columns of its row and of its neighbouring mesh rows, and leaves cell bits and flag alone |
| DirtyTracking.ColorLineScenario | jsettlers.graphics/src/main/java/jsettlers/graphics/map/draw/Background.java:1499-1510 | a length-3 change at (20, 10) marks exactly columns 19..23 of rows 9..11 |
| DirtyTracking.ShapeChangeScenario | jsettlers.graphics/src/main/java/jsettlers/graphics/map/draw/Background.java:1477-1483 | a terrain change at (5, 5) marks exactly the four cells around that point and raises the flag |
| DirtyTracking.ShapeChangedAt | jsettlers.graphics/src/main/java/jsettlers/graphics/map/draw/Background.java:1477-1483 | it throws exactly when the colour update does; otherwise it adds exactly the guarded cells of the four around the point, and raises the flag exactly when one passes the guard |
| DirtyTracking.ShapeChangedMarks | jsettlers.graphics/src/main/java/jsettlers/graphics/map/draw/Background.java:1477-1483 | a terrain change at any map point completes, marks the colours of a one-point visibility change, adds the point's own cell and the guarded three neighbours, and raises the flag |
| DirtyTracking.ScanRow | jsettlers.graphics/src/main/java/jsettlers/graphics/map/draw/Background.java:1286-1310 | scanning one window row clears exactly that row's window bits and emits the row's set cells, left to right |
| DirtyTracking.ScanWindow | jsettlers.graphics/src/main/java/jsettlers/graphics/map/draw/Background.java:1278-1331 | scanning the window clears exactly the window's bits and emits the dirty window cells in row-major order |
| DirtyTracking.UpdateGeometry | jsettlers.graphics/src/main/java/jsettlers/graphics/map/draw/Background.java:1273-1337 | a draw produces the reference post-draw state and regenerates exactly the dirty window cells: colour cells always, mesh cells only when the flag was up |
| DirtyTracking.DrawIdempotent | jsettlers.graphics/src/main/java/jsettlers/graphics/map/draw/Background.java:1273-1337 | a second draw over the same window regenerates nothing and changes nothing |
| DirtyTracking.StaleCellsOutsideWindowWait | jsettlers.graphics/src/main/java/jsettlers/graphics/map/draw/Background.java:1313-1332 | corollary of `AfterDraw` and `ShapeCells`: stale cells outside the window stay set once the flag is lowered, and no later draw regenerates them until the flag is raised again |
| DirtyTracking.CellOffsetBound | jsettlers.graphics/src/main/java/jsettlers/graphics/map/draw/Background.java:1319-1327 | a cell's bit and mesh byte offset lie inside the buffers |
| DirtyTracking.PatchOffsetsInBuffer | jsettlers.graphics/src/main/java/jsettlers/graphics/map/draw/Background.java:1291-1327 | every regenerated cell lies inside the mesh, so its buffer position and byte offset are in range |
| Atlas.WriteLine | jsettlers.graphics/src/main/java/jsettlers/graphics/map/draw/Background.java:923-930 | before the square's end, the line is repeated across the next square row and the offset moves one atlas row down; after it, the line is dropped |
| Atlas.WriteLineAt | jsettlers.graphics/src/main/java/jsettlers/graphics/map/draw/Background.java:923-930 | a written line changes exactly one row segment of the atlas |
| Atlas.CopyRow | jsettlers.graphics/src/main/java/jsettlers/graphics/map/draw/Background.java:968 | `System.arraycopy` changes exactly the destination range, copying from the source range |
| Atlas.WriteImage | jsettlers.graphics/src/main/java/jsettlers/graphics/map/draw/Background.java:951-962 | after the decoder's lines, each landed line fills its own square row and the writer offset is h rows down; for a failed image this is the final picture |
| Atlas.RepeatBlock | jsettlers.graphics/src/main/java/jsettlers/graphics/map/draw/Background.java:964-970 | the copy loop makes every square row i show landed line i mod h |
| Atlas.AddTile | jsettlers.graphics/src/main/java/jsettlers/graphics/map/draw/Background.java:951-971 | adding a tile yields exactly the reference picture: square row i shows line i mod h repeated across, a failed image only its delivered rows, and the rest of the atlas is unchanged |
| Atlas.OutsideSquareKept | jsettlers.graphics/src/main/java/jsettlers/graphics/map/draw/Background.java:951-971 | corollary of the reference picture `Painted` that `AddTile` meets: texels outside the tile's square keep their value |
| Atlas.EmptyImageKeeps | jsettlers.graphics/src/main/java/jsettlers/graphics/map/draw/Background.java:964-970 | corollary of the reference picture `Painted` that `AddTile` meets: an image without lines leaves the atlas unchanged: the copy loop copies each row onto itself |
| Atlas.IncompleteShowsDeliveredRows | jsettlers.graphics/src/main/java/jsettlers/graphics/map/draw/Background.java:951-962 | a failed image shows each delivered line in its own row and nothing below |
| Atlas.CompleteOverwrites | jsettlers.graphics/src/main/java/jsettlers/graphics/map/draw/Background.java:964-970 | a complete non-empty image covers its whole square, whatever was there before |
| Atlas.RowPeriodic | jsettlers.graphics/src/main/java/jsettlers/graphics/map/draw/Background.java:964-970 | down a complete image's square the picture repeats with period h |
| Atlas.ColumnPeriodic | jsettlers.graphics/src/main/java/jsettlers/graphics/map/draw/Background.java:923-927 | across a square row the picture repeats with the line's length as period |
| Atlas.AddTextures | jsettlers.graphics/src/main/java/jsettlers/graphics/map/draw/Background.java:941-972 | tiles are added in table order; the build stops right after the first failed image, and reports success exactly when every image decoded |
| Atlas.StopsAtUnique | jsettlers.graphics/src/main/java/jsettlers/graphics/map/draw/Background.java:951-962 | the point where the build stops is unique |
| Atlas.GetTexture | jsettlers.graphics/src/main/java/jsettlers/graphics/map/draw/Background.java:870-877 | a missing reader gives an all-zero atlas; otherwise the atlas is a zeroed atlas built up to where the build stopped |
| Atlas.UncoveredKept | jsettlers.graphics/src/main/java/jsettlers/graphics/map/draw/Background.java:941-972 | a texel that no added tile covers keeps its initial value |
| Atlas.LastTileWins | jsettlers.graphics/src/main/java/jsettlers/graphics/map/draw/Background.java:951-971 | the last complete tile covering a texel decides it, independent of all earlier tiles |
| Atlas.SharedSquareShowsLater | jsettlers.graphics/src/main/java/jsettlers/graphics/map/draw/Background.java:422-447 | on the square shared by entries 98 and 105, a complete image 105 hides image 98 completely |
| MaterialOffers.AddWrapped | jsettlers.logic/src/main/java/jsettlers/logic/map/grid/partition/manager/materials/offers/MaterialOffer.java:54-65 | byte arithmetic is congruent to the true sum modulo 256, and exact while the sum fits |
| MaterialOffers.Increment | jsettlers.logic/src/main/java/jsettlers/logic/map/grid/partition/manager/materials/offers/MaterialOffer.java:54-56 | one more unit, wrapping from 127 to −128; it returns the new amount, and position and priority are unchanged |
| MaterialOffers.Decrement | jsettlers.logic/src/main/java/jsettlers/logic/map/grid/partition/manager/materials/offers/MaterialOffer.java:63-65 | one unit fewer, wrapping from −128 to 127; position and priority are unchanged |
| MaterialOffers.UpdatePriority | jsettlers.logic/src/main/java/jsettlers/logic/map/grid/partition/manager/materials/offers/MaterialOffer.java:76-79 | the new priority is set; position and amount are unchanged |
| MaterialOffers.ActiveOrRemovable | jsettlers.logic/src/main/java/jsettlers/logic/map/grid/partition/manager/materials/offers/MaterialOffer.java:81-89 | every offer is exactly one of active and removable |
| MaterialOffers.IncrementDecrementInverse | jsettlers.logic/src/main/java/jsettlers/logic/map/grid/partition/manager/materials/offers/MaterialOffer.java:54-65 | increment then decrement, or the reverse, restores the offer, wrap-around included |
| MaterialOffers.PriorityIndependent | jsettlers.logic/src/main/java/jsettlers/logic/map/grid/partition/manager/materials/offers/MaterialOffer.java:54-89 | the priority update commutes with both counter operations and does not affect activity |
| MaterialOffers.IncrementTimesWraps | jsettlers.logic/src/main/java/jsettlers/logic/map/grid/partition/manager/materials/offers/MaterialOffer.java:36-56 | k increments add k to the amount modulo 256 and change nothing else |
| MaterialOffers.OverflowMakesRemovable | jsettlers.logic/src/main/java/jsettlers/logic/map/grid/partition/manager/materials/offers/MaterialOffer.java:54-89 | an active offer at 127 becomes removable after one more unit |

## Left out

- **Asynchronous update strategy.** `AdvancedUpdateBufferCache`, `color_bfr2`, the `synchronized` blocks and `preloadTexture`/`preloadMutex` are left out. They are concurrency over classes that are not part of this model. Only the synchronous dirty-bit path is modelled.
- **GPU calls.** Buffer and texture generation, `updateBufferAt`, the draw call and handle validity are foreign calls. A draw is modelled by the cells it regenerates and their buffer offsets.
- **`generateGeometry`.** The full first build is not modelled as a loop. Its per-cell content is `Geometry.Cell` and `Shading.CellColors`.
- **Floating point.** Brightness is a real number. Texture coordinates are reals divided by the atlas size. The float rounding of Java's `0.85f + d * .15f` is not modelled.
- **Texture layouts.** `ETextureOrientation` is not part of this model. Its `float[]` corner tables are a parameter of real-valued texels (`Geometry.UvLayout`), so any table value is allowed.
- Borders.ChainIsListed: it does not prove that the chain's 68 (outer, inner) pairs are pairwise distinct, so that reordering the chain could change nothing. The lemma proves only agreement with the nested match, and distinctness rests on reading the chain.
- Geometry.ValidImageNumbers: every image number is assumed to be below 235. A larger one would make the `TEXTURE_POSITIONS[textureIndex]` lookup (Background.java line 1392) throw `ArrayIndexOutOfBoundsException`. That exception is not modelled, because the landscape enumeration's image numbers are all in range.
- DirtyTracking.UpdateGeometry: buffer writes are assumed not to throw. In the code an `IllegalBufferException` from `updateBufferAt` is caught around the whole draw (lines 1334-1336). It would leave the bits cleared so far cleared and `updateGeometry` still set, and that partial abort is not modelled.
- Geometry.TextureOffset: it does not model 32-bit overflow of `x * DISTANCE_X` and the other index products, because map coordinates are small.
- DirtyTracking.Index: it does not model 32-bit overflow of the bit indices either.
- JavaArith.Div and JavaArith.Rem: they cover positive divisors only, which is every use in the source.
- **Landscape types.** Only the types `getBorder` names are listed; every other type is `Other(id)`. The enumeration's image numbers are a parameter.
- **The tile decoder.** `DatBitmapReader.uncompressImage` is given as the lines it delivers and whether it finished. Texels are unbounded integers rather than 16-bit values, because they are only copied.
- **Zero-length lines.** A decoded line of length 0 would make `writeLine` throw an `ArithmeticException`. Such lines are excluded by a precondition.
- Atlas.AddTextures: it takes one decoded image per table entry. A reader that fails on a particular index is modelled as an incomplete image.
- Shading.ColorBytes: it models the byte cast of an intensity already multiplied by 255 and floored. The float multiply itself is real arithmetic.
- **MaterialOffer extras.** `Serializable` and `toString` are left out. `EOfferPriority` is a type parameter.
