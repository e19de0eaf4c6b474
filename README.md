# VivaGraphJS WebGL renderer core, modelled in Dafny

This project models the bookkeeping at the heart of VivaGraphJS's WebGL
renderer and proves properties about it.

**Five GPU record stores.** These are the node, straight-link, curved-link,
arrow and directed-node programs.
- Each keeps a record count in one ArrayBuffer that doubles when it runs out
  of room.
- A removal moves the last record into the hole.
- `position` overwrites exactly one record.
- The link and arrow programs also keep a front id, which `bringToFront`
  walks down while it swaps records.

**The renderer's UI lists.** `webglGraphics` keeps the lists `nodes`,
`straightLinks`, `curvedLinks` and `arrows`.
- Each list must stay in lock-step with its program. The list has as many
  live entries as the program has records, and every operation moves list
  entries and records between the same slots: an append at the count, the
  last entry into a removed slot, and the exchange with the front slot.
- The UI object in slot `i` records `i` in its `id` (or `arrowId`) field.

**The rest of the core:**
- the geometry kernel: Bezier sampling, the control point of a curved link, and normalised directions;
- the vertices each program writes;
- the client/graph coordinate maps;
- the fixed layout;
- the circle alpha mask of the node texture.

The model is in these modules:

| file | module | what it holds |
|---|---|---|
| buffers.dfy | `Buffers` | words of an ArrayBuffer, records, copy/swap/grow, shared record lemmas |
| geometry.dfy | `Geometry` | `geometry.js` over reals |
| node_program.dfy | `WebglNodeProgram` | class `NodeProgram` |
| link_program.dfy | `WebglLinkProgram` | class `LinkProgram` |
| curved_link_program.dfy | `WebglCurvedLinkProgram` | class `CurvedLinkProgram`, the polyline loop, the index buffer invariant |
| arrow_program.dfy | `WebglArrowProgram` | class `ArrowProgram`, the arrowhead |
| directed_node_program.dfy | `WebglDirectedNodeProgram` | class `DirectedNodeProgram`, the directed triangle |
| ui_slots.dfy | `UiSlots` | the slot-list mirror invariant and its steps |
| graphics.dfy | `WebglGraphics` | classes `LinkLayer` and `Graphics`, the coordinate maps |
| fixed_layout.dfy | `FixedLayout` | classes `Rect` and `Layout` |
| circle_texture.dfy | `CircleTexture` | the `circle(size)` loops |

**Conventions of the model:**
- Numbers are reals. `Math.sqrt` is not modelled: a caller passes a magnitude `mag` together with `IsMagnitude(v, mag)`, which pins `mag` down as the square root (`Geometry.MagnitudeUnique`).
- An ArrayBuffer is an `array<Word>` of 4-byte words. A word is `F32(x)` or `U32(c)`, after the view that last wrote it; bit reinterpretation between the two views is not modelled.
- UI objects are handles, and their mutable fields are maps from handles. The graph's node and link objects are reduced to their ids.
- `frontLinkId` starts `undefined`, which is modelled as `-1`: `undefined > k` and `-1 > k` are both false for every slot `k`.
- The fixed layout computes both `width` and `height` from `settings.width`, so the model takes one side length for both.

## Model

| member | source | states |
|---|---|---|
| Buffers.ToUint16 | src/WebGL/webglCurvedLinkProgram.js:136-137 | a value stored into a Uint16Array element is kept modulo 2^16, and unchanged below 2^16 |
| Buffers.CountAfterRemoval | src/WebGL/webglNodeProgram.js:183-185 | a removal leaves at most one record fewer and never a negative count: exactly one fewer unless the store was empty |
| Buffers.NextFront | src/WebGL/webglLinkProgram.js:185-187 | the front id after bringToFront moves down by at most one slot, stays a slot (never below 0) when it was one, and is left alone when undefined or 0 |
| Buffers.OffsetIsProduct | src/WebGL/webglNodeProgram.js:163-168 | record `k` starts at word `k * R` |
| Buffers.Records | src/WebGL/webglNodeProgram.js:182-196 | the live records are the `n` consecutive word ranges of width `R` from word 0 |
| Buffers.Overwrite | src/WebGL/webglNodeProgram.js:160-169 | writing one record changes exactly its words |
| Buffers.AfterRemoval | src/WebGL/webglNodeProgram.js:182-196 | the words after a removal keep the buffer length |
| Buffers.AfterBringToFront | src/WebGL/webglLinkProgram.js:176-184 | the words after bringToFront keep the buffer length |
| Buffers.EmptyRemovalWritesNothing | src/WebGL/webglNodeProgram.js:183-187 | a removal on an empty store writes nothing |
| Buffers.CopyPartSlices | src/WebGL/webglNodeProgram.js:189-194 | after a copy the target range equals the source range and ranges disjoint from the target are untouched |
| Buffers.SwapPartSlices | src/WebGL/webglLinkProgram.js:178-183 | after a swap each range holds the other's old words and ranges disjoint from both are untouched |
| Buffers.MoveLastMultiset | src/WebGL/webglNodeProgram.js:187-195 | moving the last element into a hole and dropping the last removes exactly one copy of the removed element |
| Buffers.TranspositionMultiset | src/WebGL/webglLinkProgram.js:177-184 | a swap of two elements is a permutation |
| Buffers.AfterRemovalRefilled | src/WebGL/webglNodeProgram.js:187-195 | after a removal below the new count the hole holds the old last record |
| Buffers.AfterRemovalKeeps | src/WebGL/webglNodeProgram.js:187-195 | a removal leaves every other record below the old count where it was |
| Buffers.AfterRemovalRecords | src/WebGL/webglNodeProgram.js:182-196 | the live records after a removal are the old ones with the last moved into the hole, one copy of the removed record fewer |
| Buffers.AfterBringToFrontRecordAt | src/WebGL/webglLinkProgram.js:176-184 | after bringToFront the records at the front and at the id are exchanged and every other record is unchanged |
| Buffers.AfterBringToFrontRecords | src/WebGL/webglLinkProgram.js:176-184 | the live records after bringToFront are the old ones with two entries transposed, and form a permutation of them |
| Buffers.ExtensionKeepsRecords | src/WebGL/webglNodeProgram.js:131-138 | appending zero words after the buffer keeps every live record |
| Buffers.RecordsAt | src/WebGL/webglNodeProgram.js:163-168 | live record `k` is the word range `k*R .. k*R+R-1` |
| Buffers.RecordsPrefix | src/WebGL/webglNodeProgram.js:198-201 | the first `m` of `n` records are the `m` records of the same buffer |
| Buffers.AppendKeepsRecords | src/WebGL/webglNodeProgram.js:198-201 | after growth and one more count, the old live records are a prefix of the new ones |
| Buffers.OverwriteRecordAt | src/WebGL/webglNodeProgram.js:160-169 | overwriting record `id` changes record `id` only |
| Buffers.OverwriteRecords | src/WebGL/webglNodeProgram.js:160-169 | after `position` the live records are the old ones with entry `id` replaced |
| Buffers.CopyArrayPart | src/WebGL/webglNodeProgram.js:189-194 | the array method copyArrayPart meets `CopyPart` |
| Buffers.SwapArrayPart | src/WebGL/webglLinkProgram.js:178-183 | the array method swapArrayPart meets `SwapPart` |
| Buffers.WriteRecord | src/WebGL/webglNodeProgram.js:163-168 | writing a record word by word meets `Overwrite` |
| Buffers.RemoveRecord | src/WebGL/webglNodeProgram.js:182-196 | the removal step returns the decremented count and leaves the words `AfterRemoval` describes |
| Buffers.SwapRecords | src/WebGL/webglLinkProgram.js:177-184 | the swap step of bringToFront leaves the words `AfterBringToFront` describes |
| Buffers.Grow | src/WebGL/webglNodeProgram.js:131-138 | growth gives a fresh buffer of twice the length: the old words followed by zeros |
| WebglNodeProgram.RecordLayout | src/WebGL/webglNodeProgram.js:17-20 | a node record is 5 words, which is the 20 bytes of 4 floats and one uint32 |
| WebglNodeProgram.ByteLengthAfterEnsure | src/WebGL/webglNodeProgram.js:127-140 | the buffer doubles exactly when `(count+1)*20 >= byteLength`, and afterwards a spare slot remains past the new record |
| WebglNodeProgram.NodeRecord | src/WebGL/webglNodeProgram.js:160-169 | the node's five words are x, the negated y, the depth, the size and the colour, in that order |
| WebglNodeProgram.NodeProgram.constructor | src/WebGL/webglNodeProgram.js:93-96 | the store starts empty with a zeroed buffer of 16 records |
| WebglNodeProgram.NodeProgram.EnsureEnoughStorage | src/WebGL/webglNodeProgram.js:127-140 | the buffer is doubled, with the old words kept and a zero tail, exactly when the growth test fires |
| WebglNodeProgram.NodeProgram.CreateNode | src/WebGL/webglNodeProgram.js:198-201 | the count goes up by one, every old live record is kept, and the store stays valid with one spare slot |
| WebglNodeProgram.NodeProgram.RemoveNode | src/WebGL/webglNodeProgram.js:182-196 | the count is decremented when positive; a removed slot below the old count gets the last record; live records lose exactly the removed one |
| WebglNodeProgram.NodeProgram.Position | src/WebGL/webglNodeProgram.js:160-169 | only the 5 words of slot `id` change, to x, negated y, depth, size and colour |
| WebglNodeProgram.NodeProgram.Render | src/WebGL/webglNodeProgram.js:245 | `nodesCount` points are drawn, all inside the buffer |
| WebglLinkProgram.RecordLayout | src/WebGL/webglLinkProgram.js:14-16 | a link record is 8 words, which is the 32 bytes of two vertices of x, y, z and colour |
| WebglLinkProgram.ByteLengthAfterEnsure | src/WebGL/webglLinkProgram.js:55-69 | the buffer doubles exactly when `(count+1)*32 > byteLength`, and the next record always fits afterwards |
| WebglLinkProgram.LinkRecord | src/WebGL/webglLinkProgram.js:89-104 | the start is stored unchanged; the stored end lies on the link's line, half a node size from `to` on the side of `from`; both carry depth and colour |
| WebglLinkProgram.LinkProgram.constructor | src/WebGL/webglLinkProgram.js:46-48 | empty store, zeroed 16-record buffer, front id undefined |
| WebglLinkProgram.LinkProgram.EnsureEnoughStorage | src/WebGL/webglLinkProgram.js:55-69 | the buffer doubles with its contents kept exactly when the next record would not fit |
| WebglLinkProgram.LinkProgram.CreateLink | src/WebGL/webglLinkProgram.js:106-111 | the count goes up by one, the front becomes the new link's id, and the old live records are kept |
| WebglLinkProgram.LinkProgram.RemoveLink | src/WebGL/webglLinkProgram.js:113-127 | the guarded decrement plus the last-record copy into the hole; the live records lose exactly the removed one |
| WebglLinkProgram.LinkProgram.Position | src/WebGL/webglLinkProgram.js:89-104 | only slot `id`'s 8 words change, to `LinkRecord` |
| WebglLinkProgram.LinkProgram.Render | src/WebGL/webglLinkProgram.js:171-173 | `2*linksCount` vertices are drawn, all inside the buffer, and the front resets to `linksCount-1` |
| WebglLinkProgram.LinkProgram.BringToFront | src/WebGL/webglLinkProgram.js:176-188 | records `id` and front are swapped iff front > id; the front walks down but not below 0; the live records are permuted |
| WebglLinkProgram.LinkProgram.GetFrontLinkId | src/WebGL/webglLinkProgram.js:190-192 | returns the front id, which names a slot inside the buffer when defined |
| WebglCurvedLinkProgram.TSampling | src/WebGL/webglCurvedLinkProgram.js:60-62 | `S+1` samples from exactly 0 to exactly 1 |
| WebglCurvedLinkProgram.TSamplingIncreasing | src/WebGL/webglCurvedLinkProgram.js:60-62 | the samples rise strictly and stay within [0, 1] |
| WebglCurvedLinkProgram.CurveRecord | src/WebGL/webglCurvedLinkProgram.js:123-134 | a curve record is `(S+1)*3` words |
| WebglCurvedLinkProgram.CurveRecordShape | src/WebGL/webglCurvedLinkProgram.js:123-134 | the polyline starts at `from`, ends at `to`, and every vertex carries the link's colour |
| WebglCurvedLinkProgram.CurveVertex | src/WebGL/webglCurvedLinkProgram.js:124-133 | vertex `k` is the Bezier point at `tSampling[k]` followed by the colour |
| WebglCurvedLinkProgram.IndexBlock | src/WebGL/webglCurvedLinkProgram.js:135-138 | a slot's index block has `2*S` entries |
| WebglCurvedLinkProgram.IndexPair | src/WebGL/webglCurvedLinkProgram.js:135-138 | segment `k` of slot `id` joins vertex numbers `id*(S+1)+k` and `id*(S+1)+k+1` (mod 2^16) |
| WebglCurvedLinkProgram.IndexBlockInSlot | src/WebGL/webglCurvedLinkProgram.js:135-138 | while `count*(S+1) <= 65536`, every index of a live slot names a vertex of that same slot |
| WebglCurvedLinkProgram.ZeroIndicesOk | src/WebGL/webglCurvedLinkProgram.js:50-53 | a zeroed index buffer meets the index invariant |
| WebglCurvedLinkProgram.IndexBlocksAfterGrowth | src/WebGL/webglCurvedLinkProgram.js:71-83 | doubling the index buffer with zeros keeps the invariant for twice the slots |
| WebglCurvedLinkProgram.IndexBlocksAfterWrite | src/WebGL/webglCurvedLinkProgram.js:135-138 | writing a slot's own index pairs keeps the invariant |
| WebglCurvedLinkProgram.FillCurve | src/WebGL/webglCurvedLinkProgram.js:123-139 | the loop writes exactly the curve record into the vertex words and exactly the slot's index pairs into the index entries |
| WebglCurvedLinkProgram.CurvedLinkProgram.CapacityInBytes | src/WebGL/webglCurvedLinkProgram.js:49-52 | the vertex buffer holds `capacity` records, so the live records fit |
| WebglCurvedLinkProgram.CurvedLinkProgram.GrowthIffFull | src/WebGL/webglCurvedLinkProgram.js:65 | the growth test fires exactly when every slot is taken |
| WebglCurvedLinkProgram.CurvedLinkProgram.constructor | src/WebGL/webglCurvedLinkProgram.js:47-62 | empty store; zeroed vertex and index buffers of 16 slots; front undefined |
| WebglCurvedLinkProgram.CurvedLinkProgram.EnsureEnoughStorage | src/WebGL/webglCurvedLinkProgram.js:63-85 | both buffers double together, with contents kept, exactly when the next record would not fit |
| WebglCurvedLinkProgram.CurvedLinkProgram.CreateLink | src/WebGL/webglCurvedLinkProgram.js:142-147 | the count goes up by one, the front becomes the id, and the old live records are kept |
| WebglCurvedLinkProgram.CurvedLinkProgram.RemoveLink | src/WebGL/webglCurvedLinkProgram.js:150-164 | the guarded decrement plus last-record copy of the vertex words; the index buffer is untouched and still valid |
| WebglCurvedLinkProgram.CurvedLinkProgram.Position | src/WebGL/webglCurvedLinkProgram.js:108-140 | slot `id` gets the sampled curve through the level's control point and its own index pairs; nothing else changes |
| WebglCurvedLinkProgram.CurvedLinkProgram.Render | src/WebGL/webglCurvedLinkProgram.js:208-215 | `linksCount*S*2` indices are drawn, all inside the index buffer, and the front resets to `linksCount-1` |
| WebglCurvedLinkProgram.CurvedLinkProgram.BringToFront | src/WebGL/webglCurvedLinkProgram.js:219-232 | the same swap and walk-down rule as the straight program; the live records are permuted |
| WebglCurvedLinkProgram.CurvedLinkProgram.GetFrontLinkId | src/WebGL/webglCurvedLinkProgram.js:234-236 | returns the front id, which is below the capacity |
| WebglArrowProgram.RecordLayout | src/WebGL/webglArrowProgram.js:13-17 | an arrow record is 9 words, which is the 36 bytes of three vertices of x, y and colour |
| WebglArrowProgram.ByteLengthAfterEnsureAsWritten | src/WebGL/webglArrowProgram.js:53-67 | the growth test as written doubles iff `arrowCount*36 > byteLength`, using the count before the increment |
| WebglArrowProgram.AsWrittenKeepsAllButOne | src/WebGL/webglArrowProgram.js:53-67 | with the test as written only the bound "all but one arrow fit" carries over a createArrow |
| WebglArrowProgram.SeventeenthArrowOutsideBuffer | src/WebGL/webglArrowProgram.js:44-67 | sixteen arrows fill the initial buffer, the test does not grow it, and the 17th record lies past its end |
| WebglArrowProgram.ByteLengthAfterEnsure | src/WebGL/webglArrowProgram.js:53-67 | corrected test: the buffer doubles iff the next record would not fit, so it always fits afterwards |
| WebglArrowProgram.ArrowBase | src/WebGL/webglArrowProgram.js:92-108 | the direction is taken from `from` for a straight link (and whenever `S = 1`), and for a curved one from the point at `(S-1)/S` of the Bezier curve through the link's `ControlPoint` |
| WebglArrowProgram.ArrowHead | src/WebGL/webglArrowProgram.js:109-124 | the base corners' midpoint is `arrowSize` behind the apex along `dir`; the corners sit `perpMag` to either side along `(-dir.y, dir.x)` |
| WebglArrowProgram.ApexIsPulledBack | src/WebGL/webglArrowProgram.js:111-114 | the apex is the point half a node size short of `to`, on the line from the base point |
| WebglArrowProgram.ArrowHeadIsosceles | src/WebGL/webglArrowProgram.js:111-124 | for a unit direction both corners are equally far from the apex and the base is perpendicular to the axis |
| WebglArrowProgram.ArrowRecord | src/WebGL/webglArrowProgram.js:126-141 | apex, right and left corner in that order, and each vertex carries the colour |
| WebglArrowProgram.ArrowProgram.constructor | src/WebGL/webglArrowProgram.js:44-46 | for any curve resolution: empty store, zeroed 16-record buffer, front undefined, `perpMag = arrowSize * tan(pitch)` |
| WebglArrowProgram.ArrowProgram.EnsureEnoughStorage | src/WebGL/webglArrowProgram.js:53-67 | with the corrected test, the buffer doubles with its contents kept exactly when the next record would not fit |
| WebglArrowProgram.ArrowProgram.CreateArrow | src/WebGL/webglArrowProgram.js:144-149 | the count goes up by one, the front becomes the arrow id, and the old live records are kept |
| WebglArrowProgram.ArrowProgram.RemoveArrow | src/WebGL/webglArrowProgram.js:152-166 | the guarded decrement plus the last-record copy; the live records lose exactly the removed arrow |
| WebglArrowProgram.ArrowProgram.Position | src/WebGL/webglArrowProgram.js:88-142 | only slot `arrowId`'s 9 words change, to the arrowhead for the normalised direction from the base point to `to` |
| WebglArrowProgram.ArrowProgram.Render | src/WebGL/webglArrowProgram.js:206-208 | `3*arrowCount` vertices are drawn, all inside the buffer, and the front resets to `arrowCount-1` |
| WebglArrowProgram.ArrowProgram.BringToFront | src/WebGL/webglArrowProgram.js:212-225 | the same swap and walk-down rule as the link programs; the live records are permuted |
| WebglArrowProgram.ArrowProgram.GetFrontArrowId | src/WebGL/webglArrowProgram.js:227-229 | returns the front id, which names a slot inside the buffer when defined |
| WebglDirectedNodeProgram.RecordLayout | src/WebGL/webglDirectedNodeProgram.js:17-20 | a directed node record is 12 words, which is the 48 bytes of three vertices of x, y, z and colour |
| WebglDirectedNodeProgram.ByteLengthAfterEnsureAsWritten | src/WebGL/webglDirectedNodeProgram.js:93-107 | the growth test as written doubles iff `nodesCount*48 > byteLength`, using the count before the increment |
| WebglDirectedNodeProgram.SeventeenthNodeOutsideBuffer | src/WebGL/webglDirectedNodeProgram.js:93-107 | sixteen nodes fill the initial buffer, the test does not grow it, and the 17th record lies past its end |
| WebglDirectedNodeProgram.ByteLengthAfterEnsure | src/WebGL/webglDirectedNodeProgram.js:93-107 | corrected test: the buffer doubles iff the next record would not fit, so it always fits afterwards |
| WebglDirectedNodeProgram.DirectedTriangle | src/WebGL/webglDirectedNodeProgram.js:130-157 | the apex lies half a size ahead of the node along `dir`; the node position is the midpoint between the apex and the base midpoint, so the base lies half a size behind; the corners sit `size/4` to either side of the base midpoint along `(dir.y, -dir.x)`; the base is perpendicular to the axis |
| WebglDirectedNodeProgram.DirectedTriangleIsosceles | src/WebGL/webglDirectedNodeProgram.js:130-157 | for a unit direction both corners lie at the same distance from the apex |
| WebglDirectedNodeProgram.DirectedRecord | src/WebGL/webglDirectedNodeProgram.js:159-175 | each vertex stores x, the negated y, the depth and the colour, apex first |
| WebglDirectedNodeProgram.DirectedNodeProgram.constructor | src/WebGL/webglDirectedNodeProgram.js:52-55 | empty store with a zeroed 16-record buffer |
| WebglDirectedNodeProgram.DirectedNodeProgram.ResetStorage | src/WebGL/webglDirectedNodeProgram.js:88-92 | a fresh zeroed 16-record buffer with the count unchanged, consistent iff at most 16 nodes are counted |
| WebglDirectedNodeProgram.DirectedNodeProgram.EnsureEnoughStorage | src/WebGL/webglDirectedNodeProgram.js:93-107 | with the corrected test, the buffer doubles with its contents kept exactly when the next record would not fit |
| WebglDirectedNodeProgram.DirectedNodeProgram.CreateNode | src/WebGL/webglDirectedNodeProgram.js:205-208 | the count goes up by one and every old live record is kept |
| WebglDirectedNodeProgram.DirectedNodeProgram.RemoveNode | src/WebGL/webglDirectedNodeProgram.js:189-203 | the guarded decrement plus the last-record copy of 12 words; the live records lose exactly the removed one |
| WebglDirectedNodeProgram.DirectedNodeProgram.Position | src/WebGL/webglDirectedNodeProgram.js:125-176 | only slot `id`'s 12 words change, to the directed triangle's record |
| WebglDirectedNodeProgram.DirectedNodeProgram.Render | src/WebGL/webglDirectedNodeProgram.js:241 | `3*nodesCount` vertices are drawn, all inside the buffer |
| Geometry.MagnitudeUnique | src/Utils/geometry.js:46-48 | the magnitude hypothesis has one solution, the square root |
| Geometry.SampleBezier | src/Utils/geometry.js:2-11 | the curve passes through `P0` at t = 0 and through `P2` at t = 1 |
| Geometry.BernsteinWeightsSumToOne | src/Utils/geometry.js:3-8 | the three weights sum to 1 |
| Geometry.BezierOfOnePoint | src/Utils/geometry.js:2-11 | a curve whose control points coincide is that point for every t |
| Geometry.Multiplier | src/Utils/geometry.js:29 | `ceil(level/2)`: the integer `m` with `2m-1 <= level <= 2m` |
| Geometry.Side | src/Utils/geometry.js:35-37 | the offset is negated exactly when JavaScript's `level % 2 == 1` holds, which is for positive odd levels |
| Geometry.ControlPoint | src/Utils/geometry.js:26-42 | the control point lies on the chord's perpendicular bisector, and is the midpoint for level 0 |
| Geometry.ComputeControlPoint | src/Utils/geometry.js:13-45 | computeControlPoint as written equals the closed form whenever the chord has positive length: the magnitude cancels |
| Geometry.LevelsOneAndTwoMirror | src/Utils/geometry.js:29-37 | levels 1 and 2 bend to opposite sides of the chord by the same amount |
| Geometry.LevelThreeDoublesLevelOne | src/Utils/geometry.js:29-37 | level 3 bends to the side of level 1, twice as far |
| Geometry.NormalizedDirection | src/Utils/geometry.js:50-62 | the result is a unit vector that, scaled by the magnitude, gives back `to - from` |
| Geometry.PullBack | src/WebGL/webglLinkProgram.js:93-101 | `to - dir*dist` lies on the line through both points, at distance `abs(dist)` from `to`, on the side of `from` when `dist` is positive |
| UiSlots.CountIsLiveSize | src/View/webglGraphics.js:541-549 | under the mirror invariant the count is the number of live UI objects |
| UiSlots.SlotsOkFrame | src/View/webglGraphics.js:144-153 | rewriting the slot fields of objects outside a list keeps that list's mirror |
| UiSlots.RegisterKeeps | src/View/webglGraphics.js:344 | registering a new UI under a new graph id keeps the lookup table exact |
| UiSlots.UnregisterKeeps | src/View/webglGraphics.js:535-536 | deleting an id removes exactly its UI from the live ones |
| UiSlots.Store | src/View/webglGraphics.js:310-320 | `arr[i] = h` overwrites slot `i` or appends at the end; no other slot changes |
| UiSlots.Append | src/View/webglGraphics.js:333-346 | the new UI object takes the slot after the live ones and records it; the live slots and every other object's recorded slot are unchanged |
| UiSlots.AppendKeepsSlots | src/View/webglGraphics.js:333-346 | appending a new UI at the count keeps `list[i].id == i` below the count and makes the UI live |
| UiSlots.RemoveFromList | src/View/webglGraphics.js:132-147 | the count is decremented when positive; when the hole is below it the live slots are the old ones with the last moved into the hole; otherwise nothing changes |
| UiSlots.RemoveKeepsSlots | src/View/webglGraphics.js:132-147 | removing a live UI from its own slot keeps the mirror for the remaining ones and changes no slot field outside the list |
| UiSlots.Swapped | src/View/webglGraphics.js:148-154 | the two slots exchange their objects, every other slot is unchanged, the first object records the second slot and the second object (when distinct) the first; no other object's recorded slot changes |
| UiSlots.SwapKeepsSlots | src/View/webglGraphics.js:148-154 | swapping two live slots keeps the mirror and moves no UI out of the live range |
| UiSlots.ArrowRemovalAsWritten | src/View/webglGraphics.js:497-506 | the arrow block as written agrees with the removal steps whenever the new arrow count differs from the link slot |
| UiSlots.ArrowGuardLosesArrow | src/View/webglGraphics.js:497-506 | a three-link input on which the guard skips the move, so a live arrow is left outside the drawn range |
| UiSlots.ArrowRemovalKeepsArrow | src/View/webglGraphics.js:497-506 | on the same input the corrected block keeps the arrow mirror |
| UiSlots.StaleFrontMovesLiveLinkOut | src/View/webglGraphics.js:253-272 | after a release, bringLinkToFront with the stale front id moves a live link out of the live range |
| WebglGraphics.FlipLinkCoordinates | src/View/webglGraphics.js:119-131 | both endpoints keep their x and get the opposite y |
| WebglGraphics.FlipTwice | src/View/webglGraphics.js:119-131 | flipping twice gives back the endpoints |
| WebglGraphics.ClientToGraph | src/View/webglGraphics.js:682-697 | the graph point returned is the one the transform draws at the client point: both reach the same normalised point |
| WebglGraphics.GraphToClient | src/View/webglGraphics.js:706-721 | the client point returned is where the transform draws the graph point: both reach the same normalised point |
| WebglGraphics.ClientGraphRoundTrip | src/View/webglGraphics.js:682-721 | client to graph then back to client is the identity for a non-degenerate camera |
| WebglGraphics.GraphClientRoundTrip | src/View/webglGraphics.js:682-721 | graph to client then back to graph is the identity for a non-degenerate camera |
| WebglGraphics.AddNodeKeepsMirror | src/View/webglGraphics.js:333-346 | addNode's steps keep `nodes[i].id == i` and the registry exact |
| WebglGraphics.ReleaseNodeKeepsMirror | src/View/webglGraphics.js:531-556 | releaseNode's steps keep the node mirror without the released UI |
| WebglGraphics.AddCurvedLinkKeepsLinkMirror | src/View/webglGraphics.js:315-317 | a link with a positive level appended to the curved list keeps the link mirror |
| WebglGraphics.AddStraightLinkKeepsLinkMirror | src/View/webglGraphics.js:318-320 | a link with a level of at most 0 appended to the straight list keeps the link mirror |
| WebglGraphics.AddLinkKeepsLinkMirror | src/View/webglGraphics.js:289-325 | addLink's list steps keep the link mirror for either level |
| WebglGraphics.AddLinkKeepsArrowMirror | src/View/webglGraphics.js:305-313 | an arrow appended (or `arrowId` set to null) keeps the arrow mirror |
| WebglGraphics.ReleaseLinkKeepsMirror | src/View/webglGraphics.js:488-523 | releaseLink's corrected steps keep both mirrors without the released link |
| WebglGraphics.BringToFrontKeepsMirror | src/View/webglGraphics.js:253-272 | the conditional swap keeps the link mirror when the front is a live slot |
| WebglGraphics.AddLinkToLists | src/View/webglGraphics.js:289-325 | the level routes the link to the curved or straight list at the old count; `arrowId` is the old arrow count or null; both mirrors hold afterwards |
| WebglGraphics.ReleaseLinkFromLists | src/View/webglGraphics.js:488-523 | with the corrected arrow block, both the arrow list and the level's list are compacted by the removal steps; both mirrors hold afterwards |
| WebglGraphics.BringToFrontInLists | src/View/webglGraphics.js:253-272 | the two UI entries are swapped iff the front read before the call exceeds the link's slot; the mirror holds afterwards |
| WebglGraphics.RemoveLinkFromList | src/View/webglGraphics.js:132-147 | the method's result is `UiSlots.RemoveFromList` |
| WebglGraphics.SwapElementsAndId | src/View/webglGraphics.js:148-154 | the method's result is `UiSlots.Swapped`, with each of the two UIs recording its new slot |
| WebglGraphics.MutablePoint.constructor | src/View/webglGraphics.js:682 | a point object with the given coordinates |
| WebglGraphics.LinkLayer.constructor | src/View/webglGraphics.js:60-76 | no links and no arrows; the three programs and lists are consistent |
| WebglGraphics.LinkLayer.CreateLinkRecord | src/View/webglGraphics.js:315-321 | only the level's program changes: it gains one record, keeps its old records and makes the new slot the front |
| WebglGraphics.LinkLayer.RemoveLinkRecord | src/View/webglGraphics.js:508-522 | only the level's program changes: it loses one record (when it had any), and a removed live slot takes the last record |
| WebglGraphics.LinkLayer.LinkRecordToFront | src/View/webglGraphics.js:254-260 | the front id is read before the call; only the level's program changes: its records at the link's slot and the front are exchanged when the front is above the slot and kept otherwise, and the front walks down |
| WebglGraphics.LinkLayer.AddLinkRecords | src/View/webglGraphics.js:305-321 | the arrow program (iff the link has an arrow) and the level's program each keep their old records and gain one at the front; the other programs are untouched; the stored lists keep both mirrors |
| WebglGraphics.LinkLayer.RemoveLinkRecords | src/View/webglGraphics.js:493-522 | the arrow program (iff the link has an arrow) and the level's program each move their last record into the removed slot; the other programs are untouched |
| WebglGraphics.LinkLayer.AddLink | src/View/webglGraphics.js:289-325 | the link UI takes the next slot of its level's list (and of the arrow list when it has an arrow), and those programs keep their old records and make that same slot the front |
| WebglGraphics.LinkLayer.ReleaseLink | src/View/webglGraphics.js:488-523 | the link and its arrow leave their lists by the removal steps, and the two programs move their last record into the same slots; the other link program is untouched |
| WebglGraphics.LinkLayer.BringLinkToFront | src/View/webglGraphics.js:253-272 | the level's program exchanges the records at the link's slot and the front under exactly the condition that swaps the two UI entries; the other link program is untouched |
| WebglGraphics.LinkLayer.Draw | src/View/webglGraphics.js:236-246 | the draw counts of the three link-side programs; each drawn program's front is reset to its last live slot |
| WebglGraphics.LinkLayer.DrawArrows | src/View/webglGraphics.js:236-238 | drawing the arrows covers `3*arrowCount` vertices, the count is unchanged, and the front resets to the last arrow |
| WebglGraphics.LinkLayer.DrawCurves | src/View/webglGraphics.js:240-242 | drawing the curved links covers `count*S*2` indices, the count is unchanged, and the front resets to the last link |
| WebglGraphics.LinkLayer.DrawLinks | src/View/webglGraphics.js:244-246 | drawing the straight links covers `2*count` vertices, the count is unchanged, and the front resets to the last link |
| WebglGraphics.Graphics.constructor | src/View/webglGraphics.js:29-93 | no nodes or links and the identity transform, so the camera is non-degenerate |
| WebglGraphics.Graphics.CreateNodeRecord | src/View/webglGraphics.js:341 | the node program gains one record and keeps its old ones |
| WebglGraphics.Graphics.RemoveNodeRecord | src/View/webglGraphics.js:538 | the node program loses one record when it had any, and a removed live slot takes the last record |
| WebglGraphics.Graphics.AddNode | src/View/webglGraphics.js:333-346 | the node UI is appended at the old count and registered; the node program keeps its old records and gains one in that slot |
| WebglGraphics.Graphics.ReleaseNode | src/View/webglGraphics.js:531-556 | the node list is compacted by the removal steps and the UI unregistered; the node program moves its last record into the same slot |
| WebglGraphics.Graphics.AddLink | src/View/webglGraphics.js:289-325 | the link is registered and the renderer stays consistent |
| WebglGraphics.Graphics.ReleaseLink | src/View/webglGraphics.js:488-523 | the link is unregistered and the renderer stays consistent |
| WebglGraphics.Graphics.BringLinkToFront | src/View/webglGraphics.js:253-272 | the renderer stays consistent and the registry is unchanged |
| WebglGraphics.Graphics.EndRender | src/View/webglGraphics.js:235-251 | one frame draws 3 vertices per arrow, 2*S indices per curved link, 2 vertices per straight link and 1 point per node, and the renderer stays consistent |
| WebglGraphics.Graphics.DrawNodes | src/View/webglGraphics.js:248-250 | drawing the nodes covers exactly `nodesCount` points |
| WebglGraphics.Graphics.GraphCenterChanged | src/View/webglGraphics.js:277-281 | only the two translation entries change, and the graph origin is then drawn at client point (x, y) |
| WebglGraphics.Graphics.TransformClientToGraphCoordinates | src/View/webglGraphics.js:682-697 | `p` becomes its graph coordinates, which map back to the old client point |
| WebglGraphics.Graphics.TransformGraphToClientCoordinates | src/View/webglGraphics.js:706-721 | `p` becomes its client coordinates, which map back to the old graph point |
| WebglGraphics.Graphics.GetNodeAtClientPos | src/View/webglGraphics.js:723-741 | without a check nothing is found and `clientPos` is untouched; otherwise `clientPos` becomes its graph coordinates and the result is the graph node of the first live node UI the check accepts, or none iff it accepts none |
| FixedLayout.Extend | src/Layout/fixed.js:26-39 | updateGraphRect: the point is inside afterwards; points inside before stay inside; the result is the smallest such rectangle |
| FixedLayout.FoldRectIsBoundingBox | src/Layout/fixed.js:45-57 | folding the nodes into the default rectangle gives the smallest rectangle holding the default one and every node |
| FixedLayout.FoldRectSidesAttained | src/Layout/fixed.js:15-39 | each side of the folded rectangle is the default side or a coordinate of some node |
| FixedLayout.PlacedLookup | src/Layout/fixed.js:49-56 | exactly the graph's nodes are placed, each at its stored position scaled by the side |
| FixedLayout.PointsOf | src/Layout/fixed.js:57 | the placed points in the graph's node order |
| FixedLayout.Indexed | src/Layout/fixed.js:41-58 | every graph link is indexed by its id, and only graph links are |
| FixedLayout.PlaceNodes | src/Layout/fixed.js:49-56 | the node loop places exactly the graph's nodes at their scaled positions |
| FixedLayout.IndexLinks | src/Layout/fixed.js:41-58 | the link loop builds the link index |
| FixedLayout.Rect.Default | src/Layout/fixed.js:15-22 | the inverted default rectangle |
| FixedLayout.Rect.Update | src/Layout/fixed.js:26-39 | updateGraphRect in place: the rectangle becomes `Extend` of the old one |
| FixedLayout.Rect.UpdateAll | src/Layout/fixed.js:45-57 | folding every point in order |
| FixedLayout.Layout.constructor | src/Layout/fixed.js:4-58 | nodes placed, the graph rectangle holds every placed node and is their bounding box folded from the default, links indexed |
| FixedLayout.Layout.GetNodePosition | src/Layout/fixed.js:68-70 | the node's position, or none iff it has none |
| FixedLayout.Layout.GetLinkPosition | src/Layout/fixed.js:75-81 | the positions of the link's two ends, each none iff that end has no position |
| FixedLayout.Layout.Step | src/Layout/fixed.js:83-85 | every step reports a stable layout |
| FixedLayout.Layout.IsNodePinned | src/Layout/fixed.js:96-98 | no node is pinned |
| CircleTexture.Inside | src/WebGL/webglCircleTexture.js:44-47 | the distance test on doubled coordinates; a texel that passes it is a texel of the texture |
| CircleTexture.Alpha | src/WebGL/webglCircleTexture.js:47-53 | alpha is 0xff exactly for texels inside the circle and 0x00 otherwise, so every opaque texel lies in the texture |
| CircleTexture.ImageByte | src/WebGL/webglCircleTexture.js:43-53 | every byte is 0x00 or 0xff, and only alpha bytes can be non-zero |
| CircleTexture.RowMajor | src/WebGL/webglCircleTexture.js:40-43 | texel `row*size+col` lies inside the image and decodes back to its row and column |
| CircleTexture.TexelBytes | src/WebGL/webglCircleTexture.js:43-53 | a texel's red, green and blue bytes are 0 and its alpha byte is the mask value |
| CircleTexture.FillRow | src/WebGL/webglCircleTexture.js:42-54 | the inner loop completes one more row of the image and leaves the rest zero |
| CircleTexture.Circle | src/WebGL/webglCircleTexture.js:35-57 | `size*size*4` bytes, each equal to the image byte: alpha 0xff iff the doubled squared distance from the centre is below `size^2` |
| CircleTexture.OpaqueTexelsInSquare | src/WebGL/webglCircleTexture.js:38-53 | every opaque texel lies inside the square |
| CircleTexture.AlphaSymmetric | src/WebGL/webglCircleTexture.js:44-45 | the mask is symmetric under mirroring rows, mirroring columns and swapping the axes |
| CircleTexture.CircleTouchesEdges | src/WebGL/webglCircleTexture.js:38-53 | the radius is the full half side: the middle texel of every edge is opaque |
| CircleTexture.CornersClear | src/WebGL/webglCircleTexture.js:38-53 | the corner texels are clear from size 4 on |
| CircleTexture.TextureImage | src/WebGL/webglCircleTexture.js:8-9 | createCircleTexture's image is 256 by 256 RGBA texels, 262144 bytes |

## Left out

- GPU calls are not modelled: `load`, the shader sources, `bufferData`, `vertexAttribPointer`, the uniforms, and the texture parameters in `createCircleTexture`. `render` is modelled by its draw count and its front-id reset.
- `updateTransform` and `updateSize` in every program are not modelled. They only set a dirty flag and the uniforms' values.
- DOM, window and events are not modelled: `init`, the canvas `updateSize`, `release`, `isSupported`, `getGraphicsRoot`, `fire`, `beginRender`, `setNodeProgram` and `setLinkProgram`.
- `renderNodes` and `renderLinks` are not modelled. They call user placement callbacks and each program's `position`, which is modelled.
- `scale`, `translateRel` and `resetScale` are not modelled. Only `graphCenterChanged` and the two coordinate maps are.
- The user callbacks (`nodeUIBuilder`, `linkUIBuilder`, `preciseCheck`) are parameters. A UI object is a handle, and `preciseCheck` is a function value.
- `getNodeUI` and `getLinkUI` are plain dictionary reads of `allNodes` and `allLinks` and are not modelled.
- `Math.sqrt`, `Math.tan` and Float32 rounding are not modelled. A magnitude comes with `IsMagnitude`, and `tan(pitch)` is passed to the arrow program's constructor.
- A zero-length link is left out: the source divides by a zero magnitude and writes NaN. Every `position` of a link or arrow requires a positive magnitude.
- The float and uint32 views of a buffer are one array of words, so bit reinterpretation is not modelled.
- `copyArrayPart` and `swapArrayPart` live in `src/WebGL/webgl.js`, which is not part of this model. They are specified by their copy and swap contracts.
- The `position` methods of all five programs require the slot to lie inside the buffer. A typed array silently drops a write out of range; that case is not modelled.
- `replaceProperties` is empty in both node programs and is not modelled.
- The inner early returns of `removeLinkFromList` and `releaseNode` are not modelled. They only fire when the count is 0 or equals the removed id, which the enclosing `id < count` test already rules out.
- The directed-node `render` assigns an undeclared `frontArrowId`, a leaked global that nothing reads. It is not modelled.
- The directed-node `position` assigns the undeclared `size` on every call, another leaked global. Only its use as the node's size in the triangle is modelled.
- WebglDirectedNodeProgram.DirectedNodeProgram.ResetStorage: it does not require or restore the store's consistency. It states that consistency holds again only when at most 16 nodes are counted, because the source keeps the count.
- WebglGraphics.LinkLayer.BringLinkToFront: it requires the program's front id to be a live slot. After a release without a render the source may swap a released link into the live range, which `UiSlots.StaleFrontMovesLiveLinkOut` exhibits.
- WebglGraphics.Graphics.BringLinkToFront: the same requirement as `LinkLayer.BringLinkToFront`, for the same reason. It states only consistency and the unchanged registry; `LinkLayer.BringLinkToFront`, which it calls, states the list and record exchanges.
- WebglGraphics.Graphics.EndRender: it does not restate the front-id resets. `LinkLayer.Draw` states them.
- WebglGraphics.Graphics.AddLink: it states only the registry change and consistency; `LinkLayer.AddLink`, which it calls, states the lists and records. It has the same requirements as `LinkLayer.AddLink`.
- WebglGraphics.Graphics.ReleaseLink: it states only the registry change and consistency; `LinkLayer.ReleaseLink`, which it calls, states the lists and records. It requires a known link id, as `LinkLayer.ReleaseLink` does.
- WebglGraphics.LinkLayer.AddLink: it requires a link id not yet added and a link UI the builder has not returned before. The source accepts both: a repeated id leaves the earlier UI in its list, drawn but no longer registered, and a reused UI object would hold two slots with one `id` field.
- WebglGraphics.Graphics.AddNode: it requires a node id not yet added and a node UI not yet in use, for the same reasons as `LinkLayer.AddLink`.
- WebglGraphics.LinkLayer.ReleaseLink: it requires a known link id. For an unknown id the source throws when it reads `id` of `undefined`, before it changes anything.
- WebglGraphics.Graphics.ReleaseNode: it requires a known node id. For an unknown id the source first lowers `nodesCount` and the node program's count, then throws when it reads `id` of `undefined`, leaving the list and the program one entry short; that state is not modelled.
- WebglArrowProgram.ArrowBase: for a curved link's arrow it requires `curveResolution >= 1`. With 0 the source divides by zero and writes non-finite coordinates. A straight link's arrow works with any resolution.
- WebglArrowProgram.ArrowProgram.Position: the same requirement as `ArrowBase`, for the same reason.
- WebglGraphics.LinkLayer.constructor: it requires `curveResolution >= 1`, which the curved-link program's constructor needs.
- WebglGraphics.Graphics.constructor: the same requirement as `LinkLayer.constructor`.
- The renderer's state is split into `LinkLayer` (three link-side programs and their lists) and `Graphics` (the node program, the node list and the camera). `Graphics` delegates link operations to `LinkLayer`.
- Graph node and link ids are integers. The graph object's own fields are not modelled.
- WebglCurvedLinkProgram.CurvedLinkProgram.constructor: it requires `curveResolution >= 1`. With 0 segments the source divides by zero in `tSampling`.
- FixedLayout.Layout.constructor: the side length `Math.sqrt(nnodes / (1 / settings.width))` is passed in. It also requires a stored position for every graph node, where the source would throw.
- FixedLayout.Layout.GetLinkPosition: it requires a known link id. For an unknown id the source reads a field of `undefined` and throws.
- `setNewPositions` in `fixed.js` is not modelled. It overwrites `graphRect` with the return value of `graph.forEachNode`, which is a foreign object's result.
- `setNodePosition` is not modelled: it writes a `.pos` field that stored positions never have. `pinNode`, `getGraphRect` and `dispose` are not modelled either: they return a constant, return the rectangle, or do nothing.
- The `ratio` variable of `createCircleTexture` is unused and not modelled.

## Findings

| source | as written | input that shows it | evidently intended | confidence | as-written member | corrected member |
|---|---|---|---|---|---|---|
| src/WebGL/webglArrowProgram.js:55 | grows only when `arrowCount * BYTES_PER_ARROW > byteLength`, with the count before the new arrow | 16 arrows fill the initial 576 bytes exactly; the 17th `createArrow` does not grow and its record lies past the end | grow when `(arrowCount + 1) * BYTES_PER_ARROW > byteLength`, as the link programs do | high (not executed) | WebglArrowProgram.SeventeenthArrowOutsideBuffer | WebglArrowProgram.ByteLengthAfterEnsure |
| src/WebGL/webglDirectedNodeProgram.js:95 | grows only when `nodesCount * BYTES_PER_NODE > byteLength`, with the count before the new node | 16 nodes fill the initial 768 bytes exactly; the 17th `createNode` does not grow and its record lies past the end | grow when `(nodesCount + 1) * BYTES_PER_NODE > byteLength` | high (not executed) | WebglDirectedNodeProgram.SeventeenthNodeOutsideBuffer | WebglDirectedNodeProgram.ByteLengthAfterEnsure |
| src/View/webglGraphics.js:500 | the arrow list's last entry moves into the hole only when the new arrow count differs from `linkIdToRemove`, a slot of a link list | straight links 0, 1, 2, where links 1 and 2 have arrows 0 and 1; releasing link 1 leaves arrow count 1, equal to link slot 1, so link 2's arrow stays in slot 1 and is no longer drawn | compact the arrow list as `removeLinkFromList` does, with no comparison against the link slot | high (not executed) | UiSlots.ArrowGuardLosesArrow | WebglGraphics.ReleaseLinkFromLists |
