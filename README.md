# litiengine map resolution and entity registry, in Dafny

This project models two pieces of the litiengine 2D game engine and proves properties about them.

**Map resolution (`MapUtilities`).** This covers the questions the engine asks of a loaded tile map:
- the largest authored object id;
- which tile cell a pixel lies in, and the pixel box of a tile cell;
- the tiles under a pixel, one per tile layer;
- which tileset owns a global grid id, and the terrain and animation that tileset gives for it;
- the absolute points of an object's polyline;
- the object with a given id.

The tileset and animation lookups go through three process-wide memo tables. These are keyed by the map's file name and the grid id, and entries are never evicted.

**Entity registry (`Environment`).** This is the runtime state of one loaded map:
- the process-wide id counters: map ids count up from the largest authored id, and local ids count down from 0;
- the combat and movable entity tables, keyed by map id;
- the lists of props and light sources;
- the walk over the object layers that `init` performs, which creates light sources and static collision boxes;
- the prop and decor-mob factories;
- the spatial query `findCombatEntities`, which filters combat entities by a condition and a query shape.

Modules, one per file:

| file | module | contents |
|---|---|---|
| common.dfy | `Common` | `Option`, integer points and rectangles, the rectangle intersection test, truncating division |
| java_text.dfy | `JavaText` | `Integer.parseInt`, `Integer.decode` / `Color.decode`, `Boolean.valueOf`, `equalsIgnoreCase` |
| tile_map.dfy | `TileMaps` | the immutable map: tiles, tile layers, tilesets, map objects, object layers, and the order the object walk meets entries in |
| map_utilities.dfy | `MapUtilities` | the resolution functions, the loops that compute them, and the memo tables as class `ResolutionCache` |
| id_sequences.dfy | `IdSequences` | the shared counters as class `Counters`, and the 32-bit counters the Java code actually uses |
| entities.dfy | `Entities` | props, decor mobs, light sources, the physics engine's list of colliders, and specification functions for `addMapObject`, the `init` walk and the two factories |
| spatial_query.dfy | `SpatialQuery` | the specification of `findCombatEntities` and its lemmas |
| environment.dfy | `Environments` | class `Environment`, with every registry operation as a method proved against the functions above |

**How the Java is modelled:**
- A Java `null` is `None`.
- A Java exception is an `Outcome` of `Fail(error)`, or the matching failure case of a result datatype. This covers:
  - `NullPointerException`;
  - `NumberFormatException`;
  - `IllegalArgumentException`, both from `Color` and from `Material.valueOf`.
- Static fields the code updates become fields of a class:
  - the counters are fields of `Counters`;
  - the memo tables are fields of `ResolutionCache`.
- Iterating over a hash map, whose order Java leaves unspecified, gives a ghost `order` that lists every key exactly once. The result is then stated over that order.

## Model

| member | source | states |
|---|---|---|
| Common.Intersects | src/de/gurkenlabs/litiengine/tiled/tmx/Environment.java:158 | When two rectangles intersect, the corner at the larger of their left edges and the larger of their top edges lies in both; an empty rectangle intersects nothing |
| Common.IntersectsIffCommonPoint | src/de/gurkenlabs/litiengine/tiled/tmx/Environment.java:158 | On integer rectangles, `Rectangle2D.intersects` holds exactly when some grid point lies in both rectangles |
| Common.IntersectsSymmetric | src/de/gurkenlabs/litiengine/tiled/tmx/Environment.java:169 | The intersection test gives the same answer whichever rectangle receives the call |
| Common.TruncDiv | src/de/gurkenlabs/litiengine/environment/tilemap/MapUtilities.java:58 | The `(int)` cast of a division by a positive divisor rounds toward zero. The remainder takes the sign of the dividend and is smaller than the divisor, and the quotient is never negative for a non-negative dividend |
| JavaText.ParseInt | src/de/gurkenlabs/litiengine/tiled/tmx/Environment.java:235 | A parsed value lies in the 32-bit range; the empty string does not parse |
| JavaText.ShowNatRoundTrip | src/de/gurkenlabs/litiengine/tiled/tmx/Environment.java:235 | Digits written in radix 8, 10 or 16 read back as the same number |
| JavaText.ParseIntRoundTrip | src/de/gurkenlabs/litiengine/tiled/tmx/Environment.java:235 | Every 32-bit integer, printed in decimal, parses back to itself |
| JavaText.Decode | src/de/gurkenlabs/litiengine/tiled/tmx/Environment.java:236 | `Integer.decode` yields only 32-bit values |
| JavaText.DecodeColor | src/de/gurkenlabs/litiengine/tiled/tmx/Environment.java:236 | `Color.decode` fails exactly when `Integer.decode` fails; otherwise every channel is in 0..255 |
| JavaText.DecodeColorRoundTrip | src/de/gurkenlabs/litiengine/tiled/tmx/Environment.java:236 | A colour written as `#` followed by its 24 bits in hexadecimal decodes to the same red, green and blue |
| JavaText.DecodeHashHex | src/de/gurkenlabs/litiengine/tiled/tmx/Environment.java:236 | `#` followed by hexadecimal digits decodes to their value |
| JavaText.ChannelsRoundTrip | src/de/gurkenlabs/litiengine/tiled/tmx/Environment.java:238 | Packing three channels into 24 bits and splitting them again gives the channels back |
| TileMaps.EntriesAppend | src/de/gurkenlabs/litiengine/environment/tilemap/MapUtilities.java:29-43 | The walk over two runs of layers meets the first run's entries, then the second's |
| MapUtilities.MaxObjectIdIsMaximum | src/de/gurkenlabs/litiengine/environment/tilemap/MapUtilities.java:23-46 | The running maximum is non-negative and at least every non-null object's id. It is 0, or the id of some object |
| MapUtilities.GetMaxMapId | src/de/gurkenlabs/litiengine/environment/tilemap/MapUtilities.java:23-46 | `getMaxMapId` computes that maximum over every non-null object of every non-null layer. The result is at least 0 and at least every authored id, and is either 0 or an authored id |
| MapUtilities.MaxObjectIdNextLayer | src/de/gurkenlabs/litiengine/environment/tilemap/MapUtilities.java:29-32 | A null layer leaves the maximum unchanged; any other layer continues it over its objects |
| MapUtilities.MaxOverLayer | src/de/gurkenlabs/litiengine/environment/tilemap/MapUtilities.java:34-42 | The inner loop continues the running maximum over one layer's objects, skipping null objects |
| MapUtilities.MaxObjectIdBounds | src/de/gurkenlabs/litiengine/environment/tilemap/MapUtilities.java:23-46 | `MaxObjectIdIsMaximum`, stated over the objects themselves |
| MapUtilities.TileLocation | src/de/gurkenlabs/litiengine/environment/tilemap/MapUtilities.java:57-59 | The cast truncates toward zero: for a non-negative coordinate the tile index is non-negative and the coordinate lies within one tile size past index times size; for a negative coordinate the index is at most 0 and the coordinate lies within one tile size before index times size |
| MapUtilities.TileBoundingBox | src/de/gurkenlabs/litiengine/environment/tilemap/MapUtilities.java:53-55 | The box of a tile is one tile size wide and high, and ends where the box of the next tile to the right or below begins; with a positive tile size it is not empty |
| MapUtilities.PixelTileBoundingBox | src/de/gurkenlabs/litiengine/environment/tilemap/MapUtilities.java:48-51 | A pixel with non-negative coordinates lies in the box of its tile. A pixel less than one tile left of or above the map gets the box of column or row 0, which does not contain it |
| MapUtilities.QuotientUnique | src/de/gurkenlabs/litiengine/environment/tilemap/MapUtilities.java:58 | Only one quotient leaves a remainder in `[0, w)` |
| MapUtilities.TileBoxMapsBack | src/de/gurkenlabs/litiengine/environment/tilemap/MapUtilities.java:53-59 | Every pixel in the box of a tile with non-negative coordinates maps back to that tile. With `PixelTileBoundingBox`, `getTileLocation` and `getTileBoundingBox` are inverse to each other on the map's quadrant |
| MapUtilities.NegativePixelsTruncateToZero | src/de/gurkenlabs/litiengine/environment/tilemap/MapUtilities.java:57-59 | Pixels up to one tile left of and above the map map to tile (0, 0), because the cast truncates toward zero |
| MapUtilities.TilesAtAppend | src/de/gurkenlabs/litiengine/environment/tilemap/MapUtilities.java:75-80 | The tiles under a pixel keep layer order: those of the first run of layers come before those of the second |
| MapUtilities.TilesAtFromLayers | src/de/gurkenlabs/litiengine/environment/tilemap/MapUtilities.java:68-83 | There is at most one tile per layer, and each is a tile some layer holds at that grid coordinate. The result is empty exactly when no layer holds a tile there |
| MapUtilities.GetTilesByPixelLocation | src/de/gurkenlabs/litiengine/environment/tilemap/MapUtilities.java:68-83 | The loop returns, in layer order, the tile each layer holds at the pixel's grid coordinate |
| MapUtilities.FirstClaiming | src/de/gurkenlabs/litiengine/environment/tilemap/MapUtilities.java:157-169 | The result is the first tileset whose band admits the id. It is `None` exactly when no band admits the id |
| MapUtilities.FirstClaimingUnique | src/de/gurkenlabs/litiengine/environment/tilemap/MapUtilities.java:157-169 | Any index that is the first to admit the id is the index the scan finds |
| MapUtilities.ScanTilesets | src/de/gurkenlabs/litiengine/environment/tilemap/MapUtilities.java:157-169 | The early-return loop finds the first admitting tileset. The strict band is `firstGridId` up to `firstGridId - 1 + tileCount`; the loose band starts one lower |
| MapUtilities.GetTerrain | src/de/gurkenlabs/litiengine/environment/tilemap/MapUtilities.java:85-100 | `getTerrain` answers the terrain of the first tileset whose loose band admits the id. When no band admits it, the answer is four empty slots |
| MapUtilities.TwoTilesetScenario | src/de/gurkenlabs/litiengine/environment/tilemap/MapUtilities.java:85-100 | Take tilesets [1,10] and [11,20]. Id 15 resolves to the second tileset and id 25 to none. Id 0 resolves to no tileset in `findTileSet` but to the first in the loose band |
| MapUtilities.ResolutionCache.constructor | src/de/gurkenlabs/litiengine/environment/tilemap/MapUtilities.java:17-21 | All three tables start empty |
| MapUtilities.ResolutionCache.FindTileSet | src/de/gurkenlabs/litiengine/environment/tilemap/MapUtilities.java:148-176 | A stored tileset is returned without a scan. Otherwise the first tileset in the strict band is returned, and stored only when there is one. A coherent cache stays coherent, and its answer equals the uncached resolution |
| MapUtilities.ResolutionCache.GetAnimation | src/de/gurkenlabs/litiengine/environment/tilemap/MapUtilities.java:102-136 | A stored `false` answers null and a stored animation answers itself, both without a scan. After a scan hit, `hasAnimation` records whether an animation exists, and the animation is stored only when it exists. With no admitting tileset, nothing is stored. Coherence is kept, and the answer equals the uncached one |
| MapUtilities.ResolutionCache.FindTileSetTwice | src/de/gurkenlabs/litiengine/environment/tilemap/MapUtilities.java:150-153 | Two lookups of the same tile give the same tileset |
| MapUtilities.ResolutionCache.GetAnimationTwice | src/de/gurkenlabs/litiengine/environment/tilemap/MapUtilities.java:104-111 | Two lookups of the same id give the same answer. Once a tileset admits the id, the second lookup does not scan |
| MapUtilities.ConvertPolylineToPointList | src/de/gurkenlabs/litiengine/environment/tilemap/MapUtilities.java:193-205 | The result is null exactly for a null object, a missing polyline or an empty polyline. Otherwise it holds n-1 points, and point i-1 is polyline point i moved by the object's location |
| MapUtilities.ConvertPolylineToPath | src/de/gurkenlabs/litiengine/environment/tilemap/MapUtilities.java:178-191 | The result is null in the same cases. Otherwise the path starts at the location and continues through polyline points 1..n-1, each moved by the location |
| MapUtilities.FindIn | src/de/gurkenlabs/litiengine/environment/tilemap/MapUtilities.java:207-217 | A found object has the id and is in the walk. Not-found means every entry is a non-null object with another id. A null dereference means the walk meets a null |
| MapUtilities.FindInSkip | src/de/gurkenlabs/litiengine/environment/tilemap/MapUtilities.java:208-213 | Entries that are neither null nor a match do not change the lookup |
| MapUtilities.FindInFirstMatch | src/de/gurkenlabs/litiengine/environment/tilemap/MapUtilities.java:208-216 | A found object is the first entry with the id: every entry before it is a non-null object with another id |
| MapUtilities.FindInFirstNull | src/de/gurkenlabs/litiengine/environment/tilemap/MapUtilities.java:208-216 | A lookup that throws does so at the first null entry: every entry before it is a non-null object with another id |
| MapUtilities.FindMapObject | src/de/gurkenlabs/litiengine/environment/tilemap/MapUtilities.java:207-217 | The nested loop answers the first object in layer-then-object order with the id. The walk throws at the first null layer or null object before a match |
| MapUtilities.EntriesFrom | src/de/gurkenlabs/litiengine/environment/tilemap/MapUtilities.java:208 | From layer i on, the walk meets layer i's entries, then those of the later layers. A lookup that reaches a null layer throws |
| MapUtilities.ScanObjects | src/de/gurkenlabs/litiengine/environment/tilemap/MapUtilities.java:209-213 | The inner loop either decides the lookup (a match or a null object) or leaves it to the later layers |
| IdSequences.Counters.constructor | src/de/gurkenlabs/litiengine/tiled/tmx/Environment.java:50-51 | Both static counters start at 0 and nothing has been handed out |
| IdSequences.Counters.Seed | src/de/gurkenlabs/litiengine/tiled/tmx/Environment.java:70 | As written: the map counter is assigned the largest authored id and the history of handed-out ids is kept. The ids stay fresh only when this does not lower the counter; the local counter is untouched |
| IdSequences.Counters.SeedAtLeast | src/de/gurkenlabs/litiengine/tiled/tmx/Environment.java:70 | The intended seeding: the map counter becomes the larger of itself and the largest authored id, so it is never lowered and the freshness invariant over every id ever handed out is kept |
| IdSequences.Counters.NextMapId | src/de/gurkenlabs/litiengine/tiled/tmx/Environment.java:222-225 | The id is the counter plus one. While the counters are valid it exceeds every map id handed out before, across all seedings, and validity is kept |
| IdSequences.Counters.NextLocalId | src/de/gurkenlabs/litiengine/tiled/tmx/Environment.java:207-209 | The n-th local id is -n: negative and below every earlier local id; the map counter and its history are untouched |
| IdSequences.MapIdsFrom | src/de/gurkenlabs/litiengine/tiled/tmx/Environment.java:222-225 | n successive map ids after `last` are `last + 1` to `last + n` |
| IdSequences.MapIdsIncreasing | src/de/gurkenlabs/litiengine/tiled/tmx/Environment.java:222-225 | Successive map ids strictly increase and all exceed the starting value |
| IdSequences.ReseedingRepeatsMapIds | src/de/gurkenlabs/litiengine/tiled/tmx/Environment.java:70 | As written: seeding twice from maps with the same largest id hands out the same map id twice, and the counters are no longer valid |
| IdSequences.ReseedingAtLeastKeepsMapIdsDistinct | src/de/gurkenlabs/litiengine/tiled/tmx/Environment.java:70 | With the intended seeding, the first id after each of two seedings exceeds that map's largest id, and the second exceeds the first |
| IdSequences.Wrap32 | src/de/gurkenlabs/litiengine/tiled/tmx/Environment.java:224 | The two's-complement wrap lands in the 32-bit range, leaves a value already in range unchanged, and differs from its input by a multiple of 2^32 |
| IdSequences.JavaPreIncrement | src/de/gurkenlabs/litiengine/tiled/tmx/Environment.java:224 | `++` on a Java `int` adds one below `Integer.MAX_VALUE` and turns `Integer.MAX_VALUE` into `Integer.MIN_VALUE` |
| IdSequences.JavaPreDecrement | src/de/gurkenlabs/litiengine/tiled/tmx/Environment.java:208 | `--` on a Java `int` subtracts one above `Integer.MIN_VALUE` and turns `Integer.MIN_VALUE` into `Integer.MAX_VALUE` |
| IdSequences.JavaMapIdsFrom | src/de/gurkenlabs/litiengine/tiled/tmx/Environment.java:222-225 | The map ids as written: n successive `++` on the `int` counter, each in the 32-bit range |
| IdSequences.JavaMapIdsAgreeBelowMax | src/de/gurkenlabs/litiengine/tiled/tmx/Environment.java:224 | While the counter stays at or below `Integer.MAX_VALUE`, the Java map ids are the unbounded ones |
| IdSequences.JavaMapIdWraps | src/de/gurkenlabs/litiengine/tiled/tmx/Environment.java:224 | The call that passes `Integer.MAX_VALUE` answers `Integer.MIN_VALUE`, which is no larger than the starting counter and below every earlier map id |
| IdSequences.JavaLocalIds | src/de/gurkenlabs/litiengine/tiled/tmx/Environment.java:207-209 | The local ids as written: n successive `--` on the `int` counter from 0, each in the 32-bit range |
| IdSequences.JavaLocalIdsAgreeAboveMin | src/de/gurkenlabs/litiengine/tiled/tmx/Environment.java:208 | For the first 2^31 calls the Java local ids are -1, -2, ... |
| IdSequences.JavaLocalIdWraps | src/de/gurkenlabs/litiengine/tiled/tmx/Environment.java:208 | Call 2^31 + 1 answers `Integer.MAX_VALUE`, a positive id above every earlier local id |
| Entities.PhysicsEngine.Add | src/de/gurkenlabs/litiengine/tiled/tmx/Environment.java:119 | The physics engine receives one more collider, appended at the end |
| Entities.LightFor | src/de/gurkenlabs/litiengine/tiled/tmx/Environment.java:229-238 | No light is made exactly when brightness or colour is missing or empty. Otherwise a brightness that does not parse or a colour that does not decode throws `NumberFormatException`; a brightness outside 0..255 throws `IllegalArgumentException` from `Color`; and when all three succeed a light is made. A made light has the object's location, radius `(int)(width / 2.0)`, the parsed brightness, alpha equal to the brightness, and the decoded colour |
| Entities.HalfWidth | src/de/gurkenlabs/litiengine/tiled/tmx/Environment.java:238 | Half the width, rounded toward zero |
| Entities.Place | src/de/gurkenlabs/litiengine/tiled/tmx/Environment.java:227-242 | A null type throws. `LIGHTSOURCE` gives exactly what `LightFor` gives, and a light comes from no other type. A collision box is added exactly for `COLLISIONBOX`, and it is the object's rectangle. Every other type is ignored |
| Entities.Effect | src/de/gurkenlabs/litiengine/tiled/tmx/Environment.java:246-251 | A null object throws; an object with a null or empty type is skipped. Any other object adds at most one light or collider |
| Entities.Load | src/de/gurkenlabs/litiengine/tiled/tmx/Environment.java:244-254 | The walk adds no more lights and colliders together than it meets entries |
| Entities.LoadErrorIsFirstFailure | src/de/gurkenlabs/litiengine/tiled/tmx/Environment.java:244-254 | The walk ends without an exception exactly when no entry throws; when it throws, the exception is that of the first entry that throws |
| Entities.ThenAssociative | src/de/gurkenlabs/litiengine/tiled/tmx/Environment.java:244-254 | Sequencing walk steps is associative |
| Entities.LoadAppend | src/de/gurkenlabs/litiengine/tiled/tmx/Environment.java:244-254 | The walk over two runs of entries is the walk over the first, then over the second unless the first threw |
| Entities.LoadStopsAtFailure | src/de/gurkenlabs/litiengine/tiled/tmx/Environment.java:244-254 | After the first exception nothing more is added |
| Entities.LoadProvenance | src/de/gurkenlabs/litiengine/tiled/tmx/Environment.java:227-254 | Each light comes from an object of the walk that produces exactly that light. Each collider is the rectangle of a `COLLISIONBOX` object of the walk |
| Entities.LoadCollectsLight | src/de/gurkenlabs/litiengine/tiled/tmx/Environment.java:227-254 | Conversely, an entry that produces a light and is reached before any exception adds that light, whatever entries follow |
| Entities.LoadCollectsCollider | src/de/gurkenlabs/litiengine/tiled/tmx/Environment.java:227-254 | Conversely, a `COLLISIONBOX` object reached before any exception adds its rectangle as a collider, whatever entries follow |
| Entities.IgnoredObjectsChangeNothing | src/de/gurkenlabs/litiengine/tiled/tmx/Environment.java:227-242 | An object of any other type, or a `LIGHTSOURCE` without colour, leaves the walk's result unchanged |
| Entities.MakeProp | src/de/gurkenlabs/litiengine/tiled/tmx/Environment.java:259-288 | A null type throws, and a type other than `PROP` (ignoring case) makes nothing. For a prop type: a missing `MATERIAL` or `INDESTRUCTIBLE` throws `NullPointerException`, an unknown material throws `IllegalArgumentException`, a missing or unparseable `HEALTH` throws `NumberFormatException`, and otherwise a prop is made. A made prop has the object's location, material, health, sprite sheet, collision and size; it is indestructible only when `INDESTRUCTIBLE` reads true, and only a destructible prop gets the damaged and destroyed animations. Its team is the parsed `TEAM`; a missing `TEAM` leaves it unset, and one that does not parse throws after registration |
| Entities.MakeDecorMob | src/de/gurkenlabs/litiengine/tiled/tmx/Environment.java:303-320 | A null type throws, and a type other than `DECORMOB` (ignoring case) makes nothing. A made mob has the object's location, mob type, collision and size |
| Entities.FactoriesDisjoint | src/de/gurkenlabs/litiengine/tiled/tmx/Environment.java:260 | No object type makes both a prop and a decor mob |
| Entities.PropTypeIgnoresCase | src/de/gurkenlabs/litiengine/tiled/tmx/Environment.java:260 | `prop` and `Prop` both make a prop |
| Entities.WoodenPropScenario | src/de/gurkenlabs/litiengine/tiled/tmx/Environment.java:259-288 | A `PROP` with material `WOOD`, `INDESTRUCTIBLE` false and `HEALTH` 100 makes a destructible prop with 100 health, the damaged and destroyed animations, and no team |
| SpatialQuery.Query | src/de/gurkenlabs/litiengine/tiled/tmx/Environment.java:148-177 | The query finds no more entities than there are candidates |
| SpatialQuery.QueryAppend | src/de/gurkenlabs/litiengine/tiled/tmx/Environment.java:157-161 | Results keep candidate order: querying two runs gives the first run's results, then the second's |
| SpatialQuery.QueryMembers | src/de/gurkenlabs/litiengine/tiled/tmx/Environment.java:148-177 | An entity is found exactly when it is a candidate that meets the condition and whose hit box passes the shape test |
| SpatialQuery.FoundMeetBounds | src/de/gurkenlabs/litiengine/tiled/tmx/Environment.java:168-174 | For a non-rectangle, every found entity meets the condition, meets the shape's bounding box and passes the exact test |
| SpatialQuery.BroadPhaseOnlyPrunes | src/de/gurkenlabs/litiengine/tiled/tmx/Environment.java:166-174 | When the exact test implies the bounding-box test, the broad phase removes nothing: the query equals the query with the narrow phase alone |
| SpatialQuery.QueryWithinNarrow | src/de/gurkenlabs/litiengine/tiled/tmx/Environment.java:166-174 | Whatever the exact test does, everything the query finds, the narrow phase alone also finds |
| SpatialQuery.RectanglePathAgrees | src/de/gurkenlabs/litiengine/tiled/tmx/Environment.java:155-174 | For a shape whose exact test is its bounding box, the general path finds what the rectangle path finds |
| Environments.ValuesIn | src/de/gurkenlabs/litiengine/tiled/tmx/Environment.java:124-126 | The values of the table, listed in the given key order |
| Environments.Environment.constructor | src/de/gurkenlabs/litiengine/tiled/tmx/Environment.java:67-76 | The map counter is advanced to at least the map's largest authored id, and never lowered (the intended seeding; see Findings). The history of handed-out ids and the local counter are untouched, and both tables and both lists start empty |
| Environments.Environment.GetMapId | src/de/gurkenlabs/litiengine/tiled/tmx/Environment.java:222-225 | The next map id is one more than the counter and exceeds every map id handed out before, by this or any earlier environment. Once the counter is past this map's authored ids it stays so, and the id exceeds every authored object id |
| Environments.Environment.GetLocalMapId | src/de/gurkenlabs/litiengine/tiled/tmx/Environment.java:207-209 | The local id is -n for the n-th call: negative, below every earlier local id, and the map counter is untouched |
| Environments.Environment.AddCombatEntity | src/de/gurkenlabs/litiengine/tiled/tmx/Environment.java:108-110 | The combat table gains the entity under the id. Every other key, the other table and both lists are unchanged |
| Environments.Environment.AddMovableEntity | src/de/gurkenlabs/litiengine/tiled/tmx/Environment.java:113-115 | The movable table gains the entity under the id. Every other key, the other table and both lists are unchanged |
| Environments.Environment.Add | src/de/gurkenlabs/litiengine/tiled/tmx/Environment.java:102-105 | The entity goes into both tables under the same id |
| Environments.Environment.Remove | src/de/gurkenlabs/litiengine/tiled/tmx/Environment.java:212-220 | The id leaves both tables. Every other key, the props and the light sources are unchanged |
| Environments.Environment.Clear | src/de/gurkenlabs/litiengine/tiled/tmx/Environment.java:78-89 | Both tables and the light sources are emptied, and the props stay |
| Environments.Environment.GetCombatEntity | src/de/gurkenlabs/litiengine/tiled/tmx/Environment.java:129-135 | An entity is answered exactly when the id is in the table, and it is the stored entity |
| Environments.Environment.GetMovableEntity | src/de/gurkenlabs/litiengine/tiled/tmx/Environment.java:195-201 | An entity is answered exactly when the id is in the table, and it is the stored entity |
| Environments.Environment.AddCollisionBoxes | src/de/gurkenlabs/litiengine/tiled/tmx/Environment.java:117-121 | A null type throws. A `COLLISIONBOX` hands its rectangle to the physics engine; any other type hands nothing |
| Environments.Environment.AddMapObject | src/de/gurkenlabs/litiengine/tiled/tmx/Environment.java:227-242 | The lights, colliders and exception are those `Place` specifies, and the entity tables and props are unchanged |
| Environments.Environment.Init | src/de/gurkenlabs/litiengine/tiled/tmx/Environment.java:244-254 | The nested loop appends exactly the lights and colliders of `Load` over the whole walk, and ends with its exception. `LoadProvenance` and `LoadStopsAtFailure` then hold of what it added |
| Environments.Environment.LoadObjectLayer | src/de/gurkenlabs/litiengine/tiled/tmx/Environment.java:245-246 | A null layer throws; any other layer is walked as `Load` says |
| Environments.Environment.LoadLayer | src/de/gurkenlabs/litiengine/tiled/tmx/Environment.java:246-252 | The inner loop adds what `Load` over the layer's objects specifies |
| Environments.Environment.AddProp | src/de/gurkenlabs/litiengine/tiled/tmx/Environment.java:259-288 | The made prop is appended to the props and registered under the object's id in the combat table only. It reaches the physics engine when it has collision and its team parsed. Nothing changes for another type or a failure before registration |
| Environments.Environment.AddDecorMob | src/de/gurkenlabs/litiengine/tiled/tmx/Environment.java:303-320 | The made mob is registered under the object's id in the movable table only, and reaches the physics engine when it has collision |
| Environments.Environment.FindCombatEntities | src/de/gurkenlabs/litiengine/tiled/tmx/Environment.java:147-177 | A null shape gives nothing. Otherwise the result is the query over the table in its iteration order: an entity is found exactly when it is registered and passes the condition and the shape test |
| Environments.Environment.Keeps | src/de/gurkenlabs/litiengine/tiled/tmx/Environment.java:155-174 | The per-entity branches of the loop decide exactly `Hits` |
| Environments.Environment.FindAllCombatEntities | src/de/gurkenlabs/litiengine/tiled/tmx/Environment.java:143-145 | The same query with a condition every entity meets |
| Environments.QueryNextKey | src/de/gurkenlabs/litiengine/tiled/tmx/Environment.java:157-161 | Visiting one more key extends the result by that entity exactly when the query keeps it |
| Environments.LoadLayersIsLoad | src/de/gurkenlabs/litiengine/tiled/tmx/Environment.java:244-254 | The walk layer by layer equals the walk over the flattened entries |
| Environments.LayersAfterFailure | src/de/gurkenlabs/litiengine/tiled/tmx/Environment.java:245 | After an exception in layer i, the later layers are never reached |
| Environments.ObjectsAfterFailure | src/de/gurkenlabs/litiengine/tiled/tmx/Environment.java:246-252 | After an exception at object j, the later objects are never reached |

## Left out

- Floating point is not modelled. Pixel locations, sizes and rectangles are integers, and `Path2D` becomes its list of vertices.
- The tile geometry requires a positive tile size. With a zero tile size Java divides doubles, giving Infinity or NaN, and the `(int)` cast then gives `Integer.MAX_VALUE`, `Integer.MIN_VALUE` or 0; that is not modelled.
- Band arithmetic (`firstGridId - 1 + tilecount`) is unbounded here, so 32-bit overflow of tileset bounds is not modelled.
- JavaText.ParseInt, JavaText.Decode and JavaText.EqualsIgnoreCase accept only ASCII digits and use ASCII case folding. Java also accepts other Unicode digits and folds case beyond ASCII.
- The custom property names (`LIGHTBRIGHTNESS`, `LIGHTCOLOR`, `MATERIAL`, `HEALTH` and so on) are constants of this model. Their defining class is not part of this model.
- The object type tags `PROP` and `DECORMOB` are likewise constants of this model; their defining class, `MapObjectTypes`, is not part of this model. `COLLISIONBOX` and `LIGHTSOURCE` are Environment's own constants (Environment.java:45-46), held here as `Entities.CollisionBoxType` and `Entities.LightSourceType` with the same values.
- A null argument cannot be represented: `addMapObject`, `addProp` and `addDecorMob` always receive an object here, `findTileSet` a tile, and `findCombatEntities` a condition (a total function). Java throws `NullPointerException` when any of them is given `null` (for `findCombatEntities`, once the shape is non-null: Environment.java:157 and 168), and the model does not capture that.
- `getCollisionBox` of a map object is taken to be the object's rectangle. The map-object class is not part of this model.
- An entity's hit box and `GeometricUtilities.shapeIntersects` are parameters of the query, because their code is not part of this model. A shape other than a rectangle is known only by its integer bounds.
- Entities.MakeProp: does not model `COLLISIONBOXWIDTHFACTOR` and `COLLISIONBOXHEIGHTFACTOR`, because they are `Float.parseFloat` values. A factor that does not parse would throw, and the model does not capture that.
- Entities.MakeDecorMob: does not model the collision-box factors, for the same reason.
- Entities.MakeProp: takes a prop with an empty `INDESTRUCTIBLE` property as destructible. The `Prop` class's default is not part of this model.
- `Material.valueOf` is modelled as membership in a set of constant names, given as a parameter. The `Material` enum is not part of this model.
- The `LightSource`, `Prop` and `DecorMob` classes are records of the values the environment passes to them. Animation controllers, `createAnimation` and the `dispose` calls in `clear` are not modelled.
- `addEffect` and `addMob` have empty bodies and are not modelled.
- `TmxMapLoader` is not part of this model. The constructor takes the parsed map as a parameter, together with the shared counters and the physics engine.
- `synchronized`, `ConcurrentHashMap` and `CopyOnWriteArrayList` are modelled as plain sequential state.
- The getters `getProps`, `getLightSources`, `getCombatEntities`, `getMovableEntities` and `getMap` are not modelled. They return the live collections, which are fields of the class here.
- Hash-map iteration order is unspecified in Java. `FindCombatEntities` states its result over a ghost order that lists every key once, without fixing which order.
- `Environment` imports `MapUtilities` from another package (`de.gurkenlabs.tiled.tmx.utilities`), which is not part of this model. The constructor uses `getMaxMapId` as modelled here.
- A `null` list of object layers cannot be represented: it is an empty sequence here. `getMaxMapId` treats it as empty, as the model does, but `init` (Environment.java:245) and `findMapObject` (MapUtilities.java:208) throw `NullPointerException` on it, where the model adds nothing and answers not-found.
- A null tile layer inside the list of tile layers cannot be represented, so the `NullPointerException` that `getTilesByPixelLocation` (MapUtilities.java:76) throws on it is not modelled.
- A null list of tilesets cannot be represented, so the `NullPointerException` that `getTerrain`, `getAnimation` and `findTileSet` (MapUtilities.java:86, 113 and 157) throw on it is not modelled.
- A layer whose object list is null is a `None` layer, the same as a null layer.
- Where the engine's written design and the code disagree, the model follows the code, with one exception:
  - a pixel maps to a tile by truncating division, not floor division;
  - `init` dispatches only to light sources and collision boxes, never to the prop or decor-mob factories;
  - the exception: the `Environments.Environment` constructor seeds the map counter as the design says, advancing it past the map's largest id without ever lowering it (`IdSequences.Counters.SeedAtLeast`). The code's assignment is modelled by `IdSequences.Counters.Seed`, and both are listed under Findings.
- `clear` leaves the props in place, as the code and the design both say.
- Map ids are unbounded integers in `IdSequences.Counters` and `Environments.Environment`. The 32-bit wrap-around is modelled separately and listed under Findings.

## Findings

| source | as written | input that shows it | evidently intended | confidence | as-written member | corrected member |
|---|---|---|---|---|---|---|
| src/de/gurkenlabs/litiengine/tiled/tmx/Environment.java:224 | `++mapIdSequence` on a 32-bit `int` wraps | a map whose largest object id is `last`, after `Integer.MAX_VALUE - last + 1` calls of `getMapId` (one call when `last` is `Integer.MAX_VALUE`): the call answers `Integer.MIN_VALUE`, a negative id in the local id space, below the seed and every earlier map id | each map id exceeds every authored id and every earlier map id | low, not executed | IdSequences.JavaMapIdWraps | IdSequences.Counters.NextMapId |
| src/de/gurkenlabs/litiengine/tiled/tmx/Environment.java:208 | `--localIdSequence` on a 32-bit `int` wraps | call 2^31 + 1 of `getLocalMapId`, made after `localIdSequence` reaches `Integer.MIN_VALUE`, answers `Integer.MAX_VALUE`, a positive id that may clash with map ids | local ids stay negative and strictly decrease | low, not executed | IdSequences.JavaLocalIdWraps | IdSequences.Counters.NextLocalId |
| src/de/gurkenlabs/litiengine/tiled/tmx/Environment.java:70 | every environment's constructor assigns `mapIdSequence` the largest authored id of its own map, lowering the shared counter when an earlier map had larger ids | construct an environment from a map whose largest id is 5 and take a map id (6); construct another from a map whose largest id is 5 and take a map id: it is 6 again | the counter is advanced past the current map's largest id and never lowered, so map ids stay unique over the whole run | medium, not executed | IdSequences.ReseedingRepeatsMapIds | IdSequences.Counters.SeedAtLeast |
