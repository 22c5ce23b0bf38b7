/** Resolution of tiles, tilesets, terrain, animations and map objects over an immutable
    map, with the three process-wide memo tables of tileset and animation lookups. */
module MapUtilities {
  import opened Common
  import opened TileMaps

  // ---------------------------------------------------------------------------------
  // Largest authored object id

  /** The running maximum of `getMaxMapId` over the entries of the object walk: it starts
      at 0, skips null entries and takes an id when it is larger. */
  function MaxObjectId(es: seq<Option<MapObject>>): int
  {
    if |es| == 0 then 0
    else
      var before := MaxObjectId(es[..|es| - 1]);
      match es[|es| - 1]
      case None => before
      case Some(o) => if o.id > before then o.id else before
  }

  /** The scan yields 0 or an authored id, and no authored id exceeds it. */
  lemma {:induction false} MaxObjectIdIsMaximum(es: seq<Option<MapObject>>)
    ensures MaxObjectId(es) >= 0
    ensures forall k :: 0 <= k < |es| && es[k].Some? ==> es[k].value.id <= MaxObjectId(es)
    ensures MaxObjectId(es) == 0 || exists k :: 0 <= k < |es| && es[k].Some? && es[k].value.id == MaxObjectId(es)
  {
    if |es| > 0 {
      var init := es[..|es| - 1];
      MaxObjectIdIsMaximum(init);
      forall k | 0 <= k < |es| - 1 && es[k].Some?
        ensures es[k].value.id <= MaxObjectId(es)
      {
        assert es[k] == init[k];
      }
      if MaxObjectId(es) != 0 && MaxObjectId(es) == MaxObjectId(init) {
        var k :| 0 <= k < |init| && init[k].Some? && init[k].value.id == MaxObjectId(init);
        assert es[k] == init[k];
      }
    }
  }

  /** `getMaxMapId`: the largest id of any non-null object in any non-null layer, or 0. */
  method GetMaxMapId(m: TileMap) returns (maxId: int)
    ensures maxId == MaxObjectId(Entries(m.objectLayers))
    ensures maxId >= 0
    ensures forall o :: Some(o) in Entries(m.objectLayers) ==> o.id <= maxId
    ensures maxId == 0 || exists o :: Some(o) in Entries(m.objectLayers) && o.id == maxId
  {
    var layers := m.objectLayers;
    maxId := 0;
    var i := 0;
    while i < |layers|
      invariant 0 <= i <= |layers|
      invariant maxId == MaxObjectId(Entries(layers[..i]))
    {
      MaxObjectIdNextLayer(layers, i);
      match layers[i] {
        case None =>
        case Some(layer) =>
          maxId := MaxOverLayer(maxId, Entries(layers[..i]), layer.objects);
      }
      i := i + 1;
    }
    assert layers[..i] == layers;
    MaxObjectIdBounds(Entries(layers));
  }

  /** One more layer: a null layer leaves the maximum as it was; any other continues it
      over the layer's objects. */
  lemma MaxObjectIdNextLayer(layers: seq<Option<ObjectLayer>>, i: nat)
    requires i < |layers|
    ensures layers[i].None? ==> MaxObjectId(Entries(layers[..i + 1])) == MaxObjectId(Entries(layers[..i]))
    ensures layers[i].Some? ==>
      MaxObjectId(Entries(layers[..i + 1])) == MaxObjectId(Entries(layers[..i]) + layers[i].value.objects)
  {
    assert layers[..i + 1][..i] == layers[..i];
    var seen := Entries(layers[..i]);
    assert Entries(layers[..i + 1]) == seen + LayerEntries(layers[i]);
    if layers[i].None? {
      assert (seen + [None])[..|seen|] == seen;
    }
  }

  /** The inner loop of `getMaxMapId` over one layer's objects, continuing the running
      maximum `start` of the entries `seen` before them. */
  method MaxOverLayer(start: int, ghost seen: seq<Option<MapObject>>, objects: seq<Option<MapObject>>)
    returns (maxId: int)
    requires start == MaxObjectId(seen)
    ensures maxId == MaxObjectId(seen + objects)
  {
    maxId := start;
    var j := 0;
    assert seen + objects[..0] == seen;
    while j < |objects|
      invariant 0 <= j <= |objects|
      invariant maxId == MaxObjectId(seen + objects[..j])
    {
      assert (seen + objects[..j + 1])[..|seen| + j] == seen + objects[..j];
      match objects[j] {
        case None =>
        case Some(o) =>
          if o.id > maxId {
            maxId := o.id;
          }
      }
      j := j + 1;
    }
    assert objects[..j] == objects;
  }

  /** `MaxObjectIdIsMaximum` stated over the objects themselves. */
  lemma MaxObjectIdBounds(es: seq<Option<MapObject>>)
    ensures MaxObjectId(es) >= 0
    ensures forall o :: Some(o) in es ==> o.id <= MaxObjectId(es)
    ensures MaxObjectId(es) == 0 || exists o :: Some(o) in es && o.id == MaxObjectId(es)
  {
    MaxObjectIdIsMaximum(es);
    forall o | Some(o) in es ensures o.id <= MaxObjectId(es) {
      var k :| 0 <= k < |es| && es[k] == Some(o);
    }
    if MaxObjectId(es) != 0 {
      var k :| 0 <= k < |es| && es[k].Some? && es[k].value.id == MaxObjectId(es);
      assert Some(es[k].value) in es;
    }
  }

  // ---------------------------------------------------------------------------------
  // Pixel locations and tile grid coordinates

  /** Tile sizes the geometry is defined for. */
  predicate HasTileSize(m: TileMap)
  {
    m.tileWidth > 0 && m.tileHeight > 0
  }

  /** `getTileLocation`: the pixel coordinates divided by the tile size, truncated toward zero. */
  function TileLocation(m: TileMap, location: Point): (r: Point)
    requires HasTileSize(m)
    ensures location.x >= 0 ==> r.x >= 0 && 0 <= location.x - r.x * m.tileWidth < m.tileWidth
    ensures location.y >= 0 ==> r.y >= 0 && 0 <= location.y - r.y * m.tileHeight < m.tileHeight
    ensures location.x < 0 ==> r.x <= 0 && -m.tileWidth < location.x - r.x * m.tileWidth <= 0
    ensures location.y < 0 ==> r.y <= 0 && -m.tileHeight < location.y - r.y * m.tileHeight <= 0
  {
    Point(TruncDiv(location.x, m.tileWidth), TruncDiv(location.y, m.tileHeight))
  }

  /** `getTileBoundingBox(map, tile)`: the tile's cell in pixels. */
  function TileBoundingBox(m: TileMap, tile: Point): (r: Rect)
    ensures r.width == m.tileWidth && r.height == m.tileHeight
    ensures r.x + r.width == (tile.x + 1) * m.tileWidth && r.y + r.height == (tile.y + 1) * m.tileHeight
    ensures HasTileSize(m) ==> !IsEmpty(r)
  {
    Rect(tile.x * m.tileWidth, tile.y * m.tileHeight, m.tileWidth, m.tileHeight)
  }

  /** `getTileBoundingBox(map, pixelLocation)`: the cell of the tile under the pixel. A pixel
      with non-negative coordinates lies in it; one just left of the map does not, because
      truncation sends it to column 0. */
  function PixelTileBoundingBox(m: TileMap, location: Point): (r: Rect)
    requires HasTileSize(m)
    ensures location.x >= 0 && location.y >= 0 ==> Contains(r, location)
    ensures -m.tileWidth < location.x < 0 ==> r.x == 0 && !Contains(r, location)
    ensures -m.tileHeight < location.y < 0 ==> r.y == 0 && !Contains(r, location)
  {
    var tile := TileLocation(m, location);
    ProductBounds(tile.x, m.tileWidth);
    ProductBounds(tile.y, m.tileHeight);
    TileBoundingBox(m, tile)
  }

  /** Two quotients that leave a remainder in `[0, w)` are the same. */
  lemma QuotientUnique(a: int, w: int, q1: int, q2: int)
    requires w > 0
    requires 0 <= a - q1 * w < w && 0 <= a - q2 * w < w
    ensures q1 == q2
  {
    ProductBounds(q2 - q1, w);
    assert (q2 - q1) * w == q2 * w - q1 * w;
  }

  /** A non-zero multiple of a positive `w` is at least `w` away from zero. */
  lemma ProductBounds(d: int, w: int)
    requires w > 0
    ensures d >= 1 ==> d * w >= w
    ensures d <= -1 ==> d * w <= -w
  {
  }

  /** Every pixel of the cell of a tile with non-negative coordinates maps back to that tile. */
  lemma TileBoxMapsBack(m: TileMap, tile: Point, p: Point)
    requires HasTileSize(m) && tile.x >= 0 && tile.y >= 0
    requires Contains(TileBoundingBox(m, tile), p)
    ensures TileLocation(m, p) == tile
  {
    assert tile.x * m.tileWidth >= 0 && tile.y * m.tileHeight >= 0;
    QuotientUnique(p.x, m.tileWidth, TruncDiv(p.x, m.tileWidth), tile.x);
    QuotientUnique(p.y, m.tileHeight, TruncDiv(p.y, m.tileHeight), tile.y);
  }

  /** Truncation sends the pixels just left of and above the map to tile 0, not to -1. */
  lemma NegativePixelsTruncateToZero(m: TileMap, p: Point)
    requires HasTileSize(m)
    requires -m.tileWidth < p.x < 0 && -m.tileHeight < p.y < 0
    ensures TileLocation(m, p) == Point(0, 0)
  {
  }

  // ---------------------------------------------------------------------------------
  // Tiles at a pixel location

  /** The non-null tiles of the layers at grid coordinate `at`, in layer order. */
  function TilesAt(layers: seq<TileLayer>, at: Point): seq<Tile>
  {
    if |layers| == 0 then []
    else
      var last := layers[|layers| - 1];
      TilesAt(layers[..|layers| - 1], at) + (if at in last.tiles then [last.tiles[at]] else [])
  }

  /** Layer order is kept: the tiles of two runs of layers are those of the first run,
      then those of the second. */
  lemma {:induction false} TilesAtAppend(a: seq<TileLayer>, b: seq<TileLayer>, at: Point)
    ensures TilesAt(a + b, at) == TilesAt(a, at) + TilesAt(b, at)
    decreases |b|
  {
    if |b| == 0 {
      assert a + b == a;
    } else {
      assert (a + b)[..|a + b| - 1] == a + b[..|b| - 1];
      TilesAtAppend(a, b[..|b| - 1], at);
    }
  }

  /** At most one tile per layer; each is the tile some layer holds at `at`; and the
      result is empty exactly when no layer holds a tile there. */
  lemma {:induction false} TilesAtFromLayers(layers: seq<TileLayer>, at: Point)
    ensures |TilesAt(layers, at)| <= |layers|
    ensures forall t :: t in TilesAt(layers, at) ==>
      exists i :: 0 <= i < |layers| && at in layers[i].tiles && layers[i].tiles[at] == t
    ensures TilesAt(layers, at) == [] <==> forall i :: 0 <= i < |layers| ==> at !in layers[i].tiles
  {
    if |layers| > 0 {
      var init := layers[..|layers| - 1];
      TilesAtFromLayers(init, at);
      forall t | t in TilesAt(layers, at)
        ensures exists i :: 0 <= i < |layers| && at in layers[i].tiles && layers[i].tiles[at] == t
      {
        if t in TilesAt(init, at) {
          var i :| 0 <= i < |init| && at in init[i].tiles && init[i].tiles[at] == t;
          assert layers[i] == init[i];
        } else {
          assert at in layers[|layers| - 1].tiles;
        }
      }
      if TilesAt(layers, at) == [] {
        forall i | 0 <= i < |layers| ensures at !in layers[i].tiles {
          if i < |init| {
            assert layers[i] == init[i];
          }
        }
      }
    }
  }

  /** `getTilesByPixelLocation`: for each tile layer in order, the tile at the pixel's grid
      coordinate when there is one. */
  method GetTilesByPixelLocation(m: TileMap, location: Point) returns (tiles: seq<Tile>)
    requires HasTileSize(m)
    ensures tiles == TilesAt(m.tileLayers, TileLocation(m, location))
  {
    tiles := [];
    if |m.tileLayers| == 0 {
      return;
    }
    var at := TileLocation(m, location);
    var i := 0;
    while i < |m.tileLayers|
      invariant 0 <= i <= |m.tileLayers|
      invariant tiles == TilesAt(m.tileLayers[..i], at)
    {
      assert m.tileLayers[..i + 1][..i] == m.tileLayers[..i];
      var layer := m.tileLayers[i];
      if at in layer.tiles {
        tiles := tiles + [layer.tiles[at]];
      }
      i := i + 1;
    }
    assert m.tileLayers[..i] == m.tileLayers;
  }

  // ---------------------------------------------------------------------------------
  // Tileset bands

  /** Whether a tileset's band admits `gId`.  `findTileSet` tests `firstGridId > gId`; the
      terrain and animation lookups test `firstGridId - 1 > gId` (`loose`), so they also
      admit the id just below the band. */
  predicate Claims(ts: Tileset, gId: int, loose: bool)
  {
    (if loose then ts.firstGridId - 1 else ts.firstGridId) <= gId <= LastGridId(ts)
  }

  /** `i` is the first tileset, in map order, whose band admits `gId`. */
  predicate IsFirstClaiming(tilesets: seq<Tileset>, gId: int, loose: bool, i: int)
  {
    && 0 <= i < |tilesets|
    && Claims(tilesets[i], gId, loose)
    && forall j :: 0 <= j < i ==> !Claims(tilesets[j], gId, loose)
  }

  /** The first tileset whose band admits `gId`, or `None` when no band does. */
  function FirstClaiming(tilesets: seq<Tileset>, gId: int, loose: bool): (r: Option<nat>)
    ensures r.Some? ==> IsFirstClaiming(tilesets, gId, loose, r.value)
    ensures r.None? <==> forall j :: 0 <= j < |tilesets| ==> !Claims(tilesets[j], gId, loose)
  {
    if |tilesets| == 0 then None
    else if Claims(tilesets[0], gId, loose) then Some(0)
    else
      match FirstClaiming(tilesets[1..], gId, loose)
      case None => None
      case Some(k) => Some(k + 1)
  }

  /** The first admitting tileset is determined by the band tests alone. */
  lemma FirstClaimingUnique(tilesets: seq<Tileset>, gId: int, loose: bool, i: int)
    requires IsFirstClaiming(tilesets, gId, loose, i)
    ensures FirstClaiming(tilesets, gId, loose) == Some(i)
  {
    var r := FirstClaiming(tilesets, gId, loose);
    assert r.Some?;
    assert Claims(tilesets[r.value], gId, loose) && Claims(tilesets[i], gId, loose);
  }

  /** The tileset scan shared by `findTileSet`, `getTerrain` and `getAnimation`: the first
      tileset in order whose band admits `gId`. */
  method ScanTilesets(tilesets: seq<Tileset>, gId: int, loose: bool) returns (r: Option<nat>)
    ensures r == FirstClaiming(tilesets, gId, loose)
  {
    var i := 0;
    while i < |tilesets|
      invariant 0 <= i <= |tilesets|
      invariant forall j :: 0 <= j < i ==> !Claims(tilesets[j], gId, loose)
    {
      var ts := tilesets[i];
      var lastGridId := ts.firstGridId - 1 + ts.tileCount;
      var lower := if loose then ts.firstGridId - 1 else ts.firstGridId;
      if lower <= gId && gId <= lastGridId {
        FirstClaimingUnique(tilesets, gId, loose, i);
        return Some(i);
      }
      i := i + 1;
    }
    return None;
  }

  /** What `findTileSet` resolves without its cache. */
  function TilesetFor(tilesets: seq<Tileset>, gId: int): Option<Tileset>
  {
    match FirstClaiming(tilesets, gId, false)
    case None => None
    case Some(i) => Some(tilesets[i])
  }

  /** What `getAnimation` resolves without its caches. */
  function AnimationFor(tilesets: seq<Tileset>, gId: int): Option<Animation>
  {
    match FirstClaiming(tilesets, gId, true)
    case None => None
    case Some(i) => TilesetAnimation(tilesets[i], gId)
  }

  /** `new ITerrain[4]`: four empty corner slots. */
  function EmptyTerrain(): TerrainSlots
  {
    [None, None, None, None]
  }

  /** `getTerrain`: the terrain answered by the first tileset whose loose band admits
      `gId`, or four empty slots when none does. */
  method GetTerrain(m: TileMap, gId: int) returns (terrain: Option<TerrainSlots>)
    ensures forall i :: IsFirstClaiming(m.tilesets, gId, true, i) ==> terrain == TilesetTerrain(m.tilesets[i], gId)
    ensures (forall j :: 0 <= j < |m.tilesets| ==> !Claims(m.tilesets[j], gId, true)) ==>
      terrain == Some(EmptyTerrain()) && |terrain.value| == 4
  {
    var found := ScanTilesets(m.tilesets, gId, true);
    match found
    case None =>
      terrain := Some(EmptyTerrain());
    case Some(i) =>
      forall k | IsFirstClaiming(m.tilesets, gId, true, k) ensures k == i {
        FirstClaimingUnique(m.tilesets, gId, true, k);
      }
      terrain := TilesetTerrain(m.tilesets[i], gId);
  }

  /** Two tilesets A = [1, 10] and B = [11, 20]: id 15 belongs to B, id 25 to none; the
      terrain lookup's loose band also gives id 0 to A, which `findTileSet` does not. */
  lemma TwoTilesetScenario(a: Tileset, b: Tileset)
    requires a.firstGridId == 1 && a.tileCount == 10
    requires b.firstGridId == 11 && b.tileCount == 10
    ensures TilesetFor([a, b], 15) == Some(b)
    ensures TilesetFor([a, b], 25) == None
    ensures TilesetFor([a, b], 0) == None
    ensures FirstClaiming([a, b], 0, true) == Some(0)
  {
    FirstClaimingUnique([a, b], 15, false, 1);
  }

  // ---------------------------------------------------------------------------------
  // The memo tables of findTileSet and getAnimation

  /** Key of the memo tables: the map's file name and the grid id, which the source joins
      as `fileName + "[" + gridId + "]"`. */
  type CacheKey = (string, int)

  /** The static tables `tilesets`, `animations` and `hasAnimation`.  `scans` counts the
      tileset scans the two cached lookups perform. */
  class ResolutionCache {
    var tilesets: map<CacheKey, Tileset>
    var animations: map<CacheKey, Animation>
    var hasAnimation: map<CacheKey, bool>
    ghost var scans: nat

    constructor ()
      ensures tilesets == map[] && animations == map[] && hasAnimation == map[]
      ensures scans == 0
    {
      tilesets, animations, hasAnimation := map[], map[], map[];
      scans := 0;
    }

    /** Every entry filed under `m`'s file name agrees with the uncached resolution on `m`:
        a stored tileset or animation is the one a scan finds, and a stored `false` means
        the scan finds a tileset without an animation for that id. */
    ghost predicate Coherent(m: TileMap)
      reads this
    {
      && (forall key :: key in tilesets && key.0 == m.fileName ==> TilesetFor(m.tilesets, key.1) == Some(tilesets[key]))
      && (forall key :: key in animations && key.0 == m.fileName ==> AnimationFor(m.tilesets, key.1) == Some(animations[key]))
      && (forall key :: key in hasAnimation && key.0 == m.fileName && !hasAnimation[key] ==> AnimationFor(m.tilesets, key.1) == None)
    }

    /** `findTileSet`: a stored tileset is returned without a scan; otherwise the scan's
        match is returned and, only when there is one, stored. */
    method FindTileSet(m: TileMap, tile: Tile) returns (r: Option<Tileset>)
      modifies this
      ensures animations == old(animations) && hasAnimation == old(hasAnimation)
      ensures (m.fileName, tile.gridId) in old(tilesets) ==>
        r == Some(old(tilesets)[(m.fileName, tile.gridId)]) && tilesets == old(tilesets) && scans == old(scans)
      ensures (m.fileName, tile.gridId) !in old(tilesets) ==>
        && r == TilesetFor(m.tilesets, tile.gridId)
        && scans == old(scans) + 1
        && tilesets == (if r.Some? then old(tilesets)[(m.fileName, tile.gridId) := r.value] else old(tilesets))
      ensures old(Coherent(m)) ==> Coherent(m) && r == TilesetFor(m.tilesets, tile.gridId)
    {
      var key := (m.fileName, tile.gridId);
      if key in tilesets {
        return Some(tilesets[key]);
      }
      scans := scans + 1;
      var found := ScanTilesets(m.tilesets, tile.gridId, false);
      r := None;
      if found.Some? {
        r := Some(m.tilesets[found.value]);
        tilesets := tilesets[key := r.value];
      }
    }

    /** `getAnimation`: a stored `false` answers null and a stored animation answers
        itself, both without a scan; otherwise, when a tileset's loose band admits the id,
        whether it has an animation is stored, and the animation too when there is one;
        when no band admits it, nothing is stored. */
    method GetAnimation(m: TileMap, gId: int) returns (r: Option<Animation>)
      modifies this
      ensures tilesets == old(tilesets)
      ensures (m.fileName, gId) in old(hasAnimation) && !old(hasAnimation)[(m.fileName, gId)] ==>
        r == None && unchanged(this)
      ensures !((m.fileName, gId) in old(hasAnimation) && !old(hasAnimation)[(m.fileName, gId)]) &&
              (m.fileName, gId) in old(animations) ==>
        r == Some(old(animations)[(m.fileName, gId)]) && unchanged(this)
      ensures !((m.fileName, gId) in old(hasAnimation) && !old(hasAnimation)[(m.fileName, gId)]) &&
              (m.fileName, gId) !in old(animations) ==>
        && r == AnimationFor(m.tilesets, gId)
        && scans == old(scans) + 1
        && (FirstClaiming(m.tilesets, gId, true).None? ==>
              animations == old(animations) && hasAnimation == old(hasAnimation))
        && (FirstClaiming(m.tilesets, gId, true).Some? ==>
              && hasAnimation == old(hasAnimation)[(m.fileName, gId) := r.Some?]
              && animations == (if r.Some? then old(animations)[(m.fileName, gId) := r.value] else old(animations)))
      ensures old(Coherent(m)) ==> Coherent(m) && r == AnimationFor(m.tilesets, gId)
    {
      var key := (m.fileName, gId);
      if key in hasAnimation && !hasAnimation[key] {
        return None;
      }
      if key in animations {
        return Some(animations[key]);
      }
      scans := scans + 1;
      var found := ScanTilesets(m.tilesets, gId, true);
      match found
      case None =>
        r := None;
      case Some(i) =>
        r := TilesetAnimation(m.tilesets[i], gId);
        if r.Some? {
          animations := animations[key := r.value];
        }
        hasAnimation := hasAnimation[key := r.Some?];
    }

    /** Two `findTileSet` calls for the same tile give the same answer. */
    method FindTileSetTwice(m: TileMap, tile: Tile) returns (first: Option<Tileset>, second: Option<Tileset>)
      modifies this
      ensures first == second
    {
      first := FindTileSet(m, tile);
      second := FindTileSet(m, tile);
    }

    /** Two `getAnimation` calls for the same id give the same answer, and once a tileset
        admits the id the second call does not scan, whether or not it found an animation. */
    method GetAnimationTwice(m: TileMap, gId: int) returns (first: Option<Animation>, second: Option<Animation>)
      modifies this
      ensures first == second
      ensures FirstClaiming(m.tilesets, gId, true).Some? ==> scans <= old(scans) + 1
    {
      first := GetAnimation(m, gId);
      second := GetAnimation(m, gId);
    }
  }

  // ---------------------------------------------------------------------------------
  // Polylines

  /** Whether `convertPolylineToPointList` and `convertPolylineToPath` answer null. */
  predicate NoPolyline(obj: Option<MapObject>)
  {
    obj.None? || obj.value.polyline.None? || |obj.value.polyline.value| == 0
  }

  /** `convertPolylineToPointList`: the points after the first, each moved by the object's
      location, in order. */
  method ConvertPolylineToPointList(obj: Option<MapObject>) returns (r: Option<seq<Point>>)
    ensures r.None? <==> NoPolyline(obj)
    ensures r.Some? ==>
      var points := obj.value.polyline.value;
      && |r.value| == |points| - 1
      && forall i :: 0 <= i < |r.value| ==> r.value[i] == Translate(points[i + 1], obj.value.location)
  {
    if NoPolyline(obj) {
      return None;
    }
    var points := obj.value.polyline.value;
    var location := obj.value.location;
    var result := [];
    var i := 1;
    while i < |points|
      invariant 1 <= i <= |points|
      invariant |result| == i - 1
      invariant forall k :: 0 <= k < i - 1 ==> result[k] == Translate(points[k + 1], location)
    {
      result := result + [Point(location.x + points[i].x, location.y + points[i].y)];
      i := i + 1;
    }
    return Some(result);
  }

  /** `convertPolylineToPath`: the vertices of the path, which starts at the object's
      location and continues through the points after the first, each moved by it. */
  method ConvertPolylineToPath(obj: Option<MapObject>) returns (r: Option<seq<Point>>)
    ensures r.None? <==> NoPolyline(obj)
    ensures r.Some? ==>
      var points := obj.value.polyline.value;
      && |r.value| == |points|
      && r.value[0] == obj.value.location
      && forall i :: 1 <= i < |r.value| ==> r.value[i] == Translate(points[i], obj.value.location)
  {
    if NoPolyline(obj) {
      return None;
    }
    var points := obj.value.polyline.value;
    var location := obj.value.location;
    var path := [location];
    var i := 1;
    while i < |points|
      invariant 1 <= i <= |points|
      invariant |path| == i && path[0] == location
      invariant forall k :: 1 <= k < i ==> path[k] == Translate(points[k], location)
    {
      path := path + [Point(location.x + points[i].x, location.y + points[i].y)];
      i := i + 1;
    }
    return Some(path);
  }

  // ---------------------------------------------------------------------------------
  // Object lookup by id

  /** The result of `findMapObject`: the object, null, or the `NullPointerException` a
      null layer or object raises before a match is reached. */
  datatype Lookup = Found(obj: MapObject) | NotFound | NullDereference

  /** The first entry of the walk that is null or has id `id`. */
  function FindIn(es: seq<Option<MapObject>>, id: int): (r: Lookup)
    ensures r.Found? ==> r.obj.id == id && Some(r.obj) in es
    ensures r.NotFound? ==> forall k :: 0 <= k < |es| ==> es[k].Some? && es[k].value.id != id
    ensures r.NullDereference? ==> None in es
  {
    if |es| == 0 then NotFound
    else
      match es[0]
      case None => NullDereference
      case Some(o) => if o.id == id then Found(o) else FindIn(es[1..], id)
  }

  /** Entries that are neither null nor a match are passed over. */
  lemma {:induction false} FindInSkip(a: seq<Option<MapObject>>, b: seq<Option<MapObject>>, id: int)
    requires forall k :: 0 <= k < |a| ==> a[k].Some? && a[k].value.id != id
    ensures FindIn(a + b, id) == FindIn(b, id)
  {
    if |a| > 0 {
      assert (a + b)[1..] == a[1..] + b;
      FindInSkip(a[1..], b, id);
    } else {
      assert a + b == b;
    }
  }

  /** A found object is the first match, and every entry before it is a non-null object
      with another id. */
  lemma {:induction false} FindInFirstMatch(es: seq<Option<MapObject>>, id: int)
    requires FindIn(es, id).Found?
    ensures exists k :: && 0 <= k < |es| && es[k] == Some(FindIn(es, id).obj)
                        && forall j :: 0 <= j < k ==> es[j].Some? && es[j].value.id != id
  {
    if es[0].Some? && es[0].value.id != id {
      var rest := es[1..];
      FindInFirstMatch(rest, id);
      var k :| && 0 <= k < |rest| && rest[k] == Some(FindIn(rest, id).obj)
               && forall j :: 0 <= j < k ==> rest[j].Some? && rest[j].value.id != id;
      assert es[k + 1] == Some(FindIn(es, id).obj);
      assert forall j :: 1 <= j < k + 1 ==> es[j] == rest[j - 1];
    } else {
      assert es[0] == Some(FindIn(es, id).obj);
    }
  }

  /** A lookup throws at the first null entry, and every entry before it is a non-null
      object with another id. */
  lemma {:induction false} FindInFirstNull(es: seq<Option<MapObject>>, id: int)
    requires FindIn(es, id).NullDereference?
    ensures exists k :: && 0 <= k < |es| && es[k].None?
                        && forall j :: 0 <= j < k ==> es[j].Some? && es[j].value.id != id
  {
    if es[0].Some? {
      var rest := es[1..];
      FindInFirstNull(rest, id);
      var k :| && 0 <= k < |rest| && rest[k].None?
               && forall j :: 0 <= j < k ==> rest[j].Some? && rest[j].value.id != id;
      assert es[k + 1].None?;
      assert forall j :: 1 <= j < k + 1 ==> es[j] == rest[j - 1];
    } else {
      assert es[0].None?;
    }
  }

  /** `findMapObject`: the first object, in layer-then-object order, with id `id`. */
  method FindMapObject(m: TileMap, id: int) returns (r: Lookup)
    ensures r == FindIn(Entries(m.objectLayers), id)
  {
    var layers := m.objectLayers;
    var i := 0;
    while i < |layers|
      invariant 0 <= i <= |layers|
      invariant FindIn(Entries(layers), id) == FindIn(Entries(layers[i..]), id)
    {
      EntriesFrom(layers, i);
      match layers[i] {
        case None =>
          return NullDereference;
        case Some(layer) =>
          var found := ScanObjects(layer.objects, Entries(layers[i + 1..]), id);
          if found.Some? {
            return found.value;
          }
      }
      i := i + 1;
    }
    assert layers[i..] == [];
    return NotFound;
  }

  /** The walk from layer `i` on: layer `i`'s entries, then those of the later layers; a
      null layer `i` ends a lookup at once. */
  lemma EntriesFrom(layers: seq<Option<ObjectLayer>>, i: nat)
    requires i < |layers|
    ensures Entries(layers[i..]) == LayerEntries(layers[i]) + Entries(layers[i + 1..])
    ensures forall id :: layers[i].None? ==> FindIn(Entries(layers[i..]), id) == NullDereference
  {
    EntriesSplit(layers[i..], 0);
    assert layers[i..][..0] == [] && layers[i..][1..] == layers[i + 1..];
  }

  /** The inner loop of `findMapObject` over one layer's objects: the lookup's answer when
      the layer decides it, or `None` to go on with the layers after it (`rest`). */
  method ScanObjects(objects: seq<Option<MapObject>>, ghost rest: seq<Option<MapObject>>, id: int)
    returns (r: Option<Lookup>)
    ensures r.Some? ==> r.value == FindIn(objects + rest, id)
    ensures r.None? ==> FindIn(objects + rest, id) == FindIn(rest, id)
  {
    var j := 0;
    while j < |objects|
      invariant 0 <= j <= |objects|
      invariant forall k :: 0 <= k < j ==> objects[k].Some? && objects[k].value.id != id
    {
      match objects[j] {
        case None =>
          FindInSkip(objects[..j], objects[j..] + rest, id);
          assert objects + rest == objects[..j] + (objects[j..] + rest);
          return Some(NullDereference);
        case Some(o) =>
          if o.id == id {
            FindInSkip(objects[..j], objects[j..] + rest, id);
            assert objects + rest == objects[..j] + (objects[j..] + rest);
            return Some(Found(o));
          }
      }
      j := j + 1;
    }
    assert objects[..j] == objects;
    FindInSkip(objects, rest, id);
    return None;
  }
}
