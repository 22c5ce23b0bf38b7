/** The immutable map that the loader parses: tile layers, object layers and tilesets,
    with the file name that namespaces the resolution caches.  A Java `null` inside the
    object layers is an `Option`. */
module TileMaps {
  import opened Common

  /** A placed tile, identified by its global grid id. */
  datatype Tile = Tile(gridId: int)

  /** A tile layer: the tile at each grid coordinate; a missing coordinate is `getTile`
      answering null. */
  datatype TileLayer = TileLayer(tiles: map<Point, Tile>)

  /** One terrain corner descriptor. */
  datatype Terrain = Terrain(name: string, tile: int)

  /** The terrain of a tile: one slot per corner, each possibly null. */
  type TerrainSlots = seq<Option<Terrain>>

  /** One frame of a tile animation. */
  datatype Frame = Frame(tileId: int, duration: int)

  datatype Animation = Animation(frames: seq<Frame>)

  /** A tileset owns the grid ids from `firstGridId` to `firstGridId - 1 + tileCount`.
      What it answers for `getTerrain(gId)` and `getAnimation(gId)` is given per grid id;
      a grid id without an entry stands for the tileset answering null. */
  datatype Tileset = Tileset(
    name: string,
    firstGridId: int,
    tileCount: int,
    terrains: map<int, TerrainSlots>,
    animations: map<int, Animation>)

  /** The last grid id of a tileset's band, `firstGridId - 1 + tilecount`. */
  function LastGridId(ts: Tileset): int
  {
    ts.firstGridId - 1 + ts.tileCount
  }

  /** `tileset.getTerrain(gId)`. */
  function TilesetTerrain(ts: Tileset, gId: int): Option<TerrainSlots>
  {
    if gId in ts.terrains then Some(ts.terrains[gId]) else None
  }

  /** `tileset.getAnimation(gId)`. */
  function TilesetAnimation(ts: Tileset, gId: int): Option<Animation>
  {
    if gId in ts.animations then Some(ts.animations[gId]) else None
  }

  /** An authored map object.  `objType` is the type tag (null when absent), `location`
      and the integer `width` and `height` its placement, `polyline` the optional list of
      points relative to the location, and `properties` the custom properties; a name
      without an entry is `getCustomProperty` answering null. */
  datatype MapObject = MapObject(
    id: int,
    objType: Option<string>,
    location: Point,
    width: int,
    height: int,
    polyline: Option<seq<Point>>,
    properties: map<string, string>)

  /** `mapObject.getCustomProperty(name)`. */
  function CustomProperty(o: MapObject, name: string): Option<string>
  {
    if name in o.properties then Some(o.properties[name]) else None
  }

  /** An object layer and its objects, any of which may be null. */
  datatype ObjectLayer = ObjectLayer(objects: seq<Option<MapObject>>)

  /** The parsed map.  A null object layer and a layer whose object list is null behave
      alike everywhere in the source, so both are a `None` layer. */
  datatype TileMap = TileMap(
    fileName: string,
    tileWidth: int,
    tileHeight: int,
    tileLayers: seq<TileLayer>,
    objectLayers: seq<Option<ObjectLayer>>,
    tilesets: seq<Tileset>)

  /** What the nested walk `for layer : layers / for object : layer.getMapObjects()` meets,
      in order: the objects of every layer, and a `None` where a layer is null, since
      dereferencing it ends the walk just as dereferencing a null object does. */
  function Entries(layers: seq<Option<ObjectLayer>>): seq<Option<MapObject>>
  {
    if |layers| == 0 then []
    else Entries(layers[..|layers| - 1]) + LayerEntries(layers[|layers| - 1])
  }

  function LayerEntries(layer: Option<ObjectLayer>): seq<Option<MapObject>>
  {
    match layer
    case None => [None]
    case Some(l) => l.objects
  }

  /** The walk over two runs of layers is the walk over the first, then over the second. */
  lemma {:induction false} EntriesAppend(a: seq<Option<ObjectLayer>>, b: seq<Option<ObjectLayer>>)
    ensures Entries(a + b) == Entries(a) + Entries(b)
    decreases |b|
  {
    if |b| > 0 {
      var b' := b[..|b| - 1];
      assert (a + b)[..|a + b| - 1] == a + b';
      EntriesAppend(a, b');
      assert b[..|b| - 1] == b';
    } else {
      assert a + b == a;
    }
  }

  /** The walk splits around layer `i`. */
  lemma {:induction false} EntriesSplit(layers: seq<Option<ObjectLayer>>, i: nat)
    requires i < |layers|
    ensures Entries(layers) == Entries(layers[..i]) + LayerEntries(layers[i]) + Entries(layers[i + 1..])
  {
    var pre, mid, post := layers[..i], [layers[i]], layers[i + 1..];
    assert layers == (pre + mid) + post;
    EntriesAppend(pre + mid, post);
    EntriesAppend(pre, mid);
    assert mid[..0] == [];
    assert Entries(mid) == Entries([]) + LayerEntries(layers[i]);
  }
}
