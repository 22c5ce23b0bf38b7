/** The runtime entity registry of one loaded map: the combat and movable entity tables
    keyed by map id, the props and light sources, the shared id counters, and the walk over
    the object layers that creates light sources and static collision boxes. */
module Environments {
  import opened Common
  import opened TileMaps
  import MapUtilities
  import opened IdSequences
  import opened Entities
  import opened SpatialQuery

  /** The entities registered under the keys of `order`, in that order. */
  function ValuesIn(m: map<int, Entity>, order: seq<int>): (vs: seq<Entity>)
    requires forall k :: k in order ==> k in m
    ensures |vs| == |order|
    ensures forall i :: 0 <= i < |order| && order[i] in m ==> vs[i] == m[order[i]]
  {
    if |order| == 0 then []
    else
      var last := order[|order| - 1];
      assert last in order;
      ValuesIn(m, order[..|order| - 1]) + [m[last]]
  }

  /** `order` lists every key of `m` exactly once: an iteration order of the table. */
  ghost predicate Enumerates(m: map<int, Entity>, order: seq<int>)
  {
    && (forall k :: k in order <==> k in m)
    && (forall i, j :: 0 <= i < j < |order| ==> order[i] != order[j])
  }

  class Environment {
    const tileMap: TileMap
    /** The process-wide id counters, shared by every environment. */
    const ids: Counters
    /** The game's physics engine. */
    const physics: PhysicsEngine
    var combatEntities: map<int, Entity>
    var movableEntities: map<int, Entity>
    var props: seq<Prop>
    var lightSources: seq<LightSource>

    /** The map sequence has been advanced past every object id authored in this
        environment's map. */
    ghost predicate SeededFromMap()
      reads this, ids
    {
      MapUtilities.MaxObjectId(Entries(tileMap.objectLayers)) <= ids.mapIdSequence
    }

    /** The constructor, given the map the loader produced: the map sequence is advanced
        past the largest authored object id and every table and list starts empty. */
    constructor (m: TileMap, ids: Counters, physics: PhysicsEngine)
      requires ids.Valid()
      modifies ids
      ensures tileMap == m && this.ids == ids && this.physics == physics
      ensures ids.Valid() && SeededFromMap()
      ensures var authored := MapUtilities.MaxObjectId(Entries(m.objectLayers));
        ids.mapIdSequence == if old(ids.mapIdSequence) < authored then authored else old(ids.mapIdSequence)
      ensures forall o :: Some(o) in Entries(m.objectLayers) ==> o.id <= ids.mapIdSequence
      ensures ids.mapIds == old(ids.mapIds)
      ensures ids.localIdSequence == old(ids.localIdSequence) && ids.localIds == old(ids.localIds)
      ensures combatEntities == map[] && movableEntities == map[]
      ensures props == [] && lightSources == []
    {
      var maxId := MapUtilities.GetMaxMapId(m);
      ids.SeedAtLeast(maxId);
      MapUtilities.MaxObjectIdBounds(Entries(m.objectLayers));
      tileMap := m;
      this.ids := ids;
      this.physics := physics;
      combatEntities, movableEntities := map[], map[];
      props, lightSources := [], [];
    }

    /** `getMapId`: the next map id.  It is one more than the last and differs from every
        map id handed out before, by this or any earlier environment; once the sequence was
        seeded from this map it exceeds every authored object id. */
    method GetMapId() returns (id: int)
      requires ids.Valid()
      modifies ids
      ensures ids.Valid()
      ensures id == old(ids.mapIdSequence) + 1
      ensures forall earlier :: earlier in old(ids.mapIds) ==> earlier < id
      ensures ids.mapIds == old(ids.mapIds) + [id]
      ensures old(SeededFromMap()) ==> SeededFromMap() && forall o :: Some(o) in Entries(tileMap.objectLayers) ==> o.id < id
      ensures ids.localIdSequence == old(ids.localIdSequence) && ids.localIds == old(ids.localIds)
    {
      id := ids.NextMapId();
      MapUtilities.MaxObjectIdBounds(Entries(tileMap.objectLayers));
    }

    /** `getLocalMapId`: the next local id, negative and below every local id before it. */
    method GetLocalMapId() returns (id: int)
      requires ids.Valid()
      modifies ids
      ensures ids.Valid()
      ensures id == old(ids.localIdSequence) - 1 && id == -(|old(ids.localIds)| + 1) && id < 0
      ensures forall earlier :: earlier in old(ids.localIds) ==> id < earlier
      ensures ids.localIds == old(ids.localIds) + [id]
      ensures ids.mapIdSequence == old(ids.mapIdSequence) && ids.mapIds == old(ids.mapIds)
    {
      id := ids.NextLocalId();
    }

    /** `addCombatEntity`: `e` under `mapId`, every other key as it was. */
    method AddCombatEntity(mapId: int, e: Entity)
      modifies this
      ensures combatEntities == old(combatEntities)[mapId := e]
      ensures movableEntities == old(movableEntities)
      ensures props == old(props) && lightSources == old(lightSources)
    {
      combatEntities := combatEntities[mapId := e];
    }

    /** `addMovableEntity`: `e` under `mapId`, every other key as it was. */
    method AddMovableEntity(mapId: int, e: Entity)
      modifies this
      ensures movableEntities == old(movableEntities)[mapId := e]
      ensures combatEntities == old(combatEntities)
      ensures props == old(props) && lightSources == old(lightSources)
    {
      movableEntities := movableEntities[mapId := e];
    }

    /** `add`: a movable combat entity goes into both tables under the same id. */
    method Add(mapId: int, e: Entity)
      modifies this
      ensures combatEntities == old(combatEntities)[mapId := e]
      ensures movableEntities == old(movableEntities)[mapId := e]
      ensures props == old(props) && lightSources == old(lightSources)
    {
      AddCombatEntity(mapId, e);
      AddMovableEntity(mapId, e);
    }

    /** `remove`: `mapId` leaves both tables; nothing else changes. */
    method Remove(mapId: int)
      modifies this
      ensures combatEntities == old(combatEntities) - {mapId}
      ensures movableEntities == old(movableEntities) - {mapId}
      ensures mapId !in combatEntities && mapId !in movableEntities
      ensures props == old(props) && lightSources == old(lightSources)
    {
      if mapId in movableEntities {
        movableEntities := movableEntities - {mapId};
      }
      if mapId in combatEntities {
        combatEntities := combatEntities - {mapId};
      }
    }

    /** `clear`: both tables and the light sources are emptied; the props stay. */
    method Clear()
      modifies this
      ensures combatEntities == map[] && movableEntities == map[] && lightSources == []
      ensures props == old(props)
    {
      combatEntities := map[];
      movableEntities := map[];
      lightSources := [];
    }

    /** `getCombatEntity`: the entity under `mapId`, or null when there is none. */
    function GetCombatEntity(mapId: int): (r: Option<Entity>)
      reads this
      ensures r.Some? <==> mapId in combatEntities
      ensures r.Some? ==> combatEntities[mapId] == r.value
    {
      if mapId in combatEntities then Some(combatEntities[mapId]) else None
    }

    /** `getMovableEntity`: the entity under `mapId`, or null when there is none. */
    function GetMovableEntity(mapId: int): (r: Option<Entity>)
      reads this
      ensures r.Some? <==> mapId in movableEntities
      ensures r.Some? ==> movableEntities[mapId] == r.value
    {
      if mapId in movableEntities then Some(movableEntities[mapId]) else None
    }

    /** `addCollisionBoxes`: a `COLLISIONBOX` object's rectangle goes to the physics engine. */
    method AddCollisionBoxes(o: MapObject) returns (outcome: Outcome)
      modifies physics
      ensures o.objType.None? ==> outcome == Fail(NullReference) && physics.colliders == old(physics.colliders)
      ensures o.objType.Some? ==> outcome == Pass
      ensures o.objType == Some(CollisionBoxType) ==>
        physics.colliders == old(physics.colliders) + [StaticBox(Rect(o.location.x, o.location.y, o.width, o.height))]
      ensures o.objType != Some(CollisionBoxType) ==> physics.colliders == old(physics.colliders)
    {
      match o.objType {
        case None =>
          return Fail(NullReference);
        case Some(t) =>
          if t == CollisionBoxType {
            physics.Add(StaticBox(Rect(o.location.x, o.location.y, o.width, o.height)));
          }
          return Pass;
      }
    }

    /** `addMapObject`: a `LIGHTSOURCE` object adds its light, then any object goes through
        `addCollisionBoxes`; what it adds, and what it throws, is `Place(o)`. */
    method AddMapObject(o: MapObject) returns (outcome: Outcome)
      modifies this, physics
      ensures var p := Place(o);
        && lightSources == old(lightSources) + (if p.AddLight? then [p.light] else [])
        && physics.colliders == old(physics.colliders) + (if p.AddStaticBox? then [StaticBox(p.box)] else [])
        && outcome == (if p.Failed? then Fail(p.error) else Pass)
      ensures combatEntities == old(combatEntities) && movableEntities == old(movableEntities) && props == old(props)
    {
      if o.objType == Some(LightSourceType) {
        match LightFor(o) {
          case Skip =>
            return Pass;
          case Failed(err) =>
            return Fail(err);
          case AddLight(light) =>
            lightSources := lightSources + [light];
          case AddStaticBox(_) =>
            // Unreachable: `LightFor` never yields a box. The arm is here because a match
            // statement must cover every constructor of `Placement`.
        }
      }
      outcome := AddCollisionBoxes(o);
    }

    /** `loadMapObjects`, which `init` runs: every object of every layer, in order, except
        those with a null or empty type, goes through `addMapObject`; the first exception
        ends the walk. */
    method Init() returns (outcome: Outcome)
      modifies this, physics
      ensures var r := Load(Entries(tileMap.objectLayers));
        && lightSources == old(lightSources) + r.lights
        && physics.colliders == old(physics.colliders) + r.colliders
        && outcome == (if r.error.Some? then Fail(r.error.value) else Pass)
      ensures combatEntities == old(combatEntities) && movableEntities == old(movableEntities) && props == old(props)
    {
      var layers := tileMap.objectLayers;
      var i := 0;
      while i < |layers|
        invariant 0 <= i <= |layers|
        invariant LoadLayers(layers[..i]).error.None?
        invariant lightSources == old(lightSources) + LoadLayers(layers[..i]).lights
        invariant physics.colliders == old(physics.colliders) + LoadLayers(layers[..i]).colliders
        invariant combatEntities == old(combatEntities) && movableEntities == old(movableEntities)
        invariant props == old(props)
      {
        ghost var prev, step := LoadLayers(layers[..i]), Load(LayerEntries(layers[i]));
        LoadLayersNext(layers, i);
        outcome := LoadObjectLayer(layers[i]);
        AppendAssociative(old(lightSources), prev.lights, step.lights);
        AppendAssociative(old(physics.colliders), prev.colliders, step.colliders);
        if outcome.Fail? {
          LayersAfterFailure(layers, i);
          LoadLayersIsLoad(layers);
          return;
        }
        i := i + 1;
      }
      assert layers[..i] == layers;
      LoadLayersIsLoad(layers);
      outcome := Pass;
    }

    /** One layer of `loadMapObjects`: a null layer throws, any other is walked object by object. */
    method LoadObjectLayer(layer: Option<ObjectLayer>) returns (outcome: Outcome)
      modifies this, physics
      ensures lightSources == old(lightSources) + Load(LayerEntries(layer)).lights
      ensures physics.colliders == old(physics.colliders) + Load(LayerEntries(layer)).colliders
      ensures outcome == (if Load(LayerEntries(layer)).error.Some? then Fail(Load(LayerEntries(layer)).error.value) else Pass)
      ensures combatEntities == old(combatEntities) && movableEntities == old(movableEntities) && props == old(props)
    {
      match layer {
        case None =>
          assert LayerEntries(layer)[..0] == [];
          return Fail(NullReference);
        case Some(l) =>
          outcome := LoadLayer(l.objects);
      }
    }

    /** The inner loop of `loadMapObjects` over one layer's objects. */
    method LoadLayer(objects: seq<Option<MapObject>>) returns (outcome: Outcome)
      modifies this, physics
      ensures lightSources == old(lightSources) + Load(objects).lights
      ensures physics.colliders == old(physics.colliders) + Load(objects).colliders
      ensures outcome == (if Load(objects).error.Some? then Fail(Load(objects).error.value) else Pass)
      ensures combatEntities == old(combatEntities) && movableEntities == old(movableEntities) && props == old(props)
    {
      var j := 0;
      while j < |objects|
        invariant 0 <= j <= |objects|
        invariant Load(objects[..j]).error.None?
        invariant lightSources == old(lightSources) + Load(objects[..j]).lights
        invariant physics.colliders == old(physics.colliders) + Load(objects[..j]).colliders
        invariant combatEntities == old(combatEntities) && movableEntities == old(movableEntities)
        invariant props == old(props)
      {
        ghost var prev, step := Load(objects[..j]), Effect(objects[j]);
        LoadNextObject(objects, j);
        AppendAssociative(old(lightSources), prev.lights, step.lights);
        AppendAssociative(old(physics.colliders), prev.colliders, step.colliders);
        match objects[j] {
          case None =>
            ObjectsAfterFailure(objects, j);
            return Fail(NullReference);
          case Some(o) =>
            if o.objType.Some? && |o.objType.value| > 0 {
              outcome := AddMapObject(o);
              if outcome.Fail? {
                ObjectsAfterFailure(objects, j);
                return;
              }
            }
        }
        j := j + 1;
      }
      assert objects[..j] == objects;
      outcome := Pass;
    }

    /** `addProp`: a `PROP` object (in any case) becomes a prop, appended to the props and
        registered as a combat entity under the object's id, and handed to the physics
        engine when it has collision.  A team that does not parse throws after the
        registration and before the physics engine sees the prop. */
    method AddProp(o: MapObject, materials: set<string>) returns (outcome: Outcome)
      modifies this, physics
      ensures match MakeProp(o, materials)
        case NotProp =>
          && outcome == Pass && props == old(props) && combatEntities == old(combatEntities)
          && physics.colliders == old(physics.colliders)
        case PropFailed(err) =>
          && outcome == Fail(err) && props == old(props) && combatEntities == old(combatEntities)
          && physics.colliders == old(physics.colliders)
        case PropMade(p, teamError) =>
          && props == old(props) + [p]
          && combatEntities == old(combatEntities)[o.id := PropEntity(p)]
          && outcome == (if teamError.Some? then Fail(teamError.value) else Pass)
          && physics.colliders
             == old(physics.colliders) + (if teamError.None? && p.collision then [Body(PropEntity(p))] else [])
      ensures movableEntities == old(movableEntities) && lightSources == old(lightSources)
    {
      match MakeProp(o, materials) {
        case NotProp =>
          return Pass;
        case PropFailed(err) =>
          return Fail(err);
        case PropMade(p, teamError) =>
          props := props + [p];
          AddCombatEntity(o.id, PropEntity(p));
          if teamError.Some? {
            return Fail(teamError.value);
          }
          if p.collision {
            physics.Add(Body(PropEntity(p)));
          }
          return Pass;
      }
    }

    /** `addDecorMob`: a `DECORMOB` object (in any case) becomes a decor mob, registered as a
        movable entity under the object's id and handed to the physics engine when it has
        collision. */
    method AddDecorMob(o: MapObject) returns (outcome: Outcome)
      modifies this, physics
      ensures match MakeDecorMob(o)
        case NotDecorMob =>
          outcome == Pass && movableEntities == old(movableEntities) && physics.colliders == old(physics.colliders)
        case DecorMobFailed(err) =>
          outcome == Fail(err) && movableEntities == old(movableEntities) && physics.colliders == old(physics.colliders)
        case DecorMobMade(mob) =>
          && outcome == Pass
          && movableEntities == old(movableEntities)[o.id := DecorMobEntity(mob)]
          && physics.colliders == old(physics.colliders) + (if mob.collision then [Body(DecorMobEntity(mob))] else [])
      ensures combatEntities == old(combatEntities) && props == old(props) && lightSources == old(lightSources)
    {
      match MakeDecorMob(o) {
        case NotDecorMob =>
          return Pass;
        case DecorMobFailed(err) =>
          return Fail(err);
        case DecorMobMade(mob) =>
          AddMovableEntity(o.id, DecorMobEntity(mob));
          if mob.collision {
            physics.Add(Body(DecorMobEntity(mob)));
          }
          return Pass;
      }
    }

    /** `findCombatEntities(shape, condition)`: nothing for a null shape; otherwise the
        combat entities, in the table's iteration order `order`, that the query keeps. */
    method FindCombatEntities(shape: Option<Shape>, condition: Entity -> bool, hitBox: Entity -> Rect,
                              shapeIntersects: (Rect, Shape) -> bool)
      returns (found: seq<Entity>, ghost order: seq<int>)
      ensures shape.None? ==> found == []
      ensures shape.Some? ==>
        && Enumerates(combatEntities, order)
        && found == Query(ValuesIn(combatEntities, order), shape.value, condition, hitBox, shapeIntersects)
      ensures shape.Some? ==> forall e :: (e in found <==>
        e in ValuesIn(combatEntities, order) && Hits(e, shape.value, condition, hitBox, shapeIntersects))
    {
      found, order := [], [];
      if shape.None? {
        return;
      }
      var query := shape.value;
      var remaining := combatEntities.Keys;
      while remaining != {}
        invariant Visiting(combatEntities, order, remaining)
        invariant found == Query(ValuesIn(combatEntities, order), query, condition, hitBox, shapeIntersects)
        decreases |remaining|
      {
        ElementOrEmpty(remaining);
        var key :| key in remaining;
        var e := combatEntities[key];
        QueryNextKey(combatEntities, order, key, query, condition, hitBox, shapeIntersects);
        var keep := Keeps(e, query, condition, hitBox, shapeIntersects);
        if keep {
          found := found + [e];
        }
        VisitNext(combatEntities, order, remaining, key);
        order := order + [key];
        remaining := remaining - {key};
      }
      QueryMembers(ValuesIn(combatEntities, order), query, condition, hitBox, shapeIntersects);
    }

    /** The test of the loop in `findCombatEntities` for one entity: the condition, then the
        rectangle test, or the bounds test and then the exact shape test. */
    static method Keeps(e: Entity, query: Shape, condition: Entity -> bool, hitBox: Entity -> Rect,
                        shapeIntersects: (Rect, Shape) -> bool) returns (keep: bool)
      ensures keep == Hits(e, query, condition, hitBox, shapeIntersects)
    {
      keep := false;
      if condition(e) {
        match query {
          case RectShape(r) =>
            keep := Intersects(hitBox(e), r);
          case OtherShape(bounds, _) =>
            if Intersects(hitBox(e), bounds) {
              keep := shapeIntersects(hitBox(e), query);
            }
        }
      }
    }

    /** `findCombatEntities(shape)`: the same query with a condition every entity meets. */
    method FindAllCombatEntities(shape: Option<Shape>, hitBox: Entity -> Rect, shapeIntersects: (Rect, Shape) -> bool)
      returns (found: seq<Entity>, ghost order: seq<int>)
      ensures shape.None? ==> found == []
      ensures shape.Some? ==>
        && Enumerates(combatEntities, order)
        && found == Query(ValuesIn(combatEntities, order), shape.value, _ => true, hitBox, shapeIntersects)
    {
      found, order := FindCombatEntities(shape, _ => true, hitBox, shapeIntersects);
    }
  }

  /** Partway through an iteration of `m`: `order` lists the keys visited, each once, and
      `remaining` those still to come. */
  ghost predicate Visiting(m: map<int, Entity>, order: seq<int>, remaining: set<int>)
  {
    && remaining <= m.Keys
    && (forall k :: k in order <==> k in m && k !in remaining)
    && (forall i, j :: 0 <= i < j < |order| ==> order[i] != order[j])
  }

  lemma VisitNext(m: map<int, Entity>, order: seq<int>, remaining: set<int>, key: int)
    requires Visiting(m, order, remaining) && key in remaining
    ensures Visiting(m, order + [key], remaining - {key})
  {
    assert key !in order;
  }

  /** Visiting one more key extends the query by that key's entity when the query keeps it. */
  lemma QueryNextKey(m: map<int, Entity>, order: seq<int>, key: int, query: Shape, condition: Entity -> bool,
                     hitBox: Entity -> Rect, shapeIntersects: (Rect, Shape) -> bool)
    requires forall k :: k in order ==> k in m
    requires key in m
    ensures Query(ValuesIn(m, order + [key]), query, condition, hitBox, shapeIntersects)
         == Query(ValuesIn(m, order), query, condition, hitBox, shapeIntersects)
            + (if Hits(m[key], query, condition, hitBox, shapeIntersects) then [m[key]] else [])
  {
    var before := ValuesIn(m, order);
    assert (order + [key])[..|order|] == order;
    assert ValuesIn(m, order + [key]) == before + [m[key]];
    assert (before + [m[key]])[..|before|] == before;
  }

  lemma AppendAssociative<T>(a: seq<T>, b: seq<T>, c: seq<T>)
    ensures (a + b) + c == a + (b + c)
  {
  }

  /** A set without elements is the empty set. */
  lemma ElementOrEmpty(s: set<int>)
    ensures s == {} || exists k :: k in s
  {
    if forall k :: k !in s {
      assert s == {};
    }
  }

  /** The walk of `loadMapObjects` layer by layer: each layer's objects after the layers
      before it, unless those threw. */
  ghost function LoadLayers(layers: seq<Option<ObjectLayer>>): LoadState
  {
    if |layers| == 0 then NothingLoaded
    else Then(LoadLayers(layers[..|layers| - 1]), Load(LayerEntries(layers[|layers| - 1])))
  }

  lemma LoadLayersNext(layers: seq<Option<ObjectLayer>>, i: nat)
    requires i < |layers|
    ensures LoadLayers(layers[..i + 1]) == Then(LoadLayers(layers[..i]), Load(LayerEntries(layers[i])))
  {
    assert layers[..i + 1][..i] == layers[..i];
  }

  /** Walking layer by layer is walking the flattened entries. */
  lemma {:induction false} LoadLayersIsLoad(layers: seq<Option<ObjectLayer>>)
    ensures LoadLayers(layers) == Load(Entries(layers))
  {
    if |layers| > 0 {
      var init := layers[..|layers| - 1];
      LoadLayersIsLoad(init);
      LoadAppend(Entries(init), LayerEntries(layers[|layers| - 1]));
    }
  }

  /** Once the walk throws within layer `i`, the later layers are never reached. */
  lemma {:induction false} LayersAfterFailure(layers: seq<Option<ObjectLayer>>, i: nat)
    requires i < |layers|
    requires LoadLayers(layers[..i + 1]).error.Some?
    ensures LoadLayers(layers) == LoadLayers(layers[..i + 1])
    decreases |layers|
  {
    if |layers| > i + 1 {
      var init := layers[..|layers| - 1];
      assert init[..i + 1] == layers[..i + 1];
      LayersAfterFailure(init, i);
    } else {
      assert layers[..i + 1] == layers;
    }
  }

  lemma LoadNextObject(objects: seq<Option<MapObject>>, j: nat)
    requires j < |objects|
    ensures Load(objects[..j + 1]) == Then(Load(objects[..j]), Effect(objects[j]))
  {
    assert objects[..j + 1][..j] == objects[..j];
  }

  /** Once the walk throws at object `j`, the later objects are never reached. */
  lemma {:induction false} ObjectsAfterFailure(objects: seq<Option<MapObject>>, j: nat)
    requires j < |objects|
    requires Load(objects[..j + 1]).error.Some?
    ensures Load(objects) == Load(objects[..j + 1])
  {
    if |objects| == j + 1 {
      assert objects[..j + 1] == objects;
    } else {
      var init := objects[..|objects| - 1];
      assert init[..j + 1] == objects[..j + 1];
      ObjectsAfterFailure(init, j);
    }
  }
}
