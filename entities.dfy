/** The values the environment creates from map objects: props, decor mobs and light
    sources, what the physics engine is handed, and what the object-layer walk of `init`
    produces.  Every Java exception on the way (a null dereference, a number that does not
    parse, a colour component out of range, an unknown material) is a `LoadError`. */
module Entities {
  import opened Common
  import opened JavaText
  import opened TileMaps

  // Object types and custom property names
  const LightSourceType := "LIGHTSOURCE"
  const CollisionBoxType := "COLLISIONBOX"
  const PropType := "PROP"
  const DecorMobType := "DECORMOB"

  const LightBrightness := "LIGHTBRIGHTNESS"
  const LightColor := "LIGHTCOLOR"
  const SpriteSheetName := "SPRITESHEETNAME"
  const MaterialName := "MATERIAL"
  const IndestructibleName := "INDESTRUCTIBLE"
  const HealthName := "HEALTH"
  const CollisionName := "COLLISION"
  const TeamName := "TEAM"
  const MobTypeName := "MOBTYPE"

  datatype LoadError = NullReference | BadNumber | ColorComponentOutOfRange | UnknownMaterial

  /** What a state-changing call of the environment ends with: normally, or by throwing. */
  datatype Outcome = Pass | Fail(error: LoadError)

  /** The animation states a destructible prop gets a controller animation for. */
  datatype PropState = Damaged | Destroyed

  datatype Prop = Prop(
    location: Point,
    spriteSheet: Option<string>,
    material: string,
    indestructible: bool,
    animationStates: seq<PropState>,
    maxHealth: int,
    collision: bool,
    width: int,
    height: int,
    team: Option<int>)

  datatype DecorMob = DecorMob(location: Point, mobType: Option<string>, collision: bool, width: int, height: int)

  /** A registered entity: a prop, a decor mob, or an entity the game itself creates and
      registers through `add`, known here only by a tag. */
  datatype Entity = PropEntity(prop: Prop) | DecorMobEntity(mob: DecorMob) | GameEntity(tag: int)

  /** A colour with alpha. */
  datatype Rgba = Rgba(red: int, green: int, blue: int, alpha: int)

  datatype LightSource = LightSource(location: Point, radius: int, brightness: int, color: Rgba)

  /** What the physics engine is handed: a static collision box, or an entity with collision. */
  datatype Collider = StaticBox(box: Rect) | Body(entity: Entity)

  /** The physics engine, reduced to the list of colliders it has been handed. */
  class PhysicsEngine {
    var colliders: seq<Collider>

    constructor ()
      ensures colliders == []
    {
      colliders := [];
    }

    method Add(c: Collider)
      modifies this
      ensures colliders == old(colliders) + [c]
    {
      colliders := colliders + [c];
    }
  }

  // ---------------------------------------------------------------------------------
  // addMapObject

  /** What `addMapObject` does with one object. */
  datatype Placement = Skip | AddLight(light: LightSource) | AddStaticBox(box: Rect) | Failed(error: LoadError)

  /** A present, non-empty custom property. */
  predicate HasText(v: Option<string>)
  {
    v.Some? && |v.value| > 0
  }

  /** The light of a `LIGHTSOURCE` object: nothing unless brightness and colour are both
      present and non-empty; then the brightness must parse as an `int` and the colour must
      decode (`NumberFormatException` otherwise), and the brightness must be a valid alpha
      component (the `Color` constructor's `IllegalArgumentException` otherwise). */
  function LightFor(o: MapObject): (r: Placement)
    ensures r.Skip? <==> !HasText(CustomProperty(o, LightBrightness)) || !HasText(CustomProperty(o, LightColor))
    ensures HasText(CustomProperty(o, LightBrightness)) && HasText(CustomProperty(o, LightColor)) ==>
      var brightness := ParseInt(CustomProperty(o, LightBrightness).value);
      var color := DecodeColor(CustomProperty(o, LightColor).value);
      && (brightness.None? ==> r == Failed(BadNumber))
      && (brightness.Some? && color.None? ==> r == Failed(BadNumber))
      && (brightness.Some? && color.Some? && !IsChannel(brightness.value) ==> r == Failed(ColorComponentOutOfRange))
      && (brightness.Some? && color.Some? && IsChannel(brightness.value) ==> r.AddLight?)
    ensures r.AddLight? ==>
      && r.light.location == o.location
      && r.light.radius == HalfWidth(o.width)
      && Some(r.light.brightness) == ParseInt(CustomProperty(o, LightBrightness).value)
      && r.light.color.alpha == r.light.brightness
      && IsChannel(r.light.color.alpha)
      && DecodeColor(CustomProperty(o, LightColor).value)
         == Some(Rgb(r.light.color.red, r.light.color.green, r.light.color.blue))
    ensures !r.AddStaticBox?
  {
    var brightness, color := CustomProperty(o, LightBrightness), CustomProperty(o, LightColor);
    if !HasText(brightness) || !HasText(color) then Skip
    else
      match ParseInt(brightness.value)
      case None => Failed(BadNumber)
      case Some(b) =>
        match DecodeColor(color.value)
        case None => Failed(BadNumber)
        case Some(rgb) =>
          if !IsChannel(b) then Failed(ColorComponentOutOfRange)
          else AddLight(LightSource(o.location, HalfWidth(o.width), b, Rgba(rgb.red, rgb.green, rgb.blue, b)))
  }

  /** `(int) (width / 2.0)` for an integer width. */
  function HalfWidth(width: int): (r: int)
    ensures width >= 0 ==> r * 2 <= width <= r * 2 + 1
    ensures width < 0 ==> r * 2 - 1 <= width <= r * 2
  {
    TruncDiv(width, 2)
  }

  /** `addMapObject(o)`: `equals` on the type, so a null type throws. */
  function Place(o: MapObject): (r: Placement)
    ensures o.objType.None? ==> r == Failed(NullReference)
    ensures r.AddStaticBox? <==> o.objType == Some(CollisionBoxType)
    ensures r.AddStaticBox? ==> r.box == Rect(o.location.x, o.location.y, o.width, o.height)
    ensures r.AddLight? ==> o.objType == Some(LightSourceType)
    ensures o.objType == Some(LightSourceType) ==> r == LightFor(o)
    ensures o.objType.Some? && o.objType != Some(LightSourceType) && o.objType != Some(CollisionBoxType) ==> r == Skip
  {
    match o.objType
    case None => Failed(NullReference)
    case Some(t) =>
      if t == LightSourceType then LightFor(o)
      else if t == CollisionBoxType then AddStaticBox(Rect(o.location.x, o.location.y, o.width, o.height))
      else Skip
  }

  // ---------------------------------------------------------------------------------
  // The walk of `init`

  /** The light sources and colliders added so far, and the exception that ended the walk. */
  datatype LoadState = LoadState(lights: seq<LightSource>, colliders: seq<Collider>, error: Option<LoadError>)

  const NothingLoaded := LoadState([], [], None)

  /** `x`, then `y` unless `x` already threw. */
  function Then(x: LoadState, y: LoadState): LoadState
  {
    if x.error.Some? then x else LoadState(x.lights + y.lights, x.colliders + y.colliders, y.error)
  }

  /** Objects whose type is null or empty are passed over by the walk. */
  predicate Untyped(o: MapObject)
  {
    o.objType.None? || |o.objType.value| == 0
  }

  /** The effect of one entry of the walk: a null object throws, an untyped one is passed
      over, any other goes through `addMapObject`. */
  function Effect(e: Option<MapObject>): (r: LoadState)
    ensures |r.lights| + |r.colliders| <= 1
    ensures e.None? ==> r == LoadState([], [], Some(NullReference))
    ensures e.Some? && Untyped(e.value) ==> r == NothingLoaded
  {
    match e
    case None => LoadState([], [], Some(NullReference))
    case Some(o) =>
      if Untyped(o) then NothingLoaded
      else
        match Place(o)
        case Skip => NothingLoaded
        case AddLight(l) => LoadState([l], [], None)
        case AddStaticBox(b) => LoadState([], [StaticBox(b)], None)
        case Failed(err) => LoadState([], [], Some(err))
  }

  /** The walk over a sequence of entries, in order, stopping at the first exception. */
  function Load(es: seq<Option<MapObject>>): (r: LoadState)
    ensures |r.lights| + |r.colliders| <= |es|
  {
    if |es| == 0 then NothingLoaded
    else Then(Load(es[..|es| - 1]), Effect(es[|es| - 1]))
  }

  /** The walk ends without an exception exactly when no entry throws; when it throws, the
      exception is the one the first throwing entry raises. */
  lemma {:induction false} LoadErrorIsFirstFailure(es: seq<Option<MapObject>>)
    ensures Load(es).error.None? <==> forall k :: 0 <= k < |es| ==> Effect(es[k]).error.None?
    ensures Load(es).error.Some? ==>
      exists k :: && 0 <= k < |es| && Load(es).error == Effect(es[k]).error
                  && forall j :: 0 <= j < k ==> Effect(es[j]).error.None?
  {
    if |es| > 0 {
      var init := es[..|es| - 1];
      LoadErrorIsFirstFailure(init);
      assert forall k :: 0 <= k < |init| ==> init[k] == es[k];
      if Load(init).error.Some? {
        var k :| && 0 <= k < |init| && Load(init).error == Effect(init[k]).error
                 && forall j :: 0 <= j < k ==> Effect(init[j]).error.None?;
        assert Load(es).error == Effect(es[k]).error;
      } else if Load(es).error.Some? {
        assert Load(es).error == Effect(es[|es| - 1]).error;
      }
    }
  }

  lemma ThenAssociative(x: LoadState, y: LoadState, z: LoadState)
    ensures Then(Then(x, y), z) == Then(x, Then(y, z))
  {
  }

  /** Walking two runs of entries is walking the first and then, unless it threw, the second. */
  lemma {:induction false} LoadAppend(a: seq<Option<MapObject>>, b: seq<Option<MapObject>>)
    ensures Load(a + b) == Then(Load(a), Load(b))
    decreases |b|
  {
    if |b| == 0 {
      assert a + b == a;
    } else {
      var b' := b[..|b| - 1];
      var last := b[|b| - 1];
      assert (a + b)[..|a + b| - 1] == a + b';
      assert (a + b)[|a + b| - 1] == last;
      LoadAppend(a, b');
      ThenAssociative(Load(a), Load(b'), Effect(last));
    }
  }

  /** Once an entry throws, nothing after it is looked at. */
  lemma LoadStopsAtFailure(a: seq<Option<MapObject>>, b: seq<Option<MapObject>>)
    requires Load(a).error.Some?
    ensures Load(a + b) == Load(a)
  {
    LoadAppend(a, b);
  }

  /** Whether an object ends up as a light source; the light it ends up as. */
  predicate ProducesLight(e: Option<MapObject>, l: LightSource)
  {
    e.Some? && !Untyped(e.value) && Place(e.value) == AddLight(l)
  }

  /** Every light source the walk adds comes from a `LIGHTSOURCE` object with a non-empty
      brightness and colour; every collider it adds is a `COLLISIONBOX` object's rectangle. */
  lemma {:induction false} LoadProvenance(es: seq<Option<MapObject>>)
    ensures forall l :: l in Load(es).lights ==> exists e :: e in es && ProducesLight(e, l)
    ensures forall c :: c in Load(es).colliders ==>
      exists o :: Some(o) in es && o.objType == Some(CollisionBoxType)
        && c == StaticBox(Rect(o.location.x, o.location.y, o.width, o.height))
  {
    if |es| > 0 {
      var init, last := es[..|es| - 1], es[|es| - 1];
      LoadProvenance(init);
      assert es == init + [last];
      var prev, eff := Load(init), Effect(last);
      if prev.error.None? {
        forall l | l in Load(es).lights
          ensures exists e :: e in es && ProducesLight(e, l)
        {
          if l in prev.lights {
            var e :| e in init && ProducesLight(e, l);
            assert e in es;
          } else {
            assert l in eff.lights;
            assert ProducesLight(last, l);
          }
        }
        forall c | c in Load(es).colliders
          ensures exists o :: (Some(o) in es && o.objType == Some(CollisionBoxType)
                                && c == StaticBox(Rect(o.location.x, o.location.y, o.width, o.height)))
        {
          if c in prev.colliders {
            var o :| Some(o) in init && o.objType == Some(CollisionBoxType)
              && c == StaticBox(Rect(o.location.x, o.location.y, o.width, o.height));
            assert Some(o) in es;
          } else {
            assert c in eff.colliders;
            assert Some(last.value) in es;
          }
        }
      }
    }
  }

  /** The converse of `LoadProvenance` for lights: an entry that produces a light, reached
      before any exception, adds that light, whatever follows it. */
  lemma LoadCollectsLight(a: seq<Option<MapObject>>, e: Option<MapObject>, b: seq<Option<MapObject>>, l: LightSource)
    requires Load(a).error.None? && ProducesLight(e, l)
    ensures l in Load(a + [e] + b).lights
  {
    assert Load([e]) == Effect(e) by { assert [e][..0] == []; }
    LoadAppend(a, [e]);
    LoadAppend(a + [e], b);
    assert l in Load(a + [e]).lights;
  }

  /** The converse of `LoadProvenance` for colliders: a `COLLISIONBOX` object reached before
      any exception adds its rectangle, whatever follows it. */
  lemma LoadCollectsCollider(a: seq<Option<MapObject>>, o: MapObject, b: seq<Option<MapObject>>)
    requires Load(a).error.None? && o.objType == Some(CollisionBoxType)
    ensures StaticBox(Rect(o.location.x, o.location.y, o.width, o.height)) in Load(a + [Some(o)] + b).colliders
  {
    var box := StaticBox(Rect(o.location.x, o.location.y, o.width, o.height));
    assert Effect(Some(o)) == LoadState([], [box], None);
    assert Load([Some(o)]) == Effect(Some(o)) by { assert [Some(o)][..0] == []; }
    LoadAppend(a, [Some(o)]);
    LoadAppend(a + [Some(o)], b);
    assert box in Load(a + [Some(o)]).colliders;
  }

  /** An object of a type other than `LIGHTSOURCE` and `COLLISIONBOX`, and a `LIGHTSOURCE`
      object without brightness or colour, leave the walk's result as it was. */
  lemma IgnoredObjectsChangeNothing(es: seq<Option<MapObject>>, o: MapObject)
    requires || (o.objType.Some? && o.objType != Some(LightSourceType) && o.objType != Some(CollisionBoxType))
             || (o.objType == Some(LightSourceType) && !HasText(CustomProperty(o, LightColor)))
    ensures Load(es + [Some(o)]) == Load(es)
  {
    assert (es + [Some(o)])[..|es|] == es;
  }

  // ---------------------------------------------------------------------------------
  // addProp and addDecorMob

  datatype PropResult =
    | NotProp
    | PropFailed(error: LoadError)
    /** The prop was built and registered; `teamError` is the exception that setting its
        team then threw, after registration and before the physics engine saw it. */
    | PropMade(prop: Prop, teamError: Option<LoadError>)

  /** What `addProp` builds from an object, given the names of the `Material` constants.
      A prop whose `INDESTRUCTIBLE` property is empty keeps the default, destructible. */
  function MakeProp(o: MapObject, materials: set<string>): (r: PropResult)
    ensures o.objType.None? ==> r == PropFailed(NullReference)
    ensures o.objType.Some? ==> (r.NotProp? <==> !EqualsIgnoreCase(o.objType.value, PropType))
    ensures r.PropMade? ==>
      && r.prop.location == o.location
      && r.prop.material in materials
      && CustomProperty(o, MaterialName) == Some(r.prop.material)
      && CustomProperty(o, HealthName).Some?
      && Some(r.prop.maxHealth) == ParseInt(CustomProperty(o, HealthName).value)
      && r.prop.collision == BooleanValueOf(CustomProperty(o, CollisionName))
      && (r.prop.indestructible <==> BooleanValueOf(CustomProperty(o, IndestructibleName)))
      && (r.prop.animationStates == if r.prop.indestructible then [] else [Damaged, Destroyed])
      && r.prop.width == o.width && r.prop.height == o.height
      && (r.teamError.None? <==> (CustomProperty(o, TeamName).None? || r.prop.team.Some?))
    ensures r.PropMade? ==>
      && r.prop.spriteSheet == CustomProperty(o, SpriteSheetName)
      && (CustomProperty(o, TeamName).None? ==> r.prop.team.None? && r.teamError.None?)
      && (CustomProperty(o, TeamName).Some? ==>
            && r.prop.team == ParseInt(CustomProperty(o, TeamName).value)
            && (r.teamError.Some? ==> r.teamError == Some(BadNumber)))
    ensures o.objType.Some? && EqualsIgnoreCase(o.objType.value, PropType) ==>
      var material, indestructible, health :=
        CustomProperty(o, MaterialName), CustomProperty(o, IndestructibleName), CustomProperty(o, HealthName);
      && (material.None? ==> r == PropFailed(NullReference))
      && (material.Some? && material.value !in materials ==> r == PropFailed(UnknownMaterial))
      && (material.Some? && material.value in materials && indestructible.None? ==> r == PropFailed(NullReference))
      && ((&& material.Some? && material.value in materials && indestructible.Some?
           && (health.None? || ParseInt(health.value).None?)) ==> r == PropFailed(BadNumber))
      && ((&& material.Some? && material.value in materials && indestructible.Some?
           && health.Some? && ParseInt(health.value).Some?) ==> r.PropMade?)
  {
    match o.objType
    case None => PropFailed(NullReference)
    case Some(t) =>
      if !EqualsIgnoreCase(t, PropType) then NotProp
      else
        match CustomProperty(o, MaterialName)
        case None => PropFailed(NullReference)
        case Some(material) =>
          if material !in materials then PropFailed(UnknownMaterial)
          else
            match CustomProperty(o, IndestructibleName)
            case None => PropFailed(NullReference)
            case Some(text) =>
              var indestructible := |text| > 0 && BooleanValueOf(Some(text));
              match CustomProperty(o, HealthName)
              case None => PropFailed(BadNumber)
              case Some(healthText) =>
                match ParseInt(healthText)
                case None => PropFailed(BadNumber)
                case Some(health) =>
                  var prop := Prop(o.location, CustomProperty(o, SpriteSheetName), material, indestructible,
                                   if indestructible then [] else [Damaged, Destroyed], health,
                                   BooleanValueOf(CustomProperty(o, CollisionName)), o.width, o.height, None);
                  match CustomProperty(o, TeamName)
                  case None => PropMade(prop, None)
                  case Some(teamText) =>
                    match ParseInt(teamText)
                    case None => PropMade(prop, Some(BadNumber))
                    case Some(team) => PropMade(prop.(team := Some(team)), None)
  }

  datatype DecorMobResult = NotDecorMob | DecorMobFailed(error: LoadError) | DecorMobMade(mob: DecorMob)

  /** What `addDecorMob` builds from an object. */
  function MakeDecorMob(o: MapObject): (r: DecorMobResult)
    ensures o.objType.None? <==> r.DecorMobFailed?
    ensures o.objType.Some? ==> (r.NotDecorMob? <==> !EqualsIgnoreCase(o.objType.value, DecorMobType))
    ensures r.DecorMobMade? ==>
      && r.mob.location == o.location
      && r.mob.mobType == CustomProperty(o, MobTypeName)
      && r.mob.collision == BooleanValueOf(CustomProperty(o, CollisionName))
      && r.mob.width == o.width && r.mob.height == o.height
  {
    match o.objType
    case None => DecorMobFailed(NullReference)
    case Some(t) =>
      if !EqualsIgnoreCase(t, DecorMobType) then NotDecorMob
      else DecorMobMade(DecorMob(o.location, CustomProperty(o, MobTypeName),
                                 BooleanValueOf(CustomProperty(o, CollisionName)), o.width, o.height))
  }

  /** The type checks are case-insensitive: `prop`, `Prop` and `PROP` all make a prop, and
      no type makes both a prop and a decor mob. */
  lemma FactoriesDisjoint(o: MapObject, materials: set<string>)
    requires o.objType.Some?
    ensures !MakeProp(o, materials).NotProp? ==> MakeDecorMob(o).NotDecorMob?
    ensures !MakeDecorMob(o).NotDecorMob? ==> MakeProp(o, materials).NotProp?
  {
  }

  lemma PropTypeIgnoresCase(o: MapObject, materials: set<string>)
    requires o.objType == Some("prop") || o.objType == Some("Prop")
    ensures !MakeProp(o, materials).NotProp?
  {
    var t := o.objType.value;
    assert ToUpper(t[0]) == 'P' && ToUpper(t[1]) == 'R' && ToUpper(t[2]) == 'O' && ToUpper(t[3]) == 'P';
  }

  /** A wooden, destructible prop with 100 health and no team: it gets the damaged and
      destroyed animation states. */
  lemma WoodenPropScenario(o: MapObject, materials: set<string>)
    requires o.objType == Some(PropType)
    requires o.properties == map[MaterialName := "WOOD", IndestructibleName := "false", HealthName := "100"]
    requires "WOOD" in materials
    ensures MakeProp(o, materials).PropMade?
    ensures MakeProp(o, materials).prop.maxHealth == 100
    ensures !MakeProp(o, materials).prop.indestructible
    ensures MakeProp(o, materials).prop.animationStates == [Damaged, Destroyed]
    ensures MakeProp(o, materials).prop.team.None? && MakeProp(o, materials).teamError.None?
  {
    assert ParseInt("100") == Some(100) by {
      assert ShowNat(1, 10) == "1" && ShowNat(10, 10) == "10" && ShowNat(100, 10) == "100";
      ParseIntRoundTrip(100);
    }
    assert "false" != "true";
  }
}
