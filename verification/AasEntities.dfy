/** The entities as the navigation code sees them: their boxes, and the areas they are linked to. */
module AasEntities {
  import opened AasFile
  import opened AreaTree
  import opened AreaLinks
  import opened LinkWalk
  import opened EntityLinks

  datatype Option<T> = None | Some(value: T)

  datatype Solid = SOLID_NOT | SOLID_TRIGGER | SOLID_BBOX | SOLID_BSP

  datatype Entity = Entity(
    valid: bool, number: nat, solid: Solid, modelindex: nat,
    origin: Vec3, angles: Vec3, mins: Vec3, maxs: Vec3, areas: int)

  datatype EntityState = EntityState(solid: Solid, modelindex: nat, origin: Vec3, angles: Vec3, mins: Vec3, maxs: Vec3)

  const ENTITYNUM_WORLD: nat := 1022

  /** Bounding box of a standing player. */
  const NORMAL_MINS: Vec3 := Vec3(-15.0, -15.0, -24.0)
  const NORMAL_MAXS: Vec3 := Vec3(15.0, 15.0, 32.0)

  function Plus(a: Vec3, b: Vec3): Vec3 { Vec3(a.x + b.x, a.y + b.y, a.z + b.z) }

  function Minus(a: Vec3, b: Vec3): Vec3 { Vec3(a.x - b.x, a.y - b.y, a.z - b.z) }

  /** Where the origin of a player can be when his box touches that of the entity. */
  function LinkBox(ent: Entity): Box {
    Box(Minus(Plus(ent.mins, ent.origin), NORMAL_MAXS), Minus(Plus(ent.maxs, ent.origin), NORMAL_MINS))
  }

  /** x is a point of the entity's box and of that of a standing player at v, 30 wide and from 24 below to 32 above. */
  ghost predicate InBoth(ent: Entity, v: Vec3, x: Vec3) {
    && ent.origin.x + ent.mins.x <= x.x <= ent.origin.x + ent.maxs.x && v.x - 15.0 <= x.x <= v.x + 15.0
    && ent.origin.y + ent.mins.y <= x.y <= ent.origin.y + ent.maxs.y && v.y - 15.0 <= x.y <= v.y + 15.0
    && ent.origin.z + ent.mins.z <= x.z <= ent.origin.z + ent.maxs.z && v.z - 24.0 <= x.z <= v.z + 32.0
  }

  /** A standing player at v touches the entity. */
  ghost predicate Meets(ent: Entity, v: Vec3) {
    exists x: Vec3 :: InBoth(ent, v, x)
  }

  /** The box an entity is linked by has exactly the points at which a standing player would touch it. */
  lemma LinkBoxIs(ent: Entity, v: Vec3)
    ensures Meets(ent, v) ==> In(v, LinkBox(ent))
    ensures ent.mins.x <= ent.maxs.x && ent.mins.y <= ent.maxs.y && ent.mins.z <= ent.maxs.z ==>
      (Meets(ent, v) <==> In(v, LinkBox(ent)))
  {
    if ent.mins.x <= ent.maxs.x && ent.mins.y <= ent.maxs.y && ent.mins.z <= ent.maxs.z && In(v, LinkBox(ent)) {
      var x := Vec3(Larger(ent.origin.x + ent.mins.x, v.x - 15.0), Larger(ent.origin.y + ent.mins.y, v.y - 15.0),
        Larger(ent.origin.z + ent.mins.z, v.z - 24.0));
      assert InBoth(ent, v, x);
    }
  }

  function Larger(x: real, y: real): real { if x < y then y else x }

  /** Wherever a standing player would touch the entity, and no plane on the way to that place touches the box there,
      he is in solid or in an area of the set. */
  ghost predicate Covers(tree: Bsp, ent: Entity, areas: set<nat>)
    requires TreeOk(tree)
  {
    forall v: Vec3 | Meets(ent, v) && !Touched(tree, LinkBox(ent), v, 1) ::
      AreaOfPoint(tree, v, 1) == 0 || AreaOfPoint(tree, v, 1) in areas
  }

  lemma LinkedCovers(tree: Bsp, ent: Entity)
    requires TreeOk(tree)
    ensures Covers(tree, ent, AreasOfBox(tree, LinkBox(ent), 1))
  {
    hide LinkBox, AreasOfBox, Meets, In;
    forall v: Vec3 | Meets(ent, v) && !Touched(tree, LinkBox(ent), v, 1)
      ensures AreaOfPoint(tree, v, 1) == 0 || AreaOfPoint(tree, v, 1) in AreasOfBox(tree, LinkBox(ent), 1)
    {
      LinkBoxIs(ent, v);
      PointsAreCovered(tree, LinkBox(ent), v, 1);
    }
  }

  /** Box of a model: AAS_BSPModelMinsMaxsOrigin, which is a parameter here. */
  type ModelBox = (nat, Vec3) -> Box

  /** Does the update of an entity relink it? */
  predicate Relinks(ent: Entity, state: EntityState, numframes: nat) {
    || numframes == 1
    || (state.solid == SOLID_BSP && state.angles != ent.angles)
    || (state.solid == SOLID_BBOX && (state.mins != ent.mins || state.maxs != ent.maxs))
    || state.origin != ent.origin
  }

  /** The entity's record after an update, links aside. */
  function Updated(ent: Entity, entnum: nat, state: EntityState, model: ModelBox): Entity {
    var box := if state.solid == SOLID_BSP then model(state.modelindex, state.angles)
               else if state.solid == SOLID_BBOX then Box(state.mins, state.maxs)
               else Box(ent.mins, ent.maxs);
    ent.(valid := true, number := entnum, solid := state.solid, modelindex := state.modelindex, origin := state.origin,
         angles := if state.solid == SOLID_BSP || state.solid == SOLID_BBOX then state.angles else ent.angles,
         mins := box.mins, maxs := box.maxs)
  }

  /** An entity is relinked exactly in the first frame, or if the update moves it, turns a model, or changes a box. */
  lemma RelinksIfChanged(ent: Entity, entnum: nat, state: EntityState, model: ModelBox, numframes: nat)
    ensures var new0 := Updated(ent, entnum, state, model);
      Relinks(ent, state, numframes) <==>
        numframes == 1 || new0.origin != ent.origin
        || (new0.solid == SOLID_BSP && new0.angles != ent.angles)
        || (new0.solid == SOLID_BBOX && (new0.mins != ent.mins || new0.maxs != ent.maxs))
  {
  }

  /** An update that does not relink leaves the box where it was, exactly unless it is the box of a model and has
      changed though its angles have not. */
  lemma BoxStays(ent: Entity, entnum: nat, state: EntityState, model: ModelBox, numframes: nat)
    requires !Relinks(ent, state, numframes)
    ensures LinkBox(Updated(ent, entnum, state, model)) == LinkBox(ent) <==>
      !(state.solid == SOLID_BSP && model(state.modelindex, state.angles) != Box(ent.mins, ent.maxs))
  {
    var new0 := Updated(ent, entnum, state, model);
    if LinkBox(new0) == LinkBox(ent) {
      assert new0.origin == ent.origin;
      SameBox(ent, new0);
    }
  }

  lemma SameBox(e0: Entity, e1: Entity)
    requires LinkBox(e0) == LinkBox(e1) && e0.origin == e1.origin
    ensures e0.mins == e1.mins && e0.maxs == e1.maxs
  {
  }

  /** Do so many links, and the stack, suffice for the areas of a box? */
  ghost predicate Suffices(t: Bsp, b: Box, numlinks: nat)
    requires TreeOk(t)
  {
    |AreasOfBox(t, b, 1)| <= numlinks && Rank(t, 1) + 1 < LAST
  }

  lemma BoxOfLinked(ent: Entity, areas: int)
    ensures LinkBox(ent.(areas := areas)) == LinkBox(ent)
  {
  }

  class EntityTable {
    var entities: seq<Entity>
    const heap: AreaLinkHeap
    const tree: Bsp

    ghost predicate Valid()
      reads this, heap
    {
      && TreeOk(tree) && AreaLinks.Valid(heap.Now()) && tree.numareas <= |heap.ofarea|
      && |heap.ofentity| == |entities| + 1
      && heap.ofentity[0] == []
      && forall e | 0 <= e < |entities| :: entities[e].areas == Entry(heap.ofentity[e + 1], 0)
    }

    /** The areas an entity is linked to. */
    ghost function Areas(e: nat): set<nat>
      reads this, heap
      requires e + 1 < |heap.ofentity|
    {
      AreasOf(heap.Now(), e)
    }

    /** All entities unlinked. */
    constructor (tree: Bsp, max_aaslinks: nat, maxentities: nat)
      requires TreeOk(tree) && max_aaslinks > 0
      ensures Valid() && |entities| == maxentities && this.tree == tree && fresh(heap)
      ensures forall e | 0 <= e < maxentities ::
        entities[e] == Entity(false, e, SOLID_NOT, 0, Vec3(0.0, 0.0, 0.0), Vec3(0.0, 0.0, 0.0), Vec3(0.0, 0.0, 0.0),
                              Vec3(0.0, 0.0, 0.0), NIL)
    {
      var zero := Vec3(0.0, 0.0, 0.0);
      this.tree := tree;
      heap := new AreaLinkHeap(max_aaslinks, tree.numareas, maxentities);
      entities := seq(maxentities,
        i requires 0 <= i < maxentities => Entity(false, i, SOLID_NOT, 0, zero, zero, zero, zero, NIL));
    }

    /** Take an entity out of its areas. */
    method Unlink(entnum: nat)
      requires Valid() && entnum < |entities|
      modifies this, heap
      ensures Valid() && |entities| == old(|entities|)
        && entities == old(entities)[entnum := old(entities)[entnum].(areas := NIL)]
      ensures OthersSame(old(heap.Now()), heap.Now(), entnum) && heap.ofentity[entnum + 1] == []
      ensures heap.numaaslinks == old(heap.numaaslinks + |heap.ofentity[entnum + 1]|)
    {
      hide AreaLinks.Valid, TreeOk, AreasOf;
      ghost var h := heap.Now();
      FreeCount(h);
      heap.UnlinkFromAreas(entities[entnum].areas, entnum);
      FreeCount(heap.Now());
      OthersListed(h, heap.Now(), entnum);
      entities := entities[entnum := entities[entnum].(areas := NIL)];
      assert IsEntity(h, -1);
      forall e | 0 <= e < |entities| ensures entities[e].areas == Entry(heap.ofentity[e + 1], 0) {
        assert IsEntity(h, e);
      }
    }

    /** Link an entity anew, to the areas its box and that of a player around it are in. */
    method Relink(entnum: nat)
      requires Valid() && entnum < |entities|
      modifies this, heap
      ensures Valid() && |entities| == old(|entities|)
      ensures entities == old(entities)[entnum := old(entities)[entnum].(areas := entities[entnum].areas)]
      ensures OthersSame(old(heap.Now()), heap.Now(), entnum)
      ensures Areas(entnum) <= AreasOfBox(tree, LinkBox(entities[entnum]), 1)
      ensures Suffices(tree, LinkBox(entities[entnum]), old(heap.numaaslinks + |heap.ofentity[entnum + 1]|)) ==>
                Areas(entnum) == AreasOfBox(tree, LinkBox(entities[entnum]), 1)
                && Covers(tree, entities[entnum], Areas(entnum))
      ensures heap.numaaslinks + |heap.ofentity[entnum + 1]| == old(heap.numaaslinks + |heap.ofentity[entnum + 1]|)
    {
      hide AreaLinks.Valid, TreeOk, AreasOf, AreasOfBox, Rank, OthersSame, LinkBox, Covers;
      ghost var h0 := heap.Now();
      var box := LinkBox(entities[entnum]);
      Unlink(entnum);
      ghost var h1 := heap.Now();
      FreeCount(h1);
      var areas := heap.AASLinkEntity(tree, box, entnum);
      FreeCount(heap.Now());
      OthersListed(h0, h1, entnum);
      OthersListed(h1, heap.Now(), entnum);
      OthersThrough(h0, h1, heap.Now(), entnum);
      BoxOfLinked(old(entities)[entnum], NIL);
      BoxOfLinked(old(entities)[entnum], areas);
      entities := entities[entnum := entities[entnum].(areas := areas)];
      LinkedCovers(tree, entities[entnum]);
      forall e | 0 <= e < |entities| ensures entities[e].areas == Entry(heap.ofentity[e + 1], 0) {
        assert IsEntity(h1, e);
      }
      assert IsEntity(h1, -1);
    }

    /** Bring an entity up to date; without a state it is only taken out of its areas. */
    method UpdateEntity(entnum: nat, state: Option<EntityState>, numframes: nat, model: ModelBox)
      requires Valid() && entnum < |entities|
      modifies this, heap
      ensures Valid() && |entities| == old(|entities|) && OthersSame(old(heap.Now()), heap.Now(), entnum)
      ensures forall e | 0 <= e < |entities| && e != entnum :: entities[e] == old(entities)[e]
      ensures state.None? ==>
        heap.ofentity[entnum + 1] == [] && entities[entnum] == old(entities)[entnum].(areas := NIL)
      ensures state.Some? ==>
                entities[entnum]
                  == Updated(old(entities)[entnum], entnum, state.value, model).(areas := entities[entnum].areas)
      ensures state.Some? && entnum != ENTITYNUM_WORLD && Relinks(old(entities)[entnum], state.value, numframes)
                && Suffices(tree, LinkBox(entities[entnum]), old(heap.numaaslinks + |heap.ofentity[entnum + 1]|))
              ==> Areas(entnum) == AreasOfBox(tree, LinkBox(entities[entnum]), 1)
                  && Covers(tree, entities[entnum], Areas(entnum))
      ensures state.Some? && entnum != ENTITYNUM_WORLD && Relinks(old(entities)[entnum], state.value, numframes)
              ==> Areas(entnum) <= AreasOfBox(tree, LinkBox(entities[entnum]), 1)
      ensures state.Some? && !(entnum != ENTITYNUM_WORLD && Relinks(old(entities)[entnum], state.value, numframes))
              ==> heap.Now() == old(heap.Now())
      ensures heap.numaaslinks + |heap.ofentity[entnum + 1]| == old(heap.numaaslinks + |heap.ofentity[entnum + 1]|)
    {
      hide AreaLinks.Valid, TreeOk, AreasOf, AreasOfBox, Rank, OthersSame, LinkBox, Suffices, Updated, Covers;
      OthersLists(heap.Now(), entnum);
      if state == None {
        Unlink(entnum);
        return;
      }
      var ent := entities[entnum];
      UpdateRecord(entnum, state.value, model);
      if Relinks(ent, state.value, numframes) && entnum != ENTITYNUM_WORLD {
        Relink(entnum);
      }
    }

    /** The new record of an entity, links aside. */
    method UpdateRecord(entnum: nat, state: EntityState, model: ModelBox)
      requires Valid() && entnum < |entities|
      modifies this
      ensures Valid() && entities == old(entities)[entnum := Updated(old(entities)[entnum], entnum, state, model)]
    {
      hide AreaLinks.Valid, TreeOk;
      var ent := entities[entnum].(solid := state.solid, modelindex := state.modelindex, number := entnum,
        valid := true);
      if ent.solid == SOLID_BSP {
        ent := ent.(angles := state.angles);
        var box := model(ent.modelindex, ent.angles);
        ent := ent.(mins := box.mins, maxs := box.maxs);
      } else if ent.solid == SOLID_BBOX {
        ent := ent.(mins := state.mins, maxs := state.maxs, angles := state.angles);
      }
      ent := ent.(origin := state.origin);
      entities := entities[entnum := ent];
    }

    /** Mark all entities as not updated. */
    method InvalidateEntities()
      requires Valid()
      modifies this`entities
      ensures Valid() && |entities| == old(|entities|)
      ensures forall e | 0 <= e < |entities| :: entities[e] == old(entities)[e].(valid := false, number := e)
    {
      hide AreaLinks.Valid, TreeOk;
      var i := 0;
      while i < |entities|
        invariant 0 <= i <= |entities| == old(|entities|) && Valid()
        invariant forall e | 0 <= e < i :: entities[e] == old(entities)[e].(valid := false, number := e)
        invariant forall e | i <= e < |entities| :: entities[e] == old(entities)[e]
      {
        entities := entities[i := entities[i].(valid := false, number := i)];
        i := i + 1;
      }
    }

    /** Take all entities that have not been updated out of their areas; the others stay where they are. */
    method UnlinkInvalidEntities()
      requires Valid()
      modifies this, heap
      ensures Valid() && |entities| == old(|entities|) && |heap.ofentity| == old(|heap.ofentity|)
      ensures forall e | 0 <= e < |entities| ::
        entities[e] == if old(entities)[e].valid then old(entities)[e] else old(entities)[e].(areas := NIL)
      ensures forall e | 0 <= e < |entities| && !entities[e].valid :: heap.ofentity[e + 1] == []
      ensures forall e: nat | e < |entities| && entities[e].valid :: Areas(e) == old(Areas(e))
    {
      hide AreaLinks.Valid, TreeOk, AreasOf, OthersSame;
      ghost var h0 := heap.Now();
      var i := 0;
      while i < |entities|
        invariant 0 <= i <= |entities| == old(|entities|) && Valid() && |heap.ofentity| == |h0.ofentity|
        invariant forall e | 0 <= e < i ::
          entities[e] == if old(entities)[e].valid then old(entities)[e] else old(entities)[e].(areas := NIL)
        invariant forall e | i <= e < |entities| :: entities[e] == old(entities)[e]
        invariant forall e | 0 <= e < i && !entities[e].valid :: heap.ofentity[e + 1] == []
        invariant forall e: nat | e < |entities| && old(entities)[e].valid :: AreasOf(heap.Now(), e) == AreasOf(h0, e)
      {
        if !entities[i].valid {
          ghost var h := heap.Now();
          Unlink(i);
          OthersListed(h, heap.Now(), i);
          forall e: nat | e < |entities| && e != i
            ensures heap.ofentity[e + 1] == h.ofentity[e + 1] && AreasOf(heap.Now(), e) == AreasOf(h, e)
          {
            assert IsEntity(h, e);
            OtherIs(h, heap.Now(), i, e);
          }
        }
        i := i + 1;
      }
    }
  }

  lemma OthersLists(h: Heap, e: int)
    ensures OthersSame(h, h, e)
  {
    OthersSelf(h, e);
  }

  lemma OthersListed(h0: Heap, h1: Heap, e: int)
    requires OthersSame(h0, h1, e)
    ensures |h1.ofentity| == |h0.ofentity|
      && forall d | IsEntity(h0, d) && d != e :: h1.ofentity[d + 1] == h0.ofentity[d + 1]
  {
  }

  lemma OtherIs(h0: Heap, h1: Heap, e: int, d: int)
    requires OthersSame(h0, h1, e) && IsEntity(h0, d) && d != e
    ensures IsEntity(h1, d) && AreasOf(h1, d) == AreasOf(h0, d)
  {
    hide AreasOf;
  }
}
