/** What moves on the grid: the record every simulation step reads and writes. */
module Entities {
  import opened Physics

  type ID = nat   // 0 is "no entity"

  datatype Kind = NoKind | Player | Generator | Projectile | Snipe

  datatype Flags = Flags(dead: bool, invuln: bool, turbo: bool)

  const NO_FLAGS := Flags(false, false, false)

  datatype Entity = Entity(id: ID, kind: Kind, hp: nat, facing: Dir, flags: Flags, x: int, y: int, vx: int, vy: int)

  const PLAYER_HALF := 256
  const SNIPE_HALF := 128
  const PROJECTILE_HALF := 48

  function HalfExt(k: Kind): nat {
    match k
    case Player => PLAYER_HALF
    case Generator => GENERATOR_HALF
    case Projectile => PROJECTILE_HALF
    case Snipe => SNIPE_HALF
    case NoKind => 0
  }

  function BoxOf(e: Entity): Box {
    Box(e.x, e.y, HalfExt(e.kind))
  }

  /** No two entries carry the same ID. */
  ghost predicate Distinct(es: seq<Entity>) {
    forall i, j | 0 <= i < j < |es| :: es[i].id != es[j].id
  }

  ghost predicate Has(es: seq<Entity>, id: ID) {
    exists i | 0 <= i < |es| :: es[i].id == id
  }

  /** The entry that carries this ID. */
  ghost function Lookup(es: seq<Entity>, id: ID): (e: Entity)
    requires Has(es, id)
    ensures e in es && e.id == id
  {
    var i :| 0 <= i < |es| && es[i].id == id;
    es[i]
  }

  lemma LookupAt(es: seq<Entity>, i: int)
    requires Distinct(es) && 0 <= i < |es|
    ensures Has(es, es[i].id) && Lookup(es, es[i].id) == es[i]
  {
    var e := Lookup(es, es[i].id);
    var j :| 0 <= j < |es| && es[j] == e;
    assert !(i < j) && !(j < i);
  }
}
