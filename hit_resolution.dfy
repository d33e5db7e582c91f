/**
  Hit resolution of a shot: the engine's ray cast from the view centre is taken
  as a given optional hit, and damage is delivered to the hit object only if it
  carries the `IDamageable` capability. No hit, or a hit on an object without
  the capability, is an ordinary outcome without a damage call.
 */
module HitResolution {

  import opened Vectors

  datatype Option<T> = None | Some(value: T)

  /** A world object as the hit test sees it: an identity and whether it
      implements `IDamageable`. */
  datatype Target = Target(id: nat, damageable: bool)

  /** A ray-cast hit: where the ray struck, the surface normal there, and the
      object that was struck. */
  datatype Hit = Hit(point: Vec3, normal: Vec3, target: Target)

  /** The `Damage` call a shot makes, given the result of its ray cast:
      `Some(hit)` is a call `Damage(hit)` on the struck object, `None` no call. */
  function Shoot(ray: Option<Hit>): (damage: Option<Hit>)
    ensures damage.Some? <==> ray.Some? && ray.value.target.damageable
    ensures damage.Some? ==> damage == ray
  {
    match ray
    case None => None
    case Some(hit) => if hit.target.damageable then Some(hit) else None
  }
}
