/** The reference manager: a table from garbage-collector handles to the managed
    objects they keep alive. Handles are never reused, so a released handle
    resolves to nothing from then on. */
module GC {
  import opened Common
  import opened Mono

  class GCManager {
    /** The live handles and the objects they pin. */
    var objects: map<Handle, MonoObject>
    /** The next handle to hand out; every handle issued so far is below it. */
    var next: Handle

    ghost predicate Valid()
      reads this`objects, this`next
    {
      forall h | h in objects :: h < next
    }

    /** GCManager::Init: an empty table. */
    constructor ()
      ensures Valid()
      ensures objects == map[] && next == 0
    {
      objects := map[];
      next := 0;
    }

    /** Pins `obj` under a handle no live or released handle has used. */
    method CreateObjectReference(obj: MonoObject) returns (h: Handle)
      requires Valid()
      modifies this`objects, this`next
      ensures Valid()
      ensures h == old(next) && h !in old(objects)
      ensures objects == old(objects)[h := obj] && next == old(next) + 1
    {
      h := next;
      objects := objects[h := obj];
      next := next + 1;
    }

    /** Unpins the object behind `h`; afterwards `h` resolves to nothing. */
    method ReleaseObjectReference(h: Handle)
      requires Valid()
      modifies this`objects, this`next
      ensures Valid()
      ensures objects == old(objects) - {h} && next == old(next)
      ensures GetReferencedObject(h) == None
    {
      objects := objects - {h};
    }

    /** The object behind `h`, or None once `h` has been released. */
    function GetReferencedObject(h: Handle): (r: Option<MonoObject>)
      reads this`objects
    {
      if h in objects then Some(objects[h]) else None
    }

    /** Invoking the private `Entity(ulong id)` constructor on the object behind
        `h`: it sets the object's entity identifier and nothing else. */
    method InvokeEntityConstructor(h: Handle, id: UUID)
      requires Valid()
      modifies this`objects, this`next
      ensures Valid() && next == old(next)
      ensures objects == if h in old(objects)
                         then old(objects)[h := old(objects)[h].(entityId := id)]
                         else old(objects)
    {
      if h in objects {
        objects := objects[h := objects[h].(entityId := id)];
      }
    }
  }
}
