/**
 * The emulated OS objects the display service creates, and the id pools
 * (`Displays`, `Handles`) that hand out their ids. A pool is abstracted as
 * a map from id to object and a counter that supplies the next fresh id.
 */
module Os {
  import opened LittleEndian
  import opened Wrappers

  /** Ids are C# ints and never negative. */
  const MAX_ID: int := 0x7FFF_FFFF

  datatype Display = Display(name: string)

  /** A kernel event (HEvent), signalled on VSync; it carries no data. */
  datatype HEvent = HEvent

  class Registry<T> {
    var objects: map<int, T>
    var nextId: nat

    ghost predicate Valid()
      reads this
    {
      nextId <= MAX_ID && forall id :: id in objects ==> 0 <= id < nextId
    }

    constructor ()
      ensures Valid() && objects == map[] && nextId == 0
    {
      objects := map[];
      nextId := 0;
    }

    predicate CanGenerate()
      reads this
    {
      nextId < MAX_ID
    }

    /**
     * GenerateId: bind obj to an id no live object holds. The id then
     * resolves to obj, every other id resolves as before, and the id is above
     * every id handed out earlier, so the ids a pool hands out are pairwise
     * distinct.
     */
    method GenerateId(obj: T) returns (id: int32)
      requires Valid() && CanGenerate()
      modifies this
      ensures Valid()
      ensures 0 <= id && id !in old(objects) && id == old(nextId)
      ensures objects == old(objects)[id := obj] && nextId == old(nextId) + 1
      ensures GetData(id) == Some(obj)
      ensures forall k :: k != id ==> GetData(k) == old(GetData(k))
      ensures forall k :: k in old(objects) ==> k < id
    {
      id := nextId;
      objects := objects[id := obj];
      nextId := nextId + 1;
    }

    /** GetData: the object an id is bound to, if any. */
    function GetData(id: int): (r: Option<T>)
      reads this
      ensures r.Some? <==> id in objects
      ensures r.Some? ==> r.value == objects[id]
    {
      if id in objects then Some(objects[id]) else None
    }
  }
}
