/**
 * ResourceHolder: a table from identifiers to loaded resources (textures,
 * fonts, sound buffers). Reading a file is outside the model: a load is
 * given the outcome, the resource or nothing when the file could not be
 * read.
 */
module Resources {
  import opened Wrappers

  /** The table after a load with the given outcome: a failed load changes nothing. */
  function Loaded<ID, Res>(resources: map<ID, Res>, id: ID, outcome: Option<Res>): (r: map<ID, Res>)
    requires outcome.Some? ==> id !in resources
    ensures outcome.None? ==> r == resources
    ensures outcome.Some? ==> r.Keys == resources.Keys + {id} && r[id] == outcome.value
    ensures outcome.Some? ==> |r| == |resources| + 1
    ensures forall k :: k in resources ==> k in r && r[k] == resources[k]
  {
    if outcome.Some? then resources[id := outcome.value] else resources
  }

  /** The table after an unload: exactly that key is gone. */
  function Unloaded<ID, Res>(resources: map<ID, Res>, id: ID): (r: map<ID, Res>)
    requires id in resources
    ensures r.Keys == resources.Keys - {id} && |r| == |resources| - 1
    ensures forall k :: k in r ==> r[k] == resources[k]
  {
    resources - {id}
  }

  /** Unloading what a successful load added gives back the table from before the load. */
  lemma UnloadUndoesLoad<ID, Res>(resources: map<ID, Res>, id: ID, res: Res)
    requires id !in resources
    ensures Unloaded(Loaded(resources, id, Some(res)), id) == resources
  {
    var after := Unloaded(Loaded(resources, id, Some(res)), id);
    assert forall k :: k in after <==> k in resources;
  }

  class ResourceHolder<ID(==), Res> {
    var resources: map<ID, Res>

    constructor ()
      ensures resources == map[]
    {
      resources := map[];
    }

    /** ResourceHolder::insertResource: the identifier must not be taken yet. */
    method InsertResource(res: Res, id: ID)
      requires id !in resources
      modifies this
      ensures resources == old(resources)[id := res]
      ensures resources == Loaded(old(resources), id, Some(res))
    {
      resources := resources[id := res];
    }

    /**
     * ResourceHolder::load, both overloads: the outcome of reading the file
     * is given; a resource read successfully is inserted.
     */
    method Load(outcome: Option<Res>, id: ID)
      requires outcome.Some? ==> id !in resources
      modifies this
      ensures resources == Loaded(old(resources), id, outcome)
    {
      if outcome.Some? {
        InsertResource(outcome.value, id);
      }
    }

    /** ResourceHolder::unload: the identifier must be present. */
    method Unload(id: ID)
      requires id in resources
      modifies this
      ensures resources == Unloaded(old(resources), id)
    {
      resources := map k | k in resources && k != id :: resources[k];
    }

    /** ResourceHolder::get, both overloads: the identifier must be present. */
    method Get(id: ID) returns (res: Res)
      requires id in resources
      ensures res == resources[id]
    {
      res := resources[id];
    }
  }

  /** A successful load followed by an unload of the same identifier leaves the table as it was. */
  method LoadUnloadRoundTrip<ID(==), Res>(holder: ResourceHolder<ID, Res>, res: Res, id: ID)
    requires id !in holder.resources
    modifies holder
    ensures holder.resources == old(holder.resources)
  {
    holder.Load(Some(res), id);
    holder.Unload(id);
    UnloadUndoesLoad(old(holder.resources), id, res);
  }

  /** A successful load makes the resource available under its identifier. */
  method LoadThenGet<ID(==), Res>(holder: ResourceHolder<ID, Res>, res: Res, id: ID) returns (got: Res)
    requires id !in holder.resources
    modifies holder
    ensures got == res
  {
    holder.Load(Some(res), id);
    got := holder.Get(id);
  }
}
