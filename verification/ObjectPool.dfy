/** The free list of object_pool.h. Objects are named by their order of allocation: `made` of them exist. */
module ObjectPools {

  type Id = nat

  datatype Pool = Pool(reused: seq<Id>, made: nat)

  /** `getObject`: the object last returned, or a new one. */
  function Take(p: Pool): (Id, Pool)
  {
    if p.reused != [] then (p.reused[|p.reused| - 1], p.(reused := p.reused[..|p.reused| - 1]))
    else (p.made, p.(made := p.made + 1))
  }

  function Give(p: Pool, id: Id): Pool { p.(reused := p.reused + [id]) }

  ghost predicate NoDuplicates<T(!new)>(s: seq<T>)
  {
    forall i, j :: 0 <= i < j < |s| ==> s[i] != s[j]
  }

  /** Ids in the pool are distinct and were made by it. */
  ghost predicate Sound(p: Pool)
  {
    NoDuplicates(p.reused) && forall i :: 0 <= i < |p.reused| ==> p.reused[i] < p.made
  }

  /** Whatever is taken is in nobody else's hands: it leaves the pool, or is new. */
  lemma TakeIsUnique(p: Pool)
    requires Sound(p)
    ensures var (id, p') := Take(p);
      Sound(p') && id < p'.made && id !in p'.reused && (id in p.reused || id >= p.made)
  {
  }

  /** Returning an object that is out keeps the pool sound, and taking undoes it. */
  lemma GiveTake(p: Pool, id: Id)
    requires Sound(p) && id < p.made && id !in p.reused
    ensures Sound(Give(p, id)) && Take(Give(p, id)) == (id, p)
  {
    assert (p.reused + [id])[..|p.reused|] == p.reused;
  }

  class ObjectPool {
    var reused: seq<Id>
    var made: nat

    ghost function State(): Pool
      reads this
    {
      Pool(reused, made)
    }

    constructor ()
      ensures State() == Pool([], 0) && Sound(State())
    {
      reused, made := [], 0;
    }

    method GetObject() returns (id: Id)
      requires Sound(State())
      modifies this
      ensures (id, State()) == Take(old(State())) && Sound(State())
      ensures old(reused) != [] ==> reused + [id] == old(reused) && made == old(made)
      ensures old(reused) == [] ==> reused == [] && id == old(made) && made == old(made) + 1
    {
      TakeIsUnique(State());
      if reused != [] {
        id := reused[|reused| - 1];
        reused := reused[..|reused| - 1];
      } else {
        id, made := made, made + 1;
      }
    }

    method ReturnObject(id: Id)
      requires Sound(State()) && id < made && id !in reused
      modifies this
      ensures State() == Give(old(State()), id) && Sound(State())
      ensures reused == old(reused) + [id] && made == old(made)
    {
      GiveTake(State(), id);
      reused := reused + [id];
    }

    /** The destructor: every pooled object is deleted, once. */
    method Destroy() returns (deleted: seq<Id>)
      requires Sound(State())
      ensures deleted == reused && NoDuplicates(deleted)
    {
      deleted := [];
      var i := 0;
      while i < |reused|
        invariant 0 <= i <= |reused| && deleted == reused[..i]
      {
        deleted := deleted + [reused[i]];
        i := i + 1;
      }
    }
  }
}
