/** CommandIDs: the set of active 16-bit command ids and the search for a new one. */
module CommandIds {
  import opened IdSearch

  const UINT16_MODULUS := 0x1_0000

  class CommandIDs {
    var commandIds: set<nat>
    var id: nat

    predicate Valid()
      reads this
    {
      id < UINT16_MODULUS && forall k :: k in commandIds ==> k < UINT16_MODULUS
    }

    constructor ()
      ensures Valid() && commandIds == {} && id == 0
    {
      commandIds, id := {}, 0;
    }

    method Insert(newId: nat)
      requires Valid() && newId < UINT16_MODULUS
      modifies this
      ensures Valid() && commandIds == old(commandIds) + {newId} && id == old(id)
    {
      commandIds := commandIds + {newId};
    }

    method Delete(oldId: nat)
      requires Valid()
      modifies this
      ensures Valid() && commandIds == old(commandIds) - {oldId} && id == old(id)
    {
      commandIds := commandIds - {oldId};
    }

    method Contains(someId: nat) returns (found: bool)
      ensures found <==> someId in commandIds
    {
      found := someId in commandIds;
    }

    /** Run without interference the search ends whenever some id is inactive, and finds the
        first inactive one cyclically after the previous one. */
    method GenerateID() returns (newId: nat)
      requires Valid() && |commandIds| < UINT16_MODULUS
      modifies this`id
      ensures Valid() && newId == id && newId !in commandIds
      ensures NextFree(old(id), newId, 0x1_0000, commandIds)
      ensures exists k ::
        FirstFree(old(id), k, UINT16_MODULUS, commandIds) && newId == Nth(old(id), k, UINT16_MODULUS)
    {
      ghost var start, k := id, 1;
      id := (id + 1) % UINT16_MODULUS;
      var active := Contains(id);
      while active
        invariant 1 <= k <= UINT16_MODULUS && id == Nth(start, k, UINT16_MODULUS)
        invariant active <==> id in commandIds
        invariant forall j :: 1 <= j < k ==> Nth(start, j, UINT16_MODULUS) in commandIds
        decreases UINT16_MODULUS - k
      {
        SearchGoesOn(start, k, UINT16_MODULUS, commandIds);
        NextNth(start, k, UINT16_MODULUS);
        id := (id + 1) % UINT16_MODULUS;
        k := k + 1;
        active := Contains(id);
      }
      assert FirstFree(start, k, UINT16_MODULUS, commandIds);
      FirstFreeIsNext(start, k, UINT16_MODULUS, commandIds);
      newId := id;
    }
  }
}
