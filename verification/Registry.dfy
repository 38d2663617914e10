/** The session slot table, in which a half-built session is never seen and a dead one cannot evict the
    session that replaced it (crates/fofoca-iroh-webrtc-transport/src/registry.rs). */
module Registries {
  import opened Options

  // A peer's slot: reserved while it holds no session, live once it does.
  datatype Slot<+T> = Slot(generation: nat, value: Option<T>)

  // What a caller is handed: a reservation first, a guard once it is fulfilled.
  datatype Handle<+I> = Handle(remote: I, generation: nat)

  // How far the handle issued under a generation has got. A handle is used up by being fulfilled
  // without success, or dropped.
  datatype Stage = Reserved | Guarding | Committed | Gone

  datatype Issued<+I> = Issued(remote: I, stage: Stage)

  class Registry<I(==), T> {
    var slots: map<I, Slot<T>>
    var nextGeneration: nat
    ghost var issued: map<nat, Issued<I>>

    // Every slot belongs to the one handle issued under its generation, for its peer: a reservation
    // still outstanding if it is not live, else a guard still outstanding or a commitment.
    ghost predicate Valid()
      reads this
    {
      && (forall g :: g in issued <==> 0 <= g < nextGeneration)
      && forall r :: r in slots ==>
           var slot := slots[r];
           && slot.generation in issued && issued[slot.generation].remote == r
           && if slot.value == None then issued[slot.generation].stage == Reserved
              else issued[slot.generation].stage == Guarding || issued[slot.generation].stage == Committed
    }

    // The slot is still the one this handle was issued for.
    predicate Owns(h: Handle<I>)
      reads this
    {
      h.remote in slots && slots[h.remote].generation == h.generation
    }

    ghost predicate Outstanding(h: Handle<I>, stage: Stage)
      reads this
    {
      h.generation in issued && issued[h.generation] == Issued(h.remote, stage)
    }

    constructor ()
      ensures Valid() && slots == map[] && issued == map[]
    {
      slots, nextGeneration, issued := map[], 0, map[];
    }

    // No two slots share a generation, so no handle can own two.
    lemma OneSlotPerGeneration(r: I, s: I)
      requires Valid() && r in slots && s in slots && slots[r].generation == slots[s].generation
      ensures r == s
    {
    }

    // With no reservation and no guard outstanding, all that is left is live and committed.
    lemma OnlyCommittedRemain(r: I)
      requires Valid() && r in slots
      requires forall g :: g in issued ==> issued[g].stage != Reserved && issued[g].stage != Guarding
      ensures slots[r].value.Some? && issued[slots[r].generation] == Issued(r, Committed)
    {
    }

    // Claim a peer's slot, if nobody holds it.
    method Reserve(remote: I) returns (claim: Option<Handle<I>>)
      requires Valid()
      modifies this
      ensures Valid() && (claim.Some? <==> remote !in old(slots))
      ensures claim == None ==> slots == old(slots) && issued == old(issued)
      ensures claim.Some? ==>
                && claim.value.remote == remote && Owns(claim.value) && Outstanding(claim.value, Reserved)
                && claim.value.generation !in old(issued)
                && slots == old(slots)[remote := Slot(claim.value.generation, None)]
                && issued == old(issued)[claim.value.generation := Issued(remote, Reserved)]
    {
      if remote in slots {
        return None;
      }
      var generation := nextGeneration;
      nextGeneration := nextGeneration + 1;
      slots := slots[remote := Slot(generation, None)];
      issued := issued[generation := Issued(remote, Reserved)];
      return Some(Handle(remote, generation));
    }

    // Fill a claimed slot. It is refused exactly when the claim has been lost, and then nothing is left
    // of the claim.
    method Fulfil(h: Handle<I>, value: T) returns (guarded: bool)
      requires Valid() && Outstanding(h, Reserved)
      modifies this
      ensures Valid() && (guarded <==> old(Owns(h)))
      ensures slots == if guarded then old(slots)[h.remote := Slot(h.generation, Some(value))] else old(slots)
      ensures issued == old(issued)[h.generation := Issued(h.remote, if guarded then Guarding else Gone)]
      ensures !guarded ==> forall r :: r in slots ==> slots[r].generation != h.generation
    {
      issued := issued[h.generation := Issued(h.remote, Gone)];
      if h.remote !in slots {
        return false;
      }
      var slot := slots[h.remote];
      if slot.generation != h.generation || slot.value.Some? {
        return false;
      }
      slots := slots[h.remote := slot.(value := Some(value))];
      issued := issued[h.generation := Issued(h.remote, Guarding)];
      return true;
    }

    // Keep the session for good.
    method Commit(h: Handle<I>)
      requires Valid() && Outstanding(h, Guarding)
      modifies `issued
      ensures Valid() && issued == old(issued)[h.generation := Issued(h.remote, Committed)]
    {
      issued := issued[h.generation := Issued(h.remote, Committed)];
    }

    // Drop a reservation, or a guard that was not committed: its own slot goes, if it still has one. A
    // session that took the peer since is not touched.
    method DropHandle(h: Handle<I>)
      requires Valid() && (Outstanding(h, Reserved) || Outstanding(h, Guarding))
      modifies this
      ensures Valid() && issued == old(issued)[h.generation := Issued(h.remote, Gone)]
      ensures slots == if old(Owns(h)) then old(slots) - {h.remote} else old(slots)
      ensures forall r :: r in slots ==> slots[r].generation != h.generation
    {
      var live := RemoveIfGeneration(h.remote, h.generation);
      issued := issued[h.generation := Issued(h.remote, Gone)];
    }

    // Drop a peer's slot if it is still of this generation: what a session's own close hook does.
    method RemoveIfGeneration(remote: I, generation: nat) returns (live: bool)
      requires Valid()
      modifies `slots
      ensures Valid()
      ensures slots == if old(Owns(Handle(remote, generation))) then old(slots) - {remote} else old(slots)
      ensures live <==> old(Owns(Handle(remote, generation))) && old(IsLive(remote))
      ensures live <==>
                remote in old(slots) && old(slots)[remote].generation == generation && old(slots)[remote].value.Some?
    {
      if remote !in slots || slots[remote].generation != generation {
        return false;
      }
      live := slots[remote].value.Some?;
      slots := slots - {remote};
    }

    // Drop a peer's slot whoever holds it.
    method Remove(remote: I) returns (live: bool)
      requires Valid()
      modifies `slots
      ensures Valid() && slots == old(slots) - {remote} && (live <==> old(IsLive(remote)))
      ensures live <==> remote in old(slots) && old(slots)[remote].value.Some?
    {
      live := remote in slots && slots[remote].value.Some?;
      slots := slots - {remote};
    }

    method Clear() returns (live: nat)
      requires Valid()
      modifies `slots
      ensures Valid() && slots == map[] && live == old(|LiveIds()|)
    {
      live := LiveLen();
      slots := map[];
    }

    // A usable session: filled, and either proven or still under its guard.
    predicate IsLive(remote: I)
      reads this
    {
      remote in slots && slots[remote].value.Some?
    }

    function LiveIds(): set<I>
      reads this
    {
      set r | r in slots && slots[r].value.Some?
    }

    lemma LiveMeansFulfilled(remote: I)
      requires Valid()
      ensures remote in LiveIds() <==>
              exists h: Handle<I> :: h.remote == remote && Owns(h) &&
                  (Outstanding(h, Guarding) || Outstanding(h, Committed))
    {
      if remote in LiveIds() {
        assert Owns(Handle(remote, slots[remote].generation));
      }
    }

    method LiveLen() returns (n: nat)
      ensures n == |LiveIds()|
    {
      n := 0;
      var todo := slots.Keys;
      ghost var counted: set<I> := {};
      while todo != {}
        invariant todo <= slots.Keys && n == |counted|
        invariant counted == set r | r in slots.Keys - todo && slots[r].value.Some?
      {
        var r :| r in todo;
        todo := todo - {r};
        if slots[r].value.Some? {
          n := n + 1;
          counted := counted + {r};
        }
      }
      assert counted == LiveIds();
    }
  }
}
