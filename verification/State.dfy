/** internal/state/state.go: generations, tombstones and certificate states, mirrored to
    the state file after every change. A failed write is the caller's to ignore: the
    memory has moved on either way. */
module State {
  import opened Wrappers
  import opened Lifecycle
  import opened Host

  class Store {
    const world: World
    var entries: map<string, Entry>
    var snapshotGen: int

    ghost predicate Valid()
      reads this, world
    {
      world.Valid() && world.memory == Image(entries, snapshotGen)
    }

    /** What a persisting call leaves: the new image in memory, and in the state file that
        or what was there - as it is at every moment in between. */
    twostate predicate Wrote(image: Image, stored: bool)
      reads this, world
    {
      && Valid() && world.Waited() && (!stored ==> old(world.faults) < world.faults)
      && world.View() == Persisted(old(world.View()), image, stored)
      && old(world.history) <= world.history
      && forall i | |old(world.history)| <= i < |world.history| ::
           || world.history[i] == Persisted(old(world.View()), image, false)
           || world.history[i] == Persisted(old(world.View()), image, true)
    }

    /** Load: the store is what the state file holds, the empty one with no file; a file
        that cannot be read or parsed is an error. */
    static method Load(w: World) returns (s: Option<Store>)
      requires w.Valid()
      modifies w`memory, w`history, w`faults
      ensures w.Valid()
      ensures s.Some? ==>
                && fresh(s.value) && s.value.Valid() && s.value.world == w
                && w.View() == Reloaded(old(w.View())) && w.faults == old(w.faults)
                && Image(s.value.entries, s.value.snapshotGen) == old(w.saved)
      ensures s.None? ==> w.View() == old(w.View()) && w.history == old(w.history) && old(w.faults) < w.faults
    {
      var image := w.LoadState();
      if image.None? {
        return None;
      }
      var store := new Store.Of(w, image.value);
      s := Some(store);
    }

    constructor Of(w: World, image: Image)
      requires w.Valid() && w.memory == image
      ensures Valid() && world == w
    {
      world := w;
      entries, snapshotGen := image.entries, image.snapshotGen;
    }

    /** The applied generation of a name, if it is known. */
    function Generation(f: string): Option<int>
      reads this
    {
      if f in entries then Some(entries[f].generation) else None
    }

    method Record(f: string, e: Entry) returns (stored: bool)
      requires Valid()
      modifies `entries, world`memory, world`saved, world`running
      modifies world`pending, world`outside, world`history, world`faults
      ensures Wrote(Recorded(old(world.memory), f, e), stored)
    {
      entries := entries[f := e];
      stored := world.SaveState(Image(entries, snapshotGen));
    }

    /** Only the certificate fields change; an unknown name gets the zero entry. */
    method SetCert(f: string, cert: CertState, error: string) returns (stored: bool)
      requires Valid()
      modifies `entries, world`memory, world`saved, world`running
      modifies world`pending, world`outside, world`history, world`faults
      ensures Wrote(WithCert(old(world.memory), f, cert, error), stored)
    {
      var e := if f in entries then entries[f] else Entry(0, false, NoCert, "");
      entries := entries[f := e.(cert := cert, certError := error)];
      stored := world.SaveState(Image(entries, snapshotGen));
    }

    /** The whole set, atomically; names it drops keep a tombstone. */
    method ReplaceAll(newEntries: map<string, Entry>, gen: int) returns (stored: bool)
      requires Valid()
      modifies `entries, `snapshotGen, world`memory, world`saved, world`running
      modifies world`pending, world`outside, world`history, world`faults
      ensures Wrote(Replaced(old(world.memory), newEntries, gen), stored)
    {
      var merged := Merge(newEntries);
      entries, snapshotGen := merged, gen;
      stored := world.SaveState(Image(entries, snapshotGen));
    }

    method Merge(newEntries: map<string, Entry>) returns (merged: map<string, Entry>)
      requires Valid()
      ensures merged == Replaced(world.memory, newEntries, snapshotGen).entries
    {
      merged := map[];
      var rest := entries.Keys;
      while rest != {}
        invariant rest <= entries.Keys
        invariant forall f :: f in merged <==> f in entries && f !in rest && f !in newEntries
        invariant forall f | f in merged :: merged[f] == Tombstone(entries[f])
        decreases rest
      {
        var f :| f in rest;
        if f !in newEntries {
          merged := merged[f := Entry(entries[f].generation, false, NoCert, "")];
        }
        rest := rest - {f};
      }
      rest := newEntries.Keys;
      while rest != {}
        invariant rest <= newEntries.Keys
        invariant forall f :: f in merged <==> (f in entries && f !in newEntries) || (f in newEntries && f !in rest)
        invariant forall f | f in merged ::
                    merged[f] == if f in newEntries then newEntries[f] else Tombstone(entries[f])
        decreases rest
      {
        var f :| f in rest;
        merged := merged[f := newEntries[f]];
        rest := rest - {f};
      }
    }
  }
}
