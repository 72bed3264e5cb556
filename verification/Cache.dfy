/** distbuild/pkg/artifact/cache.go: the cache's methods, each a step of the state machine in CacheState. */
module Cache {
  import opened Common
  import opened CacheState

  datatype Error = NoError | ErrNotFound | ErrExists | ErrWriteLocked | ErrReadLocked | Other

  class Cache {
    var mu: Option<nat>
    var writeLocked: set<ID>
    var readLocked: map<ID, int>

    // the file system: the cache directory and the directory for unfinished artifacts
    var store: map<ID, Content>
    var tmp: map<ID, Content>

    // where each call of the cache is
    ghost var calls: map<nat, Phase>

    ghost function Snapshot(): State
      reads this
    {
      State(mu, writeLocked, readLocked, store, tmp, calls)
    }

    ghost predicate Valid()
      reads this
    {
      Inv(Snapshot())
    }

    /** NewCache: the directory of unfinished artifacts is emptied. */
    constructor (store: map<ID, Content>)
      ensures Snapshot() == Initial(store)
      ensures Valid()
    {
      mu, writeLocked, readLocked := None, {}, map[];
      this.store, tmp, calls := store, map[], map[];
      new;
      ghost var s := Snapshot();
      RunsKeepInv([s], [], 0);
    }

    method ReadLock(ghost c: nat, id: ID) returns (err: Error)
      requires Valid() && Enabled(Snapshot(), Event.ReadLock(c, id))
      modifies this
      ensures Snapshot() == Next(old(Snapshot()), Event.ReadLock(c, id))
      ensures Valid()
      ensures err == if old(id in writeLocked) then ErrWriteLocked else NoError
      ensures c in calls && calls[c] == if err == NoError then Looking(id) else Done
    {
      StepKeepsInv(Snapshot(), Event.ReadLock(c, id));
      if id in writeLocked {
        calls := calls[c := Done];
        return ErrWriteLocked;
      }
      readLocked := readLocked[id := CacheState.Get(readLocked, id) + 1];
      calls := calls[c := Looking(id)];
      return NoError;
    }

    method DropReader(ghost c: nat, id: ID)
      requires Enabled(Snapshot(), Event.ReadUnlock(c)) && calls[c].id == id
      modifies this
      ensures Snapshot() == Next(old(Snapshot()), Event.ReadUnlock(c))
    {
      var left := CacheState.Get(readLocked, id) - 1;
      readLocked := readLocked[id := left];
      if readLocked[id] == 0 {
        readLocked := readLocked - {id};
      }
      calls := calls[c := Done];
      assert readLocked == Release(old(readLocked), id);
    }

    method ReadUnlock(ghost c: nat, id: ID)
      requires Valid() && Enabled(Snapshot(), Event.ReadUnlock(c)) && calls[c].id == id
      modifies this
      ensures Snapshot() == Next(old(Snapshot()), Event.ReadUnlock(c))
      ensures Valid()
    {
      StepKeepsInv(Snapshot(), Event.ReadUnlock(c));
      DropReader(c, id);
    }

    /** writeLock takes the mutex and asks the file system. */
    method WriteLockStat(c: nat, id: ID, ghost remove: bool, stat: StatResult)
      requires Valid() && Enabled(Snapshot(), StatWrite(c, id, remove, stat))
      modifies this
      ensures Snapshot() == Next(old(Snapshot()), StatWrite(c, id, remove, stat))
      ensures Valid()
    {
      StepKeepsInv(Snapshot(), StatWrite(c, id, remove, stat));
      mu := Some(c);
      calls := calls[c := Statted(id, remove, stat)];
    }

    /** writeLock decides on the answer and gives the mutex back. */
    method WriteLock(ghost c: nat, id: ID, remove: bool, stat: StatResult) returns (err: Error)
      requires Valid() && Enabled(Snapshot(), Event.WriteLock(c)) && calls[c] == Statted(id, remove, stat)
      modifies this
      ensures Snapshot() == Next(old(Snapshot()), Event.WriteLock(c))
      ensures Valid()
      ensures err == NoError && !remove ==> id !in store
      ensures err == old(Refusal(id, remove, stat))
      ensures c in calls && calls[c] == if err != NoError then Done else if remove then Removing(id) else Preparing(id)
    {
      StepKeepsInv(Snapshot(), Event.WriteLock(c));
      err := DecideAndLock(c, id, remove, stat);
      assert err == NoError && !remove ==> Creates(calls[c]);
    }

    method DecideAndLock(ghost c: nat, id: ID, remove: bool, stat: StatResult) returns (err: Error)
      requires Enabled(Snapshot(), Event.WriteLock(c)) && calls[c] == Statted(id, remove, stat)
      modifies this
      ensures Snapshot() == Next(old(Snapshot()), Event.WriteLock(c))
      ensures err == old(Refusal(id, remove, stat))
      ensures c in calls && calls[c] == if err != NoError then Done else if remove then Removing(id) else Preparing(id)
    {
      mu := None;
      err := Decide(id, remove, stat);
      if err == NoError {
        writeLocked := writeLocked + {id};
      }
      calls := calls[c := if err != NoError then Done else if remove then Removing(id) else Preparing(id)];
    }

    /** Why writeLock says no: what os.Stat found counts before the locks, and writers before readers. */
    ghost function Refusal(id: ID, remove: bool, stat: StatResult): Error
      reads this
    {
      if stat.Broken? then Other
      else if stat.Found? && !remove then ErrExists
      else if id in writeLocked then ErrWriteLocked
      else if id in readLocked && readLocked[id] > 0 then ErrReadLocked
      else NoError
    }

    method Decide(id: ID, remove: bool, stat: StatResult) returns (err: Error)
      ensures err == Refusal(id, remove, stat)
    {
      if stat.Broken? {
        return Other;
      } else if stat.Found? && !remove {
        return ErrExists;
      }
      if id in writeLocked {
        return ErrWriteLocked;
      }
      if CacheState.Get(readLocked, id) > 0 {
        return ErrReadLocked;
      }
      return NoError;
    }

    method WriteUnlock(ghost c: nat, id: ID)
      requires Valid() && Enabled(Snapshot(), Event.WriteUnlock(c)) && calls[c].id == id
      modifies this
      ensures Snapshot() == Next(old(Snapshot()), Event.WriteUnlock(c))
      ensures Valid()
    {
      StepKeepsInv(Snapshot(), Event.WriteUnlock(c));
      writeLocked := writeLocked - {id};
      calls := calls[c := Done];
    }

    /** Get, after readLock: os.Stat decides between the path and giving the lock back. */
    method Look(ghost c: nat, id: ID, stat: StatResult) returns (err: Error)
      requires Valid() && Enabled(Snapshot(), StatRead(c, stat)) && calls[c].id == id
      modifies this
      ensures Snapshot() == Next(old(Snapshot()), StatRead(c, stat))
      ensures Valid()
      ensures stat.Found? ==> err == NoError && id in store && calls[c] == Using(id, store[id])
      ensures stat.Missing? ==> err == ErrNotFound && calls[c] == Dropping(id)
      ensures stat.Broken? ==> err == Other && calls[c] == Dropping(id)
    {
      StepKeepsInv(Snapshot(), StatRead(c, stat));
      calls := calls[c := if stat.Found? then Using(id, store[id]) else Dropping(id)];
      err := match stat case Found => NoError case Missing => ErrNotFound case Broken => Other;
    }

    /** Create, after writeLock: os.MkdirAll. */
    method MakeDirectory(ghost c: nat, id: ID, ok: bool) returns (err: Error)
      requires Valid() && Enabled(Snapshot(), Mkdir(c, ok)) && calls[c].id == id
      modifies this
      ensures Snapshot() == Next(old(Snapshot()), Mkdir(c, ok))
      ensures Valid()
      ensures err == if ok then NoError else Other
      ensures calls[c] == if ok then Writing(id) else Unlocking(id)
    {
      StepKeepsInv(Snapshot(), Mkdir(c, ok));
      if ok && id !in tmp {
        tmp := tmp[id := 0];
      }
      calls := calls[c := if ok then Writing(id) else Unlocking(id)];
      assert ok ==> tmp == old(tmp)[id := if id in old(tmp) then old(tmp)[id] else 0];
      err := if ok then NoError else Other;
    }

    /** commit: os.Rename, which is never asked to replace an artifact. */
    method Commit(ghost c: nat, id: ID, ok: bool) returns (err: Error)
      requires Valid() && Enabled(Snapshot(), Rename(c, ok)) && calls[c].id == id
      modifies this
      ensures Snapshot() == Next(old(Snapshot()), Rename(c, ok))
      ensures Valid()
      ensures old(id !in store) && err == if ok then NoError else Other
      ensures id in store <==> ok
      ensures ok ==> store == old(store)[id := old(tmp)[id]]
    {
      StepKeepsInv(Snapshot(), Rename(c, ok));
      assert Creates(calls[c]);
      if ok {
        store := store[id := tmp[id]];
        tmp := tmp - {id};
      }
      calls := calls[c := Unlocking(id)];
      err := if ok then NoError else Other;
    }
  }
}
