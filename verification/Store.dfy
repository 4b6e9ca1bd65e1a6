/** The Store of go/pairing/store.go: a map under a lock and a JSON file beside it. */
module Store {
  import opened Wrappers
  import opened Pairings
  import StoreRuns

  datatype Error = WriteFailed | UnknownDevice

  class Store {
    const persistent: bool // the path is not empty
    var entries: Entries
    var file: seq<Entry>
    ghost var issued: set<string> // every token the entries hold or held

    /** Every key is its entry's device. */
    ghost predicate Valid()
      reads this
    {
      Keyed(entries)
    }

    /** No two entries share a hash, and every hash is that of an issued token. */
    ghost predicate Sound()
      reads this
    {
      Valid() && DistinctHashes(entries) && TokensOf(entries) <= issued
    }

    /** What is in memory and what the file loads to. */
    ghost function State(): StoreRuns.Stored
      reads this
    {
      StoreRuns.Stored(entries, Load(file))
    }

    /** What is on disk loads to what is in memory. */
    ghost predicate InSync()
      reads this
    {
      persistent ==> Load(file) == entries
    }

    /** NewStore */
    constructor ()
      ensures Sound() && !persistent && entries == map[] && InSync()
    {
      persistent := false;
      entries := map[];
      file := [];
      issued := {};
    }

    /** OpenStore, given the entries read from the file; none when there is no file. */
    constructor Open(list: seq<Entry>)
      ensures Valid() && persistent && entries == Load(list) && file == list
      ensures issued == TokensOf(entries) && (DistinctHashes(entries) ==> Sound())
      ensures InSync()
    {
      persistent := true;
      entries := map[];
      file := list;
      issued := TokensOf(Load(list));
      new;
      for i := 0 to |list|
        invariant entries == Load(list[..i])
        invariant file == list && issued == TokensOf(Load(list))
      {
        assert list[..i + 1][..i] == list[..i];
        entries := entries[list[i].deviceID := list[i]];
      }
      assert list[..|list|] == list;
      LoadIsKeyed(list);
    }

    /** The token is what NewToken returned; `writable` says whether the file can be replaced now. */
    method Pair(device: string, name: string, token: string, now: int, writable: bool) returns (r: Result<string, Error>)
      requires Valid()
      modifies this`entries, this`file, this`issued
      ensures Valid()
      ensures entries == Paired(old(entries), device, name, token, now)
      ensures issued == old(issued) + {token}
      ensures old(Sound()) && token !in old(issued) ==> Sound()
      ensures r == if persistent && !writable then Err(WriteFailed) else Ok(token)
      ensures if r.Ok? then InSync() else file == old(file)
      ensures persistent ==> State() == StoreRuns.AfterCall(old(State()), StoreRuns.Do(Change.Pair(device, name, token, now), writable))
    {
      entries := entries[device := Entry(device, name, HashToken(token), now, false)];
      issued := issued + {token};
      assert TokensOf(entries) <= TokensOf(old(entries)) + {token};
      var ok := Persist(writable);
      if !ok {
        return Err(WriteFailed);
      }
      return Ok(token);
    }

    /** Entries are compared in map iteration order; the first match is returned. */
    method Authenticate(token: string) returns (r: Option<Entry>)
      ensures r.None? <==> forall d :: !Matches(entries, token, d)
      ensures r.Some? ==> exists d :: Matches(entries, token, d) && r.value == entries[d]
      ensures DistinctHashes(entries) ==> r == Authenticated(entries, token)
    {
      var want := HashToken(token);
      var todo := entries.Keys;
      while todo != {}
        invariant todo <= entries.Keys
        invariant forall d :: Matches(entries, token, d) ==> d in todo
        decreases todo
      {
        var d :| d in todo;
        if entries[d].tokenHash == want {
          assert Matches(entries, token, d);
          return Some(entries[d]);
        }
        todo := todo - {d};
      }
      return None;
    }

    method Revoke(device: string, writable: bool) returns (removed: bool, r: Result<(), Error>)
      requires Valid()
      modifies this`entries, this`file
      ensures Valid()
      ensures entries == Revoked(old(entries), device)
      ensures old(Sound()) ==> Sound()
      ensures removed == (device in old(entries))
      ensures r == if removed && persistent && !writable then Err(WriteFailed) else Ok(())
      ensures (removed || old(InSync())) && r.Ok? ==> InSync()
      ensures !removed || r.Err? ==> file == old(file)
      ensures persistent ==> State() == StoreRuns.AfterCall(old(State()), StoreRuns.Do(Change.Revoke(device), writable))
    {
      removed := device in entries;
      entries := entries - {device};
      if !removed {
        assert entries == old(entries);
        return false, Ok(());
      }
      var ok := Persist(writable);
      return true, if ok then Ok(()) else Err(WriteFailed);
    }

    method Confirm(device: string, writable: bool) returns (r: Result<(), Error>)
      requires Valid()
      modifies this`entries, this`file
      ensures Valid()
      ensures entries == Confirmed(old(entries), device)
      ensures old(Sound()) ==> Sound()
      ensures r == if device !in old(entries) then Err(UnknownDevice)
                   else if persistent && !writable then Err(WriteFailed) else Ok(())
      ensures if r.Ok? then InSync() else file == old(file)
      ensures persistent ==> State() == StoreRuns.AfterCall(old(State()), StoreRuns.Do(Change.Confirm(device), writable))
    {
      var found := device in entries;
      if found {
        var e := entries[device];
        entries := entries[device := e.(confirmed := true)];
      }
      if !found {
        return Err(UnknownDevice);
      }
      var ok := Persist(writable);
      return if ok then Ok(()) else Err(WriteFailed);
    }

    /** A snapshot in map iteration order. */
    method List() returns (list: seq<Entry>)
      requires Valid()
      ensures Lists(list, entries)
    {
      list := [];
      ghost var seen: set<string> := {};
      var todo := entries.Keys;
      while todo != {}
        invariant todo <= entries.Keys && seen == entries.Keys - todo
        invariant |list| + |todo| == |entries|
        invariant forall i :: 0 <= i < |list| ==> exists d :: d in seen && list[i] == entries[d]
        invariant forall d :: d in seen ==> entries[d] in list
        decreases todo
      {
        var d :| d in todo;
        ghost var before := list;
        list := list + [entries[d]];
        seen := seen + {d};
        todo := todo - {d};
        assert list[|before|] == entries[d];
        forall x | x in seen
          ensures entries[x] in list
        {
          if x != d {
            assert entries[x] in before;
          }
        }
      }
    }

    /** A temporary file is written and renamed, so a failed write leaves the old file in place. */
    method Persist(writable: bool) returns (ok: bool)
      requires Valid()
      modifies this`file
      ensures ok == (!persistent || writable)
      ensures ok ==> InSync()
      ensures persistent && ok ==> Lists(file, entries)
      ensures !persistent || !ok ==> file == old(file)
    {
      if !persistent {
        return true;
      }
      var list := List();
      if !writable {
        return false;
      }
      LoadRebuildsTheMap(list, entries);
      file := list;
      return true;
    }
  }
}
