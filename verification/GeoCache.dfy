/** The cache of libcore/geo_cache.go: results of queries of a database file that may be replaced
    at any moment. */
module GeoCache {
  import opened Bytes
  import opened Common

  /** One version of a database file. */
  datatype Version = Version(size: int, modTime: int, content: seq<byte>)

  /** What is at a path at a time; files are replaced whole. */
  type Files = (string, nat) -> Option<Version>

  predicate SameStamp(v: Version, w: Version) {
    v.size == w.size && v.modTime == w.modTime
  }

  /** Versions are told apart by size and modification time, and none comes back. */
  ghost predicate NoneRecurs(files: Files) {
    forall path, t0: nat, t1: nat, t2: nat {:trigger files(path, t0), files(path, t1), files(path, t2)} ::
      t0 <= t1 <= t2 && files(path, t0).Some? && files(path, t2).Some?
      && SameStamp(files(path, t0).value, files(path, t2).value) ==>
        files(path, t0) == files(path, t1) == files(path, t2)
  }

  /** The file system as the process sees it. Each access happens some time after the one before
      it, and may fail for reasons of its own. */
  class World {
    const files: Files
    const delay: nat -> nat
    const faulty: nat -> bool
    var accesses: nat
    var now: nat
    /** Handles are numbered as they are opened; the closed ones, in order. */
    var handles: nat
    var closed: seq<nat>

    constructor (files: Files, delay: nat -> nat, faulty: nat -> bool)
      ensures this.files == files && this.delay == delay && this.faulty == faulty
      ensures accesses == 0 && now == 0 && handles == 0 && closed == []
    {
      this.files, this.delay, this.faulty := files, delay, faulty;
      accesses, now, handles, closed := 0, 0, 0, [];
    }

    method Access() returns (ok: bool)
      modifies this`accesses, this`now
      ensures accesses == old(accesses) + 1 && now >= old(now) && ok == !faulty(old(accesses))
    {
      ok := !faulty(accesses);
      now := now + delay(accesses);
      accesses := accesses + 1;
    }

    method Stat(path: string) returns (v: Option<Version>)
      modifies this`accesses, this`now
      ensures accesses == old(accesses) + 1 && now >= old(now)
      ensures v == if faulty(old(accesses)) then None else files(path, now)
    {
      var ok := Access();
      v := if ok then files(path, now) else None;
    }

    /** Opens the version that is there; the handle keeps reading that version. */
    method Open(path: string) returns (v: Option<Version>, handle: nat)
      modifies this`accesses, this`now, this`handles
      ensures accesses == old(accesses) + 1 && now >= old(now)
      ensures v == if faulty(old(accesses)) then None else files(path, now)
      ensures handle == old(handles) && handles == old(handles) + if v.Some? then 1 else 0
    {
      var ok := Access();
      v := if ok then files(path, now) else None;
      handle := handles;
      if v.Some? { handles := handles + 1; }
    }

    method CloseHandle(handle: nat)
      modifies this`closed
      ensures closed == old(closed) + [handle]
    {
      closed := closed + [handle];
    }
  }

  /** The cached state: which file it is for, the version the handle reads, the results so far. */
  datatype Cached<R> = Cached(
    path: string,
    size: int,
    modTime: int,
    resource: seq<byte>,
    handle: nat,
    results: map<string, R>
  )

  /** Direct loading: the file is read and queried once. */
  function Direct<R>(load: (seq<byte>, string) -> Option<R>, file: Option<Version>, key: string): Option<R> {
    if file.Some? then load(file.value.content, key) else None
  }

  class Cache<R> {
    const normalize: Option<string -> string>
    const load: (seq<byte>, string) -> Option<R>
    const world: World
    var state: Option<Cached<R>>
    /** When the cached file was last looked at before it was opened, and when it was opened. */
    ghost var statTime: nat
    ghost var openTime: nat

    constructor (normalize: Option<string -> string>, load: (seq<byte>, string) -> Option<R>, world: World)
      requires world.handles == 0 && world.closed == []
      ensures Valid()
      ensures this.normalize == normalize && this.load == load && this.world == world
    {
      this.normalize, this.load, this.world := normalize, load, world;
      state, statTime, openTime := None, 0, 0;
    }

    function Key(key: string): string {
      if normalize.Some? then normalize.value(key) else key
    }

    /** The cached results are what loading the opened version gives. */
    ghost predicate ResultsOk()
      reads this
    {
      state.Some? ==>
        forall k :: k in state.value.results ==> load(state.value.resource, k) == Some(state.value.results[k])
    }

    /** The file was seen at one time with the cached stamp, and opened at a later one. */
    ghost predicate TimesOk()
      reads this, world
    {
      state.Some? ==>
        var s := state.value;
        var seen, read := world.files(s.path, statTime), world.files(s.path, openTime);
        && statTime <= openTime <= world.now
        && seen.Some? && seen.value.size == s.size && seen.value.modTime == s.modTime
        && read.Some? && read.value.content == s.resource
    }

    /** Every handle opened has been closed once, in order, but for the cached one. */
    ghost predicate HandlesOk()
      reads this, world
    {
      world.closed + (if state.Some? then [state.value.handle] else []) == seq(world.handles, k requires 0 <= k => k)
    }

    ghost predicate Valid()
      reads this, world
    {
      ResultsOk() && TimesOk() && HandlesOk()
    }

    predicate Matches(path: string, stat: Version)
      reads this
    {
      state.Some? && state.value.path == path && state.value.size == stat.size && state.value.modTime == stat.modTime
    }

    /** Drops the cached file, if any, and opens what is at the path now. */
    method Reopen(path: string, stat: Version, ghost statAt: nat) returns (ok: bool)
      requires Valid() && statAt <= world.now && world.files(path, statAt) == Some(stat)
      modifies this, world
      ensures Valid() && world.now >= old(world.now) && world.accesses == old(world.accesses) + 1
      ensures ok == state.Some?
      ensures ok ==> Matches(path, stat) && openTime >= statAt == statTime && openTime == world.now
      ensures !ok ==> world.faulty(old(world.accesses)) || world.files(path, world.now) == None
    {
      if state.Some? {
        world.CloseHandle(state.value.handle);
      }
      state := None;
      ghost var count := world.handles;
      var v, handle := world.Open(path);
      if v == None {
        return false;
      }
      OneMoreHandle(world.closed, count);
      state := Some(Cached(path, stat.size, stat.modTime, v.value.content, handle, map[]));
      statTime, openTime := statAt, world.now;
      return true;
    }

    /** The cached result, or a new one. */
    method Lookup(key: string) returns (r: Option<R>)
      requires Valid() && state.Some?
      modifies this`state, world`accesses, world`now
      ensures Valid() && world.now >= old(world.now) && old(world.accesses) <= world.accesses <= old(world.accesses) + 1
      ensures state.Some? && state.value == old(state).value.(results := state.value.results)
      ensures r.Some? ==> r == load(state.value.resource, key)
      ensures r.None? ==> world.faulty(old(world.accesses)) || load(state.value.resource, key) == None
      ensures key in old(state).value.results ==> world.accesses == old(world.accesses) && state == old(state)
      ensures r.None? ==> state == old(state) && world.accesses == old(world.accesses) + 1
      ensures r.Some? ==> state.value.results == old(state).value.results[key := r.value]
    {
      if key in state.value.results {
        return Some(state.value.results[key]);
      }
      var ok := world.Access();
      r := if ok then load(state.value.resource, key) else None;
      if r.Some? {
        state := Some(state.value.(results := state.value.results[key := r.value]));
      }
    }

    /** The version the handle reads is the one at the path at a time of this call. */
    lemma CurrentVersion(path: string, stat: Version, statAt: nat)
      requires NoneRecurs(world.files) && Valid() && Matches(path, stat)
      requires statAt <= world.now && world.files(path, statAt) == Some(stat) && openTime <= statAt
      ensures world.files(path, statAt).Some? && world.files(path, statAt).value.content == state.value.resource
    {
      var seen := world.files(path, statTime);
      assert SameStamp(seen.value, stat);
      assert seen == world.files(path, openTime) == world.files(path, statAt);
    }

    /** The cached state is for another file, or another stamp of it, than the old one. */
    predicate Replaced(before: Option<Cached<R>>)
      reads this
    {
      && state.Some?
      && (before.Some? ==>
            before.value.path != state.value.path || before.value.size != state.value.size
            || before.value.modTime != state.value.modTime)
    }

    /** The first half of rules: the handle reads a version that was at the path at some instant of
        the call, or the file or an access has failed at one. */
    method Refresh(path: string) returns (ok: bool, ghost at: nat)
      requires Valid() && NoneRecurs(world.files)
      modifies this, world
      ensures Valid() && old(world.now) <= at <= world.now && old(world.accesses) < world.accesses
      ensures ok ==>
                && state.Some? && world.files(path, at).Some?
                && world.files(path, at).value.content == state.value.resource
      ensures ok ==> (state == old(state) && world.accesses == old(world.accesses) + 1) || Replaced(old(state))
      ensures !ok ==> world.faulty(world.accesses - 1) || world.files(path, at) == None
    {
      var stat := world.Stat(path);
      at := world.now;
      if stat == None {
        return false, at;
      }
      if Matches(path, stat.value) {
        CurrentVersion(path, stat.value, at);
        return true, at;
      }
      ok := Reopen(path, stat.value, at);
      at := world.now;
    }

    /** rules: a success is what loading the file directly gives at some instant of the call; and
        when the file does not change during the call and no access fails, so is a failure. */
    method Rules(path: string, key: string) returns (r: Option<R>)
      requires Valid() && NoneRecurs(world.files)
      modifies this, world
      ensures Valid() && world.now >= old(world.now) && old(world.accesses) < world.accesses
      ensures r.Some? ==>
                var query := if normalize.Some? then normalize.value(key) else key;
                exists t: nat :: old(world.now) <= t <= world.now && r == Direct(load, world.files(path, t), query)
      ensures var query := if normalize.Some? then normalize.value(key) else key;
              forall file ::
                (forall t: nat :: old(world.now) <= t <= world.now ==> world.files(path, t) == file)
                && (forall a :: old(world.accesses) <= a < world.accesses ==> !world.faulty(a)) ==>
                  r == Direct(load, file, query)
      ensures r.Some? && state == old(state) ==> world.accesses <= old(world.accesses) + 2
    {
      var ok;
      ghost var at: nat;
      ok, at := Refresh(path);
      if !ok {
        return None;
      }
      r := Lookup(Key(key));
      assert r.Some? ==> r == Direct(load, world.files(path, at), Key(key));
    }
  }

  lemma OneMoreHandle(closed: seq<nat>, n: nat)
    requires closed == seq(n, k requires 0 <= k => k)
    ensures closed + [n] == seq(n + 1, k requires 0 <= k => k)
  {
  }
}
