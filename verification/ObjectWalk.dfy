/**
 * The object reader and the memoised integrity walk over a commit's trees. Git's object store and
 * SHA-1 are parameters: `store` gives the bytes `cat-file` returns for a kind and an id, and
 * `digest` is the object id of content read as a kind.
 */
module ObjectWalk {
  import opened Basics
  import opened GitTree

  const MAX_TOTAL_BYTES := 256 * 1024 * 1024
  const MAX_BLOB_BYTES := 32 * 1024 * 1024

  datatype Kind = Commit | Tree | Blob

  datatype Key = Key(kind: Kind, id: string)

  /** What the reader is connected to. */
  datatype Git = Git(store: Key -> Option<string>, digest: (Kind, string) -> string)

  // ---------------------------------------------------------------- what counts as verified

  /** Fetched, and named by its own digest. */
  ghost predicate Genuine(git: Git, key: Key, raw: string) {
    git.store(key) == Some(raw) && git.digest(key.kind, raw) == key.id
  }

  ghost predicate AllGenuine(git: Git, cache: map<Key, string>) {
    forall key :: key in cache ==> Genuine(git, key, cache[key])
  }

  /** The entries of a stored tree, as the integrity reader sees them. */
  ghost function Entries(git: Git, id: string): Option<seq<(string, string)>> {
    match git.store(Key(Tree, id))
    case None => None
    case Some(raw) => IntegrityEntries(raw)
  }

  /** One entry is settled: subtrees are visited, everything else but a gitlink is cached. */
  ghost predicate EntrySettled(entry: (string, string), cache: map<Key, string>, trees: set<string>) {
    if entry.0 == TREE then entry.1 in trees
    else entry.0 == COMMIT || Key(Blob, entry.1) in cache
  }

  ghost predicate Settled(git: Git, id: string, cache: map<Key, string>, trees: set<string>) {
    && Key(Tree, id) in cache && Entries(git, id).Some?
    && forall i :: 0 <= i < |Entries(git, id).value| ==> EntrySettled(Entries(git, id).value[i], cache, trees)
  }

  /** A walk from a tree down through tree entries. */
  ghost predicate Chain(git: Git, chain: seq<string>) {
    && chain != []
    && forall i :: 0 <= i < |chain| - 1 ==>
         Entries(git, chain[i]).Some? && (TREE, chain[i + 1]) in Entries(git, chain[i]).value
  }

  lemma {:induction false} ChainVisited(git: Git, cache: map<Key, string>, trees: set<string>, chain: seq<string>)
    requires forall t :: t in trees ==> Settled(git, t, cache, trees)
    requires Chain(git, chain) && chain[0] in trees
    ensures chain[|chain| - 1] in trees
    decreases |chain|
  {
    if |chain| > 1 {
      var init := chain[..|chain| - 1];
      assert Chain(git, init);
      ChainVisited(git, cache, trees, init);
      var n := |chain| - 2;
      var last := chain[n];
      assert init[|init| - 1] == last && Settled(git, last, cache, trees);
      var entries := Entries(git, last).value;
      assert (TREE, chain[n + 1]) in entries;
      var i :| 0 <= i < |entries| && entries[i] == (TREE, chain[n + 1]);
      assert EntrySettled(entries[i], cache, trees);
    }
  }

  ghost predicate Checked(git: Git, cache: map<Key, string>, key: Key) {
    key in cache && Genuine(git, key, cache[key])
  }

  /** The tree was fetched and hash-checked and reads as a tree, and so was every blob it names. */
  ghost predicate Verified(git: Git, cache: map<Key, string>, id: string) {
    && Checked(git, cache, Key(Tree, id)) && Entries(git, id).Some?
    && var entries := Entries(git, id).value;
       forall i :: 0 <= i < |entries| && entries[i].0 != TREE && entries[i].0 != COMMIT ==>
         Checked(git, cache, Key(Blob, entries[i].1))
  }

  lemma SettledVerified(git: Git, cache: map<Key, string>, trees: set<string>, id: string)
    requires AllGenuine(git, cache) && Settled(git, id, cache, trees)
    ensures Verified(git, cache, id)
  {
    var entries := Entries(git, id).value;
    forall i | 0 <= i < |entries| && entries[i].0 != TREE && entries[i].0 != COMMIT
      ensures Checked(git, cache, Key(Blob, entries[i].1))
    {
      assert EntrySettled(entries[i], cache, trees);
    }
  }

  /**
   * What a settled set of trees is worth: every tree at the end of any chain from the root has been
   * fetched and hash-checked and reads as a tree, and so has every blob it names.
   */
  lemma ReachableVerified(git: Git, cache: map<Key, string>, trees: set<string>, chain: seq<string>)
    requires AllGenuine(git, cache) && forall t :: t in trees ==> Settled(git, t, cache, trees)
    requires Chain(git, chain) && chain[0] in trees
    ensures Verified(git, cache, chain[|chain| - 1])
  {
    ChainVisited(git, cache, trees, chain);
    SettledVerified(git, cache, trees, chain[|chain| - 1]);
  }

  // ---------------------------------------------------------------- stores the walk must accept

  /** The bytes of a set of stored objects. */
  ghost function Weight(git: Git, keys: set<Key>): nat
    decreases |keys|
  {
    if keys == {} then 0
    else
      var key :| key in keys;
      Size(git, key) + Weight(git, keys - {key})
  }

  ghost function Size(git: Git, key: Key): nat {
    match git.store(key)
    case None => 0
    case Some(raw) => |raw|
  }

  lemma {:induction false} WeightWithout(git: Git, keys: set<Key>, key: Key)
    requires key in keys
    ensures Weight(git, keys) == Size(git, key) + Weight(git, keys - {key})
    decreases |keys|
  {
    var chosen :| chosen in keys && Weight(git, keys) == Size(git, chosen) + Weight(git, keys - {chosen});
    if chosen != key {
      WeightWithout(git, keys - {chosen}, key);
      WeightWithout(git, keys - {key}, chosen);
      assert keys - {chosen} - {key} == keys - {key} - {chosen};
    }
  }

  lemma {:induction false} WeightWithin(git: Git, keys: set<Key>, world: set<Key>)
    requires keys <= world
    ensures Weight(git, keys) <= Weight(git, world) && |keys| <= |world|
    decreases |keys|
  {
    if keys != {} {
      var key :| key in keys;
      WeightWithout(git, keys, key);
      WeightWithout(git, world, key);
      WeightWithin(git, keys - {key}, world - {key});
    }
  }

  /** A closed set of good objects, with a rank that falls along tree entries. */
  datatype World = World(keys: set<Key>, rank: map<string, nat>)

  ghost predicate GoodEntry(world: World, parent: string, entry: (string, string))
    requires parent in world.rank
  {
    if entry.0 == TREE
    then Key(Tree, entry.1) in world.keys && entry.1 in world.rank && world.rank[entry.1] < world.rank[parent]
    else entry.0 == COMMIT || Key(Blob, entry.1) in world.keys
  }

  ghost predicate GoodTree(git: Git, world: World, id: string) {
    && id in world.rank && Key(Tree, id) in world.keys && Entries(git, id).Some?
    && forall i :: 0 <= i < |Entries(git, id).value| ==> GoodEntry(world, id, Entries(git, id).value[i])
  }

  function Limit(kind: Kind): nat {
    match kind
    case Commit => 1024 * 1024
    case Tree => MAX_TREE_BYTES
    case Blob => MAX_BLOB_BYTES
  }

  /** Every object is there, genuine and within its bound, and all of them are within the totals. */
  ghost predicate GoodWorld(git: Git, world: World) {
    && (forall key :: key in world.keys ==>
          && |key.id| == 20
          && git.store(key).Some?
          && Genuine(git, key, git.store(key).value)
          && Size(git, key) <= Limit(key.kind))
    && (forall key :: key in world.keys && key.kind.Tree? ==> GoodTree(git, world, key.id))
    && |world.keys| <= MAX_REACHABLE_OBJECTS && Weight(git, world.keys) <= MAX_TOTAL_BYTES
  }

  lemma RoomFor(git: Git, cache: map<Key, string>, key: Key, world: World)
    requires GoodWorld(git, world) && cache.Keys <= world.keys && key in world.keys && key !in cache
    ensures |key.id| == 20 && git.store(key).Some? && Genuine(git, key, git.store(key).value)
    ensures |git.store(key).value| <= Limit(key.kind)
    ensures |cache| < MAX_REACHABLE_OBJECTS && Weight(git, cache.Keys) + |git.store(key).value| <= MAX_TOTAL_BYTES
  {
    var keys := cache.Keys + {key};
    assert keys - {key} == cache.Keys;
    WeightWithout(git, keys, key);
    WeightWithin(git, keys, world.keys);
  }

  lemma CacheGrown(git: Git, cache: map<Key, string>, key: Key, raw: string)
    requires AllGenuine(git, cache) && key !in cache && Genuine(git, key, raw)
    ensures AllGenuine(git, cache[key := raw]) && |cache[key := raw]| == |cache| + 1
    ensures Weight(git, cache[key := raw].Keys) == Weight(git, cache.Keys) + |raw|
  {
    var keys := cache.Keys + {key};
    assert keys - {key} == cache.Keys && cache[key := raw].Keys == keys;
    WeightWithout(git, keys, key);
  }

  // ---------------------------------------------------------------- the reader

  class Reader {
    const git: Git
    var cache: map<Key, string>
    var totalBytes: nat

    constructor (git: Git)
      ensures Valid() && this.git == git && cache == map[]
    {
      this.git := git;
      cache, totalBytes := map[], 0;
    }

    /** Everything cached is genuine, and the byte total is the cache's. */
    ghost predicate Valid()
      reads this
    {
      && AllGenuine(git, cache) && (forall key :: key in cache ==> |key.id| == 20)
      && totalBytes == Weight(git, cache.Keys)
      && |cache| <= MAX_REACHABLE_OBJECTS && totalBytes <= MAX_TOTAL_BYTES
    }

    /**
     * `_ObjectReader.object`. A returned object is cached, genuine and within the caller's bound;
     * nothing cached is lost; a cached object is returned exactly within the bound; and inside a good
     * world the call succeeds.
     */
    method Object(key: Key, maximum: nat, ghost world: World) returns (raw: Option<string>)
      requires Valid()
      modifies this
      ensures raw.Some? ==> Valid()
      ensures raw.Some? ==> key in cache && cache[key] == raw.value && |raw.value| <= maximum
      ensures raw.Some? ==> cache == old(cache)[key := raw.value]
      ensures old(key in cache) ==> cache == old(cache) && (raw.Some? <==> |cache[key]| <= maximum)
      ensures GoodWorld(git, world) && old(cache).Keys <= world.keys && key in world.keys && Limit(key.kind) <= maximum
          ==> raw.Some?
    {
      if GoodWorld(git, world) && cache.Keys <= world.keys && key in world.keys && key !in cache {
        RoomFor(git, cache, key, world);
      }
      if |key.id| != 20 {
        return None;
      }
      if key in cache {
        if |cache[key]| <= maximum {
          assert cache == cache[key := cache[key]];
          return Some(cache[key]);
        }
        return None;
      }
      var fetched := git.store(key);
      if fetched.None? || |fetched.value| > maximum || git.digest(key.kind, fetched.value) != key.id {
        return None;
      }
      totalBytes := totalBytes + |fetched.value|;
      if !(|cache| < MAX_REACHABLE_OBJECTS && totalBytes <= MAX_TOTAL_BYTES) {
        return None;
      }
      CacheGrown(git, cache, key, fetched.value);
      cache := cache[key := fetched.value];
      return fetched;
    }

    /** The same call where no world is at hand. */
    method Fetch(key: Key, maximum: nat) returns (raw: Option<string>)
      requires Valid()
      modifies this
      ensures raw.Some? ==> Valid() && Genuine(git, key, raw.value) && |raw.value| <= maximum
      ensures raw.Some? ==> cache == old(cache)[key := raw.value]
      ensures old(key in cache) ==> cache == old(cache) && (raw.Some? <==> |cache[key]| <= maximum)
    {
      raw := Object(key, maximum, World({}, map[]));
    }
  }

  // ---------------------------------------------------------------- the walk

  /** Trees in the order the walk left them: each one's subtrees come before it. */
  ghost predicate Layered(git: Git, finished: seq<string>) {
    forall i :: 0 <= i < |finished| ==> SubtreesIn(git, finished[i], finished[..i])
  }

  ghost predicate SubtreesIn(git: Git, id: string, finished: seq<string>) {
    Entries(git, id).Some? && forall entry :: entry in Entries(git, id).value && entry.0 == TREE ==> entry.1 in finished
  }

  ghost predicate AllSettled(git: Git, cache: map<Key, string>, trees: set<string>, pending: set<string>) {
    forall t :: t in trees && t !in pending ==> Settled(git, t, cache, trees)
  }

  lemma LayeredBy(git: Git, finished: seq<string>, id: string)
    requires Layered(git, finished) && SubtreesIn(git, id, finished)
    ensures Layered(git, finished + [id])
  {
    var all := finished + [id];
    forall i | 0 <= i < |all| ensures SubtreesIn(git, all[i], all[..i]) {
      assert all[..i] == finished[..i];
      if i == |finished| {
        assert finished[..i] == finished;
      }
    }
  }

  /** In a layered order a chain only moves to earlier places. */
  lemma {:induction false} ChainFalls(git: Git, finished: seq<string>, chain: seq<string>, at: nat)
    requires Layered(git, finished) && Chain(git, chain) && at < |finished| && finished[at] == chain[0]
    ensures exists k :: 0 <= k <= at && finished[k] == chain[|chain| - 1] && (|chain| > 1 ==> k < at)
    decreases |chain|
  {
    if |chain| == 1 {
      assert finished[at] == chain[|chain| - 1];
    } else {
      assert SubtreesIn(git, finished[at], finished[..at]);
      assert (TREE, chain[1]) in Entries(git, chain[0]).value;
      var k :| 0 <= k < at && finished[..at][k] == chain[1];
      var rest := chain[1..];
      assert Chain(git, rest) by {
        forall i | 0 <= i < |rest| - 1
          ensures Entries(git, rest[i]).Some? && (TREE, rest[i + 1]) in Entries(git, rest[i]).value
        {
          assert rest[i] == chain[i + 1] && rest[i + 1] == chain[i + 2];
        }
      }
      ChainFalls(git, finished, rest, k);
    }
  }

  /** So no chain from a finished tree comes back to where it started. */
  lemma NoCycle(git: Git, finished: seq<string>, chain: seq<string>)
    requires Layered(git, finished) && Chain(git, chain) && |chain| > 1 && chain[0] in finished
    requires forall i, j :: 0 <= i < j < |finished| ==> finished[i] != finished[j]
    ensures chain[0] != chain[|chain| - 1]
  {
    var at :| 0 <= at < |finished| && finished[at] == chain[0];
    ChainFalls(git, finished, chain, at);
  }

  lemma SettledGrows(git: Git, cache: map<Key, string>, trees: set<string>, pending: set<string>,
                     wider: map<Key, string>, more: set<string>)
    requires AllSettled(git, cache, trees, pending) && cache.Keys <= wider.Keys && trees <= more
    ensures forall t :: t in trees && t !in pending ==> Settled(git, t, wider, more)
  {
    forall t | t in trees && t !in pending ensures Settled(git, t, wider, more) {
      assert Settled(git, t, cache, trees);
      var entries := Entries(git, t).value;
      forall i | 0 <= i < |entries| ensures EntrySettled(entries[i], wider, more) {
        assert EntrySettled(entries[i], cache, trees);
      }
    }
  }

  /** Every visited tree that is not pending is settled, and was finished after its subtrees. */
  ghost predicate SoundWalk(git: Git, cache: map<Key, string>, trees: set<string>, finished: seq<string>,
                            pending: set<string>)
  {
    && pending <= trees && AllSettled(git, cache, trees, pending)
    && (forall t :: t in finished <==> t in trees && t !in pending)
    && (forall i, j :: 0 <= i < j < |finished| ==> finished[i] != finished[j])
    && Layered(git, finished)
  }

  /** The first entries are settled, and none of them is a tree still pending. */
  ghost predicate Visited(entries: seq<(string, string)>, n: nat, cache: map<Key, string>, trees: set<string>,
                          pending: set<string>)
    requires n <= |entries|
  {
    forall k :: 0 <= k < n ==>
      EntrySettled(entries[k], cache, trees) && (entries[k].0 == TREE ==> entries[k].1 !in pending)
  }

  lemma VisitedGrows(entries: seq<(string, string)>, n: nat, cache: map<Key, string>, trees: set<string>,
                     pending: set<string>, wider: map<Key, string>, more: set<string>)
    requires n <= |entries| && Visited(entries, n, cache, trees, pending) && cache.Keys <= wider.Keys && trees <= more
    ensures Visited(entries, n, wider, more, pending)
  {
    forall k | 0 <= k < n ensures EntrySettled(entries[k], wider, more) {
      assert EntrySettled(entries[k], cache, trees);
    }
  }

  /** A tree begins: it becomes pending. */
  lemma Begins(git: Git, cache: map<Key, string>, trees: set<string>, finished: seq<string>, pending: set<string>,
               id: string, wider: map<Key, string>)
    requires SoundWalk(git, cache, trees, finished, pending) && id !in trees && cache.Keys <= wider.Keys
    ensures SoundWalk(git, wider, trees + {id}, finished, pending + {id})
  {
    SettledGrows(git, cache, trees, pending, wider, trees + {id});
  }

  /** A tree ends, its entries all visited: it is settled, and finished after its subtrees. */
  lemma Ends(git: Git, cache: map<Key, string>, trees: set<string>, finished: seq<string>, pending: set<string>,
             id: string, entries: seq<(string, string)>)
    requires SoundWalk(git, cache, trees, finished, pending + {id}) && id !in pending
    requires Visited(entries, |entries|, cache, trees, pending + {id})
    requires Key(Tree, id) in cache && Entries(git, id) == Some(entries)
    ensures SoundWalk(git, cache, trees, finished + [id], pending)
  {
    assert Settled(git, id, cache, trees);
    assert SubtreesIn(git, id, finished) by {
      forall entry | entry in entries && entry.0 == TREE ensures entry.1 in finished {
        var k :| 0 <= k < |entries| && entries[k] == entry;
        assert EntrySettled(entries[k], cache, trees);
      }
    }
    LayeredBy(git, finished, id);
  }

  /** The tree may still be visited inside a good world, at this depth. */
  ghost predicate Welcome(git: Git, cache: map<Key, string>, world: World, id: string, ancestry: set<string>) {
    && GoodWorld(git, world) && cache.Keys <= world.keys
    && Key(Tree, id) in world.keys && id in world.rank
    && (forall a :: a in ancestry ==> a in world.rank && world.rank[id] < world.rank[a])
    && |ancestry| + world.rank[id] < MAX_PATH_COMPONENTS
  }

  /** The tree's entries may be visited, with the tree itself pending. */
  ghost predicate Admitted(git: Git, cache: map<Key, string>, world: World, id: string, pending: set<string>) {
    && GoodWorld(git, world) && cache.Keys <= world.keys && GoodTree(git, world, id)
    && (forall a :: a in pending ==> a in world.rank && world.rank[id] <= world.rank[a])
    && |pending| + world.rank[id] <= MAX_PATH_COMPONENTS
  }

  lemma AdmittedStays(git: Git, cache: map<Key, string>, world: World, id: string, pending: set<string>,
                      wider: map<Key, string>)
    requires Admitted(git, cache, world, id, pending) && wider.Keys <= world.keys
    ensures Admitted(git, wider, world, id, pending)
  {
  }

  lemma WelcomeAdmits(git: Git, cache: map<Key, string>, world: World, id: string, ancestry: set<string>)
    requires Welcome(git, cache, world, id, ancestry)
    ensures id !in ancestry && |ancestry| < MAX_PATH_COMPONENTS && GoodTree(git, world, id)
    ensures Admitted(git, cache, world, id, ancestry + {id})
  {
    assert GoodTree(git, world, Key(Tree, id).id);
    assert |ancestry + {id}| == |ancestry| + 1;
  }

  lemma AdmittedWelcomes(git: Git, cache: map<Key, string>, world: World, id: string, pending: set<string>, i: nat)
    requires Admitted(git, cache, world, id, pending) && i < |Entries(git, id).value|
    ensures var (mode, child) := Entries(git, id).value[i];
            && (mode == TREE ==> Welcome(git, cache, world, child, pending))
            && (mode != TREE && mode != COMMIT ==> Key(Blob, child) in world.keys)
  {
    assert GoodEntry(world, id, Entries(git, id).value[i]);
  }

  class Walk {
    const reader: Reader
    var trees: set<string>
    ghost var finished: seq<string>

    constructor (reader: Reader)
      requires reader.Valid()
      ensures this.reader == reader && trees == {} && finished == [] && Sound({})
    {
      this.reader := reader;
      trees, finished := {}, [];
    }

    ghost predicate Sound(pending: set<string>)
      reads this, reader
    {
      reader.Valid() && SoundWalk(reader.git, reader.cache, trees, finished, pending)
    }

    /** `visit_tree`. */
    method VisitTree(id: string, ancestry: set<string>, ghost world: World) returns (ok: bool)
      requires Sound(ancestry) && |ancestry| <= MAX_PATH_COMPONENTS
      modifies this, reader
      ensures ok ==> Sound(ancestry) && id in trees && id !in ancestry
      ensures ok ==> old(trees) <= trees && old(reader.cache).Keys <= reader.cache.Keys
      ensures Welcome(reader.git, old(reader.cache), world, id, ancestry) ==> ok && reader.cache.Keys <= world.keys
      decreases MAX_PATH_COMPONENTS - |ancestry|, 0
    {
      ghost var welcome := Welcome(reader.git, reader.cache, world, id, ancestry);
      if welcome {
        WelcomeAdmits(reader.git, reader.cache, world, id, ancestry);
      }
      if id in ancestry || |ancestry| >= MAX_PATH_COMPONENTS {
        return false;
      }
      if id in trees {
        return true;
      }
      var entries := Open(id, ancestry, world);
      if entries.None? {
        return false;
      }
      ok := VisitEntries(id, entries.value, ancestry + {id}, world);
      if ok {
        Ends(reader.git, reader.cache, trees, finished, ancestry, id, entries.value);
        finished := finished + [id];
      }
    }

    /** A tree not seen before is marked, fetched and read. */
    method Open(id: string, ancestry: set<string>, ghost world: World) returns (entries: Option<seq<(string, string)>>)
      requires Sound(ancestry) && id !in trees
      modifies this`trees, reader
      ensures entries.Some? ==>
                Sound(ancestry + {id}) && Key(Tree, id) in reader.cache && Entries(reader.git, id) == entries
      ensures entries.Some? ==> trees == old(trees) + {id} && old(reader.cache).Keys <= reader.cache.Keys
      ensures Welcome(reader.git, old(reader.cache), world, id, ancestry)
          ==> entries.Some? && Admitted(reader.git, reader.cache, world, id, ancestry + {id})
    {
      ghost var before, visited := reader.cache, trees;
      trees := trees + {id};
      var raw := reader.Object(Key(Tree, id), MAX_TREE_BYTES, world);
      if raw.None? {
        return None;
      }
      Begins(reader.git, before, visited, finished, ancestry, id, reader.cache);
      assert Entries(reader.git, id) == IntegrityEntries(raw.value);
      entries := IntegrityTreeEntries(raw.value);
      if Welcome(reader.git, before, world, id, ancestry) {
        WelcomeAdmits(reader.git, before, world, id, ancestry);
      }
    }

    /** The loop over one tree's entries, with that tree pending. */
    method VisitEntries(id: string, entries: seq<(string, string)>, pending: set<string>, ghost world: World)
      returns (ok: bool)
      requires Sound(pending) && |pending| <= MAX_PATH_COMPONENTS && Entries(reader.git, id) == Some(entries)
      modifies this, reader
      ensures ok ==> Sound(pending) && Visited(entries, |entries|, reader.cache, trees, pending)
      ensures ok ==> old(trees) <= trees && old(reader.cache).Keys <= reader.cache.Keys
      ensures Admitted(reader.git, old(reader.cache), world, id, pending) ==> ok && reader.cache.Keys <= world.keys
      decreases MAX_PATH_COMPONENTS - |pending|, 3
    {
      ghost var admitted := Admitted(reader.git, reader.cache, world, id, pending);
      var i := 0;
      while i < |entries|
        invariant 0 <= i <= |entries| && Sound(pending) && Visited(entries, i, reader.cache, trees, pending)
        invariant old(trees) <= trees && old(reader.cache).Keys <= reader.cache.Keys
        invariant admitted ==> Admitted(reader.git, reader.cache, world, id, pending)
      {
        var done := VisitNext(id, entries, i, pending, world);
        if !done {
          return false;
        }
        i := i + 1;
      }
      ok := true;
    }

    /** One turn of that loop. */
    method VisitNext(id: string, entries: seq<(string, string)>, i: nat, pending: set<string>, ghost world: World)
      returns (ok: bool)
      requires Sound(pending) && |pending| <= MAX_PATH_COMPONENTS && Entries(reader.git, id) == Some(entries)
      requires i < |entries| && Visited(entries, i, reader.cache, trees, pending)
      modifies this, reader
      ensures ok ==> Sound(pending) && Visited(entries, i + 1, reader.cache, trees, pending)
      ensures ok ==> old(trees) <= trees && old(reader.cache).Keys <= reader.cache.Keys
      ensures Admitted(reader.git, old(reader.cache), world, id, pending) ==>
                ok && Admitted(reader.git, reader.cache, world, id, pending)
      decreases MAX_PATH_COMPONENTS - |pending|, 2
    {
      ghost var admitted := Admitted(reader.git, reader.cache, world, id, pending);
      if admitted {
        AdmittedWelcomes(reader.git, reader.cache, world, id, pending, i);
      }
      ghost var before, visited := reader.cache, trees;
      ok := VisitEntry(entries[i], pending, world);
      if ok {
        VisitedGrows(entries, i, before, visited, pending, reader.cache, trees);
      }
      if admitted {
        AdmittedStays(reader.git, before, world, id, pending, reader.cache);
      }
    }

    /** One entry: a subtree is visited, anything else but a gitlink is fetched as a blob. */
    method VisitEntry(entry: (string, string), pending: set<string>, ghost world: World) returns (ok: bool)
      requires Sound(pending) && |pending| <= MAX_PATH_COMPONENTS
      modifies this, reader
      ensures ok ==>
                Sound(pending) && EntrySettled(entry, reader.cache, trees) && (entry.0 == TREE ==> entry.1 !in pending)
      ensures ok ==> old(trees) <= trees && old(reader.cache).Keys <= reader.cache.Keys
      ensures entry.0 == TREE && Welcome(reader.git, old(reader.cache), world, entry.1, pending)
          ==> ok && reader.cache.Keys <= world.keys
      ensures entry.0 != TREE && GoodWorld(reader.git, world) && old(reader.cache).Keys <= world.keys
              && (entry.0 != COMMIT ==> Key(Blob, entry.1) in world.keys)
          ==> ok && reader.cache.Keys <= world.keys
      decreases MAX_PATH_COMPONENTS - |pending|, 1
    {
      var (mode, child) := entry;
      if mode == TREE {
        ok := VisitTree(child, pending, world);
      } else if mode != COMMIT {
        ghost var before := reader.cache;
        var content := reader.Object(Key(Blob, child), MAX_BLOB_BYTES, world);
        if content.None? {
          return false;
        }
        SettledGrows(reader.git, before, trees, pending, reader.cache, trees);
        ok := true;
      } else {
        ok := true;
      }
    }

    /**
     * `_verify_selected_graph` from the root tree on. On success every tree at the end of any chain
     * from the root, and every blob it names, was fetched and hash-checked, and no chain comes back to
     * the root; and it succeeds whenever the root lies in a good world at rank below the depth bound.
     */
    method Verify(root: string, ghost world: World) returns (ok: bool)
      requires Sound({}) && trees == {}
      modifies this, reader
      ensures ok ==> Sound({}) && root in trees && |trees| < MAX_REACHABLE_OBJECTS
      ensures ok ==> WholeGraph(reader.git, reader.cache, root)
      ensures Welcome(reader.git, old(reader.cache), world, root, {}) && |world.keys| < MAX_REACHABLE_OBJECTS ==> ok
    {
      ok := VisitTree(root, {}, world);
      if ok && Welcome(reader.git, old(reader.cache), world, root, {}) {
        TreesWithin(reader.git, reader.cache, trees, world.keys);
      }
      ok := ok && 0 < |trees| < MAX_REACHABLE_OBJECTS;
      if ok {
        GraphVerified(reader.git, reader.cache, trees, finished, root);
      }
    }
  }

  ghost predicate ChainFine(git: Git, cache: map<Key, string>, chain: seq<string>)
    requires chain != []
  {
    Verified(git, cache, chain[|chain| - 1]) && (|chain| > 1 ==> chain[|chain| - 1] != chain[0])
  }

  /** Whatever the root leads to is verified, and nothing leads back to it. */
  ghost predicate WholeGraph(git: Git, cache: map<Key, string>, root: string) {
    forall chain :: Chain(git, chain) && chain[0] == root ==> ChainFine(git, cache, chain)
  }

  lemma GraphVerified(git: Git, cache: map<Key, string>, trees: set<string>, finished: seq<string>, root: string)
    requires AllGenuine(git, cache) && SoundWalk(git, cache, trees, finished, {}) && root in trees
    ensures WholeGraph(git, cache, root)
  {
    forall chain | Chain(git, chain) && chain[0] == root ensures ChainFine(git, cache, chain) {
      ReachableVerified(git, cache, trees, chain);
      if |chain| > 1 {
        NoCycle(git, finished, chain);
      }
    }
  }

  lemma TreesWithin(git: Git, cache: map<Key, string>, trees: set<string>, keys: set<Key>)
    requires AllSettled(git, cache, trees, {}) && cache.Keys <= keys
    ensures |trees| <= |keys|
  {
    forall t | t in trees ensures Key(Tree, t) in keys {
      assert Settled(git, t, cache, trees);
    }
    Injected(trees, keys);
  }

  lemma {:induction false} Injected(trees: set<string>, keys: set<Key>)
    requires forall t :: t in trees ==> Key(Tree, t) in keys
    ensures |trees| <= |keys|
    decreases |trees|
  {
    if trees != {} {
      var t :| t in trees;
      Injected(trees - {t}, keys - {Key(Tree, t)});
    }
  }
}
