/**
 The gfal file interface on top of the listing cache. The storage is a tree of paths of which some
 listings may fail; besides the cache, the model remembers when each directory was last really
 listed, unless it was written or removed since, and which directories uploads have made since their
 parent was listed.
 */
module GfalInterface {
  import opened Wrappers
  import opened ListingCache

  const MAX_CLIMB := 32

  datatype Storage = Storage(tree: set<Path>, down: set<Path>)

  datatype Ls = Failed | Absent | Names(names: set<string>)

  function ChildNames(tree: set<Path>, d: Path): set<string> {
    set p <- tree | |p| == |d| + 1 && p[..|d|] == d :: p[|d|]
  }

  /** `gfal_ls_checked`: absent only when the storage says so; a listing that keeps failing is an error. */
  function List(s: Storage, d: Path): Ls {
    if d in s.down then Failed
    else if d !in s.tree then Absent
    else Names(ChildNames(s.tree, d))
  }

  datatype Memory = Memory(cache: Cache, lists: map<Path, int>, made: set<Path>)

  const FORGOTTEN := Memory(map[], map[], {})

  function Store(m: Memory, validity: int, now: int, p: Path, there: bool): Memory {
    m.(cache := Put(m.cache, validity, now, p, there, false))
  }

  function StoreListing(m: Memory, validity: int, now: int, d: Path, names: set<string>): Memory {
    Memory(PutListing(m.cache, validity, now, d, names), m.lists[d := now],
           set q <- m.made | |q| < 2 || Parent(q) != d)
  }

  /** Record how far up the absence of `d` reaches; a listing that fails records nothing and stops. */
  function MarkAbsentAncestors(m: Memory, validity: int, now: int, s: Storage, d: Path, climb: nat): Memory
    decreases climb
  {
    if climb == 0 || |d| < 2 then m
    else
      var parent := Parent(d);
      var (cached, cache) := Get(m.cache, now, parent);
      var m1 := m.(cache := cache);
      if cached.Some? then m1
      else match List(s, parent)
        case Failed => m1
        case Absent => MarkAbsentAncestors(Store(m1, validity, now, parent, false), validity, now, s, parent, climb - 1)
        case Names(names) => StoreListing(m1, validity, now, parent, names)
  }

  /** `exists`: the answer, or None when the storage could not be read. */
  function Ask(m: Memory, validity: int, now: int, s: Storage, p: Path): (Option<bool>, Memory)
    requires |p| >= 2
  {
    var (cached, cache) := Get(m.cache, now, p);
    var m1, d := m.(cache := cache), Parent(p);
    if cached.Some? then (cached, m1)
    else if WasListed(cache, now, d) then (Some(false), Store(m1, validity, now, p, false))
    else match List(s, d)
      case Failed => (None, m1)
      case Absent =>
        var m2 := MarkAbsentAncestors(Store(m1, validity, now, d, false), validity, now, s, d, MAX_CLIMB);
        (Some(false), Store(m2, validity, now, p, false))
      case Names(names) =>
        var m2 := StoreListing(m1, validity, now, d, names);
        if p[|p| - 1] in names then (Some(true), m2) else (Some(false), Store(m2, validity, now, p, false))
  }

  /** `listdir`: the names, or None when there is nothing to list or the listing failed. */
  function Browse(m: Memory, validity: int, now: int, s: Storage, d: Path, silent: bool): (Option<set<string>>, Memory) {
    match List(s, d)
    case Failed => (None, m)
    case Names(names) => (Some(names), StoreListing(m, validity, now, d, names))
    case Absent =>
      if silent then (Some({}), MarkAbsentAncestors(Store(m, validity, now, d, false), validity, now, s, d, MAX_CLIMB))
      else (None, m)
  }

  function PathsTo(p: Path): set<Path> { set n: int | 1 <= n <= |p| :: p[..n] }

  /** How far an upload got on the storage, whatever it reported: a failed one may have landed. */
  datatype Reach = Untouched | DirectoriesMade | Landed

  /** The directories an upload of `p` made. */
  function NewDirectories(tree: set<Path>, p: Path, reach: Reach): set<Path>
    requires |p| >= 2
  {
    if reach.Untouched? then {} else PathsTo(Parent(p)) - tree
  }

  /** `filecopy` onto the storage. */
  function Uploaded(m: Memory, validity: int, now: int, tree: set<Path>, p: Path, reach: Reach, ok: bool): Memory
    requires |p| >= 2
  {
    var m0 := Memory(m.cache, m.lists - {p}, m.made + NewDirectories(tree, p, reach));
    var m1 := Store(m0, validity, now, p, false);
    if !ok then m1
    else
      var m2 := Store(m1, validity, now, p, true);
      var (cached, cache) := Get(m2.cache, now, Parent(p));
      var m3 := m2.(cache := cache);
      if cached == Some(false) then Store(m3, validity, now, Parent(p), true) else m3
  }

  /** `remove`: what `gfal_exists` said, and whether the removal it then asked for reported success. */
  function Removed(m: Memory, validity: int, now: int, p: Path, seen: bool, ok: bool): Memory {
    if seen && !ok then m else Store(m.(lists := m.lists - {p}), validity, now, p, false)
  }

  class GfalFileInterface {
    const pathCache: PathCache
    ghost var lists: map<Path, int>
    ghost var made: set<Path>

    ghost function Mem(): Memory reads this, pathCache { Memory(pathCache.cache, lists, made) }

    constructor (validity: int)
      ensures Mem() == FORGOTTEN && pathCache.validity == validity && fresh(pathCache)
    {
      pathCache := new PathCache(validity);
      lists, made := map[], {};
    }

    method Exists(p: Path, s: Storage, now: int) returns (answer: Option<bool>)
      requires |p| >= 2
      modifies this, pathCache
      ensures (answer, Mem()) == Ask(old(Mem()), pathCache.validity, now, s, p)
    {
      var cached := pathCache.Lookup(p, now);
      if cached.Some? { return cached; }
      var d := Parent(p);
      if WasListed(pathCache.cache, now, d) {
        pathCache.Set(p, false, false, now);
        return Some(false);
      }
      var names := Listdir(d, s, true, now);
      if names.None? { return None; }
      if p[|p| - 1] in names.value { return Some(true); }
      pathCache.Set(p, false, false, now);
      return Some(false);
    }

    method Listdir(d: Path, s: Storage, silent: bool, now: int) returns (names: Option<set<string>>)
      modifies this, pathCache
      ensures (names, Mem()) == Browse(old(Mem()), pathCache.validity, now, s, d, silent)
    {
      match List(s, d)
      case Failed => return None;
      case Names(n) => RememberListing(d, n, now); return Some(n);
      case Absent =>
        if !silent { return None; }
        pathCache.Set(d, false, false, now);
        ClimbAbsent(d, s, now);
        return Some({});
    }

    method RememberListing(d: Path, names: set<string>, now: int)
      modifies this, pathCache
      ensures Mem() == StoreListing(old(Mem()), pathCache.validity, now, d, names)
    {
      pathCache.SetExists(d, names, now);
      lists := lists[d := now];
      made := set q <- made | |q| < 2 || Parent(q) != d;
    }

    method ClimbAbsent(d: Path, s: Storage, now: int)
      modifies this, pathCache
      ensures Mem() == MarkAbsentAncestors(old(Mem()), pathCache.validity, now, s, d, MAX_CLIMB)
    {
      var current: Path := d;
      for i := 0 to MAX_CLIMB
        invariant MarkAbsentAncestors(Mem(), pathCache.validity, now, s, current, MAX_CLIMB - i) ==
          MarkAbsentAncestors(old(Mem()), pathCache.validity, now, s, d, MAX_CLIMB)
      {
        if |current| < 2 { break; }
        var parent := Parent(current);
        var cached := pathCache.Lookup(parent, now);
        if cached.Some? { break; }
        match List(s, parent)
        case Failed => break;
        case Absent =>
          pathCache.Set(parent, false, false, now);
          current := parent;
        case Names(names) =>
          RememberListing(parent, names, now);
          break;
      }
    }

    method Filecopy(p: Path, ghost tree: set<Path>, ghost reach: Reach, ok: bool, now: int)
      requires |p| >= 2
      modifies this, pathCache
      ensures Mem() == Uploaded(old(Mem()), pathCache.validity, now, tree, p, reach, ok)
    {
      lists, made := lists - {p}, made + NewDirectories(tree, p, reach);
      pathCache.Set(p, false, false, now);
      if !ok { return; }
      pathCache.Set(p, true, false, now);
      var cached := pathCache.Lookup(Parent(p), now);
      if cached == Some(false) { pathCache.Set(Parent(p), true, false, now); }
    }

    method Remove(p: Path, seen: bool, ok: bool, now: int)
      modifies this, pathCache
      ensures Mem() == Removed(old(Mem()), pathCache.validity, now, p, seen, ok)
    {
      if seen && !ok { return; }
      lists := lists - {p};
      pathCache.Set(p, false, false, now);
    }

    /** `expire_path_caches`. */
    method Forget()
      modifies this, pathCache
      ensures Mem() == FORGOTTEN
    {
      pathCache.Clear();
      lists, made := map[], {};
    }
  }
}
