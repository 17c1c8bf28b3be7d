/** The dentry cache in front of directory scans: 64 slots, replaced in turn. Creating and removing names
    flushes it; writing and truncating do not, and truncating a directory can leave it stale. */
module Dentries {
  import opened Bytes
  import opened Options
  import opened Ext2Layout
  import opened Ext2Files
  import opened Ext2Writes
  import opened Ext2Volumes
  import opened Ext2Records
  import opened Ext2Directories
  import opened Ext2Names

  const DCACHE_SLOTS := 64
  const DCACHE_NAME_MAX := 31

  datatype Dentry = Dentry(parent: nat, hash: nat, child: nat, name: seq<Byte>, valid: bool)

  /** Names are C strings: what counts is the part before the first NUL. */
  function UpToNul(s: seq<Byte>): (r: seq<Byte>)
    ensures 0 !in r
  {
    if s == [] || s[0] == 0 then [] else [s[0]] + UpToNul(s[1..])
  }

  lemma {:induction false} UpToNulIs(s: seq<Byte>)
    ensures var r := UpToNul(s); r <= s && (|r| < |s| ==> s[|r|] == 0)
  {
    if s != [] && s[0] != 0 { UpToNulIs(s[1..]); }
  }

  // ---------------------------------------------------------------------------------------------
  // What a plain scan gives
  // ---------------------------------------------------------------------------------------------

  /** The inode of the first entry with this name. */
  function ScanFor(es: seq<Dirent>, name: seq<Byte>): Option<nat> {
    if es == [] then None
    else if UpToNul(es[0].name) == name then Some(es[0].ino)
    else ScanFor(es[1..], name)
  }

  /** It is found exactly when some entry has the name, and is the first such entry. */
  lemma {:induction false} ScanIsFirst(es: seq<Dirent>, name: seq<Byte>)
    ensures ScanFor(es, name) == None <==> forall k :: 0 <= k < |es| ==> UpToNul(es[k].name) != name
    ensures forall k :: 0 <= k < |es| && UpToNul(es[k].name) == name && (forall j :: 0 <= j < k ==> UpToNul(es[j].name) != name)
              ==> ScanFor(es, name) == Some(es[k].ino)
  {
    hide UpToNul;
    if es != [] {
      var rest := es[1..];
      ScanIsFirst(rest, name);
      forall k | 0 < k < |es| ensures es[k] == rest[k - 1] { }
    }
  }

  lemma {:induction false} ScanConcat(a: seq<Dirent>, b: seq<Dirent>, name: seq<Byte>)
    ensures ScanFor(a + b, name) == if ScanFor(a, name).Some? then ScanFor(a, name) else ScanFor(b, name)
  {
    if a == [] {
      assert a + b == b;
    } else {
      assert (a + b)[1..] == a[1..] + b;
      ScanConcat(a[1..], b, name);
    }
  }

  /** What ext2_lookup would give without a cache. */
  ghost function PlainLookup(v: Vol, parent: nat, name: seq<Byte>): Option<nat> {
    if name == [] || parent == 0 || !IsDir(v, parent) then None else ScanFor(ListOf(v, parent), name)
  }

  // ---------------------------------------------------------------------------------------------
  // The cache as a value
  // ---------------------------------------------------------------------------------------------

  /** A slot that tells the truth. */
  ghost predicate SlotOk(v: Vol, hash: seq<Byte> -> nat, e: Dentry) {
    e.valid ==> PlainLookup(v, e.parent, e.name) == Some(e.child) && e.hash == hash(e.name)
  }

  ghost predicate CacheOk(v: Vol, hash: seq<Byte> -> nat, slots: seq<Dentry>) {
    |slots| == DCACHE_SLOTS && forall i :: 0 <= i < DCACHE_SLOTS ==> SlotOk(v, hash, slots[i])
  }

  /** dcache_lookup: the first valid slot of this parent, hash and name. */
  function CacheLookup(slots: seq<Dentry>, hash: seq<Byte> -> nat, parent: nat, name: seq<Byte>): Option<nat> {
    if slots == [] then None
    else if Hit(slots[0], hash, parent, name) then Some(slots[0].child)
    else CacheLookup(slots[1..], hash, parent, name)
  }

  predicate Hit(e: Dentry, hash: seq<Byte> -> nat, parent: nat, name: seq<Byte>) {
    e.valid && e.parent == parent && e.hash == hash(name) && e.name == name
  }

  /** A hit is what the scan would give, whatever the hash function. */
  lemma {:induction false} HitIsScan(v: Vol, hash: seq<Byte> -> nat, slots: seq<Dentry>, parent: nat, name: seq<Byte>)
    requires forall i :: 0 <= i < |slots| ==> SlotOk(v, hash, slots[i])
    ensures CacheLookup(slots, hash, parent, name).Some? ==> PlainLookup(v, parent, name) == CacheLookup(slots, hash, parent, name)
  {
    hide PlainLookup;
    if slots != [] {
      assert SlotOk(v, hash, slots[0]);
      HitIsScan(v, hash, slots[1..], parent, name);
    }
  }

  /** A slot filled with the result of a scan keeps the cache truthful, whichever slot is given up. */
  lemma FillSlot(v: Vol, hash: seq<Byte> -> nat, slots: seq<Dentry>, at: nat, parent: nat, name: seq<Byte>, child: nat)
    requires CacheOk(v, hash, slots) && at < DCACHE_SLOTS && PlainLookup(v, parent, name) == Some(child)
    ensures CacheOk(v, hash, slots[at := Dentry(parent, hash(name), child, name, true)])
  {
    hide PlainLookup;
  }

  // ---------------------------------------------------------------------------------------------
  // Every run of lookups and changes
  // ---------------------------------------------------------------------------------------------

  /** A lookup; any change of the volume that begins with a flush (create, mkdir, unlink, rmdir); a write to
      a file and a truncation, which do not flush. */
  datatype Step =
    | Lookup(parent: nat, name: seq<Byte>, at: nat) | Change(to: Vol)
    | Write(written: nat, after: Vol) | Truncate(truncated: nat, left: Vol)

  datatype Cached = Cached(v: Vol, slots: seq<Dentry>)

  function Flushed(slots: seq<Dentry>): (r: seq<Dentry>)
    ensures |r| == |slots| && forall i :: 0 <= i < |slots| ==> !r[i].valid
  {
    seq(|slots|, i requires 0 <= i < |slots| => slots[i].(valid := false))
  }

  /** ext2_lookup through the cache, and the cache afterwards; `at` is the slot it gives up. */
  ghost function CachedLookup(c: Cached, hash: seq<Byte> -> nat, parent: nat, name: seq<Byte>, at: nat): (r: (Option<nat>, Cached))
    requires |c.slots| == DCACHE_SLOTS && at < DCACHE_SLOTS
  {
    if name == [] then (None, c)
    else
      var hit := CacheLookup(c.slots, hash, parent, name);
      if hit.Some? then (hit, c)
      else
        var found := PlainLookup(c.v, parent, name);
        if found.None? || |name| > DCACHE_NAME_MAX then (found, c)
        else (found, c.(slots := c.slots[at := Dentry(parent, hash(name), found.value, name, true)]))
  }

  /** A name that fits a slot and has been found is in the cache from then on: the next lookup is a hit. */
  lemma FoundIsCached(c: Cached, hash: seq<Byte> -> nat, parent: nat, name: seq<Byte>, at: nat)
    requires CacheOk(c.v, hash, c.slots) && at < DCACHE_SLOTS && PlainLookup(c.v, parent, name).Some? && |name| <= 31
    ensures var (r, c') := CachedLookup(c, hash, parent, name, at);
            r == PlainLookup(c.v, parent, name) && CacheLookup(c'.slots, hash, parent, name) == r
  {
    hide SlotOk, ListOf, IsDir, ScanFor;
    HitIsScan(c.v, hash, c.slots, parent, name);
    var (r, c') := CachedLookup(c, hash, parent, name, at);
    if CacheLookup(c.slots, hash, parent, name) == None {
      NoHits(c.slots, hash, parent, name);
      FirstHit(c'.slots, hash, parent, name, at);
    }
  }

  lemma {:induction false} NoHits(slots: seq<Dentry>, hash: seq<Byte> -> nat, parent: nat, name: seq<Byte>)
    requires CacheLookup(slots, hash, parent, name) == None
    ensures forall i :: 0 <= i < |slots| ==> !Hit(slots[i], hash, parent, name)
  {
    if slots != [] { NoHits(slots[1..], hash, parent, name); }
  }

  lemma {:induction false} FirstHit(slots: seq<Dentry>, hash: seq<Byte> -> nat, parent: nat, name: seq<Byte>, k: nat)
    requires k < |slots| && Hit(slots[k], hash, parent, name) && forall i :: 0 <= i < k ==> !Hit(slots[i], hash, parent, name)
    ensures CacheLookup(slots, hash, parent, name) == Some(slots[k].child)
  {
    if k > 0 { FirstHit(slots[1..], hash, parent, name, k - 1); }
  }

  /** All that ext2_write_file promises of the rest of the volume, whether it succeeds or not. */
  ghost predicate FileWritten(v: Vol, v': Vol, ino: nat) {
    || v' == v
    || (&& ino in v.inodes && Readable(v.inodes[ino]) && OthersKept(v, v', ino)
        && ino in v'.inodes && v'.inodes[ino].ftype == v.inodes[ino].ftype)
  }

  ghost predicate StepOk(c: Cached, s: Step) {
    match s
    case Lookup(_, _, at) => at < DCACHE_SLOTS
    case Change(v) => VolOk(v)
    case Write(ino, v) => VolOk(v) && FileWritten(c.v, v, ino)
    case Truncate(ino, v) => VolOk(v) && Truncated(c.v, v, ino)
  }

  ghost function Apply(c: Cached, hash: seq<Byte> -> nat, s: Step): Cached
    requires |c.slots| == DCACHE_SLOTS && StepOk(c, s)
  {
    match s
    case Lookup(p, name, at) => CachedLookup(c, hash, p, name, at).1
    case Change(v) => Cached(v, Flushed(c.slots))
    case Write(_, v) => c.(v := v)
    case Truncate(_, v) => c.(v := v)
  }

  lemma LookupTransparent(c: Cached, hash: seq<Byte> -> nat, parent: nat, name: seq<Byte>, at: nat)
    requires CacheOk(c.v, hash, c.slots) && at < DCACHE_SLOTS
    ensures var (r, c') := CachedLookup(c, hash, parent, name, at);
            r == PlainLookup(c.v, parent, name) && c'.v == c.v && CacheOk(c'.v, hash, c'.slots)
  {
    hide SlotOk;
    HitIsScan(c.v, hash, c.slots, parent, name);
    var found := PlainLookup(c.v, parent, name);
    if found.Some? { FillSlot(c.v, hash, c.slots, at, parent, name, found.value); }
  }

  /** Lookups in a directory that is not touched give the same. */
  lemma OtherLookup(v: Vol, v': Vol, ino: nat, parent: nat, name: seq<Byte>)
    requires VolOk(v) && OthersKept(v, v', ino) && parent != ino && IsDir(v, parent)
    ensures PlainLookup(v', parent, name) == PlainLookup(v, parent, name)
  {
    hide VolOk, OthersKept, IsDir, ListOf;
    OtherDirectory(v, v', ino, parent);
  }

  /** A write leaves the cache truthful: it cannot be to a directory. */
  lemma WriteKeepsCache(c: Cached, hash: seq<Byte> -> nat, ino: nat, v': Vol)
    requires VolOk(c.v) && CacheOk(c.v, hash, c.slots) && FileWritten(c.v, v', ino)
    ensures CacheOk(v', hash, c.slots)
  {
    hide VolOk, OthersKept, ScanFor, DirOk;
    forall i | 0 <= i < DCACHE_SLOTS ensures SlotOk(v', hash, c.slots[i]) {
      var e := c.slots[i];
      assert SlotOk(c.v, hash, e);
      if e.valid && v' != c.v { OtherLookup(c.v, v', ino, e.parent, e.name); }
    }
  }

  /** Truncation touches no other file. */
  lemma TruncatedOthers(v: Vol, v': Vol, ino: nat)
    requires VolOk(v) && Truncated(v, v', ino)
    ensures OthersKept(v, v', ino)
  {
  }

  /** A directory that has been truncated is empty. */
  lemma TruncatedEmpty(v: Vol, v': Vol, ino: nat, name: seq<Byte>)
    requires Truncated(v, v', ino)
    ensures PlainLookup(v', ino, name) == None
  {
    hide ScanFor;
    if IsDir(v', ino) {
      assert ListOf(v', ino) == [];
      ScanNothing(name);
    }
  }

  lemma ScanNothing(name: seq<Byte>)
    ensures ScanFor([], name) == None
  {
  }

  /** A valid slot names an entry of directory `ino`. */
  predicate Caches(slots: seq<Dentry>, ino: nat) { exists i :: 0 <= i < |slots| && slots[i].valid && slots[i].parent == ino }

  /** A truncation leaves the cache truthful exactly when no valid slot names an entry of that file. */
  lemma TruncateKeepsIff(c: Cached, hash: seq<Byte> -> nat, ino: nat, v': Vol)
    requires VolOk(c.v) && CacheOk(c.v, hash, c.slots) && Truncated(c.v, v', ino)
    ensures CacheOk(v', hash, c.slots) <==> !Caches(c.slots, ino)
  {
    hide VolOk, OthersKept, ScanFor, DirOk, Truncated, ListOf;
    TruncatedOthers(c.v, v', ino);
    forall i | 0 <= i < DCACHE_SLOTS ensures SlotOk(v', hash, c.slots[i]) <==> !(c.slots[i].valid && c.slots[i].parent == ino) {
      var e := c.slots[i];
      assert SlotOk(c.v, hash, e);
      if e.valid {
        if e.parent == ino { TruncatedEmpty(c.v, v', ino, e.name); } else { OtherLookup(c.v, v', ino, e.parent, e.name); }
      }
    }
  }

  /** What then goes wrong: a name that was cached is still found in the directory, which is empty. */
  lemma StaleLookup(c: Cached, hash: seq<Byte> -> nat, ino: nat, v': Vol, i: nat, at: nat)
    requires VolOk(c.v) && CacheOk(c.v, hash, c.slots) && Truncated(c.v, v', ino) && at < DCACHE_SLOTS
    requires i < DCACHE_SLOTS && c.slots[i].valid && c.slots[i].parent == ino
    ensures PlainLookup(v', ino, c.slots[i].name) == None
    ensures CachedLookup(c.(v := v'), hash, ino, c.slots[i].name, at).0 == PlainLookup(c.v, ino, c.slots[i].name) == Some(c.slots[i].child)
  {
    hide VolOk, ScanFor, DirOk, Truncated, ListOf;
    var e := c.slots[i];
    assert SlotOk(c.v, hash, e);
    TruncatedEmpty(c.v, v', ino, e.name);
    HitIsScan(c.v, hash, c.slots, ino, e.name);
    SomeHit(c.slots, hash, ino, e.name, i);
  }

  lemma {:induction false} SomeHit(slots: seq<Dentry>, hash: seq<Byte> -> nat, parent: nat, name: seq<Byte>, i: nat)
    requires i < |slots| && Hit(slots[i], hash, parent, name)
    ensures CacheLookup(slots, hash, parent, name).Some?
  {
    if i > 0 { SomeHit(slots[1..], hash, parent, name, i - 1); }
  }

  /** The one step that leaves a cache stale. */
  predicate Stales(c: Cached, s: Step) { s.Truncate? && Caches(c.slots, s.truncated) }

  /** Every step keeps the cache truthful, but for a truncation of a directory with a cached entry, which
      never does. */
  lemma StepKeepsIff(c: Cached, hash: seq<Byte> -> nat, s: Step)
    requires VolOk(c.v) && CacheOk(c.v, hash, c.slots) && StepOk(c, s)
    ensures var c' := Apply(c, hash, s); VolOk(c'.v) && (CacheOk(c'.v, hash, c'.slots) <==> !Stales(c, s))
  {
    hide VolOk, PlainLookup, Truncated, FileWritten, CachedLookup, Caches;
    match s
    case Lookup(p, name, at) => LookupTransparent(c, hash, p, name, at);
    case Change(_) =>
    case Write(ino, v) => WriteKeepsCache(c, hash, ino, v);
    case Truncate(ino, v) => TruncateKeepsIff(c, hash, ino, v);
  }

  /** A run from an empty cache. */
  ghost predicate IsRun(cs: seq<Cached>, hash: seq<Byte> -> nat, steps: seq<Step>) {
    && |cs| == |steps| + 1 && VolOk(cs[0].v)
    && |cs[0].slots| == DCACHE_SLOTS && (forall i :: 0 <= i < DCACHE_SLOTS ==> !cs[0].slots[i].valid)
    && forall k :: 0 <= k < |steps| ==>
         |cs[k].slots| == DCACHE_SLOTS && StepOk(cs[k], steps[k]) && cs[k + 1] == Apply(cs[k], hash, steps[k])
  }

  lemma {:induction false} RunKeepsCache(cs: seq<Cached>, hash: seq<Byte> -> nat, steps: seq<Step>, k: nat)
    requires IsRun(cs, hash, steps) && k < |cs| && forall j :: 0 <= j < k ==> !Stales(cs[j], steps[j])
    ensures VolOk(cs[k].v) && CacheOk(cs[k].v, hash, cs[k].slots)
  {
    hide Apply, PlainLookup, VolOk, StepOk, Stales;
    if k > 0 {
      RunKeepsCache(cs, hash, steps, k - 1);
      StepKeepsIff(cs[k - 1], hash, steps[k - 1]);
    }
  }

  /** The cache is transparent: in every run without such a truncation, for every hash function and every
      choice of slots, each lookup gives what a scan of the directory as it is then would give. */
  lemma Transparent(cs: seq<Cached>, hash: seq<Byte> -> nat, steps: seq<Step>, k: nat)
    requires IsRun(cs, hash, steps) && k < |steps| && steps[k].Lookup? && forall j :: 0 <= j < k ==> !Stales(cs[j], steps[j])
    ensures CachedLookup(cs[k], hash, steps[k].parent, steps[k].name, steps[k].at).0 == PlainLookup(cs[k].v, steps[k].parent, steps[k].name)
  {
    hide CachedLookup, PlainLookup, VolOk, Stales, Apply;
    RunKeepsCache(cs, hash, steps, k);
    LookupTransparent(cs[k], hash, steps[k].parent, steps[k].name, steps[k].at);
  }

  // ---------------------------------------------------------------------------------------------
  // The cache itself
  // ---------------------------------------------------------------------------------------------

  /** The scan of ext2_read_dir with the callback of ext2_lookup, in one block. */
  method ScanBlock(buf: array<Byte>, name: seq<Byte>) returns (r: Option<nat>)
    requires Tiled(buf[..])
    ensures r == ScanFor(Entries(buf[..], 0, BLK), name)
  {
    hide Tiles, Entries, Boundary, Rd16, Rd32;
    ghost var s := buf[..];
    var p := 0;
    StartBoundary(s);
    BoundaryTiles(s, 0);
    NoneBefore(s);
    while p + 8 <= BLK
      invariant 0 <= p <= BLK && Boundary(s, p) && Tiles(s, 0, p) && ScanFor(Entries(s, 0, p), name) == None
      decreases BLK - p
    {
      NextBoundary(s, p);
      RecordFits(s, p);
      BoundaryTiles(s, p);
      var len := RecLen(buf[..], p);
      BoundaryTiles(s, p + len);
      Join(s, 0, p, BLK);
      ScanConcat(Entries(s, 0, p), Here(s, p), name);
      ScanConcat(Entries(s, 0, p), Entries(s, p, BLK), name);
      ScanConcat(Here(s, p), Entries(s, p + len, BLK), name);
      if RecIno(buf[..], p) != 0 {
        var entry := buf[p + 8..p + 8 + buf[p + 6] as int];
        assert entry == s[p + 8..p + 8 + s[p + 6] as int];
        if UpToNul(entry) == name {
          return Some(RecIno(buf[..], p));
        }
      }
      p := p + len;
    }
    AtEnd(s, p);
    return None;
  }

  /** The scan of all blocks. */
  method ScanDir(vol: Volume, dir: nat, name: seq<Byte>) returns (r: Option<nat>)
    requires vol.Valid() && (dir == 0 || dir in vol.inodes)
    requires dir in vol.inodes && vol.inodes[dir].ftype == Directory ==> DirOk(vol.disk, vol.inodes[dir])
    modifies vol.blkbuf, vol.indbuf
    ensures name != [] ==> r == PlainLookup(vol.Now(), dir, name)
  {
    hide VolOk, DirOk, Entries, DataBlock;
    if dir == 0 {
      return None;
    }
    modify vol.blkbuf;
    var n := vol.inodes[dir];
    if n.ftype != Directory {
      return None;
    }
    ghost var v := vol.Now();
    IsDirInode(v, dir);
    for b := 0 to NBlocks(n)
      invariant ScanFor(Listing(v.disk, n, 0, b), name) == None
    {
      TiledBlock(v.disk, n, b);
      var blk := vol.FindDataBlock(n, b);
      if blk == 0 {
        break;
      }
      vol.ReadBlock(blk, vol.blkbuf);
      assert vol.blkbuf[..] == DirBlock(v.disk, n, b);
      r := ScanBlock(vol.blkbuf, name);
      ScanConcat(Listing(v.disk, n, 0, b), Entries(DirBlock(v.disk, n, b), 0, BLK), name);
      if r.Some? {
        ListingSplit(v.disk, n, 0, b + 1, NBlocks(n));
        ScanConcat(Listing(v.disk, n, 0, b + 1), Listing(v.disk, n, b + 1, NBlocks(n)), name);
        return r;
      }
    }
    return None;
  }

  class NameCache {
    const vol: Volume
    const slots: array<Dentry>
    var next: nat
    const hash: seq<Byte> -> nat

    ghost predicate Valid()
      reads this, vol, slots
    {
      vol.Valid() && slots.Length == DCACHE_SLOTS && next < DCACHE_SLOTS && DirsOk(vol.Now()) && CacheOk(vol.Now(), hash, slots[..])
    }

    constructor (vol: Volume, hash: seq<Byte> -> nat)
      requires vol.Valid() && DirsOk(vol.Now())
      ensures Valid() && this.vol == vol && this.hash == hash && fresh(slots)
    {
      this.vol, this.hash, next := vol, hash, 0;
      slots := new Dentry[DCACHE_SLOTS](_ => Dentry(0, 0, 0, [], false));
    }

    /** dcache_flush. */
    method Flush()
      requires slots.Length == DCACHE_SLOTS
      modifies slots
      ensures forall i :: 0 <= i < DCACHE_SLOTS ==> !slots[i].valid
    {
      for i := 0 to DCACHE_SLOTS
        invariant forall j :: 0 <= j < i ==> !slots[j].valid
      {
        slots[i] := slots[i].(valid := false);
      }
    }

    /** dcache_lookup. */
    method Find(parent: nat, name: seq<Byte>) returns (r: Option<nat>)
      ensures r == CacheLookup(slots[..], hash, parent, name)
    {
      var h := hash(name);
      for i := 0 to slots.Length
        invariant CacheLookup(slots[i..], hash, parent, name) == CacheLookup(slots[..], hash, parent, name)
      {
        assert slots[i..][0] == slots[i] && slots[i..][1..] == slots[i + 1..];
        if slots[i].valid && slots[i].parent == parent && slots[i].hash == h && slots[i].name == name {
          return Some(slots[i].child);
        }
      }
      return None;
    }

    /** dcache_insert: the slots are given up in turn, and long names are not cached. */
    method Insert(parent: nat, name: seq<Byte>, child: nat)
      requires slots.Length == DCACHE_SLOTS && next < DCACHE_SLOTS
      modifies this`next, slots
      ensures next < DCACHE_SLOTS
      ensures slots[..] == if |name| > DCACHE_NAME_MAX then old(slots[..])
                           else old(slots[..])[old(next) := Dentry(parent, hash(name), child, name, true)]
    {
      if |name| > DCACHE_NAME_MAX {
        return;
      }
      slots[next] := Dentry(parent, hash(name), child, name, true);
      next := (next + 1) % DCACHE_SLOTS;
    }

    /** ext2_lookup: what it finds is what a plain scan finds. */
    method Lookup(parent: nat, name: seq<Byte>) returns (r: int, child: nat)
      requires Valid() && (parent == 0 || parent in vol.inodes)
      modifies this`next, slots, vol.blkbuf, vol.indbuf
      ensures Valid() && vol.Now() == old(vol.Now())
      ensures PlainLookup(vol.Now(), parent, name) == if r == 0 then Some(child) else None
      ensures r == 0 || r == -1
    {
      hide PlainLookup, SlotOk, VolOk;
      child := 0;
      if name == [] {
        NoEmptyName(vol.Now(), parent);
        return -1, 0;
      }
      var hit := Find(parent, name);
      HitIsScan(vol.Now(), hash, slots[..], parent, name);
      if hit.Some? {
        return 0, hit.value;
      }
      DirsOkAt(vol.Now(), parent);
      var found := ScanDir(vol, parent, name);
      if found.None? {
        return -1, 0;
      }
      FillSlot(vol.Now(), hash, slots[..], next, parent, name, found.value);
      Insert(parent, name, found.value);
      return 0, found.value;
    }

    /** ext2_write_file next to the cache: no flush, and none is needed. */
    method WriteThrough(ino: nat, offset: nat, data: seq<Byte>) returns (r: int)
      requires Valid() && (ino == 0 || ino in vol.inodes) && offset + |data| < U32
      modifies vol, vol.blkbuf, vol.indbuf
      ensures Valid() && FileWritten(old(vol.Now()), vol.Now(), ino)
      ensures r != -1 ==> WriteDone(old(vol.Now()), vol.Now(), ino, offset, data)
    {
      hide PlainLookup, VolOk, DirOk, OthersKept, Listing, WriteDone, CacheOk;
      ghost var v := vol.Now();
      r := vol.WriteFile(ino, offset, data);
      if r != -1 { WriteDoneOthers(v, vol.Now(), ino, offset, data); WrittenInode(v, vol.Now(), ino, offset, data); }
      WriteKeepsCache(Cached(v, slots[..]), hash, ino, vol.Now());
      if vol.Now() != v { DirsStayOk(v, vol.Now(), ino); }
    }

    /** ext2_truncate next to the cache: no flush, so the cache is right afterwards exactly when it had no
        entry of the file. */
    method TruncateThrough(ino: nat) returns (r: int)
      requires Valid() && (ino == 0 || (ino in vol.inodes && NoDouble(vol.inodes[ino])))
      modifies vol, vol.blkbuf, vol.indbuf
      ensures vol.Valid() && DirsOk(vol.Now()) && slots[..] == old(slots[..])
      ensures ino == 0 ==> r == -1 && Valid()
      ensures ino != 0 ==> r == 0 && Truncated(old(vol.Now()), vol.Now(), ino) && (Valid() <==> !old(Caches(slots[..], ino)))
    {
      hide PlainLookup, VolOk, DirOk, OthersKept, Listing, CacheOk, Truncated, Caches;
      ghost var v := vol.Now();
      r := vol.Truncate(ino);
      if ino != 0 {
        TruncateKeepsIff(Cached(v, slots[..]), hash, ino, vol.Now());
        TruncatedDirs(v, vol.Now(), ino);
      }
    }

  }

  /** Every directory of the volume is sound. */
  ghost predicate DirsOk(v: Vol) {
    forall i :: i in v.inodes && v.inodes[i].ftype == Directory ==> DirOk(v.disk, v.inodes[i])
  }

  lemma WrittenInode(v: Vol, v': Vol, ino: nat, offset: nat, data: seq<Byte>)
    requires WriteDone(v, v', ino, offset, data)
    ensures ino in v.inodes && ino in v'.inodes && v'.inodes[ino].ftype == v.inodes[ino].ftype && v'.inodes.Keys == v.inodes.Keys
  {
  }

  /** A truncated directory is a sound, empty directory. */
  lemma TruncatedDirs(v: Vol, v': Vol, ino: nat)
    requires VolOk(v) && DirsOk(v) && Truncated(v, v', ino)
    ensures DirsOk(v')
  {
    hide VolOk, OthersKept, Listing;
    TruncatedOthers(v, v', ino);
    forall i | i in v'.inodes && v'.inodes[i].ftype == Directory ensures DirOk(v'.disk, v'.inodes[i]) {
      if i == ino {
        EmptyDir(v'.disk, v.inodes[ino], v'.inodes[ino]);
      } else {
        DirsOkAt(v, i);
        OtherDirectory(v, v', ino, i);
      }
    }
  }

  lemma EmptyDir(d: Disk, n: Inode, n': Inode)
    requires Emptied(n, n') && n'.ftype == Directory
    ensures DirOk(d, n')
  {
    forall b | 0 <= b ensures DataBlock(d, n', b) == 0 {
      DataBlockCases(d, n', b);
    }
  }

  lemma NoEmptyName(v: Vol, parent: nat)
    ensures PlainLookup(v, parent, []) == None
  {
  }

  lemma DirsOkAt(v: Vol, i: nat)
    requires DirsOk(v)
    ensures i in v.inodes && v.inodes[i].ftype == Directory ==> DirOk(v.disk, v.inodes[i])
  {
  }

  lemma DirsStayOk(v: Vol, v': Vol, dir: nat)
    requires VolOk(v) && DirsOk(v) && OthersKept(v, v', dir) && v'.inodes.Keys == v.inodes.Keys
    requires dir in v.inodes && v.inodes[dir].ftype != Directory ==> v'.inodes[dir].ftype != Directory
    requires IsDir(v, dir) ==> IsDir(v', dir)
    ensures DirsOk(v')
  {
    hide DirOk, VolOk, Listing;
    forall i | i in v'.inodes && v'.inodes[i].ftype == Directory ensures DirOk(v'.disk, v'.inodes[i]) {
      if i != dir {
        assert v'.inodes[i] == v.inodes[i];
        OtherDirectory(v, v', dir, i);
      }
    }
  }

  lemma SameFilesList(v: Vol, v': Vol, ino: nat, j: nat)
    requires VolOk(v) && OthersKept(v, v', ino) && j in v.inodes && DirOk(v.disk, v.inodes[j]) && j != ino
    ensures DirOk(v'.disk, v.inodes[j])
  {
    hide VolOk, DirOk, OthersKept;
    ListedDir(v, j, v.inodes[j]);
    OtherDirectory(v, v', ino, j);
    assert v'.inodes[j] == v.inodes[j] by { KeptInode(v, v', ino, j); }
  }

  lemma KeptInode(v: Vol, v': Vol, ino: nat, j: nat)
    requires OthersKept(v, v', ino) && j in v.inodes && j != ino
    ensures j in v'.inodes && v'.inodes[j] == v.inodes[j]
  {
  }

  /** The directories stay sound when a file is added, if the file itself is sound as a directory. */
  lemma DirsStay(v: Vol, v': Vol, ino: nat, n: Inode)
    requires VolOk(v) && DirsOk(v) && OthersKept(v, v', ino) && v'.inodes == v.inodes[ino := n] && ino !in v.inodes
    requires n.ftype == Directory ==> DirOk(v'.disk, n)
    ensures DirsOk(v')
  {
    hide VolOk, DirOk, OthersKept;
    forall i | i in v'.inodes && v'.inodes[i].ftype == Directory ensures DirOk(v'.disk, v'.inodes[i]) {
      if i != ino {
        DirsOkAt(v, i);
        SameFilesList(v, v', ino, i);
      }
    }
  }
}
