/** Four-level page tables: entries, the walk, and the single steps from which mapping, splitting
    and unmapping are built. A step is judged by what it does to the walk of every virtual address
    in every address space. */
module PageTables {
  import opened Options

  const KB4 := 0x1000
  const MB2 := 0x20_0000
  const GB1 := 0x4000_0000
  const GB512 := 0x80_0000_0000
  const PHYS_LIMIT := 0x10_0000_0000_0000

  /** A page-table entry, field by field; `addr` is what the mask 0x000FFFFFFFFFF000 selects. */
  datatype Pte = Pte(addr: nat, present: bool, write: bool, user: bool, pcd: bool, huge: bool, nx: bool)

  const EMPTY := Pte(0, false, false, false, false, false, false)

  type Table = t: seq<Pte> | |t| == 512 witness seq(512, _ => EMPTY)

  /** The frames that hold page tables. */
  type Tables = map<nat, Table>

  function ZeroTable(): Table { seq(512, _ => EMPTY) }

  /** An intermediate entry as vm_map_page writes it. */
  function Link(t: nat): Pte { Pte(t, true, true, true, false, false, false) }

  /** The bytes that one entry covers at each level. */
  function Span(level: nat): nat {
    if level <= 1 then KB4 else if level == 2 then MB2 else if level == 3 then GB1 else GB512
  }

  function Index(level: nat, v: nat): (i: nat)
    ensures i < 512
  {
    v / Span(level) % 512
  }

  predicate IsLeaf(e: Pte, level: nat) {
    level == 1 || (level <= 3 && e.huge)
  }

  /** What a virtual address resolves to, with the rights that the whole path grants. */
  datatype Access = Access(phys: nat, user: bool, write: bool, nx: bool)

  /** The walk from table `f` of the given level. An entry that points outside the table frames
      resolves to nothing; in a well-formed tree there is no such entry. */
  function WalkFrom(ts: Tables, f: nat, level: nat, v: nat): Option<Access>
    requires 1 <= level <= 4
    decreases level
  {
    if f !in ts then None else
    var e := ts[f][Index(level, v)];
    if !e.present then None
    else if IsLeaf(e, level) then Some(Access(e.addr + v % Span(level), e.user, e.write, e.nx))
    else
      match WalkFrom(ts, e.addr, level - 1, v)
      case None => None
      case Some(a) => Some(Access(a.phys, e.user && a.user, e.write && a.write, e.nx || a.nx))
  }

  function Lookup(ts: Tables, root: nat, v: nat): Option<Access> { WalkFrom(ts, root, 4, v) }

  /** vm_translate: the physical address, with 0 standing for "not present". */
  function Translate(ts: Tables, root: nat, v: nat): nat {
    match Lookup(ts, root, v) case None => 0 case Some(a) => a.phys
  }

  /** Two addresses lie in the same 4 KB page of the 48-bit address space. */
  predicate SamePage(v: nat, w: nat) {
    forall level :: 1 <= level <= 4 ==> Index(level, v) == Index(level, w)
  }

  // ---------------------------------------------------------------------------------------------
  // The tree invariant
  // ---------------------------------------------------------------------------------------------

  /** The place of a table in its tree: its level and the one slot that may point to it. */
  datatype Node = Node(level: nat, parent: nat, slot: nat)

  ghost predicate NoUser(t: Table) {
    forall j :: 0 <= j < 512 ==> !t[j].user
  }

  ghost predicate EntryOk(ts: Tables, own: map<nat, Node>, f: nat, i: nat)
    requires f in ts && f in own && i < 512 && 1 <= own[f].level <= 4
  {
    var e := ts[f][i];
    var level := own[f].level;
    && (!e.present ==> e == EMPTY)
    && e.addr % KB4 == 0 && e.addr < PHYS_LIMIT
    && (e.present && IsLeaf(e, level) ==>
          if level == 1 then !e.huge
          else e.addr % Span(level) == 0 && !e.user && e.write && !e.nx)
    && (e.present && !IsLeaf(e, level) ==>
          && e.write && !e.nx && !e.huge
          && e.addr in ts && e.addr in own && own[e.addr] == Node(level - 1, f, i)
          && (!e.user ==> NoUser(ts[e.addr])))
  }

  /** The table frames form unshared trees: every table is pointed to from at most one slot, one
      level up; a huge page is an aligned supervisor page; and a user leaf can only hang below
      entries that are user all the way up. */
  ghost predicate TreeOk(ts: Tables, own: map<nat, Node>) {
    && ts.Keys == own.Keys
    && (forall f :: f in ts ==> 1 <= own[f].level <= 4)
    && (forall f, i :: f in ts && 0 <= i < 512 ==> EntryOk(ts, own, f, i))
  }

  predicate IsRoot(own: map<nat, Node>, r: nat) { r in own && own[r].level == 4 }

  /** Every address of every address space resolves as before. */
  ghost predicate SameLookups(ts: Tables, ts': Tables, own: map<nat, Node>) {
    forall r: nat, v: nat :: IsRoot(own, r) ==> Lookup(ts', r, v) == Lookup(ts, r, v)
  }

  function SetEntry(ts: Tables, f: nat, i: nat, e: Pte): Tables
    requires f in ts && i < 512
  {
    ts[f := ts[f][i := e]]
  }

  // ---------------------------------------------------------------------------------------------
  // Framing: a change to one table that leaves the walks from that table alone is invisible
  // ---------------------------------------------------------------------------------------------

  lemma {:induction false} WalkUnchanged(ts: Tables, ts': Tables, own: map<nat, Node>, f: nat, g: nat, v: nat)
    requires TreeOk(ts, own) && f in ts && g in ts && f in ts'
    requires forall h :: h in ts && h != f ==> h in ts' && ts'[h] == ts[h]
    requires own[g].level >= own[f].level ==>
               WalkFrom(ts', f, own[f].level, v) == WalkFrom(ts, f, own[f].level, v)
    ensures WalkFrom(ts', g, own[g].level, v) == WalkFrom(ts, g, own[g].level, v)
    decreases own[g].level
  {
    if g != f {
      assert EntryOk(ts, own, g, Index(own[g].level, v));
      var e := ts[g][Index(own[g].level, v)];
      if e.present && !IsLeaf(e, own[g].level) {
        WalkUnchanged(ts, ts', own, f, e.addr, v);
      }
    }
  }

  lemma WalksAgree(ts: Tables, ts': Tables, own: map<nat, Node>, f: nat)
    requires TreeOk(ts, own) && f in ts && f in ts'
    requires forall h :: h in ts && h != f ==> h in ts' && ts'[h] == ts[h]
    requires forall v: nat :: WalkFrom(ts', f, own[f].level, v) == WalkFrom(ts, f, own[f].level, v)
    ensures SameLookups(ts, ts', own)
  {
    forall r: nat, v: nat | IsRoot(own, r) ensures Lookup(ts', r, v) == Lookup(ts, r, v) {
      WalkUnchanged(ts, ts', own, f, r, v);
    }
  }

  // ---------------------------------------------------------------------------------------------
  // Step 1: open an intermediate entry to user access
  // ---------------------------------------------------------------------------------------------

  lemma OpenEntry(ts: Tables, own: map<nat, Node>, f: nat, i: nat)
    requires TreeOk(ts, own) && f in ts && i < 512
    requires ts[f][i].present && !IsLeaf(ts[f][i], own[f].level)
    requires own[f].level == 4 || ParentOpen(ts, own, f)
    ensures var ts' := SetEntry(ts, f, i, ts[f][i].(user := true));
            TreeOk(ts', own) && SameLookups(ts, ts', own)
  {
    var e := ts[f][i];
    var level := own[f].level;
    var ts' := SetEntry(ts, f, i, e.(user := true));
    assert EntryOk(ts, own, f, i);
    forall v: nat ensures WalkFrom(ts', f, level, v) == WalkFrom(ts, f, level, v) {
      var c := ts[f][Index(level, v)];
      assert EntryOk(ts, own, f, Index(level, v));
      if c.present && !IsLeaf(c, level) {
        WalkUnchanged(ts, ts', own, f, c.addr, v);
        assert !c.user ==> !ts[c.addr][Index(level - 1, v)].user;
      }
    }
    WalksAgree(ts, ts', own, f);
    forall g, j | g in ts' && 0 <= j < 512 ensures EntryOk(ts', own, g, j) {
      assert EntryOk(ts, own, g, j);
    }
  }

  /** The slot that points to `f`, if any, is user. */
  ghost predicate ParentOpen(ts: Tables, own: map<nat, Node>, f: nat)
    requires f in own
  {
    var n := own[f];
    n.slot < 512 && n.parent in ts && ts[n.parent][n.slot].user
  }

  // ---------------------------------------------------------------------------------------------
  // Step 2: hang a fresh table into a slot
  // ---------------------------------------------------------------------------------------------

  function AddTable(ts: Tables, f: nat, i: nat, t: nat, content: Table): Tables
    requires f in ts && i < 512
  {
    SetEntry(ts[t := content], f, i, Link(t))
  }

  function AddNode(own: map<nat, Node>, f: nat, i: nat, t: nat): map<nat, Node>
    requires f in own && own[f].level >= 1
  {
    own[t := Node(own[f].level - 1, f, i)]
  }

  /** A fresh table frame may be hung into a slot whose parent is open. */
  lemma HangTableTree(ts: Tables, own: map<nat, Node>, f: nat, i: nat, t: nat, content: Table)
    requires TreeOk(ts, own) && f in ts && i < 512 && own[f].level > 1
    requires t !in ts && t % KB4 == 0 && t < PHYS_LIMIT
    requires own[f].level == 4 || ParentOpen(ts, own, f)
    requires forall j :: 0 <= j < 512 ==>
               EntryOk(AddTable(ts, f, i, t, content), AddNode(own, f, i, t), t, j)
    ensures TreeOk(AddTable(ts, f, i, t, content), AddNode(own, f, i, t))
  {
    var ts' := AddTable(ts, f, i, t, content);
    var own' := AddNode(own, f, i, t);
    forall g, j | g in ts' && 0 <= j < 512 ensures EntryOk(ts', own', g, j) {
      if g != t {
        HangTableEntry(ts, own, f, i, t, content, g, j);
      }
    }
  }

  lemma HangTableEntry(ts: Tables, own: map<nat, Node>, f: nat, i: nat, t: nat, content: Table, g: nat, j: nat)
    requires TreeOk(ts, own) && f in ts && i < 512 && own[f].level > 1
    requires t !in ts && t % KB4 == 0 && t < PHYS_LIMIT
    requires own[f].level == 4 || ParentOpen(ts, own, f)
    requires g in ts && j < 512
    ensures EntryOk(AddTable(ts, f, i, t, content), AddNode(own, f, i, t), g, j)
  {
    assert EntryOk(ts, own, g, j);
    var e := ts[g][j];
    if (g != f || j != i) && e.present && !IsLeaf(e, own[g].level) && e.addr == f {
      assert e.user;
    }
  }

  /** If the slot resolves as before, nothing else notices. */
  lemma HangTableWalks(ts: Tables, own: map<nat, Node>, f: nat, i: nat, t: nat, content: Table)
    requires TreeOk(ts, own) && f in ts && i < 512 && own[f].level > 1 && t !in ts
    requires forall v: nat :: Index(own[f].level, v) == i ==>
               WalkFrom(AddTable(ts, f, i, t, content), f, own[f].level, v) == WalkFrom(ts, f, own[f].level, v)
    ensures SameLookups(ts, AddTable(ts, f, i, t, content), own)
  {
    var ts' := AddTable(ts, f, i, t, content);
    forall v: nat ensures WalkFrom(ts', f, own[f].level, v) == WalkFrom(ts, f, own[f].level, v) {
      if Index(own[f].level, v) != i {
        OtherSlot(ts, ts', own, f, i, v);
      }
    }
    WalksAgree(ts, ts', own, f);
  }

  /** A change of slot `i` of table `f` is invisible through every other slot of `f`. */
  lemma OtherSlot(ts: Tables, ts': Tables, own: map<nat, Node>, f: nat, i: nat, v: nat)
    requires TreeOk(ts, own) && f in ts && f in ts'
    requires forall h :: h in ts && h != f ==> h in ts' && ts'[h] == ts[h]
    requires forall j :: 0 <= j < 512 && j != i ==> ts'[f][j] == ts[f][j]
    requires Index(own[f].level, v) != i
    ensures WalkFrom(ts', f, own[f].level, v) == WalkFrom(ts, f, own[f].level, v)
  {
    var k := Index(own[f].level, v);
    assert EntryOk(ts, own, f, k);
    if ts[f][k].present && !IsLeaf(ts[f][k], own[f].level) {
      WalkUnchanged(ts, ts', own, f, ts[f][k].addr, v);
    }
  }

  lemma HangEmptyTable(ts: Tables, own: map<nat, Node>, f: nat, i: nat, t: nat)
    requires TreeOk(ts, own) && f in ts && i < 512 && own[f].level > 1
    requires t !in ts && t % KB4 == 0 && t < PHYS_LIMIT
    requires !ts[f][i].present
    requires own[f].level == 4 || ParentOpen(ts, own, f)
    ensures TreeOk(AddTable(ts, f, i, t, ZeroTable()), AddNode(own, f, i, t))
    ensures SameLookups(ts, AddTable(ts, f, i, t, ZeroTable()), own)
  {
    HangTableTree(ts, own, f, i, t, ZeroTable());
    HangTableWalks(ts, own, f, i, t, ZeroTable());
  }

  // ---------------------------------------------------------------------------------------------
  // Step 3: split a huge page
  // ---------------------------------------------------------------------------------------------

  /** The 512 next-level pages that cover a huge page; `level` is the level of the new table. */
  function SplitTable(base: nat, level: nat): Table {
    seq(512, j requires 0 <= j < 512 => SplitEntry(base, level, j))
  }

  function SplitEntry(base: nat, level: nat, j: nat): Pte {
    Pte(base + j * Span(level), true, true, false, false, level > 1, false)
  }

  lemma SpanSplit(level: nat, v: nat)
    requires level == 2 || level == 3
    ensures v % Span(level) == Index(level - 1, v) * Span(level - 1) + v % Span(level - 1)
  {
    if level == 2 {
      SpanSplit2(v);
    } else {
      SpanSplit3(v);
    }
  }

  lemma SpanSplit2(v: nat)
    ensures v % MB2 == v / KB4 % 512 * KB4 + v % KB4
  {
  }

  lemma SpanSplit3(v: nat)
    ensures v % GB1 == v / MB2 % 512 * MB2 + v % MB2
  {
  }

  lemma SplitAligned(base: nat, level: nat, j: nat)
    requires level == 1 || level == 2
    requires base % Span(level + 1) == 0 && base < PHYS_LIMIT && j < 512
    ensures (base + j * Span(level)) % Span(level) == 0
    ensures (base + j * Span(level)) % KB4 == 0
    ensures base + j * Span(level) < PHYS_LIMIT
  {
    if level == 1 {
      SplitAligned1(base / MB2, j);
    } else {
      SplitAligned2(base / GB1, j);
    }
  }

  lemma SplitAligned1(k: nat, j: nat)
    requires k * MB2 < PHYS_LIMIT && j < 512
    ensures (k * MB2 + j * KB4) % KB4 == 0 && k * MB2 + j * KB4 < PHYS_LIMIT
  {
    var m := k * 512 + j;
    assert k * MB2 + j * KB4 == m * 0x1000;
    MultipleOf4K(m);
    assert k < 0x8000_0000;
  }

  lemma SplitAligned2(k: nat, j: nat)
    requires k * GB1 < PHYS_LIMIT && j < 512
    ensures (k * GB1 + j * MB2) % MB2 == 0 && (k * GB1 + j * MB2) % KB4 == 0 && k * GB1 + j * MB2 < PHYS_LIMIT
  {
    var m := k * 512 + j;
    assert k * GB1 + j * MB2 == m * 0x20_0000;
    MultipleOf2M(m);
    assert m * 0x20_0000 == (m * 512) * 0x1000;
    MultipleOf4K(m * 512);
    assert k < 0x40_0000;
  }

  lemma MultipleOf4K(m: nat)
    ensures m * 0x1000 % 0x1000 == 0
  {
  }

  lemma MultipleOf2M(m: nat)
    ensures m * 0x20_0000 % 0x20_0000 == 0
  {
  }

  lemma SplitHugePage(ts: Tables, own: map<nat, Node>, f: nat, i: nat, t: nat)
    requires TreeOk(ts, own) && f in ts && i < 512 && 2 <= own[f].level <= 3
    requires t !in ts && t % KB4 == 0 && t < PHYS_LIMIT
    requires ts[f][i].huge
    requires ParentOpen(ts, own, f)
    ensures TreeOk(AddTable(ts, f, i, t, SplitTable(ts[f][i].addr, own[f].level - 1)), AddNode(own, f, i, t))
    ensures SameLookups(ts, AddTable(ts, f, i, t, SplitTable(ts[f][i].addr, own[f].level - 1)), own)
  {
    var e := ts[f][i];
    var level := own[f].level;
    var content := SplitTable(e.addr, level - 1);
    var ts' := AddTable(ts, f, i, t, content);
    var own' := AddNode(own, f, i, t);
    assert EntryOk(ts, own, f, i);
    forall j | 0 <= j < 512 ensures EntryOk(ts', own', t, j) {
      SplitAligned(e.addr, level - 1, j);
    }
    forall v: nat | Index(level, v) == i
      ensures WalkFrom(ts', f, level, v) == WalkFrom(ts, f, level, v)
    {
      SpanSplit(level, v);
      assert ts'[f][i] == Link(t) && t in ts' && ts'[t] == content;
      assert WalkFrom(ts', t, level - 1, v)
          == Some(Access(e.addr + Index(level - 1, v) * Span(level - 1) + v % Span(level - 1), false, true, false));
    }
    HangTableTree(ts, own, f, i, t, content);
    HangTableWalks(ts, own, f, i, t, content);
  }

  // ---------------------------------------------------------------------------------------------
  // Step 4: write a 4 KB leaf
  // ---------------------------------------------------------------------------------------------

  /** `r`, `t3`, `t2` and `t1` are the four tables on the path of `v`. */
  ghost predicate OnPath(ts: Tables, own: map<nat, Node>, r: nat, t3: nat, t2: nat, t1: nat, v: nat) {
    && r in ts && IsRoot(own, r) && t3 in ts && t2 in ts && t1 in ts
    && Points(ts, own, r, 4, v, t3)
    && Points(ts, own, t3, 3, v, t2)
    && Points(ts, own, t2, 2, v, t1)
  }

  ghost predicate Points(ts: Tables, own: map<nat, Node>, f: nat, level: nat, v: nat, c: nat)
    requires f in ts
  {
    && f in own && own[f].level == level
    && ts[f][Index(level, v)].present && !IsLeaf(ts[f][Index(level, v)], level)
    && ts[f][Index(level, v)].addr == c
  }

  /** What the leaf `e`, reached by `v` below open intermediate entries, resolves to. */
  function LeafAccess(e: Pte, v: nat): Option<Access> {
    if e.present then Some(Access(e.addr + v % KB4, e.user, e.write, e.nx)) else None
  }

  ghost predicate PathOpen(ts: Tables, r: nat, t3: nat, t2: nat, v: nat)
    requires r in ts && t3 in ts && t2 in ts
  {
    ts[r][Index(4, v)].user && ts[t3][Index(3, v)].user && ts[t2][Index(2, v)].user
  }

  /** The page of `v` now resolves through the leaf `e`; every other address, in this and in every
      other address space, resolves as before. */
  ghost predicate LeafWritten(ts: Tables, ts': Tables, own: map<nat, Node>, r: nat, v: nat, e: Pte) {
    forall r': nat, w: nat {:trigger Lookup(ts', r', w)} :: IsRoot(own, r') ==>
      Lookup(ts', r', w) == (if r' == r && SamePage(v, w) then LeafAccess(e, w) else Lookup(ts, r', w))
  }

  /** Writing the leaf of `v` changes what the page of `v` resolves to in this address space, and
      nothing else anywhere. */
  lemma WriteLeaf(ts: Tables, own: map<nat, Node>, r: nat, t3: nat, t2: nat, t1: nat, v: nat, e: Pte)
    requires TreeOk(ts, own) && OnPath(ts, own, r, t3, t2, t1, v)
    requires e.addr % KB4 == 0 && e.addr < PHYS_LIMIT && !e.huge && (!e.present ==> e == EMPTY)
    requires e.user ==> PathOpen(ts, r, t3, t2, v)
    ensures TreeOk(SetEntry(ts, t1, Index(1, v), e), own)
    ensures LeafWritten(ts, SetEntry(ts, t1, Index(1, v), e), own, r, v, e)
  {
    var ts' := SetEntry(ts, t1, Index(1, v), e);
    assert EntryOk(ts, own, r, Index(4, v)) && EntryOk(ts, own, t3, Index(3, v)) && EntryOk(ts, own, t2, Index(2, v));
    forall g, j | g in ts' && 0 <= j < 512 ensures EntryOk(ts', own, g, j) {
      assert EntryOk(ts, own, g, j);
    }
    forall r': nat, w: nat | IsRoot(own, r')
      ensures Lookup(ts', r', w) == if r' == r && SamePage(v, w) then LeafAccess(e, w) else Lookup(ts, r', w)
    {
      WriteLeafAt(ts, own, r, t3, t2, t1, v, e, r', w);
    }
  }

  lemma WriteLeafAt(ts: Tables, own: map<nat, Node>, r: nat, t3: nat, t2: nat, t1: nat, v: nat, e: Pte, r': nat, w: nat)
    requires TreeOk(ts, own) && OnPath(ts, own, r, t3, t2, t1, v)
    requires e.user ==> PathOpen(ts, r, t3, t2, v)
    requires IsRoot(own, r')
    ensures Lookup(SetEntry(ts, t1, Index(1, v), e), r', w)
         == if r' == r && SamePage(v, w) then LeafAccess(e, w) else Lookup(ts, r', w)
  {
    var ts' := SetEntry(ts, t1, Index(1, v), e);
    assert EntryOk(ts, own, r, Index(4, v)) && EntryOk(ts, own, t3, Index(3, v)) && EntryOk(ts, own, t2, Index(2, v));
    if r' == r && SamePage(v, w) {
      assert Index(4, w) == Index(4, v) && Index(3, w) == Index(3, v) && Index(2, w) == Index(2, v) && Index(1, w) == Index(1, v);
      assert WalkFrom(ts', t1, 1, w) == if e.present then Some(Access(e.addr + w % KB4, e.user, e.write, e.nx)) else None;
      assert WalkFrom(ts', t2, 2, w) == if e.present then Some(Access(e.addr + w % KB4, e.user, e.write, e.nx)) else None;
    } else {
      LeafOffPath(ts, own, r, t3, t2, t1, v, e, r', w);
    }
  }

  lemma LeafOffPath(ts: Tables, own: map<nat, Node>, r: nat, t3: nat, t2: nat, t1: nat, v: nat, e: Pte, r': nat, w: nat)
    requires TreeOk(ts, own) && OnPath(ts, own, r, t3, t2, t1, v)
    requires IsRoot(own, r') && !(r' == r && SamePage(v, w))
    ensures Lookup(SetEntry(ts, t1, Index(1, v), e), r', w) == Lookup(ts, r', w)
  {
    var ts' := SetEntry(ts, t1, Index(1, v), e);
    assert EntryOk(ts, own, r, Index(4, v)) && EntryOk(ts, own, t3, Index(3, v)) && EntryOk(ts, own, t2, Index(2, v));
    assert EntryOk(ts, own, r', Index(4, w));
    var e4 := ts[r'][Index(4, w)];
    if e4.present {
      var u3 := e4.addr;
      assert EntryOk(ts, own, u3, Index(3, w));
      var e3 := ts[u3][Index(3, w)];
      if e3.present && !e3.huge {
        var u2 := e3.addr;
        assert EntryOk(ts, own, u2, Index(2, w));
        var e2 := ts[u2][Index(2, w)];
        if e2.present && !e2.huge {
          var u1 := e2.addr;
          if u1 == t1 {
            assert own[t1] == Node(1, u2, Index(2, w)) == Node(1, t2, Index(2, v));
            assert own[t2] == Node(2, u3, Index(3, w)) == Node(2, t3, Index(3, v));
            assert own[t3] == Node(3, r', Index(4, w)) == Node(3, r, Index(4, v));
            assert Index(1, v) != Index(1, w);
          }
          assert WalkFrom(ts', u1, 1, w) == WalkFrom(ts, u1, 1, w);
          assert WalkFrom(ts', u2, 2, w) == WalkFrom(ts, u2, 2, w);
        }
        assert WalkFrom(ts', u2, 2, w) == WalkFrom(ts, u2, 2, w);
        assert WalkFrom(ts', u3, 3, w) == WalkFrom(ts, u3, 3, w);
      }
    }
  }

  // ---------------------------------------------------------------------------------------------
  // A new address space
  // ---------------------------------------------------------------------------------------------

  lemma {:induction false} WalkExtended(ts: Tables, ts': Tables, own: map<nat, Node>, g: nat, v: nat)
    requires TreeOk(ts, own) && g in ts
    requires forall h :: h in ts ==> h in ts' && ts'[h] == ts[h]
    ensures WalkFrom(ts', g, own[g].level, v) == WalkFrom(ts, g, own[g].level, v)
    decreases own[g].level
  {
    var i := Index(own[g].level, v);
    assert EntryOk(ts, own, g, i);
    if ts[g][i].present && !IsLeaf(ts[g][i], own[g].level) {
      WalkExtended(ts, ts', own, ts[g][i].addr, v);
    }
  }

  /** A supervisor 1 GB identity page. */
  function IdentityGB(base: nat, pcd: bool): Pte { Pte(base, true, true, false, pcd, true, false) }

  /** vm_create: the kernel identity map, 0..2 GB, and the local APIC, 3..4 GB. */
  function KernelPdpt(): Table {
    ZeroTable()[0 := IdentityGB(0, false)][1 := IdentityGB(GB1, false)][3 := IdentityGB(3 * GB1, true)]
  }

  function KernelPml4(pdpt: nat): Table {
    ZeroTable()[0 := Link(pdpt).(user := false)]
  }

  /** What a new address space resolves to, before anything is mapped into it. */
  function KernelAccess(v: nat): Option<Access> {
    var x := v % (512 * GB512);
    if x < 2 * GB1 || 3 * GB1 <= x < 4 * GB1 then Some(Access(x, false, true, false)) else None
  }

  function WithSpace(ts: Tables, p4: nat, p3: nat): Tables { ts[p3 := KernelPdpt()][p4 := KernelPml4(p3)] }

  function WithSpaceNodes(own: map<nat, Node>, p4: nat, p3: nat): map<nat, Node> {
    own[p4 := Node(4, 0, 0)][p3 := Node(3, p4, 0)]
  }

  lemma IndexSplit(v: nat)
    ensures var x := v % (512 * GB512);
            Index(4, v) == x / GB512 && Index(3, v) == x / GB1 % 512 && v % GB1 == x % GB1
  {
    var k := v / (512 * GB512);
    var x := v % (512 * GB512);
    DivByGB512(k, x);
    DivByGB1(k, x);
    ModDrops(k, x / GB512);
    ModDrops(k * 512, x / GB1);
  }

  lemma ModDrops(k: nat, y: nat)
    ensures (k * 512 + y) % 512 == y % 512
  {
  }

  lemma DivByGB512(k: nat, x: nat)
    ensures (k * (512 * GB512) + x) / GB512 == k * 512 + x / GB512
  {
  }

  lemma DivByGB1(k: nat, x: nat)
    ensures (k * (512 * GB512) + x) / GB1 == k * 0x40000 + x / GB1
    ensures (k * (512 * GB512) + x) % GB1 == x % GB1
  {
  }

  lemma KernelLookup(ts: Tables, p4: nat, p3: nat, v: nat)
    requires p4 != p3
    ensures Lookup(WithSpace(ts, p4, p3), p4, v) == KernelAccess(v)
  {
    var ts' := WithSpace(ts, p4, p3);
    IndexSplit(v);
    var e := ts'[p4][Index(4, v)];
    if Index(4, v) == 0 {
      PdptLookup(ts', p3, v);
    }
  }

  lemma PdptLookup(ts: Tables, p3: nat, v: nat)
    requires p3 in ts && ts[p3] == KernelPdpt()
    requires v % (512 * GB512) < GB512
    ensures WalkFrom(ts, p3, 3, v) == KernelAccess(v)
  {
    IndexSplit(v);
    var x := v % (512 * GB512);
    var i := x / GB1;
    assert i < 512 && Index(3, v) == i && x == i * GB1 + v % GB1;
    var e := KernelPdpt()[i];
    if i == 0 || i == 1 || i == 3 {
      assert e.present && e.huge && e.addr == i * GB1;
    } else {
      assert !e.present;
    }
  }

  lemma AddSpace(ts: Tables, own: map<nat, Node>, p4: nat, p3: nat)
    requires TreeOk(ts, own) && p4 !in ts && p3 !in ts && p4 != p3
    requires p3 % KB4 == 0 && p3 < PHYS_LIMIT
    ensures TreeOk(WithSpace(ts, p4, p3), WithSpaceNodes(own, p4, p3))
    ensures SameLookups(ts, WithSpace(ts, p4, p3), own)
    ensures forall v: nat :: Lookup(WithSpace(ts, p4, p3), p4, v) == KernelAccess(v)
  {
    var ts' := WithSpace(ts, p4, p3);
    var own' := WithSpaceNodes(own, p4, p3);
    forall v: nat ensures Lookup(ts', p4, v) == KernelAccess(v) { KernelLookup(ts, p4, p3, v); }
    forall r: nat, v: nat | IsRoot(own, r) ensures Lookup(ts', r, v) == Lookup(ts, r, v) {
      WalkExtended(ts, ts', own, r, v);
    }
    forall g, j | g in ts' && 0 <= j < 512 ensures EntryOk(ts', own', g, j) {
      if g in ts { assert EntryOk(ts, own, g, j); }
    }
  }

  // ---------------------------------------------------------------------------------------------
  // The kernel identity map
  // ---------------------------------------------------------------------------------------------

  /** The kernel reaches every physical address below 2 GB at the same linear address, and user
      code reaches none of it. */
  ghost predicate IdentityMapped(ts: Tables, root: nat) {
    forall v: nat :: v < 2 * GB1 ==> Lookup(ts, root, v) == Some(Access(v, false, true, false))
  }

  /** `v` lies above the identity map in the 48-bit address space. */
  predicate AboveKernel(v: nat) { v % (512 * GB512) >= 2 * GB1 }

  lemma AboveKernelIndex(v: nat)
    requires AboveKernel(v)
    ensures Index(4, v) > 0 || Index(3, v) >= 2
  {
    IndexSplit(v);
    var x := v % (512 * GB512);
    if x < GB512 {
      assert 2 <= x / GB1 < 512;
    }
  }

  lemma LowIndex(w: nat)
    requires w < 2 * GB1
    ensures Index(4, w) == 0 && Index(3, w) < 2
  {
    IndexSplit(w);
  }

  lemma AboveKernelPage(v: nat, w: nat)
    requires v % KB4 == 0 && AboveKernel(v) && w < 2 * GB1
    ensures !SamePage(v, w)
  {
    AboveKernelIndex(v);
    LowIndex(w);
    assert Index(4, v) != Index(4, w) || Index(3, v) != Index(3, w);
  }

  /** Mapping above the identity map leaves it alone, in every address space. */
  lemma MapKeepsIdentity(ts: Tables, ts': Tables, own: map<nat, Node>, root: nat, v: nat, e: Pte, r: nat)
    requires LeafWritten(ts, ts', own, root, v, e) && v % KB4 == 0 && AboveKernel(v)
    requires IsRoot(own, r) && IdentityMapped(ts, r)
    ensures IdentityMapped(ts', r)
  {
    forall w: nat | w < 2 * GB1 ensures Lookup(ts', r, w) == Some(Access(w, false, true, false)) {
      AboveKernelPage(v, w);
      assert Lookup(ts, r, w) == Some(Access(w, false, true, false));
    }
  }

  // ---------------------------------------------------------------------------------------------
  // User pages
  // ---------------------------------------------------------------------------------------------

  /** User code may reach the page of `v`. */
  predicate UserAt(ts: Tables, root: nat, v: nat) {
    match Lookup(ts, root, v) case None => false case Some(a) => a.user
  }

  /** The frame behind a user page. */
  function FrameAt(ts: Tables, root: nat, v: nat): nat
    requires UserAt(ts, root, v)
  {
    Lookup(ts, root, v).value.phys / KB4 * KB4
  }

  /** The table below entry `i` of `f`, if the entry is present and not a huge page. */
  function NextTable(ts: Tables, f: nat, i: nat): Option<nat>
    requires f in ts && i < 512
  {
    var e := ts[f][i];
    if e.present && !e.huge && e.addr in ts then Some(e.addr) else None
  }

  /** The last-level table on the path of `v`, unless the path is absent or ends in a huge page. */
  function LeafTable(ts: Tables, root: nat, v: nat): Option<nat>
    requires root in ts
  {
    match NextTable(ts, root, Index(4, v)) case None => None case Some(t3) =>
    match NextTable(ts, t3, Index(3, v)) case None => None case Some(t2) =>
    NextTable(ts, t2, Index(2, v))
  }

  ghost predicate LeafPath(ts: Tables, own: map<nat, Node>, root: nat, v: nat, t1: nat) {
    exists t3, t2 :: OnPath(ts, own, root, t3, t2, t1, v)
                     && (ts[t1][Index(1, v)].user ==> PathOpen(ts, root, t3, t2, v))
  }

  /** A user page is exactly a user leaf below a last-level table. */
  lemma UserPages(ts: Tables, own: map<nat, Node>, root: nat, v: nat)
    requires TreeOk(ts, own) && IsRoot(own, root)
    ensures LeafTable(ts, root, v) == None ==> !UserAt(ts, root, v)
    ensures LeafTable(ts, root, v).Some? ==>
              var t1 := LeafTable(ts, root, v).value;
              && t1 in ts && LeafPath(ts, own, root, v, t1)
              && UserAt(ts, root, v) == ts[t1][Index(1, v)].user
              && (ts[t1][Index(1, v)].user ==>
                    && ts[t1][Index(1, v)].present && FrameAt(ts, root, v) == ts[t1][Index(1, v)].addr
                    && Lookup(ts, root, v) == LeafAccess(ts[t1][Index(1, v)], v))
  {
    assert EntryOk(ts, own, root, Index(4, v));
    var e4 := ts[root][Index(4, v)];
    if e4.present {
      var t3 := e4.addr;
      assert EntryOk(ts, own, t3, Index(3, v));
      var e3 := ts[t3][Index(3, v)];
      if e3.present && !e3.huge {
        var t2 := e3.addr;
        assert EntryOk(ts, own, t2, Index(2, v));
        var e2 := ts[t2][Index(2, v)];
        if e2.present && !e2.huge {
          var t1 := e2.addr;
          assert EntryOk(ts, own, t1, Index(1, v));
          var e1 := ts[t1][Index(1, v)];
          assert OnPath(ts, own, root, t3, t2, t1, v);
          assert WalkFrom(ts, t1, 1, v) == LeafAccess(e1, v);
          assert e1.user ==> e2.user && e3.user && e4.user;
          assert e1.user ==> WalkFrom(ts, t2, 2, v) == LeafAccess(e1, v);
        } else {
          assert !UserAt(ts, root, v) by {
            assert WalkFrom(ts, t2, 2, v).Some? ==> !WalkFrom(ts, t2, 2, v).value.user;
            assert WalkFrom(ts, t3, 3, v).Some? ==> !WalkFrom(ts, t3, 3, v).value.user;
          }
        }
      } else {
        assert WalkFrom(ts, t3, 3, v).Some? ==> !WalkFrom(ts, t3, 3, v).value.user;
      }
    }
  }

  /** Addresses of one page resolve alike: same rights, and physical addresses that differ by the
      offset in the page only. Bits 48 and above are ignored. */
  predicate SameButOffset(a: Option<Access>, b: Option<Access>, v: nat, w: nat) {
    match (a, b)
    case (None, None) => true
    case (Some(x), Some(y)) => x.phys - v % KB4 == y.phys - w % KB4 && x.user == y.user && x.write == y.write && x.nx == y.nx
    case _ => false
  }

  lemma {:induction false} WalkSamePage(ts: Tables, f: nat, level: nat, v: nat, w: nat)
    requires 1 <= level <= 4 && SamePage(v, w)
    ensures SameButOffset(WalkFrom(ts, f, level, v), WalkFrom(ts, f, level, w), v, w)
    decreases level
  {
    assert Index(level, v) == Index(level, w);
    if f in ts {
      var e := ts[f][Index(level, v)];
      if e.present && IsLeaf(e, level) {
        SameOffset(level, v, w);
      } else if e.present {
        WalkSamePage(ts, e.addr, level - 1, v, w);
      }
    }
  }

  lemma {:induction false} SameOffset(level: nat, v: nat, w: nat)
    requires 1 <= level <= 3 && SamePage(v, w)
    ensures v % Span(level) - v % KB4 == w % Span(level) - w % KB4
    decreases level
  {
    if level > 1 {
      assert Index(level - 1, v) == Index(level - 1, w);
      SpanSplit(level, v);
      SpanSplit(level, w);
      SameOffset(level - 1, v, w);
    }
  }

  lemma UserSamePage(ts: Tables, own: map<nat, Node>, root: nat, v: nat, w: nat)
    requires TreeOk(ts, own) && IsRoot(own, root) && SamePage(v, w)
    ensures UserAt(ts, root, v) == UserAt(ts, root, w)
    ensures UserAt(ts, root, v) ==> FrameAt(ts, root, v) == FrameAt(ts, root, w)
    ensures UserAt(ts, root, v) ==> Lookup(ts, root, v).value.phys == FrameAt(ts, root, v) + v % KB4
    ensures Lookup(ts, root, v) == None <==> Lookup(ts, root, w) == None
  {
    WalkSamePage(ts, root, 4, v, w);
    UserPages(ts, own, root, v);
    UserPages(ts, own, root, w);
    if UserAt(ts, root, v) {
      UserPhys(ts, own, root, v);
      UserPhys(ts, own, root, w);
    }
  }

  /** A user page is a whole frame. */
  lemma UserPhys(ts: Tables, own: map<nat, Node>, root: nat, v: nat)
    requires TreeOk(ts, own) && IsRoot(own, root) && UserAt(ts, root, v)
    ensures FrameAt(ts, root, v) % KB4 == 0
    ensures Lookup(ts, root, v).value.phys == FrameAt(ts, root, v) + v % KB4
  {
    UserPages(ts, own, root, v);
    assert EntryOk(ts, own, LeafTable(ts, root, v).value, Index(1, v));
  }

  /** A physical address has the page offset of the virtual one. */
  lemma {:induction false} WalkOffset(ts: Tables, own: map<nat, Node>, f: nat, v: nat)
    requires TreeOk(ts, own) && f in ts
    ensures match WalkFrom(ts, f, own[f].level, v) case None => true case Some(a) => a.phys % KB4 == v % KB4
    decreases own[f].level
  {
    var level := own[f].level;
    var e := ts[f][Index(level, v)];
    assert EntryOk(ts, own, f, Index(level, v));
    if e.present && IsLeaf(e, level) {
      OffsetOfSpan(level, e.addr / KB4, v);
    } else if e.present {
      WalkOffset(ts, own, e.addr, v);
    }
  }

  lemma {:induction false} OffsetOfSpan(level: nat, k: nat, v: nat)
    requires 1 <= level <= 3
    ensures (k * KB4 + v % Span(level)) % KB4 == v % KB4
    decreases level
  {
    if level > 1 {
      SpanSplit(level, v);
      OffsetOfSpan(level - 1, 0, v);
      var i := Index(level - 1, v);
      if level == 2 {
        assert k * KB4 + v % MB2 == (k + i) * KB4 + v % KB4;
        OffsetOfSpan(1, k + i, v);
      } else {
        assert k * KB4 + v % GB1 == (k + i * 512) * KB4 + v % MB2;
        OffsetOfSpan(2, k + i * 512, v);
      }
    } else {
      AddMultiple(k, v % KB4);
    }
  }

  lemma AddMultiple(k: nat, r: nat)
    requires r < 0x1000
    ensures (k * 0x1000 + r) % 0x1000 == r
  {
  }

  /** Within a page, physical addresses advance with virtual ones. */
  lemma TranslateWithinPage(ts: Tables, own: map<nat, Node>, root: nat, v: nat, w: nat)
    requires TreeOk(ts, own) && IsRoot(own, root) && SamePage(v, w)
    requires v % KB4 <= w % KB4 && Translate(ts, root, v) != 0
    ensures Translate(ts, root, w) == Translate(ts, root, v) + (w % KB4 - v % KB4)
    ensures Translate(ts, root, v) % KB4 == v % KB4
  {
    hide WalkFrom, EntryOk, SamePage;
    WalkSamePage(ts, root, 4, v, w);
    WalkOffset(ts, own, root, v);
  }

  // ---------------------------------------------------------------------------------------------
  // Runs of pages
  // ---------------------------------------------------------------------------------------------

  function PageAt(v: nat, k: nat): nat { v + k * KB4 }

  /** `w` lies in one of the `n` pages from `v` on. */
  ghost predicate InPages(v: nat, n: nat, w: nat) {
    exists k: nat :: k < n && SamePage(PageAt(v, k), w)
  }

  lemma InPagesStep(v: nat, k: nat, w: nat)
    ensures InPages(v, k + 1, w) <==> InPages(v, k, w) || SamePage(PageAt(v, k), w)
  {
  }

  /** An address that is on no page with an address of the range. */
  ghost predicate OffRange(base: nat, length: nat, w: nat) {
    forall u: nat :: base <= u < base + length ==> !SamePage(u, w)
  }

  lemma OffRun(base: nat, length: nat, n: nat, w: nat)
    requires OffRange(base, length, w) && (n == 0 || (n - 1) * KB4 < length)
    ensures !InPages(base, n, w)
  {
    hide SamePage;
    forall k: nat | k < n ensures !SamePage(PageAt(base, k), w) { }
  }

  const PAGES := 0x10_0000_0000

  lemma PageDigits(v: nat)
    ensures v / KB4 % PAGES == ((Index(4, v) * 512 + Index(3, v)) * 512 + Index(2, v)) * 512 + Index(1, v)
  {
    var p := v / KB4;
    DivKB4(v);
    Digits(p);
  }

  lemma DivKB4(v: nat)
    ensures v / MB2 == v / KB4 / 512
    ensures v / GB1 == v / KB4 / 0x40000
    ensures v / GB512 == v / KB4 / 0x800_0000
  {
  }

  lemma Digits(p: nat)
    ensures p % PAGES == ((p / 0x800_0000 % 512 * 512 + p / 0x40000 % 512) * 512 + p / 512 % 512) * 512 + p % 512
  {
    Digit1(p);
    Digit2(p / 512);
    Digit3(p / 512 / 512);
    assert p / 512 / 512 == p / 0x40000 && p / 0x40000 / 512 == p / 0x800_0000;
  }

  lemma Digit1(p: nat)
    ensures p % PAGES == p / 512 % 0x800_0000 * 512 + p % 512
  {
  }

  lemma Digit2(p: nat)
    ensures p % 0x800_0000 == p / 512 % 0x40000 * 512 + p % 512
  {
  }

  lemma Digit3(p: nat)
    ensures p % 0x40000 == p / 512 % 512 * 512 + p % 512
  {
  }

  lemma SamePageNumber(v: nat, w: nat)
    ensures SamePage(v, w) <==> v / KB4 % PAGES == w / KB4 % PAGES
  {
    hide Index, SamePage;
    PageDigits(v);
    PageDigits(w);
    SamePageIndices(v, w);
    DigitsUnique(Index(4, v), Index(3, v), Index(2, v), Index(1, v), Index(4, w), Index(3, w), Index(2, w), Index(1, w));
  }

  lemma SamePageIndices(v: nat, w: nat)
    ensures SamePage(v, w) <==> Index(4, v) == Index(4, w) && Index(3, v) == Index(3, w)
                                && Index(2, v) == Index(2, w) && Index(1, v) == Index(1, w)
  {
    hide Index;
    if Index(4, v) == Index(4, w) && Index(3, v) == Index(3, w) && Index(2, v) == Index(2, w) && Index(1, v) == Index(1, w) {
      forall level | 1 <= level <= 4 ensures Index(level, v) == Index(level, w) {
        assert level == 1 || level == 2 || level == 3 || level == 4;
      }
    }
  }

  lemma DigitsUnique(a: nat, b: nat, c: nat, d: nat, a': nat, b': nat, c': nat, d': nat)
    requires a < 512 && b < 512 && c < 512 && d < 512 && a' < 512 && b' < 512 && c' < 512 && d' < 512
    ensures ((a * 512 + b) * 512 + c) * 512 + d == ((a' * 512 + b') * 512 + c') * 512 + d'
       <==> a == a' && b == b' && c == c' && d == d'
  {
  }

  /** Fewer than 2^36 consecutive pages are pairwise different. */
  lemma PagesDistinct(v: nat, j: nat, k: nat)
    requires v % KB4 == 0 && j < k < j + PAGES
    ensures !SamePage(PageAt(v, j), PageAt(v, k))
  {
    SamePageNumber(PageAt(v, j), PageAt(v, k));
    var p := v / KB4;
    assert PageAt(v, j) / KB4 == p + j && PageAt(v, k) / KB4 == p + k;
    NotCongruent(p + j, p + k);
  }

  lemma NotCongruent(a: nat, b: nat)
    requires a < b < a + PAGES
    ensures a % PAGES != b % PAGES
  {
  }
}
