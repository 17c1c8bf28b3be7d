/** elf_build_user_stack: the initial stack of a user program, laid out downwards from the top of the
    stack region as section 3.4.1 of the System V AMD64 psABI asks for. */
module UserStack {
  import opened Bytes
  import opened PageTables
  import opened AddressSpaces
  import opened UserMemory
  import MemoryMapping

  const USER_STACK_TOP := 0x80_0000_0000
  const MAX_UV_STR := 64

  /** A C string without its terminator. */
  type CString = s: seq<Byte> | 0 !in s witness []

  // ---------------------------------------------------------------------------------------------
  // Bytes and words
  // ---------------------------------------------------------------------------------------------

  /** The word at `a`. */
  ghost function WordAt(m: map<nat, Byte>, a: nat): nat
    requires forall w: nat :: a <= w < a + 8 ==> w in m
  {
    FromLittleEndian(Load(m, a, 8))
  }

  ghost predicate InMap(m: map<nat, Byte>, a: nat, n: nat) {
    forall w: nat :: a <= w < a + n ==> w in m
  }

  /** The words `ws` lie from `a` upwards. */
  ghost predicate WordsAt(m: map<nat, Byte>, a: nat, ws: seq<nat>) {
    InMap(m, a, 8 * |ws|) && forall i :: 0 <= i < |ws| ==> Load(m, a + 8 * i, 8) == LittleEndian(ws[i], 8)
  }

  /** The terminated string `str` lies at `a`. */
  ghost predicate StringAt(m: map<nat, Byte>, a: nat, str: seq<Byte>) {
    InMap(m, a, |str| + 1) && Load(m, a, |str| + 1) == str + [0]
  }

  ghost predicate SameFrom(m: map<nat, Byte>, m': map<nat, Byte>, a: nat) {
    m.Keys == m'.Keys && forall w :: w in m && w >= a ==> m'[w] == m[w]
  }

  lemma StoreBelow(m: map<nat, Byte>, at: nat, bs: seq<Byte>)
    ensures SameFrom(m, Store(m, at, bs), at + |bs|)
  {
  }

  lemma StringKept(m: map<nat, Byte>, m': map<nat, Byte>, a: nat, str: seq<Byte>, b: nat)
    requires StringAt(m, a, str) && SameFrom(m, m', b) && b <= a
    ensures StringAt(m', a, str)
  {
    assert Load(m', a, |str| + 1) == Load(m, a, |str| + 1);
  }

  lemma WordsKept(m: map<nat, Byte>, m': map<nat, Byte>, a: nat, ws: seq<nat>, b: nat)
    requires WordsAt(m, a, ws) && SameFrom(m, m', b) && b <= a
    ensures WordsAt(m', a, ws)
  {
    forall i | 0 <= i < |ws| ensures Load(m', a + 8 * i, 8) == LittleEndian(ws[i], 8) {
      assert Load(m', a + 8 * i, 8) == Load(m, a + 8 * i, 8);
    }
  }

  /** Pushing a word in front of words already there. */
  lemma PushedWord(m: map<nat, Byte>, sp: nat, x: nat, ws: seq<nat>)
    requires sp >= 8 && InMap(m, sp - 8, 8) && WordsAt(m, sp, ws)
    ensures WordsAt(Store(m, sp - 8, LittleEndian(x, 8)), sp - 8, [x] + ws)
  {
    hide LittleEndian, Load, Store;
    var m' := Store(m, sp - 8, LittleEndian(x, 8));
    StoreBelow(m, sp - 8, LittleEndian(x, 8));
    WordsKept(m, m', sp, ws, sp);
    LoadStore(m, sp - 8, LittleEndian(x, 8));
    WordInFront(m', sp - 8, x, ws);
  }

  lemma WordInFront(m: map<nat, Byte>, a: nat, x: nat, ws: seq<nat>)
    requires InMap(m, a, 8) && Load(m, a, 8) == LittleEndian(x, 8) && WordsAt(m, a + 8, ws)
    ensures WordsAt(m, a, [x] + ws)
  {
    hide LittleEndian, Load;
    forall i | 0 <= i < |ws| + 1 ensures InMap(m, a + 8 * i, 8) && Load(m, a + 8 * i, 8) == LittleEndian(([x] + ws)[i], 8) {
      if i > 0 {
        assert a + 8 * i == a + 8 + 8 * (i - 1);
      }
    }
  }

  /** The words read back are the words pushed. */
  lemma WordsRead(m: map<nat, Byte>, a: nat, ws: seq<nat>, i: nat)
    requires WordsAt(m, a, ws) && i < |ws| && ws[i] < W64
    ensures InMap(m, a + 8 * i, 8) && WordAt(m, a + 8 * i) == ws[i]
  {
    assert Power256(8) == W64 by {
      assert Power256(2) == 0x1_0000 && Power256(4) == 0x1_0000_0000;
    }
    LittleEndianRoundTrip(ws[i], 8);
  }

  // ---------------------------------------------------------------------------------------------
  // Pushing
  // ---------------------------------------------------------------------------------------------

  /** The stack region [lo, hi) with absent pages from `guard` up to it. */
  ghost predicate Stack(s: State, root: nat, guard: nat, lo: nat, hi: nat) {
    && Region(s, root, lo, hi) && guard <= lo <= hi
    && forall w: nat :: guard <= w < lo ==> Translate(s.tables, root, w) == 0
  }

  lemma StackBacked(s: State, root: nat, guard: nat, lo: nat, hi: nat, a: nat, n: nat)
    requires Stack(s, root, guard, lo, hi) && guard <= a && a + n <= hi && n > 0
    ensures Backed(s, root, a, n)
    ensures AllPresent(s.tables, root, a, n) <==> a >= lo
  {
    hide WalkFrom, TreeOk, OnData, Apart;
    if a >= lo {
      RegionPresent(s, root, lo, hi, a, n);
    } else {
      assert Translate(s.tables, root, a) == 0;
      forall w: nat | a <= w < a + n && Translate(s.tables, root, w) != 0
        ensures Translate(s.tables, root, w) / KB4 * KB4 in s.data
      {
        TranslateInRegion(s, root, lo, hi, w);
      }
    }
  }

  /** One push of raw bytes: it works exactly while the stack region lasts. */
  method Push(vm: Vm, root: nat, sp: nat, bs: seq<Byte>, ghost guard: nat, ghost lo: nat, ghost hi: nat) returns (ok: bool, sp': nat)
    requires vm.Valid() && Stack(vm.Now(), root, guard, lo, hi)
    requires |bs| > 0 && guard + |bs| <= sp <= hi
    modifies vm`data
    ensures vm.Valid() && sp' == sp - |bs| && (ok <==> sp' >= lo)
    ensures ok ==> Stack(vm.Now(), root, guard, lo, hi)
                   && View(vm.Now(), root, lo, hi) == Store(old(View(vm.Now(), root, lo, hi)), sp', bs)
  {
    hide WalkFrom, TreeOk, OnData, Apart, View, Store, Backed, AllPresent, CopiedUpTo;
    sp' := sp - |bs|;
    StackBacked(vm.Now(), root, guard, lo, hi, sp', |bs|);
    ok := CopyToUser(vm, root, sp', bs, lo, hi);
  }

  /** The addresses at which the strings end up when pushed one after the other. */
  function StringBytes(strs: seq<CString>): nat {
    if strs == [] then 0 else StringBytes(strs[..|strs| - 1]) + |strs[|strs| - 1]| + 1
  }

  /** Each string lies, terminated, at its address, below `top` and not below `bottom`, and the
      strings do not overlap: each ends where the one pushed before it begins. */
  ghost predicate StringsAt(m: map<nat, Byte>, top: nat, addrs: seq<nat>, strs: seq<CString>) {
    && |addrs| == |strs|
    && forall i :: 0 <= i < |strs| ==>
         addrs[i] + StringBytes(strs[..i + 1]) == top && StringAt(m, addrs[i], strs[i])
  }

  lemma StringsKept(m: map<nat, Byte>, m': map<nat, Byte>, top: nat, addrs: seq<nat>, strs: seq<CString>, b: nat)
    requires StringsAt(m, top, addrs, strs) && SameFrom(m, m', b) && b + StringBytes(strs) <= top
    ensures StringsAt(m', top, addrs, strs)
  {
    forall i | 0 <= i < |strs| ensures StringAt(m', addrs[i], strs[i]) {
      StringBytesPrefix(strs, i + 1);
      StringKept(m, m', addrs[i], strs[i], b);
    }
  }

  lemma {:induction false} StringBytesPrefix(strs: seq<CString>, k: nat)
    requires k <= |strs|
    ensures StringBytes(strs[..k]) <= StringBytes(strs)
    decreases |strs|
  {
    if k < |strs| {
      StringBytesPrefix(strs[..|strs| - 1], k);
      assert strs[..|strs| - 1][..k] == strs[..k];
    } else {
      assert strs[..k] == strs;
    }
  }

  /** push_str for each string in turn. */
  method PushStrings(vm: Vm, root: nat, sp: nat, strs: seq<CString>, ghost guard: nat, ghost lo: nat, ghost hi: nat)
    returns (ok: bool, sp': nat, addrs: seq<nat>)
    requires vm.Valid() && Stack(vm.Now(), root, guard, lo, hi)
    requires lo <= sp <= hi && guard + StringBytes(strs) <= sp
    modifies vm`data
    ensures vm.Valid() && (ok <==> sp >= lo + StringBytes(strs))
    ensures ok ==> && sp' == sp - StringBytes(strs)
                   && Stack(vm.Now(), root, guard, lo, hi)
                   && SameFrom(old(View(vm.Now(), root, lo, hi)), View(vm.Now(), root, lo, hi), sp)
                   && StringsAt(View(vm.Now(), root, lo, hi), sp, addrs, strs)
  {
    hide WalkFrom, TreeOk, OnData, Apart, View, Store, Region, Translate, StringAt, StringsAt, StringBytes, SameFrom;
    sp', addrs := sp, [];
    NoStrings(View(vm.Now(), root, lo, hi), sp, strs);
    ghost var m0 := View(vm.Now(), root, lo, hi);
    for i := 0 to |strs|
      invariant vm.Valid() && Stack(vm.Now(), root, guard, lo, hi)
      invariant sp' + StringBytes(strs[..i]) == sp && sp' >= lo
      invariant SameFrom(m0, View(vm.Now(), root, lo, hi), sp)
      invariant StringsAt(View(vm.Now(), root, lo, hi), sp, addrs, strs[..i])
    {
      ghost var m := View(vm.Now(), root, lo, hi);
      ghost var was := sp';
      StringBytesNext(strs, i);
      StringBytesPrefix(strs, i + 1);
      ok, sp' := Push(vm, root, sp', strs[i] + [0], guard, lo, hi);
      if !ok {
        return;
      }
      ghost var m' := View(vm.Now(), root, lo, hi);
      PushedString(vm.Now(), root, lo, hi, m, m', sp', strs[i]);
      StringsKept(m, m', sp, addrs, strs[..i], was);
      SameFromTrans(m0, m, m', sp);
      StringsMore(m', sp, addrs, strs, i, sp');
      addrs := addrs + [sp'];
    }
    assert strs[..|strs|] == strs;
    return true, sp', addrs;
  }

  lemma NoStrings(m: map<nat, Byte>, top: nat, strs: seq<CString>)
    ensures StringsAt(m, top, [], strs[..0]) && StringBytes(strs[..0]) == 0 && SameFrom(m, m, top)
  {
  }

  lemma StringBytesNext(strs: seq<CString>, i: nat)
    requires i < |strs|
    ensures StringBytes(strs[..i + 1]) == StringBytes(strs[..i]) + |strs[i]| + 1
  {
    assert strs[..i + 1][..i] == strs[..i];
  }

  /** One more string below the others. */
  lemma StringsMore(m: map<nat, Byte>, top: nat, addrs: seq<nat>, strs: seq<CString>, i: nat, a: nat)
    requires i < |strs| && StringsAt(m, top, addrs, strs[..i]) && StringAt(m, a, strs[i]) && a + StringBytes(strs[..i + 1]) == top
    ensures StringsAt(m, top, addrs + [a], strs[..i + 1])
  {
    hide StringAt, StringBytes;
    forall k | 0 <= k < i + 1 ensures (addrs + [a])[k] + StringBytes(strs[..i + 1][..k + 1]) == top
      && StringAt(m, (addrs + [a])[k], strs[..i + 1][k]) {
      assert strs[..i + 1][..k + 1] == strs[..k + 1];
      if k < i { assert strs[..i][..k + 1] == strs[..k + 1]; }
    }
  }

  lemma ViewInMap(s: State, root: nat, lo: nat, hi: nat, a: nat, n: nat)
    requires Region(s, root, lo, hi) && lo <= a && a + n <= hi
    ensures InMap(View(s, root, lo, hi), a, n)
  {
    hide WalkFrom, TreeOk;
  }

  lemma StoreKeys(m: map<nat, Byte>, at: nat, bs: seq<Byte>)
    ensures Store(m, at, bs).Keys == m.Keys
  {
  }

  lemma PushedString(s: State, root: nat, lo: nat, hi: nat, m: map<nat, Byte>, m': map<nat, Byte>, at: nat, str: CString)
    requires Region(s, root, lo, hi) && m' == View(s, root, lo, hi) && m' == Store(m, at, str + [0])
    requires lo <= at && at + |str| + 1 <= hi
    ensures StringAt(m', at, str) && SameFrom(m, m', at + |str| + 1)
  {
    hide WalkFrom, TreeOk;
    ViewInMap(s, root, lo, hi, at, |str| + 1);
    StoreKeys(m, at, str + [0]);
    StoreBelow(m, at, str + [0]);
    LoadStore(m, at, str + [0]);
  }

  /** push_u64 for each word, the last one first, so that they end up in order. */
  method PushWords(vm: Vm, root: nat, sp: nat, ws: seq<nat>, ghost above: seq<nat>, ghost guard: nat, ghost lo: nat, ghost hi: nat)
    returns (ok: bool, sp': nat)
    requires vm.Valid() && Stack(vm.Now(), root, guard, lo, hi)
    requires sp <= hi && guard + 8 * |ws| <= sp && (lo <= sp || ws != [])
    requires WordsAt(View(vm.Now(), root, lo, hi), sp, above)
    modifies vm`data
    ensures vm.Valid() && (ok <==> sp >= lo + 8 * |ws|)
    ensures ok ==> && sp' == sp - 8 * |ws|
                   && Stack(vm.Now(), root, guard, lo, hi)
                   && SameFrom(old(View(vm.Now(), root, lo, hi)), View(vm.Now(), root, lo, hi), sp)
                   && WordsAt(View(vm.Now(), root, lo, hi), sp', ws + above)
  {
    hide WalkFrom, TreeOk, OnData, Apart, View, Store, Region, Translate, WordsAt;
    sp' := sp;
    ghost var m0 := View(vm.Now(), root, lo, hi);
    var i := |ws|;
    assert ws[i..] + above == above;
    while i > 0
      invariant 0 <= i <= |ws|
      invariant vm.Valid() && Stack(vm.Now(), root, guard, lo, hi)
      invariant sp' + 8 * (|ws| - i) == sp && (i < |ws| ==> sp' >= lo)
      invariant SameFrom(m0, View(vm.Now(), root, lo, hi), sp)
      invariant WordsAt(View(vm.Now(), root, lo, hi), sp', ws[i..] + above)
    {
      ghost var m := View(vm.Now(), root, lo, hi);
      i := i - 1;
      ok, sp' := Push(vm, root, sp', LittleEndian(ws[i], 8), guard, lo, hi);
      if !ok {
        return;
      }
      WordPushed(vm.Now(), root, lo, hi, m, View(vm.Now(), root, lo, hi), sp', ws[i], ws[i + 1..] + above);
      assert [ws[i]] + (ws[i + 1..] + above) == ws[i..] + above;
    }
    assert ws[0..] == ws;
    return true, sp';
  }

  lemma WordPushed(s: State, root: nat, lo: nat, hi: nat, m: map<nat, Byte>, m': map<nat, Byte>, at: nat, x: nat, ws: seq<nat>)
    requires Region(s, root, lo, hi) && m' == View(s, root, lo, hi) && m' == Store(m, at, LittleEndian(x, 8))
    requires lo <= at && at + 8 <= hi && WordsAt(m, at + 8, ws)
    ensures WordsAt(m', at, [x] + ws) && SameFrom(m, m', at + 8)
  {
    hide WalkFrom, TreeOk, LittleEndian, Load, WordsAt;
    ViewInMap(s, root, lo, hi, at, 8);
    StoreKeys(m, at, LittleEndian(x, 8));
    StoreBelow(m, at, LittleEndian(x, 8));
    PushedWord(m, at + 8, x, ws);
  }

  // ---------------------------------------------------------------------------------------------
  // The whole stack
  // ---------------------------------------------------------------------------------------------

  const AT_NULL := 0
  const AT_PHDR := 3
  const AT_PHENT := 4
  const AT_PHNUM := 5
  const AT_PAGESZ := 6
  const AT_BASE := 7
  const AT_FLAGS := 8
  const AT_ENTRY := 9
  const AT_UID := 11
  const AT_EUID := 12
  const AT_GID := 13
  const AT_EGID := 14
  const AT_PLATFORM := 15
  const AT_CLKTCK := 17
  const AT_SECURE := 23
  const AT_RANDOM := 25
  const AT_EXECFN := 31
  const AT_SYSINFO_EHDR := 33

  /** What the loader knows about the program, and the credentials it runs with. */
  datatype Program = Program(phdrAddr: nat, phdrEntsize: nat, phdrCount: nat, interpBase: nat, mainEntry: nat, uid: nat, gid: nat)

  /** The auxiliary vector as (type, value) words in memory order, without its terminator. */
  function Auxv(p: Program, platform: nat, random: nat, execfn: nat): (ws: seq<nat>)
    ensures |ws| == AuxWords(p)
  {
    [AT_SYSINFO_EHDR, 0, AT_PHDR, p.phdrAddr, AT_PHENT, p.phdrEntsize, AT_PHNUM, p.phdrCount, AT_PAGESZ, KB4]
    + (if p.interpBase != 0 then [AT_BASE, p.interpBase] else [])
    + [AT_FLAGS, 0, AT_ENTRY, p.mainEntry, AT_UID, p.uid, AT_EUID, p.uid, AT_GID, p.gid, AT_EGID, p.gid]
    + [AT_PLATFORM, platform, AT_CLKTCK, 100, AT_SECURE, 0, AT_RANDOM, random, AT_EXECFN, execfn]
  }

  function AuxWords(p: Program): nat { if p.interpBase != 0 then 34 else 32 }

  const X86_64: CString := [0x78, 0x38, 0x36, 0x5F, 0x36, 0x34]

  function Clamp(strs: seq<CString>): (r: seq<CString>) {
    if |strs| > MAX_UV_STR then strs[..MAX_UV_STR] else strs
  }

  /** The u64s from the initial stack pointer up: auxv with terminator, envp, argv, argc. */
  function WordCount(p: Program, argc: nat, envc: nat): nat { AuxWords(p) + 2 + (envc + 1) + (argc + 1) + 1 }

  /** Where the 16 random bytes go, below all strings. */
  function RandomAddr(argv: seq<CString>, envp: seq<CString>): int {
    (USER_STACK_TOP - StringBytes(argv) - StringBytes(envp) - 7 - 16) / 16 * 16
  }

  /** The initial stack pointer. */
  function InitialSp(p: Program, argv: seq<CString>, envp: seq<CString>): int {
    var n := WordCount(p, |argv|, |envp|);
    RandomAddr(argv, envp) - (if n % 2 == 1 then 8 else 0) - 8 * n
  }

  lemma InitialSpAligned(p: Program, argv: seq<CString>, envp: seq<CString>)
    ensures InitialSp(p, argv, envp) % 16 == 0
  {
    var n := WordCount(p, |argv|, |envp|);
    var r := RandomAddr(argv, envp) / 16;
    assert RandomAddr(argv, envp) == r * 16;
    if n % 2 == 1 {
      assert InitialSp(p, argv, envp) == (r - (n + 1) / 2) * 16;
    } else {
      assert InitialSp(p, argv, envp) == (r - n / 2) * 16;
    }
  }

  /** The contents that a program finds from its stack pointer upwards: argc, the argument pointers
      and NULL, the environment pointers and NULL, the auxiliary vector up to AT_NULL; and the
      pointers lead to exactly the given strings. */
  ghost predicate StackLayout(m: map<nat, Byte>, rsp: nat, p: Program, argv: seq<CString>, envp: seq<CString>,
                              argvAddrs: seq<nat>, envpAddrs: seq<nat>, random: seq<Byte>)
  {
    var top := USER_STACK_TOP;
    var mid := top - StringBytes(argv);
    var platform := mid - StringBytes(envp) - 7;
    var rand := RandomAddr(argv, envp);
    && mid >= 0 && platform >= 0 && rand >= 0
    && StringsAt(m, top, argvAddrs, argv)
    && StringsAt(m, mid, envpAddrs, envp)
    && StringAt(m, platform, X86_64)
    && InMap(m, rand, 16) && Load(m, rand, 16) == random
    && WordsAt(m, rsp, [|argv|] + argvAddrs + [0] + envpAddrs + [0]
                       + Auxv(p, platform, rand, if argvAddrs == [] then 0 else argvAddrs[0]) + [AT_NULL, 0])
    && rsp + 8 * WordCount(p, |argv|, |envp|) <= rand
  }

  /** Where the platform string goes, below the arguments and the environment. */
  function PlatformAddr(argv: seq<CString>, envp: seq<CString>): int { USER_STACK_TOP - StringBytes(argv) - StringBytes(envp) - 7 }

  /** The words from the stack pointer up, in the order in which a program reads them. */
  ghost function StackWords(p: Program, argvAddrs: seq<nat>, envpAddrs: seq<nat>, platform: nat, rand: nat): (ws: seq<nat>)
    ensures |ws| == WordCount(p, |argvAddrs|, |envpAddrs|)
  {
    [|argvAddrs|] + argvAddrs + [0] + envpAddrs + [0] + Auxv(p, platform, rand, if argvAddrs == [] then 0 else argvAddrs[0]) + [AT_NULL, 0]
  }

  predicate WordSized(p: Program) {
    p.phdrAddr < W64 && p.phdrEntsize < W64 && p.phdrCount < W64 && p.interpBase < W64 && p.mainEntry < W64 && p.uid < W64 && p.gid < W64
  }

  /** What a program reads: argc; then that many pointers, each to its argument; NULL; the pointers to the
      environment strings; NULL; the auxiliary vector, and AT_NULL. */
  lemma ProgramReads(m: map<nat, Byte>, rsp: nat, p: Program, argv: seq<CString>, envp: seq<CString>,
                     argvAddrs: seq<nat>, envpAddrs: seq<nat>, random: seq<Byte>)
    requires StackLayout(m, rsp, p, argv, envp, argvAddrs, envpAddrs, random) && WordSized(p)
    ensures |argvAddrs| == |argv| && |envpAddrs| == |envp| && WordRead(m, rsp, 0, |argv|)
    ensures forall i :: 0 <= i < |argv| ==> WordRead(m, rsp, 1 + i, argvAddrs[i]) && StringAt(m, argvAddrs[i], argv[i])
    ensures WordRead(m, rsp, 1 + |argv|, 0)
    ensures forall j :: 0 <= j < |envp| ==> WordRead(m, rsp, 2 + |argv| + j, envpAddrs[j]) && StringAt(m, envpAddrs[j], envp[j])
    ensures WordRead(m, rsp, 2 + |argv| + |envp|, 0)
    ensures var exe := if argvAddrs == [] then 0 else argvAddrs[0];
            var aux := Auxv(p, PlatformAddr(argv, envp), RandomAddr(argv, envp), exe);
            && (forall k :: 0 <= k < |aux| ==> WordRead(m, rsp, 3 + |argv| + |envp| + k, aux[k]))
            && WordRead(m, rsp, 3 + |argv| + |envp| + |aux|, AT_NULL)
  {
    hide StringAt, Auxv, WordRead, StackWords, StackLayout, RandomAddr, StringBytes;
    LayoutStrings(m, rsp, p, argv, envp, argvAddrs, envpAddrs, random);
    var platform, rand := PlatformAddr(argv, envp), RandomAddr(argv, envp);
    var n, e, exe := |argv|, |envp|, if argvAddrs == [] then 0 else argvAddrs[0];
    FixedWords(p, argvAddrs, envpAddrs, platform, rand);
    ReadAt(m, rsp, p, argv, envp, argvAddrs, envpAddrs, random, 0);
    ReadAt(m, rsp, p, argv, envp, argvAddrs, envpAddrs, random, 1 + n);
    ReadAt(m, rsp, p, argv, envp, argvAddrs, envpAddrs, random, 2 + n + e);
    ReadAt(m, rsp, p, argv, envp, argvAddrs, envpAddrs, random, 3 + n + e + AuxWords(p));
    forall i | 0 <= i < n ensures WordRead(m, rsp, 1 + i, argvAddrs[i]) {
      ArgumentWord(p, argvAddrs, envpAddrs, platform, rand, i);
      ReadAt(m, rsp, p, argv, envp, argvAddrs, envpAddrs, random, 1 + i);
    }
    forall j | 0 <= j < e ensures WordRead(m, rsp, 2 + n + j, envpAddrs[j]) {
      EnvironmentWord(p, argvAddrs, envpAddrs, platform, rand, j);
      ReadAt(m, rsp, p, argv, envp, argvAddrs, envpAddrs, random, 2 + n + j);
    }
    forall k | 0 <= k < AuxWords(p) ensures WordRead(m, rsp, 3 + n + e + k, Auxv(p, platform, rand, exe)[k]) {
      AuxiliaryWord(p, argvAddrs, envpAddrs, platform, rand, k);
      ReadAt(m, rsp, p, argv, envp, argvAddrs, envpAddrs, random, 3 + n + e + k);
    }
  }

  /** A reader that goes through the auxiliary vector at `at`, up to AT_NULL, finds `v` as the first entry of type `ty`. */
  ghost predicate AuxHas(m: map<nat, Byte>, at: nat, ty: nat, v: nat) {
    exists k: nat :: AuxIs(m, at, k, ty, v) && forall j: nat :: j < k ==> AuxOther(m, at, j, ty)
  }

  ghost predicate AuxIs(m: map<nat, Byte>, at: nat, k: nat, ty: nat, v: nat) {
    InMap(m, at + 16 * k, 8) && WordAt(m, at + 16 * k) == ty && InMap(m, at + 16 * k + 8, 8) && WordAt(m, at + 16 * k + 8) == v
  }

  ghost predicate AuxOther(m: map<nat, Byte>, at: nat, j: nat, ty: nat) {
    InMap(m, at + 16 * j, 8) && WordAt(m, at + 16 * j) != ty && WordAt(m, at + 16 * j) != AT_NULL
  }

  /** Entry `k` of the auxiliary vector is the first of its type. */
  predicate FirstOfType(ws: seq<nat>, k: nat, ty: nat, v: nat) {
    2 * k + 2 <= |ws| && ws[2 * k] == ty && ws[2 * k + 1] == v && forall j :: 0 <= j < k ==> ws[2 * j] != ty && ws[2 * j] != AT_NULL
  }

  lemma ReaderFinds(m: map<nat, Byte>, rsp: nat, n: nat, ws: seq<nat>, k: nat, ty: nat, v: nat)
    requires FirstOfType(ws, k, ty, v) && forall i :: 0 <= i < |ws| ==> WordRead(m, rsp, n + i, ws[i])
    ensures AuxHas(m, rsp + 8 * n, ty, v)
  {
    hide WordAt, InMap;
    var at := rsp + 8 * n;
    assert WordRead(m, rsp, n + 2 * k, ws[2 * k]) && WordRead(m, rsp, n + (2 * k + 1), ws[2 * k + 1]);
    assert AuxIs(m, at, k, ty, v);
    forall j: nat | j < k ensures AuxOther(m, at, j, ty) { assert WordRead(m, rsp, n + 2 * j, ws[2 * j]); }
  }

  /** What a program finds in its auxiliary vector: the program headers, the page size, the interpreter's base if
      there is one, the entry point, the credentials, and pointers to the platform name, the random bytes and its
      own name. */
  lemma ProgramFinds(m: map<nat, Byte>, rsp: nat, p: Program, argv: seq<CString>, envp: seq<CString>,
                     argvAddrs: seq<nat>, envpAddrs: seq<nat>, random: seq<Byte>)
    requires StackLayout(m, rsp, p, argv, envp, argvAddrs, envpAddrs, random) && WordSized(p)
    ensures var at := rsp + 8 * (3 + |argv| + |envp|);
            && AuxHas(m, at, AT_PHDR, p.phdrAddr) && AuxHas(m, at, AT_PHENT, p.phdrEntsize) && AuxHas(m, at, AT_PHNUM, p.phdrCount)
            && AuxHas(m, at, AT_PAGESZ, 4096) && (p.interpBase != 0 ==> AuxHas(m, at, AT_BASE, p.interpBase)) && AuxHas(m, at, AT_ENTRY, p.mainEntry)
            && AuxHas(m, at, AT_UID, p.uid) && AuxHas(m, at, AT_EUID, p.uid) && AuxHas(m, at, AT_GID, p.gid) && AuxHas(m, at, AT_EGID, p.gid)
            && AuxHas(m, at, AT_CLKTCK, 100) && AuxHas(m, at, AT_SECURE, 0)
    ensures var at := rsp + 8 * (3 + |argv| + |envp|);
            && (exists a: nat :: AuxHas(m, at, AT_RANDOM, a) && InMap(m, a, 16) && Load(m, a, 16) == random)
            && (exists a: nat :: AuxHas(m, at, AT_PLATFORM, a) && StringAt(m, a, X86_64))
            && (argv != [] ==> exists a: nat :: AuxHas(m, at, AT_EXECFN, a) && StringAt(m, a, argv[0]))
            && (argv == [] ==> AuxHas(m, at, AT_EXECFN, 0))
  {
    hide StringAt, Auxv, WordRead, RandomAddr, StringBytes, AuxHas, StackLayout, WordSized, FirstOfType, InMap, Load;
    ProgramReads(m, rsp, p, argv, envp, argvAddrs, envpAddrs, random);
    LayoutPointers(m, rsp, p, argv, envp, argvAddrs, envpAddrs, random);
    var platform, rand := PlatformAddr(argv, envp), RandomAddr(argv, envp);
    var n, exe := 3 + |argv| + |envp|, if argvAddrs == [] then 0 else argvAddrs[0];
    var aux, b := Auxv(p, platform, rand, exe), if p.interpBase != 0 then 6 else 5;
    AuxvEntries(p, platform, rand, exe);
    ReaderFinds(m, rsp, n, aux, 1, AT_PHDR, p.phdrAddr);
    ReaderFinds(m, rsp, n, aux, 2, AT_PHENT, p.phdrEntsize);
    ReaderFinds(m, rsp, n, aux, 3, AT_PHNUM, p.phdrCount);
    ReaderFinds(m, rsp, n, aux, 4, AT_PAGESZ, 4096);
    if p.interpBase != 0 { ReaderFinds(m, rsp, n, aux, 5, AT_BASE, p.interpBase); }
    ReaderFinds(m, rsp, n, aux, b + 1, AT_ENTRY, p.mainEntry);
    ReaderFinds(m, rsp, n, aux, b + 2, AT_UID, p.uid);
    ReaderFinds(m, rsp, n, aux, b + 3, AT_EUID, p.uid);
    ReaderFinds(m, rsp, n, aux, b + 4, AT_GID, p.gid);
    ReaderFinds(m, rsp, n, aux, b + 5, AT_EGID, p.gid);
    ReaderFinds(m, rsp, n, aux, b + 6, AT_PLATFORM, platform);
    ReaderFinds(m, rsp, n, aux, b + 7, AT_CLKTCK, 100);
    ReaderFinds(m, rsp, n, aux, b + 8, AT_SECURE, 0);
    ReaderFinds(m, rsp, n, aux, b + 9, AT_RANDOM, rand);
    ReaderFinds(m, rsp, n, aux, b + 10, AT_EXECFN, exe);
  }

  lemma LayoutPointers(m: map<nat, Byte>, rsp: nat, p: Program, argv: seq<CString>, envp: seq<CString>,
                       argvAddrs: seq<nat>, envpAddrs: seq<nat>, random: seq<Byte>)
    requires StackLayout(m, rsp, p, argv, envp, argvAddrs, envpAddrs, random)
    ensures PlatformAddr(argv, envp) >= 0 && StringAt(m, PlatformAddr(argv, envp), X86_64)
    ensures RandomAddr(argv, envp) >= 0 && InMap(m, RandomAddr(argv, envp), 16) && Load(m, RandomAddr(argv, envp), 16) == random
  {
    hide StringAt, Auxv, WordsAt, StringsAt, RandomAddr;
  }

  lemma AuxvEntries(p: Program, platform: nat, rand: nat, exe: nat)
    ensures var ws, b := Auxv(p, platform, rand, exe), if p.interpBase != 0 then 6 else 5;
            && FirstOfType(ws, 1, AT_PHDR, p.phdrAddr) && FirstOfType(ws, 2, AT_PHENT, p.phdrEntsize) && FirstOfType(ws, 3, AT_PHNUM, p.phdrCount)
            && FirstOfType(ws, 4, AT_PAGESZ, 4096) && (p.interpBase != 0 ==> FirstOfType(ws, 5, AT_BASE, p.interpBase))
            && FirstOfType(ws, b + 1, AT_ENTRY, p.mainEntry) && FirstOfType(ws, b + 2, AT_UID, p.uid) && FirstOfType(ws, b + 3, AT_EUID, p.uid)
            && FirstOfType(ws, b + 4, AT_GID, p.gid) && FirstOfType(ws, b + 5, AT_EGID, p.gid) && FirstOfType(ws, b + 6, AT_PLATFORM, platform)
            && FirstOfType(ws, b + 7, AT_CLKTCK, 100) && FirstOfType(ws, b + 8, AT_SECURE, 0) && FirstOfType(ws, b + 9, AT_RANDOM, rand)
            && FirstOfType(ws, b + 10, AT_EXECFN, exe)
  {
    hide Auxv, FirstOfType, InPairs;
    var ts, vs, b := AuxTypes(p), AuxValues(p, platform, rand, exe), if p.interpBase != 0 then 6 else 5;
    AuxPairs(p, platform, rand, exe);
    TypesDiffer(p);
    forall k: nat | k < |ts| ensures FirstOfType(Auxv(p, platform, rand, exe), k, ts[k], vs[k]) {
      FirstEntry(Auxv(p, platform, rand, exe), ts, vs, k);
    }
    assert ts[1] == AT_PHDR && vs[1] == p.phdrAddr && ts[2] == AT_PHENT && vs[2] == p.phdrEntsize && ts[3] == AT_PHNUM && vs[3] == p.phdrCount;
    assert ts[4] == AT_PAGESZ && vs[4] == 4096 && (b == 6 ==> ts[5] == AT_BASE && vs[5] == p.interpBase);
    assert ts[b + 1] == AT_ENTRY && vs[b + 1] == p.mainEntry && ts[b + 2] == AT_UID && vs[b + 2] == p.uid
      && ts[b + 3] == AT_EUID && vs[b + 3] == p.uid;
    assert ts[b + 4] == AT_GID && vs[b + 4] == p.gid && ts[b + 5] == AT_EGID && vs[b + 5] == p.gid
      && ts[b + 6] == AT_PLATFORM && vs[b + 6] == platform;
    assert ts[b + 7] == AT_CLKTCK && vs[b + 7] == 100 && ts[b + 8] == AT_SECURE && vs[b + 8] == 0;
    assert ts[b + 9] == AT_RANDOM && vs[b + 9] == rand && ts[b + 10] == AT_EXECFN && vs[b + 10] == exe;
  }

  /** The types and the values of the entries. */
  function AuxTypes(p: Program): (ts: seq<nat>)
    ensures |ts| == AuxWords(p) / 2
  {
    [AT_SYSINFO_EHDR, AT_PHDR, AT_PHENT, AT_PHNUM, AT_PAGESZ] + (if p.interpBase != 0 then [AT_BASE] else [])
    + [AT_FLAGS, AT_ENTRY, AT_UID, AT_EUID, AT_GID, AT_EGID] + [AT_PLATFORM, AT_CLKTCK, AT_SECURE, AT_RANDOM, AT_EXECFN]
  }

  function AuxValues(p: Program, platform: nat, rand: nat, exe: nat): (vs: seq<nat>)
    ensures |vs| == AuxWords(p) / 2
  {
    [0, p.phdrAddr, p.phdrEntsize, p.phdrCount, KB4] + (if p.interpBase != 0 then [p.interpBase] else [])
    + [0, p.mainEntry, p.uid, p.uid, p.gid, p.gid] + [platform, 100, 0, rand, exe]
  }

  /** Words that are the given types and values in turn. */
  predicate InPairs(ws: seq<nat>, ts: seq<nat>, vs: seq<nat>) {
    |ts| == |vs| && |ws| == 2 * |ts| && forall k :: 0 <= k < |ts| ==> ws[2 * k] == ts[k] && ws[2 * k + 1] == vs[k]
  }

  lemma PairsConcat(a: seq<nat>, b: seq<nat>, at: seq<nat>, av: seq<nat>, bt: seq<nat>, bv: seq<nat>)
    requires InPairs(a, at, av) && InPairs(b, bt, bv)
    ensures InPairs(a + b, at + bt, av + bv)
  {
  }

  lemma AuxPairs(p: Program, platform: nat, rand: nat, exe: nat)
    ensures InPairs(Auxv(p, platform, rand, exe), AuxTypes(p), AuxValues(p, platform, rand, exe))
  {
    hide InPairs;
    var a := [AT_SYSINFO_EHDR, 0, AT_PHDR, p.phdrAddr, AT_PHENT, p.phdrEntsize, AT_PHNUM, p.phdrCount, AT_PAGESZ, KB4];
    var at, av := [AT_SYSINFO_EHDR, AT_PHDR, AT_PHENT, AT_PHNUM, AT_PAGESZ], [0, p.phdrAddr, p.phdrEntsize, p.phdrCount, KB4];
    var b := if p.interpBase != 0 then [AT_BASE, p.interpBase] else [];
    var bt, bv := if p.interpBase != 0 then [AT_BASE] else [], if p.interpBase != 0 then [p.interpBase] else [];
    var c := [AT_FLAGS, 0, AT_ENTRY, p.mainEntry, AT_UID, p.uid, AT_EUID, p.uid, AT_GID, p.gid, AT_EGID, p.gid];
    var ct, cv := [AT_FLAGS, AT_ENTRY, AT_UID, AT_EUID, AT_GID, AT_EGID], [0, p.mainEntry, p.uid, p.uid, p.gid, p.gid];
    var d := [AT_PLATFORM, platform, AT_CLKTCK, 100, AT_SECURE, 0, AT_RANDOM, rand, AT_EXECFN, exe];
    var dt, dv := [AT_PLATFORM, AT_CLKTCK, AT_SECURE, AT_RANDOM, AT_EXECFN], [platform, 100, 0, rand, exe];
    HeadPairs(p, platform, rand, exe);
    PairsConcat(a, b, at, av, bt, bv);
    PairsConcat(a + b, c, at + bt, av + bv, ct, cv);
    PairsConcat(a + b + c, d, at + bt + ct, av + bv + cv, dt, dv);
  }

  lemma HeadPairs(p: Program, platform: nat, rand: nat, exe: nat)
    ensures InPairs([AT_SYSINFO_EHDR, 0, AT_PHDR, p.phdrAddr, AT_PHENT, p.phdrEntsize, AT_PHNUM, p.phdrCount, AT_PAGESZ, KB4],
                    [AT_SYSINFO_EHDR, AT_PHDR, AT_PHENT, AT_PHNUM, AT_PAGESZ], [0, p.phdrAddr, p.phdrEntsize, p.phdrCount, KB4])
    ensures InPairs([AT_BASE, p.interpBase], [AT_BASE], [p.interpBase]) && InPairs([], [], [])
    ensures InPairs([AT_FLAGS, 0, AT_ENTRY, p.mainEntry, AT_UID, p.uid, AT_EUID, p.uid, AT_GID, p.gid, AT_EGID, p.gid],
                    [AT_FLAGS, AT_ENTRY, AT_UID, AT_EUID, AT_GID, AT_EGID], [0, p.mainEntry, p.uid, p.uid, p.gid, p.gid])
    ensures InPairs([AT_PLATFORM, platform, AT_CLKTCK, 100, AT_SECURE, 0, AT_RANDOM, rand, AT_EXECFN, exe],
                    [AT_PLATFORM, AT_CLKTCK, AT_SECURE, AT_RANDOM, AT_EXECFN], [platform, 100, 0, rand, exe])
  {
  }

  lemma TypesDiffer(p: Program)
    ensures var ts := AuxTypes(p); forall k :: 0 <= k < |ts| ==> ts[k] != AT_NULL && forall j :: 0 <= j < k ==> ts[j] != ts[k]
  {
  }

  lemma FirstEntry(ws: seq<nat>, ts: seq<nat>, vs: seq<nat>, k: nat)
    requires InPairs(ws, ts, vs) && k < |ts|
    requires forall i :: 0 <= i < |ts| ==> ts[i] != AT_NULL && forall j :: 0 <= j < i ==> ts[j] != ts[i]
    ensures FirstOfType(ws, k, ts[k], vs[k])
  {
  }

  lemma LayoutStrings(m: map<nat, Byte>, rsp: nat, p: Program, argv: seq<CString>, envp: seq<CString>,
                      argvAddrs: seq<nat>, envpAddrs: seq<nat>, random: seq<Byte>)
    requires StackLayout(m, rsp, p, argv, envp, argvAddrs, envpAddrs, random)
    ensures |argvAddrs| == |argv| && |envpAddrs| == |envp|
    ensures forall i :: 0 <= i < |argv| ==> StringAt(m, argvAddrs[i], argv[i])
    ensures forall j :: 0 <= j < |envp| ==> StringAt(m, envpAddrs[j], envp[j])
    ensures PlatformAddr(argv, envp) >= 0 && RandomAddr(argv, envp) >= 0
  {
    hide StringAt, WordsAt;
  }

  /** The i-th word is read as it was pushed. */
  lemma ReadAt(m: map<nat, Byte>, rsp: nat, p: Program, argv: seq<CString>, envp: seq<CString>,
               argvAddrs: seq<nat>, envpAddrs: seq<nat>, random: seq<Byte>, i: nat)
    requires StackLayout(m, rsp, p, argv, envp, argvAddrs, envpAddrs, random) && WordSized(p) && i < WordCount(p, |argv|, |envp|)
    ensures |argvAddrs| == |argv| && |envpAddrs| == |envp|
    ensures WordRead(m, rsp, i, StackWords(p, argvAddrs, envpAddrs, PlatformAddr(argv, envp), RandomAddr(argv, envp))[i])
  {
    hide StringAt, Auxv, StackWords, WordRead, WordsAt, StackLayout, StringBytes, RandomAddr;
    LayoutBounds(m, rsp, p, argv, envp, argvAddrs, envpAddrs, random);
    LayoutWords(m, rsp, p, argv, envp, argvAddrs, envpAddrs, random);
    var platform, rand := PlatformAddr(argv, envp), RandomAddr(argv, envp);
    AuxFits(p, platform, rand, if argvAddrs == [] then 0 else argvAddrs[0]);
    StackWordAt(p, argvAddrs, envpAddrs, platform, rand, i);
    OneRead(m, rsp, StackWords(p, argvAddrs, envpAddrs, platform, rand), i);
  }

  lemma LayoutBounds(m: map<nat, Byte>, rsp: nat, p: Program, argv: seq<CString>, envp: seq<CString>,
                     argvAddrs: seq<nat>, envpAddrs: seq<nat>, random: seq<Byte>)
    requires StackLayout(m, rsp, p, argv, envp, argvAddrs, envpAddrs, random)
    ensures |argvAddrs| == |argv| < W64 && |envpAddrs| == |envp|
    ensures 0 <= PlatformAddr(argv, envp) < W64 && 0 <= RandomAddr(argv, envp) < W64
    ensures forall i :: 0 <= i < |argvAddrs| ==> argvAddrs[i] < W64
    ensures forall i :: 0 <= i < |envpAddrs| ==> envpAddrs[i] < W64
  {
    hide StringAt, WordsAt, Auxv, StringBytes, InMap;
    StringsCount(argv);
    AddressesFit(m, USER_STACK_TOP, argvAddrs, argv);
    AddressesFit(m, USER_STACK_TOP - StringBytes(argv), envpAddrs, envp);
  }

  lemma OneRead(m: map<nat, Byte>, rsp: nat, ws: seq<nat>, i: nat)
    requires WordsAt(m, rsp, ws) && i < |ws| && ws[i] < W64
    ensures WordRead(m, rsp, i, ws[i])
  {
    WordsRead(m, rsp, ws, i);
  }

  /** The i-th word from `rsp` up is `x`. */
  ghost predicate WordRead(m: map<nat, Byte>, rsp: nat, i: nat, x: nat) { InMap(m, rsp + 8 * i, 8) && WordAt(m, rsp + 8 * i) == x }

  lemma LayoutWords(m: map<nat, Byte>, rsp: nat, p: Program, argv: seq<CString>, envp: seq<CString>,
                    argvAddrs: seq<nat>, envpAddrs: seq<nat>, random: seq<Byte>)
    requires StackLayout(m, rsp, p, argv, envp, argvAddrs, envpAddrs, random)
    ensures |argvAddrs| == |argv| && |envpAddrs| == |envp|
    ensures WordsAt(m, rsp, StackWords(p, argvAddrs, envpAddrs, PlatformAddr(argv, envp), RandomAddr(argv, envp)))
  {
    hide Auxv, StringAt;
  }

  lemma FixedWords(p: Program, argvAddrs: seq<nat>, envpAddrs: seq<nat>, platform: nat, rand: nat)
    ensures var ws, n, e := StackWords(p, argvAddrs, envpAddrs, platform, rand), |argvAddrs|, |envpAddrs|;
            ws[0] == n && ws[1 + n] == 0 && ws[2 + n + e] == 0 && ws[3 + n + e + AuxWords(p)] == AT_NULL
  {
    hide Auxv;
  }

  lemma ArgumentWord(p: Program, argvAddrs: seq<nat>, envpAddrs: seq<nat>, platform: nat, rand: nat, i: nat)
    requires i < |argvAddrs|
    ensures StackWords(p, argvAddrs, envpAddrs, platform, rand)[1 + i] == argvAddrs[i]
  {
    hide Auxv;
  }

  lemma EnvironmentWord(p: Program, argvAddrs: seq<nat>, envpAddrs: seq<nat>, platform: nat, rand: nat, j: nat)
    requires j < |envpAddrs|
    ensures StackWords(p, argvAddrs, envpAddrs, platform, rand)[2 + |argvAddrs| + j] == envpAddrs[j]
  {
    hide Auxv;
  }

  lemma AuxiliaryWord(p: Program, argvAddrs: seq<nat>, envpAddrs: seq<nat>, platform: nat, rand: nat, k: nat)
    requires k < AuxWords(p)
    ensures StackWords(p, argvAddrs, envpAddrs, platform, rand)[3 + |argvAddrs| + |envpAddrs| + k]
            == Auxv(p, platform, rand, if argvAddrs == [] then 0 else argvAddrs[0])[k]
  {
    hide Auxv;
  }

  lemma {:induction false} StringsCount(strs: seq<CString>)
    ensures |strs| <= StringBytes(strs)
  {
    if strs != [] { StringsCount(strs[..|strs| - 1]); }
  }

  lemma AddressesFit(m: map<nat, Byte>, top: nat, addrs: seq<nat>, strs: seq<CString>)
    requires StringsAt(m, top, addrs, strs) && top <= USER_STACK_TOP
    ensures |addrs| == |strs| && forall i :: 0 <= i < |addrs| ==> addrs[i] < W64 && StringAt(m, addrs[i], strs[i])
  {
  }

  lemma AuxFits(p: Program, platform: nat, rand: nat, execfn: nat)
    requires WordSized(p) && platform < W64 && rand < W64 && execfn < W64
    ensures forall k :: 0 <= k < |Auxv(p, platform, rand, execfn)| ==> Auxv(p, platform, rand, execfn)[k] < W64
  {
  }

  lemma StackWordAt(p: Program, argvAddrs: seq<nat>, envpAddrs: seq<nat>, platform: nat, rand: nat, i: nat)
    requires i < WordCount(p, |argvAddrs|, |envpAddrs|) && |argvAddrs| < W64
    requires forall j :: 0 <= j < |argvAddrs| ==> argvAddrs[j] < W64
    requires forall j :: 0 <= j < |envpAddrs| ==> envpAddrs[j] < W64
    requires var aux := Auxv(p, platform, rand, if argvAddrs == [] then 0 else argvAddrs[0]); forall k :: 0 <= k < |aux| ==> aux[k] < W64
    ensures StackWords(p, argvAddrs, envpAddrs, platform, rand)[i] < W64
  {
    hide Auxv;
  }

  lemma LayoutKept(m: map<nat, Byte>, m': map<nat, Byte>, b: nat, top: nat, mid: nat, platform: nat, rand: nat,
                   argv: seq<CString>, envp: seq<CString>, argvAddrs: seq<nat>, envpAddrs: seq<nat>, random: seq<Byte>)
    requires StringsAt(m, top, argvAddrs, argv) && StringsAt(m, mid, envpAddrs, envp) && StringAt(m, platform, X86_64)
    requires InMap(m, rand, 16) && Load(m, rand, 16) == random
    requires mid + StringBytes(argv) == top && platform + StringBytes(envp) <= mid && b <= rand && b <= platform
    requires SameFrom(m, m', b)
    ensures StringsAt(m', top, argvAddrs, argv) && StringsAt(m', mid, envpAddrs, envp) && StringAt(m', platform, X86_64)
    ensures InMap(m', rand, 16) && Load(m', rand, 16) == random
  {
    hide StringAt;
    StringsKept(m, m', top, argvAddrs, argv, b);
    StringsKept(m, m', mid, envpAddrs, envp, b);
    StringKept(m, m', platform, X86_64, b);
    assert Load(m', rand, 16) == Load(m, rand, 16);
  }

  /** The upper part of the stack: argument strings, environment strings, the platform string and the
      random bytes. */
  ghost predicate UpperPart(m: map<nat, Byte>, argv: seq<CString>, envp: seq<CString>,
                            argvAddrs: seq<nat>, envpAddrs: seq<nat>, random: seq<Byte>)
  {
    var mid := USER_STACK_TOP - StringBytes(argv);
    var platform := mid - StringBytes(envp) - 7;
    var rand := RandomAddr(argv, envp);
    && mid >= 0 && platform >= 0 && rand >= 0
    && StringsAt(m, USER_STACK_TOP, argvAddrs, argv) && StringsAt(m, mid, envpAddrs, envp) && StringAt(m, platform, X86_64)
    && InMap(m, rand, 16) && Load(m, rand, 16) == random
  }

  method PushStringsAndRandom(vm: Vm, root: nat, argv: seq<CString>, envp: seq<CString>, random: seq<Byte>, ghost guard: nat, ghost lo: nat)
    returns (ok: bool, argvAddrs: seq<nat>, envpAddrs: seq<nat>)
    requires vm.Valid() && Stack(vm.Now(), root, guard, lo, USER_STACK_TOP) && |random| == 16
    requires guard <= RandomAddr(argv, envp)
    modifies vm`data
    ensures vm.Valid() && (ok <==> RandomAddr(argv, envp) >= lo)
    ensures ok ==> Stack(vm.Now(), root, guard, lo, USER_STACK_TOP)
                   && UpperPart(View(vm.Now(), root, lo, USER_STACK_TOP), argv, envp, argvAddrs, envpAddrs, random)
  {
    hide WalkFrom, TreeOk, OnData, Apart, View, Store, Region, Translate, StringAt, SameFrom, StringsAt, Load;
    envpAddrs := [];
    var sp;
    ok, sp, argvAddrs := PushStrings(vm, root, USER_STACK_TOP, argv, guard, lo, USER_STACK_TOP);
    if !ok { return; }
    ghost var mid := sp;
    ghost var m1 := View(vm.Now(), root, lo, USER_STACK_TOP);
    ok, sp, envpAddrs := PushStrings(vm, root, sp, envp, guard, lo, USER_STACK_TOP);
    if !ok { return; }
    ghost var m2 := View(vm.Now(), root, lo, USER_STACK_TOP);
    StringsKept(m1, m2, USER_STACK_TOP, argvAddrs, argv, mid);
    ghost var low := sp;
    ok, sp := Push(vm, root, sp, X86_64 + [0], guard, lo, USER_STACK_TOP);
    if !ok { return; }
    ghost var m3 := View(vm.Now(), root, lo, USER_STACK_TOP);
    PushedString(vm.Now(), root, lo, USER_STACK_TOP, m2, m3, sp, X86_64);
    StringsKept(m2, m3, USER_STACK_TOP, argvAddrs, argv, low);
    StringsKept(m2, m3, mid, envpAddrs, envp, low);
    var rand := (sp - 16) / 16 * 16;
    ghost var platform := sp;
    ok, sp := Push(vm, root, rand + 16, random, guard, lo, USER_STACK_TOP);
    if !ok { return; }
    ghost var m4 := View(vm.Now(), root, lo, USER_STACK_TOP);
    BytesPushed(vm.Now(), root, lo, USER_STACK_TOP, m3, m4, sp, random);
    StringsKept(m3, m4, USER_STACK_TOP, argvAddrs, argv, rand + 16);
    StringsKept(m3, m4, mid, envpAddrs, envp, rand + 16);
    StringKept(m3, m4, platform, X86_64, rand + 16);
  }

  lemma BytesPushed(s: State, root: nat, lo: nat, hi: nat, m: map<nat, Byte>, m': map<nat, Byte>, at: nat, bs: seq<Byte>)
    requires Region(s, root, lo, hi) && m' == View(s, root, lo, hi) && m' == Store(m, at, bs)
    requires lo <= at && at + |bs| <= hi
    ensures InMap(m', at, |bs|) && Load(m', at, |bs|) == bs && SameFrom(m, m', at + |bs|)
  {
    hide WalkFrom, TreeOk;
    ViewInMap(s, root, lo, hi, at, |bs|);
    StoreKeys(m, at, bs);
    StoreBelow(m, at, bs);
    LoadStore(m, at, bs);
  }

  lemma UpperKept(m: map<nat, Byte>, m': map<nat, Byte>, argv: seq<CString>, envp: seq<CString>,
                  argvAddrs: seq<nat>, envpAddrs: seq<nat>, random: seq<Byte>)
    requires UpperPart(m, argv, envp, argvAddrs, envpAddrs, random) && RandomAddr(argv, envp) >= 0
    requires SameFrom(m, m', RandomAddr(argv, envp))
    ensures UpperPart(m', argv, envp, argvAddrs, envpAddrs, random)
  {
    hide StringAt, StringsAt, SameFrom;
    var mid := USER_STACK_TOP - StringBytes(argv);
    var platform := mid - StringBytes(envp) - 7;
    LayoutKept(m, m', RandomAddr(argv, envp), USER_STACK_TOP, mid, platform, RandomAddr(argv, envp), argv, envp, argvAddrs, envpAddrs, random);
  }

  /** The vectors below: everything from argc up to the terminator of the auxiliary vector. */
  method PushVectors(vm: Vm, root: nat, sp: nat, argvAddrs: seq<nat>, envpAddrs: seq<nat>, aux: seq<nat>, ghost guard: nat, ghost lo: nat)
    returns (ok: bool, rsp: nat)
    requires vm.Valid() && Stack(vm.Now(), root, guard, lo, USER_STACK_TOP)
    requires sp <= USER_STACK_TOP && guard + 8 * (|aux| + 2 + |envpAddrs| + 1 + |argvAddrs| + 1 + 1) <= sp
    modifies vm`data
    ensures vm.Valid()
    ensures var n := |aux| + 2 + |envpAddrs| + 1 + |argvAddrs| + 1 + 1;
            && (ok <==> sp >= lo + 8 * n)
            && (ok ==> && rsp == sp - 8 * n
                       && Stack(vm.Now(), root, guard, lo, USER_STACK_TOP)
                       && SameFrom(old(View(vm.Now(), root, lo, USER_STACK_TOP)), View(vm.Now(), root, lo, USER_STACK_TOP), sp)
                       && WordsAt(View(vm.Now(), root, lo, USER_STACK_TOP), rsp,
                                  [|argvAddrs|] + argvAddrs + [0] + envpAddrs + [0] + aux + [AT_NULL, 0]))
  {
    hide WalkFrom, TreeOk, OnData, Apart, View, Store, Region, Translate, WordsAt, SameFrom;
    ghost var hi := USER_STACK_TOP;
    ghost var m0 := View(vm.Now(), root, lo, hi);
    NoWords(m0, sp);
    var a;
    ok, a := PushWords(vm, root, sp, [AT_NULL, 0], [], guard, lo, hi);
    rsp := a;
    if !ok { return; }
    ghost var w1 := [AT_NULL, 0];
    assert w1 + [] == w1;
    ghost var m1 := View(vm.Now(), root, lo, hi);
    ok, a := PushWords(vm, root, a, aux, w1, guard, lo, hi);
    if !ok { return; }
    ghost var w2 := aux + w1;
    ghost var m2 := View(vm.Now(), root, lo, hi);
    SameFromTrans(m0, m1, m2, sp);
    ok, a := PushWords(vm, root, a, envpAddrs + [0], w2, guard, lo, hi);
    if !ok { return; }
    ghost var w3 := envpAddrs + [0] + w2;
    ghost var m3 := View(vm.Now(), root, lo, hi);
    SameFromTrans(m0, m2, m3, sp);
    ok, a := PushWords(vm, root, a, argvAddrs + [0], w3, guard, lo, hi);
    if !ok { return; }
    ghost var w4 := argvAddrs + [0] + w3;
    ghost var m4 := View(vm.Now(), root, lo, hi);
    SameFromTrans(m0, m3, m4, sp);
    ok, a := PushWords(vm, root, a, [|argvAddrs|], w4, guard, lo, hi);
    rsp := a;
    if !ok { return; }
    SameFromTrans(m0, m4, View(vm.Now(), root, lo, hi), sp);
    assert [|argvAddrs|] + w4 == [|argvAddrs|] + argvAddrs + [0] + envpAddrs + [0] + aux + [AT_NULL, 0];
  }

  lemma NoWords(m: map<nat, Byte>, sp: nat)
    ensures WordsAt(m, sp, [])
  {
  }

  lemma SameFromTrans(a: map<nat, Byte>, b: map<nat, Byte>, c: map<nat, Byte>, sp: nat)
    requires SameFrom(a, b, sp) && exists t: nat :: t <= sp && SameFrom(b, c, t)
    ensures SameFrom(a, c, sp)
  {
  }

  /** elf_build_user_stack. At most 64 arguments and 64 environment strings are used. The call
      succeeds exactly when everything fits into the stack region. */
  method BuildUserStack(vm: Vm, root: nat, p: Program, argc: int, argv: seq<CString>, envp: seq<CString>, random: seq<Byte>,
                        ghost guard: nat, ghost lo: nat)
    returns (ok: bool, rsp: nat, ghost argvAddrs: seq<nat>, ghost envpAddrs: seq<nat>)
    requires vm.Valid() && Stack(vm.Now(), root, guard, lo, USER_STACK_TOP)
    requires argc <= |argv| && |random| == 16
    requires guard <= InitialSp(p, Arguments(argc, argv), Clamp(envp))
    modifies vm`data
    ensures vm.Valid()
    ensures ok <==> InitialSp(p, Arguments(argc, argv), Clamp(envp)) >= lo
    ensures ok ==> && rsp == InitialSp(p, Arguments(argc, argv), Clamp(envp)) && rsp % 16 == 0
                   && Stack(vm.Now(), root, guard, lo, USER_STACK_TOP)
                   && StackLayout(View(vm.Now(), root, lo, USER_STACK_TOP), rsp, p, Arguments(argc, argv), Clamp(envp), argvAddrs, envpAddrs, random)
  {
    hide WalkFrom, TreeOk, OnData, Apart, View, Store, Region, Translate, WordsAt, SameFrom, StringsAt, StringAt, Load, Auxv;
    var args, envs := Arguments(argc, argv), Clamp(envp);
    InitialSpAligned(p, args, envs);
    rsp := 0;
    var aa, ea;
    ok, aa, ea := PushStringsAndRandom(vm, root, args, envs, random, guard, lo);
    argvAddrs, envpAddrs := aa, ea;
    if !ok { return; }
    ghost var m := View(vm.Now(), root, lo, USER_STACK_TOP);
    SizesMatch(m, args, envs, aa, ea, random);
    var platform := USER_STACK_TOP - StringBytes(args) - StringBytes(envs) - 7;
    var rand := RandomAddr(args, envs);
    var aux := Auxv(p, platform, rand, if aa == [] then 0 else aa[0]);
    var sp := if WordCount(p, |args|, |envs|) % 2 == 1 then rand - 8 else rand;
    ok, rsp := PushVectors(vm, root, sp, aa, ea, aux, guard, lo);
    if !ok { return; }
    SameFromWeaken(m, View(vm.Now(), root, lo, USER_STACK_TOP), sp, rand);
    UpperKept(m, View(vm.Now(), root, lo, USER_STACK_TOP), args, envs, aa, ea, random);
  }

  /** The arguments that are used: none for a negative count, at most 64. */
  function Arguments(argc: int, argv: seq<CString>): (r: seq<CString>)
    requires argc <= |argv|
  {
    Clamp(if argc < 0 then [] else argv[..argc])
  }

  /** The first 64 of the given arguments, each in its place; the environment likewise. */
  lemma ArgumentsAre(argc: int, argv: seq<CString>)
    requires argc <= |argv|
    ensures var r := Arguments(argc, argv);
            && |r| == (if argc < 0 then 0 else if argc > 64 then 64 else argc) && forall i :: 0 <= i < |r| ==> r[i] == argv[i]
    ensures |Clamp(argv)| == (if |argv| > 64 then 64 else |argv|) && forall i :: 0 <= i < |Clamp(argv)| ==> Clamp(argv)[i] == argv[i]
  {
  }

  lemma SameFromWeaken(m: map<nat, Byte>, m': map<nat, Byte>, a: nat, b: nat)
    requires SameFrom(m, m', a) && a <= b
    ensures SameFrom(m, m', b)
  {
  }

  lemma SizesMatch(m: map<nat, Byte>, argv: seq<CString>, envp: seq<CString>, argvAddrs: seq<nat>, envpAddrs: seq<nat>, random: seq<Byte>)
    requires UpperPart(m, argv, envp, argvAddrs, envpAddrs, random)
    ensures |argvAddrs| == |argv| && |envpAddrs| == |envp|
  {
  }

  /** The pages that vm_map has just mapped for the stack form a region, so the stack can be built on
      them. */
  lemma MappedPagesAreRegion(s: State, s': State, root: nat, lo: nat, hi: nat, frames: seq<nat>, flags: Flags, content: nat -> Page)
    requires MemoryMapping.RangeMapped(s, s', root, lo, frames, flags, content) && flags.user
    requires TreeOk(s'.tables, s'.own) && IsRoot(s'.own, root)
    requires lo % KB4 == 0 && hi == lo + |frames| * KB4 && hi <= 512 * GB512
    ensures Region(s', root, lo, hi)
  {
    hide WalkFrom, TreeOk, MemoryMapping.RangeMapped, OnData, Apart;
    forall w: nat | lo <= w < hi ensures OnData(s', root, w) {
      MappedPage(s, s', root, lo, frames, flags, content, w);
    }
    forall v: nat, w: nat | lo <= v < hi && lo <= w < hi && v / KB4 != w / KB4 ensures Apart(s', root, v, w) {
      MappedApart(s, s', root, lo, frames, flags, content, v, w);
    }
  }

  lemma MappedApart(s: State, s': State, root: nat, lo: nat, frames: seq<nat>, flags: Flags, content: nat -> Page, v: nat, w: nat)
    requires MemoryMapping.RangeMapped(s, s', root, lo, frames, flags, content) && flags.user
    requires lo % KB4 == 0 && lo + |frames| * KB4 <= 512 * GB512
    requires lo <= v < lo + |frames| * KB4 && lo <= w < lo + |frames| * KB4 && v / KB4 != w / KB4
    ensures Apart(s', root, v, w)
  {
    hide WalkFrom, MemoryMapping.PageMapped, OnData, UserAt, SamePage, Index;
    MappedPage(s, s', root, lo, frames, flags, content, v);
    MappedPage(s, s', root, lo, frames, flags, content, w);
    DifferentPages(lo / KB4, v, w);
  }

  lemma DifferentPages(p: nat, v: nat, w: nat)
    requires p * 0x1000 <= v && p * 0x1000 <= w && v / 0x1000 != w / 0x1000
    ensures (v - p * 0x1000) / 0x1000 != (w - p * 0x1000) / 0x1000
  {
    PageOffset(p, v);
    PageOffset(p, w);
  }

  lemma PageOffset(p: nat, v: nat)
    requires p * 0x1000 <= v
    ensures (v - p * 0x1000) / 0x1000 == v / 0x1000 - p
  {
  }

  lemma MappedPage(s: State, s': State, root: nat, lo: nat, frames: seq<nat>, flags: Flags, content: nat -> Page, w: nat)
    requires MemoryMapping.RangeMapped(s, s', root, lo, frames, flags, content) && flags.user
    requires lo % KB4 == 0 && lo <= w < lo + |frames| * KB4 <= 512 * GB512
    ensures UserAt(s'.tables, root, w) && FrameAt(s'.tables, root, w) == frames[(w - lo) / KB4]
    ensures OnData(s', root, w)
  {
    hide WalkFrom, TreeOk, SamePage, Index;
    var k := (w - lo) / KB4;
    PageOffset(lo / KB4, w);
    assert w / KB4 == PageAt(lo, k) / KB4;
    SamePageBySize(PageAt(lo, k), w);
    assert MemoryMapping.PageMapped(s, s', root, lo, frames, flags, content, k);
    var f := frames[k];
    PageAddrAligned(f);
    assert LeafEntry(f, flags).addr == f;
    assert (f + w % KB4) / KB4 * KB4 == f;
  }
}
