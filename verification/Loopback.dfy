/** The loopback sockets themselves: pools of records, a ring of slots in every listener, and a byte ring
    in every endpoint, changed in place. Every method is proved to do what the value model says. */
module Loopbacks {
  import opened Bytes
  import opened Options
  import opened ByteRings
  import opened LoopbackModel

  // ---------------------------------------------------------------------------------------------
  // The ring of a listener
  // ---------------------------------------------------------------------------------------------

  datatype Pending = Pending(used: bool, listening: bool, port: nat, slots: seq<Option<nat>>, head: nat, tail: nat, count: nat)

  function At(head: nat, k: nat): (r: nat)
    requires head < BACKLOG && k <= BACKLOG
    ensures r == if head + k < BACKLOG then head + k else head + k - BACKLOG
  {
    (head + k) % BACKLOG
  }

  ghost predicate RingOk(x: Pending) {
    && |x.slots| == BACKLOG && x.head < BACKLOG && x.count <= BACKLOG && x.tail == At(x.head, x.count)
    && forall k :: 0 <= k < BACKLOG ==> SlotOk(x, k)
  }

  /** The first `count` slots from the head on are taken, the others are empty. */
  predicate SlotOk(x: Pending, k: nat)
    requires |x.slots| == BACKLOG && x.head < BACKLOG && k < BACKLOG
  {
    x.slots[At(x.head, k)].Some? <==> k < x.count
  }

  function Endpoint(o: Option<nat>): nat { if o.Some? then o.value else 0 }

  ghost function Queue(x: Pending): (q: seq<nat>)
    requires RingOk(x)
    ensures |q| == x.count
    ensures forall k :: 0 <= k < x.count ==> Some(q[k]) == x.slots[At(x.head, k)]
  {
    assert forall k :: 0 <= k < x.count ==> SlotOk(x, k) && x.slots[At(x.head, k)].Some?;
    seq(x.count, k requires 0 <= k < x.count => Endpoint(x.slots[At(x.head, k)]))
  }

  function Pushed(x: Pending, d: nat): Pending
    requires |x.slots| == BACKLOG && x.tail < BACKLOG
  {
    x.(slots := x.slots[x.tail := Some(d)], tail := (x.tail + 1) % BACKLOG, count := x.count + 1)
  }

  lemma PushOk(x: Pending, d: nat)
    requires RingOk(x) && x.count < BACKLOG
    ensures x.tail < BACKLOG && RingOk(Pushed(x, d)) && Queue(Pushed(x, d)) == Queue(x) + [d]
  {
    var y := Pushed(x, d);
    forall k | 0 <= k < BACKLOG ensures SlotOk(y, k)
      && (k < x.count ==> y.slots[At(x.head, k)] == x.slots[At(x.head, k)]) { assert SlotOk(x, k); }
  }

  function Advanced(x: Pending): Pending
    requires |x.slots| == BACKLOG && x.head < BACKLOG && x.count > 0
  {
    x.(slots := x.slots[x.head := None], head := (x.head + 1) % BACKLOG, count := x.count - 1)
  }

  lemma PopOk(x: Pending)
    requires RingOk(x) && x.count > 0
    ensures x.slots[x.head] == Some(Queue(x)[0]) && RingOk(Advanced(x)) && Queue(Advanced(x)) == Queue(x)[1..]
  {
    var y := Advanced(x);
    assert At(x.head, 0) == x.head;
    assert SlotOk(x, 0);
    forall k | 0 <= k < BACKLOG ensures SlotOk(y, k) {
      if k + 1 < BACKLOG { assert SlotOk(x, k + 1); }
    }
    forall k | 0 <= k < x.count - 1 ensures Queue(y)[k] == Queue(x)[1..][k] { assert SlotOk(x, k + 1); }
  }

  /** The endpoints in the slots, in slot order. */
  function Live(slots: seq<Option<nat>>): seq<nat> {
    if slots == [] then [] else (if slots[0].Some? then [slots[0].value] else []) + Live(slots[1..])
  }

  lemma {:induction false} LiveConcat(a: seq<Option<nat>>, b: seq<Option<nat>>)
    ensures Live(a + b) == Live(a) + Live(b)
  {
    if a == [] {
      assert a + b == b;
    } else {
      assert (a + b)[1..] == a[1..] + b && (a + b)[0] == a[0];
      LiveConcat(a[1..], b);
      var h, x, y := if a[0].Some? then [a[0].value] else [], Live(a[1..]), Live(b);
      hide Live;
      assert h + (x + y) == h + x + y;
    }
  }

  lemma {:induction false} LiveNone(a: seq<Option<nat>>)
    requires forall i :: 0 <= i < |a| ==> a[i].None?
    ensures Live(a) == []
  {
    if a != [] { LiveNone(a[1..]); }
  }

  lemma {:induction false} LiveAll(a: seq<Option<nat>>, q: seq<nat>)
    requires |a| == |q| && forall i :: 0 <= i < |a| ==> a[i] == Some(q[i])
    ensures Live(a) == q
  {
    if a != [] {
      LiveAll(a[1..], q[1..]);
      assert q == [q[0]] + q[1..];
    }
  }

  /** Going through the slots in order meets the queue, the part behind the wrap first. */
  lemma SlotsInOrder(x: Pending, l: Listener)
    requires RingOk(x) && l.head == x.head && l.queue == Queue(x)
    ensures Live(x.slots) == SlotOrder(l)
  {
    var q, h, n, s := Queue(x), x.head, x.count, x.slots;
    forall i | 0 <= i < BACKLOG
      ensures h <= i < h + n ==> s[i] == Some(q[i - h])
      ensures i < h + n - BACKLOG ==> s[i] == Some(q[i + BACKLOG - h])
      ensures !(h <= i < h + n) && !(i < h + n - BACKLOG) ==> s[i] == None
    {
      var k := if i >= h then i - h else i + BACKLOG - h;
      assert SlotOk(x, k) && At(h, k) == i;
    }
    hide Live, Queue;
    if h + n <= BACKLOG {
      LiveMiddle(s, h, h + n, q);
    } else {
      LiveEnds(s, h + n - BACKLOG, h, q[BACKLOG - h..], q[..BACKLOG - h]);
    }
  }

  lemma LiveThree(s: seq<Option<nat>>, i: nat, j: nat)
    requires i <= j <= |s|
    ensures Live(s) == Live(s[..i]) + Live(s[i..j]) + Live(s[j..])
  {
    hide Live;
    assert s == s[..j] + s[j..] && s[..j] == s[..i] + s[i..j];
    LiveConcat(s[..j], s[j..]);
    LiveConcat(s[..i], s[i..j]);
  }

  /** A stretch of taken slots between empty ones. */
  lemma LiveMiddle(s: seq<Option<nat>>, i: nat, j: nat, b: seq<nat>)
    requires i <= j <= |s| && |b| == j - i
    requires forall k :: 0 <= k < |s| ==> s[k] == if i <= k < j then Some(b[k - i]) else None
    ensures Live(s) == b
  {
    hide Live;
    LiveThree(s, i, j);
    LiveNone(s[..i]);
    LiveAll(s[i..j], b);
    LiveNone(s[j..]);
  }

  /** Taken slots at both ends. */
  lemma LiveEnds(s: seq<Option<nat>>, i: nat, j: nat, a: seq<nat>, c: seq<nat>)
    requires i <= j <= |s| && |a| == i && |c| == |s| - j
    requires forall k :: 0 <= k < |s| ==> s[k] == if k < i then Some(a[k]) else if k < j then None else Some(c[k - j])
    ensures Live(s) == a + c
  {
    hide Live;
    LiveThree(s, i, j);
    LiveAll(s[..i], a);
    LiveNone(s[i..j]);
    LiveAll(s[j..], c);
  }

  // ---------------------------------------------------------------------------------------------
  // The sockets
  // ---------------------------------------------------------------------------------------------

  datatype End = End(used: bool, closed: bool, port: nat, peer: Option<nat>)

  ghost predicate Apart(a: ByteRing, b: ByteRing) { a != b && a.buf != b.buf }

  class Loopback {
    var socks: seq<Sock>
    var listens: seq<Pending>
    var ends: seq<End>
    const bufs: seq<ByteRing>
    ghost var arrived: seq<seq<nat>>
    ghost var accepted: seq<seq<nat>>
    ghost var sent: seq<seq<Byte>>
    ghost var got: seq<seq<Byte>>
    ghost const Heap: set<object>

    ghost predicate Valid()
      reads this, Heap
    {
      && |socks| == MAX_SOCKS && |listens| == MAX_LISTEN && |ends| == MAX_CONNS && |bufs| == MAX_CONNS
      && |arrived| == MAX_LISTEN && |accepted| == MAX_LISTEN && |sent| == MAX_CONNS && |got| == MAX_CONNS && this !in Heap
      && (forall l :: 0 <= l < MAX_LISTEN ==> RingOk(listens[l]))
      && (forall c :: 0 <= c < MAX_CONNS ==> bufs[c] in Heap && bufs[c].buf in Heap && bufs[c].Valid() && bufs[c].buf.Length == BUF_SIZE)
      && (forall c, d :: 0 <= c < d < MAX_CONNS ==> Apart(bufs[c], bufs[d]))
    }

    ghost function Conns(): (cs: seq<Conn>)
      requires Valid()
      reads this, Heap
      ensures |cs| == MAX_CONNS
      ensures forall c :: 0 <= c < MAX_CONNS ==>
                cs[c] == Conn(ends[c].used, ends[c].closed, ends[c].port, ends[c].peer, bufs[c].Contents(), sent[c], got[c])
    {
      seq(MAX_CONNS, c requires 0 <= c < MAX_CONNS && Valid() reads this, Heap =>
          Conn(ends[c].used, ends[c].closed, ends[c].port, ends[c].peer, bufs[c].Contents(), sent[c], got[c]))
    }

    ghost function Listeners(): (ls: seq<Listener>)
      requires Valid()
      reads this, Heap
      ensures |ls| == MAX_LISTEN
      ensures forall l :: 0 <= l < MAX_LISTEN ==>
                ls[l] == Listener(listens[l].used, listens[l].listening, listens[l].port, listens[l].head, Queue(listens[l]), arrived[l], accepted[l])
    {
      seq(MAX_LISTEN, l requires 0 <= l < MAX_LISTEN && Valid() reads this, Heap =>
          Listener(listens[l].used, listens[l].listening, listens[l].port, listens[l].head, Queue(listens[l]), arrived[l], accepted[l]))
    }

    ghost function State(): (n: Net)
      requires Valid()
      reads this, Heap
      ensures Shape(n)
    {
      Net(socks, Listeners(), Conns())
    }

    /** The pools as the kernel finds them: cleared. */
    constructor (bufs: seq<ByteRing>)
      requires |bufs| == MAX_CONNS && forall c :: 0 <= c < MAX_CONNS ==> bufs[c].Valid() && bufs[c].buf.Length == BUF_SIZE && bufs[c].Contents() == []
      requires forall c, d :: 0 <= c < d < MAX_CONNS ==> Apart(bufs[c], bufs[d])
      ensures Valid() && State() == Init() && this.bufs == bufs
    {
      socks := seq(MAX_SOCKS, _ => Sock(false, Unbound, None, None));
      listens := seq(MAX_LISTEN, _ => Pending(false, false, 0, seq(BACKLOG, _ => None), 0, 0, 0));
      ends := seq(MAX_CONNS, _ => End(false, false, 0, None));
      this.bufs := bufs;
      arrived, accepted := seq(MAX_LISTEN, _ => []), seq(MAX_LISTEN, _ => []);
      sent, got := seq(MAX_CONNS, _ => []), seq(MAX_CONNS, _ => []);
      Heap := (set b: ByteRing | b in bufs :: b as object) + (set b: ByteRing | b in bufs :: b.buf as object);
      new;
      forall l | 0 <= l < MAX_LISTEN ensures RingOk(listens[l]) && Queue(listens[l]) == [] { EmptyRing(listens[l]); }
      hide RingOk, Queue;
      assert forall c :: 0 <= c < MAX_CONNS ==> bufs[c] in bufs;
      assert Valid();
      StartsClear(this);
    }

    // -------------------------------------------------------------------------------------------
    // Single records
    // -------------------------------------------------------------------------------------------

    method PutSock(s: nat, x: Sock)
      requires Valid() && s < MAX_SOCKS
      modifies this`socks
      ensures Valid() && State() == SetSock(old(State()), s, x)
    {
      socks := socks[s := x];
      assert Listeners() == old(Listeners()) && Conns() == old(Conns());
    }

    method PutListener(l: nat, x: Pending, ghost arr: seq<nat>, ghost acc: seq<nat>)
      requires Valid() && l < MAX_LISTEN && RingOk(x)
      modifies this`listens, this`arrived, this`accepted
      ensures Valid() && State() == SetListener(old(State()), l, Listener(x.used, x.listening, x.port, x.head, Queue(x), arr, acc))
    {
      listens, arrived, accepted := listens[l := x], arrived[l := arr], accepted[l := acc];
      assert Listeners() == old(Listeners())[l := Listener(x.used, x.listening, x.port, x.head, Queue(x), arr, acc)];
      assert Conns() == old(Conns());
    }

    method PutEnd(c: nat, e: End)
      requires Valid() && c < MAX_CONNS
      modifies this`ends
      ensures Valid()
      ensures var x := old(State()).conns[c];
              State() == SetConn(old(State()), c, x.(used := e.used, closed := e.closed, port := e.port, peer := e.peer))
    {
      ends := ends[c := e];
      assert Listeners() == old(Listeners());
      assert Conns() == old(Conns())[c := old(Conns())[c].(used := e.used, closed := e.closed, port := e.port, peer := e.peer)];
    }

    /** An endpoint as loop_conn_alloc leaves it, with an empty buffer. */
    method FreshEnd(c: nat, e: End)
      requires Valid() && c < MAX_CONNS
      modifies this`ends, this`sent, this`got, bufs[c]
      ensures Valid() && State() == SetConn(old(State()), c, Conn(e.used, e.closed, e.port, e.peer, [], [], []))
    {
      ends, sent, got := ends[c := e], sent[c := []], got[c := []];
      bufs[c].Clear();
      assert Listeners() == old(Listeners());
      OneBuffer(c);
      assert Conns() == old(Conns())[c := Conn(e.used, e.closed, e.port, e.peer, [], [], [])];
    }

    /** A change of one buffer is a change of one endpoint. */
    twostate lemma OneBuffer(c: nat)
      requires old(Valid()) && c < MAX_CONNS && |bufs| == MAX_CONNS
      requires bufs[c].Valid() && bufs[c].buf.Length == BUF_SIZE
      requires forall o :: o in Heap && o != bufs[c] && o != bufs[c].buf ==> unchanged(o)
      ensures forall d :: 0 <= d < MAX_CONNS ==> bufs[d] in Heap && bufs[d].buf in Heap && bufs[d].Valid() && bufs[d].buf.Length == BUF_SIZE
      ensures forall d :: 0 <= d < MAX_CONNS && d != c ==> bufs[d].Contents() == old(bufs[d].Contents())
    {
    }

    // -------------------------------------------------------------------------------------------
    // Pools
    // -------------------------------------------------------------------------------------------

    method FreeSock() returns (r: Option<nat>)
      requires Valid()
      ensures r == FirstFree(SocksUsed(State()), 0)
    {
      for i := 0 to MAX_SOCKS
        invariant FirstFree(SocksUsed(State()), i) == FirstFree(SocksUsed(State()), 0)
      {
        if !socks[i].used {
          return Some(i);
        }
      }
      return None;
    }

    method FreeListener() returns (r: Option<nat>)
      requires Valid()
      ensures r == FirstFree(ListensUsed(State()), 0)
    {
      for i := 0 to MAX_LISTEN
        invariant FirstFree(ListensUsed(State()), i) == FirstFree(ListensUsed(State()), 0)
      {
        if !listens[i].used {
          return Some(i);
        }
      }
      return None;
    }

    method FreeConn(start: nat) returns (r: Option<nat>)
      requires Valid() && start <= MAX_CONNS
      ensures r == FirstFree(ConnsUsed(State()), start)
    {
      for i := start to MAX_CONNS
        invariant FirstFree(ConnsUsed(State()), i) == FirstFree(ConnsUsed(State()), start)
      {
        if !ends[i].used {
          return Some(i);
        }
      }
      return None;
    }

    // -------------------------------------------------------------------------------------------
    // Calls
    // -------------------------------------------------------------------------------------------

    /** loop_socket. */
    method OpenSocket(inet: bool, stream: bool, room: Room) returns (r: int)
      requires Valid()
      modifies this`socks
      ensures Valid() && (State(), r) == Socket(old(State()), inet, stream, room)
    {
      if !inet {
        return EAFNOSUPPORT;
      }
      if !stream {
        return -93;
      }
      var s := FreeSock();
      if s.None? {
        return EMFILE;
      }
      PutSock(s.value, Sock(room == Enough, Unbound, None, None));
      return if room == Enough then s.value else EMFILE;
    }

    method IsPortTaken(port: nat) returns (b: bool)
      requires Valid()
      ensures b == PortTaken(State(), port)
    {
      for i := 0 to MAX_LISTEN
        invariant forall l :: 0 <= l < i ==> !(listens[l].used && listens[l].port == port)
      {
        if listens[i].used && listens[i].port == port {
          assert State().listens[i].used && State().listens[i].port == port;
          return true;
        }
      }
      return false;
    }

    /** loop_bind. */
    method BindTo(s: nat, a: Addr) returns (r: int)
      requires Valid()
      modifies this`socks, this`listens, this`arrived, this`accepted
      ensures Valid() && (State(), r) == Bind(old(State()), s, a)
    {
      if s >= MAX_SOCKS || !socks[s].used {
        return EBADF;
      }
      if socks[s].kind != Unbound {
        return EINVAL;
      }
      if !a.inet {
        return EAFNOSUPPORT;
      }
      if !a.loopback {
        return EADDRNOTAVAIL;
      }
      if a.port == 0 {
        return EINVAL;
      }
      var taken := IsPortTaken(a.port);
      if taken {
        return EADDRINUSE;
      }
      var l := FreeListener();
      if l.None? {
        return EADDRINUSE;
      }
      var x := Pending(true, false, a.port, seq(BACKLOG, _ => None), 0, 0, 0);
      EmptyRing(x);
      PutListener(l.value, x, [], []);
      PutSock(s, socks[s].(kind := Listening, lst := l));
      return 0;
    }

    /** loop_listen. */
    method StartListening(s: nat) returns (r: int)
      requires Valid()
      modifies this`listens, this`arrived, this`accepted
      ensures Valid() && (State(), r) == Listen(old(State()), s)
    {
      if s >= MAX_SOCKS || !socks[s].used {
        return EBADF;
      }
      if socks[s].kind != Listening || socks[s].lst.None? || socks[s].lst.value >= MAX_LISTEN {
        return EINVAL;
      }
      var l := socks[s].lst.value;
      SameRing(listens[l], listens[l].(listening := true));
      PutListener(l, listens[l].(listening := true), arrived[l], accepted[l]);
      return 0;
    }

    method ListenerOn(port: nat) returns (r: Option<nat>)
      requires Valid()
      ensures r == FindListener(State(), port, 0)
    {
      for i := 0 to MAX_LISTEN
        invariant FindListener(State(), port, i) == FindListener(State(), port, 0)
      {
        if listens[i].used && listens[i].listening && listens[i].port == port {
          return Some(i);
        }
      }
      return None;
    }

    /** loop_connect. */
    method ConnectTo(s: nat, a: Addr) returns (r: int)
      requires Valid()
      modifies this, Heap
      ensures Valid() && (State(), r) == Connect(old(State()), s, a)
    {
      hide Queue, RingOk, MakeConnection;
      if s >= MAX_SOCKS || !socks[s].used {
        return EBADF;
      }
      if socks[s].kind != Unbound {
        return EINVAL;
      }
      if !a.inet {
        return EAFNOSUPPORT;
      }
      if !a.loopback {
        return ENETUNREACH;
      }
      if a.port == 0 {
        return EINVAL;
      }
      var l := ListenerOn(a.port);
      if l.None? || listens[l.value].count >= BACKLOG {
        return ECONNREFUSED;
      }
      r := MakePair(s, l.value, a.port);
    }

    /** Two endpoints from the pool, if there are two. */
    method MakePair(s: nat, l: nat, port: nat) returns (r: int)
      requires Valid() && s < MAX_SOCKS && l < MAX_LISTEN && listens[l].count < BACKLOG
      modifies this, Heap
      ensures Valid() && (State(), r) == MakeConnection(old(State()), s, l, port)
    {
      ghost var n := State();
      PairPlan(n, s, l, port);
      hide Valid, FirstFree, ConnsUsed, MakeConnection, SetConn, Shape, Second;
      var c := TakeConn();
      if c.None? {
        return ENOMEM;
      }
      FreshState(n, c.value);
      r := SecondEnd(s, l, c.value, port);
    }

    /** The server's endpoint, once the client's is there. */
    method SecondEnd(s: nat, l: nat, c: nat, port: nat) returns (r: int)
      requires Valid() && s < MAX_SOCKS && l < MAX_LISTEN && listens[l].count < BACKLOG && c < MAX_CONNS
      requires State().conns[c] == Conn(true, false, 0, None, [], [], [])
      modifies this, Heap
      ensures Valid() && (State(), r) == Second(old(State()), s, l, c, port)
    {
      hide Connected2;
      var d := FreeConn(0);
      if d.None? {
        DropConn(c);
        return ENOMEM;
      }
      LinkUp(s, l, c, d.value, port);
      return 0;
    }

    /** loop_conn_alloc. */
    method TakeConn() returns (c: Option<nat>)
      requires Valid()
      modifies this`ends, this`sent, this`got, Heap
      ensures Valid() && c == FirstFree(ConnsUsed(old(State())), 0) && listens == old(listens)
      ensures c.None? ==> State() == old(State())
      ensures c.Some? ==> State() == SetConn(old(State()), c.value, Conn(true, false, 0, None, [], [], []))
    {
      c := FreeConn(0);
      if c.Some? {
        FreshEnd(c.value, End(true, false, 0, None));
      }
    }

    method DropConn(c: nat)
      requires Valid() && c < MAX_CONNS && State().conns[c] == Conn(true, false, 0, None, [], [], [])
      modifies this`ends
      ensures Valid() && State() == SetConn(old(State()), c, Conn(false, false, 0, None, [], [], []))
    {
      PutEnd(c, End(false, false, 0, None));
    }

    /** Two endpoints that point at each other. */
    method Pair(c: nat, d: nat, port: nat)
      requires Valid() && c < MAX_CONNS && d < MAX_CONNS && c != d && State().conns[c] == Conn(true, false, 0, None, [], [], [])
      modifies this`ends, this`sent, this`got, bufs[d]
      ensures Valid()
      ensures var client, server := Conn(true, false, 0, Some(d), [], [], []), Conn(true, false, port, Some(c), [], [], []);
              State() == old(State()).(conns := old(State()).conns[c := client][d := server])
    {
      ghost var n := State();
      FreshEnd(d, End(true, false, port, Some(c)));
      PutEnd(c, End(true, false, 0, Some(d)));
      assert State().conns == n.conns[c := Conn(true, false, 0, Some(d), [], [], [])][d := Conn(true, false, port, Some(c), [], [], [])];
    }

    method Enqueue(l: nat, d: nat)
      requires Valid() && l < MAX_LISTEN && listens[l].count < BACKLOG
      modifies this`listens, this`arrived, this`accepted
      ensures Valid()
      ensures var x := old(State()).listens[l]; State() == SetListener(old(State()), l, x.(queue := x.queue + [d], arrived := x.arrived + [d]))
    {
      hide Queue, RingOk;
      RingBounds(listens[l]);
      PushOk(listens[l], d);
      PutListener(l, Pushed(listens[l], d), arrived[l] + [d], accepted[l]);
    }

    /** The endpoints are linked, the server's is queued, and the socket gets the client's. */
    method LinkUp(s: nat, l: nat, c: nat, d: nat, port: nat)
      requires Valid() && s < MAX_SOCKS && l < MAX_LISTEN && c < MAX_CONNS && d < MAX_CONNS && c != d && listens[l].count < BACKLOG
      requires State().conns[c] == Conn(true, false, 0, None, [], [], [])
      modifies this, Heap
      ensures Valid() && State() == Connected2(old(State()), s, l, c, d, port)
    {
      hide Queue, RingOk;
      Pair(c, d, port);
      Enqueue(l, d);
      PutSock(s, socks[s].(kind := Connected, conn := Some(c)));
    }

    /** loop_accept. */
    method AcceptFrom(s: nat, room: Room) returns (r: int)
      requires Valid()
      modifies this`socks, this`listens, this`arrived, this`accepted
      ensures Valid() && (State(), r) == Accept(old(State()), s, room)
    {
      hide Queue, RingOk;
      if s >= MAX_SOCKS || !socks[s].used {
        return EBADF;
      }
      if socks[s].kind != Listening || socks[s].lst.None? || socks[s].lst.value >= MAX_LISTEN || !listens[socks[s].lst.value].listening {
        return EINVAL;
      }
      var l := socks[s].lst.value;
      var x := listens[l];
      if x.count == 0 {
        return EAGAIN;
      }
      RingBounds(x);
      PopOk(x);
      var server := x.slots[x.head];
      PutListener(l, Advanced(x), arrived[l], accepted[l] + [Endpoint(server)]);
      var t := FreeSock();
      if t.None? {
        return EMFILE;
      }
      if room == NoFile {
        PutSock(t.value, Sock(false, Unbound, None, None));
        return EMFILE;
      }
      PutSock(t.value, Sock(room == Enough, Connected, None, server));
      return if room == Enough then t.value else EMFILE;
    }

    // -------------------------------------------------------------------------------------------
    // Data
    // -------------------------------------------------------------------------------------------

    /** Bytes out of endpoint `c`. */
    method TakeBytes(c: nat, dst: array<Byte>, at: nat, n: nat) returns (k: nat)
      requires Valid() && c < MAX_CONNS && at + n <= dst.Length && dst !in Heap
      modifies this`got, bufs[c], dst
      ensures Valid() && k == Min(n, |old(State()).conns[c].buf|)
      ensures State() == SetConn(old(State()), c, Taken(old(State()).conns[c], k))
              && dst[..] == Over(old(dst[..]), at, old(State()).conns[c].buf[..k])
    {
      hide Over;
      ghost var x := Conns()[c];
      k := bufs[c].Get(dst, at, n);
      got := got[c := got[c] + x.buf[..k]];
      OneBuffer(c);
      assert Listeners() == old(Listeners());
      assert Conns() == old(Conns())[c := Taken(x, k)];
    }

    /** Bytes into endpoint `c`. */
    method GiveBytes(c: nat, data: seq<Byte>) returns (k: nat)
      requires Valid() && c < MAX_CONNS
      modifies this`sent, bufs[c], bufs[c].buf
      ensures Valid() && k == Min(|data|, BUF_SIZE - |old(State()).conns[c].buf|)
      ensures State() == SetConn(old(State()), c, Given(old(State()).conns[c], data[..k]))
    {
      ghost var x := Conns()[c];
      k := bufs[c].Put(data);
      sent := sent[c := sent[c] + data[..k]];
      OneBuffer(c);
      assert Listeners() == old(Listeners());
      assert Conns() == old(Conns())[c := Given(x, data[..k])];
    }

    /** loop_recv_io. */
    method Receive(s: nat, dst: array<Byte>) returns (total: nat)
      requires Valid() && dst !in Heap
      modifies this`got, Heap, dst
      ensures Valid()
      ensures var (n, bs) := Recv(old(State()), s, dst.Length);
              State() == n && total == |bs| && total <= dst.Length && dst[..] == Over(old(dst[..]), 0, bs)
    {
      hide Over;
      OverNone(dst[..], 0);
      if s >= MAX_SOCKS || !socks[s].used || socks[s].kind != Connected || socks[s].conn.None? || socks[s].conn.value >= MAX_CONNS {
        return 0;
      }
      total := DrainInto(socks[s].conn.value, dst);
    }

    /** The loop of loop_recv_io: it ends when the buffer is empty or the request is met. */
    method DrainInto(c: nat, dst: array<Byte>) returns (total: nat)
      requires Valid() && c < MAX_CONNS && dst !in Heap
      modifies this`got, Heap, dst
      ensures Valid() && total == Min(dst.Length, |old(State()).conns[c].buf|)
      ensures State() == SetConn(old(State()), c, Taken(old(State()).conns[c], total))
              && dst[..] == Over(old(dst[..]), 0, old(State()).conns[c].buf[..total])
    {
      hide Over, Valid, SetConn, Taken, Drained;
      ghost var n, d := State(), dst[..];
      total := 0;
      DrainedStart(n, c, d);
      var size := dst.Length;
      while total < size
        invariant Valid() && total <= size && Drained(n, State(), c, d, dst[..], total)
        decreases size - total
      {
        var k := DrainOnce(c, dst, total, n, d);
        if k == 0 {
          break;
        }
        total := total + k;
      }
      DrainedEnd(n, State(), c, d, dst[..], total);
    }

    method DrainOnce(c: nat, dst: array<Byte>, total: nat, ghost n: Net, ghost d: seq<Byte>) returns (k: nat)
      requires Valid() && Shape(n) && c < MAX_CONNS && dst !in Heap && total < dst.Length && Drained(n, State(), c, d, dst[..], total)
      modifies this`got, Heap, dst
      ensures Valid() && total + k <= dst.Length && Drained(n, State(), c, d, dst[..], total + k)
      ensures k == 0 ==> total == |n.conns[c].buf|
    {
      hide Over, SetConn, Taken;
      StillThere(n, c, total);
      var left := dst.Length - total;
      k := TakeBytes(c, dst, total, if left > BUF_SIZE then BUF_SIZE else left);
      TakenTwice(n, c, total, k, d);
    }

    /** loop_send_io. */
    method Transmit(s: nat, data: seq<Byte>) returns (total: nat)
      requires Valid()
      modifies this`sent, Heap
      ensures Valid() && (State(), total) == Send(old(State()), s, data)
    {
      if s >= MAX_SOCKS || !socks[s].used || socks[s].kind != Connected || socks[s].conn.None? || socks[s].conn.value >= MAX_CONNS {
        return 0;
      }
      var self := ends[socks[s].conn.value];
      if self.closed {
        return 0;
      }
      if self.peer.None? || self.peer.value >= MAX_CONNS || ends[self.peer.value].closed {
        return 0;
      }
      total := FillFrom(self.peer.value, data);
    }

    /** The loop of loop_send_io: it ends when the buffer is full or all data is taken. */
    method FillFrom(c: nat, data: seq<Byte>) returns (total: nat)
      requires Valid() && c < MAX_CONNS
      modifies this`sent, Heap
      ensures Valid() && total == Min(|data|, BUF_SIZE - |old(State()).conns[c].buf|)
      ensures State() == SetConn(old(State()), c, Given(old(State()).conns[c], data[..total]))
    {
      hide Valid, SetConn, Given, Filled;
      ghost var n := State();
      total := 0;
      FilledStart(n, c, data);
      while total < |data|
        invariant Valid() && total <= |data| && Filled(n, State(), c, data, total)
        decreases |data| - total
      {
        var k := FillOnce(c, data, total, n);
        if k == 0 {
          break;
        }
        total := total + k;
      }
      FilledEnd(n, State(), c, data, total);
    }

    method FillOnce(c: nat, data: seq<Byte>, total: nat, ghost n: Net) returns (k: nat)
      requires Valid() && Shape(n) && c < MAX_CONNS && total < |data| && Filled(n, State(), c, data, total)
      modifies this`sent, Heap
      ensures Valid() && total + k <= |data| && Filled(n, State(), c, data, total + k)
      ensures k == 0 ==> |n.conns[c].buf| + total == BUF_SIZE
    {
      hide SetConn, Given;
      RoomLeft(n, c, data[..total]);
      var left := |data| - total;
      var chunk := data[total..total + if left > BUF_SIZE then BUF_SIZE else left];
      k := GiveBytes(c, chunk);
      GivenTwice(n, c, data, total, chunk, k);
    }

    // -------------------------------------------------------------------------------------------
    // Closing
    // -------------------------------------------------------------------------------------------

    /** An endpoint goes, and its peer is told. */
    method DetachEnd(c: nat, mark: bool)
      requires Valid() && c < MAX_CONNS
      modifies this`ends
      ensures Valid() && State() == Detach(old(State()), c, mark)
    {
      var p := ends[c].peer;
      if p.Some? && p.value < MAX_CONNS {
        PutEnd(p.value, ends[p.value].(peer := None, closed := true));
      }
      PutEnd(c, ends[c].(used := false, closed := ends[c].closed || mark));
    }

    /** The slots of a listener that is closed. */
    method DetachSlots(slots: seq<Option<nat>>)
      requires Valid()
      modifies this`ends
      ensures Valid() && State() == DetachAll(old(State()), Live(slots))
    {
      hide Detach, Live, Valid;
      ghost var n := State();
      for i := 0 to |slots|
        invariant Valid() && DetachAll(State(), Live(slots[i..])) == DetachAll(n, Live(slots))
      {
        LiveStep(slots, i);
        DetachStep(State(), slots[i], Live(slots[i + 1..]));
        if slots[i].Some? && slots[i].value < MAX_CONNS {
          DetachEnd(slots[i].value, false);
        }
      }
      LiveDone(slots);
    }

    /** loop_close. */
    method CloseSocket(s: nat)
      requires Valid()
      modifies this
      ensures Valid() && State() == Close(old(State()), s)
    {
      hide Queue, RingOk, Detach, DetachAll;
      if s >= MAX_SOCKS || !socks[s].used {
        return;
      }
      var x := socks[s];
      if x.kind == Connected && x.conn.Some? && x.conn.value < MAX_CONNS {
        DetachEnd(x.conn.value, false);
        PutSock(s, x.(used := false, conn := None));
      } else if x.kind == Listening && x.lst.Some? && x.lst.value < MAX_LISTEN {
        CloseListener(x.lst.value);
        PutSock(s, x.(used := false, lst := None));
      } else {
        PutSock(s, x.(used := false));
      }
    }

    method CloseListener(l: nat)
      requires Valid() && l < MAX_LISTEN
      modifies this`ends, this`listens, this`arrived, this`accepted
      ensures Valid()
      ensures var x := old(State()).listens[l];
              State() == SetListener(DetachAll(old(State()), SlotOrder(x)), l, x.(used := false, queue := []))
      ensures socks == old(socks)
    {
      hide Queue, RingOk, DetachAll, Live;
      ghost var n := State();
      var x := listens[l];
      SlotsInOrder(x, n.listens[l]);
      DetachSlots(x.slots);
      RingBounds(x);
      // loop_close leaves the counters of a free listener; the next allocation clears them.
      var y := x.(used := false, slots := seq(BACKLOG, _ => None), tail := x.head, count := 0);
      ClearedRing(y);
      PutListener(l, y, arrived[l], accepted[l]);
    }

    /** loop_shutdown. */
    method ShutdownSocket(s: nat) returns (r: int)
      requires Valid()
      modifies this
      ensures Valid() && (State(), r) == Shutdown(old(State()), s)
    {
      hide Detach;
      if s >= MAX_SOCKS || !socks[s].used {
        return EBADF;
      }
      var x := socks[s];
      if x.kind == Connected && x.conn.Some? && x.conn.value < MAX_CONNS {
        DetachEnd(x.conn.value, true);
        PutSock(s, x.(conn := None));
      }
      return 0;
    }
  }

  /** Cleared pools are the initial state. */
  lemma StartsClear(lo: Loopback)
    requires lo.Valid()
    requires forall s :: 0 <= s < MAX_SOCKS ==> lo.socks[s] == Sock(false, Unbound, None, None)
    requires forall l :: 0 <= l < MAX_LISTEN ==>
               var x := lo.listens[l];
               && !x.used && !x.listening && x.port == 0 && x.head == 0 && Queue(x) == []
               && lo.arrived[l] == [] && lo.accepted[l] == []
    requires forall c :: 0 <= c < MAX_CONNS ==>
               lo.ends[c] == End(false, false, 0, None) && lo.bufs[c].Contents() == [] && lo.sent[c] == [] && lo.got[c] == []
    ensures lo.State() == Init()
  {
    hide RingOk, Queue;
    assert lo.socks == Init().socks;
    assert lo.Listeners() == Init().listens;
    assert lo.Conns() == Init().conns;
  }

  lemma EmptyRing(x: Pending)
    requires |x.slots| == BACKLOG && (forall k :: 0 <= k < BACKLOG ==> x.slots[k].None?) && x.head == 0 && x.tail == 0 && x.count == 0
    ensures RingOk(x) && Queue(x) == []
  {
  }

  lemma SetTwice(n: Net, c: nat)
    requires Shape(n) && c < MAX_CONNS
    ensures SetConn(SetConn(n, c, Conn(true, false, 0, None, [], [], [])), c, Conn(false, false, 0, None, [], [], []))
         == SetConn(n, c, Conn(false, false, 0, None, [], [], []))
  {
  }

  lemma FreshState(n: Net, c: nat)
    requires Shape(n) && c < MAX_CONNS
    ensures SetConn(n, c, Conn(true, false, 0, None, [], [], [])).conns[c] == Conn(true, false, 0, None, [], [], [])
  {
  }

  /** What is left to do when the client's endpoint `c` is allocated. */
  function Second(n: Net, s: nat, l: nat, c: nat, port: nat): (Net, int)
    requires Shape(n) && s < MAX_SOCKS && l < MAX_LISTEN && c < MAX_CONNS
  {
    var d := FirstFree(ConnsUsed(n), 0);
    if d.None? then (SetConn(n, c, Conn(false, false, 0, None, [], [], [])), ENOMEM) else (Connected2(n, s, l, c, d.value, port), 0)
  }

  /** Making a connection, one allocation at a time. */
  lemma PairPlan(n: Net, s: nat, l: nat, port: nat)
    requires Shape(n) && s < MAX_SOCKS && l < MAX_LISTEN
    ensures var c := FirstFree(ConnsUsed(n), 0);
            MakeConnection(n, s, l, port)
            == if c.None? then (n, ENOMEM) else Second(SetConn(n, c.value, Conn(true, false, 0, None, [], [], [])), s, l, c.value, port)
  {
    hide Connected2, FirstFree;
    var c := FirstFree(ConnsUsed(n), 0);
    if c.Some? {
      var n1 := SetConn(n, c.value, Conn(true, false, 0, None, [], [], []));
      SecondFree(n, n1, c.value);
      SetTwice(n, c.value);
      var d := FirstFree(ConnsUsed(n), c.value + 1);
      if d.Some? { SamePair(n, c.value, s, l, d.value, port); }
    }
  }

  /** The client's endpoint is set up once more when the pair is complete. */
  lemma SamePair(n: Net, c: nat, s: nat, l: nat, d: nat, port: nat)
    requires Shape(n) && c < MAX_CONNS && d < MAX_CONNS && s < MAX_SOCKS && l < MAX_LISTEN
    ensures var n1 := SetConn(n, c, Conn(true, false, 0, None, [], [], []));
            Shape(n1) && Connected2(n1, s, l, c, d, port) == Connected2(n, s, l, c, d, port)
  {
    var bare, linked := Conn(true, false, 0, None, [], [], []), Conn(true, false, 0, Some(d), [], [], []);
    assert n.conns[c := bare][c := linked] == n.conns[c := linked];
  }

  lemma SameRing(x: Pending, y: Pending)
    requires RingOk(x) && y == x.(used := y.used, listening := y.listening, port := y.port)
    ensures RingOk(y) && Queue(y) == Queue(x)
  {
    forall k | 0 <= k < BACKLOG ensures SlotOk(y, k) { assert SlotOk(x, k); }
  }

  lemma RingBounds(x: Pending)
    requires RingOk(x)
    ensures |x.slots| == BACKLOG && x.head < BACKLOG && x.tail < BACKLOG && x.count <= BACKLOG
  {
  }

  /** The second search for a free endpoint goes on behind the first one found. */
  lemma SecondFree(n: Net, n': Net, c: nat)
    requires Shape(n) && Shape(n') && FirstFree(ConnsUsed(n), 0) == Some(c)
    requires n'.conns == n.conns[c := n'.conns[c]] && n'.conns[c].used
    ensures FirstFree(ConnsUsed(n'), 0) == FirstFree(ConnsUsed(n), c + 1)
  {
    var u := ConnsUsed(n);
    assert ConnsUsed(n') == u[c := true];
    SkipUsed(u[c := true], 0, c + 1);
    SameFree(u[c := true], u, c + 1);
  }

  lemma {:induction false} SkipUsed(u: seq<bool>, i: nat, j: nat)
    requires i <= j <= |u| && forall k :: i <= k < j ==> u[k]
    ensures FirstFree(u, i) == FirstFree(u, j)
    decreases j - i
  {
    if i < j { SkipUsed(u, i + 1, j); }
  }

  lemma {:induction false} SameFree(u: seq<bool>, v: seq<bool>, i: nat)
    requires |u| == |v| && i <= |u| && forall k :: i <= k < |u| ==> u[k] == v[k]
    ensures FirstFree(u, i) == FirstFree(v, i)
    decreases |u| - i
  {
    if i < |u| { SameFree(u, v, i + 1); }
  }

  /** `total` bytes of endpoint `c` have been read so far. */
  ghost predicate Drained(n: Net, now: Net, c: nat, d: seq<Byte>, dst: seq<Byte>, total: nat)
    requires Shape(n) && c < MAX_CONNS
  {
    total <= |n.conns[c].buf| && total <= |d| && now == SetConn(n, c, Taken(n.conns[c], total))
      && dst == Over(d, 0, n.conns[c].buf[..total])
  }

  lemma DrainedStart(n: Net, c: nat, d: seq<Byte>)
    requires Shape(n) && c < MAX_CONNS
    ensures Drained(n, n, c, d, d, 0)
  {
    OverNone(d, 0);
    NothingTaken(n, c);
  }

  lemma DrainedEnd(n: Net, now: Net, c: nat, d: seq<Byte>, dst: seq<Byte>, total: nat)
    requires Shape(n) && c < MAX_CONNS && Drained(n, now, c, d, dst, total)
    ensures total <= |n.conns[c].buf| && total <= |d| && now == SetConn(n, c, Taken(n.conns[c], total))
            && dst == Over(d, 0, n.conns[c].buf[..total])
  {
  }

  /** `total` bytes of `data` have been put into endpoint `c` so far. */
  ghost predicate Filled(n: Net, now: Net, c: nat, data: seq<Byte>, total: nat)
    requires Shape(n) && c < MAX_CONNS
  {
    total <= |data| && |n.conns[c].buf| + total <= BUF_SIZE && now == SetConn(n, c, Given(n.conns[c], data[..total]))
  }

  lemma FilledStart(n: Net, c: nat, data: seq<Byte>)
    requires Shape(n) && c < MAX_CONNS
    ensures Filled(n, n, c, data, 0)
  {
    assert data[..0] == [];
    NothingGiven(n, c);
  }

  lemma FilledEnd(n: Net, now: Net, c: nat, data: seq<Byte>, total: nat)
    requires Shape(n) && c < MAX_CONNS && Filled(n, now, c, data, total)
    ensures total <= |data| && |n.conns[c].buf| + total <= BUF_SIZE && now == SetConn(n, c, Given(n.conns[c], data[..total]))
  {
  }

  lemma NothingTaken(n: Net, c: nat)
    requires Shape(n) && c < MAX_CONNS
    ensures SetConn(n, c, Taken(n.conns[c], 0)) == n && n.conns[c].buf[..0] == []
  {
    assert n.conns[c].got + [] == n.conns[c].got;
    assert n.conns[c := n.conns[c]] == n.conns;
  }

  lemma StillThere(n: Net, c: nat, t: nat)
    requires Shape(n) && c < MAX_CONNS && t <= |n.conns[c].buf|
    ensures SetConn(n, c, Taken(n.conns[c], t)).conns[c].buf == n.conns[c].buf[t..]
  {
  }

  /** Taking twice is taking more. */
  lemma TakenTwice(n: Net, c: nat, t: nat, k: nat, d: seq<Byte>)
    requires Shape(n) && c < MAX_CONNS && t + k <= |n.conns[c].buf| && t + k <= |d|
    ensures var n1 := SetConn(n, c, Taken(n.conns[c], t));
            n1.conns[c].buf == n.conns[c].buf[t..] && SetConn(n1, c, Taken(n1.conns[c], k)) == SetConn(n, c, Taken(n.conns[c], t + k))
    ensures Over(Over(d, 0, n.conns[c].buf[..t]), t, n.conns[c].buf[t..][..k]) == Over(d, 0, n.conns[c].buf[..t + k])
  {
    var b, n1 := n.conns[c].buf, SetConn(n, c, Taken(n.conns[c], t));
    assert b[..t] + b[t..][..k] == b[..t + k] && b[t..][k..] == b[t + k..];
    OverOver(d, 0, b[..t], b[t..][..k]);
    assert n.conns[c].got + b[..t] + b[t..][..k] == n.conns[c].got + b[..t + k];
    assert SetConn(n1, c, Taken(n1.conns[c], k)).conns == SetConn(n, c, Taken(n.conns[c], t + k)).conns;
  }

  lemma NothingGiven(n: Net, c: nat)
    requires Shape(n) && c < MAX_CONNS
    ensures SetConn(n, c, Given(n.conns[c], [])) == n
  {
    assert n.conns[c].buf + [] == n.conns[c].buf && n.conns[c].sent + [] == n.conns[c].sent;
    assert n.conns[c := n.conns[c]] == n.conns;
  }

  lemma RoomLeft(n: Net, c: nat, data: seq<Byte>)
    requires Shape(n) && c < MAX_CONNS
    ensures |SetConn(n, c, Given(n.conns[c], data)).conns[c].buf| == |n.conns[c].buf| + |data|
  {
  }

  lemma GivenTwice(n: Net, c: nat, data: seq<Byte>, t: nat, chunk: seq<Byte>, k: nat)
    requires Shape(n) && c < MAX_CONNS && t + |chunk| <= |data| && chunk == data[t..t + |chunk|] && k <= |chunk|
    ensures var n1 := SetConn(n, c, Given(n.conns[c], data[..t]));
            SetConn(n1, c, Given(n1.conns[c], chunk[..k])) == SetConn(n, c, Given(n.conns[c], data[..t + k]))
  {
    var x, n1 := n.conns[c], SetConn(n, c, Given(n.conns[c], data[..t]));
    assert data[..t] + chunk[..k] == data[..t + k];
    assert x.buf + data[..t] + chunk[..k] == x.buf + data[..t + k] && x.sent + data[..t] + chunk[..k] == x.sent + data[..t + k];
    assert SetConn(n1, c, Given(n1.conns[c], chunk[..k])).conns == SetConn(n, c, Given(x, data[..t + k])).conns;
  }

  lemma LiveStep(slots: seq<Option<nat>>, i: nat)
    requires i < |slots|
    ensures Live(slots[i..]) == (if slots[i].Some? then [slots[i].value] else []) + Live(slots[i + 1..])
  {
    assert slots[i..][1..] == slots[i + 1..];
  }

  lemma DetachStep(n: Net, x: Option<nat>, rest: seq<nat>)
    requires Shape(n)
    ensures DetachAll(n, (if x.Some? then [x.value] else []) + rest)
         == DetachAll(if x.Some? && x.value < MAX_CONNS then Detach(n, x.value, false) else n, rest)
  {
    hide Detach;
    if x.Some? {
      assert ([x.value] + rest)[1..] == rest;
    } else {
      assert [] + rest == rest;
    }
  }

  lemma LiveDone(slots: seq<Option<nat>>)
    ensures Live(slots[|slots|..]) == [] && slots[0..] == slots
  {
  }

  lemma ClearedRing(x: Pending)
    requires |x.slots| == BACKLOG && (forall k :: 0 <= k < BACKLOG ==> x.slots[k].None?) && x.head < BACKLOG
             && x.tail == x.head && x.count == 0
    ensures RingOk(x) && Queue(x) == []
  {
  }
}
