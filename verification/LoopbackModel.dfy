/** Loopback sockets over values: sockets, listeners with a queue of endpoints to accept, and connection
    endpoints that point at each other. */
module LoopbackModel {
  import opened Bytes
  import opened Options

  const MAX_SOCKS := 32
  const MAX_LISTEN := 16
  const MAX_CONNS := 64
  const BACKLOG := 8
  const BUF_SIZE := 256

  const EBADF := -9
  const EAGAIN := -11
  const ENOMEM := -12
  const EINVAL := -22
  const EMFILE := -24
  const EAFNOSUPPORT := -97
  const EADDRINUSE := -98
  const EADDRNOTAVAIL := -99
  const ENETUNREACH := -101
  const ECONNREFUSED := -111

  datatype Kind = Unbound | Listening | Connected

  datatype Sock = Sock(used: bool, kind: Kind, lst: Option<nat>, conn: Option<nat>)

  /** A listener: `queue` holds server endpoints in connect order, from slot `head` of its ring on;
      `arrived` and `accepted` are all endpoints ever queued and ever taken. */
  datatype Listener = Listener(used: bool, listening: bool, port: nat, head: nat, queue: seq<nat>, arrived: seq<nat>, accepted: seq<nat>)

  /** An endpoint; `sent` is everything ever put into its buffer, `got` everything ever read from it. */
  datatype Conn = Conn(used: bool, closed: bool, port: nat, peer: Option<nat>, buf: seq<Byte>, sent: seq<Byte>, got: seq<Byte>)

  datatype Net = Net(socks: seq<Sock>, listens: seq<Listener>, conns: seq<Conn>)

  /** An address as parsed: the family is AF_INET, the host is 127.0.0.1, the port. */
  datatype Addr = Addr(inet: bool, loopback: bool, port: nat)

  predicate Shape(n: Net) {
    && |n.socks| == MAX_SOCKS && |n.listens| == MAX_LISTEN && |n.conns| == MAX_CONNS
    && (forall c :: 0 <= c < MAX_CONNS ==> |n.conns[c].buf| <= BUF_SIZE)
    && (forall l :: 0 <= l < MAX_LISTEN ==> |n.listens[l].queue| <= BACKLOG && n.listens[l].head < BACKLOG)
  }

  function Init(): (n: Net)
    ensures Shape(n)
  {
    Net(seq(MAX_SOCKS, _ => Sock(false, Unbound, None, None)), seq(MAX_LISTEN, _ => Listener(false, false, 0, 0, [], [], [])),
        seq(MAX_CONNS, _ => Conn(false, false, 0, None, [], [], [])))
  }

  // ---------------------------------------------------------------------------------------------
  // Pools
  // ---------------------------------------------------------------------------------------------

  /** The first free slot of a pool from `i` on. */
  function FirstFree(used: seq<bool>, i: nat): (r: Option<nat>)
    requires i <= |used|
    ensures r.Some? ==> i <= r.value < |used| && !used[r.value] && forall j :: i <= j < r.value ==> used[j]
    ensures r.None? ==> forall j :: i <= j < |used| ==> used[j]
    decreases |used| - i
  {
    if i == |used| then None else if !used[i] then Some(i) else FirstFree(used, i + 1)
  }

  function SocksUsed(n: Net): (u: seq<bool>)
    ensures |u| == |n.socks| && forall i :: 0 <= i < |u| ==> u[i] == n.socks[i].used
  {
    seq(|n.socks|, i requires 0 <= i < |n.socks| => n.socks[i].used)
  }

  function ListensUsed(n: Net): (u: seq<bool>)
    ensures |u| == |n.listens| && forall i :: 0 <= i < |u| ==> u[i] == n.listens[i].used
  {
    seq(|n.listens|, i requires 0 <= i < |n.listens| => n.listens[i].used)
  }

  function ConnsUsed(n: Net): (u: seq<bool>)
    ensures |u| == |n.conns| && forall i :: 0 <= i < |u| ==> u[i] == n.conns[i].used
  {
    seq(|n.conns|, i requires 0 <= i < |n.conns| => n.conns[i].used)
  }

  predicate Open(n: Net, s: nat)
    requires Shape(n)
  {
    s < MAX_SOCKS && n.socks[s].used
  }

  function SetConn(n: Net, c: nat, x: Conn): Net
    requires c < |n.conns|
  {
    n.(conns := n.conns[c := x])
  }

  function SetSock(n: Net, s: nat, x: Sock): Net
    requires s < |n.socks|
  {
    n.(socks := n.socks[s := x])
  }

  function SetListener(n: Net, l: nat, x: Listener): Net
    requires l < |n.listens|
  {
    n.(listens := n.listens[l := x])
  }

  // ---------------------------------------------------------------------------------------------
  // Calls
  // ---------------------------------------------------------------------------------------------

  /** What is left of the file pool and the descriptor table. */
  datatype Room = Enough | NoFile | NoDescriptor

  /** loop_socket. */
  function Socket(n: Net, inet: bool, stream: bool, room: Room): (r: (Net, int))
    requires Shape(n)
  {
    if !inet then (n, EAFNOSUPPORT)
    else if !stream then (n, -93)
    else
      var s := FirstFree(SocksUsed(n), 0);
      if s.None? then (n, EMFILE)
      else (SetSock(n, s.value, Sock(room == Enough, Unbound, None, None)), if room == Enough then s.value else EMFILE)
  }

  predicate PortTaken(n: Net, port: nat) { exists l :: 0 <= l < |n.listens| && n.listens[l].used && n.listens[l].port == port }

  /** loop_bind. */
  function Bind(n: Net, s: nat, a: Addr): (r: (Net, int))
    requires Shape(n)
  {
    if !Open(n, s) then (n, EBADF)
    else if n.socks[s].kind != Unbound then (n, EINVAL)
    else if !a.inet then (n, EAFNOSUPPORT)
    else if !a.loopback then (n, EADDRNOTAVAIL)
    else if a.port == 0 then (n, EINVAL)
    else if PortTaken(n, a.port) then (n, EADDRINUSE)
    else
      var l := FirstFree(ListensUsed(n), 0);
      if l.None? then (n, EADDRINUSE)
      else (SetSock(SetListener(n, l.value, Listener(true, false, a.port, 0, [], [], [])), s, n.socks[s].(kind := Listening, lst := l)), 0)
  }

  predicate HasListener(n: Net, s: nat)
    requires Shape(n)
  {
    Open(n, s) && n.socks[s].kind == Listening && n.socks[s].lst.Some? && n.socks[s].lst.value < MAX_LISTEN
  }

  /** loop_listen. */
  function Listen(n: Net, s: nat): (r: (Net, int))
    requires Shape(n)
  {
    if !Open(n, s) then (n, EBADF)
    else if !HasListener(n, s) then (n, EINVAL)
    else
      var l := n.socks[s].lst.value;
      (SetListener(n, l, n.listens[l].(listening := true)), 0)
  }

  /** The first listener on a port from `i` on. */
  function FindListener(n: Net, port: nat, i: nat): (r: Option<nat>)
    requires i <= |n.listens|
    ensures r.Some? ==> r.value < |n.listens| && n.listens[r.value].used && n.listens[r.value].listening && n.listens[r.value].port == port
    decreases |n.listens| - i
  {
    if i == |n.listens| then None
    else if n.listens[i].used && n.listens[i].listening && n.listens[i].port == port then Some(i)
    else FindListener(n, port, i + 1)
  }

  /** loop_connect: both endpoints are made and linked, and the server's is queued. */
  function Connect(n: Net, s: nat, a: Addr): (r: (Net, int))
    requires Shape(n)
  {
    if !Open(n, s) then (n, EBADF)
    else if n.socks[s].kind != Unbound then (n, EINVAL)
    else if !a.inet then (n, EAFNOSUPPORT)
    else if !a.loopback then (n, ENETUNREACH)
    else if a.port == 0 then (n, EINVAL)
    else
      var l := FindListener(n, a.port, 0);
      if l.None? || |n.listens[l.value].queue| >= BACKLOG then (n, ECONNREFUSED)
      else MakeConnection(n, s, l.value, a.port)
  }

  /** Two endpoints from the pool, if there are two. */
  function MakeConnection(n: Net, s: nat, l: nat, port: nat): (r: (Net, int))
    requires Shape(n) && s < MAX_SOCKS && l < MAX_LISTEN
  {
    var c := FirstFree(ConnsUsed(n), 0);
    if c.None? then (n, ENOMEM)
    else
      var d := FirstFree(ConnsUsed(n), c.value + 1);
      if d.None? then (SetConn(n, c.value, Conn(false, false, 0, None, [], [], [])), ENOMEM)
      else (Connected2(n, s, l, c.value, d.value, port), 0)
  }

  function Connected2(n: Net, s: nat, l: nat, c: nat, d: nat, port: nat): Net
    requires Shape(n) && s < MAX_SOCKS && l < MAX_LISTEN && c < MAX_CONNS && d < MAX_CONNS
  {
    var lst := n.listens[l];
    Net(n.socks[s := n.socks[s].(kind := Connected, conn := Some(c))],
        n.listens[l := lst.(queue := lst.queue + [d], arrived := lst.arrived + [d])],
        n.conns[c := Conn(true, false, 0, Some(d), [], [], [])][d := Conn(true, false, port, Some(c), [], [], [])])
  }

  /** The head of the queue is taken. */
  function Popped(x: Listener): Listener
    requires x.queue != []
  {
    x.(head := (x.head + 1) % BACKLOG, queue := x.queue[1..], accepted := x.accepted + [x.queue[0]])
  }

  /** loop_accept. A queue that stays empty gives EAGAIN. Without a socket, a file slot or a descriptor for
      it, the endpoint is taken from the queue and then dropped. */
  function Accept(n: Net, s: nat, room: Room): (r: (Net, int))
    requires Shape(n)
  {
    if !Open(n, s) then (n, EBADF)
    else if !HasListener(n, s) || !n.listens[n.socks[s].lst.value].listening then (n, EINVAL)
    else
      var l := n.socks[s].lst.value;
      var lst := n.listens[l];
      if lst.queue == [] then (n, EAGAIN)
      else
        var n1 := SetListener(n, l, Popped(lst));
        var t := FirstFree(SocksUsed(n), 0);
        if t.None? then (n1, EMFILE)
        else if room == NoFile then (SetSock(n1, t.value, Sock(false, Unbound, None, None)), EMFILE)
        else (SetSock(n1, t.value, Sock(room == Enough, Connected, None, Some(lst.queue[0]))), if room == Enough then t.value else EMFILE)
  }

  predicate HasConn(n: Net, s: nat)
    requires Shape(n)
  {
    Open(n, s) && n.socks[s].kind == Connected && n.socks[s].conn.Some? && n.socks[s].conn.value < MAX_CONNS
  }

  /** loop_recv_io: what is buffered, up to `size` bytes. */
  function Recv(n: Net, s: nat, size: nat): (r: (Net, seq<Byte>))
    requires Shape(n)
  {
    if !HasConn(n, s) then (n, [])
    else
      var c := n.socks[s].conn.value;
      var k := Min(size, |n.conns[c].buf|);
      (SetConn(n, c, Taken(n.conns[c], k)), n.conns[c].buf[..k])
  }

  function Taken(x: Conn, k: nat): Conn
    requires k <= |x.buf|
  {
    x.(buf := x.buf[k..], got := x.got + x.buf[..k])
  }

  /** loop_send_io: as much as the peer's buffer has room for. */
  function Send(n: Net, s: nat, data: seq<Byte>): (r: (Net, nat))
    requires Shape(n)
  {
    if !HasConn(n, s) || n.conns[n.socks[s].conn.value].closed then (n, 0)
    else
      var p := n.conns[n.socks[s].conn.value].peer;
      if p.None? || p.value >= MAX_CONNS || n.conns[p.value].closed then (n, 0)
      else
        var k := Min(|data|, BUF_SIZE - |n.conns[p.value].buf|);
        (SetConn(n, p.value, Given(n.conns[p.value], data[..k])), k)
  }

  function Given(x: Conn, data: seq<Byte>): Conn { x.(buf := x.buf + data, sent := x.sent + data) }

  /** An endpoint goes: its peer, if any, is told, and the slot is free. Shutdown also marks it closed. */
  function Detach(n: Net, c: nat, mark: bool): (r: Net)
    requires Shape(n) && c < MAX_CONNS
    ensures Shape(r)
  {
    var p := n.conns[c].peer;
    var n1 := if p.Some? && p.value < MAX_CONNS then SetConn(n, p.value, n.conns[p.value].(peer := None, closed := true)) else n;
    SetConn(n1, c, n1.conns[c].(used := false, closed := n1.conns[c].closed || mark))
  }

  function DetachAll(n: Net, cs: seq<nat>): (r: Net)
    requires Shape(n)
    ensures Shape(r) && r.socks == n.socks && r.listens == n.listens
    decreases |cs|
  {
    if cs == [] then n
    else if cs[0] < MAX_CONNS then DetachAll(Detach(n, cs[0], false), cs[1..])
    else DetachAll(n, cs[1..])
  }

  /** The queued endpoints in the order of the ring's slots. */
  function SlotOrder(x: Listener): (cs: seq<nat>)
    requires x.head < BACKLOG && |x.queue| <= BACKLOG
  {
    if x.head + |x.queue| <= BACKLOG then x.queue else x.queue[BACKLOG - x.head..] + x.queue[..BACKLOG - x.head]
  }

  /** loop_close. */
  function Close(n: Net, s: nat): (r: Net)
    requires Shape(n)
  {
    if !Open(n, s) then n
    else if HasConn(n, s) then SetSock(Detach(n, n.socks[s].conn.value, false), s, n.socks[s].(used := false, conn := None))
    else if HasListener(n, s) then
      var l := n.socks[s].lst.value;
      var n1 := DetachAll(n, SlotOrder(n.listens[l]));
      SetSock(SetListener(n1, l, n.listens[l].(used := false, queue := [])), s, n.socks[s].(used := false, lst := None))
    else SetSock(n, s, n.socks[s].(used := false))
  }

  /** loop_shutdown: the endpoint goes, the socket stays. */
  function Shutdown(n: Net, s: nat): (r: (Net, int))
    requires Shape(n)
  {
    if !Open(n, s) then (n, EBADF)
    else if HasConn(n, s) then (SetSock(Detach(n, n.socks[s].conn.value, true), s, n.socks[s].(conn := None)), 0)
    else (n, 0)
  }
}
