/** What every call on loopback sockets keeps, and what follows in every reachable state. */
module LoopbackInvariant {
  import opened Bytes
  import opened Options
  import opened LoopbackModel

  // ---------------------------------------------------------------------------------------------
  // The invariant
  // ---------------------------------------------------------------------------------------------

  /** A live endpoint and its peer are live and point at each other; an endpoint without peer is closed. */
  predicate PeerOk(n: Net, c: nat)
    requires Shape(n) && c < MAX_CONNS
  {
    var x := n.conns[c];
    && (x.used && x.peer.Some? ==>
          && x.peer.value < MAX_CONNS && x.peer.value != c
          && n.conns[x.peer.value].used && n.conns[x.peer.value].peer == Some(c))
    && (x.used ==> (x.closed <==> x.peer.None?))
    && (x.used ==> x.sent == x.got + x.buf)
  }

  /** What a socket holds exists: a live endpoint, or a listener in use. */
  predicate SockOk(n: Net, s: nat)
    requires Shape(n) && s < MAX_SOCKS
  {
    var x := n.socks[s];
    x.used ==>
      && (x.kind == Connected ==> x.lst.None? && (x.conn.Some? ==> x.conn.value < MAX_CONNS && n.conns[x.conn.value].used))
      && (x.kind == Listening ==> x.conn.None? && x.lst.Some? && x.lst.value < MAX_LISTEN && n.listens[x.lst.value].used)
      && (x.kind == Unbound ==> x.conn.None? && x.lst.None?)
  }

  /** Queued endpoints are live and different, and come in the order of the connects. */
  ghost predicate ListenerOk(n: Net, l: nat)
    requires Shape(n) && l < MAX_LISTEN
  {
    var x := n.listens[l];
    x.used ==>
      && (forall i :: 0 <= i < |x.queue| ==> x.queue[i] < MAX_CONNS && n.conns[x.queue[i]].used)
      && (forall i, j :: 0 <= i < j < |x.queue| ==> x.queue[i] != x.queue[j])
      && x.arrived == x.accepted + x.queue
  }

  /** Who holds an endpoint. */
  predicate SockHolds(n: Net, s: nat, c: nat)
    requires Shape(n) && s < MAX_SOCKS
  {
    n.socks[s].used && n.socks[s].kind == Connected && n.socks[s].conn == Some(c)
  }

  predicate QueueHolds(n: Net, l: nat, c: nat)
    requires Shape(n) && l < MAX_LISTEN
  {
    n.listens[l].used && c in n.listens[l].queue
  }

  predicate SockListens(n: Net, s: nat, l: nat)
    requires Shape(n) && s < MAX_SOCKS
  {
    n.socks[s].used && n.socks[s].kind == Listening && n.socks[s].lst == Some(l)
  }

  /** No endpoint has two holders, and no listener two sockets or a port of another. */
  ghost predicate Separate(n: Net)
    requires Shape(n)
  {
    && (forall s, t, c :: 0 <= s < MAX_SOCKS && 0 <= t < MAX_SOCKS && SockHolds(n, s, c) && SockHolds(n, t, c) ==> s == t)
    && (forall s, l, c :: 0 <= s < MAX_SOCKS && 0 <= l < MAX_LISTEN && SockHolds(n, s, c) ==> !QueueHolds(n, l, c))
    && (forall l, m, c :: 0 <= l < MAX_LISTEN && 0 <= m < MAX_LISTEN && QueueHolds(n, l, c) && QueueHolds(n, m, c) ==> l == m)
    && (forall s, t, l :: 0 <= s < MAX_SOCKS && 0 <= t < MAX_SOCKS && SockListens(n, s, l) && SockListens(n, t, l) ==> s == t)
    && (forall l, m ::
          && 0 <= l < MAX_LISTEN && 0 <= m < MAX_LISTEN && n.listens[l].used && n.listens[m].used
          && n.listens[l].port == n.listens[m].port
          ==> l == m)
  }

  ghost predicate Inv(n: Net) {
    && Shape(n)
    && (forall c :: 0 <= c < MAX_CONNS ==> PeerOk(n, c))
    && (forall s :: 0 <= s < MAX_SOCKS ==> SockOk(n, s))
    && (forall l :: 0 <= l < MAX_LISTEN ==> ListenerOk(n, l))
    && Separate(n)
  }

  // ---------------------------------------------------------------------------------------------
  // Calls keep it
  // ---------------------------------------------------------------------------------------------

  lemma SocketInv(n: Net, inet: bool, stream: bool, room: Room)
    requires Inv(n)
    ensures Inv(Socket(n, inet, stream, room).0)
  {
    var n' := Socket(n, inet, stream, room).0;
    forall c | 0 <= c < MAX_CONNS ensures PeerOk(n', c) { assert PeerOk(n, c); }
    forall s | 0 <= s < MAX_SOCKS ensures SockOk(n', s) { assert SockOk(n, s); }
    forall l | 0 <= l < MAX_LISTEN ensures ListenerOk(n', l) { assert ListenerOk(n, l); }
    assert forall s, c :: 0 <= s < MAX_SOCKS && SockHolds(n', s, c) ==> SockHolds(n, s, c);
    assert forall s, l :: 0 <= s < MAX_SOCKS && SockListens(n', s, l) ==> SockListens(n, s, l);
    assert forall l, c :: 0 <= l < MAX_LISTEN ==> QueueHolds(n', l, c) == QueueHolds(n, l, c);
  }

  lemma BindInv(n: Net, s: nat, a: Addr)
    requires Inv(n)
    ensures Inv(Bind(n, s, a).0)
  {
    var l := FirstFree(ListensUsed(n), 0);
    if Bind(n, s, a).1 == 0 {
      assert !PortTaken(n, a.port);
      BoundInv(n, s, l.value, a.port);
    }
  }

  /** A free listener given to an unbound socket. */
  lemma BoundInv(n: Net, s: nat, l: nat, port: nat)
    requires Inv(n) && Open(n, s) && n.socks[s].kind == Unbound && l < MAX_LISTEN && !n.listens[l].used && !PortTaken(n, port)
    ensures Inv(SetSock(SetListener(n, l, Listener(true, false, port, 0, [], [], [])), s, n.socks[s].(kind := Listening, lst := Some(l))))
  {
    var n' := SetSock(SetListener(n, l, Listener(true, false, port, 0, [], [], [])), s, n.socks[s].(kind := Listening, lst := Some(l)));
    forall c | 0 <= c < MAX_CONNS ensures PeerOk(n', c) { assert PeerOk(n, c); }
    forall t | 0 <= t < MAX_SOCKS ensures SockOk(n', t) && !SockListens(n, t, l) { assert SockOk(n, t); }
    forall m | 0 <= m < MAX_LISTEN ensures ListenerOk(n', m) { assert ListenerOk(n, m); }
    assert forall t, c :: 0 <= t < MAX_SOCKS && SockHolds(n', t, c) ==> SockHolds(n, t, c);
    assert forall m, c :: 0 <= m < MAX_LISTEN && QueueHolds(n', m, c) ==> QueueHolds(n, m, c);
    forall t: nat, m: nat | t < MAX_SOCKS && SockListens(n', t, m) ensures if t == s then m == l else SockListens(n, t, m) && m != l {
      assert !SockListens(n, t, l);
    }
  }

  lemma ListenInv(n: Net, s: nat)
    requires Inv(n)
    ensures Inv(Listen(n, s).0)
  {
    var n' := Listen(n, s).0;
    forall c | 0 <= c < MAX_CONNS ensures PeerOk(n', c) { assert PeerOk(n, c); }
    forall t | 0 <= t < MAX_SOCKS ensures SockOk(n', t) { assert SockOk(n, t); }
    forall l | 0 <= l < MAX_LISTEN ensures ListenerOk(n', l) { assert ListenerOk(n, l); }
    assert forall t, c :: 0 <= t < MAX_SOCKS ==> SockHolds(n', t, c) == SockHolds(n, t, c);
    assert forall l, c :: 0 <= l < MAX_LISTEN ==> QueueHolds(n', l, c) == QueueHolds(n, l, c);
    assert forall t, l :: 0 <= t < MAX_SOCKS ==> SockListens(n', t, l) == SockListens(n, t, l);
  }

  /** Data moves without touching who holds what. */
  lemma BufferInv(n: Net, n': Net, c: nat)
    requires Inv(n) && c < MAX_CONNS && Shape(n') && n'.socks == n.socks && n'.listens == n.listens
    requires n'.conns == n.conns[c := n'.conns[c]]
             && n'.conns[c] == n.conns[c].(buf := n'.conns[c].buf, sent := n'.conns[c].sent, got := n'.conns[c].got)
    requires n.conns[c].used ==> n'.conns[c].sent == n'.conns[c].got + n'.conns[c].buf
    ensures Inv(n')
  {
    forall d | 0 <= d < MAX_CONNS ensures PeerOk(n', d) { assert PeerOk(n, d); }
    forall s | 0 <= s < MAX_SOCKS ensures SockOk(n', s) { assert SockOk(n, s); }
    forall l | 0 <= l < MAX_LISTEN ensures ListenerOk(n', l) { assert ListenerOk(n, l); }
    assert forall s, d :: 0 <= s < MAX_SOCKS ==> SockHolds(n', s, d) == SockHolds(n, s, d);
    assert forall l, d :: 0 <= l < MAX_LISTEN ==> QueueHolds(n', l, d) == QueueHolds(n, l, d);
    assert forall s, l :: 0 <= s < MAX_SOCKS ==> SockListens(n', s, l) == SockListens(n, s, l);
  }

  lemma RecvInv(n: Net, s: nat, size: nat)
    requires Inv(n)
    ensures Inv(Recv(n, s, size).0)
  {
    if HasConn(n, s) {
      var c := n.socks[s].conn.value;
      assert PeerOk(n, c);
      var x, k := n.conns[c], Min(size, |n.conns[c].buf|);
      assert x.got + x.buf == x.got + x.buf[..k] + x.buf[k..];
      BufferInv(n, Recv(n, s, size).0, c);
    }
  }

  lemma SendInv(n: Net, s: nat, data: seq<Byte>)
    requires Inv(n)
    ensures Inv(Send(n, s, data).0)
  {
    if HasConn(n, s) && !n.conns[n.socks[s].conn.value].closed {
      var p := n.conns[n.socks[s].conn.value].peer;
      if p.Some? && p.value < MAX_CONNS && !n.conns[p.value].closed {
        assert PeerOk(n, p.value);
        BufferInv(n, Send(n, s, data).0, p.value);
      }
    }
  }

  /** Two free endpoints become a connection: one for the socket, one at the end of the queue. */
  lemma ConnectedInv(n: Net, s: nat, l: nat, c: nat, d: nat, port: nat)
    requires Inv(n) && Open(n, s) && n.socks[s].kind == Unbound && l < MAX_LISTEN && n.listens[l].used && |n.listens[l].queue| < BACKLOG
    requires c < MAX_CONNS && d < MAX_CONNS && c != d && !n.conns[c].used && !n.conns[d].used
    ensures Inv(Connected2(n, s, l, c, d, port))
  {
    var n' := Connected2(n, s, l, c, d, port);
    forall x | 0 <= x < MAX_CONNS ensures PeerOk(n', x) { assert PeerOk(n, x); }
    forall t | 0 <= t < MAX_SOCKS ensures SockOk(n', t) && !SockHolds(n, t, c) && !SockHolds(n, t, d) { assert SockOk(n, t); }
    forall m | 0 <= m < MAX_LISTEN ensures ListenerOk(n', m) && !QueueHolds(n, m, c) && !QueueHolds(n, m, d) { assert ListenerOk(n, m); }
    forall t: nat, x: nat | t < MAX_SOCKS && SockHolds(n', t, x) ensures if t == s then x == c else SockHolds(n, t, x) && x != c && x != d {
      assert !SockHolds(n, t, c) && !SockHolds(n, t, d);
    }
    forall m: nat, x: nat | m < MAX_LISTEN && QueueHolds(n', m, x) ensures QueueHolds(n, m, x) || (m == l && x == d) {}
    assert forall t, m :: 0 <= t < MAX_SOCKS && SockListens(n', t, m) ==> SockListens(n, t, m);
    SeparateAfterConnect(n, n', s, l, c, d);
  }

  lemma SeparateAfterConnect(n: Net, n': Net, s: nat, l: nat, c: nat, d: nat)
    requires Shape(n) && Shape(n') && Separate(n) && s < MAX_SOCKS && l < MAX_LISTEN && c != d
    requires forall t: nat, x: nat :: t < MAX_SOCKS && SockHolds(n', t, x) ==> if t == s then x == c else SockHolds(n, t, x) && x != c && x != d
    requires forall m: nat, x: nat :: m < MAX_LISTEN && QueueHolds(n', m, x) ==> QueueHolds(n, m, x) || (m == l && x == d)
    requires forall m :: 0 <= m < MAX_LISTEN ==> !QueueHolds(n, m, c) && !QueueHolds(n, m, d)
    requires forall t, m :: 0 <= t < MAX_SOCKS && SockListens(n', t, m) ==> SockListens(n, t, m)
    requires forall m :: 0 <= m < MAX_LISTEN ==> n'.listens[m].used == n.listens[m].used && n'.listens[m].port == n.listens[m].port
    ensures Separate(n')
  {
    hide Shape, SockHolds, QueueHolds, SockListens;
  }

  lemma ConnectInv(n: Net, s: nat, a: Addr)
    requires Inv(n)
    ensures Inv(Connect(n, s, a).0)
  {
    hide Inv, Connected2;
    InvShape(n);
    var l, c := FindListener(n, a.port, 0), FirstFree(ConnsUsed(n), 0);
    if Connect(n, s, a).1 == 0 {
      var d := FirstFree(ConnsUsed(n), c.value + 1);
      ConnectedInv(n, s, l.value, c.value, d.value, a.port);
    } else if c.Some? {
      FreeConnInv(n, c.value);
    }
  }

  /** Free slots can hold anything. */
  lemma FreeConnInv(n: Net, c: nat)
    requires Inv(n) && c < MAX_CONNS && !n.conns[c].used
    ensures Inv(SetConn(n, c, Conn(false, false, 0, None, [], [], [])))
  {
    var n' := SetConn(n, c, Conn(false, false, 0, None, [], [], []));
    forall d | 0 <= d < MAX_CONNS ensures PeerOk(n', d) { assert PeerOk(n, d); }
    forall s | 0 <= s < MAX_SOCKS ensures SockOk(n', s) { assert SockOk(n, s); }
    forall l | 0 <= l < MAX_LISTEN ensures ListenerOk(n', l) { assert ListenerOk(n, l); }
    LessHeld(n, n');
  }

  lemma FreeSockInv(n: Net, t: nat, x: Sock)
    requires Inv(n) && t < MAX_SOCKS && !n.socks[t].used && !x.used
    ensures Inv(SetSock(n, t, x))
  {
    var n' := SetSock(n, t, x);
    forall d | 0 <= d < MAX_CONNS ensures PeerOk(n', d) { assert PeerOk(n, d); }
    forall s | 0 <= s < MAX_SOCKS ensures SockOk(n', s) { assert SockOk(n, s); }
    forall l | 0 <= l < MAX_LISTEN ensures ListenerOk(n', l) { assert ListenerOk(n, l); }
    LessHeld(n, n');
  }

  lemma InvShape(n: Net)
    requires Inv(n)
    ensures Shape(n)
  {
  }

  /** An endpoint that nobody holds. */
  ghost predicate Unheld(n: Net, c: nat)
    requires Shape(n)
  {
    (forall s :: 0 <= s < MAX_SOCKS ==> !SockHolds(n, s, c)) && forall l :: 0 <= l < MAX_LISTEN ==> !QueueHolds(n, l, c)
  }

  /** The head of the queue is taken; until it is given to a socket, nobody holds it. */
  lemma PoppedInv(n: Net, l: nat)
    requires Inv(n) && l < MAX_LISTEN && n.listens[l].used && n.listens[l].queue != []
    ensures var n1, c := SetListener(n, l, Popped(n.listens[l])), n.listens[l].queue[0];
            Inv(n1) && c < MAX_CONNS && n1.conns[c].used && Unheld(n1, c)
  {
    var q := n.listens[l].queue;
    var n1, c := SetListener(n, l, Popped(n.listens[l])), q[0];
    assert ListenerOk(n, l);
    assert n.listens[l].accepted + q == n.listens[l].accepted + [q[0]] + q[1..];
    forall x | 0 <= x < MAX_CONNS ensures PeerOk(n1, x) { assert PeerOk(n, x); }
    forall s | 0 <= s < MAX_SOCKS ensures SockOk(n1, s) { assert SockOk(n, s); }
    forall m | 0 <= m < MAX_LISTEN ensures ListenerOk(n1, m) { assert ListenerOk(n, m); }
    assert forall x :: x in q[1..] ==> x in q && x != c;
    LessHeld(n, n1);
    assert QueueHolds(n, l, c);
    forall s | 0 <= s < MAX_SOCKS ensures !SockHolds(n1, s, c) { assert SockHolds(n1, s, c) == SockHolds(n, s, c); }
    forall m | 0 <= m < MAX_LISTEN ensures !QueueHolds(n1, m, c) { assert m != l ==> QueueHolds(n1, m, c) == QueueHolds(n, m, c); }
  }

  /** A free socket gets an endpoint that nobody holds. */
  lemma GivenInv(n: Net, t: nat, c: nat)
    requires Inv(n) && t < MAX_SOCKS && !n.socks[t].used && c < MAX_CONNS && n.conns[c].used && Unheld(n, c)
    ensures Inv(SetSock(n, t, Sock(true, Connected, None, Some(c))))
  {
    var n' := SetSock(n, t, Sock(true, Connected, None, Some(c)));
    forall x | 0 <= x < MAX_CONNS ensures PeerOk(n', x) { assert PeerOk(n, x); }
    forall s | 0 <= s < MAX_SOCKS ensures SockOk(n', s) { assert SockOk(n, s); }
    forall m | 0 <= m < MAX_LISTEN ensures ListenerOk(n', m) { assert ListenerOk(n, m); }
    assert forall s: nat, x: nat :: s < MAX_SOCKS && SockHolds(n', s, x) ==> (s == t && x == c) || SockHolds(n, s, x);
    assert forall m: nat, x: nat :: m < MAX_LISTEN && QueueHolds(n', m, x) ==> QueueHolds(n, m, x);
    assert forall s: nat, m: nat :: s < MAX_SOCKS && SockListens(n', s, m) ==> SockListens(n, s, m);
    OneMoreHeld(n, n', t, c);
  }

  lemma OneMoreHeld(n: Net, n': Net, t: nat, c: nat)
    requires Shape(n) && Shape(n') && Separate(n) && Unheld(n, c)
    requires forall s: nat, x: nat :: s < MAX_SOCKS && SockHolds(n', s, x) ==> (s == t && x == c) || SockHolds(n, s, x)
    requires forall m: nat, x: nat :: m < MAX_LISTEN && QueueHolds(n', m, x) ==> QueueHolds(n, m, x)
    requires forall s: nat, m: nat :: s < MAX_SOCKS && SockListens(n', s, m) ==> SockListens(n, s, m)
    requires n'.listens == n.listens
    ensures Separate(n')
  {
    hide Shape, SockHolds, QueueHolds, SockListens;
  }

  lemma AcceptInv(n: Net, s: nat, room: Room)
    requires Inv(n)
    ensures Inv(Accept(n, s, room).0)
  {
    if HasListener(n, s) && n.listens[n.socks[s].lst.value].listening && n.listens[n.socks[s].lst.value].queue != [] {
      var l := n.socks[s].lst.value;
      assert SockOk(n, s);
      var t := FirstFree(SocksUsed(n), 0);
      var n1 := SetListener(n, l, Popped(n.listens[l]));
      PoppedInv(n, l);
      if t.Some? {
        if room == Enough {
          GivenInv(n1, t.value, n.listens[l].queue[0]);
        } else {
          FreeSockInv(n1, t.value, Accept(n, s, room).0.socks[t.value]);
        }
      }
    }
  }

  // ---------------------------------------------------------------------------------------------
  // Closing
  // ---------------------------------------------------------------------------------------------

  /** Everything but the rule that holders point at live endpoints: that one is broken for `c` until its
      holder lets go. */
  ghost predicate PeersOk(n: Net)
    requires Shape(n)
  {
    forall c :: 0 <= c < MAX_CONNS ==> PeerOk(n, c)
  }

  /** An endpoint keeps its data; it may lose its peer, but never gets one back. */
  predicate SameData(x: Conn, y: Conn) {
    y.used == x.used && y.buf == x.buf && y.sent == x.sent && y.got == x.got && (x.closed ==> y.closed)
  }

  /** What detaching an endpoint changes: it is free, its peer is alone, and all else is as it was. */
  lemma DetachOk(n: Net, c: nat, mark: bool)
    requires Shape(n) && PeersOk(n) && c < MAX_CONNS && n.conns[c].used
    ensures var n' := Detach(n, c, mark);
            && PeersOk(n') && n'.socks == n.socks && n'.listens == n.listens && !n'.conns[c].used
            && (forall d :: 0 <= d < MAX_CONNS && d != c ==> SameData(n.conns[d], n'.conns[d]))
  {
    var n' := Detach(n, c, mark);
    assert PeerOk(n, c);
    forall d | 0 <= d < MAX_CONNS ensures PeerOk(n', d) { assert PeerOk(n, d); }
  }

  lemma {:induction false} DetachAllOk(n: Net, cs: seq<nat>)
    requires Shape(n) && PeersOk(n) && (forall i :: 0 <= i < |cs| ==> cs[i] < MAX_CONNS && n.conns[cs[i]].used)
    requires forall i, j :: 0 <= i < j < |cs| ==> cs[i] != cs[j]
    ensures var n' := DetachAll(n, cs);
            && PeersOk(n') && n'.socks == n.socks && n'.listens == n.listens
            && (forall d :: 0 <= d < MAX_CONNS && d !in cs ==> SameData(n.conns[d], n'.conns[d]))
            && (forall d :: 0 <= d < MAX_CONNS && d in cs ==> !n'.conns[d].used)
    decreases |cs|
  {
    hide PeersOk, Shape;
    if cs != [] {
      DetachOk(n, cs[0], false);
      DetachAllOk(Detach(n, cs[0], false), cs[1..]);
    }
  }

  /** An endpoint and its socket part: the socket is closed, or stays without endpoint. */
  lemma ReleaseInv(n: Net, s: nat, mark: bool, open: bool)
    requires Inv(n) && HasConn(n, s)
    ensures Inv(SetSock(Detach(n, n.socks[s].conn.value, mark), s, n.socks[s].(used := open, conn := None)))
  {
    hide Detach;
    var c := n.socks[s].conn.value;
    assert SockOk(n, s) && SockHolds(n, s, c);
    DetachOk(n, c, mark);
    var n1 := Detach(n, c, mark);
    var n' := SetSock(n1, s, n.socks[s].(used := open, conn := None));
    forall d | 0 <= d < MAX_CONNS ensures PeerOk(n', d) { assert PeerOk(n1, d); }
    forall t | 0 <= t < MAX_SOCKS ensures SockOk(n', t) { assert SockOk(n, t) && (t != s ==> !SockHolds(n, t, c)); }
    forall l | 0 <= l < MAX_LISTEN ensures ListenerOk(n', l) { assert ListenerOk(n, l) && !QueueHolds(n, l, c); }
    LessHeld(n, n');
  }

  /** Fewer holders are still separate. */
  lemma LessHeld(n: Net, n': Net)
    requires Shape(n) && Shape(n') && Separate(n)
    requires forall t: nat, c: nat :: t < MAX_SOCKS && SockHolds(n', t, c) ==> SockHolds(n, t, c)
    requires forall l: nat, c: nat :: l < MAX_LISTEN && QueueHolds(n', l, c) ==> QueueHolds(n, l, c)
    requires forall t: nat, l: nat :: t < MAX_SOCKS && SockListens(n', t, l) ==> SockListens(n, t, l)
    requires forall l :: 0 <= l < MAX_LISTEN && n'.listens[l].used ==> n.listens[l].used && n'.listens[l].port == n.listens[l].port
    ensures Separate(n')
  {
    hide Shape, SockHolds, QueueHolds, SockListens;
  }

  /** The slots hold the same endpoints as the queue, each once. */
  lemma SlotOrderSame(x: Listener)
    requires x.head < BACKLOG && |x.queue| <= BACKLOG && forall i, j :: 0 <= i < j < |x.queue| ==> x.queue[i] != x.queue[j]
    ensures var cs := SlotOrder(x);
            (forall c :: c in cs <==> c in x.queue) && forall i, j :: 0 <= i < j < |cs| ==> cs[i] != cs[j]
  {
    var q, m := x.queue, BACKLOG - x.head;
    if x.head + |q| > BACKLOG {
      assert q == q[..m] + q[m..];
    }
  }

  /** Detaching a whole queue leaves every other endpoint as it was. */
  lemma QueueDetached(n: Net, l: nat)
    requires Inv(n) && l < MAX_LISTEN && n.listens[l].used
    ensures var n' := DetachAll(n, SlotOrder(n.listens[l]));
            && PeersOk(n') && n'.socks == n.socks && n'.listens == n.listens
            && (forall d :: 0 <= d < MAX_CONNS && d !in n.listens[l].queue ==> SameData(n.conns[d], n'.conns[d]))
            && (forall d :: 0 <= d < MAX_CONNS && d in n.listens[l].queue ==> !n'.conns[d].used)
  {
    hide SlotOrder, DetachAll;
    assert ListenerOk(n, l);
    SlotOrderSame(n.listens[l]);
    var cs, q := SlotOrder(n.listens[l]), n.listens[l].queue;
    forall i | 0 <= i < |cs| ensures cs[i] < MAX_CONNS && n.conns[cs[i]].used {
      assert cs[i] in q;
    }
    DetachAllOk(n, cs);
  }

  /** Closing a listening socket drops every endpoint in its queue. */
  lemma CloseListenerInv(n: Net, s: nat)
    requires Inv(n) && HasListener(n, s)
    ensures Inv(Close(n, s))
  {
    hide DetachAll, SlotOrder;
    var l := n.socks[s].lst.value;
    assert SockOk(n, s) && SockListens(n, s, l);
    assert ListenerOk(n, l);
    QueueDetached(n, l);
    var n1, n' := DetachAll(n, SlotOrder(n.listens[l])), Close(n, s);
    assert !HasConn(n, s);
    forall d | 0 <= d < MAX_CONNS ensures PeerOk(n', d) { assert PeerOk(n1, d); }
    forall t | 0 <= t < MAX_SOCKS ensures SockOk(n', t) {
      assert SockOk(n, t);
      if t != s && n.socks[t].used && n.socks[t].kind == Connected && n.socks[t].conn.Some? {
        assert SockHolds(n, t, n.socks[t].conn.value) && !QueueHolds(n, l, n.socks[t].conn.value);
      }
      assert t != s ==> !SockListens(n, t, l);
    }
    forall m | 0 <= m < MAX_LISTEN ensures ListenerOk(n', m) { OtherQueue(n, n', l, m); }
    LessHeld(n, n');
  }

  lemma OtherQueue(n: Net, n': Net, l: nat, m: nat)
    requires Inv(n) && Shape(n') && l < MAX_LISTEN && m < MAX_LISTEN && n.listens[l].used
    requires n'.listens == n.listens[l := n.listens[l].(used := false, queue := [])]
    requires forall d :: 0 <= d < MAX_CONNS && d !in n.listens[l].queue ==> n'.conns[d].used == n.conns[d].used
    ensures ListenerOk(n', m)
  {
    assert ListenerOk(n, m);
    if m != l && n.listens[m].used {
      forall i | 0 <= i < |n.listens[m].queue| ensures n.listens[m].queue[i] !in n.listens[l].queue {
        assert QueueHolds(n, m, n.listens[m].queue[i]);
        assert !QueueHolds(n, l, n.listens[m].queue[i]);
      }
    }
  }

  lemma CloseInv(n: Net, s: nat)
    requires Inv(n)
    ensures Inv(Close(n, s))
  {
    if !Open(n, s) {
    } else if HasConn(n, s) {
      ReleaseInv(n, s, false, false);
    } else if HasListener(n, s) {
      CloseListenerInv(n, s);
    } else {
      var n' := Close(n, s);
      forall d | 0 <= d < MAX_CONNS ensures PeerOk(n', d) { assert PeerOk(n, d); }
      forall t | 0 <= t < MAX_SOCKS ensures SockOk(n', t) { assert SockOk(n, t); }
      forall l | 0 <= l < MAX_LISTEN ensures ListenerOk(n', l) { assert ListenerOk(n, l); }
      LessHeld(n, n');
    }
  }

  lemma ShutdownInv(n: Net, s: nat)
    requires Inv(n)
    ensures Inv(Shutdown(n, s).0)
  {
    if HasConn(n, s) {
      ReleaseInv(n, s, true, true);
    }
  }

  // ---------------------------------------------------------------------------------------------
  // Whole runs
  // ---------------------------------------------------------------------------------------------

  datatype Call =
    | DoSocket(inet: bool, stream: bool, roomS: Room) | DoBind(sb: nat, ab: Addr) | DoListen(sl: nat)
    | DoConnect(sc: nat, ac: Addr) | DoAccept(sa: nat, roomA: Room) | DoSend(ss: nat, data: seq<Byte>)
    | DoRecv(sr: nat, size: nat) | DoClose(scl: nat) | DoShutdown(ssh: nat)

  function Apply(n: Net, c: Call): Net
    requires Shape(n)
  {
    match c
    case DoSocket(inet, stream, room) => Socket(n, inet, stream, room).0
    case DoBind(s, a) => Bind(n, s, a).0
    case DoListen(s) => Listen(n, s).0
    case DoConnect(s, a) => Connect(n, s, a).0
    case DoAccept(s, room) => Accept(n, s, room).0
    case DoSend(s, data) => Send(n, s, data).0
    case DoRecv(s, size) => Recv(n, s, size).0
    case DoClose(s) => Close(n, s)
    case DoShutdown(s) => Shutdown(n, s).0
  }

  lemma ApplyInv(n: Net, c: Call)
    requires Inv(n)
    ensures Inv(Apply(n, c))
  {
    hide Socket, Bind, Listen, Connect, Accept, Send, Recv, Close, Shutdown;
    match c
    case DoSocket(inet, stream, room) => SocketInv(n, inet, stream, room);
    case DoBind(s, a) => BindInv(n, s, a);
    case DoListen(s) => ListenInv(n, s);
    case DoConnect(s, a) => ConnectInv(n, s, a);
    case DoAccept(s, room) => AcceptInv(n, s, room);
    case DoSend(s, data) => SendInv(n, s, data);
    case DoRecv(s, size) => RecvInv(n, s, size);
    case DoClose(s) => CloseInv(n, s);
    case DoShutdown(s) => ShutdownInv(n, s);
  }

  ghost predicate IsRun(ns: seq<Net>, calls: seq<Call>) {
    && |ns| == |calls| + 1 && ns[0] == Init()
    && forall k :: 0 <= k < |calls| ==> Shape(ns[k]) && ns[k + 1] == Apply(ns[k], calls[k])
  }

  /** In every reachable state peers are live and mutual, no endpoint has two holders, no holder points at a
      free endpoint, queues are in connect order, and every byte read was sent, in order. */
  lemma {:induction false} ReachableInv(ns: seq<Net>, calls: seq<Call>, k: nat)
    requires IsRun(ns, calls) && k < |ns|
    ensures Inv(ns[k])
  {
    hide Apply, Inv, Shape;
    if k == 0 {
      InitInv();
    } else {
      ReachableInv(ns, calls, k - 1);
      ApplyInv(ns[k - 1], calls[k - 1]);
    }
  }

  lemma InitInv()
    ensures Inv(Init())
  {
  }

  // ---------------------------------------------------------------------------------------------
  // What users see
  // ---------------------------------------------------------------------------------------------

  /** What one side sends and the peer's buffer takes is what the other side receives next, behind what was
      there already. */
  lemma SendThenReceive(n: Net, s: nat, t: nat, data: seq<Byte>)
    requires Inv(n) && HasConn(n, s) && HasConn(n, t) && n.conns[n.socks[s].conn.value].peer == Some(n.socks[t].conn.value)
    ensures var (n1, k) := Send(n, s, data);
            && k == Min(|data|, BUF_SIZE - |n.conns[n.socks[t].conn.value].buf|)
            && Shape(n1) && Recv(n1, t, BUF_SIZE).1 == n.conns[n.socks[t].conn.value].buf + data[..k]
  {
    assert SockOk(n, s) && SockOk(n, t);
    assert PeerOk(n, n.socks[s].conn.value) && PeerOk(n, n.socks[t].conn.value);
  }

  /** Closing or shutting down one side loses no byte that is waiting on another: it is still delivered, and
      nothing is received only when nothing is waiting. */
  lemma CloseLosesNothing(n: Net, s: nat, t: nat, size: nat)
    requires Inv(n) && s != t && HasConn(n, t)
    ensures Shape(Close(n, s)) && Recv(Close(n, s), t, size).1 == Recv(n, t, size).1
    ensures Recv(Shutdown(n, s).0, t, size).1 == Recv(n, t, size).1
    ensures Recv(n, t, size).1 == [] <==> size == 0 || n.conns[n.socks[t].conn.value].buf == []
  {
    hide Detach, DetachAll, SlotOrder;
    CloseInv(n, s);
    ShutdownInv(n, s);
    var d := n.socks[t].conn.value;
    assert SockOk(n, t) && SockHolds(n, t, d);
    if HasConn(n, s) {
      assert SockOk(n, s) && SockHolds(n, s, n.socks[s].conn.value);
      DetachOk(n, n.socks[s].conn.value, false);
      DetachOk(n, n.socks[s].conn.value, true);
    } else if HasListener(n, s) {
      var l := n.socks[s].lst.value;
      assert SockOk(n, s);
      assert ListenerOk(n, l) && !QueueHolds(n, l, d);
      QueueDetached(n, l);
    }
  }

  lemma AcceptsFrom(n: Net, s: nat)
    requires Inv(n) && HasListener(n, s)
    ensures n.listens[n.socks[s].lst.value].used
  {
    assert SockOk(n, s);
  }
}
