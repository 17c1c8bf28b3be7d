/** What each call on loopback sockets brings about, and that it leaves everything else as it was. */
module LoopbackEffects {
  import opened Bytes
  import opened Options
  import opened LoopbackModel
  import opened LoopbackInvariant
  import opened LoopbackRuns

  // ---------------------------------------------------------------------------------------------
  // Endpoints that go
  // ---------------------------------------------------------------------------------------------

  /** The endpoint has lost its peer and will see end of file behind what is waiting. */
  predicate LeftAlone(x: Conn, y: Conn) {
    y.used == x.used && y.port == x.port && y.buf == x.buf && y.sent == x.sent && y.got == x.got && y.closed && y.peer == None
  }

  /** The endpoints of `cs` are free, whoever was connected to one of them is left alone, and no other has changed. */
  ghost predicate Gone(n: Net, n': Net, cs: set<nat>)
    requires Shape(n) && Shape(n')
  {
    && (forall c :: 0 <= c < MAX_CONNS && c in cs ==> !n'.conns[c].used)
    && forall d :: 0 <= d < MAX_CONNS && d !in cs ==>
         if n.conns[d].used && n.conns[d].peer.Some? && n.conns[d].peer.value in cs then LeftAlone(n.conns[d], n'.conns[d])
         else n'.conns[d] == n.conns[d]
  }

  function Elems(cs: seq<nat>): set<nat> { set c | c in cs }

  lemma DetachGone(n: Net, c: nat, mark: bool)
    requires Shape(n) && PeersOk(n) && c < MAX_CONNS && n.conns[c].used
    ensures PeersOk(Detach(n, c, mark)) && Gone(n, Detach(n, c, mark), {c})
  {
    DetachOk(n, c, mark);
    assert PeerOk(n, c);
    forall d | 0 <= d < MAX_CONNS && d != c && n.conns[d].used && n.conns[d].peer == Some(c) ensures n.conns[c].peer == Some(d) {
      assert PeerOk(n, d);
    }
  }

  lemma GoneMore(n: Net, n1: Net, n2: Net, c: nat, cs: set<nat>)
    requires Shape(n) && Shape(n1) && Shape(n2) && PeersOk(n) && PeersOk(n1) && Gone(n, n1, {c}) && Gone(n1, n2, cs) && c !in cs
    requires c < MAX_CONNS && n.conns[c].used
    ensures Gone(n, n2, {c} + cs)
  {
    hide PeersOk;
    assert c < MAX_CONNS && !n1.conns[c].used;
    assert n2.conns[c] == n1.conns[c];
    forall d | 0 <= d < MAX_CONNS && d !in {c} + cs
      ensures if n.conns[d].used && n.conns[d].peer.Some? && n.conns[d].peer.value in {c} + cs then LeftAlone(n.conns[d], n2.conns[d])
              else n2.conns[d] == n.conns[d]
    {
    }
  }

  lemma {:induction false} DetachAllGone(n: Net, cs: seq<nat>)
    requires Shape(n) && PeersOk(n) && (forall i :: 0 <= i < |cs| ==> cs[i] < MAX_CONNS && n.conns[cs[i]].used)
    requires forall i, j :: 0 <= i < j < |cs| ==> cs[i] != cs[j]
    ensures Gone(n, DetachAll(n, cs), Elems(cs))
    decreases |cs|
  {
    hide Detach, PeersOk, Shape, Gone;
    if cs == [] {
      NoneGone(n);
    } else {
      var c, rest := cs[0], cs[1..];
      DetachOk(n, c, false);
      DetachGone(n, c, false);
      DetachAllGone(Detach(n, c, false), rest);
      GoneMore(n, Detach(n, c, false), DetachAll(n, cs), c, Elems(rest));
      assert cs == [c] + rest;
      assert {c} + Elems(rest) == Elems(cs);
    }
  }

  lemma NoneGone(n: Net)
    requires Shape(n)
    ensures Gone(n, n, Elems([]))
  {
  }

  // ---------------------------------------------------------------------------------------------
  // Closing
  // ---------------------------------------------------------------------------------------------

  /** Only socket `s` has changed among the sockets. */
  predicate OtherSocks(n: Net, n': Net, s: nat)
    requires Shape(n) && Shape(n')
  {
    forall t :: 0 <= t < MAX_SOCKS && t != s ==> n'.socks[t] == n.socks[t]
  }

  /** Closing a connected socket: the socket is not open, its endpoint is free, its peer is left alone, and nothing
      else has changed. */
  lemma CloseConnected(n: Net, s: nat)
    requires Inv(n) && HasConn(n, s)
    ensures var n' := Close(n, s);
            && Shape(n') && !Open(n', s) && OtherSocks(n, n', s) && n'.listens == n.listens && Gone(n, n', {n.socks[s].conn.value})
  {
    hide Detach, Gone;
    var c := n.socks[s].conn.value;
    assert SockOk(n, s);
    DetachOk(n, c, false);
    DetachGone(n, c, false);
    GoneSame(n, Detach(n, c, false), Close(n, s), {c});
  }

  lemma GoneSame(n: Net, n1: Net, n': Net, cs: set<nat>)
    requires Shape(n) && Shape(n1) && Gone(n, n1, cs) && n'.conns == n1.conns && Shape(n')
    ensures Gone(n, n', cs)
  {
  }

  /** Shutting one down: the same, but the socket stays open, without endpoint, and nothing goes through it any more. */
  lemma ShutdownConnected(n: Net, s: nat, size: nat, data: seq<Byte>)
    requires Inv(n) && HasConn(n, s)
    ensures var (n', r) := Shutdown(n, s);
            && r == 0 && Shape(n') && OtherSocks(n, n', s) && n'.listens == n.listens && Gone(n, n', {n.socks[s].conn.value})
            && Open(n', s) && n'.socks[s].kind == Connected && !HasConn(n', s) && Recv(n', s, size) == (n', []) && Send(n', s, data) == (n', 0)
  {
    hide Detach, Gone;
    var c := n.socks[s].conn.value;
    assert SockOk(n, s);
    DetachOk(n, c, true);
    DetachGone(n, c, true);
    GoneSame(n, Detach(n, c, true), Shutdown(n, s).0, {c});
  }

  /** Any other socket: nothing changes, and only a socket that is not open is an error. */
  lemma ShutdownOther(n: Net, s: nat)
    requires Shape(n) && !HasConn(n, s)
    ensures Shutdown(n, s) == (n, if Open(n, s) then 0 else EBADF)
  {
  }

  /** Closing a listening socket: the socket is not open, its listener is free, every queued endpoint is free, every
      client of one is left alone, and nothing else has changed. The port can be bound again. */
  lemma CloseListening(n: Net, s: nat)
    requires Inv(n) && HasListener(n, s)
    ensures var n', l := Close(n, s), n.socks[s].lst.value;
            && Shape(n') && !Open(n', s) && OtherSocks(n, n', s) && !n'.listens[l].used
            && (forall m :: 0 <= m < MAX_LISTEN && m != l ==> n'.listens[m] == n.listens[m])
            && Gone(n, n', Elems(n.listens[l].queue)) && !PortTaken(n', n.listens[l].port)
  {
    hide DetachAll, SlotOrder, Gone;
    var l := n.socks[s].lst.value;
    assert SockOk(n, s) && ListenerOk(n, l);
    assert !HasConn(n, s);
    SlotOrderSame(n.listens[l]);
    var cs, q := SlotOrder(n.listens[l]), n.listens[l].queue;
    forall i | 0 <= i < |cs| ensures cs[i] < MAX_CONNS && n.conns[cs[i]].used { assert cs[i] in q; }
    DetachAllGone(n, cs);
    assert Elems(cs) == Elems(q);
    QueueDetached(n, l);
    CloseListenerInv(n, s);
    GoneSame(n, DetachAll(n, cs), Close(n, s), Elems(q));
  }

  /** Closing a socket that holds nothing. */
  lemma CloseUnbound(n: Net, s: nat)
    requires Inv(n) && !HasConn(n, s) && !HasListener(n, s)
    ensures var n' := Close(n, s);
            Shape(n') && !Open(n', s) && OtherSocks(n, n', s) && n'.listens == n.listens && n'.conns == n.conns
  {
  }

  /** A socket that held an endpoint still does, unless its own endpoint went. */
  lemma StillHolds(n: Net, n': Net, s: nat, t: nat, d: nat)
    requires Shape(n) && Shape(n') && OtherSocks(n, n', s) && t < MAX_SOCKS && t != s && SockHolds(n, t, d)
    ensures SockHolds(n', t, d)
  {
  }

  /** End of file, from the close on: whatever everybody does, the socket at the other end is given exactly what was
      waiting when the close happened, and then nothing. */
  lemma CloseThenEof(n: Net, s: nat, t: nat, d: nat, ns: seq<Net>, calls: seq<Call>, k: nat, size: nat)
    requires Inv(n) && HasConn(n, s) && t < MAX_SOCKS && t != s && SockHolds(n, t, d)
    requires d < MAX_CONNS && n.conns[n.socks[s].conn.value].peer == Some(d)
    requires IsRunFrom(ns, calls) && ns[0] == Close(n, s) && k <= |calls| && size > 0 && forall i :: 0 <= i < k ==> !LetsGo(calls[i], t)
    ensures AllDelivered(ns, calls, t, k) <= n.conns[d].buf && Inv(ns[k])
    ensures Recv(ns[k], t, size).1 == [] <==> AllDelivered(ns, calls, t, k) == n.conns[d].buf
  {
    hide Close, AllDelivered, Recv, Apply, PeerOk, ListenerOk, Separate;
    var c := n.socks[s].conn.value;
    assert SockOk(n, s) && SockHolds(n, s, c);
    OthersEnd(n, c, d);
    CloseConnected(n, s);
    PeerIsLeft(n, ns[0], c, d, {c});
    StillHolds(n, ns[0], s, t, d);
    DrainThenEof(ns, calls, t, d, k, size);
  }

  lemma ListenerCloseThenEof(n: Net, s: nat, c: nat, t: nat, d: nat, ns: seq<Net>, calls: seq<Call>, k: nat, size: nat)
    requires Inv(n) && HasListener(n, s) && c in n.listens[n.socks[s].lst.value].queue
    requires t < MAX_SOCKS && SockHolds(n, t, d) && c < MAX_CONNS && d < MAX_CONNS && n.conns[c].peer == Some(d)
    requires IsRunFrom(ns, calls) && ns[0] == Close(n, s) && k <= |calls| && size > 0 && forall i :: 0 <= i < k ==> !LetsGo(calls[i], t)
    ensures AllDelivered(ns, calls, t, k) <= n.conns[d].buf && Inv(ns[k])
    ensures Recv(ns[k], t, size).1 == [] <==> AllDelivered(ns, calls, t, k) == n.conns[d].buf
  {
    hide Close, AllDelivered, Recv, Apply, Inv, Gone;
    CloseListening(n, s);
    ClientIsLeft(n, ns[0], s, c, t, d);
    DrainThenEof(ns, calls, t, d, k, size);
  }

  lemma ClientIsLeft(n: Net, n': Net, s: nat, c: nat, t: nat, d: nat)
    requires Inv(n) && HasListener(n, s) && c in n.listens[n.socks[s].lst.value].queue && Shape(n') && OtherSocks(n, n', s)
    requires t < MAX_SOCKS && SockHolds(n, t, d) && c < MAX_CONNS && d < MAX_CONNS && n.conns[c].peer == Some(d)
    requires Gone(n, n', Elems(n.listens[n.socks[s].lst.value].queue))
    ensures SockHolds(n', t, d) && LeftAlone(n.conns[d], n'.conns[d])
  {
    var l := n.socks[s].lst.value;
    assert SockOk(n, s) && ListenerOk(n, l);
    assert QueueHolds(n, l, c) && !QueueHolds(n, l, d);
    PeerIsLeft(n, n', c, d, Elems(n.listens[l].queue));
    StillHolds(n, n', s, t, d);
  }

  /** The two ends of a connection are two endpoints. */
  lemma OthersEnd(n: Net, c: nat, d: nat)
    requires Inv(n) && c < MAX_CONNS && n.conns[c].used && n.conns[c].peer == Some(d)
    ensures c != d
  {
    assert PeerOk(n, c);
  }

  lemma PeerIsLeft(n: Net, n': Net, c: nat, d: nat, cs: set<nat>)
    requires Inv(n) && Shape(n') && Gone(n, n', cs) && c in cs && c < MAX_CONNS && n.conns[c].used && n.conns[c].peer == Some(d) && d !in cs
    ensures d < MAX_CONNS && LeftAlone(n.conns[d], n'.conns[d])
  {
    assert PeerOk(n, c);
  }

  // ---------------------------------------------------------------------------------------------
  // Opening, binding and listening
  // ---------------------------------------------------------------------------------------------

  /** At the start nothing is in use. */
  lemma InitEffect()
    ensures (forall s: nat :: !Open(Init(), s)) && (forall port: nat :: !PortTaken(Init(), port)) && TwoFree(Init())
    ensures forall c :: 0 <= c < MAX_CONNS ==> !Init().conns[c].used
  {
    assert !Init().conns[0].used && !Init().conns[1].used;
  }

  /** socket: a new open socket without anything, or the reason why not; no open socket has changed. */
  lemma SocketEffect(n: Net, inet: bool, stream: bool, room: Room)
    requires Shape(n)
    ensures var (n', r) := Socket(n, inet, stream, room);
            && Shape(n') && n'.listens == n.listens && n'.conns == n.conns
            && (forall t :: 0 <= t < MAX_SOCKS && n.socks[t].used ==> n'.socks[t] == n.socks[t])
            && (r == EAFNOSUPPORT <==> !inet) && (r == -93 <==> inet && !stream)
            && (r >= 0 <==> inet && stream && room == Enough && exists t :: 0 <= t < MAX_SOCKS && !n.socks[t].used)
            && (r >= 0 ==> r < MAX_SOCKS && !n.socks[r].used && n'.socks[r] == Sock(true, Unbound, None, None) && OtherSocks(n, n', r))
            && (r < 0 ==> forall t :: 0 <= t < MAX_SOCKS && !n.socks[t].used ==> !n'.socks[t].used)
  {
  }

  predicate Bindable(n: Net, s: nat, a: Addr)
    requires Shape(n)
  {
    Open(n, s) && n.socks[s].kind == Unbound && a.inet && a.loopback && a.port != 0 && !PortTaken(n, a.port)
  }

  /** bind: the socket owns a listener on the port, not listening yet, with nothing queued; it succeeds exactly when the
      socket is unbound, the address is local and free, and a listener is left. */
  lemma BindEffect(n: Net, s: nat, a: Addr)
    requires Shape(n)
    ensures var (n', r) := Bind(n, s, a);
            && (r == 0 <==> Bindable(n, s, a) && exists l :: 0 <= l < MAX_LISTEN && !n.listens[l].used) && (r != 0 ==> r < 0 && n' == n)
            && (r == 0 ==>
                  && Shape(n') && OtherSocks(n, n', s) && n'.conns == n.conns && HasListener(n', s) && PortTaken(n', a.port)
                  && var l := n'.socks[s].lst.value;
                     && !n.listens[l].used && n'.listens[l].used && n'.listens[l].port == a.port
                     && !n'.listens[l].listening && n'.listens[l].queue == []
                     && forall m :: 0 <= m < MAX_LISTEN && m != l ==> n'.listens[m] == n.listens[m])
  {
    if Bindable(n, s, a) && Bind(n, s, a).1 == 0 {
      var n', l := Bind(n, s, a).0, Bind(n, s, a).0.socks[s].lst.value;
      assert n'.listens[l].used && n'.listens[l].port == a.port;
    }
  }

  /** Why a bind fails. */
  lemma BindErrors(n: Net, s: nat, a: Addr)
    requires Shape(n)
    ensures var r := Bind(n, s, a).1;
            && (r == EBADF <==> !Open(n, s))
            && (r == EAFNOSUPPORT <==> Open(n, s) && n.socks[s].kind == Unbound && !a.inet)
            && (r == EADDRNOTAVAIL <==> Open(n, s) && n.socks[s].kind == Unbound && a.inet && !a.loopback)
            && (r == EINVAL <==> Open(n, s) && (n.socks[s].kind != Unbound || (a.inet && a.loopback && a.port == 0)))
            && (r == EADDRINUSE <==> Open(n, s) && n.socks[s].kind == Unbound && a.inet && a.loopback && a.port != 0
                                     && (PortTaken(n, a.port) || forall l :: 0 <= l < MAX_LISTEN ==> n.listens[l].used))
  {
  }

  /** A port is free to be bound once its listening socket is closed. */
  lemma CloseThenBind(n: Net, s: nat, t: nat, a: Addr)
    requires Inv(n) && HasListener(n, s) && a == Addr(true, true, n.listens[n.socks[s].lst.value].port) && a.port != 0
    requires Open(n, t) && t != s && n.socks[t].kind == Unbound
    ensures Shape(Close(n, s)) && Bind(Close(n, s), t, a).1 == 0
  {
    hide Close, Bind;
    CloseListening(n, s);
    var n', l := Close(n, s), n.socks[s].lst.value;
    assert !n'.listens[l].used;
    BindEffect(n', t, a);
  }

  /** listen: the listener of the socket takes connections from now on; it succeeds exactly for a bound socket. */
  lemma ListenEffect(n: Net, s: nat)
    requires Shape(n)
    ensures var (n', r) := Listen(n, s);
            && (r == 0 <==> HasListener(n, s)) && (r == EBADF <==> !Open(n, s)) && (r != 0 ==> n' == n)
            && (r == 0 ==> var l := n.socks[s].lst.value;
                           && n'.socks == n.socks && n'.conns == n.conns && Shape(n') && n'.listens[l] == n.listens[l].(listening := true)
                           && forall m :: 0 <= m < MAX_LISTEN && m != l ==> n'.listens[m] == n.listens[m])
  {
  }

  // ---------------------------------------------------------------------------------------------
  // Connecting and accepting
  // ---------------------------------------------------------------------------------------------

  /** A listener that takes a connection on the port. */
  predicate Takes(n: Net, l: nat, port: nat)
    requires Shape(n)
  {
    l < MAX_LISTEN && n.listens[l].used && n.listens[l].listening && n.listens[l].port == port
  }

  /** `s` and the last endpoint of the queue of `l` are the two ends of a new connection with empty buffers. */
  ghost predicate NewConnection(n: Net, n': Net, s: nat, l: nat, port: nat)
    requires Shape(n) && Shape(n') && s < MAX_SOCKS && l < MAX_LISTEN
  {
    && HasConn(n', s) && OtherSocks(n, n', s) && |n'.listens[l].queue| == |n.listens[l].queue| + 1
    && (forall m :: 0 <= m < MAX_LISTEN && m != l ==> n'.listens[m] == n.listens[m])
    && n'.listens[l].used == n.listens[l].used && n'.listens[l].listening == n.listens[l].listening && n'.listens[l].port == n.listens[l].port
    && var c, d := n'.socks[s].conn.value, n'.listens[l].queue[|n.listens[l].queue|];
       && d < MAX_CONNS && c != d && !n.conns[c].used && !n.conns[d].used && n'.listens[l].queue[..|n.listens[l].queue|] == n.listens[l].queue
       && n'.conns[c] == Conn(true, false, 0, Some(d), [], [], []) && n'.conns[d] == Conn(true, false, port, Some(c), [], [], [])
       && forall x :: 0 <= x < MAX_CONNS && x != c && x != d ==> n'.conns[x] == n.conns[x]
  }

  predicate Connectable(n: Net, s: nat, a: Addr)
    requires Shape(n)
  {
    Open(n, s) && n.socks[s].kind == Unbound && a.inet && a.loopback && a.port != 0
  }

  /** connect: exactly with an unbound socket, a local address, a listener there with room in its queue, and two free
      endpoints; then the connection is made. Otherwise nothing that is in use has changed. */
  lemma ConnectEffect(n: Net, s: nat, a: Addr, l: nat)
    requires Inv(n) && Takes(n, l, a.port)
    ensures var (n', r) := Connect(n, s, a);
            && Shape(n')
            && (r == 0 <==> Connectable(n, s, a) && |n.listens[l].queue| < BACKLOG && TwoFree(n))
            && (r == 0 ==> NewConnection(n, n', s, l, a.port))
            && (r != 0 ==> r < 0 && n'.socks == n.socks && n'.listens == n.listens
                           && forall c :: 0 <= c < MAX_CONNS ==>
                                n'.conns[c].used == n.conns[c].used && (n.conns[c].used ==> n'.conns[c] == n.conns[c]))
  {
    if Connectable(n, s, a) {
      FindsIt(n, a.port, 0, l);
      TwoFreeFound(n);
    }
  }

  /** Two endpoints are free. */
  ghost predicate TwoFree(n: Net)
    requires Shape(n)
  {
    exists c, d :: 0 <= c < d < MAX_CONNS && !n.conns[c].used && !n.conns[d].used
  }

  lemma TwoFreeFound(n: Net)
    requires Shape(n)
    ensures var c := FirstFree(ConnsUsed(n), 0);
            (TwoFree(n) <==> c.Some? && FirstFree(ConnsUsed(n), c.value + 1).Some?)
  {
    var c := FirstFree(ConnsUsed(n), 0);
    if TwoFree(n) {
      var x, y :| 0 <= x < y < MAX_CONNS && !n.conns[x].used && !n.conns[y].used;
      assert !ConnsUsed(n)[x] && !ConnsUsed(n)[y];
    }
  }

  /** Ports are unique, so the first listener that takes a connection is the only one. */
  lemma {:induction false} FindsIt(n: Net, port: nat, i: nat, l: nat)
    requires Inv(n) && Takes(n, l, port) && i <= l
    ensures FindListener(n, port, i) == Some(l)
    decreases l - i
  {
    if i < l {
      assert Separate(n);
      FindsIt(n, port, i + 1, l);
    }
  }

  lemma {:induction false} FindsNone(n: Net, port: nat, i: nat)
    requires Shape(n) && i <= MAX_LISTEN && forall l: nat :: l < MAX_LISTEN ==> !Takes(n, l, port)
    ensures FindListener(n, port, i) == None
    decreases MAX_LISTEN - i
  {
    if i < MAX_LISTEN {
      assert !Takes(n, i, port);
      FindsNone(n, port, i + 1);
    }
  }

  /** Without a listener there the connection is refused. */
  lemma ConnectRefused(n: Net, s: nat, a: Addr)
    requires Inv(n) && forall l: nat :: l < MAX_LISTEN ==> !Takes(n, l, a.port)
    ensures var (n', r) := Connect(n, s, a); n' == n && r < 0 && (Connectable(n, s, a) <==> r == ECONNREFUSED)
  {
    FindsNone(n, a.port, 0);
  }

  /** accept with room: a new socket holds the oldest queued endpoint, which leaves the queue; nothing else changes. */
  lemma AcceptEffect(n: Net, s: nat)
    requires Inv(n) && Pops(n, s) && CanTake(n, Enough)
    ensures var (n', r) := Accept(n, s, Enough);
            var l := n.socks[s].lst.value;
            && Shape(n') && 0 <= r < MAX_SOCKS && !n.socks[r].used && OtherSocks(n, n', r) && n'.conns == n.conns
            && SockHolds(n', r, n.listens[l].queue[0]) && n'.listens[l].queue == n.listens[l].queue[1..]
            && n'.listens[l].used && n'.listens[l].port == n.listens[l].port && n'.listens[l].listening == n.listens[l].listening
            && forall m :: 0 <= m < MAX_LISTEN && m != l ==> n'.listens[m] == n.listens[m]
  {
    assert SockOk(n, s);
    assert ListenerOk(n, n.socks[s].lst.value);
  }

  /** An accept that finds no socket, file or descriptor: EMFILE, no socket more, and the endpoint is out of the queue. */
  lemma AcceptShort(n: Net, s: nat, room: Room)
    requires Inv(n) && Pops(n, s) && !CanTake(n, room)
    ensures var (n', r) := Accept(n, s, room);
            var l := n.socks[s].lst.value;
            && r == EMFILE && Shape(n') && n'.conns == n.conns && n'.listens[l].queue == n.listens[l].queue[1..]
            && forall t :: 0 <= t < MAX_SOCKS ==> n'.socks[t].used == n.socks[t].used && (n.socks[t].used ==> n'.socks[t] == n.socks[t])
  {
    assert SockOk(n, s);
  }

  /** Why an accept fails without taking anything. */
  lemma AcceptErrors(n: Net, s: nat, room: Room)
    requires Inv(n) && !Pops(n, s)
    ensures var (n', r) := Accept(n, s, room);
            && n' == n && (r == EBADF <==> !Open(n, s))
            && (r == EAGAIN <==> HasListener(n, s) && n.listens[n.socks[s].lst.value].listening && n.listens[n.socks[s].lst.value].queue == [])
            && (r == EBADF || r == EAGAIN || r == EINVAL)
  {
  }

  /** The whole handshake: a client connects to a listener with nothing queued, the server accepts, and what either of
      them sends then, up to a buffer full, is what the other receives. */
  lemma ConnectThenAccept(n: Net, server: nat, client: nat, a: Addr, data: seq<Byte>)
    requires Inv(n) && HasListener(n, server) && Takes(n, n.socks[server].lst.value, a.port) && n.listens[n.socks[server].lst.value].queue == []
    requires Connect(n, client, a).1 == 0 && CanTake(n, Enough) && |data| <= BUF_SIZE && client != server
    ensures var n1 := Connect(n, client, a).0;
            && Inv(n1)
            && var (n2, t) := Accept(n1, server, Enough);
               && Inv(n2) && 0 <= t < MAX_SOCKS && t != client
               && Send(n2, client, data).1 == |data| && Shape(Send(n2, client, data).0) && Recv(Send(n2, client, data).0, t, BUF_SIZE).1 == data
               && Send(n2, t, data).1 == |data| && Shape(Send(n2, t, data).0) && Recv(Send(n2, t, data).0, client, BUF_SIZE).1 == data
  {
    hide Connect, Accept, Send, Recv;
    var l := n.socks[server].lst.value;
    ConnectEffect(n, client, a, l);
    ConnectInv(n, client, a);
    var n1 := Connect(n, client, a).0;
    assert n1.socks[server] == n.socks[server];
    StillTakes(n, n1, client);
    AcceptEffect(n1, server);
    AcceptInv(n1, server, Enough);
    var (n2, t) := Accept(n1, server, Enough);
    var c, d := n1.socks[client].conn.value, n1.listens[l].queue[0];
    SendThenReceive(n2, client, t, data);
    SendThenReceive(n2, t, client, data);
    assert [] + data[..|data|] == data;
  }

  lemma StillTakes(n: Net, n1: Net, s: nat)
    requires Shape(n) && Shape(n1) && CanTake(n, Enough) && OtherSocks(n, n1, s) && s < MAX_SOCKS && n.socks[s].used
    ensures CanTake(n1, Enough)
  {
    var t := FirstFree(SocksUsed(n), 0).value;
    assert !SocksUsed(n1)[t];
  }

  /** Nothing is sent to an endpoint that is gone or closed. */
  lemma SendToNobody(n: Net, s: nat, data: seq<Byte>)
    requires Inv(n) && (!HasConn(n, s) || n.conns[n.socks[s].conn.value].closed)
    ensures Send(n, s, data) == (n, 0)
  {
  }
}
