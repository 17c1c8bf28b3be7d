/** What holds of loopback sockets over whole runs: who holds an endpoint, what a connection delivers, and
    in which order connections are accepted. */
module LoopbackRuns {
  import opened Bytes
  import opened Options
  import opened LoopbackModel
  import opened LoopbackInvariant

  // ---------------------------------------------------------------------------------------------
  // Endpoints and their holders
  // ---------------------------------------------------------------------------------------------

  /** Every live endpoint is held, by a socket or by the queue of a listener. */
  ghost predicate AllHeld(n: Net)
    requires Shape(n)
  {
    forall c :: 0 <= c < MAX_CONNS && n.conns[c].used ==> !Unheld(n, c)
  }

  /** An accept on `s` finds a connection. */
  predicate Pops(n: Net, s: nat)
    requires Shape(n)
  {
    HasListener(n, s) && n.listens[n.socks[s].lst.value].listening && n.listens[n.socks[s].lst.value].queue != []
  }

  /** There is a socket, a file and a descriptor for the connection. */
  predicate CanTake(n: Net, room: Room)
    requires Shape(n)
  {
    room == Enough && FirstFree(SocksUsed(n), 0).Some?
  }

  /** Holders and live endpoints but for those named by `gone` are as before. */
  lemma StillHeld(n: Net, n': Net, gone: set<nat>)
    requires Shape(n) && Shape(n') && AllHeld(n)
    requires forall c :: 0 <= c < MAX_CONNS && n'.conns[c].used ==> n.conns[c].used && c !in gone
    requires forall s, c :: 0 <= s < MAX_SOCKS && c !in gone && SockHolds(n, s, c) ==> SockHolds(n', s, c)
    requires forall l, c :: 0 <= l < MAX_LISTEN && c !in gone && QueueHolds(n, l, c) ==> QueueHolds(n', l, c)
    ensures AllHeld(n')
  {
    hide SockHolds, QueueHolds, Shape;
  }

  /** The accept that takes an endpoint from the queue keeps it held exactly when a socket gets it. */
  lemma AcceptHeldIff(n: Net, s: nat, room: Room)
    requires Inv(n) && AllHeld(n)
    ensures Shape(Accept(n, s, room).0)
    ensures AllHeld(Accept(n, s, room).0) <==> !Pops(n, s) || CanTake(n, room)
  {
    AcceptInv(n, s, room);
    var n' := Accept(n, s, room).0;
    if Pops(n, s) {
      var l := n.socks[s].lst.value;
      AcceptsFrom(n, s);
      PoppedInv(n, l);
      var n1, c := SetListener(n, l, Popped(n.listens[l])), n.listens[l].queue[0];
      if CanTake(n, room) {
        var t := FirstFree(SocksUsed(n), 0).value;
        assert SockHolds(n', t, c);
        forall d | 0 <= d < MAX_CONNS && n'.conns[d].used && d != c ensures !Unheld(n', d) {
          OtherStillHeld(n, n', l, d);
        }
      } else {
        forall t | 0 <= t < MAX_SOCKS ensures !SockHolds(n', t, c) { assert !SockHolds(n1, t, c); }
        forall m | 0 <= m < MAX_LISTEN ensures !QueueHolds(n', m, c) { assert !QueueHolds(n1, m, c); }
      }
    }
  }

  /** An endpoint other than the head of the queue keeps its holder. */
  lemma OtherStillHeld(n: Net, n': Net, l: nat, d: nat)
    requires Shape(n) && Shape(n') && !Unheld(n, d) && l < MAX_LISTEN && n.listens[l].queue != [] && d != n.listens[l].queue[0]
    requires n'.listens == n.listens[l := Popped(n.listens[l])]
    requires forall t :: 0 <= t < MAX_SOCKS && n.socks[t].used ==> n'.socks[t] == n.socks[t]
    ensures !Unheld(n', d)
  {
    if t :| 0 <= t < MAX_SOCKS && SockHolds(n, t, d) {
      assert SockHolds(n', t, d);
    } else {
      var m :| 0 <= m < MAX_LISTEN && QueueHolds(n, m, d);
      var q := n.listens[l].queue;
      assert q == [q[0]] + q[1..];
      assert QueueHolds(n', m, d);
    }
  }

  /** Each of the three shortages drops the connection: its endpoint is live and nobody holds it. */
  lemma AcceptCanDrop(n: Net, s: nat, room: Room)
    requires Inv(n) && Pops(n, s) && !CanTake(n, room)
    ensures var n', c := Accept(n, s, room).0, n.listens[n.socks[s].lst.value].queue[0];
            Shape(n') && c < MAX_CONNS && n'.conns[c].used && Unheld(n', c)
  {
    AcceptInv(n, s, room);
    var n' := Accept(n, s, room).0;
    var l := n.socks[s].lst.value;
    AcceptsFrom(n, s);
    PoppedInv(n, l);
    var n1, c := SetListener(n, l, Popped(n.listens[l])), n.listens[l].queue[0];
    forall t | 0 <= t < MAX_SOCKS ensures !SockHolds(n', t, c) { assert !SockHolds(n1, t, c); }
    forall m | 0 <= m < MAX_LISTEN ensures !QueueHolds(n', m, c) { assert !QueueHolds(n1, m, c); }
  }

  lemma SocketHeld(n: Net, inet: bool, stream: bool, room: Room)
    requires Inv(n) && AllHeld(n)
    ensures Shape(Socket(n, inet, stream, room).0) && AllHeld(Socket(n, inet, stream, room).0)
  {
    StillHeld(n, Socket(n, inet, stream, room).0, {});
  }

  lemma BindHeld(n: Net, s: nat, a: Addr)
    requires Inv(n) && AllHeld(n)
    ensures Shape(Bind(n, s, a).0) && AllHeld(Bind(n, s, a).0)
  {
    assert forall c :: 0 <= s < MAX_SOCKS && n.socks[s].kind == Unbound ==> !SockHolds(n, s, c);
    StillHeld(n, Bind(n, s, a).0, {});
  }

  lemma ListenHeld(n: Net, s: nat)
    requires Inv(n) && AllHeld(n)
    ensures Shape(Listen(n, s).0) && AllHeld(Listen(n, s).0)
  {
    StillHeld(n, Listen(n, s).0, {});
  }

  lemma ConnectHeld(n: Net, s: nat, a: Addr)
    requires Inv(n) && AllHeld(n)
    ensures Shape(Connect(n, s, a).0) && AllHeld(Connect(n, s, a).0)
  {
    var n' := Connect(n, s, a).0;
    ConnectInv(n, s, a);
    if Connect(n, s, a).1 == 0 {
      var l, c := FindListener(n, a.port, 0).value, FirstFree(ConnsUsed(n), 0).value;
      var d := FirstFree(ConnsUsed(n), c + 1).value;
      PairHeld(n, s, l, c, d, a.port);
    } else {
      StillHeld(n, n', {});
    }
  }

  /** Of a new connection, the socket holds one endpoint and the queue the other. */
  lemma PairHeld(n: Net, s: nat, l: nat, c: nat, d: nat, port: nat)
    requires Shape(n) && AllHeld(n) && s < MAX_SOCKS && n.socks[s].used && n.socks[s].kind == Unbound
    requires l < MAX_LISTEN && n.listens[l].used && |n.listens[l].queue| < BACKLOG && c < MAX_CONNS && d < MAX_CONNS
    ensures Shape(Connected2(n, s, l, c, d, port)) && AllHeld(Connected2(n, s, l, c, d, port))
  {
    var n' := Connected2(n, s, l, c, d, port);
    assert SockHolds(n', s, c) && QueueHolds(n', l, d);
    forall x | 0 <= x < MAX_CONNS && n'.conns[x].used && x != c && x != d ensures !Unheld(n', x) {
      assert !Unheld(n, x);
      if t :| 0 <= t < MAX_SOCKS && SockHolds(n, t, x) {
        assert SockHolds(n', t, x);
      } else {
        var m :| 0 <= m < MAX_LISTEN && QueueHolds(n, m, x);
        assert QueueHolds(n', m, x);
      }
    }
  }

  lemma DataHeld(n: Net, n': Net)
    requires Shape(n) && Shape(n') && AllHeld(n) && n'.socks == n.socks && n'.listens == n.listens
    requires forall c :: 0 <= c < MAX_CONNS ==> n'.conns[c].used == n.conns[c].used
    ensures AllHeld(n')
  {
    StillHeld(n, n', {});
  }

  lemma ReleaseHeld(n: Net, s: nat, mark: bool, open: bool)
    requires Inv(n) && AllHeld(n) && HasConn(n, s)
    ensures var n' := SetSock(Detach(n, n.socks[s].conn.value, mark), s, n.socks[s].(used := open, conn := None));
            Shape(n') && AllHeld(n')
  {
    hide Detach;
    var c := n.socks[s].conn.value;
    assert SockOk(n, s);
    DetachOk(n, c, mark);
    StillHeld(n, SetSock(Detach(n, c, mark), s, n.socks[s].(used := open, conn := None)), {c});
  }

  lemma CloseHeld(n: Net, s: nat)
    requires Inv(n) && AllHeld(n)
    ensures Shape(Close(n, s)) && AllHeld(Close(n, s))
  {
    hide Detach, DetachAll, SlotOrder;
    CloseInv(n, s);
    if !Open(n, s) {
    } else if HasConn(n, s) {
      ReleaseHeld(n, s, false, false);
    } else if HasListener(n, s) {
      var l := n.socks[s].lst.value;
      AcceptsFrom(n, s);
      QueueDetached(n, l);
      StillHeld(n, Close(n, s), set c | c in n.listens[l].queue);
    } else {
      assert SockOk(n, s);
      StillHeld(n, Close(n, s), {});
    }
  }

  /** A call that drops an endpoint. */
  predicate Drops(n: Net, c: Call)
    requires Shape(n)
  {
    c.DoAccept? && Pops(n, c.sa) && !CanTake(n, c.roomA)
  }

  /** Every call leaves every live endpoint held, but for an accept without room, which never does. */
  lemma ApplyHeldIff(n: Net, c: Call)
    requires Inv(n) && AllHeld(n)
    ensures Shape(Apply(n, c)) && (AllHeld(Apply(n, c)) <==> !Drops(n, c))
  {
    hide Socket, Bind, Listen, Connect, Accept, Send, Recv, Close, Shutdown, AllHeld, Pops, CanTake;
    ApplyInv(n, c);
    match c
    case DoSocket(inet, stream, room) => SocketHeld(n, inet, stream, room);
    case DoBind(s, a) => BindHeld(n, s, a);
    case DoListen(s) => ListenHeld(n, s);
    case DoConnect(s, a) => ConnectHeld(n, s, a);
    case DoAccept(s, room) => AcceptHeldIff(n, s, room);
    case DoSend(s, data) => SendHeld(n, s, data);
    case DoRecv(s, size) => RecvHeld(n, s, size);
    case DoClose(s) => CloseHeld(n, s);
    case DoShutdown(s) => ShutdownHeld(n, s);
  }

  lemma SendHeld(n: Net, s: nat, data: seq<Byte>)
    requires Inv(n) && AllHeld(n)
    ensures Shape(Send(n, s, data).0) && AllHeld(Send(n, s, data).0)
  {
    SendInv(n, s, data);
    DataHeld(n, Send(n, s, data).0);
  }

  lemma RecvHeld(n: Net, s: nat, size: nat)
    requires Inv(n) && AllHeld(n)
    ensures Shape(Recv(n, s, size).0) && AllHeld(Recv(n, s, size).0)
  {
    RecvInv(n, s, size);
    DataHeld(n, Recv(n, s, size).0);
  }

  lemma ShutdownHeld(n: Net, s: nat)
    requires Inv(n) && AllHeld(n)
    ensures Shape(Shutdown(n, s).0) && AllHeld(Shutdown(n, s).0)
  {
    hide Detach;
    if HasConn(n, s) { ReleaseHeld(n, s, true, true); }
  }

  /** Over every run without such an accept, every live endpoint has exactly one holder. */
  lemma {:induction false} NeverDropped(ns: seq<Net>, calls: seq<Call>, k: nat)
    requires IsRun(ns, calls) && k < |ns|
    requires forall i :: 0 <= i < k ==> Shape(ns[i]) && !Drops(ns[i], calls[i])
    ensures Inv(ns[k]) && AllHeld(ns[k])
  {
    hide Apply, Inv, Shape, Drops, AllHeld;
    ReachableInv(ns, calls, k);
    if k == 0 {
      InitHeld();
    } else {
      NeverDropped(ns, calls, k - 1);
      ApplyHeldIff(ns[k - 1], calls[k - 1]);
    }
  }

  lemma InitHeld()
    ensures AllHeld(Init())
  {
  }

  /** An endpoint that was dropped: live, and held by nobody. */
  ghost predicate Dropped(n: Net, c: nat)
    requires Shape(n)
  {
    c < MAX_CONNS && n.conns[c].used && Unheld(n, c)
  }

  /** Nobody new holds `c`, and it is still live. */
  lemma StillDropped(n: Net, n': Net, c: nat)
    requires Shape(n) && Shape(n') && Dropped(n, c) && n'.conns[c].used
    requires forall s :: 0 <= s < MAX_SOCKS && SockHolds(n', s, c) ==> SockHolds(n, s, c)
    requires forall l :: 0 <= l < MAX_LISTEN && QueueHolds(n', l, c) ==> QueueHolds(n, l, c)
    ensures Dropped(n', c)
  {
  }

  lemma DroppedAtClose(n: Net, s: nat, c: nat)
    requires Inv(n) && Dropped(n, c)
    ensures Shape(Close(n, s)) && Dropped(Close(n, s), c) && Shape(Shutdown(n, s).0) && Dropped(Shutdown(n, s).0, c)
  {
    hide Detach, DetachAll, SlotOrder;
    CloseInv(n, s);
    ShutdownInv(n, s);
    if HasConn(n, s) {
      var d := n.socks[s].conn.value;
      assert SockHolds(n, s, d) && SockOk(n, s);
      DetachOk(n, d, false);
      DetachOk(n, d, true);
    } else if HasListener(n, s) {
      AcceptsFrom(n, s);
      assert !QueueHolds(n, n.socks[s].lst.value, c);
      QueueDetached(n, n.socks[s].lst.value);
    }
    StillDropped(n, Close(n, s), c);
    StillDropped(n, Shutdown(n, s).0, c);
  }

  lemma DroppedAtAccept(n: Net, s: nat, room: Room, c: nat)
    requires Inv(n) && Dropped(n, c)
    ensures Shape(Accept(n, s, room).0) && Dropped(Accept(n, s, room).0, c)
  {
    AcceptInv(n, s, room);
    if Pops(n, s) {
      var l := n.socks[s].lst.value;
      AcceptsFrom(n, s);
      var q := n.listens[l].queue;
      assert !QueueHolds(n, l, c) && q == [q[0]] + q[1..];
    }
    StillDropped(n, Accept(n, s, room).0, c);
  }

  lemma DroppedAtRest(n: Net, call: Call, c: nat)
    requires Inv(n) && Dropped(n, c) && !call.DoAccept? && !call.DoClose? && !call.DoShutdown?
    ensures Shape(Apply(n, call)) && Dropped(Apply(n, call), c)
  {
    ApplyInv(n, call);
    StillDropped(n, Apply(n, call), c);
  }

  /** What has been dropped is never used again: no call frees the endpoint or gives it to anybody. */
  lemma {:induction false} DroppedForever(ns: seq<Net>, calls: seq<Call>, c: nat, j: nat, k: nat)
    requires IsRun(ns, calls) && j <= k < |ns| && Shape(ns[j]) && Dropped(ns[j], c)
    ensures Inv(ns[k]) && Dropped(ns[k], c)
    decreases k
  {
    hide Socket, Bind, Listen, Connect, Accept, Send, Recv, Close, Shutdown, Dropped;
    ReachableInv(ns, calls, k);
    if k > j {
      DroppedForever(ns, calls, c, j, k - 1);
      match calls[k - 1]
      case DoAccept(s, room) => DroppedAtAccept(ns[k - 1], s, room, c);
      case DoClose(s) => DroppedAtClose(ns[k - 1], s, c);
      case DoShutdown(s) => DroppedAtClose(ns[k - 1], s, c);
      case _ => DroppedAtRest(ns[k - 1], calls[k - 1], c);
    }
  }

  // ---------------------------------------------------------------------------------------------
  // Delivery
  // ---------------------------------------------------------------------------------------------

  /** Any run, from any state. */
  ghost predicate IsRunFrom(ns: seq<Net>, calls: seq<Call>) {
    && |ns| == |calls| + 1 && Inv(ns[0])
    && forall k :: 0 <= k < |calls| ==> Shape(ns[k]) && ns[k + 1] == Apply(ns[k], calls[k])
  }

  lemma {:induction false} RunKeepsInv(ns: seq<Net>, calls: seq<Call>, k: nat)
    requires IsRunFrom(ns, calls) && k < |ns|
    ensures Inv(ns[k])
  {
    hide Apply, Inv, Shape;
    if k > 0 {
      RunKeepsInv(ns, calls, k - 1);
      ApplyInv(ns[k - 1], calls[k - 1]);
    }
  }

  /** The call by which socket `t` gives up what it has. */
  predicate LetsGo(c: Call, t: nat) { c == DoClose(t) || c == DoShutdown(t) }

  /** The bytes that a call delivers to the user of socket `t`. */
  function Delivered(n: Net, c: Call, t: nat): seq<Byte>
    requires Shape(n)
  {
    if c.DoRecv? && c.sr == t then Recv(n, t, c.size).1 else []
  }

  /** Socket `t` keeps endpoint `c`; what has been read grows by `bs`; what was sent to it can only grow, and
      not any more once the peer is gone. */
  ghost predicate StreamGoesOn(n: Net, n': Net, t: nat, c: nat, bs: seq<Byte>)
    requires Shape(n) && Shape(n') && t < MAX_SOCKS && c < MAX_CONNS
  {
    var x, y := n.conns[c], n'.conns[c];
    && SockHolds(n', t, c) && y.got == x.got + bs && x.sent <= y.sent
    && (x.closed ==> y.closed && y.sent == x.sent)
  }

  lemma HeldEndpoint(n: Net, t: nat, c: nat)
    requires Inv(n) && t < MAX_SOCKS && SockHolds(n, t, c)
    ensures HasConn(n, t) && c < MAX_CONNS && n.conns[c].used && PeerOk(n, c)
  {
    assert SockOk(n, t);
  }

  lemma SendStep(n: Net, s: nat, data: seq<Byte>, t: nat, c: nat)
    requires Inv(n) && t < MAX_SOCKS && SockHolds(n, t, c) && c < MAX_CONNS
    ensures var n' := Send(n, s, data).0; Shape(n') && StreamGoesOn(n, n', t, c, [])
  {
    HeldEndpoint(n, t, c);
    SendInv(n, s, data);
    if HasConn(n, s) {
      HeldEndpoint(n, s, n.socks[s].conn.value);
    }
  }

  lemma RecvStep(n: Net, s: nat, size: nat, t: nat, c: nat)
    requires Inv(n) && t < MAX_SOCKS && SockHolds(n, t, c) && c < MAX_CONNS
    ensures var n' := Recv(n, s, size).0; Shape(n') && StreamGoesOn(n, n', t, c, if s == t then Recv(n, t, size).1 else [])
  {
    HeldEndpoint(n, t, c);
    RecvInv(n, s, size);
    if s != t && HasConn(n, s) {
      assert SockHolds(n, s, n.socks[s].conn.value);
    }
  }

  lemma ReleaseStep(n: Net, s: nat, t: nat, c: nat)
    requires Inv(n) && t < MAX_SOCKS && SockHolds(n, t, c) && c < MAX_CONNS && s != t
    ensures Shape(Close(n, s)) && StreamGoesOn(n, Close(n, s), t, c, [])
    ensures Shape(Shutdown(n, s).0) && StreamGoesOn(n, Shutdown(n, s).0, t, c, [])
  {
    hide Detach, DetachAll, SlotOrder;
    HeldEndpoint(n, t, c);
    CloseInv(n, s);
    ShutdownInv(n, s);
    if HasConn(n, s) {
      var d := n.socks[s].conn.value;
      assert SockHolds(n, s, d) && SockOk(n, s);
      DetachOk(n, d, false);
      DetachOk(n, d, true);
    } else if HasListener(n, s) {
      AcceptsFrom(n, s);
      assert !QueueHolds(n, n.socks[s].lst.value, c);
      QueueDetached(n, n.socks[s].lst.value);
    }
  }

  /** The other calls touch no endpoint in use and no socket that has one. */
  lemma QuietStep(n: Net, c: Call, t: nat, e: nat)
    requires Inv(n) && t < MAX_SOCKS && SockHolds(n, t, e) && e < MAX_CONNS
    requires c.DoSocket? || c.DoBind? || c.DoListen? || c.DoConnect? || c.DoAccept?
    ensures Shape(Apply(n, c)) && Apply(n, c).socks[t] == n.socks[t] && Apply(n, c).conns[e] == n.conns[e]
  {
    HeldEndpoint(n, t, e);
    ApplyInv(n, c);
  }

  /** One call of anybody, but for `t` itself letting go. */
  lemma StreamStep(n: Net, c: Call, t: nat, e: nat)
    requires Inv(n) && t < MAX_SOCKS && SockHolds(n, t, e) && !LetsGo(c, t)
    ensures e < MAX_CONNS && Shape(Apply(n, c)) && StreamGoesOn(n, Apply(n, c), t, e, Delivered(n, c, t))
  {
    hide Socket, Bind, Listen, Connect, Accept, Send, Recv, Close, Shutdown;
    HeldEndpoint(n, t, e);
    match c
    case DoSend(s, data) => SendStep(n, s, data, t, e);
    case DoRecv(s, size) => RecvStep(n, s, size, t, e);
    case DoClose(s) => ReleaseStep(n, s, t, e);
    case DoShutdown(s) => ReleaseStep(n, s, t, e);
    case _ => QuietStep(n, c, t, e);
  }

  /** All bytes delivered to the user of `t` by the first `k` calls, one after the other. */
  ghost function AllDelivered(ns: seq<Net>, calls: seq<Call>, t: nat, k: nat): seq<Byte>
    requires IsRunFrom(ns, calls) && k <= |calls|
  {
    if k == 0 then [] else AllDelivered(ns, calls, t, k - 1) + Delivered(ns[k - 1], calls[k - 1], t)
  }

  /** While `t` keeps its endpoint, whatever the others do: what its user has been given is, in order and
      without a gap, a first part of what was sent to it. */
  lemma {:induction false} DeliveryInOrder(ns: seq<Net>, calls: seq<Call>, t: nat, c: nat, k: nat)
    requires IsRunFrom(ns, calls) && k <= |calls| && t < MAX_SOCKS && SockHolds(ns[0], t, c)
    requires forall i :: 0 <= i < k ==> !LetsGo(calls[i], t)
    ensures Inv(ns[k]) && c < MAX_CONNS && StreamGoesOn(ns[0], ns[k], t, c, AllDelivered(ns, calls, t, k))
    ensures ns[k].conns[c].got <= ns[k].conns[c].sent
  {
    hide Apply, Delivered;
    RunKeepsInv(ns, calls, k);
    if k == 0 {
      HeldEndpoint(ns[0], t, c);
    } else {
      DeliveryInOrder(ns, calls, t, c, k - 1);
      RunKeepsInv(ns, calls, k - 1);
      StreamStep(ns[k - 1], calls[k - 1], t, c);
      HeldEndpoint(ns[k], t, c);
    }
  }

  /** Once the peer is gone, the receives of `t` give what is still waiting, in order, and a receive gives
      nothing exactly when all of it, and so all that was ever sent, has been given. */
  lemma DrainThenEof(ns: seq<Net>, calls: seq<Call>, t: nat, c: nat, k: nat, size: nat)
    requires IsRunFrom(ns, calls) && k <= |calls| && t < MAX_SOCKS && SockHolds(ns[0], t, c) && size > 0
    requires c < MAX_CONNS && ns[0].conns[c].closed
    requires forall i :: 0 <= i < k ==> !LetsGo(calls[i], t)
    ensures Inv(ns[k]) && AllDelivered(ns, calls, t, k) <= ns[0].conns[c].buf
    ensures Recv(ns[k], t, size).1 == [] <==> AllDelivered(ns, calls, t, k) == ns[0].conns[c].buf
    ensures Recv(ns[k], t, size).1 == [] <==> ns[k].conns[c].got == ns[0].conns[c].sent
  {
    hide Apply, Delivered, AllDelivered;
    DeliveryInOrder(ns, calls, t, c, k);
    HeldEndpoint(ns[0], t, c);
    HeldEndpoint(ns[k], t, c);
    var x, y, bs := ns[0].conns[c], ns[k].conns[c], AllDelivered(ns, calls, t, k);
    assert x.sent[|x.got|..] == x.buf;
    assert y.sent[|x.got|..] == bs + y.buf;
    assert Recv(ns[k], t, size).1 == y.buf[..Min(size, |y.buf|)];
  }

  // ---------------------------------------------------------------------------------------------
  // The order of accepts
  // ---------------------------------------------------------------------------------------------

  /** The endpoint that an accept on `s` hands to its user. */
  function Accepted(n: Net, c: Call, s: nat): seq<nat>
    requires Shape(n)
  {
    if c.DoAccept? && c.sa == s && Pops(n, s) && CanTake(n, c.roomA)
    then [Apply(n, c).socks[Accept(n, s, c.roomA).1].conn.value] else []
  }

  /** The server's endpoint of a connection that a connect has made to listener `l`. */
  function Arrived(n: Net, c: Call, l: nat): seq<nat>
    requires Shape(n)
  {
    if c.DoConnect? && Connect(n, c.sc, c.ac).1 == 0 && FindListener(n, c.ac.port, 0) == Some(l)
    then var n' := Apply(n, c); [n'.conns[n'.socks[c.sc].conn.value].peer.value] else []
  }

  ghost predicate QueueGoesOn(x: Listener, y: Listener, arrived: seq<nat>, accepted: seq<nat>) {
    y.used == x.used && y.arrived == x.arrived + arrived && y.accepted == x.accepted + accepted
  }

  lemma ConnectStep(n: Net, t: nat, a: Addr, s: nat, l: nat)
    requires Inv(n) && s < MAX_SOCKS && SockListens(n, s, l) && l < MAX_LISTEN
    ensures var n' := Connect(n, t, a).0;
            Shape(n') && SockListens(n', s, l) && QueueGoesOn(n.listens[l], n'.listens[l], Arrived(n, DoConnect(t, a), l), [])
  {
    ConnectInv(n, t, a);
  }

  lemma AcceptStep(n: Net, t: nat, room: Room, s: nat, l: nat)
    requires Inv(n) && s < MAX_SOCKS && SockListens(n, s, l) && l < MAX_LISTEN && !Drops(n, DoAccept(t, room))
    ensures var n' := Accept(n, t, room).0;
            Shape(n') && SockListens(n', s, l) && QueueGoesOn(n.listens[l], n'.listens[l], [], Accepted(n, DoAccept(t, room), s))
  {
    AcceptInv(n, t, room);
    if Pops(n, t) {
      assert SockListens(n, t, n.socks[t].lst.value);
    }
  }

  lemma CloseOther(n: Net, t: nat, s: nat, l: nat)
    requires Inv(n) && s < MAX_SOCKS && SockListens(n, s, l) && l < MAX_LISTEN && s != t
    ensures Shape(Close(n, t)) && SockListens(Close(n, t), s, l) && Close(n, t).listens[l] == n.listens[l]
    ensures Shape(Shutdown(n, t).0) && SockListens(Shutdown(n, t).0, s, l) && Shutdown(n, t).0.listens[l] == n.listens[l]
  {
    hide DetachAll, SlotOrder;
    CloseInv(n, t);
    ShutdownInv(n, t);
    if HasListener(n, t) {
      assert SockListens(n, t, n.socks[t].lst.value);
    }
  }

  lemma OtherStep(n: Net, c: Call, s: nat, l: nat)
    requires Inv(n) && s < MAX_SOCKS && SockListens(n, s, l) && l < MAX_LISTEN
    requires c.DoSocket? || c.DoBind? || c.DoListen? || c.DoSend? || c.DoRecv? || c == DoShutdown(s)
    ensures Shape(Apply(n, c)) && SockListens(Apply(n, c), s, l) && QueueGoesOn(n.listens[l], Apply(n, c).listens[l], [], [])
  {
    ApplyInv(n, c);
    assert SockOk(n, s);
  }

  lemma OrderStep(n: Net, c: Call, s: nat, l: nat)
    requires Inv(n) && s < MAX_SOCKS && SockListens(n, s, l) && c != DoClose(s) && !Drops(n, c)
    ensures l < MAX_LISTEN && Shape(Apply(n, c)) && SockListens(Apply(n, c), s, l)
    ensures QueueGoesOn(n.listens[l], Apply(n, c).listens[l], Arrived(n, c, l), Accepted(n, c, s))
  {
    hide Socket, Bind, Listen, Connect, Accept, Send, Recv, Close, Shutdown, Drops;
    assert SockOk(n, s);
    match c
    case DoConnect(t, a) => ConnectStep(n, t, a, s, l);
    case DoAccept(t, room) => AcceptStep(n, t, room, s, l);
    case DoClose(t) => CloseOther(n, t, s, l);
    case DoShutdown(t) => if t != s { CloseOther(n, t, s, l); } else { OtherStep(n, c, s, l); }
    case _ => OtherStep(n, c, s, l);
  }

  ghost function AllAccepted(ns: seq<Net>, calls: seq<Call>, s: nat, k: nat): seq<nat>
    requires IsRunFrom(ns, calls) && k <= |calls|
  {
    if k == 0 then [] else AllAccepted(ns, calls, s, k - 1) + Accepted(ns[k - 1], calls[k - 1], s)
  }

  ghost function AllArrived(ns: seq<Net>, calls: seq<Call>, l: nat, k: nat): seq<nat>
    requires IsRunFrom(ns, calls) && k <= |calls|
  {
    if k == 0 then [] else AllArrived(ns, calls, l, k - 1) + Arrived(ns[k - 1], calls[k - 1], l)
  }

  lemma {:induction false} QueueOverRun(ns: seq<Net>, calls: seq<Call>, s: nat, l: nat, k: nat)
    requires IsRunFrom(ns, calls) && k <= |calls| && s < MAX_SOCKS && SockListens(ns[0], s, l)
    requires forall i :: 0 <= i < k ==> Shape(ns[i]) && calls[i] != DoClose(s) && !Drops(ns[i], calls[i])
    ensures Inv(ns[k]) && l < MAX_LISTEN && SockListens(ns[k], s, l)
    ensures QueueGoesOn(ns[0].listens[l], ns[k].listens[l], AllArrived(ns, calls, l, k), AllAccepted(ns, calls, s, k))
  {
    hide Apply, Accepted, Arrived, Drops, Inv;
    RunKeepsInv(ns, calls, k);
    if k == 0 {
      ListenerIndex(ns[0], s, l);
    } else {
      QueueOverRun(ns, calls, s, l, k - 1);
      OrderStep(ns[k - 1], calls[k - 1], s, l);
    }
  }

  lemma ListenerIndex(n: Net, s: nat, l: nat)
    requires Inv(n) && s < MAX_SOCKS && SockListens(n, s, l)
    ensures Shape(n) && l < MAX_LISTEN && n.listens[l].used && ListenerOk(n, l)
  {
    assert SockOk(n, s);
  }

  /** From an empty queue on, the accepts on `s` hand out the connections in the order of the connects that
      made them: what has been accepted is a first part of what has arrived, and the rest is in the queue. */
  lemma AcceptsFollowConnects(ns: seq<Net>, calls: seq<Call>, s: nat, l: nat, k: nat)
    requires IsRunFrom(ns, calls) && k <= |calls| && s < MAX_SOCKS && SockListens(ns[0], s, l)
    requires l < MAX_LISTEN && ns[0].listens[l].queue == []
    requires forall i :: 0 <= i < k ==> Shape(ns[i]) && calls[i] != DoClose(s) && !Drops(ns[i], calls[i])
    ensures Inv(ns[k]) && AllArrived(ns, calls, l, k) == AllAccepted(ns, calls, s, k) + ns[k].listens[l].queue
  {
    hide Apply, Accepted, Arrived, Drops, Inv, AllArrived, AllAccepted;
    QueueOverRun(ns, calls, s, l, k);
    ListenerIndex(ns[0], s, l);
    ListenerIndex(ns[k], s, l);
    QueueBalance(ns[0].listens[l], ns[k].listens[l], AllArrived(ns, calls, l, k), AllAccepted(ns, calls, s, k));
  }

  lemma QueueBalance(x: Listener, y: Listener, arrived: seq<nat>, accepted: seq<nat>)
    requires QueueGoesOn(x, y, arrived, accepted) && x.arrived == x.accepted + x.queue && y.arrived == y.accepted + y.queue
    requires x.queue == []
    ensures arrived == accepted + y.queue
  {
    assert x.accepted == x.arrived;
    assert y.arrived[|x.arrived|..] == arrived;
    assert (x.accepted + accepted + y.queue)[|x.accepted|..] == accepted + y.queue;
  }
}
