/** The objects on both ends of a proxied connection: the host's registry of sockets and the plugin's
    connection, each method proved against the step of the byte stream it is. */
module ConnProxy {
  import opened Text
  import opened ConnStream

  // ----- identifiers

  function ConnId(n: nat): string { "conn-" + Itoa(n) }

  /** Different counts give different identifiers, and trimming one changes nothing. */
  lemma ConnIdInjective(m: nat, n: nat)
    ensures ConnId(m) == ConnId(n) ==> m == n
    ensures TrimSpace(ConnId(m)) == ConnId(m)
  {
    if ConnId(m) == ConnId(n) {
      assert Itoa(m) == ConnId(m)[5..] && Itoa(n) == ConnId(n)[5..];
      ItoaInjective(m, n);
    }
    ItoaNotEmpty(m);
    assert ConnId(m)[|ConnId(m)| - 1] in Itoa(m);
    TrimmedFixed(ConnId(m));
  }

  // ----- the host's sockets

  /** A socket, as its peer and its user see it. */
  class Socket {
    const stream: seq<byte>
    var pos: nat
    var sent: seq<byte>
    var open: bool

    constructor (stream: seq<byte>)
      ensures this.stream == stream && pos == 0 && sent == [] && open
    {
      this.stream := stream;
      pos, sent, open := 0, [], true;
    }

    ghost predicate Valid()
      reads this
    {
      pos <= |stream|
    }
  }

  /** What a socket may do when it is read. */
  ghost predicate SocketReads(s: Socket, max: nat, r: SocketResult)
    reads s
  {
    r.n <= max && s.pos + r.n <= |s.stream| && (r.error.EndOfStream? ==> s.pos + r.n == |s.stream|)
  }

  class ConnRegistry {
    var seqNo: nat
    var conns: map<string, Socket>
    ghost var issued: seq<string>

    ghost predicate Valid()
      reads this
    {
      && |issued| == seqNo && (forall i :: 0 <= i < seqNo ==> issued[i] == ConnId(i + 1))
      && forall id :: id in conns ==> id in issued
    }

    constructor ()
      ensures Valid() && conns == map[] && issued == []
    {
      seqNo, conns, issued := 0, map[], [];
    }

    /** The identifier is one that was never issued before. */
    method Add(conn: Socket) returns (id: string)
      requires Valid()
      modifies this
      ensures Valid() && id !in old(issued) && issued == old(issued) + [id]
      ensures id !in old(conns) && conns == old(conns)[id := conn] && TrimSpace(id) == id
    {
      seqNo := seqNo + 1;
      id := ConnId(seqNo);
      ConnIdInjective(seqNo, seqNo);
      forall i | 0 <= i < |issued| ensures issued[i] != id {
        ConnIdInjective(i + 1, seqNo);
      }
      conns := conns[id := conn];
      issued := issued + [id];
    }

    method Get(id: string) returns (found: bool, conn: Socket?)
      ensures found == (id in conns) && (found ==> conn == conns[id])
    {
      if id in conns { return true, conns[id]; }
      return false, null;
    }

    method Remove(id: string) returns (found: bool, conn: Socket?)
      requires Valid()
      modifies this
      ensures Valid() && issued == old(issued) && conns == old(conns) - {id}
      ensures found == (id in old(conns)) && (found ==> conn == old(conns)[id])
    {
      if id in conns {
        found, conn := true, conns[id];
        conns := conns - {id};
      } else {
        found, conn := false, null;
      }
    }

    method CloseAll()
      requires Valid()
      modifies this, conns.Values
      ensures Valid() && issued == old(issued) && conns == map[]
      ensures forall s :: s in old(conns.Values) ==> !s.open && s.pos == old(s.pos) && s.sent == old(s.sent)
    {
      var closing := conns;
      conns := map[];
      var todo := closing.Keys;
      while todo != {}
        invariant Valid() && issued == old(issued) && conns == map[] && todo <= closing.Keys
        invariant forall s :: s in closing.Values ==> s.pos == old(s.pos) && s.sent == old(s.sent)
        invariant forall id :: id in closing && id !in todo ==> !closing[id].open
        decreases todo
      {
        var id :| id in todo;
        todo := todo - {id};
        closing[id].open := false;
      }
    }

    // ----- what the host does for a plugin's call; `r` is what the socket does

    ghost function Named(id: string): set<Socket>
      reads this
    {
      if TrimSpace(id) in conns then {conns[TrimSpace(id)]} else {}
    }

    method ConnRead(id: string, maxBytes: int, r: SocketResult) returns (reply: ReadReply)
      requires forall s :: s in Named(id) ==> s.Valid() && SocketReads(s, HostMax(maxBytes), r)
      modifies Named(id)
      ensures Named(id) == {} ==> reply == Refused
      ensures forall s :: s in Named(id) ==>
                && s.Valid() && s.pos == old(s.pos) + r.n && s.sent == old(s.sent) && s.open == old(s.open)
                && reply == if r.error.OtherError? && r.n == 0 then Refused
                            else ReadReply(s.stream[old(s.pos)..old(s.pos) + r.n], r.error.EndOfStream?)
    {
      var found, conn := Get(TrimSpace(id));
      if !found { return Refused; }
      var max := maxBytes;
      if max <= 0 { max := READ_DEFAULT_BYTES; }
      if max > READ_MAX_BYTES { max := READ_MAX_BYTES; }
      assert r.n <= max;
      var data := conn.stream[conn.pos..conn.pos + r.n];
      conn.pos := conn.pos + r.n;
      if r.error.EndOfStream? { return ReadReply(data, true); }
      if r.error.OtherError? && r.n == 0 { return Refused; }
      return ReadReply(data, false);
    }

    /** The count written, or nothing when the socket reports an error. */
    method ConnWrite(id: string, p: seq<byte>, r: SocketResult) returns (written: Option<nat>)
      requires WriteAllowed(|p|, r)
      modifies Named(id)
      ensures written == if Named(id) != {} && r.error.NoError? then Some(r.n) else None
      ensures forall s :: s in Named(id) ==>
                s.pos == old(s.pos) && s.sent == old(s.sent) + p[..r.n] && s.open == old(s.open)
    {
      var found, conn := Get(TrimSpace(id));
      if !found { return None; }
      conn.sent := conn.sent + p[..r.n];
      written := if r.error.NoError? then Some(r.n) else None;
    }

    method ConnClose(id: string) returns (closed: bool)
      requires Valid()
      modifies this, Named(id)
      ensures Valid() && issued == old(issued) && conns == old(conns) - {TrimSpace(id)}
      ensures closed == (old(Named(id)) != {})
      ensures forall s :: s in old(Named(id)) ==> !s.open && s.pos == old(s.pos) && s.sent == old(s.sent)
    {
      var found, conn := Remove(TrimSpace(id));
      if found { conn.open := false; }
      closed := found;
    }
  }

  // ----- the plugin's end

  class HostConn {
    const host: ConnRegistry
    const id: string
    const socket: Socket
    var closed: bool
    var readExpired: bool
    var writeExpired: bool
    var closeRequests: nat
    ghost var received: seq<byte>

    /** Dialing: the host registers the socket and names it. */
    constructor (host: ConnRegistry, socket: Socket)
      requires host.Valid() && socket.pos == 0 && socket.sent == []
      modifies host
      ensures this.host == host && this.socket == socket && Valid() && View() == Dialed(socket.stream)
      ensures !readExpired && !writeExpired
    {
      this.host, this.socket := host, socket;
      closed, readExpired, writeExpired, closeRequests, received := false, false, false, 0, [];
      var name := host.Add(socket);
      id := name;
    }

    ghost predicate Valid()
      reads this, host, socket
    {
      && host.Valid() && socket.Valid() && TrimSpace(id) == id && id in host.issued
      && (id in host.conns ==> host.conns[id] == socket)
    }

    /** The connection as a byte stream. */
    ghost function View(): Wire
      reads this, host, socket
    {
      Wire(socket.stream, socket.pos, socket.sent, id in host.conns, closed, closeRequests, received)
    }

    /** A read into a buffer of any size. */
    method Read(p: array<byte>, r: SocketResult) returns (n: nat, outcome: Outcome)
      requires Valid() && Possible(View(), Action.Read(p.Length, readExpired, r))
      modifies this`received, socket, p
      ensures Valid() && View() == Next(old(View()), Action.Read(p.Length, readExpired, r))
      ensures outcome == Result(old(View()), Action.Read(p.Length, readExpired, r))
      ensures n <= p.Length && p[..n] == DataOf(outcome) && p[n..] == old(p[n..])
    {
      if p.Length == 0 { return 0, Got([]); }
      if closed { return 0, Outcome.Closed; }
      if readExpired { return 0, TimedOut; }
      ghost var w := View();
      var reply := host.ConnRead(id, p.Length, r);
      assert reply == HostRead(w, r) && View() == AfterHostRead(w, r);
      if reply.Refused? { return 0, Failed; }
      n := Copy(p, reply.data);
      var got := p[..n];
      received := received + got;
      if n < |reply.data| {
        outcome := Oversize(got);
      } else {
        outcome := if reply.eof && n == 0 then Eof else Got(got);
      }
      assert outcome == ReadOutcome(p.Length, reply);
    }

    /** Go's `copy`: as many elements as fit. */
    static method Copy(p: array<byte>, data: seq<byte>) returns (n: nat)
      modifies p
      ensures n == Min(p.Length, |data|) && p[..n] == data[..n] && p[n..] == old(p[n..])
    {
      n := Min(p.Length, |data|);
      forall i | 0 <= i < n {
        p[i] := data[i];
      }
    }

    method Write(p: seq<byte>, r: SocketResult) returns (outcome: Outcome)
      requires Valid() && Possible(View(), Action.Write(p, writeExpired, r))
      modifies socket
      ensures Valid() && View() == Next(old(View()), Action.Write(p, writeExpired, r))
      ensures outcome == Result(old(View()), Action.Write(p, writeExpired, r))
    {
      if closed { return Outcome.Closed; }
      if writeExpired { return TimedOut; }
      var written := host.ConnWrite(id, p, r);
      if written.None? { return Failed; }
      var count: nat := written.value;
      outcome := if count < |p| then Outcome.ShortWrite(count) else Wrote(count);
    }

    /** Only the first close reaches the host. */
    method Close()
      requires Valid()
      modifies this`closed, this`closeRequests, host, socket
      ensures Valid() && View() == Next(old(View()), Action.Close)
      ensures host.issued == old(host.issued)
      ensures forall other :: other != id ==> (other in host.conns <==> other in old(host.conns))
    {
      if closed { return; }
      closed := true;
      closeRequests := closeRequests + 1;
      var _ := host.ConnClose(id);
    }

    method SetReadDeadline(expired: bool)
      requires Valid()
      modifies this`readExpired
      ensures Valid() && View() == old(View()) && readExpired == expired
    {
      readExpired := expired;
    }

    method SetWriteDeadline(expired: bool)
      requires Valid()
      modifies this`writeExpired
      ensures Valid() && View() == old(View()) && writeExpired == expired
    {
      writeExpired := expired;
    }
  }
}
