/** One proxied connection as a byte stream: the plugin's end, the host's end and the socket behind it,
    over every sequence of reads, writes and closes. */
module ConnStream {
  import opened Text

  type byte = bv8

  const READ_DEFAULT_BYTES := 64 * 1024
  const READ_MAX_BYTES := 4 * 1024 * 1024

  // ----- the socket

  datatype SocketError = NoError | EndOfStream | OtherError

  /** What one call on the socket may do: how many bytes it moved, and its error. */
  datatype SocketResult = SocketResult(n: nat, error: SocketError)

  /** A connection: the bytes the peer sends, how many were read, the bytes sent to the peer; whether the
      host still has it registered; at the plugin's end whether it was closed, how often the host was asked
      to close it, and the bytes handed to the plugin. */
  datatype Wire = Wire(stream: seq<byte>, pos: nat, sent: seq<byte>, registered: bool,
                       closed: bool, closeRequests: nat, received: seq<byte>)

  function Dialed(stream: seq<byte>): Wire { Wire(stream, 0, [], true, false, 0, []) }

  /** A read delivers the next bytes, at most as many as asked; it reports the end only behind the last one. */
  predicate ReadAllowed(w: Wire, max: nat, r: SocketResult) {
    r.n <= max && w.pos + r.n <= |w.stream| && (r.error.EndOfStream? ==> w.pos + r.n == |w.stream|)
  }

  /** A write that stops short has an error. */
  predicate WriteAllowed(size: nat, r: SocketResult) {
    r.n <= size && (r.n < size ==> !r.error.NoError?)
  }

  // ----- the host's end

  datatype ReadReply = Refused | ReadReply(data: seq<byte>, eof: bool)

  function HostMax(maxBytes: int): nat {
    var max := if maxBytes <= 0 then READ_DEFAULT_BYTES else maxBytes;
    if max > READ_MAX_BYTES then READ_MAX_BYTES else max
  }

  /** The socket's bytes, with the end of the stream; another error is kept back while there are bytes. */
  function HostRead(w: Wire, r: SocketResult): ReadReply
    requires w.pos + r.n <= |w.stream|
  {
    if !w.registered then Refused
    else if r.error.OtherError? && r.n == 0 then Refused
    else ReadReply(w.stream[w.pos..w.pos + r.n], r.error.EndOfStream?)
  }

  function AfterHostRead(w: Wire, r: SocketResult): Wire {
    if w.registered then w.(pos := w.pos + r.n) else w
  }

  // ----- the plugin's end

  /** What a call returns: the bytes a read put into the buffer, or the count of a write, or an error. */
  datatype Outcome =
    | Got(data: seq<byte>) | Eof | Oversize(data: seq<byte>)
    | Wrote(n: nat) | ShortWrite(n: nat)
    | Closed | TimedOut | Failed | Gone

  function Min(a: nat, b: nat): nat { if a <= b then a else b }

  function ReadOutcome(size: nat, reply: ReadReply): Outcome {
    match reply
    case Refused => Failed
    case ReadReply(data, eof) =>
      var n := Min(size, |data|);
      if n < |data| then Oversize(data[..n]) else if eof && n == 0 then Eof else Got(data[..n])
  }

  function DataOf(o: Outcome): seq<byte> {
    match o
    case Got(data) => data
    case Oversize(data) => data
    case _ => []
  }

  datatype Action =
    | Read(size: nat, expired: bool, socket: SocketResult)
    | Write(p: seq<byte>, expired: bool, socket: SocketResult)
    | Close
    | EndInvocation

  predicate Possible(w: Wire, a: Action) {
    match a
    case Read(size, _, r) => ReadAllowed(w, HostMax(size), r)
    case Write(p, _, r) => WriteAllowed(|p|, r)
    case _ => true
  }

  function Result(w: Wire, a: Action): Outcome
    requires Possible(w, a)
  {
    match a
    case Read(size, expired, r) =>
      if size == 0 then Got([]) else if w.closed then Closed else if expired then TimedOut
      else ReadOutcome(size, HostRead(w, r))
    case Write(p, expired, r) =>
      if w.closed then Closed else if expired then TimedOut
      else if !w.registered || !r.error.NoError? then Failed
      else if r.n < |p| then ShortWrite(r.n) else Wrote(r.n)
    case Close => Gone
    case EndInvocation => Gone
  }

  function Next(w: Wire, a: Action): Wire
    requires Possible(w, a)
  {
    match a
    case Read(size, expired, r) =>
      if size == 0 || w.closed || expired then w
      else AfterHostRead(w, r).(received := w.received + DataOf(ReadOutcome(size, HostRead(w, r))))
    case Write(p, expired, r) =>
      if w.closed || expired || !w.registered then w else w.(sent := w.sent + p[..r.n])
    case Close =>
      if w.closed then w else w.(closed := true, closeRequests := w.closeRequests + 1, registered := false)
    case EndInvocation => w.(registered := false)
  }

  // ----- what every step keeps

  /** The plugin has exactly the bytes that were read from the socket; a close is requested once, by a close. */
  predicate Sound(w: Wire) {
    && w.pos <= |w.stream| && w.received == w.stream[..w.pos]
    && w.closeRequests == (if w.closed then 1 else 0) && (w.closed ==> !w.registered)
  }

  /** Every step keeps the connection sound; the plugin's oversize branch is never taken; end of file is
      reported only when every byte has been handed over; a successful write puts all of its bytes, and
      nothing else, behind those already sent, and is never cut short. */
  lemma StepKeeps(w: Wire, a: Action)
    requires Sound(w) && Possible(w, a)
    ensures var to, o := Next(w, a), Result(w, a);
            && Sound(to) && to.stream == w.stream && to.received == w.received + DataOf(o)
            && !o.Oversize? && !o.ShortWrite? && (o.Eof? ==> w.received == w.stream)
            && (!a.Write? ==> to.sent == w.sent) && (a.Write? ==> w.sent <= to.sent <= w.sent + a.p)
            && (o.Wrote? ==> a.Write? && o.n == |a.p| && to.sent == w.sent + a.p)
  {}

  /** How a call fails before any byte moves: at a closed end, past its deadline, or at a forgotten connection. */
  function Barred(w: Wire, expired: bool): Option<Outcome> {
    if w.closed then Some(Closed) else if expired then Some(TimedOut) else if !w.registered then Some(Failed) else None
  }

  /** What a read into a buffer answers: the bytes the socket gave, all of them; without any, the end of file exactly
      when the socket is at its end, and a failure exactly when it failed. */
  lemma ReadAnswers(w: Wire, size: nat, expired: bool, r: SocketResult)
    requires size > 0 && Possible(w, Read(size, expired, r))
    ensures var a := Read(size, expired, r);
            var o, to, barred := Result(w, a), Next(w, a), Barred(w, expired);
            && (barred.Some? ==> o == barred.value && to == w)
            && (barred.None? ==>
                  && to == w.(pos := w.pos + r.n, received := w.received + DataOf(o))
                  && (r.n > 0 ==> o == Got(w.stream[w.pos..w.pos + r.n]))
                  && (r.n == 0 ==> o == match r.error
                                        case EndOfStream => Eof
                                        case NoError => Got([])
                                        case OtherError => Failed))
  {}

  /** A read may bring as many bytes as the buffer holds and the stream still has, up to four mebibytes, and never
      more. */
  lemma ReadMayBring(w: Wire, size: nat, n: nat)
    requires size > 0
    ensures Possible(w, Read(size, false, SocketResult(n, NoError))) <==>
            n <= size && n <= 4194304 && w.pos + n <= |w.stream|
  {}

  /** A write is done exactly when it is not barred and the socket took it without an error. */
  lemma WriteAnswers(w: Wire, p: seq<byte>, expired: bool, r: SocketResult)
    requires Possible(w, Write(p, expired, r))
    ensures var a := Write(p, expired, r);
            var o, to, barred := Result(w, a), Next(w, a), Barred(w, expired);
            && (barred.Some? ==> o == barred.value && to == w)
            && (barred.None? ==>
                  to == w.(sent := w.sent + p[..r.n]) && o == if r.error.NoError? then Wrote(|p|) else Failed)
  {}

  // ----- every sequence of calls

  /** The calls can happen one after the other: each socket result fits the state it meets. */
  ghost predicate CanRun(w: Wire, actions: seq<Action>)
    decreases |actions|, 0
  {
    actions == []
    || (CanRun(w, actions[..|actions| - 1]) && Possible(After(w, actions[..|actions| - 1]), actions[|actions| - 1]))
  }

  ghost function After(w: Wire, actions: seq<Action>): Wire
    requires CanRun(w, actions)
    decreases |actions|, 1
  {
    if actions == [] then w else Next(After(w, actions[..|actions| - 1]), actions[|actions| - 1])
  }

  /** What the last call returns. */
  ghost function LastResult(w: Wire, actions: seq<Action>): Outcome
    requires CanRun(w, actions) && actions != []
  {
    Result(After(w, actions[..|actions| - 1]), actions[|actions| - 1])
  }

  /** The bytes returned by the calls, one after the other. */
  ghost function Returned(w: Wire, actions: seq<Action>): seq<byte>
    requires CanRun(w, actions)
    decreases |actions|
  {
    if actions == [] then [] else Returned(w, actions[..|actions| - 1]) + DataOf(LastResult(w, actions))
  }

  lemma Associate<T>(x: seq<T>, y: seq<T>, z: seq<T>)
    ensures x + (y + z) == x + y + z
  {}

  lemma {:induction false} RunKeeps(w: Wire, actions: seq<Action>)
    requires CanRun(w, actions) && Sound(w)
    ensures var to := After(w, actions);
            Sound(to) && to.stream == w.stream && to.received == w.received + Returned(w, actions)
    decreases |actions|
  {
    if actions != [] {
      var before, last := actions[..|actions| - 1], actions[|actions| - 1];
      RunKeeps(w, before);
      StepKeeps(After(w, before), last);
      Associate(w.received, Returned(w, before), DataOf(LastResult(w, actions)));
    }
  }

  lemma LastStep(w: Wire, actions: seq<Action>)
    requires CanRun(w, actions) && Sound(w) && actions != []
    ensures var o := LastResult(w, actions);
            !o.Oversize? && !o.ShortWrite? && (o.Eof? ==> After(w, actions).received == w.stream)
  {
    var before := actions[..|actions| - 1];
    RunKeeps(w, before);
    StepKeeps(After(w, before), actions[|actions| - 1]);
  }

  /** For every sequence of calls with any buffer sizes on a dialed connection: the bytes the reads return
      concatenate to a beginning of the peer's stream, and to all of it by the time an end of file is
      returned; no reply is too large for the buffer; the host is asked to close at most once. */
  lemma ReadsAreThePeersStream(stream: seq<byte>, actions: seq<Action>)
    requires CanRun(Dialed(stream), actions)
    ensures Returned(Dialed(stream), actions) <= stream && After(Dialed(stream), actions).closeRequests <= 1
    ensures actions != [] ==>
              var o := LastResult(Dialed(stream), actions);
              !o.Oversize? && !o.ShortWrite? && (o.Eof? ==> Returned(Dialed(stream), actions) == stream)
  {
    var w := Dialed(stream);
    RunKeeps(w, actions);
    assert After(w, actions).received == Returned(w, actions);
    if actions != [] {
      LastStep(w, actions);
    }
  }

  /** A read within its deadline, to which the socket gives at least a byte or the end of the stream. */
  predicate Gives(a: Action) {
    a.Read? && a.size > 0 && !a.expired && (a.socket.error.EndOfStream? || (a.socket.error.NoError? && a.socket.n > 0))
  }

  lemma {:induction false} GivingReads(stream: seq<byte>, actions: seq<Action>)
    requires CanRun(Dialed(stream), actions) && forall i :: 0 <= i < |actions| ==> Gives(actions[i])
    ensures var to := After(Dialed(stream), actions);
            && Sound(to) && to.stream == stream && to.registered && !to.closed
            && (to.pos >= |actions| || to.pos == |stream|)
    decreases |actions|
  {
    if actions != [] {
      var before, a := actions[..|actions| - 1], actions[|actions| - 1];
      GivingReads(stream, before);
      StepKeeps(After(Dialed(stream), before), a);
      ReadAnswers(After(Dialed(stream), before), a.size, false, a.socket);
    }
  }

  lemma AtTheEnd(w: Wire, a: Action)
    requires Possible(w, a) && Gives(a) && w.registered && !w.closed && w.pos == |w.stream|
    ensures Result(w, a) == Eof
  {
    ReadAnswers(w, a.size, false, a.socket);
  }

  /** Who keeps reading gets everything: once there were as many giving reads as the stream has bytes, the reads have
      returned all of it, and every further one returns the end of file. */
  lemma ReadingOnGetsAll(stream: seq<byte>, actions: seq<Action>)
    requires CanRun(Dialed(stream), actions) && forall i :: 0 <= i < |actions| ==> Gives(actions[i])
    ensures |actions| >= |stream| ==> Returned(Dialed(stream), actions) == stream
    ensures |actions| > |stream| ==> LastResult(Dialed(stream), actions) == Eof
  {
    var w := Dialed(stream);
    GivingReads(stream, actions);
    RunKeeps(w, actions);
    assert After(w, actions).received == Returned(w, actions);
    if |actions| > |stream| {
      GivingReads(stream, actions[..|actions| - 1]);
      AtTheEnd(After(w, actions[..|actions| - 1]), actions[|actions| - 1]);
    }
  }

  /** After a close the connection gives no more bytes and takes none, whatever is called. */
  lemma {:induction false} ClosedStaysQuiet(w: Wire, actions: seq<Action>)
    requires CanRun(w, actions) && w.closed && !w.registered
    ensures After(w, actions) == w && Returned(w, actions) == []
    decreases |actions|
  {
    if actions != [] {
      ClosedStaysQuiet(w, actions[..|actions| - 1]);
    }
  }

  // ----- what was written

  /** The bytes of the writes that were reported as done, one after the other. */
  ghost function Acknowledged(w: Wire, actions: seq<Action>): seq<byte>
    requires CanRun(w, actions)
    decreases |actions|
  {
    if actions == [] then []
    else
      var a := actions[|actions| - 1];
      Acknowledged(w, actions[..|actions| - 1]) + if a.Write? && LastResult(w, actions).Wrote? then a.p else []
  }

  /** A write on an open connection that the socket breaks off after it took some bytes. */
  predicate BreaksOff(w: Wire, a: Action) {
    a.Write? && !w.closed && w.registered && !a.expired && !a.socket.error.NoError? && a.socket.n > 0
  }

  /** No write of the run is broken off after some bytes. */
  ghost predicate NoneBrokenOff(w: Wire, actions: seq<Action>)
    requires CanRun(w, actions)
    decreases |actions|
  {
    actions == []
    || (&& NoneBrokenOff(w, actions[..|actions| - 1])
        && !BreaksOff(After(w, actions[..|actions| - 1]), actions[|actions| - 1]))
  }

  lemma {:induction false} SentAlong(w: Wire, actions: seq<Action>)
    requires CanRun(w, actions)
    ensures var to, told := After(w, actions), w.sent + Acknowledged(w, actions);
            if NoneBrokenOff(w, actions) then to.sent == told else |to.sent| > |told|
    decreases |actions|
  {
    if actions != [] {
      var before, a := actions[..|actions| - 1], actions[|actions| - 1];
      SentAlong(w, before);
      if a.Write? && LastResult(w, actions).Wrote? { Associate(w.sent, Acknowledged(w, before), a.p); }
    }
  }

  /** For every sequence of calls on a connection: what the peer was sent is exactly what the successful writes
      carried, in order, if and only if the socket broke off no write after it had taken some bytes. (Such a write
      is reported as failed, without a count.) Never was less sent than was reported. */
  lemma SentIsWhatWasReported(w: Wire, actions: seq<Action>)
    requires CanRun(w, actions)
    ensures After(w, actions).sent == w.sent + Acknowledged(w, actions) <==> NoneBrokenOff(w, actions)
    ensures |After(w, actions).sent| >= |w.sent| + |Acknowledged(w, actions)|
  {
    SentAlong(w, actions);
  }

  /** It happens: the socket takes one byte of two and breaks off. */
  lemma BrokenWriteHidesBytes()
    ensures var w, actions := Dialed([]), [Write([1, 2], false, SocketResult(1, OtherError))];
            && CanRun(w, actions) && LastResult(w, actions) == Failed
            && Acknowledged(w, actions) == [] && After(w, actions).sent == [1]
  {
    var w, actions := Dialed([]), [Write([1, 2], false, SocketResult(1, OtherError))];
    assert actions[..0] == [];
    assert CanRun(w, actions[..0]) && Possible(After(w, actions[..0]), actions[0]);
  }
}
