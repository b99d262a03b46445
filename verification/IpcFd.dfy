/**
 Passing descriptors over a local stream (src/ipc_fd.c). A stream carries bytes; a byte may
 carry one control message. Descriptors stand for the open files behind them, so the number
 received equals the number sent.
 */
module IpcFd {
  import opened Wrappers

  const SOL_SOCKET: int := 1
  const SCM_RIGHTS: int := 1
  const CMSG_LEN_INT: int := 20    // CMSG_LEN(sizeof(int)) on a 64-bit Linux

  datatype Control = Control(len: int, level: int, kind: int, data: int)

  datatype Cell = Cell(byte: char, control: Option<Control>)

  /** The cells that one sendmsg adds: the control message travels with the first byte. */
  function Sent(bytes: seq<char>, control: Option<Control>): seq<Cell> {
    seq(|bytes|, k requires 0 <= k < |bytes| => Cell(bytes[k], if k == 0 then control else None))
  }

  /** One direction of a local stream socket pair, as the kernel keeps it. */
  class Stream {
    var cells: seq<Cell>
    var writerOpen: bool

    constructor ()
      ensures cells == [] && writerOpen
    {
      cells, writerOpen := [], true;
    }

    /** A descriptor that is not open cannot be passed; then nothing is sent. */
    method SendMsg(bytes: seq<char>, control: Option<Control>) returns (n: int)
      modifies this`cells
      ensures control.Some? && control.value.data < 0 ==> n == -1 && cells == old(cells)
      ensures !(control.Some? && control.value.data < 0) ==> n == |bytes| && cells == old(cells) + Sent(bytes, control)
    {
      if control.Some? && control.value.data < 0 { return -1; }
      cells := cells + Sent(bytes, control);
      n := |bytes|;
    }

    /** A read of one byte, which returns only when there is a byte or no writer is left. */
    method RecvMsg() returns (n: int, cell: Cell)
      requires cells != [] || !writerOpen
      modifies this`cells
      ensures old(cells) == [] ==> n == 0 && cells == []
      ensures old(cells) != [] ==> n == 1 && cell == old(cells)[0] && cells == old(cells)[1..]
    {
      if cells == [] { return 0, Cell('\0', None); }
      n, cell, cells := 1, cells[0], cells[1..];
    }
  }

  const NO_FD: int := -1

  /** What one read makes of a cell: its byte and the descriptor that came with it. An error
      leaves the caller's descriptor as it was. */
  datatype Reading = Reading(n: int, byte: char, fd: int)

  function Decoded(cell: Cell, before: int): Reading {
    match cell.control
    case None => Reading(1, cell.byte, NO_FD)
    case Some(c) =>
      if c.len != CMSG_LEN_INT then Reading(1, cell.byte, NO_FD)
      else if c.level != SOL_SOCKET || c.kind != SCM_RIGHTS then Reading(-1, cell.byte, before)
      else Reading(1, cell.byte, c.data)
  }

  method IpcFdWrite(stream: Stream, bytes: seq<char>, sendfd: int) returns (n: int)
    modifies stream`cells
    ensures sendfd < 0 ==> n == -1 && stream.cells == old(stream.cells)
    ensures 0 <= sendfd ==> n == |bytes|
    ensures 0 <= sendfd ==>
      stream.cells == old(stream.cells) + Sent(bytes, Some(Control(CMSG_LEN_INT, SOL_SOCKET, SCM_RIGHTS, sendfd)))
  {
    var control := Control(0, 0, 0, 0);
    control := control.(len := CMSG_LEN_INT);
    control := control.(level := SOL_SOCKET);
    control := control.(kind := SCM_RIGHTS);
    control := control.(data := sendfd);
    n := stream.SendMsg(bytes, Some(control));
  }

  /** `before` is what the caller's descriptor variable holds; `byte` is meaningless when n is 0. */
  method IpcFdRead(stream: Stream, before: int) returns (n: int, byte: char, recvfd: int)
    requires stream.cells != [] || !stream.writerOpen
    modifies stream`cells
    ensures old(stream.cells) == [] ==> n == 0 && recvfd == before && stream.cells == []
    ensures old(stream.cells) != [] ==>
      Reading(n, byte, recvfd) == Decoded(old(stream.cells)[0], before) && stream.cells == old(stream.cells)[1..]
    ensures old(stream.cells) != [] ==>
      var cell := old(stream.cells)[0];
      var attached := cell.control.Some? && cell.control.value.len == CMSG_LEN_INT;
      var passed := attached && cell.control.value.level == SOL_SOCKET && cell.control.value.kind == SCM_RIGHTS;
      && byte == cell.byte && (n == 1 || n == -1) && (n == -1 <==> attached && !passed)
      && recvfd == if passed then cell.control.value.data else if attached then before else NO_FD
  {
    var cell;
    n, cell := stream.RecvMsg();
    byte, recvfd := cell.byte, before;
    if n <= 0 { return; }
    if cell.control.Some? && cell.control.value.len == CMSG_LEN_INT {
      if cell.control.value.level != SOL_SOCKET { n := -1; return; }
      if cell.control.value.kind != SCM_RIGHTS { n := -1; return; }
      recvfd := cell.control.value.data;
    } else {
      recvfd := NO_FD;
    }
  }

  // ---------------------------------------------------------------- the round trip

  /** A write of the program: with a descriptor (`ipc_fd_write`) or without (`write`). */
  datatype Write = Pass(bytes: seq<char>, fd: nat) | Plain(bytes: seq<char>)

  /** What the reader is to get from one write: the descriptor with the first byte. */
  function Meant(w: Write): seq<(char, int)> {
    seq(|w.bytes|, k requires 0 <= k < |w.bytes| => (w.bytes[k], if k == 0 && w.Pass? then w.fd else NO_FD))
  }

  function AllMeant(ws: seq<Write>): seq<(char, int)> {
    if ws == [] then [] else AllMeant(ws[..|ws| - 1]) + Meant(ws[|ws| - 1])
  }

  /** The cells hold what was meant: each decodes, whatever the reader's variable held before. */
  ghost predicate Carries(cells: seq<Cell>, meant: seq<(char, int)>) {
    && |cells| == |meant|
    && forall k, before :: 0 <= k < |cells| ==> Decoded(cells[k], before) == Reading(1, meant[k].0, meant[k].1)
  }

  /** What the two sides do, in any order: the writer a write, the reader a one-byte read. A read
      from an empty stream does not return; it is as if it were tried again later. */
  datatype Op = Put(w: Write) | Get

  function Written(ops: seq<Op>): seq<Write> {
    if ops == [] then []
    else
      var front := Written(ops[..|ops| - 1]);
      match ops[|ops| - 1]
      case Put(w) => front + [w]
      case Get => front
  }

  /** How many reads have returned. */
  function Returned(ops: seq<Op>): (n: nat)
    ensures n <= |AllMeant(Written(ops))|
  {
    if ops == [] then 0
    else
      var front := ops[..|ops| - 1];
      WrittenGrows(front, ops[|ops| - 1]);
      assert front + [ops[|ops| - 1]] == ops;
      if ops[|ops| - 1].Get? && Returned(front) < |AllMeant(Written(front))| then Returned(front) + 1 else Returned(front)
  }

  lemma WrittenGrows(front: seq<Op>, op: Op)
    ensures AllMeant(Written(front + [op])) == AllMeant(Written(front)) + (if op.Put? then Meant(op.w) else [])
  {
    assert (front + [op])[..|front|] == front;
    if op.Put? { assert (Written(front) + [op.w])[..|Written(front)|] == Written(front); }
  }

  function Gets(ops: seq<Op>): nat {
    if ops == [] then 0 else Gets(ops[..|ops| - 1]) + (if ops[|ops| - 1].Get? then 1 else 0)
  }

  /** The reads that could have returned if the stream had been empty, with everything before
      read, after the first i operations: no more than that can have returned. */
  function Allowance(ops: seq<Op>, i: nat): nat
    requires i <= |ops|
  {
    |AllMeant(Written(ops[..i]))| + Gets(ops[i..])
  }

  lemma AllowanceGrows(front: seq<Op>, op: Op, i: nat)
    requires i <= |front|
    ensures Allowance(front + [op], i) == Allowance(front, i) + (if op.Get? then 1 else 0)
  {
    assert (front + [op])[..i] == front[..i];
    assert (front + [op])[i..] == front[i..] + [op];
    assert (front[i..] + [op])[..|front[i..]|] == front[i..];
  }

  lemma AllowanceAtEnd(ops: seq<Op>)
    ensures Allowance(ops, |ops|) == |AllMeant(Written(ops))|
  {
    assert ops[..|ops|] == ops && ops[|ops|..] == [];
  }

  /** Reads return as soon as there is a byte: as many have returned as bytes and reads allow, the
      least allowance over all moments. */
  lemma {:induction false} ReturnedIsMinimum(ops: seq<Op>)
    ensures forall i :: 0 <= i <= |ops| ==> Returned(ops) <= Allowance(ops, i)
    ensures exists i :: 0 <= i <= |ops| && Returned(ops) == Allowance(ops, i)
  {
    AllowanceAtEnd(ops);
    if ops == [] {
      assert Returned(ops) == Allowance(ops, 0);
    } else {
      var front, op := ops[..|ops| - 1], ops[|ops| - 1];
      assert ops == front + [op];
      ReturnedIsMinimum(front);
      AllowanceAtEnd(front);
      WrittenGrows(front, op);
      forall i | 0 <= i <= |ops| ensures Returned(ops) <= Allowance(ops, i) {
        if i <= |front| { AllowanceGrows(front, op, i); }
      }
      var i :| 0 <= i <= |front| && Returned(front) == Allowance(front, i);
      AllowanceGrows(front, op, i);
      assert Returned(ops) == Allowance(ops, i) || Returned(ops) == Allowance(ops, |ops|);
    }
  }

  /** What the reader has got is the front of what was meant, and the stream holds the rest. */
  ghost predicate InTransit(cells: seq<Cell>, got: seq<(char, int)>, meant: seq<(char, int)>) {
    got <= meant && Carries(cells, meant[|got|..])
  }

  lemma OneIsRead(cells: seq<Cell>, got: seq<(char, int)>, meant: seq<(char, int)>, before: int)
    requires InTransit(cells, got, meant) && cells != []
    ensures var r := Decoded(cells[0], before);
      r.n == 1 && InTransit(cells[1..], got + [(r.byte, r.fd)], meant)
  {
    assert Decoded(cells[0], before) == Reading(1, meant[|got|].0, meant[|got|].1);
    assert meant[|got|..][1..] == meant[|got| + 1..];
  }

  lemma MoreIsSent(cells: seq<Cell>, got: seq<(char, int)>, meant: seq<(char, int)>, w: Write)
    requires InTransit(cells, got, meant)
    ensures var control := if w.Pass? then Some(Control(CMSG_LEN_INT, SOL_SOCKET, SCM_RIGHTS, w.fd)) else None;
      InTransit(cells + Sent(w.bytes, control), got, meant + Meant(w))
  {
    assert (meant + Meant(w))[|got|..] == meant[|got|..] + Meant(w);
  }

  /** However writes of any lengths, with or without descriptors, and one-byte reads interleave:
      the reader gets the same bytes with the same descriptors in the same order, each as soon
      as it is there; and when the writer is gone, all of them. */
  method Exchange(ops: seq<Op>) returns (early: seq<(char, int)>, got: seq<(char, int)>)
    ensures |early| == Returned(ops) && early <= got
    ensures got == AllMeant(Written(ops))
  {
    var stream := new Stream();
    var fd := NO_FD;
    early := [];
    for i := 0 to |ops|
      invariant fresh(stream) && stream.writerOpen && |early| == Returned(ops[..i])
      invariant InTransit(stream.cells, early, AllMeant(Written(ops[..i])))
    {
      assert ops[..i + 1][..i] == ops[..i] && ops[..i + 1] == ops[..i] + [ops[i]];
      early, fd := Perform(stream, ops[i], early, fd, ops[..i]);
    }
    assert ops[..|ops|] == ops;
    stream.writerOpen := false;
    got := Drain(stream, early, fd, AllMeant(Written(ops)));
  }

  /** One write or read; a read only if it does not have to wait. */
  method Perform(stream: Stream, op: Op, got: seq<(char, int)>, fd: int, ghost front: seq<Op>)
    returns (got': seq<(char, int)>, fd': int)
    requires InTransit(stream.cells, got, AllMeant(Written(front))) && |got| == Returned(front)
    modifies stream`cells
    ensures InTransit(stream.cells, got', AllMeant(Written(front + [op]))) && |got'| == Returned(front + [op])
  {
    got', fd' := got, fd;
    WrittenGrows(front, op);
    assert (front + [op])[..|front|] == front;
    match op {
      case Put(w) =>
        MoreIsSent(stream.cells, got, AllMeant(Written(front)), w);
        if w.Pass? { var n := IpcFdWrite(stream, w.bytes, w.fd); } else { var n := stream.SendMsg(w.bytes, None); }
      case Get =>
        if stream.cells != [] {
          OneIsRead(stream.cells, got, AllMeant(Written(front)), fd);
          var n, byte;
          n, byte, fd' := IpcFdRead(stream, fd);
          got' := got + [(byte, fd')];
        }
    }
  }

  /** The reader's loop to the end of the stream. */
  method Drain(stream: Stream, early: seq<(char, int)>, fd: int, ghost meant: seq<(char, int)>)
    returns (got: seq<(char, int)>)
    requires !stream.writerOpen && InTransit(stream.cells, early, meant)
    modifies stream`cells
    ensures got == meant
  {
    got := early;
    var last := fd;
    while true
      invariant InTransit(stream.cells, got, meant)
      decreases |stream.cells|
    {
      if stream.cells != [] { OneIsRead(stream.cells, got, meant, last); }
      var n, byte, recvfd := IpcFdRead(stream, last);
      if n <= 0 { break; }
      last := recvfd;
      got := got + [(byte, last)];
    }
  }
}
