/**
  `Drain` of Resources/Drain.swift: a stream that holds one buffer of bytes and hands it out
  once. It is open until it is closed; while open its `data` is the buffer, once closed it
  is empty. `receive` hands out `data` and closes the drain; `send` and `flush` are not
  supported and always throw. `closed` is a public variable, so a caller may also set it
  directly, and setting it to false reopens the drain.

  The pure part below states each operation on a `DrainState`; the class `Drain` keeps the
  source's two fields and its methods are proved to follow those steps.
*/
module Draining {
  import ByteData

  type Byte = ByteData.Byte

  datatype DrainState = DrainState(buffer: seq<Byte>, closed: bool)

  /** The errors `send` and `flush` throw. */
  datatype DrainError = SendUnsupported | FlushUnsupported

  /** The operations a caller can apply to an initialised drain; `SetClosedOp` is an
      assignment to the public `closed`. */
  datatype Op = CloseOp | ReceiveOp | SendOp(data: seq<Byte>) | FlushOp | SetClosedOp(closed: bool)

  /** What an operation gives back: `close`'s flag, `receive`'s data, the thrown error, or
      nothing for an assignment. */
  datatype Reply = Closed(first: bool) | Received(data: seq<Byte>) | Threw(error: DrainError) | Assigned

  datatype Step = Step(after: DrainState, reply: Reply)

  /** `data`: the buffer while open, nothing once closed. */
  function Visible(s: DrainState): (r: seq<Byte>)
    ensures !s.closed ==> r == s.buffer
    ensures s.closed ==> r == []
  {
    if !s.closed then s.buffer else []
  }

  /** The state of `init(_ buffer:)`: closed exactly when the buffer is empty. */
  function Initial(buffer: seq<Byte>): (s: DrainState)
    ensures s.buffer == buffer
    ensures s.closed <==> |buffer| == 0
  {
    DrainState(buffer, |buffer| == 0)
  }

  /** One operation on a drain in state `s`. */
  function Apply(s: DrainState, op: Op): Step {
    match op
    case CloseOp => Step(s.(closed := true), Closed(!s.closed))
    case ReceiveOp => Step(s.(closed := true), Received(Visible(s)))
    case SendOp(_) => Step(s, Threw(SendUnsupported))
    case FlushOp => Step(s, Threw(FlushUnsupported))
    case SetClosedOp(b) => Step(s.(closed := b), Assigned)
  }

  datatype Trace = Trace(last: DrainState, replies: seq<Reply>)

  /** The state after a sequence of operations, and the reply to each. */
  function Run(s: DrainState, ops: seq<Op>): (t: Trace)
    ensures |t.replies| == |ops|
    decreases |ops|
  {
    if ops == [] then Trace(s, [])
    else
      var step := Apply(s, ops[0]);
      var rest := Run(step.after, ops[1..]);
      Trace(rest.last, [step.reply] + rest.replies)
  }

  /** `close` answers true exactly when the drain was open, and the drain is closed after it;
      a second `close` answers false and changes nothing. */
  lemma CloseOnce(s: DrainState)
    ensures Apply(s, CloseOp).reply == Closed(!s.closed)
    ensures Apply(s, CloseOp).after.closed
    ensures Apply(Apply(s, CloseOp).after, CloseOp) == Step(Apply(s, CloseOp).after, Closed(false))
  {
  }

  /** `receive` hands out what `data` held and closes the drain, so a second `receive` hands
      out nothing. */
  lemma ReceiveOnce(s: DrainState)
    ensures Apply(s, ReceiveOp).reply == Received(Visible(s))
    ensures Apply(s, ReceiveOp).after.closed
    ensures Apply(Apply(s, ReceiveOp).after, ReceiveOp).reply == Received([])
  {
  }

  /** `send` and `flush` always throw and leave the state as it was. */
  lemma SendAndFlushUnsupported(s: DrainState, data: seq<Byte>)
    ensures Apply(s, SendOp(data)) == Step(s, Threw(SendUnsupported))
    ensures Apply(s, FlushOp) == Step(s, Threw(FlushUnsupported))
  {
  }

  /** No operation assigns false to `closed`. */
  predicate NeverReopens(ops: seq<Op>) {
    forall i :: 0 <= i < |ops| ==> ops[i] != SetClosedOp(false)
  }

  lemma NeverReopensRest(ops: seq<Op>)
    requires ops != [] && NeverReopens(ops)
    ensures ops[0] != SetClosedOp(false) && NeverReopens(ops[1..])
  {
    assert forall i :: 0 <= i < |ops| - 1 ==> ops[1..][i] == ops[i + 1];
  }

  /** No operation ever changes the buffer, and a closed drain stays closed as long as
      nothing assigns false to `closed`. */
  lemma {:induction false} BufferNeverChanges(s: DrainState, ops: seq<Op>)
    ensures Run(s, ops).last.buffer == s.buffer
    ensures s.closed && NeverReopens(ops) ==> Run(s, ops).last.closed
    decreases |ops|
  {
    if ops != [] {
      BufferNeverChanges(Apply(s, ops[0]).after, ops[1..]);
      if s.closed && NeverReopens(ops) {
        NeverReopensRest(ops);
      }
    }
  }

  /** Assigning false to `closed` reopens the drain: a drain with bytes hands them out on
      `receive`, is reopened, and hands the same bytes out again. */
  lemma ReopenHandsOutAgain(buffer: seq<Byte>)
    requires buffer != []
    ensures Run(Initial(buffer), [ReceiveOp, SetClosedOp(false), ReceiveOp]).replies ==
      [Received(buffer), Assigned, Received(buffer)]
  {
    var s0 := Initial(buffer);
    var s1 := Apply(s0, ReceiveOp).after;
    var s2 := Apply(s1, SetClosedOp(false)).after;
    assert s2 == s0;
    var ops := [ReceiveOp, SetClosedOp(false), ReceiveOp];
    assert ops[1..] == [SetClosedOp(false), ReceiveOp] && ops[1..][1..] == [ReceiveOp];
    assert ops[1..][1..][1..] == [];
  }

  predicate NonEmptyReceive(r: Reply) {
    r.Received? && r.data != []
  }

  /** From a closed drain that is never reopened, every `receive` hands out nothing and every
      `close` answers false. */
  lemma {:induction false} ClosedGivesNothing(s: DrainState, ops: seq<Op>)
    requires s.closed && NeverReopens(ops)
    ensures forall i :: 0 <= i < |ops| ==>
      !NonEmptyReceive(Run(s, ops).replies[i]) && Run(s, ops).replies[i] != Closed(true)
    decreases |ops|
  {
    if ops != [] {
      var step := Apply(s, ops[0]);
      NeverReopensRest(ops);
      ClosedGivesNothing(step.after, ops[1..]);
      var t := Run(s, ops);
      assert t.replies == [step.reply] + Run(step.after, ops[1..]).replies;
    }
  }

  /** Over any sequence of operations that never assigns false to `closed`, the buffer is
      handed out at most once, and at most one `close` answers true. */
  lemma {:induction false} HandedOutAtMostOnce(s: DrainState, ops: seq<Op>)
    requires NeverReopens(ops)
    ensures forall i, j :: 0 <= i < j < |ops| && NonEmptyReceive(Run(s, ops).replies[i]) ==>
      !NonEmptyReceive(Run(s, ops).replies[j])
    ensures forall i, j :: 0 <= i < j < |ops| && Run(s, ops).replies[i] == Closed(true) ==>
      Run(s, ops).replies[j] != Closed(true)
    decreases |ops|
  {
    if ops != [] {
      var step := Apply(s, ops[0]);
      var rest := Run(step.after, ops[1..]);
      NeverReopensRest(ops);
      HandedOutAtMostOnce(step.after, ops[1..]);
      var t := Run(s, ops);
      assert t.replies == [step.reply] + rest.replies;
      if NonEmptyReceive(step.reply) || step.reply == Closed(true) {
        ClosedGivesNothing(step.after, ops[1..]);
      }
      forall i, j | 0 <= i < j < |ops|
        ensures NonEmptyReceive(t.replies[i]) ==> !NonEmptyReceive(t.replies[j])
        ensures t.replies[i] == Closed(true) ==> t.replies[j] != Closed(true)
      {
        assert t.replies[j] == rest.replies[j - 1];
        if i > 0 {
          assert t.replies[i] == rest.replies[i - 1];
        }
      }
    }
  }

  // ---------------------------------------------------------------------------
  // The class

  class Drain {
    var buffer: seq<Byte>
    var closed: bool

    function State(): DrainState
      reads this
    {
      DrainState(buffer, closed)
    }

    /** `init(_ buffer: Data)`: holds the buffer's bytes and closes itself when there are
        none. */
    constructor (buffer: ByteData.Data)
      ensures State() == Initial(buffer.bytes)
    {
      this.buffer := buffer.bytes;
      closed := false;
      new;
      if |this.buffer| == 0 {
        var _ := Close();
      }
    }

    /** `init()`: an empty buffer, so the drain starts closed. */
    constructor Empty()
      ensures State() == Initial([])
    {
      buffer := [];
      closed := false;
      new;
      var _ := Close();
    }

    /** `data`. */
    function Data(): (r: seq<Byte>)
      reads this
      ensures r == Visible(State())
    {
      if !closed then buffer else []
    }

    /** `close()`. */
    method Close() returns (first: bool)
      modifies this
      ensures Step(State(), Closed(first)) == Apply(old(State()), CloseOp)
    {
      if closed {
        return false;
      }
      closed := true;
      return true;
    }

    /** `receive()`. */
    method Receive() returns (data: seq<Byte>)
      modifies this
      ensures Step(State(), Received(data)) == Apply(old(State()), ReceiveOp)
    {
      data := Data();
      var _ := Close();
    }

    /** Assigning to the public `closed`. */
    method SetClosed(b: bool)
      modifies this
      ensures Step(State(), Assigned) == Apply(old(State()), SetClosedOp(b))
    {
      closed := b;
    }

    /** `send(_:)`: always throws `sendUnsupported`. */
    method Send(data: seq<Byte>) returns (error: DrainError)
      ensures Step(State(), Threw(error)) == Apply(State(), SendOp(data))
    {
      error := SendUnsupported;
    }

    /** `flush()`: always throws `flushUnsupported`. */
    method Flush() returns (error: DrainError)
      ensures Step(State(), Threw(error)) == Apply(State(), FlushOp)
    {
      error := FlushUnsupported;
    }
  }
}
