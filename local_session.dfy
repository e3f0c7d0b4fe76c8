/**
 * The worker side of an FTGS pass (`local_session.c`): a worker owns one
 * output stream per socket, and every write to a stream that fails moves the
 * stream's socket error into the worker's own error slot.
 *
 * The writers (`write_field_start`, `write_field_end`, `write_stream_end`)
 * and the accumulation pass (`tgs_execute_pass`) are not part of this model:
 * each call is represented by a `CallOutcome`, the value it returned together
 * with the socket error it left on the stream.
 */
module LocalSession {
  import opened Decimal

  /** `EBADF` on Linux. */
  const EBADF: int := 9

  datatype ErrorDesc = ErrorDesc(code: int, str: string)

  /** A zero-filled `struct err_desc`. */
  const NO_ERROR: ErrorDesc := ErrorDesc(0, "")

  datatype Socket = Socket(fd: int, err: ErrorDesc)

  /** An `ftgs_outstream`, reduced to its socket (its buffers are not modelled). */
  datatype OutStream = OutStream(socket: Socket)

  /** What an abstract writer or pass did: its return value and the socket error it left behind. */
  datatype CallOutcome = CallOutcome(ret: int, socketErr: ErrorDesc)

  /** `stream_init(stream, fd)`: a stream on socket `fd` with no pending error. */
  function StreamInit(fd: int): OutStream
  {
    OutStream(Socket(fd, NO_ERROR))
  }

  /** The stream as a writer call left it. */
  function AfterCall(s: OutStream, o: CallOutcome): OutStream
  {
    s.(socket := s.socket.(err := o.socketErr))
  }

  /** The stream once its error code has been reset to 0. */
  function ClearedCode(s: OutStream): OutStream
  {
    s.(socket := s.socket.(err := s.socket.err.(code := 0)))
  }

  function StartFieldBadStreamMessage(streamNum: int, numStreams: int): string
  {
    "Invalid socket number. stream_num: " + IntToString(streamNum) + " num_streams: " + IntToString(numStreams)
  }

  const BAD_STREAM_MESSAGE: string := "Invalid socket number."

  /** `struct session_desc`, reduced to the fields `session_init` records. */
  class SessionDesc {
    var numGroups: int
    var numStats: int
    var onlyBinaryMetrics: int

    /** `session_init`: the three parameters are stored unchanged (buffer allocation is not modelled). */
    method SessionInit(nGroups: int, nStats: int, onlyBinaryMetrics: int)
      modifies this
      ensures numGroups == nGroups && numStats == nStats && this.onlyBinaryMetrics == onlyBinaryMetrics
    {
      this.numGroups := nGroups;
      this.numStats := nStats;
      this.onlyBinaryMetrics := onlyBinaryMetrics;
    }
  }

  /** `struct worker_desc`: the output streams and the worker's error slot. */
  class Worker {
    var numStreams: int
    var outStreams: array<OutStream>
    var error: ErrorDesc

    ghost predicate Valid()
      reads this
    {
      numStreams == outStreams.Length
    }

    /** A zero-filled worker, as the caller allocates it before `worker_init`. */
    constructor ()
      ensures Valid() && numStreams == 0 && error == NO_ERROR
    {
      numStreams := 0;
      outStreams := new OutStream[0];
      error := NO_ERROR;
    }

    /** `worker_init`: one stream per socket, stream `i` on `socketFds[i]`; the error slot is untouched. */
    method WorkerInit(socketFds: seq<int>, numSockets: nat)
      requires numSockets <= |socketFds|
      modifies this
      ensures Valid() && fresh(outStreams)
      ensures numStreams == numSockets && error == old(error)
      ensures forall i :: 0 <= i < numSockets ==> outStreams[i] == StreamInit(socketFds[i])
    {
      numStreams := numSockets;
      var streams := new OutStream[numSockets](_ => OutStream(Socket(0, NO_ERROR)));
      outStreams := streams;
      for i := 0 to numSockets
        invariant outStreams == streams && numStreams == numSockets && error == old(error)
        invariant forall j :: 0 <= j < i ==> outStreams[j] == StreamInit(socketFds[j])
      {
        outStreams[i] := StreamInit(socketFds[i]);
      }
    }

    /**
     * `run_tgs_pass` on stream `streamNum` (which the C code does not range
     * check).  It returns the pass's error code; on a nonzero code the
     * stream's socket error is copied into the worker only when that error's
     * code is nonzero, and the stream keeps its error.
     */
    method RunTgsPass(streamNum: nat, pass: CallOutcome) returns (err: int)
      requires Valid() && streamNum < numStreams
      modifies outStreams, this`error
      ensures Valid()
      ensures err == pass.ret
      ensures outStreams[streamNum] == AfterCall(old(outStreams[streamNum]), pass)
      ensures forall j :: 0 <= j < outStreams.Length && j != streamNum ==> outStreams[j] == old(outStreams[j])
      ensures error == if pass.ret != 0 && pass.socketErr.code != 0 then pass.socketErr else old(error)
    {
      outStreams[streamNum] := AfterCall(outStreams[streamNum], pass);
      err := pass.ret;
      if err != 0 {
        if outStreams[streamNum].socket.err.code != 0 {
          error := outStreams[streamNum].socket.err;
        }
      }
    }

    /**
     * `worker_start_field`: an unknown stream sets EBADF and returns -1
     * without writing; any nonzero writer result moves the stream's error
     * into the worker, resets the stream's code and is returned.
     */
    method WorkerStartField(fieldName: string, len: int, termType: int, streamNum: nat, write: CallOutcome)
      returns (r: int)
      requires Valid()
      modifies outStreams, this`error
      ensures Valid()
      ensures streamNum >= numStreams ==>
        r == -1 && error == ErrorDesc(EBADF, StartFieldBadStreamMessage(streamNum, numStreams))
        && outStreams[..] == old(outStreams[..])
      ensures streamNum < numStreams && write.ret != 0 ==>
        r == write.ret && error == write.socketErr
        && outStreams[..] == old(outStreams[..])[streamNum := ClearedCode(AfterCall(old(outStreams[streamNum]), write))]
      ensures streamNum < numStreams && write.ret == 0 ==>
        r == 0 && error == old(error)
        && outStreams[..] == old(outStreams[..])[streamNum := AfterCall(old(outStreams[streamNum]), write)]
    {
      if streamNum >= numStreams {
        error := ErrorDesc(EBADF, StartFieldBadStreamMessage(streamNum, numStreams));
        return -1;
      }
      outStreams[streamNum] := AfterCall(outStreams[streamNum], write);
      var err := write.ret;
      if err != 0 {
        error := outStreams[streamNum].socket.err;
        outStreams[streamNum] := ClearedCode(outStreams[streamNum]);
        return err;
      }
      return 0;
    }

    /**
     * `worker_end_field`: like WorkerStartField, except that only a writer
     * result of -1 is a failure; any other result returns 0 and leaves the
     * stream's error where the writer put it.
     */
    method WorkerEndField(streamNum: nat, write: CallOutcome) returns (r: int)
      requires Valid()
      modifies outStreams, this`error
      ensures Valid()
      ensures streamNum >= numStreams ==>
        r == -1 && error == ErrorDesc(EBADF, BAD_STREAM_MESSAGE) && outStreams[..] == old(outStreams[..])
      ensures streamNum < numStreams && write.ret == -1 ==>
        r == -1 && error == write.socketErr
        && outStreams[..] == old(outStreams[..])[streamNum := ClearedCode(AfterCall(old(outStreams[streamNum]), write))]
      ensures streamNum < numStreams && write.ret != -1 ==>
        r == 0 && error == old(error)
        && outStreams[..] == old(outStreams[..])[streamNum := AfterCall(old(outStreams[streamNum]), write)]
    {
      if streamNum >= numStreams {
        error := ErrorDesc(EBADF, BAD_STREAM_MESSAGE);
        return -1;
      }
      outStreams[streamNum] := AfterCall(outStreams[streamNum], write);
      var err := write.ret;
      if err == -1 {
        error := outStreams[streamNum].socket.err;
        outStreams[streamNum] := ClearedCode(outStreams[streamNum]);
        return -1;
      }
      return 0;
    }

    /** `worker_end_stream`: the same error protocol as WorkerEndField, around `write_stream_end`. */
    method WorkerEndStream(streamNum: nat, write: CallOutcome) returns (r: int)
      requires Valid()
      modifies outStreams, this`error
      ensures Valid()
      ensures streamNum >= numStreams ==>
        r == -1 && error == ErrorDesc(EBADF, BAD_STREAM_MESSAGE) && outStreams[..] == old(outStreams[..])
      ensures streamNum < numStreams && write.ret == -1 ==>
        r == -1 && error == write.socketErr
        && outStreams[..] == old(outStreams[..])[streamNum := ClearedCode(AfterCall(old(outStreams[streamNum]), write))]
      ensures streamNum < numStreams && write.ret != -1 ==>
        r == 0 && error == old(error)
        && outStreams[..] == old(outStreams[..])[streamNum := AfterCall(old(outStreams[streamNum]), write)]
    {
      if streamNum >= numStreams {
        error := ErrorDesc(EBADF, BAD_STREAM_MESSAGE);
        return -1;
      }
      outStreams[streamNum] := AfterCall(outStreams[streamNum], write);
      var err := write.ret;
      if err == -1 {
        error := outStreams[streamNum].socket.err;
        outStreams[streamNum] := ClearedCode(outStreams[streamNum]);
        return -1;
      }
      return 0;
    }
  }
}
