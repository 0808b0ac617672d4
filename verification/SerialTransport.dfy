// The connection bookkeeping of the serial transport: descriptor, connected
// flag and generation.  Opening a device is left to a parameter that says how
// it ended.  Every operation keeps the contract that sessions rely on.

module SerialTransports {
  import opened Wrappers
  import opened Protocol
  import opened TransportModel
  import opened WriteLoop

  // How the chain of system calls that opens and configures a device ended.
  datatype OpenOutcome = Opened(fd: nat) | Failed(status: TransportStatus, osError: int)

  datatype OpenResult = OpenResult(status: TransportStatus, osError: int, generation: uint64)

  const EOVERFLOW: int := 75

  class PosixSerialTransport {
    const readWrite: bool
    const pathValid: bool
    var fd: int
    var connected: bool
    var generation: uint64

    ghost predicate Valid()
      reads this
    {
      (connected <==> fd >= 0) && (generation == 0 ==> !connected)
    }

    ghost function TheLink(): Link
      reads this
    {
      Link(connected, generation)
    }

    constructor (pathValid: bool, readWrite: bool)
      ensures Valid() && TheLink() == Link(false, 0)
      ensures this.pathValid == pathValid && this.readWrite == readWrite
    {
      this.pathValid, this.readWrite := pathValid, readWrite;
      fd, connected, generation := -1, false, 0;
    }

    method Close()
      requires Valid()
      modifies this
      ensures Valid() && TheLink() == Link(false, old(generation))
      ensures LinkFollows(old(TheLink()), TheLink())
    {
      connected := false;
      if fd >= 0 {
        fd := -1;
      }
    }

    // Either nothing changes or the next generation is connected.
    method OpenNewGeneration(attempt: OpenOutcome) returns (result: OpenResult)
      requires Valid() && !connected
      requires attempt.Failed? ==> !attempt.status.Ok?
      modifies this
      ensures Valid() && LinkFollows(old(TheLink()), TheLink())
      ensures result.generation == generation
      ensures if result.status.Ok? then connected && generation == old(generation) + 1
              else TheLink() == old(TheLink())
      ensures result.status.Ok? <==> pathValid && old(generation) < UINT64_MAX && attempt.Opened?
    {
      if !pathValid {
        return OpenResult(InvalidArgument, EINVAL, generation);
      }
      if generation == UINT64_MAX {
        return OpenResult(ConfigurationError, EOVERFLOW, generation);
      }
      match attempt
      case Failed(status, osError) => return OpenResult(status, osError, generation);
      case Opened(descriptor) =>
        fd := descriptor;
        connected := true;
        generation := generation + 1;
        return OpenResult(Ok, 0, generation);
    }

    method Open(attempt: OpenOutcome) returns (result: OpenResult)
      requires Valid() && (attempt.Failed? ==> !attempt.status.Ok?)
      modifies this
      ensures Valid() && LinkFollows(old(TheLink()), TheLink())
      ensures result.status.Ok? <==> connected
      ensures old(connected) ==> TheLink() == old(TheLink())
    {
      if connected {
        return OpenResult(Ok, 0, generation);
      }
      result := OpenNewGeneration(attempt);
    }

    // A successful reopen is always a new generation.
    method Reopen(attempt: OpenOutcome) returns (result: OpenResult)
      requires Valid() && (attempt.Failed? ==> !attempt.status.Ok?)
      modifies this
      ensures Valid() && LinkFollows(old(TheLink()), TheLink())
      ensures result.status.Ok? <==> connected
      ensures connected ==> generation == old(generation) + 1
    {
      Close();
      result := OpenNewGeneration(attempt);
    }

    // None means the write loop was still going when the script's watch ended.
    method WriteAll(data: array?<Byte>, size: nat, deadline: int64, script: Script, patience: nat)
      returns (result: Option<IoResult>, attempts: seq<Attempt>)
      requires Valid() && (data != null ==> size <= data.Length)
      modifies this
      ensures Valid()
      ensures !readWrite || !old(connected) ==> attempts == []
      ensures result.Some? ==>
                var o := Returned(result.value, TheLink());
                SerialOutcome(old(generation), deadline, o) && LinkFollows(old(TheLink()), o.after)
      ensures result.Some? && result.value.status.Ok? && data != null ==> Wire(attempts) == data[..size]
      ensures LinkFollows(old(TheLink()), TheLink())
    {
      attempts := [];
      if !readWrite {
        return Some(IoResult(WriteDisabled, 0, EACCES, false, false, 0)), [];
      }
      if !connected || fd < 0 {
        return Some(IoResult(Disconnected, 0, ENOTCONN, false, true, script.clock(0))), [];
      }
      var cursor, left;
      result, attempts, cursor, left := WriteAllWithOperations(true, true, data, size, deadline, script, patience);
      if result.Some? && result.value.status.Disconnected? {
        Close();
      }
    }
  }
}
