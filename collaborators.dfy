/** The two things the servers talk to besides the file tree: the request body,
    read from the client connection, and the index command, an external process. */
module Collaborators {
  import opened FileSystem

  function Min(a: int, b: int): (m: int)
    ensures m <= a && m <= b && (m == a || m == b)
  {
    if a <= b then a else b
  }

  /** The request body as the server reads it. `pending` holds the bytes the
      client sends that have not been read yet; `grants` is how the transport
      happens to cut them up: the i-th read returns at most `grants[i]` bytes
      (once `grants` is used up, as many as asked for). `requested` records the
      size passed to each read. */
  class BodyStream {
    var pending: seq<byte>
    var grants: seq<nat>
    ghost var requested: seq<int>

    /** A read that asks for something while bytes are waiting returns some. */
    ghost predicate Valid()
      reads this
    {
      forall i :: 0 <= i < |grants| ==> grants[i] >= 1
    }

    constructor (body: seq<byte>, grants: seq<nat>)
      requires forall i :: 0 <= i < |grants| ==> grants[i] >= 1
      ensures Valid()
      ensures pending == body && this.grants == grants && requested == []
    {
      pending := body;
      this.grants := grants;
      requested := [];
    }

    /** How many bytes a read of `size` returns now. */
    function Delivered(size: nat): (k: nat)
      reads this
      ensures k <= size && k <= |pending|
    {
      Min(Min(size, if grants == [] then size else grants[0]), |pending|)
    }

    /** `read(size)`: between one byte and `size` bytes from the front of the
        body, fewer only when the transport cuts the data short. */
    method Read(size: nat) returns (buf: seq<byte>)
      requires Valid()
      modifies this
      ensures Valid()
      ensures buf == old(pending)[..old(Delivered(size))]
      ensures pending == old(pending)[|buf|..]
      ensures 1 <= size && old(pending) != [] ==> 1 <= |buf|
      ensures grants == if old(grants) == [] then [] else old(grants)[1..]
      ensures requested == old(requested) + [size]
    {
      var k := Delivered(size);
      buf := pending[..k];
      pending := pending[k..];
      if grants != [] {
        grants := grants[1..];
      }
      requested := requested + [size];
    }

    /** Reads the whole body at once (aiohttp's `request.post()`). */
    method ReadAll() returns (data: seq<byte>)
      modifies this
      ensures data == old(pending) && pending == []
      ensures grants == old(grants) && requested == old(requested)
    {
      data := pending;
      pending := [];
    }
  }

  /** The configured index command. Whether the process exits with status zero
      is decided outside the model, so it is a fixed property of the command;
      `calls` counts the times `subprocess.check_call` ran it. */
  class IndexCommand {
    const argv: seq<string>
    const succeeds: bool
    var calls: nat

    constructor (argv: seq<string>, succeeds: bool)
      ensures this.argv == argv && this.succeeds == succeeds && calls == 0
    {
      this.argv := argv;
      this.succeeds := succeeds;
      calls := 0;
    }

    /** `subprocess.check_call(argv)`: `ok` is false exactly when it would raise
        CalledProcessError. */
    method CheckCall() returns (ok: bool)
      modifies this
      ensures calls == old(calls) + 1
      ensures ok == succeeds
    {
      calls := calls + 1;
      ok := succeeds;
    }
  }
}
