/** The kernel interfaces the ft5x0x I2C binding calls, modelled as scripted
    oracles. Each primitive answers with the next reply of a script fixed in
    advance and records the call it received in a log, so that a caller's
    contract can say exactly which transactions it issued and in what order. */
module Kernel {

  /** An 8-bit unsigned value: a register number, a block length or a data byte. */
  type u8 = x: int | 0 <= x < 256

  /** Largest payload of one SMBus block transaction (linux/i2c.h). */
  const I2C_SMBUS_BLOCK_MAX: nat := 32

  /** Adapter functionality bits (linux/i2c.h): I2C-block read, I2C-block write, both. */
  const I2C_FUNC_SMBUS_READ_I2C_BLOCK: bv32 := 0x0400_0000
  const I2C_FUNC_SMBUS_WRITE_I2C_BLOCK: bv32 := 0x0800_0000
  const I2C_FUNC_SMBUS_I2C_BLOCK: bv32 := 0x0C00_0000

  /** errno "no such device" (asm-generic/errno-base.h). */
  const ENODEV: int := 19

  /** Error pointers carry an errno in -MAX_ERRNO..-1 (linux/err.h). */
  const MAX_ERRNO: int := 4095

  /** Bus type tag of the I2C transport (linux/input.h). */
  const BUS_I2C: int := 0x18

  function Min(a: int, b: int): (m: int) { if a <= b then a else b }

  datatype Option<T> = None | Some(value: T)

  /** The answer of a primitive that moves bytes towards the host: a negative
      errno, or the bytes it delivered. */
  datatype Reply = Failed(code: int) | Got(data: seq<u8>) {
    /** The integer the C primitive returns: the errno, or the byte count. */
    function Count(): int { if Failed? then code else |data| }

    /** A legal answer to a request for at most `max` bytes. */
    predicate Fits(max: int) { if Failed? then code < 0 else |data| <= max }
  }

  /** `b` with the bytes `d` placed at offset `at`. */
  function Splice(b: seq<u8>, at: nat, d: seq<u8>): (r: seq<u8>)
    requires at + |d| <= |b|
    ensures |r| == |b|
  {
    b[..at] + d + b[at + |d|..]
  }

  /** Splice changes exactly the positions at..at + |d|. */
  lemma SpliceAt(b: seq<u8>, at: nat, d: seq<u8>)
    requires at + |d| <= |b|
    ensures forall k :: 0 <= k < |b| ==> Splice(b, at, d)[k] == if at <= k < at + |d| then d[k - at] else b[k]
  {
  }

  /** After a splice, the prefix up to the end of `d` is the old prefix followed
      by `d`, and everything from `hi` on is untouched. */
  lemma SpliceSlices(b: seq<u8>, at: nat, d: seq<u8>, hi: nat)
    requires at + |d| <= hi <= |b|
    ensures Splice(b, at, d)[..at + |d|] == b[..at] + d
    ensures Splice(b, at, d)[hi..] == b[hi..]
  {
    var r := Splice(b, at, d);
    assert r[..at + |d|] == (b[..at] + d + b[at + |d|..])[..at + |d|];
    assert r[hi..] == (b[..at] + d + b[at + |d|..])[hi..];
  }

  /** A slice is the concatenation of its two halves at any midpoint. */
  lemma SliceSplit(b: seq<u8>, lo: nat, mid: nat, hi: nat)
    requires lo <= mid <= hi <= |b|
    ensures b[lo..hi] == b[lo..mid] + b[mid..hi]
  {
  }

  /** The buffer after a primitive answered `r` for a transfer into offset `at`:
      an error leaves it untouched. */
  function Deliver(b: seq<u8>, at: nat, r: Reply): (d: seq<u8>)
    requires r.Got? ==> at + |r.data| <= |b|
  {
    if r.Failed? then b else Splice(b, at, r.data)
  }

  /** One call into the I2C core, as the primitive received it. `offset` is the
      position in the caller's buffer the call reads from or writes to. */
  datatype Transaction =
    | RecvTxn(count: int)
    | SendTxn(sent: seq<u8>)
    | ReadBlockTxn(command: u8, length: u8, offset: nat)
    | WriteBlockTxn(command: u8, length: u8, offset: nat, sent: seq<u8>)

  /** The opaque controller state returned by the generic core. */
  datatype Handle = Handle(id: nat)

  /** One bus endpoint (struct i2c_client): the adapter's functionality word, the
      interrupt line, the per-client data slot, and the scripted answers of its
      adapter to each kind of primitive. */
  class I2cClient {
    var funcs: bv32
    var irq: int
    var clientdata: Option<Handle>
    var recvReplies: seq<Reply>
    var sendReplies: seq<int>
    var readReplies: seq<Reply>
    var writeReplies: seq<int>
    var log: seq<Transaction>

    /** i2c_master_recv: receive at most `count` raw bytes into buf[0..). The
        buffer is promised only on success: an adapter that fails partway may
        already have stored some of the bytes. */
    method MasterRecv(buf: array<u8>, count: int) returns (r: int)
      requires 0 <= count <= buf.Length
      requires recvReplies != [] && recvReplies[0].Fits(count)
      modifies this`recvReplies, this`log, buf
      ensures recvReplies == old(recvReplies[1..])
      ensures log == old(log) + [RecvTxn(count)]
      ensures r == old(recvReplies[0]).Count()
      ensures old(recvReplies[0]).Got? ==> buf[..] == Splice(old(buf[..]), 0, old(recvReplies[0]).data)
    {
      var reply := recvReplies[0];
      recvReplies := recvReplies[1..];
      log := log + [RecvTxn(count)];
      if reply.Got? {
        ghost var before := buf[..];
        forall k | 0 <= k < |reply.data| {
          buf[k] := reply.data[k];
        }
        SpliceAt(before, 0, reply.data);
        assert buf[..] == Splice(before, 0, reply.data);
      }
      r := reply.Count();
    }

    /** i2c_master_send: transmit buf[0..count) with no register framing;
        answers the byte count or a negative errno. */
    method MasterSend(buf: array<u8>, count: int) returns (r: int)
      requires 0 <= count <= buf.Length
      requires sendReplies != []
      modifies this`sendReplies, this`log
      ensures sendReplies == old(sendReplies[1..])
      ensures log == old(log) + [SendTxn(buf[..count])]
      ensures r == old(sendReplies[0])
    {
      r := sendReplies[0];
      sendReplies := sendReplies[1..];
      log := log + [SendTxn(buf[..count])];
    }

    /** i2c_smbus_read_i2c_block_data: read at most min(length, 32) bytes from
        register `command` into values[offset..); answers the count or an errno. */
    method ReadI2cBlockData(command: u8, length: u8, values: array<u8>, offset: nat) returns (r: int)
      requires offset + length <= values.Length
      requires readReplies != [] && readReplies[0].Fits(Min(length, I2C_SMBUS_BLOCK_MAX))
      modifies this`readReplies, this`log, values
      ensures readReplies == old(readReplies[1..])
      ensures log == old(log) + [ReadBlockTxn(command, length, offset)]
      ensures r == old(readReplies[0]).Count()
      ensures values[..] == Deliver(old(values[..]), offset, old(readReplies[0]))
    {
      var reply := readReplies[0];
      readReplies := readReplies[1..];
      log := log + [ReadBlockTxn(command, length, offset)];
      if reply.Got? {
        ghost var before := values[..];
        forall k | offset <= k < offset + |reply.data| {
          values[k] := reply.data[k - offset];
        }
        SpliceAt(before, offset, reply.data);
        assert values[..] == Splice(before, offset, reply.data);
      }
      r := reply.Count();
    }

    /** i2c_smbus_write_i2c_block_data: write the first min(length, 32) bytes of
        values[offset..) to register `command`; answers 0 or an errno. */
    method WriteI2cBlockData(command: u8, length: u8, values: array<u8>, offset: nat) returns (r: int)
      requires offset + length <= values.Length
      requires writeReplies != []
      modifies this`writeReplies, this`log
      ensures writeReplies == old(writeReplies[1..])
      ensures log == old(log) + [WriteBlockTxn(command, length, offset,
                                               values[offset..offset + Min(length, I2C_SMBUS_BLOCK_MAX)])]
      ensures r == old(writeReplies[0])
    {
      r := writeReplies[0];
      writeReplies := writeReplies[1..];
      log := log + [WriteBlockTxn(command, length, offset,
                                  values[offset..offset + Min(length, I2C_SMBUS_BLOCK_MAX)])];
    }
  }

  /** What the generic core's construction entry point answers: a controller
      handle, or an error pointer carrying `err`. */
  datatype ProbeReply = Constructed(handle: Handle) | ConstructFailed(err: int)

  /** One call into the generic controller core. */
  datatype CoreCall =
    | ProbeCall(dev: I2cClient, irq: int, bustype: int)
    | RemoveCall(handle: Handle)
    | SuspendCall(handle: Handle)
    | ResumeCall(handle: Handle)

  /** The generic controller core (ft5x0x_probe, ft5x0x_remove, ft5x0x_suspend,
      ft5x0x_resume), as a scripted oracle that records its calls. */
  class ControllerCore {
    var probeReplies: seq<ProbeReply>
    var pmReplies: seq<int>
    var calls: seq<CoreCall>

    /** ft5x0x_probe: build a controller bound to the client `dev`, on the
        given interrupt line, driven through the transport tagged `bustype`. */
    method Probe(dev: I2cClient, irq: int, bustype: int) returns (r: ProbeReply)
      requires probeReplies != []
      requires probeReplies[0].ConstructFailed? ==> -MAX_ERRNO <= probeReplies[0].err < 0
      modifies this`probeReplies, this`calls
      ensures r == old(probeReplies[0])
      ensures probeReplies == old(probeReplies[1..])
      ensures calls == old(calls) + [ProbeCall(dev, irq, bustype)]
    {
      r := probeReplies[0];
      probeReplies := probeReplies[1..];
      calls := calls + [ProbeCall(dev, irq, bustype)];
    }

    /** ft5x0x_remove: tear the controller down. */
    method Remove(h: Handle)
      modifies this`calls
      ensures calls == old(calls) + [RemoveCall(h)]
    {
      calls := calls + [RemoveCall(h)];
    }

    /** ft5x0x_suspend: answers the core's status. */
    method Suspend(h: Handle) returns (r: int)
      requires pmReplies != []
      modifies this`pmReplies, this`calls
      ensures r == old(pmReplies[0])
      ensures pmReplies == old(pmReplies[1..])
      ensures calls == old(calls) + [SuspendCall(h)]
    {
      r := pmReplies[0];
      pmReplies := pmReplies[1..];
      calls := calls + [SuspendCall(h)];
    }

    /** ft5x0x_resume: answers the core's status. */
    method Resume(h: Handle) returns (r: int)
      requires pmReplies != []
      modifies this`pmReplies, this`calls
      ensures r == old(pmReplies[0])
      ensures pmReplies == old(pmReplies[1..])
      ensures calls == old(calls) + [ResumeCall(h)]
    {
      r := pmReplies[0];
      pmReplies := pmReplies[1..];
      calls := calls + [ResumeCall(h)];
    }
  }
}
