/** The I2C transport binding of the ft5x0x touchscreen controller: the four
    transport operations the generic controller core drives (raw receive and
    send, chunked register read and write), and the probe/remove and power
    hooks that attach the core to one I2C client. */
module Ft5x0xI2c {
  import opened Kernel
  import opened ReadSpec
  import opened WriteSpec

  /** The status a transport operation reports for a primitive's return value:
      success as 0 whatever the byte count, an error as the same negative errno. */
  function CountToStatus(count: int): (status: int)
    ensures status <= 0
    ensures status == 0 <==> count >= 0
    ensures status != 0 ==> status == count
  {
    if count < 0 then count else 0
  }

  /** i2c_check_functionality for I2C_FUNC_SMBUS_I2C_BLOCK: the adapter must
      offer both the I2C-block read and the I2C-block write. */
  function BlockTransfersSupported(funcs: bv32): (ok: bool)
    ensures ok <==> funcs & I2C_FUNC_SMBUS_READ_I2C_BLOCK != 0 && funcs & I2C_FUNC_SMBUS_WRITE_I2C_BLOCK != 0
  {
    funcs & I2C_FUNC_SMBUS_I2C_BLOCK == I2C_FUNC_SMBUS_I2C_BLOCK
  }

  /** ft5x0x_i2c_recv: one raw receive of at most `len` bytes into buf[0..). */
  method Recv(client: I2cClient, buf: array<u8>, len: int) returns (status: int)
    requires 0 <= len <= buf.Length
    requires client.recvReplies != [] && client.recvReplies[0].Fits(len)
    modifies client`recvReplies, client`log, buf
    ensures client.recvReplies == old(client.recvReplies[1..])
    ensures client.log == old(client.log) + [RecvTxn(len)]
    ensures old(client.recvReplies[0]).Got? ==> buf[..] == Splice(old(buf[..]), 0, old(client.recvReplies[0]).data)
    ensures status == CountToStatus(old(client.recvReplies[0]).Count())
  {
    var count := client.MasterRecv(buf, len);
    status := CountToStatus(count);
  }

  /** ft5x0x_i2c_send: one raw transmission of buf[0..len). */
  method Send(client: I2cClient, buf: array<u8>, len: int) returns (status: int)
    requires 0 <= len <= buf.Length
    requires client.sendReplies != []
    modifies client`sendReplies, client`log
    ensures client.sendReplies == old(client.sendReplies[1..])
    ensures client.log == old(client.log) + [SendTxn(buf[..len])]
    ensures status == CountToStatus(old(client.sendReplies[0]))
  {
    var count := client.MasterSend(buf, len);
    status := CountToStatus(count);
  }

  /** ft5x0x_i2c_read: read `len` bytes from register `addr` on into buf[0..len)
      with as many SMBus I2C-block reads as it takes, each one moving register
      and offset forward by the count it returned; the first error ends it. */
  method Read(client: I2cClient, addr: u8, buf: array<u8>, len: u8) returns (status: int)
    requires len <= buf.Length
    requires ReadScript(len, 0, client.readReplies)
    modifies client`readReplies, client`log, buf
    ensures client.readReplies == []
    ensures client.log == old(client.log) + ReadTxns(addr, len, 0, old(client.readReplies))
    ensures buf[..] == ReadImage(len, 0, old(buf[..]), old(client.readReplies))
    ensures status == ReadStatus(len, 0, old(client.readReplies))
    ensures len == 0 ==> client.log == old(client.log) && buf[..] == old(buf[..]) && status == 0
  {
    ghost var script := client.readReplies;
    ghost var txns := client.log + ReadTxns(addr, len, 0, script);
    ghost var image := ReadImage(len, 0, buf[..], script);
    var i: nat := 0;
    var count := 0;
    while i < len
      invariant ReadScript(len, i, client.readReplies)
      invariant client.log + ReadTxns(addr, len, i, client.readReplies) == txns
      invariant ReadImage(len, i, buf[..], client.readReplies) == image
      invariant ReadStatus(len, i, client.readReplies) == ReadStatus(len, 0, script)
      invariant count >= 0
      decreases len - i
    {
      ghost var replies := client.readReplies;
      ghost var before := buf[..];
      ghost var log := client.log;
      count := client.ReadI2cBlockData((addr + i) % 256, len - i, buf, i);
      if count < 0 {
        ReadStepFailed(addr, len, i, before, log, replies);
        break;
      }
      ReadStepGot(addr, len, i, before, log, replies);
      i := i + count;
    }
    status := CountToStatus(count);
  }

  /** ft5x0x_i2c_write: write buf[0..len) to the registers from `addr` on with
      SMBus I2C-block writes, moving register and offset forward by the fixed
      stride I2C_SMBUS_BLOCK_MAX; the first nonzero status ends it. */
  method Write(client: I2cClient, addr: u8, buf: array<u8>, len: u8) returns (error: int)
    requires len <= buf.Length
    requires WriteScript(len, 0, client.writeReplies)
    modifies client`writeReplies, client`log
    ensures client.writeReplies == []
    ensures client.log == old(client.log) + WriteTxns(addr, len, buf[..], 0, old(client.writeReplies))
    ensures error == WriteStatus(len, 0, old(client.writeReplies))
    ensures len == 0 ==> client.log == old(client.log) && error == 0
  {
    ghost var script := client.writeReplies;
    ghost var txns := client.log + WriteTxns(addr, len, buf[..], 0, script);
    var i: nat := 0;
    error := 0;
    while i < len
      invariant WriteScript(len, i, client.writeReplies)
      invariant client.log + WriteTxns(addr, len, buf[..], i, client.writeReplies) == txns
      invariant WriteStatus(len, i, client.writeReplies) == WriteStatus(len, 0, script)
      invariant error == 0
    {
      ghost var replies := client.writeReplies;
      ghost var log := client.log;
      WriteStep(addr, len, buf[..], i, log, replies);
      error := client.WriteI2cBlockData((addr + i) % 256, len - i, buf, i);
      if error != 0 {
        break;
      }
      i := i + I2C_SMBUS_BLOCK_MAX;
    }
  }

  /** ft5x0x_i2c_probe: refuse an adapter without I2C-block transfers before
      anything is built; otherwise build the controller over this transport and
      keep its handle in the client only when construction succeeded. */
  method Probe(client: I2cClient, core: ControllerCore) returns (status: int)
    requires BlockTransfersSupported(client.funcs) ==> core.probeReplies != []
    requires BlockTransfersSupported(client.funcs) && core.probeReplies[0].ConstructFailed?
             ==> -MAX_ERRNO <= core.probeReplies[0].err < 0
    modifies client`clientdata, core`probeReplies, core`calls
    ensures !BlockTransfersSupported(client.funcs) ==>
              status == -ENODEV && core.calls == old(core.calls) &&
              core.probeReplies == old(core.probeReplies) && client.clientdata == old(client.clientdata)
    ensures BlockTransfersSupported(client.funcs) ==>
              core.calls == old(core.calls) + [ProbeCall(client, client.irq, BUS_I2C)] &&
              core.probeReplies == old(core.probeReplies[1..])
    ensures BlockTransfersSupported(client.funcs) && old(core.probeReplies[0]).Constructed? ==>
              status == 0 && client.clientdata == Some(old(core.probeReplies[0]).handle)
    ensures BlockTransfersSupported(client.funcs) && old(core.probeReplies[0]).ConstructFailed? ==>
              status == old(core.probeReplies[0]).err && client.clientdata == old(client.clientdata)
    ensures status == 0 <==> BlockTransfersSupported(client.funcs) && old(core.probeReplies[0]).Constructed?
  {
    if !BlockTransfersSupported(client.funcs) {
      return -ENODEV;
    }
    var built := core.Probe(client, client.irq, BUS_I2C);
    if built.ConstructFailed? {
      return built.err;
    }
    client.clientdata := Some(built.handle);
    return 0;
  }

  /** ft5x0x_i2c_remove: hand the handle kept at probe back to the core's
      teardown, once; the slot itself is left as it is. */
  method Remove(client: I2cClient, core: ControllerCore) returns (status: int)
    requires client.clientdata.Some?
    modifies core`calls
    ensures core.calls == old(core.calls) + [RemoveCall(client.clientdata.value)]
    ensures status == 0
  {
    core.Remove(client.clientdata.value);
    return 0;
  }

  /** ft5x0x_i2c_suspend: forward to the core with the kept handle and return
      its status unchanged. */
  method Suspend(client: I2cClient, core: ControllerCore) returns (status: int)
    requires client.clientdata.Some? && core.pmReplies != []
    modifies core`pmReplies, core`calls
    ensures core.calls == old(core.calls) + [SuspendCall(client.clientdata.value)]
    ensures core.pmReplies == old(core.pmReplies[1..])
    ensures status == old(core.pmReplies[0])
  {
    status := core.Suspend(client.clientdata.value);
  }

  /** ft5x0x_i2c_resume: forward to the core with the kept handle and return
      its status unchanged. */
  method Resume(client: I2cClient, core: ControllerCore) returns (status: int)
    requires client.clientdata.Some? && core.pmReplies != []
    modifies core`pmReplies, core`calls
    ensures core.calls == old(core.calls) + [ResumeCall(client.clientdata.value)]
    ensures core.pmReplies == old(core.pmReplies[1..])
    ensures status == old(core.pmReplies[0])
  {
    status := core.Resume(client.clientdata.value);
  }
}
