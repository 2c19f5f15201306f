# ft5x0x touchscreen: I2C transport binding

A Dafny model of the I2C bus binding of the ft5x0x touchscreen driver
(`drivers/input/touchscreen/ft5x0x_ts_i2c.c`). The binding gives the generic
ft5x0x controller core four transport operations (raw receive and send, and a
register-addressed read and write of up to 255 bytes) and attaches the core to
one I2C client at probe time.

The chunked read and write are loops that issue one SMBus I2C-block transaction
per turn and fill or consume the caller's buffer in place. They are modelled as
methods over an `array<u8>`. Their specification is a set of functions of the
adapter's answers: the transactions issued, the final buffer and the status
returned. The lemmas about those functions state what the driver promises.

Modules:

- `Kernel` (`kernel.dfy`) holds the interfaces the binding calls. They are
  modelled as scripted oracles: the I2C client (`I2cClient`) and the generic
  controller core (`ControllerCore`). Each primitive answers with the next
  reply of a script fixed in advance and appends the call it received to a log.
  It also holds the constants from the kernel headers: `I2C_SMBUS_BLOCK_MAX` = 32,
  the I2C-block functionality bits, `ENODEV`, `MAX_ERRNO` and `BUS_I2C`.
- `ReadSpec` (`read_spec.dfy`) specifies the chunked read. `ReadScript` says
  which answer sequences are legal for a read. `ReadTxns`, `ReadImage` and
  `ReadStatus` give the transactions, the buffer and the status. The lemmas
  follow them.
- `WriteSpec` (`write_spec.dfy`) does the same for the chunked write.
- `Stride` (`stride.dfy`) relates the read's count-driven advance to the
  write's fixed stride.
- `Ft5x0xI2c` (`ft5x0x_i2c.dfy`) holds the binding itself: `Recv`, `Send`,
  `Read`, `Write`, `Probe`, `Remove`, `Suspend` and `Resume`.

What the code does not do:

- The read and the write return only the raw bus status. They report no
  partial-progress offset.
- The read has no zero-progress error. It has no guard against a zero count
  (see `ZeroCountStalls`).
- `Remove` hands the stored handle to the core but does not clear the
  client-data slot.
- `Recv` and `Send` report success for any non-negative count, including a
  count shorter than requested.

## Model

| member | source | states |
|---|---|---|
| `Ft5x0xI2c.CountToStatus` | drivers/input/touchscreen/ft5x0x_ts_i2c.c:20-34 | the reported status is never positive; it is 0 exactly when the primitive's count is non-negative, and otherwise it is that same negative count |
| `Ft5x0xI2c.Recv` | drivers/input/touchscreen/ft5x0x_ts_i2c.c:20-26 | one `i2c_master_recv` of `len` bytes into the buffer; on success the buffer holds the delivered bytes at its start and is otherwise unchanged (nothing is promised about it on error), and the status is the count mapped by `CountToStatus` |
| `Ft5x0xI2c.Send` | drivers/input/touchscreen/ft5x0x_ts_i2c.c:28-34 | one `i2c_master_send` of buf[0..len); the status is the count mapped by `CountToStatus` |
| `Ft5x0xI2c.Read` | drivers/input/touchscreen/ft5x0x_ts_i2c.c:36-50 | the loop consumes exactly the adapter's answers; it logs the transactions `ReadTxns`, leaves the buffer `ReadImage` and returns `ReadStatus`; with `len == 0` it issues nothing, changes nothing and returns 0 |
| `Ft5x0xI2c.Write` | drivers/input/touchscreen/ft5x0x_ts_i2c.c:52-67 | the loop consumes exactly the adapter's statuses, logs the transactions `WriteTxns` and returns `WriteStatus`; with `len == 0` it issues nothing and returns 0 |
| `Ft5x0xI2c.BlockTransfersSupported` | drivers/input/touchscreen/ft5x0x_ts_i2c.c:99-100 | the capability check passes exactly when the adapter offers both I2C-block read and I2C-block write |
| `Ft5x0xI2c.Probe` | drivers/input/touchscreen/ft5x0x_ts_i2c.c:94-111 | without I2C-block support it returns -ENODEV and calls nothing. Otherwise it calls the core's probe once, for this client, with the client's irq and the BUS_I2C transport. On success it stores that handle and returns 0; on failure it returns the error and leaves the slot alone. It returns 0 exactly when a handle was stored |
| `Ft5x0xI2c.Remove` | drivers/input/touchscreen/ft5x0x_ts_i2c.c:113-118 | passes exactly the stored handle to the core's remove, once, and returns 0 |
| `Ft5x0xI2c.Suspend` | drivers/input/touchscreen/ft5x0x_ts_i2c.c:78-81 | forwards the stored handle to the core's suspend, once, and returns its status unchanged |
| `Ft5x0xI2c.Resume` | drivers/input/touchscreen/ft5x0x_ts_i2c.c:83-86 | forwards the stored handle to the core's resume, once, and returns its status unchanged |
| `ReadSpec.ReadTransactionCount` | drivers/input/touchscreen/ft5x0x_ts_i2c.c:42-47 | under a legal answer script the read issues exactly one transaction per answer and leaves the loop when the script ends |
| `ReadSpec.ReadTransactionAt` | drivers/input/touchscreen/ft5x0x_ts_i2c.c:42-44 | let f be the bytes returned by the earlier transactions; transaction k then targets register (addr + f) mod 256 and buffer offset f and asks for len - f bytes; f < len, and every earlier transaction succeeded |
| `ReadSpec.ReadCompletes` | drivers/input/touchscreen/ft5x0x_ts_i2c.c:42-49 | if no transaction fails, the chunks add up to exactly `len` bytes in at least ceil(len/32) transactions; buf[0..len) becomes their concatenation, the rest of the buffer is untouched and the status is 0 |
| `ReadSpec.ReadFailure` | drivers/input/touchscreen/ft5x0x_ts_i2c.c:45-49 | a failing transaction is the last one and the read returns its negative errno verbatim; the chunks of the earlier transactions stay in place (not rolled back) and every byte after them is untouched |
| `ReadSpec.ReadSucceedsIff` | drivers/input/touchscreen/ft5x0x_ts_i2c.c:45-49 | the read's status is never positive, and it is 0 exactly when no transaction failed |
| `ReadSpec.ZeroCountStalls` | drivers/input/touchscreen/ft5x0x_ts_i2c.c:42-47 | answers that deliver zero bytes leave the offset unchanged, so the loop repeats the identical transaction and never leaves, however many such answers come |
| `WriteSpec.Chunk` | drivers/input/touchscreen/ft5x0x_ts_i2c.c:58-61 | a write transaction at offset i carries 1 to 32 bytes of buf starting at i; it carries exactly 32 unless it reaches `len` |
| `WriteSpec.WriteTransactionCount` | drivers/input/touchscreen/ft5x0x_ts_i2c.c:58-63 | under a legal status script the write issues exactly one transaction per status |
| `WriteSpec.WriteTransactionAt` | drivers/input/touchscreen/ft5x0x_ts_i2c.c:58-61 | transaction k sits at offset 32k < len, targets register (addr + 32k) mod 256 and is handed length len - 32k; it follows only successful transactions, and all but the last carry exactly 32 bytes |
| `WriteSpec.WriteCompletes` | drivers/input/touchscreen/ft5x0x_ts_i2c.c:58-66 | if every transaction succeeds there are exactly ceil(len/32) of them, their payloads together are buf[0..len) in order, and the status is 0 |
| `WriteSpec.WriteFailure` | drivers/input/touchscreen/ft5x0x_ts_i2c.c:62-66 | a failing transaction is the last one and the write returns its status unchanged; the k earlier successful transactions carried exactly buf[0..32k) |
| `WriteSpec.WriteSucceedsIff` | drivers/input/touchscreen/ft5x0x_ts_i2c.c:62-66 | the write returns 0 exactly when every transaction it issued returned 0 |
| `Stride.FullReadsFollowWriteStride` | drivers/input/touchscreen/ft5x0x_ts_i2c.c:42-61 | if every read answer but the last is a full 32-byte chunk and nothing fails, the read and the write issue the same number of transactions, with the same registers, offsets and requested lengths; the two loops diverge only after a short read |

## Left out

- The kernel I2C/SMBus primitives are not modelled internally: `i2c_master_recv`, `i2c_master_send`, `i2c_smbus_read_i2c_block_data` and `i2c_smbus_write_i2c_block_data`. They are scripted oracles whose answers are bounded by what the kernel documents. A raw receive delivers at most the bytes asked for or returns a negative errno; after an error the model promises nothing about the buffer, since an adapter may have stored part of the message. A block read delivers at most min(length, 32) bytes or returns a negative errno, and on error leaves the buffer untouched, because the SMBus helper copies the data out only after a successful transfer. A block write sends min(length, 32) bytes and returns a status.
- The generic controller core (`ft5x0x_probe`, `ft5x0x_remove`, `ft5x0x_suspend`, `ft5x0x_resume` in `ft5x0x_ts.h`) is not part of this model. It is an oracle that returns an opaque handle or an error in -4095..-1 and records its calls. An error pointer and IS_ERR/PTR_ERR are modelled as the datatype case `ConstructFailed`.
- The transport table `ft5x0x_i2c_bops` is represented only by the `BUS_I2C` tag that `Probe` passes to the core. The operations it lists are the methods of `Ft5x0xI2c`.
- Driver registration is packaging with no behaviour to state, so it is left out: the id table, `i2c_driver`, module init/exit and the `MODULE_*` macros (lines 120-154).
- The `CONFIG_PM` / `CONFIG_HAS_EARLYSUSPEND` build switch is left out. `Suspend` and `Resume` are modelled as if the power hooks are compiled in.
- The `dev_err` message on an incompatible adapter is left out. So are `to_i2c_client`/`dev_get_drvdata` pointer plumbing, locking and concurrency: the code has no locking and relies on its callers to serialise calls.
- Ft5x0xI2c.Read: requires every successful answer to deliver at least one byte. The loop has no zero-count guard and would never terminate otherwise; `ZeroCountStalls` states what happens on zero counts instead. It also requires no answer to exceed the bytes still missing, which the primitive guarantees.
- Ft5x0xI2c.Read, Ft5x0xI2c.Write: the answer script must be exactly as long as the loop needs. Extra answers belong to later calls and are not modelled.
- Ft5x0xI2c.Remove, Ft5x0xI2c.Suspend, Ft5x0xI2c.Resume: require a handle to be stored. The driver framework calls them only after a successful probe; in the code, a missing handle would reach the core as a null pointer.
- Ft5x0xI2c.Recv, Ft5x0xI2c.Send: require 0 <= len <= buffer length; a negative length is not modelled.
