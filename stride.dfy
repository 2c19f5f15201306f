/** The read and the write of the ft5x0x I2C binding split a transfer
    differently: the read advances by the count each transaction returned, the
    write by the fixed stride I2C_SMBUS_BLOCK_MAX. This module states when the
    two decompositions coincide. */
module Stride {
  import opened Kernel
  import opened ReadSpec
  import opened WriteSpec

  /** Where a block transaction went: register, requested length, buffer offset. */
  datatype Target = Target(command: u8, length: u8, offset: nat)

  /** The targets of the block transactions in `ts`, in order. */
  function Targets(ts: seq<Transaction>): (r: seq<Target>)
    ensures |r| <= |ts|
  {
    if ts == [] then []
    else
      (match ts[0]
       case ReadBlockTxn(c, l, o) => [Target(c, l, o)]
       case WriteBlockTxn(c, l, o, _) => [Target(c, l, o)]
       case _ => []) + Targets(ts[1..])
  }

  lemma TargetsCons(t: Transaction, ts: seq<Transaction>)
    requires t.ReadBlockTxn? || t.WriteBlockTxn?
    ensures Targets([t] + ts) == [Target(t.command, t.length, t.offset)] + Targets(ts)
  {
    assert ([t] + ts)[1..] == ts;
  }

  /** When every read answer but the last delivers a full 32-byte chunk and
      nothing fails, the read issues as many transactions as the write, to the
      same registers and offsets with the same requested lengths: the two
      loops diverge only after a short read. */
  lemma {:induction false} FullReadsFollowWriteStride(
    addr: u8, len: u8, b: seq<u8>, i: nat, rs: seq<Reply>, ss: seq<int>)
    requires ReadScript(len, i, rs) && WriteScript(len, i, ss) && len <= |b|
    requires forall k :: 0 <= k < |rs| ==> rs[k].Got? && (k == |rs| - 1 || |rs[k].data| == I2C_SMBUS_BLOCK_MAX)
    requires forall k :: 0 <= k < |ss| ==> ss[k] == 0
    ensures |rs| == |ss|
    ensures Targets(ReadTxns(addr, len, i, rs)) == Targets(WriteTxns(addr, len, b, i, ss))
    decreases |rs|
  {
    if i < len {
      var d := rs[0].data;
      var i' := i + I2C_SMBUS_BLOCK_MAX;
      var t := Target((addr + i) % 256, len - i, i);
      var rt := ReadBlockTxn((addr + i) % 256, len - i, i);
      var wt := WriteBlockTxn((addr + i) % 256, len - i, i, Chunk(b, len, i));
      ReadStepGot(addr, len, i, b, [], rs);
      WriteStep(addr, len, b, i, [], ss);
      assert [] + [rt] + ReadTxns(addr, len, i + |d|, rs[1..]) == [rt] + ReadTxns(addr, len, i + |d|, rs[1..]);
      assert [] + [wt] + WriteTxns(addr, len, b, i', ss[1..]) == [wt] + WriteTxns(addr, len, b, i', ss[1..]);
      TargetsCons(rt, ReadTxns(addr, len, i + |d|, rs[1..]));
      TargetsCons(wt, WriteTxns(addr, len, b, i', ss[1..]));
      if |rs| == 1 {
        assert i' >= len && ss[1..] == [];
      } else {
        assert |d| == I2C_SMBUS_BLOCK_MAX;
        FullReadsFollowWriteStride(addr, len, b, i', rs[1..], ss[1..]);
      }
    }
  }
}
