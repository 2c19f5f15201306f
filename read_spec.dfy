/** What the chunked register read of the ft5x0x I2C binding does, as functions
    of the replies its SMBus adapter gives: the transactions it issues, the
    buffer it leaves and the status it returns. Each function starts from the
    state of the loop after `i` bytes have been fetched. */
module ReadSpec {
  import opened Kernel

  /** `rs` is exactly the sequence of answers the adapter gives to a read of `len`
      bytes that has fetched `i` of them: each answer is a negative errno (which
      ends the read) or between 1 and min(len - i, 32) bytes, and the script ends
      where the read does. The lower bound 1 is the positive progress the loop
      needs to terminate; the primitive itself may answer 0 (see ZeroCountStalls). */
  predicate ReadScript(len: u8, i: nat, rs: seq<Reply>)
    decreases |rs|
  {
    if i >= len then rs == []
    else
      rs != [] &&
      match rs[0]
      case Failed(e) => e < 0 && |rs| == 1
      case Got(d) => 0 < |d| <= Min(len - i, I2C_SMBUS_BLOCK_MAX) && ReadScript(len, i + |d|, rs[1..])
  }

  /** The transactions the loop issues, from offset `i`, while the answers `rs`
      last: each targets register (addr + i) mod 256, buffer offset i, and asks
      for the len - i bytes still missing; an error or the last byte ends it. */
  function ReadTxns(addr: u8, len: u8, i: nat, rs: seq<Reply>): (ts: seq<Transaction>)
    ensures |ts| <= |rs|
    decreases |rs|
  {
    if i >= len || rs == [] then []
    else
      [ReadBlockTxn((addr + i) % 256, len - i, i)] +
      match rs[0]
      case Failed(_) => []
      case Got(d) => ReadTxns(addr, len, i + |d|, rs[1..])
  }

  /** Whether the loop, from offset `i`, leaves before the answers `rs` run out. */
  predicate ReadFinishes(len: u8, i: nat, rs: seq<Reply>)
    decreases |rs|
  {
    i >= len ||
    (rs != [] &&
     match rs[0]
     case Failed(_) => true
     case Got(d) => ReadFinishes(len, i + |d|, rs[1..]))
  }

  /** The caller's buffer after the read, from offset `i` and contents `b`. */
  function ReadImage(len: u8, i: nat, b: seq<u8>, rs: seq<Reply>): (r: seq<u8>)
    requires ReadScript(len, i, rs) && len <= |b|
    ensures |r| == |b|
    decreases |rs|
  {
    if i >= len then b
    else
      match rs[0]
      case Failed(_) => b
      case Got(d) => ReadImage(len, i + |d|, Splice(b, i, d), rs[1..])
  }

  /** The status the read returns, from offset `i`. */
  function ReadStatus(len: u8, i: nat, rs: seq<Reply>): (status: int)
    requires ReadScript(len, i, rs)
    decreases |rs|
  {
    if i >= len then 0
    else
      match rs[0]
      case Failed(e) => e
      case Got(d) => ReadStatus(len, i + |d|, rs[1..])
  }

  /** One turn of the loop on a successful answer: after `log`, one transaction,
      the bytes placed at offset i, and the rest of the read continues from
      i + count. */
  lemma ReadStepGot(addr: u8, len: u8, i: nat, b: seq<u8>, log: seq<Transaction>, rs: seq<Reply>)
    requires ReadScript(len, i, rs) && len <= |b| && i < len && rs[0].Got?
    ensures ReadScript(len, i + |rs[0].data|, rs[1..])
    ensures i + |rs[0].data| <= len
    ensures log + [ReadBlockTxn((addr + i) % 256, len - i, i)] + ReadTxns(addr, len, i + |rs[0].data|, rs[1..])
         == log + ReadTxns(addr, len, i, rs)
    ensures ReadImage(len, i + |rs[0].data|, Splice(b, i, rs[0].data), rs[1..]) == ReadImage(len, i, b, rs)
    ensures ReadStatus(len, i + |rs[0].data|, rs[1..]) == ReadStatus(len, i, rs)
  {
  }

  /** One turn of the loop on an error: after `log`, the last transaction, the
      buffer left alone, and the errno as the status. */
  lemma ReadStepFailed(addr: u8, len: u8, i: nat, b: seq<u8>, log: seq<Transaction>, rs: seq<Reply>)
    requires ReadScript(len, i, rs) && len <= |b| && i < len && rs[0].Failed?
    ensures rs[1..] == []
    ensures log + [ReadBlockTxn((addr + i) % 256, len - i, i)] == log + ReadTxns(addr, len, i, rs)
    ensures ReadImage(len, i, b, rs) == b
    ensures ReadStatus(len, i, rs) == rs[0].code < 0
  {
  }

  /** The number of bytes the successful answers in `rs` delivered. */
  function Fetched(rs: seq<Reply>): (n: nat)
  {
    if rs == [] then 0 else (if rs[0].Got? then |rs[0].data| else 0) + Fetched(rs[1..])
  }

  /** The bytes the successful answers in `rs` delivered, in order. */
  function Chunks(rs: seq<Reply>): (c: seq<u8>)
    ensures |c| == Fetched(rs)
  {
    if rs == [] then [] else (if rs[0].Got? then rs[0].data else []) + Chunks(rs[1..])
  }

  /** The first k answers are the first answer followed by k - 1 of the rest. */
  lemma PrefixTail(rs: seq<Reply>, k: nat)
    requires 0 < k <= |rs|
    ensures rs[..k][0] == rs[0] && rs[..k][1..] == rs[1..][..k - 1]
  {
  }

  /** A script issues one transaction per answer, and the read ends with it. */
  lemma {:induction false} ReadTransactionCount(addr: u8, len: u8, i: nat, rs: seq<Reply>)
    requires ReadScript(len, i, rs)
    ensures |ReadTxns(addr, len, i, rs)| == |rs|
    ensures ReadFinishes(len, i, rs)
    decreases |rs|
  {
    if i < len && rs[0].Got? {
      ReadTransactionCount(addr, len, i + |rs[0].data|, rs[1..]);
    }
  }

  /** Transaction k of a read is preceded only by successful ones, and targets
      register (addr + f) mod 256 and buffer offset f asking for len - f bytes,
      where f is the byte count the earlier k transactions returned. */
  lemma {:induction false} ReadTransactionAt(addr: u8, len: u8, i: nat, rs: seq<Reply>, k: nat)
    requires ReadScript(len, i, rs) && k < |rs|
    ensures forall j :: 0 <= j < k ==> rs[j].Got?
    ensures i + Fetched(rs[..k]) < len
    ensures k < |ReadTxns(addr, len, i, rs)|
    ensures ReadTxns(addr, len, i, rs)[k]
         == ReadBlockTxn((addr + i + Fetched(rs[..k])) % 256, len - i - Fetched(rs[..k]), i + Fetched(rs[..k]))
    decreases k
  {
    ReadTransactionCount(addr, len, i, rs);
    if k == 0 {
      assert rs[..0] == [];
    } else {
      var d := rs[0].data;
      ReadTransactionAt(addr, len, i + |d|, rs[1..], k - 1);
      PrefixTail(rs, k);
      assert Fetched(rs[..k]) == |d| + Fetched(rs[1..][..k - 1]);
    }
  }

  /** When no transaction fails the read fetches exactly `len` bytes in at least
      ceil(len / 32) transactions, fills buf[i..len) with the delivered chunks in
      order, leaves the rest of the buffer alone and returns 0. */
  lemma {:induction false} ReadCompletes(len: u8, i: nat, b: seq<u8>, rs: seq<Reply>)
    requires ReadScript(len, i, rs) && len <= |b| && i <= len
    requires forall k :: 0 <= k < |rs| ==> rs[k].Got?
    ensures i + Fetched(rs) == len
    ensures |rs| * I2C_SMBUS_BLOCK_MAX >= len - i
    ensures ReadImage(len, i, b, rs) == b[..i] + Chunks(rs) + b[len..]
    ensures ReadStatus(len, i, rs) == 0
    decreases |rs|
  {
    if i < len {
      var d := rs[0].data;
      var b' := Splice(b, i, d);
      ReadCompletes(len, i + |d|, b', rs[1..]);
      SpliceSlices(b, i, d, len);
      assert Chunks(rs) == d + Chunks(rs[1..]);
      assert ReadImage(len, i, b, rs) == (b[..i] + d) + Chunks(rs[1..]) + b[len..];
    }
  }

  /** When transaction k fails it is the last one, the read returns its errno
      verbatim, and the buffer holds the chunks of the k earlier transactions
      (not rolled back) with every byte from their end on untouched. */
  lemma {:induction false} ReadFailure(len: u8, i: nat, b: seq<u8>, rs: seq<Reply>, k: nat)
    requires ReadScript(len, i, rs) && len <= |b| && i <= len
    requires k < |rs| && rs[k].Failed?
    ensures k == |rs| - 1
    ensures ReadStatus(len, i, rs) == rs[k].code < 0
    ensures i + Fetched(rs[..k]) < len
    ensures ReadImage(len, i, b, rs) == b[..i] + Chunks(rs[..k]) + b[i + Fetched(rs[..k])..]
    decreases |rs|
  {
    if k == 0 {
      assert rs[..0] == [];
    } else {
      var d := rs[0].data;
      var b' := Splice(b, i, d);
      ReadFailure(len, i + |d|, b', rs[1..], k - 1);
      PrefixTail(rs, k);
      var f := Fetched(rs[1..][..k - 1]);
      assert Chunks(rs[..k]) == d + Chunks(rs[1..][..k - 1]);
      assert Fetched(rs[..k]) == |d| + f;
      SpliceSlices(b, i, d, i + |d| + f);
      assert ReadImage(len, i, b, rs) == (b[..i] + d) + Chunks(rs[1..][..k - 1]) + b[i + |d| + f..];
    }
  }

  /** The read returns 0 exactly when none of its transactions failed, and a
      negative errno otherwise. */
  lemma {:induction false} ReadSucceedsIff(len: u8, rs: seq<Reply>)
    requires ReadScript(len, 0, rs)
    ensures ReadStatus(len, 0, rs) <= 0
    ensures ReadStatus(len, 0, rs) == 0 <==> forall k :: 0 <= k < |rs| ==> rs[k].Got?
  {
    var b := seq(len, _ => 0);
    if k :| 0 <= k < |rs| && rs[k].Failed? {
      ReadFailure(len, 0, b, rs, k);
    } else {
      ReadCompletes(len, 0, b, rs);
    }
  }

  /** The loop has no guard against a zero count: answers that deliver no bytes
      leave the offset where it was, so however many of them the adapter gives,
      the loop repeats the identical transaction and never finishes. */
  lemma {:induction false} ZeroCountStalls(addr: u8, len: u8, i: nat, rs: seq<Reply>)
    requires i < len
    requires forall k :: 0 <= k < |rs| ==> rs[k] == Got([])
    ensures ReadTxns(addr, len, i, rs) == seq(|rs|, _ => ReadBlockTxn((addr + i) % 256, len - i, i))
    ensures !ReadFinishes(len, i, rs)
    decreases |rs|
  {
    if rs != [] {
      ZeroCountStalls(addr, len, i, rs[1..]);
    }
  }
}
