/** Fixed-width integers, limits, flags and error numbers shared by every part of the semaphore service. */
module SemTypes {

  type u8 = x: int | 0 <= x < 0x100
  type u16 = x: int | 0 <= x < 0x1_0000
  type u32 = x: int | 0 <= x < 0x1_0000_0000
  type u64 = x: int | 0 <= x < 0x1_0000_0000_0000_0000
  type i16 = x: int | -0x8000 <= x < 0x8000
  type i32 = x: int | -0x8000_0000 <= x < 0x8000_0000
  type i64 = x: int | -0x8000_0000_0000_0000 <= x < 0x8000_0000_0000_0000

  const INT_MAX := 0x7fff_ffff
  const UINT32_MAX := 0xffff_ffff
  const INT64_MAX := 0x7fff_ffff_ffff_ffff

  // Limits of the store.
  const MAX_SETS := 128
  const MAX_PER_SET := 512
  const MAX_VALUE := 32767
  const MAX_UNDO := 4096
  const MAX_GENERATION := 0x7fff
  const OP_BLOCKED := 1

  // Flags (octal 01000, 02000, 04000 and 010000 in the C headers).
  const IPC_PRIVATE := 0
  const IPC_CREAT := 0x200
  const IPC_EXCL := 0x400
  const IPC_NOWAIT := 0x800
  const SEM_UNDO := 0x1000

  // Error numbers of the AArch64 Linux ABI; results carry them negated.
  const EPERM := 1
  const ENOENT := 2
  const EINTR := 4
  const EAGAIN := 11
  const ENOMEM := 12
  const EEXIST := 17
  const EINVAL := 22
  const ENOSPC := 28
  const EPIPE := 32
  const ERANGE := 34
  const ENOSYS := 38
  const EPROTO := 71
  const EOVERFLOW := 75
  const EMSGSIZE := 90
  const ECONNRESET := 104

  datatype Option<+T> = None | Some(value: T)

  datatype Result<+T> = Ok(value: T) | Err(errno: int)

  /** One bit of a flag word; Euclidean division makes this the two's complement bit for negative words too. */
  predicate HasFlag(flags: int, bit: int)
    requires bit > 0
  {
    flags / bit % 2 == 1
  }

  /** A flag is set exactly when the word has a one at that place: `high` holds the bits above it and `low` those
      below. */
  lemma FlagMeaning(flags: int, bit: int, high: int, one: bool, low: int)
    requires bit == 0x200 || bit == 0x400 || bit == 0x800 || bit == 0x1000
    requires 0 <= low < bit && flags == 2 * bit * high + (if one then bit else 0) + low
    ensures HasFlag(flags, bit) <==> one
  {
    assert flags / bit == 2 * high + if one then 1 else 0;
  }

  /** One entry of a semop batch. */
  datatype SemOp = SemOp(semNum: u16, op: i16, flg: u16) {
    predicate NoWait() { HasFlag(flg, IPC_NOWAIT) }
    predicate Undo() { HasFlag(flg, SEM_UNDO) }

    /** No bit outside IPC_NOWAIT | SEM_UNDO is set. */
    predicate KnownFlags() { flg % IPC_NOWAIT == 0 && flg < 4 * IPC_NOWAIT }
  }

  datatype Identity = Identity(uid: u32, gid: u32)

  /** The semaphore a blocked batch waits on, and whether it waits for zero. */
  datatype WaitReason = WaitReason(semNum: u16, forZero: bool)
}
