/** One timed TPM2_Hash call over a zero-filled buffer of whole 64-byte blocks. */
module HashTimer {
  import opened Common

  /** Bytes per hash block (SHA-256's internal block size). */
  const BlockSize := 64

  /** The largest block count a single call may hash. */
  const MaxBlocks := 16

  /** The TPM's answer to the `call`-th TPM2_Hash command over `buffer`:
      the elapsed wall-clock microseconds, or None when the command failed.
      The clock and the device are outside the model, so they are an input. */
  type Device = (nat, seq<byte>) -> Option<int>

  /** The buffer handed to the TPM for `count` blocks, after the range check. */
  function HashInput(count: int): (r: Result<seq<byte>>)
    ensures r.Err? <==> count < 0 || count > MaxBlocks
    ensures r.Err? ==> r.error == InvalidCount(count)
    ensures r.Ok? ==> |r.value| == BlockSize * count
    ensures r.Ok? ==> forall i | 0 <= i < |r.value| :: r.value[i] == 0
  {
    if count < 0 || count > MaxBlocks then Err(InvalidCount(count))
    else Ok(seq(BlockSize * count, _ => 0))
  }

  /** Times the `call`-th hash command over `count` blocks. An invalid count is
      rejected before the device is asked; a device failure becomes HashFailed. */
  function Hash(device: Device, call: nat, count: int): (r: Result<int>)
    ensures (count < 0 || count > MaxBlocks) ==> r == Err(InvalidCount(count))
    ensures 0 <= count <= MaxBlocks && device(call, seq(BlockSize * count, _ => 0)).Some? ==>
      r == Ok(device(call, seq(BlockSize * count, _ => 0)).value)
    ensures 0 <= count <= MaxBlocks && device(call, seq(BlockSize * count, _ => 0)).None? ==>
      r == Err(HashFailed)
  {
    match HashInput(count)
    case Err(e) => Err(e)
    case Ok(data) =>
      match device(call, data)
      case None => Err(HashFailed)
      case Some(micros) => Ok(micros)
  }
}
