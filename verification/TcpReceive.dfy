/** The TCP receive loop of the server: a file arrives in chunks cut anywhere. */
module TcpReceive {
  import opened Bytes

  const BUFFER_SIZE: nat := 1024

  /** The cuts rise from 0 to the end of the file. */
  lemma {:induction false} CutsRise(at: seq<nat>, j: nat, k: nat)
    requires j <= k < |at| && forall i :: 0 <= i < |at| - 1 ==> at[i] < at[i + 1]
    ensures j < k ==> at[j] < at[k]
    decreases k - j
  {
    if j < k { CutsRise(at, j, k - 1); }
  }

  /** The file comes in as the first chunks, cut at `at`; what is behind them, if anything, belongs to the next file.
      However it is cut, the loop rebuilds it, never writes past it, and stops with exactly its last chunk. */
  method ReceiveFile(chunks: seq<Bytes>, fileSize: nat, ghost file: Bytes, ghost at: seq<nat>)
      returns (img: array<byte>, used: nat)
    requires forall k :: 0 <= k < |chunks| ==> 0 < |chunks[k]| <= BUFFER_SIZE
    requires fileSize == |file| > 0
    requires 0 < |at| <= |chunks| + 1 && at[0] == 0 && at[|at| - 1] == |file|
    requires forall k :: 0 <= k < |at| - 1 ==>
      at[k + 1] == at[k] + |chunks[k]| <= |file| && file[at[k]..at[k + 1]] == chunks[k]
    ensures img[..] == file && used == |at| - 1
  {
    img := new byte[fileSize];
    var offset: nat := 0;
    used := 0;
    var done := false;
    while !done
      invariant done ==> used == |at| - 1 && img[..] == file
      invariant !done ==> used < |at| - 1 && offset == at[used] < fileSize && img[..offset] == file[..offset]
      decreases |at| - used, if done then 0 else 1
    {
      var buffer := chunks[used];
      var length := |buffer|;
      CutsRise(at, used + 1, |at| - 1);
      if offset + length == fileSize {
        done := true;
      }
      for i := 0 to length
        invariant img[..offset] == file[..offset] && img[offset..offset + i] == buffer[..i]
      {
        img[i + offset] := buffer[i];
      }
      assert img[..offset + length] == img[..offset] + img[offset..offset + length];
      assert file[..offset + length] == file[..offset] + file[offset..offset + length];
      used := used + 1;
      if !done {
        offset := offset + length;
      } else {
        assert img[..offset + length] == img[..] && file[..offset + length] == file;
      }
    }
  }
}
