/** BLAKE3 outputs as free terms: equal only when the same thing was hashed. */
module Hashes {
  import opened Bytes

  datatype Hash =
    | Leaf(data: seq<byte>)                // blake3(0x00 || data)
    | Node(left: Hash, right: Hash)        // blake3(0x01 || left || right)
    | HeaderHash(epoch: u64, prevHash: Hash, merkleRoot: Hash, nMessages: u32, createdUnix: u64)
    | EmptyRoot                            // the root of no leaves
    | Zeros                                // what the first block points back to
}
