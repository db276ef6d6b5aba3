/** The byte-addressed device under the file system. */
module Disks {
  import opened Bytes

  /** A device of fixed size. `images` is the history of its contents, one image after every write,
      so a power cut leaves the device in one of them. */
  class Disk {
    var bytes: seq<byte>
    ghost var images: seq<seq<byte>>

    ghost predicate Valid()
      reads this
    {
      && images != []
      && images[|images| - 1] == bytes
      && forall k :: 0 <= k < |images| ==> |images[k]| == |bytes|
    }

    constructor (initial: seq<byte>)
      ensures Valid() && bytes == initial && images == [initial]
    {
      bytes, images := initial, [initial];
    }

    /** Positioned read of exactly `n` bytes; a read past the end is an I/O error. */
    method ReadAt(offset: nat, n: nat) returns (r: Result<seq<byte>>)
      ensures r == if offset + n <= |bytes| then Ok(bytes[offset..offset + n]) else Err(Io)
    {
      if offset + n > |bytes| {
        return Err(Io);
      }
      return Ok(bytes[offset..offset + n]);
    }

    /** Positioned write of `data`; a write past the end is an I/O error and changes nothing. */
    method WriteAt(offset: nat, data: seq<byte>) returns (r: Result<()>)
      requires Valid()
      modifies this
      ensures Valid()
      ensures offset + |data| > |old(bytes)| ==> r == Err(Io) && bytes == old(bytes) && images == old(images)
      ensures offset + |data| <= |old(bytes)| ==>
        r == Ok(()) && bytes == Splice(old(bytes), offset, data) && images == old(images) + [bytes]
    {
      if offset + |data| > |bytes| {
        return Err(Io);
      }
      bytes := Splice(bytes, offset, data);
      images := images + [bytes];
      return Ok(());
    }
  }
}
