/** Files as the proxy and the file server use them: whole contents by path,
    written at an offset and never truncated. */
module Files {
  newtype byte = x: int | 0 <= x < 256

  type Bytes = seq<byte>
  type Disk = map<string, Bytes>

  /** File.length: 0 when there is no such file. */
  function Length(disk: Disk, path: string): nat {
    if path in disk then |disk[path]| else 0
  }

  function Content(disk: Disk, path: string): Bytes {
    if path in disk then disk[path] else []
  }

  function Zeros(n: nat): Bytes {
    seq(n, _ => 0)
  }

  /** seek(at) followed by write(data). */
  function Overlay(content: Bytes, at: nat, data: Bytes): Bytes {
    if data == [] then content
    else if at > |content| then content + Zeros(at - |content|) + data
    else content[..at] + data + (if at + |data| <= |content| then content[at + |data|..] else [])
  }

  /** Byte by byte: the new bytes stand at their place, all others are as they
      were, and a gap is filled with zeros. */
  lemma OverlayExact(content: Bytes, at: nat, data: Bytes)
    ensures var after := Overlay(content, at, data);
            && |after| == (if data == [] || at + |data| <= |content| then |content| else at + |data|)
            && forall k :: 0 <= k < |after| ==>
                 after[k] == if at <= k < at + |data| then data[k - at]
                             else if k < |content| then content[k] else 0
  {
  }

  /** One write after the other is one write of both. */
  lemma OverlayOn(content: Bytes, at: nat, first: Bytes, second: Bytes)
    ensures Overlay(Overlay(content, at, first), at + |first|, second) == Overlay(content, at, first + second)
  {
    hide Overlay;
    var once := Overlay(content, at, first);
    OverlayExact(content, at, first);
    OverlayExact(once, at + |first|, second);
    OverlayExact(content, at, first + second);
    var left, right := Overlay(once, at + |first|, second), Overlay(content, at, first + second);
    assert |left| == |right|;
    forall k | 0 <= k < |left| ensures left[k] == right[k] {
    }
  }

  function Created(disk: Disk, path: string): Disk {
    if path in disk then disk else disk[path := []]
  }

  function Written(disk: Disk, path: string, at: nat, data: Bytes): Disk {
    disk[path := Overlay(Content(disk, path), at, data)]
  }

  /** Opening for "rw" creates the file, so does createNewFile. */
  class FileSystem {
    var disk: Disk

    constructor (disk: Disk)
      ensures this.disk == disk
    {
      this.disk := disk;
    }

    method Create(path: string)
      modifies this
      ensures disk == Created(old(disk), path)
    {
      if path !in disk {
        disk := disk[path := []];
      }
    }

    /** FileOutputStream: truncates, then writes. */
    method Replace(path: string, content: Bytes)
      modifies this
      ensures disk == old(disk)[path := content]
    {
      disk := disk[path := content];
    }

    method Delete(path: string)
      modifies this
      ensures disk == old(disk) - {path}
    {
      disk := disk - {path};
    }

    method Write(path: string, at: nat, data: Bytes)
      modifies this
      ensures disk == Written(old(disk), path, at, data)
    {
      disk := disk[path := Overlay(Content(disk, path), at, data)];
    }
  }
}
