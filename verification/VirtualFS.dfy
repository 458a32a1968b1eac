/** The in-memory file system: inodes, bitmap and data blocks, kept in step with a map from
    file name to bytes. */
module FileSystem {
  import opened Collections

  newtype byte = x: int | 0 <= x < 256

  const BlockSize := 64
  const MaxBlocks := 128
  const MaxFiles := 32
  const MaxName := 32
  const BlocksPerFile := 8

  type Block = b: seq<byte> | |b| == BlockSize witness seq(BlockSize, _ => 0)

  type BlockId = b: nat | b < MaxBlocks

  function ZeroBlock(): Block {
    seq(BlockSize, _ => 0)
  }

  /** The blocks of an inode are its block list up to the block count. */
  datatype Inode = Inode(used: bool, name: string, size: nat, blocks: seq<BlockId>)

  const NoFile := Inode(false, "", 0, [])

  datatype Disk = Disk(inodes: seq<Inode>, bitmap: seq<bool>, blocks: seq<Block>)

  predicate ValidName(name: string) {
    0 < |name| < MaxName
  }

  /** The least number of blocks that hold so many bytes. */
  function Needed(bytes: nat): (n: nat)
    ensures bytes <= BlockSize * n
    ensures n > 0 ==> BlockSize * (n - 1) < bytes
  {
    (bytes + BlockSize - 1) / BlockSize
  }

  lemma RoomFor(bytes: nat, blocks: nat)
    ensures Needed(bytes) <= blocks <==> bytes <= BlockSize * blocks
  {
  }

  function Min(a: nat, b: nat): nat {
    if a <= b then a else b
  }

  /** The first n bytes spread over a list of blocks. */
  function Gather(rows: seq<Block>, blocks: seq<BlockId>, n: nat): (bytes: seq<byte>)
    requires |rows| == MaxBlocks
    ensures |bytes| <= n
  {
    if blocks == [] || n == 0 then []
    else
      var chunk := Min(BlockSize, n);
      rows[blocks[0]][..chunk] + Gather(rows, blocks[1..], n - chunk)
  }

  // ---- the invariant ----

  ghost predicate Shaped(d: Disk) {
    |d.inodes| == MaxFiles && |d.bitmap| == MaxBlocks && |d.blocks| == MaxBlocks
  }

  ghost predicate InodeOk(node: Inode) {
    && NoDup(node.blocks)
    && if node.used then
         ValidName(node.name) && |node.blocks| <= BlocksPerFile && node.size <= BlockSize * |node.blocks|
       else node == NoFile
  }

  /** Each set bit is owned by exactly one slot of one inode in use; free blocks are zero. */
  ghost predicate Owned(d: Disk)
    requires Shaped(d)
  {
    && (forall i, b :: 0 <= i < MaxFiles && b in d.inodes[i].blocks ==> d.bitmap[b])
    && (forall b :: 0 <= b < MaxBlocks && d.bitmap[b] ==> exists i :: 0 <= i < MaxFiles && b in d.inodes[i].blocks)
    && (forall i, j, b :: 0 <= i < j < MaxFiles && b in d.inodes[i].blocks ==> b !in d.inodes[j].blocks)
    && (forall b :: 0 <= b < MaxBlocks && !d.bitmap[b] ==> d.blocks[b] == ZeroBlock())
  }

  ghost predicate Named(inodes: seq<Inode>) {
    forall i, j :: 0 <= i < |inodes| && 0 <= j < |inodes| && i != j && inodes[i].used && inodes[j].used ==>
      inodes[i].name != inodes[j].name
  }

  ghost predicate Sound(d: Disk) {
    && Shaped(d) && Owned(d) && Named(d.inodes)
    && forall i :: 0 <= i < MaxFiles ==> InodeOk(d.inodes[i])
  }

  function Content(d: Disk, i: nat): seq<byte>
    requires Shaped(d) && i < MaxFiles
  {
    Gather(d.blocks, d.inodes[i].blocks, d.inodes[i].size)
  }

  ghost predicate IsFile(d: Disk, i: nat, name: string)
    requires Shaped(d)
  {
    i < MaxFiles && d.inodes[i].used && d.inodes[i].name == name
  }

  /** The disk stores exactly these files. */
  ghost predicate Stores(d: Disk, files: map<string, seq<byte>>)
    requires Shaped(d)
  {
    && (forall i: nat, name :: IsFile(d, i, name) ==> name in files && files[name] == Content(d, i))
    && (forall name :: name in files ==> exists i: nat :: IsFile(d, i, name))
  }

  // ---- counting ----

  function FreeCount(bitmap: seq<bool>): nat {
    if bitmap == [] then 0 else (if bitmap[0] then 0 else 1) + FreeCount(bitmap[1..])
  }

  lemma {:induction false} FlipBit(bitmap: seq<bool>, b: nat, v: bool)
    requires b < |bitmap| && bitmap[b] != v
    ensures FreeCount(bitmap[b := v]) == FreeCount(bitmap) + (if v then -1 else 1)
  {
    if b == 0 {
      assert bitmap[b := v][1..] == bitmap[1..];
    } else {
      assert bitmap[b := v][1..] == bitmap[1..][b - 1 := v];
      FlipBit(bitmap[1..], b - 1, v);
    }
  }

  lemma {:induction false} NoneFree(bitmap: seq<bool>)
    requires forall b :: 0 <= b < |bitmap| ==> bitmap[b]
    ensures FreeCount(bitmap) == 0
  {
    if bitmap != [] {
      NoneFree(bitmap[1..]);
    }
  }

  lemma {:induction false} AllFree(bitmap: seq<bool>)
    requires forall b :: 0 <= b < |bitmap| ==> !bitmap[b]
    ensures FreeCount(bitmap) == |bitmap|
  {
    if bitmap != [] {
      AllFree(bitmap[1..]);
    }
  }

  /** How many blocks the file of that name has. */
  function BlocksOf(inodes: seq<Inode>, name: string): nat {
    if inodes == [] then 0
    else if inodes[0].used && inodes[0].name == name then |inodes[0].blocks|
    else BlocksOf(inodes[1..], name)
  }

  lemma {:induction false} BlocksOfAt(inodes: seq<Inode>, i: nat)
    requires i < |inodes| && inodes[i].used && Named(inodes)
    ensures BlocksOf(inodes, inodes[i].name) == |inodes[i].blocks|
  {
    if i > 0 {
      BlocksOfAt(inodes[1..], i - 1);
    }
  }

  function Names(inodes: seq<Inode>): set<string> {
    if inodes == [] then {}
    else (if inodes[0].used then {inodes[0].name} else {}) + Names(inodes[1..])
  }

  lemma {:induction false} NameIn(inodes: seq<Inode>, i: nat)
    requires i < |inodes| && inodes[i].used
    ensures inodes[i].name in Names(inodes)
  {
    if i > 0 {
      NameIn(inodes[1..], i - 1);
    }
  }

  lemma {:induction false} NameFrom(inodes: seq<Inode>, name: string) returns (i: nat)
    requires name in Names(inodes)
    ensures i < |inodes| && inodes[i].used && inodes[i].name == name
  {
    if inodes[0].used && inodes[0].name == name {
      i := 0;
    } else {
      i := NameFrom(inodes[1..], name);
      i := i + 1;
    }
  }

  lemma {:induction false} NamesSize(inodes: seq<Inode>)
    requires Named(inodes)
    ensures |Names(inodes)| <= |inodes|
    ensures |Names(inodes)| == |inodes| <==> forall i :: 0 <= i < |inodes| ==> inodes[i].used
  {
    if inodes != [] {
      var t := inodes[1..];
      NamesSize(t);
      assert forall i :: 0 <= i < |t| ==> t[i] == inodes[i + 1];
      if inodes[0].used && inodes[0].name in Names(t) {
        var i := NameFrom(t, inodes[0].name);
        assert false;
      }
    }
  }

  /** The inode table has room exactly when there are fewer than 32 files. */
  lemma RoomForFile(d: Disk, files: map<string, seq<byte>>)
    requires Shaped(d) && Named(d.inodes) && Stores(d, files)
    ensures |files| <= MaxFiles
    ensures |files| < MaxFiles <==> exists i :: 0 <= i < MaxFiles && !d.inodes[i].used
  {
    NamesSize(d.inodes);
    FilesAreNames(d, files);
    assert |files| == |files.Keys|;
  }

  lemma FilesAreNames(d: Disk, files: map<string, seq<byte>>)
    requires Shaped(d) && Named(d.inodes) && Stores(d, files)
    ensures files.Keys == Names(d.inodes)
  {
    forall name ensures name in files.Keys <==> name in Names(d.inodes) {
      if name in files {
        var i: nat :| IsFile(d, i, name);
        NameIn(d.inodes, i);
      }
      if name in Names(d.inodes) {
        var i := NameFrom(d.inodes, name);
        assert IsFile(d, i, name);
      }
    }
  }

  // ---- contents ----

  lemma {:induction false} GatherSame(rows: seq<Block>, rows': seq<Block>, blocks: seq<BlockId>, n: nat)
    requires |rows| == |rows'| == MaxBlocks
    requires forall b :: b in blocks ==> rows'[b] == rows[b]
    ensures Gather(rows', blocks, n) == Gather(rows, blocks, n)
  {
    if blocks != [] && n > 0 {
      assert blocks[0] in blocks;
      GatherSame(rows, rows', blocks[1..], n - Min(BlockSize, n));
    }
  }

  lemma GatherNext(rows: seq<Block>, blocks: seq<BlockId>, i: nat, n: nat)
    requires |rows| == MaxBlocks && i < |blocks| && n > 0
    ensures Gather(rows, blocks[i..], n) ==
            rows[blocks[i]][..Min(BlockSize, n)] + Gather(rows, blocks[i + 1..], n - Min(BlockSize, n))
  {
    assert blocks[i..][1..] == blocks[i + 1..];
  }

  lemma GatherNothing(rows: seq<Block>, blocks: seq<BlockId>, n: nat)
    requires |rows| == MaxBlocks && (blocks == [] || n == 0)
    ensures Gather(rows, blocks, n) == []
  {
  }

  /** The part of the data that goes into slot s. */
  function Chunk(data: seq<byte>, s: nat): (c: seq<byte>)
    ensures |c| <= BlockSize
  {
    data[Min(BlockSize * s, |data|)..Min(BlockSize * (s + 1), |data|)]
  }

  ghost predicate Carries(row: Block, chunk: seq<byte>) {
    chunk <= row
  }

  lemma NextChunk(data: seq<byte>, s: nat)
    requires BlockSize * (s + 1) <= |data|
    ensures Chunk(data[BlockSize..], s) == Chunk(data, s + 1)
  {
    assert data[BlockSize..][BlockSize * s..] == data[BlockSize * (s + 1)..];
  }

  /** Data cut into chunks over as many blocks as it needs reads back whole. */
  lemma {:induction false} GatherWritten(rows: seq<Block>, blocks: seq<BlockId>, data: seq<byte>)
    requires |rows| == MaxBlocks && |blocks| == Needed(|data|)
    requires forall s :: 0 <= s < |blocks| ==> Carries(rows[blocks[s]], Chunk(data, s))
    ensures Gather(rows, blocks, |data|) == data
    decreases |data|
  {
    if data != [] {
      var n := Min(BlockSize, |data|);
      var rest := data[n..];
      assert Carries(rows[blocks[0]], Chunk(data, 0));
      forall s | 0 <= s < |blocks| - 1 ensures Carries(rows[blocks[1..][s]], Chunk(rest, s)) {
        assert Carries(rows[blocks[s + 1]], Chunk(data, s + 1));
        NextChunk(data, s);
      }
      GatherWritten(rows, blocks[1..], rest);
      assert data == data[..n] + rest;
    }
  }

  // ---- what the operations do to the disk ----

  /** Inode i gives up its blocks, which are cleared. */
  ghost predicate Erased(d: Disk, i: nat, d': Disk)
    requires Shaped(d) && Shaped(d') && i < MaxFiles
  {
    && d'.inodes == d.inodes[i := d.inodes[i].(size := 0, blocks := [])]
    && (forall b :: 0 <= b < MaxBlocks ==> d'.bitmap[b] == (d.bitmap[b] && b !in d.inodes[i].blocks))
    && (forall b :: 0 <= b < MaxBlocks ==> d'.blocks[b] == if b in d.inodes[i].blocks then ZeroBlock() else d.blocks[b])
  }

  lemma ErasedKeeps(d: Disk, i: nat, d': Disk)
    requires Sound(d) && Shaped(d') && i < MaxFiles && Erased(d, i, d')
    ensures Sound(d') && OthersKept(d, i, d') && Content(d', i) == []
  {
    forall j | 0 <= j < MaxFiles && j != i ensures Content(d', j) == Content(d, j) {
      GatherSame(d.blocks, d'.blocks, d.inodes[j].blocks, d.inodes[j].size);
    }
    forall b: nat | b < MaxBlocks && d'.bitmap[b] ensures exists k :: 0 <= k < MaxFiles && b in d'.inodes[k].blocks {
      var k :| 0 <= k < MaxFiles && b in d.inodes[k].blocks;
      assert b in d'.inodes[k].blocks;
    }
  }

  /** Inode i gains the free block b, with the chunk at its front. */
  ghost predicate Extended(d: Disk, i: nat, b: BlockId, chunk: seq<byte>, d': Disk)
    requires Shaped(d) && Shaped(d') && i < MaxFiles && |chunk| <= BlockSize
  {
    && d'.inodes == d.inodes[i := d.inodes[i].(blocks := d.inodes[i].blocks + [b])]
    && d'.bitmap == d.bitmap[b := true]
    && d'.blocks == d.blocks[b := chunk + d.blocks[b][|chunk|..]]
  }

  lemma ExtendedKeeps(d: Disk, i: nat, b: BlockId, chunk: seq<byte>, d': Disk)
    requires Sound(d) && Shaped(d') && i < MaxFiles && |chunk| <= BlockSize && Extended(d, i, b, chunk, d')
    requires !d.bitmap[b] && d.inodes[i].used && d.inodes[i].size == 0 && |d.inodes[i].blocks| < BlocksPerFile
    ensures Sound(d') && OthersKept(d, i, d') && Content(d', i) == [] && b !in d.inodes[i].blocks
  {
    forall j | 0 <= j < MaxFiles && j != i ensures Content(d', j) == Content(d, j) {
      GatherSame(d.blocks, d'.blocks, d.inodes[j].blocks, d.inodes[j].size);
    }
    assert b !in d.inodes[i].blocks;
    assert forall c :: c in d'.inodes[i].blocks <==> c in d.inodes[i].blocks || c == b;
    forall c: nat | c < MaxBlocks && d'.bitmap[c] ensures exists k :: 0 <= k < MaxFiles && c in d'.inodes[k].blocks {
      if c == b {
        assert c in d'.inodes[i].blocks;
      } else {
        var k :| 0 <= k < MaxFiles && c in d.inodes[k].blocks;
        assert c in d'.inodes[k].blocks;
      }
    }
  }

  /** The same blocks, bits and owners: only names and sizes may differ. */
  lemma OwnedStays(d: Disk, d': Disk)
    requires Shaped(d) && Owned(d) && Shaped(d') && d'.bitmap == d.bitmap && d'.blocks == d.blocks
    requires forall j :: 0 <= j < MaxFiles ==> d'.inodes[j].blocks == d.inodes[j].blocks
    ensures Owned(d')
  {
    forall b: nat | b < MaxBlocks && d'.bitmap[b] ensures exists k :: 0 <= k < MaxFiles && b in d'.inodes[k].blocks {
      var k :| 0 <= k < MaxFiles && b in d.inodes[k].blocks;
      assert b in d'.inodes[k].blocks;
    }
  }

  ghost predicate OthersKept(d: Disk, i: nat, d': Disk)
    requires Shaped(d) && Shaped(d')
  {
    forall j :: 0 <= j < MaxFiles && j != i ==> d'.inodes[j] == d.inodes[j] && Content(d', j) == Content(d, j)
  }

  /** Only inode i changes, and keeps its name: the map of files changes in one place. */
  lemma StoresUpdate(d: Disk, i: nat, d': Disk, files: map<string, seq<byte>>, name: string)
    requires Shaped(d) && Named(d.inodes) && Shaped(d') && Stores(d, files) && OthersKept(d, i, d')
    requires IsFile(d, i, name) && IsFile(d', i, name)
    ensures Stores(d', files[name := Content(d', i)])
  {
    var files' := files[name := Content(d', i)];
    forall j: nat, n | IsFile(d', j, n) ensures n in files' && files'[n] == Content(d', j) {
      if j != i { assert IsFile(d, j, n); }
    }
    forall n | n in files' ensures exists k: nat :: IsFile(d', k, n) {
      if n == name {
        assert IsFile(d', i, n);
      } else {
        var k: nat :| IsFile(d, k, n);
        assert IsFile(d', k, n);
      }
    }
  }

  /** An inode comes into use under a new name. */
  lemma StoresMore(d: Disk, i: nat, d': Disk, files: map<string, seq<byte>>, name: string)
    requires Shaped(d) && Shaped(d') && Stores(d, files) && OthersKept(d, i, d')
    requires i < MaxFiles && !d.inodes[i].used && IsFile(d', i, name) && name !in files
    ensures Stores(d', files[name := Content(d', i)])
  {
    var files' := files[name := Content(d', i)];
    forall j: nat, n | IsFile(d', j, n) ensures n in files' && files'[n] == Content(d', j) {
      if j != i { assert IsFile(d, j, n); }
    }
    forall n | n in files' ensures exists k: nat :: IsFile(d', k, n) {
      if n == name {
        assert IsFile(d', i, n);
      } else {
        var k: nat :| IsFile(d, k, n);
        assert IsFile(d', k, n);
      }
    }
  }

  /** An inode goes out of use. */
  lemma StoresLess(d: Disk, i: nat, d': Disk, files: map<string, seq<byte>>, name: string)
    requires Shaped(d) && Named(d.inodes) && Shaped(d') && Stores(d, files) && OthersKept(d, i, d')
    requires IsFile(d, i, name) && !d'.inodes[i].used
    ensures Stores(d', files - {name})
  {
    forall j: nat, n | IsFile(d', j, n) ensures n in files - {name} && files[n] == Content(d', j) {
      assert IsFile(d, j, n);
    }
    forall n | n in files - {name} ensures exists k: nat :: IsFile(d', k, n) {
      var k: nat :| IsFile(d, k, n);
      assert IsFile(d', k, n);
    }
  }

  lemma SameRest(d: Disk, i: nat, node: Inode)
    requires Shaped(d) && i < MaxFiles
    ensures OthersKept(d, i, d.(inodes := d.inodes[i := node]))
  {
  }

  /** A free inode gets a name and no data. */
  lemma CreatedKeeps(d: Disk, i: nat, name: string, files: map<string, seq<byte>>)
    requires Sound(d) && Stores(d, files) && i < MaxFiles && !d.inodes[i].used && ValidName(name) && name !in files
    ensures var d' := d.(inodes := d.inodes[i := Inode(true, name, 0, [])]);
            Sound(d') && Stores(d', files[name := []])
  {
    var d' := d.(inodes := d.inodes[i := Inode(true, name, 0, [])]);
    OwnedStays(d, d');
    SameRest(d, i, d'.inodes[i]);
    assert IsFile(d', i, name);
    StoresMore(d, i, d', files, name);
    forall j: nat | j < MaxFiles && d.inodes[j].used ensures d.inodes[j].name != name {
      assert IsFile(d, j, d.inodes[j].name);
    }
  }

  /** Replacing an inode by one with the same blocks, and no new name. */
  lemma SoundReplace(d: Disk, i: nat, node: Inode)
    requires Sound(d) && i < MaxFiles && d.inodes[i].used && node.blocks == d.inodes[i].blocks && InodeOk(node)
    requires node.used ==> node.name == d.inodes[i].name
    ensures Sound(d.(inodes := d.inodes[i := node]))
  {
    OwnedStays(d, d.(inodes := d.inodes[i := node]));
  }

  /** An inode without blocks is given up. */
  lemma RemovedKeeps(d: Disk, i: nat, files: map<string, seq<byte>>, name: string)
    requires Sound(d) && Stores(d, files) && IsFile(d, i, name) && d.inodes[i].blocks == []
    ensures var d' := d.(inodes := d.inodes[i := NoFile]);
            Sound(d') && Stores(d', files - {name})
  {
    SoundReplace(d, i, NoFile);
    SameRest(d, i, NoFile);
    StoresLess(d, i, d.(inodes := d.inodes[i := NoFile]), files, name);
  }

  /** Setting the size of a file whose blocks carry the data makes it read back as the data. */
  lemma SizedKeeps(d: Disk, i: nat, data: seq<byte>, files: map<string, seq<byte>>, name: string)
    requires Sound(d) && Stores(d, files) && IsFile(d, i, name)
    requires |d.inodes[i].blocks| == Needed(|data|)
    requires forall s :: 0 <= s < |d.inodes[i].blocks| ==> Carries(d.blocks[d.inodes[i].blocks[s]], Chunk(data, s))
    ensures var d' := d.(inodes := d.inodes[i := d.inodes[i].(size := |data|)]);
            Sound(d') && Stores(d', files[name := data])
  {
    var node := d.inodes[i].(size := |data|);
    SoundReplace(d, i, node);
    SameRest(d, i, node);
    GatherWritten(d.blocks, node.blocks, data);
    StoresUpdate(d, i, d.(inodes := d.inodes[i := node]), files, name);
  }

  lemma EmptyFile(d: Disk, i: nat, files: map<string, seq<byte>>, name: string)
    requires Shaped(d) && Stores(d, files) && IsFile(d, i, name) && d.inodes[i].size == 0
    ensures files[name := []] == files
  {
    assert files[name] == Content(d, i) == [];
  }

  class VirtualFS {
    const inodes: array<Inode>
    const bitmap: array<bool>
    const blocks: array<Block>
    ghost var files: map<string, seq<byte>>

    ghost function View(): Disk
      reads inodes, bitmap, blocks
    {
      Disk(inodes[..], bitmap[..], blocks[..])
    }

    ghost predicate Valid()
      reads this, inodes, bitmap, blocks
    {
      Shaped(View()) && Sound(View()) && Stores(View(), files)
    }

    ghost function FreeBlocks(): nat
      reads bitmap
    {
      FreeCount(bitmap[..])
    }

    constructor ()
      ensures Valid() && files == map[] && FreeBlocks() == MaxBlocks
      ensures fresh(inodes) && fresh(bitmap) && fresh(blocks)
    {
      inodes := new Inode[MaxFiles](_ => NoFile);
      bitmap := new bool[MaxBlocks](_ => false);
      blocks := new Block[MaxBlocks](_ => ZeroBlock());
      files := map[];
      new;
      AllFree(bitmap[..]);
    }

    method FindFile(name: string) returns (idx: int)
      requires Valid()
      ensures -1 <= idx < MaxFiles
      ensures idx >= 0 <==> name in files
      ensures idx >= 0 ==> IsFile(View(), idx, name) && |inodes[idx].blocks| == BlocksOf(inodes[..], name)
    {
      var i := 0;
      while i < MaxFiles
        invariant 0 <= i <= MaxFiles
        invariant forall j: nat :: j < i ==> !IsFile(View(), j, name)
      {
        if inodes[i].used && inodes[i].name == name {
          BlocksOfAt(inodes[..], i);
          assert IsFile(View(), i, name);
          return i;
        }
        i := i + 1;
      }
      return -1;
    }

    /** The lowest free block, if there is one. */
    method AllocBlock() returns (blk: int)
      requires bitmap.Length == MaxBlocks
      modifies bitmap
      ensures -1 <= blk < MaxBlocks
      ensures blk < 0 ==> bitmap[..] == old(bitmap[..]) && FreeBlocks() == 0
      ensures blk >= 0 ==>
                && bitmap[..] == old(bitmap[..])[blk := true] && !old(bitmap[blk])
                && (forall b :: 0 <= b < blk ==> bitmap[b])
                && FreeBlocks() == old(FreeBlocks()) - 1
    {
      var i := 0;
      while i < MaxBlocks
        invariant 0 <= i <= MaxBlocks
        invariant forall b :: 0 <= b < i ==> bitmap[b]
        invariant bitmap[..] == old(bitmap[..])
      {
        if !bitmap[i] {
          FlipBit(bitmap[..], i, true);
          bitmap[i] := true;
          assert bitmap[..] == old(bitmap[..])[i := true];
          return i;
        }
        i := i + 1;
      }
      NoneFree(bitmap[..]);
      return -1;
    }

    /** Ignores an id that is not one of a block. */
    method FreeBlock(blk: int)
      requires bitmap.Length == MaxBlocks == blocks.Length
      modifies bitmap, blocks
      ensures 0 <= blk < MaxBlocks ==> bitmap[..] == old(bitmap[..])[blk := false] && blocks[..] == old(blocks[..])[blk := ZeroBlock()]
      ensures !(0 <= blk < MaxBlocks) ==> bitmap[..] == old(bitmap[..]) && blocks[..] == old(blocks[..])
    {
      if blk >= 0 && blk < MaxBlocks {
        bitmap[blk] := false;
        blocks[blk] := ZeroBlock();
      }
    }

    /** Gives back and clears a list of blocks. */
    method Release(mine: seq<BlockId>)
      requires bitmap.Length == MaxBlocks == blocks.Length
      requires NoDup(mine) && forall b :: b in mine ==> bitmap[b]
      modifies bitmap, blocks
      ensures forall b :: 0 <= b < MaxBlocks ==> bitmap[b] == (old(bitmap[b]) && b !in mine)
      ensures forall b :: 0 <= b < MaxBlocks ==> blocks[b] == if b in mine then ZeroBlock() else old(blocks[b])
      ensures FreeBlocks() == old(FreeBlocks()) + |mine|
    {
      var i := 0;
      while i < |mine|
        invariant 0 <= i <= |mine|
        invariant forall b :: 0 <= b < MaxBlocks ==> bitmap[b] == (old(bitmap[b]) && b !in mine[..i])
        invariant forall b :: 0 <= b < MaxBlocks ==> blocks[b] == if b in mine[..i] then ZeroBlock() else old(blocks[b])
        invariant FreeBlocks() == old(FreeBlocks()) + i
      {
        assert mine[..i + 1] == mine[..i] + [mine[i]];
        assert mine[i] in mine;
        FlipBit(bitmap[..], mine[i], false);
        FreeBlock(mine[i]);
        i := i + 1;
      }
      assert mine[..|mine|] == mine;
    }

    /** Gives back the blocks of a file, which is empty afterwards. */
    method Erase(idx: nat, name: string)
      requires Valid() && IsFile(View(), idx, name)
      modifies this, inodes, bitmap, blocks
      ensures Valid() && IsFile(View(), idx, name) && inodes[idx] == Inode(true, name, 0, [])
      ensures files == old(files)[name := []]
      ensures FreeBlocks() == old(FreeBlocks()) + |old(inodes[idx].blocks)|
    {
      hide Stores;
      ghost var d := View();
      Release(inodes[idx].blocks);
      inodes[idx] := inodes[idx].(size := 0, blocks := []);
      ghost var d' := View();
      assert Erased(d, idx, d');
      ErasedKeeps(d, idx, d');
      StoresUpdate(d, idx, d', files, name);
      files := files[name := []];
    }

    /** Succeeds exactly for a new name of 1 to 31 characters while there is an inode to spare,
        and takes the first one. */
    method Create(name: string) returns (r: int)
      requires Valid()
      modifies this, inodes
      ensures Valid() && -1 <= r < MaxFiles
      ensures r >= 0 <==> 0 < |name| < MaxName && name !in old(files) && |old(files)| < MaxFiles
      ensures files == if r >= 0 then old(files)[name := []] else old(files)
      ensures r >= 0 ==> !old(inodes[r].used) && forall j :: 0 <= j < r ==> old(inodes[j].used)
      ensures inodes[..] == if r >= 0 then old(inodes[..])[r := Inode(true, name, 0, [])] else old(inodes[..])
    {
      if |name| == 0 || |name| >= MaxName { return -1; }
      var found := FindFile(name);
      if found >= 0 { return -1; }
      RoomForFile(View(), files);
      var i := 0;
      while i < MaxFiles
        invariant 0 <= i <= MaxFiles
        invariant forall j :: 0 <= j < i ==> inodes[j].used
        invariant inodes[..] == old(inodes[..])
      {
        if !inodes[i].used {
          ghost var d := View();
          CreatedKeeps(d, i, name, files);
          inodes[i] := Inode(true, name, 0, []);
          assert View() == d.(inodes := d.inodes[i := Inode(true, name, 0, [])]);
          files := files[name := []];
          return i;
        }
        i := i + 1;
      }
      return -1;
    }

    /** One more block for a file still marked empty, with a chunk of data at its front. */
    method Append(idx: nat, name: string, chunk: seq<byte>) returns (ok: bool)
      requires Valid() && IsFile(View(), idx, name) && inodes[idx].size == 0
      requires |inodes[idx].blocks| < BlocksPerFile && |chunk| <= BlockSize
      modifies inodes, bitmap, blocks
      ensures Valid() && IsFile(View(), idx, name) && inodes[idx].size == 0
      ensures ok <==> old(FreeBlocks()) > 0
      ensures !ok ==> FreeBlocks() == 0 && inodes[idx] == old(inodes[idx])
      ensures ok ==>
                && FreeBlocks() == old(FreeBlocks()) - 1
                && |inodes[idx].blocks| == |old(inodes[idx].blocks)| + 1
                && inodes[idx].blocks[..|old(inodes[idx].blocks)|] == old(inodes[idx].blocks)
                && (forall b :: b in old(inodes[idx].blocks) ==> blocks[b] == old(blocks[b]))
                && Carries(blocks[inodes[idx].blocks[|old(inodes[idx].blocks)|]], chunk)
    {
      hide Owned, Stores;
      ghost var d := View();
      EmptyFile(d, idx, files, name);
      var blk := AllocBlock();
      if blk < 0 { return false; }
      inodes[idx] := inodes[idx].(blocks := inodes[idx].blocks + [blk]);
      blocks[blk] := chunk + blocks[blk][|chunk|..];
      ghost var d' := View();
      assert Extended(d, idx, blk, chunk, d');
      ExtendedKeeps(d, idx, blk, chunk, d');
      assert IsFile(d', idx, name);
      StoresUpdate(d, idx, d', files, name);
      return true;
    }

    /** Replaces the contents of a file. It succeeds exactly when the file exists, the data needs
        at most 8 blocks, and those are there once the old ones are given back; then the file
        reads as the data. A failed write leaves the file empty, without blocks if the data is too
        large, but with all the blocks there were if they are too few. No other file is affected. */
    method Write(name: string, data: seq<byte>) returns (written: int)
      requires Valid()
      modifies this, inodes, bitmap, blocks
      ensures Valid()
      ensures written >= 0 <==>
                && name in old(files) && |data| <= BlockSize * BlocksPerFile
                && |data| <= BlockSize * (old(FreeBlocks()) + old(BlocksOf(inodes[..], name)))
      ensures written >= 0 ==> written == |data| && files == old(files)[name := data]
      ensures written < 0 ==> written == -1 && files == if name in old(files) then old(files)[name := []] else old(files)
      ensures name in old(files) ==>
                var room := old(FreeBlocks()) + old(BlocksOf(inodes[..], name));
                && FreeBlocks() == room - BlocksOf(inodes[..], name)
                && (written >= 0 ==> BlocksOf(inodes[..], name) == Needed(|data|))
                && (written < 0 ==> BlocksOf(inodes[..], name) == if |data| > BlockSize * BlocksPerFile then 0 else room)
      ensures name !in old(files) ==>
                inodes[..] == old(inodes[..]) && bitmap[..] == old(bitmap[..]) && blocks[..] == old(blocks[..])
    {
      hide Sound, Stores, BlocksOf, Needed;
      RoomFor(|data|, BlocksPerFile);
      RoomFor(|data|, FreeBlocks() + BlocksOf(inodes[..], name));
      var idx := FindFile(name);
      if idx < 0 { return -1; }
      Erase(idx, name);
      FileBlocks(idx, name);
      var needed := Needed(|data|);
      if needed > BlocksPerFile { return -1; }
      written := Fill(idx, name, data);
      FileBlocks(idx, name);
    }

    lemma FileBlocks(idx: nat, name: string)
      requires Valid() && IsFile(View(), idx, name)
      ensures BlocksOf(inodes[..], name) == |inodes[idx].blocks|
    {
      BlocksOfAt(inodes[..], idx);
    }

    /** Lays the data out over newly allocated blocks of an empty file. */
    method Fill(idx: nat, name: string, data: seq<byte>) returns (written: int)
      requires Valid() && IsFile(View(), idx, name) && inodes[idx] == Inode(true, name, 0, []) && files[name := []] == files
      requires Needed(|data|) <= BlocksPerFile
      modifies this, inodes, bitmap, blocks
      ensures Valid() && IsFile(View(), idx, name)
      ensures written >= 0 <==> Needed(|data|) <= old(FreeBlocks())
      ensures written >= 0 ==> written == |data| && files == old(files)[name := data]
      ensures |inodes[idx].blocks| == Min(Needed(|data|), old(FreeBlocks()))
      ensures FreeBlocks() == old(FreeBlocks()) - |inodes[idx].blocks|
      ensures written < 0 ==> written == -1 && files == old(files)
    {
      hide Sound, Stores;
      var needed, i := Needed(|data|), 0;
      written := 0;
      while i < needed
        invariant 0 <= i <= needed && Valid() && IsFile(View(), idx, name) && inodes[idx].size == 0
        invariant |inodes[idx].blocks| == i && FreeBlocks() == old(FreeBlocks()) - i
        invariant forall s :: 0 <= s < i ==> Carries(blocks[inodes[idx].blocks[s]], Chunk(data, s))
        invariant written == Min(BlockSize * i, |data|)
        modifies inodes, bitmap, blocks
      {
        var chunk := data[written..written + Min(BlockSize, |data| - written)];
        assert chunk == Chunk(data, i);
        var ok := Append(idx, name, chunk);
        if !ok { return -1; }
        written := written + |chunk|;
        i := i + 1;
      }
      Finish(idx, name, data);
    }

    method Finish(idx: nat, name: string, data: seq<byte>)
      requires Valid() && IsFile(View(), idx, name) && |inodes[idx].blocks| == Needed(|data|)
      requires forall s :: 0 <= s < |inodes[idx].blocks| ==> Carries(blocks[inodes[idx].blocks[s]], Chunk(data, s))
      modifies this, inodes
      ensures Valid() && files == old(files)[name := data]
      ensures IsFile(View(), idx, name) && inodes[idx].blocks == old(inodes[idx].blocks)
    {
      hide Sound, Stores;
      ghost var d := View();
      SizedKeeps(d, idx, data, files, name);
      inodes[idx] := inodes[idx].(size := |data|);
      assert View() == d.(inodes := d.inodes[idx := d.inodes[idx].(size := |data|)]);
      files := files[name := data];
    }

    /** The contents of the file, or nothing if there is none of that name. */
    method Read(name: string) returns (result: seq<byte>)
      requires Valid()
      ensures result == if name in files then files[name] else []
    {
      hide Sound, Gather, Owned;
      var idx := FindFile(name);
      if idx < 0 { return []; }
      result := Collect(inodes[idx]);
      assert files[name] == Content(View(), idx) by { assert IsFile(View(), idx, name); }
    }

    /** The bytes that an inode's blocks hold. */
    method Collect(node: Inode) returns (result: seq<byte>)
      requires blocks.Length == MaxBlocks
      ensures result == Gather(blocks[..], node.blocks, node.size)
    {
      hide Gather;
      ghost var rows := blocks[..];
      result := [];
      var remaining := node.size;
      var i := 0;
      while i < |node.blocks| && remaining > 0
        invariant 0 <= i <= |node.blocks|
        invariant result + Gather(rows, node.blocks[i..], remaining) == Gather(rows, node.blocks, node.size)
      {
        var chunk := Min(BlockSize, remaining);
        GatherNext(rows, node.blocks, i, remaining);
        result := result + blocks[node.blocks[i]][..chunk];
        remaining := remaining - chunk;
        i := i + 1;
      }
      GatherNothing(rows, node.blocks[i..], remaining);
    }

    method Delete(name: string) returns (r: int)
      requires Valid()
      modifies this, inodes, bitmap, blocks
      ensures Valid()
      ensures r == if name in old(files) then 0 else -1
      ensures files == old(files) - {name}
      ensures FreeBlocks() == old(FreeBlocks()) + (if r == 0 then old(BlocksOf(inodes[..], name)) else 0)
    {
      hide Sound, Stores, BlocksOf;
      var idx := FindFile(name);
      if idx < 0 {
        assert files - {name} == files;
        return -1;
      }
      Erase(idx, name);
      Unlink(idx, name);
      return 0;
    }

    method Unlink(idx: nat, name: string)
      requires Valid() && IsFile(View(), idx, name) && inodes[idx].blocks == []
      modifies this, inodes
      ensures Valid() && files == old(files) - {name}
    {
      ghost var d := View();
      RemovedKeeps(d, idx, files, name);
      inodes[idx] := NoFile;
      assert View() == d.(inodes := d.inodes[idx := NoFile]);
      files := files - {name};
    }
  }
}
