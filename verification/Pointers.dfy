/**
 * Raw pointers and arenas of the C runtime in debug builds (micai/src/cgen.rs): every block begins
 * with a guard of three words in the same memory as its data, and no memory is ever given back.
 */
module Pointers {

  type Byte = b: int | 0 <= b < 256

  const GUARD: nat := 24
  const FILL: Byte := 0xDD

  const CHUNK0: nat := 16 * 1024

  /** Three words full of fill bytes: what a guard reads as after its arena is gone. */
  const FILLED: nat := 0xDDDD_DDDD_DDDD_DDDD

  datatype Option<T> = None | Some(value: T)

  datatype Fault =
    | Negative | Null | FreeInArena | FreeMiddle | DoubleFree | Stale | OutOfBounds

  datatype Result<T> = Ok(value: T) | Bad(fault: Fault)

  // ------------------------------------------------------------------ words in memory

  /** One more than the largest word. */
  const WORDS: nat := 0x1_0000_0000_0000_0000

  /** The number that the eight bytes from `at` on stand for, lowest byte first. */
  function Word(m: seq<Byte>, at: nat): nat
    requires at + 8 <= |m|
  {
    Cell(m, at) + 0x100 * Cell(m, at + 1) + 0x1_0000 * Cell(m, at + 2) + 0x100_0000 * Cell(m, at + 3) +
    0x1_0000_0000 * Cell(m, at + 4) + 0x100_0000_0000 * Cell(m, at + 5) +
    0x1_0000_0000_0000 * Cell(m, at + 6) + 0x100_0000_0000_0000 * Cell(m, at + 7)
  }

  function Cell(m: seq<Byte>, a: nat): nat
    requires a < |m|
  {
    m[a]
  }

  function Bytes(v: nat): (r: seq<Byte>)
    ensures |r| == 8
  {
    var a := v / 256;
    var b := a / 256;
    var c := b / 256;
    var d := c / 256;
    var e := d / 256;
    var f := e / 256;
    var g := f / 256;
    [v % 256, a % 256, b % 256, c % 256, d % 256, e % 256, f % 256, g % 256]
  }

  lemma WordOfBytes(m: seq<Byte>, at: nat, v: nat)
    requires at + 8 <= |m| && v < WORDS && forall k :: 0 <= k < 8 ==> m[at + k] == Bytes(v)[k]
    ensures Word(m, at) == v
  {
    var r := Bytes(v);
    assert Cell(m, at) == m[at + 0] == r[0] && Cell(m, at + 1) == r[1] && Cell(m, at + 2) == r[2];
    assert Cell(m, at + 3) == r[3] && Cell(m, at + 4) == r[4] && Cell(m, at + 5) == r[5];
    assert Cell(m, at + 6) == r[6] && Cell(m, at + 7) == r[7];
    var a := v / 256;
    var b := a / 256;
    var c := b / 256;
    var d := c / 256;
    var e := d / 256;
    var f := e / 256;
    var g := f / 256;
    assert g == r[7];
    assert f == 256 * g + r[6] && e == 256 * f + r[5] && d == 256 * e + r[4];
    assert c == 256 * d + r[3] && b == 256 * c + r[2] && a == 256 * b + r[1] && v == 256 * a + r[0];
  }

  lemma WordSame(m: seq<Byte>, n: seq<Byte>, at: nat)
    requires at + 8 <= |m| && at + 8 <= |n| && forall a :: at <= a < at + 8 ==> m[a] == n[a]
    ensures Word(m, at) == Word(n, at)
  {
  }

  lemma FilledWord(m: seq<Byte>, at: nat)
    requires at + 8 <= |m| && forall a :: at <= a < at + 8 ==> m[a] == FILL
    ensures Word(m, at) == FILLED
  {
  }

  /** Overwrites bytes. */
  function Put(m: seq<Byte>, at: nat, bs: seq<Byte>): (r: seq<Byte>)
    requires at + |bs| <= |m|
    ensures |r| == |m| && r[at..at + |bs|] == bs
    ensures forall a :: 0 <= a < |m| && !(at <= a < at + |bs|) ==> r[a] == m[a]
    ensures forall a :: at <= a < at + |bs| ==> r[a] == bs[a - at]
  {
    m[..at] + bs + m[at + |bs|..]
  }

  function Repeat(b: Byte, n: nat): (r: seq<Byte>)
    ensures |r| == n && forall i :: 0 <= i < n ==> r[i] == b
  {
    seq(n, _ => b)
  }

  // ------------------------------------------------------------------ blocks, chunks, pointers

  datatype State = Live | Freed | Dropped

  /** A block: its guard at `base`, then `size` bytes. `home` is the chunk it lies in, if any. */
  datatype Block = Block(base: nat, size: nat, gen: nat, home: Option<nat>, state: State)

  datatype Chunk = Chunk(data: nat, used: nat, cap: nat)

  datatype Ptr = NullPtr | Ptr(g: nat, off: int, gen: nat)

  /** What each byte of memory belongs to. */
  datatype Tag = Pad | Of(block: nat) | Room(chunk: nat)

  function Data(b: Block): nat {
    b.base + GUARD
  }

  function End(b: Block): nat {
    b.base + GUARD + b.size
  }

  ghost predicate GuardReads(m: seq<Byte>, b: Block, gen: nat, size: nat, inArena: nat)
    requires b.base + GUARD <= |m|
  {
    Word(m, b.base) == gen && Word(m, b.base + 8) == size && Word(m, b.base + 16) == inArena
  }

  /** What the guard of a block reads as. */
  ghost predicate GuardOk(m: seq<Byte>, b: Block)
    requires b.base + GUARD <= |m|
  {
    match b.state
    case Live => GuardReads(m, b, b.gen, b.size, if b.home.Some? then 1 else 0)
    case Freed => b.home.None? && GuardReads(m, b, 0, b.size, 0)
    case Dropped => b.home.Some? && GuardReads(m, b, FILLED, FILLED, FILLED)
  }

  lemma GuardSame(m: seq<Byte>, n: seq<Byte>, b: Block)
    requires b.base + GUARD <= |m| && b.base + GUARD <= |n|
    requires GuardOk(m, b) && forall a :: b.base <= a < b.base + GUARD ==> m[a] == n[a]
    ensures GuardOk(n, b)
  {
    WordSame(m, n, b.base);
    WordSame(m, n, b.base + 8);
    WordSame(m, n, b.base + 16);
  }

  ghost predicate BlockOk(m: seq<Byte>, b: Block, counter: nat) {
    End(b) <= |m| && GuardOk(m, b) && 0 < b.gen <= counter && b.size < WORDS &&
    (b.home.Some? ==> b.home.value <= b.base)
  }

  /** The blocks lie in memory apart from each other, and their guards read right. */
  ghost predicate BlocksOk(m: seq<Byte>, tag: seq<Tag>, blocks: seq<Block>, counter: nat) {
    |tag| == |m| && counter < FILLED &&
    (forall i :: 0 <= i < |blocks| ==> BlockOk(m, blocks[i], counter)) &&
    (forall i, a :: 0 <= i < |blocks| && blocks[i].base <= a < End(blocks[i]) ==> tag[a] == Of(i)) &&
    (forall i, j :: 0 <= i < j < |blocks| ==> blocks[i].gen != blocks[j].gen)
  }

  ghost predicate ChunkOk(m: seq<Byte>, tag: seq<Tag>, blocks: seq<Block>, c: Chunk) {
    |tag| == |m| && c.used <= c.cap && 0 < c.cap && c.data + c.cap <= |m| &&
    (forall a :: c.data + c.used <= a < c.data + c.cap ==> tag[a] == Room(c.data)) &&
    (forall a :: c.data <= a < c.data + c.used ==>
      tag[a] == Pad || (tag[a].Of? && tag[a].block < |blocks| && blocks[tag[a].block].home == Some(c.data)))
  }

  ghost predicate Inside(b: Block, c: Chunk) {
    b.home == Some(c.data) && c.data <= b.base && End(b) <= c.data + c.used
  }

  type Arenas = map<nat, seq<Chunk>>

  ghost predicate Has(arenas: Arenas, id: nat, k: nat) {
    id in arenas && k < |arenas[id]|
  }

  ghost predicate ChunksOk(m: seq<Byte>, tag: seq<Tag>, blocks: seq<Block>, arenas: Arenas) {
    (forall id: nat, k: nat :: Has(arenas, id, k) ==> ChunkOk(m, tag, blocks, arenas[id][k])) &&
    (forall id: nat, k: nat, od: nat, j: nat :: Has(arenas, id, k) && Has(arenas, od, j) && arenas[id][k].data == arenas[od][j].data ==>
      id == od && k == j)
  }

  /** The blocks of a chunk that is still there are live, and lie in the used part of it. */
  ghost predicate HomesOk(blocks: seq<Block>, arenas: Arenas) {
    (forall i :: 0 <= i < |blocks| && blocks[i].home.Some? && blocks[i].state.Live? ==> Housed(blocks[i], arenas)) &&
    (forall i, id: nat, k: nat :: 0 <= i < |blocks| && Has(arenas, id, k) && blocks[i].home == Some(arenas[id][k].data) ==>
      blocks[i].state.Live?)
  }

  ghost predicate Housed(b: Block, arenas: Arenas) {
    exists id: nat, k: nat :: Has(arenas, id, k) && Inside(b, arenas[id][k])
  }

  // ------------------------------------------------------------------ what changes keep

  /** Memory and tags may change, but not where a block lies. */
  ghost predicate Untouched(m: seq<Byte>, tag: seq<Tag>, n: seq<Byte>, nag: seq<Tag>) {
    |tag| == |m| <= |n| == |nag| && forall a :: 0 <= a < |m| && tag[a].Of? ==> n[a] == m[a] && nag[a] == tag[a]
  }

  lemma BlocksStay(m: seq<Byte>, tag: seq<Tag>, blocks: seq<Block>, counter: nat, n: seq<Byte>, nag: seq<Tag>)
    requires BlocksOk(m, tag, blocks, counter) && Untouched(m, tag, n, nag)
    ensures BlocksOk(n, nag, blocks, counter)
  {
    forall i | 0 <= i < |blocks| ensures BlockOk(n, blocks[i], counter) {
      var b := blocks[i];
      assert BlockOk(m, b, counter);
      forall a | b.base <= a < b.base + GUARD ensures m[a] == n[a] { assert tag[a] == Of(i); }
      GuardSame(m, n, b);
    }
    forall i, a | 0 <= i < |blocks| && blocks[i].base <= a < End(blocks[i]) ensures nag[a] == Of(i) {
      assert tag[a] == Of(i);
    }
  }

  lemma AddBlock(m: seq<Byte>, tag: seq<Tag>, blocks: seq<Block>, counter: nat, b: Block)
    requires BlocksOk(m, tag, blocks, counter) && counter + 1 < FILLED && b.gen == counter + 1
    requires BlockOk(m, b, counter + 1)
    requires forall a :: b.base <= a < End(b) ==> tag[a] == Of(|blocks|)
    ensures BlocksOk(m, tag, blocks + [b], counter + 1)
  {
    var bs := blocks + [b];
    forall i | 0 <= i < |bs| ensures BlockOk(m, bs[i], counter + 1) {
      if i < |blocks| { assert BlockOk(m, blocks[i], counter); }
    }
    forall i, j | 0 <= i < j < |bs| ensures bs[i].gen != bs[j].gen {
      if j == |blocks| { assert bs[i] == blocks[i]; } else { assert bs[i] == blocks[i] && bs[j] == blocks[j]; }
    }
  }

  function SetWord(m: seq<Byte>, at: nat, v: nat): (r: seq<Byte>)
    requires at + 8 <= |m|
    ensures |r| == |m| && forall a :: 0 <= a < |m| && !(at <= a < at + 8) ==> r[a] == m[a]
  {
    Put(m, at, Bytes(v))
  }

  lemma SetWordReads(m: seq<Byte>, at: nat, v: nat)
    requires at + 8 <= |m| && v < WORDS
    ensures Word(SetWord(m, at, v), at) == v
  {
    WordOfBytes(SetWord(m, at, v), at, v);
  }

  /** One block changes, in its own memory. */
  lemma ChangeBlock(m: seq<Byte>, tag: seq<Tag>, blocks: seq<Block>, counter: nat, i: nat, n: seq<Byte>, b: Block)
    requires BlocksOk(m, tag, blocks, counter) && i < |blocks| && |n| == |m|
    requires forall a :: 0 <= a < |m| && tag[a] != Of(i) ==> n[a] == m[a]
    requires b.base == blocks[i].base && b.size == blocks[i].size && b.gen == blocks[i].gen && b.home == blocks[i].home
    requires GuardOk(n, b)
    ensures BlocksOk(n, tag, blocks[i := b], counter)
  {
    var bs := blocks[i := b];
    forall j | 0 <= j < |bs| ensures BlockOk(n, bs[j], counter) {
      assert BlockOk(m, blocks[j], counter);
      if j != i {
        forall a | bs[j].base <= a < bs[j].base + GUARD ensures m[a] == n[a] { assert tag[a] == Of(j); }
        GuardSame(m, n, bs[j]);
      }
    }
  }

  /** The chunks care only where the blocks live. */
  lemma ChunksKeep(m: seq<Byte>, tag: seq<Tag>, blocks: seq<Block>, arenas: Arenas, n: seq<Byte>, more: seq<Block>)
    requires ChunksOk(m, tag, blocks, arenas) && |n| == |m|
    requires |blocks| <= |more| && forall i :: 0 <= i < |blocks| ==> more[i].home == blocks[i].home
    ensures ChunksOk(n, tag, more, arenas)
  {
    forall id: nat, k: nat | Has(arenas, id, k) ensures ChunkOk(n, tag, more, arenas[id][k]) {
      assert ChunkOk(m, tag, blocks, arenas[id][k]);
    }
  }

  /** The same chunks under other names keep the blocks at home. */
  lemma HomesSame(blocks: seq<Block>, arenas: Arenas, more: Arenas)
    requires HomesOk(blocks, arenas)
    requires forall id: nat, k: nat :: Has(arenas, id, k) ==> Has(more, id, k) && more[id][k] == arenas[id][k]
    requires forall id: nat, k: nat :: Has(more, id, k) ==> Has(arenas, id, k)
    ensures HomesOk(blocks, more)
  {
    forall i | 0 <= i < |blocks| && blocks[i].home.Some? && blocks[i].state.Live? ensures Housed(blocks[i], more) {
      assert Housed(blocks[i], arenas);
      var id: nat, k: nat :| Has(arenas, id, k) && Inside(blocks[i], arenas[id][k]);
      assert Has(more, id, k);
    }
  }

  /** A new chunk, in memory that was not there before. */
  lemma AddChunk(l: seq<Byte>, lag: seq<Tag>, m: seq<Byte>, tag: seq<Tag>, blocks: seq<Block>, counter: nat, arenas: Arenas, id: nat, c: Chunk)
    requires BlocksOk(l, lag, blocks, counter) && ChunksOk(l, lag, blocks, arenas)
    requires ChunksOk(m, tag, blocks, arenas) && HomesOk(blocks, arenas) && |tag| == |m|
    requires id in arenas && c.used == 0 < c.cap && c.data == |l| && c.data + c.cap == |m|
    requires forall a :: c.data <= a < |m| ==> tag[a] == Room(c.data)
    ensures ChunksOk(m, tag, blocks, arenas[id := arenas[id] + [c]]) && HomesOk(blocks, arenas[id := arenas[id] + [c]])
  {
    var more := arenas[id := arenas[id] + [c]];
    forall od: nat, k: nat | Has(arenas, od, k) ensures arenas[od][k].data < c.data && Has(more, od, k) && more[od][k] == arenas[od][k] {
      assert ChunkOk(l, lag, blocks, arenas[od][k]);
    }
    forall od: nat, k: nat | Has(more, od, k) ensures ChunkOk(m, tag, blocks, more[od][k]) {
      if Has(arenas, od, k) { assert ChunkOk(m, tag, blocks, arenas[od][k]); }
    }
    forall i | 0 <= i < |blocks| && blocks[i].home.Some? ensures blocks[i].home.value < c.data {
      assert BlockOk(l, blocks[i], counter);
    }
    forall i | 0 <= i < |blocks| && blocks[i].home.Some? && blocks[i].state.Live? ensures Housed(blocks[i], more) {
      assert Housed(blocks[i], arenas);
      var od: nat, k: nat :| Has(arenas, od, k) && Inside(blocks[i], arenas[od][k]);
      assert Has(more, od, k) && Inside(blocks[i], more[od][k]);
    }
  }

  /** No other chunk reaches into the room of a chunk. */
  lemma RoomApart(m: seq<Byte>, tag: seq<Tag>, blocks: seq<Block>, arenas: Arenas, id: nat, k: nat, od: nat, j: nat, a: nat)
    requires ChunksOk(m, tag, blocks, arenas) && Has(arenas, id, k) && Has(arenas, od, j) && !(od == id && j == k)
    requires arenas[od][j].data <= a < arenas[od][j].data + arenas[od][j].cap
    ensures !(arenas[id][k].data + arenas[id][k].used <= a < arenas[id][k].data + arenas[id][k].cap)
  {
    assert ChunkOk(m, tag, blocks, arenas[id][k]) && ChunkOk(m, tag, blocks, arenas[od][j]);
    var t := tag[a];
  }

  /** The chunks after a piece has been cut from the room of one of them. */
  lemma CarveChunks(m: seq<Byte>, tag: seq<Tag>, blocks: seq<Block>, arenas: Arenas, id: nat, k: nat, end: nat, n: nat,
                    r: seq<Byte>, nag: seq<Tag>, more: seq<Block>)
    requires ChunksOk(m, tag, blocks, arenas) && Has(arenas, id, k) && |tag| == |m| == |r| == |nag|
    requires var c := arenas[id][k]; var g := c.data + c.used;
      g <= end <= g + n && c.used + n <= c.cap && |more| == |blocks| + 1 && blocks <= more && more[|blocks|].home == Some(c.data) &&
      forall a :: 0 <= a < |m| ==> nag[a] == if g <= a < end then Of(|blocks|) else if end <= a < g + n then Pad else tag[a]
    ensures var c := arenas[id][k];
      ChunksOk(r, nag, more, arenas[id := arenas[id][k := c.(used := c.used + n)]])
  {
    var c := arenas[id][k];
    var after := arenas[id := arenas[id][k := c.(used := c.used + n)]];
    assert ChunkOk(m, tag, blocks, c);
    forall od: nat, j: nat | Has(after, od, j) ensures ChunkOk(r, nag, more, after[od][j]) {
      assert Has(arenas, od, j);
      var d := arenas[od][j];
      assert ChunkOk(m, tag, blocks, d);
      if !(od == id && j == k) {
        forall a | d.data <= a < d.data + d.cap ensures nag[a] == tag[a] {
          RoomApart(m, tag, blocks, arenas, id, k, od, j, a);
        }
      }
    }
    forall od: nat, j: nat | Has(after, od, j) ensures Has(arenas, od, j) && after[od][j].data == arenas[od][j].data { }
  }

  lemma CarveHomes(blocks: seq<Block>, arenas: Arenas, id: nat, k: nat, n: nat, b: Block)
    requires HomesOk(blocks, arenas) && Has(arenas, id, k) && b.state.Live?
    requires Inside(b, arenas[id][k].(used := arenas[id][k].used + n))
    ensures var c := arenas[id][k]; HomesOk(blocks + [b], arenas[id := arenas[id][k := c.(used := c.used + n)]])
  {
    var c := arenas[id][k];
    var after := arenas[id := arenas[id][k := c.(used := c.used + n)]];
    var bs := blocks + [b];
    assert Has(after, id, k) && Inside(b, after[id][k]);
    forall i | 0 <= i < |bs| && bs[i].home.Some? && bs[i].state.Live? ensures Housed(bs[i], after) {
      if i < |blocks| {
        assert Housed(blocks[i], arenas);
        var od: nat, j: nat :| Has(arenas, od, j) && Inside(blocks[i], arenas[od][j]);
        assert Has(after, od, j) && Inside(bs[i], after[od][j]);
      }
    }
    forall i, od: nat, j: nat | 0 <= i < |bs| && Has(after, od, j) && bs[i].home == Some(after[od][j].data)
      ensures bs[i].state.Live?
    {
      assert Has(arenas, od, j) && arenas[od][j].data == after[od][j].data;
    }
  }

  /** A block keeps its bytes when only memory that no block had is written. */
  lemma BlockKept(m: seq<Byte>, tag: seq<Tag>, blocks: seq<Block>, counter: nat, i: nat, n: seq<Byte>)
    requires BlocksOk(m, tag, blocks, counter) && i < |blocks| && |n| >= |m|
    requires forall a :: 0 <= a < |m| && tag[a].Of? ==> n[a] == m[a]
    ensures Kept(m, n, blocks[i].base, End(blocks[i]))
  {
    forall a | blocks[i].base <= a < End(blocks[i]) && a < |m| ensures n[a] == m[a] {
      assert tag[a] == Of(i);
    }
  }

  /** A new guard: its three words, one after the other. */
  function Guarded(m: seq<Byte>, base: nat, gen: nat, size: nat, inArena: nat): (r: seq<Byte>)
    requires base + GUARD <= |m|
    ensures |r| == |m| && forall a :: 0 <= a < |m| && !(base <= a < base + GUARD) ==> r[a] == m[a]
  {
    SetWord(SetWord(SetWord(m, base, gen), base + 8, size), base + 16, inArena)
  }

  /** A live block's guard. */
  function WithGuard(m: seq<Byte>, b: Block): (r: seq<Byte>)
    requires b.base + GUARD <= |m|
    ensures |r| == |m| && forall a :: 0 <= a < |m| && !(b.base <= a < b.base + GUARD) ==> r[a] == m[a]
  {
    Guarded(m, b.base, b.gen, b.size, if b.home.Some? then 1 else 0)
  }

  lemma GuardedReads(m: seq<Byte>, b: Block, gen: nat, size: nat, inArena: nat)
    requires b.base + GUARD <= |m| && gen < WORDS && size < WORDS && inArena < WORDS
    ensures GuardReads(Guarded(m, b.base, gen, size, inArena), b, gen, size, inArena)
  {
    var x := SetWord(m, b.base, gen);
    var y := SetWord(x, b.base + 8, size);
    var z := SetWord(y, b.base + 16, inArena);
    SetWordReads(m, b.base, gen);
    SetWordReads(x, b.base + 8, size);
    SetWordReads(y, b.base + 16, inArena);
    WordSame(x, y, b.base);
    WordSame(y, z, b.base);
    WordSame(y, z, b.base + 8);
  }

  /** Tags a stretch of memory. */
  ghost function Tagged(tag: seq<Tag>, from: nat, to: nat, t: Tag): (r: seq<Tag>)
    requires from <= to <= |tag|
    ensures |r| == |tag| && forall a :: 0 <= a < |tag| ==> r[a] == if from <= a < to then t else tag[a]
  {
    tag[..from] + seq(to - from, _ => t) + tag[to..]
  }

  // ------------------------------------------------------------------ the heap

  class Heap {
    var mem: seq<Byte>
    var counter: nat
    var arenas: Arenas
    ghost var blocks: seq<Block>
    ghost var tag: seq<Tag>

    ghost predicate Valid()
      reads this
    {
      HeapOk(mem, tag, blocks, counter, arenas)
    }

    /** The pointer came from an allocation, perhaps moved since. */
    ghost predicate Issued(p: Ptr, i: nat)
      reads this
    {
      p.Ptr? && i < |blocks| && p.g == blocks[i].base && p.gen == blocks[i].gen
    }

    constructor ()
      ensures Valid() && blocks == [] && arenas == map[]
    {
      mem, counter, arenas, blocks, tag := [], 0, map[], [], [];
    }

    /** Fresh memory at the end of all there is. */
    method Malloc(bytes: seq<Byte>, ghost t: Tag) returns (at: nat)
      requires Valid() && !t.Of?
      modifies this`mem, this`tag
      ensures Valid() && at == |old(mem)| && mem == old(mem) + bytes
      ensures |tag| == |mem| && old(tag) <= tag && forall a :: at <= a < |mem| ==> tag[a] == t
    {
      at := |mem|;
      mem := mem + bytes;
      tag := tag + seq(|bytes|, _ => t);
      BlocksStay(old(mem), old(tag), blocks, counter, mem, tag);
      ChunksStay(old(mem), old(tag), blocks, arenas, mem, tag);
    }

    /** Memory of its own for `bytes` bytes, all zero. */
    method Alloc(bytes: int) returns (r: Result<Ptr>)
      requires Valid() && counter + 1 < FILLED && bytes < 0x8000_0000_0000_0000
      modifies this`mem, this`counter, this`blocks, this`tag
      ensures Valid() && old(mem) <= mem
      ensures bytes < 0 ==> r == Bad(Negative) && blocks == old(blocks)
      ensures bytes >= 0 ==>
        var b := Block(|old(mem)|, bytes, counter, None, Live);
        counter == old(counter) + 1 && blocks == old(blocks) + [b] && r == Ok(Ptr(b.base, 0, b.gen)) &&
        End(b) == |mem| == |old(mem)| + 24 + bytes && forall a :: Data(b) <= a < End(b) ==> mem[a] == 0
    {
      if bytes < 0 {
        return Bad(Negative);
      }
      var g := Malloc(Repeat(0, GUARD + bytes), Pad);
      counter := counter + 1;
      var b := Block(g, bytes, counter, None, Live);
      AllocOk(old(mem), old(tag), mem, tag, blocks, arenas, b);
      mem := WithGuard(mem, b);
      tag := Tagged(tag, g, End(b), Of(|blocks|));
      blocks := blocks + [b];
      r := Ok(Ptr(g, 0, counter));
    }

    // ---------------------------------------------------------------- access

    /** The address that a pointer and an offset lead to, if `size` bytes may be touched there. */
    method At(p: Ptr, byteOff: int, size: nat, ghost i: nat) returns (r: Result<nat>)
      requires Valid() && (p.NullPtr? || Issued(p, i))
      ensures p.NullPtr? ==> r == Bad(Null)
      ensures p.Ptr? ==>
        var b := blocks[i];
        r == if !b.state.Live? then Bad(Stale)
             else if 0 <= p.off + byteOff && p.off + byteOff + size <= b.size then Ok(Data(b) + p.off + byteOff)
             else Bad(OutOfBounds)
    {
      if p.NullPtr? {
        return Bad(Null);
      }
      assert BlockOk(mem, blocks[i], counter);
      if Word(mem, p.g) != p.gen {
        return Bad(Stale);
      }
      var at := p.off + byteOff;
      if at < 0 || at + size > Word(mem, p.g + 8) {
        return Bad(OutOfBounds);
      }
      r := Ok(p.g + GUARD + at);
    }

    /** A write through a pointer. It is done only when the access is allowed. */
    method Store(p: Ptr, byteOff: int, bs: seq<Byte>, ghost i: nat) returns (r: Result<nat>)
      requires Valid() && (p.NullPtr? || Issued(p, i))
      modifies this`mem
      ensures Valid() && |mem| == |old(mem)|
      ensures r.Ok? <==> p.Ptr? && blocks[i].state.Live? && 0 <= p.off + byteOff && p.off + byteOff + |bs| <= blocks[i].size
      ensures r.Bad? ==> mem == old(mem)
      ensures r.Ok? ==>
        var at := Data(blocks[i]) + p.off + byteOff;
        mem[at..at + |bs|] == bs && forall a :: 0 <= a < |mem| && !(at <= a < at + |bs|) ==> mem[a] == old(mem)[a]
      ensures forall j :: 0 <= j < |blocks| && (r.Ok? ==> j != i) ==> Kept(old(mem), mem, blocks[j].base, End(blocks[j]))
      ensures forall j :: 0 <= j < |blocks| ==> Kept(old(mem), mem, blocks[j].base, Data(blocks[j]))
    {
      r := At(p, byteOff, |bs|, i);
      if r.Ok? {
        var b := blocks[i];
        mem := Put(mem, r.value, bs);
        WriteKeeps(old(mem), tag, blocks, counter, i, r.value, bs);
        assert blocks[i := b] == blocks;
        ChunksKeep(old(mem), tag, blocks, arenas, mem, blocks);
      }
    }

    // ---------------------------------------------------------------- freeing

    /** Frees a block by its first address; anything else is refused, and the first reason is given. */
    method Free(p: Ptr, ghost i: nat) returns (r: Result<nat>)
      requires Valid() && (p.NullPtr? || Issued(p, i))
      modifies this`mem, this`blocks
      ensures Valid() && |mem| == |old(mem)|
      ensures p.NullPtr? ==> r == Bad(Null)
      ensures p.Ptr? ==>
        var b := old(blocks)[i];
        r == if b.home.Some? then Bad(FreeInArena)
             else if p.off != 0 then Bad(FreeMiddle)
             else if b.state.Freed? then Bad(DoubleFree)
             else Ok(p.g)
      ensures r.Bad? ==> blocks == old(blocks) && mem == old(mem)
      ensures r.Ok? ==> blocks == old(blocks)[i := old(blocks)[i].(state := Freed)]
      ensures forall j :: 0 <= j < |blocks| && j != i ==> Kept(old(mem), mem, blocks[j].base, End(blocks[j]))
    {
      if p.NullPtr? {
        return Bad(Null);
      }
      var b := blocks[i];
      assert BlockOk(mem, b, counter);
      if Word(mem, p.g + 16) != 0 {
        return Bad(FreeInArena);
      }
      if p.off != 0 {
        return Bad(FreeMiddle);
      }
      if Word(mem, p.g) == 0 {
        return Bad(DoubleFree);
      }
      if Word(mem, p.g) != p.gen {
        return Bad(Stale);
      }
      var size := Word(mem, p.g + 8);
      mem := SetWord(mem, p.g, 0);
      mem := Put(mem, p.g + GUARD, Repeat(FILL, size));
      FreeKeeps(old(mem), tag, blocks, counter, i);
      ghost var dead := b.(state := Freed);
      ChunksKeep(old(mem), tag, blocks, arenas, mem, blocks[i := dead]);
      blocks := blocks[i := dead];
      r := Ok(p.g);
    }

    // ---------------------------------------------------------------- arenas

    method ArenaNew(id: nat)
      requires Valid() && id !in arenas
      modifies this`arenas
      ensures Valid() && arenas == old(arenas)[id := []]
    {
      assert forall od: nat, k: nat :: Has(arenas[id := []], od, k) ==> Has(arenas, od, k) && arenas[id := []][od] == arenas[od];
      HomesSame(blocks, arenas, arenas[id := []]);
      arenas := arenas[id := []];
    }

    /** The chunk made last. */
    function Newest(id: nat): Chunk
      requires id in arenas && arenas[id] != []
      reads this
    {
      arenas[id][|arenas[id]| - 1]
    }

    /** Makes sure that the newest chunk has room for `n` more bytes: a chunk twice as large, if need be. */
    method MoreRoom(id: nat, n: nat)
      requires Valid() && id in arenas
      modifies this`mem, this`tag, this`arenas
      ensures Valid() && old(mem) <= mem && id in arenas && arenas[id] != []
      ensures Newest(id).used + n <= Newest(id).cap
      ensures
        if old(arenas[id]) != [] && old(Newest(id).used + n <= Newest(id).cap) then arenas == old(arenas)
        else
          |arenas[id]| == |old(arenas[id])| + 1 && Newest(id).used == 0 &&
          Newest(id).cap == var c := if old(arenas[id]) != [] then 2 * old(Newest(id).cap) else 16384; if c < n then n else c
      ensures forall od: nat, k: nat :: Has(old(arenas), od, k) ==> Has(arenas, od, k) && arenas[od][k] == old(arenas)[od][k]
    {
      var chunks := arenas[id];
      if chunks == [] || Newest(id).cap - Newest(id).used < n {
        if chunks != [] {
          assert Has(arenas, id, |chunks| - 1);
        }
        var cap := if chunks != [] then Newest(id).cap * 2 else CHUNK0;
        if cap < n { cap := n; }
        var junk: seq<Byte> :| |junk| == cap by { assert |Repeat(0, cap)| == cap; }
        var data := Malloc(junk, Room(|mem|));
        var c := Chunk(data, 0, cap);
        AddChunk(old(mem), old(tag), mem, tag, blocks, counter, arenas, id, c);
        arenas := arenas[id := chunks + [c]];
      }
    }

    /** A block from an arena, all zero. */
    method ArenaAlloc(id: nat, bytes: nat) returns (p: Ptr)
      requires Valid() && id in arenas && counter + 1 < FILLED && bytes < 0x8000_0000_0000_0000
      modifies this`mem, this`counter, this`blocks, this`tag, this`arenas
      ensures Valid() && id in arenas && arenas[id] != [] && counter == old(counter) + 1
      ensures |mem| >= |old(mem)| && |blocks| == |old(blocks)| + 1 && old(blocks) <= blocks
      ensures var b := blocks[|old(blocks)|];
        b.size == bytes && b.gen == counter && b.state == Live && Inside(b, Newest(id)) && p == Ptr(b.base, 0, b.gen) && ZeroAt(mem, b)
      ensures forall j :: 0 <= j < |old(blocks)| ==> Kept(old(mem), mem, old(blocks)[j].base, End(old(blocks)[j]))
    {
      var n := (GUARD + bytes + 15) / 16 * 16;
      MoreRoom(id, n);
      ghost var mid := mem;
      p := Carve(id, bytes, n);
      KeptThrough(old(mem), mid, mem, old(blocks));
    }

    /** The block that the newest chunk has room for next. */
    ghost function Next(id: nat, bytes: nat): Block
      requires id in arenas && arenas[id] != []
      reads this
    {
      Block(Newest(id).data + Newest(id).used, bytes, counter + 1, Some(Newest(id).data), Live)
    }

    /** Hands out the next `n` bytes of the newest chunk. */
    method Carve(id: nat, bytes: nat, n: nat) returns (p: Ptr)
      requires Valid() && id in arenas && arenas[id] != [] && counter + 1 < FILLED && bytes < 0x8000_0000_0000_0000
      requires GUARD + bytes <= n && Newest(id).used + n <= Newest(id).cap
      modifies this`mem, this`counter, this`blocks, this`tag, this`arenas
      ensures Valid() && counter == old(counter) + 1 && arenas == Used(old(arenas), id, |old(arenas[id])| - 1, n)
      ensures var b := old(Next(id, bytes));
        End(b) <= |old(mem)| && mem == Carved(old(mem), b) && ZeroAt(mem, b) && blocks == old(blocks) + [b] && p == Ptr(b.base, 0, b.gen) &&
        id in arenas && arenas[id] != [] && Inside(b, Newest(id))
      ensures forall j :: 0 <= j < |old(blocks)| ==> Kept(old(mem), mem, old(blocks)[j].base, End(old(blocks)[j]))
    {
      var k := |arenas[id]| - 1;
      var c := arenas[id][k];
      var b := Block(c.data + c.used, bytes, counter + 1, Some(c.data), Live);
      assert Has(arenas, id, k) && b == Next(id, bytes);
      CarveOk(mem, tag, blocks, counter, arenas, id, k, b, n);
      mem := Carved(mem, b);
      assert ZeroAt(mem, b);
      counter := counter + 1;
      tag := CarvedTag(tag, |blocks|, b, n);
      blocks := blocks + [b];
      UsedNewest(arenas, id, n);
      arenas := Used(arenas, id, k, n);
      p := Ptr(b.base, 0, b.gen);
    }

    /** Fills the used part of the newest chunk of an arena and gives it up. */
    method DropNewest(id: nat)
      requires Valid() && id in arenas && arenas[id] != []
      modifies this`mem, this`blocks, this`arenas
      ensures Valid() && |mem| == |old(mem)|
      ensures arenas == old(arenas)[id := old(arenas)[id][..|old(arenas)[id]| - 1]]
      ensures blocks == Dropping(old(blocks), old(Newest(id)).data)
      ensures forall i :: 0 <= i < |blocks| && blocks[i].home != Some(old(Newest(id)).data) ==>
        Kept(old(mem), mem, blocks[i].base, End(blocks[i]))
    {
      var k := |arenas[id]| - 1;
      var c := arenas[id][k];
      assert Has(arenas, id, k) && ChunkOk(mem, tag, blocks, c);
      DropBlocks(mem, tag, blocks, counter, arenas, id, k);
      DropHomes(mem, tag, blocks, arenas, id);
      mem := Put(mem, c.data, Repeat(FILL, c.used));
      blocks := Dropping(blocks, c.data);
      arenas := arenas[id := arenas[id][..k]];
    }

    /** Drops an arena: every block in it is dead, and every other block is as it was. */
    method ArenaDrop(id: nat)
      requires Valid() && id in arenas
      modifies this`mem, this`blocks, this`arenas
      ensures Valid() && |mem| == |old(mem)| && arenas == old(arenas)[id := []]
      ensures |blocks| == |old(blocks)|
      ensures forall i :: 0 <= i < |blocks| ==>
        blocks[i] == if InOne(old(blocks)[i], old(arenas)[id], 0) then old(blocks)[i].(state := Dropped) else old(blocks)[i]
      ensures forall i :: 0 <= i < |blocks| && !InOne(old(blocks)[i], old(arenas)[id], 0) ==>
        Kept(old(mem), mem, blocks[i].base, End(blocks[i]))
    {
      ghost var chunks := arenas[id];
      while arenas[id] != []
        invariant Valid() && |mem| == |old(mem)| && id in arenas && arenas[id] <= chunks
        invariant arenas == old(arenas)[id := arenas[id]] && |blocks| == |old(blocks)|
        invariant forall i :: 0 <= i < |blocks| ==>
          blocks[i] == if InOne(old(blocks)[i], chunks, |arenas[id]|) then old(blocks)[i].(state := Dropped) else old(blocks)[i]
        invariant forall i :: 0 <= i < |blocks| && !InOne(old(blocks)[i], chunks, |arenas[id]|) ==>
          Kept(old(mem), mem, blocks[i].base, End(blocks[i]))
        decreases |arenas[id]|
      {
        ghost var k := |arenas[id]| - 1;
        assert arenas[id][k] == chunks[k];
        forall i | 0 <= i < |blocks|
          ensures InOne(old(blocks)[i], chunks, k) <==>
            InOne(old(blocks)[i], chunks, k + 1) || old(blocks)[i].home == Some(chunks[k].data)
        {
          InOneMore(old(blocks)[i], chunks, k);
        }
        DropNewest(id);
      }
    }
  }

  /** The data of the block lies in memory and is all zero. */
  ghost predicate ZeroAt(m: seq<Byte>, b: Block) {
    End(b) <= |m| && forall a :: Data(b) <= a < End(b) ==> m[a] == 0
  }

  /** The block lies in one of the chunks from `k` on. */
  ghost predicate InOne(b: Block, chunks: seq<Chunk>, k: nat) {
    exists j :: k <= j < |chunks| && b.home == Some(chunks[j].data)
  }

  lemma InOneMore(b: Block, chunks: seq<Chunk>, k: nat)
    requires k < |chunks|
    ensures InOne(b, chunks, k) <==> InOne(b, chunks, k + 1) || b.home == Some(chunks[k].data)
  {
  }

  ghost function Dropping(blocks: seq<Block>, home: nat): (r: seq<Block>)
    ensures |r| == |blocks|
    ensures forall i :: 0 <= i < |blocks| ==>
      r[i] == if blocks[i].home == Some(home) then blocks[i].(state := Dropped) else blocks[i]
  {
    seq(|blocks|, i requires 0 <= i < |blocks| => if blocks[i].home == Some(home) then blocks[i].(state := Dropped) else blocks[i])
  }

  /** The blocks of a chunk lie in its used part. */
  lemma AtHome(m: seq<Byte>, tag: seq<Tag>, blocks: seq<Block>, arenas: Arenas, id: nat, k: nat, i: nat)
    requires ChunksOk(m, tag, blocks, arenas) && HomesOk(blocks, arenas) && Has(arenas, id, k) && i < |blocks|
    requires blocks[i].home == Some(arenas[id][k].data)
    ensures blocks[i].state.Live? && Inside(blocks[i], arenas[id][k])
  {
    assert Housed(blocks[i], arenas);
    var od: nat, j: nat :| Has(arenas, od, j) && Inside(blocks[i], arenas[od][j]);
  }

  lemma FilledGuard(m: seq<Byte>, b: Block)
    requires b.base + GUARD <= |m| && forall a :: b.base <= a < b.base + GUARD ==> m[a] == FILL
    ensures GuardReads(m, b, FILLED, FILLED, FILLED)
  {
    FilledWord(m, b.base);
    FilledWord(m, b.base + 8);
    FilledWord(m, b.base + 16);
  }

  lemma DropBlocks(m: seq<Byte>, tag: seq<Tag>, blocks: seq<Block>, counter: nat, arenas: Arenas, id: nat, k: nat)
    requires HeapOk(m, tag, blocks, counter, arenas) && Has(arenas, id, k)
    ensures var c := arenas[id][k]; c.data + c.used <= |m|
    ensures var c := arenas[id][k]; var n := Put(m, c.data, Repeat(FILL, c.used));
      BlocksOk(n, tag, Dropping(blocks, c.data), counter) &&
      forall i :: 0 <= i < |blocks| && blocks[i].home != Some(c.data) ==> Kept(m, n, blocks[i].base, End(blocks[i]))
  {
    var c := arenas[id][k];
    assert ChunkOk(m, tag, blocks, c);
    var n := Put(m, c.data, Repeat(FILL, c.used));
    var dead := Dropping(blocks, c.data);
    forall i | 0 <= i < |blocks| && blocks[i].home != Some(c.data) ensures Kept(m, n, blocks[i].base, End(blocks[i])) {
      Elsewhere(m, tag, blocks, counter, c, i, n);
    }
    forall i | 0 <= i < |dead| ensures BlockOk(n, dead[i], counter) {
      assert BlockOk(m, blocks[i], counter);
      if blocks[i].home == Some(c.data) {
        AtHome(m, tag, blocks, arenas, id, k, i);
        FilledGuard(n, dead[i]);
      } else {
        GuardSame(m, n, blocks[i]);
      }
    }
  }

  lemma Elsewhere(m: seq<Byte>, tag: seq<Tag>, blocks: seq<Block>, counter: nat, c: Chunk, i: nat, n: seq<Byte>)
    requires BlocksOk(m, tag, blocks, counter) && ChunkOk(m, tag, blocks, c)
    requires i < |blocks| && blocks[i].home != Some(c.data) && |n| == |m|
    requires forall a :: 0 <= a < |m| && !(c.data <= a < c.data + c.used) ==> n[a] == m[a]
    ensures Kept(m, n, blocks[i].base, End(blocks[i]))
  {
    forall a | blocks[i].base <= a < End(blocks[i]) && a < |m| ensures n[a] == m[a] {
      assert tag[a] == Of(i);
    }
  }

  lemma DropHomes(m: seq<Byte>, tag: seq<Tag>, blocks: seq<Block>, arenas: Arenas, id: nat)
    requires ChunksOk(m, tag, blocks, arenas) && HomesOk(blocks, arenas) && id in arenas && arenas[id] != []
    ensures var k := |arenas[id]| - 1; var c := arenas[id][k];
      c.data + c.used <= |m| &&
      ChunksOk(Put(m, c.data, Repeat(FILL, c.used)), tag, Dropping(blocks, c.data), arenas[id := arenas[id][..k]]) &&
      HomesOk(Dropping(blocks, c.data), arenas[id := arenas[id][..k]])
  {
    var k := |arenas[id]| - 1;
    var c := arenas[id][k];
    assert Has(arenas, id, k) && ChunkOk(m, tag, blocks, c);
    var fewer := arenas[id := arenas[id][..k]];
    var dead := Dropping(blocks, c.data);
    ChunksKeep(m, tag, blocks, arenas, Put(m, c.data, Repeat(FILL, c.used)), dead);
    forall od: nat, j: nat | Has(fewer, od, j)
      ensures Has(arenas, od, j) && fewer[od][j] == arenas[od][j] && arenas[od][j].data != c.data { }
    forall i | 0 <= i < |dead| && dead[i].home.Some? && dead[i].state.Live? ensures Housed(dead[i], fewer) {
      assert Housed(blocks[i], arenas);
      var od: nat, j: nat :| Has(arenas, od, j) && Inside(blocks[i], arenas[od][j]);
      assert Has(fewer, od, j);
    }
  }

  /** The memory with a new block in it, all zero but for its guard. */
  function Carved(m: seq<Byte>, b: Block): (r: seq<Byte>)
    requires End(b) <= |m|
    ensures |r| == |m| && (forall a :: 0 <= a < |m| && !(b.base <= a < End(b)) ==> r[a] == m[a])
    ensures forall a :: Data(b) <= a < End(b) ==> r[a] == 0
  {
    WithGuard(Zeroed(m, b), b)
  }

  function Zeroed(m: seq<Byte>, b: Block): (r: seq<Byte>)
    requires End(b) <= |m|
    ensures |r| == |m| && (forall a :: 0 <= a < |m| && !(b.base <= a < End(b)) ==> r[a] == m[a])
    ensures forall a :: b.base <= a < End(b) ==> r[a] == 0
  {
    Put(m, b.base, Repeat(0, GUARD + b.size))
  }

  ghost function CarvedTag(tag: seq<Tag>, i: nat, b: Block, n: nat): (r: seq<Tag>)
    requires End(b) <= b.base + n <= |tag|
    ensures |r| == |tag|
    ensures forall a :: 0 <= a < |tag| ==>
      r[a] == if b.base <= a < End(b) then Of(i) else if End(b) <= a < b.base + n then Pad else tag[a]
  {
    Tagged(Tagged(tag, b.base, End(b), Of(i)), End(b), b.base + n, Pad)
  }

  lemma CarveBlocks(m: seq<Byte>, tag: seq<Tag>, blocks: seq<Block>, counter: nat, b: Block, n: nat)
    requires BlocksOk(m, tag, blocks, counter) && b.gen == counter + 1 < FILLED && b.size < 0x8000_0000_0000_0000
    requires End(b) <= b.base + n <= |m| && b.state.Live? && b.home.Some? && b.home.value <= b.base
    requires forall a :: b.base <= a < b.base + n ==> !tag[a].Of?
    ensures BlocksOk(Carved(m, b), CarvedTag(tag, |blocks|, b, n), blocks + [b], counter + 1)
  {
    ZeroedOk(m, tag, blocks, counter, b);
    NewBlockOk(Zeroed(m, b), tag, blocks, b);
    PadOk(Carved(m, b), Tagged(tag, b.base, End(b), Of(|blocks|)), blocks + [b], counter + 1, End(b), b.base + n);
  }

  lemma ZeroedOk(m: seq<Byte>, tag: seq<Tag>, blocks: seq<Block>, counter: nat, b: Block)
    requires BlocksOk(m, tag, blocks, counter) && End(b) <= |m|
    requires forall a :: b.base <= a < End(b) ==> !tag[a].Of?
    ensures BlocksOk(Zeroed(m, b), tag, blocks, counter)
  {
    BlocksStay(m, tag, blocks, counter, Zeroed(m, b), tag);
  }

  lemma PadOk(m: seq<Byte>, tag: seq<Tag>, blocks: seq<Block>, counter: nat, from: nat, to: nat)
    requires BlocksOk(m, tag, blocks, counter) && from <= to <= |m|
    requires forall a :: from <= a < to ==> !tag[a].Of?
    ensures BlocksOk(m, Tagged(tag, from, to, Pad), blocks, counter)
  {
    BlocksStay(m, tag, blocks, counter, m, Tagged(tag, from, to, Pad));
  }

  lemma CarveKeeps(m: seq<Byte>, tag: seq<Tag>, blocks: seq<Block>, counter: nat, b: Block)
    requires BlocksOk(m, tag, blocks, counter) && End(b) <= |m|
    requires forall a :: b.base <= a < End(b) ==> !tag[a].Of?
    ensures forall j :: 0 <= j < |blocks| ==> Kept(m, Carved(m, b), blocks[j].base, End(blocks[j]))
  {
    forall j | 0 <= j < |blocks| ensures Kept(m, Carved(m, b), blocks[j].base, End(blocks[j])) {
      BlockKept(m, tag, blocks, counter, j, Carved(m, b));
    }
  }

  /** A chunk with `n` more bytes in use. */
  function Used(arenas: Arenas, id: nat, k: nat, n: nat): Arenas
    requires id in arenas && k < |arenas[id]|
  {
    arenas[id := arenas[id][k := arenas[id][k].(used := arenas[id][k].used + n)]]
  }

  ghost predicate HeapOk(m: seq<Byte>, tag: seq<Tag>, blocks: seq<Block>, counter: nat, arenas: Arenas) {
    BlocksOk(m, tag, blocks, counter) && ChunksOk(m, tag, blocks, arenas) && HomesOk(blocks, arenas)
  }

  lemma CarveOk(m: seq<Byte>, tag: seq<Tag>, blocks: seq<Block>, counter: nat, arenas: Arenas, id: nat, k: nat, b: Block, n: nat)
    requires HeapOk(m, tag, blocks, counter, arenas) && Has(arenas, id, k)
    requires b.gen == counter + 1 < FILLED && b.size < 0x8000_0000_0000_0000 && b.state.Live?
    requires var c := arenas[id][k];
      b.base == c.data + c.used && b.home == Some(c.data) && GUARD + b.size <= n && c.used + n <= c.cap
    ensures End(b) <= b.base + n <= |m|
    ensures HeapOk(Carved(m, b), CarvedTag(tag, |blocks|, b, n), blocks + [b], counter + 1, Used(arenas, id, k, n))
    ensures forall j :: 0 <= j < |blocks| ==> Kept(m, Carved(m, b), blocks[j].base, End(blocks[j]))
  {
    assert ChunkOk(m, tag, blocks, arenas[id][k]);
    CarveBlocks(m, tag, blocks, counter, b, n);
    CarveKeeps(m, tag, blocks, counter, b);
    CarveChunks(m, tag, blocks, arenas, id, k, End(b), n, Carved(m, b), CarvedTag(tag, |blocks|, b, n), blocks + [b]);
    CarveHomes(blocks, arenas, id, k, n, b);
  }

  lemma UsedNewest(arenas: Arenas, id: nat, n: nat)
    requires id in arenas && arenas[id] != []
    ensures var k := |arenas[id]| - 1;
      var u := Used(arenas, id, k, n);
      id in u && |u[id]| == k + 1 && u[id][k] == arenas[id][k].(used := arenas[id][k].used + n)
  {
  }

  /** Moving a pointer changes where it points in its block, nothing else. */
  function Add(p: Ptr, byteOff: int): (r: Ptr)
    ensures p.NullPtr? ==> r.NullPtr?
    ensures p.Ptr? ==> r.Ptr? && r.off - p.off == byteOff && r.g == p.g && r.gen == p.gen
  {
    if p.NullPtr? then p else p.(off := p.off + byteOff)
  }

  ghost predicate Kept(m: seq<Byte>, n: seq<Byte>, from: nat, to: nat) {
    |n| >= |m| && forall a :: from <= a < to && a < |m| ==> n[a] == m[a]
  }

  lemma KeptThrough(m: seq<Byte>, mid: seq<Byte>, n: seq<Byte>, blocks: seq<Block>)
    requires m <= mid && forall j :: 0 <= j < |blocks| ==> Kept(mid, n, blocks[j].base, End(blocks[j]))
    ensures forall j :: 0 <= j < |blocks| ==> Kept(m, n, blocks[j].base, End(blocks[j]))
  {
  }

  lemma NewBlockOk(m: seq<Byte>, tag: seq<Tag>, blocks: seq<Block>, b: Block)
    requires 0 < b.gen < FILLED && b.size < 0x8000_0000_0000_0000 && End(b) <= |m| && b.state.Live?
    requires BlocksOk(m, tag, blocks, b.gen - 1)
    requires forall a :: b.base <= a < End(b) ==> !tag[a].Of?
    requires b.home.Some? ==> b.home.value <= b.base
    ensures BlocksOk(WithGuard(m, b), Tagged(tag, b.base, End(b), Of(|blocks|)), blocks + [b], b.gen)
  {
    var n, nag := WithGuard(m, b), Tagged(tag, b.base, End(b), Of(|blocks|));
    GuardedReads(m, b, b.gen, b.size, if b.home.Some? then 1 else 0);
    BlocksStay(m, tag, blocks, b.gen - 1, n, nag);
    AddBlock(n, nag, blocks, b.gen - 1, b);
  }

  /** A write inside a block's data. */
  lemma WriteKeeps(m: seq<Byte>, tag: seq<Tag>, blocks: seq<Block>, counter: nat, i: nat, at: nat, bs: seq<Byte>)
    requires BlocksOk(m, tag, blocks, counter) && i < |blocks|
    requires Data(blocks[i]) <= at && at + |bs| <= End(blocks[i])
    ensures at + |bs| <= |m| && BlocksOk(Put(m, at, bs), tag, blocks, counter)
    ensures forall j :: 0 <= j < |blocks| && j != i ==> Kept(m, Put(m, at, bs), blocks[j].base, End(blocks[j]))
  {
    assert BlockOk(m, blocks[i], counter);
    var n := Put(m, at, bs);
    forall a | at <= a < at + |bs| ensures tag[a] == Of(i) { }
    GuardSame(m, n, blocks[i]);
    ChangeBlock(m, tag, blocks, counter, i, n, blocks[i]);
    assert blocks[i := blocks[i]] == blocks;
    OthersKept(m, tag, blocks, counter, i, n);
  }

  lemma OthersKept(m: seq<Byte>, tag: seq<Tag>, blocks: seq<Block>, counter: nat, i: nat, n: seq<Byte>)
    requires BlocksOk(m, tag, blocks, counter) && |n| == |m|
    requires forall a :: 0 <= a < |m| && tag[a] != Of(i) ==> n[a] == m[a]
    ensures forall j :: 0 <= j < |blocks| && j != i ==> Kept(m, n, blocks[j].base, End(blocks[j]))
  {
    forall j, a | 0 <= j < |blocks| && j != i && blocks[j].base <= a < End(blocks[j]) && a < |m| ensures n[a] == m[a] {
      assert tag[a] == Of(j);
    }
  }

  lemma FreeKeeps(m: seq<Byte>, tag: seq<Tag>, blocks: seq<Block>, counter: nat, i: nat)
    requires BlocksOk(m, tag, blocks, counter) && i < |blocks| && blocks[i].state.Live? && blocks[i].home.None?
    ensures End(blocks[i]) <= |m|
    ensures var b := blocks[i]; var n := Put(SetWord(m, b.base, 0), Data(b), Repeat(FILL, b.size));
      BlocksOk(n, tag, blocks[i := b.(state := Freed)], counter) &&
      forall j :: 0 <= j < |blocks| && j != i ==> Kept(m, n, blocks[j].base, End(blocks[j]))
  {
    var b := blocks[i];
    assert BlockOk(m, b, counter);
    var x := SetWord(m, b.base, 0);
    var n := Put(x, Data(b), Repeat(FILL, b.size));
    SetWordReads(m, b.base, 0);
    WordSame(x, n, b.base);
    WordSame(m, n, b.base + 8);
    WordSame(m, n, b.base + 16);
    forall a | 0 <= a < |m| && tag[a] != Of(i) ensures n[a] == m[a] {
      assert !(b.base <= a < End(b));
    }
    ChangeBlock(m, tag, blocks, counter, i, n, b.(state := Freed));
    OthersKept(m, tag, blocks, counter, i, n);
  }

  /** A block in memory that was not there before. */
  lemma AllocOk(l: seq<Byte>, lag: seq<Tag>, m: seq<Byte>, tag: seq<Tag>, blocks: seq<Block>, arenas: Arenas, b: Block)
    requires 0 < b.gen < FILLED && b.size < 0x8000_0000_0000_0000 && b.state.Live? && b.home.None?
    requires b.base == |l| && End(b) == |m| && |lag| == |l| && |tag| == |m| && lag <= tag
    requires HeapOk(m, tag, blocks, b.gen - 1, arenas) && ChunksOk(l, lag, blocks, arenas)
    requires forall a :: |l| <= a < |m| ==> !tag[a].Of?
    ensures HeapOk(WithGuard(m, b), Tagged(tag, b.base, End(b), Of(|blocks|)), blocks + [b], b.gen, arenas)
  {
    var n, nag := WithGuard(m, b), Tagged(tag, b.base, End(b), Of(|blocks|));
    NewBlockOk(m, tag, blocks, b);
    assert lag <= nag;
    ChunksStay(l, lag, blocks, arenas, n, nag);
    ChunksKeep(n, nag, blocks, arenas, n, blocks + [b]);
    NoHome(blocks, arenas, b);
  }

  lemma NoHome(blocks: seq<Block>, arenas: Arenas, b: Block)
    requires HomesOk(blocks, arenas) && b.home.None?
    ensures HomesOk(blocks + [b], arenas)
  {
    var bs := blocks + [b];
    forall i | 0 <= i < |bs| && bs[i].home.Some? ensures i < |blocks| && bs[i] == blocks[i] { }
  }

  /** Two blocks never share a byte. */
  lemma BlocksApart(m: seq<Byte>, tag: seq<Tag>, blocks: seq<Block>, counter: nat, i: nat, j: nat)
    requires BlocksOk(m, tag, blocks, counter) && i < |blocks| && j < |blocks| && i != j
    ensures End(blocks[i]) <= blocks[j].base || End(blocks[j]) <= blocks[i].base
  {
    var a := if blocks[i].base > blocks[j].base then blocks[i].base else blocks[j].base;
    if a < End(blocks[i]) && a < End(blocks[j]) {
      Owner(m, tag, blocks, counter, i, a);
      Owner(m, tag, blocks, counter, j, a);
    }
  }

  lemma Owner(m: seq<Byte>, tag: seq<Tag>, blocks: seq<Block>, counter: nat, i: nat, a: nat)
    requires BlocksOk(m, tag, blocks, counter) && i < |blocks| && blocks[i].base <= a < End(blocks[i])
    ensures a < |tag| && tag[a] == Of(i)
  {
    assert BlockOk(m, blocks[i], counter);
  }

  lemma ChunksStay(m: seq<Byte>, tag: seq<Tag>, blocks: seq<Block>, arenas: Arenas, n: seq<Byte>, nag: seq<Tag>)
    requires ChunksOk(m, tag, blocks, arenas) && |n| == |nag| && |m| <= |n| && |tag| == |m| && tag <= nag
    ensures ChunksOk(n, nag, blocks, arenas)
  {
    forall id: nat, k: nat | Has(arenas, id, k) ensures ChunkOk(n, nag, blocks, arenas[id][k]) {
      assert ChunkOk(m, tag, blocks, arenas[id][k]);
    }
  }
}
