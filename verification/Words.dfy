/** Byte lanes of the load/store unit (src/lsu/LoadQueue.bsv, src/lsu/StoreQueue.bsv):
    how an aligned access is placed on a 32-bit word and taken off it again.
    A `Bit#(32)` that travels to or from memory is its four bytes, least
    significant first; the shifts of the source are by whole bytes. An address is
    a number. */
module Words {
  import opened Bits

  type Byte = n: nat | n < 256

  type Word = w: seq<Byte> | |w| == 4 witness [0, 0, 0, 0]

  type Addr = n: nat | n < 0x1_0000_0000

  const ZERO: Word := [0, 0, 0, 0]

  datatype Size = Full | Half | Single

  type Strobes = m: seq<bool> | |m| == 4 witness [false, false, false, false]

  /** A write request: the address is a multiple of four, `mask` has a bit per byte. */
  datatype Beat = Beat(addr: Addr, data: Word, mask: Strobes)

  /** Word-addressed memory; what was never written reads as zero. */
  type Memory = map<Addr, Word>

  function Read(mem: Memory, addr: Addr): Word {
    if addr in mem then mem[addr] else ZERO
  }

  /** `{addr[31:2], 2'b00}` */
  function WordOf(addr: Addr): Addr {
    addr - addr % 4
  }

  predicate Aligned(size: Size, addr: Addr) {
    match size
    case Full => addr % 4 == 0
    case Half => addr % 2 == 0
    case Single => true
  }

  function Next(pc: Addr): Addr {
    (pc + 4) % 0x1_0000_0000
  }

  function BytesLeft(w: Word, k: nat): Word {
    seq(4, i requires 0 <= i < 4 => if i >= k then w[i - k] else 0)
  }

  function BytesRight(w: Word, k: nat): Word {
    seq(4, i requires 0 <= i < 4 => if i + k < 4 then w[i + k] else 0)
  }

  function Strobe(size: Size): Strobes {
    match size
    case Full => [true, true, true, true]
    case Half => [true, true, false, false]
    case Single => [true, false, false, false]
  }

  /** The store buffer entry of a store. */
  function StoreBeat(size: Size, addr: Addr, data: Word): Beat {
    Beat(WordOf(addr), BytesLeft(data, addr % 4), ShiftLeft(Strobe(size), addr % 4))
  }

  /** The bits above byte `n` of a sign- or zero-extended value. */
  function Extension(signed: bool, top: Byte): Byte {
    if signed && top >= 128 then 255 else 0
  }

  /** The value a load takes out of the word that was read. */
  function Extract(size: Size, signed: bool, addr: Addr, word: Word): Word {
    var rd := BytesRight(word, addr % 4);
    match size
    case Full => rd
    case Half => var e := Extension(signed, rd[1]); [rd[0], rd[1], e, e]
    case Single => var e := Extension(signed, rd[0]); [rd[0], e, e, e]
  }

  function Merge(before: Word, data: Word, mask: Strobes): Word {
    seq(4, i requires 0 <= i < 4 => if mask[i] then data[i] else before[i])
  }

  function Write(mem: Memory, b: Beat): Memory {
    mem[b.addr := Merge(Read(mem, b.addr), b.data, b.mask)]
  }

  // ----- the same operations read byte by byte

  function Bytes(size: Size): nat {
    match size
    case Full => 4
    case Half => 2
    case Single => 1
  }

  /** The byte at a byte address. */
  function ByteAt(mem: Memory, addr: Addr): Byte {
    Read(mem, WordOf(addr))[addr % 4]
  }

  /** The bytes of a word that a store at offset `r` writes. */
  lemma LanesWritten(before: Word, size: Size, data: Word, r: nat, j: nat)
    requires r + Bytes(size) <= 4 && j < 4
    ensures Merge(before, BytesLeft(data, r), ShiftLeft(Strobe(size), r))[j]
            == if r <= j < r + Bytes(size) then data[j - r] else before[j]
  {
  }

  /** A committed store writes the low bytes of its operand at its own byte
      addresses, little-endian, and leaves every other byte alone. */
  lemma StoreWritesItsBytes(mem: Memory, size: Size, addr: Addr, data: Word, at: Addr)
    requires Aligned(size, addr)
    ensures ByteAt(Write(mem, StoreBeat(size, addr, data)), at)
            == if addr <= at < addr + Bytes(size) then data[at - addr] else ByteAt(mem, at)
  {
    hide Merge, BytesLeft, Strobe;
    var r, j := addr % 4, at % 4;
    SameWord(size, addr, Bytes(size) - 1);
    if WordOf(at) == WordOf(addr) {
      assert at - j == addr - r;
      LanesWritten(Read(mem, WordOf(addr)), size, data, r, j);
    } else if addr <= at < addr + Bytes(size) {
      SameWord(size, addr, at - addr);
    }
  }

  lemma Lane(q: nat, s: nat)
    requires s < 4
    ensures (4 * q + s) % 4 == s
  {
  }

  lemma HalfLane(q: nat, r: nat, h: nat)
    requires r < 4 && 4 * q + r == 2 * h
    ensures r == 0 || r == 2
  {
    var d := h - 2 * q;
    assert r == 2 * d;
  }

  lemma SameWord(size: Size, addr: Addr, i: nat)
    requires Aligned(size, addr) && i < Bytes(size)
    ensures addr + i < 0x1_0000_0000 && WordOf(addr + i) == WordOf(addr) && (addr + i) % 4 == addr % 4 + i
  {
    var q, r := addr / 4, addr % 4;
    if size == Half {
      HalfLane(q, r, addr / 2);
    }
    assert addr + i == 4 * q + (r + i);
    Lane(q, r + i);
  }

  /** A load returns the bytes at its own addresses, little-endian, the rest
      filled with zeros or with copies of the sign. */
  lemma LoadReadsItsBytes(mem: Memory, size: Size, signed: bool, addr: Addr, i: nat)
    requires Aligned(size, addr) && i < 4
    ensures addr + Bytes(size) <= 0x1_0000_0000
    ensures var v := Extract(size, signed, addr, Read(mem, WordOf(addr)));
            v[i] == if i < Bytes(size) then ByteAt(mem, addr + i)
                    else Extension(signed, ByteAt(mem, addr + Bytes(size) - 1))
  {
    var top := Bytes(size) - 1;
    SameWord(size, addr, top);
    if i < Bytes(size) {
      SameWord(size, addr, i);
    }
    hide WordOf, Read;
    var word := Read(mem, WordOf(addr));
    assert BytesRight(word, addr % 4)[top] == word[addr % 4 + top];
    assert i < Bytes(size) ==> BytesRight(word, addr % 4)[i] == word[addr % 4 + i];
  }
}
