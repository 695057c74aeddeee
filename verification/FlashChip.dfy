/** The flash memory: partitions, erased in sectors to 0xFF and programmed by clearing bits. */
module FlashChip {
  import opened Common
  import opened OtaSession

  const SECTOR: nat := 4096

  datatype Kind = OtaApp | FatData | OtherKind

  /** An entry of the partition table. */
  datatype Partition = Partition(name: string, kind: Kind, size: u32)

  type Content = map<Partition, seq<bv8>>

  function Fills(n: nat): (r: seq<bv8>)
    ensures |r| == n && forall i :: 0 <= i < n ==> r[i] == 0xFF
  {
    seq(n, _ => FILL)
  }

  /** Programming flash memory clears bits and never sets one. */
  function And(old_: seq<bv8>, bytes: seq<bv8>): (r: seq<bv8>)
    requires |old_| == |bytes|
    ensures |r| == |bytes|
  {
    seq(|bytes|, i requires 0 <= i < |bytes| => old_[i] & bytes[i])
  }

  function Programmed(mem: seq<bv8>, at: nat, bytes: seq<bv8>): (r: seq<bv8>)
    requires at + |bytes| <= |mem|
    ensures |r| == |mem|
  {
    mem[..at] + And(mem[at..at + |bytes|], bytes) + mem[at + |bytes|..]
  }

  /** Only bytes that are still erased take the programmed value; that is why no offset may
      be written twice. */
  lemma ErasedTakesValue(mem: seq<bv8>, at: nat, bytes: seq<bv8>)
    requires at + |bytes| <= |mem|
    requires mem[at..at + |bytes|] == Fills(|bytes|)
    ensures Programmed(mem, at, bytes) == mem[..at] + bytes + mem[at + |bytes|..]
  {
    forall i | 0 <= i < |bytes| ensures And(mem[at..at + |bytes|], bytes)[i] == bytes[i] {
      assert mem[at..at + |bytes|][i] == FILL;
      assert FILL & bytes[i] == bytes[i];
    }
    assert And(mem[at..at + |bytes|], bytes) == bytes;
  }

  /** Programming only clears bits, and only those of the bytes it is given. */
  lemma ProgrammingClears(mem: seq<bv8>, at: nat, bytes: seq<bv8>, i: nat)
    requires at + |bytes| <= |mem| && i < |mem|
    ensures var r := Programmed(mem, at, bytes);
            if at <= i < at + |bytes|
            then r[i] & mem[i] == r[i] && r[i] & bytes[i - at] == r[i] && r[i] | mem[i] == mem[i]
            else r[i] == mem[i]
  {
    if at <= i < at + |bytes| {
      var a, b := mem[i], bytes[i - at];
      assert Programmed(mem, at, bytes)[i] == a & b;
      assert (a & b) & a == a & b && (a & b) & b == a & b && (a & b) | a == a;
    }
  }

  /** A partition of which the first sectors have been erased. */
  function ErasedTo(mem: seq<bv8>, at: nat): (r: seq<bv8>)
    requires at <= |mem|
    ensures |r| == |mem|
  {
    Fills(at) + mem[at..]
  }

  class Flash {
    var content: Content

    ghost predicate Valid()
      reads this
    {
      forall p :: p in content ==> |content[p]| == p.size
    }

    constructor (content: Content)
      requires forall p :: p in content ==> |content[p]| == p.size
      ensures Valid() && this.content == content
    {
      this.content := content;
    }

    method EraseSector(p: Partition, at: nat, works: bool) returns (err: Err)
      requires Valid() && p in content && at + SECTOR <= p.size
      modifies this
      ensures Valid()
      ensures err == if works then OK else FLASH_FAILED
      ensures content == if !works then old(content)
        else old(content)[p := old(content)[p][..at] + Fills(SECTOR) + old(content)[p][at + SECTOR..]]
    {
      if !works { return FLASH_FAILED; }
      content := content[p := content[p][..at] + Fills(SECTOR) + content[p][at + SECTOR..]];
      err := OK;
    }

    method Write(p: Partition, at: nat, bytes: seq<bv8>, works: bool) returns (err: Err)
      requires Valid() && p in content
      modifies this
      ensures Valid()
      ensures err == if works && at + |bytes| <= p.size then OK else FLASH_FAILED
      ensures err == OK ==> content == old(content)[p := Programmed(old(content)[p], at, bytes)]
      ensures err != OK ==> content == old(content)
    {
      if !works || at + |bytes| > p.size { return FLASH_FAILED; }
      content := content[p := Programmed(content[p], at, bytes)];
      err := OK;
    }
  }

  /** How far an erasure gets: `failAt` is the sector that cannot be erased, if there is one. */
  function EraseResult(mem: seq<bv8>, size: u32, failAt: Option<nat>): (r: (seq<bv8>, Err))
    requires |mem| == size
    ensures |r.0| == size
    ensures r.1 == OK <==> r.0 == Fills(size) && size % 4096 == 0 && (failAt.None? || failAt.value >= size / 4096)
    ensures r.1 == OK || r.1 == INVALID_SIZE || r.1 == FLASH_FAILED
  {
    if size % SECTOR != 0 then (mem, INVALID_SIZE)
    else if failAt.None? || failAt.value >= size / SECTOR then (Fills(size), OK)
    else (ErasedTo(mem, failAt.value * SECTOR), FLASH_FAILED)
  }

  lemma ErasedFurther(mem: seq<bv8>, at: nat)
    requires at + SECTOR <= |mem|
    ensures ErasedTo(mem, at)[..at] + Fills(SECTOR) + ErasedTo(mem, at)[at + SECTOR..] == ErasedTo(mem, at + SECTOR)
  {
  }

  /** Erases a partition sector by sector. */
  method ErasePartition(flash: Flash, p: Partition, failAt: Option<nat>) returns (err: Err)
    requires flash.Valid() && p in flash.content
    modifies flash
    ensures flash.Valid() && p in flash.content
    ensures (flash.content[p], err) == EraseResult(old(flash.content[p]), p.size, failAt)
    ensures flash.content == old(flash.content)[p := flash.content[p]]
  {
    if p.size % SECTOR != 0 {
      assert flash.content[p := flash.content[p]] == flash.content;
      return INVALID_SIZE;
    }
    ghost var mem := flash.content[p];
    var offset, k: nat := 0, 0;
    while offset < p.size
      invariant offset == k * SECTOR <= p.size
      invariant failAt.None? || k <= failAt.value
      invariant flash.Valid() && p in flash.content
      invariant flash.content[p] == ErasedTo(mem, offset)
      invariant flash.content == old(flash.content)[p := flash.content[p]]
    {
      err := flash.EraseSector(p, offset, failAt != Some(k));
      if err != OK { return; }
      ErasedFurther(mem, offset);
      offset, k := offset + SECTOR, k + 1;
    }
    assert ErasedTo(mem, p.size) == Fills(p.size);
    err := OK;
  }
}
