/**
 * The container's header and directory: decoding the header, reading the
 * directory slots, and the composite-key lookup behind XdbfWrapper::GetEntry.
 */
module Directory {
  import opened Wrappers
  import opened Bytes
  import opened Layout

  /** The XbdfHeader fields the reader uses. */
  datatype Header = Header(magic: nat, entryCount: nat, entryUsed: nat, freeCount: nat)

  /** One directory slot (XbdfEntry). */
  datatype Entry = Entry(section: nat, id: nat, offset: nat, size: nat)

  /**
   * XdbfBlock. `NoBlock` is the `{0}` block the source returns for "not found";
   * a found block is never null in the source, so the two cannot be confused.
   */
  datatype Block = NoBlock | Block(offset: nat, size: nat)

  /**
   * What a lookup needs: the buffer, its layout, where the directory starts,
   * how many of its slots are live (`entry_used`) and where content starts.
   */
  datatype View = View(buf: seq<byte>, layout: Layout, entries: nat, used: nat, content: nat)

  /** The header at the start of the buffer; `entry_used` fits the uint32_t counter that scans the slots. */
  function DecodeHeader(buf: seq<byte>, l: Layout): (h: Header)
    requires l.sizeOfHeader <= |buf|
    ensures h.entryUsed < 0x1_0000_0000
  {
    FieldBound(buf, 0, l.hdrEntryUsed, l.endian);
    Pow256Monotone(l.hdrEntryUsed.width, 4);
    assert Pow256(4) == 0x1_0000_0000;
    Header(FieldAt(buf, 0, l.hdrMagic, l.endian),
           FieldAt(buf, 0, l.hdrEntryCount, l.endian),
           FieldAt(buf, 0, l.hdrEntryUsed, l.endian),
           FieldAt(buf, 0, l.hdrFreeCount, l.endian))
  }

  function SlotStart(v: View, k: nat): nat {
    v.entries + ArrayBytes(k, v.layout.sizeOfEntry)
  }

  /** Directory slot `k`, or None when the slot does not lie inside the buffer (an added bounds check). */
  function ReadSlot(v: View, k: nat): (r: Option<Entry>)
    ensures r.Some? <==> SlotStart(v, k) + v.layout.sizeOfEntry <= |v.buf|
  {
    var p, l := SlotStart(v, k), v.layout;
    if p + l.sizeOfEntry <= |v.buf| then
      Some(Entry(FieldAt(v.buf, p, l.entSection, l.endian),
                 FieldAt(v.buf, p, l.entId, l.endian),
                 FieldAt(v.buf, p, l.entOffset, l.endian),
                 FieldAt(v.buf, p, l.entSize, l.endian)))
    else None
  }

  /** Slot `k` can be read and carries the key `(section, id)`. */
  predicate SlotMatches(v: View, k: nat, section: nat, id: nat) {
    && ReadSlot(v, k).Some?
    && ReadSlot(v, k).value.section == section
    && ReadSlot(v, k).value.id == id
  }

  /** The block a directory entry describes: content start plus the entry's offset, and its size. */
  function BlockOf(v: View, e: Entry): Block {
    Block(v.content + e.offset, e.size)
  }

  /** The scan of GetEntry from slot `i` on. */
  function FindFrom(v: View, section: nat, id: nat, i: nat): Block
    decreases v.used - i
  {
    if i >= v.used then NoBlock
    else
      match ReadSlot(v, i)
      case None => NoBlock
      case Some(e) =>
        if e.section == section && e.id == id then BlockOf(v, e)
        else FindFrom(v, section, id, i + 1)
  }

  function Find(v: View, section: nat, id: nat): Block {
    FindFrom(v, section, id, 0)
  }

  /** A slot that can be read is preceded only by slots that can be read. */
  lemma SlotReadableBefore(v: View, j: nat, k: nat)
    requires j <= k && ReadSlot(v, k).Some?
    ensures ReadSlot(v, j).Some?
  {
    ArrayStartMonotone(j, k, v.layout.sizeOfEntry);
  }

  lemma {:induction false} FindFromReaches(v: View, section: nat, id: nat, k: nat, i: nat)
    requires i <= k < v.used && SlotMatches(v, k, section, id)
    requires forall j :: i <= j < k ==> !SlotMatches(v, j, section, id)
    ensures FindFrom(v, section, id, i) == BlockOf(v, ReadSlot(v, k).value)
    decreases k - i
  {
    if i < k {
      SlotReadableBefore(v, i, k);
      assert !SlotMatches(v, i, section, id);
      FindFromReaches(v, section, id, k, i + 1);
    }
  }

  /**
   * The lookup returns the block of the lowest live slot whose key matches:
   * offset relative to content start, size as stored.
   */
  lemma FindFirstMatch(v: View, section: nat, id: nat, k: nat)
    requires k < v.used && SlotMatches(v, k, section, id)
    requires forall j :: 0 <= j < k ==> !SlotMatches(v, j, section, id)
    ensures Find(v, section, id) == Block(v.content + ReadSlot(v, k).value.offset, ReadSlot(v, k).value.size)
  {
    FindFromReaches(v, section, id, k, 0);
  }

  lemma {:induction false} FindFromMiss(v: View, section: nat, id: nat, i: nat)
    requires forall k :: i <= k < v.used ==> !SlotMatches(v, k, section, id)
    ensures FindFrom(v, section, id, i) == NoBlock
    decreases v.used - i
  {
    if i < v.used && ReadSlot(v, i).Some? {
      assert !SlotMatches(v, i, section, id);
      FindFromMiss(v, section, id, i + 1);
    }
  }

  /** Slot `k` is the lowest live slot that carries the key. */
  predicate IsFirstMatch(v: View, k: nat, section: nat, id: nat) {
    && SlotMatches(v, k, section, id)
    && forall j :: 0 <= j < k ==> !SlotMatches(v, j, section, id)
  }

  lemma {:induction false} FirstMatchExists(v: View, section: nat, id: nat, k: nat) returns (m: nat)
    requires SlotMatches(v, k, section, id)
    ensures m <= k && IsFirstMatch(v, m, section, id)
  {
    if forall j :: 0 <= j < k ==> !SlotMatches(v, j, section, id) {
      m := k;
    } else {
      var j :| 0 <= j < k && SlotMatches(v, j, section, id);
      m := FirstMatchExists(v, section, id, j);
    }
  }

  /** The lookup returns the empty block exactly when no live slot carries the key. */
  lemma FindMiss(v: View, section: nat, id: nat)
    ensures (forall k :: 0 <= k < v.used ==> !SlotMatches(v, k, section, id)) <==> Find(v, section, id) == NoBlock
  {
    if forall k :: 0 <= k < v.used ==> !SlotMatches(v, k, section, id) {
      FindFromMiss(v, section, id, 0);
    } else {
      var k :| 0 <= k < v.used && SlotMatches(v, k, section, id);
      var m := FirstMatchExists(v, section, id, k);
      FindFirstMatch(v, section, id, m);
    }
  }

  /** The bytes that the live slots occupy end here. */
  function LiveEnd(v: View): nat {
    v.entries + ArrayBytes(v.used, v.layout.sizeOfEntry)
  }

  /** Two views that differ only in bytes past the live slots read the same live slot `i`. */
  lemma ReadSlotFrame(v: View, w: View, i: nat)
    requires v.layout == w.layout && v.entries == w.entries && v.used == w.used
    requires LiveEnd(v) <= |v.buf| && LiveEnd(v) <= |w.buf| && v.buf[..LiveEnd(v)] == w.buf[..LiveEnd(v)]
    requires i < v.used
    ensures ReadSlot(v, i) == ReadSlot(w, i)
  {
    var l, p, n := v.layout, SlotStart(v, i), LiveEnd(v);
    ArrayIndexBound(i, v.used, l.sizeOfEntry);
    assert p + l.sizeOfEntry <= n;
    FieldAtFrame(v.buf, w.buf, n, p, l.entSection, l.endian);
    FieldAtFrame(v.buf, w.buf, n, p, l.entId, l.endian);
    FieldAtFrame(v.buf, w.buf, n, p, l.entOffset, l.endian);
    FieldAtFrame(v.buf, w.buf, n, p, l.entSize, l.endian);
  }

  lemma {:induction false} FindFromFrame(v: View, w: View, section: nat, id: nat, i: nat)
    requires v.layout == w.layout && v.entries == w.entries && v.used == w.used && v.content == w.content
    requires LiveEnd(v) <= |v.buf| && LiveEnd(v) <= |w.buf| && v.buf[..LiveEnd(v)] == w.buf[..LiveEnd(v)]
    ensures FindFrom(v, section, id, i) == FindFrom(w, section, id, i)
    decreases v.used - i
  {
    if i < v.used {
      ReadSlotFrame(v, w, i);
      FindFromFrame(v, w, section, id, i + 1);
    }
  }

  /**
   * Slots at or beyond `entry_used` are never consulted: two buffers that agree
   * on everything up to the end of the live slots give the same lookup result.
   */
  lemma FindReadsOnlyLiveSlots(v: View, w: View, section: nat, id: nat)
    requires v.layout == w.layout && v.entries == w.entries && v.used == w.used && v.content == w.content
    requires LiveEnd(v) <= |v.buf| && LiveEnd(v) <= |w.buf| && v.buf[..LiveEnd(v)] == w.buf[..LiveEnd(v)]
    ensures Find(v, section, id) == Find(w, section, id)
  {
    FindFromFrame(v, w, section, id, 0);
  }
}
