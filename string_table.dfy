/**
 * A localized string table: a stream of variable-length records
 * `(id, string_length, string_length bytes)` laid end to end, scanned
 * linearly by GetStringTableEntry_.
 */
module StringTables {
  import opened Wrappers
  import opened Bytes
  import opened Layout

  /** The XdbfStringTableEntry header of one record. */
  datatype Record = Record(id: nat, length: nat)

  /** The record header at `p`, or None when it does not lie inside the buffer (an added bounds check). */
  function ReadRecord(buf: seq<byte>, l: Layout, p: nat): (r: Option<Record>)
    ensures r.Some? <==> p + l.sizeOfStringEntry <= |buf|
  {
    if p + l.sizeOfStringEntry <= |buf| then
      Some(Record(FieldAt(buf, p, l.strId, l.endian), FieldAt(buf, p, l.strLength, l.endian)))
    else None
  }

  /** Where the record after the one at `p` starts: past its header and its bytes. */
  function NextRecord(l: Layout, p: nat, r: Record): nat {
    p + l.sizeOfStringEntry + r.length
  }

  /**
   * The text of the record at `p`: the `length` bytes after its header, or the
   * empty string when they run past the end of the buffer (an added bounds check).
   */
  function Payload(buf: seq<byte>, l: Layout, p: nat, r: Record): (s: seq<byte>)
    ensures s != [] ==> p + l.sizeOfStringEntry + |s| <= |buf| && |s| == r.length
  {
    var start := p + l.sizeOfStringEntry;
    if start + r.length <= |buf| then buf[start..start + r.length] else []
  }

  /**
   * The scan of GetStringTableEntry_: walks at most `count` records from `p`
   * and gives the position of the first whose id is `stringId`, or None when
   * none of them has it or a record header on the way is not in the buffer.
   */
  function Locate(buf: seq<byte>, l: Layout, p: nat, stringId: u16, count: u16): (r: Option<nat>)
    ensures r.Some? ==> ReadRecord(buf, l, r.value).Some? && ReadRecord(buf, l, r.value).value.id == stringId
    decreases count
  {
    if count == 0 then None
    else
      match ReadRecord(buf, l, p)
      case None => None
      case Some(rec) =>
        if rec.id == stringId then Some(p)
        else Locate(buf, l, NextRecord(l, p, rec), stringId, count - 1)
  }

  /** What GetStringTableEntry_ returns: the text of the record the scan stops at, or the empty string. */
  function EntryText(buf: seq<byte>, l: Layout, p: nat, stringId: u16, count: u16): seq<byte> {
    match Locate(buf, l, p, stringId, count)
    case None => []
    case Some(q) => Payload(buf, l, q, ReadRecord(buf, l, q).value)
  }

  /**
   * Where record `k` of the stream that starts at `p` starts: record 0 at `p`,
   * record `k` of the stream that starts right after the first record's bytes
   * as record `k + 1`. None once a record header on the way does not lie
   * inside the buffer.
   */
  ghost function RecordPos(buf: seq<byte>, l: Layout, p: nat, k: nat): Option<nat>
    decreases k
  {
    if k == 0 then Some(p)
    else
      match ReadRecord(buf, l, p)
      case None => None
      case Some(r) => RecordPos(buf, l, NextRecord(l, p, r), k - 1)
  }

  /** Record `k` can be read and has id `stringId`. */
  ghost predicate HasId(buf: seq<byte>, l: Layout, p: nat, k: nat, stringId: nat) {
    && RecordPos(buf, l, p, k).Some?
    && ReadRecord(buf, l, RecordPos(buf, l, p, k).value).Some?
    && ReadRecord(buf, l, RecordPos(buf, l, p, k).value).value.id == stringId
  }

  /** The scan stops at the first of the `count` records whose id is `stringId`. */
  lemma {:induction false} LocateFirstMatch(buf: seq<byte>, l: Layout, p: nat, stringId: u16, count: u16, k: nat)
    requires k < count && HasId(buf, l, p, k, stringId)
    requires forall j :: 0 <= j < k ==> !HasId(buf, l, p, j, stringId)
    ensures Locate(buf, l, p, stringId, count) == RecordPos(buf, l, p, k)
    decreases k
  {
    if k > 0 {
      var r := ReadRecord(buf, l, p).value;
      assert !HasId(buf, l, p, 0, stringId);
      var next := NextRecord(l, p, r);
      forall j | 0 <= j < k - 1 ensures !HasId(buf, l, next, j, stringId) {
        assert !HasId(buf, l, p, j + 1, stringId);
      }
      LocateFirstMatch(buf, l, next, stringId, count - 1, k - 1);
    }
  }

  /**
   * The text is exactly the bytes of the first of the `count` records whose
   * id is `stringId` (empty if those bytes run past the buffer).
   */
  lemma EntryTextFirstMatch(buf: seq<byte>, l: Layout, p: nat, stringId: u16, count: u16, k: nat)
    requires k < count && HasId(buf, l, p, k, stringId)
    requires forall j :: 0 <= j < k ==> !HasId(buf, l, p, j, stringId)
    ensures var q := RecordPos(buf, l, p, k).value;
            EntryText(buf, l, p, stringId, count) == Payload(buf, l, q, ReadRecord(buf, l, q).value)
  {
    LocateFirstMatch(buf, l, p, stringId, count, k);
  }

  lemma {:induction false} LocateNone(buf: seq<byte>, l: Layout, p: nat, stringId: u16, count: u16)
    requires forall k :: 0 <= k < count ==> !HasId(buf, l, p, k, stringId)
    ensures Locate(buf, l, p, stringId, count) == None
    decreases count
  {
    if count > 0 && ReadRecord(buf, l, p).Some? {
      assert !HasId(buf, l, p, 0, stringId);
      var next := NextRecord(l, p, ReadRecord(buf, l, p).value);
      forall j | 0 <= j < count - 1 ensures !HasId(buf, l, next, j, stringId) {
        assert !HasId(buf, l, p, j + 1, stringId);
      }
      LocateNone(buf, l, next, stringId, count - 1);
    }
  }

  /** Record `k` is the first of the records that carries the id. */
  ghost predicate IsFirstId(buf: seq<byte>, l: Layout, p: nat, k: nat, stringId: nat) {
    && HasId(buf, l, p, k, stringId)
    && forall j :: 0 <= j < k ==> !HasId(buf, l, p, j, stringId)
  }

  lemma {:induction false} FirstIdExists(buf: seq<byte>, l: Layout, p: nat, k: nat, stringId: nat) returns (m: nat)
    requires HasId(buf, l, p, k, stringId)
    ensures m <= k && IsFirstId(buf, l, p, m, stringId)
  {
    if forall j :: 0 <= j < k ==> !HasId(buf, l, p, j, stringId) {
      m := k;
    } else {
      var j :| 0 <= j < k && HasId(buf, l, p, j, stringId);
      m := FirstIdExists(buf, l, p, j, stringId);
    }
  }

  /** The scan finds nothing exactly when none of the `count` records has id `stringId`. */
  lemma LocateMiss(buf: seq<byte>, l: Layout, p: nat, stringId: u16, count: u16)
    ensures (forall k :: 0 <= k < count ==> !HasId(buf, l, p, k, stringId)) <==> Locate(buf, l, p, stringId, count) == None
  {
    if forall k :: 0 <= k < count ==> !HasId(buf, l, p, k, stringId) {
      LocateNone(buf, l, p, stringId, count);
    } else {
      var k :| 0 <= k < count && HasId(buf, l, p, k, stringId);
      var m := FirstIdExists(buf, l, p, k, stringId);
      LocateFirstMatch(buf, l, p, stringId, count, m);
    }
  }

  /** The text is empty when none of the `count` records has id `stringId`. */
  lemma EntryTextMiss(buf: seq<byte>, l: Layout, p: nat, stringId: u16, count: u16)
    requires forall k :: 0 <= k < count ==> !HasId(buf, l, p, k, stringId)
    ensures EntryText(buf, l, p, stringId, count) == []
  {
    LocateMiss(buf, l, p, stringId, count);
  }

  /**
   * GetStringTableEntry_: walks at most `count` records from `ptr` with a
   * running position and returns the text of the first whose id is `stringId`.
   */
  method GetStringTableEntryFrom(buf: seq<byte>, l: Layout, ptr: nat, stringId: u16, count: u16)
    returns (s: seq<byte>)
    ensures s == EntryText(buf, l, ptr, stringId, count)
  {
    var ptr2: nat := ptr;
    var i: nat := 0;
    while i < count
      invariant i <= count
      invariant Locate(buf, l, ptr2, stringId, (count - i) as u16) == Locate(buf, l, ptr, stringId, count)
    {
      var entry := ReadRecord(buf, l, ptr2);
      if entry.None? {
        return [];
      }
      var start := ptr2;
      ptr2 := ptr2 + l.sizeOfStringEntry;
      if entry.value.id == stringId {
        if ptr2 + entry.value.length > |buf| {
          return [];
        }
        return buf[ptr2..ptr2 + entry.value.length];
      }
      ptr2 := ptr2 + entry.value.length;
      assert ptr2 == NextRecord(l, start, entry.value);
      i := i + 1;
    }
    return [];
  }
}
