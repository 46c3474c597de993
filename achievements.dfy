/**
 * The achievements block: a fixed-size record array (XbdfXachEntry) whose
 * three text ids are joined against a locale's string table.
 */
module Achievements {
  import opened Bytes
  import opened Layout
  import StringTables

  /** XbdfAchievement: the record's numbers and its three texts resolved from the string table. */
  datatype Achievement = Achievement(
    id: nat, imageId: nat, gamerscore: nat, flags: nat,
    labelText: seq<byte>, descriptionText: seq<byte>, unachievedText: seq<byte>)

  /** A string table to resolve against: where its records start (`xstr_ptr`) and `string_count`. */
  datatype Strings = Strings(start: nat, count: u16)

  /** Where record `i` of the array that starts at `records` begins. */
  function RecordStart(l: Layout, records: nat, i: nat): nat {
    records + ArrayBytes(i, l.sizeOfXachEntry)
  }

  /** The text with id `id` (converted to the uint16_t parameter) in table `t`. */
  function Text(buf: seq<byte>, l: Layout, t: Strings, id: nat): seq<byte> {
    StringTables.EntryText(buf, l, t.start, (id % 0x1_0000) as u16, t.count)
  }

  /** The achievement the record at `q` describes, its texts looked up in `t`. */
  function Decode(buf: seq<byte>, l: Layout, q: nat, t: Strings): Achievement
    requires q + l.sizeOfXachEntry <= |buf|
  {
    Achievement(
      FieldAt(buf, q, l.achId, l.endian),
      FieldAt(buf, q, l.achImageId, l.endian),
      FieldAt(buf, q, l.achGamerscore, l.endian),
      FieldAt(buf, q, l.achFlags, l.endian),
      Text(buf, l, t, FieldAt(buf, q, l.achLabelId, l.endian)),
      Text(buf, l, t, FieldAt(buf, q, l.achDescriptionId, l.endian)),
      Text(buf, l, t, FieldAt(buf, q, l.achUnachievedId, l.endian)))
  }

  /** The first `n` records of the array at `records`, in storage order. */
  function DecodeAll(buf: seq<byte>, l: Layout, records: nat, n: nat, t: Strings): (r: seq<Achievement>)
    requires records + ArrayBytes(n, l.sizeOfXachEntry) <= |buf|
  {
    seq(n, i requires 0 <= i < n =>
      ArrayIndexBound(i, n, l.sizeOfXachEntry);
      Decode(buf, l, RecordStart(l, records, i), t))
  }

  /**
   * A text id that none of the table's `count` records carries resolves to the
   * empty string; the label, description and unachieved texts are all such lookups.
   */
  lemma MissingTextIsEmpty(buf: seq<byte>, l: Layout, t: Strings, id: nat)
    requires forall k :: 0 <= k < t.count ==> !StringTables.HasId(buf, l, t.start, k, id % 0x1_0000)
    ensures Text(buf, l, t, id) == []
  {
    StringTables.EntryTextMiss(buf, l, t.start, (id % 0x1_0000) as u16, t.count);
  }

  /**
   * One pass of GetAchievements' loop body: reads the record at `q` and
   * resolves its label, description and unachieved ids with the string scan.
   */
  method ReadAchievement(buf: seq<byte>, l: Layout, q: nat, strings: Strings) returns (a: Achievement)
    requires q + l.sizeOfXachEntry <= |buf|
    ensures a == Decode(buf, l, q, strings)
  {
    var labelId := FieldAt(buf, q, l.achLabelId, l.endian) % 0x1_0000;
    var descriptionId := FieldAt(buf, q, l.achDescriptionId, l.endian) % 0x1_0000;
    var unachievedId := FieldAt(buf, q, l.achUnachievedId, l.endian) % 0x1_0000;
    var labelText := StringTables.GetStringTableEntryFrom(buf, l, strings.start, labelId as u16, strings.count);
    var descriptionText := StringTables.GetStringTableEntryFrom(buf, l, strings.start, descriptionId as u16, strings.count);
    var unachievedText := StringTables.GetStringTableEntryFrom(buf, l, strings.start, unachievedId as u16, strings.count);
    a := Achievement(
      FieldAt(buf, q, l.achId, l.endian),
      FieldAt(buf, q, l.achImageId, l.endian),
      FieldAt(buf, q, l.achGamerscore, l.endian),
      FieldAt(buf, q, l.achFlags, l.endian),
      labelText, descriptionText, unachievedText);
  }

  /**
   * Record `i` of `count` lies in the buffer, the next one starts right after
   * it, and decoding one record more appends that record's achievement.
   */
  lemma DecodeAllNext(buf: seq<byte>, l: Layout, records: nat, i: nat, count: nat, t: Strings)
    requires i < count && records + ArrayBytes(count, l.sizeOfXachEntry) <= |buf|
    ensures RecordStart(l, records, i) + l.sizeOfXachEntry <= |buf|
    ensures records + ArrayBytes(i + 1, l.sizeOfXachEntry) <= |buf|
    ensures RecordStart(l, records, i + 1) == RecordStart(l, records, i) + l.sizeOfXachEntry
    ensures DecodeAll(buf, l, records, i + 1, t)
         == DecodeAll(buf, l, records, i, t) + [Decode(buf, l, RecordStart(l, records, i), t)]
  {
    ArrayIndexBound(i, count, l.sizeOfXachEntry);
    ArrayStartMonotone(i + 1, count, l.sizeOfXachEntry);
    var a, b := DecodeAll(buf, l, records, i + 1, t), DecodeAll(buf, l, records, i, t);
    assert forall j :: 0 <= j < i ==> a[j] == b[j];
  }

  /**
   * The loop of GetAchievements: decodes the `count` records from `records`
   * one after another and pushes them onto `entries` in storage order.
   */
  method AppendAll(buf: seq<byte>, l: Layout, records: nat, count: nat, strings: Strings, entries: AchievementVector)
    requires records + ArrayBytes(count, l.sizeOfXachEntry) <= |buf|
    modifies entries
    ensures entries.items == old(entries.items) + DecodeAll(buf, l, records, count, strings)
  {
    var xachEntry := records;
    var i: nat := 0;
    while i < count
      invariant i <= count
      invariant xachEntry == RecordStart(l, records, i)
      invariant records + ArrayBytes(i, l.sizeOfXachEntry) <= |buf|
      invariant entries.items == old(entries.items) + DecodeAll(buf, l, records, i, strings)
    {
      DecodeAllNext(buf, l, records, i, count, strings);
      var ach := ReadAchievement(buf, l, xachEntry, strings);
      entries.PushBack(ach);
      xachEntry := xachEntry + l.sizeOfXachEntry;
      i := i + 1;
    }
  }

  /** The vector the caller passes to GetAchievements. */
  class AchievementVector {
    var items: seq<Achievement>

    constructor ()
      ensures items == []
    {
      items := [];
    }

    /** std::vector::push_back. */
    method PushBack(a: Achievement)
      modifies this
      ensures items == old(items) + [a]
    {
      items := items + [a];
    }
  }
}
