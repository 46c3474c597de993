/**
 * Worked examples over the sample layout (big-endian; a string record header
 * is a 2-byte id then a 2-byte length; an achievement record is 36 bytes with
 * its label id at offset 2).
 */
module Scenarios {
  import opened Wrappers
  import opened Bytes
  import opened Layout
  import StringTables
  import Achievements

  const HELLO: seq<byte> := [72, 101, 108, 108, 111]
  const WORLD: seq<byte> := [87, 111, 114, 108, 100]

  /** The records (1, "Hello") and (2, "World"), laid end to end. */
  const TABLE: seq<byte> := [0, 1, 0, 5] + HELLO + [0, 2, 0, 5] + WORLD

  /** The two record headers of TABLE, at offsets 0 and 9. */
  lemma TableRecords()
    ensures StringTables.ReadRecord(TABLE, SAMPLE_LAYOUT, 0) == Some(StringTables.Record(1, 5))
    ensures StringTables.ReadRecord(TABLE, SAMPLE_LAYOUT, 9) == Some(StringTables.Record(2, 5))
  {
    assert TABLE[0] == 0 && TABLE[1] == 1 && TABLE[2] == 0 && TABLE[3] == 5;
    assert TABLE[9] == 0 && TABLE[10] == 2 && TABLE[11] == 0 && TABLE[12] == 5;
  }

  /** Id 1 resolves to the first record's text. */
  lemma LookupHello()
    ensures StringTables.EntryText(TABLE, SAMPLE_LAYOUT, 0, 1, 2) == HELLO
  {
    TableRecords();
    assert TABLE[4..9] == HELLO;
  }

  /** Id 2 resolves to the second record's text. */
  lemma LookupWorld()
    ensures StringTables.EntryText(TABLE, SAMPLE_LAYOUT, 0, 2, 2) == WORLD
  {
    TableRecords();
    assert TABLE[13..18] == WORLD;
  }

  /** An id that no record carries resolves to the empty string. */
  lemma LookupAbsent()
    ensures StringTables.EntryText(TABLE, SAMPLE_LAYOUT, 0, 3, 2) == []
  {
    TableRecords();
  }

  /** One achievement record (id 7, label id 1, every other field 0) and then TABLE. */
  const ACHIEVEMENTS: seq<byte> :=
    [0, 7, 0, 1, 0, 0, 0, 0, 0, 0, 0, 0, 0, 0, 0, 0, 0, 0,
     0, 0, 0, 0, 0, 0, 0, 0, 0, 0, 0, 0, 0, 0, 0, 0, 0, 0] + TABLE

  /** The record's label id, at offset 2. */
  lemma RecordLabelId()
    ensures FieldAt(ACHIEVEMENTS, 0, SAMPLE_LAYOUT.achLabelId, SAMPLE_LAYOUT.endian) == 1
  {
    assert ACHIEVEMENTS[2] == 0 && ACHIEVEMENTS[3] == 1;
  }

  /** In the table after the record, id 1 resolves to "Hello". */
  lemma TableAfterRecord()
    ensures StringTables.EntryText(ACHIEVEMENTS, SAMPLE_LAYOUT, 36, 1, 2) == HELLO
  {
    assert ACHIEVEMENTS[36] == 0 && ACHIEVEMENTS[37] == 1 && ACHIEVEMENTS[38] == 0 && ACHIEVEMENTS[39] == 5;
    assert StringTables.ReadRecord(ACHIEVEMENTS, SAMPLE_LAYOUT, 36) == Some(StringTables.Record(1, 5));
    assert ACHIEVEMENTS[40..45] == HELLO;
  }

  /** The record's label id is joined against the table that follows it: its label is "Hello". */
  lemma AchievementJoin()
    ensures Achievements.Decode(ACHIEVEMENTS, SAMPLE_LAYOUT, 0, Achievements.Strings(36, 2)).labelText == HELLO
  {
    RecordLabelId();
    TableAfterRecord();
  }

  /** Against an empty string table the same record's label is "". */
  lemma AchievementJoinEmptyTable()
    ensures Achievements.Decode(ACHIEVEMENTS, SAMPLE_LAYOUT, 0, Achievements.Strings(36, 0)).labelText == []
  {
  }
}
