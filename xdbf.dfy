/**
 * XdbfWrapper and its XdbfGameData accessors: a read-only view over a
 * caller-owned XDBF buffer.
 *
 * Every field is set once by the constructor and never changed (all the
 * source's queries are const members), so each is a `const` here and each
 * query is a function of the state, with the loops of the source kept as
 * methods proved against those functions.
 */
module Xdbf {
  import opened Wrappers
  import opened Bytes
  import opened Layout
  import opened Directory
  import StringTables
  import opened Achievements

  /** A located achievements block: the record array, its declared count, and the locale's strings. */
  datatype XachTable = XachTable(records: nat, count: nat, strings: Strings)

  class XdbfWrapper {
    const layout: Layout
    /** data_: the buffer, or None once the wrapper is invalid. */
    const data: Option<seq<byte>>
    /** *header_. */
    const header: Header
    /** entries_, files_ and content_offset_, as offsets into the buffer. */
    const entries: nat
    const files: nat
    const contentOffset: nat

    predicate IsValid() {
      data.Some?
    }

    function View(): Directory.View
      requires IsValid()
    {
      Directory.View(data.value, layout, entries, header.entryUsed, contentOffset)
    }

    /**
     * The wrapper is valid exactly when the buffer is present, longer than the
     * header and carries the 'XDBF' magic; a valid wrapper lays out the header,
     * `entry_count` directory slots and `free_count` free-list records in turn,
     * and content starts right after them. The free list is skipped, never read.
     */
    constructor (input: Option<seq<byte>>, layout: Layout)
      ensures this.layout == layout
      ensures IsValid() <==>
        input.Some? && |input.value| > layout.sizeOfHeader && DecodeHeader(input.value, layout).magic == MAGIC_XDBF
      ensures IsValid() ==> data == input && header == DecodeHeader(input.value, layout)
      ensures IsValid() ==> entries == layout.sizeOfHeader
      ensures IsValid() ==> files == entries + ArrayBytes(header.entryCount, layout.sizeOfEntry)
      ensures IsValid() ==> contentOffset == files + ArrayBytes(header.freeCount, layout.sizeOfFileLoc)
      ensures IsValid() ==>
        contentOffset == layout.sizeOfHeader + header.entryCount * layout.sizeOfEntry + header.freeCount * layout.sizeOfFileLoc
    {
      this.layout := layout;
      if input.None? || |input.value| <= layout.sizeOfHeader {
        data := None;
        header := Header(0, 0, 0, 0);
        entries, files, contentOffset := 0, 0, 0;
      } else {
        var ptr: nat := 0;
        var h := DecodeHeader(input.value, layout);
        header := h;
        ptr := ptr + layout.sizeOfHeader;
        if h.magic != MAGIC_XDBF {
          data := None;
          entries, files, contentOffset := 0, 0, 0;
        } else {
          data := input;
          entries := ptr;
          ptr := ptr + ArrayBytes(h.entryCount, layout.sizeOfEntry);
          files := ptr;
          ptr := ptr + ArrayBytes(h.freeCount, layout.sizeOfFileLoc);
          contentOffset := ptr;
          ArrayBytesIsProduct(h.entryCount, layout.sizeOfEntry);
          ArrayBytesIsProduct(h.freeCount, layout.sizeOfFileLoc);
        }
      }
    }

    /** What GetEntry returns; an invalid wrapper finds nothing (an added guard). */
    function Lookup(section: Section, id: nat): (b: Block)
      ensures b.Block? ==> IsValid()
    {
      if IsValid() then Find(View(), layout.SectionCode(section), id) else NoBlock
    }

    /** GetEntry: scans the live directory slots in order and returns the first match's block. */
    method GetEntry(section: Section, id: nat) returns (block: Block)
      ensures block == Lookup(section, id)
    {
      if data.None? {
        return NoBlock;
      }
      var v := View();
      var code := layout.SectionCode(section);
      var i: nat := 0;
      while i < header.entryUsed
        invariant i <= header.entryUsed
        invariant FindFrom(v, code, id, i) == Find(v, code, id)
      {
        var entry := ReadSlot(v, i);
        if entry.None? {
          return NoBlock;
        }
        if entry.value.section == code && entry.value.id == id {
          return Block(contentOffset + entry.value.offset, entry.value.size);
        }
        i := i + 1;
      }
      return NoBlock;
    }

    /**
     * The string table of `locale`: its records start after its XdbfXstrHeader
     * and number `string_count`. None when the locale has no StringTable entry,
     * or (an added guard) when that header is not inside the buffer.
     */
    function LocaleStrings(locale: nat): (r: Option<Strings>)
      ensures Lookup(Section.StringTable, locale) == NoBlock ==> r == None
      ensures r.Some? ==> IsValid()
    {
      match Lookup(Section.StringTable, locale)
      case NoBlock => None
      case Block(o, _) =>
        if o + layout.sizeOfXstrHeader <= |data.value| then
          var n := FieldAt(data.value, o, layout.xstrStringCount, layout.endian);
          Some(Strings(o + layout.sizeOfXstrHeader, (n % 0x1_0000) as u16))
        else None
    }

    /** GetStringTableEntry: the text with id `stringId` in the string table of `locale`. */
    function GetStringTableEntry(locale: nat, stringId: u16): (s: seq<byte>)
      ensures Lookup(Section.StringTable, locale) == NoBlock ==> s == []
    {
      match LocaleStrings(locale)
      case None => []
      case Some(t) => StringTables.EntryText(data.value, layout, t.start, stringId, t.count)
    }

    /**
     * Within the locale's table, the entry is the text of the first record
     * that carries the id, and empty when no record carries it.
     */
    lemma GetStringTableEntryFirstMatch(locale: nat, stringId: u16, k: nat)
      requires LocaleStrings(locale).Some?
      requires var t := LocaleStrings(locale).value;
        k < t.count && StringTables.HasId(data.value, layout, t.start, k, stringId) &&
        forall j :: 0 <= j < k ==> !StringTables.HasId(data.value, layout, t.start, j, stringId)
      ensures var t := LocaleStrings(locale).value;
        var q := StringTables.RecordPos(data.value, layout, t.start, k).value;
        GetStringTableEntry(locale, stringId)
          == StringTables.Payload(data.value, layout, q, StringTables.ReadRecord(data.value, layout, q).value)
    {
      var t := LocaleStrings(locale).value;
      StringTables.EntryTextFirstMatch(data.value, layout, t.start, stringId, t.count, k);
    }

    lemma GetStringTableEntryMiss(locale: nat, stringId: u16)
      requires LocaleStrings(locale).Some?
      requires var t := LocaleStrings(locale).value;
        forall k :: 0 <= k < t.count ==> !StringTables.HasId(data.value, layout, t.start, k, stringId)
      ensures GetStringTableEntry(locale, stringId) == []
    {
      var t := LocaleStrings(locale).value;
      StringTables.EntryTextMiss(data.value, layout, t.start, stringId, t.count);
    }

    /**
     * The achievements block of the Metadata section and the locale's string
     * table. None when either is missing, or (added guards) when the XACH
     * header or its record array is not inside the buffer.
     */
    function AchievementTable(locale: nat): (r: Option<XachTable>)
      ensures Lookup(Metadata, ID_XACH) == NoBlock ==> r == None
      ensures LocaleStrings(locale) == None ==> r == None
      ensures r.Some? ==> IsValid() && r.value.strings == LocaleStrings(locale).value
      ensures r.Some? ==> r.value.records + ArrayBytes(r.value.count, layout.sizeOfXachEntry) <= |data.value|
      ensures r.Some? ==> r.value.count < 0x1_0000_0000
    {
      match Lookup(Metadata, ID_XACH)
      case NoBlock => None
      case Block(xo, _) =>
        if xo + layout.sizeOfXachHeader > |data.value| then None
        else
          match LocaleStrings(locale)
          case None => None
          case Some(t) =>
            var count := FieldAt(data.value, xo, layout.xachCount, layout.endian);
            var records := xo + layout.sizeOfXachHeader;
            FieldBound(data.value, xo, layout.xachCount, layout.endian);
            Pow256Monotone(layout.xachCount.width, 4);
            assert Pow256(4) == 0x1_0000_0000;
            if records + ArrayBytes(count, layout.sizeOfXachEntry) <= |data.value| then Some(XachTable(records, count, t))
            else None
    }

    /** What GetAchievements returns: the declared count, or 0 when a block is missing. */
    function AchievementCount(locale: nat): (n: nat)
      ensures n < 0x1_0000_0000
      ensures AchievementTable(locale) == None ==> n == 0
    {
      match AchievementTable(locale)
      case None => 0
      case Some(x) => x.count
    }

    /**
     * When the XACH block and the locale's string table are both present (and,
     * by the added guards, inside the buffer), the count is the one the XACH
     * header declares.
     */
    lemma AchievementCountIsDeclared(locale: nat)
      requires Lookup(Metadata, ID_XACH).Block? && LocaleStrings(locale).Some?
      requires var xo := Lookup(Metadata, ID_XACH).offset;
        xo + layout.sizeOfXachHeader <= |data.value| &&
        xo + layout.sizeOfXachHeader
          + ArrayBytes(FieldAt(data.value, xo, layout.xachCount, layout.endian), layout.sizeOfXachEntry) <= |data.value|
      ensures AchievementCount(locale) == FieldAt(data.value, Lookup(Metadata, ID_XACH).offset, layout.xachCount, layout.endian)
    {
    }

    /** What GetAchievements appends: one achievement per record, in storage order. */
    function AchievementList(locale: nat): (r: seq<Achievement>)
      ensures |r| == AchievementCount(locale)
    {
      match AchievementTable(locale)
      case None => []
      case Some(x) =>
        DecodeAll(data.value, layout, x.records, x.count, x.strings)
    }

    /**
     * Achievement `i` of the list is decoded from record `i` of the XACH array,
     * with its three texts looked up in the locale's string table.
     */
    lemma AchievementListAt(locale: nat, i: nat)
      requires AchievementTable(locale).Some? && i < AchievementCount(locale)
      ensures var x := AchievementTable(locale).value;
        var q := RecordStart(layout, x.records, i);
        q + layout.sizeOfXachEntry <= |data.value| &&
        AchievementList(locale)[i] == Achievements.Decode(data.value, layout, q, LocaleStrings(locale).value)
    {
      var x := AchievementTable(locale).value;
      ArrayIndexBound(i, x.count, layout.sizeOfXachEntry);
    }

    /**
     * The first half of GetAchievements: looks up the Metadata XACH block and
     * the locale's StringTable block, giving up (None, so 0 is returned) when
     * either is missing or, an added guard, lies outside the buffer.
     */
    method LocateAchievements(locale: nat) returns (r: Option<XachTable>)
      ensures r == AchievementTable(locale)
    {
      var xachBlock := GetEntry(Metadata, ID_XACH);
      if xachBlock.NoBlock? {
        return None;
      }
      var buf := data.value;
      if xachBlock.offset + layout.sizeOfXachHeader > |buf| {
        return None;
      }
      var xachCount := FieldAt(buf, xachBlock.offset, layout.xachCount, layout.endian);

      var languageBlock := GetEntry(Section.StringTable, locale);
      if languageBlock.NoBlock? {
        return None;
      }
      if languageBlock.offset + layout.sizeOfXstrHeader > |buf| {
        return None;
      }
      var stringCount := FieldAt(buf, languageBlock.offset, layout.xstrStringCount, layout.endian) % 0x1_0000;
      var xstrPtr := languageBlock.offset + layout.sizeOfXstrHeader;
      var strings := Strings(xstrPtr, stringCount as u16);
      assert LocaleStrings(locale) == Some(strings);

      var records := xachBlock.offset + layout.sizeOfXachHeader;
      if records + ArrayBytes(xachCount, layout.sizeOfXachEntry) > |buf| {
        return None;
      }
      return Some(XachTable(records, xachCount, strings));
    }

    /**
     * GetAchievements: returns the declared count and, when `entries` is
     * given, appends the records to it and leaves what it held unchanged.
     */
    method GetAchievements(locale: nat, entries: AchievementVector?) returns (count: nat)
      modifies entries
      ensures count == AchievementCount(locale)
      ensures entries != null ==> entries.items == old(entries.items) + AchievementList(locale)
    {
      var table := LocateAchievements(locale);
      if table.None? {
        return 0;
      }
      var x := table.value;
      if entries != null {
        AppendAll(data.value, layout, x.records, x.count, x.strings, entries);
      }
      return x.count;
    }

    /** XdbfGameData::icon: the Image-section entry with the title id. */
    function Icon(): (b: Block)
      ensures b.Block? ==> IsValid()
    {
      Lookup(Image, ID_TITLE as nat)
    }

    /**
     * XdbfGameData::default_language: the XSTC block's default_language, as
     * the uint32_t it is cast to, or English when there is no XSTC block (or,
     * an added guard, when the block is not inside the buffer).
     */
    function DefaultLanguage(): (locale: nat)
      ensures Lookup(Metadata, ID_XSTC) == NoBlock ==> locale == layout.localeEnglish
      ensures locale == layout.localeEnglish || locale < 0x1_0000_0000
      ensures Lookup(Metadata, ID_XSTC).Block? ==>
        var o := Lookup(Metadata, ID_XSTC).offset;
        if o + layout.sizeOfXstc <= |data.value|
        then locale == FieldAt(data.value, o, layout.xstcDefaultLanguage, layout.endian) % 0x1_0000_0000
        else locale == layout.localeEnglish
    {
      match Lookup(Metadata, ID_XSTC)
      case NoBlock => layout.localeEnglish
      case Block(o, _) =>
        if o + layout.sizeOfXstc <= |data.value| then
          FieldAt(data.value, o, layout.xstcDefaultLanguage, layout.endian) % 0x1_0000_0000
        else layout.localeEnglish
    }

    /** XdbfGameData::title: the title string of the default language's table. */
    function Title(): (s: seq<byte>)
      ensures Lookup(Section.StringTable, DefaultLanguage()) == NoBlock ==> s == []
    {
      GetStringTableEntry(DefaultLanguage(), ID_TITLE)
    }

    /**
     * The default language is the `default_language` field of the XSTC block
     * of the first live Metadata slot keyed by the XSTC id, as a uint32_t.
     */
    lemma DefaultLanguageIsFirstMatch(k: nat)
      requires IsValid()
      requires k < View().used && IsFirstMatch(View(), k, layout.SectionCode(Metadata), ID_XSTC)
      requires contentOffset + ReadSlot(View(), k).value.offset + layout.sizeOfXstc <= |data.value|
      ensures DefaultLanguage()
        == FieldAt(data.value, contentOffset + ReadSlot(View(), k).value.offset, layout.xstcDefaultLanguage, layout.endian) % 0x1_0000_0000
    {
      FindFirstMatch(View(), layout.SectionCode(Metadata), ID_XSTC, k);
    }

    /**
     * With an XSTC block declaring language `lang`, the title is the text of
     * the first record of `lang`'s string table keyed by the title id.
     */
    lemma TitleIsFirstMatch(lang: nat, k: nat)
      requires Lookup(Metadata, ID_XSTC).Block?
      requires Lookup(Metadata, ID_XSTC).offset + layout.sizeOfXstc <= |data.value|
      requires lang == FieldAt(data.value, Lookup(Metadata, ID_XSTC).offset, layout.xstcDefaultLanguage, layout.endian) % 0x1_0000_0000
      requires LocaleStrings(lang).Some?
      requires var t := LocaleStrings(lang).value;
        k < t.count && StringTables.HasId(data.value, layout, t.start, k, ID_TITLE) &&
        forall j :: 0 <= j < k ==> !StringTables.HasId(data.value, layout, t.start, j, ID_TITLE)
      ensures var t := LocaleStrings(lang).value;
        var q := StringTables.RecordPos(data.value, layout, t.start, k).value;
        Title() == StringTables.Payload(data.value, layout, q, StringTables.ReadRecord(data.value, layout, q).value)
    {
      GetStringTableEntryFirstMatch(lang, ID_TITLE, k);
    }

    /** Without an XSTC block the title comes from the English table. */
    lemma TitleFallsBackToEnglish()
      requires Lookup(Metadata, ID_XSTC) == NoBlock
      ensures Title() == GetStringTableEntry(layout.localeEnglish, ID_TITLE)
    {
    }

    /** The icon is the block of the first live Image slot keyed by the title id. */
    lemma IconIsFirstMatch(k: nat)
      requires IsValid()
      requires k < View().used && IsFirstMatch(View(), k, layout.SectionCode(Image), ID_TITLE as nat)
      ensures Icon() == Block(contentOffset + ReadSlot(View(), k).value.offset, ReadSlot(View(), k).value.size)
    {
      FindFirstMatch(View(), layout.SectionCode(Image), ID_TITLE as nat, k);
    }

    /** There is no icon exactly when no live Image slot is keyed by the title id. */
    lemma IconAbsent()
      requires IsValid()
      ensures Icon() == NoBlock <==>
        forall k :: 0 <= k < View().used ==> !SlotMatches(View(), k, layout.SectionCode(Image), ID_TITLE)
    {
      FindMiss(View(), layout.SectionCode(Image), ID_TITLE as nat);
    }

    /** An invalid wrapper answers every query with its empty result. */
    lemma InvalidIsEmpty(section: Section, id: nat, locale: nat, stringId: u16)
      requires !IsValid()
      ensures Lookup(section, id) == NoBlock
      ensures GetStringTableEntry(locale, stringId) == []
      ensures AchievementCount(locale) == 0 && AchievementList(locale) == []
      ensures Icon() == NoBlock
      ensures DefaultLanguage() == layout.localeEnglish
      ensures Title() == []
    {
    }
  }
}
