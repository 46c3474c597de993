/**
 * The on-disk structures of an XDBF container and the reader's well-known keys.
 *
 * The structures (XbdfHeader, XbdfEntry, XbdfFileLoc, XdbfXstrHeader,
 * XdbfStringTableEntry, XbdfXachHeader, XbdfXachEntry, XdbfXstc) and the
 * enumerations XdbfSection and XdbfLocale are declared in xdbf_utils.h, which is
 * not part of this model. Their sizes, the position and width of every field the
 * reader uses, the byte order and the enumerators' values are therefore kept as
 * the parameters of a `Layout`; the only thing assumed about them is that each
 * field lies inside its structure.
 */
module Layout {
  import opened Bytes

  datatype RawLayout = RawLayout(
    endian: Endian,
    // sizeof(...) of each structure
    sizeOfHeader: nat,        // XbdfHeader
    sizeOfEntry: nat,         // XbdfEntry
    sizeOfFileLoc: nat,       // XbdfFileLoc
    sizeOfXstrHeader: nat,    // XdbfXstrHeader
    sizeOfStringEntry: nat,   // XdbfStringTableEntry
    sizeOfXachHeader: nat,    // XbdfXachHeader
    sizeOfXachEntry: nat,     // XbdfXachEntry
    sizeOfXstc: nat,          // XdbfXstc
    // XbdfHeader
    hdrMagic: Field, hdrEntryCount: Field, hdrEntryUsed: Field, hdrFreeCount: Field,
    // XbdfEntry
    entSection: Field, entId: Field, entOffset: Field, entSize: Field,
    // XdbfXstrHeader
    xstrStringCount: Field,
    // XdbfStringTableEntry
    strId: Field, strLength: Field,
    // XbdfXachHeader
    xachCount: Field,
    // XbdfXachEntry
    achId: Field, achImageId: Field, achGamerscore: Field, achFlags: Field,
    achLabelId: Field, achDescriptionId: Field, achUnachievedId: Field,
    // XdbfXstc
    xstcDefaultLanguage: Field,
    // enumerator values of XdbfSection and XdbfLocale
    sectionMetadata: nat, sectionImage: nat, sectionStringTable: nat,
    localeEnglish: nat)
  {
    /**
     * Every field lies inside its structure; `entry_used` and the achievement
     * count fit the uint32_t they are counted in and returned as.
     */
    predicate WellFormed() {
      && Fits(hdrMagic, sizeOfHeader) && Fits(hdrEntryCount, sizeOfHeader)
      && Fits(hdrEntryUsed, sizeOfHeader) && hdrEntryUsed.width <= 4 && Fits(hdrFreeCount, sizeOfHeader)
      && Fits(entSection, sizeOfEntry) && Fits(entId, sizeOfEntry)
      && Fits(entOffset, sizeOfEntry) && Fits(entSize, sizeOfEntry)
      && Fits(xstrStringCount, sizeOfXstrHeader)
      && Fits(strId, sizeOfStringEntry) && Fits(strLength, sizeOfStringEntry)
      && Fits(xachCount, sizeOfXachHeader) && xachCount.width <= 4
      && Fits(achId, sizeOfXachEntry) && Fits(achImageId, sizeOfXachEntry)
      && Fits(achGamerscore, sizeOfXachEntry) && Fits(achFlags, sizeOfXachEntry)
      && Fits(achLabelId, sizeOfXachEntry) && Fits(achDescriptionId, sizeOfXachEntry)
      && Fits(achUnachievedId, sizeOfXachEntry)
      && Fits(xstcDefaultLanguage, sizeOfXstc)
    }

    /** The value of XdbfSection `s`, as the uint16_t the directory compares against. */
    function SectionCode(s: Section): u16 {
      match s
      case Metadata => sectionMetadata % 0x1_0000
      case Image => sectionImage % 0x1_0000
      case StringTable => sectionStringTable % 0x1_0000
    }
  }

  predicate Fits(f: Field, size: nat) {
    f.offset + f.width <= size
  }

  type Layout = l: RawLayout | l.WellFormed() witness SAMPLE_LAYOUT

  /**
   * One well-formed layout, packed and big-endian, used as the witness that
   * layouts exist and in the worked examples. Nothing else depends on its values.
   */
  const SAMPLE_LAYOUT := RawLayout(
    Big,
    24, 18, 8, 14, 4, 14, 36, 16,
    Field(0, 4), Field(8, 4), Field(12, 4), Field(16, 4),
    Field(0, 2), Field(2, 8), Field(10, 4), Field(14, 4),
    Field(12, 2),
    Field(0, 2), Field(2, 2),
    Field(12, 2),
    Field(0, 2), Field(8, 4), Field(12, 2), Field(16, 4),
    Field(2, 2), Field(4, 2), Field(6, 2),
    Field(12, 4),
    1, 2, 3,
    1)

  /** The XdbfSection enumeration. */
  datatype Section = Metadata | Image | StringTable

  // Magic tags, as the values of the four-character literals 'XDBF', 'XSTC', 'XSTR', 'XACH'.
  const MAGIC_XDBF: nat := 0x5844_4246
  const MAGIC_XSTC: nat := 0x5853_5443
  const MAGIC_XSTR: nat := 0x5853_5452
  const MAGIC_XACH: nat := 0x5841_4348

  // Well-known entry ids.
  const ID_XACH: nat := 0x5841_4348
  const ID_TITLE: u16 := 0x8000
  const ID_XSTC: nat := 0x5853_5443
}
