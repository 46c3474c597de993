# XDBF reader — a verified Dafny model

Xenia's XDBF reader (`src/xenia/kernel/util/xdbf_utils.cc`) interprets the Xbox 360 title-metadata
container: a header, a directory of `(section, id, offset, size)` slots, a free list, and a content
region holding the blocks the slots point at. Over that it resolves localized string tables
(XSTR: a stream of variable-length `(id, length, bytes)` records), the achievements table (XACH:
a fixed-size record array whose three text ids are joined against a locale's string table), and
the title facade (`icon`, `default_language`, `title`).

The model:

- `Bytes` reads a buffer as fixed-width unsigned fields, in either byte order.
- `Layout` makes the on-disk structures explicit parameters. These are all struct sizes, field
  positions and widths, the byte order, and the `XdbfSection`/`XdbfLocale` enumerator values.
  `xdbf_utils.h`, which declares them, is not part of this model. So every result holds for
  every layout whose fields lie inside their structures.
- `Directory` models the header, the slots, and the first-match lookup behind `GetEntry`.
- `StringTables` models the record scan of `GetStringTableEntry_`.
- `Achievements` models record decoding and the caller's result vector.
- `Xdbf` holds the `XdbfWrapper` class. As in the source, it is constructed once and then only
  queried. Its fields are `const`, each query is a function of them, and each loop the source
  runs (`GetEntry`, `GetStringTableEntry_`, `GetAchievements`) is a method proved equal to that
  function.
- `Scenarios` holds worked examples over one concrete layout.

Every read is total. Where the source would read outside the buffer, the model returns the
"not found" result instead. A few of these guards also apply on paths where the source does not
read the bytes in question. All of them are listed under "Left out".

## Model

| member | source | states |
|---|---|---|
| Xdbf.XdbfWrapper.constructor | src/xenia/kernel/util/xdbf_utils.cc:21-44 | The wrapper is valid iff the input is present, longer than the header, and has the `'XDBF'` magic. A valid wrapper keeps the buffer and its decoded header. The directory starts right after the header, and the free list after `entry_count` slots. Content starts at `sizeof(XbdfHeader) + entry_count * sizeof(XbdfEntry) + free_count * sizeof(XbdfFileLoc)`. The free list is skipped by size and never read. |
| Bytes.ArrayBytesIsProduct | src/xenia/kernel/util/xdbf_utils.cc:38-41 | The size of an array of `count` records, built up record by record, is `sizeof(T) * count`. |
| Bytes.FieldBound | src/xenia/kernel/util/xdbf_utils.cc:121 | A field of `w` bytes holds a value below 256^w. The XACH count is at most 4 bytes, so it fits the `uint32_t` that `GetAchievements` returns. |
| Bytes.FieldAtOwnBytes | src/xenia/kernel/util/xdbf_utils.cc:48 | A field read depends only on that field's own bytes. Buffers that agree on those bytes give the same value. |
| Bytes.FieldAtFrame | src/xenia/kernel/util/xdbf_utils.cc:48 | Buffers that agree on their first `n` bytes give the same value for every field ending by `n`. |
| Directory.DecodeHeader | src/xenia/kernel/util/xdbf_utils.cc:47 | `entry_used` is below 2^32, so the `uint32_t` slot counter never wraps. |
| Directory.ReadSlot | src/xenia/kernel/util/xdbf_utils.cc:48 | Directory slot `k` can be read exactly when it lies inside the buffer. This is an added guard. |
| Directory.FindFirstMatch | src/xenia/kernel/util/xdbf_utils.cc:46-55 | The lookup returns the block of the lowest live slot (`k < entry_used`) whose section and id match. Its offset is content start plus the slot's offset, and its size is the slot's size. |
| Directory.FindMiss | src/xenia/kernel/util/xdbf_utils.cc:46-56 | The lookup returns the empty block `{0}` iff no live slot matches. |
| Directory.FindReadsOnlyLiveSlots | src/xenia/kernel/util/xdbf_utils.cc:47-48 | Slots at or beyond `entry_used` are never consulted. Buffers that agree up to the end of the live slots give the same lookup result. |
| Xdbf.XdbfWrapper.Lookup | src/xenia/kernel/util/xdbf_utils.cc:46-56 | A found block implies a valid wrapper. An invalid wrapper finds nothing, which is an added guard. |
| Xdbf.XdbfWrapper.GetEntry | src/xenia/kernel/util/xdbf_utils.cc:46-57 | The loop over the live slots returns exactly the lookup's block. With FindFirstMatch and FindMiss, that is the first match, or `{0}`. |
| StringTables.ReadRecord | src/xenia/kernel/util/xdbf_utils.cc:63 | A string record header can be read exactly when it lies inside the buffer. This is an added guard. |
| StringTables.Payload | src/xenia/kernel/util/xdbf_utils.cc:66-67 | A non-empty text is exactly `string_length` bytes, and they lie inside the buffer after the record header. |
| StringTables.Locate | src/xenia/kernel/util/xdbf_utils.cc:62-70 | When the scan stops at a record, that record can be read and carries the requested id. |
| StringTables.LocateFirstMatch | src/xenia/kernel/util/xdbf_utils.cc:62-68 | Among the first `count` records, the scan stops at the first whose id is `string_id`. Each record starts at the previous record's start plus the header size plus `string_length`. |
| StringTables.LocateMiss | src/xenia/kernel/util/xdbf_utils.cc:62-71 | The scan finds nothing iff none of the first `count` records carries the id. |
| StringTables.EntryTextFirstMatch | src/xenia/kernel/util/xdbf_utils.cc:59-72 | The text returned is exactly the `string_length` bytes after the first matching record's header. It is empty when `string_length` is 0, or when those bytes run past the buffer. |
| StringTables.EntryTextMiss | src/xenia/kernel/util/xdbf_utils.cc:71 | When no record among the first `count` carries the id, the result is `""`. |
| StringTables.GetStringTableEntryFrom | src/xenia/kernel/util/xdbf_utils.cc:59-72 | The loop with the running pointer `ptr2` returns exactly the text the scan defines. |
| Xdbf.XdbfWrapper.LocaleStrings | src/xenia/kernel/util/xdbf_utils.cc:76-89 | Without a StringTable entry keyed by the locale there is no table. A table found implies a valid wrapper. |
| Xdbf.XdbfWrapper.GetStringTableEntry | src/xenia/kernel/util/xdbf_utils.cc:74-80 | `""` when there is no StringTable entry keyed by the locale. |
| Xdbf.XdbfWrapper.GetStringTableEntryFirstMatch | src/xenia/kernel/util/xdbf_utils.cc:74-90 | Within the locale's table (records after the `XdbfXstrHeader`, `string_count` of them), the entry is the text of the first record carrying the id. |
| Xdbf.XdbfWrapper.GetStringTableEntryMiss | src/xenia/kernel/util/xdbf_utils.cc:74-90 | Within the locale's table, the entry is `""` when no record carries the id. |
| Achievements.ReadAchievement | src/xenia/kernel/util/xdbf_utils.cc:122-135 | One loop pass decodes the record's id, image id, gamerscore and flags. It resolves the label, description and unachieved ids with the string scan. The result equals the record's decoding. |
| Achievements.MissingTextIsEmpty | src/xenia/kernel/util/xdbf_utils.cc:128-135 | A text id that no record of the table carries resolves to `""`. |
| Achievements.DecodeAllNext | src/xenia/kernel/util/xdbf_utils.cc:119-138 | Record `i` of `count` lies in the buffer, and `xach_entry++` moves to the next record. Decoding one more record appends exactly that record. |
| Achievements.AppendAll | src/xenia/kernel/util/xdbf_utils.cc:118-140 | The loop appends the `count` decoded records to the vector in storage order. The vector's previous contents are unchanged. |
| Achievements.AchievementVector.PushBack | src/xenia/kernel/util/xdbf_utils.cc:137 | `push_back` appends one element. |
| Xdbf.XdbfWrapper.AchievementTable | src/xenia/kernel/util/xdbf_utils.cc:96-121 | There is no table when the Metadata/XACH block or the locale's string table is missing. A table found lies inside the buffer, uses the locale's strings, and its count is below 2^32. |
| Xdbf.XdbfWrapper.AchievementCount | src/xenia/kernel/util/xdbf_utils.cc:94-109 | The returned count fits a `uint32_t`. It is 0 when either block is missing. |
| Xdbf.XdbfWrapper.AchievementCountIsDeclared | src/xenia/kernel/util/xdbf_utils.cc:142 | The returned count is the XACH header's `count`, provided three things hold. Both blocks are present. The XACH header and its whole record array lie inside the buffer. The locale's `XdbfXstrHeader` lies inside the buffer. |
| Xdbf.XdbfWrapper.AchievementList | src/xenia/kernel/util/xdbf_utils.cc:118-140 | The list has exactly as many achievements as the returned count. |
| Xdbf.XdbfWrapper.AchievementListAt | src/xenia/kernel/util/xdbf_utils.cc:119-139 | Achievement `i` is decoded from record `i` of the XACH array, with its three texts looked up in the locale's string table. |
| Xdbf.XdbfWrapper.LocateAchievements | src/xenia/kernel/util/xdbf_utils.cc:96-116 | The two block lookups and their early returns find exactly the achievements table, or nothing. |
| Xdbf.XdbfWrapper.GetAchievements | src/xenia/kernel/util/xdbf_utils.cc:94-143 | The return value is the count, whether or not `entries` is null. A non-null vector gets exactly the list appended, and its previous contents are unchanged. |
| Xdbf.XdbfWrapper.Icon | src/xenia/kernel/util/xdbf_utils.cc:148-150 | The icon is the Image-section block with id `0x8000`. Only a valid wrapper has one. |
| Xdbf.XdbfWrapper.IconIsFirstMatch | src/xenia/kernel/util/xdbf_utils.cc:148-150 | The icon is the block of the first live Image slot keyed by `0x8000`. |
| Xdbf.XdbfWrapper.IconAbsent | src/xenia/kernel/util/xdbf_utils.cc:148-150 | There is no icon iff no live Image slot is keyed by `0x8000`. |
| Xdbf.XdbfWrapper.DefaultLanguage | src/xenia/kernel/util/xdbf_utils.cc:152-160 | `kEnglish` when there is no Metadata/XSTC block. For a block inside the buffer, the result is its `default_language` field reduced modulo 2^32 (the `uint32_t` cast). A block running past the buffer gives `kEnglish`, which is an added guard. |
| Xdbf.XdbfWrapper.DefaultLanguageIsFirstMatch | src/xenia/kernel/util/xdbf_utils.cc:152-159 | The default language is the `default_language` field, cast to `uint32_t`, of the block of the first live Metadata slot keyed by the XSTC id. |
| Xdbf.XdbfWrapper.Title | src/xenia/kernel/util/xdbf_utils.cc:162-164 | The title is `""` when the default language has no StringTable entry. |
| Xdbf.XdbfWrapper.TitleIsFirstMatch | src/xenia/kernel/util/xdbf_utils.cc:152-164 | When the XSTC block declares language `lang`, the title is the text of the first record keyed `0x8000` in `lang`'s string table. |
| Xdbf.XdbfWrapper.TitleFallsBackToEnglish | src/xenia/kernel/util/xdbf_utils.cc:152-164 | Without an XSTC block, the title is the English table's string `0x8000`. |
| Xdbf.XdbfWrapper.InvalidIsEmpty | src/xenia/kernel/util/xdbf_utils.cc:23-35 | An invalid wrapper answers every query with its empty result: no block, `""`, count 0, nothing appended, English. |
| Scenarios.LookupHello | src/xenia/kernel/util/xdbf_utils.cc:59-72 | In the table `{(1,"Hello"), (2,"World")}`, id 1 resolves to "Hello". |
| Scenarios.LookupWorld | src/xenia/kernel/util/xdbf_utils.cc:59-72 | In the same table, id 2 resolves to "World". |
| Scenarios.LookupAbsent | src/xenia/kernel/util/xdbf_utils.cc:71 | In the same table, id 3 resolves to "". |
| Scenarios.AchievementJoin | src/xenia/kernel/util/xdbf_utils.cc:128-129 | A record with `label_id = 1`, joined against that table, gets the label "Hello". |
| Scenarios.AchievementJoinEmptyTable | src/xenia/kernel/util/xdbf_utils.cc:128-129 | Against an empty table, the same record's label is "". |

Repeated lookups give identical results. Every query is a function of the wrapper's `const`
state, and every loop is proved equal to its function.

## Left out

- Struct layouts, byte order and enumerator values are parameters (`Layout`), not the concrete
  values of `xdbf_utils.h`, which is not part of this model. The only assumptions are that every
  field lies inside its structure and that the XACH count field is at most 4 bytes.
- The `assert_true` magic and version checks (lines 84-85, 102-103, 113-114 and 158) are omitted.
  They are debug-only and do not change what a release reader returns. The constants
  `MAGIC_XSTC`, `MAGIC_XSTR` and `MAGIC_XACH` are declared but unused for this reason.
- The following guards are added. Each gives the not-found result instead:
  - An invalid wrapper answers every query with its empty result. The source dereferences `header_` there.
  - A directory slot that is not inside the buffer ends the `GetEntry` scan with `{0}`.
  - A string record header that is not inside the buffer ends the scan with `""`.
  - A matching record whose text runs past the buffer gives `""`.
  - An `XdbfXstrHeader` that is not inside the buffer counts as a missing table.
  - An `XbdfXachHeader` or record array that is not inside the buffer makes `GetAchievements`
    return 0 and append nothing.
  - An XSTC block that is not inside the buffer gives `kEnglish`.
- GetAchievements: the XSTR-header and record-array guards also apply when `entries` is null.
  There, the source reads only the XACH header's `count` (and the XSTR header only in a debug
  check), so it returns the declared count. With a truncated record array or an out-of-buffer
  XSTR header, the model returns 0 instead.
- Bounds are checked against the whole buffer (`data_size_`), not against the enclosing block's
  `size`. Within the buffer, results are what the source computes.
- `GetEntry` does not check that the block it returns lies in the buffer. It is pointer
  arithmetic, not a read, as in the source (line 51).
- Pointers and buffers are modelled as follows:
  - Null pointers are `None` (the input) or a null `AchievementVector?` (the result vector).
  - The caller's buffer is an immutable byte sequence. Aliasing, or the caller changing it
    later, is not modelled.
  - A `std::string` is a byte sequence, with no character encoding.
- `XdbfGameData`'s accessors (`icon`, `default_language`, `title`) are members of the same class,
  because they only call `XdbfWrapper` queries.
- The source's `uint16_t` parameters (`string_id`, `count`, the record's text ids, the section
  codes) are reduced modulo 2^16 where a wider value is passed. The `default_language` cast is
  reduced modulo 2^32. The loop counters cannot wrap. The string scan's `uint16_t` counter runs
  below a `uint16_t` count. The `uint32_t` counters run below `entry_used` and the XACH `count`,
  which the layout's well-formedness limits to at most 4 bytes each.
- The emulator window and debugger UI, decoding of the icon's PNG payload, any XDBF writer, and
  free-list interpretation are left out. They are UI plumbing, or absent from the reader.
