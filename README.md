# IPA text pipeline — a Dafny model

This project models the text side of an IPA speech-synthesis front end. There are four stages:

- **`validateIPA`** decomposes its input (NFD) and trims it. It then collects issues in three passes: a character whitelist, checks on the first code unit, and a left-to-right context scan.
- **`segmentIPA`** groups code units into segments. Each segment is a base followed by the combining marks that attach to it. Punctuation and space become segments of their own.
- **`checkCapabilities`** reports the bases and diacritics that lie outside a fixed starter inventory.
- **`synthesizeIPA`** chains the three stages. It renders the issues or the capability notes as text and returns a silent 16-bit mono PCM WAV file. `makeSilentWav` and `writeASCII` build that file in a byte buffer.

Text is a sequence of UTF-16 code units (`Text.CodeUnit`, 0..0xFFFF), because that is what JavaScript indexes. Two Unicode services are foreign to the code. The "is a combining mark" test (`\p{M}`) and NFD normalization are therefore fields of a `Text.Unicode` parameter that every operation takes. JavaScript `trim` whitespace, which is also the regex class `\s`, is written out as `Text.IsJsSpace`.

Each operation has the same form as its source:

- The loops of `validateIPA`, `segmentIPA`, `checkCapabilities` and `writeASCII` are methods with loop invariants.
- Each loop method is proved equal to a recursive specification function:
  - `Validate.ValidateWith` specifies `validateIPA`.
  - `Parse.Segments` specifies `segmentIPA`.
  - `Phoneset.Capabilities` specifies `checkCapabilities`.
  - `Synthesis.SilentWav` specifies `makeSilentWav`.
- The properties are lemmas about those functions.
- `synthesizeIPA` is composition, so it is the function `Synthesis.SynthesizeWith`; `Synthesis.SynthesizeIPA` runs the methods in the same order.
- `makeSilentWav` writes a zeroed `array<Byte>` field by field. `setUint8`, `setUint16` and `setUint32` are modelled as methods. The 16- and 32-bit values are reduced modulo 2^16 or 2^32 and stored little-endian.

Four points about the source shape the model:

- **The whitelist is a literal string.** The whitelist regular expression (`src/lib/ipa/validate.ts:18-39`) joins its ranges with no enclosing brackets. It therefore denotes a 42-unit literal string, not a character class.
  - `Validate.AllowedTest` models the pattern as written.
  - `Validate.IntendedAllowed` is the class the comments describe.
  - The datatype `Validate.Whitelist` chooses between the two.
  - `Validate.Validate` and `Synthesis.Synthesize` are the source as written, and there every input fails.
  - The scenarios that need a passing validation use `Intended`. See "## Findings".
- **The segmenter's comment examples do not hold.** The doc comment of `segmentIPA` (`src/lib/ipa/parse.ts:9-13`) claims that "pʰã" gives `[p+ʰ, a+̃]` and that "t͡ʃ" gives a single segment. The code behaves differently, and the model follows the code:
  - ʰ is a spacing letter, not a combining mark, so it opens a segment of its own (`Parse.AspirationIsItsOwnSegment`).
  - ʃ is a letter and opens a second segment (`Parse.TieBarSplitsAffricate`).
- **Some leading defects are reported twice.** A leading combining mark is reported by the start checks and again by the context scan. So are a leading length mark and a leading double stress (`Validate.LeadingDefectsReportedTwice`, `Validate.LeadingDoubleStressTwice`).
- **The issue list is not sorted by index.** It comes in pass order (`Validate.IssuesInPassOrder`, `Validate.IssuesNotSortedByIndex`).

## Model

| member | source | states |
|---|---|---|
| Text.TrimShape | src/lib/ipa/validate.ts:64 | `trim` keeps a contiguous slice of its input that neither starts nor ends with white space, and removes only white space around it |
| Text.TrimEmptyIff | src/lib/ipa/validate.ts:64-67 | the trimmed string is empty exactly when every unit of the input is white space |
| Text.TrimIdempotent | src/lib/ipa/validate.ts:64 | trimming an already trimmed string changes nothing |
| Text.ContainsRunIff | src/lib/ipa/validate.ts:18-39 | `test` with a pattern that is all literal characters holds exactly when the pattern occurs in the string as a contiguous run at some position |
| Text.DecimalRoundTrip | src/lib/synthesis.ts:21 | the decimal rendering of an index is non-empty, all digits, has no leading zero, and reads back as the index |
| Validate.ValidateIPA | src/lib/ipa/validate.ts:59-152 | the three passes produce the specified validation; `ok` holds exactly when there are no issues; `cleaned` is the NFD form trimmed; an empty `cleaned` comes with the single "Empty input" issue |
| Validate.PushStartIssues | src/lib/ipa/validate.ts:79-110 | the start block appends exactly the start-of-string issues, in the order of the source |
| Validate.PushContextIssues | src/lib/ipa/validate.ts:117-148 | one iteration of the context loop appends what checks 3a, 3b, 3c and 3d report at that index, in that order |
| Validate.NoUnitAllowed | src/lib/ipa/validate.ts:18-39 | no single code unit passes the whitelist test as written |
| Validate.WhitelistFlagsEveryUnit | src/lib/ipa/validate.ts:72-77 | as written, the first pass reports "Unsupported character" at every index, in index order |
| Validate.NeverOk | src/lib/ipa/validate.ts:64-151 | as written, validation never succeeds, and the issues of a non-empty input begin with one whitelist issue per unit |
| Validate.EmptyInputIff | src/lib/ipa/validate.ts:64-69 | the result is `ok=false` with the single issue (0, "", "Empty input") and `cleaned=""` exactly when the NFD input is all white space |
| Validate.FiredIff | src/lib/ipa/validate.ts:121-148 | an issue is among those reported at index i exactly when it is at i, carries `s[i]`, and its check fires there |
| Validate.WhitelistIssuesPlaced | src/lib/ipa/validate.ts:72-77 | every whitelist issue lies inside the scanned prefix and carries the unit at its index |
| Validate.InContextIff | src/lib/ipa/validate.ts:117-149 | an issue is in the context pass exactly when its index is scanned, it carries that unit, and its check fires there |
| Validate.StartIssuesPlaced | src/lib/ipa/validate.ts:80-110 | start-of-string issues sit at index 0 or 1, inside the string, and carry the unit at their index |
| Validate.CheckPlaced | src/lib/ipa/validate.ts:72-149 | every issue of a non-empty string has an index inside it and carries the unit at that index |
| Validate.IssuesPlaced | src/lib/ipa/validate.ts:64-151 | every issue has an index below the length of `cleaned` and carries `cleaned[index]`, except the empty-input issue |
| Validate.WhitelistAscending | src/lib/ipa/validate.ts:72-77 | whitelist issues are in strictly ascending index order |
| Validate.ContextNondecreasing | src/lib/ipa/validate.ts:117-149 | context issues are in non-decreasing index order |
| Validate.IssuesInPassOrder | src/lib/ipa/validate.ts:72-149 | the issue list is the whitelist issues (ascending), then the start issues (index at most 1), then the context issues (non-decreasing) |
| Validate.IssuesNotSortedByIndex | src/lib/ipa/validate.ts:72-110 | for "ːa" an index-0 issue follows an index-1 issue, so the list is not sorted by index |
| Validate.ContextOnlyRule | src/lib/ipa/validate.ts:121-148 | a diacritic, length or tone issue is reported exactly when its context check fires at its index |
| Validate.LengthFlaggedIff | src/lib/ipa/validate.ts:129-133 | a length mark at i is flagged iff i = 0, or the previous unit is a combining mark, or it is safe punctuation |
| Validate.ToneFlaggedIff | src/lib/ipa/validate.ts:143-148 | a tone letter at i is flagged iff i = 0, or the previous unit is neither a listed vowel nor a combining mark |
| Validate.DiacriticFlaggedIff | src/lib/ipa/validate.ts:121-126 | a combining mark at i is flagged iff i = 0 or the previous unit is safe punctuation |
| Validate.StartOnlyRule | src/lib/ipa/validate.ts:80-110 | the "only/last", "space or punctuation", leading-combining and leading-length messages come only from the start checks |
| Validate.LeadingStress | src/lib/ipa/validate.ts:85-107 | a leading stress mark gives "only/last" iff it is the whole string, and "space or punctuation" iff the second unit is safe punctuation |
| Validate.ContextOnce | src/lib/ipa/validate.ts:117-149 | the context scan never reports the same issue twice |
| Validate.LeadingDoubleStressTwice | src/lib/ipa/validate.ts:100-140 | two leading stress marks yield the "Consecutive" issue at index 1 exactly twice |
| Validate.LeadingDefectsReportedTwice | src/lib/ipa/validate.ts:81-133 | a leading combining mark (or a leading length mark) is reported by both the start checks and the context scan, and only then |
| Validate.WhitelistSilentIff | src/lib/ipa/validate.ts:72-77 | the whitelist pass reports nothing exactly when the whitelist admits every unit |
| Validate.ContextSilentIff | src/lib/ipa/validate.ts:117-149 | the context pass reports nothing exactly when no check fires anywhere |
| Validate.StressedWordValidUnderIntended | src/lib/ipa/validate.ts:59-152 | with the intended whitelist, "ˈkæt" validates with no issues |
| Validate.GlottalStopValidUnderIntended | src/lib/ipa/validate.ts:59-152 | with the intended whitelist, "ʔ" validates with no issues |
| Validate.DoubleStressReported | src/lib/ipa/validate.ts:100-140 | "ˈˈtest" fails with the "Consecutive" issue at index 1 reported twice |
| Parse.SegmentIPA | src/lib/ipa/parse.ts:14-41 | the loop, with `current` tracking the last open segment, produces the specified segmentation of the NFD input, and the segments spell that input back |
| Parse.Reconstruction | src/lib/ipa/parse.ts:19-38 | concatenating each segment's base and diacritics, in order, gives back the input exactly |
| Parse.StepWellFormed | src/lib/ipa/parse.ts:24-37 | one step of the loop keeps the segment list well formed |
| Parse.SegmentsWellFormed | src/lib/ipa/parse.ts:24-47 | boundaries stand alone with no diacritics; every diacritic is a combining mark and no boundary; a mark is a base only first or right after a boundary |
| Parse.SegmentCount | src/lib/ipa/parse.ts:14-40 | there are no more segments than units, and there is at least one segment exactly when the input is non-empty |
| Parse.AspirationIsItsOwnSegment | src/lib/ipa/parse.ts:30-37 | "pʰã" (NFD) gives [p], [ʰ], [a + ̃]: the spacing ʰ does not attach |
| Parse.TieBarSplitsAffricate | src/lib/ipa/parse.ts:30-37 | "t͡ʃ" gives [t + ͡], [ʃ] |
| Parse.SpaceSeparates | src/lib/ipa/parse.ts:24-33 | "p a" gives three segments, the space alone in the middle |
| Parse.MarkAfterSpaceStandsAlone | src/lib/ipa/parse.ts:24-33 | a combining mark after a space opens its own segment instead of attaching across the boundary |
| Phoneset.CheckCapabilities | src/lib/ipa/phoneset.ts:55-74 | the loop over segments, with the inner loop over diacritics, produces the specified report |
| Phoneset.PushSegmentItems | src/lib/ipa/phoneset.ts:58-71 | one callback appends nothing for a boundary, else the base item and then the diacritic items |
| Phoneset.PushDiacriticItems | src/lib/ipa/phoneset.ts:66-70 | the inner loop appends one item per unsupported diacritic, in order |
| Phoneset.DiacriticItemsIff | src/lib/ipa/phoneset.ts:66-70 | a diacritic item is reported exactly for a diacritic of the segment that is not in the diacritic inventory |
| Phoneset.SegmentItemsIff | src/lib/ipa/phoneset.ts:58-71 | an item is among segment i's contribution iff it carries index i and names an unsupported part of the segment: for a non-boundary segment, its base when that is in neither the base nor the spacing inventory, or one of its diacritics not in the diacritic inventory |
| Phoneset.ReportIff | src/lib/ipa/phoneset.ts:55-74 | an item is in the report exactly when its index is below the number of segments scanned and it names an unsupported part of that segment |
| Phoneset.BoundariesSilent | src/lib/ipa/phoneset.ts:48-60 | no item names a boundary segment |
| Phoneset.InventoryScenario | src/lib/ipa/phoneset.ts:55-74 | "ʔ" reports one unsupported base at segment 0; "ː˥" reports nothing |
| Phoneset.ReportIndicesBelow | src/lib/ipa/phoneset.ts:58-68 | every item's index is below the number of segments |
| Phoneset.SegmentItemsShape | src/lib/ipa/phoneset.ts:63-70 | a segment's items all carry its index and any base item comes first |
| Phoneset.ReportOrdered | src/lib/ipa/phoneset.ts:58-71 | item indices are non-decreasing, and within a segment the base item precedes its diacritic items |
| Phoneset.DiacriticItemsCount | src/lib/ipa/phoneset.ts:66-70 | at most one item per diacritic |
| Phoneset.SegmentItemsCount | src/lib/ipa/phoneset.ts:60-70 | a boundary contributes nothing, any other segment at most 1 + its diacritic count |
| Phoneset.ReportSize | src/lib/ipa/phoneset.ts:56-73 | the report holds at most the sum of 1 + diacritic count over non-boundary segments |
| Synthesis.SynthesizeIPA | src/lib/synthesis.ts:14-39 | validation, segmentation, the capability check and the WAV writer give the specified result; it is an error exactly when validation fails |
| Synthesis.Outcomes | src/lib/synthesis.ts:16-38 | failed validation gives "Validation failed" with one formatted line per issue, in order; success always gives the silent WAV, with notes absent iff nothing is unsupported, else one note per item in order, each naming an existing segment |
| Synthesis.AsWrittenAlwaysFails | src/lib/synthesis.ts:16-23 | as written, every call fails, and the lines of a non-empty input begin with one "Unsupported character" line per unit |
| Synthesis.BlankInputFails | src/lib/synthesis.ts:16-23 | blank input fails with the single line "0:Empty input" |
| Synthesis.EmptyInputLine | src/lib/synthesis.ts:21 | the empty-input issue renders as "0:Empty input" |
| Synthesis.IssueLineReadsBack | src/lib/synthesis.ts:21 | an issue line is exactly the index digits, a colon, then (when the issue carries a unit) that unit in double quotes and a space, then the message, with nothing in between: its length is the sum of those parts; the index reads back from the digits |
| Synthesis.NoteReadsBack | src/lib/synthesis.ts:32 | a note is exactly "Unsupported ", the kind, a space, the symbol in double quotes, " at segment " and the index digits, which read back; the two kinds have different lengths |
| Synthesis.GlottalStopNote | src/lib/synthesis.ts:32 | the note for ʔ at segment 0 is `Unsupported base "ʔ" at segment 0` |
| Synthesis.GlottalStopSynthesizes | src/lib/synthesis.ts:14-39 | with the intended whitelist, "ʔ" synthesizes to the silent WAV with that single note |
| Synthesis.MakeSilentWav | src/lib/synthesis.ts:43-72 | returns a fresh buffer whose bytes are exactly the header for max(1, requested) samples followed by zero samples |
| Synthesis.WriteRiffChunk | src/lib/synthesis.ts:51-54 | writes "RIFF", 36 + dataSize and "WAVE" at offsets 0 to 12 of the zeroed buffer |
| Synthesis.WriteFmtChunk | src/lib/synthesis.ts:56-64 | writes the fmt chunk at offsets 12 to 36 |
| Synthesis.WriteFmtFormat | src/lib/synthesis.ts:57-60 | writes "fmt ", 16, 1 and 1 at offsets 12 to 24 |
| Synthesis.WriteFmtRates | src/lib/synthesis.ts:61-64 | writes the rate, 2 × rate, 2 and 16 at offsets 24 to 36 |
| Synthesis.WriteDataChunk | src/lib/synthesis.ts:66-69 | writes "data" and dataSize at offsets 36 to 44; the samples stay zero |
| Synthesis.WriteAscii | src/lib/synthesis.ts:74-76 | overwrites bytes offset .. offset + length - 1 with the code units modulo 256, and keeps every other byte |
| Synthesis.SetUint8 | src/lib/synthesis.ts:75 | stores one byte, the value modulo 256, and changes nothing else |
| Synthesis.SetUint32 | src/lib/synthesis.ts:53-68 | overwrites four bytes with the little-endian encoding of the value modulo 2^32 |
| Synthesis.SetUint16 | src/lib/synthesis.ts:59-64 | overwrites two bytes with the little-endian encoding of the value modulo 2^16 |
| Synthesis.SpliceAt | src/lib/synthesis.ts:74-76 | byte by byte, a write keeps the old byte outside its range and takes the new bytes inside it |
| Synthesis.U32RoundTrip | src/lib/synthesis.ts:53-68 | a 32-bit field decodes back to its value modulo 2^32 |
| Synthesis.U16RoundTrip | src/lib/synthesis.ts:59-64 | a 16-bit field decodes back to its value modulo 2^16 |
| Synthesis.RiffFields | src/lib/synthesis.ts:52-54 | bytes 0 to 12 read "RIFF", 36 + dataSize (mod 2^32) and "WAVE" |
| Synthesis.FmtFormatFields | src/lib/synthesis.ts:57-60 | the first fmt bytes read "fmt ", 16, 1 and 1 |
| Synthesis.FmtRatesFields | src/lib/synthesis.ts:61-64 | the rate fields read rate and 2 × rate (mod 2^32), 2 and 16 |
| Synthesis.FmtFields | src/lib/synthesis.ts:57-64 | bytes 12 to 36 read "fmt ", 16, 1, 1, rate, 2 × rate, 2 and 16 |
| Synthesis.DataFields | src/lib/synthesis.ts:67-68 | bytes 36 to 44 read "data" and dataSize (mod 2^32) |
| Synthesis.WavLayout | src/lib/synthesis.ts:44-69 | numSamples is at least 1 (the request itself when that is positive); the file has 44 + 2 × numSamples bytes; the three header parts sit at offsets 0, 12 and 36; every byte from 44 on is zero |

## Left out

- Unicode services: NFD normalization (`src/lib/ipa/normalize.ts` is not part of this model) and the `\p{M}` test are fields of `Text.Unicode`. Their behaviour is not modelled; scenario lemmas state what they need of them as preconditions.
- `raw ?? ""` in `validateIPA`: the model's strings are never null.
- The `Promise` wrapper of `synthesizeIPA`: the model is synchronous.
- `Math.floor(seconds * sampleRate)`: floating point is not modelled. `Synthesis.MakeSilentWav` takes the floored sample count as an integer, and `synthesizeIPA` passes 3200 (0.2 s at 16 kHz).
- Synthesis.SetUint8: requires the offset to lie inside the buffer instead of modelling the `RangeError` a `DataView` throws out of range; every offset `makeSilentWav` uses lies inside.
- Synthesis.WriteAscii: requires the text to fit inside the buffer from the offset, for the same reason; `makeSilentWav` only writes its four-letter tags at offsets 0, 8, 12 and 36.
- Synthesis.MakeSilentWav: does not model the `RangeError` that `new ArrayBuffer` throws for a length beyond the engine's limit; every size is accepted.
- Synthesis.SetUint32: the value is an integer here. The truncation of a fractional value that `ToUint32` would perform is not modelled, because the source only passes integers.
- `Parse.SegmentIPA`: in the source, `current` is a second reference to the last element of `out`, and `push` mutates it in place. The model keeps `current` as a copy of that last segment and writes the extended segment back. The invariant relating the two replaces the aliasing.
- "The input segments are not modified": `checkCapabilities` takes a `seq`, which is a value, so this holds by construction and has no lemma.
- The three inventories of `src/lib/ipa/phoneset.ts` are predicates (`Phoneset.IsSupportedBase`, `Phoneset.IsSupportedDiacritic`, `Phoneset.IsSpacingModifier`) gathered in an `Inventory` value, not `Set` objects.
- `issues?` in the error result is always present in the source, so the model's `Err` carries a plain sequence.
- `Text.Lit` turns the model's own string literals into code units. Every literal in the model lies in the Basic Multilingual Plane.
- The React page that calls the pipeline is not modelled.

## Findings

| source | as written | input that shows it | evidently intended | confidence | as-written member | corrected member |
|---|---|---|---|---|---|---|
| src/lib/ipa/validate.ts:18-39 | the whitelist ranges are joined with no enclosing `[...]`, so `ALLOWED` matches only the 42-unit literal text of the ranges and `test` on one code unit is always false; every non-empty input is refused | "ˈkæt" (any non-empty input): every unit gets "Unsupported character" and `ok` is false | a character class of the listed ranges and code points, under which "ˈkæt" validates | not executed | Validate.NeverOk | Validate.StressedWordValidUnderIntended |
