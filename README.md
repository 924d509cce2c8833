# Win-font to Myanmar3 converter: a Dafny model

This project models the core of a desktop converter. The converter turns
Burmese text typed in a legacy "Win" font encoding into Myanmar3 Unicode.
It works on plain text files and on the text of Word, Excel and PowerPoint
packages that is set in a chosen source font.

The model has three layers:

- **The transcoder** (`win_to_myanmar3.rs`):
  - spaces are cleaned up before the font mapping;
  - the 153-entry font mapping table is applied;
  - the four kinzi reorderings, the ra reordering, the zero/wa disambiguation
    and the storage-order reordering follow;
  - then the `correction1` pass;
  - last, the bracket and comma placeholders are restored.
- **The TypeScript port** (`WinToMyanmar3.ts`). It is modelled as well, with
  its differences from the Rust version stated and proved.
- **The OOXML layer** (`lib.rs`):
  - `convert_file` picks a converter by the file extension;
  - the package converters copy a zip archive entry by entry;
  - the four streaming XML rewriters rewrite font attributes and transcode the
    text of runs set in the source font;
  - the two spreadsheet passes work out which shared strings belong to cells
    styled with the source font.

Modules:

- `Replace`: literal `str::replace` / `split().join()` and tables of them.
- `MappingTables`: the two font mapping tables, as sections.
- `Scanners`: each regular expression as an anchored matcher, plus one
  `replace_all` driver (`Rewrite`).
- `Correction`: `correction1`.
- `Transcoder`: `win_to_myanmar3`.
- `TsPort`: `winToMyanmar3`.
- `Xml`: XML events, tag matching, font attributes, `usize` parsing.
- `Rewriters`: the four event loops as one loop over a `Dialect`.
- `RewriterLaws`: properties of those loops.
- `XlsxIndex`: `parse_xlsx_styles` and `collect_shared_string_indices`.
- `Archive`: `convert_file`, `convert_text_file`, `convert_office_file` and
  `convert_xlsx_file`.

Each loop of the source is a method with a `while` or `for` loop. Each method
is proved equal to a specification function, and the properties are proved
about those functions.

What the XML rewriters see is a sequence of reader results (`Read`): an event,
`Eof` or `Err`. What they write is the sequence of events written. The
transcoder is a parameter `convert` of the shared loop, and the four rewriters
pass `Transcoder.Transcoded`. XML tokenising is a parameter `tokens` of the
archive converters.

## Model

| member | source | states |
|---|---|---|
| Replace.ReplaceEachInOrder | src-tauri/src/win_to_myanmar3.rs:180-186 | Applying the table entries one after another, each to the text the previous one left, yields the fold `ReplaceEach` of the table over the input. |
| Replace.ReplaceAll | src-tauri/src/win_to_myanmar3.rs:183 | `str::replace` (and `split(k).join(v)` in the TypeScript mapping): replacing a non-empty pattern by text of the same length keeps the length of the text. |
| Replace.ReplaceFirst | sample/WinToMyanmar3.ts:336 | JavaScript `replace` with a string pattern: a same-length replacement keeps the length of the text. |
| Replace.ReplaceAllChars | src-tauri/src/win_to_myanmar3.rs:183 | Every character of a replace-all result comes from the input or from the replacement. |
| Replace.ReplaceAllWithoutOccurrence | src-tauri/src/win_to_myanmar3.rs:183 | A non-empty pattern that does not occur leaves the text unchanged. |
| Replace.ReplaceEachChars | src-tauri/src/win_to_myanmar3.rs:180-186 | Every character after a whole table comes from the input or from some entry's replacement. |
| Replace.ReplaceEachSnoc | src-tauri/src/win_to_myanmar3.rs:182-184 | Appending an entry to a table adds one replace-all after the others. |
| Replace.ReplaceEachAppend | src-tauri/src/win_to_myanmar3.rs:182-184 | A table split in two is the first part applied, then the second. |
| Replace.ReplaceAllOneChar | src-tauri/src/win_to_myanmar3.rs:183 | Replacing a one-character pattern is character-wise substitution. |
| Replace.ReplaceAllRemovesChar | src-tauri/src/win_to_myanmar3.rs:411-414 | After replacing a character by text without it, the character is gone. |
| Replace.SubstituteCharAvoids | src-tauri/src/win_to_myanmar3.rs:411-414 | Character-wise substitution by text without the character removes it. |
| Replace.SubstituteCharPointwise | src-tauri/src/win_to_myanmar3.rs:411-414 | Substituting one character by one character changes exactly the positions holding it and keeps every other position. |
| Replace.ReplaceAllStep | src-tauri/src/win_to_myanmar3.rs:183 | Replace-all consumes either a whole occurrence (writing the replacement) or one character (writing it back), then continues on the rest. |
| Replace.ReplaceAllPermutes | src-tauri/src/win_to_myanmar3.rs:233-241 | Replacing a pattern by a rearrangement of it only rearranges the text (multiset equality). |
| Replace.ReplaceAllCount | src-tauri/src/win_to_myanmar3.rs:394-404 | If the replacement has no more copies of a character than the pattern, replace-all never adds copies of it, and an equal count keeps the count. |
| Replace.ReplaceEachCount | src-tauri/src/win_to_myanmar3.rs:403-405 | The same count bound for a whole table whose entries all satisfy it. |
| Replace.ReplaceAllPairPointwise | src-tauri/src/win_to_myanmar3.rs:284-290 | Rewriting `a b` to `c b` keeps the length and changes exactly the positions holding `a` right before `b`. |
| Replace.ReplaceAllPairLength | src-tauri/src/win_to_myanmar3.rs:284-290 | Rewriting `a b` to `c b` keeps the length. |
| Replace.ReplaceAllPairAt | src-tauri/src/win_to_myanmar3.rs:284-290 | The character at one position after rewriting `a b` to `c b`: `c` exactly where `a` precedes `b`. |
| Replace.ReplaceEachFixesChar | src-tauri/src/win_to_myanmar3.rs:182-184 | A single character that no key equals passes a table unchanged. |
| Replace.ReplaceEachOneStep | src-tauri/src/win_to_myanmar3.rs:182-184 | A character with exactly one entry for it, and no later entry for its image, ends as that image. |
| Replace.ReplaceEachRemovesChar | src-tauri/src/win_to_myanmar3.rs:411-414 | A character replaced by an entry that no later entry reintroduces is absent from the result. |
| Replace.FlattenFixes | src-tauri/src/win_to_myanmar3.rs:3-178 | A character avoided by every section's keys passes the whole table unchanged. |
| Replace.FlattenThrough | src-tauri/src/win_to_myanmar3.rs:3-178 | A character untouched before section `j` and mapped by section `j` ends as what the later sections make of its image. |
| Replace.TwoStepChain | sample/WinToMyanmar3.ts:10-187 | A character mapped by one section and whose image is mapped again by a later one ends as the second image. |
| Replace.ChainFrom | sample/WinToMyanmar3.ts:10-187 | The later part of such a chain over the suffix of sections. |
| Replace.SuffixFixes | sample/WinToMyanmar3.ts:10-187 | A character avoided by every key of a suffix of sections is fixed by it. |
| Replace.MiddleThrough | sample/WinToMyanmar3.ts:10-187 | A character avoided up to section `j2`, mapped there to a fixed point of the rest, ends as that image. |
| MappingTables.AllSectionsClean | src-tauri/src/win_to_myanmar3.rs:3-178 | No value of either table contains a precomposed kinzi glyph (U+00F8, U+00D0, U+00D8). |
| MappingTables.FlattenValuesNoKinziGlyph | src-tauri/src/win_to_myanmar3.rs:3-178 | Sections without glyphs in their values make a table without glyphs in its values. |
| MappingTables.FlattenLeavesNoKinziGlyph | src-tauri/src/win_to_myanmar3.rs:14-25 | A table that maps the three glyphs early and never writes them leaves no glyph in any text. |
| MappingTables.RustMappingLeavesNoKinziGlyph | src-tauri/src/win_to_myanmar3.rs:180-186 | After `apply_font_mapping` no precomposed kinzi glyph remains, whatever the input. |
| MappingTables.TsMappingLeavesNoKinziGlyph | sample/WinToMyanmar3.ts:192-199 | The same for `applyFontMapping`. |
| MappingTables.RustSectionsAvoidPlaceholder | src-tauri/src/win_to_myanmar3.rs:3-178 | No key of the Rust table is one of the placeholders «, » or ç. |
| MappingTables.RustMappingKeepsPlaceholder | src-tauri/src/win_to_myanmar3.rs:180-186 | The Rust mapping leaves each placeholder as it is. |
| MappingTables.TsHeadAvoidsPlaceholder | sample/WinToMyanmar3.ts:10-52 | The TypeScript sections before the placeholder entries have no placeholder key. |
| MappingTables.TsMiddleAvoidsBrackets | sample/WinToMyanmar3.ts:56-123 | The sections between the placeholders and the consonants have no `[`, `,` or `]` key, and none before punctuation has `]`. |
| MappingTables.TsTailAvoidsLetters | sample/WinToMyanmar3.ts:130-187 | The sections after the consonants have no ha or ya key. |
| MappingTables.PlaceholdersSteps | sample/WinToMyanmar3.ts:53-55 | The placeholder section maps «, » and ç to `[`, `]` and `,`. |
| MappingTables.OpenBracketStep | sample/WinToMyanmar3.ts:129 | The consonant section maps `[` to ha U+101F. |
| MappingTables.CommaStep | sample/WinToMyanmar3.ts:124 | The consonant section maps `,` to ya U+101A. |
| MappingTables.PunctuationStep | sample/WinToMyanmar3.ts:184 | The punctuation section maps `]` to an apostrophe. |
| MappingTables.OpenBracketPlaceholder | sample/WinToMyanmar3.ts:53 | The whole TypeScript table turns « into ha U+101F, not `[`. |
| MappingTables.CommaPlaceholder | sample/WinToMyanmar3.ts:55 | The whole TypeScript table turns ç into ya U+101A, not `,`. |
| MappingTables.CloseBracketPlaceholder | sample/WinToMyanmar3.ts:54 | The whole TypeScript table turns » into an apostrophe, not `]`. |
| Scanners.Span | src-tauri/src/win_to_myanmar3.rs:337 | The longest run of a class at the start: everything before it is in the class and the next character is not. |
| Scanners.FirstPrefix | src-tauri/src/win_to_myanmar3.rs:242-251 | Alternation is leftmost-first: the chosen literal is a prefix and no earlier literal is. None exactly when no literal is a prefix. |
| Scanners.StorageGroups | src-tauri/src/win_to_myanmar3.rs:449 | The groups of the storage-order pattern are in order, the group after the optional e-vowel is a consonant, and the tone group holds only tone marks. |
| Scanners.KinziMatch | src-tauri/src/win_to_myanmar3.rs:427-430 | A kinzi match ends with the marker and is replaced by the lead text, the groups before the marker, and the tail. |
| Scanners.RaMatch | src-tauri/src/win_to_myanmar3.rs:439-443 | A ra match is rewritten to a rearrangement of itself that starts with the consonant and keeps medial ra. |
| Scanners.StorageMatch | src-tauri/src/win_to_myanmar3.rs:449-453 | A storage-order match is rewritten to text starting with the consonant that uses no character more often than the match. With the last group kept, every non-tone character keeps its count. |
| Scanners.AnyOfMatch | src-tauri/src/win_to_myanmar3.rs:242-263 | A literal alternation matches iff one of its literals is a prefix; the match is that literal and is replaced by the fixed text. |
| Scanners.DigitMatch | src-tauri/src/win_to_myanmar3.rs:294-334 | The digit patterns match iff the digit is followed by its class; the match is the digit plus the follower, and the digit becomes the letter. |
| Scanners.UpperMedialsMatch | src-tauri/src/win_to_myanmar3.rs:337-340 | An upper sign before medials is rewritten to a rearrangement of the match that ends with that sign. |
| Scanners.SignsLowerMatch | src-tauri/src/win_to_myanmar3.rs:341-344 | Signs before a lower vowel are rewritten to a rearrangement of the match that starts with the lower vowel. |
| Scanners.RewriteUnfold | src-tauri/src/win_to_myanmar3.rs:217-221 | `replace_all` writes the replacement of the match at the current position and continues after it, or copies one character when nothing matches there. |
| Scanners.RewriteWithoutMatches | src-tauri/src/win_to_myanmar3.rs:217-221 | A pattern that matches nowhere leaves the text unchanged. |
| Scanners.MatchPermutes | src-tauri/src/win_to_myanmar3.rs:242-263 | A pattern whose replacements rearrange their matches rewrites each match to a rearrangement of it. |
| Scanners.KinziPermutes | src-tauri/src/win_to_myanmar3.rs:427-430 | A kinzi pass whose lead is the marker itself rearranges each match. |
| Scanners.AnyOfPermutes | src-tauri/src/win_to_myanmar3.rs:242-263 | An alternation of rearrangements of its replacement rearranges each match. |
| Scanners.RewriteStep | src-tauri/src/win_to_myanmar3.rs:217-221 | One step of `replace_all`: the consumed prefix, what is written for it, and the rest. |
| Scanners.PermutingStep | src-tauri/src/win_to_myanmar3.rs:242-263 | One step of a rearranging pattern writes a rearrangement of what it consumes. |
| Scanners.RewritePermutes | src-tauri/src/win_to_myanmar3.rs:242-263 | `replace_all` with a rearranging pattern is a permutation of the text and keeps its length. |
| Scanners.KinziPassInert | src-tauri/src/win_to_myanmar3.rs:431-436 | A glyph kinzi pass over text without its glyph changes nothing. |
| Scanners.KinziRewriteChars | src-tauri/src/win_to_myanmar3.rs:427-436 | Every character written by a kinzi pass comes from the text, the lead or the tail. |
| Scanners.KinziMatchHoldsMarker | src-tauri/src/win_to_myanmar3.rs:431-436 | A glyph kinzi pass matches only where its glyph occurs. |
| Scanners.ChilddeldulRun | src-tauri/src/win_to_myanmar3.rs:188-194 | `childdeldul` of a run of a three-byte mark is the first mark. |
| Scanners.Childdeldul | src-tauri/src/win_to_myanmar3.rs:188-194 | `childdeldul` returns a prefix of the match, and a non-empty one for a non-empty match. |
| Scanners.CollapseHead | src-tauri/src/win_to_myanmar3.rs:216-221 | Collapsing keeps the first character. |
| Scanners.CollapseRun | src-tauri/src/win_to_myanmar3.rs:216-221 | A whole run of a duplicate-prone mark collapses to one copy. |
| Scanners.DuplicateMarksCollapse | src-tauri/src/win_to_myanmar3.rs:216-221 | The duplicate-mark pass equals run collapsing of the eight marks. |
| Scanners.CollapseNoRepeatedMarks | src-tauri/src/win_to_myanmar3.rs:216-221 | After collapsing, no duplicate-prone mark follows itself. |
| Scanners.CollapseKeepsCharacters | src-tauri/src/win_to_myanmar3.rs:216-221 | Collapsing keeps the set of characters. |
| Scanners.CollapseFixes | src-tauri/src/win_to_myanmar3.rs:216-221 | Text without repeated marks is not changed by collapsing. |
| Scanners.DuplicateMarksCollapsed | src-tauri/src/win_to_myanmar3.rs:216-221 | The duplicate-mark pass leaves no repeated mark, keeps the set of characters, and is idempotent. |
| Scanners.DigitAsLetterLength | src-tauri/src/win_to_myanmar3.rs:294-334 | A digit-as-letter pass keeps the length. |
| Scanners.DigitAsLetterAt | src-tauri/src/win_to_myanmar3.rs:294-334 | The character a digit-as-letter pass writes at one position is the letter exactly where the digit is followed by its class. |
| Scanners.DigitStep | src-tauri/src/win_to_myanmar3.rs:294-334 | One step of a digit-as-letter pass keeps the length and writes the right character at each consumed position. |
| Scanners.DigitMatchAt | src-tauri/src/win_to_myanmar3.rs:294-334 | Inside a digit match, only the leading digit changes. |
| Scanners.DigitFollowerNotDigit | src-tauri/src/win_to_myanmar3.rs:294-334 | No digit is part of a follower class. |
| Scanners.DigitAsLetterPointwise | src-tauri/src/win_to_myanmar3.rs:294-334 | The whole pass position by position: zero, seven or eight becomes wa, ra or ga exactly before its class. |
| Scanners.StorageOutDropsOnly | src-tauri/src/win_to_myanmar3.rs:452 | The storage-order replacement uses no character more often than its match. |
| Scanners.StorageOutKeepsNonTones | src-tauri/src/win_to_myanmar3.rs:452 | With the last group kept, every non-tone character keeps its count. |
| Scanners.StorageOutHead | src-tauri/src/win_to_myanmar3.rs:452 | The replacement starts with the consonant. |
| Scanners.StorageStep | src-tauri/src/win_to_myanmar3.rs:449-453 | One step of the storage-order pass writes no more of any character than it consumes. |
| Scanners.StorageOrderDropsOnly | src-tauri/src/win_to_myanmar3.rs:449-453 | The storage-order pass (either version) never adds characters: its result is a sub-multiset of the input. |
| Scanners.StorageOrderKeepsNonTones | src-tauri/src/win_to_myanmar3.rs:449-453 | The Rust storage-order pass keeps the count of every character except the tone marks (only repeated tones are dropped). |
| Scanners.RewriteKeepsCount | src-tauri/src/win_to_myanmar3.rs:217-221 | A pattern whose every match keeps the count of a character makes a pass that keeps it. |
| Scanners.KeepsCountStep | src-tauri/src/win_to_myanmar3.rs:217-221 | One step of such a pass keeps the count. |
| Correction.ApplyCorrections | src-tauri/src/win_to_myanmar3.rs:196-344 | The working string after every step of `correction1` before the last is `Corrected` of the input. |
| Correction.MedialsOrderedPermutes | src-tauri/src/win_to_myanmar3.rs:237-263 | Medial reordering only rearranges characters. |
| Correction.SwapPermutes | src-tauri/src/win_to_myanmar3.rs:237-241 | Swapping two adjacent characters everywhere is a permutation. |
| Correction.TriplesPermuting | src-tauri/src/win_to_myanmar3.rs:242-263 | Both triple-medial alternations replace a match by a rearrangement of it. |
| Correction.TriplePermuting | src-tauri/src/win_to_myanmar3.rs:242-263 | Each of the five alternatives is a rearrangement of the ordered triple. |
| Correction.VowelsOrderedPermutes | src-tauri/src/win_to_myanmar3.rs:266-271 | Vowel reordering only rearranges characters. |
| Correction.ReorderedPermutes | src-tauri/src/win_to_myanmar3.rs:337-344 | The final reordering only rearranges characters. |
| Correction.DigitSignsReadPointwise | src-tauri/src/win_to_myanmar3.rs:284-290 | Zero, seven and eight become wa, ra and ga exactly where an asat or virama follows; the length is kept. |
| Correction.DigitsBeforeMarkLength | src-tauri/src/win_to_myanmar3.rs:284-286 | The three digit rewrites before one mark keep the length. |
| Correction.DigitsBeforeMarkAt | src-tauri/src/win_to_myanmar3.rs:284-286 | Before one mark, the digits right before it, and only those, become letters. |
| Transcoder.ApplyFontMapping | src-tauri/src/win_to_myanmar3.rs:180-186 | `apply_font_mapping` is the table fold over the input, and leaves no precomposed kinzi glyph. |
| Transcoder.CleanupBeforeConvert | src-tauri/src/win_to_myanmar3.rs:391-407 | The eight space removals applied in order. |
| Transcoder.CleanupAfterConvert | src-tauri/src/win_to_myanmar3.rs:409-416 | The three placeholder restorations applied in order. The result has the input's length, and each position holds `Restored` of the input's character there: «, » and ç become `[`, `]` and `,`, and every other character is unchanged. |
| Transcoder.DropsSpacesCounts | src-tauri/src/win_to_myanmar3.rs:394-401 | A clean-up entry has a non-empty key, has no more spaces than that key, and keeps the count of every other character. |
| Transcoder.CleanupBeforeEntries | src-tauri/src/win_to_myanmar3.rs:393-402 | Every clean-up entry drops spaces only. |
| Transcoder.CleanupBeforeOnlyRemovesSpaces | src-tauri/src/win_to_myanmar3.rs:391-407 | `cleanup_before_convert` keeps the count of every non-space character and never adds spaces. |
| Transcoder.CleanupAfterRemovesPlaceholders | src-tauri/src/win_to_myanmar3.rs:409-416 | After `cleanup_after_convert` no «, » or ç remains. |
| Transcoder.CleanupAfterSteps | src-tauri/src/win_to_myanmar3.rs:411 | «, » and ç become `[`, `]` and `,`. |
| Transcoder.CleanupAfterPointwise | src-tauri/src/win_to_myanmar3.rs:409-416 | For every text, `cleanup_after_convert` works position by position: a placeholder anywhere becomes its bracket or comma, and every other character stays where it is. |
| Transcoder.PlaceholderRestored | src-tauri/src/win_to_myanmar3.rs:409-416 | A placeholder survives the font mapping and becomes its bracket or comma at the end. |
| Transcoder.ZeroWa | src-tauri/src/win_to_myanmar3.rs:362-389 | The zero/wa pass keeps the length. |
| Transcoder.IsMmContext | src-tauri/src/win_to_myanmar3.rs:352-360 | A space counts as Myanmar context, and the zero, the seven and wa never do. |
| Transcoder.ReplaceZeroWa | src-tauri/src/win_to_myanmar3.rs:362-389 | The character loop writes `ZeroWa` of its input. |
| Transcoder.ZeroWaChangesOnlyDigits | src-tauri/src/win_to_myanmar3.rs:366-386 | Only zero (to wa) and seven (to ra) ever change, and a zero before Myanmar context always becomes wa. |
| Transcoder.Correction1 | src-tauri/src/win_to_myanmar3.rs:196-350 | `correction1` is the shared corrections followed by swapping every asat-before-dot-below. |
| Transcoder.WinToMyanmar3 | src-tauri/src/win_to_myanmar3.rs:418-460 | The pipeline of reassignments computes `Transcoded` of the input. |
| Transcoder.Transcoded | src-tauri/src/win_to_myanmar3.rs:418-460 | `win_to_myanmar3` as a function: its output never holds «, » or ç. |
| Transcoder.GlyphKinziPassesInert | src-tauri/src/win_to_myanmar3.rs:431-436 | After the mapping, the three glyph kinzi passes change nothing; only the first kinzi pass acts. |
| Transcoder.GlyphPassesInertAfter | src-tauri/src/win_to_myanmar3.rs:426-436 | The glyph passes find nothing after a first pass whose lead has no glyph. |
| Transcoder.KinziFirstPermutes | src-tauri/src/win_to_myanmar3.rs:427-430 | The first kinzi pass only moves the kinzi; it rearranges the text. |
| TsPort.ApplyFontMapping | sample/WinToMyanmar3.ts:192-199 | `applyFontMapping` is the table fold over the input, and leaves no precomposed kinzi glyph. |
| TsPort.ChilddeldulAgree | sample/WinToMyanmar3.ts:204-209 | The TypeScript `childdeldul` (UTF-16 length) and the Rust one (byte length) both cut a run to its first mark and keep a single character. |
| TsPort.JsChilddeldul | sample/WinToMyanmar3.ts:204-209 | The TypeScript `childdeldul` returns a prefix of the match, one character long for a non-empty match. |
| TsPort.KinziFirstAsWrittenWritesBackslash | sample/WinToMyanmar3.ts:352-355 | Wherever the first kinzi pass as written matches, it writes a backslash. |
| TsPort.KinziFirstAsWrittenExample | sample/WinToMyanmar3.ts:352-355 | On an apostrophe before a kinzi, the pass as written leaves escape text; the intended pass moves the kinzi. |
| TsPort.GlyphKinziPassesInert | sample/WinToMyanmar3.ts:356-367 | After the TypeScript mapping, the three glyph passes change nothing. |
| TsPort.ContextPass | sample/WinToMyanmar3.ts:379-386 | A lookaround pass keeps the length. |
| TsPort.TsZeroWaAgrees | sample/WinToMyanmar3.ts:378-386 | The two lookaround passes compute the same text as the Rust character loop. |
| TsPort.StorageAsWrittenExample | sample/WinToMyanmar3.ts:389-392 | On ka, u, i the TypeScript storage pass drops the i; the Rust one keeps it. |
| TsPort.KoGroups | sample/WinToMyanmar3.ts:390 | The storage-order groups found in ka, u, i. |
| TsPort.Correction1 | sample/WinToMyanmar3.ts:215-339 | The TypeScript `correction1` is the shared corrections followed by swapping the first asat-before-dot-below only. |
| TsPort.LastStepExample | sample/WinToMyanmar3.ts:336 | With two asat-before-dot-below pairs, the Rust step swaps both and the TypeScript step only the first. |
| TsPort.WinToMyanmar3 | sample/WinToMyanmar3.ts:346-398 | The pipeline of reassignments computes `TsTranscoded` of the input. |
| Xml.LiveEvents | src-tauri/src/lib.rs:245-246 | The events read are the reads before the first end or error, each of them an event. |
| Xml.LiveStopsAt | src-tauri/src/lib.rs:245-246 | With the first failure at read `k`, exactly `k` events are read. |
| Xml.TagMatchesIff | src-tauri/src/lib.rs:381-390 | `tag_matches` holds iff the name is the local name or `prefix:local`. |
| Xml.TagMatches | src-tauri/src/lib.rs:381-390 | A name matches its own local name, and a matching name always ends with the local name. |
| Xml.RewriteFontAttrs | src-tauri/src/lib.rs:175-185 | The attribute loop writes one attribute per attribute with the same key. The value is the target font exactly where a watched key names the source font. The flag is set iff that happened. |
| Xml.RewriteFontAttrsSpec | src-tauri/src/lib.rs:175-185 | That loop's result is `RewrittenAttrs` and its flag is `FontHit`. |
| Xml.RewrittenAttrsSettle | src-tauri/src/lib.rs:178-181 | After one rewrite no watched attribute names the source font, and rewriting again changes nothing. |
| Xml.ParseUsize | src-tauri/src/lib.rs:517 | Every parsed value fits in a 64-bit `usize`. |
| Xml.ShowNat | src-tauri/src/lib.rs:608 | Decimal writing gives a non-empty digit string. |
| Xml.ShowNatValue | src-tauri/src/lib.rs:608 | The digits of `n` have value `n`. |
| Xml.ParseShowNat | src-tauri/src/lib.rs:608 | Every `usize` written in decimal, with or without `+`, parses back to itself. |
| Xml.ParseUsizeRejects | src-tauri/src/lib.rs:608 | The empty string, a lone `+`, a leading `-` and a value past 64 bits are rejected. |
| Rewriters.Outputs | src-tauri/src/lib.rs:162-249 | The rewriters write exactly one event per event read. |
| Rewriters.Rewritten | src-tauri/src/lib.rs:150-252 | A rewritten part has one written event per event read before the end or the first error, so never more than the reader results. |
| Rewriters.Process | src-tauri/src/lib.rs:162-249 | The shared event loop writes `Rewritten`: what each event read before the first end or error becomes. |
| Rewriters.OneMoreEvent | src-tauri/src/lib.rs:162-249 | Reading one more event extends the flags and the output by one step. |
| Rewriters.HandleEvent | src-tauri/src/lib.rs:163-247 | One turn of the loop updates the flags by `Next` and writes `Written`, branch by branch. |
| Rewriters.FontElement | src-tauri/src/lib.rs:173-189 | A font element is rewritten only inside a run (anywhere in styles), and only a hit marks the run. |
| Rewriters.ProcessDocxXml | src-tauri/src/lib.rs:150-252 | `process_docx_xml` is the loop for `w:r` runs and `w:rFonts` with `w:ascii`/`w:hAnsi`. |
| Rewriters.ProcessSharedStrings | src-tauri/src/lib.rs:254-369 | `process_shared_strings` is the loop for `r` runs, `rFont` `val` attributes and selected `si` items. |
| Rewriters.ProcessXlsxStyles | src-tauri/src/lib.rs:371-466 | `process_xlsx_styles` is the loop that rewrites `name`/`rFont` `val` attributes anywhere and no text. |
| Rewriters.ProcessPptxSlide | src-tauri/src/lib.rs:631-761 | `process_pptx_slide` is the loop for prefixed `r` runs and `rPr`/`latin` `typeface` attributes. |
| RewriterLaws.OutputsAt | src-tauri/src/lib.rs:162-249 | The i-th event written is what the i-th event read becomes in the flags left by the events before it. |
| RewriterLaws.OutputsPrefix | src-tauri/src/lib.rs:245-246 | The output for a prefix of the events is the prefix of the output: the rewriters stream. |
| RewriterLaws.EventWritten | src-tauri/src/lib.rs:164-229 | Per kind of event: start and empty tags get their attributes rewritten only where fonts are rewritten, text is converted only where it is converted, and end tags and markup are copied. |
| RewriterLaws.OutputsKeepShape | src-tauri/src/lib.rs:164-244 | Each event written has the kind of the event read, the same name, and the same attribute keys in the same order. |
| RewriterLaws.FlagsConsistent | src-tauri/src/lib.rs:159-180 | A run is marked only while it is open, and an item is selected only while it is open. |
| RewriterLaws.ItemsCounted | src-tauri/src/lib.rs:275-278 | In shared strings, `si_index` counts the `si` elements opened, and a selected item's number is in the index set. In the other rewriters the item flags stay off. |
| RewriterLaws.StylesStateless | src-tauri/src/lib.rs:392-463 | The styles rewriter keeps no run state. |
| RewriterLaws.NextMarks | src-tauri/src/lib.rs:168-185 | After an event, the run is marked iff that event marks it, or it was marked and the event is not a run boundary. |
| RewriterLaws.MarkedAtExtend | src-tauri/src/lib.rs:223-227 | A mark survives an added event iff that event is not a run boundary. |
| RewriterLaws.RunMarkedIff | src-tauri/src/lib.rs:168-229 | The run is marked iff some earlier event in the same run named the source font in a watched attribute. |
| RewriterLaws.TextConvertedIff | src-tauri/src/lib.rs:213-222 | In Word and slides, a text node is converted iff some event of its run before it named the source font. |
| RewriterLaws.StopsAtFirstFailure | src-tauri/src/lib.rs:245-246 | Reads after the first end or error have no effect, and the output has one event per read before it. |
| RewriterLaws.ErrorLeavesPrefix | src-tauri/src/lib.rs:246 | On a parse error the output is the prefix of the whole document's output, not the original bytes. |
| RewriterLaws.RereadNext | src-tauri/src/lib.rs:164-229 | Reading a written event gives the flags of reading the original, less the run mark. |
| RewriterLaws.RereadStart | src-tauri/src/lib.rs:164-190 | The same for a start tag. |
| RewriterLaws.RereadEmpty | src-tauri/src/lib.rs:191-212 | The same for an empty tag. |
| RewriterLaws.RereadWritten | src-tauri/src/lib.rs:164-229 | Rewriting a written event in the unmarked flags writes it again unchanged. |
| RewriterLaws.RereadFlags | src-tauri/src/lib.rs:162-249 | Reading a rewritten document ends in the original flags less the run mark. |
| RewriterLaws.ConvertTwice | src-tauri/src/lib.rs:162-249 | Running a Word, slide or styles rewriter on its own output changes nothing: fonts renamed once are not matched again. |
| XlsxIndex.NumberOrZero | src-tauri/src/lib.rs:517 | `parse::<usize>().unwrap_or(0)`: the parsed value or zero, always within `usize`. |
| XlsxIndex.XfFontId | src-tauri/src/lib.rs:513-520 | The font id of a cell format is within `usize`. |
| XlsxIndex.XfFontIdIsLast | src-tauri/src/lib.rs:513-520 | The last `fontId` attribute decides; without one it is zero. |
| XlsxIndex.XfFontIdOf | src-tauri/src/lib.rs:513-520 | The attribute loop computes `XfFontId`. |
| XlsxIndex.NamesSourceFont | src-tauri/src/lib.rs:504-511 | The attribute loop finds a hit iff a `val` attribute names the source font. |
| XlsxIndex.ParseXlsxStyles | src-tauri/src/lib.rs:468-565 | `parse_xlsx_styles` returns the source-font ids and format font ids of the events read. The format list has one entry for each `xf` inside `cellXfs` (the positions `Xfs`), in document order, and entry `m` is the font read from the `m`-th such `xf`. |
| XlsxIndex.OneMoreStyleEvent | src-tauri/src/lib.rs:493-562 | Reading one more event is one step of the style scan. |
| XlsxIndex.StyleEvent | src-tauri/src/lib.rs:494-560 | One turn of the style loop, branch by branch. |
| XlsxIndex.StyleElement | src-tauri/src/lib.rs:503-545 | A font name inside `fonts` records the current id, and an `xf` inside `cellXfs` appends its font id. |
| XlsxIndex.ListTagsAreNoFontNames | src-tauri/src/lib.rs:497-503 | `fonts` and `cellXfs` are not font-name tags. |
| XlsxIndex.StepDeclares | src-tauri/src/lib.rs:503-511 | An id is added iff a font-name element inside `fonts` names the source font while that id is current. |
| XlsxIndex.SourceFontIdsIff | src-tauri/src/lib.rs:493-562 | An id is in the source-font set iff some event declared it. |
| XlsxIndex.StepAppends | src-tauri/src/lib.rs:521 | A step only appends to the format font ids, at most one. |
| XlsxIndex.XfFontIdsGrow | src-tauri/src/lib.rs:521 | The format font ids of a prefix are a prefix of the final list. |
| XlsxIndex.XfFontIdsBounded | src-tauri/src/lib.rs:517 | Every recorded format font id fits in `usize`. |
| XlsxIndex.StylesAfter | src-tauri/src/lib.rs:468-565 | Only fonts already reached are recorded as source fonts, and reading an event moves to at most one more font and adds at most one format. |
| XlsxIndex.Xfs | src-tauri/src/lib.rs:512-521 | The positions it lists are inside the events read, each an `xf` start or empty tag. |
| XlsxIndex.StepXf | src-tauri/src/lib.rs:512-521 | One event appends a format font exactly when it is an `xf` start or empty tag inside `cellXfs`, and the font appended is read from its attributes. |
| XlsxIndex.XfsPositions | src-tauri/src/lib.rs:512-521 | `Xfs` lists every `xf` inside `cellXfs` and nothing else, in increasing order. |
| XlsxIndex.XfFontIdsIff | src-tauri/src/lib.rs:512-521 | `xf_font_ids` has one entry per `xf` inside `cellXfs`, and entry `m` is `XfFontId` of the attributes of the `m`-th such `xf`. |
| XlsxIndex.FontNumbering | src-tauri/src/lib.rs:547-550 | Fonts are numbered by closing `font` tags inside `fonts`; an empty `font` tag does not count. |
| XlsxIndex.CellAttributes | src-tauri/src/lib.rs:587-598 | The cell attribute loop gives the style and type of `CellOpened`. |
| XlsxIndex.NoStyleAttr | src-tauri/src/lib.rs:588-598 | A cell without `s` has no style, not style zero. |
| XlsxIndex.CollectSharedStringIndices | src-tauri/src/lib.rs:567-629 | The worksheet loop adds `Collected` of the events read to the set. |
| XlsxIndex.OneMoreCellEvent | src-tauri/src/lib.rs:583-628 | Reading one more event is one step of the cell scan and adds its contribution. |
| XlsxIndex.CellEvent | src-tauri/src/lib.rs:584-626 | One turn of the worksheet loop, branch by branch. |
| XlsxIndex.CellIsLastOpened | src-tauri/src/lib.rs:585-621 | The current cell is the last `c` opened and not yet closed, or none. |
| XlsxIndex.ContributionIff | src-tauri/src/lib.rs:601-616 | An index is recorded iff it is the parsed text inside a shared-string cell whose style's font is a source font. |
| XlsxIndex.CollectedIff | src-tauri/src/lib.rs:583-628 | The result keeps the set given and adds exactly the indices found at some event. |
| XlsxIndex.Collected | src-tauri/src/lib.rs:567-629 | The set given is kept, and with no source font nothing is added. |
| XlsxIndex.UnstyledCellContributesNothing | src-tauri/src/lib.rs:593-605 | A cell without an `s` attribute never selects a shared string. |
| Archive.ConvertOfficeFile | src-tauri/src/lib.rs:53-76 | One output per entry, in order, each as routed by `OfficeEntry`. |
| Archive.OfficeRouting | src-tauri/src/lib.rs:57-73 | The name is kept, a directory stays a directory, only the document and slide parts are rewritten, and the rest are copied byte for byte. |
| Archive.StylesData | src-tauri/src/lib.rs:104-108 | Non-empty style data comes from a non-directory `xl/styles.xml` entry. |
| Archive.StylesDataIsFirst | src-tauri/src/lib.rs:104-108 | The style data is the first such entry's data. |
| Archive.NoStylesPartSelectsNothing | src-tauri/src/lib.rs:104-110 | An archive without `xl/styles.xml` gives the styles reader an empty document; when that reads as the end at once, no shared string is selected. |
| Archive.SharedIndicesIff | src-tauri/src/lib.rs:112-121 | A shared-string index is selected iff some worksheet entry yields it. |
| Archive.SelectedInPrefix | src-tauri/src/lib.rs:114-121 | Whether an earlier entry yields an index does not depend on later entries. |
| Archive.LastEntryIff | src-tauri/src/lib.rs:114-121 | The indices of all entries are those of the earlier entries plus those of the last. |
| Archive.ConvertXlsxFile | src-tauri/src/lib.rs:82-148 | One output per entry, each as routed by `XlsxEntry` with the indices from the worksheets. |
| Archive.CollectWorksheets | src-tauri/src/lib.rs:112-121 | The worksheet loop computes `SharedIndices`. |
| Archive.WriteXlsxEntries | src-tauri/src/lib.rs:127-145 | The write loop outputs each entry as routed. |
| Archive.FindStyles | src-tauri/src/lib.rs:104-108 | The search computes `StylesData`. |
| Archive.XlsxRouting | src-tauri/src/lib.rs:127-144 | The name is kept, a directory stays a directory, only shared strings and styles are rewritten, and the rest are copied byte for byte. |
| Archive.LastIndex | src-tauri/src/lib.rs:20-21 | The last occurrence of a character, or -1 when there is none. |
| Archive.AsciiLower | src-tauri/src/lib.rs:24 | ASCII lower-casing keeps the length and lowers exactly `A`-`Z`. |
| Archive.FileNameOf | src-tauri/src/lib.rs:20-21 | The file name of `dir/name` is `name`. |
| Archive.ExtensionOfName | src-tauri/src/lib.rs:20-21 | The extension of `dir/stem.ext` is `ext`. |
| Archive.LastIndexAfter | src-tauri/src/lib.rs:20-21 | The last occurrence is the one after which the character no longer occurs. |
| Archive.ConvertFileIff | src-tauri/src/lib.rs:12-33 | A missing source fails with "Source file not found.". Otherwise the lower-cased extension picks the converter: txt, docx or pptx, xlsx. A missing or other extension fails with the unsupported-type message. |
| Archive.ConvertFile | src-tauri/src/lib.rs:12-33 | A missing source is the not-found error and nothing else is; every failure carries one of the two messages. |
| Archive.LastComponent | src-tauri/src/lib.rs:20-21 | A path's last component is non-empty, not `.`, and holds no `/`. |
| Archive.FileName | src-tauri/src/lib.rs:20-21 | A file name is non-empty, neither `.` nor `..`, and holds no `/`. |
| Archive.Extension | src-tauri/src/lib.rs:20-23 | An extension exists only for a path with a file name, and holds no `/` and no `.`. |
| Archive.ConvertTextFile | src-tauri/src/lib.rs:35-40 | The text file's content is transcoded whole. |

## Left out

- Zip reading and writing, compression, and opening, creating and writing
  files are not modelled. An archive is its entry list, and an error from
  `?` aborts the source conversion with no counterpart in the model.
- XML tokenising, escaping and unescaping are not modelled. A document is the
  reader results that the parameter `tokens` yields for its bytes. Text and
  attribute values are already decoded strings. This means:
  - `unescape().unwrap_or_default()` failures are not modelled;
  - attributes dropped by `attributes().flatten()` are not modelled;
  - the ignored writer errors are not modelled.
- `trim_text` is not modelled; it is the boolean passed to `tokens`.
- A written part is modelled as its sequence of events, not its bytes.
- The Tauri entry point `run()` and the front end (`App.tsx`) are not
  modelled: they are UI and plugin wiring.
- Regular expressions are not compiled from their source text. Each pattern
  the transcoders use is a hand-written anchored matcher (`Scanners`). Each
  pattern has only non-empty matches and needs no backtracking.
- The TypeScript zero/wa pattern reuses the group names `z` and `Mm` in
  different alternatives. The model assumes a JavaScript engine that accepts
  this.
- Text is modelled as Unicode scalar values. The TypeScript strings are UTF-16,
  and every character the TypeScript patterns inspect is in the Basic
  Multilingual Plane, so a character is one unit. Astral characters in the
  input are not modelled.
- `si_index` and `current_font_id` are `nat`. The 64-bit overflow after
  2^64 items is not modelled.
- Path handling is modelled for `/`-separated paths. Windows separators and
  drive prefixes are not modelled.
- Non-UTF-8 extensions (`to_str` giving `None`, read as an empty extension) are
  not modelled.
- `read_to_string` failing on a non-UTF-8 text file is not modelled.
- Where the code and the written design disagree, the model follows the code:
  - A part with malformed XML: the design says the original bytes are kept.
    The code writes the events rewritten up to the error, so the output is
    truncated (`RewriterLaws.ErrorLeavesPrefix`).
  - A worksheet cell without an `s` attribute: the design says the style is 0.
    The code leaves the style absent, so the cell selects nothing
    (`XlsxIndex.UnstyledCellContributesNothing`).
  - The design speaks of a canonical medial order ya, ra, wa, ha. The code's
    medial swaps never move ra (U+103C) before ya (U+103B), so that order is
    not guaranteed and the model does not promise it.
  - The design says a malformed zip entry is skipped and copied. The code
    aborts the whole conversion with `?`, which is part of the unmodelled I/O.

## Findings

| source | as written | input that shows it | evidently intended | confidence | as-written member | corrected member |
|---|---|---|---|---|---|---|
| sample/WinToMyanmar3.ts:352-355 | The replacement string is `"\\u1004\\u103A\\u1039$<E>$<R>$<con>"`. A JavaScript replacement string does not interpret `\u` escapes, so each kinzi moved is written as the eighteen characters `\u1004\u103A\u1039`. | The mapped text `'` U+1004 U+103A U+1039 becomes `\u1004\u103A\u1039'`. | The kinzi U+1004 U+103A U+1039 is moved before the consonant, as the Rust pass at win_to_myanmar3.rs:427-430 does. | high, not executed | TsPort.KinziFirstAsWrittenExample | Transcoder.KinziFirstPermutes |
| sample/WinToMyanmar3.ts:389-392 | The storage-order replacement ends at `$<DVs>` and leaves out the `upper2` group that the pattern consumed, so that vowel sign is deleted. | ka U+1000, u U+102F, i U+102D becomes U+1000 U+102F. | The upper sign is kept, as the Rust replacement at win_to_myanmar3.rs:452 does with `${upper2}`. | high, not executed | TsPort.StorageAsWrittenExample | Scanners.StorageOrderKeepsNonTones |
| sample/WinToMyanmar3.ts:53-55 | The placeholders «, » and ç are mapped to `[`, `]` and `,` early in the table. Later entries (lines 124, 129 and 184) then map those to ya, ha and an apostrophe. | « becomes ha U+101F; ç becomes ya U+101A; » becomes `'`. | The placeholders end as `[`, `]` and `,`. The Rust version keeps them through the mapping and restores them afterwards (win_to_myanmar3.rs:409-416, 458-459). | medium, not executed | MappingTables.OpenBracketPlaceholder | Transcoder.PlaceholderRestored |
