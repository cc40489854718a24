# imageparse: CD addressing and layout, modelled in Dafny

imageparse reads CD images for emulators. There are two kinds of image:

- a cue sheet with its bin files;
- a CHD, whose compressed hunks the `chd_rs` library decodes.

This project models the image's own addressing logic and proves properties of it:

- **MSF addresses** (`Index`, from src/index.rs). These are minute:second:frame positions, 75 frames a second, from 00:00:00 to 99:59:74. The model covers the range-checked constructor, the conversions to and from a linear sector number (LBA), packed BCD, `mm:ss:ff` text and the ordering.
- **The older MSF type** (`LegacyMsf`, from src/msf_index.rs). It adds byte offsets, `from_sectors`, and addition and subtraction with carries and borrows.
- **The SBI loader** (`Sbi`, from src/sbi.rs). It parses the subchannel-error file, a magic prefix then variable-length records, into the set of sectors whose subchannel Q data is bad.
- **The cue sheet reader.** src/cue.rs and src/lib.rs share it line for line:
  - `CueSheet`: the FILE, TRACK and INDEX line parsers;
  - `CueLayout`: track finalisation and the arithmetic over the finished bin files;
  - `CueOpen`: the line state machine.
- **The two cue sheet cursors.**
  - `Cue` is the newer one, in src/cue.rs. Its cursor is always set and counts sectors from the start of the disc.
  - `LibCue` is the older one, in src/lib.rs. Its `Option<Location>` starts unset and counts sectors from the first sector in the bin files.
- **The CHD back end** (`Chd`, from src/chd.rs, single-threaded path). `from_chd` lays out the track table from the CD track records, padding each track to a multiple of 4 sectors. The model maps a sector to its hunk and to its offset inside the hunk. It also covers the cursor that `set_location_lba` moves, and the sector copy, which byte-swaps audio.

Shared types sit in `Disc`. They are the track type, the cursor event, the image errors and the track-relative MSF. `Wrappers` holds `Option`, `Result`, the `u8`/`u32` types and wrapping `u32` addition and subtraction. `Strings` models the parts of Rust's `str` API that the parsers use.

How the model is built:

- **Integer overflow.** Arithmetic that can overflow follows a release build. `u32` sums and differences wrap (`WrapAdd`, `WrapSub`), and the `u8` track counters wrap.
- **Panics.** Where the source would panic (an `unwrap`, an index out of bounds, an `assert!`), the model either makes that a precondition or proves it cannot happen. Two examples:
  - the `assert!` in `Sub` (src/msf_index.rs:215) is proved never to fire;
  - the `assert_eq!` in the CHD `copy_current_sector` (src/chd.rs:482) is proved to hold.

The cursor of each back end is a class:

- `Cue.Cuesheet`;
- `LibCue.Cuesheet`;
- `Chd.ChdImage`.

Seeking and advancing are methods that modify the class. Each method is specified by a function of the old state: `Cue.SeekTo`, `Cue.Advance`, `LibCue.SeekTo`, `LibCue.AdvanceAsWritten` and `Chd.ChdImage.Relocated`. These functions follow the code as written, defects included. For each defect listed under "## Findings", a lemma shows an input where the function lands somewhere the design does not intend. A corrected definition stands beside it, with the intended property proved about it.

The model also has these loops:

- the carry loops of `Add`;
- the SBI record loop;
- the `finalize_tracks` loop;
- the accumulator loops of `current_track` and `track_start`;
- the `set_location` search;
- the line loop of `_open`;
- the track-table loop of `from_chd`;
- the `update_current_track` search;
- the in-place byte swap.

Each loop is a method with loop invariants, proved against a recursive reference function.

## Model

| member | source | states |
|---|---|---|
| Index.New | src/index.rs:43-49 | Ok exactly when m ≤ 99, s ≤ 59 and f ≤ 74, with those fields; otherwise OutOfRangeError |
| Index.ToLba | src/index.rs:93-96 | a valid address maps below 450000 (99:59:74 is the last sector), and the LBA agrees with the frame mod 75 |
| Index.ToLbaInjective | src/index.rs:93-96 | two valid addresses have the same LBA exactly when they are equal |
| Index.FromLba | src/index.rs:82-91 | with `m as u8` truncating, Ok exactly when lba mod 1152000 < 450000, giving the valid address of that LBA; otherwise OutOfRangeError |
| Index.FromLbaInRange | src/index.rs:82-91 | every LBA below 450000 decodes to an address whose LBA is that number |
| Index.FromLbaRejects | src/index.rs:82-91 | every LBA from 450000 to 1151999 (minutes 100..255) is OutOfRangeError |
| Index.FromLbaWraps | src/index.rs:90 | the truncating cast makes LBA 1152000 decode to 00:00:00 |
| Index.LbaRoundTrip | src/index.rs:82-96 | from_lba(to_lba(x)) == Ok(x) for every valid x |
| Index.ToBcd | src/index.rs:98-106 | a value ≤ 99 becomes a byte whose nibbles are its tens and units digits |
| Index.FromBcd | src/index.rs:57-59 | a byte with two decimal nibbles decodes to 10·high + low ≤ 99 |
| Index.FromBcdDigits | src/index.rs:57-59 | the decoded value's tens and units are the byte's high and low nibbles |
| Index.BcdByteRoundTrip | src/index.rs:57-59 | encoding a decoded BCD byte gives the byte back |
| Index.ToBcdValues | src/index.rs:98-106 | every nibble of the encoding of a valid address is a decimal digit |
| Index.FromBcdValues | src/index.rs:51-64 | a nibble above 9 in any byte gives OutOfRangeError; every Ok result is a valid address |
| Index.BcdRoundTrip | src/index.rs:51-64 | from_bcd_values(to_bcd_values(x)) == Ok(x) for every valid x |
| Index.BcdDecodeInverse | src/index.rs:98-106 | encoding a successfully decoded address gives back the three bytes decoded |
| Index.BcdAcceptance | src/index.rs:51-64 | three BCD bytes decode exactly when the seconds are ≤ 59 and the frames ≤ 74 |
| Index.TryFromStr | src/index.rs:66-80 | a trimmed text without exactly two colons is InvalidMsfError; Ok exactly when the three pieces parse as u8 and are in range, and then the address of those three values |
| Index.TryFromStrPieces | src/index.rs:66-80 | any three u8 numerals (one digit or more, leading zeros or '+' allowed) joined by colons, with whitespace around the whole text, give `new` of their values |
| Index.ColonPieces | src/index.rs:68 | splitting three colon-free pieces joined by ':' gives them back |
| Index.ParseU8OrErr | src/index.rs:72-74 | the `?` on `parse()`: Ok exactly when the piece is a u8 numeral, else ParseIntError |
| Index.FormatRoundTrip | src/index.rs:66-80 | the `mm:ss:ff` text of every valid address parses back to it |
| Index.FormatPieces | src/index.rs:67-68 | the text is already trimmed and splits on ':' into its three two-digit fields |
| Index.FormatInjective | src/index.rs:66-80 | distinct valid addresses have distinct texts |
| Index.ParseTwoDigits | src/index.rs:72-74 | a two-digit field parses back to its value |
| Index.Cmp | src/index.rs:116-128 | Less exactly when the first LBA is smaller, Greater exactly when it is larger |
| Index.CmpEqual | src/index.rs:116-128 | on valid addresses, Equal exactly when they are the same address |
| Index.CmpAntisymmetric | src/index.rs:116-128 | x < y exactly when y > x |
| Index.CmpTransitive | src/index.rs:116-128 | x < y and y < z give x < z |
| Index.CmpLexicographic | src/index.rs:116-128 | on valid addresses the order is that of (minutes, seconds, frames) |
| LegacyMsf.ToOffset | src/msf_index.rs:95-97 | a multiple of 2352 whose quotient by 2352 is the address's sector count |
| LegacyMsf.OffsetsDisjoint | src/msf_index.rs:95-97 | the 2352-byte sectors of two ordered addresses do not overlap |
| LegacyMsf.FromSectors | src/msf_index.rs:86-93 | as written (seconds = (n mod 4500) / 60): Ok exactly when minutes mod 256 ≤ 99 and n mod 4500 < 3600, with those minutes, (n mod 4500) / 60 seconds and (n mod 4500) mod 60 frames, whose sector count is then 4500·m + n mod 4500 + 15·s |
| LegacyMsf.FromSectorsIsNotInverse | src/msf_index.rs:86-93 | from_sectors(74) is (0,1,14), whose to_sectors is 89 |
| LegacyMsf.FromSectorsRejectsValid | src/msf_index.rs:86-93 | from_sectors(3600) fails though 3600 is the valid address 00:48:00 |
| LegacyMsf.Add | src/msf_index.rs:164-190 | the carry loops end in range; Ok exactly when the sector sum is below 450000, and then its sectors are that sum; else MsfOverflow(Add, a, b) |
| LegacyMsf.AddExamples | src/msf_index.rs:254-268 | the unit test's sums: 0 + 00:00:01, 13:37:42 + 1, 00:00:74 + 1 = 00:01:00, 00:59:74 + 1 = 01:00:00, and 99:59:74 + 1 overflows |
| LegacyMsf.Next | src/msf_index.rs:104-106 | Ok exactly when x is not 99:59:74, and then its sector count is one more |
| LegacyMsf.Sub | src/msf_index.rs:192-223 | Err(MsfOverflow(Sub, a, b)) exactly when b > a; otherwise the difference of the sector counts, with the `assert!` never failing |
| LegacyMsf.AddSubRoundTrip | src/msf_index.rs:164-223 | (a + b) - b == a whenever a + b does not overflow |
| Sbi.LoadSbi | src/sbi.rs:57-92 | the loop over the bytes returns exactly the reference parse SbiResult |
| Sbi.SbiResult | src/sbi.rs:64-91 | NotAnSbiFile exactly when the 4-byte magic is missing |
| Sbi.ParseFrom | src/sbi.rs:70-91 | past the last record header the set is empty; the record loop never reports NotAnSbiFile |
| Sbi.Prepend | src/sbi.rs:79 | inserting a record's LBA: an Ok rest gains it, an error is kept |
| Sbi.ParseFromOnDisc | src/sbi.rs:77-79 | every sector the loop collects is below 450000 |
| Sbi.Offsets | src/sbi.rs:70-89 | the record offsets visited from a start are strictly increasing and each has room for a 4-byte header |
| Sbi.OffsetsIncreasing | src/sbi.rs:83-86 | any two visited offsets are ordered as their positions |
| Sbi.ParseFromOk | src/sbi.rs:70-91 | the parse succeeds exactly when every visited record decodes and has mode ≤ 3, and then returns the LBAs of their addresses |
| Sbi.ParseFromErr | src/sbi.rs:77-88 | a failed parse names the first bad record: its MSF error or InvalidMode |
| Sbi.ParseStep | src/sbi.rs:77-86 | a good record adds its address's LBA and moves 14 bytes on for mode 1, 7 bytes for modes 0, 2 and 3 |
| Sbi.SbiResultSpec | src/sbi.rs:64-91 | no magic gives NotAnSbiFile; otherwise Ok exactly when all records are good, with the set of their LBAs, and an error names the first bad record |
| Sbi.TruncatedRecordExample | src/sbi.rs:71 | a last record with a cut-off payload is still read: the file is accepted with its sector |
| Sbi.SbiLbas | src/cue.rs:324-334 | the set the image keeps: Some exactly when an SBI file is present and loads |
| Strings.Trim | src/index.rs:67 | `str::trim`: no whitespace at either end of the result |
| Strings.TrimPadded | src/index.rs:67 | `trim` removes exactly the whitespace around a text that neither starts nor ends with whitespace |
| Strings.Split | src/index.rs:68 | `str::split`: one more piece than separators, no separator inside a piece, joining gives back the text |
| Strings.Words | src/cue.rs:192 | `split_whitespace`: non-empty words without whitespace, none exactly when the text is blank |
| Strings.FirstWord | src/cue.rs:248 | `split_whitespace().next()`: None exactly when the line is blank |
| Strings.AfterLastWhitespace | src/cue.rs:172 | `rsplit(is_whitespace).next()`: the whitespace-free tail after the last whitespace |
| Strings.Lines | src/cue.rs:247 | `str::lines`: no line contains a newline |
| Strings.UppercaseIdempotent | src/cue.rs:73 | upper-casing twice is upper-casing once |
| Strings.UppercaseTrim | src/cue.rs:73 | trimming and upper-casing commute |
| Strings.UppercaseShape | src/cue.rs:249 | `to_uppercase` never shortens the text, gives the empty text exactly for the empty text, and adds no whitespace |
| Strings.UppercaseIdempotentOnUpper | src/cue.rs:73 | a text of upper-case letters, digits and '/' (every keyword) is its own upper case |
| Strings.ParseU8 | src/cue.rs:196 | `parse::<u8>`: a decimal numeral, with an optional leading '+', parses exactly when its value is at most 255, to that value; anything else is refused |
| CueSheet.NumSectors | src/cue.rs:130-133 | the byte length cast to u32 and divided by 2352: below 2^32 and no more sectors than the bytes hold |
| CueSheet.BinModeFromStr | src/cue.rs:70-83 | Ok exactly for BINARY, WAVE, MP3, AIFF and MOTOROLA after trimming and upper-casing; the error carries the upper-cased text |
| CueSheet.TrackTypeFromStr | src/cue.rs:86-97 | Ok exactly for AUDIO, MODE1, MODE2 and MODE2/2352 after trimming and upper-casing, with both MODE2 spellings giving Mode2; the error carries the upper-cased text |
| CueSheet.BinModeNameRoundTrip | src/cue.rs:70-83 | each mode's keyword parses back to it |
| CueSheet.TrackTypeNameRoundTrip | src/cue.rs:86-97 | each track type's keyword parses back to it |
| CueSheet.TrackTypeIgnoresCase | src/cue.rs:89 | the track type parse ignores case and surrounding whitespace |
| CueSheet.BinModeIgnoresCase | src/cue.rs:73 | the bin mode parse ignores case and surrounding whitespace |
| CueSheet.Mode2RawKeyword | src/cue.rs:93 | MODE2/2352 is Mode2 |
| CueSheet.TrackWords | src/cue.rs:190-205 | fewer than 3 words is InvalidTrackLine, a bad number ParseIntError, a bad type its error; Ok exactly otherwise, with a fresh track and the number |
| CueSheet.ParseTrackLine | src/cue.rs:190-205 | Ok exactly when the trimmed line has 3 or more words, the second a u8 numeral and the third a track type; the track is fresh, with only its type set |
| CueSheet.IndexWords | src/cue.rs:207-216 | fewer than 3 words is InvalidIndexLine, a bad number ParseIntError, a bad MSF its error; Ok exactly otherwise, with the number and a valid address |
| CueSheet.ParseIndexLine | src/cue.rs:207-216 | Ok exactly when the trimmed line has 3 or more words, the second a u8 numeral and the third an address; then the number and that address, valid and below 450000 |
| CueSheet.ParseFileLine | src/cue.rs:164-188 | not exactly two quotes is FileNameParseError; otherwise IoError exactly when the name between the quotes is not a file; on Ok, that name, its byte length, no tracks, and the mode of the last word |
| CueSheet.QuotePositions | src/cue.rs:166-171 | the two quote positions, in order, both holding '"' |
| CueSheet.NameBetweenQuotes | src/cue.rs:171 | the file name holds no quote |
| CueSheet.TrackLineRoundTrip | src/cue.rs:190-205 | the line `TRACK nn TYPE` parses back to its number and type |
| CueSheet.IndexLineRoundTrip | src/cue.rs:207-216 | the line `INDEX nn mm:ss:ff` parses back to its number and address |
| CueSheet.FileLineRoundTrip | src/cue.rs:164-188 | the line `FILE "name" MODE` parses back to that bin file, for a name without quotes |
| CueLayout.FirstIndexLba | src/cue.rs:114-122 | INDEX 00 when present, else INDEX 01 |
| CueLayout.FinalizeError | src/cue.rs:137-155 | no error only for a non-empty list whose tracks all have a first index |
| CueLayout.FinalizeSpec | src/cue.rs:137-155 | no tracks is NoTracks; with two or more tracks, a track without INDEX 01 is TrackWithoutIndex01; Ok keeps the file and replaces its tracks by the finalised ones |
| CueLayout.FinalizeTracks | src/cue.rs:137-155 | the in-place loop over the tracks returns exactly FinalizeSpec |
| CueLayout.ProgressStep | src/cue.rs:141-150 | one loop step sets this track's length to the gap to the next first index and the next track's start to this start plus that length |
| CueLayout.ProgressDone | src/cue.rs:151-153 | after the loop, the last track's length is the bin's sectors less its first index |
| CueLayout.FinalizedRecurrence | src/cue.rs:141-153 | the finalised lengths and starts follow the source's recurrence, with the u32 wrap, and keep types and indices |
| CueLayout.FinalizedKeeps | src/cue.rs:137-155 | finalising keeps every track's type and indices and the first start |
| CueLayout.FinalizedIdempotent | src/cue.rs:137-155 | finalising twice is finalising once |
| CueLayout.FinalizedTiling | src/cue.rs:141-153 | with ascending first indices and the first track at 0, each start is the sum of the earlier lengths, the tracks abut, and they fill the bin |
| CueLayout.FinalizeTiles | src/cue.rs:137-155 | a bin whose first track starts at sector 0, with ascending first indices, is tiled by its tracks once finalised |
| CueLayout.CurrentTrack | src/cue.rs:358-365 | the accumulator loop computes the tracks of the earlier bin files plus the track in its bin plus 1, wrapping in u8 |
| CueLayout.TrackSlot | src/cue.rs:427-445 | track k sits at the (bin, track) whose earlier track count plus position plus 1 is k; None exactly when k exceeds the track count |
| CueLayout.TrackSlotUnique | src/cue.rs:358-365 | the number current_track reports for a slot leads back to that slot |
| CueLayout.DiscEnd | src/cue.rs:419-426 | the track 0 loop gives 150 plus every bin's sectors, in u32 |
| CueLayout.TrackStart | src/cue.rs:416-446 | the loop over the bin files returns exactly the reference TrackStartLba |
| CueLayout.StartOfSlot | src/cue.rs:427-439 | track k starts at the earlier bins' sectors plus its INDEX 01 plus 150 |
| CueLayout.FindTrack | src/cue.rs:469-481 | the first track whose length exceeds what is left, with the sectors skipped before it; None exactly when the tracks do not cover it |
| CueLayout.LocateFrom | src/cue.rs:465-487 | a result names a bin, a track in it and an offset inside the bin |
| CueLayout.Locate | src/cue.rs:464-487 | the nested search loop returns exactly LocateFrom |
| CueLayout.LocateTiled | src/cue.rs:464-487 | over tiled bins the search succeeds exactly when the sector is on the disc, at the bin offset and inside the track found |
| CueLayout.LocateExact | src/cue.rs:464-487 | a sector inside track j of bin b is found there |
| CueLayout.TrackEnd | src/cue.rs:506 | a tiled track ends where the next begins, and the last where the bin ends |
| CueLayout.NumTracksAppend | src/cue.rs:346-348 | the track count of joined lists is the sum of their counts |
| CueLayout.NumTracksCounts | src/cue.rs:346-348 | the track count is 0 exactly when no bin has tracks, and at least the number of bins when each has one |
| CueLayout.TotalSectorsBound | src/cue.rs:419-424 | each bin's sectors are at most the disc's total |
| CueLayout.TrackStartLbaRange | src/cue.rs:416-446 | the reference track_start is None exactly past the last track; track 0 is 150 plus the total when it fits in u32 |
| CueLayout.SumStep | src/cue.rs:422-424 | one step of the u32 accumulator adds the next bin's sectors to the running total, modulo 2^32 |
| CueLayout.IndexAt | src/cue.rs:367-377 | 1 exactly when the bin-local sector is at or after INDEX 01, else 0 |
| CueLayout.TrackLocalMsf | src/cue.rs:379-398 | before INDEX 01, the address (100,0,0) less the distance; from INDEX 01, the distance, truncated as from_lba does |
| CueLayout.IndexMatchesLocalMsf | src/cue.rs:367-398 | index 0 goes with a negative local address and index 1 with a non-negative one; INDEX 01 itself is 00:00:00 |
| CueOpen.Successor | src/cue.rs:273 | `current_track_number + 1` in u8 |
| CueOpen.FileCommand | src/cue.rs:251-266 | a close error is returned; Ok exactly when the bin being read closes and the line parses; then the new bin is current with the counter kept, and a closed bin is appended finalised with no track pending |
| CueOpen.FileAfterClose | src/cue.rs:252-262 | with a bin open, the state after FILE is the finished bins plus the finalised one, the new bin, and no track |
| CueOpen.TrackCommand | src/cue.rs:267-281 | TrackCommandWithoutBinFile outside a bin; Ok exactly when the line parses and its number follows the counter; then the counter is that number and the track is added to the bin's tracks |
| CueOpen.IndexCommand | src/cue.rs:283-300 | IndexCommandWithoutTrack outside a track; Ok exactly when the line parses and is not a second INDEX 00; then only the current track changes, with the index set to the address's LBA |
| CueOpen.Step | src/cue.rs:247-309 | a blank line changes nothing; an unknown command that is not ignored is InvalidCommandError with the upper-cased command |
| CueOpen.RunLines | src/cue.rs:247-310 | every state the line loop reaches keeps the invariant: finished bins finalised, counter equal to the tracks read, in u8 |
| CueOpen.ReadFile | src/cue.rs:251-266 | returns the FILE step: close and finalise the bin being read, then start the named one |
| CueOpen.ReadTrack | src/cue.rs:267-281 | returns the TRACK step: TrackCommandWithoutBinFile outside a bin, InvalidTrackNumber unless the number follows the last |
| CueOpen.ReadIndex | src/cue.rs:283-300 | returns the INDEX step: IndexCommandWithoutTrack outside a track, InvalidIndexNumber for a second INDEX 00, otherwise insert or overwrite |
| CueOpen.ReadLine | src/cue.rs:247-309 | returns the step for one line: by upper-cased command, with ignored commands and the InvalidCommandError default |
| CueOpen.ParseCue | src/cue.rs:236-322 | the loop over the lines plus the end checks returns exactly Open |
| CueOpen.RunLinesStep | src/cue.rs:247 | the state after one more line is that line's step from the state before |
| CueOpen.ErrorPersists | src/cue.rs:247-309 | once a line fails, the whole sheet fails with that error |
| CueOpen.StepKeeps | src/cue.rs:247-309 | every step keeps the invariant: finished bins are finalised, and the counter is the number of tracks read so far, in u8 |
| CueOpen.FirstFileKeeps | src/cue.rs:262 | making the first FILE line's bin current keeps the invariant |
| CueOpen.TrackNumberCounts | src/cue.rs:272-276 | a TRACK line is accepted exactly when its number is one more than the tracks read so far, across all bins |
| CueOpen.FinishKeeps | src/cue.rs:311-322 | a successful end gives a non-empty list of finalised bins whose tracks number the counter |
| CueOpen.Finish | src/cue.rs:311-322 | NoBinFiles without a bin, NoTracks without a track; on Ok, the finished bins followed by the last one |
| CueOpen.Open | src/cue.rs:236-322 | an opened sheet has at least one bin file, each finalised with tracks, and its track count is the final counter in u8 |
| CueOpen.NoFileRefused | src/cue.rs:320-322 | a sheet without a FILE line fails: with a line's error, or with NoBinFiles |
| Cue.SeekTo | src/cue.rs:449-488 | a found location is in range at the target; below 150 it is bin 0, track 0, offset 0 |
| Cue.SeekToFinds | src/cue.rs:449-488 | over tiled bins the seek succeeds exactly below 150 plus the disc's sectors, and lands on a coherent location |
| Cue.SeekToCoherent | src/cue.rs:449-488 | seeking to a coherent location's sector finds that location |
| Cue.SeekKeepsAddress | src/cue.rs:449-488 | the location found reports the target as its global MSF |
| Cue.TrackStartMsf | src/cue.rs:416-446 | OutOfRange exactly when the track is beyond the last; otherwise the address of the start LBA |
| Cue.SeekToTrack | src/cue.rs:490-494 | track_start's error is passed on; otherwise the location at its address |
| Cue.SeekToTrackLands | src/cue.rs:416-494 | moving to a track lands on that track's INDEX 01, with index 1 and local MSF 00:00:00 |
| Cue.Advance | src/cue.rs:496-525 | the sector grows by one; EndOfDisc only on the last track of the last bin; the track changes only with an event |
| Cue.AdvanceInPregap | src/cue.rs:497-503 | in the first pregap only the sector moves, with no event |
| Cue.AdvanceInTrack | src/cue.rs:504-510 | inside a track both counters move, with no event |
| Cue.AdvanceToNextTrack | src/cue.rs:512-514 | at a track's end, the next track in the bin with TrackChange |
| Cue.AdvanceToNextBin | src/cue.rs:515-519 | at a bin's last track's end, the next bin at offset 0 with TrackChange |
| Cue.AdvanceAtEnd | src/cue.rs:520-521 | after the disc's last sector, EndOfDisc |
| Cue.AdvanceCoherent | src/cue.rs:496-525 | advancing keeps the location coherent until EndOfDisc, which comes exactly after the disc's last sector |
| Cue.Cuesheet.constructor | src/cue.rs:551-561 | the cursor starts at sector 150, bin 0, track 0, offset 0 |
| Cue.Cuesheet.TrackCount | src/cue.rs:346-348 | the total of the bins' track counts |
| Cue.Cuesheet.SubchannelQValid | src/cue.rs:350-356 | false exactly when an SBI set is loaded and holds the current sector |
| Cue.Cuesheet.CurrentTrack | src/cue.rs:358-365 | the accumulated number; with fewer than 256 tracks it is ≥ 1 and names the current slot |
| Cue.Cuesheet.CurrentIndex | src/cue.rs:367-377 | 1 exactly when the bin-local sector is at or after INDEX 01 |
| Cue.Cuesheet.CurrentTrackLocalMsf | src/cue.rs:379-398 | the negative-address and distance cases of TrackLocalMsf for the current track |
| Cue.Cuesheet.CurrentGlobalMsf | src/cue.rs:400-404 | from_lba of the global sector |
| Cue.Cuesheet.CurrentTrackType | src/cue.rs:406-410 | the type of the current bin's current track; at the first track of the first bin, the first track type |
| Cue.Cuesheet.FirstTrackType | src/cue.rs:412-414 | the first track's type |
| Cue.Cuesheet.TrackStart | src/cue.rs:416-446 | returns exactly TrackStartMsf |
| Cue.Cuesheet.SetLocation | src/cue.rs:449-488 | Ok exactly when SeekTo finds the target, which becomes the location; otherwise OutOfRange with the location unchanged |
| Cue.Cuesheet.SetLocationToTrack | src/cue.rs:490-494 | the location becomes SeekToTrack's, or the error is returned with the location unchanged |
| Cue.Cuesheet.AdvancePosition | src/cue.rs:496-525 | the new location and the event are Advance of the old one |
| Cue.Cuesheet.CopyCurrentSector | src/cue.rs:527-540 | zeros in the first pregap; otherwise the bin's bytes at offset·2352, or IoError when the file is too short |
| Cue.OpenCuesheet | src/cue.rs:236-341 | Ok exactly when the sheet opens, with its bins, the start location and the loaded SBI set; otherwise the sheet's error |
| LibCue.SeekTo | src/lib.rs:503-531 | a found location is in range at the target less 150, in u32 |
| LibCue.SeekToShifted | src/lib.rs:503-531 | from sector 150 on, it finds what src/cue.rs finds, with the global sector 150 lower |
| LibCue.Shifted | src/lib.rs:447-456 | a location of this revision seen as src/cue.rs counts it: the global sector plus 150 |
| LibCue.IndexAtAsWritten | src/lib.rs:404-420 | as written: INDEX 01 less the track start, in u32; when INDEX 01 is not before the start, 1 exactly when the bin-local sector is at least that difference |
| LibCue.IndexAsWrittenAtStart | src/lib.rs:404-420 | it agrees with the corrected index on a bin's first track |
| LibCue.IndexAsWrittenInPregap | src/lib.rs:404-420 | in a later track's pregap it reports 1 while the local MSF is negative |
| LibCue.IndexAsWrittenExample | src/lib.rs:404-420 | a track at sector 1000 with INDEX 01 at 1150: sector 1000 reports index 1 at local MSF 99:58:00 |
| LibCue.AdvanceAsWritten | src/lib.rs:539-562 | as written: the sector grows by one, the event is only ever TrackChange, and the location stays on the disc or moves to the bin after the last one, at offset 0 |
| LibCue.AdvanceAsWrittenLeavesDisc | src/lib.rs:549-556 | at the disc's last sector the bin number goes past the last bin |
| LibCue.Advance | src/lib.rs:539-562 | corrected: in range whenever bins have tracks, EndOfDisc only on the last track of the last bin |
| LibCue.AdvanceCorrected | src/lib.rs:539-562 | it differs from as written only at the disc end, and it moves as src/cue.rs does past the pregap |
| LibCue.Cuesheet.constructor | src/lib.rs:376-379 | the bins, with no location set |
| LibCue.Cuesheet.BinFileCount | src/lib.rs:382-384 | the number of bin files |
| LibCue.Cuesheet.TrackCount | src/lib.rs:386-388 | the total of the bins' track counts |
| LibCue.Cuesheet.CurrentTrack | src/lib.rs:390-401 | NoLocationSet when unset; otherwise the accumulated number, wrapping in u8 |
| LibCue.Cuesheet.CurrentIndex | src/lib.rs:403-420 | NoLocationSet when unset; otherwise the as-written index: 1 exactly when the bin-local sector is at least INDEX 01 less the track start |
| LibCue.Cuesheet.CurrentTrackLocalMsf | src/lib.rs:422-445 | NoLocationSet when unset; otherwise the negative-address and distance cases |
| LibCue.Cuesheet.CurrentGlobalMsf | src/lib.rs:447-456 | NoLocationSet when unset; otherwise from_lba of the global sector plus 150 |
| LibCue.Cuesheet.CurrentTrackType | src/lib.rs:458-464 | None exactly when unset, else the current track's type |
| LibCue.Cuesheet.FirstTrackType | src/lib.rs:466-468 | the first track's type |
| LibCue.Cuesheet.TrackStart | src/lib.rs:470-500 | OutOfRange exactly past the last track, otherwise the same address as src/cue.rs, or the from_lba error as MsfParseError(OutOfRangeError) |
| LibCue.Cuesheet.SetLocation | src/lib.rs:503-531 | Ok exactly when the search finds the target, which becomes the location; otherwise OutOfRange with the location unchanged |
| LibCue.Cuesheet.SetLocationToTrack | src/lib.rs:533-537 | track_start's error is returned with the location unchanged: OutOfRange past the last track, MsfParseError(OutOfRangeError) when from_lba refuses the start; otherwise a seek to its address |
| LibCue.Cuesheet.AdvancePosition | src/lib.rs:539-562 | NoLocationSet when unset; otherwise the location and event of AdvanceAsWritten, which may leave the disc |
| LibCue.Cuesheet.CopyCurrentSector | src/lib.rs:564-575 | NoLocationSet when unset; otherwise the bin's bytes at offset·2352, or IoError when the file is too short |
| LibCue.FromCueFile | src/lib.rs:287-380 | Ok exactly when the sheet opens, with its finalised bins and no location; otherwise the sheet's error |
| LibCue.AsCueError | src/lib.rs:438-440 | the `?` on from_lba: the value, or the MSF error as a CueParseError |
| Disc.AddressOf | src/chd.rs:400 | from_lba into an image result: Ok exactly when the truncated LBA is below 450000, with that LBA |
| Disc.LiftMsf | src/cue.rs:401 | the `?` on from_lba: the value, or the MSF error as an ImageError |
| Disc.RelativeMsf | src/chd.rs:389-396 | before the origin, (100,0,0) less the distance; from it, the distance, truncated as from_lba does |
| Disc.RelativeMsfBeforeOrigin | src/chd.rs:389-393 | negative local addresses keep the order of their sectors |
| Disc.RelativeMsfJustBefore | src/chd.rs:389-393 | the sector before the origin is 99:59:74 |
| Wrappers.WrapAdd | src/chd.rs:218 | u32 addition: the sum when it fits |
| Wrappers.WrapSub | src/cue.rs:147 | u32 subtraction: the difference when it does not underflow |
| Chd.TrackTypeOf | src/chd.rs:211-216 | a type exactly for MODE1_RAW, MODE2_RAW and AUDIO, and Audio exactly for AUDIO |
| Chd.Padding | src/chd.rs:219-223 | fewer than 4 sectors that bring the track to a multiple of 4, none for a multiple of 4 |
| Chd.LayTracks | src/chd.rs:208-230 | Ok exactly when every record's format is known, giving the table of start sectors and padding offsets; the first unknown format is the error |
| Chd.TableLaid | src/chd.rs:208-230 | the table starts at 150 with no padding, each track starts where the previous ends, and offsets add its padding |
| Chd.AlignedStart | src/chd.rs:33-36 | every track starts at a multiple of 4 sectors in the file: (start - 150 + padding offset) mod 4 = 0 |
| Chd.EndsBefore | src/chd.rs:217-218 | an earlier track ends before a later one starts |
| Chd.ContainedOnDisc | src/chd.rs:269-272 | a sector of a track lies between 150 and the disc end |
| Chd.ContainingUnique | src/chd.rs:271-273 | at most one track contains a sector |
| Chd.FirstContaining | src/chd.rs:271-273 | `position`: the first track containing the sector; None exactly when none does |
| Chd.Retarget | src/chd.rs:267-282 | the current track when it contains the sector, else the first containing track, else None |
| Chd.RetargetOnDisc | src/chd.rs:267-282 | on a laid table a track is found exactly for sectors 150 up to the disc end, namely the one containing it |
| Chd.NextSectorTrack | src/chd.rs:267-282 | the next sector stays in the track, moves to the next track at its end, and leaves the disc after the last |
| Chd.FileLba | src/chd.rs:317 | the sector in the file: lba + padding offset - 150 |
| Chd.HunkNoForLba | src/chd.rs:310-325 | corrected: Ok exactly from sector 150 with a file sector below the hunks, then its hunk number; else OutOfRange |
| Chd.HunkNoForLbaAsWritten | src/chd.rs:310-325 | as written: also accepts the hunk number equal to the count |
| Chd.HunkNoAsWrittenAcceptsCount | src/chd.rs:320 | as written, hunk number = count is accepted though no such hunk exists; elsewhere both agree |
| Chd.SectorStart | src/chd.rs:474-476 | a multiple of 2448 with a whole sector inside the hunk |
| Chd.SectorAddress | src/chd.rs:474-476 | hunk number times hunk bytes plus the sector offset is the byte address of the file sector |
| Chd.Swapped | src/chd.rs:507-511 | each adjacent byte pair swapped, an odd last byte kept |
| Chd.SwappedTwice | src/chd.rs:507-511 | swapping twice gives the bytes back |
| Chd.SwapBytePairs | src/chd.rs:508-510 | the in-place loop leaves the buffer Swapped |
| Chd.LocalMsf | src/chd.rs:384-397 | before INDEX 01, (100,0,0) less the distance; from it, the distance |
| Chd.PregapOr | src/chd.rs:376 | `pregap.unwrap_or(d)`: d when the track has no pregap record |
| Chd.Index01Lba | src/chd.rs:386-388 | INDEX 01 is the track start plus the pregap, 150 when there is none |
| Chd.IndexAt | src/chd.rs:373-382 | corrected: on a sector of the track, 1 exactly when it is at least the pregap (150 by default) past the start |
| Chd.IndexAtAsWritten | src/chd.rs:373-382 | as written: 1 exactly when the sector is more than the pregap (0 by default) past the start, the difference wrapping in u32 before the start |
| Chd.IndexMatchesLocalMsf | src/chd.rs:373-397 | index 0 exactly when the local address is negative; INDEX 01 is index 1 and 00:00:00 |
| Chd.IndexAsWrittenAtIndex01 | src/chd.rs:376 | as written, INDEX 01 itself reports index 0 at local MSF 00:00:00 |
| Chd.IndexAsWrittenWithoutPregap | src/chd.rs:376 | without a pregap record, the 150 sectors the local MSF counts as pregap report index 1 |
| Chd.IndexAsWrittenBeforeDisc | src/chd.rs:375-376 | in the first pregap (sector < 150) the wrapped subtraction reports index 1 |
| Chd.IndexAsWrittenAgrees | src/chd.rs:376 | with a pregap record, as written and corrected agree from the track start on, except at INDEX 01 |
| Chd.TrackStartOf | src/chd.rs:412-428 | track 0 is 150 plus the hunk bytes' sectors; 1..count is INDEX 01; anything else OutOfRange |
| Chd.DiscLength | src/chd.rs:415-418 | without overflow, track 0 is 150 plus hunks times sectors per hunk |
| Chd.TrackStartOfTable | src/chd.rs:412-428 | on the from_chd table, track k starts at 150 plus the earlier frames plus its pregap |
| Chd.TrackStartLands | src/chd.rs:412-439 | seeking to a track's start finds that track, index 1 and local MSF 00:00:00 |
| Chd.TrackNumbering | src/chd.rs:369-371 | with fewer than 256 tracks, the reported number is track + 1 and leads back to its start |
| Chd.FromChd | src/chd.rs:187-265 | WrongHunkSize, then ChdError for a missing hunk 0, then NoTracks, then the first unsupported format; Ok exactly otherwise, with the table, hunk 0 loaded at sector 150 and the SBI set |
| Chd.ChdImage.constructor | src/chd.rs:244-264 | the cursor at sector 150, track 0, hunk 0 in the buffer |
| Chd.ChdImage.Relocated | src/chd.rs:327-353 | the sector is stored; below 150, track 0 and no hunk; otherwise the retargeted track, OutOfRange exactly when no track fits or the as-written hunk check refuses, a ChdError for a hunk that is not there (as for hunk number = count), and the hunk number on success |
| Chd.ChdImage.RelocatedPastLastHunk | src/chd.rs:320-351 | a sector whose hunk number equals the hunk count gives a ChdError where the corrected check gives OutOfRange |
| Chd.ChdImage.ReadHunk | src/chd.rs:284-287 | Ok exactly when the hunk exists, loading it; otherwise ChdError with the buffer kept |
| Chd.ChdImage.UpdateCurrentTrack | src/chd.rs:267-282 | the track becomes the retargeted one, or OutOfRange with it unchanged |
| Chd.ChdImage.SetLocationLba | src/chd.rs:327-353 | the new state and result are Relocated of the old state |
| Chd.ChdImage.SetLocation | src/chd.rs:430-432 | Relocated at the target's LBA |
| Chd.ChdImage.SetLocationToTrack | src/chd.rs:434-439 | track_start's error leaves everything unchanged; otherwise Relocated at its LBA |
| Chd.ChdImage.AdvancePosition | src/chd.rs:441-455 | Relocated at the next sector; OutOfRange becomes EndOfDisc, other errors pass (including the ChdError past the last hunk), a changed track gives TrackChange |
| Chd.ChdImage.CopyCurrentSector | src/chd.rs:465-514 | WrongBufferSize, zeros below 150, otherwise a retry for a failed hunk and the 2352 bytes at the sector's offset, swapped for audio |
| Chd.ChdImage.TrackCount | src/chd.rs:357-359 | the number of tracks |
| Chd.ChdImage.SubchannelQValid | src/chd.rs:361-367 | false exactly when an SBI set is loaded and holds the current sector |
| Chd.ChdImage.CurrentTrack | src/chd.rs:369-371 | the track from 0 plus 1, in u8 |
| Chd.ChdImage.CurrentIndex | src/chd.rs:373-382 | the as-written index at the current sector: from the track start on, 1 exactly when more than the pregap (0 by default) past it |
| Chd.ChdImage.CurrentTrackLocalMsf | src/chd.rs:384-397 | LocalMsf of the current track at the current sector |
| Chd.ChdImage.CurrentGlobalMsf | src/chd.rs:399-401 | from_lba of the current sector |
| Chd.ChdImage.CurrentTrackType | src/chd.rs:403-406 | the current track's type |
| Chd.ChdImage.FirstTrackType | src/chd.rs:408-410 | the first track's type |
| Chd.ChdImage.TrackStart | src/chd.rs:412-428 | exactly TrackStartOf for the image |

## Left out

- File I/O. What the source reads from disk becomes a parameter:
  - the cue sheet text;
  - each bin file's byte length (a map from name to length), with the joining of the cue directory not modelled;
  - the bytes of the bin file being read;
  - the SBI bytes, `None` when there is no file.
- The `chd_rs` library. `Chd::open`, `hunk().read_hunk_in` and `metadata_refs` are foreign code:
  - a hunk is a byte sequence in a map, and a hunk missing from the map is the library's `ChdError`, without its detail;
  - the header is the hunk count and the hunk size.
- `open`, `open_with_parent`, `open_with_parents_recursively` and `chd_header_sha1` in src/chd.rs: file opening and foreign header reads.
- src/chd/track_metadata.rs. The `text_io` scanning of the CD track records is not visible, so the list of (type, frames, pregap) records is an input.
- src/chd/chd_thread.rs and the multithreading branches of src/chd.rs (289-308, 457-463, 484-502). These are a worker thread, channels and a cache, which is concurrency outside this model.
- Logging, `Error`/`Display`/`From` implementations, and serde derives.
- The `MsfIndexError` that src/cue.rs imports. It comes from a revision of src/index.rs that is not part of this model, so `MsfParseError` stands for it.
- `parse_pregap_line`. It is marked unused, and the PREGAP command is ignored.
- The repository's example programs (`num_tracks`, `num_bin_files_and_tracks`, `open_chd_with_parents`): they only print.
- Debug-build overflow panics. The model follows a release build: `u32` arithmetic wraps and the `u8` track counters wrap.
- CueLayout.FinalizeSpec: reports the panic of `first_index_lba`, in a bin whose only track has neither INDEX 00 nor INDEX 01, as the error `MissingIndexPanic`.
- CueLayout.TrackLocalMsf: requires the track start to be at or before INDEX 01 and the current sector. The u32 subtractions of src/cue.rs:385 and 389 would otherwise underflow. So do `Cue.Cuesheet.CurrentTrackLocalMsf` and `LibCue.Cuesheet.CurrentTrackLocalMsf`.
- Cue.Cuesheet.CurrentIndex: requires the current track to have INDEX 01, which the source unwraps. So does `LibCue.Cuesheet.CurrentIndex`.
- Chd.ChdImage.CurrentTrackLocalMsf: requires the distance to INDEX 01 to be at most 450000, which would otherwise underflow `reference - offset`. So do `Chd.LocalMsf` and `Disc.RelativeMsf`.
- Chd.FromChd: requires that the frame and padding sums fit in `u32`, and that the hunk size is not zero. The CHD format limits both, but that is not visible here. `Chd.LayTracks` has the same requirement on the sums.
- Cue.Cuesheet.CopyCurrentSector: leaves the buffer unchanged when the read fails, whereas `read_exact` may have filled part of it. `LibCue.Cuesheet.CopyCurrentSector` does the same.
- LibCue.SeekTo: subtracts 150 with `u32` wrap-around instead of panicking below 150. Above 150 it is the source's search (`LibCue.SeekToShifted`).
- Strings.ToUppercase: upper-cases ASCII letters and the few non-ASCII characters whose upper case is ASCII. Every other character is kept. Which lines are accepted does not change, since every keyword is ASCII. The text the errors carry can differ from `str::to_uppercase`, in three errors: `UnknownBinMode` (src/cue.rs:73, 81), `UnknownTrackType` (src/cue.rs:89, 94) and `InvalidCommandError`, in both src/cue.rs:306 and the src/lib.rs reader.
- Strings.ParseU8: does not keep the kind of a `ParseIntError`.
- Sbi.LoadSbi: returns a mathematical set of LBAs where the source returns a `BTreeSet<u32>`.
- CueLayout.TrackStart: requires the requested track, when it is not track 0, to have INDEX 01 (`IndexOnePresent`). The source unwraps that index at src/cue.rs:434 and would panic without it. The same requirement is on `CueLayout.TrackStartLba`, `Cue.TrackStartMsf`, `Cue.SeekToTrack`, `Cue.Cuesheet.TrackStart`, `Cue.Cuesheet.SetLocationToTrack`, `LibCue.Cuesheet.TrackStart` and `LibCue.Cuesheet.SetLocationToTrack`.
- LibCue.Cuesheet.CurrentIndex: requires the cursor to be on a bin file (`OnDisc`). As written, `advance_position` can move the cursor to the bin after the last one. There the source indexes `bin_files` out of bounds and panics. The same requirement is on `LibCue.Cuesheet.CurrentTrackLocalMsf`, `LibCue.Cuesheet.CurrentTrackType`, `LibCue.Cuesheet.AdvancePosition` and `LibCue.Cuesheet.CopyCurrentSector`. `CurrentTrack`, `CurrentGlobalMsf` and `SetLocation` stay defined past the last bin, as they are in the source.
- CueOpen.Step: its contract states the blank-line and unknown-command cases only. That FILE, TRACK and INDEX lines go to `FileCommand`, `TrackCommand` and `IndexCommand`, and that ignored commands change nothing, is the function's body and is not repeated as a clause.

## Findings

| source | as written | input that shows it | evidently intended | confidence | as-written member | corrected member |
|---|---|---|---|---|---|---|
| src/lib.rs:412 | `current_index` compares the bin-local sector with INDEX 01 measured from the track start | a track at bin sector 1000 with INDEX 00 at 1000 and INDEX 01 at 1150: at sector 1000, in the pregap, it reports index 1 | compare with INDEX 01 itself, as src/cue.rs:372 does | not executed | LibCue.IndexAsWrittenExample | CueLayout.IndexMatchesLocalMsf |
| src/lib.rs:551 | the guard `self.bin_files.len() >= loc.bin_file_no` always holds | at the last sector of the last track of the last bin, the bin number moves past the last bin and the event is TrackChange | stop at the disc end (`>`), as src/cue.rs:515-521 does with EndOfDisc | not executed | LibCue.AdvanceAsWrittenLeavesDisc | LibCue.AdvanceCorrected |
| src/chd.rs:320 | `hunk_no > self.num_hunks` accepts a hunk number equal to the hunk count | a track whose frames run past the last hunk: the first sector after the hunks gets hunk number `num_hunks`, and the read fails with a library error instead of OutOfRange, so advance_position does not report EndOfDisc | `hunk_no >= self.num_hunks` | not executed | Chd.ChdImage.RelocatedPastLastHunk | Chd.HunkNoForLba |
| src/chd.rs:376 | `track_local_lba > pregap.unwrap_or(0)` | a track with pregap 150: at INDEX 01 itself, where the local MSF is 00:00:00, it reports index 0 | index 1 from INDEX 01 on (`>=`) | not executed | Chd.IndexAsWrittenAtIndex01 | Chd.IndexMatchesLocalMsf |
| src/chd.rs:376 | the pregap defaults to 0 here but to 150 in src/chd.rs:387 | a track without a pregap record: 149 sectors after its start, the local MSF is negative but the index is 1 | the same default of 150 in both | not executed | Chd.IndexAsWrittenWithoutPregap | Chd.IndexMatchesLocalMsf |
| src/chd.rs:375 | `self.current_lba - current_track.start_lba` underflows in the first track's pregap | sector 0, first track at 150: the wrapped difference is huge and the index is 1 | index 0 in the pregap | not executed | Chd.IndexAsWrittenBeforeDisc | Chd.IndexMatchesLocalMsf |
| src/msf_index.rs:89 | `from_sectors` divides the remainder by 60 instead of 75 | 74 sectors give (0,1,14), whose to_sectors is 89; 3600 sectors, the valid 00:48:00, are refused | divide by 75, as `from_lba` does in src/index.rs:86 | not executed | LegacyMsf.FromSectorsIsNotInverse | Index.LbaRoundTrip |
