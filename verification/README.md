# lamusica in Dafny

lamusica turns a Standard MIDI File into the hole pattern of a paper strip
for a music-box comb. This project models its core as pure Dafny functions
and proves properties about them. The core is `lamusica.py` and its older
twin `midi.py`:

- **Decoding.** The MIDI importer frames chunks (a 4-byte tag and a
  big-endian 32-bit length) and checks the `MThd` header. It decodes `MTrk`
  event streams: variable-length delta times, running status, fixed payload
  sizes per status nibble, and length-prefixed meta and sysex events. It
  collects note-ons into `Note` records. `midi.py` has its own reader: it
  keeps its state in module globals, here threaded as an explicit
  `LegacyReader.Reader`.
- **Piano-roll transforms.** These are the repetition filter, the smallest
  repetition, the transposition search and the folding of pitches onto the
  teeth of the comb. They are modelled together with `midi.py`'s
  `prepare_band` and the unused `filter_band` of `lamusica.py`.
- **Encoding.** `output_midi` writes a one-track file with a note-on for
  every hole and a note-off a fixed delay later. The model returns the
  bytes. The writer is proved to round-trip through the importer: reading
  the written file back gives notes that are exactly the holes, as a set, for a non-zero division and ticks below 2^28.
- **Pagination.** The start of `output_file` splits the strip into pages and
  places the holes. Positions are exact `real`s.
- **Main flows.** Both flows take the file's bytes and return what would be
  written.

The modules follow the program's structure:

| module | models |
|---|---|
| `Vlq`, `Bytes` | the delta-time loops and `struct` packing |
| `TrackParser` | the event loop shared by both readers, with a `Dialect` for the meta-event difference |
| `Importer` | `MidiImporter` |
| `Notes`, `BoxModels` | `Note` and the box models |
| `Repetition` | `filter_repetition` and `min_repetition` |
| `Transpose` | `find_transpose` |
| `Band` | `get_compat_band` |
| `Deltas`, `BandFilter` | the gap tables and `filter_band` |
| `Encoder`, `RoundTrip`, `BoxReadBack` | `output_midi` and its read-back |
| `Layout` | the splits and holes of `output_file` |
| `LegacyReader`, `LegacyBand` | `midi.py` |
| `Pipeline` | the two `__main__` blocks |

Python exceptions become `Err` values of `TrackParser.MidiError`. A crash on
empty input (`self.notes[0]`, `min([])`) becomes a precondition. The
`sys.maxint` of a 64-bit Python 2 is `Notes.MaxInt`.

## Model

| member | source | states |
|---|---|---|
| Vlq.ReadFails | lamusica.py:504-508 | The delta-time loop runs off the end of the track (an IndexError) exactly when every remaining byte has its high bit set. |
| Vlq.ReadSuffix | lamusica.py:504-510 | What the loop leaves over is a proper suffix of the track. |
| Vlq.Encode | lamusica.py:315-322 | The encoder writes 1 to 4 bytes. Every byte but the last has the high bit set and the last does not. |
| Vlq.ReadShaped | lamusica.py:504-508 | Reading such a byte string consumes exactly its bytes and leaves what follows untouched. |
| Vlq.EncodedValue | lamusica.py:315-322 | The bytes carry the delta time modulo 2^28, so bits above 27 are dropped silently. |
| Vlq.RoundTrip | lamusica.py:315-322 | Decoding the encoder's bytes gives back the delta time modulo 2^28 and the bytes after it. Below 2^28 it is exactly the delta time. |
| Bytes.U32 | lamusica.py:584 | A `>I` length is below 2^32. |
| Bytes.U32Bytes | lamusica.py:333 | The four bytes written by `struct.pack(">i", n)` for 0 <= n < 2^31 read back as n under `>I`. |
| Bytes.S16 | lamusica.py:566 | A `>h` value lies in the signed 16-bit range. It is negative exactly when the high byte has its top bit set. |
| Bytes.S16Bytes | lamusica.py:332 | The two bytes written by `struct.pack(">h", v)` read back as v. |
| Bytes.Frame | lamusica.py:332-334 | A written chunk takes 8 + n bytes. Its tag, its length field (which reads back as n) and its payload can be cut out again. |
| TrackParser.DataBytes | lamusica.py:516-523 | Nibbles 8, 9, A, B and E take two data bytes; C and D take one; F8, FA, FB and FC take none; any other F status is length-prefixed or unknown. |
| TrackParser.ParseBody | lamusica.py:516-548 | A command is its status byte followed by the bytes consumed, and no byte is lost or invented. A fixed-size status takes its data bytes, or as many as remain (Python slicing). |
| TrackParser.BodyFraming | lamusica.py:524-548 | In lamusica.py a meta event is a type byte, a variable-length length and that many bytes, and sysex is a length and that many bytes. In midi.py (lines 107-112) a meta event has a one-byte length and sysex is unsupported. Any other status raises, with IndexError when the track has ended. |
| TrackParser.LengthPrefixed | lamusica.py:529-546 | A length-prefixed event succeeds exactly when its length can be read. It then takes the length's bytes plus that many more, or fewer at the end of the track. |
| TrackParser.LengthPrefixedPieces | lamusica.py:529-546 | The event is cut out of the track unchanged: the command followed by the rest is the original bytes. |
| TrackParser.BodyPieces | lamusica.py:516-546 | Every event body is cut out of the track unchanged. |
| TrackParser.ParseEvent | lamusica.py:504-514 | An unreadable delta time raises IndexError. A data byte in status position with no earlier status raises. A successful event starts with a status byte that becomes the running status, and it consumes input. |
| TrackParser.EventFraming | lamusica.py:510-514 | After the delta time an explicit status byte is consumed with its data. A data byte in status position reuses the previous status, and only the data is consumed. |
| TrackParser.Scan | lamusica.py:503-550 | Every decoded command begins with a status byte. Every event's tick is the previous tick plus its delta, and an empty track decodes to nothing. |
| TrackParser.ScanStep | lamusica.py:503-551 | One turn of the loop: the first event at tick + delta, then the rest decoded from that tick with the new running status. |
| TrackParser.AccumulatedTicksAscend | lamusica.py:550 | Ticks accumulated from delta times never decrease. |
| TrackParser.DecodeTrack | lamusica.py:500-502 | The tick restarts at 0 for every track, so the first event's tick is its delta, and ticks never decrease. |
| Importer.ImportEvent | lamusica.py:468-496 | A note-on adds exactly one note (the first data byte as pitch, the tick, the channel nibble, the track; velocity is ignored) unless the importer-wide last program is 127. A program change records its program. Anything else changes nothing. A missing data byte raises. |
| Importer.ImportEvents | lamusica.py:550-551 | Earlier notes stay unchanged in front, the new notes carry this track, and the time division and track count are untouched. |
| Importer.AppendOrdered | lamusica.py:480 | Appending a note no earlier in (track, tick) order keeps the roll in that order. |
| Importer.ImportEventsOrdered | lamusica.py:499-551 | A track's notes, imported in tick order after those of earlier tracks, keep the roll in (track, tick) order. |
| Importer.ImportTrack | lamusica.py:571-573 | A decoded track counts as one more track and only appends notes. |
| Importer.ImportChunk | lamusica.py:554-573 | Before a header with a non-zero division, any chunk other than `MThd` raises. A second header raises, and a header payload other than 6 bytes raises. `MTrk` chunks are decoded and other chunks are skipped. A header declaring division 0 leaves both checks disarmed. |
| Importer.ImportChunks | lamusica.py:579-591 | The chunk loop keeps the importer consistent: a 16-bit division, notes in (track, tick) order, and every note from a counted track. |
| Importer.ImportFile | lamusica.py:576-591 | A file that imports yields a consistent importer, with notes in (track, tick) order. |
| Importer.ChunkFraming | lamusica.py:583-591 | A chunk framed by the writer is handled as exactly its tag and payload, and the loop continues right after it. |
| Notes.ByPitchThenTick | lamusica.py:439-440 | Sorting by tick and then stably by pitch is a permutation of the notes in (pitch, tick) order. Notes sharing a pitch and a tick keep the order they had in the roll, which decides which of them the filter tags. |
| Sorting.Insert | lamusica.py:306 | Insertion into a sorted list keeps it sorted and adds exactly the one element. |
| Sorting.Sort | lamusica.py:306 | The sort returns a sorted permutation of its input. Its stability is stated by `Sorting.SortStable`. |
| Sorting.SortStable | lamusica.py:439-440 | The sort is stable: the elements of any one key come out in the order they went in. |
| Sorting.SortOfSorted | lamusica.py:306 | Sorting a sorted list changes nothing. |
| Sorting.InsertUnique | lamusica.py:385 | Adding to a strictly ascending list keeps it strictly ascending and adds exactly that value. |
| Sorting.SortedSet | lamusica.py:385 | `sorted(list(set(s)))` is strictly ascending and holds exactly the values of s. |
| Repetition.Strip | lamusica.py:450 | Discarding the tag removes it and keeps pitch and tick. |
| Repetition.StripTwice | lamusica.py:450 | Discarding the tag twice is discarding it once. |
| Repetition.Tag | lamusica.py:447 | Adding the tag sets it and changes nothing else the filter manages. |
| Repetition.PassCorrect | lamusica.py:441-456 | The filter loop keeps the first note and changes only the tag. Surviving notes of a pitch are at least delta apart. Every tagged note lies less than delta after an earlier survivor of its pitch. The count is the number of tagged notes. |
| Repetition.FilterRepetition | lamusica.py:438-456 | `filter_repetition` returns the sorted roll with only the tag changed, the first note untagged and every survivor spaced. Every tag is justified by a closer survivor. The returned count equals the number of tags set. |
| Repetition.FilteredSorted | lamusica.py:439-454 | The filtered roll is still in (pitch, tick) order. |
| Repetition.GroupHeadKept | lamusica.py:452-454 | The earliest note of each pitch is never tagged. |
| Repetition.NonPositiveKeepsAll | lamusica.py:446-451 | With a minimum gap of 0 or less no note is tagged. |
| Repetition.PassIgnoresTag | lamusica.py:443-454 | The loop reads the notes only through pitch and tick, so tags set beforehand do not change its result. |
| Repetition.FilterIdempotent | lamusica.py:438-456 | Filtering a filtered roll with the same gap leaves the tags and the count unchanged. |
| Repetition.NeighbourMin | lamusica.py:393-402 | The loop over neighbours in (pitch, tick) order finds a positive distance no larger than any positive same-pitch neighbour distance. Below `sys.maxint` it is such a distance. |
| Repetition.MinRepetition | lamusica.py:390-402 | `min_repetition` is at most every positive tick distance between two notes of one pitch, tag or no tag. Unless it is `sys.maxint`, two notes of one pitch are exactly that far apart. |
| Transpose.Unplayable | lamusica.py:413-427 | The error count of a shift is 0 exactly when every note is playable, and equals the roll's length exactly when none is. Tags are not looked at. |
| Transpose.BestShift | lamusica.py:416-430 | The search loop returns an admitted shift in the range with its error count, or 0 with `sys.maxint`. No admitted shift has fewer errors, or equal errors and a smaller absolute value, and a tie in both keeps the earlier one. |
| Transpose.FindTranspose | lamusica.py:405-435 | The shift lies in [min(avail) - highest - 1, max(avail) - lowest + 1] and minimises the unplayable count with the tie-break. It is a multiple of 12 without halftones, and 0 when every note is already playable. |
| Transpose.PlayableStays | lamusica.py:428-430 | When every pitch already has a tooth, the tie-break forces shift 0 with no unplayable note. |
| Band.SourcePitches | lamusica.py:372-380 | A tooth's source pitches start with its own pitch. |
| Band.WalkDownReaches | lamusica.py:373-376 | The downward walk reaches exactly the pitches of the same class from 0 up to the start with no tooth on the way. |
| Band.WalkUpReaches | lamusica.py:377-380 | The upward walk reaches exactly the pitches of the same class up to 127 with no tooth on the way. |
| Band.SourcePitchesClaimed | lamusica.py:372-380 | A pitch is a source of tooth i exactly when it is the tooth's own pitch, or a pitch of its class in 0..127 with no tooth of the class between the two. |
| Band.ToothPitchOwnToothOnly | lamusica.py:372-380 | A tooth's pitch is claimed by no other tooth of a different pitch. |
| Band.GapSharedByNeighbours | lamusica.py:372-380 | A pitch between two teeth of its class, with no tooth of the class between them, is claimed by both. |
| Band.FedTicks | lamusica.py:382-384 | A tick is collected exactly when some untagged note at that tick, shifted, is a source pitch. |
| Band.CompatBand | lamusica.py:366-387 | There is one band per tooth and each is strictly ascending. A tick is in band i exactly when an untagged note at that tick has a shifted pitch that tooth i claims. |
| BandFilter.ThinFrom | lamusica.py:161-164 | The thinned ticks are a subsequence of the tooth's ticks, each at least `filter` after the one kept before it. |
| BandFilter.ThinOut | lamusica.py:158-165 | Starting from `last_time = -2 * filter`, the kept ticks are a spaced subsequence. |
| BandFilter.SpacedKept | lamusica.py:161-164 | Ticks already spaced are all kept. |
| BandFilter.ThinOutIdempotent | lamusica.py:158-165 | Thinning twice is thinning once. |
| BandFilter.SpacedGaps | lamusica.py:167-169 | Every gap between consecutive kept ticks is at least `filter`. |
| BandFilter.ThinSnoc | lamusica.py:161-164 | Read left to right, a tick is appended exactly when it lies at least `filter` after the last kept tick. |
| BandFilter.ThinTooth | lamusica.py:158-165 | The loop with its `last_time` state computes the thinned ticks. |
| BandFilter.FilterBand | lamusica.py:155-177 | `filter_band` succeeds exactly when there are at least ten distinct gaps and otherwise raises IndexError. On success the bands are exactly the greedy thinning of every tooth (`ThinBands`, built from `ThinOut`), each a spaced subsequence of its input, and the delta is the least of the ten smallest distinct gaps. |
| BandFilter.FilterBandDelta | lamusica.py:167-177 | The reported delta is a gap of some thinned tooth, no gap is smaller, and it is at least `filter`. |
| Deltas.GapListed | midi.py:195-197 | Every gap between consecutive ticks of a band is a key of `deltas`. |
| Deltas.ListedGap | midi.py:195-197 | Every key of `deltas` is such a gap. |
| Deltas.GapsExact | midi.py:189-197 | The keys of `deltas` are exactly the gaps between consecutive ticks. |
| Deltas.SmallestGap | midi.py:199-205 | Printing the first `shown` sorted keys raises IndexError exactly when there are fewer distinct gaps. |
| Deltas.SmallestGapIsLeast | midi.py:199-205 | `ks[0]` is a gap of some band and no gap is smaller. |
| LegacyReader.HandleMidiEvent | midi.py:63-76 | A note-on adds its tick to its pitch's set and nothing else changes. A note-on without a pitch byte, or with a pitch past 127, raises. |
| LegacyReader.HandleEventsCollects | midi.py:86-114 | A track's events fail exactly when one note-on cannot be stored. Otherwise a pitch's ticks are the earlier ones plus exactly those where a note-on strikes it, so duplicates collapse. There is no percussion exclusion. |
| LegacyReader.HandleTrack | midi.py:80-114 | `trktime` restarts at 0. A track succeeds exactly when it decodes in the midi.py dialect and every event is stored. |
| LegacyReader.HandleChunk | midi.py:118-132 | A header needs a 6-byte payload; there is no first-chunk or duplicate check. Every `MTrk` advances the track counter, and only tracks in `tracks` are decoded. Other chunks are ignored. |
| LegacyReader.ReadChunks | midi.py:139-150 | Fewer than 8 remaining bytes raise, unlike lamusica.py, and so does a length running past the end. |
| LegacyReader.ReadMidi | midi.py:136-150 | A read file counts no more tracks than it has 8-byte blocks. The division is a signed 16-bit value, and every stored tick is a tick count. |
| LegacyReader.HandleTrackNatural | midi.py:83-91 | Decoding a track stores only non-negative ticks. |
| LegacyReader.ReadChunksSane | midi.py:118-150 | The chunk loop keeps the division 16-bit and the stored ticks non-negative. |
| LegacyReader.ReadCounts | midi.py:139-150 | Every chunk takes at least eight bytes. |
| LegacyReader.ChunkFraming | midi.py:142-150 | A chunk framed by the writer is handled as exactly its tag and payload, and the loop continues right after it. |
| LegacyReader.StrayTailDiffers | midi.py:140-141 | 1 to 7 trailing bytes make `read_midi` raise, while lamusica.py's importer stops quietly. |
| LegacyBand.LowestFrom | midi.py:156-161 | `lowest` is the lowest used pitch, or 127 when none is used. |
| LegacyBand.HighestBelow | midi.py:156-161 | `highest` is the highest used pitch, or 0 when none is used. |
| LegacyBand.MisplacedNone | midi.py:177-180 | The error count of a shift is 0 exactly when every used pitch lands on a tooth. |
| LegacyBand.LegacyShift | midi.py:169-183 | The search returns the first admitted shift in the range with the fewest lost ticks, with its count. A strict `<` applies and there is no tie-break by size. When no shift improves on `sys.maxint` it returns 0. |
| LegacyBand.TeethTicks | midi.py:193-196 | Tooth i's list is strictly ascending and holds exactly the ticks stored for pitch `notes[i] - transpose`, a negative index counting from the end of the 128 entries. |
| LegacyBand.MapBand | midi.py:188-205 | A tooth pitch minus the shift outside -128..127 raises. Otherwise tooth i gets exactly the distinct ticks of pitch `notes[i] - transpose`, ascending (wrapping below 0), with no octave folding. The delta is `ks[0]` of at least 15 distinct gaps. It succeeds exactly when every index is in range and the lists have at least 15 distinct gaps, and every failure is an IndexError. |
| LegacyBand.MapBandDelta | midi.py:199-205 | The delta is a positive gap of some tooth and no gap is smaller. |
| LegacyBand.PrepareBand | midi.py:154-205 | The shift range is bounded by the lowest and highest used pitch. The chosen shift is the first admitted one losing the fewest ticks, and the band is mapped with it. |
| LegacyBand.ChosenOctaves | midi.py:169-175 | Without `allow_trans` the chosen shift is a whole number of octaves, including the 0 kept when no shift was tried. |
| Encoder.AllEvents | lamusica.py:300-304 | There are two events per hole. |
| Encoder.AllEventsCover | lamusica.py:301-304 | Every hole has its note-on and its note-off among the events. |
| Encoder.AllEventsOrigin | lamusica.py:301-304 | Every event is the note-on or the delayed note-off of some hole, at that tooth's pitch. |
| Encoder.SortedEvents | lamusica.py:306 | The events are sorted by (tick, pitch, on), so a note-off precedes a note-on at the same tick and pitch. The sort is a permutation of the unsorted list. |
| Encoder.SortedWritable | lamusica.py:306-327 | After sorting every delta time is non-negative and every pitch fits `chr`. |
| Encoder.EventBytes | lamusica.py:313-328 | Every event takes 4 to 7 bytes: 1 to 4 of delta time and three of command. What they decode to is stated by `RoundTrip.ScanEventBytes`. |
| Encoder.TrackPayload | lamusica.py:308-329 | The payload is the events plus 4 bytes of end of track, and 3 more for the program select. What it decodes to is stated by `RoundTrip.DecodePayload`. |
| Encoder.HeaderData | lamusica.py:332 | The header payload is 6 bytes whose last two read back as the division. |
| Encoder.OutputMidi | lamusica.py:296-335 | The sorted events of `output_midi` can be written: delta times are non-negative and pitches fit `chr`. The file is the framed header followed by the framed track, which holds the program select, the events with note-offs `mindelta` after their note-ons, and the end of track. |
| Encoder.LegacyOutputMidi | midi.py:240-274 | The same holds for midi.py's `output_midi`, except that there is no program select and note-offs come 512 ticks after their note-ons. |
| RoundTrip.Expected | lamusica.py:313-329 | Each written event should come back as its status, pitch and velocity 127 at its tick, followed by the end of track. |
| RoundTrip.ChannelEvent | lamusica.py:516-518 | A written note-on or note-off is read back as exactly that three-byte command. |
| RoundTrip.ScanChannel | lamusica.py:503-551 | A written channel event in front of other bytes adds exactly its command, at its tick, in front of their decoding. |
| RoundTrip.ScanEventBytes | lamusica.py:313-329 | The event loop's bytes and the end of track decode to exactly the expected commands at the expected ticks. |
| RoundTrip.OnNotes | lamusica.py:476-480 | The notes recorded for written events are exactly the note-ons, at pitch and tick, channel 0 and track 0. |
| RoundTrip.ImportExpected | lamusica.py:468-496 | Importing the written commands adds exactly the note-ons; note-offs and the end of track add nothing. |
| RoundTrip.ParseProgram | lamusica.py:311 | The program select written at delta 0 parses back as a single program-change command, whatever bytes follow it. |
| RoundTrip.ScanProgram | lamusica.py:311 | The program select at delta 0 decodes as a program change in front of the events. |
| RoundTrip.DecodePayload | lamusica.py:308-329 | The whole track payload decodes to the expected commands without error. |
| RoundTrip.ImportPayload | lamusica.py:468-496 | Importing the payload's commands records the program and one note per note-on. |
| RoundTrip.ReadBack | lamusica.py:296-335 | Reading a written file back gives its division, one track, its program and exactly its note-ons in order; under the percussion program there are no notes. The division must be non-zero and the ticks below 2^28. |
| BoxReadBack.WrittenOrigin | lamusica.py:301-306 | Every written event comes from a hole. |
| BoxReadBack.WrittenInRange | lamusica.py:313-322 | When every note-off tick is below 2^28, so is every event tick. |
| BoxReadBack.NoteOnIsHole | lamusica.py:301-306 | Every note-on written is a hole of the comb. |
| BoxReadBack.HoleIsNoteOn | lamusica.py:301-306 | Every hole of the comb is written as a note-on. |
| BoxReadBack.NotesAreHoles | lamusica.py:301-306 | The note-ons written are exactly the holes of the comb. |
| BoxReadBack.OutputReadBack | lamusica.py:296-335 | A file written by lamusica.py's `output_midi` reads back with its division, one track and the box's program. Its notes are exactly the holes, or none under the percussion program. |
| BoxReadBack.LegacyOutputReadBack | midi.py:240-274 | A file written by midi.py's `output_midi` reads back through lamusica.py's importer as exactly the holes, with no program. |
| Layout.Flatten | lamusica.py:193 | `sum(notelist, [])` holds exactly the ticks of all bands. |
| Layout.AllTimes | lamusica.py:193-194 | `alltimes` is strictly ascending and holds exactly the ticks of all bands. |
| Layout.Splits | lamusica.py:197-212 | The splits start at 0.0 and end at the strip length. |
| Layout.BreaksAreSafeCuts | lamusica.py:203-211 | Every split the walk appends is its starting break position or the midpoint of a gap, seen earlier, wider than four hole radii. |
| Layout.SplitsAtSafeCuts | lamusica.py:199-212 | Every interior split is 0.0 or the midpoint of a gap wider than four radii. |
| Layout.BreaksAscend | lamusica.py:203-211 | With ascending ticks and a non-negative step, the appended splits never decrease. |
| Layout.WrittenCutsAscend | lamusica.py:199-211 | As written, the splits before the final length never decrease for non-negative ticks. |
| Layout.MiddleWithinStrip | lamusica.py:197-204 | A midpoint measured from the first tick lies between the lead-in and the strip length. |
| Layout.SplitsAscend | lamusica.py:199-212 | With midpoints measured from the first tick, all splits, the final length included, never decrease. |
| Layout.HoleList | lamusica.py:215 | There is one hole per tick of every band. |
| Layout.HoleListExact | lamusica.py:215 | The holes are exactly those at `leadin + (n - start) * step` across and `i * dist + offset` down, for tick n of tooth i. |
| Layout.HolePositions | lamusica.py:215-216 | The holes are sorted by (x, y), one per tick of every band. |
| Layout.HolePositionsExact | lamusica.py:215-216 | Sorting keeps exactly the holes of the bands. |
| Layout.WrittenPageSplits | lamusica.py:193-212 | As written, the splits start at 0.0 and end at the strip length. Every split in between is 0.0 or the midpoint, measured from tick 0, of a gap wider than four hole radii, and those before the length never decrease for a non-negative first tick. |
| Layout.PageSplits | lamusica.py:193-212 | The corrected splits (see Findings) start at 0.0 and end at the strip length. Every split in between is 0.0 or the midpoint, measured from the first tick, of a gap wider than four hole radii. |
| Layout.PageSplitsPartition | lamusica.py:193-212 | With midpoints offset by `start`, the splits run from 0.0 to the strip length, never decrease, and cut only at 0.0 or at wide gaps. |
| Layout.ExampleWrittenWalk | lamusica.py:199-212 | Ticks 1000, 1010 and 1020 at step 1 give splits 0.0, 0.0, 1025.0 and 61.8 as written. |
| Layout.ExampleCorrectedWalk | lamusica.py:199-212 | The same ticks give the single page 0.0 to 61.8 with midpoints offset by `start`. |
| Layout.WrittenSplitsOvershoot | lamusica.py:204 | For the sankyo15 box the written splits exceed the strip length and decrease, while the corrected ones do not. |
| Pipeline.ChooseShift | lamusica.py:663-666 | A shift given with `-t` is used unchanged and no count is reported. Otherwise the shift `find_transpose` picks is taken, with octaves and halftones allowed. It lies in the search range and is reported with its own unplayable count, or it is 0 with `sys.maxint` when no shift was tried, and no shift in the range beats it. |
| Pipeline.Arrange | lamusica.py:660-669 | The roll is filtered with the given gap and the shift is chosen on the filtered roll, tags included. A searched shift is `find_transpose`'s choice, with its own count and no shift in range beating it. The bands are `get_compat_band` with that shift. `mindelta` is the smallest same-pitch distance of the roll, or `sys.maxint`. |
| Pipeline.WriteMidi | lamusica.py:671-672 | The file is the `output_midi` encoding of the comb with the box's program and `mindelta` note-offs. It is produced exactly when the track payload fits the signed 32-bit length field, and it reads back as the comb. |
| Pipeline.LayOut | lamusica.py:193-216 | A strip exists exactly when some band has a tick, since `alltimes[0]` raises otherwise. Its holes are exactly those at `leadin + (n - start) * step` across and `i * dist + offset` down, one per tick, in (x, y) order. Its splits are `Layout.PageSplits`, the corrected ones of the finding at lamusica.py:204: from 0.0 to the strip length, never decreasing, each interior one at 0.0 or at the midpoint of a wide gap. |
| Pipeline.Run | lamusica.py:656-672 | An unreadable file gives its error and an empty roll fails. Any other file succeeds. Then the flow keeps the file's division, filters the imported notes, uses a given shift and then reports no unplayable count, or else takes `find_transpose`'s choice with its own count and no shift in range beating it, and maps the roll onto the teeth. `mindelta` is positive, at most `sys.maxint`, no larger than any same-pitch gap of the roll, and an actual gap when below `sys.maxint`. The outcome's MIDI file is `Pipeline.WriteMidi` of those bands and its strip is `Pipeline.LayOut` of them. When the division is not 0 and every note-off tick is below 2^28, the MIDI output reads back as the comb; the strip exists exactly when a tooth has a tick. |
| Pipeline.LegacyBoxWritable | midi.py:45-52 | midi.py's `sanyo33` has 34 teeth whose pitches all fit `chr`. |
| Pipeline.LegacyWriteMidi | midi.py:288 | The file is midi.py's `output_midi` encoding with no program change and 512-tick note-offs. It is produced exactly when the track payload fits the signed 32-bit length field, and it reads back through lamusica.py's importer as the comb. |
| Pipeline.LegacyRun | midi.py:278-288 | A read error ends the flow. Otherwise the band the reader collected from tracks 0 to 4 is mapped with `prepare_band`'s choice of shift: whole octaves, within the search range, the first losing the fewest ticks, reported with its error count, which the outcome carries. The flow succeeds exactly when mapping with that shift does; any other failure is an IndexError. The outcome's file is `Pipeline.LegacyWriteMidi` of the mapped comb and reads back as it. |

## Left out

- Rendering is not modelled: cairo drawing, page stacking and guide lines (lamusica.py:218-292), and the SVG text of midi.py.
- File reads and writes, `print` and `sys.stderr` output, getopt parsing and the usage text are not modelled. The flows take the file's bytes and return the bytes and positions that would be written. Options are parameters: the box, the repetition gap (`-f`, default 1) and an optional shift.
- The `print roll.min_repetition()` before filtering (lamusica.py:660) is not modelled. It only prints and sorts a list that is sorted again afterwards.
- The box is a parameter: an unknown box name exits before any work is done. The four boxes of lamusica.py are constants in `BoxModels`. No lemma shows that their pitches and programs fit a byte, so the flows require `BoxModels.BoxWritable`.
- `prepare_band` of lamusica.py (lines 86-151) is unused and is not modelled. Its twin in midi.py is `LegacyBand.PrepareBand`.
- Floating point: pagination uses exact reals, not IEEE doubles, and `int(end - start)` is an integer difference already.
- Python 2 dictionary order is not modelled. The `deltas` keys are always sorted before use.
- Encoder.OutputMidi: the 28-bit truncation of delta times above 2^28 is modelled, but the read-back is claimed only when every note-off tick is below 2^28 (`BoxReadBack.TicksFit`), which includes a `mindelta` of `sys.maxint`.
- BoxReadBack.OutputReadBack: needs a non-zero division, because the importer takes division 0 to mean that no header has been read.
- Pipeline.WriteMidi: states the read-back under the same two conditions.
- Pipeline.LegacyWriteMidi: states the read-back under the same two conditions.
- Pipeline.Run: its strip has the corrected splits of `Pipeline.LayOut`, not the program's as written. The read-back of its MIDI output is stated only for a non-zero division and note-off ticks below 2^28, which excludes a `mindelta` of `sys.maxint` (no repeated pitch) whenever a tooth has a tick.
- Pipeline.LayOut: builds the strip from the corrected splits, `Layout.PageSplits`, not from the splits lamusica.py:204 computes (`Layout.WrittenPageSplits`), which can overshoot the strip (see Findings). It claims non-decreasing splits only for a box with non-negative step and diameter, which holds for every box.
- Pipeline.LegacyRun: the read-back of its MIDI output is stated only for a non-zero division and note-off ticks below 2^28, as for `Pipeline.LegacyWriteMidi`.
- Pipeline.LegacySanyo33: midi.py's box has no program. 0 stands in, and midi.py's writer emits none.
- Repetition.FilterRepetition: requires a non-empty roll, because the source reads `self.notes[0]`. `Repetition.MinRepetition`, `Pipeline.Arrange` and `LegacyBand.PrepareBand` likewise require a non-empty roll or comb. `Transpose.FindTranspose` returns no shift for an empty one.
- Importer.ImportChunks: states only the invariant it keeps. How it frames chunks is stated by `Importer.ChunkFraming`.
- Integer widths: Python integers are unbounded. Only the 16-bit division, the 32-bit chunk length and the 28-bit delta time limit values, and each is modelled explicitly.

## Behaviour worth noting

- A pitch between two teeth of its class is claimed by both: each walk stops only at a tooth (lamusica.py:372-380, `Band.GapSharedByNeighbours`).
- The velocity byte is never read, so a note-on with velocity 0 is collected like any other (lamusica.py:477-480).
- The percussion check reads the importer's `cur_program`, set by the last program change of any track and never reset per track (lamusica.py:465, 478, 486).
- `min_repetition` starts from `sys.maxint` and returns it when no pitch repeats (lamusica.py:393).

## Findings

| source | as written | input that shows it | evidently intended | confidence | as-written member | corrected member |
|---|---|---|---|---|---|---|
| lamusica.py:204 | `middlepos = leadin + (alltimes[i] + alltimes[i-1]) * step / 2` measures the split from tick 0, while holes are placed at `leadin + (n - start) * step` | sankyo15 box, one tooth with ticks 1000, 1010 and 1020, `mindelta` 8: the splits come out 0.0, 0.0, 1025.0, 61.8, past the strip length of 61.8 and decreasing | midpoints measured from `start` as the holes are, giving the single page 0.0 to 61.8 | high; not executed | Layout.WrittenSplitsOvershoot | Layout.PageSplitsPartition |
