# ad2_daq_he3 in Dafny

A model of the three sequential programs of the ad2_daq_he3 data-acquisition
system, and proofs about them.

- **The acquisition script** (`daq/daq.py`, module `Daq`).
  - It writes a one-line descriptor of the subrun. It quits if no device opens.
  - For every requested event it:
    - polls the instrument until it reports Done;
    - stamps the trigger time;
    - reads the 8192-sample buffer;
    - writes a header line, the samples and an end-time line to the current chunk file.
  - A new chunk file, `<dir><file>.<index zero-padded to 4>.dat`, is opened at every tenth event.
  - The instrument and the wall clock are a `Rig` object. It reads statuses from a script, buffers from a frames function and clock readings from a clock function.
  - The files are a `Disk` object with at most one open stream.
  - How events are grouped into chunks is in module `Chunking`.
- **The launcher** (`bin/run.py`, module `Subrun`).
  - `find_newrun` takes the listing of `*.txt` descriptors. It returns `sub` followed by the index after the greatest one, `zfill(4)`-padded, or `sub0000` for an empty listing.
  - `run` is the list of actions it prints and spawns, in order. The seven-word acquisition command is one of them.
- **The converter** (`conv/conv.cpp`, module `Conv`).
  - `main` checks its arguments and builds the input and output paths.
  - Its record loop reads the chunk file word by word, following the C++ stream's extraction and fail-state rules:
    - a header word, the event id and the trigger timestamp;
    - 8192 `Short_t` samples;
    - the end timestamp.
  - The trigger timestamp is split at `.` with `getline` and `std::stoll`. Each passed record fills one tree entry.
  - The ROOT tree is the sequence of entries filled.
- Module `Text` holds the Python and C++ string operations the three programs share:
  - `str(int)` and `zfill`;
  - `str.find` and slicing;
  - `int()`;
  - Python's `str` ordering;
  - line-structured text.

The final state of each imperative operation is tied to a specification function. These are the proved properties:
- event *i* goes to chunk *i* div 10 at position *i* mod 10;
- there are ⌈N/10⌉ chunk files, each holding 10 events except the last;
- at most one chunk stream is open at a time;
- every event is 8194 lines;
- the trigger is stamped only after a Done poll;
- the timestamps are ordered under a non-decreasing clock;
- the descriptor's precedence defect;
- `find_newrun`'s continuation and wrap-past-9999 behaviour;
- the converter's field extraction, and a round trip from records to tree entries.

Behaviour of the code worth knowing:
- The descriptor is one line with no separators between the seven fields. Without the negative edge, the edge write loses its label and is the bare word `Positive`. The other six writes keep their labels.
- find_newrun takes the index from the first "sub" in the path. A run directory whose own path contains "sub" therefore makes find('sub') land inside the directory, and the index field is then not the subrun number. The edited settings' directory has no "sub".
- A descriptor whose index has fewer than four digits, such as `sub1.txt`, gives an index field like "1.tx", and int() raises ValueError.
- The event header has two spaces before the trigger timestamp: `#. <i>  <ts>`.
- The instrument statuses are DWF's seven states.
- A wait that never sees Done has no timeout. The model shows it as the `Stalled` outcome, reached when the finite status script runs out.
- `timestamp_usec_end` reads the same word as `timestamp_end`, in the whole-word way described in the Conv rows below.

## Model

| member | source | states |
|---|---|---|
| Text.NatToDecimal | bin/run.py:66 | str() of a non-negative integer: a non-empty digit string that denotes it. It has no leading zero unless the value is 0, and is one digit exactly when the value is below 10 |
| Text.IntToDecimal | daq/daq.py:56 | str() of any integer: the digits of the magnitude, after a '-' when negative |
| Text.ZFill | bin/run.py:62 | str.zfill(width): the string itself when at least width long. Otherwise zeros pad it to width, after a leading sign if there is one. It never truncates |
| Text.ZFillDigits | bin/run.py:66 | zfill of a digit string keeps it a digit string with the same value, at least width long |
| Text.IndexText | daq/daq.py:120 | str(c).zfill(4) is at least four digits, exactly four below 10000, and denotes c |
| Text.IndexTextOrder | bin/run.py:64 | below 10000, two padded indices followed by the same suffix are in str order exactly when the indices are in numeric order |
| Text.IndexTextInjective | daq/daq.py:120 | different indices give different padded texts |
| Text.DigitsValueLowerBound | bin/run.py:66 | five or more digits without a leading zero denote at least 10000, so such a field is never a four-digit index |
| Text.DigitsValueLeadingZeros | conv/conv.cpp:69 | leading zeros do not change the integer a digit string denotes |
| Text.FindFrom | bin/run.py:65 | searching from i: -1 when no occurrence starts at or after i, otherwise the first such occurrence |
| Text.Find | bin/run.py:65 | str.find: -1 exactly when the pattern occurs nowhere, otherwise the position of its first occurrence |
| Text.PySlice | bin/run.py:66 | Python slicing with clamped bounds: the ordinary slice when the bounds are in range, never longer than the string |
| Text.StripLeft | bin/run.py:66 | the result is a suffix of the string. Every character removed is whitespace that int() skips, and the result does not begin with such whitespace. A string that does not begin with whitespace is unchanged |
| Text.StripRight | bin/run.py:66 | the result is a prefix of the string. Every character removed is whitespace that int() skips, and the result does not end with such whitespace. A string that does not end with whitespace is unchanged |
| Text.PyInt | bin/run.py:66 | int() of a non-empty digit string is the number it denotes |
| Text.PyIntValueError | bin/run.py:66 | int() raises ValueError, None here, on any string holding a character that is neither a digit, whitespace nor a sign |
| Text.IntRoundTrip | bin/run.py:66 | int(str(i)) == i for every integer |
| Text.LexLe | bin/run.py:64 | the str order of sort(): a prefix sorts no later than its extensions |
| Text.LexLeFirstDifference | bin/run.py:64 | a sorts no later than b exactly when a is a prefix of b, or when a's code point is smaller at the first position where they differ |
| Text.LexLeReflexive | bin/run.py:64 | the str order of sort() is reflexive |
| Text.LexLeTotal | bin/run.py:64 | the str order is total |
| Text.LexLeAntisymmetric | bin/run.py:64 | the str order is antisymmetric |
| Text.LexLeTransitive | bin/run.py:64 | the str order is transitive |
| Text.LexLeCommonPrefix | bin/run.py:64 | a common prefix does not change the order of two strings |
| Text.LexLeEqualLength | bin/run.py:64 | two different strings of equal length decide the order whatever follows them |
| Text.LexLeDigits | bin/run.py:64 | equal-length digit strings are in str order exactly when their values are, and equal exactly when their values are |
| Text.LinesTextAppend | daq/daq.py:135-137 | writing lines a and then lines b writes the text of a followed by the text of b |
| Text.LineLength | daq/daq.py:134-140 | the first line ends at the first '\n' or at the end of the text |
| Text.SplitLinesCons | daq/daq.py:134 | a newline-free line followed by '\n' is split off as the first line |
| Text.SplitLinesText | daq/daq.py:134-140 | text written as newline-terminated, newline-free lines splits back into exactly those lines |
| Chunking.Partition | daq/daq.py:116-120 | the events in chunk order. There is a chunk exactly when there is an event, and every chunk holds 1 to 10 events |
| Chunking.PartitionSnoc | daq/daq.py:117-120 | event i starts a new chunk [e] when i mod 10 == 0 and is appended to the last chunk otherwise |
| Chunking.NewChunkExactlyAtBoundary | daq/daq.py:117 | the number of chunks grows by one exactly when i mod 10 == 0 |
| Chunking.FlattenPartition | daq/daq.py:116-142 | the chunks, concatenated, are the events in order: none lost, added or reordered |
| Chunking.PartitionShape | daq/daq.py:108-120 | N events make ⌈N/10⌉ chunks. All but the last hold 10 events, and the last holds 1 to 10 |
| Chunking.PartitionCountAtBoundary | daq/daq.py:108-120 | at a multiple of 10 the number of chunks is N/10 |
| Chunking.PartitionAt | daq/daq.py:117-120 | event i is in chunk i div 10 at position i mod 10 |
| Chunking.PartitionIndex | daq/daq.py:117-120 | position j of chunk c holds event 10c + j |
| Chunking.TwentyFiveEvents | daq/daq.py:108-120 | 25 events make three chunks of 10, 10 and 5 |
| Daq.DescriptorLabels | daq/daq.py:54-60 | there are seven writes. Six begin with their label, followed by the directory, the file name, str(entries), the trigger level, the sampling rate and the time position. The edge write begins with its label, followed by "Negative", exactly when the edge is negative, and is the bare "Positive" otherwise (the precedence defect) |
| Daq.DescriptorTextLayout | daq/daq.py:53-61 | the descriptor is as long as the seven writes together. It begins with the directory field and ends with the time-position field |
| Daq.DescriptorWritesPrintable | daq/daq.py:54-60 | with newline-free settings, no write contains a newline |
| Daq.DescriptorIsOneLine | daq/daq.py:53-61 | the descriptor is one single line: the seven writes with no separator |
| Daq.DescriptorAmbiguous | daq/daq.py:54-55 | without separators, two different settings can give the same descriptor text |
| Daq.ChunkNameLayout | daq/daq.py:120 | a chunk file name is the directory and base name, a dot, at least four digits that denote the chunk index, and ".dat". Below 10000 chunks the index takes exactly four characters |
| Daq.ChunkNameInjective | daq/daq.py:120 | different chunk indices give different chunk file names |
| Daq.ChunkNamesSortInOrder | daq/daq.py:120 | below 10000 chunks, chunk file names sort in chunk-index order, both ways |
| Daq.HeaderLayout | daq/daq.py:134 | the header is "#. ", digits that denote the event index, two spaces and the trigger stamp text |
| Daq.HeaderPrintable | daq/daq.py:134 | the header line has no newline when the trigger text has none |
| Daq.EventLinesPrintable | daq/daq.py:134-140 | every line of a printable event is newline-free |
| Daq.EventLayout | daq/daq.py:134-140 | an event's text is its header, its samples and its end stamp, each followed by '\n'. It splits back into those lines: 8194 for a full buffer |
| Daq.EventsLinesPrintable | daq/daq.py:134-140 | every line of a run of printable events is newline-free |
| Daq.EventsLayout | daq/daq.py:134-140 | the text of consecutive events splits back into their lines, 8194 per event |
| Daq.AppendToLast | daq/daq.py:134 | a write changes the contents of the open file and never the number of files |
| Daq.AppendNothing | daq/daq.py:134 | writing "" changes nothing |
| Daq.AppendTwice | daq/daq.py:136-137 | two writes to the open file are one write of their concatenation |
| Daq.AppendAfter | daq/daq.py:134 | a write touches only the last file, not the earlier ones |
| Daq.FilesOf | daq/daq.py:116-120 | group c of events goes to a file named ChunkName(p, c) holding the text of exactly those events, one file per group |
| Daq.ChunkFiles | daq/daq.py:116-120 | exactly one chunk file per chunk of events |
| Daq.FilesOfNewGroup | daq/daq.py:117-120 | a new group adds one file, named with the next chunk index, holding the event |
| Daq.FilesOfExtendLast | daq/daq.py:134-140 | extending the last group appends the event's text to the last file |
| Daq.EventsTextSnoc | daq/daq.py:134-140 | the text of events followed by e is their text followed by e's text |
| Daq.ChunkFilesNewChunk | daq/daq.py:117-120 | at i mod 10 == 0 the next event opens the file of chunk i/10 holding only that event |
| Daq.ChunkFilesSameChunk | daq/daq.py:117-120 | otherwise the next event's text is appended to the last chunk file |
| Daq.RolloverStep | daq/daq.py:116-140 | the rollover followed by writing event i leaves exactly the chunk files of the first i+1 events |
| Daq.Disk.constructor | daq/daq.py:53 | no files, none open |
| Daq.Disk.Create | daq/daq.py:120 | open(name, 'w'), allowed only with no stream open: a new empty file follows the others and is the open stream |
| Daq.Disk.Write | daq/daq.py:134 | the text is appended to the open file and nothing else changes |
| Daq.Disk.Close | daq/daq.py:119 | no stream is open afterwards and the contents are unchanged |
| Daq.Rig.constructor | daq/daq.py:80 | the rig with its script, frames and clock; nothing polled, read or stamped yet |
| Daq.Rig.Poll | daq/daq.py:125 | FDwfAnalogInStatus: the next status of the script, recorded in the trace |
| Daq.Rig.Now | daq/daq.py:127 | datetime.now(): the next clock reading, recorded in the trace |
| Daq.Rig.Fetch | daq/daq.py:131 | FDwfAnalogInStatusData: the buffer receives the next frame in place, recorded in the trace |
| Daq.PollTrace | daq/daq.py:125 | one Polled observation per status, in order |
| Daq.WaitForTrigger | daq/daq.py:124-129 | polls until the first Done, then stamps it. The statuses polled are the next ones of the script, and none before the last is Done. When the script runs out without a Done, no stamp is taken |
| Daq.PollTraceSnoc | daq/daq.py:124-126 | one more poll extends the poll trace by that status |
| Daq.WriteSamples | daq/daq.py:135-137 | each buffer value is written followed by '\n', in index order |
| Daq.AppendLine | daq/daq.py:136-137 | writing the last sample and then '\n' completes the text of all the sample lines |
| Daq.WriteDescriptor | daq/daq.py:53-61 | one new closed file `<dir><file>.txt` holding exactly the descriptor text |
| Daq.AcquireEvent | daq/daq.py:124-140 | on Done: the event's index, its wait ending in Done, its trigger and end stamps (two consecutive clock readings) and the next buffer. The open file gains exactly the event's text. Otherwise the script is exhausted and nothing is written |
| Daq.RecordEvent | daq/daq.py:131-140 | reads the buffer, writes header, samples and end stamp, and stamps the end after the read |
| Daq.EventAppend | daq/daq.py:134-140 | the four writes of an event append exactly its text |
| Daq.AcquiredSnoc | daq/daq.py:124-140 | an event taken from the next clock readings and the next buffer extends the acquired events |
| Daq.Rollover | daq/daq.py:117-120 | at i mod 10 == 0 the open file (unless i == 0) is closed and chunk i/10 opened. Otherwise nothing changes |
| Daq.NextEvent | daq/daq.py:116-140 | one pass keeps the loop invariant with one more event, or ends Stalled with the rollover's file open |
| Daq.ProgressStep | daq/daq.py:116-140 | the loop invariant survives a written event |
| Daq.StallStep | daq/daq.py:124-129 | an exhausted wait leaves the Stalled state |
| Daq.WaitsStep | daq/daq.py:124-129 | the polls of all events are consecutive stretches of the script |
| Daq.TraceStep | daq/daq.py:124-140 | each event's observations follow those of the events before it |
| Daq.SessionSnoc | daq/daq.py:124-140 | the observations and polls of events followed by e are theirs followed by e's |
| Daq.EventLoop | daq/daq.py:116-142 | the loop ends Completed or Stalled. Completed: exactly max(entries, 0) events, the chunk files of those events after the earlier files, and all files closed. Stalled: fewer events, and the last rollover's file still open |
| Daq.Acquire | daq/daq.py:53-142 | the descriptor comes first. With no device the result is OpenFailed, with no chunk file opened and nothing taken from the instrument. Otherwise it is the event loop's result |
| Daq.AcquiredPrintable | daq/daq.py:134-140 | with newline-free stamps and samples, every acquired event is printable with 8192 samples |
| Daq.ChunkFileAt | daq/daq.py:116-120 | chunk file c is named ChunkName(p, c) and holds the text of chunk c |
| Daq.ChunkContents | daq/daq.py:116-140 | chunk file c splits into the lines of its events, 8194 per event. Its position j holds event 10c + j, whose header carries index 10c + j |
| Daq.MonotoneRange | daq/daq.py:127 | a non-decreasing clock read later never reads earlier |
| Daq.TimestampsOrdered | daq/daq.py:124-138 | under a non-decreasing clock, for i < j: trigger(i) ≤ end(i) ≤ trigger(j) ≤ end(j) |
| Daq.TriggerStampOnDone | daq/daq.py:124-140 | each event observes its polls, of which only the last is Done, then the trigger stamp, the buffer read and the end stamp, in that order |
| Subrun.Greatest | bin/run.py:64 | files[0] after sort(reverse=True) is one of the files |
| Subrun.GreatestIsMaximum | bin/run.py:64 | files[0] after sort(reverse=True) is at least every file in str order |
| Subrun.FindNewRun | bin/run.py:56-66 | an empty listing gives "sub0000". Any result starts with "sub" and has at least 7 characters |
| Subrun.IndexField | bin/run.py:65-66 | files[0][num_pos+3:num_pos+7]: at most four characters. When "sub" occurs with four characters after it, they are those four characters. Without "sub", num_pos is -1 and the field is characters 2 to 5 |
| Subrun.HeaderPosition | bin/run.py:65 | find('sub') in a descriptor path is the position of its subrun name |
| Subrun.HeaderAt | bin/run.py:65 | in a directory with no "sub" of its own, find('sub') on any path that continues with "sub" lands just after the directory |
| Subrun.NoLetterS | bin/run.py:65 | a directory path without the letter 's' has no "sub" of its own |
| Subrun.EditedDirHasNoHeader | bin/run.py:13-25 | the run directory of the edited settings, `/home/pi/ad2/data/20200705/`, has no "sub" of its own |
| Subrun.ShortIndexRaises | bin/run.py:64-66 | a listing holding only `sub1.txt` makes the index field "1.tx", and find_newrun raises ValueError |
| Subrun.DescriptorIndexField | bin/run.py:65-66 | the four characters after "sub" in a descriptor path are its padded index, and int() reads them back |
| Subrun.DescriptorOrder | bin/run.py:64 | below 10000, descriptor paths sort in index order, both ways |
| Subrun.DescriptorPathInjective | daq/daq.py:53 | different subruns have different descriptor paths |
| Subrun.NextAfterGreatest | bin/run.py:64-66 | when the greatest path is the descriptor of subrun k < 10000, the result is the name of subrun k+1 |
| Subrun.NextAfterLargest | bin/run.py:64-66 | for a listing of descriptors below 10000, the result is the name after the largest index. It is greater than every existing index and not yet in the listing |
| Subrun.EightSubrunsThenSub0008 | bin/run.py:64-66 | sub0000…sub0007 give "sub0008" |
| Subrun.Sub10000 | bin/run.py:66 | zfill pads but never truncates: subrun 10000 is "sub10000" |
| Subrun.AfterSub9999 | bin/run.py:66 | a listing of sub9999 gives "sub10000" |
| Subrun.Sub9999SortsLast | bin/run.py:64 | sub9999.txt sorts after sub10000.txt |
| Subrun.RepeatsAfterSub10000 | bin/run.py:64-66 | with sub9999 and sub10000 present the result is again "sub10000", the existing subrun |
| Subrun.ListingOrderIrrelevant | bin/run.py:60-64 | the result depends only on which files are listed, not on their order, so a repeated call on the same directory returns the same name |
| Subrun.Command | bin/run.py:31-38 | seven words in this order: the program, the frequency, the trigger level, the trigger type, the trigger position, str(entries), and a path made of the run directory, "/" and the subrun name |
| Subrun.CommandEntries | bin/run.py:36 | int() reads the number-of-events word back as the configured number |
| Subrun.Run | bin/run.py:25-46 | run() happens exactly when find_newrun succeeds. It does five actions, of which only the second and fourth start programs: `mkdir -p` of the run directory, then the acquisition command, which is printed just before it. The first action prints the manual copy hint with the run directory, and the last prints the autocopy line with the date directory name |
| Subrun.FirstRunOfTheDay | bin/run.py:13-43 | with the edited settings and no descriptors, the acquisition command is the literal seven words ending in `20200705/sub0000` |
| Subrun.EditedCommand | bin/run.py:13-38 | the edited settings give that command for sub0000 |
| Subrun.SpacedNoNewline | bin/run.py:50-52 | newline-free words print without a newline |
| Subrun.PrintedLineIsOneLine | bin/run.py:50-53 | print_cmd prints one line: every word followed by a space |
| Conv.InputPath | conv/conv.cpp:35 | the input path is DATA_DIR, the run name and "/", then the file name, then ".dat" |
| Conv.OutputPath | conv/conv.cpp:50 | the output path is ROOT_DIR, the run name and "/", then the file name, then ".root" |
| Conv.ReadsTheChunkFile | conv/conv.cpp:35 | with the acquisition's data directory under DATA_DIR, the input path of `<file>.<index>` is exactly the chunk file the acquisition wrote |
| Conv.PathsMirror | conv/conv.cpp:35-50 | input DATA_DIR/run/file.dat and output ROOT_DIR/run/file.root share run/file. The output lies in the directory that mkdir creates |
| Conv.CSkipSpace | conv/conv.cpp:67 | the result is a suffix of the string. Every character skipped is C-locale whitespace, and the result does not begin with one |
| Conv.DigitRun | conv/conv.cpp:67 | the longest run of decimal digits from position i |
| Conv.SignedPrefix | conv/conv.cpp:67 | an optional leading sign, negative exactly for '-', then the run of digits right after it. The number of characters taken is the sign plus the digits, and the next character, if any, is not a digit |
| Conv.Stoll | conv/conv.cpp:67 | std::stoll after the leading whitespace and an optional sign. It throws (None) exactly when there is no digit or the signed value is outside the long long range. Otherwise it returns that value |
| Conv.Before | conv/conv.cpp:66 | what getline leaves in token: the word up to the first occurrence of the delimiter, the whole word when the delimiter is absent |
| Conv.Wrap | conv/conv.cpp:67 | storing into an unsigned type: a value below the modulus that differs from the stored value by a multiple of the modulus, unchanged when it already fits |
| Conv.Consume | conv/conv.cpp:72 | a number read from the front of a word leaves less input |
| Conv.ReadWord | conv/conv.cpp:63 | `>> string`: on success the next word, and that word followed by the rest is the input before. On failure the target is unchanged |
| Conv.ReadShort | conv/conv.cpp:72 | `>> Short_t`: a failed stream changes nothing. Any stored value is in the Short_t range, or the prior value |
| Conv.ReadU64 | conv/conv.cpp:63 | `>> ULong64_t`: a failed stream changes nothing; a successful read is below 2^64 |
| Conv.ReadSamples | conv/conv.cpp:71-74 | exactly n values, stored in index order |
| Conv.SplitTrigger | conv/conv.cpp:65-69 | seconds fit ULong64_t and timestamp_usec fits UInt_t |
| Conv.ReadEntry | conv/conv.cpp:63-83 | a filled entry has 8192 samples, an event id below 2^64, and timestamp_usec_end taken from the same word as timestamp_end. A failed stream ends the loop |
| Conv.ReadBody | conv/conv.cpp:65-81 | the entry keeps the header's event id and 8192 samples, with timestamp_usec_end == timestamp_end mod 2^32 |
| Conv.WrapTwice | conv/conv.cpp:79-81 | the same stoll value stored into ULong64_t and then UInt_t equals it stored directly into UInt_t |
| Conv.Decode | conv/conv.cpp:63-84 | a failed stream fills nothing; every entry filled is full |
| Conv.AllFilledAt | conv/conv.cpp:71-83 | every filled entry has 8192 samples and the usec_end relation |
| Conv.ReadWaveform | conv/conv.cpp:71-74 | the sample loop writes into wf the 8192 values extracted, in order, and leaves the stream and buf1 as the extractions do |
| Conv.DecodeOneStep | conv/conv.cpp:63-84 | each pass ends the loop, aborts it, or fills one entry in front of what the rest fills |
| Conv.DecodeNext | conv/conv.cpp:63-84 | an entry filled is followed by the entries of the rest of the input |
| Conv.ReadRecord | conv/conv.cpp:63-83 | one pass of the loop body yields exactly the step of the specification ReadEntry |
| Conv.PendingNext | conv/conv.cpp:83 | filling an entry keeps "filled so far + rest = whole" |
| Conv.PendingEnd | conv/conv.cpp:63 | when the loop ends, the entries filled are all of them |
| Conv.ReadRecords | conv/conv.cpp:60-84 | the record loop fills exactly the entries Decode gives, in file order, and reports whether stoll threw |
| Conv.Convert | conv/conv.cpp:20-89 | argc != 3 exactly when the result is Usage. The input path opens or the result is CannotOpen. The code is -1 for both, 0 after the tree is written, and none when an exception ends the program |
| Conv.HeaderWordIgnored | conv/conv.cpp:63 | the first header word is read but never checked: any word there gives the same entries |
| Conv.NoDot | conv/conv.cpp:66 | a digit string has no '.' |
| Conv.DotAfterDigits | conv/conv.cpp:66 | the first '.' after a digit run is at its end |
| Conv.DigitRunAll | conv/conv.cpp:67 | in a digit string the digit run reaches the end |
| Conv.DigitRunStops | conv/conv.cpp:67 | the digit run stops at the first non-digit |
| Conv.SignedPrefixDigits | conv/conv.cpp:67 | the number at the front of digits followed by a non-digit is those digits |
| Conv.StollDigits | conv/conv.cpp:67 | stoll of digits followed by anything else is their value, when it fits |
| Conv.SignedPrefixDecimal | conv/conv.cpp:72 | the signed prefix of str(v) is its sign and all its digits |
| Conv.ReadU64Decimal | conv/conv.cpp:63 | the decimal event id reads back as itself and consumes its word |
| Conv.ReadShortDecimal | conv/conv.cpp:72 | a decimal sample in range reads back as itself and consumes its word |
| Conv.ReadSampleWords | conv/conv.cpp:71-74 | 8192 decimal sample words read back as those values, in order, with buf1 left at the last |
| Conv.SamplesStep | conv/conv.cpp:71-74 | one more extraction appends its value to the samples |
| Conv.SplitTriggerDecimal | conv/conv.cpp:65-69 | "sec.frac" splits into sec and the integer value of frac (mod 2^32), not scaled to microseconds |
| Conv.SplitTriggerDigits | conv/conv.cpp:65-69 | the same split for any digit string before the point |
| Conv.SplitTriggerAt | conv/conv.cpp:65-69 | with a '.', seconds come from before it and timestamp_usec from the text up to the next '.' |
| Conv.StollWhole | conv/conv.cpp:67 | stoll of a digit string that fits is its value |
| Conv.LeadingZerosLost | conv/conv.cpp:68-69 | zeros after the point are lost: "s.05" and "s.5" give the same timestamp_usec |
| Conv.LeadingZerosDigits | conv/conv.cpp:68-69 | the same for any digit string before the point |
| Conv.NoPointRepeatsSeconds | conv/conv.cpp:65-69 | a timestamp without '.' gives timestamp_usec from the whole word too |
| Conv.TrailingPointAborts | conv/conv.cpp:68-69 | "sec." leaves an empty token, on which stoll throws |
| Conv.EndSeconds | conv/conv.cpp:76-79 | timestamp_end is the integer part of the end stamp, stoll stopping at the '.' |
| Conv.EndDigits | conv/conv.cpp:76-79 | the same for any digit string before the point |
| Conv.ReadRecordWords | conv/conv.cpp:63-83 | the words `#. id sec.frac`, 8192 samples and `end.frac` are one pass. It fills the expected entry and leaves the stream just after them |
| Conv.ReadRecordBody | conv/conv.cpp:65-81 | the same once the header has been read |
| Conv.ReadBodyOf | conv/conv.cpp:65-81 | the entry is built from the split trigger, the samples and the end stamp read |
| Conv.RoundTrip | conv/conv.cpp:63-84 | any sequence of well-formed records is converted into exactly their expected entries, in order, with no abort |
| Conv.RecordThenRest | conv/conv.cpp:63-84 | a well-formed record at the front converts to its entry followed by the entries of the rest |

## Left out

- The DWF driver calls through ctypes (`daq/daq.py`:64-106, 114, 143-144): library loading, device configuration, arming and closing are foreign calls. Only the device-open outcome, status polls and buffer reads are modelled, through the `Rig` oracle.
- The 2 s settle delay and the 1 ms poll sleep: timing has no logical content here.
- Real wall-clock values and float formatting: `datetime.now()`, `str()` of floats and of `c_double`, and the sample values are opaque texts. An abstract clock value orders the stamps.
- Argument parsing and the verbose prints of `daq.py` (lines 23-51): this is command-line glue. `Params` holds the parsed values.
- Console output: the console lines of `daq.py` and the usage and path lines of `conv.cpp` are not modelled. `run.py`'s printed lines are modelled as `Echo` values.
- `subprocess.run`, `glob` and `mkdir`: the glob result is an input listing, and the spawned commands and `mkdir` calls are `Action` values. `conv.cpp`'s `mkdir` and `TFile::Open` are the output directory and path in its `Exit` value.
- The unbounded `auto_run` loop (`bin/run.py`:69-73): it never ends and only repeats `run()`.
- ROOT's `TTree` and `TFile`: the tree is the sequence of entries filled. `Write` and `Close` are the `Converted` exit.
- The float scaling `buf1/65536.`: `wf` holds the `Short_t` values extracted, before the division.
- Conv.RoundTrip: it reads records whose samples are `Short_t` decimal words. It does not claim that the floating-point text `daq.py` writes converts back: those samples are doubles, and `>>` into `Short_t` stops at their decimal point.
- Conv.ReadRecords: the input is the file's whitespace-separated words. How whitespace separates them, and what `>>` does inside a word after a number ends there, cover only the cases the reader functions state.
- Conv.ReadRecords (the `initial` parameter): the indeterminate initial value of `buf1` is a parameter. It is observed only when the input ends right after the first header.
- Text.PyInt: it does not accept the underscores between digits or the non-ASCII digits Python's `int()` allows. The whitespace it strips is the set `str.isspace()` accepts, as listed in Text.IsSpace.
- Daq.Disk.Create: it always succeeds. `open()` in `daq/daq.py`:53 and :120 raises OSError, for example when the directory is missing because `daq.py` was started without `run.py`'s `mkdir -p`. The model has no error path for it.
- Daq.Disk.Write: it always succeeds. A failing `f.write` raises in the code and is not modelled.
- Daq.ChunkName: the chunk index is the exact quotient `i / 10`. `daq/daq.py`:120 computes `int(iTrigger/event_in_file)` through float division, which gives the same result only while the event index is below 2^53.
- Daq.WaitForTrigger: the poll loop of the code runs until Done with no bound. The model's status script is finite, and its exhaustion is the `Stalled` outcome rather than a hang.
