/** The converter conv/conv.cpp: it reads one chunk file written by the
    acquisition and appends one tree entry per event record to a ROOT tree.

    The input file is the sequence of its whitespace-separated words, and the
    C++ stream is a `Reader` over them with the stream's fail state; the ROOT
    tree is the sequence of entries filled, in order. */
module Conv {
  import opened Text
  import Daq

  const DATA_DIR := "/home/mzks/ad2/data/"
  const ROOT_DIR := "/home/mzks/ad2/rootfile/"

  /** The length of the wf branch, Float_t wf[8192]. */
  const WF_BINS: nat := 8192

  const U64: nat := 0x1_0000_0000_0000_0000
  const U32: nat := 0x1_0000_0000
  const LLONG_MIN: int := -0x8000_0000_0000_0000
  const LLONG_MAX: int := 0x7fff_ffff_ffff_ffff
  const SHORT_MIN: int := -0x8000
  const SHORT_MAX: int := 0x7fff

  // ---------------------------------------------------------------------------
  // Paths

  /** The input is `file` with ".dat" appended, inside the run's directory under DATA_DIR. */
  function InputPath(run: string, file: string): (path: string)
    ensures var dir := DATA_DIR + run + "/";
      |path| == |dir| + |file| + 4 && path[..|dir|] == dir &&
      path[|dir|..|path| - 4] == file && path[|path| - 4..] == ".dat"
  {
    DATA_DIR + run + "/" + file + ".dat"
  }

  function OutputDir(run: string): string
  {
    ROOT_DIR + run
  }

  /** The output is `file` with ".root" appended, inside the run's directory under ROOT_DIR. */
  function OutputPath(run: string, file: string): (path: string)
    ensures var dir := OutputDir(run) + "/";
      |path| == |dir| + |file| + 5 && path[..|dir|] == dir &&
      path[|dir|..|path| - 5] == file && path[|path| - 5..] == ".root"
  {
    OutputDir(run) + "/" + file + ".root"
  }

  /** Given the subrun's file name followed by the chunk index, the converter
      reads exactly the chunk file the acquisition wrote into the run directory. */
  lemma ReadsTheChunkFile(p: Daq.Params, run: string, c: nat)
    requires p.dirName == DATA_DIR + run + "/"
    ensures InputPath(run, p.fileName + "." + IndexText(c)) == Daq.ChunkName(p, c)
  {
  }

  /** The output mirrors the input: the same run and file name under the ROOT
      directory instead of the data directory, with .root for .dat, and it lies
      inside the directory created for the run. */
  lemma PathsMirror(run: string, file: string)
    ensures var rel := run + "/" + file;
      InputPath(run, file) == DATA_DIR + rel + ".dat" &&
      OutputPath(run, file) == ROOT_DIR + rel + ".root"
    ensures OutputPath(run, file)[..|OutputDir(run)| + 1] == OutputDir(run) + "/"
  {
  }

  // ---------------------------------------------------------------------------
  // The C library's number parsing

  /** isspace in the C locale. */
  predicate CSpace(c: char)
  {
    c == ' ' || 9 <= c as int <= 13
  }

  function CSkipSpace(s: string): (r: string)
    ensures |r| <= |s| && r == s[|s| - |r|..]
    ensures forall k :: 0 <= k < |s| - |r| ==> CSpace(s[k])
    ensures r == [] || !CSpace(r[0])
    ensures (s == [] || !CSpace(s[0])) ==> r == s
  {
    if s != [] && CSpace(s[0]) then
      var r := CSkipSpace(s[1..]);
      assert s[1..][|s| - 1 - |r|..] == s[|s| - |r|..];
      assert forall k :: 1 <= k < |s| - |r| ==> s[k] == s[1..][k - 1];
      r
    else s
  }

  /** The number of decimal digits in s from position i on. */
  function DigitRun(s: string, i: nat): (n: nat)
    requires i <= |s|
    ensures i + n <= |s| && AllDigits(s[i..i + n])
    ensures i + n < |s| ==> !IsDigit(s[i + n])
    decreases |s| - i
  {
    if i < |s| && IsDigit(s[i]) then
      var m := DigitRun(s, i + 1);
      assert s[i..i + 1 + m] == [s[i]] + s[i + 1..i + 1 + m];
      1 + m
    else 0
  }

  /** An optional sign followed by the longest run of decimal digits. */
  datatype Prefix = Prefix(negative: bool, digits: string, consumed: nat)

  function SignedPrefix(s: string): (p: Prefix)
    ensures AllDigits(p.digits) && p.consumed <= |s|
    ensures p.digits != [] ==> p.consumed > 0
    ensures p.negative <==> |s| > 0 && s[0] == '-'
    ensures p.consumed == |p.digits| + (if |s| > 0 && (s[0] == '+' || s[0] == '-') then 1 else 0)
    ensures p.digits == s[p.consumed - |p.digits|..p.consumed]
    ensures p.consumed < |s| ==> !IsDigit(s[p.consumed])
  {
    var start := if |s| > 0 && (s[0] == '+' || s[0] == '-') then 1 else 0;
    var n := DigitRun(s, start);
    Prefix(start == 1 && s[0] == '-', s[start..start + n], start + n)
  }

  function SignedValue(p: Prefix): int
    requires AllDigits(p.digits)
  {
    if p.negative then -(DigitsValue(p.digits) as int) else DigitsValue(p.digits)
  }

  /** std::stoll: leading white space, a sign and digits, anything after them
      ignored; None stands for the invalid_argument or out_of_range it throws. */
  function Stoll(s: string): (r: Option<int>)
    ensures r.Some? ==> LLONG_MIN <= r.value <= LLONG_MAX
    ensures var p := SignedPrefix(CSkipSpace(s));
      (r.None? <==> p.digits == [] || SignedValue(p) < LLONG_MIN || LLONG_MAX < SignedValue(p))
      && (r.Some? ==> r.value == SignedValue(p))
  {
    var p := SignedPrefix(CSkipSpace(s));
    if p.digits == [] then None
    else if LLONG_MIN <= SignedValue(p) <= LLONG_MAX then Some(SignedValue(p))
    else None
  }

  /** What std::getline with a delimiter leaves in its string when it finds
      characters: everything before the first delimiter, or all of s. */
  function Before(s: string, delim: string): (r: string)
    ensures |r| <= |s| && r == s[..|r|]
    ensures Find(s, delim) == -1 ==> r == s
    ensures Find(s, delim) != -1 ==> r == s[..Find(s, delim)]
  {
    var i := Find(s, delim);
    if i == -1 then s else s[..i]
  }

  /** A value converted to an unsigned type of m values: reduced modulo m. */
  lemma ProductBounds(a: int, m: nat)
    ensures a >= 1 ==> a * m >= m
    ensures a <= -1 ==> a * m + m <= 0
  {
    if a >= 1 {
      assert a * m == (a - 1) * m + m;
    } else if a <= -1 {
      assert a * m == -((-a - 1) * m) - m;
    }
  }

  /** A multiple of m leaves no remainder. */
  lemma MultipleMod(q: int, m: nat)
    requires m > 0
    ensures (q * m) % m == 0
  {
    var d := (q * m) / m;
    assert (q - d) * m == q * m - d * m;
    ProductBounds(q - d, m);
  }

  function Wrap(v: int, m: nat): (r: nat)
    requires m > 0
    ensures r < m && (0 <= v < m ==> r == v)
    ensures (v - r) % m == 0
  {
    MultipleMod(v / m, m);
    assert v - v % m == (v / m) * m;
    v % m
  }

  // ---------------------------------------------------------------------------
  // The input stream

  /** The words not yet extracted, and whether the stream has failed. Once it
      has failed, every extraction leaves its target unchanged. */
  datatype Reader = Reader(rest: seq<string>, failed: bool)

  /** The stream after an extraction, and the value of its target. */
  datatype Got<T> = Got(reader: Reader, value: T)

  /** How much input is left: characters plus separators. */
  function Size(rest: seq<string>): nat
    decreases |rest|
  {
    if rest == [] then 0 else |rest[0]| + 1 + Size(rest[1..])
  }

  /** The head word loses its first k characters; a number read from the
      front of a word leaves the remainder of the word in the stream. */
  function Consume(rest: seq<string>, k: nat): (r: seq<string>)
    requires rest != [] && 0 < k <= |rest[0]|
    ensures Size(r) < Size(rest)
  {
    if k == |rest[0]| then rest[1..]
    else
      var r := [rest[0][k..]] + rest[1..];
      assert r[0] == rest[0][k..] && r[1..] == rest[1..];
      r
  }

  /** `ifs >> s` for a std::string s: the next word. */
  function ReadWord(r: Reader, prior: string): (g: Got<string>)
    ensures Size(g.reader.rest) <= Size(r.rest)
    ensures !g.reader.failed ==> !r.failed && Size(g.reader.rest) < Size(r.rest)
    ensures g.reader.failed ==> g.value == prior
    ensures !g.reader.failed ==> [g.value] + g.reader.rest == r.rest
  {
    if r.failed || r.rest == [] then Got(Reader(r.rest, true), prior)
    else Got(Reader(r.rest[1..], false), r.rest[0])
  }

  /** `ifs >> n` for a Short_t n: a number is read as a long and stored when
      it fits, otherwise the nearest bound is stored and the stream fails; no
      digits at all store 0 and fail the stream. */
  function ReadShort(r: Reader, prior: int): (g: Got<int>)
    ensures Size(g.reader.rest) <= Size(r.rest)
    ensures !g.reader.failed ==> !r.failed && Size(g.reader.rest) < Size(r.rest)
    ensures r.failed ==> g == Got(r, prior)
    ensures g.value == prior || SHORT_MIN <= g.value <= SHORT_MAX
  {
    if r.failed || r.rest == [] then Got(Reader(r.rest, true), prior)
    else
      var p := SignedPrefix(r.rest[0]);
      if p.digits == [] then Got(Reader(r.rest, true), 0)
      else
        var v := SignedValue(p);
        var next := Consume(r.rest, p.consumed);
        if v < SHORT_MIN then Got(Reader(next, true), SHORT_MIN)
        else if v > SHORT_MAX then Got(Reader(next, true), SHORT_MAX)
        else Got(Reader(next, false), v)
  }

  /** `ifs >> n` for a ULong64_t n: a minus sign negates modulo 2^64; a
      magnitude beyond 2^64 - 1 stores the maximum and fails the stream. */
  function ReadU64(r: Reader, prior: nat): (g: Got<nat>)
    ensures Size(g.reader.rest) <= Size(r.rest)
    ensures !g.reader.failed ==> !r.failed && Size(g.reader.rest) < Size(r.rest)
    ensures r.failed ==> g == Got(r, prior)
    ensures !g.reader.failed ==> g.value < U64
  {
    if r.failed || r.rest == [] then Got(Reader(r.rest, true), prior)
    else
      var p := SignedPrefix(r.rest[0]);
      if p.digits == [] then Got(Reader(r.rest, true), 0)
      else
        var mag := DigitsValue(p.digits);
        var next := Consume(r.rest, p.consumed);
        if mag >= U64 then Got(Reader(next, true), U64 - 1)
        else Got(Reader(next, false), if p.negative then Wrap(-(mag as int), U64) else mag)
  }

  /** The stream after n samples, the last value stored in buf1, and the
      values stored in wf[0], …, wf[n-1]. */
  datatype Samples = Samples(reader: Reader, last: int, values: seq<int>)

  function ReadSamples(r: Reader, b: int, n: nat): (s: Samples)
    ensures |s.values| == n
    ensures Size(s.reader.rest) <= Size(r.rest)
    decreases n
  {
    if n == 0 then Samples(r, b, [])
    else
      var s := ReadSamples(r, b, n - 1);
      var g := ReadShort(s.reader, s.last);
      Samples(g.reader, g.value, s.values + [g.value])
  }

  // ---------------------------------------------------------------------------
  // Records

  /** The trigger timestamp split at the first '.': seconds as ULong64_t and
      the digits after the point as UInt_t, read as an integer. */
  datatype Trigger = Trigger(seconds: nat, usec: nat)

  /** Two getline calls with '.' and two stoll calls. Without a '.', the first
      getline reaches the end of the word, the second one fails and leaves the
      word in place, so both fields are read from the whole word; a '.' with
      nothing after it leaves the second getline an empty string, on which
      stoll throws. */
  function SplitTrigger(ts: string): (r: Option<Trigger>)
    ensures r.Some? ==> r.value.seconds < U64 && r.value.usec < U32
  {
    var i := Find(ts, ".");
    if i == -1 then
      match Stoll(ts)
      case None => None
      case Some(v) => Some(Trigger(Wrap(v, U64), Wrap(v, U32)))
    else
      var second := Before(ts[i + 1..], ".");
      match Stoll(ts[..i])
      case None => None
      case Some(s) =>
        match Stoll(second)
        case None => None
        case Some(u) => Some(Trigger(Wrap(s, U64), Wrap(u, U32)))
  }

  /** One entry of the tree: the five integer branches and the stored samples. */
  datatype Entry = Entry(eventid: nat, timestamp: nat, timestampUsec: nat, timestampEnd: nat, timestampUsecEnd: nat,
                         wf: seq<int>)

  /** One pass of the record loop: the loop ends (a header word, the event id
      or the timestamp word could not be read), the program is aborted by an
      exception of stoll, or one entry is filled. */
  datatype Step = Stop | Abort | Next(entry: Entry, reader: Reader, last: int)

  /** The values buf, eventid and buf_ts held before the header is read are
      never observed: when one of the three extractions fails the loop ends. */
  function ReadEntry(r: Reader, b: int): (s: Step)
    ensures s.Next? ==> Size(s.reader.rest) < Size(r.rest)
    ensures s.Next? ==> Filled(s.entry) && s.entry.eventid < U64
    ensures r.failed ==> s == Stop
  {
    var g1 := ReadWord(r, "");
    var g2 := ReadU64(g1.reader, 0);
    var g3 := ReadWord(g2.reader, "");
    if g3.reader.failed then Stop
    else ReadBody(g3.reader, b, g2.value, g3.value)
  }

  /** The rest of a record once its header has been read: the trigger split,
      the samples and the end timestamp. A word holds no space, so the first
      getline with ' ' takes the whole word and reaches its end; the second one
      fails and leaves that word in token, and timestamp_usec_end is read from
      the same word as timestamp_end. */
  function ReadBody(r: Reader, b: int, eventid: nat, ts: string): (s: Step)
    ensures s.Next? ==> Size(s.reader.rest) <= Size(r.rest)
    ensures s.Next? ==> |s.entry.wf| == WF_BINS && s.entry.eventid == eventid
    ensures s.Next? ==> s.entry.timestampUsecEnd == s.entry.timestampEnd % U32
  {
    match SplitTrigger(ts)
    case None => Abort
    case Some(t) =>
      var s := ReadSamples(r, b, WF_BINS);
      var g5 := ReadWord(s.reader, ts);
      match Stoll(Before(g5.value, " "))
      case None => Abort
      case Some(e) =>
        WrapTwice(e);
        Next(Entry(eventid, t.seconds, t.usec, Wrap(e, U64), Wrap(e, U32), s.values), g5.reader, s.last)
  }

  /** Reducing modulo 2^64 and then 2^32 is reducing modulo 2^32. */
  lemma WrapTwice(e: int)
    ensures Wrap(e, U64) % U32 == Wrap(e, U32)
  {
    var q := e / U64;
    assert U64 == U32 * U32;
    assert e == Wrap(e, U64) + U32 * (U32 * q);
    MultipleVanishes(Wrap(e, U64), U32 * q);
  }

  lemma MultipleVanishes(m: int, k: int)
    ensures (m + U32 * k) % U32 == m % U32
  {
  }

  /** The entries filled, in order, and whether an exception ended the program. */
  datatype Decoded = Decoded(entries: seq<Entry>, aborted: bool)

  function Decode(r: Reader, b: int): (d: Decoded)
    ensures r.failed ==> d == Decoded([], false)
    ensures AllFilled(d.entries)
    decreases Size(r.rest)
  {
    match ReadEntry(r, b)
    case Stop => Decoded([], false)
    case Abort => Decoded([], true)
    case Next(e, next, last) =>
      var d := Decode(next, last);
      assert ([e] + d.entries)[1..] == d.entries;
      Decoded([e] + d.entries, d.aborted)
  }

  /** What one pass fills: 8192 samples, and timestamp_usec_end read from the
      same word as timestamp_end. */
  predicate Filled(e: Entry)
  {
    |e.wf| == WF_BINS && e.timestampUsecEnd == e.timestampEnd % U32
  }

  predicate AllFilled(es: seq<Entry>)
    decreases |es|
  {
    es == [] || (Filled(es[0]) && AllFilled(es[1..]))
  }

  lemma {:induction false} AllFilledAt(es: seq<Entry>, k: nat)
    requires AllFilled(es) && k < |es|
    ensures Filled(es[k])
    decreases k
  {
    if k > 0 {
      AllFilledAt(es[1..], k - 1);
    }
  }

  /** The sample loop of one record: buf1 is extracted 8192 times and each
      value is stored in wf in turn. */
  method ReadWaveform(r0: Reader, b0: int, wf: array<int>) returns (r: Reader, buf1: int)
    requires wf.Length == WF_BINS
    modifies wf
    ensures Samples(r, buf1, wf[..]) == ReadSamples(r0, b0, WF_BINS)
  {
    r, buf1 := r0, b0;
    for ibin := 0 to WF_BINS
      invariant r == ReadSamples(r0, b0, ibin).reader
      invariant buf1 == ReadSamples(r0, b0, ibin).last
      invariant wf[..ibin] == ReadSamples(r0, b0, ibin).values
    {
      var g := ReadShort(r, buf1);
      r, buf1 := g.reader, g.value;
      wf[ibin] := buf1;
      assert wf[..ibin + 1] == wf[..ibin] + [wf[ibin]];
    }
    assert wf[..] == wf[..WF_BINS];
  }

  /** Decode takes one pass of the loop at a time. */
  lemma DecodeOneStep(r: Reader, b: int)
    ensures ReadEntry(r, b).Stop? ==> Decode(r, b) == Decoded([], false)
    ensures ReadEntry(r, b).Abort? ==> Decode(r, b) == Decoded([], true)
    ensures ReadEntry(r, b).Next? ==>
      var s := ReadEntry(r, b);
      Decode(r, b) == Decoded([s.entry] + Decode(s.reader, s.last).entries, Decode(s.reader, s.last).aborted)
  {
  }

  lemma DecodeNext(r: Reader, b: int, e: Entry, next: Reader, last: int, rest: Decoded)
    requires ReadEntry(r, b) == Next(e, next, last) && Decode(next, last) == rest
    ensures Decode(r, b) == Decoded([e] + rest.entries, rest.aborted)
  {
  }

  /** One pass of the record loop, from the header to the end timestamp. */
  method ReadRecord(r: Reader, b: int, wf: array<int>) returns (step: Step)
    requires wf.Length == WF_BINS
    modifies wf
    ensures step == ReadEntry(r, b)
  {
    var g1 := ReadWord(r, "");
    var g2 := ReadU64(g1.reader, 0);
    var g3 := ReadWord(g2.reader, "");
    if g3.reader.failed {
      return Stop;
    }
    var eventid, bufTs := g2.value, g3.value;
    var trigger := SplitTrigger(bufTs);
    if trigger.None? {
      return Abort;
    }
    var next, buf1 := ReadWaveform(g3.reader, b, wf);
    var g5 := ReadWord(next, bufTs);
    bufTs := g5.value;
    var timestampEnd := Stoll(Before(bufTs, " "));
    if timestampEnd.None? {
      return Abort;
    }
    var e := Entry(eventid, trigger.value.seconds, trigger.value.usec,
                   Wrap(timestampEnd.value, U64), Wrap(timestampEnd.value, U32), wf[..]);
    step := Next(e, g5.reader, buf1);
    assert ReadBody(g3.reader, b, eventid, g3.value) == step;
  }

  /** What the loop has filled so far, followed by what decoding the rest of
      the input fills, is what decoding the whole input fills. */
  ghost predicate Pending(total: Decoded, entries: seq<Entry>, r: Reader, b: int)
  {
    total == Decoded(entries + Decode(r, b).entries, Decode(r, b).aborted)
  }

  lemma PendingNext(total: Decoded, entries: seq<Entry>, r: Reader, b: int)
    requires ReadEntry(r, b).Next? && Pending(total, entries, r, b)
    ensures var s := ReadEntry(r, b);
      Pending(total, entries + [s.entry], s.reader, s.last)
  {
    var s := ReadEntry(r, b);
    DecodeOneStep(r, b);
    AppendAssociative(entries, [s.entry], Decode(s.reader, s.last).entries);
  }

  lemma PendingEnd(total: Decoded, entries: seq<Entry>, r: Reader, b: int)
    requires !ReadEntry(r, b).Next? && Pending(total, entries, r, b)
    ensures total == Decoded(entries, ReadEntry(r, b).Abort?)
  {
    DecodeOneStep(r, b);
    assert entries + [] == entries;
  }

  /** The record loop of main. `initial` is the indeterminate value buf1 holds
      before its first extraction; it is observed only when the input ends
      right after the first header. */
  method ReadRecords(words: seq<string>, initial: int) returns (entries: seq<Entry>, aborted: bool)
    ensures Decoded(entries, aborted) == Decode(Reader(words, false), initial)
  {
    ghost var total := Decode(Reader(words, false), initial);
    var r := Reader(words, false);
    var buf1 := initial;
    var wf := new int[WF_BINS];
    entries := [];
    aborted := false;
    assert [] + total.entries == total.entries;
    while true
      invariant Pending(total, entries, r, buf1)
      decreases Size(r.rest)
    {
      var step := ReadRecord(r, buf1, wf);
      if !step.Next? {
        PendingEnd(total, entries, r, buf1);
        aborted := step.Abort?;
        return;
      }
      PendingNext(total, entries, r, buf1);
      entries := entries + [step.entry];
      r, buf1 := step.reader, step.last;
    }
  }

  // ---------------------------------------------------------------------------
  // main

  /** How main ends: the usage message, an input file that does not open, an
      uncaught exception after the output file was created, or the tree written. */
  datatype Exit =
    | Usage
    | CannotOpen(input: string)
    | Aborted(outDir: string, output: string)
    | Converted(outDir: string, output: string, entries: seq<Entry>)

  /** main(argc, argv); `files` maps each path that opens to its words. The
      return value is None when the program is terminated by an exception. */
  method Convert(argv: seq<string>, files: map<string, seq<string>>, initial: int)
    returns (code: Option<int>, exit: Exit)
    ensures |argv| != 3 <==> exit == Usage
    ensures |argv| == 3 ==>
      var input := InputPath(argv[1], argv[2]);
      (input !in files <==> exit == CannotOpen(input)) &&
      (input in files ==>
        var d := Decode(Reader(files[input], false), initial);
        exit == if d.aborted then Aborted(OutputDir(argv[1]), OutputPath(argv[1], argv[2]))
                else Converted(OutputDir(argv[1]), OutputPath(argv[1], argv[2]), d.entries))
    ensures code == Some(-1) <==> exit.Usage? || exit.CannotOpen?
    ensures code == Some(0) <==> exit.Converted?
    ensures code == None <==> exit.Aborted?
  {
    if |argv| != 3 {
      return Some(-1), Usage;
    }
    var run, file := argv[1], argv[2];
    var input := InputPath(run, file);
    if input !in files {
      return Some(-1), CannotOpen(input);
    }
    var entries, aborted := ReadRecords(files[input], initial);
    if aborted {
      return None, Aborted(OutputDir(run), OutputPath(run, file));
    }
    return Some(0), Converted(OutputDir(run), OutputPath(run, file), entries);
  }

  // ---------------------------------------------------------------------------
  // Properties of the reader

  /** The first word of a header is read and never looked at. */
  lemma HeaderWordIgnored(w1: string, w2: string, rest: seq<string>, b: int)
    ensures Decode(Reader([w1] + rest, false), b) == Decode(Reader([w2] + rest, false), b)
  {
    assert ([w1] + rest)[1..] == rest && ([w2] + rest)[1..] == rest;
    assert ReadEntry(Reader([w1] + rest, false), b) == ReadEntry(Reader([w2] + rest, false), b);
  }

  lemma NoDot(s: string, c: char)
    requires AllDigits(s) && !IsDigit(c)
    ensures Find(s, [c]) == -1
  {
    forall j | 0 <= j <= |s|
      ensures !OccursAt(s, [c], j)
    {
      if j < |s| {
        assert IsDigit(s[j]) && s[j..j + 1][0] == s[j];
      }
    }
  }

  lemma DotAfterDigits(ds: string, tail: string)
    requires AllDigits(ds)
    ensures Find(ds + "." + tail, ".") == |ds|
  {
    var s := ds + "." + tail;
    assert OccursAt(s, ".", |ds|) by {
      assert s[|ds|..|ds| + 1] == ".";
    }
    forall j | 0 <= j < |ds|
      ensures !OccursAt(s, ".", j)
    {
      assert s[j..j + 1][0] == ds[j];
    }
  }

  lemma {:induction false} DigitRunAll(s: string, i: nat)
    requires i <= |s| && AllDigits(s)
    ensures DigitRun(s, i) == |s| - i
    decreases |s| - i
  {
    if i < |s| {
      DigitRunAll(s, i + 1);
    }
  }

  lemma {:induction false} DigitRunStops(ds: string, tail: string, i: nat)
    requires i <= |ds| && AllDigits(ds) && (tail == [] || !IsDigit(tail[0]))
    ensures DigitRun(ds + tail, i) == |ds| - i
    decreases |ds| - i
  {
    var s := ds + tail;
    if i < |ds| {
      assert s[i] == ds[i];
      DigitRunStops(ds, tail, i + 1);
    } else if tail != [] {
      assert s[i] == tail[0];
    }
  }

  lemma SignedPrefixDigits(ds: string, tail: string)
    requires |ds| > 0 && AllDigits(ds) && (tail == [] || !IsDigit(tail[0]))
    ensures SignedPrefix(ds + tail) == Prefix(false, ds, |ds|)
  {
    var s := ds + tail;
    assert s[0] == ds[0];
    DigitRunStops(ds, tail, 0);
    assert s[..|ds|] == ds;
  }

  /** stoll reads a digit string back, whatever non-digit text follows it. */
  lemma StollDigits(ds: string, tail: string)
    requires |ds| > 0 && AllDigits(ds) && DigitsValue(ds) <= LLONG_MAX
    requires tail == [] || !IsDigit(tail[0])
    ensures Stoll(ds + tail) == Some(DigitsValue(ds))
  {
    var s := ds + tail;
    assert s[0] == ds[0] && !CSpace(s[0]);
    assert CSkipSpace(s) == s;
    SignedPrefixDigits(ds, tail);
  }

  lemma SignedPrefixDecimal(v: int)
    ensures var d := NatToDecimal(if v < 0 then -v else v);
      SignedPrefix(IntToDecimal(v)) == Prefix(v < 0, d, |IntToDecimal(v)|)
  {
    var s := IntToDecimal(v);
    var d := NatToDecimal(if v < 0 then -v else v);
    if v < 0 {
      assert s[1..] == d;
      DigitRunStops(s[1..], [], 0);
      DigitRunAll(d, 0);
      assert forall k :: 1 <= k < |s| ==> s[k] == d[k - 1];
      DigitRunShift(s, d);
    } else {
      DigitRunAll(d, 0);
    }
  }

  lemma DigitRunShift(s: string, d: string)
    requires |s| == |d| + 1 && s[1..] == d && AllDigits(d)
    ensures DigitRun(s, 1) == |d|
  {
    DigitRunAll(d, 0);
    DigitRunSuffix(s, d, 0);
  }

  lemma {:induction false} DigitRunSuffix(s: string, d: string, i: nat)
    requires |s| == |d| + 1 && s[1..] == d && AllDigits(d) && i <= |d|
    ensures DigitRun(s, i + 1) == DigitRun(d, i)
    decreases |d| - i
  {
    if i < |d| {
      assert s[i + 1] == d[i];
      DigitRunSuffix(s, d, i + 1);
    }
  }

  lemma ReadU64Decimal(n: nat, rest: seq<string>, prior: nat)
    requires n < U64
    ensures ReadU64(Reader([NatToDecimal(n)] + rest, false), prior) == Got(Reader(rest, false), n)
  {
    SignedPrefixDecimal(n);
    assert ([NatToDecimal(n)] + rest)[1..] == rest;
  }

  lemma ReadShortDecimal(v: int, rest: seq<string>, prior: int)
    requires SHORT_MIN <= v <= SHORT_MAX
    ensures ReadShort(Reader([IntToDecimal(v)] + rest, false), prior) == Got(Reader(rest, false), v)
  {
    SignedPrefixDecimal(v);
    assert ([IntToDecimal(v)] + rest)[1..] == rest;
  }

  /** The words of a sequence of samples, as str() of each value. */
  function SampleWords(s: seq<int>): seq<string>
  {
    if s == [] then [] else SampleWords(s[..|s| - 1]) + [IntToDecimal(s[|s| - 1])]
  }

  predicate ShortRange(s: seq<int>)
  {
    forall k :: 0 <= k < |s| ==> SHORT_MIN <= s[k] <= SHORT_MAX
  }

  /** Each sample word is stored in turn, and the extraction stops right after
      the last of them. */
  lemma {:induction false} ReadSampleWords(s: seq<int>, rest: seq<string>, b: int)
    requires ShortRange(s)
    ensures ReadSamples(Reader(SampleWords(s) + rest, false), b, |s|) ==
      Samples(Reader(rest, false), if s == [] then b else s[|s| - 1], s)
    decreases |s|
  {
    if s != [] {
      var init, x := s[..|s| - 1], s[|s| - 1];
      var rest' := [IntToDecimal(x)] + rest;
      AppendAssociative(SampleWords(init), [IntToDecimal(x)], rest);
      ReadSampleWords(init, rest', b);
      var prev := Samples(Reader(rest', false), if init == [] then b else init[|init| - 1], init);
      ReadShortDecimal(x, rest, prev.last);
      SamplesStep(Reader(SampleWords(s) + rest, false), b, |init|, prev, Got(Reader(rest, false), x));
      InitAndLast(s);
    }
  }

  lemma SamplesStep(r: Reader, b: int, n: nat, prev: Samples, g: Got<int>)
    requires ReadSamples(r, b, n) == prev && ReadShort(prev.reader, prev.last) == g
    ensures ReadSamples(r, b, n + 1) == Samples(g.reader, g.value, prev.values + [g.value])
  {
  }

  /** A trigger word written as seconds '.' digits is split into the seconds
      and the value of the digits. */
  lemma SplitTriggerDecimal(sec: nat, frac: string)
    requires sec <= LLONG_MAX && |frac| > 0 && AllDigits(frac) && DigitsValue(frac) <= LLONG_MAX
    ensures SplitTrigger(NatToDecimal(sec) + "." + frac) == Some(Trigger(sec, DigitsValue(frac) % U32))
  {
    SplitTriggerDigits(NatToDecimal(sec), frac);
  }

  lemma SplitTriggerDigits(d: string, frac: string)
    requires |d| > 0 && AllDigits(d) && DigitsValue(d) <= LLONG_MAX
    requires |frac| > 0 && AllDigits(frac) && DigitsValue(frac) <= LLONG_MAX
    ensures SplitTrigger(d + "." + frac) == Some(Trigger(DigitsValue(d), DigitsValue(frac) % U32))
  {
    var ts := d + "." + frac;
    DotAfterDigits(d, frac);
    assert ts[..|d|] == d && ts[|d| + 1..] == frac;
    NoDot(frac, '.');
    assert Before(frac, ".") == frac;
    StollWhole(d);
    StollWhole(frac);
    SplitTriggerAt(ts, |d|, DigitsValue(d), DigitsValue(frac));
  }

  lemma SplitTriggerAt(ts: string, i: nat, s: int, u: int)
    requires Find(ts, ".") == i && Stoll(ts[..i]) == Some(s) && Stoll(Before(ts[i + 1..], ".")) == Some(u)
    ensures SplitTrigger(ts) == Some(Trigger(Wrap(s, U64), Wrap(u, U32)))
  {
  }

  lemma StollWhole(ds: string)
    requires |ds| > 0 && AllDigits(ds) && DigitsValue(ds) <= LLONG_MAX
    ensures Stoll(ds) == Some(DigitsValue(ds))
  {
    StollDigits(ds, []);
    assert ds + [] == ds;
  }

  /** The digits after the point are read as an integer, so leading zeros are lost. */
  lemma LeadingZerosLost(sec: nat, frac: string, n: nat)
    requires sec <= LLONG_MAX && |frac| > 0 && AllDigits(frac) && DigitsValue(frac) <= LLONG_MAX
    ensures SplitTrigger(NatToDecimal(sec) + "." + Zeros(n) + frac) == SplitTrigger(NatToDecimal(sec) + "." + frac)
  {
    LeadingZerosDigits(NatToDecimal(sec), frac, n);
  }

  lemma LeadingZerosDigits(d: string, frac: string, n: nat)
    requires |d| > 0 && AllDigits(d) && DigitsValue(d) <= LLONG_MAX
    requires |frac| > 0 && AllDigits(frac) && DigitsValue(frac) <= LLONG_MAX
    ensures SplitTrigger(d + "." + Zeros(n) + frac) == SplitTrigger(d + "." + frac)
  {
    DigitsValueLeadingZeros(n, frac);
    SplitTriggerDigits(d, frac);
    SplitTriggerDigits(d, Zeros(n) + frac);
    assert d + "." + Zeros(n) + frac == d + "." + (Zeros(n) + frac);
  }

  /** A trigger word without a point gives its seconds to both fields. */
  lemma NoPointRepeatsSeconds(sec: nat)
    requires sec <= LLONG_MAX
    ensures SplitTrigger(NatToDecimal(sec)) == Some(Trigger(sec, sec % U32))
  {
    NoDot(NatToDecimal(sec), '.');
    StollWhole(NatToDecimal(sec));
  }

  /** A trigger word ending in its point makes stoll throw. */
  lemma TrailingPointAborts(sec: nat)
    ensures SplitTrigger(NatToDecimal(sec) + ".") == None
  {
    var d := NatToDecimal(sec);
    DotAfterDigits(d, "");
    assert d + "." + "" == d + ".";
    assert (d + ".")[|d| + 1..] == [];
  }

  /** An end word written as seconds '.' digits gives only its seconds. */
  lemma EndSeconds(sec: nat, frac: string)
    requires sec <= LLONG_MAX && AllDigits(frac)
    ensures Stoll(Before(NatToDecimal(sec) + "." + frac, " ")) == Some(sec)
  {
    EndDigits(NatToDecimal(sec), frac);
  }

  lemma EndDigits(d: string, frac: string)
    requires |d| > 0 && AllDigits(d) && DigitsValue(d) <= LLONG_MAX && AllDigits(frac)
    ensures Stoll(Before(d + "." + frac, " ")) == Some(DigitsValue(d))
  {
    var w := d + ("." + frac);
    assert d + "." + frac == w;
    forall k | 0 <= k < |w|
      ensures w[k] != ' '
    {
      if k < |d| {
        assert w[k] == d[k];
      } else if k > |d| {
        assert w[k] == frac[k - |d| - 1];
      }
    }
    Absent(w, ' ');
    StollDigits(d, "." + frac);
  }

  /** A character that does not occur is not found. */
  lemma Absent(s: string, c: char)
    requires forall k :: 0 <= k < |s| ==> s[k] != c
    ensures Find(s, [c]) == -1
  {
    forall j | 0 <= j <= |s|
      ensures !OccursAt(s, [c], j)
    {
      if j < |s| {
        assert s[j..j + 1][0] == s[j];
      }
    }
  }

  /** One event record as the acquisition writes it, seen as words. */
  datatype Record = Record(
    eventid: nat,
    seconds: nat,
    fraction: string,
    samples: seq<int>,
    endSeconds: nat,
    endFraction: string)

  predicate Readable(x: Record)
  {
    x.eventid < U64 &&
    x.seconds <= LLONG_MAX && |x.fraction| > 0 && AllDigits(x.fraction) && DigitsValue(x.fraction) <= LLONG_MAX &&
    |x.samples| == WF_BINS && ShortRange(x.samples) &&
    x.endSeconds <= LLONG_MAX && AllDigits(x.endFraction)
  }

  function RecordWords(x: Record): seq<string>
  {
    ["#.", NatToDecimal(x.eventid), NatToDecimal(x.seconds) + "." + x.fraction] +
    SampleWords(x.samples) +
    [NatToDecimal(x.endSeconds) + "." + x.endFraction]
  }

  /** The entry the converter should fill for a record. */
  function Expected(x: Record): Entry
    requires Readable(x)
  {
    Entry(x.eventid, x.seconds, DigitsValue(x.fraction) % U32, x.endSeconds, x.endSeconds % U32, x.samples)
  }

  function Words(xs: seq<Record>): seq<string>
  {
    if xs == [] then [] else RecordWords(xs[0]) + Words(xs[1..])
  }

  function ExpectedAll(xs: seq<Record>): seq<Entry>
    requires forall k :: 0 <= k < |xs| ==> Readable(xs[k])
  {
    if xs == [] then [] else [Expected(xs[0])] + ExpectedAll(xs[1..])
  }

  lemma ReadRecordWords(x: Record, rest: seq<string>, b: int)
    requires Readable(x)
    ensures ReadEntry(Reader(RecordWords(x) + rest, false), b) ==
      Next(Expected(x), Reader(rest, false), x.samples[WF_BINS - 1])
  {
    var ts := NatToDecimal(x.seconds) + "." + x.fraction;
    var end := NatToDecimal(x.endSeconds) + "." + x.endFraction;
    var tail := SampleWords(x.samples) + ([end] + rest);
    assert RecordWords(x) + rest == ["#."] + ([NatToDecimal(x.eventid)] + ([ts] + tail));
    var g1 := ReadWord(Reader(RecordWords(x) + rest, false), "");
    assert g1.reader == Reader([NatToDecimal(x.eventid)] + ([ts] + tail), false);
    ReadU64Decimal(x.eventid, [ts] + tail, 0);
    var g3 := ReadWord(Reader([ts] + tail, false), "");
    assert g3 == Got(Reader(tail, false), ts);
    ReadRecordBody(x, rest, b);
  }

  lemma ReadRecordBody(x: Record, rest: seq<string>, b: int)
    requires Readable(x)
    ensures var ts := NatToDecimal(x.seconds) + "." + x.fraction;
      var end := NatToDecimal(x.endSeconds) + "." + x.endFraction;
      ReadBody(Reader(SampleWords(x.samples) + ([end] + rest), false), b, x.eventid, ts) ==
      Next(Expected(x), Reader(rest, false), x.samples[WF_BINS - 1])
  {
    var ts := NatToDecimal(x.seconds) + "." + x.fraction;
    var end := NatToDecimal(x.endSeconds) + "." + x.endFraction;
    var r := Reader(SampleWords(x.samples) + ([end] + rest), false);
    SplitTriggerDecimal(x.seconds, x.fraction);
    ReadSampleWords(x.samples, [end] + rest, b);
    EndSeconds(x.endSeconds, x.endFraction);
    ReadBodyOf(r, b, x.eventid, ts, Trigger(x.seconds, DigitsValue(x.fraction) % U32),
               Samples(Reader([end] + rest, false), x.samples[WF_BINS - 1], x.samples), end, rest, x.endSeconds);
  }

  lemma ReadBodyOf(r: Reader, b: int, eventid: nat, ts: string, t: Trigger, s: Samples,
                   end: string, rest: seq<string>, e: int)
    requires SplitTrigger(ts) == Some(t)
    requires ReadSamples(r, b, WF_BINS) == s && s.reader == Reader([end] + rest, false)
    requires Stoll(Before(end, " ")) == Some(e)
    ensures ReadBody(r, b, eventid, ts) ==
      Next(Entry(eventid, t.seconds, t.usec, Wrap(e, U64), Wrap(e, U32), s.values), Reader(rest, false), s.last)
  {
    AfterHead(end, rest);
  }

  /** Decoding what the acquisition writes: one entry per record, in file
      order, with the record's event id, both timestamps and all its samples,
      and no exception. */
  lemma {:induction false} RoundTrip(xs: seq<Record>, b: int)
    requires forall k :: 0 <= k < |xs| ==> Readable(xs[k])
    ensures Decode(Reader(Words(xs), false), b) == Decoded(ExpectedAll(xs), false)
    decreases |xs|
  {
    if xs == [] {
      assert ReadWord(Reader([], false), "").reader.failed;
    } else {
      var x := xs[0];
      assert Words(xs) == RecordWords(x) + Words(xs[1..]);
      RoundTrip(xs[1..], x.samples[WF_BINS - 1]);
      RecordThenRest(x, Words(xs[1..]), b, Decoded(ExpectedAll(xs[1..]), false));
    }
  }

  /** One record in front of any input adds its entry in front of what that input decodes to. */
  lemma RecordThenRest(x: Record, ws: seq<string>, b: int, d: Decoded)
    requires Readable(x) && Decode(Reader(ws, false), x.samples[WF_BINS - 1]) == d
    ensures Decode(Reader(RecordWords(x) + ws, false), b) == Decoded([Expected(x)] + d.entries, d.aborted)
  {
    ReadRecordWords(x, ws, b);
    DecodeNext(Reader(RecordWords(x) + ws, false), b, Expected(x), Reader(ws, false), x.samples[WF_BINS - 1], d);
  }
}
