/** The acquisition script daq/daq.py: it writes a plain-text descriptor of the
    subrun, opens the instrument, and then, for every requested event, waits for
    the instrument to report Done, reads its 8192-sample buffer and appends the
    event to the current chunk file, a new chunk file being opened every
    EVENTS_PER_CHUNK events.

    The foreign driver calls and the wall clock are a `Rig` (an oracle that
    answers status polls from a script, buffer reads from a frames function and
    clock readings from a clock function); the files are a `Disk` that holds one
    open stream at a time. */
module Daq {
  import opened Text
  import Chunking

  const SAMPLES_PER_EVENT: nat := 8192

  /** The settings daq.py runs with. The three c_double settings appear in the
      descriptor only through their str() text, which is kept here as given. */
  datatype Params = Params(
    dirName: string,
    fileName: string,
    entries: int,
    triggerLevel: string,
    negativeEdge: bool,
    timePosition: string,
    sampling: string)

  // ---------------------------------------------------------------------------
  // The descriptor file

  function DescriptorName(p: Params): string
  {
    p.dirName + p.fileName + ".txt"
  }

  /** The seven labels of the descriptor fields, in the order they are written. */
  const LABELS: seq<string> := [
    "Dir name    : ", "File name   : ", "N events    : ", "Trigger (V) : ",
    "Trig. Edge  : ", "Sampling Hz : ", "time pos.(s): "]

  /** The argument of each of the seven writes. The conditional expression of the
      edge write binds looser than `+`, so without the negative edge the whole
      argument is the bare word "Positive". */
  function DescriptorWrites(p: Params): seq<string>
  {
    [ LABELS[0] + p.dirName,
      LABELS[1] + p.fileName,
      LABELS[2] + IntToDecimal(p.entries),
      LABELS[3] + p.triggerLevel,
      if p.negativeEdge then LABELS[4] + "Negative" else "Positive",
      LABELS[5] + p.sampling,
      LABELS[6] + p.timePosition ]
  }

  /** The descriptor text: the seven writes with nothing between them. */
  function DescriptorText(p: Params): string
  {
    var w := DescriptorWrites(p);
    w[0] + w[1] + w[2] + w[3] + w[4] + w[5] + w[6]
  }

  /** The descriptor opens with the directory field and closes with the
      time-position field, and is exactly as long as the seven writes. */
  lemma DescriptorTextLayout(p: Params)
    ensures var w, t := DescriptorWrites(p), DescriptorText(p);
      |t| == |w[0]| + |w[1]| + |w[2]| + |w[3]| + |w[4]| + |w[5]| + |w[6]|
    ensures LABELS[0] + p.dirName <= DescriptorText(p)
    ensures var t, last := DescriptorText(p), LABELS[6] + p.timePosition;
      |last| <= |t| && t[|t| - |last|..] == last
  {
    var w := DescriptorWrites(p);
    var a1 := w[0] + w[1];
    var a2 := a1 + w[2];
    var a3 := a2 + w[3];
    var a4 := a3 + w[4];
    var a5 := a4 + w[5];
    assert DescriptorText(p) == a5 + w[6];
    PrefixExtends(w[0], w[0], w[1]);
    PrefixExtends(w[0], a1, w[2]);
    PrefixExtends(w[0], a2, w[3]);
    PrefixExtends(w[0], a3, w[4]);
    PrefixExtends(w[0], a4, w[5]);
    PrefixExtends(w[0], a5, w[6]);
    assert (a5 + w[6])[|a5|..] == w[6];
  }

  /** Every write but the edge one begins with its label; the edge write begins
      with its label exactly when the edge is negative. */
  lemma DescriptorLabels(p: Params)
    ensures |DescriptorWrites(p)| == |LABELS| == 7
    ensures forall i :: 0 <= i < 7 && i != 4 ==> LABELS[i] <= DescriptorWrites(p)[i]
    ensures LABELS[4] <= DescriptorWrites(p)[4] <==> p.negativeEdge
    ensures !p.negativeEdge ==> DescriptorWrites(p)[4] == "Positive"
    ensures var w := DescriptorWrites(p);
      w[0][|LABELS[0]|..] == p.dirName && w[1][|LABELS[1]|..] == p.fileName &&
      w[2][|LABELS[2]|..] == IntToDecimal(p.entries) && w[3][|LABELS[3]|..] == p.triggerLevel &&
      w[5][|LABELS[5]|..] == p.sampling && w[6][|LABELS[6]|..] == p.timePosition
    ensures p.negativeEdge ==> DescriptorWrites(p)[4][|LABELS[4]|..] == "Negative"
  {
    LabelledField(LABELS[0], p.dirName);
    LabelledField(LABELS[1], p.fileName);
    LabelledField(LABELS[2], IntToDecimal(p.entries));
    LabelledField(LABELS[3], p.triggerLevel);
    LabelledField(LABELS[4], "Negative");
    LabelledField(LABELS[5], p.sampling);
    LabelledField(LABELS[6], p.timePosition);
    if !p.negativeEdge {
      assert DescriptorWrites(p)[4][1] == 'o' != LABELS[4][1];
    }
  }

  lemma NoNewlineConcat(a: string, b: string)
    requires NoNewline(a) && NoNewline(b)
    ensures NoNewline(a + b)
  {
    forall k | 0 <= k < |a + b| ensures (a + b)[k] != '\n' {
      if k >= |a| { assert (a + b)[k] == b[k - |a|]; }
    }
  }

  lemma DecimalPrintable(i: int)
    ensures NoNewline(IntToDecimal(i))
  {
    var d := IntToDecimal(i);
    assert forall k :: 0 <= k < |d| ==> d[k] == '-' || IsDigit(d[k]);
  }

  lemma LabelsPrintable()
    ensures forall i :: 0 <= i < |LABELS| ==> NoNewline(LABELS[i])
  {
  }

  lemma DescriptorWritesPrintable(p: Params)
    requires NoNewline(p.dirName) && NoNewline(p.fileName) && NoNewline(p.triggerLevel)
    requires NoNewline(p.sampling) && NoNewline(p.timePosition)
    ensures forall i :: 0 <= i < 7 ==> NoNewline(DescriptorWrites(p)[i])
  {
    var w := DescriptorWrites(p);
    LabelsPrintable();
    NoNewlineConcat(LABELS[0], p.dirName);
    NoNewlineConcat(LABELS[1], p.fileName);
    DecimalPrintable(p.entries);
    NoNewlineConcat(LABELS[2], IntToDecimal(p.entries));
    NoNewlineConcat(LABELS[3], p.triggerLevel);
    NoNewlineConcat(LABELS[4], "Negative");
    NoNewlineConcat(LABELS[5], p.sampling);
    NoNewlineConcat(LABELS[6], p.timePosition);
    assert NoNewline(w[4]);
  }

  /** With no separator written, the whole descriptor is a single line. */
  lemma DescriptorIsOneLine(p: Params)
    requires NoNewline(p.dirName) && NoNewline(p.fileName) && NoNewline(p.triggerLevel)
    requires NoNewline(p.sampling) && NoNewline(p.timePosition)
    ensures SplitLines(DescriptorText(p)) == [DescriptorText(p)]
  {
    var w := DescriptorWrites(p);
    DescriptorWritesPrintable(p);
    NoNewlineConcat(w[0], w[1]);
    NoNewlineConcat(w[0] + w[1], w[2]);
    NoNewlineConcat(w[0] + w[1] + w[2], w[3]);
    NoNewlineConcat(w[0] + w[1] + w[2] + w[3], w[4]);
    NoNewlineConcat(w[0] + w[1] + w[2] + w[3] + w[4], w[5]);
    NoNewlineConcat(w[0] + w[1] + w[2] + w[3] + w[4] + w[5], w[6]);
    LineLengthAll(DescriptorText(p));
  }

  lemma {:induction false} LineLengthAll(t: string)
    requires NoNewline(t)
    ensures LineLength(t) == |t|
    decreases |t|
  {
    if t != [] { LineLengthAll(t[1..]); }
  }

  /** Without separators the descriptor cannot be read back: two different
      directory/file name pairs give the same text. */
  lemma DescriptorAmbiguous(p: Params)
    ensures var p1 := p.(dirName := "a" + LABELS[1] + "b", fileName := "");
            var p2 := p.(dirName := "a", fileName := "b" + LABELS[1]);
            p1 != p2 && DescriptorText(p1) == DescriptorText(p2)
  {
    var p1 := p.(dirName := "a" + LABELS[1] + "b", fileName := "");
    var p2 := p.(dirName := "a", fileName := "b" + LABELS[1]);
    assert p1.dirName != p2.dirName by { assert |p1.dirName| != |p2.dirName|; }
    var w1, w2 := DescriptorWrites(p1), DescriptorWrites(p2);
    assert w1[0] + w1[1] == LABELS[0] + "a" + LABELS[1] + "b" + LABELS[1];
    assert w2[0] + w2[1] == LABELS[0] + "a" + LABELS[1] + "b" + LABELS[1];
    assert w1[2..] == w2[2..];
  }

  // ---------------------------------------------------------------------------
  // Chunk file names

  function ChunkName(p: Params, c: nat): string
  {
    p.dirName + p.fileName + "." + IndexText(c) + ".dat"
  }

  /** A chunk file name is the descriptor's directory and base name, a dot,
      the chunk index (digits that read back as c) and ".dat"; below 10000
      chunks the index takes four characters. */
  lemma ChunkNameLayout(p: Params, c: nat)
    ensures var name, pre := ChunkName(p, c), p.dirName + p.fileName + ".";
      |pre| + 8 <= |name| && name[..|pre|] == pre && name[|name| - 4..] == ".dat" &&
      AllDigits(name[|pre|..|name| - 4]) && DigitsValue(name[|pre|..|name| - 4]) == c
    ensures c < 10000 ==> |ChunkName(p, c)| == |p.dirName| + |p.fileName| + 9
  {
    var pre, t := p.dirName + p.fileName + ".", IndexText(c);
    assert ChunkName(p, c) == pre + t + ".dat";
    assert (pre + t + ".dat")[..|pre|] == pre;
    assert (pre + t + ".dat")[|pre|..|pre| + |t|] == t;
  }

  /** Different chunk indices give different file names. */
  lemma ChunkNameInjective(p: Params, a: nat, b: nat)
    requires ChunkName(p, a) == ChunkName(p, b)
    ensures a == b
  {
    var pre := p.dirName + p.fileName + ".";
    var ta, tb := IndexText(a), IndexText(b);
    assert ChunkName(p, a) == pre + ta + ".dat" && ChunkName(p, b) == pre + tb + ".dat";
    assert |ta| == |tb|;
    assert ta == ChunkName(p, a)[|pre|..|pre| + |ta|];
    assert tb == ChunkName(p, b)[|pre|..|pre| + |tb|];
  }

  /** Below 10000 chunks, the names sort in chunk order. */
  lemma ChunkNamesSortInOrder(p: Params, a: nat, b: nat)
    requires a < 10000 && b < 10000
    ensures LexLe(ChunkName(p, a), ChunkName(p, b)) <==> a <= b
  {
    var pre := p.dirName + p.fileName + ".";
    assert ChunkName(p, a) == pre + (IndexText(a) + ".dat") && ChunkName(p, b) == pre + (IndexText(b) + ".dat");
    LexLeCommonPrefix(pre, IndexText(a) + ".dat", IndexText(b) + ".dat");
    IndexTextOrder(a, b, ".dat");
  }

  // ---------------------------------------------------------------------------
  // Event records

  /** A wall-clock reading: its value, for ordering, and the text str() gives of it. */
  datatype Stamp = Stamp(time: int, text: string)

  /** What the instrument can report to a status poll (DwfState). */
  datatype Status = Ready | Config | Prefill | Armed | Wait | Triggered | Done

  /** One acquired event: its index, the statuses seen while waiting for it
      (the last of them Done), its trigger stamp, its samples and its end stamp. */
  datatype Event = Event(index: nat, waited: seq<Status>, trigger: Stamp, samples: seq<string>, end: Stamp)

  function HeaderLine(e: Event): string
  {
    "#. " + NatToDecimal(e.index) + "  " + e.trigger.text
  }

  /** The event header is "#. ", the event index in decimal, two spaces and
      the trigger stamp. */
  lemma HeaderLayout(e: Event)
    ensures var h := HeaderLine(e);
      var n := |h| - |e.trigger.text| - 2;
      3 < n && h[..3] == "#. " && AllDigits(h[3..n]) && DigitsValue(h[3..n]) == e.index &&
      h[n..n + 2] == "  " && h[n + 2..] == e.trigger.text
  {
    var d := NatToDecimal(e.index);
    var h := HeaderLine(e);
    assert h == "#. " + d + "  " + e.trigger.text;
    assert h[..3] == "#. " && h[3..3 + |d|] == d;
    assert h[3 + |d|..5 + |d|] == "  " && h[5 + |d|..] == e.trigger.text;
  }

  /** The lines of an event in file order: header, samples, end stamp. */
  function EventLines(e: Event): seq<string>
  {
    [HeaderLine(e)] + e.samples + [e.end.text]
  }

  /** The text the loop body writes for one event. */
  function EventText(e: Event): string
  {
    HeaderLine(e) + "\n" + LinesText(e.samples) + e.end.text + "\n"
  }

  predicate Printable(e: Event)
  {
    NoNewline(e.trigger.text) && NoNewline(e.end.text)
    && forall k :: 0 <= k < |e.samples| ==> NoNewline(e.samples[k])
  }

  predicate LinesPrintable(lines: seq<string>)
  {
    forall k :: 0 <= k < |lines| ==> NoNewline(lines[k])
  }

  lemma HeaderPrintable(e: Event)
    requires NoNewline(e.trigger.text)
    ensures NoNewline(HeaderLine(e))
  {
    var d := NatToDecimal(e.index);
    assert forall k :: 0 <= k < |d| ==> IsDigit(d[k]);
    NoNewlineConcat("#. ", d);
    NoNewlineConcat("#. " + d, "  ");
    NoNewlineConcat("#. " + d + "  ", e.trigger.text);
  }

  lemma EventLinesPrintable(e: Event)
    requires Printable(e)
    ensures LinesPrintable(EventLines(e))
  {
    HeaderPrintable(e);
    var lines := EventLines(e);
    forall k | 0 <= k < |lines| ensures NoNewline(lines[k]) {
      if 0 < k < |lines| - 1 { assert lines[k] == e.samples[k - 1]; }
    }
  }

  /** An event's text is its header, its samples and its end stamp, one per line:
      8194 lines for a full buffer. */
  lemma EventLayout(e: Event)
    requires Printable(e)
    ensures EventText(e) == LinesText(EventLines(e))
    ensures SplitLines(EventText(e)) == EventLines(e)
    ensures |EventLines(e)| == |e.samples| + 2
    ensures |e.samples| == SAMPLES_PER_EVENT ==> |SplitLines(EventText(e))| == 8194
  {
    LinesTextAppend([HeaderLine(e)], e.samples);
    LinesTextAppend([HeaderLine(e)] + e.samples, [e.end.text]);
    assert LinesText([HeaderLine(e)]) == HeaderLine(e) + "\n" by {
      assert [HeaderLine(e)][..0] == [];
    }
    assert LinesText([e.end.text]) == e.end.text + "\n" by {
      assert [e.end.text][..0] == [];
    }
    EventLinesPrintable(e);
    SplitLinesText(EventLines(e));
  }

  function EventsText(es: seq<Event>): string
    decreases |es|
  {
    if es == [] then [] else EventsText(es[..|es| - 1]) + EventText(es[|es| - 1])
  }

  function EventsLines(es: seq<Event>): seq<string>
    decreases |es|
  {
    if es == [] then [] else EventsLines(es[..|es| - 1]) + EventLines(es[|es| - 1])
  }

  lemma {:induction false} EventsLinesPrintable(es: seq<Event>)
    requires forall k :: 0 <= k < |es| ==> Printable(es[k])
    ensures LinesPrintable(EventsLines(es))
    decreases |es|
  {
    if es != [] {
      var init, e := es[..|es| - 1], es[|es| - 1];
      EventsLinesPrintable(init);
      EventLinesPrintable(e);
      var a, b := EventsLines(init), EventLines(e);
      forall k | 0 <= k < |a + b| ensures NoNewline((a + b)[k]) {
        if k >= |a| { assert (a + b)[k] == b[k - |a|]; }
      }
    }
  }

  /** A chunk's text is the lines of its events, event after event: 8194 lines
      per event. */
  lemma {:induction false} EventsLayout(es: seq<Event>)
    requires forall k :: 0 <= k < |es| ==> Printable(es[k]) && |es[k].samples| == SAMPLES_PER_EVENT
    ensures EventsText(es) == LinesText(EventsLines(es))
    ensures SplitLines(EventsText(es)) == EventsLines(es)
    ensures |EventsLines(es)| == (SAMPLES_PER_EVENT + 2) * |es|
    decreases |es|
  {
    if es != [] {
      var init, e := es[..|es| - 1], es[|es| - 1];
      EventsLayout(init);
      EventLayout(e);
      LinesTextAppend(EventsLines(init), EventLines(e));
    }
    EventsLinesPrintable(es);
    SplitLinesText(EventsLines(es));
  }

  // ---------------------------------------------------------------------------
  // Files

  /** A file opened for writing: its name and everything written to it. */
  datatype File = File(name: string, text: string)

  /** The files after `s` is written to the last of them. */
  function AppendToLast(files: seq<File>, s: string): (r: seq<File>)
    requires files != []
    ensures |r| == |files|
  {
    files[..|files| - 1] + [File(files[|files| - 1].name, files[|files| - 1].text + s)]
  }

  lemma AppendNothing(files: seq<File>)
    requires files != []
    ensures AppendToLast(files, "") == files
  {
    assert files[|files| - 1].text + "" == files[|files| - 1].text;
  }

  lemma AppendTwice(files: seq<File>, a: string, b: string)
    requires files != []
    ensures AppendToLast(AppendToLast(files, a), b) == AppendToLast(files, a + b)
  {
    var last := files[|files| - 1];
    assert last.text + a + b == last.text + (a + b);
  }

  lemma AppendAfter(base: seq<File>, files: seq<File>, s: string)
    requires files != []
    ensures AppendToLast(base + files, s) == base + AppendToLast(files, s)
  {
    assert (base + files)[..|base + files| - 1] == base + files[..|files| - 1];
  }

  /** The files holding the given groups of events, group c under the name for
      chunk index c. */
  function FilesOf(p: Params, parts: seq<seq<Event>>): (fs: seq<File>)
    ensures |fs| == |parts|
    ensures forall c :: 0 <= c < |parts| ==> fs[c] == File(ChunkName(p, c), EventsText(parts[c]))
  {
    seq(|parts|, c requires 0 <= c < |parts| => File(ChunkName(p, c), EventsText(parts[c])))
  }

  /** The chunk files of a completed acquisition: chunk c holds the text of the
      events of the c-th group of EVENTS_PER_CHUNK, under the name for index c. */
  function ChunkFiles(p: Params, evs: seq<Event>): (fs: seq<File>)
    ensures |fs| == |Chunking.Partition(evs)|
  {
    FilesOf(p, Chunking.Partition(evs))
  }

  lemma FilesOfNewGroup(p: Params, parts: seq<seq<Event>>, e: Event)
    ensures FilesOf(p, parts + [[e]]) == FilesOf(p, parts) + [File(ChunkName(p, |parts|), EventText(e))]
  {
    assert EventsText([e]) == EventText(e) by { assert [e][..0] == []; }
    var fs, gs := FilesOf(p, parts), FilesOf(p, parts + [[e]]);
    forall c | 0 <= c < |parts| ensures gs[c] == fs[c] {
      assert (parts + [[e]])[c] == parts[c];
    }
  }

  lemma FilesOfExtendLast(p: Params, parts: seq<seq<Event>>, e: Event)
    requires parts != []
    ensures var n := |parts| - 1;
      FilesOf(p, parts[..n] + [parts[n] + [e]]) == AppendToLast(FilesOf(p, parts), EventText(e))
  {
    var n := |parts| - 1;
    var qs := parts[..n] + [parts[n] + [e]];
    FilesOfSamePrefix(p, parts, qs, n);
    FilesOfLastGrows(p, parts, e);
    ExtendLast(FilesOf(p, parts), FilesOf(p, qs), EventText(e));
  }

  lemma FilesOfSamePrefix(p: Params, parts: seq<seq<Event>>, qs: seq<seq<Event>>, n: nat)
    requires n <= |parts| && n <= |qs| && qs[..n] == parts[..n]
    ensures FilesOf(p, qs)[..n] == FilesOf(p, parts)[..n]
  {
    forall c | 0 <= c < n ensures FilesOf(p, qs)[c] == FilesOf(p, parts)[c] {
      assert qs[c] == qs[..n][c] && parts[c] == parts[..n][c];
    }
  }

  lemma FilesOfLastGrows(p: Params, parts: seq<seq<Event>>, e: Event)
    requires parts != []
    ensures var n := |parts| - 1; var fs := FilesOf(p, parts);
      FilesOf(p, parts[..n] + [parts[n] + [e]])[n] == File(fs[n].name, fs[n].text + EventText(e))
  {
    var n := |parts| - 1;
    assert (parts[..n] + [parts[n] + [e]])[n] == parts[n] + [e];
    EventsTextSnoc(parts[n], e);
  }

  /** Two file lists that agree but for text added to the last file. */
  lemma ExtendLast(fs: seq<File>, gs: seq<File>, t: string)
    requires fs != [] && |gs| == |fs|
    requires gs[..|fs| - 1] == fs[..|fs| - 1]
    requires gs[|fs| - 1] == File(fs[|fs| - 1].name, fs[|fs| - 1].text + t)
    ensures gs == AppendToLast(fs, t)
  {
    assert gs == gs[..|fs| - 1] + [gs[|fs| - 1]];
  }

  lemma EventsTextSnoc(es: seq<Event>, e: Event)
    ensures EventsText(es + [e]) == EventsText(es) + EventText(e)
  {
    assert (es + [e])[..|es|] == es;
  }

  /** An event whose index is a multiple of EVENTS_PER_CHUNK starts a new chunk
      file, named for the next chunk index and holding just that event. */
  lemma ChunkFilesNewChunk(p: Params, evs: seq<Event>, e: Event)
    requires |evs| % Chunking.EVENTS_PER_CHUNK == 0
    ensures ChunkFiles(p, evs + [e])
      == ChunkFiles(p, evs) + [File(ChunkName(p, |evs| / Chunking.EVENTS_PER_CHUNK), EventText(e))]
  {
    Chunking.PartitionSnoc(evs, e);
    Chunking.PartitionCountAtBoundary(evs);
    FilesOfNewGroup(p, Chunking.Partition(evs), e);
  }

  /** Any other event is appended to the last chunk file. */
  lemma ChunkFilesSameChunk(p: Params, evs: seq<Event>, e: Event)
    requires |evs| % Chunking.EVENTS_PER_CHUNK != 0
    ensures ChunkFiles(p, evs) != []
    ensures ChunkFiles(p, evs + [e]) == AppendToLast(ChunkFiles(p, evs), EventText(e))
  {
    Chunking.PartitionSnoc(evs, e);
    FilesOfExtendLast(p, Chunking.Partition(evs), e);
  }

  /** The file the rollover opens before event n: a new, empty chunk file when n
      starts a chunk, none otherwise. */
  function RolloverFile(p: Params, n: nat): seq<File>
  {
    if n % Chunking.EVENTS_PER_CHUNK == 0 then [File(ChunkName(p, n / Chunking.EVENTS_PER_CHUNK), "")] else []
  }

  /** Writing an event after the rollover gives the chunk files of one more event. */
  lemma RolloverStep(p: Params, base: seq<File>, evs: seq<Event>, e: Event)
    ensures ChunkFiles(p, evs) + RolloverFile(p, |evs|) != []
    ensures AppendToLast(base + ChunkFiles(p, evs) + RolloverFile(p, |evs|), EventText(e))
      == base + ChunkFiles(p, evs + [e])
  {
    if |evs| % Chunking.EVENTS_PER_CHUNK != 0 {
      RolloverSameChunk(p, base, evs, e);
    } else {
      RolloverNewChunk(p, base, evs, e);
    }
  }

  lemma RolloverSameChunk(p: Params, base: seq<File>, evs: seq<Event>, e: Event)
    requires |evs| % Chunking.EVENTS_PER_CHUNK != 0
    ensures ChunkFiles(p, evs) + RolloverFile(p, |evs|) != []
    ensures AppendToLast(base + ChunkFiles(p, evs) + RolloverFile(p, |evs|), EventText(e))
      == base + ChunkFiles(p, evs + [e])
  {
    var fs, t := ChunkFiles(p, evs), EventText(e);
    assert RolloverFile(p, |evs|) == [];
    ChunkFilesSameChunk(p, evs, e);
    AppendAfter(base, fs, t);
    assert base + fs + [] == base + fs;
  }

  lemma RolloverNewChunk(p: Params, base: seq<File>, evs: seq<Event>, e: Event)
    requires |evs| % Chunking.EVENTS_PER_CHUNK == 0
    ensures ChunkFiles(p, evs) + RolloverFile(p, |evs|) != []
    ensures AppendToLast(base + ChunkFiles(p, evs) + RolloverFile(p, |evs|), EventText(e))
      == base + ChunkFiles(p, evs + [e])
  {
    var fs, t := ChunkFiles(p, evs), EventText(e);
    var f := File(ChunkName(p, |evs| / Chunking.EVENTS_PER_CHUNK), "");
    assert RolloverFile(p, |evs|) == [f];
    ChunkFilesNewChunk(p, evs, e);
    AppendAfter(base + fs, [f], t);
    assert AppendToLast([f], t) == [File(f.name, t)] by {
      assert "" + t == t;
    }
    assert base + fs + [File(f.name, t)] == base + (fs + [File(f.name, t)]);
  }

  /** The output files: every file opened for writing, in the order opened, and
      whether the last of them is still the open stream. One stream at most is
      open, so Create may only be called once the previous file is closed. */
  class Disk {
    var files: seq<File>
    var isOpen: bool

    ghost predicate Valid()
      reads this
    {
      isOpen ==> files != []
    }

    constructor ()
      ensures Valid() && files == [] && !isOpen
    {
      files, isOpen := [], false;
    }

    /** open(name, 'w'): a new, empty file becomes the open stream. */
    method Create(name: string)
      requires Valid() && !isOpen
      modifies this
      ensures Valid() && isOpen
      ensures files == old(files) + [File(name, "")]
    {
      files, isOpen := files + [File(name, "")], true;
    }

    /** f.write(s) on the open stream. */
    method Write(s: string)
      requires Valid() && isOpen
      modifies this
      ensures Valid() && isOpen
      ensures files == AppendToLast(old(files), s)
    {
      files := AppendToLast(files, s);
    }

    /** f.close(); closing a closed file does nothing. */
    method Close()
      requires Valid()
      modifies this
      ensures Valid() && !isOpen && files == old(files)
    {
      isOpen := false;
    }
  }

  // ---------------------------------------------------------------------------
  // The instrument and the clock

  /** What the acquisition observes, in the order it observes it. */
  datatype Observation = Polled(status: Status) | Clocked(stamp: Stamp) | Fetched(buffer: nat)

  /** Every buffer read yields a full buffer of samples. */
  ghost predicate FullFrames(frames: nat -> seq<string>)
  {
    forall k: nat :: |frames(k)| == SAMPLES_PER_EVENT
  }

  /** The instrument behind the DWF library, and the wall clock.
      attached: whether FDwfDeviceOpen obtains a device handle;
      script:   the statuses successive FDwfAnalogInStatus polls report;
      frames:   frames(k) is the k-th buffer read, its samples as their str() text;
      clock:    clock(k) is the k-th reading of datetime.now(). */
  class Rig {
    const attached: bool
    const script: seq<Status>
    const frames: nat -> seq<string>
    const clock: nat -> Stamp
    var polls: nat
    var fetches: nat
    var ticks: nat
    ghost var trace: seq<Observation>

    ghost predicate Valid()
      reads this
    {
      polls <= |script| && FullFrames(frames)
    }

    constructor (attached: bool, script: seq<Status>, frames: nat -> seq<string>, clock: nat -> Stamp)
      requires FullFrames(frames)
      ensures Valid()
      ensures this.attached == attached && this.script == script && this.frames == frames && this.clock == clock
      ensures polls == 0 && fetches == 0 && ticks == 0 && trace == []
    {
      this.attached, this.script, this.frames, this.clock := attached, script, frames, clock;
      polls, fetches, ticks, trace := 0, 0, 0, [];
    }

    /** FDwfAnalogInStatus: the next status of the script. */
    method Poll() returns (s: Status)
      requires Valid() && polls < |script|
      modifies this
      ensures Valid()
      ensures s == script[old(polls)] && polls == old(polls) + 1
      ensures fetches == old(fetches) && ticks == old(ticks)
      ensures trace == old(trace) + [Polled(s)]
    {
      s := script[polls];
      polls := polls + 1;
      trace := trace + [Polled(s)];
    }

    /** datetime.now().timestamp(): the next clock reading. */
    method Now() returns (t: Stamp)
      requires Valid()
      modifies this
      ensures Valid()
      ensures t == clock(old(ticks)) && ticks == old(ticks) + 1
      ensures polls == old(polls) && fetches == old(fetches)
      ensures trace == old(trace) + [Clocked(t)]
    {
      t := clock(ticks);
      ticks := ticks + 1;
      trace := trace + [Clocked(t)];
    }

    /** FDwfAnalogInStatusData: fills the whole sample buffer in place. */
    method Fetch(buf: array<string>)
      requires Valid() && buf.Length == SAMPLES_PER_EVENT
      modifies this, buf
      ensures Valid()
      ensures buf[..] == frames(old(fetches)) && fetches == old(fetches) + 1
      ensures polls == old(polls) && ticks == old(ticks)
      ensures trace == old(trace) + [Fetched(old(fetches))]
    {
      forall j | 0 <= j < buf.Length {
        buf[j] := frames(fetches)[j];
      }
      trace := trace + [Fetched(fetches)];
      fetches := fetches + 1;
    }
  }

  // ---------------------------------------------------------------------------
  // The acquisition

  predicate NoDone(w: seq<Status>) { forall k :: 0 <= k < |w| ==> w[k] != Done }

  /** The statuses of one wait: polled until the first Done. */
  predicate WaitOk(w: seq<Status>)
  {
    |w| > 0 && w[|w| - 1] == Done && NoDone(w[..|w| - 1])
  }

  function PollTrace(w: seq<Status>): (t: seq<Observation>)
    ensures |t| == |w| && forall k :: 0 <= k < |w| ==> t[k] == Polled(w[k])
  {
    seq(|w|, k requires 0 <= k < |w| => Polled(w[k]))
  }

  /** What one event observes: its polls, the trigger stamp, the buffer read
      (the k-th), the end stamp. */
  function EventTrace(e: Event, k: nat): seq<Observation>
  {
    PollTrace(e.waited) + [Clocked(e.trigger), Fetched(k), Clocked(e.end)]
  }

  /** The observations of the events in order, the first using buffer read r0. */
  function SessionTrace(evs: seq<Event>, r0: nat): seq<Observation>
    decreases |evs|
  {
    if evs == [] then [] else SessionTrace(evs[..|evs| - 1], r0) + EventTrace(evs[|evs| - 1], r0 + |evs| - 1)
  }

  /** All statuses polled for the events, in order. */
  function Waits(evs: seq<Event>): seq<Status>
    decreases |evs|
  {
    if evs == [] then [] else Waits(evs[..|evs| - 1]) + evs[|evs| - 1].waited
  }

  /** The events were acquired from `clock` and `frames` starting at clock
      reading t0 and buffer read r0: event i carries index i, the two clock
      readings taken for it and the i-th buffer, and its wait ended at Done. */
  ghost predicate Acquired(clock: nat -> Stamp, frames: nat -> seq<string>, evs: seq<Event>, t0: nat, r0: nat)
  {
    forall i :: 0 <= i < |evs| ==>
      evs[i].index == i && WaitOk(evs[i].waited)
      && evs[i].trigger == clock(t0 + 2 * i) && evs[i].end == clock(t0 + 2 * i + 1)
      && evs[i].samples == frames(r0 + i)
  }

  datatype Outcome =
    | Completed   // every requested event was written and the last chunk closed
    | OpenFailed  // no device handle: quit() right after the descriptor
    | Stalled     // the status script ran out before Done; the program would poll forever

  /** The `while True` poll loop and the trigger stamp taken on Done. */
  method WaitForTrigger(rig: Rig) returns (found: bool, trigger: Stamp, ghost waited: seq<Status>)
    requires rig.Valid()
    modifies rig
    ensures rig.Valid()
    ensures old(rig.polls) <= rig.polls && waited == rig.script[old(rig.polls)..rig.polls]
    ensures found ==> WaitOk(waited) && trigger == rig.clock(old(rig.ticks)) && rig.ticks == old(rig.ticks) + 1
    ensures !found ==> rig.polls == |rig.script| && NoDone(waited) && rig.ticks == old(rig.ticks)
    ensures rig.fetches == old(rig.fetches)
    ensures rig.trace == old(rig.trace) + PollTrace(waited) + (if found then [Clocked(trigger)] else [])
  {
    found, trigger, waited := false, Stamp(0, ""), [];
    while rig.polls < |rig.script|
      invariant rig.Valid() && old(rig.polls) <= rig.polls
      invariant waited == rig.script[old(rig.polls)..rig.polls] && NoDone(waited)
      invariant rig.ticks == old(rig.ticks) && rig.fetches == old(rig.fetches)
      invariant rig.trace == old(rig.trace) + PollTrace(waited)
      decreases |rig.script| - rig.polls
    {
      var s := rig.Poll();
      assert waited + [s] == rig.script[old(rig.polls)..rig.polls];
      PollTraceSnoc(old(rig.trace), waited, s);
      if s == Done {
        assert waited == (waited + [s])[..|waited|];
        waited := waited + [s];
        trigger := rig.Now();
        found := true;
        return;
      }
      waited := waited + [s];
    }
  }

  lemma PollTraceSnoc(t0: seq<Observation>, w: seq<Status>, s: Status)
    ensures t0 + PollTrace(w) + [Polled(s)] == t0 + PollTrace(w + [s])
  {
    assert PollTrace(w + [s]) == PollTrace(w) + [Polled(s)];
  }

  /** The inner loop writing one sample per line. */
  method WriteSamples(disk: Disk, buf: array<string>)
    requires disk.Valid() && disk.isOpen
    modifies disk
    ensures disk.Valid() && disk.isOpen
    ensures disk.files == AppendToLast(old(disk.files), LinesText(buf[..]))
  {
    assert buf[..0] == [];
    AppendNothing(disk.files);
    for j := 0 to buf.Length
      invariant disk.Valid() && disk.isOpen
      invariant disk.files == AppendToLast(old(disk.files), LinesText(buf[..j]))
    {
      disk.Write(buf[j]);
      disk.Write("\n");
      assert buf[..j + 1][..j] == buf[..j] && buf[..j + 1][j] == buf[j];
      AppendLine(old(disk.files), buf[..j + 1]);
    }
    assert buf[..buf.Length] == buf[..];
  }

  /** Writing a line and then '\n' extends the lines written so far by one. */
  lemma AppendLine(f0: seq<File>, lines: seq<string>)
    requires f0 != [] && lines != []
    ensures var n := |lines| - 1;
      AppendToLast(AppendToLast(AppendToLast(f0, LinesText(lines[..n])), lines[n]), "\n")
      == AppendToLast(f0, LinesText(lines))
  {
    var n := |lines| - 1;
    AppendTwice(f0, LinesText(lines[..n]), lines[n]);
    AppendTwice(f0, LinesText(lines[..n]) + lines[n], "\n");
  }

  /** Writing the descriptor: open its file, make the seven writes, close it. */
  method WriteDescriptor(p: Params, disk: Disk)
    requires disk.Valid() && !disk.isOpen
    modifies disk
    ensures disk.Valid() && !disk.isOpen
    ensures disk.files == old(disk.files) + [File(DescriptorName(p), DescriptorText(p))]
  {
    var w := DescriptorWrites(p);
    disk.Create(DescriptorName(p));
    disk.Write(w[0]);
    disk.Write(w[1]);
    disk.Write(w[2]);
    disk.Write(w[3]);
    disk.Write(w[4]);
    disk.Write(w[5]);
    disk.Write(w[6]);
    disk.Close();
    ghost var f := old(disk.files);
    AppendTwice(f + [File(DescriptorName(p), "")], w[0], w[1]);
    AppendTwice(f + [File(DescriptorName(p), "")], w[0] + w[1], w[2]);
    AppendTwice(f + [File(DescriptorName(p), "")], w[0] + w[1] + w[2], w[3]);
    AppendTwice(f + [File(DescriptorName(p), "")], w[0] + w[1] + w[2] + w[3], w[4]);
    AppendTwice(f + [File(DescriptorName(p), "")], w[0] + w[1] + w[2] + w[3] + w[4], w[5]);
    AppendTwice(f + [File(DescriptorName(p), "")], w[0] + w[1] + w[2] + w[3] + w[4] + w[5], w[6]);
    assert "" + DescriptorText(p) == DescriptorText(p);
  }

  /** One pass of the event loop after the rollover: wait for Done, then record
      the event. Without a Done in the rest of the script nothing is written. */
  method AcquireEvent(rig: Rig, disk: Disk, buf: array<string>, i: nat) returns (found: bool, ghost e: Event)
    requires rig.Valid() && disk.Valid() && disk.isOpen && buf.Length == SAMPLES_PER_EVENT
    modifies rig, disk, buf
    ensures rig.Valid() && disk.Valid() && disk.isOpen
    ensures old(rig.polls) <= rig.polls
    ensures found ==>
      e.index == i && WaitOk(e.waited) && e.waited == rig.script[old(rig.polls)..rig.polls]
      && e.trigger == rig.clock(old(rig.ticks)) && e.end == rig.clock(old(rig.ticks) + 1)
      && e.samples == rig.frames(old(rig.fetches))
      && rig.ticks == old(rig.ticks) + 2 && rig.fetches == old(rig.fetches) + 1
      && rig.trace == old(rig.trace) + EventTrace(e, old(rig.fetches))
      && disk.files == AppendToLast(old(disk.files), EventText(e))
    ensures !found ==>
      rig.polls == |rig.script| && NoDone(rig.script[old(rig.polls)..])
      && rig.ticks == old(rig.ticks) && rig.fetches == old(rig.fetches)
      && rig.trace == old(rig.trace) + PollTrace(rig.script[old(rig.polls)..])
      && disk.files == old(disk.files)
  {
    var trigger;
    ghost var waited;
    found, trigger, waited := WaitForTrigger(rig);
    if !found {
      assert rig.script[old(rig.polls)..] == waited;
      e := Event(i, waited, trigger, [], trigger);
      return;
    }
    e := RecordEvent(rig, disk, buf, i, trigger, waited);
  }

  /** Recording an event once Done is seen: read the buffer, write the header and the
      samples, take the end stamp and write it. */
  method RecordEvent(rig: Rig, disk: Disk, buf: array<string>, i: nat, trigger: Stamp, ghost waited: seq<Status>)
    returns (ghost e: Event)
    requires rig.Valid() && disk.Valid() && disk.isOpen && buf.Length == SAMPLES_PER_EVENT
    modifies rig, disk, buf
    ensures rig.Valid() && disk.Valid() && disk.isOpen
    ensures e == Event(i, waited, trigger, rig.frames(old(rig.fetches)), rig.clock(old(rig.ticks)))
    ensures rig.polls == old(rig.polls) && rig.ticks == old(rig.ticks) + 1 && rig.fetches == old(rig.fetches) + 1
    ensures rig.trace == old(rig.trace) + [Fetched(old(rig.fetches)), Clocked(e.end)]
    ensures disk.files == AppendToLast(old(disk.files), EventText(e))
  {
    rig.Fetch(buf);
    var header := "#. " + NatToDecimal(i) + "  " + trigger.text;
    disk.Write(header + "\n");
    WriteSamples(disk, buf);
    var end := rig.Now();
    disk.Write(end.text);
    disk.Write("\n");
    e := Event(i, waited, trigger, buf[..], end);
    EventAppend(old(disk.files), e);
  }

  /** The four writes of one event leave its text at the end of the open file. */
  lemma EventAppend(f0: seq<File>, e: Event)
    requires f0 != []
    ensures AppendToLast(AppendToLast(AppendToLast(AppendToLast(f0, HeaderLine(e) + "\n"),
              LinesText(e.samples)), e.end.text), "\n")
      == AppendToLast(f0, EventText(e))
  {
    var h := HeaderLine(e) + "\n";
    AppendTwice(f0, h, LinesText(e.samples));
    AppendTwice(f0, h + LinesText(e.samples), e.end.text);
    AppendTwice(f0, h + LinesText(e.samples) + e.end.text, "\n");
  }

  lemma AcquiredSnoc(clock: nat -> Stamp, frames: nat -> seq<string>, evs: seq<Event>, e: Event,
                     t0: nat, r0: nat, ticks0: nat, fetches0: nat)
    requires Acquired(clock, frames, evs, t0, r0)
    requires ticks0 == t0 + 2 * |evs| && fetches0 == r0 + |evs|
    requires e.index == |evs| && WaitOk(e.waited) && e.samples == frames(fetches0)
    requires e.trigger == clock(ticks0) && e.end == clock(ticks0 + 1)
    ensures Acquired(clock, frames, evs + [e], t0, r0)
  {
    forall i | 0 <= i < |evs| ensures (evs + [e])[i] == evs[i] { }
  }

  /** The loop invariant of the event loop after i events: the files so far,
      the events acquired from the rig, and what the rig has handed out. */
  ghost predicate Progress(p: Params, rig: Rig, disk: Disk, evs: seq<Event>,
                           base: seq<File>, t0: nat, r0: nat, p0: nat, tr0: seq<Observation>)
    reads rig, disk
  {
    disk.Valid() && disk.isOpen == (|evs| > 0) && disk.files == base + ChunkFiles(p, evs)
    && rig.Valid() && Acquired(rig.clock, rig.frames, evs, t0, r0)
    && rig.ticks == t0 + 2 * |evs| && rig.fetches == r0 + |evs|
    && p0 <= rig.polls == p0 + |Waits(evs)| <= |rig.script| && Waits(evs) == rig.script[p0..rig.polls]
    && rig.trace == tr0 + SessionTrace(evs, r0)
  }

  /** The chunk rollover: at every multiple of EVENTS_PER_CHUNK the open chunk file,
      if any, is closed and the next one opened. */
  method Rollover(p: Params, disk: Disk, i: nat, ghost written: seq<File>)
    requires disk.Valid() && disk.isOpen == (i > 0) && disk.files == written
    modifies disk
    ensures disk.Valid() && disk.isOpen
    ensures disk.files == written + RolloverFile(p, i)
  {
    if i % Chunking.EVENTS_PER_CHUNK == 0 {
      if i != 0 {
        disk.Close();
      }
      disk.Create(ChunkName(p, i / Chunking.EVENTS_PER_CHUNK));
    } else {
      assert written + RolloverFile(p, i) == written;
    }
  }

  /** One pass of the event loop: the chunk rollover, then the event. */
  method NextEvent(p: Params, rig: Rig, disk: Disk, buf: array<string>, i: nat, ghost evs: seq<Event>,
                   ghost base: seq<File>, ghost t0: nat, ghost r0: nat, ghost p0: nat, ghost tr0: seq<Observation>)
    returns (found: bool, ghost e: Event)
    requires |evs| == i < p.entries && Progress(p, rig, disk, evs, base, t0, r0, p0, tr0) && buf.Length == SAMPLES_PER_EVENT
    modifies rig, disk, buf
    ensures found ==> Progress(p, rig, disk, evs + [e], base, t0, r0, p0, tr0)
    ensures !found ==> Session(p, rig, disk, Stalled, evs, base, t0, r0, p0, tr0)
  {
    ghost var polls0, ticks0, fetches0, trace0 := rig.polls, rig.ticks, rig.fetches, rig.trace;
    assert RigReady(rig.clock, rig.frames, rig.script, evs, t0, r0, p0, tr0, polls0, ticks0, fetches0, trace0);
    Rollover(p, disk, i, base + ChunkFiles(p, evs));
    ghost var files0 := disk.files;
    assert ReadyForEvent(p, rig.clock, rig.frames, rig.script, evs, base, t0, r0, p0, tr0, files0, polls0, ticks0, fetches0, trace0);
    found, e := AcquireEvent(rig, disk, buf, i);
    if found {
      ProgressStep(p, rig, disk, evs, e, base, t0, r0, p0, tr0, files0, polls0, ticks0, fetches0, trace0);
    } else {
      StallStep(p, rig, disk, evs, base, t0, r0, p0, tr0, files0, polls0, ticks0, fetches0, trace0);
    }
  }

  /** The state of the rig before an event, as Progress leaves it after i events
      and the rollover that precedes event i. */
  ghost predicate ReadyForEvent(p: Params, clock: nat -> Stamp, frames: nat -> seq<string>, script: seq<Status>,
                                evs: seq<Event>, base: seq<File>, t0: nat, r0: nat, p0: nat, tr0: seq<Observation>,
                                files0: seq<File>, polls0: nat, ticks0: nat, fetches0: nat, trace0: seq<Observation>)
  {
    files0 == base + ChunkFiles(p, evs) + RolloverFile(p, |evs|)
    && RigReady(clock, frames, script, evs, t0, r0, p0, tr0, polls0, ticks0, fetches0, trace0)
  }

  /** What the rig has handed out after the events so far. */
  ghost predicate RigReady(clock: nat -> Stamp, frames: nat -> seq<string>, script: seq<Status>,
                           evs: seq<Event>, t0: nat, r0: nat, p0: nat, tr0: seq<Observation>,
                           polls0: nat, ticks0: nat, fetches0: nat, trace0: seq<Observation>)
  {
    Acquired(clock, frames, evs, t0, r0)
    && ticks0 == t0 + 2 * |evs| && fetches0 == r0 + |evs|
    && p0 <= polls0 == p0 + |Waits(evs)| <= |script| && Waits(evs) == script[p0..polls0]
    && trace0 == tr0 + SessionTrace(evs, r0)
  }

  /** The loop invariant survives one more event. */
  lemma ProgressStep(p: Params, rig: Rig, disk: Disk, evs: seq<Event>, e: Event,
                     base: seq<File>, t0: nat, r0: nat, p0: nat, tr0: seq<Observation>,
                     files0: seq<File>, polls0: nat, ticks0: nat, fetches0: nat, trace0: seq<Observation>)
    requires rig.Valid() && disk.Valid() && disk.isOpen
    requires ReadyForEvent(p, rig.clock, rig.frames, rig.script, evs, base, t0, r0, p0, tr0, files0, polls0, ticks0, fetches0, trace0)
    requires polls0 <= rig.polls
    requires e.index == |evs| && WaitOk(e.waited) && e.waited == rig.script[polls0..rig.polls]
    requires e.trigger == rig.clock(ticks0) && e.end == rig.clock(ticks0 + 1)
    requires e.samples == rig.frames(fetches0)
    requires rig.ticks == ticks0 + 2 && rig.fetches == fetches0 + 1
    requires rig.trace == trace0 + EventTrace(e, fetches0)
    requires disk.files == AppendToLast(files0, EventText(e))
    ensures Progress(p, rig, disk, evs + [e], base, t0, r0, p0, tr0)
  {
    RolloverStep(p, base, evs, e);
    AcquiredSnoc(rig.clock, rig.frames, evs, e, t0, r0, ticks0, fetches0);
    WaitsStep(rig.script, evs, e, p0, polls0, rig.polls);
    TraceStep(rig.trace, trace0, tr0, evs, e, r0, fetches0);
  }

  /** The event loop stops with the rollover's file open when the wait runs dry. */
  lemma StallStep(p: Params, rig: Rig, disk: Disk, evs: seq<Event>,
                  base: seq<File>, t0: nat, r0: nat, p0: nat, tr0: seq<Observation>,
                  files0: seq<File>, polls0: nat, ticks0: nat, fetches0: nat, trace0: seq<Observation>)
    requires |evs| < p.entries && rig.Valid() && disk.Valid() && disk.isOpen
    requires ReadyForEvent(p, rig.clock, rig.frames, rig.script, evs, base, t0, r0, p0, tr0, files0, polls0, ticks0, fetches0, trace0)
    requires rig.polls == |rig.script| && polls0 <= rig.polls && NoDone(rig.script[polls0..])
    requires rig.ticks == ticks0 && rig.fetches == fetches0
    requires rig.trace == trace0 + PollTrace(rig.script[polls0..])
    requires disk.files == files0
    ensures Session(p, rig, disk, Stalled, evs, base, t0, r0, p0, tr0)
  {
  }

  lemma WaitsStep(script: seq<Status>, evs: seq<Event>, e: Event, p0: nat, polls0: nat, polls1: nat)
    requires p0 <= polls0 <= polls1 <= |script| && polls0 == p0 + |Waits(evs)|
    requires Waits(evs) == script[p0..polls0] && e.waited == script[polls0..polls1]
    ensures polls1 == p0 + |Waits(evs + [e])| && Waits(evs + [e]) == script[p0..polls1]
  {
    SessionSnoc(evs, e, 0);
    SliceJoin(script, p0, polls0, polls1);
  }

  lemma TraceStep(trace: seq<Observation>, trace0: seq<Observation>, tr0: seq<Observation>,
                  evs: seq<Event>, e: Event, r0: nat, fetches0: nat)
    requires trace == trace0 + EventTrace(e, fetches0)
    requires trace0 == tr0 + SessionTrace(evs, r0) && fetches0 == r0 + |evs|
    ensures trace == tr0 + SessionTrace(evs + [e], r0)
  {
    SessionSnoc(evs, e, r0);
  }

  lemma SessionSnoc(evs: seq<Event>, e: Event, r0: nat)
    ensures SessionTrace(evs + [e], r0) == SessionTrace(evs, r0) + EventTrace(e, r0 + |evs|)
    ensures Waits(evs + [e]) == Waits(evs) + e.waited
  {
    assert (evs + [e])[..|evs|] == evs;
  }

  /** What an acquisition leaves behind, starting from files0 on the disk and
      the rig at clock reading t0, buffer read r0, poll p0 and trace tr0: the
      events were acquired in order from the rig, and
      - Completed: files0 is followed by one chunk file per group of events,
        every requested event is there and every file is closed;
      - Stalled: the script ran out with no further Done; the chunk file the
        rollover opened for the missing event stays open;
      - OpenFailed: nothing after files0, nothing taken from the rig. */
  ghost predicate Session(p: Params, rig: Rig, disk: Disk, outcome: Outcome, evs: seq<Event>,
                          files0: seq<File>, t0: nat, r0: nat, p0: nat, tr0: seq<Observation>)
    reads rig, disk
  {
    rig.Valid() && disk.Valid()
    && Acquired(rig.clock, rig.frames, evs, t0, r0)
    && rig.ticks == t0 + 2 * |evs| && rig.fetches == r0 + |evs|
    && p0 + |Waits(evs)| <= rig.polls <= |rig.script| && Waits(evs) == rig.script[p0..p0 + |Waits(evs)|]
    && match outcome
       case OpenFailed =>
         evs == [] && disk.files == files0 && !disk.isOpen && rig.polls == p0 && rig.trace == tr0
       case Completed =>
         disk.files == files0 + ChunkFiles(p, evs) && !disk.isOpen
         && |evs| == (if p.entries < 0 then 0 else p.entries)
         && rig.polls == p0 + |Waits(evs)|
         && rig.trace == tr0 + SessionTrace(evs, r0)
       case Stalled =>
         |evs| < p.entries && disk.isOpen && rig.polls == |rig.script|
         && disk.files == files0 + ChunkFiles(p, evs) + RolloverFile(p, |evs|)
         && NoDone(rig.script[p0 + |Waits(evs)|..])
         && rig.trace == tr0 + SessionTrace(evs, r0) + PollTrace(rig.script[p0 + |Waits(evs)|..])
  }

  /** The event loop: chunk rollover, one event per pass, and
      the final close once every requested event is written. */
  method EventLoop(p: Params, rig: Rig, disk: Disk, buf: array<string>) returns (outcome: Outcome, ghost evs: seq<Event>)
    requires disk.Valid() && !disk.isOpen && rig.Valid() && buf.Length == SAMPLES_PER_EVENT
    modifies rig, disk, buf
    ensures outcome != OpenFailed
    ensures Session(p, rig, disk, outcome, evs, old(disk.files), old(rig.ticks), old(rig.fetches), old(rig.polls), old(rig.trace))
  {
    evs := [];
    ghost var base, t0, r0, p0, tr0 := disk.files, rig.ticks, rig.fetches, rig.polls, rig.trace;
    assert rig.script[p0..p0] == [];
    var i: nat := 0;
    while i < p.entries
      invariant p.entries >= 0 ==> i <= p.entries
      invariant p.entries < 0 ==> i == 0
      invariant |evs| == i
      invariant Progress(p, rig, disk, evs, base, t0, r0, p0, tr0)
      decreases p.entries - i
    {
      var found;
      ghost var e;
      found, e := NextEvent(p, rig, disk, buf, i, evs, base, t0, r0, p0, tr0);
      if !found {
        return Stalled, evs;
      }
      evs := evs + [e];
      i := i + 1;
    }
    disk.Close();
    outcome := Completed;
  }

  /** The whole script after argument parsing: the descriptor, the device-open
      guard (quit() without a device), then the event loop. */
  method Acquire(p: Params, rig: Rig, disk: Disk) returns (outcome: Outcome, ghost evs: seq<Event>)
    requires disk.Valid() && !disk.isOpen && rig.Valid()
    modifies rig, disk
    ensures outcome == OpenFailed <==> !rig.attached
    ensures Session(p, rig, disk, outcome, evs, old(disk.files) + [File(DescriptorName(p), DescriptorText(p))],
                    old(rig.ticks), old(rig.fetches), old(rig.polls), old(rig.trace))
  {
    WriteDescriptor(p, disk);
    evs := [];
    if !rig.attached {
      assert rig.script[rig.polls..rig.polls] == [];
      return OpenFailed, evs;
    }
    var buf := new string[SAMPLES_PER_EVENT];
    outcome, evs := EventLoop(p, rig, disk, buf);
  }

  // ---------------------------------------------------------------------------
  // Properties of an acquisition

  /** Every event takes its stamps from the clock and its samples from a
      buffer read, so it prints one line per value when they do. */
  lemma AcquiredPrintable(clock: nat -> Stamp, frames: nat -> seq<string>, evs: seq<Event>, t0: nat, r0: nat)
    requires Acquired(clock, frames, evs, t0, r0) && FullFrames(frames)
    requires forall k: nat :: NoNewline(clock(k).text)
    requires forall k: nat, m :: 0 <= m < |frames(k)| ==> NoNewline(frames(k)[m])
    ensures forall i :: 0 <= i < |evs| ==> Printable(evs[i]) && |evs[i].samples| == SAMPLES_PER_EVENT
  {
    forall i | 0 <= i < |evs| ensures Printable(evs[i]) && |evs[i].samples| == SAMPLES_PER_EVENT {
      assert evs[i].samples == frames(r0 + i);
      assert evs[i].trigger == clock(t0 + 2 * i) && evs[i].end == clock(t0 + 2 * i + 1);
    }
  }

  lemma ChunkFileAt(p: Params, evs: seq<Event>, c: nat)
    requires c < |ChunkFiles(p, evs)|
    ensures ChunkFiles(p, evs)[c] == File(ChunkName(p, c), EventsText(Chunking.Partition(evs)[c]))
  {
  }

  /** Chunk c of the events holds events 10c, 10c+1, … in order, 8194 lines
      each, so the header of its j-th event carries index 10c + j. */
  lemma ChunkContents(p: Params, evs: seq<Event>, c: nat, j: nat)
    requires forall i :: 0 <= i < |evs| ==> Printable(evs[i]) && |evs[i].samples| == SAMPLES_PER_EVENT
    requires forall i :: 0 <= i < |evs| ==> evs[i].index == i
    requires c < |ChunkFiles(p, evs)| && j < |Chunking.Partition(evs)[c]|
    ensures ChunkFiles(p, evs)[c].name == ChunkName(p, c)
    ensures Chunking.EVENTS_PER_CHUNK * c + j < |evs|
    ensures var chunk := Chunking.Partition(evs)[c];
      SplitLines(ChunkFiles(p, evs)[c].text) == EventsLines(chunk)
      && |EventsLines(chunk)| == (SAMPLES_PER_EVENT + 2) * |chunk|
      && chunk[j] == evs[Chunking.EVENTS_PER_CHUNK * c + j]
      && chunk[j].index == Chunking.EVENTS_PER_CHUNK * c + j
  {
    var chunk := Chunking.Partition(evs)[c];
    ChunkFileAt(p, evs, c);
    assert forall k :: 0 <= k < |chunk| ==> Printable(chunk[k]) && |chunk[k].samples| == SAMPLES_PER_EVENT by {
      forall k | 0 <= k < |chunk|
        ensures Chunking.EVENTS_PER_CHUNK * c + k < |evs| && chunk[k] == evs[Chunking.EVENTS_PER_CHUNK * c + k]
      {
        Chunking.PartitionIndex(evs, c, k);
      }
    }
    EventsLayout(chunk);
    Chunking.PartitionIndex(evs, c, j);
  }

  ghost predicate Monotone(clock: nat -> Stamp)
  {
    forall k: nat :: clock(k).time <= clock(k + 1).time
  }

  lemma {:induction false} MonotoneRange(clock: nat -> Stamp, a: nat, b: nat)
    requires Monotone(clock) && a <= b
    ensures clock(a).time <= clock(b).time
    decreases b - a
  {
    if a < b { MonotoneRange(clock, a, b - 1); }
  }

  /** Under a clock that never goes back, every event is triggered before it
      ends, and ends before any later event is triggered. */
  lemma TimestampsOrdered(clock: nat -> Stamp, frames: nat -> seq<string>,
                          evs: seq<Event>, t0: nat, r0: nat, i: nat, j: nat)
    requires Acquired(clock, frames, evs, t0, r0) && Monotone(clock)
    requires i < j < |evs|
    ensures evs[i].trigger.time <= evs[i].end.time <= evs[j].trigger.time <= evs[j].end.time
  {
    MonotoneRange(clock, t0 + 2 * i, t0 + 2 * i + 1);
    MonotoneRange(clock, t0 + 2 * i + 1, t0 + 2 * j);
    MonotoneRange(clock, t0 + 2 * j, t0 + 2 * j + 1);
  }

  /** In what an event observes, the trigger stamp comes right after the poll
      that saw Done and right before the buffer read; every earlier poll saw
      another status; the end stamp comes after the read. */
  lemma TriggerStampOnDone(e: Event, k: nat)
    requires WaitOk(e.waited)
    ensures var t, n := EventTrace(e, k), |e.waited|;
      |t| == n + 3 && t[n - 1] == Polled(Done) && t[n] == Clocked(e.trigger)
      && t[n + 1] == Fetched(k) && t[n + 2] == Clocked(e.end)
      && forall m :: 0 <= m < n - 1 ==> t[m].Polled? && t[m].status != Done
  {
    var t, n := EventTrace(e, k), |e.waited|;
    forall m | 0 <= m < n - 1 ensures t[m].Polled? && t[m].status != Done {
      assert t[m] == Polled(e.waited[m]);
      assert e.waited[..n - 1][m] == e.waited[m];
    }
  }
}

