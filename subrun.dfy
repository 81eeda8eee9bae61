/** The run launcher (bin/run.py): it picks the next free subrun name from the
    descriptors already in the run directory, and assembles the acquisition
    command and the shell actions around it.  The directory listing is an
    input; the launched processes and the printed lines are values. */
module Subrun {
  import opened Text

  const DATA_HEADER := "sub"

  // ---------------------------------------------------------------------------
  // The subrun allocator, find_newrun

  /** The first element of the listing after sort(reverse=True): its greatest
      path in the order Python compares str values. */
  function Greatest(listing: seq<string>): (g: string)
    requires listing != []
    ensures g in listing
    decreases |listing|
  {
    if |listing| == 1 then listing[0]
    else
      var rest := Greatest(listing[1..]);
      if LexLe(listing[0], rest) then rest else listing[0]
  }

  lemma {:induction false} GreatestIsMaximum(listing: seq<string>)
    requires listing != []
    ensures forall f :: f in listing ==> LexLe(f, Greatest(listing))
    decreases |listing|
  {
    var g := Greatest(listing);
    if |listing| == 1 {
      LexLeReflexive(listing[0]);
    } else {
      var tail := listing[1..];
      var rest := Greatest(tail);
      GreatestIsMaximum(tail);
      LexLeReflexive(listing[0]);
      LexLeTotal(listing[0], rest);
      forall f | f in listing
        ensures LexLe(f, g)
      {
        if f != listing[0] {
          assert f in tail;
          if g != rest {
            LexLeTransitive(f, rest, g);
          }
        }
      }
    }
  }

  /** The four characters after the first "sub" of a path: files[0][num_pos+3:num_pos+3+4],
      where a path without "sub" gives num_pos == -1 and so the slice [2:6]. */
  function IndexField(path: string): (f: string)
    ensures |f| <= 4
    ensures var pos := Find(path, DATA_HEADER);
      0 <= pos && pos + 7 <= |path| ==> f == path[pos + 3..pos + 7]
    ensures Find(path, DATA_HEADER) == -1 && 6 <= |path| ==> f == path[2..6]
  {
    var pos := Find(path, DATA_HEADER);
    PySlice(path, pos + 3, pos + 3 + 4)
  }

  /** find_newrun on the result of the glob; None stands for the ValueError
      int() raises when the index field is not a number. */
  function FindNewRun(listing: seq<string>): (r: Option<string>)
    ensures listing == [] ==> r == Some("sub0000")
    ensures r.Some? ==> |r.value| >= 7 && r.value[..3] == DATA_HEADER
  {
    if listing == [] then
      assert ZFill("0", 4) == Zeros(3) + "0" && Zeros(3) == "000";
      assert DATA_HEADER + ZFill("0", 4) == "sub0000";
      Some(DATA_HEADER + ZFill("0", 4))
    else
      match PyInt(IndexField(Greatest(listing)))
      case None => None
      case Some(n) => Some(DATA_HEADER + ZFill(IntToDecimal(n + 1), 4))
  }

  /** The name of subrun k, as the allocator writes it. */
  function SubrunName(k: nat): string
  {
    DATA_HEADER + IndexText(k)
  }

  /** Where the acquisition writes the descriptor of subrun k. */
  function DescriptorPath(dir: string, k: nat): string
  {
    dir + SubrunName(k) + ".txt"
  }

  /** The directory contributes no occurrence of "sub" of its own, not even
      one that reaches into the subrun name. */
  predicate NoHeaderIn(dir: string)
  {
    Find(dir + DATA_HEADER, DATA_HEADER) == |dir|
  }

  lemma HeaderPosition(dir: string, k: nat)
    requires NoHeaderIn(dir)
    ensures Find(DescriptorPath(dir, k), DATA_HEADER) == |dir|
  {
    assert DescriptorPath(dir, k) == dir + DATA_HEADER + (IndexText(k) + ".txt");
    HeaderAt(dir, IndexText(k) + ".txt");
  }

  /** find('sub') in a path under such a directory lands just after the directory. */
  lemma HeaderAt(dir: string, rest: string)
    requires NoHeaderIn(dir)
    ensures Find(dir + DATA_HEADER + rest, DATA_HEADER) == |dir|
  {
    var s := dir + DATA_HEADER + rest;
    var d := dir + DATA_HEADER;
    assert s[..|d|] == d;
    assert OccursAt(s, DATA_HEADER, |dir|) by {
      assert s[|dir|..|dir| + 3] == d[|dir|..];
    }
    forall j | 0 <= j < |dir|
      ensures !OccursAt(s, DATA_HEADER, j)
    {
      assert s[j..j + 3] == d[j..j + 3];
      assert !OccursAt(d, DATA_HEADER, j);
    }
  }

  /** The index field of a descriptor path is the zero-padded subrun index. */
  /** A directory without the letter 's' has no "sub" of its own. */
  lemma NoLetterS(dir: string)
    requires 's' !in dir
    ensures NoHeaderIn(dir)
  {
    var d := dir + DATA_HEADER;
    assert OccursAt(d, DATA_HEADER, |dir|) by {
      assert d[|dir|..|dir| + 3] == DATA_HEADER;
    }
    forall j | 0 <= j < |dir|
      ensures !OccursAt(d, DATA_HEADER, j)
    {
      assert d[j] == dir[j] != 's';
      if j + 3 <= |d| {
        assert d[j..j + 3][0] == d[j];
      }
    }
  }

  /** The directory run() passes to find_newrun has no "sub" of its own. */
  lemma EditedDirHasNoHeader()
    ensures NoHeaderIn(RunDir(EDITED) + "/")
  {
    var dir := RunDir(EDITED) + "/";
    assert dir == "/home/pi/ad2/data/" + "20200705" + "/";
    assert 's' !in "/home/pi/ad2/data/" && 's' !in "20200705" && 's' !in "/";
    NoLetterS(dir);
  }

  /** A descriptor whose index is not four digits breaks find_newrun: for
      `sub1.txt` the field is "1.tx", and int() raises ValueError. */
  lemma ShortIndexRaises(dir: string)
    requires NoHeaderIn(dir)
    ensures IndexField(dir + "sub1.txt") == "1.tx"
    ensures FindNewRun([dir + "sub1.txt"]) == None
  {
    var path := dir + "sub1.txt";
    assert IndexField(path) == "1.tx" by {
      assert path == dir + DATA_HEADER + "1.txt";
      HeaderAt(dir, "1.txt");
      assert path[|dir| + 3..|dir| + 7] == "1.tx";
    }
    assert PyInt(IndexField(Greatest([path]))) == None by {
      PyIntValueError("1.tx", 1);
      assert Greatest([path]) == path;
    }
  }

  lemma DescriptorIndexField(dir: string, k: nat)
    requires NoHeaderIn(dir) && k < 10000
    ensures IndexField(DescriptorPath(dir, k)) == IndexText(k)
    ensures PyInt(IndexField(DescriptorPath(dir, k))) == Some(k)
  {
    var s := DescriptorPath(dir, k);
    HeaderPosition(dir, k);
    assert s == dir + DATA_HEADER + IndexText(k) + ".txt";
    assert s[|dir| + 3..|dir| + 7] == IndexText(k);
  }

  /** Below 10000, descriptor paths sort in subrun order. */
  lemma DescriptorOrder(dir: string, a: nat, b: nat)
    requires a < 10000 && b < 10000
    ensures LexLe(DescriptorPath(dir, a), DescriptorPath(dir, b)) <==> a <= b
  {
    var pre := dir + DATA_HEADER;
    assert DescriptorPath(dir, a) == pre + (IndexText(a) + ".txt");
    assert DescriptorPath(dir, b) == pre + (IndexText(b) + ".txt");
    LexLeCommonPrefix(pre, IndexText(a) + ".txt", IndexText(b) + ".txt");
    IndexTextOrder(a, b, ".txt");
  }

  lemma DescriptorPathInjective(dir: string, a: nat, b: nat)
    requires DescriptorPath(dir, a) == DescriptorPath(dir, b)
    ensures a == b
  {
    var pre := dir + DATA_HEADER;
    var sa, sb := IndexText(a) + ".txt", IndexText(b) + ".txt";
    assert DescriptorPath(dir, a) == pre + sa && DescriptorPath(dir, b) == pre + sb;
    assert sa == DescriptorPath(dir, a)[|pre|..];
    assert sb == DescriptorPath(dir, b)[|pre|..];
    IndexTextInjective(a, b, ".txt");
  }

  /** A listing of the descriptors of subruns ks, in any order. */
  predicate ListsSubruns(listing: seq<string>, dir: string, ks: seq<nat>)
  {
    |listing| == |ks| && forall i :: 0 <= i < |ks| ==> listing[i] == DescriptorPath(dir, ks[i])
  }

  /** When the greatest listed path is the descriptor of subrun k, the next name is k + 1. */
  lemma NextAfterGreatest(listing: seq<string>, dir: string, k: nat)
    requires listing != [] && NoHeaderIn(dir) && k < 10000 && Greatest(listing) == DescriptorPath(dir, k)
    ensures FindNewRun(listing) == Some(SubrunName(k + 1))
  {
    DescriptorIndexField(dir, k);
    assert IntToDecimal(k + 1) == NatToDecimal(k + 1);
  }

  /** In a directory of four-digit subruns whose largest index is m, the
      allocator names subrun m + 1, whose descriptor is not yet in the
      listing: it never reuses a name below 10000. */
  lemma NextAfterLargest(listing: seq<string>, dir: string, ks: seq<nat>, m: nat)
    requires NoHeaderIn(dir) && ListsSubruns(listing, dir, ks)
    requires m in ks && forall k :: k in ks ==> k <= m
    requires forall k :: k in ks ==> k < 10000
    ensures FindNewRun(listing) == Some(SubrunName(m + 1))
    ensures forall k :: k in ks ==> k < m + 1
    ensures DescriptorPath(dir, m + 1) !in listing
  {
    var g := Greatest(listing);
    GreatestIsMaximum(listing);
    var i0 :| 0 <= i0 < |listing| && listing[i0] == g;
    var im :| 0 <= im < |ks| && ks[im] == m;
    assert ks[i0] in ks;
    assert LexLe(listing[im], g);
    DescriptorOrder(dir, m, ks[i0]);
    assert ks[i0] == m;
    NextAfterGreatest(listing, dir, m);
    if DescriptorPath(dir, m + 1) in listing {
      var j :| 0 <= j < |listing| && listing[j] == DescriptorPath(dir, m + 1);
      assert ks[j] in ks;
      DescriptorPathInjective(dir, ks[j], m + 1);
      assert false;
    }
  }

  /** Descriptors sub0000 … sub0007 lead to sub0008. */
  lemma EightSubrunsThenSub0008(listing: seq<string>, dir: string)
    requires NoHeaderIn(dir)
    requires ListsSubruns(listing, dir, [0, 1, 2, 3, 4, 5, 6, 7])
    ensures FindNewRun(listing) == Some("sub0008")
  {
    var ks: seq<nat> := [0, 1, 2, 3, 4, 5, 6, 7];
    assert ks[7] == 7;
    NextAfterLargest(listing, dir, ks, 7);
    Sub0008();
  }

  lemma Sub0008()
    ensures SubrunName(8) == "sub0008"
  {
    assert NatToDecimal(8) == [DigitChar(8)] == "8";
    assert IndexText(8) == Zeros(3) + "8" && Zeros(3) == "000";
  }

  lemma Decimal10000()
    ensures NatToDecimal(10000) == "10000"
  {
    assert NatToDecimal(1) == "1";
    assert NatToDecimal(10) == "10";
    assert NatToDecimal(100) == "100";
    assert NatToDecimal(1000) == "1000";
  }

  lemma Sub10000()
    ensures SubrunName(10000) == "sub10000"
  {
    Decimal10000();
  }

  /** Subrun 9999 is followed by the five-digit sub10000: zfill pads and never truncates. */
  lemma AfterSub9999(listing: seq<string>, dir: string)
    requires NoHeaderIn(dir) && ListsSubruns(listing, dir, [9999])
    ensures FindNewRun(listing) == Some("sub10000")
  {
    var ks: seq<nat> := [9999];
    assert ks[0] == 9999;
    NextAfterLargest(listing, dir, ks, 9999);
    Sub10000();
  }

  lemma Index9999()
    ensures IndexText(9999) == "9999"
  {
    assert NatToDecimal(9) == "9";
    assert NatToDecimal(99) == "99";
    assert NatToDecimal(999) == "999";
    assert NatToDecimal(9999) == "9999";
  }

  /** sub9999 sorts after sub10000, since '9' comes after '1'. */
  lemma Sub9999SortsLast(dir: string)
    ensures Greatest([DescriptorPath(dir, 9999), DescriptorPath(dir, 10000)]) == DescriptorPath(dir, 9999)
  {
    var a, b := DescriptorPath(dir, 9999), DescriptorPath(dir, 10000);
    var pre := dir + DATA_HEADER;
    var ta, tb := IndexText(9999) + ".txt", IndexText(10000) + ".txt";
    Index9999();
    Sub10000();
    assert a == pre + ta && b == pre + tb;
    assert ta[0] == '9' && tb[0] == '1';
    LexLeCommonPrefix(pre, ta, tb);
    assert [a, b][1..] == [b];
  }

  /** Past sub10000 the allocator repeats itself: only four characters are
      read, so sub9999 still sorts last and sub10000 is named again, although
      its descriptor already exists. */
  lemma RepeatsAfterSub10000(dir: string)
    requires NoHeaderIn(dir)
    ensures FindNewRun([DescriptorPath(dir, 9999), DescriptorPath(dir, 10000)]) == Some("sub10000")
    ensures DescriptorPath(dir, 10000) == dir + "sub10000.txt"
  {
    Sub9999SortsLast(dir);
    NextAfterGreatest([DescriptorPath(dir, 9999), DescriptorPath(dir, 10000)], dir, 9999);
    Sub10000();
    Descriptor10000(dir);
  }

  lemma Descriptor10000(dir: string)
    ensures DescriptorPath(dir, 10000) == dir + "sub10000.txt"
  {
    Sub10000();
    assert "sub10000" + ".txt" == "sub10000.txt";
    assert dir + "sub10000" + ".txt" == dir + ("sub10000" + ".txt");
  }

  /** glob returns the paths in no particular order; the name depends only on
      which paths are listed. */
  lemma ListingOrderIrrelevant(l1: seq<string>, l2: seq<string>)
    requires forall f :: f in l1 <==> f in l2
    ensures FindNewRun(l1) == FindNewRun(l2)
  {
    if l1 != [] {
      assert l1[0] in l2;
      var g1, g2 := Greatest(l1), Greatest(l2);
      GreatestIsMaximum(l1);
      GreatestIsMaximum(l2);
      assert LexLe(g1, g2) && LexLe(g2, g1);
      LexLeAntisymmetric(g1, g2);
      SameGreatest(l1, l2);
    }
  }

  lemma SameGreatest(l1: seq<string>, l2: seq<string>)
    requires l1 != [] && l2 != [] && Greatest(l1) == Greatest(l2)
    ensures FindNewRun(l1) == FindNewRun(l2)
  {
  }

  // ---------------------------------------------------------------------------
  // The command and the run, run()

  /** The values edited at the top of run(); the floats are kept as the text
      str() gives of them. */
  datatype Settings = Settings(
    dataDir: string,
    subDir: string,
    entries: int,
    frequency: string,
    triggerLevel: string,
    triggerType: string,
    triggerPosition: string,
    daqCmd: string)

  const EDITED: Settings := Settings(
    "/home/pi/ad2/data/", "20200705", 10000,
    "10000000.0", "-1.0", "rise", "0.0003", "/home/pi/ad2/bin/daq")

  function RunDir(s: Settings): string
  {
    s.dataDir + s.subDir
  }

  /** The command has seven words: the program, the four trigger settings,
      the number of events in decimal, and an output path inside the run
      directory ending in the subrun name. */
  function Command(s: Settings, subrun: string): (cmd: seq<string>)
    ensures |cmd| == 7 && cmd[0] == s.daqCmd
    ensures cmd[1] == s.frequency && cmd[2] == s.triggerLevel && cmd[3] == s.triggerType && cmd[4] == s.triggerPosition
    ensures cmd[5] == IntToDecimal(s.entries)
    ensures |RunDir(s)| + 1 <= |cmd[6]| && cmd[6][..|RunDir(s)| + 1] == RunDir(s) + "/"
    ensures cmd[6][|RunDir(s)| + 1..] == subrun
  {
    [s.daqCmd, s.frequency, s.triggerLevel, s.triggerType, s.triggerPosition,
     IntToDecimal(s.entries), RunDir(s) + "/" + subrun]
  }

  /** The number of events on the command line reads back as the configured number. */
  lemma CommandEntries(s: Settings, subrun: string)
    ensures PyInt(Command(s, subrun)[5]) == Some(s.entries)
  {
    IntRoundTrip(s.entries);
  }

  /** What print_cmd prints: every word followed by a space, then a newline. */
  function Spaced(words: seq<string>): string
  {
    if words == [] then "" else Spaced(words[..|words| - 1]) + words[|words| - 1] + " "
  }

  function PrintedLine(words: seq<string>): string
  {
    Spaced(words) + "\n"
  }

  /** A line printed on the console, or a process started and waited for. */
  datatype Action = Echo(line: string) | Spawn(argv: seq<string>)

  const MANUAL_COPY := ["Manual copy:", "/home/pi/ad2/bin/autocopy.sh"]
  const AUTO_COPY := "/Users/mzks/drs4/run_scripts/autocopy.sh"

  /** One run(): the actions in the order they happen, or None when
      find_newrun raises before anything is printed or started. The run
      directory is created before the acquisition starts, the only two
      processes are those two, the command printed is the command started, and
      the acquisition writes under that directory with the allocated name. */
  function Run(s: Settings, listing: seq<string>): (r: Option<seq<Action>>)
    ensures r.Some? <==> FindNewRun(listing).Some?
    ensures r.Some? ==>
      var acts, name := r.value, FindNewRun(listing).value;
      |acts| == 5 &&
      (forall k :: 0 <= k < |acts| && acts[k].Spawn? ==> k == 1 || k == 3) &&
      acts[1] == Spawn(["mkdir", "-p", RunDir(s)]) &&
      acts[3] == Spawn(Command(s, name)) &&
      acts[2] == Echo(PrintedLine(Command(s, name))) &&
      acts[0] == Echo(PrintedLine(MANUAL_COPY + [RunDir(s)])) &&
      acts[4] == Echo(PrintedLine([AUTO_COPY, s.subDir]))
  {
    match FindNewRun(listing)
    case None => None
    case Some(name) =>
      var cmd := Command(s, name);
      var acts := [Echo(PrintedLine(MANUAL_COPY + [RunDir(s)])),
                   Spawn(["mkdir", "-p", RunDir(s)]),
                   Echo(PrintedLine(cmd)),
                   Spawn(cmd),
                   Echo(PrintedLine([AUTO_COPY, s.subDir]))];
      SpawnsBetweenEchoes(acts);
      Some(acts)
  }

  lemma SpawnsBetweenEchoes(acts: seq<Action>)
    requires |acts| == 5 && acts[0].Echo? && acts[2].Echo? && acts[4].Echo?
    ensures forall k :: 0 <= k < |acts| && acts[k].Spawn? ==> k == 1 || k == 3
  {
  }

  /** With an empty run directory and the edited settings the first command
      writes subrun sub0000 under /home/pi/ad2/data/20200705. */
  lemma FirstRunOfTheDay()
    ensures Run(EDITED, []).Some?
    ensures Run(EDITED, []).value[3] ==
      Spawn(["/home/pi/ad2/bin/daq", "10000000.0", "-1.0", "rise", "0.0003", "10000",
             "/home/pi/ad2/data/20200705/sub0000"])
  {
    assert FindNewRun([]) == Some("sub0000");
    EditedCommand();
  }

  lemma EditedCommand()
    ensures Command(EDITED, "sub0000") ==
      ["/home/pi/ad2/bin/daq", "10000000.0", "-1.0", "rise", "0.0003", "10000",
       "/home/pi/ad2/data/20200705/sub0000"]
  {
    Decimal10000();
    assert IntToDecimal(EDITED.entries) == "10000";
    assert RunDir(EDITED) + "/" + "sub0000" == "/home/pi/ad2/data/20200705/sub0000";
  }

  lemma {:induction false} SpacedNoNewline(words: seq<string>)
    requires forall k :: 0 <= k < |words| ==> NoNewline(words[k])
    ensures NoNewline(Spaced(words))
    decreases |words|
  {
    if words != [] {
      SpacedNoNewline(words[..|words| - 1]);
    }
  }

  /** print_cmd prints exactly one line. */
  lemma PrintedLineIsOneLine(words: seq<string>)
    requires forall k :: 0 <= k < |words| ==> NoNewline(words[k])
    ensures SplitLines(PrintedLine(words)) == [Spaced(words)]
  {
    SpacedNoNewline(words);
    SplitLinesCons(Spaced(words), "");
    assert Spaced(words) + "\n" + "" == PrintedLine(words);
    assert SplitLines("") == [];
  }
}
