/**
 * The ticker-file reader of `markets.py`: each non-blank line contributes
 * its first comma-separated field, to the ticker list until the first
 * line starting with "blacklist" (any case) and to the blacklist after it.
 * The file itself is abstracted to its lines, or to the two ways reading
 * it can fail.
 */
module Markets {

  /** What opening and reading the file produced. */
  datatype FileContents = Missing | ReadError | Lines(lines: seq<string>)

  /** Python's `str.isspace` on one character. */
  predicate IsSpace(c: char) {
    var n := c as int;
    (0x09 <= n <= 0x0d) || (0x1c <= n <= 0x20) || n == 0x85 || n == 0xa0 || n == 0x1680
    || (0x2000 <= n <= 0x200a) || n == 0x2028 || n == 0x2029 || n == 0x202f || n == 0x205f
    || n == 0x3000
  }

  /** Drops leading whitespace. */
  function TrimLeft(s: string): (r: string)
    ensures |r| <= |s|
    ensures r == [] || !IsSpace(r[0])
  {
    if s == [] || !IsSpace(s[0]) then s else TrimLeft(s[1..])
  }

  /** What `TrimLeft` drops is a run of whitespace in front of what it keeps. */
  lemma {:induction false} TrimLeftSuffix(s: string)
    ensures TrimLeft(s) == s[|s| - |TrimLeft(s)|..]
    ensures forall i :: 0 <= i < |s| - |TrimLeft(s)| ==> IsSpace(s[i])
  {
    if s != [] && IsSpace(s[0]) {
      TrimLeftSuffix(s[1..]);
      assert s[1..][|s| - 1 - |TrimLeft(s)|..] == s[|s| - |TrimLeft(s)|..];
      forall i | 0 < i < |s| - |TrimLeft(s)| ensures IsSpace(s[i]) {
        assert s[i] == s[1..][i - 1];
      }
    }
  }

  /** Drops trailing whitespace. */
  function TrimRight(s: string): (r: string)
    ensures |r| <= |s| && r == s[..|r|]
    ensures r == [] || !IsSpace(r[|r| - 1])
  {
    if s == [] || !IsSpace(s[|s| - 1]) then s else TrimRight(s[..|s| - 1])
  }

  /** Python's `str.strip()`. */
  function Strip(s: string): string {
    TrimRight(TrimLeft(s))
  }

  /** A stripped line is empty exactly when the raw line is all whitespace. */
  lemma StripEmpty(s: string)
    ensures Strip(s) == [] <==> forall i :: 0 <= i < |s| ==> IsSpace(s[i])
  {
    var l := TrimLeft(s);
    TrimLeftSuffix(s);
    if Strip(s) == [] {
      TrimRightEmpty(l);
      forall i | 0 <= i < |s| ensures IsSpace(s[i]) {
        if i >= |s| - |l| {
          assert s[i] == l[i - (|s| - |l|)];
        }
      }
    }
    if forall i :: 0 <= i < |s| ==> IsSpace(s[i]) {
      TrimLeftAllSpace(s);
    }
  }

  lemma {:induction false} TrimRightEmpty(s: string)
    requires TrimRight(s) == []
    ensures forall i :: 0 <= i < |s| ==> IsSpace(s[i])
  {
    if s != [] {
      TrimRightEmpty(s[..|s| - 1]);
      forall i | 0 <= i < |s| - 1 ensures IsSpace(s[i]) {
        assert s[i] == s[..|s| - 1][i];
      }
    }
  }

  lemma {:induction false} TrimLeftAllSpace(s: string)
    requires forall i :: 0 <= i < |s| ==> IsSpace(s[i])
    ensures TrimLeft(s) == []
  {
    if s != [] {
      TrimLeftAllSpace(s[1..]);
    }
  }

  /** ASCII `str.lower()` on one character. */
  function Lower(c: char): char {
    if 'A' <= c <= 'Z' then (c as int + 32) as char else c
  }

  const Marker: string := "blacklist"

  /** `line.lower().startswith('blacklist')`. */
  predicate IsMarker(line: string) {
    |line| >= |Marker| && LowerAll(line[..|Marker|]) == Marker
  }

  /** ASCII `str.lower()` on a string. */
  function LowerAll(s: string): (r: string)
    ensures |r| == |s|
  {
    if s == [] then [] else [Lower(s[0])] + LowerAll(s[1..])
  }

  /** `line.split(',')[0]`: the text before the first comma, or the whole line. */
  function FirstField(line: string): (r: string)
    ensures |r| <= |line| && r == line[..|r|]
    ensures ',' !in r
    ensures |r| < |line| ==> line[|r|] == ','
  {
    if line == [] || line[0] == ',' then []
    else [line[0]] + FirstField(line[1..])
  }

  /** The reader's state between lines: both lists and the section flag. */
  datatype ScanState = ScanState(tickers: seq<string>, blacklist: seq<string>, inBlacklist: bool)

  /** What one raw line does to the state. */
  function ScanLine(st: ScanState, raw: string): ScanState {
    var line := Strip(raw);
    if line == [] then st
    else if IsMarker(line) then st.(inBlacklist := true)
    else if st.inBlacklist then st.(blacklist := st.blacklist + [FirstField(line)])
    else st.(tickers := st.tickers + [FirstField(line)])
  }

  /** The state after reading `lines` in order. */
  function Scan(lines: seq<string>): ScanState {
    if lines == [] then ScanState([], [], false)
    else ScanLine(Scan(lines[..|lines| - 1]), lines[|lines| - 1])
  }

  /** `get_tickers_from_csv`: the ticker list and the blacklist of a ticker file. */
  method GetTickersFromCsv(file: FileContents) returns (tickers: seq<string>, blacklist: seq<string>)
    ensures !file.Lines? ==> tickers == [] && blacklist == []
    ensures file.Lines? ==> tickers == Scan(file.lines).tickers && blacklist == Scan(file.lines).blacklist
  {
    if !file.Lines? {
      return [], [];
    }
    var lines := file.lines;
    tickers, blacklist := [], [];
    var isBlacklistSection := false;
    for i := 0 to |lines|
      invariant ScanState(tickers, blacklist, isBlacklistSection) == Scan(lines[..i])
    {
      assert lines[..i + 1][..i] == lines[..i];
      var line := Strip(lines[i]);
      if line == [] {
        continue;
      }
      if IsMarker(line) {
        isBlacklistSection := true;
        continue;
      }
      if isBlacklistSection {
        blacklist := blacklist + [FirstField(line)];
      } else {
        tickers := tickers + [FirstField(line)];
      }
    }
    assert lines[..|lines|] == lines;
  }

  /** A line that contributes an entry: neither blank nor a marker. */
  predicate IsEntryLine(raw: string) {
    Strip(raw) != [] && !IsMarker(Strip(raw))
  }

  /** The first field of every entry line of `lines`, in file order. */
  function Entries(lines: seq<string>): seq<string> {
    if lines == [] then []
    else
      var last := lines[|lines| - 1];
      Entries(lines[..|lines| - 1]) + (if IsEntryLine(last) then [FirstField(Strip(last))] else [])
  }

  /** The number of entry lines of `lines`. */
  function CountEntryLines(lines: seq<string>): nat {
    if lines == [] then 0
    else CountEntryLines(lines[..|lines| - 1]) + (if IsEntryLine(lines[|lines| - 1]) then 1 else 0)
  }

  /** Index of the first marker line, or `|lines|` when there is none. */
  function FirstMarker(lines: seq<string>): (m: nat)
    ensures m <= |lines|
    ensures m < |lines| ==> IsMarker(Strip(lines[m]))
    ensures forall i :: 0 <= i < m && i < |lines| ==> !IsMarker(Strip(lines[i]))
  {
    if lines == [] then 0
    else
      var p := lines[..|lines| - 1];
      var m := FirstMarker(p);
      if m < |p| then m
      else if IsMarker(Strip(lines[|lines| - 1])) then |p|
      else |lines|
  }

  lemma {:induction false} EntriesAppend(a: seq<string>, b: seq<string>)
    ensures Entries(a + b) == Entries(a) + Entries(b)
    decreases |b|
  {
    if b == [] {
      assert a + b == a;
    } else {
      var b' := b[..|b| - 1];
      assert (a + b)[..|a + b| - 1] == a + b';
      assert (a + b)[|a + b| - 1] == b[|b| - 1];
      EntriesAppend(a, b');
    }
  }

  /** Every entry line contributes exactly one entry. */
  lemma {:induction false} EntriesCount(lines: seq<string>)
    ensures |Entries(lines)| == CountEntryLines(lines)
  {
    if lines != [] {
      EntriesCount(lines[..|lines| - 1]);
    }
  }

  /**
   * The tickers are the entries before the first marker line and the
   * blacklist is the entries after it (later marker lines are skipped); the
   * section flag is set exactly when a marker line was read.
   */
  lemma {:induction false} ScanSplitsAtFirstMarker(lines: seq<string>)
    ensures var m := FirstMarker(lines);
      Scan(lines) == ScanState(Entries(lines[..m]), Entries(lines[m..]), m < |lines|)
  {
    if lines == [] {
      assert lines[..0] == [] && lines[0..] == [];
    } else {
      var p, l := lines[..|lines| - 1], lines[|lines| - 1];
      assert lines == p + [l];
      ScanSplitsAtFirstMarker(p);
      var mp := FirstMarker(p);
      if mp < |p| {
        SplitAfterMarker(p, l, mp);
      } else if IsMarker(Strip(l)) {
        SplitAtLastLine(p, l);
      } else {
        SplitNoMarker(p, l);
      }
    }
  }

  lemma OneEntry(l: string)
    ensures Entries([l]) == if IsEntryLine(l) then [FirstField(Strip(l))] else []
  {
    assert [l][..0] == [];
  }

  /** `ScanSplitsAtFirstMarker` for `p + [l]` when `p` holds a marker. */
  lemma SplitAfterMarker(p: seq<string>, l: string, mp: nat)
    requires mp == FirstMarker(p) && mp < |p|
    requires Scan(p) == ScanState(Entries(p[..mp]), Entries(p[mp..]), true)
    ensures var m := FirstMarker(p + [l]);
      Scan(p + [l]) == ScanState(Entries((p + [l])[..m]), Entries((p + [l])[m..]), m < |p + [l]|)
  {
    var lines := p + [l];
    assert lines[..|lines| - 1] == p;
    assert FirstMarker(lines) == mp;
    assert lines[..mp] == p[..mp];
    assert lines[mp..] == p[mp..] + [l];
    EntriesAppend(p[mp..], [l]);
    OneEntry(l);
  }

  /** `ScanSplitsAtFirstMarker` for `p + [l]` when `l` is the first marker. */
  lemma SplitAtLastLine(p: seq<string>, l: string)
    requires FirstMarker(p) == |p| && IsMarker(Strip(l))
    requires Scan(p) == ScanState(Entries(p[..|p|]), Entries(p[|p|..]), false)
    ensures var m := FirstMarker(p + [l]);
      Scan(p + [l]) == ScanState(Entries((p + [l])[..m]), Entries((p + [l])[m..]), m < |p + [l]|)
  {
    var lines := p + [l];
    assert lines[..|lines| - 1] == p;
    assert FirstMarker(lines) == |p|;
    assert lines[..|p|] == p && p[..|p|] == p;
    assert lines[|p|..] == [l];
    OneEntry(l);
  }

  /** `ScanSplitsAtFirstMarker` for `p + [l]` when neither holds a marker. */
  lemma SplitNoMarker(p: seq<string>, l: string)
    requires FirstMarker(p) == |p| && !IsMarker(Strip(l))
    requires Scan(p) == ScanState(Entries(p[..|p|]), Entries(p[|p|..]), false)
    ensures var m := FirstMarker(p + [l]);
      Scan(p + [l]) == ScanState(Entries((p + [l])[..m]), Entries((p + [l])[m..]), m < |p + [l]|)
  {
    var lines := p + [l];
    assert lines[..|lines| - 1] == p;
    assert FirstMarker(lines) == |lines|;
    assert lines[..|lines|] == lines && p[..|p|] == p;
    assert lines[|lines|..] == [] && p[|p|..] == [];
  }

  /**
   * Entries keep file order: the two lists together are the entries of
   * the file, one per line that is neither blank nor a marker.
   */
  lemma ScanKeepsEveryEntry(lines: seq<string>)
    ensures Scan(lines).tickers + Scan(lines).blacklist == Entries(lines)
    ensures |Scan(lines).tickers| + |Scan(lines).blacklist| == CountEntryLines(lines)
  {
    ScanSplitsAtFirstMarker(lines);
    EntriesSplit(lines, FirstMarker(lines));
    EntriesCount(lines);
  }

  /** The entries before and from index `m` make up all entries. */
  lemma {:induction false} EntriesSplit(lines: seq<string>, m: nat)
    requires m <= |lines|
    ensures Entries(lines[..m]) + Entries(lines[m..]) == Entries(lines)
  {
    if m == |lines| {
      assert lines[..m] == lines && lines[m..] == [];
    } else {
      var p := lines[..|lines| - 1];
      EntriesSplit(p, m);
      assert p[..m] == lines[..m];
      var tail := lines[m..];
      assert tail[..|tail| - 1] == p[m..] && tail[|tail| - 1] == lines[|lines| - 1];
    }
  }

  /** A blank line anywhere changes nothing. */
  lemma {:induction false} BlankLineIgnored(a: seq<string>, raw: string, b: seq<string>)
    requires Strip(raw) == []
    ensures Scan(a + [raw] + b) == Scan(a + b)
    decreases |b|
  {
    if b == [] {
      assert a + [raw] + b == a + [raw] && (a + [raw])[..|a|] == a && a + b == a;
    } else {
      var b' := b[..|b| - 1];
      BlankLineIgnored(a, raw, b');
      assert (a + [raw] + b)[..|a + [raw] + b| - 1] == a + [raw] + b';
      assert (a + b)[..|a + b| - 1] == a + b';
      assert (a + [raw] + b)[|a + [raw] + b| - 1] == b[|b| - 1] == (a + b)[|a + b| - 1];
    }
  }

  /** Once a marker line is read, the reader stays in the blacklist section. */
  lemma {:induction false} MarkerIsPermanent(a: seq<string>, b: seq<string>)
    requires Scan(a).inBlacklist
    ensures Scan(a + b).inBlacklist
    ensures Scan(a + b).tickers == Scan(a).tickers
    decreases |b|
  {
    if b == [] {
      assert a + b == a;
    } else {
      var b' := b[..|b| - 1];
      MarkerIsPermanent(a, b');
      assert (a + b)[..|a + b| - 1] == a + b';
    }
  }
}
