/** Reading /proc/pressure (readPressureStall and its helpers in pixelstats/MmMetricsReporter.cpp).
    Files come as lines of text; the library's number parsers are parameters. */
module PsiParser {
  import opened Options
  import opened Integers

  const NUM_FILES := 3
  const CATEGORIES: seq<string> := ["full", "some"]
  const NAMES: seq<string> := ["avg10", "avg60", "avg300", "total"]
  const NUM_NAMES := 4
  const METRICS_PER_FILE := 8
  const NUM_METRICS := 20
  const NUM_WORDS := 5
  const FULL := 0
  const TOTAL := 3

  datatype Parsers = Parsers(uint: string -> Option<U64Value>, double: string -> Option<real>)

  // ---------- Words ----------

  predicate IsSpace(ch: char) {
    ch in " \t\n\r" || ch as int == 11 || ch as int == 12
  }

  function TrimLeft(s: string): string {
    if s != [] && IsSpace(s[0]) then TrimLeft(s[1..]) else s
  }

  function TrimRight(s: string): string {
    if s != [] && IsSpace(s[|s| - 1]) then TrimRight(s[..|s| - 1]) else s
  }

  function Trim(s: string): string {
    TrimRight(TrimLeft(s))
  }

  /** The pieces between delimiters, empty ones left out. */
  function Tokenize(s: string, delimiter: char): seq<string> {
    Scan(s, delimiter, [])
  }

  function Scan(s: string, delimiter: char, word: string): seq<string> {
    if s == [] then (if word == [] then [] else [word])
    else if s[0] == delimiter then (if word == [] then [] else [word]) + Scan(s[1..], delimiter, [])
    else Scan(s[1..], delimiter, word + [s[0]])
  }

  lemma {:induction false} ScanSplits(a: string, d: char, b: string, word: string)
    requires d !in word
    ensures Scan(a + [d] + b, d, word) == Scan(a, d, word) + Scan(b, d, [])
  {
    var s := a + [d] + b;
    if a == [] {
      assert s[1..] == b;
    } else {
      assert s[1..] == a[1..] + [d] + b;
      ScanSplits(a[1..], d, b, if a[0] == d then [] else word + [a[0]]);
    }
  }

  /** A delimiter splits, and nothing else does; nothing is left of nothing. */
  lemma TokenizeLaw(a: string, d: char, b: string)
    ensures Tokenize(a + [d] + b, d) == Tokenize(a, d) + Tokenize(b, d)
    ensures d !in a ==> Tokenize(a, d) == if a == [] then [] else [a]
  {
    ScanSplits(a, d, b, []);
    if d !in a && a != [] {
      ScanWhole(a, d, []);
      assert [] + a == a;
    }
  }

  lemma {:induction false} ScanWhole(w: string, d: char, word: string)
    requires d !in w && word + w != []
    ensures Scan(w, d, word) == [word + w]
  {
    if w == [] {
      assert word + w == word;
    } else {
      ScanWhole(w[1..], d, word + [w[0]]);
      assert word + [w[0]] + w[1..] == word + w;
    }
  }

  lemma {:induction false} TrimmedRight(s: string, ch: char)
    requires IsSpace(ch)
    ensures TrimRight(s + [ch]) == TrimRight(s)
  {
    assert (s + [ch])[..|s|] == s;
  }

  /** White space around a line does not count, and nothing else is taken away. */
  lemma TrimLaw(s: string, ch: char)
    ensures IsSpace(ch) <==> ch as int == 32 || 9 <= ch as int <= 13
    ensures IsSpace(ch) ==> Trim([ch] + s) == Trim(s)
    ensures s != [] && !IsSpace(s[0]) && !IsSpace(s[|s| - 1]) ==> Trim(s) == s && (IsSpace(ch) ==> Trim(s + [ch]) == s)
    ensures Trim([]) == []
  {
    assert ([ch] + s)[1..] == s;
    if s != [] && !IsSpace(s[0]) && !IsSpace(s[|s| - 1]) && IsSpace(ch) {
      TrimmedRight(s, ch);
    }
  }

  function Words(line: string): seq<string> {
    Tokenize(Trim(line), ' ')
  }

  /** The position of x in xs, |xs| if it is not there. */
  function IndexOf(xs: seq<string>, x: string): (i: nat)
    ensures i <= |xs| && (i < |xs| ==> xs[i] == x)
    ensures forall j :: 0 <= j < i ==> xs[j] != x
  {
    if xs == [] then 0 else if xs[0] == x then 0 else 1 + IndexOf(xs[1..], x)
  }

  // ---------- What a sample is ----------

  /** Where a metric is stored: the imaginary cpu "full" line would come first and takes no room. */
  function Slot(file: nat, category: nat, name: nat): int {
    METRICS_PER_FILE * file - NUM_NAMES + NUM_NAMES * category + name
  }

  predicate IsMetric(file: nat, category: nat, name: nat) {
    file < NUM_FILES && category < |CATEGORIES| && name < NUM_NAMES && !(file == 0 && category == FULL)
  }

  function ToLong(x: U64Value): int {
    if x < U64 / 2 then x else x - U64
  }

  function MetricValue(p: Parsers, name: nat, text: string): int {
    if name == TOTAL then (match p.uint(text) case Some(x) => ToLong(x) case None => -1)
    else (match p.double(text) case Some(d) => Trunc(d * 100.0 + 0.5) case None => -1)
  }

  /** An average is stored as the documented floor of its hundredths plus a half, exactly unless that is
      negative and not whole. */
  lemma AverageRounding(p: Parsers, name: nat, text: string)
    requires name != TOTAL && p.double(text).Some?
    ensures
      var h := p.double(text).value * 100.0 + 0.5;
      MetricValue(p, name, text) == h.Floor <==> h >= 0.0 || h.Floor as real == h
  {
    TruncIsFloor(p.double(text).value * 100.0 + 0.5);
  }

  /** -0.01 is stored as 0, where the floor of -0.5 is -1. */
  lemma NegativeAverageRoundsUp(p: Parsers, text: string)
    requires p.double(text) == Some(-0.01)
    ensures MetricValue(p, 0, text) == 0 && (-0.01 * 100.0 + 0.5).Floor == -1
  {
    assert -0.01 * 100.0 + 0.5 == -0.5;
  }

  predicate IsPair(word: string) {
    |Tokenize(word, '=')| == 2 && Tokenize(word, '=')[0] in NAMES
  }

  predicate IsLine(isCpu: bool, line: string) {
    var words := Words(line);
    && |words| == NUM_WORDS && words[0] in CATEGORIES
    && ((isCpu && words[0] == CATEGORIES[FULL]) || forall i :: 1 <= i < NUM_WORDS ==> IsPair(words[i]))
  }

  /** A line is five words, "full" or "some" and four pairs; in the cpu file those after "full" do not matter. */
  lemma LineIs(isCpu: bool, line: string)
    ensures
      var words := Words(line);
      IsLine(isCpu, line) <==>
      && |words| == 5 && (words[0] == "full" || words[0] == "some")
      && ((isCpu && words[0] == "full") || forall w :: w in words[1..] ==> IsPair(w))
  {
    var words := Words(line);
    if |words| == 5 {
      assert words[1..] == [words[1], words[2], words[3], words[4]];
      assert forall i :: 1 <= i < 5 ==> words[i] in words[1..];
    }
  }

  /** A pair is a name of the four, "=" and one more piece. */
  lemma PairIs(word: string)
    ensures
      var parts := Tokenize(word, '=');
      IsPair(word) <==>
      |parts| == 2 && (parts[0] == "avg10" || parts[0] == "avg60" || parts[0] == "avg300" || parts[0] == "total")
  {
    assert forall x :: x in NAMES <==> x == "avg10" || x == "avg60" || x == "avg300" || x == "total";
  }

  /** The last of the pairs in words[1..k] that is named by `name` gives the value. */
  function FromWords(p: Parsers, words: seq<string>, k: nat, name: nat, before: int): int
    requires 1 <= k <= |words| && forall i :: 1 <= i < k ==> IsPair(words[i])
  {
    if k == 1 then before
    else
      assert IsPair(words[k - 1]);
      var pair := Tokenize(words[k - 1], '=');
      if IndexOf(NAMES, pair[0]) == name then MetricValue(p, name, pair[1])
      else FromWords(p, words, k - 1, name, before)
  }

  /** What the first k lines of a file say about the metric `name` of `category`. */
  function FromLines(p: Parsers, isCpu: bool, lines: seq<string>, k: nat, category: nat, name: nat): int
    requires k <= |lines| && forall i :: 0 <= i < k ==> IsLine(isCpu, lines[i])
    requires category < |CATEGORIES| && !(isCpu && category == FULL)
  {
    if k == 0 then -1
    else
      assert IsLine(isCpu, lines[k - 1]);
      var words := Words(lines[k - 1]);
      var before := FromLines(p, isCpu, lines, k - 1, category, name);
      if IndexOf(CATEGORIES, words[0]) != category then before
      else FromWords(p, words, NUM_WORDS, name, before)
  }

  type File = Option<seq<string>>

  predicate IsFile(isCpu: bool, file: File) {
    file.Some? && forall i :: 0 <= i < |file.value| ==> IsLine(isCpu, file.value[i])
  }

  /** The 20 metrics, each from its own file and line; all of them -1 if anything is malformed. */
  ghost predicate IsSample(p: Parsers, files: seq<File>, store: seq<int>)
    requires |files| == NUM_FILES
  {
    && |store| == NUM_METRICS
    && if forall f :: 0 <= f < NUM_FILES ==> IsFile(f == 0, files[f])
       then forall f: nat, c: nat, n: nat :: IsMetric(f, c, n) ==>
              0 <= Slot(f, c, n) < NUM_METRICS &&
              store[Slot(f, c, n)] == FromLines(p, f == 0, files[f].value, |files[f].value|, c, n)
       else forall i :: 0 <= i < NUM_METRICS ==> store[i] == -1
  }

  /** Distinct metrics have distinct slots, and the metrics fill the store. */
  lemma SlotsPartition(f: nat, c: nat, n: nat)
    requires IsMetric(f, c, n)
    ensures 0 <= Slot(f, c, n) < NUM_METRICS
    ensures forall f': nat, c': nat, n': nat ::
              IsMetric(f', c', n') && Slot(f', c', n') == Slot(f, c, n) ==> f == f' && c == c' && n == n'
  {
  }

  /** The order in which the metrics are stored: cpu some, io full, io some, memory full, memory some, each with its averages
      over 10, 60 and 300 seconds and its total. */
  lemma SlotsInOrder(n: nat)
    requires n < 4
    ensures Slot(0, 1, n) == n && Slot(1, 0, n) == 4 + n && Slot(1, 1, n) == 8 + n
    ensures Slot(2, 0, n) == 12 + n && Slot(2, 1, n) == 16 + n
    ensures CATEGORIES == ["full", "some"] && NAMES == ["avg10", "avg60", "avg300", "total"]
  {
  }

  /** A total is the parsed number in 64 bits with a sign, and what does not parse is -1. */
  lemma ValuesInRange(p: Parsers, text: string, n: nat)
    requires n < 4
    ensures p.uint(text).None? ==> MetricValue(p, 3, text) == -1
    ensures p.uint(text).Some? ==>
              && -9223372036854775808 <= MetricValue(p, 3, text) < 9223372036854775808
              && (MetricValue(p, 3, text) - p.uint(text).value) % 18446744073709551616 == 0
    ensures n < 3 && p.double(text).None? ==> MetricValue(p, n, text) == -1
  {
  }

  /** Of several pairs with the same name the last one counts. */
  lemma {:induction false} LastPairCounts(p: Parsers, words: seq<string>, k: nat, j: nat, name: nat, before: int)
    requires 1 <= j < k <= |words| && name < NUM_NAMES && forall i :: 1 <= i < k ==> IsPair(words[i])
    requires IsPair(words[j]) && Tokenize(words[j], '=')[0] == NAMES[name]
    requires forall i :: j < i < k ==> IsPair(words[i]) && Tokenize(words[i], '=')[0] != NAMES[name]
    ensures FromWords(p, words, k, name, before) == MetricValue(p, name, Tokenize(words[j], '=')[1])
  {
    hide Tokenize;
    assert IsPair(words[k - 1]);
    if j < k - 1 {
      LastPairCounts(p, words, k - 1, j, name, before);
    } else {
      assert NAMES[0] == "avg10" && NAMES[1] == "avg60" && NAMES[2] == "avg300" && NAMES[3] == "total";
      assert NAMES[0] != NAMES[1] && NAMES[0] != NAMES[2] && NAMES[1][3] != NAMES[2][3] && NAMES[3][0] != NAMES[0][0];
    }
  }

  function SlotOwner(i: nat): (m: (nat, nat, nat))
    requires i < NUM_METRICS
    ensures IsMetric(m.0, m.1, m.2) && Slot(m.0, m.1, m.2) == i
  {
    ((i + NUM_NAMES) / METRICS_PER_FILE, (i + NUM_NAMES) % METRICS_PER_FILE / NUM_NAMES, i % NUM_NAMES)
  }

  // ---------- The parser ----------

  method FindName(names: seq<string>, name: string) returns (idx: nat)
    ensures idx == IndexOf(names, name)
  {
    idx := 0;
    while idx < |names|
      invariant idx <= |names| && forall j :: 0 <= j < idx ==> names[j] != name
    {
      if names[idx] == name {
        return;
      }
      idx := idx + 1;
    }
  }

  method SavePressureMetrics(p: Parsers, name: string, value: string, store: array<int>, base: int) returns (ok: bool)
    modifies store
    ensures ok <==> name in NAMES && 0 <= base + IndexOf(NAMES, name) < store.Length
    ensures !ok ==> store[..] == old(store[..])
    ensures ok ==> var n := IndexOf(NAMES, name); store[..] == old(store[..])[base + n := MetricValue(p, n, value)]
  {
    var nameIdx := FindName(NAMES, name);
    if nameIdx == NUM_NAMES {
      return false;
    }
    var out: int;
    if nameIdx == TOTAL {
      var x := p.uint(value);
      out := if x.None? then -1 else ToLong(x.value);
    } else {
      var d := p.double(value);
      out := if d.Some? then Trunc(d.value * 100.0 + 0.5) else -1;
    }
    if base + nameIdx < 0 || base + nameIdx >= store.Length {
      return false;
    }
    store[base + nameIdx] := out;
    return true;
  }

  method ParsePressureStallWords(p: Parsers, words: seq<string>, store: array<int>, base: nat) returns (ok: bool)
    requires |words| > 0 && base + NUM_NAMES <= store.Length
    modifies store
    ensures ok <==> forall i :: 1 <= i < |words| ==> IsPair(words[i])
    ensures ok ==> forall x :: 0 <= x < store.Length ==>
                     store[x] == if base <= x < base + NUM_NAMES
                                 then FromWords(p, words, |words|, x - base, old(store[x])) else old(store[x])
  {
    for i := 1 to |words|
      invariant forall j :: 1 <= j < i ==> IsPair(words[j])
      invariant forall x :: 0 <= x < store.Length ==>
                  store[x] == if base <= x < base + NUM_NAMES
                              then FromWords(p, words, i, x - base, old(store[x])) else old(store[x])
    {
      var metric := Tokenize(words[i], '=');
      if |metric| != 2 {
        return false;
      }
      var saved := SavePressureMetrics(p, metric[0], metric[1], store, base);
      if !saved {
        return false;
      }
    }
    return true;
  }

  /** What the slots of file f hold after its first k lines, if the slots of the other files are as in `was`. */
  ghost predicate LinesRead(p: Parsers, f: nat, lines: seq<string>, k: nat, was: seq<int>, store: seq<int>)
    requires k <= |lines| && forall i :: 0 <= i < k ==> IsLine(f == 0, lines[i])
  {
    && |store| == |was| == NUM_METRICS
    && forall f': nat, c: nat, n: nat :: IsMetric(f', c, n) ==>
         0 <= Slot(f', c, n) < NUM_METRICS &&
         store[Slot(f', c, n)] == if f' == f then FromLines(p, f == 0, lines, k, c, n) else was[Slot(f', c, n)]
  }

  /** One line overwrites the four slots of its category; the cpu "full" line overwrites none. */
  ghost predicate LineWritten(p: Parsers, f: nat, line: string, before: seq<int>, after: seq<int>)
    requires IsLine(f == 0, line) && |before| == |after| == NUM_METRICS
  {
    var words := Words(line);
    var c := IndexOf(CATEGORIES, words[0]);
    if f == 0 && c == FULL then after == before
    else forall x :: 0 <= x < NUM_METRICS ==>
           after[x] == if Slot(f, c, 0) <= x < Slot(f, c, 0) + NUM_NAMES
                       then FromWords(p, words, NUM_WORDS, x - Slot(f, c, 0), before[x]) else before[x]
  }

  lemma LineStep(p: Parsers, f: nat, lines: seq<string>, k: nat, was: seq<int>, before: seq<int>, after: seq<int>)
    requires f < NUM_FILES && k < |lines| && forall i :: 0 <= i <= k ==> IsLine(f == 0, lines[i])
    requires LinesRead(p, f, lines, k, was, before) && |after| == NUM_METRICS
    requires LineWritten(p, f, lines[k], before, after)
    ensures LinesRead(p, f, lines, k + 1, was, after)
  {
    hide FromWords, Words;
    assert IsLine(f == 0, lines[k]);
    var words := Words(lines[k]);
    var c := IndexOf(CATEGORIES, words[0]);
    forall f': nat, c': nat, n: nat | IsMetric(f', c', n)
      ensures 0 <= Slot(f', c', n) < NUM_METRICS
      ensures after[Slot(f', c', n)] ==
              if f' == f then FromLines(p, f == 0, lines, k + 1, c', n) else was[Slot(f', c', n)]
    {
      var x := Slot(f', c', n);
      assert before[x] == if f' == f then FromLines(p, f == 0, lines, k, c', n) else was[x];
    }
  }

  method ParsePressureStallFileContent(p: Parsers, isCpu: bool, lines: seq<string>, store: array<int>, fileSaveIdx: int,
                                       ghost f: nat) returns (ok: bool)
    requires f < NUM_FILES && isCpu == (f == 0) && fileSaveIdx == Slot(f, 0, 0) && store.Length == NUM_METRICS
    requires forall c: nat, n: nat :: IsMetric(f, c, n) ==>
               0 <= Slot(f, c, n) < NUM_METRICS && store[Slot(f, c, n)] == -1
    modifies store
    ensures ok <==> forall i :: 0 <= i < |lines| ==> IsLine(isCpu, lines[i])
    ensures ok ==> LinesRead(p, f, lines, |lines|, old(store[..]), store[..])
  {
    hide FromWords;
    ghost var was := store[..];
    for k := 0 to |lines|
      invariant forall i :: 0 <= i < k ==> IsLine(isCpu, lines[i])
      invariant LinesRead(p, f, lines, k, was, store[..])
    {
      var words := Words(lines[k]);
      if |words| != NUM_WORDS {
        return false;
      }
      var category := FindName(CATEGORIES, words[0]);
      if category == |CATEGORIES| {
        return false;
      }
      ghost var before := store[..];
      if isCpu && category == FULL {
        assert IsLine(isCpu, lines[k]);
      } else {
        var parsed := ParsePressureStallWords(p, words, store, fileSaveIdx + category * NUM_NAMES);
        if !parsed {
          return false;
        }
      }
      assert LineWritten(p, f, lines[k], before, store[..]);
      LineStep(p, f, lines, k, was, before, store[..]);
    }
    return true;
  }

  /** The slots of the first k files are read, those of the others still hold -1. */
  ghost predicate FilesRead(p: Parsers, files: seq<File>, k: nat, store: seq<int>)
    requires k <= |files| == NUM_FILES
  {
    && |store| == NUM_METRICS
    && (forall f :: 0 <= f < k ==> IsFile(f == 0, files[f]))
    && forall f: nat, c: nat, n: nat :: IsMetric(f, c, n) ==>
         0 <= Slot(f, c, n) < NUM_METRICS &&
         store[Slot(f, c, n)] == if f < k then FromLines(p, f == 0, files[f].value, |files[f].value|, c, n) else -1
  }

  lemma FileStep(p: Parsers, files: seq<File>, k: nat, before: seq<int>, after: seq<int>)
    requires k < |files| == NUM_FILES && FilesRead(p, files, k, before) && IsFile(k == 0, files[k])
    requires LinesRead(p, k, files[k].value, |files[k].value|, before, after)
    ensures FilesRead(p, files, k + 1, after)
  {
    hide FromLines, IsLine;
    forall f: nat, c: nat, n: nat | IsMetric(f, c, n)
      ensures 0 <= Slot(f, c, n) < NUM_METRICS
      ensures after[Slot(f, c, n)] ==
              if f < k + 1 then FromLines(p, f == 0, files[f].value, |files[f].value|, c, n) else -1
    {
      assert before[Slot(f, c, n)] == if f < k then FromLines(p, f == 0, files[f].value, |files[f].value|, c, n) else -1;
    }
  }

  method Invalidate(store: array<int>)
    modifies store
    ensures forall i :: 0 <= i < store.Length ==> store[i] == -1
  {
    for i := 0 to store.Length
      invariant forall j :: 0 <= j < i ==> store[j] == -1
    {
      store[i] := -1;
    }
  }

  method ReadPressureStall(p: Parsers, files: seq<File>, store: array<int>)
    requires |files| == NUM_FILES && store.Length == NUM_METRICS
    modifies store
    ensures IsSample(p, files, store[..])
  {
    hide FromLines, IsLine;
    Invalidate(store);
    var fileSaveIdx := -NUM_NAMES;
    for f := 0 to NUM_FILES
      invariant fileSaveIdx == Slot(f, 0, 0)
      invariant FilesRead(p, files, f, store[..])
    {
      ghost var before := store[..];
      if files[f].None? {
        Invalidate(store);
        return;
      }
      var parsed := ParsePressureStallFileContent(p, f == 0, files[f].value, store, fileSaveIdx, f);
      if !parsed {
        Invalidate(store);
        return;
      }
      FileStep(p, files, f, before, store[..]);
      fileSaveIdx := fileSaveIdx + METRICS_PER_FILE;
    }
  }
}
