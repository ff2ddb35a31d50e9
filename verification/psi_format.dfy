/** The text the kernel prints under /proc/pressure, and that reading it finds every value in its place. */
module PsiFormat {
  import opened Options
  import opened PsiParser

  /** A printed number: not empty, and free of the separators. */
  predicate IsText(t: string) {
    t != [] && forall i :: 0 <= i < |t| ==> t[i] != '=' && !IsSpace(t[i])
  }

  predicate AreTexts(ts: seq<string>) {
    |ts| == NUM_NAMES && forall i :: 0 <= i < |ts| ==> IsText(ts[i])
  }

  function PrintPair(n: nat, t: string): string
    requires n < NUM_NAMES
  {
    NAMES[n] + ['='] + t
  }

  function PrintedWords(category: string, ts: seq<string>): seq<string>
    requires |ts| == NUM_NAMES
  {
    [category, PrintPair(0, ts[0]), PrintPair(1, ts[1]), PrintPair(2, ts[2]), PrintPair(3, ts[3])]
  }

  function Joined(words: seq<string>, d: char): string
    requires words != []
  {
    if |words| == 1 then words[0] else words[0] + [d] + Joined(words[1..], d)
  }

  /** For example "some avg10=0.00 avg60=0.12 avg300=0.00 total=29705314". */
  function PrintLine(category: string, ts: seq<string>): string
    requires |ts| == NUM_NAMES
  {
    Joined(PrintedWords(category, ts), ' ')
  }

  lemma {:induction false} ScanWord(w: string, d: char, rest: string, word: string)
    requires d !in w && word + w != []
    ensures Scan(w + [d] + rest, d, word) == [word + w] + Scan(rest, d, [])
  {
    var s := w + [d] + rest;
    if w == [] {
      assert s[1..] == rest && word + w == word;
    } else {
      assert s[1..] == w[1..] + [d] + rest;
      ScanWord(w[1..], d, rest, word + [w[0]]);
      assert word + [w[0]] + w[1..] == word + w;
    }
  }

  lemma NoTrim(s: string)
    requires s != [] && !IsSpace(s[0]) && !IsSpace(s[|s| - 1])
    ensures Trim(s) == s
  {
  }

  lemma PairSplits(n: nat, t: string)
    requires n < NUM_NAMES && IsText(t)
    ensures Tokenize(PrintPair(n, t), '=') == [NAMES[n], t]
    ensures ' ' !in PrintPair(n, t) && PrintPair(n, t) != []
  {
    ScanWord(NAMES[n], '=', t, []);
    ScanWhole(t, '=', []);
    assert [] + NAMES[n] == NAMES[n] && [] + t == t;
  }

  /** Splitting undoes joining. */
  lemma {:induction false} JoinedSplits(words: seq<string>, d: char)
    requires words != [] && forall i :: 0 <= i < |words| ==> words[i] != [] && d !in words[i]
    ensures Tokenize(Joined(words, d), d) == words
  {
    assert [] + words[0] == words[0];
    if |words| == 1 {
      ScanWhole(words[0], d, []);
    } else {
      ScanWord(words[0], d, Joined(words[1..], d), []);
      JoinedSplits(words[1..], d);
    }
  }

  lemma {:induction false} JoinedEnds(words: seq<string>, d: char)
    requires words != [] && forall i :: 0 <= i < |words| ==> words[i] != []
    ensures var s, last := Joined(words, d), words[|words| - 1];
            s != [] && s[0] == words[0][0] && s[|s| - 1] == last[|last| - 1]
  {
    if |words| > 1 {
      JoinedEnds(words[1..], d);
    }
  }

  lemma PrintedAreWords(c: nat, ts: seq<string>)
    requires c < |CATEGORIES| && AreTexts(ts)
    ensures forall i :: 0 <= i < NUM_WORDS ==>
              var w := PrintedWords(CATEGORIES[c], ts)[i]; w != [] && ' ' !in w && !IsSpace(w[0]) && !IsSpace(w[|w| - 1])
    ensures forall i :: 0 <= i < NUM_NAMES ==> Tokenize(PrintedWords(CATEGORIES[c], ts)[i + 1], '=') == [NAMES[i], ts[i]]
  {
    forall i | 0 <= i < NUM_NAMES
      ensures var w := PrintedWords(CATEGORIES[c], ts)[i + 1];
              && w != [] && ' ' !in w && !IsSpace(w[0]) && !IsSpace(w[|w| - 1])
              && Tokenize(w, '=') == [NAMES[i], ts[i]]
    {
      assert IsText(ts[i]);
      PairSplits(i, ts[i]);
      assert PrintedWords(CATEGORIES[c], ts)[i + 1] == PrintPair(i, ts[i]);
    }
  }

  lemma LineSplits(c: nat, ts: seq<string>)
    requires c < |CATEGORIES| && AreTexts(ts)
    ensures Words(PrintLine(CATEGORIES[c], ts)) == PrintedWords(CATEGORIES[c], ts)
    ensures forall i :: 0 <= i < NUM_NAMES ==> Tokenize(PrintedWords(CATEGORIES[c], ts)[i + 1], '=') == [NAMES[i], ts[i]]
  {
    PrintedAreWords(c, ts);
    hide Tokenize, Joined, PrintPair, Trim, IsSpace;
    var words := PrintedWords(CATEGORIES[c], ts);
    JoinedEnds(words, ' ');
    NoTrim(Joined(words, ' '));
    JoinedSplits(words, ' ');
  }

  // ---------- Reading it back ----------

  lemma NameIndex(i: nat)
    requires i < NUM_NAMES
    ensures IndexOf(NAMES, NAMES[i]) == i
  {
    assert NAMES[0] != NAMES[1] && NAMES[0] != NAMES[2] && NAMES[0] != NAMES[3];
    assert NAMES[1] != NAMES[2] && NAMES[1] != NAMES[3] && NAMES[2] != NAMES[3] by {
      assert |NAMES[1]| != |NAMES[2]| && NAMES[1][0] != NAMES[3][0] && |NAMES[2]| != |NAMES[3]|;
    }
  }

  ghost predicate PairsPrint(words: seq<string>, ts: seq<string>) {
    && |words| == NUM_WORDS && |ts| == NUM_NAMES
    && forall i :: 0 <= i < NUM_NAMES ==> Tokenize(words[i + 1], '=') == [NAMES[i], ts[i]]
  }

  lemma {:induction false} FromWordsFinds(p: Parsers, words: seq<string>, ts: seq<string>, k: nat, n: nat, before: int)
    requires PairsPrint(words, ts) && n < NUM_NAMES && n + 2 <= k <= NUM_WORDS
    ensures forall i :: 1 <= i < k ==> IsPair(words[i])
    ensures FromWords(p, words, k, n, before) == MetricValue(p, n, ts[n])
  {
    hide Tokenize, MetricValue;
    assert Tokenize(words[k - 2 + 1], '=') == [NAMES[k - 2], ts[k - 2]];
    forall i | 1 <= i < k
      ensures IsPair(words[i])
    {
      assert Tokenize(words[i - 1 + 1], '=') == [NAMES[i - 1], ts[i - 1]];
    }
    NameIndex(k - 2);
    if k - 2 != n {
      FromWordsFinds(p, words, ts, k - 1, n, before);
    }
  }

  lemma LineReads(p: Parsers, isCpu: bool, c: nat, ts: seq<string>, n: nat, before: int)
    requires c < |CATEGORIES| && AreTexts(ts) && n < NUM_NAMES
    ensures IsLine(isCpu, PrintLine(CATEGORIES[c], ts))
    ensures IndexOf(CATEGORIES, Words(PrintLine(CATEGORIES[c], ts))[0]) == c
    ensures forall i :: 1 <= i < NUM_WORDS ==> IsPair(Words(PrintLine(CATEGORIES[c], ts))[i])
    ensures FromWords(p, Words(PrintLine(CATEGORIES[c], ts)), NUM_WORDS, n, before) == MetricValue(p, n, ts[n])
  {
    LineSplits(c, ts);
    hide Tokenize, PrintLine, Words, MetricValue, FromWords, IsPair;
    var words := Words(PrintLine(CATEGORIES[c], ts));
    FromWordsFinds(p, words, ts, NUM_WORDS, n, before);
    FromWordsFinds(p, words, ts, NUM_WORDS, 3, before);
    assert words[0] == CATEGORIES[c];
  }

  /** What the kernel prints for one file: a line per category, in either order, or just "some". */
  datatype Report = Report(full: seq<string>, some: seq<string>)
  {
    predicate Printable() {
      AreTexts(full) && AreTexts(some)
    }

    function Texts(c: nat): (ts: seq<string>)
      requires Printable()
      ensures |ts| == NUM_NAMES
    {
      if c == FULL then full else some
    }
  }

  predicate Prints(r: Report, isCpu: bool, lines: seq<string>)
    requires r.Printable()
  {
    var full, some := PrintLine(CATEGORIES[FULL], r.full), PrintLine(CATEGORIES[1], r.some);
    lines == [some, full] || lines == [full, some] || (isCpu && lines == [some])
  }

  lemma LineTells(p: Parsers, isCpu: bool, r: Report, lines: seq<string>, k: nat, d: nat, c: nat, n: nat)
    requires r.Printable() && c < |CATEGORIES| && d < |CATEGORIES| && n < NUM_NAMES && !(isCpu && c == FULL)
    requires k < |lines| && lines[k] == PrintLine(CATEGORIES[d], r.Texts(d))
    requires forall i :: 0 <= i < k ==> IsLine(isCpu, lines[i])
    ensures IsLine(isCpu, lines[k])
    ensures FromLines(p, isCpu, lines, k + 1, c, n) ==
            if d == c then MetricValue(p, n, r.Texts(c)[n]) else FromLines(p, isCpu, lines, k, c, n)
  {
    LineReads(p, isCpu, d, r.Texts(d), n, FromLines(p, isCpu, lines, k, c, n));
    hide PrintLine, Words, MetricValue, FromWords, IsPair;
  }

  lemma FileReads(p: Parsers, isCpu: bool, r: Report, lines: seq<string>, c: nat, n: nat)
    requires r.Printable() && Prints(r, isCpu, lines)
    requires c < |CATEGORIES| && n < NUM_NAMES && !(isCpu && c == FULL)
    ensures forall i :: 0 <= i < |lines| ==> IsLine(isCpu, lines[i])
    ensures FromLines(p, isCpu, lines, |lines|, c, n) == MetricValue(p, n, r.Texts(c)[n])
  {
    hide PrintLine, MetricValue, IsLine, FromLines;
    var fullFirst := lines == [PrintLine(CATEGORIES[FULL], r.full), PrintLine(CATEGORIES[1], r.some)];
    var first := if fullFirst then FULL else 1;
    LineTells(p, isCpu, r, lines, 0, first, c, n);
    if |lines| == 2 {
      LineTells(p, isCpu, r, lines, 1, 1 - first, c, n);
    }
  }

  /** A sample of what the kernel prints holds each printed value, rounded to hundredths, in its slot. */
  lemma KernelTextReadsBack(p: Parsers, rs: seq<Report>, files: seq<File>, store: seq<int>)
    requires |rs| == |files| == NUM_FILES && IsSample(p, files, store)
    requires forall f :: 0 <= f < NUM_FILES ==> rs[f].Printable()
    requires forall f :: 0 <= f < NUM_FILES ==> files[f].Some? && Prints(rs[f], f == 0, files[f].value)
    ensures forall f: nat, c: nat, n: nat :: IsMetric(f, c, n) ==>
              0 <= Slot(f, c, n) < |store| && store[Slot(f, c, n)] == MetricValue(p, n, rs[f].Texts(c)[n])
  {
    hide FromLines, MetricValue, IsLine, Prints;
    forall f | 0 <= f < NUM_FILES
      ensures IsFile(f == 0, files[f])
    {
      FileReads(p, f == 0, rs[f], files[f].value, 1, 0);
    }
    forall f: nat, c: nat, n: nat | IsMetric(f, c, n)
      ensures 0 <= Slot(f, c, n) < |store| && store[Slot(f, c, n)] == MetricValue(p, n, rs[f].Texts(c)[n])
    {
      FileReads(p, f == 0, rs[f], files[f].value, c, n);
    }
  }
}
