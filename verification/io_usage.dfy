/** IoStats (perfstatsd/io_usage.cpp): per-user IO increments, their total and the five heaviest users. */
module IoUsage {
  import opened Integers

  const IO_TOP_MAX := 5

  function Wrap(x: int): U64Value {
    x % U64
  }

  datatype UserIo = UserIo(uid: nat, fgRead: U64Value, bgRead: U64Value, fgWrite: U64Value, bgWrite: U64Value,
                           fgFsync: U64Value, bgFsync: U64Value)
  {
    function Minus(o: UserIo): UserIo {
      UserIo(uid, Wrap(fgRead - o.fgRead), Wrap(bgRead - o.bgRead), Wrap(fgWrite - o.fgWrite), Wrap(bgWrite - o.bgWrite),
             Wrap(fgFsync - o.fgFsync), Wrap(bgFsync - o.bgFsync))
    }

    function Plus(o: UserIo): UserIo {
      UserIo(uid, Wrap(fgRead + o.fgRead), Wrap(bgRead + o.bgRead), Wrap(fgWrite + o.fgWrite), Wrap(bgWrite + o.bgWrite),
             Wrap(fgFsync + o.fgFsync), Wrap(bgFsync + o.bgFsync))
    }
  }

  const RESET := UserIo(0, 0, 0, 0, 0, 0, 0)

  datatype Direction = Read | Write

  /** sumRead or sumWrite. */
  function Sum(d: Direction, x: UserIo): U64Value {
    match d
    case Read => Wrap(x.fgRead + x.bgRead)
    case Write => Wrap(x.fgWrite + x.bgWrite)
  }

  type Users = map<nat, UserIo>

  // ---------- The k largest of a bag ----------

  lemma {:induction false} HasMax(m: multiset<int>)
    requires m != multiset{}
    ensures exists x :: x in m && forall y :: y in m ==> y <= x
  {
    var x :| x in m;
    var rest := m - multiset{x};
    assert m == rest + multiset{x};
    if rest != multiset{} {
      HasMax(rest);
      var y :| y in rest && forall z :: z in rest ==> z <= y;
      var top := if x < y then y else x;
      assert top in m && forall z :: z in m ==> z <= top;
    }
  }

  ghost function Max(m: multiset<int>): (x: int)
    requires m != multiset{}
    ensures x in m && forall y :: y in m ==> y <= x
  {
    HasMax(m);
    var x :| x in m && forall y :: y in m ==> y <= x;
    x
  }

  /** The k largest elements of m in descending order, padded with zeros. */
  ghost function Largest(m: multiset<int>, k: nat): (s: seq<int>)
    ensures |s| == k
    decreases k
  {
    if k == 0 then []
    else if m == multiset{} then [0] + Largest(m, k - 1)
    else [Max(m)] + Largest(m - multiset{Max(m)}, k - 1)
  }

  lemma {:induction false} LargestDescends(m: multiset<int>, k: nat)
    requires forall x :: x in m ==> x >= 0
    ensures forall i :: 0 <= i < k ==> Largest(m, k)[i] >= 0 && (m != multiset{} ==> Largest(m, k)[i] <= Max(m)) &&
                                       (m == multiset{} ==> Largest(m, k)[i] == 0)
    ensures forall i, j :: 0 <= i < j < k ==> Largest(m, k)[i] >= Largest(m, k)[j]
  {
    if k > 0 {
      LargestDescends(if m == multiset{} then m else m - multiset{Max(m)}, k - 1);
    }
  }

  /** One turn through the array on the sums alone: v displaces what it exceeds. */
  function Inserted(s: seq<int>, v: int): seq<int> {
    if s == [] then []
    else if v > s[0] then [v] + Inserted(s[1..], s[0])
    else [s[0]] + Inserted(s[1..], v)
  }

  lemma InsertedStep(a: int, s: seq<int>, v: int)
    ensures Inserted([a] + s, v) == if v > a then [v] + Inserted(s, a) else [a] + Inserted(s, v)
  {
    assert ([a] + s)[1..] == s;
  }

  lemma LargestStep(m: multiset<int>, x: int, k: nat)
    requires x in m && (forall y :: y in m ==> y <= x) && k > 0
    ensures Largest(m, k) == [x] + Largest(m - multiset{x}, k - 1)
  {
    assert Max(m) == x;
  }

  lemma InsertLarger(m: multiset<int>, k: nat, v: int, x: int)
    requires k > 0 && x in m && (forall y :: y in m ==> y <= x) && v > x
    requires Inserted(Largest(m - multiset{x}, k - 1), x) == Largest(m - multiset{x} + multiset{x}, k - 1)
    ensures Inserted(Largest(m, k), v) == Largest(m + multiset{v}, k)
  {
    hide Largest, Inserted;
    var m' := m + multiset{v};
    LargestStep(m, x, k);
    assert v in m' && forall y :: y in m' ==> y <= v;
    LargestStep(m', v, k);
    assert m' - multiset{v} == m && m - multiset{x} + multiset{x} == m;
    InsertedStep(x, Largest(m - multiset{x}, k - 1), v);
  }

  lemma InsertSmaller(m: multiset<int>, k: nat, v: int, x: int)
    requires k > 0 && x in m && (forall y :: y in m ==> y <= x) && v <= x
    requires Inserted(Largest(m - multiset{x}, k - 1), v) == Largest(m - multiset{x} + multiset{v}, k - 1)
    ensures Inserted(Largest(m, k), v) == Largest(m + multiset{v}, k)
  {
    hide Largest, Inserted;
    var m' := m + multiset{v};
    LargestStep(m, x, k);
    assert x in m' && forall y :: y in m' ==> y <= x;
    LargestStep(m', x, k);
    assert m' - multiset{x} == m - multiset{x} + multiset{v};
    InsertedStep(x, Largest(m - multiset{x}, k - 1), v);
  }

  lemma InsertIntoNone(m: multiset<int>, v: int)
    ensures Inserted(Largest(m, 0), v) == Largest(m + multiset{v}, 0)
  {
  }

  lemma {:induction false} InsertIntoEmpty(k: nat, v: int)
    requires v >= 0
    ensures Inserted(Largest(multiset{}, k), v) == Largest(multiset{} + multiset{v}, k)
  {
    assert multiset{} + multiset{v} == multiset{v};
    if k > 0 {
      assert multiset{v} - multiset{v} == multiset{};
      LargestStep(multiset{v}, v, k);
      InsertedStep(0, Largest(multiset{}, k - 1), v);
      InsertIntoEmpty(k - 1, 0);
      assert multiset{} + multiset{0} == multiset{0};
      ZeroAdded(k - 1);
    }
  }

  /** A turn through the k largest of a bag gives the k largest of the bag with v added. */
  lemma {:induction false} InsertedIsLargest(m: multiset<int>, k: nat, v: int)
    requires v >= 0 && forall x :: x in m ==> x >= 0
    ensures Inserted(Largest(m, k), v) == Largest(m + multiset{v}, k)
    decreases k
  {
    hide Largest, Inserted;
    if k == 0 {
      InsertIntoNone(m, v);
    } else if m == multiset{} {
      InsertIntoEmpty(k, v);
    } else {
      var x := Max(m);
      if v > x {
        InsertedIsLargest(m - multiset{x}, k - 1, x);
        InsertLarger(m, k, v, x);
      } else {
        InsertedIsLargest(m - multiset{x}, k - 1, v);
        InsertSmaller(m, k, v, x);
      }
    }
  }

  lemma {:induction false} ZeroAdded(k: nat)
    ensures Largest(multiset{0}, k) == Largest(multiset{}, k)
  {
    if k > 0 {
      assert Max(multiset{0}) == 0 && multiset{0} - multiset{0} == multiset{};
    }
  }

  // ---------- Sums over the users ----------

  datatype Field = FgRead | BgRead | FgWrite | BgWrite | FgFsync | BgFsync

  function Get(f: Field, x: UserIo): U64Value {
    match f
    case FgRead => x.fgRead
    case BgRead => x.bgRead
    case FgWrite => x.fgWrite
    case BgWrite => x.bgWrite
    case FgFsync => x.fgFsync
    case BgFsync => x.bgFsync
  }

  ghost function Pick(m: Users): (k: nat)
    requires m != map[]
    ensures k in m
  {
    var k :| k in m;
    k
  }

  /** The sums of all users. */
  ghost function Bag(d: Direction, m: Users): (bag: multiset<int>)
    ensures forall x :: x in bag ==> x >= 0
    decreases |m|
  {
    if m == map[] then multiset{} else Bag(d, m - {Pick(m)}) + multiset{Sum(d, m[Pick(m)])}
  }

  /** What the users' counters of one kind add up to, without wrapping around. */
  ghost function Total(f: Field, m: Users): (t: nat)
    decreases |m|
  {
    if m == map[] then 0 else Total(f, m - {Pick(m)}) + Get(f, m[Pick(m)])
  }

  lemma Reordered(m: Users, k: nat, x: UserIo)
    requires k !in m
    ensures var m' := m[k := x]; assert k in m'; var p := Pick(m');
            if p == k then m' - {p} == m
            else p in m && m' - {p} == (m - {p})[k := x] && m == (m - {p})[p := m[p]] && m'[p] == m[p]
  {
  }

  lemma {:induction false} BagAdds(d: Direction, m: Users, k: nat, x: UserIo)
    requires k !in m
    ensures Bag(d, m[k := x]) == Bag(d, m) + multiset{Sum(d, x)}
    decreases |m|
  {
    assert k in m[k := x];
    var p := Pick(m[k := x]);
    Reordered(m, k, x);
    if p != k {
      BagAdds(d, m - {p}, k, x);
      BagAdds(d, m - {p}, p, m[p]);
    }
  }

  lemma {:induction false} TotalAdds(f: Field, m: Users, k: nat, x: UserIo)
    requires k !in m
    ensures Total(f, m[k := x]) == Total(f, m) + Get(f, x)
    decreases |m|
  {
    assert k in m[k := x];
    var p := Pick(m[k := x]);
    Reordered(m, k, x);
    if p != k {
      TotalAdds(f, m - {p}, k, x);
      TotalAdds(f, m - {p}, p, m[p]);
    }
  }

  lemma WrapAdds(a: int, b: int)
    ensures Wrap(Wrap(a) + b) == Wrap(a + b)
  {
  }

  lemma WrapRestores(a: U64Value, b: U64Value)
    ensures Wrap(a + Wrap(b - a)) == b
  {
  }

  /** The running total holds every counter's sum modulo 2^64. */
  ghost predicate TotalsAre(total: UserIo, m: Users) {
    forall f: Field :: Get(f, total) == Wrap(Total(f, m))
  }

  lemma TotalsStep(total: UserIo, m: Users, k: nat, x: UserIo)
    requires TotalsAre(total, m) && k !in m
    ensures TotalsAre(total.Plus(x), m[k := x])
  {
    hide Wrap, Total;
    forall f: Field
      ensures Get(f, total.Plus(x)) == Wrap(Total(f, m[k := x]))
    {
      TotalAdds(f, m, k, x);
      assert Get(f, total) == Wrap(Total(f, m));
      WrapAdds(Total(f, m), Get(f, x));
    }
  }

  // ---------- The top array ----------

  function Sums(d: Direction, s: seq<UserIo>): seq<int> {
    seq(|s|, i requires 0 <= i < |s| => Sum(d, s[i]))
  }

  /** x is in s, or no heavier than anything in it. */
  predicate Outranked(d: Direction, s: seq<UserIo>, x: UserIo) {
    x in s || forall i :: 0 <= i < |s| ==> Sum(d, x) <= Sum(d, s[i])
  }

  /** s holds, by sum, the heaviest users of m; each is a user of m, and none is there twice. */
  ghost predicate IsTop(d: Direction, s: seq<UserIo>, m: Users) {
    && Sums(d, s) == Largest(Bag(d, m), IO_TOP_MAX)
    && (forall k :: k in m ==> Outranked(d, s, m[k]))
    && (forall x :: x in s && x != RESET ==> x.uid in m && m[x.uid] == x)
    && (forall x :: x in s && x != RESET ==> multiset(s)[x] == 1)
  }

  /** What a top array is, spelled out: five places in descending order of foreground and background bytes of the one
      direction together, modulo 2^64, and no user outside it with more than the last place. */
  lemma TopSpelled(d: Direction, s: seq<UserIo>, m: Users)
    requires IsTop(d, s, m)
    ensures |s| == 5
    ensures forall i, j :: 0 <= i < j < 5 ==> Bytes(d, s[i]) >= Bytes(d, s[j])
    ensures forall k :: k in m && m[k] !in s ==> Bytes(d, m[k]) <= Bytes(d, s[4])
  {
    LargestDescends(Bag(d, m), IO_TOP_MAX);
    assert |Sums(d, s)| == IO_TOP_MAX;
    assert forall i :: 0 <= i < |s| ==> Sums(d, s)[i] == Sum(d, s[i]);
    forall k | k in m && m[k] !in s
      ensures Bytes(d, m[k]) <= Bytes(d, s[4])
    {
      assert Outranked(d, s, m[k]);
    }
  }

  function Bytes(d: Direction, x: UserIo): int {
    (if d == Read then x.fgRead + x.bgRead else x.fgWrite + x.bgWrite) % 18446744073709551616
  }

  lemma {:induction false} LargestOfNone(k: nat)
    ensures forall i :: 0 <= i < k ==> Largest(multiset{}, k)[i] == 0
  {
    if k > 0 {
      LargestOfNone(k - 1);
    }
  }

  lemma ResetIsTop(d: Direction, s: seq<UserIo>)
    requires |s| == IO_TOP_MAX && forall i :: 0 <= i < |s| ==> s[i] == RESET
    ensures IsTop(d, s, map[])
  {
    LargestOfNone(IO_TOP_MAX);
  }

  lemma TopStep(d: Direction, s: seq<UserIo>, s': seq<UserIo>, dropped: UserIo, m: Users, x: UserIo)
    requires IsTop(d, s, m) && x.uid !in m
    requires Sums(d, s') == Inserted(Sums(d, s), Sum(d, x))
    requires multiset(s') + multiset{dropped} == multiset(s) + multiset{x} && Raised(d, s, s', dropped)
    ensures IsTop(d, s', m[x.uid := x])
  {
    hide Largest, Bag, Sums, Inserted, Sum, Outranked, Raised;
    var m' := m[x.uid := x];
    forall k | k in m'
      ensures Outranked(d, s', m'[k])
    {
      StillOutranked(d, s, s', dropped, x, m'[k]);
    }
    BagIsNatural(d, m);
    InsertedIsLargest(Bag(d, m), IO_TOP_MAX, Sum(d, x));
    BagAdds(d, m, x.uid, x);
    forall y | y in s' && y != RESET
      ensures y.uid in m[x.uid := x] && m[x.uid := x][y.uid] == y && multiset(s')[y] == 1
    {
      TopEntry(s, s', dropped, m, x, y);
    }
  }

  /** Every place keeps its user unless a heavier one takes it, and what was dropped is no heavier than any. */
  predicate Raised(d: Direction, s: seq<UserIo>, s': seq<UserIo>, dropped: UserIo) {
    |s| == |s'| && forall i :: 0 <= i < |s| ==>
                                 (s[i] == s'[i] || Sum(d, s[i]) < Sum(d, s'[i])) && Sum(d, dropped) <= Sum(d, s'[i])
  }

  lemma StillOutranked(d: Direction, s: seq<UserIo>, s': seq<UserIo>, dropped: UserIo, x: UserIo, y: UserIo)
    requires multiset(s') + multiset{dropped} == multiset(s) + multiset{x} && Raised(d, s, s', dropped)
    requires y == x || Outranked(d, s, y)
    ensures Outranked(d, s', y)
  {
    hide Sum;
    if y == x || y in s {
      assert y in multiset(s') + multiset{dropped};
    }
  }

  lemma BagIsNatural(d: Direction, m: Users)
    ensures forall x :: x in Bag(d, m) ==> x >= 0
  {
  }

  lemma TopEntry(s: seq<UserIo>, s': seq<UserIo>, dropped: UserIo, m: Users, x: UserIo, y: UserIo)
    requires multiset(s') + multiset{dropped} == multiset(s) + multiset{x} && x.uid !in m
    requires forall z :: z in s && z != RESET ==> z.uid in m && m[z.uid] == z && multiset(s)[z] == 1
    requires y in s' && y != RESET
    ensures y.uid in m[x.uid := x] && m[x.uid := x][y.uid] == y && multiset(s')[y] == 1
  {
    assert y in multiset(s') && multiset(s')[y] <= (multiset(s) + multiset{x})[y];
    if y != x {
      assert y in s;
    } else {
      assert x !in s;
    }
  }

  /** After i turns: s started as s0, u is what is still going down, and started as x. */
  ghost predicate Sinking(d: Direction, s0: seq<UserIo>, x: UserIo, s: seq<UserIo>, u: UserIo, i: nat) {
    && i <= |s| == |s0| && s[i..] == s0[i..]
    && Inserted(Sums(d, s0), Sum(d, x)) == Sums(d, s[..i]) + Inserted(Sums(d, s[i..]), Sum(d, u))
    && multiset(s) + multiset{u} == multiset(s0) + multiset{x}
  }

  lemma SinkStarts(d: Direction, s0: seq<UserIo>, x: UserIo)
    ensures Sinking(d, s0, x, s0, x, 0)
  {
    assert s0[0..] == s0 && Sums(d, s0[..0]) == [];
  }

  lemma SinkStep(d: Direction, s0: seq<UserIo>, x: UserIo, s: seq<UserIo>, u: UserIo, i: nat)
    requires Sinking(d, s0, x, s, u, i) && i < |s|
    ensures if Sum(d, u) > Sum(d, s[i])
            then Sinking(d, s0, x, s[i := u], s[i], i + 1)
            else Sinking(d, s0, x, s, u, i + 1)
  {
    hide Sum, Sums, Inserted;
    var swap := Sum(d, u) > Sum(d, s[i]);
    var s', u' := if swap then s[i := u] else s, if swap then s[i] else u;
    SumsFirst(d, s, i);
    InsertedStep(Sum(d, s[i]), Sums(d, s[i + 1..]), Sum(d, u));
    assert s[i..][1..] == s[i + 1..] && s0[i..][1..] == s0[i + 1..];
    assert s'[i + 1..] == s[i + 1..] && s'[..i] == s[..i];
    SumsLast(d, s', i);
    SwapKeepsAll(s, i, u);
  }

  lemma SumsFirst(d: Direction, s: seq<UserIo>, i: nat)
    requires i < |s|
    ensures Sums(d, s[i..]) == [Sum(d, s[i])] + Sums(d, s[i + 1..])
  {
    hide Sum;
  }

  lemma SumsLast(d: Direction, s: seq<UserIo>, i: nat)
    requires i < |s|
    ensures Sums(d, s[..i + 1]) == Sums(d, s[..i]) + [Sum(d, s[i])]
  {
    hide Sum;
  }

  lemma SwapKeepsAll(s: seq<UserIo>, i: nat, u: UserIo)
    requires i < |s|
    ensures multiset(s[i := u]) + multiset{s[i]} == multiset(s) + multiset{u}
  {
  }

  lemma SunkAll(d: Direction, s0: seq<UserIo>, x: UserIo, s: seq<UserIo>, u: UserIo)
    requires Sinking(d, s0, x, s, u, |s|)
    ensures Sums(d, s) == Inserted(Sums(d, s0), Sum(d, x))
    ensures multiset(s) + multiset{u} == multiset(s0) + multiset{x}
  {
    assert s[..|s|] == s && Sums(d, s[|s|..]) == [];
  }

  /** updateTopRead or updateTopWrite: what is handed in, and then what it displaced, goes down the array. */
  method UpdateTop(d: Direction, top: array<UserIo>, usage: UserIo) returns (ghost dropped: UserIo)
    requires top.Length == IO_TOP_MAX
    modifies top
    ensures Sums(d, top[..]) == Inserted(Sums(d, old(top[..])), Sum(d, usage))
    ensures multiset(top[..]) + multiset{dropped} == multiset(old(top[..])) + multiset{usage}
    ensures Raised(d, old(top[..]), top[..], dropped)
  {
    hide Sinking, Sums, Inserted, Sum;
    var u := usage;
    ghost var s0 := top[..];
    SinkStarts(d, s0, usage);
    for i := 0 to IO_TOP_MAX
      invariant Sinking(d, s0, usage, top[..], u, i)
      invariant forall j :: 0 <= j < IO_TOP_MAX ==> s0[j] == top[j] || Sum(d, s0[j]) < Sum(d, top[j])
      invariant forall j :: 0 <= j < i ==> Sum(d, u) <= Sum(d, top[j])
    {
      SinkStep(d, s0, usage, top[..], u, i);
      ghost var s := top[..];
      if Sum(d, u) > Sum(d, top[i]) {
        var tmp := top[i];
        top[i] := u;
        u := tmp;
        assert top[..] == s[i := top[i]];
      }
    }
    SunkAll(d, s0, usage, top[..], u);
    dropped := u;
  }

  /** Each user's counters since the previous reading; a user not seen before counts from zero. */
  ghost function Increments(previous: Users, data: Users): Users {
    map k | k in data :: if k in previous then data[k].Minus(previous[k]) else data[k]
  }

  /** Each of the six counters by itself: the difference modulo 2^64 to the previous reading, all of it for a user that
      was not there before. */
  lemma IncrementsSpelled(previous: Users, data: Users, k: nat)
    requires k in data
    ensures Increments(previous, data).Keys == data.Keys
    ensures k !in previous ==> Increments(previous, data)[k] == data[k]
    ensures k in previous ==>
              var x, y, z := previous[k], data[k], Increments(previous, data)[k];
              && z.uid == y.uid
              && z.fgRead == (y.fgRead - x.fgRead) % 18446744073709551616
              && z.bgRead == (y.bgRead - x.bgRead) % 18446744073709551616
              && z.fgWrite == (y.fgWrite - x.fgWrite) % 18446744073709551616
              && z.bgWrite == (y.bgWrite - x.bgWrite) % 18446744073709551616
              && z.fgFsync == (y.fgFsync - x.fgFsync) % 18446744073709551616
              && z.bgFsync == (y.bgFsync - x.bgFsync) % 18446744073709551616
  {
  }

  ghost predicate Keyed(m: Users) {
    forall k :: k in m ==> m[k].uid == k
  }

  /** The total and the top arrays are those of the users in m. */
  ghost predicate Folded(total: UserIo, rs: seq<UserIo>, ws: seq<UserIo>, m: Users) {
    TotalsAre(total, m) && total.uid == 0 && IsTop(Read, rs, m) && IsTop(Write, ws, m)
  }

  class IoStats {
    var last: int
    var now: int
    var previous: Users
    var total: UserIo
    const readTop: array<UserIo>
    const writeTop: array<UserIo>

    ghost predicate Valid()
      reads this
    {
      readTop.Length == writeTop.Length == IO_TOP_MAX && readTop != writeTop
    }

    constructor (clock: int)
      ensures Valid() && last == now == clock && previous == map[] && fresh(readTop) && fresh(writeTop)
    {
      last, now, previous, total := clock, clock, map[], RESET;
      readTop := new UserIo[IO_TOP_MAX](_ => RESET);
      writeTop := new UserIo[IO_TOP_MAX](_ => RESET);
    }

    method CalcIncrement(data: Users) returns (diffs: Users)
      requires Keyed(data)
      ensures diffs == Increments(previous, data)
    {
      diffs := map[];
      var todo := data.Keys;
      while todo != {}
        invariant todo <= data.Keys && diffs.Keys == data.Keys - todo
        invariant forall k :: k in diffs ==> diffs[k] == Increments(previous, data)[k]
        decreases |todo|
      {
        var k :| k in todo;
        todo := todo - {k};
        var d := data[k];
        diffs := diffs[d.uid := if d.uid in previous then d.Minus(previous[d.uid]) else d];
      }
    }

    method Reset()
      requires Valid()
      modifies this`total, readTop, writeTop
      ensures Folded(total, readTop[..], writeTop[..], map[])
    {
      total := RESET;
      for i := 0 to IO_TOP_MAX
        invariant total == RESET && forall j :: 0 <= j < i ==> readTop[j] == RESET && writeTop[j] == RESET
      {
        readTop[i] := RESET;
        writeTop[i] := RESET;
      }
      hide TotalsAre, IsTop;
      ResetIsTop(Read, readTop[..]);
      ResetIsTop(Write, writeTop[..]);
      NoTotals();
    }

    /** Adds one user's increment to the total and to both top arrays. */
    method Add(d: UserIo, ghost m: Users)
      requires Valid() && Folded(total, readTop[..], writeTop[..], m) && d.uid !in m
      modifies this`total, readTop, writeTop
      ensures Folded(total, readTop[..], writeTop[..], m[d.uid := d])
    {
      hide TotalsAre, IsTop, Sums, Inserted, Sum;
      TotalsStep(total, m, d.uid, d);
      total := total.Plus(d);
      ghost var rs, ws := readTop[..], writeTop[..];
      ghost var r := UpdateTop(Read, readTop, d);
      TopStep(Read, rs, readTop[..], r, m, d);
      ghost var w := UpdateTop(Write, writeTop, d);
      TopStep(Write, ws, writeTop[..], w, m, d);
    }

    /** Folds the increments, in whatever order the map yields them. */
    method Accumulate(amounts: Users)
      requires Valid() && Keyed(amounts)
      modifies this`total, readTop, writeTop
      ensures Folded(total, readTop[..], writeTop[..], amounts)
    {
      hide Folded;
      Reset();
      ghost var done: Users := map[];
      var todo := amounts.Keys;
      while todo != {}
        invariant todo <= amounts.Keys && done == amounts - todo
        invariant Folded(total, readTop[..], writeTop[..], done)
        decreases |todo|
      {
        var k :| k in todo;
        Add(amounts[k], done);
        todo := todo - {k};
        done := done[k := amounts[k]];
        assert done == amounts - todo;
      }
      assert done == amounts;
    }

    /** While last == now the reading only becomes the next one's baseline. */
    method CalcAll(data: Users, clock: int)
      requires Valid() && Keyed(data)
      modifies this, readTop, writeTop
      ensures Valid() && previous == data && last == old(now) && now == clock
      ensures old(last) == old(now) ==>
                total == old(total) && readTop[..] == old(readTop[..]) && writeTop[..] == old(writeTop[..])
      ensures old(last) != old(now) ==>
                Folded(total, readTop[..], writeTop[..], Increments(old(previous), data))
    {
      if last == now {
        previous, last, now := data, now, clock;
        return;
      }
      last, now := now, clock;
      var amounts := CalcIncrement(data);
      previous := data;
      Accumulate(amounts);
    }
  }

  lemma NoTotals()
    ensures TotalsAre(RESET, map[])
  {
  }

  /** What the increments reported for a user over a run of readings add up to. */
  ghost function Reported(rs: seq<Users>, k: nat, f: Field): int
    requires forall i :: 0 <= i < |rs| ==> k in rs[i]
  {
    if |rs| <= 1 then 0
    else
      var n := |rs| - 1;
      Reported(rs[..n], k, f) + Get(f, Increments(rs[n - 1], rs[n])[k])
  }

  /** The baseline and the increments give back the last reading, even where the counters wrapped around. */
  lemma {:induction false} IncrementsAddUp(rs: seq<Users>, k: nat, f: Field)
    requires |rs| > 0 && forall i :: 0 <= i < |rs| ==> k in rs[i]
    ensures Wrap(Get(f, rs[0][k]) + Reported(rs, k, f)) == Get(f, rs[|rs| - 1][k])
  {
    hide Wrap, Get;
    if |rs| == 1 {
      SmallIsNotWrapped(Get(f, rs[0][k]));
    } else {
      var n := |rs| - 1;
      IncrementsAddUp(rs[..n], k, f);
      IncrementIs(rs[n - 1], rs[n], k, f);
      WrapAdds(Get(f, rs[0][k]) + Reported(rs[..n], k, f), Get(f, Increments(rs[n - 1], rs[n])[k]));
    }
  }

  lemma SmallIsNotWrapped(x: U64Value)
    ensures Wrap(x) == x
  {
  }

  lemma IncrementIs(previous: Users, data: Users, k: nat, f: Field)
    requires k in previous && k in data
    ensures Wrap(Get(f, previous[k]) + Get(f, Increments(previous, data)[k])) == Get(f, data[k])
  {
    WrapRestores(Get(f, previous[k]), Get(f, data[k]));
    hide Wrap;
  }

  /** The order in which the users come does not show in the sums. */
  lemma OrderDoesNotShow(d: Direction, s: seq<UserIo>, s': seq<UserIo>, m: Users)
    requires IsTop(d, s, m) && IsTop(d, s', m)
    ensures |s| == |s'| == IO_TOP_MAX
    ensures forall i :: 0 <= i < IO_TOP_MAX ==> Sum(d, s[i]) == Sum(d, s'[i])
    ensures forall i, j :: 0 <= i < j < IO_TOP_MAX ==> Sum(d, s[i]) >= Sum(d, s[j])
  {
    LargestDescends(Bag(d, m), IO_TOP_MAX);
    assert forall i :: 0 <= i < |s| ==> Sums(d, s)[i] == Sum(d, s[i]);
    assert forall i :: 0 <= i < |s'| ==> Sums(d, s')[i] == Sum(d, s'[i]);
  }
}
