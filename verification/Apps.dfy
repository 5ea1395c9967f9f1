/** The builtin map and reduce functions: count, agg, minmax and topn. */
module Apps {
  import opened Text
  import opened Codec
  import opened Grouping
  import opened Seqs

  // ---- map --------------------------------------------------------------------------------

  /** The record of a line: its second and third column, if it has three columns. */
  function RecordOf(line: string): (r: seq<KV>)
    ensures |r| <= 1
  {
    var parts := Split(line, '\t');
    if |parts| < 3 then [] else [KV(parts[1], parts[2])]
  }

  function Records(lines: seq<string>): seq<KV> {
    FlatMap(RecordOf, lines)
  }

  function TextRecords(s: string): seq<KV> {
    Records(Split(s, '\n'))
  }

  /** The columns of a line in order: the second is the key, the third the value. */
  lemma RecordOfColumns(columns: seq<string>)
    requires columns != [] && forall i :: 0 <= i < |columns| ==> '\t' !in columns[i]
    ensures RecordOf(Join(columns, '\t')) == if |columns| < 3 then [] else [KV(columns[1], columns[2])]
  {
    SplitJoin(columns, '\t');
  }

  /** The lines of a text in order: each adds its record. */
  lemma RecordsOfLines(line: string, rest: string)
    requires '\n' !in line
    ensures TextRecords(line) == RecordOf(line)
    ensures TextRecords(line + (['\n'] + rest)) == RecordOf(line) + TextRecords(rest)
  {
    SplitOfPlain(line, '\n');
    SplitAtSep(line, '\n', rest);
    hide RecordOf;
    FlatMapOne(RecordOf, line);
    FlatMapConcat(RecordOf, [line], Split(rest, '\n'));
  }

  lemma BlankHasNoRecord()
    ensures RecordOf([]) == []
  {
  }

  /** Map of agg, minmax and topn: one KV per record. */
  method MapRecords(contents: string) returns (emits: seq<KV>)
    ensures emits == TextRecords(TrimSpace(contents))
  {
    var lines := Split(TrimSpace(contents), '\n');
    emits := [];
    for i := 0 to |lines|
      invariant emits == Records(lines[..i])
    {
      FlatMapNext(RecordOf, lines, i);
      BlankHasNoRecord();
      if lines[i] == "" {
        continue;
      }
      var parts := Split(lines[i], '\t');
      if |parts| < 3 {
        continue;
      }
      emits := emits + [KV(parts[1], parts[2])];
    }
    assert lines[..|lines|] == lines;
  }

  /** What the local combiner of count makes of its records: one KV per key, in any order. */
  ghost predicate Combines(records: seq<KV>, emits: seq<KV>) {
    && Keys(emits) == Keys(records)
    && (forall i, j :: 0 <= i < j < |emits| ==> emits[i].key != emits[j].key)
    && (forall i :: 0 <= i < |emits| ==> emits[i].value == Itoa(|ValuesOf(records, emits[i].key)|))
  }

  /** The counters after the records seen so far. */
  ghost predicate Counted(records: seq<KV>, local: map<string, int>) {
    && local.Keys == Keys(records)
    && forall k :: k in local ==> local[k] == |ValuesOf(records, k)|
  }

  lemma CountedStep(records: seq<KV>, local: map<string, int>, x: KV)
    requires Counted(records, local)
    ensures Counted(records + [x], local[x.key := (if x.key in local then local[x.key] else 0) + 1])
  {
    KeysConcat(records, [x]);
    assert Keys([x]) == {x.key} by {
      assert [x][0].key == x.key;
    }
    ValuesOfAbsent(records, x.key);
    forall k ensures |ValuesOf(records + [x], k)| == |ValuesOf(records, k)| + if k == x.key then 1 else 0 {
      FlatMapAppend(Selector(k), records, x);
    }
  }

  lemma {:induction false} ValuesOfLength(kvs: seq<KV>, k: string)
    ensures |ValuesOf(kvs, k)| <= |kvs|
  {
    if kvs != [] {
      ValuesOfLength(kvs[1..], k);
    }
  }

  lemma {:induction false} RecordsLength(lines: seq<string>)
    ensures |Records(lines)| <= |lines|
  {
    if lines != [] {
      RecordsLength(lines[1..]);
    }
  }

  lemma {:induction false} LinesLength(s: string)
    ensures |Split(s, '\n')| <= |s| + 1
  {
    if s != [] {
      LinesLength(s[1..]);
    }
  }

  lemma CounterFits(lines: seq<string>, local: map<string, int>, k: string)
    requires Counted(Records(lines), local) && |lines| < MAX_INT64
    ensures var n := (if k in local then local[k] else 0) + 1; Wrap64(n) == n
  {
    RecordsLength(lines);
    ValuesOfLength(Records(lines), k);
  }

  /**
   Map of count. The length of a Go string is an int, so the counters cannot overflow. The
   order in which Go ranges over the counters is left open.
   */
  method MapCount(contents: string) returns (emits: seq<KV>)
    requires |contents| < MAX_INT64
    ensures Combines(TextRecords(TrimSpace(contents)), emits)
  {
    var lines := Split(TrimSpace(contents), '\n');
    LinesLength(TrimSpace(contents));
    var local: map<string, int> := map[];
    for i := 0 to |lines|
      invariant Counted(Records(lines[..i]), local)
    {
      FlatMapNext(RecordOf, lines, i);
      BlankHasNoRecord();
      if lines[i] == "" {
        continue;
      }
      var parts := Split(lines[i], '\t');
      if |parts| < 3 {
        continue;
      }
      CountedStep(Records(lines[..i]), local, KV(parts[1], parts[2]));
      CounterFits(lines[..i], local, parts[1]);
      local := local[parts[1] := Wrap64((if parts[1] in local then local[parts[1]] else 0) + 1)];
    }
    assert lines[..|lines|] == lines;
    emits := EmitAll(local);
    CombinesCounted(Records(lines), local, emits);
  }

  /** `for k, v := range local`: each entry once. */
  method EmitAll(local: map<string, int>) returns (emits: seq<KV>)
    ensures Keys(emits) == local.Keys
    ensures forall i, j :: 0 <= i < j < |emits| ==> emits[i].key != emits[j].key
    ensures forall i :: 0 <= i < |emits| ==> emits[i].key in local && emits[i].value == Itoa(local[emits[i].key])
  {
    emits := [];
    var left := local.Keys;
    while left != {}
      invariant left <= local.Keys && Keys(emits) == local.Keys - left
      invariant forall i, j :: 0 <= i < j < |emits| ==> emits[i].key != emits[j].key
      invariant forall i :: 0 <= i < |emits| ==> emits[i].key in local && emits[i].value == Itoa(local[emits[i].key])
    {
      var k :| k in left;
      forall i | 0 <= i < |emits| ensures emits[i].key != k {
        assert emits[i].key in Keys(emits);
      }
      KeysConcat(emits, [KV(k, Itoa(local[k]))]);
      assert Keys([KV(k, Itoa(local[k]))]) == {k} by {
        assert [KV(k, Itoa(local[k]))][0].key == k;
      }
      emits := emits + [KV(k, Itoa(local[k]))];
      left := left - {k};
    }
  }

  lemma CombinesCounted(records: seq<KV>, local: map<string, int>, emits: seq<KV>)
    requires Counted(records, local) && Keys(emits) == local.Keys
    requires forall i, j :: 0 <= i < j < |emits| ==> emits[i].key != emits[j].key
    requires forall i :: 0 <= i < |emits| ==> emits[i].key in local && emits[i].value == Itoa(local[emits[i].key])
    ensures Combines(records, emits)
  {
  }

  // ---- reduce -----------------------------------------------------------------------------

  function Parsed(v: string): Option<int> {
    Atoi(TrimSpace(v))
  }

  /** The values that are numbers, in order. */
  function Ints(values: seq<string>): seq<int> {
    FlatMap(IntOf, values)
  }

  function IntOf(v: string): seq<int> {
    match Parsed(v) case None => [] case Some(n) => [n]
  }

  /** What a value adds to a count: itself, or 1 when it is not a number. */
  function CountTerm(v: string): int {
    match Parsed(v) case None => 1 case Some(n) => n
  }

  function Same(n: int): int {
    n
  }

  datatype Mode = Min | Max | Spread

  /** MYSQL_TOPN_N: the program falls back to its default unless the setting is positive. */
  type Rank = n: nat | n >= 1 witness 1

  datatype App = Count | Agg | MinMax(mode: Mode) | TopN(n: Rank)

  function MinOf(xs: seq<int>): int
    requires xs != []
  {
    var n := |xs| - 1;
    if n == 0 then xs[0]
    else
      var m := MinOf(xs[..n]);
      if xs[n] < m then xs[n] else m
  }

  function MaxOf(xs: seq<int>): int
    requires xs != []
  {
    var n := |xs| - 1;
    if n == 0 then xs[0]
    else
      var m := MaxOf(xs[..n]);
      if xs[n] > m then xs[n] else m
  }

  lemma {:induction false} MinIsLeast(xs: seq<int>)
    requires xs != []
    ensures MinOf(xs) in xs && forall i :: 0 <= i < |xs| ==> MinOf(xs) <= xs[i]
  {
    if |xs| > 1 {
      MinIsLeast(xs[..|xs| - 1]);
    }
  }

  lemma {:induction false} MaxIsGreatest(xs: seq<int>)
    requires xs != []
    ensures MaxOf(xs) in xs && forall i :: 0 <= i < |xs| ==> xs[i] <= MaxOf(xs)
  {
    if |xs| > 1 {
      MaxIsGreatest(xs[..|xs| - 1]);
    }
  }

  ghost predicate Descending(xs: seq<int>) {
    forall i, j :: 0 <= i < j < |xs| ==> xs[i] >= xs[j]
  }

  function Insert(x: int, xs: seq<int>): (r: seq<int>)
    ensures |r| == |xs| + 1
  {
    if xs == [] || x >= xs[0] then [x] + xs else [xs[0]] + Insert(x, xs[1..])
  }

  /** Stands for sort.Slice; any descending rearrangement is this one. */
  function SortDescending(xs: seq<int>): (r: seq<int>)
    ensures |r| == |xs|
  {
    if xs == [] then [] else Insert(xs[0], SortDescending(xs[1..]))
  }

  lemma {:induction false} InsertKeepsBag(x: int, xs: seq<int>)
    ensures multiset(Insert(x, xs)) == multiset{x} + multiset(xs)
  {
    if !(xs == [] || x >= xs[0]) {
      InsertKeepsBag(x, xs[1..]);
      assert xs == [xs[0]] + xs[1..];
    }
  }

  lemma {:induction false} InsertKeepsOrder(x: int, xs: seq<int>)
    requires Descending(xs)
    ensures Descending(Insert(x, xs))
  {
    if !(xs == [] || x >= xs[0]) {
      var r := Insert(x, xs[1..]);
      InsertKeepsOrder(x, xs[1..]);
      InsertKeepsBag(x, xs[1..]);
      forall i | 0 <= i < |r| ensures xs[0] >= r[i] {
        assert r[i] in multiset(r);
      }
    }
  }

  lemma {:induction false} SortIsSorted(xs: seq<int>)
    ensures Descending(SortDescending(xs)) && multiset(SortDescending(xs)) == multiset(xs)
  {
    if xs != [] {
      SortIsSorted(xs[1..]);
      InsertKeepsBag(xs[0], SortDescending(xs[1..]));
      InsertKeepsOrder(xs[0], SortDescending(xs[1..]));
      assert xs == [xs[0]] + xs[1..];
    }
  }

  function MinMaxOf(mode: Mode, ints: seq<int>): int {
    if ints == [] then 0
    else
      match mode
      case Min => MinOf(ints)
      case Max => MaxOf(ints)
      case Spread => Wrap64(MaxOf(ints) - MinOf(ints))
  }

  function TopOf(n: Rank, ints: seq<int>): int {
    if ints == [] then 0 else SortDescending(ints)[(if n <= |ints| then n else |ints|) - 1]
  }

  /** The number that the reduce function of `app` prints for the values of one key. */
  function ReduceValue(app: App, values: seq<string>): int {
    match app
    case Count => Wrap64(Sum(CountTerm, values))
    case Agg => Wrap64(Sum(Same, Ints(values)))
    case MinMax(mode) => MinMaxOf(mode, Ints(values))
    case TopN(n) => TopOf(n, Ints(values))
  }

  lemma WrappedSumNext<T>(f: T -> int, xs: seq<T>, i: nat)
    requires i < |xs|
    ensures Wrap64(Wrap64(Sum(f, xs[..i])) + f(xs[i])) == Wrap64(Sum(f, xs[..i + 1]))
  {
    SumNext(f, xs, i);
    WrapAdd(Sum(f, xs[..i]), f(xs[i]));
  }

  /** Old emitters wrote one value per row: what is not a number counts as 1. */
  method TermOf(v: string) returns (n: int)
    ensures n == CountTerm(v)
  {
    match Parsed(v)
    case None => n := 1;
    case Some(m) => n := m;
  }

  /** Reduce of count. */
  method ReduceCount(values: seq<string>) returns (sum: int)
    ensures sum == Wrap64(Sum(CountTerm, values))
  {
    hide CountTerm;
    sum := 0;
    for i := 0 to |values|
      invariant sum == Wrap64(Sum(CountTerm, values[..i]))
    {
      WrappedSumNext(CountTerm, values, i);
      var n := TermOf(values[i]);
      sum := Wrap64(sum + n);
    }
    assert values[..|values|] == values;
  }

  /** Reduce of agg. */
  method ReduceAgg(values: seq<string>) returns (total: int)
    ensures total == Wrap64(Sum(Same, Ints(values)))
  {
    hide IntOf, Wrap64;
    total := 0;
    for i := 0 to |values|
      invariant total == Wrap64(Sum(Same, Ints(values[..i])))
    {
      FlatMapNext(IntOf, values, i);
      var n := NumberOf(values[i]);
      if n.None? {
        continue;
      }
      SumAppend(Same, Ints(values[..i]), n.value);
      WrapAdd(Sum(Same, Ints(values[..i])), n.value);
      total := Wrap64(total + n.value);
    }
    assert values[..|values|] == values;
  }

  /** strconv.Atoi(strings.TrimSpace(v)) */
  method NumberOf(v: string) returns (n: Option<int>)
    ensures IntOf(v) == if n.Some? then [n.value] else []
  {
    n := Parsed(v);
  }

  lemma ExtremesNext(xs: seq<int>, v: int)
    ensures xs == [] ==> MinOf(xs + [v]) == MaxOf(xs + [v]) == v
    ensures xs != [] ==> MinOf(xs + [v]) == (if v < MinOf(xs) then v else MinOf(xs))
    ensures xs != [] ==> MaxOf(xs + [v]) == (if v > MaxOf(xs) then v else MaxOf(xs))
  {
    assert (xs + [v])[..|xs|] == xs;
  }

  /** The loop of minmax. */
  method Extremes(values: seq<string>) returns (inited: bool, minV: int, maxV: int)
    ensures inited <==> Ints(values) != []
    ensures inited ==> minV == MinOf(Ints(values)) && maxV == MaxOf(Ints(values))
  {
    ghost var seen: seq<int> := [];
    assert Ints(values[..0]) == seen;
    hide IntOf, MinOf, MaxOf, FlatMap;
    inited, minV, maxV := false, 0, 0;
    for i := 0 to |values|
      invariant seen == Ints(values[..i])
      invariant inited <==> seen != []
      invariant inited ==> minV == MinOf(seen) && maxV == MaxOf(seen)
    {
      FlatMapNext(IntOf, values, i);
      var n := NumberOf(values[i]);
      if n.None? {
        continue;
      }
      var v := n.value;
      ExtremesNext(seen, v);
      seen := seen + [v];
      if !inited {
        minV, maxV, inited := v, v, true;
        continue;
      }
      if v < minV {
        minV := v;
      }
      if v > maxV {
        maxV := v;
      }
    }
    assert values[..|values|] == values;
  }

  /** Reduce of minmax. */
  method ReduceMinMax(values: seq<string>, mode: Mode) returns (out: int)
    ensures out == MinMaxOf(mode, Ints(values))
  {
    if |values| == 0 {
      return 0;
    }
    hide MinOf, MaxOf, Wrap64, Ints;
    var inited, minV, maxV := Extremes(values);
    if !inited {
      return 0;
    }
    match mode
    case Min => out := minV;
    case Max => out := maxV;
    case Spread => out := Wrap64(maxV - minV);
  }

  /** Reduce of topn. */
  method ReduceTopN(values: seq<string>, n: Rank) returns (out: int)
    ensures out == TopOf(n, Ints(values))
  {
    hide IntOf;
    var nums: seq<int> := [];
    for i := 0 to |values|
      invariant nums == Ints(values[..i])
    {
      FlatMapNext(IntOf, values, i);
      var v := NumberOf(values[i]);
      if v.None? {
        continue;
      }
      nums := nums + [v.value];
    }
    assert values[..|values|] == values;
    if |nums| == 0 {
      return 0;
    }
    nums := SortDescending(nums);
    var idx := n - 1;
    if idx >= |nums| {
      idx := |nums| - 1;
    }
    out := nums[idx];
  }

  // ---- which numbers the reduce functions see ---------------------------------------------

  /** A value that, without the white space around it, is a numeral for an int64. */
  predicate IsNumber(v: string, n: int) {
    IsInt64(n) && Denotes(TrimSpace(v), n)
  }

  /** A value is seen as the number it denotes, and as none if it denotes none. */
  lemma IntOfIff(v: string, n: int)
    ensures IntOf(v) == [n] <==> IsNumber(v, n)
    ensures IntOf(v) == [] <==> forall m :: !IsNumber(v, m)
  {
    hide Atoi, Denotes, TrimSpace;
    AtoiIffDenotes(TrimSpace(v), n);
    if Parsed(v).Some? {
      AtoiIffDenotes(TrimSpace(v), Parsed(v).value);
      assert IsNumber(v, Parsed(v).value);
    } else {
      forall m ensures !IsNumber(v, m) {
        AtoiIffDenotes(TrimSpace(v), m);
      }
    }
  }

  /** Printed numbers, also with white space around them, are seen as themselves. */
  lemma PrintedIsNumber(left: string, n: int, right: string)
    requires IsInt64(n) && Blank(left) && Blank(right)
    ensures IsNumber(left + Itoa(n) + right, n)
    ensures IntOf(left + Itoa(n) + right) == [n]
  {
    var s := Itoa(n);
    assert Tight(s);
    TrimOfPadded(left, s, right);
    ItoaDenotes(n);
    hide Itoa, TrimSpace, Denotes;
    IntOfIff(left + s + right, n);
  }

  lemma CountTermIs(v: string, n: int)
    ensures IsNumber(v, n) ==> CountTerm(v) == n
    ensures (forall m :: !IsNumber(v, m)) ==> CountTerm(v) == 1
  {
    hide Atoi, Denotes, TrimSpace;
    IntOfIff(v, n);
  }

  /** A number is among those seen if and only if some value is that number. */
  lemma {:induction false} IntsAre(values: seq<string>, n: int)
    ensures n in Ints(values) <==> exists i :: 0 <= i < |values| && IsNumber(values[i], n)
  {
    hide IntOf, IsNumber;
    if values != [] {
      IntsAre(values[1..], n);
      SeenInOne(values[0], n);
      assert Ints(values) == IntOf(values[0]) + Ints(values[1..]);
      if i :| 0 <= i < |values| && IsNumber(values[i], n) {
        assert i > 0 ==> values[1..][i - 1] == values[i];
      }
      if i :| 0 <= i < |values[1..]| && IsNumber(values[1..][i], n) {
        assert values[i + 1] == values[1..][i];
      }
    }
  }

  lemma SeenInOne(v: string, n: int)
    ensures n in IntOf(v) <==> IsNumber(v, n)
  {
    hide IsNumber;
    IntOfIff(v, n);
  }

  // ---- what the results mean --------------------------------------------------------------

  /** agg adds up: nothing gives 0, a number is added, anything else changes nothing. */
  lemma AggAddsUp(vs: seq<string>, v: string, n: int)
    ensures ReduceValue(Agg, []) == 0
    ensures IsNumber(v, n) ==> ReduceValue(Agg, vs + [v]) == Wrap64(ReduceValue(Agg, vs) + n)
    ensures (forall m :: !IsNumber(v, m)) ==> ReduceValue(Agg, vs + [v]) == ReduceValue(Agg, vs)
  {
    hide IntOf, IsNumber, Wrap64;
    IntOfIff(v, n);
    FlatMapAppend(IntOf, vs, v);
    assert Ints(vs) + [] == Ints(vs);
    assert Ints([]) == [] && Sum(Same, []) == 0;
    if IsNumber(v, n) {
      SumAppend(Same, Ints(vs), n);
      WrapAdd(Sum(Same, Ints(vs)), n);
    }
  }

  /** count adds up too, but what is not a number adds 1. */
  lemma CountAddsUp(vs: seq<string>, v: string, n: int)
    ensures ReduceValue(Count, []) == 0
    ensures IsNumber(v, n) ==> ReduceValue(Count, vs + [v]) == Wrap64(ReduceValue(Count, vs) + n)
    ensures (forall m :: !IsNumber(v, m)) ==> ReduceValue(Count, vs + [v]) == Wrap64(ReduceValue(Count, vs) + 1)
  {
    hide CountTerm, IsNumber, Wrap64;
    CountTermIs(v, n);
    SumAppend(CountTerm, vs, v);
    WrapAdd(Sum(CountTerm, vs), CountTerm(v));
  }

  /** minmax: the least number, the greatest, or their difference; 0 without a number. */
  lemma MinMaxMeans(values: seq<string>) returns (lo: int, hi: int)
    ensures Ints(values) == [] ==> forall mode :: ReduceValue(MinMax(mode), values) == 0
    ensures Ints(values) != [] ==> lo in Ints(values) && hi in Ints(values)
    ensures forall n :: n in Ints(values) ==> lo <= n <= hi
    ensures Ints(values) != [] ==>
      && ReduceValue(MinMax(Min), values) == lo
      && ReduceValue(MinMax(Max), values) == hi
      && ReduceValue(MinMax(Spread), values) == Wrap64(hi - lo)
  {
    lo, hi := 0, 0;
    var ints := Ints(values);
    hide Ints, MinOf, MaxOf, Wrap64;
    if ints != [] {
      MinIsLeast(ints);
      MaxIsGreatest(ints);
      lo, hi := MinOf(ints), MaxOf(ints);
    }
  }

  lemma TopOfNothing(values: seq<string>, n: Rank)
    requires Ints(values) == []
    ensures ReduceValue(TopN(n), values) == 0
  {
  }

  function Above(v: int): (f: int -> int)
    ensures forall x :: f(x) == if x > v then 1 else 0
  {
    (x: int) => if x > v then 1 else 0
  }

  function AtLeast(v: int): (f: int -> int)
    ensures forall x :: f(x) == if x >= v then 1 else 0
  {
    (x: int) => if x >= v then 1 else 0
  }

  lemma {:induction false} RankInSorted(xs: seq<int>, v: int, i: nat)
    requires Descending(xs) && i < |xs| && v == xs[i]
    ensures Sum(Above(v), xs) <= i
    ensures Sum(AtLeast(v), xs) >= i + 1
  {
    var front, back := xs[..i], xs[i..];
    assert xs == front + back;
    SumConcat(Above(v), front, back);
    SumConcat(AtLeast(v), front, back);
    SumBounds(Above(v), front, 1);
    SumBounds(Above(v), back, 0);
    AllOnes(AtLeast(v), front);
    assert Sum(AtLeast(v), back) == AtLeast(v)(v) + Sum(AtLeast(v), back[1..]);
    SumBounds(AtLeast(v), back[1..], 1);
  }

  lemma {:induction false} AllOnes(f: int -> int, xs: seq<int>)
    requires forall i :: 0 <= i < |xs| ==> f(xs[i]) == 1
    ensures Sum(f, xs) == |xs|
  {
    if xs != [] {
      AllOnes(f, xs[1..]);
    }
  }

  /**
   The number that topn prints is one of the numbers, fewer than n numbers are greater, and at
   least n (or all, if there are fewer) are not smaller.
   */
  lemma TopNIsNthLargest(values: seq<string>, n: Rank)
    requires Ints(values) != []
    ensures var ints := Ints(values); var v := TopOf(n, ints);
            && v in ints
            && Sum(Above(v), ints) < n
            && Sum(AtLeast(v), ints) >= if n <= |ints| then n else |ints|
  {
    var ints := Ints(values);
    var sorted := SortDescending(ints);
    var i := (if n <= |ints| then n else |ints|) - 1;
    SortIsSorted(ints);
    RankInSorted(sorted, sorted[i], i);
    SumPerm(Above(sorted[i]), sorted, ints);
    SumPerm(AtLeast(sorted[i]), sorted, ints);
    assert sorted[i] in multiset(sorted);
  }

  /** However equal numbers are placed, a descending rearrangement is unique. */
  lemma {:induction false} DescendingUnique(xs: seq<int>, ys: seq<int>)
    requires Descending(xs) && Descending(ys) && multiset(xs) == multiset(ys)
    ensures xs == ys
  {
    SameLength(xs, ys);
    if xs != [] {
      assert xs[0] in multiset(ys) && ys[0] in multiset(xs);
      TailsOfPerm(xs, ys);
      DescendingUnique(xs[1..], ys[1..]);
      assert xs == [xs[0]] + xs[1..] && ys == [ys[0]] + ys[1..];
    }
  }

  lemma SameLength(xs: seq<int>, ys: seq<int>)
    requires multiset(xs) == multiset(ys)
    ensures |xs| == |ys|
  {
    assert |multiset(xs)| == |multiset(ys)|;
  }

  lemma TailsOfPerm(xs: seq<int>, ys: seq<int>)
    requires multiset(xs) == multiset(ys) && xs != [] && ys != [] && xs[0] == ys[0]
    ensures multiset(xs[1..]) == multiset(ys[1..])
  {
    BagTail(xs);
    BagTail(ys);
  }

  lemma ExtremesOfPerm(xs: seq<int>, ys: seq<int>)
    requires multiset(xs) == multiset(ys) && xs != []
    ensures ys != [] && MinOf(xs) == MinOf(ys) && MaxOf(xs) == MaxOf(ys)
  {
    SameLength(xs, ys);
    MinIsLeast(xs);
    MinIsLeast(ys);
    MaxIsGreatest(xs);
    MaxIsGreatest(ys);
    assert MinOf(xs) in multiset(ys) && MinOf(ys) in multiset(xs);
    assert MaxOf(xs) in multiset(ys) && MaxOf(ys) in multiset(xs);
  }

  lemma MinMaxIgnoresOrder(mode: Mode, xs: seq<int>, ys: seq<int>)
    requires multiset(xs) == multiset(ys)
    ensures MinMaxOf(mode, xs) == MinMaxOf(mode, ys)
  {
    SameLength(xs, ys);
    if xs != [] {
      ExtremesOfPerm(xs, ys);
    }
  }

  lemma TopIgnoresOrder(n: Rank, xs: seq<int>, ys: seq<int>)
    requires multiset(xs) == multiset(ys)
    ensures TopOf(n, xs) == TopOf(n, ys)
  {
    SameLength(xs, ys);
    SortIsSorted(xs);
    SortIsSorted(ys);
    DescendingUnique(SortDescending(xs), SortDescending(ys));
  }

  /** No builtin reduce function depends on the order in which it gets its values. */
  lemma ReduceIgnoresOrder(app: App, vs: seq<string>, ws: seq<string>)
    requires multiset(vs) == multiset(ws)
    ensures ReduceValue(app, vs) == ReduceValue(app, ws)
  {
    FlatMapPerm(IntOf, vs, ws);
    match app
    case Count => SumPerm(CountTerm, vs, ws);
    case Agg => SumPerm(Same, Ints(vs), Ints(ws));
    case MinMax(mode) => MinMaxIgnoresOrder(mode, Ints(vs), Ints(ws));
    case TopN(n) => TopIgnoresOrder(n, Ints(vs), Ints(ws));
  }
}
