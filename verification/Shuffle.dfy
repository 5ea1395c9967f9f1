/**
 From the records of the input files to the list that one reducer sorts: what the tasks emit,
 what is written, and what is read back.
 */
module Shuffle {
  import opened Apps
  import opened Codec
  import opened Grouping
  import opened Input
  import opened Partition
  import opened Seqs
  import opened Text

  // ---- lists that stand for others --------------------------------------------------------

  /** What an emitted KV adds to the count of `k`. */
  function TermAt(k: string): KV -> int {
    (x: KV) => if x.key == k then CountTerm(x.value) else 0
  }

  /**
   `emits` can take the place of `records`: the same pairs in some order, or for count the
   same keys with the number of records of each.
   */
  ghost predicate Stands(app: App, records: seq<KV>, emits: seq<KV>) {
    if app == Count then CountsStand(records, emits) else multiset(emits) == multiset(records)
  }

  ghost predicate CountsStand(records: seq<KV>, emits: seq<KV>) {
    Keys(emits) == Keys(records) && forall k :: Sum(TermAt(k), emits) == |ValuesOf(records, k)|
  }

  lemma StandsConcat(app: App, r1: seq<KV>, e1: seq<KV>, r2: seq<KV>, e2: seq<KV>)
    requires Stands(app, r1, e1) && Stands(app, r2, e2)
    ensures Stands(app, r1 + r2, e1 + e2)
  {
    KeysConcat(r1, r2);
    KeysConcat(e1, e2);
    if app == Count {
      forall k ensures Sum(TermAt(k), e1 + e2) == |ValuesOf(r1 + r2, k)| {
        SumConcat(TermAt(k), e1, e2);
        FlatMapConcat(Selector(k), r1, r2);
      }
    }
  }

  lemma KeysOfPerm(xs: seq<KV>, ys: seq<KV>)
    requires multiset(xs) == multiset(ys)
    ensures Keys(xs) == Keys(ys)
  {
    forall i | 0 <= i < |xs| ensures xs[i].key in Keys(ys) {
      assert xs[i] in multiset(ys);
    }
    forall i | 0 <= i < |ys| ensures ys[i].key in Keys(xs) {
      assert ys[i] in multiset(xs);
    }
  }

  lemma StandsPerm(app: App, r1: seq<KV>, r2: seq<KV>, e: seq<KV>)
    requires Stands(app, r1, e) && multiset(r1) == multiset(r2)
    ensures Stands(app, r2, e)
  {
    if app == Count {
      KeysOfPerm(r1, r2);
      forall k ensures |ValuesOf(r2, k)| == |ValuesOf(r1, k)| {
        FlatMapPerm(Selector(k), r1, r2);
        assert |multiset(ValuesOf(r1, k))| == |multiset(ValuesOf(r2, k))|;
      }
    }
  }

  // ---- what one mapper emits --------------------------------------------------------------

  /** What the map function of `app` may emit for a chunk. */
  ghost predicate MayEmit(app: App, contents: string, emits: seq<KV>) {
    var records := TextRecords(TrimSpace(contents));
    if app == Count then Combines(records, emits) else emits == records
  }

  lemma ItoaIsParsed(n: int)
    requires IsInt64(n)
    ensures Parsed(Itoa(n)) == Some(n) && IsWord(Itoa(n))
  {
    AtoiOfItoa(n);
    var s := Itoa(n);
    assert !IsSpace(s[0]) && !IsSpace(s[|s| - 1]);
    assert TrimSpace(s) == s;
  }

  /** The one KV of a key, if it is there, is all that counts for the key. */
  lemma {:induction false} SumOfDistinct(emits: seq<KV>, k: string, n: int)
    requires forall i, j :: 0 <= i < j < |emits| ==> emits[i].key != emits[j].key
    requires forall i :: 0 <= i < |emits| && emits[i].key == k ==> CountTerm(emits[i].value) == n
    ensures Sum(TermAt(k), emits) == if k in Keys(emits) then n else 0
  {
    hide CountTerm;
    if emits != [] {
      var rest := emits[1..];
      SumOfDistinct(rest, k, n);
      assert Keys(emits) == {emits[0].key} + Keys(rest) by {
        KeysConcat([emits[0]], rest);
        assert emits == [emits[0]] + rest;
        assert [emits[0]][0].key in Keys([emits[0]]);
      }
    }
  }

  lemma CombinedStands(records: seq<KV>, emits: seq<KV>)
    requires Combines(records, emits) && |records| <= MAX_INT64
    ensures CountsStand(records, emits)
  {
    hide CountTerm, Itoa;
    forall k ensures Sum(TermAt(k), emits) == |ValuesOf(records, k)| {
      var n := |ValuesOf(records, k)|;
      ValuesOfLength(records, k);
      TermOfItoa(n);
      SumOfDistinct(emits, k, n);
      ValuesOfAbsent(records, k);
    }
  }

  lemma TermOfItoa(n: int)
    requires IsInt64(n)
    ensures CountTerm(Itoa(n)) == n
  {
    ItoaIsParsed(n);
  }

  lemma EmittedStands(app: App, contents: string, emits: seq<KV>)
    requires MayEmit(app, contents, emits) && |contents| < MAX_INT64
    ensures Stands(app, TextRecords(TrimSpace(contents)), emits)
  {
    hide Combines, CountsStand, TextRecords;
    TextRecordsLength(TrimSpace(contents));
    if app == Count {
      CombinedStands(TextRecords(TrimSpace(contents)), emits);
    }
  }

  lemma TextRecordsLength(s: string)
    ensures |TextRecords(s)| <= |s| + 1
  {
    RecordsLength(Split(s, '\n'));
    LinesLength(s);
  }

  // ---- what is written can be read back ---------------------------------------------------

  /** Keys are words; the values that are passed on as they are end in something visible. */
  predicate GoodRecord(app: App, x: KV) {
    IsWord(x.key) && (app != Count ==> EndsSolid(x.value))
  }

  ghost predicate GoodRecords(app: App, records: seq<KV>) {
    forall x :: x in records ==> GoodRecord(app, x)
  }

  /** Fit to be written at any place of an intermediate file. */
  predicate Sound(x: KV) {
    IsWord(x.key) && '\n' !in x.value && EndsSolid(x.value)
  }

  ghost predicate AllSound(kvs: seq<KV>) {
    forall x :: x in kvs ==> Sound(x)
  }

  lemma SoundRoundTrip(kvs: seq<KV>)
    requires AllSound(kvs)
    ensures Decode(TrimSpace(Encode(kvs))) == kvs
  {
    ServingTrimIsHarmless(Encode(kvs));
    SoundIsCodable(kvs);
    RoundTripIffCodable(kvs);
  }

  lemma SoundIsCodable(kvs: seq<KV>)
    requires AllSound(kvs)
    ensures Codable(kvs)
  {
    forall i | 0 <= i < |kvs| ensures Sound(kvs[i]) && PlainKV(kvs[i]) {
      assert kvs[i] in kvs;
    }
  }

  lemma {:induction false} PartsComeFrom(s: string, sep: char, i: nat, c: char)
    requires i < |Split(s, sep)| && c in Split(s, sep)[i]
    ensures c in s
  {
    if s != [] {
      var r := Split(s[1..], sep);
      SplitCons(s[0], s[1..], sep);
      assert s == [s[0]] + s[1..];
      var j := if s[0] == sep then i - 1 else i;
      if s[0] == sep && i == 0 {
        assert false;
      } else if c in r[j] {
        PartsComeFrom(s[1..], sep, j, c);
      } else {
        assert c == s[0];
      }
    }
  }

  lemma RecordHasNoLineFeed(line: string)
    requires '\n' !in line
    ensures forall x :: x in RecordOf(line) ==> '\n' !in x.value
  {
    var parts := Split(line, '\t');
    if |parts| >= 3 && '\n' in parts[2] {
      PartsComeFrom(line, '\t', 2, '\n');
    }
  }

  lemma {:induction false} RecordsHaveNoLineFeed(lines: seq<string>)
    requires forall i :: 0 <= i < |lines| ==> '\n' !in lines[i]
    ensures forall x :: x in Records(lines) ==> '\n' !in x.value
  {
    hide RecordOf;
    if lines != [] {
      RecordHasNoLineFeed(lines[0]);
      RecordsHaveNoLineFeed(lines[1..]);
    }
  }

  lemma TextRecordsHaveNoLineFeed(s: string)
    ensures forall x :: x in TextRecords(s) ==> '\n' !in x.value
  {
    SplitHasNoSep(s, '\n');
    RecordsHaveNoLineFeed(Split(s, '\n'));
  }

  lemma EmittedIsSound(app: App, contents: string, emits: seq<KV>)
    requires MayEmit(app, contents, emits) && |contents| < MAX_INT64
    requires GoodRecords(app, TextRecords(TrimSpace(contents)))
    ensures AllSound(emits)
  {
    hide TextRecords, TrimSpace, IsWord, Itoa;
    var records := TextRecords(TrimSpace(contents));
    if app == Count {
      TextRecordsLength(TrimSpace(contents));
      forall x | x in emits ensures Sound(x) {
        CombinedIsSound(records, emits, x);
      }
    } else {
      TextRecordsHaveNoLineFeed(TrimSpace(contents));
    }
  }

  lemma CombinedIsSound(records: seq<KV>, emits: seq<KV>, x: KV)
    requires Combines(records, emits) && GoodRecords(Count, records) && |records| <= MAX_INT64
    requires x in emits
    ensures Sound(x)
  {
    hide Itoa, IsWord;
    var i :| 0 <= i < |emits| && emits[i] == x;
    assert x.key in Keys(emits);
    var j :| 0 <= j < |records| && records[j].key == x.key;
    assert records[j] in records;
    ValuesOfLength(records, x.key);
    ItoaIsParsed(|ValuesOf(records, x.key)|);
    WordIsSolid(x.value);
  }

  lemma WordIsSolid(w: string)
    requires IsWord(w)
    ensures '\n' !in w && EndsSolid(w)
  {
  }

  // ---- what one key gets ------------------------------------------------------------------

  function Keeper(k: string): KV -> seq<KV> {
    (x: KV) => if x.key == k then [x] else []
  }

  function OfKey(kvs: seq<KV>, k: string): seq<KV> {
    FlatMap(Keeper(k), kvs)
  }

  lemma {:induction false} OfKeyCount(kvs: seq<KV>, k: string, x: KV)
    ensures multiset(OfKey(kvs, k))[x] == if x.key == k then multiset(kvs)[x] else 0
  {
    if kvs != [] {
      OfKeyCount(kvs[1..], k, x);
      assert kvs == [kvs[0]] + kvs[1..];
      assert multiset(kvs)[x] == multiset([kvs[0]])[x] + multiset(kvs[1..])[x];
      assert multiset(OfKey(kvs, k))[x] == multiset(Keeper(k)(kvs[0]))[x] + multiset(OfKey(kvs[1..], k))[x];
    }
  }

  lemma {:induction false} OfKeyIsEnough(kvs: seq<KV>, k: string)
    ensures ValuesOf(OfKey(kvs, k), k) == ValuesOf(kvs, k)
  {
    if kvs != [] {
      OfKeyIsEnough(kvs[1..], k);
      FlatMapConcat(Selector(k), Keeper(k)(kvs[0]), OfKey(kvs[1..], k));
      if kvs[0].key == k {
        FlatMapOne(Selector(k), kvs[0]);
      }
    }
  }

  /** Two lists that agree on the KVs of a key have the same values of it. */
  lemma SameValues(xs: seq<KV>, ys: seq<KV>, k: string)
    requires forall x: KV :: x.key == k ==> multiset(xs)[x] == multiset(ys)[x]
    ensures multiset(ValuesOf(xs, k)) == multiset(ValuesOf(ys, k))
  {
    forall x: KV ensures multiset(OfKey(xs, k))[x] == multiset(OfKey(ys, k))[x] {
      OfKeyCount(xs, k, x);
      OfKeyCount(ys, k, x);
    }
    assert multiset(OfKey(xs, k)) == multiset(OfKey(ys, k));
    FlatMapPerm(Selector(k), OfKey(xs, k), OfKey(ys, k));
    OfKeyIsEnough(xs, k);
    OfKeyIsEnough(ys, k);
  }

  lemma {:induction false} TermsOfKey(kvs: seq<KV>, k: string)
    ensures Sum(CountTerm, ValuesOf(kvs, k)) == Sum(TermAt(k), kvs)
  {
    hide CountTerm;
    if kvs != [] {
      TermsOfKey(kvs[1..], k);
      SumConcat(CountTerm, Selector(k)(kvs[0]), ValuesOf(kvs[1..], k));
      if kvs[0].key == k {
        assert Sum(CountTerm, [kvs[0].value]) == CountTerm(kvs[0].value) + Sum(CountTerm, []);
      }
    }
  }

  // ---- the specification of a job ---------------------------------------------------------

  /** The number a job has to report for the values of one key. */
  function Expected(app: App, values: seq<string>): int {
    if app == Count then Wrap64(|values|) else ReduceValue(app, values)
  }

  /** SELECT key, app(value) FROM records GROUP BY key */
  function Spec(app: App, records: seq<KV>): map<string, int> {
    map k | k in Keys(records) :: Expected(app, ValuesOf(records, k))
  }

  /** `got` is the part of `all` that belongs to reducer `r`. */
  ghost predicate IsPart(hash: string -> nat, nReduce: nat, r: nat, all: seq<KV>, got: seq<KV>)
    requires nReduce > 0
  {
    forall x: KV :: multiset(got)[x] == if ReducerForKey(hash, x.key, nReduce) == r then multiset(all)[x] else 0
  }

  lemma PartKeys(hash: string -> nat, nReduce: nat, r: nat, all: seq<KV>, got: seq<KV>, k: string)
    requires nReduce > 0 && IsPart(hash, nReduce, r, all, got)
    ensures k in Keys(got) <==> k in Keys(all) && ReducerForKey(hash, k, nReduce) == r
  {
    hide ReducerForKey;
    if k in Keys(got) {
      var i :| 0 <= i < |got| && got[i].key == k;
      assert got[i] in multiset(got);
      assert got[i] in multiset(all);
      assert got[i] in all;
    }
    if k in Keys(all) && ReducerForKey(hash, k, nReduce) == r {
      var i :| 0 <= i < |all| && all[i].key == k;
      assert all[i] in multiset(all);
      assert all[i] in multiset(got);
      assert all[i] in got;
    }
  }

  /** The reducer that a key belongs to computes for it what the records of all files ask for. */
  lemma ReducerComputesSpec(app: App, hash: string -> nat, nReduce: nat, records: seq<KV>, all: seq<KV>, got: seq<KV>, k: string)
    requires nReduce > 0 && Stands(app, records, all)
    requires IsPart(hash, nReduce, ReducerForKey(hash, k, nReduce), all, got)
    ensures ReduceValue(app, ValuesOf(got, k)) == Expected(app, ValuesOf(records, k))
  {
    hide ReducerForKey;
    SameValues(got, all, k);
    ReduceIgnoresOrder(app, ValuesOf(got, k), ValuesOf(all, k));
    if app == Count {
      TermsOfKey(all, k);
    } else {
      FlatMapPerm(Selector(k), all, records);
      ReduceIgnoresOrder(app, ValuesOf(all, k), ValuesOf(records, k));
    }
  }
}
