/** The reduce side of a worker: byte order of keys, and the loop that groups a sorted list. */
module Grouping {
  import opened Channels
  import opened Codec
  import opened Seqs

  // ---- Go's order on strings --------------------------------------------------------------

  predicate Less(a: string, b: string) {
    b != [] && (a == [] || a[0] < b[0] || (a[0] == b[0] && Less(a[1..], b[1..])))
  }

  lemma {:induction false} LessIrreflexive(a: string)
    ensures !Less(a, a)
  {
    if a != [] {
      LessIrreflexive(a[1..]);
    }
  }

  lemma {:induction false} LessTotal(a: string, b: string)
    ensures Less(a, b) || Less(b, a) || a == b
  {
    if a != [] && b != [] && a[0] == b[0] {
      LessTotal(a[1..], b[1..]);
      assert a == [a[0]] + a[1..] && b == [b[0]] + b[1..];
    }
  }

  lemma {:induction false} LessTransitive(a: string, b: string, c: string)
    requires Less(a, b) && Less(b, c)
    ensures Less(a, c)
  {
    if a != [] && a[0] == b[0] && b[0] == c[0] {
      LessTransitive(a[1..], b[1..], c[1..]);
    }
  }

  /** The texts agree up to `i`, and there `a` ends or has the smaller byte. */
  predicate FirstDifference(a: string, b: string, i: nat) {
    && i <= |a| && i < |b| && a[..i] == b[..i]
    && (i == |a| || a[i] as int < b[i] as int)
  }

  lemma FirstBytes(a: string, b: string, i: nat)
    requires FirstDifference(a, b, i)
    ensures b != [] && (a == [] || a[0] <= b[0])
  {
    assert i > 0 ==> a[..i][0] == b[..i][0];
  }

  /** Byte order: a proper prefix, or the smaller byte at the first difference. */
  lemma {:induction false} LessIff(a: string, b: string)
    ensures Less(a, b) <==> exists i: nat :: FirstDifference(a, b, i)
  {
    if b != [] {
      if a == [] || a[0] < b[0] {
        assert FirstDifference(a, b, 0);
      } else if a[0] == b[0] {
        LessIff(a[1..], b[1..]);
        if i: nat :| FirstDifference(a[1..], b[1..], i) {
          assert a[..i + 1] == [a[0]] + a[1..][..i] && b[..i + 1] == [b[0]] + b[1..][..i];
          assert FirstDifference(a, b, i + 1);
        }
        if i: nat :| FirstDifference(a, b, i) {
          assert a[1..][..i - 1] == a[..i][1..] && b[1..][..i - 1] == b[..i][1..];
          assert FirstDifference(a[1..], b[1..], i - 1);
        }
      } else if i: nat :| FirstDifference(a, b, i) {
        FirstBytes(a, b, i);
      }
    }
  }

  /** `a` before `b`, and `c` not before `b`: then `a` before `c`. */
  lemma LessThenNotBefore(a: string, b: string, c: string)
    requires Less(a, b) && !Less(c, b)
    ensures Less(a, c)
  {
    LessTotal(b, c);
    if b != c {
      LessTransitive(a, b, c);
    }
  }

  /** What sort.Sort(byKey) promises of the order; nothing about equal keys. */
  ghost predicate SortedByKey(kvs: seq<KV>) {
    forall i, j :: 0 <= i < j < |kvs| ==> !Less(kvs[j].key, kvs[i].key)
  }

  // ---- groups -----------------------------------------------------------------------------

  datatype Group = Group(key: string, values: seq<string>)

  function Values(kvs: seq<KV>): (r: seq<string>)
    ensures |r| == |kvs|
  {
    seq(|kvs|, i requires 0 <= i < |kvs| => kvs[i].value)
  }

  /** The values of key `k`, in order. */
  function ValuesOf(kvs: seq<KV>, k: string): seq<string> {
    FlatMap(Selector(k), kvs)
  }

  function Selector(k: string): KV -> seq<string> {
    (x: KV) => if x.key == k then [x.value] else []
  }

  function Keys(kvs: seq<KV>): set<string> {
    set i | 0 <= i < |kvs| :: kvs[i].key
  }

  /** How many elements at the front have the key of the first. */
  function RunLength(kvs: seq<KV>, k: string): (n: nat)
    ensures n <= |kvs|
    ensures forall i :: 0 <= i < n ==> kvs[i].key == k
    ensures n < |kvs| ==> kvs[n].key != k
  {
    if kvs == [] || kvs[0].key != k then 0 else 1 + RunLength(kvs[1..], k)
  }

  function Groups(kvs: seq<KV>): seq<Group> {
    if kvs == [] then []
    else
      var n := RunLength(kvs, kvs[0].key);
      [Group(kvs[0].key, Values(kvs[..n]))] + Groups(kvs[n..])
  }

  lemma {:induction false} ValuesOfRun(kvs: seq<KV>, k: string)
    requires forall i :: 0 <= i < |kvs| ==> kvs[i].key == k
    ensures ValuesOf(kvs, k) == Values(kvs)
  {
    if kvs != [] {
      ValuesOfRun(kvs[1..], k);
      assert Values(kvs) == [kvs[0].value] + Values(kvs[1..]);
    }
  }

  lemma {:induction false} ValuesOfAbsent(kvs: seq<KV>, k: string)
    ensures ValuesOf(kvs, k) == [] <==> k !in Keys(kvs)
  {
    if kvs != [] {
      ValuesOfAbsent(kvs[1..], k);
      assert Keys(kvs) == {kvs[0].key} + Keys(kvs[1..]);
    }
  }

  /** A value is among those of `k` as often as its pair is in the list. */
  lemma {:induction false} ValuesOfCount(kvs: seq<KV>, k: string, v: string)
    ensures multiset(ValuesOf(kvs, k))[v] == multiset(kvs)[KV(k, v)]
  {
    if kvs != [] {
      ValuesOfCount(kvs[1..], k, v);
      assert kvs == [kvs[0]] + kvs[1..];
      assert multiset(kvs)[KV(k, v)] == multiset([kvs[0]])[KV(k, v)] + multiset(kvs[1..])[KV(k, v)];
      assert multiset(ValuesOf(kvs, k))[v] == multiset(Selector(k)(kvs[0]))[v] + multiset(ValuesOf(kvs[1..], k))[v];
    }
  }

  lemma KeysAre(kvs: seq<KV>, k: string)
    ensures k in Keys(kvs) <==> exists v :: KV(k, v) in kvs
  {
    if i :| 0 <= i < |kvs| && kvs[i].key == k {
      assert KV(k, kvs[i].value) in kvs;
    }
  }

  /** In a sorted list the keys after the first run come strictly later. */
  lemma AfterRun(kvs: seq<KV>, j: nat)
    requires kvs != [] && SortedByKey(kvs)
    requires RunLength(kvs, kvs[0].key) <= j < |kvs|
    ensures Less(kvs[0].key, kvs[j].key)
  {
    hide Less, RunLength;
    var n := RunLength(kvs, kvs[0].key);
    LessTotal(kvs[0].key, kvs[n].key);
    if n < j {
      LessThenNotBefore(kvs[0].key, kvs[n].key, kvs[j].key);
    }
  }

  function GroupKeys(gs: seq<Group>): set<string> {
    set g | 0 <= g < |gs| :: gs[g].key
  }

  /** Each group holds exactly the values of its key, in the order of the list. */
  ghost predicate Holds(kvs: seq<KV>, gs: seq<Group>) {
    forall g :: 0 <= g < |gs| ==> gs[g].values == ValuesOf(kvs, gs[g].key)
  }

  ghost predicate Increasing(gs: seq<Group>) {
    forall g, h :: 0 <= g < h < |gs| ==> Less(gs[g].key, gs[h].key)
  }

  /**
   For a sorted list the groups have strictly increasing keys, every key has its group, and a
   group holds exactly the values of its key.
   */
  lemma {:induction false} GroupsOfSorted(kvs: seq<KV>)
    requires SortedByKey(kvs)
    ensures Holds(kvs, Groups(kvs)) && Increasing(Groups(kvs)) && GroupKeys(Groups(kvs)) == Keys(kvs)
  {
    hide Less, RunLength, ValuesOf;
    if kvs != [] {
      var k := kvs[0].key;
      var n := RunLength(kvs, k);
      var front, rest := kvs[..n], kvs[n..];
      GroupsOfSorted(rest);
      forall j | 0 <= j < |rest| ensures Less(k, rest[j].key) && rest[j].key != k {
        AfterRun(kvs, n + j);
        LessIrreflexive(k);
      }
      assert kvs == front + rest;
      ExtendHolds(front, rest, k, Groups(rest));
      ExtendKeys(front, rest, k, Groups(rest));
    }
  }

  lemma ExtendHolds(front: seq<KV>, rest: seq<KV>, k: string, later: seq<Group>)
    requires forall i :: 0 <= i < |front| ==> front[i].key == k
    requires forall j :: 0 <= j < |rest| ==> Less(k, rest[j].key) && rest[j].key != k
    requires Holds(rest, later) && GroupKeys(later) == Keys(rest)
    ensures Holds(front + rest, [Group(k, Values(front))] + later)
  {
    FirstGroup(front, rest, k);
    forall g | 0 <= g < |later| ensures later[g].values == ValuesOf(front + rest, later[g].key) {
      assert later[g].key in GroupKeys(later);
      LaterGroup(front, rest, k, later[g].key);
    }
  }

  lemma ExtendKeys(front: seq<KV>, rest: seq<KV>, k: string, later: seq<Group>)
    requires front != [] && forall i :: 0 <= i < |front| ==> front[i].key == k
    requires forall j :: 0 <= j < |rest| ==> Less(k, rest[j].key)
    requires Increasing(later) && GroupKeys(later) == Keys(rest)
    ensures Increasing([Group(k, Values(front))] + later)
    ensures GroupKeys([Group(k, Values(front))] + later) == Keys(front + rest)
  {
    var gs := [Group(k, Values(front))] + later;
    forall g | 0 <= g < |later| ensures Less(k, later[g].key) {
      assert later[g].key in GroupKeys(later);
    }
    assert GroupKeys(gs) == {k} + GroupKeys(later) by {
      assert gs[0].key == k;
      forall g | 0 <= g < |later| ensures later[g].key in GroupKeys(gs) {
        assert gs[g + 1] == later[g];
      }
    }
    KeysConcat(front, rest);
    assert Keys(front) == {k} by {
      assert front[0].key == k;
    }
  }

  lemma KeysConcat(a: seq<KV>, b: seq<KV>)
    ensures Keys(a + b) == Keys(a) + Keys(b)
  {
    forall i | 0 <= i < |a| ensures a[i].key in Keys(a + b) {
      assert (a + b)[i] == a[i];
    }
    forall i | 0 <= i < |b| ensures b[i].key in Keys(a + b) {
      assert (a + b)[|a| + i] == b[i];
    }
  }

  lemma FirstGroup(front: seq<KV>, rest: seq<KV>, k: string)
    requires forall i :: 0 <= i < |front| ==> front[i].key == k
    requires forall j :: 0 <= j < |rest| ==> rest[j].key != k
    ensures ValuesOf(front + rest, k) == Values(front)
  {
    FlatMapConcat(Selector(k), front, rest);
    ValuesOfRun(front, k);
    ValuesOfAbsent(rest, k);
  }

  lemma LaterGroup(front: seq<KV>, rest: seq<KV>, k: string, h: string)
    requires forall i :: 0 <= i < |front| ==> front[i].key == k
    requires h in Keys(rest) && forall j :: 0 <= j < |rest| ==> rest[j].key != k
    ensures ValuesOf(front + rest, h) == ValuesOf(rest, h)
  {
    FlatMapConcat(Selector(h), front, rest);
    ValuesOfAbsent(front, h);
  }

  // ---- the loop ---------------------------------------------------------------------------

  /** What the loop prints; `Blocked` when a call or the receive after it waits for ever. */
  datatype Printed = Lines(lines: seq<KV>) | Blocked

  /** One receive after each call of the reduce function, on one channel for all calls. */
  function Feed(groups: seq<Group>, chan: seq<KV>, reducef: (string, seq<string>) -> seq<KV>): Printed {
    if groups == [] then Lines([])
    else
      var q := chan + reducef(groups[0].key, groups[0].values);
      if q == [] || |q| > CHANNEL_CAPACITY then Blocked
      else
        match Feed(groups[1..], q[1..], reducef)
        case Blocked => Blocked
        case Lines(ls) => Lines([q[0]] + ls)
  }

  /** When every call emits once, each line is the output of its own group, and nothing blocks. */
  lemma {:induction false} OneLinePerGroup(groups: seq<Group>, reducef: (string, seq<string>) -> seq<KV>)
    requires forall g :: 0 <= g < |groups| ==> |reducef(groups[g].key, groups[g].values)| == 1
    ensures Feed(groups, [], reducef) ==
            Lines(seq(|groups|, g requires 0 <= g < |groups| => reducef(groups[g].key, groups[g].values)[0]))
  {
    if groups != [] {
      var q := [] + reducef(groups[0].key, groups[0].values);
      assert q[1..] == [];
      OneLinePerGroup(groups[1..], reducef);
    }
  }

  /** The two inner loops of Reduce: where the run that starts at `i` ends, and its values. */
  method NextRun(kvs: seq<KV>, i: nat) returns (j: nat, values: seq<string>)
    requires i < |kvs|
    ensures i < j <= |kvs| && (forall k :: i <= k < j ==> kvs[k].key == kvs[i].key)
    ensures j < |kvs| ==> kvs[j].key != kvs[i].key
    ensures values == Values(kvs[i..j])
  {
    j := i + 1;
    while j < |kvs| && kvs[j].key == kvs[i].key
      invariant i < j <= |kvs|
      invariant forall k :: i <= k < j ==> kvs[k].key == kvs[i].key
    {
      j := j + 1;
    }
    values := [];
    for k := i to j
      invariant values == Values(kvs[i..k])
    {
      values := values + [kvs[k].value];
      assert kvs[i..k + 1] == kvs[i..k] + [kvs[k]];
    }
  }

  /**
   The loop of Reduce over a sorted list. The result is what feeding the groups to the
   reduce function one by one prints.
   */
  method ReduceLoop(kvs: seq<KV>, reducef: (string, seq<string>) -> seq<KV>) returns (out: Printed)
    ensures out == Feed(Groups(kvs), [], reducef)
  {
    var lines: seq<KV> := [];
    var chan: seq<KV> := [];
    var i: nat := 0;
    ghost var goal := Feed(Groups(kvs), [], reducef);
    assert kvs[0..] == kvs;
    PrefixedNone(goal);
    while i < |kvs|
      invariant i <= |kvs|
      invariant goal == Prefixed(lines, Feed(Groups(kvs[i..]), chan, reducef))
    {
      var j, values := NextRun(kvs, i);
      FeedStep(kvs, i, j, chan, reducef);
      var q := chan + reducef(kvs[i].key, values);
      if q == [] || |q| > CHANNEL_CAPACITY {
        return Blocked;
      }
      PrefixedStep(lines, q[0], Feed(Groups(kvs[j..]), q[1..], reducef));
      lines := lines + [q[0]];
      chan := q[1..];
      i := j;
    }
    out := Lines(lines);
    assert lines + [] == lines;
  }

  function Prefixed(lines: seq<KV>, p: Printed): Printed {
    match p
    case Blocked => Blocked
    case Lines(ls) => Lines(lines + ls)
  }

  lemma PrefixedStep(lines: seq<KV>, x: KV, p: Printed)
    ensures Prefixed(lines, Prefixed([x], p)) == Prefixed(lines + [x], p)
  {
    if p.Lines? {
      assert lines + ([x] + p.lines) == (lines + [x]) + p.lines;
    }
  }

  lemma PrefixedNone(p: Printed)
    ensures Prefixed([], p) == p
  {
    if p.Lines? {
      assert [] + p.lines == p.lines;
    }
  }

  lemma FeedStep(kvs: seq<KV>, i: nat, j: nat, chan: seq<KV>, reducef: (string, seq<string>) -> seq<KV>)
    requires i < j <= |kvs| && (forall k :: i <= k < j ==> kvs[k].key == kvs[i].key)
    requires j < |kvs| ==> kvs[j].key != kvs[i].key
    ensures var q := chan + reducef(kvs[i].key, Values(kvs[i..j]));
            Feed(Groups(kvs[i..]), chan, reducef) ==
            if q == [] || |q| > CHANNEL_CAPACITY then Blocked
            else Prefixed([q[0]], Feed(Groups(kvs[j..]), q[1..], reducef))
  {
    GroupsStep(kvs, i, j);
    var gs := Groups(kvs[i..]);
    assert gs[1..] == Groups(kvs[j..]);
  }

  lemma GroupsStep(kvs: seq<KV>, i: nat, j: nat)
    requires i < j <= |kvs| && (forall k :: i <= k < j ==> kvs[k].key == kvs[i].key)
    requires j < |kvs| ==> kvs[j].key != kvs[i].key
    ensures Groups(kvs[i..]) == [Group(kvs[i].key, Values(kvs[i..j]))] + Groups(kvs[j..])
  {
    var rest := kvs[i..];
    RunLengthIs(rest, rest[0].key, j - i);
    assert rest[..j - i] == kvs[i..j] && rest[j - i..] == kvs[j..];
  }

  lemma {:induction false} RunLengthIs(kvs: seq<KV>, k: string, n: nat)
    requires n <= |kvs| && (forall i :: 0 <= i < n ==> kvs[i].key == k)
    requires n < |kvs| ==> kvs[n].key != k
    ensures RunLength(kvs, k) == n
  {
    if n > 0 {
      RunLengthIs(kvs[1..], k, n - 1);
    }
  }

  /** A call that emits more than the channel holds never ends, and neither does the wait for a call that emits nothing. */
  lemma BlockedCalls(g: Group, later: seq<Group>, reducef: (string, seq<string>) -> seq<KV>)
    requires var n := |reducef(g.key, g.values)|; n == 0 || n > 100
    ensures Feed([g] + later, [], reducef) == Blocked
  {
  }

  /** A reduce function that emits twice makes every later line belong to an earlier group. */
  lemma TwoEmitsShiftLines()
    ensures var f := (k: string, vs: seq<string>) => [KV(k, "a"), KV(k, "b")];
            Feed([Group("x", []), Group("y", [])], [], f) == Lines([KV("x", "a"), KV("x", "b")])
  {
    var f := (k: string, vs: seq<string>) => [KV(k, "a"), KV(k, "b")];
    var gs := [Group("x", []), Group("y", [])];
    assert gs[1..] == [Group("y", [])];
    assert Feed(gs[1..][1..], [KV("y", "a"), KV("y", "b")], f) == Lines([]);
  }
}
