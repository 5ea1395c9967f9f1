/** How the MySQL source cuts the range of primary keys into shards, in the arithmetic of int64. */
module Shards {
  import opened Text

  datatype Shard = Shard(start: int, end: int)

  /** Go's division: towards zero. */
  function Quotient(a: int, b: int): int
    requires b > 0
  {
    if a >= 0 then a / b else -((-a) / b)
  }

  /** The table is not empty, and the settings fell back to 16 unless the number of shards is positive. */
  predicate Valid(minID: int, maxID: int, shards: int) {
    IsInt64(minID) && IsInt64(maxID) && minID <= maxID && 1 <= shards <= MAX_INT64
  }

  function StepOf(minID: int, maxID: int, shards: int): (step: int)
    requires Valid(minID, maxID, shards)
    ensures step >= 1
  {
    var span := Wrap64(Wrap64(maxID - minID) + 1);
    var step := Quotient(Wrap64(Wrap64(span + shards) - 1), shards);
    if step < 1 then 1 else step
  }

  function StartOf(minID: int, step: int, i: int): int {
    Wrap64(minID + Wrap64(i * step))
  }

  function ShardAt(minID: int, step: int, i: int): Shard {
    Shard(StartOf(minID, step, i), Wrap64(StartOf(minID, step, i) + step))
  }

  /** The shards from the i-th on, up to the first that would start behind `maxID`. */
  function ShardsFrom(minID: int, maxID: int, shards: nat, step: int, i: nat): (r: seq<Shard>)
    requires i <= shards
    ensures |r| <= shards - i
    decreases shards - i
  {
    if i == shards || StartOf(minID, step, i) > maxID then []
    else [ShardAt(minID, step, i)] + ShardsFrom(minID, maxID, shards, step, i + 1)
  }

  function ShardList(minID: int, maxID: int, shards: int): (r: seq<Shard>)
    requires Valid(minID, maxID, shards)
    ensures |r| <= shards
  {
    ShardsFrom(minID, maxID, shards, StepOf(minID, maxID, shards), 0)
  }

  method Step(minID: int, maxID: int, shards: int) returns (step: int)
    requires Valid(minID, maxID, shards)
    ensures step == StepOf(minID, maxID, shards)
  {
    var span := Wrap64(Wrap64(maxID - minID) + 1);
    step := Quotient(Wrap64(Wrap64(span + shards) - 1), shards);
    if step < 1 {
      step := 1;
    }
  }

  /** The loop of ExportSourceByPKRange. */
  method MakeShards(minID: int, maxID: int, shards: int) returns (tasks: seq<Shard>)
    requires Valid(minID, maxID, shards)
    ensures tasks == ShardList(minID, maxID, shards)
  {
    hide Wrap64, StepOf;
    var step := Step(minID, maxID, shards);
    tasks := [];
    var i: nat := 0;
    while i < shards
      invariant i <= shards
      invariant tasks + ShardsFrom(minID, maxID, shards, step, i) == ShardList(minID, maxID, shards)
    {
      var start := Wrap64(minID + Wrap64(i * step));
      if start > maxID {
        break;
      }
      var end := Wrap64(start + step);
      assert ShardAt(minID, step, i) == Shard(start, end);
      assert tasks + ([Shard(start, end)] + ShardsFrom(minID, maxID, shards, step, i + 1)) ==
             (tasks + [Shard(start, end)]) + ShardsFrom(minID, maxID, shards, step, i + 1);
      tasks := tasks + [Shard(start, end)];
      i := i + 1;
    }
    assert tasks + [] == tasks;
  }

  // ---- what a good list of shards is ------------------------------------------------------

  /** WHERE pk >= start AND pk < end */
  predicate Holds(s: Shard, id: int) {
    s.start <= id < s.end
  }

  ghost predicate InExactlyOne(tasks: seq<Shard>, id: int) {
    exists j :: IsTheOne(tasks, id, j)
  }

  ghost predicate IsTheOne(tasks: seq<Shard>, id: int, j: int) {
    && 0 <= j < |tasks| && Holds(tasks[j], id)
    && forall i :: 0 <= i < |tasks| && i != j ==> !Holds(tasks[i], id)
  }

  ghost predicate Covers(tasks: seq<Shard>, minID: int, maxID: int) {
    forall id :: minID <= id <= maxID ==> InExactlyOne(tasks, id)
  }

  function CeilDiv(a: int, b: int): int
    requires b > 0
  {
    (a + b - 1) / b
  }

  /** How many ids there may be. */
  function Span(minID: int, maxID: int): int {
    maxID - minID + 1
  }

  /** The steps reach from `minID` over `maxID` with the shards there are, and the last does not overflow. */
  predicate Fits(minID: int, maxID: int, shards: int)
    requires Valid(minID, maxID, shards)
  {
    var step := StepOf(minID, maxID, shards);
    && Span(minID, maxID) <= shards * step
    && minID + CeilDiv(Span(minID, maxID), step) * step <= MAX_INT64
  }

  // ---- the step ---------------------------------------------------------------------------

  lemma WrapBack(n: int)
    requires MAX_INT64 < n <= MAX_INT64 + TWO_64
    ensures Wrap64(n) == n - TWO_64
  {
  }

  lemma WrapSpan(minID: int, maxID: int, shards: int)
    requires Valid(minID, maxID, shards)
    ensures Wrap64(Wrap64(Wrap64(Wrap64(maxID - minID) + 1) + shards) - 1) == Wrap64(Span(minID, maxID) + shards - 1)
  {
    hide Wrap64;
    WrapAdd(maxID - minID, 1);
    WrapAdd(Span(minID, maxID), shards);
    WrapAdd(Span(minID, maxID) + shards, -1);
  }

  lemma SmallQuotient(a: int, b: int)
    requires b > 0 && a < b
    ensures Quotient(a, b) < 1
  {
    if a >= 0 {
      assert a / b == 0;
    } else {
      assert (-a) / b >= 0;
    }
  }

  /** The rounded-up share, or 1 when the sum of the span and the number of shards overflows. */
  lemma StepIs(minID: int, maxID: int, shards: int)
    requires Valid(minID, maxID, shards)
    ensures var x := Span(minID, maxID) + shards - 1;
            StepOf(minID, maxID, shards) == if x <= MAX_INT64 then x / shards else 1
  {
    WrapSpan(minID, maxID, shards);
    var x := Span(minID, maxID) + shards - 1;
    hide Wrap64;
    if x <= MAX_INT64 {
      assert Wrap64(x) == x;
      QuotientAtLeastOne(x, shards);
    } else {
      WrapBack(x);
      SmallQuotient(Wrap64(x), shards);
    }
  }

  lemma QuotientAtLeastOne(a: int, b: int)
    requires 0 < b <= a
    ensures Quotient(a, b) == a / b >= 1
  {
    assert b * (a / b) + a % b == a;
  }

  lemma DivBounds(a: int, b: int)
    requires b > 0
    ensures (a / b) * b <= a < (a / b) * b + b
  {
    assert b * (a / b) + a % b == a;
  }

  lemma CeilBounds(a: int, b: int)
    requires b > 0
    ensures (CeilDiv(a, b) - 1) * b < a <= CeilDiv(a, b) * b
  {
    DivBounds(a + b - 1, b);
    assert (CeilDiv(a, b) - 1) * b == CeilDiv(a, b) * b - b;
  }

  lemma MulMonotone(i: int, k: int, step: int)
    requires i <= k && step >= 0
    ensures i * step <= k * step
  {
  }

  /** Every multiple of the step that occurs stays within int64. */
  lemma StepProduct(minID: int, maxID: int, shards: int, i: int)
    requires Valid(minID, maxID, shards) && 0 <= i <= shards
    ensures 0 <= i * StepOf(minID, maxID, shards) <= MAX_INT64
  {
    var step := StepOf(minID, maxID, shards);
    StepIs(minID, maxID, shards);
    var x := Span(minID, maxID) + shards - 1;
    hide StepOf;
    MulMonotone(i, shards, step);
    MulMonotone(0, i, step);
    if x <= MAX_INT64 {
      DivBounds(x, shards);
    }
  }

  lemma StartIs(minID: int, step: int, i: int)
    requires IsInt64(minID) && 0 <= i * step <= MAX_INT64
    ensures StartOf(minID, step, i) == if minID + i * step <= MAX_INT64 then minID + i * step else minID + i * step - TWO_64
  {
    var p := i * step;
    hide Wrap64;
    assert Wrap64(p) == p;
    if minID + p > MAX_INT64 {
      WrapBack(minID + p);
    } else {
      assert Wrap64(minID + p) == minID + p;
    }
  }

  lemma StepFits(minID: int, maxID: int, shards: int, i: int)
    requires Valid(minID, maxID, shards) && 0 <= i <= shards
    ensures var step := StepOf(minID, maxID, shards);
            && 0 <= i * step <= MAX_INT64
            && StartOf(minID, step, i) == if minID + i * step <= MAX_INT64 then minID + i * step else minID + i * step - TWO_64
  {
    hide StepOf, StartOf;
    StepProduct(minID, maxID, shards, i);
    StartIs(minID, StepOf(minID, maxID, shards), i);
  }

  // ---- the list ---------------------------------------------------------------------------

  lemma {:induction false} ShardsAt(minID: int, maxID: int, shards: nat, step: int, i: nat, j: nat)
    requires i <= shards && j < |ShardsFrom(minID, maxID, shards, step, i)|
    ensures ShardsFrom(minID, maxID, shards, step, i)[j] == ShardAt(minID, step, i + j)
    decreases j
  {
    hide StartOf, ShardAt;
    if j > 0 {
      ShardsAt(minID, maxID, shards, step, i + 1, j - 1);
    }
  }

  /** The list has `k` elements when the first `k` start in time and the next does not. */
  lemma {:induction false} ShardsLength(minID: int, maxID: int, shards: nat, step: int, i: nat, k: nat)
    requires i <= k <= shards
    requires forall l :: i <= l < k ==> StartOf(minID, step, l) <= maxID
    requires k == shards || StartOf(minID, step, k) > maxID
    ensures |ShardsFrom(minID, maxID, shards, step, i)| == k - i
    decreases k - i
  {
    hide StartOf, ShardAt;
    if i < k {
      ShardsLength(minID, maxID, shards, step, i + 1, k);
    }
  }

  // ---- the condition is enough ------------------------------------------------------------

  lemma StepsNeeded(span: int, shards: int, step: int)
    requires span >= 1 && step >= 1 && shards >= 1 && span <= shards * step
    ensures 1 <= CeilDiv(span, step) <= shards
  {
    CeilBounds(span, step);
    var k := CeilDiv(span, step);
    hide CeilDiv;
    if k > shards {
      MulMonotone(shards, k - 1, step);
    }
    if k < 1 {
      MulMonotone(k, 0, step);
    }
  }

  lemma FittingShard(minID: int, maxID: int, shards: int, j: int, k: int)
    requires Valid(minID, maxID, shards) && 0 <= j < k <= shards
    requires var step := StepOf(minID, maxID, shards);
             minID + (k - 1) * step <= maxID && minID + k * step <= MAX_INT64
    ensures var step := StepOf(minID, maxID, shards);
            && StartOf(minID, step, j) == minID + j * step <= maxID
            && ShardAt(minID, step, j) == Shard(minID + j * step, minID + (j + 1) * step)
  {
    var step := StepOf(minID, maxID, shards);
    hide StepOf, Wrap64, StartOf;
    StepFits(minID, maxID, shards, j);
    MulMonotone(j, k - 1, step);
    MulMonotone(j + 1, k, step);
    assert (j + 1) * step == j * step + step;
  }

  /** The list when the condition holds: consecutive ranges of `step` ids. */
  lemma FittingList(minID: int, maxID: int, shards: int)
    requires Valid(minID, maxID, shards) && Fits(minID, maxID, shards)
    ensures var step := StepOf(minID, maxID, shards); var k := CeilDiv(Span(minID, maxID), step);
            var tasks := ShardList(minID, maxID, shards);
            && |tasks| == k
            && forall j :: 0 <= j < k ==> tasks[j] == Shard(minID + j * step, minID + (j + 1) * step)
  {
    var step, span := StepOf(minID, maxID, shards), Span(minID, maxID);
    var k := CeilDiv(span, step);
    CeilBounds(span, step);
    StepsNeeded(span, shards, step);
    hide StepOf, Wrap64, CeilDiv;
    forall j | 0 <= j < k
      ensures StartOf(minID, step, j) == minID + j * step <= maxID
      ensures ShardAt(minID, step, j) == Shard(minID + j * step, minID + (j + 1) * step)
    {
      FittingShard(minID, maxID, shards, j, k);
    }
    hide ShardAt;
    StepFits(minID, maxID, shards, k);
    hide StartOf;
    ShardsLength(minID, maxID, shards, step, 0, k);
    forall j | 0 <= j < k ensures ShardList(minID, maxID, shards)[j] == ShardAt(minID, step, j) {
      ShardsAt(minID, maxID, shards, step, 0, j);
    }
  }

  lemma FittingCovers(minID: int, maxID: int, shards: int, id: int)
    requires Valid(minID, maxID, shards) && Fits(minID, maxID, shards) && minID <= id <= maxID
    ensures InExactlyOne(ShardList(minID, maxID, shards), id)
  {
    var step := StepOf(minID, maxID, shards);
    var k := CeilDiv(Span(minID, maxID), step);
    var tasks := ShardList(minID, maxID, shards);
    FittingList(minID, maxID, shards);
    CeilBounds(Span(minID, maxID), step);
    hide StepOf, CeilDiv, ShardList;
    var j := (id - minID) / step;
    DivBounds(id - minID, step);
    Locate(id - minID, step, j, k);
    forall i | 0 <= i < k ensures Holds(tasks[i], id) <==> i == j {
      HeldOnlyAt(minID, step, id, j, i);
    }
    assert IsTheOne(tasks, id, j);
  }

  lemma HeldOnlyAt(minID: int, step: int, id: int, j: int, i: int)
    requires step >= 1 && j * step <= id - minID < j * step + step
    ensures Holds(Shard(minID + i * step, minID + (i + 1) * step), id) <==> i == j
  {
    assert (i + 1) * step == i * step + step;
    if i < j {
      MulMonotone(i + 1, j, step);
    } else if i > j {
      assert (j + 1) * step == j * step + step;
      MulMonotone(j + 1, i, step);
    }
  }

  lemma Locate(x: int, step: int, j: int, k: int)
    requires 0 <= x < k * step && step >= 1 && j * step <= x < j * step + step
    ensures 0 <= j < k
  {
    if j >= k {
      MulMonotone(k, j, step);
    }
    if j < 0 {
      MulMonotone(j, -1, step);
    }
  }

  // ---- and it is needed -------------------------------------------------------------------

  lemma NotHeld(minID: int, maxID: int, shards: int, j: nat, id: int)
    requires Valid(minID, maxID, shards) && j < shards && minID <= id <= maxID
    requires var step := StepOf(minID, maxID, shards);
             minID + (j + 1) * step <= id || minID + (j + 1) * step > MAX_INT64
    ensures !Holds(ShardAt(minID, StepOf(minID, maxID, shards), j), id)
  {
    var step := StepOf(minID, maxID, shards);
    StepFits(minID, maxID, shards, j);
    StepFits(minID, maxID, shards, j + 1);
    hide StepOf, Wrap64;
    assert (j + 1) * step == j * step + step;
    if minID + (j + 1) * step > MAX_INT64 && minID + j * step <= MAX_INT64 {
      WrapBack(minID + (j + 1) * step);
    }
  }

  lemma UnfitLosesOne(minID: int, maxID: int, shards: int, id: int)
    requires Valid(minID, maxID, shards) && !Fits(minID, maxID, shards)
    requires id == if Span(minID, maxID) > shards * StepOf(minID, maxID, shards) then minID + shards else maxID
    ensures minID <= id <= maxID && !InExactlyOne(ShardList(minID, maxID, shards), id)
  {
    var step, span := StepOf(minID, maxID, shards), Span(minID, maxID);
    var tasks := ShardList(minID, maxID, shards);
    StepIs(minID, maxID, shards);
    if span > shards * step {
      OverflowMeansOne(minID, maxID, shards);
    }
    CeilBounds(span, step);
    hide StepOf, CeilDiv;
    forall j: nat | j < |tasks| ensures !Holds(tasks[j], id) {
      ShardsAt(minID, maxID, shards, step, 0, j);
      MulMonotone(j + 1, shards, step);
      if span <= shards * step {
        BeyondLast(span, step, j + 1);
      }
      NotHeld(minID, maxID, shards, j, id);
    }
  }

  /** Too few steps are only made when the sum overflowed and the step became 1. */
  lemma OverflowMeansOne(minID: int, maxID: int, shards: int)
    requires Valid(minID, maxID, shards) && Span(minID, maxID) > shards * StepOf(minID, maxID, shards)
    ensures StepOf(minID, maxID, shards) == 1
  {
    StepIs(minID, maxID, shards);
    var x := Span(minID, maxID) + shards - 1;
    hide StepOf;
    if x <= MAX_INT64 {
      DivBounds(x, shards);
    }
  }

  /** A multiple of the step ends before the last id or not before the last step. */
  lemma BeyondLast(span: int, step: int, j: int)
    requires step >= 1
    ensures j * step <= span - 1 || j * step >= CeilDiv(span, step) * step
  {
    var k := CeilDiv(span, step);
    CeilBounds(span, step);
    hide CeilDiv;
    if j >= k {
      MulMonotone(k, j, step);
    } else {
      MulMonotone(j, k - 1, step);
    }
  }

  /**
   Every id between the least and the greatest is exported exactly once if and only if the
   shards reach over the span and the end of the last one fits in an int64.
   */
  lemma CoversIffFits(minID: int, maxID: int, shards: int)
    requires Valid(minID, maxID, shards)
    ensures Covers(ShardList(minID, maxID, shards), minID, maxID) <==> Fits(minID, maxID, shards)
  {
    hide ShardList, StepOf, CeilDiv, InExactlyOne;
    if Fits(minID, maxID, shards) {
      forall id | minID <= id <= maxID ensures InExactlyOne(ShardList(minID, maxID, shards), id) {
        FittingCovers(minID, maxID, shards, id);
      }
    } else {
      var id := if Span(minID, maxID) > shards * StepOf(minID, maxID, shards) then minID + shards else maxID;
      UnfitLosesOne(minID, maxID, shards, id);
    }
  }

  /** A simpler condition that is enough: neither sum overflows. */
  lemma EnoughRoom(minID: int, maxID: int, shards: int)
    requires Valid(minID, maxID, shards)
    requires maxID - minID + shards <= MAX_INT64 && maxID + StepOf(minID, maxID, shards) <= MAX_INT64
    ensures Fits(minID, maxID, shards)
  {
    var step, x := StepOf(minID, maxID, shards), Span(minID, maxID) + shards - 1;
    StepIs(minID, maxID, shards);
    hide StepOf;
    DivBounds(x, shards);
    CeilBounds(Span(minID, maxID), step);
    assert (CeilDiv(Span(minID, maxID), step) - 1) * step == CeilDiv(Span(minID, maxID), step) * step - step;
  }

  /** No setting exports every id exactly once up to the greatest int64. */
  lemma GreatestIsLost(minID: int, shards: int)
    requires Valid(minID, MAX_INT64, shards)
    ensures !Covers(ShardList(minID, MAX_INT64, shards), minID, MAX_INT64)
  {
    CoversIffFits(minID, MAX_INT64, shards);
    CeilBounds(Span(minID, MAX_INT64), StepOf(minID, MAX_INT64, shards));
  }
}
