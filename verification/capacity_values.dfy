/** What a capacity run computes outside its state: the ladder of steps, the median answer, the tester's
    mean CPU, and the names of its rooms (internal/capacity/run.go, runner.go). */
module CapacityValues {
  import opened Common

  /** The first k steps of any run. */
  function Rungs(k: nat): (r: seq<int>)
    ensures |r| == k
  {
    seq(k, i requires 0 <= i => Pow2(i))
  }

  /** Every power of two up to the maximum, and no other step. */
  ghost predicate IsLadder(r: seq<int>, maxStep: int) {
    && r == Rungs(|r|)
    && (forall n :: n in r ==> n <= maxStep)
    && maxStep < Pow2(|r|)
  }

  lemma RungsGrow(k: nat)
    ensures Rungs(k + 1) == Rungs(k) + [Pow2(k)]
  {
  }

  method Ladder(maxStep: int) returns (out: seq<int>)
    ensures IsLadder(out, maxStep)
  {
    out := [];
    var n := 1;
    while n <= maxStep
      invariant n == Pow2(|out|)
      invariant out == Rungs(|out|)
      invariant forall m :: m in out ==> m <= maxStep
      decreases maxStep - n
    {
      RungsGrow(|out|);
      out := out + [n];
      n := n * 2;
    }
  }

  lemma LadderAt(r: seq<int>, maxStep: int, i: nat)
    requires IsLadder(r, maxStep) && i < |r|
    ensures r[i] == Pow2(i) < Pow2(i + 1)
    ensures r[..i] + [r[i]] == r[..i + 1]
  {
    assert r[i] == Rungs(|r|)[i];
  }

  ghost predicate LargestPowerUpTo(c: int, maxStep: int) {
    exists k: nat :: c == Pow2(k) && c <= maxStep < Pow2(k + 1)
  }

  /** The top of the ladder is the largest power of two up to the maximum, and no other power of two is. */
  lemma TopOfLadder(r: seq<int>, maxStep: int, c: int)
    requires IsLadder(r, maxStep) && maxStep >= 1
    ensures r != []
    ensures LargestPowerUpTo(c, maxStep) <==> c == r[|r| - 1]
  {
    assert Pow2(0) == 1;
    assert |r| > 0;
    assert r[|r| - 1] == Rungs(|r|)[|r| - 1] == Pow2(|r| - 1);
    assert r[|r| - 1] in r;
    if LargestPowerUpTo(c, maxStep) {
      var k: nat :| c == Pow2(k) && c <= maxStep < Pow2(k + 1);
      if k + 1 < |r| {
        Pow2Monotone(k + 1, |r| - 1);
      } else if k >= |r| {
        Pow2Monotone(|r|, k);
      }
    } else {
      assert Pow2(|r| - 1 + 1) == Pow2(|r|);
    }
  }

  // ----- the tester's CPU -----

  function Sum(xs: seq<real>): real {
    if xs == [] then 0.0 else Sum(xs[..|xs| - 1]) + xs[|xs| - 1]
  }

  /** The mean, as each sample moves it. */
  function MeanOf(xs: seq<real>): real
    requires xs != []
  {
    var n, x := |xs|, xs[|xs| - 1];
    if n == 1 then x
    else
      var before := MeanOf(xs[..n - 1]);
      before + (x - before) / n as real
  }

  lemma Moved(before: real, x: real, n: real)
    requires n > 0.0
    ensures (before + (x - before) / n) * n == before * (n - 1.0) + x
  {
    var step := (x - before) / n;
    assert step * n == x - before;
    assert (before + step) * n == before * n + step * n;
    assert before * (n - 1.0) == before * n - before;
  }

  /** It is the number which, once per sample, adds up to the samples. */
  lemma {:induction false} MeanTimesCount(xs: seq<real>)
    requires xs != []
    ensures MeanOf(xs) * |xs| as real == Sum(xs)
  {
    var n := |xs|;
    if n == 1 {
      assert xs[..0] == [];
      assert MeanOf(xs) * 1.0 == MeanOf(xs);
    } else {
      MeanTimesCount(xs[..n - 1]);
      Moved(MeanOf(xs[..n - 1]), xs[n - 1], n as real);
      assert (n - 1) as real == n as real - 1.0;
    }
  }

  lemma Quotient(m: real, n: real, total: real)
    requires n > 0.0 && m * n == total
    ensures total / n == m
  {
  }

  method Mean(xs: seq<real>) returns (m: real)
    requires xs != []
    ensures m == MeanOf(xs)
  {
    var sum := 0.0;
    for i := 0 to |xs|
      invariant sum == Sum(xs[..i])
    {
      assert xs[..i + 1][..i] == xs[..i];
      sum := sum + xs[i];
    }
    assert xs[..|xs|] == xs;
    MeanTimesCount(xs);
    Quotient(MeanOf(xs), |xs| as real, sum);
    m := sum / |xs| as real;
  }

  // ----- the median answer -----

  ghost predicate Ascending(s: seq<real>) {
    forall i, j :: 0 <= i < j < |s| ==> s[i] <= s[j]
  }

  function Insert(x: real, s: seq<real>): (r: seq<real>)
    ensures multiset(r) == multiset(s) + multiset{x}
    ensures |r| == |s| + 1
  {
    if s == [] || x <= s[0] then [x] + s
    else
      assert s == [s[0]] + s[1..];
      [s[0]] + Insert(x, s[1..])
  }

  lemma {:induction false} InsertKeepsOrder(x: real, s: seq<real>)
    requires Ascending(s)
    ensures Ascending(Insert(x, s))
  {
    if s != [] && s[0] < x {
      InsertKeepsOrder(x, s[1..]);
      var rest := Insert(x, s[1..]);
      forall i | 0 <= i < |rest| ensures s[0] <= rest[i] {
        assert rest[i] in multiset(rest);
        if rest[i] != x {
          assert rest[i] in s[1..];
        }
      }
    }
  }

  /** The standard library's sort. */
  function Sorted(s: seq<real>): (r: seq<real>)
    ensures multiset(r) == multiset(s)
    ensures |r| == |s|
  {
    if s == [] then []
    else
      assert s == [s[0]] + s[1..];
      Insert(s[0], Sorted(s[1..]))
  }

  lemma {:induction false} SortedIsAscending(s: seq<real>)
    ensures Ascending(Sorted(s))
  {
    if s != [] {
      SortedIsAscending(s[1..]);
      InsertKeepsOrder(s[0], Sorted(s[1..]));
    }
  }

  /** What is left of an ordered list when its ends are dropped in pairs: its one middle value, or the
      halfway between its two. */
  function Middle(s: seq<real>): real
    requires s != []
  {
    if |s| == 1 then s[0]
    else if |s| == 2 then (s[0] + s[1]) / 2.0
    else Middle(s[1..|s| - 1])
  }

  function MedianOf(xs: seq<real>): Option<real> {
    if xs == [] then None else Some(Middle(Sorted(xs)))
  }

  /** The indices at which an ordered list has its middle. */
  lemma {:induction false} MiddleAt(s: seq<real>)
    requires s != []
    ensures var h := |s| / 2; Middle(s) == if |s| % 2 == 1 then s[h] else (s[h - 1] + s[h]) / 2.0
    decreases |s|
  {
    if |s| > 2 {
      var t := s[1..|s| - 1];
      MiddleAt(t);
      assert |t| / 2 == |s| / 2 - 1;
      assert t[|t| / 2] == s[|s| / 2];
    }
  }

  method Median(xs: seq<real>) returns (m: Option<real>)
    ensures m == MedianOf(xs)
  {
    if |xs| == 0 { return None; }
    var s := Sorted(xs);
    MiddleAt(s);
    if |s| % 2 == 1 {
      m := Some(s[|s| / 2]);
    } else {
      m := Some((s[|s| / 2 - 1] + s[|s| / 2]) / 2.0);
    }
  }

  /** How many of xs are at most m, or at least m. */
  function Side(xs: seq<real>, m: real, below: bool): nat {
    if xs == [] then 0
    else (if (if below then xs[0] <= m else xs[0] >= m) then 1 else 0) + Side(xs[1..], m, below)
  }

  lemma {:induction false} SideOfInsert(x: real, s: seq<real>, m: real, below: bool)
    ensures Side(Insert(x, s), m, below) == Side([x], m, below) + Side(s, m, below)
  {
    assert [x][1..] == [];
    if s == [] || x <= s[0] {
      assert ([x] + s)[1..] == s;
    } else {
      SideOfInsert(x, s[1..], m, below);
      assert Insert(x, s)[1..] == Insert(x, s[1..]);
    }
  }

  lemma {:induction false} SideOfSorted(s: seq<real>, m: real, below: bool)
    ensures Side(Sorted(s), m, below) == Side(s, m, below)
  {
    if s != [] {
      SideOfSorted(s[1..], m, below);
      SideOfInsert(s[0], Sorted(s[1..]), m, below);
      assert [s[0]][1..] == [];
    }
  }

  lemma {:induction false} FirstOnesBelow(s: seq<real>, m: real, n: nat)
    requires n <= |s|
    requires forall i :: 0 <= i < n ==> s[i] <= m
    ensures Side(s, m, true) >= n
  {
    if n > 0 {
      FirstOnesBelow(s[1..], m, n - 1);
    }
  }

  lemma {:induction false} LastOnesAbove(s: seq<real>, m: real, n: nat)
    requires n <= |s|
    requires forall i :: n <= i < |s| ==> s[i] >= m
    ensures Side(s, m, false) >= |s| - n
  {
    if s != [] {
      LastOnesAbove(s[1..], m, if n == 0 then 0 else n - 1);
    }
  }

  lemma MiddleIsBetween(s: seq<real>)
    requires s != [] && Ascending(s)
    ensures forall i :: 0 <= i < (|s| + 1) / 2 ==> s[i] <= Middle(s)
    ensures forall i :: |s| / 2 <= i < |s| ==> s[i] >= Middle(s)
  {
    MiddleAt(s);
    var h := |s| / 2;
    if |s| % 2 == 0 {
      assert s[h - 1] <= Middle(s) <= s[h];
    }
  }

  /** At least half of the answers took at most the median and at least half took at least it. */
  lemma MedianSplits(xs: seq<real>, m: real)
    requires MedianOf(xs) == Some(m)
    ensures 2 * Side(xs, m, true) >= |xs|
    ensures 2 * Side(xs, m, false) >= |xs|
  {
    var s := Sorted(xs);
    SortedIsAscending(xs);
    SideOfSorted(xs, m, true);
    SideOfSorted(xs, m, false);
    MiddleIsBetween(s);
    FirstOnesBelow(s, m, (|s| + 1) / 2);
    LastOnesAbove(s, m, |s| / 2);
  }

  // ----- room names -----

  const ROOM_PREFIX := "vg-capacity-"

  function Digit(d: nat): char
    requires d < 10
  {
    '0' + d as char
  }

  function Decimal(n: nat): (s: string)
    ensures s != []
    ensures forall c :: c in s ==> '0' <= c <= '9'
  {
    if n < 10 then [Digit(n)] else Decimal(n / 10) + [Digit(n % 10)]
  }

  lemma {:induction false} DecimalsDiffer(a: nat, b: nat)
    requires Decimal(a) == Decimal(b)
    ensures a == b
    decreases a
  {
    var s := Decimal(a);
    if a >= 10 && b >= 10 {
      assert s[..|s| - 1] == Decimal(a / 10) == Decimal(b / 10);
      DecimalsDiffer(a / 10, b / 10);
    }
  }

  function WithoutDashes(s: string): string {
    if s == [] then [] else (if s[0] == '-' then [] else [s[0]]) + WithoutDashes(s[1..])
  }

  function Short(runId: string): (s: string)
    ensures |s| <= 8
  {
    var s := WithoutDashes(runId);
    if |s| > 8 then s[..8] else s
  }

  function RoomName(runId: string, n: nat): string {
    ROOM_PREFIX + Short(runId) + "-" + Decimal(n)
  }

  /** A run never names two calls' rooms alike. */
  lemma RoomsDiffer(runId: string, a: nat, b: nat)
    ensures RoomName(runId, a) == RoomName(runId, b) <==> a == b
  {
    var front := ROOM_PREFIX + Short(runId) + "-";
    if RoomName(runId, a) == RoomName(runId, b) {
      assert RoomName(runId, a)[|front|..] == Decimal(a);
      assert RoomName(runId, b)[|front|..] == Decimal(b);
      DecimalsDiffer(a, b);
    }
  }

  predicate Hex(c: char) {
    '0' <= c <= '9' || 'a' <= c <= 'f'
  }

  /** The exact shape vg-capacity-<8 hex>-<digits>. */
  predicate IsTestRoom(name: string) {
    var at := |ROOM_PREFIX|;
    && |name| > at + 9
    && name[..at] == ROOM_PREFIX
    && (forall i :: at <= i < at + 8 ==> Hex(name[i]))
    && name[at + 8] == '-'
    && (forall i :: at + 9 <= i < |name| ==> '0' <= name[i] <= '9')
  }

  lemma {:induction false} DashesAside(s: string)
    requires forall c :: c in s ==> Hex(c) || c == '-'
    ensures forall c :: c in WithoutDashes(s) ==> Hex(c)
  {
    if s != [] {
      DashesAside(s[1..]);
    }
  }

  /** Every room of a run whose id is hex digits and dashes, at least eight of them digits, is told apart
      from a customer's rooms by the shape of its name. */
  lemma RoomsAreTestRooms(runId: string, n: nat)
    requires forall c :: c in runId ==> Hex(c) || c == '-'
    requires |WithoutDashes(runId)| >= 8
    ensures IsTestRoom(RoomName(runId, n))
  {
    DashesAside(runId);
    var at, name, short := |ROOM_PREFIX|, RoomName(runId, n), Short(runId);
    assert name[..at] == ROOM_PREFIX;
    forall i | at <= i < at + 8 ensures Hex(name[i]) {
      assert name[i] == short[i - at] && short[i - at] in WithoutDashes(runId);
    }
    forall i | at + 9 <= i < |name| ensures '0' <= name[i] <= '9' {
      assert name[i] == Decimal(n)[i - at - 9] && Decimal(n)[i - at - 9] in Decimal(n);
    }
  }
}
