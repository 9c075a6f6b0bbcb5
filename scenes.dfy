/** Shot-boundary detection (scenes.py): per-frame grid means are compared
    pair by pair into candidate bits (`threshold`), the candidates are
    cleaned by three run-length passes (`postprocess`), and a five-sample
    window of whole-frame means is labelled by `get_fade`.  `SceneDetector`
    keeps the window and the label list while it reads the frames. */
module Scenes {

  // ---------------------------------------------------------------------
  // Constants of SceneDetector and of its process() call

  const Lines := 8
  const Columns := 8
  const Downscale := 8
  const RelativeThreshold := 0.08
  const MinChangedCells := 20
  const ShotLength := 7

  function Repeat(x: int, n: nat): (r: seq<int>)
    ensures |r| == n && forall k :: 0 <= k < n ==> r[k] == x
  {
    seq(n, _ => x)
  }

  predicate IsBits(s: seq<int>) { forall k :: 0 <= k < |s| ==> s[k] == 0 || s[k] == 1 }

  // ---------------------------------------------------------------------
  // Maximal runs of equal values (what itertools.groupby yields)

  /** The first index of the maximal run of equal values that holds `i`. */
  function RunStart(a: seq<int>, i: nat): (s: nat)
    requires i < |a|
    ensures s <= i
    ensures forall k :: s <= k <= i ==> a[k] == a[i]
    ensures s == 0 || a[s - 1] != a[i]
    decreases i
  {
    if i > 0 && a[i - 1] == a[i] then RunStart(a, i - 1) else i
  }

  /** One past the last index of the maximal run of equal values that holds `i`. */
  function RunEnd(a: seq<int>, i: nat): (e: nat)
    requires i < |a|
    ensures i < e <= |a|
    ensures forall k :: i <= k < e ==> a[k] == a[i]
    ensures e == |a| || a[e] != a[i]
    decreases |a| - i
  {
    if i + 1 < |a| && a[i + 1] == a[i] then RunEnd(a, i + 1) else i + 1
  }

  /** `a[s..e]` is a maximal run: all equal, and different values (or the
      ends of `a`) on both sides. */
  ghost predicate IsRun(a: seq<int>, s: int, e: int) {
    && 0 <= s < e <= |a|
    && (forall k :: s <= k < e ==> a[k] == a[s])
    && (s == 0 || a[s - 1] != a[s])
    && (e == |a| || a[e] != a[s])
  }

  /** Every index of a maximal run has that run as its run. */
  lemma RunOfIndex(a: seq<int>, s: int, e: int, k: int)
    requires IsRun(a, s, e) && s <= k < e
    ensures RunStart(a, k) == s && RunEnd(a, k) == e
  {
  }

  /** The run of an index is a maximal run. */
  lemma RunIsRun(a: seq<int>, i: int)
    requires 0 <= i < |a|
    ensures IsRun(a, RunStart(a, i), RunEnd(a, i))
  {
  }

  // ---------------------------------------------------------------------
  // postprocess: three run-length passes

  /** The three passes of `postprocess`. `FillGaps` and `Recollapse` carry
      the `shot_length` argument. */
  datatype Pass = Debounce | FillGaps(shotLength: int) | Recollapse(shotLength: int)

  /** The value at offset `k` of a run of `n` copies of `key` after pass
      `p` rewrote the run:
      - Debounce: a run of 1s keeps only its leading 1;
      - FillGaps: a run of 0s no longer than the shot length becomes 1s;
      - Recollapse: a run of 1s keeps its leading 1, and its last 1 too
        when it is longer than the shot length. */
  function Rewrite(p: Pass, key: int, n: nat, k: nat): int {
    match p
    case Debounce => if key == 1 && k > 0 then 0 else key
    case FillGaps(l) => if key == 0 && n <= l then 1 else key
    case Recollapse(l) => if key == 1 then (if k == 0 || (n > l && k == n - 1) then 1 else 0) else key
  }

  /** One group rewritten by the slice assignments of `postprocess`
      (`group[1:] = [0] * (len - 1)`, `group[:] = [1] * len`, `group[-1] = 1`). */
  function RewriteGroup(p: Pass, group: seq<int>): (r: seq<int>)
    requires group != []
    requires forall k :: 0 <= k < |group| ==> group[k] == group[0]
    ensures |r| == |group|
    ensures forall k :: 0 <= k < |r| ==> r[k] == Rewrite(p, group[0], |group|, k)
  {
    var key, n := group[0], |group|;
    match p
    case Debounce =>
      if key == 1 && n > 1 then group[..1] + Repeat(0, n - 1) else group
    case FillGaps(l) =>
      if key == 0 && n <= l then Repeat(1, n) else group
    case Recollapse(l) =>
      if key == 1 then
        var g := group[..1] + Repeat(0, n - 1);
        if n <= l then g else g[n - 1 := 1]
      else group
  }

  /** The value at index `i` after pass `p`: its run rewritten as a group. */
  function PassAt(p: Pass, a: seq<int>, i: nat): int
    requires i < |a|
  {
    var s := RunStart(a, i);
    Rewrite(p, a[i], RunEnd(a, i) - s, i - s)
  }

  /** The sequence after pass `p`. */
  function PassResult(p: Pass, a: seq<int>): (b: seq<int>)
    ensures |b| == |a|
  {
    seq(|a|, i requires 0 <= i < |a| => PassAt(p, a, i))
  }

  /** What `postprocess(a, shot_length)` returns. */
  function Cleaned(a: seq<int>, shotLength: int): (d: seq<int>)
    ensures |d| == |a|
  {
    PassResult(Recollapse(shotLength), PassResult(FillGaps(shotLength), PassResult(Debounce, a)))
  }

  /** One pass: group `a` into maximal runs, rewrite each group and chain
      the groups together again. */
  method ApplyPass(p: Pass, a: seq<int>) returns (b: seq<int>)
    ensures b == PassResult(p, a)
  {
    ghost var want := PassResult(p, a);
    b := [];
    var i := 0;
    while i < |a|
      invariant 0 <= i <= |a| && b == want[..i]
      invariant i == 0 || i == |a| || a[i - 1] != a[i]
    {
      var j := i + 1;
      while j < |a| && a[j] == a[i]
        invariant i < j <= |a|
        invariant forall k :: i <= k < j ==> a[k] == a[i]
      {
        j := j + 1;
      }
      var group := RewriteGroup(p, a[i..j]);
      GroupOfRun(p, a, i, j);
      assert want[..i] + want[i..j] == want[..j];
      b := b + group;
      i := j;
    }
  }

  /** Rewriting a maximal run as one group gives the pass's values there. */
  lemma GroupOfRun(p: Pass, a: seq<int>, s: int, e: int)
    requires IsRun(a, s, e)
    ensures RewriteGroup(p, a[s..e]) == PassResult(p, a)[s..e]
  {
    var group := a[s..e];
    assert group[0] == a[s] && |group| == e - s;
    var r := RewriteGroup(p, group);
    forall k | s <= k < e
      ensures r[k - s] == PassAt(p, a, k)
    {
      RunOfIndex(a, s, e, k);
      assert r[k - s] == Rewrite(p, a[s], e - s, k - s);
    }
  }

  /** `SceneDetector.postprocess`: debounce, fill short gaps, re-collapse. */
  method Postprocess(a: seq<int>, shotLength: int) returns (d: seq<int>)
    ensures d == Cleaned(a, shotLength)
  {
    var b := ApplyPass(Debounce, a);
    var c := ApplyPass(FillGaps(shotLength), b);
    d := ApplyPass(Recollapse(shotLength), c);
  }

  /** Pass 1 keeps a 1 only where the previous value is not 1; every other
      value is kept.  So no two 1s stay adjacent. */
  lemma DebounceKeepsFirstOne(a: seq<int>)
    ensures forall i :: 0 <= i < |a| ==>
      PassResult(Debounce, a)[i] == if a[i] == 1 && i > 0 && a[i - 1] == 1 then 0 else a[i]
    ensures forall i :: 0 < i < |a| ==> !(PassResult(Debounce, a)[i - 1] == 1 && PassResult(Debounce, a)[i] == 1)
  {
    var b := PassResult(Debounce, a);
    forall i | 0 <= i < |a|
      ensures b[i] == if a[i] == 1 && i > 0 && a[i - 1] == 1 then 0 else a[i]
    {
      assert (RunStart(a, i) < i) == (i > 0 && a[i - 1] == a[i]);
    }
  }

  /** Pass 2 only turns 0s into 1s, and afterwards every maximal run of 0s
      is longer than the shot length. */
  lemma FillGapsLeavesLongZeroRuns(b: seq<int>, shotLength: int)
    ensures forall i :: 0 <= i < |b| && PassResult(FillGaps(shotLength), b)[i] != b[i] ==>
      b[i] == 0 && PassResult(FillGaps(shotLength), b)[i] == 1
    ensures forall i :: 0 <= i < |b| && PassResult(FillGaps(shotLength), b)[i] == 0 ==>
      var c := PassResult(FillGaps(shotLength), b);
      RunEnd(c, i) - RunStart(c, i) > shotLength
  {
    var c := PassResult(FillGaps(shotLength), b);
    forall i | 0 <= i < |b| && c[i] == 0
      ensures RunEnd(c, i) - RunStart(c, i) > shotLength
    {
      var s, e := RunStart(b, i), RunEnd(b, i);
      forall k | s <= k < e ensures c[k] == 0 {
        RunOfIndex(b, s, e, k);
      }
      assert s > 0 ==> c[s - 1] != 0;
      assert e < |b| ==> c[e] != 0;
      RunOfIndex(c, s, e, i);
    }
  }

  /** Pass 3 on a maximal run of 1s of length at most the shot length keeps
      only its leading 1; a longer run keeps its first and its last 1. */
  lemma RecollapseRun(c: seq<int>, shotLength: int, s: int, e: int)
    requires IsRun(c, s, e) && c[s] == 1
    ensures var d := PassResult(Recollapse(shotLength), c);
      forall k :: s <= k < e ==>
        d[k] == if k == s || (e - s > shotLength && k == e - 1) then 1 else 0
  {
    forall k | s <= k < e {
      RunOfIndex(c, s, e, k);
    }
  }

  /** The passes of a constant sequence rewrite it as one group. */
  lemma PassOfRepeat(p: Pass, x: int, n: nat)
    ensures PassResult(p, Repeat(x, n)) == seq(n, k requires 0 <= k < n => Rewrite(p, x, n, k))
  {
    var a := Repeat(x, n);
    forall k | 0 <= k < n ensures PassAt(p, a, k) == Rewrite(p, x, n, k) {
      RunOfIndex(a, 0, n, k);
    }
  }

  /** A 1 followed by `m` zeros is two runs, rewritten one by one. */
  lemma PassOfOneThenZeros(p: Pass, m: nat)
    requires m >= 1
    ensures PassResult(p, [1] + Repeat(0, m)) ==
      [Rewrite(p, 1, 1, 0)] + seq(m, k requires 0 <= k < m => Rewrite(p, 0, m, k))
  {
    var a := [1] + Repeat(0, m);
    assert IsRun(a, 0, 1) && IsRun(a, 1, m + 1);
    RunOfIndex(a, 0, 1, 0);
    forall k | 1 <= k < m + 1 ensures PassAt(p, a, k) == Rewrite(p, 0, m, k - 1) {
      RunOfIndex(a, 1, m + 1, k);
    }
  }

  /** Two 1s with `g` zeros between them are three runs, rewritten one by one. */
  lemma PassOfTwoOnes(p: Pass, g: nat)
    requires g >= 1
    ensures PassResult(p, [1] + Repeat(0, g) + [1]) ==
      [Rewrite(p, 1, 1, 0)] + seq(g, k requires 0 <= k < g => Rewrite(p, 0, g, k)) + [Rewrite(p, 1, 1, 0)]
  {
    var a := [1] + Repeat(0, g) + [1];
    assert IsRun(a, 0, 1) && IsRun(a, 1, g + 1) && IsRun(a, g + 1, g + 2);
    RunOfIndex(a, 0, 1, 0);
    RunOfIndex(a, g + 1, g + 2, g + 1);
    forall k | 1 <= k < g + 1 ensures PassAt(p, a, k) == Rewrite(p, 0, g, k - 1) {
      RunOfIndex(a, 1, g + 1, k);
    }
  }

  /** A run of `n` candidate 1s: pass 1 keeps its leading 1; when the
      `n - 1` zeros behind it fit in the shot length pass 2 fills them
      again, and pass 3 then keeps a second 1 at the end exactly when the
      run is longer than the shot length, that is when `n` is the shot
      length plus one. */
  lemma CleanedRunOfOnes(n: nat, shotLength: int)
    requires n >= 2
    ensures Cleaned(Repeat(1, n), shotLength) ==
      if n == shotLength + 1 then [1] + Repeat(0, n - 2) + [1] else [1] + Repeat(0, n - 1)
  {
    PassOfRepeat(Debounce, 1, n);
    var b := PassResult(Debounce, Repeat(1, n));
    assert b == [1] + Repeat(0, n - 1);
    PassOfOneThenZeros(FillGaps(shotLength), n - 1);
    var c := PassResult(FillGaps(shotLength), b);
    if n - 1 <= shotLength {
      assert c == Repeat(1, n);
      PassOfRepeat(Recollapse(shotLength), 1, n);
    } else {
      assert c == b;
      PassOfOneThenZeros(Recollapse(shotLength), n - 1);
    }
  }

  /** Two candidate 1s with `g` zeros between them: when the two boundaries
      together with the gap fit in the shot length they merge into one
      boundary; otherwise both are kept. */
  lemma CleanedTwoOnes(g: nat, shotLength: int)
    requires g >= 1
    ensures Cleaned([1] + Repeat(0, g) + [1], shotLength) ==
      if g + 2 <= shotLength then [1] + Repeat(0, g + 1) else [1] + Repeat(0, g) + [1]
  {
    var a := [1] + Repeat(0, g) + [1];
    PassOfTwoOnes(Debounce, g);
    assert seq(g, k requires 0 <= k < g => Rewrite(Debounce, 0, g, k)) == Repeat(0, g);
    assert PassResult(Debounce, a) == a;
    PassOfTwoOnes(FillGaps(shotLength), g);
    var c := PassResult(FillGaps(shotLength), a);
    var gap := seq(g, k requires 0 <= k < g => Rewrite(FillGaps(shotLength), 0, g, k));
    assert c == [1] + gap + [1];
    if g <= shotLength {
      assert gap == Repeat(1, g);
      assert c == Repeat(1, g + 2);
      PassOfRepeat(Recollapse(shotLength), 1, g + 2);
    } else {
      assert gap == Repeat(0, g);
      assert c == a;
      PassOfTwoOnes(Recollapse(shotLength), g);
      assert seq(g, k requires 0 <= k < g => Rewrite(Recollapse(shotLength), 0, g, k)) == Repeat(0, g);
    }
  }

  /** With shot length 7: seven 1s keep only the leading 1, eight keep the
      first and the last, nine keep only the first again. */
  lemma CleanedRunExamples()
    ensures Cleaned(Repeat(1, 7), 7) == [1, 0, 0, 0, 0, 0, 0]
    ensures Cleaned(Repeat(1, 8), 7) == [1, 0, 0, 0, 0, 0, 0, 1]
    ensures Cleaned(Repeat(1, 9), 7) == [1, 0, 0, 0, 0, 0, 0, 0, 0]
  {
    CleanedRunOfOnes(7, 7);
    CleanedRunOfOnes(8, 7);
    CleanedRunOfOnes(9, 7);
    assert Repeat(0, 6) == [0, 0, 0, 0, 0, 0];
    assert Repeat(0, 8) == [0, 0, 0, 0, 0, 0, 0, 0];
  }

  // ---------------------------------------------------------------------
  // postprocess is idempotent from shot length 2 on

  /** Cleaning a cleaned sequence again changes nothing, when the shot
      length is at least 2. */
  lemma CleanedIdempotent(a: seq<int>, shotLength: int)
    requires shotLength >= 2
    ensures Cleaned(Cleaned(a, shotLength), shotLength) == Cleaned(a, shotLength)
  {
    var b := PassResult(Debounce, a);
    FillGapsLeavesLongZeroRuns(b, shotLength);
    RecollapseFixed(PassResult(FillGaps(shotLength), b), shotLength);
  }

  /** With shot length 1 a second clean-up can still change the result:
      `[0, 1, 0, 0]` cleans to `[1, 1, 0, 0]`, which cleans to `[1, 0, 0, 0]`. */
  lemma CleanedNotIdempotentAtShotLengthOne()
    ensures Cleaned([0, 1, 0, 0], 1) == [1, 1, 0, 0]
    ensures Cleaned([1, 1, 0, 0], 1) == [1, 0, 0, 0]
  {
    PassesOnGapOne();
    PassesOnPairOne();
    PassesOnSingleOne();
  }

  /** The passes on `[0, 1, 0, 0]` with shot length 1: the first 0 is filled. */
  lemma PassesOnGapOne()
    ensures PassResult(Debounce, [0, 1, 0, 0]) == [0, 1, 0, 0]
    ensures PassResult(FillGaps(1), [0, 1, 0, 0]) == [1, 1, 0, 0]
  {
    var a := [0, 1, 0, 0];
    assert IsRun(a, 0, 1) && IsRun(a, 1, 2) && IsRun(a, 2, 4);
    forall k | 0 <= k < 4
      ensures PassResult(Debounce, a)[k] == a[k] && PassResult(FillGaps(1), a)[k] == [1, 1, 0, 0][k]
    {
      var s, e := if k == 0 then 0 else if k == 1 then 1 else 2, if k == 0 then 1 else if k == 1 then 2 else 4;
      PassOnRun(Debounce, a, s, e, k);
      PassOnRun(FillGaps(1), a, s, e, k);
    }
  }

  /** The passes on `[1, 1, 0, 0]` with shot length 1: pass 3 keeps both
      1s, pass 1 only the first. */
  lemma PassesOnPairOne()
    ensures PassResult(Recollapse(1), [1, 1, 0, 0]) == [1, 1, 0, 0]
    ensures PassResult(Debounce, [1, 1, 0, 0]) == [1, 0, 0, 0]
  {
    var c := [1, 1, 0, 0];
    assert IsRun(c, 0, 2) && IsRun(c, 2, 4);
    forall k | 0 <= k < 4
      ensures PassResult(Recollapse(1), c)[k] == c[k] && PassResult(Debounce, c)[k] == [1, 0, 0, 0][k]
    {
      var s, e := if k < 2 then 0 else 2, if k < 2 then 2 else 4;
      PassOnRun(Recollapse(1), c, s, e, k);
      PassOnRun(Debounce, c, s, e, k);
    }
  }

  /** Passes 2 and 3 leave `[1, 0, 0, 0]` alone with shot length 1. */
  lemma PassesOnSingleOne()
    ensures PassResult(FillGaps(1), [1, 0, 0, 0]) == [1, 0, 0, 0]
    ensures PassResult(Recollapse(1), [1, 0, 0, 0]) == [1, 0, 0, 0]
  {
    var b := [1, 0, 0, 0];
    assert IsRun(b, 0, 1) && IsRun(b, 1, 4);
    forall k | 0 <= k < 4
      ensures PassResult(FillGaps(1), b)[k] == b[k] && PassResult(Recollapse(1), b)[k] == b[k]
    {
      var s, e := if k == 0 then 0 else 1, if k == 0 then 1 else 4;
      PassOnRun(FillGaps(1), b, s, e, k);
      PassOnRun(Recollapse(1), b, s, e, k);
    }
  }

  /** Inside a maximal run, a pass gives each position its rewritten value. */
  lemma PassOnRun(p: Pass, a: seq<int>, s: int, e: int, k: int)
    requires IsRun(a, s, e) && s <= k < e
    ensures PassResult(p, a)[k] == Rewrite(p, a[s], e - s, k - s)
  {
    RunOfIndex(a, s, e, k);
  }

  /** Every 0 lies in a maximal run of 0s longer than the shot length, as
      pass 2 leaves it. */
  ghost predicate LongZeroRuns(c: seq<int>, shotLength: int) {
    forall i :: 0 <= i < |c| && c[i] == 0 ==> RunEnd(c, i) - RunStart(c, i) > shotLength
  }

  /** A block of values equal to `a[k]` around `k` lies inside the run of `k`. */
  lemma RunCovers(a: seq<int>, lo: int, hi: int, k: int)
    requires 0 <= lo <= k < hi <= |a|
    requires forall j :: lo <= j < hi ==> a[j] == a[k]
    ensures RunStart(a, k) <= lo && RunEnd(a, k) >= hi
  {
  }

  /** From shot length 2 on, pass 3 leaves no two 1s side by side. */
  lemma RecollapseIsolatesOnes(c: seq<int>, shotLength: int)
    requires shotLength >= 2
    ensures var d := PassResult(Recollapse(shotLength), c);
      forall i :: 0 < i < |d| && d[i - 1] == 1 ==> d[i] != 1
  {
    var d := PassResult(Recollapse(shotLength), c);
    forall i | 0 < i < |d| && d[i - 1] == 1 ensures d[i] != 1 {
      assert c[i - 1] == 1;
      if c[i] == 1 {
        var s, e := RunStart(c, i), RunEnd(c, i);
        RunIsRun(c, i);
        RunOfIndex(c, s, e, i - 1);
      }
    }
  }

  /** Without adjacent 1s, pass 1 changes nothing. */
  lemma DebounceFixed(d: seq<int>)
    requires forall i :: 0 < i < |d| && d[i - 1] == 1 ==> d[i] != 1
    ensures PassResult(Debounce, d) == d
  {
    DebounceKeepsFirstOne(d);
  }

  /** A value of `c` other than 1 comes through pass 3 and a second pass 2
      unchanged: a 0 sits in a long run of 0s, and other values are not
      touched. */
  lemma NotOneStays(c: seq<int>, shotLength: int, j: int)
    requires LongZeroRuns(c, shotLength) && 0 <= j < |c| && c[j] != 1
    ensures PassResult(Recollapse(shotLength), c)[j] == c[j]
    ensures PassResult(FillGaps(shotLength), PassResult(Recollapse(shotLength), c))[j] == c[j]
  {
    if c[j] == 0 {
      var d := PassResult(Recollapse(shotLength), c);
      var s, e := RunStart(c, j), RunEnd(c, j);
      forall k | s <= k < e ensures d[k] == 0 {
        assert c[k] == 0;
      }
      RunCovers(d, s, e, j);
    }
  }

  /** Whether a second pass 2 fills the 0s that pass 3 put into the run of
      1s `c[s..e]`: they form a run no longer than the shot length. */
  predicate Refilled(c: seq<int>, shotLength: int, s: int, e: int)
    requires 0 <= s < e <= |c|
  {
    if e - s > shotLength then e - s - 2 <= shotLength else e == |c| || c[e] != 0
  }

  /** The values pass 3 gives the run of 1s `c[s..e]`. */
  lemma RunAfterRecollapse(c: seq<int>, shotLength: int, s: int, e: int)
    requires IsRun(c, s, e) && c[s] == 1
    ensures forall k :: s <= k < e ==>
      PassResult(Recollapse(shotLength), c)[k] == Rewrite(Recollapse(shotLength), 1, e - s, k - s)
  {
    forall k | s <= k < e {
      RunOfIndex(c, s, e, k);
    }
  }

  /** Pass 2 turns a refilled run of 1s back into 1s throughout. */
  lemma RefilledRunIsOnes(c: seq<int>, shotLength: int, s: int, e: int)
    requires LongZeroRuns(c, shotLength)
    requires IsRun(c, s, e) && c[s] == 1 && Refilled(c, shotLength, s, e)
    ensures var y := PassResult(FillGaps(shotLength), PassResult(Recollapse(shotLength), c));
      forall k :: s <= k < e ==> y[k] == 1
  {
    var d := PassResult(Recollapse(shotLength), c);
    RunAfterRecollapse(c, shotLength, s, e);
    var inner := if e - s > shotLength then e - 1 else e;
    if inner < e {
      assert d[inner] == 1;
    } else if e < |c| {
      NotOneStays(c, shotLength, e);
    }
    if s + 1 < inner {
      assert IsRun(d, s + 1, inner);
    }
    forall k | s <= k < e ensures PassResult(FillGaps(shotLength), d)[k] == 1 {
      if s < k < inner {
        PassOnRun(FillGaps(shotLength), d, s + 1, inner, k);
      } else {
        assert d[k] == 1;
      }
    }
  }

  /** A run of 1s whose inner 0s are refilled becomes the same run of 1s
      again, which pass 3 collapses as before. */
  lemma OneRunFilled(c: seq<int>, shotLength: int, s: int, e: int)
    requires LongZeroRuns(c, shotLength)
    requires IsRun(c, s, e) && c[s] == 1 && Refilled(c, shotLength, s, e)
    ensures var d := PassResult(Recollapse(shotLength), c);
      forall k :: s <= k < e ==> PassResult(Recollapse(shotLength), PassResult(FillGaps(shotLength), d))[k] == d[k]
  {
    var d := PassResult(Recollapse(shotLength), c);
    var y := PassResult(FillGaps(shotLength), d);
    RefilledRunIsOnes(c, shotLength, s, e);
    RunAfterRecollapse(c, shotLength, s, e);
    if s > 0 {
      NotOneStays(c, shotLength, s - 1);
    }
    if e < |c| {
      NotOneStays(c, shotLength, e);
    }
    assert IsRun(y, s, e);
    forall k | s <= k < e
      ensures PassResult(Recollapse(shotLength), y)[k] == d[k]
    {
      PassOnRun(Recollapse(shotLength), y, s, e, k);
    }
  }

  /** The inner 0s pass 3 puts into a run of 1s that is not refilled lie in
      a run of 0s longer than the shot length. */
  lemma KeptZerosLong(c: seq<int>, shotLength: int, s: int, e: int, k: int)
    requires shotLength >= 2 && LongZeroRuns(c, shotLength)
    requires IsRun(c, s, e) && c[s] == 1 && !Refilled(c, shotLength, s, e)
    requires s < k < e && PassResult(Recollapse(shotLength), c)[k] == 0
    ensures var d := PassResult(Recollapse(shotLength), c);
      RunEnd(d, k) - RunStart(d, k) > shotLength
  {
    var d := PassResult(Recollapse(shotLength), c);
    if e - s > shotLength {
      RunAfterRecollapse(c, shotLength, s, e);
      assert IsRun(d, s + 1, e - 1);
      RunOfIndex(d, s + 1, e - 1, k);
    } else {
      ShortRunZerosLong(c, shotLength, s, e, k);
    }
  }

  /** In a short run of 1s followed by 0s, the inner 0s of pass 3 join the
      following run of 0s, which is longer than the shot length. */
  lemma ShortRunZerosLong(c: seq<int>, shotLength: int, s: int, e: int, k: int)
    requires LongZeroRuns(c, shotLength)
    requires IsRun(c, s, e) && c[s] == 1 && e - s <= shotLength && e < |c| && c[e] == 0
    requires s < k < e
    ensures var d := PassResult(Recollapse(shotLength), c);
      RunEnd(d, k) - RunStart(d, k) > shotLength
  {
    var d := PassResult(Recollapse(shotLength), c);
    RunAfterRecollapse(c, shotLength, s, e);
    var ce := RunEnd(c, e);
    assert RunStart(c, e) == e by {
      assert c[e - 1] != c[e];
    }
    forall j | s + 1 <= j < ce ensures d[j] == 0 {
      if j >= e {
        NotOneStays(c, shotLength, j);
      }
    }
    RunCovers(d, s + 1, ce, k);
  }

  /** A 1 with no 1 beside it survives pass 3. */
  lemma LoneOneKept(y: seq<int>, shotLength: int, k: int)
    requires 0 <= k < |y| && y[k] == 1
    requires k == 0 || y[k - 1] != 1
    requires k + 1 == |y| || y[k + 1] != 1
    ensures PassResult(Recollapse(shotLength), y)[k] == 1
  {
    assert IsRun(y, k, k + 1);
    RunOfIndex(y, k, k + 1, k);
  }

  /** Pass 2 leaves a run of 1s that is not refilled as pass 3 left it. */
  lemma KeptUnfilledAt(c: seq<int>, shotLength: int, s: int, e: int, k: int)
    requires shotLength >= 2 && LongZeroRuns(c, shotLength)
    requires IsRun(c, s, e) && c[s] == 1 && !Refilled(c, shotLength, s, e)
    requires s <= k < e
    ensures var d := PassResult(Recollapse(shotLength), c);
      PassResult(FillGaps(shotLength), d)[k] == d[k]
  {
    if PassResult(Recollapse(shotLength), c)[k] == 0 {
      KeptZerosLong(c, shotLength, s, e, k);
    }
  }

  /** Pass 3 leaves every value other than 1 alone. */
  lemma NotOneKept(y: seq<int>, shotLength: int, k: int)
    requires 0 <= k < |y| && y[k] != 1
    ensures PassResult(Recollapse(shotLength), y)[k] == y[k]
  {
    PassOnRun(Recollapse(shotLength), y, RunStart(y, k), RunEnd(y, k), k);
  }

  /** The 1s pass 3 leaves in a run of 1s stand alone. */
  lemma RecollapsedOnesApart(c: seq<int>, shotLength: int, s: int, e: int, k: int)
    requires shotLength >= 2
    requires IsRun(c, s, e) && c[s] == 1 && s < k < e
    ensures var d := PassResult(Recollapse(shotLength), c);
      d[k] == 1 ==> d[k - 1] == 0
  {
    RunAfterRecollapse(c, shotLength, s, e);
  }

  /** Left of a 1 that pass 3 left in a run of 1s that is not refilled,
      pass 2 leaves no 1. */
  lemma KeptLeftOfOne(c: seq<int>, shotLength: int, s: int, e: int, k: int)
    requires shotLength >= 2 && LongZeroRuns(c, shotLength)
    requires IsRun(c, s, e) && c[s] == 1 && !Refilled(c, shotLength, s, e)
    requires s <= k < e && PassResult(Recollapse(shotLength), c)[k] == 1
    ensures var y := PassResult(FillGaps(shotLength), PassResult(Recollapse(shotLength), c));
      k == 0 || y[k - 1] != 1
  {
    if k > s {
      RecollapsedOnesApart(c, shotLength, s, e, k);
      KeptUnfilledAt(c, shotLength, s, e, k - 1);
    } else if s > 0 {
      NotOneStays(c, shotLength, s - 1);
    }
  }

  /** Right of a 1 that pass 3 left in a run of 1s that is not refilled,
      pass 2 leaves no 1. */
  lemma KeptRightOfOne(c: seq<int>, shotLength: int, s: int, e: int, k: int)
    requires shotLength >= 2 && LongZeroRuns(c, shotLength)
    requires IsRun(c, s, e) && c[s] == 1 && !Refilled(c, shotLength, s, e)
    requires s <= k < e && PassResult(Recollapse(shotLength), c)[k] == 1
    ensures var y := PassResult(FillGaps(shotLength), PassResult(Recollapse(shotLength), c));
      k + 1 == |c| || y[k + 1] != 1
  {
    if k + 1 < e {
      RecollapsedOnesApart(c, shotLength, s, e, k + 1);
      KeptUnfilledAt(c, shotLength, s, e, k + 1);
    } else if e < |c| {
      NotOneStays(c, shotLength, e);
    }
  }

  /** One position of a run of 1s whose inner 0s are not refilled keeps its
      value through passes 2 and 3; a 1 there stands alone. */
  lemma KeptAt(c: seq<int>, shotLength: int, s: int, e: int, k: int)
    requires shotLength >= 2 && LongZeroRuns(c, shotLength)
    requires IsRun(c, s, e) && c[s] == 1 && !Refilled(c, shotLength, s, e)
    requires s <= k < e
    ensures var d := PassResult(Recollapse(shotLength), c);
      PassResult(Recollapse(shotLength), PassResult(FillGaps(shotLength), d))[k] == d[k]
  {
    var d := PassResult(Recollapse(shotLength), c);
    var y := PassResult(FillGaps(shotLength), d);
    KeptUnfilledAt(c, shotLength, s, e, k);
    if d[k] == 1 {
      KeptLeftOfOne(c, shotLength, s, e, k);
      KeptRightOfOne(c, shotLength, s, e, k);
      LoneOneKept(y, shotLength, k);
    } else {
      NotOneKept(y, shotLength, k);
    }
  }

  /** A run of 1s whose inner 0s are not refilled keeps its values through
      passes 2 and 3. */
  lemma OneRunKept(c: seq<int>, shotLength: int, s: int, e: int)
    requires shotLength >= 2 && LongZeroRuns(c, shotLength)
    requires IsRun(c, s, e) && c[s] == 1 && !Refilled(c, shotLength, s, e)
    ensures var d := PassResult(Recollapse(shotLength), c);
      forall k :: s <= k < e ==> PassResult(Recollapse(shotLength), PassResult(FillGaps(shotLength), d))[k] == d[k]
  {
    forall k | s <= k < e
      ensures PassResult(Recollapse(shotLength), PassResult(FillGaps(shotLength), PassResult(Recollapse(shotLength), c)))[k]
        == PassResult(Recollapse(shotLength), c)[k]
    {
      KeptAt(c, shotLength, s, e, k);
    }
  }

  /** After pass 2 has left only long runs of 0s, pass 3's output is a
      fixed point of the three passes. */
  lemma RecollapseFixed(c: seq<int>, shotLength: int)
    requires shotLength >= 2 && LongZeroRuns(c, shotLength)
    ensures Cleaned(PassResult(Recollapse(shotLength), c), shotLength) == PassResult(Recollapse(shotLength), c)
  {
    var d := PassResult(Recollapse(shotLength), c);
    RecollapseIsolatesOnes(c, shotLength);
    DebounceFixed(d);
    var y := PassResult(FillGaps(shotLength), d);
    forall i | 0 <= i < |c| ensures PassResult(Recollapse(shotLength), y)[i] == d[i] {
      if c[i] == 1 {
        var s, e := RunStart(c, i), RunEnd(c, i);
        RunIsRun(c, i);
        if Refilled(c, shotLength, s, e) {
          OneRunFilled(c, shotLength, s, e);
        } else {
          OneRunKept(c, shotLength, s, e);
        }
      } else {
        NotOneStays(c, shotLength, i);
      }
    }
  }

  // ---------------------------------------------------------------------
  // threshold: candidate bits from grid means

  function Abs(x: real): real { if x < 0.0 then -x else x }
  function Min(x: real, y: real): real { if x <= y then x else y }
  function Max(x: real, y: real): real { if x >= y then x else y }

  /** One grid cell counts as changed: `abs(a - b) > min(a, b) * thr`. */
  predicate CellChanged(x: real, y: real, thr: real) {
    Abs(x - y) > Min(x, y) * thr
  }

  /** The `crops` list of `threshold` for one pair of frames. */
  function CellBits(u: seq<real>, v: seq<real>, thr: real): (bits: seq<int>)
    requires |u| <= |v|
    ensures |bits| == |u| && IsBits(bits)
  {
    seq(|u|, j requires 0 <= j < |u| => if CellChanged(u[j], v[j], thr) then 1 else 0)
  }

  /** Python's `sum` of a list of ints. */
  function Sum(s: seq<int>): int
    decreases |s|
  {
    if s == [] then 0 else Sum(s[..|s| - 1]) + s[|s| - 1]
  }

  /** The sum of a 0/1 list is the number of its 1s. */
  lemma {:induction false} SumOfBits(bits: seq<int>)
    requires IsBits(bits)
    ensures Sum(bits) == |set j | 0 <= j < |bits| && bits[j] == 1|
    decreases |bits|
  {
    if bits != [] {
      var n := |bits| - 1;
      var front := bits[..n];
      SumOfBits(front);
      var before := set j | 0 <= j < n && front[j] == 1;
      var after := set j | 0 <= j < |bits| && bits[j] == 1;
      if bits[n] == 1 {
        assert after == before + {n};
      } else {
        assert after == before;
      }
    }
  }

  /** The number of changed cells, as `threshold` sums it, is the number of
      indices whose cell changed. */
  lemma ChangedCellsCount(u: seq<real>, v: seq<real>, thr: real)
    requires |u| <= |v|
    ensures Sum(CellBits(u, v, thr)) == |set j | 0 <= j < |u| && CellChanged(u[j], v[j], thr)|
  {
    var bits := CellBits(u, v, thr);
    SumOfBits(bits);
    assert (set j | 0 <= j < |bits| && bits[j] == 1) == (set j | 0 <= j < |u| && CellChanged(u[j], v[j], thr));
  }

  /** Consecutive rows can be compared cell by cell (`exps[i + 1][j]` exists
      for every `j` of `exps[i]`). */
  predicate RowsFit(exps: seq<seq<real>>) {
    forall i, j :: 0 <= i && j == i + 1 < |exps| ==> |exps[i]| <= |exps[j]|
  }

  /** The candidate bit of the pair (`u`, `v`). */
  function CandidateBit(u: seq<real>, v: seq<real>, thr: real, number: int): int
    requires |u| <= |v|
  {
    if Sum(CellBits(u, v, thr)) >= number then 1 else 0
  }

  /** What `threshold(exps, thr, number)` returns. */
  function Candidates(exps: seq<seq<real>>, thr: real, number: int): (r: seq<int>)
    requires RowsFit(exps)
    ensures |r| == (if |exps| == 0 then 0 else |exps| - 1) && IsBits(r)
  {
    if |exps| == 0 then []
    else seq(|exps| - 1, i requires 0 <= i < |exps| - 1 => CandidateBit(exps[i], exps[i + 1], thr, number))
  }

  /** Bit `i` is 1 exactly when at least `number` cells of frames `i` and
      `i + 1` changed. */
  lemma CandidateMeaning(exps: seq<seq<real>>, thr: real, number: int, i: int)
    requires RowsFit(exps) && 0 <= i < |exps| - 1
    ensures Candidates(exps, thr, number)[i] == 1 <==>
      |set j | 0 <= j < |exps[i]| && CellChanged(exps[i][j], exps[i + 1][j], thr)| >= number
  {
    var u, v := exps[i], exps[i + 1];
    assert |u| <= |v|;
    assert Candidates(exps, thr, number)[i] == CandidateBit(u, v, thr, number);
    CandidateBitMeaning(u, v, thr, number);
  }

  lemma CandidateBitMeaning(u: seq<real>, v: seq<real>, thr: real, number: int)
    requires |u| <= |v|
    ensures CandidateBit(u, v, thr, number) == 1 <==>
      |set j | 0 <= j < |u| && CellChanged(u[j], v[j], thr)| >= number
  {
    ChangedCellsCount(u, v, thr);
  }

  /** A cell whose two means are equal never counts (for non-negative means
      and threshold); 100 against 92 at 0.08 counts, since 8 > 7.36. */
  lemma CellChangedFacts(x: real, thr: real)
    requires x >= 0.0 && thr >= 0.0
    ensures !CellChanged(x, x, thr)
    ensures CellChanged(100.0, 92.0, 0.08)
  {
  }

  /** `SceneDetector.threshold`. */
  method Threshold(exps: seq<seq<real>>, thr: real, number: int) returns (results: seq<int>)
    requires RowsFit(exps)
    ensures results == Candidates(exps, thr, number)
  {
    results := [];
    var i := 0;
    ghost var want := Candidates(exps, thr, number);
    while i < |exps| - 1
      invariant 0 <= i <= |want| && results == want[..i]
    {
      var crops := [];
      var j := 0;
      ghost var cells := CellBits(exps[i], exps[i + 1], thr);
      while j < |exps[i]|
        invariant 0 <= j <= |cells| && crops == cells[..j]
      {
        crops := crops + [if CellChanged(exps[i][j], exps[i + 1][j], thr) then 1 else 0];
        j := j + 1;
      }
      assert crops == cells;
      results := results + [if Sum(crops) >= number then 1 else 0];
      i := i + 1;
    }
    assert results == want;
  }

  // ---------------------------------------------------------------------
  // disjunction

  /** `SceneDetector.disjunction`: element `i` is `int(l1[i] + l2[i]) > 0`,
      which for 0/1 lists is the logical or. */
  method Disjunction(list1: seq<int>, list2: seq<int>) returns (list3: seq<bool>)
    requires |list1| <= |list2|
    ensures |list3| == |list1|
    ensures forall i :: 0 <= i < |list1| ==> list3[i] == (list1[i] + list2[i] > 0)
    ensures IsBits(list1) && IsBits(list2) ==>
      forall i :: 0 <= i < |list1| ==> list3[i] == (list1[i] == 1 || list2[i] == 1)
  {
    list3 := [];
    var i := 0;
    while i < |list1|
      invariant 0 <= i <= |list1| && |list3| == i
      invariant forall k :: 0 <= k < i ==> list3[k] == (list1[k] + list2[k] > 0)
    {
      list3 := list3 + [list1[i] + list2[i] > 0];
      i := i + 1;
    }
  }

  // ---------------------------------------------------------------------
  // get_fade

  /** The pair darkens: `m1 - m2 > max(m1, m2) * 0.05`. */
  predicate Darkens(x: real, y: real) { x - y > Max(x, y) * 0.05 }

  /** The pair brightens: `m1 - m2 < max(m1, m2) * (-0.05)`. */
  predicate Brightens(x: real, y: real) { x - y < Max(x, y) * (-0.05) }

  predicate AllDarken(m: seq<real>)
    requires |m| == 5
  {
    forall i :: 0 <= i < 4 ==> Darkens(m[i], m[i + 1])
  }

  predicate AllBrighten(m: seq<real>)
    requires |m| == 5
  {
    forall i :: 0 <= i < 4 ==> Brightens(m[i], m[i + 1])
  }

  function Hit(b: bool): int { if b then 1 else 0 }

  /** `SceneDetector.get_fade`: 2 when all four pairs brighten, else 1 when
      all four darken, else 0. */
  function GetFade(m: seq<real>): (lab: int)
    requires |m| == 5
    ensures lab == 0 || lab == 1 || lab == 2
  {
    var minus := Hit(Darkens(m[0], m[1])) + Hit(Darkens(m[1], m[2])) + Hit(Darkens(m[2], m[3])) + Hit(Darkens(m[3], m[4]));
    var plus := Hit(Brightens(m[0], m[1])) + Hit(Brightens(m[1], m[2])) + Hit(Brightens(m[2], m[3])) + Hit(Brightens(m[3], m[4]));
    if plus == 4 then 2 else if minus == 4 then 1 else 0
  }

  /** The label is 2 exactly when all four pairs brighten, and 1 exactly
      when all four darken but not all brighten. */
  lemma GetFadeMeaning(m: seq<real>)
    requires |m| == 5
    ensures GetFade(m) == 2 <==> AllBrighten(m)
    ensures GetFade(m) == 1 <==> AllDarken(m) && !AllBrighten(m)
  {
  }

  /** For non-negative means no pair both darkens and brightens, so the
      label is 1 exactly when all pairs darken and 2 exactly when all pairs
      brighten; one reversal or flat step gives 0. */
  lemma FadeLabelOfBrightness(m: seq<real>)
    requires |m| == 5 && forall i :: 0 <= i < 5 ==> m[i] >= 0.0
    ensures !(AllDarken(m) && AllBrighten(m))
    ensures GetFade(m) == 1 <==> AllDarken(m)
    ensures GetFade(m) == 2 <==> AllBrighten(m)
    ensures GetFade(m) == 0 <==> (exists i :: 0 <= i < 4 && !Darkens(m[i], m[i + 1])) &&
                                 (exists i :: 0 <= i < 4 && !Brightens(m[i], m[i + 1]))
  {
    GetFadeMeaning(m);
    assert Darkens(m[0], m[1]) ==> !Brightens(m[0], m[1]);
  }

  /** Fade/flash unanimity on three windows. */
  lemma FadeExamples()
    ensures GetFade([10.0, 9.0, 8.0, 7.0, 6.0]) == 1
    ensures GetFade([6.0, 7.0, 8.0, 9.0, 10.0]) == 2
    ensures GetFade([10.0, 9.0, 8.0, 9.0, 10.0]) == 0
  {
    var down := [10.0, 9.0, 8.0, 7.0, 6.0];
    assert Darkens(down[0], down[1]) && Darkens(down[1], down[2]) && Darkens(down[2], down[3]) && Darkens(down[3], down[4]);
    var up := [6.0, 7.0, 8.0, 9.0, 10.0];
    assert Brightens(up[0], up[1]) && Brightens(up[1], up[2]) && Brightens(up[2], up[3]) && Brightens(up[3], up[4]);
    var mixed := [10.0, 9.0, 8.0, 9.0, 10.0];
    assert !Darkens(mixed[2], mixed[3]) && !Brightens(mixed[0], mixed[1]);
  }

  /** `flash_list`: label 2 replaced by 0. */
  function FlashList(t: seq<int>): (r: seq<int>)
    ensures |r| == |t|
    ensures forall i :: 0 <= i < |t| ==> r[i] != 2
  {
    seq(|t|, i requires 0 <= i < |t| => if t[i] == 2 then 0 else t[i])
  }

  /** `fade_list`: 1 where the label is 2, else 0. */
  function FadeList(t: seq<int>): (r: seq<int>)
    ensures |r| == |t| && IsBits(r)
  {
    seq(|t|, i requires 0 <= i < |t| => if t[i] == 2 then 1 else 0)
  }

  /** On labels 0, 1, 2 the two lists split the labels: `flash_list` is 1
      exactly at label 1, `fade_list` exactly at label 2, never both, and
      `flash + 2 * fade` gives the label back. */
  lemma FlashFadeSplit(t: seq<int>)
    requires forall i :: 0 <= i < |t| ==> 0 <= t[i] <= 2
    ensures IsBits(FlashList(t))
    ensures forall i :: 0 <= i < |t| ==> (FlashList(t)[i] == 1 <==> t[i] == 1)
    ensures forall i :: 0 <= i < |t| ==> (FadeList(t)[i] == 1 <==> t[i] == 2)
    ensures forall i :: 0 <= i < |t| ==> FlashList(t)[i] + 2 * FadeList(t)[i] == t[i]
  {
  }

  // ---------------------------------------------------------------------
  // prepare_image: the 8 x 8 grid of crops

  /** A crop `frame[y0:y1, x0:x1]`. */
  datatype Rect = Rect(y0: int, y1: int, x0: int, x1: int)

  /** `int(pad / (count - 1) * i)` computed exactly: `floor(pad * i / (count - 1))`. */
  function Anchor(pad: nat, i: nat): nat {
    pad * i / (Lines - 1)
  }

  /** Anchors start at 0, never decrease, and the last one is the padding,
      so the last crop ends on the frame border. */
  lemma AnchorBounds(pad: nat, i: nat, j: nat)
    requires i <= j < Lines
    ensures Anchor(pad, 0) == 0 && Anchor(pad, Lines - 1) == pad
    ensures Anchor(pad, i) <= Anchor(pad, j) <= pad
  {
    assert pad * i <= pad * j by { MulMonotone(pad, i, j); }
    assert pad * j <= pad * (Lines - 1) by { MulMonotone(pad, j, Lines - 1); }
  }

  lemma MulMonotone(x: nat, i: nat, j: nat)
    requires i <= j
    ensures x * i <= x * j
  {
    assert x * j == x * i + x * (j - i);
  }

  /** Crop `(line, column)` of a frame of height `h` and width `w`. */
  function Crop(h: nat, w: nat, line: nat, column: nat): Rect {
    var cropH, cropW := h / Downscale, w / Downscale;
    var y0, x0 := Anchor(h - cropH, line), Anchor(w - cropW, column);
    Rect(y0, y0 + cropH, x0, x0 + cropW)
  }

  /** The crops `prepare_image` returns, row by row. */
  function Crops(h: nat, w: nat): (r: seq<Rect>)
    ensures |r| == Lines * Columns
  {
    seq(Lines * Columns, k requires 0 <= k < Lines * Columns => Crop(h, w, k / Columns, k % Columns))
  }

  predicate Inside(r: Rect, h: nat, w: nat) {
    0 <= r.y0 <= r.y1 <= h && 0 <= r.x0 <= r.x1 <= w
  }

  /** Every crop lies inside the frame, and the crops of one row share their
      top edge while the crops of one column share their left edge. */
  lemma CropsInside(h: nat, w: nat)
    ensures forall k :: 0 <= k < Lines * Columns ==> Inside(Crops(h, w)[k], h, w)
    ensures forall k :: 0 <= k < Lines * Columns ==>
      Crops(h, w)[k].y1 - Crops(h, w)[k].y0 == h / Downscale &&
      Crops(h, w)[k].x1 - Crops(h, w)[k].x0 == w / Downscale
    ensures forall k, k' :: 0 <= k < Lines * Columns && 0 <= k' < Lines * Columns ==>
      (k / Columns == k' / Columns ==> Crops(h, w)[k].y0 == Crops(h, w)[k'].y0) &&
      (k % Columns == k' % Columns ==> Crops(h, w)[k].x0 == Crops(h, w)[k'].x0)
  {
    forall k | 0 <= k < Lines * Columns ensures Inside(Crops(h, w)[k], h, w) {
      AnchorBounds(h - h / Downscale, k / Columns, Lines - 1);
      AnchorBounds(w - w / Downscale, k % Columns, Lines - 1);
    }
  }

  /** `SceneDetector.prepare_image` on the frame's height and width; the
      pixel crops themselves are left to the frame (see `Frame`). */
  method PrepareImage(h: nat, w: nat) returns (crops: seq<Rect>)
    ensures crops == Crops(h, w)
  {
    var cropH, cropW := h / Downscale, w / Downscale;
    assert h >= Lines * cropH;
    assert w >= Columns * cropW;
    var hPad, wPad := h - cropH, w - cropW;
    var hDots := seq(Lines, i requires 0 <= i < Lines => Anchor(hPad, i));
    var wDots := seq(Columns, i requires 0 <= i < Columns => Anchor(wPad, i));
    ghost var want := Crops(h, w);
    crops := [];
    var line := 0;
    while line < Lines
      invariant 0 <= line <= Lines && |crops| == line * Columns
      invariant crops == want[..|crops|]
    {
      var column := 0;
      while column < Columns
        invariant 0 <= column <= Columns && |crops| == line * Columns + column
        invariant crops == want[..|crops|]
      {
        GridIndex(line, column);
        var y0, x0 := hDots[line], wDots[column];
        crops := crops + [Rect(y0, y0 + cropH, x0, x0 + cropW)];
        column := column + 1;
      }
      line := line + 1;
    }
  }

  /** Grid index `line * Columns + column` names crop (`line`, `column`). */
  lemma GridIndex(line: int, column: int)
    requires 0 <= line < Lines && 0 <= column < Columns
    ensures (line * Columns + column) / Columns == line && (line * Columns + column) % Columns == column
  {
  }

  // ---------------------------------------------------------------------
  // process: the reading loop

  /** A decoded frame, as far as the detector looks at it: its height and
      width, the mean of its grey image, and the mean of the grey image over
      any crop (the pixel work of `cvtColor` and `np.mean`). */
  datatype Frame = Frame(height: nat, width: nat, mean: real, regionMean: Rect -> real)

  /** The 64 crop means of one frame, `[np.mean(crop) for crop in crops]`. */
  function CropMeans(f: Frame): (r: seq<real>)
    ensures |r| == Lines * Columns
  {
    var crops := Crops(f.height, f.width);
    seq(|crops|, k requires 0 <= k < |crops| => f.regionMean(crops[k]))
  }

  /** `[np.mean(crop) for crop in self.prepare_image(frame)]`. */
  method MeasureCrops(f: Frame) returns (means: seq<real>)
    ensures means == CropMeans(f)
  {
    var crops := PrepareImage(f.height, f.width);
    means := seq(|crops|, k requires 0 <= k < |crops| => f.regionMean(crops[k]));
  }

  /** The whole-frame means, in reading order. */
  function Means(frames: seq<Frame>): (r: seq<real>)
    ensures |r| == |frames|
  {
    if frames == [] then [] else Means(frames[..|frames| - 1]) + [frames[|frames| - 1].mean]
  }

  /** The crop means of every frame, in reading order. */
  function AllCropMeans(frames: seq<Frame>): (r: seq<seq<real>>)
    ensures |r| == |frames|
    ensures forall k :: 0 <= k < |r| ==> |r[k]| == Lines * Columns
  {
    if frames == [] then [] else AllCropMeans(frames[..|frames| - 1]) + [CropMeans(frames[|frames| - 1])]
  }

  /** The label list of `process` after reading means `ms`: four 0s, then
      one label for each mean from the fifth on, taken over the window of
      five means that ends there. */
  function FadeLabels(ms: seq<real>): (t: seq<int>)
    ensures |t| == if |ms| < 4 then 4 else |ms|
    ensures t[..4] == [0, 0, 0, 0]
  {
    if |ms| <= 4 then [0, 0, 0, 0]
    else FadeLabels(ms[..|ms| - 1]) + [GetFade(ms[|ms| - 5..])]
  }

  /** Label `k` of the list, from the fifth on, is the label of the means
      `k - 4` to `k`: the window that was full when frame `k` was read. */
  lemma {:induction false} FadeLabelsAt(ms: seq<real>, k: int)
    requires 4 <= k < |ms|
    ensures FadeLabels(ms)[k] == GetFade(ms[k - 4..k + 1])
    decreases |ms|
  {
    if k < |ms| - 1 {
      var front := ms[..|ms| - 1];
      FadeLabelsAt(front, k);
      assert front[k - 4..k + 1] == ms[k - 4..k + 1];
    }
  }

  /** The window `exp_list` after reading means `ms`: the last (at most) four. */
  function Window(ms: seq<real>): (w: seq<real>)
    ensures |w| == if |ms| < 4 then |ms| else 4
  {
    if |ms| <= 4 then ms else ms[|ms| - 4..]
  }

  /** One more frame appends its whole-frame mean and its crop means. */
  lemma ReadMeans(read: seq<Frame>, f: Frame)
    ensures Means(read + [f]) == Means(read) + [f.mean]
    ensures AllCropMeans(read + [f]) == AllCropMeans(read) + [CropMeans(f)]
  {
    assert (read + [f])[..|read|] == read;
  }

  /** Appending a mean to a full window drops the oldest one. */
  lemma WindowStep(ms: seq<real>, x: real)
    ensures |ms| >= 4 ==> |Window(ms) + [x]| == 5 && Window(ms + [x]) == (Window(ms) + [x])[1..]
    ensures |ms| < 4 ==> Window(ms + [x]) == Window(ms) + [x]
  {
  }

  lemma AppendSlices(ms: seq<real>, x: real)
    ensures (ms + [x])[..|ms|] == ms
    ensures |ms| >= 4 ==> Window(ms) + [x] == (ms + [x])[|ms| - 4..]
  {
  }

  /** A fifth and later mean adds the label of the full window. */
  lemma LabelsStep(ms: seq<real>, x: real)
    ensures |ms| >= 4 ==> FadeLabels(ms + [x]) == FadeLabels(ms) + [GetFade(Window(ms) + [x])]
    ensures |ms| < 4 ==> FadeLabels(ms + [x]) == FadeLabels(ms)
  {
    AppendSlices(ms, x);
  }

  /** Reading one more frame: the window, labels and crop means of the
      frames read so far advance as the loop of `process` advances them. */
  lemma ReadStep(seen: seq<Frame>, f: Frame)
    ensures var w := Window(Means(seen)) + [f.mean];
      && (|seen| >= 4 ==> Window(Means(seen + [f])) == w[1..]
                          && FadeLabels(Means(seen + [f])) == FadeLabels(Means(seen)) + [GetFade(w)])
      && (|seen| < 4 ==> Window(Means(seen + [f])) == w
                         && FadeLabels(Means(seen + [f])) == FadeLabels(Means(seen)))
      && AllCropMeans(seen + [f]) == AllCropMeans(seen) + [CropMeans(f)]
  {
    ReadMeans(seen, f);
    WindowStep(Means(seen), f.mean);
    LabelsStep(Means(seen), f.mean);
  }

  class SceneDetector {
    /** The frames the capture has not delivered yet. */
    var video: seq<Frame>
    /** The frames the capture has delivered so far. */
    ghost var consumed: seq<Frame>
    var expList: seq<real>
    var expListCrops: seq<seq<real>>
    var transitionList: seq<int>
    var flashList: seq<int>
    var fadeList: seq<int>
    var postprocessed: seq<int>

    /** The window, the crop means and the labels are those of the frames
        delivered so far. */
    ghost predicate Consistent()
      reads this
    {
      && expList == Window(Means(consumed))
      && expListCrops == AllCropMeans(consumed)
      && transitionList == FadeLabels(Means(consumed))
    }

    /** Between calls, moreover, `process` has read the capture to its end
        or has not run yet. */
    ghost predicate Valid()
      reads this
    {
      Consistent() && (consumed == [] || video == [])
    }

    constructor (frames: seq<Frame>)
      ensures Valid() && video == frames && consumed == []
      ensures expList == [] && expListCrops == [] && transitionList == [0, 0, 0, 0]
    {
      video, consumed := frames, [];
      expList, expListCrops, transitionList := [], [], [0, 0, 0, 0];
      flashList, fadeList, postprocessed := [], [], [];
    }

    /** The reading loop of `SceneDetector.process`: read every frame,
        keeping the five-mean window and its labels and collecting the
        crop means. */
    method ReadFrames()
      requires Valid()
      modifies this
      ensures Valid() && video == [] && consumed == old(consumed) + old(video)
      ensures flashList == old(flashList) && fadeList == old(fadeList) && postprocessed == old(postprocessed)
    {
      var frames := 0;
      var rest, window, crops, labels := video, expList, expListCrops, transitionList;
      ghost var seen := consumed;
      while rest != []
        invariant seen + rest == consumed + video
        invariant window == Window(Means(seen)) && crops == AllCropMeans(seen) && labels == FadeLabels(Means(seen))
        invariant rest != [] ==> frames == |seen|
        modifies {}
        decreases |rest|
      {
        var frame := rest[0];
        ReadStep(seen, frame);
        window := window + [frame.mean];
        if frames > 3 {
          labels := labels + [GetFade(window)];
          window := window[1..];
        }
        var cropMeans := MeasureCrops(frame);
        crops := crops + [cropMeans];
        frames := frames + 1;
        rest, seen := rest[1..], seen + [frame];
      }
      video, consumed := rest, seen;
      expList, expListCrops, transitionList := window, crops, labels;
    }

    /** `SceneDetector.process`: the reading loop, then the flash and fade
        lists and the cleaned boundary sequence. */
    method Process()
      requires Valid()
      modifies this
      ensures Valid() && video == [] && consumed == old(consumed) + old(video)
      ensures flashList == FlashList(transitionList) && fadeList == FadeList(transitionList)
      ensures postprocessed == Cleaned(Candidates(expListCrops, RelativeThreshold, MinChangedCells), ShotLength)
    {
      ReadFrames();
      flashList := FlashList(transitionList);
      fadeList := FadeList(transitionList);
      var results := Threshold(expListCrops, RelativeThreshold, MinChangedCells);
      postprocessed := Postprocess(results, ShotLength);
    }
  }
}
