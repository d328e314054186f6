/** The sliding-window index arithmetic shared by training, batch re-scoring and the
    prediction animation: which `[start, end)` sample ranges become windows. Training
    drops a trailing remainder; re-scoring anchors one last window to the end. */
module Segmentation {
  import opened Common

  /** What the settings form admits (window 10..1000, stride 1..1000) lies within this. */
  predicate ValidParams(w: int, stride: int) { w >= 1 && stride >= 1 }

  /** A window `[start, end)` over a sample sequence. */
  datatype Bounds = Bounds(start: int, end: int)

  /** Python's `range(start, stop, step)` for a positive step. */
  function Range(start: int, stop: int, step: int): seq<int>
    requires step >= 1
    decreases stop - start
  {
    if start >= stop then [] else [start] + Range(start + step, stop, step)
  }

  /** `range` yields `ceil((stop - start) / step)` values `start + i * step`, all below `stop`. */
  lemma {:induction false} RangeShape(start: int, stop: int, step: int)
    requires step >= 1
    ensures var r := Range(start, stop, step);
      |r| == (if start >= stop then 0 else (stop - start - 1) / step + 1) &&
      forall i :: 0 <= i < |r| ==> r[i] == start + i * step && start <= r[i] < stop
    decreases stop - start
  {
    if start < stop {
      RangeShape(start + step, stop, step);
      var d := stop - start - 1;
      DivStep(d, step);
      var r := Range(start, stop, step);
      forall i | 0 < i < |r| ensures r[i] == start + i * step {
        assert (i - 1) * step + step == i * step;
      }
    }
  }

  /** One less step in the dividend is one less in the quotient. */
  lemma DivStep(d: int, step: int)
    requires d >= 0 && step >= 1
    ensures d < step ==> d / step == 0
    ensures d >= step ==> (d - step) / step + 1 == d / step
  {
    var q, r := d / step, d % step;
    assert d == q * step + r && 0 <= r < step;
    if d >= step {
      assert d - step == (q - 1) * step + r;
      DivUnique(d - step, step, q - 1, r);
    } else {
      DivUnique(d, step, 0, d);
    }
  }

  lemma DivUnique(a: int, b: int, q: int, r: int)
    requires b >= 1 && a == q * b + r && 0 <= r < b
    ensures a / b == q && a % b == r
  {
    var q', r' := a / b, a % b;
    assert a == q' * b + r' && 0 <= r' < b;
    if q' < q {
      assert q' * b + b <= q * b by { MulMono(q' + 1, q, b); }
    } else if q' > q {
      assert q * b + b <= q' * b by { MulMono(q + 1, q', b); }
    }
  }

  lemma MulMono(x: int, y: int, b: int)
    requires x <= y && b >= 0
    ensures x * b <= y * b
  {
    assert y * b - x * b == (y - x) * b;
  }

  // ---------------------------------------------------------------------------
  // Drop-remainder segmentation (training)

  /** The number of windows training builds from `n` samples. */
  function FiniteWindowCount(n: int, w: int, stride: int): nat
    requires ValidParams(w, stride)
  {
    if n >= w then (n - w) / stride + 1 else 0
  }

  /** The window starts of training: `range(0, max(n - w + 1, 0), stride)`. */
  function DropStarts(n: int, w: int, stride: int): seq<int>
    requires ValidParams(w, stride)
  {
    Range(0, Max(n - w + 1, 0), stride)
  }

  /** Training's windows start at `0, stride, 2*stride, ...`, there are
      `(n - w) / stride + 1` of them when `n >= w` and none otherwise, and each one
      (exactly `w` samples) ends within the data. */
  lemma DropStartsShape(n: int, w: int, stride: int)
    requires ValidParams(w, stride)
    ensures var s := DropStarts(n, w, stride);
      |s| == FiniteWindowCount(n, w, stride) &&
      forall i :: 0 <= i < |s| ==> s[i] == i * stride && 0 <= s[i] && s[i] + w <= n
  {
    RangeShape(0, Max(n - w + 1, 0), stride);
  }

  /** The `i`-th window of the stride progression: `[i * stride, i * stride + w)`. */
  function DropWindow(i: int, w: int, stride: int): Bounds {
    Bounds(i * stride, i * stride + w)
  }

  function DropWindows(n: int, w: int, stride: int): (r: seq<Bounds>)
    requires ValidParams(w, stride)
    ensures |r| == FiniteWindowCount(n, w, stride)
  {
    seq(FiniteWindowCount(n, w, stride), i => DropWindow(i, w, stride))
  }

  /** The windows training slices are exactly those of `DropWindows`. */
  lemma DropWindowsAreDropStarts(n: int, w: int, stride: int)
    requires ValidParams(w, stride)
    ensures var s := DropStarts(n, w, stride); var b := DropWindows(n, w, stride);
      |s| == |b| && forall i :: 0 <= i < |b| ==> b[i] == Bounds(s[i], s[i] + w) && b[i].end <= n
  {
    var s := DropStarts(n, w, stride);
    var b := DropWindows(n, w, stride);
    DropStartsShape(n, w, stride);
    forall i | 0 <= i < |b| ensures b[i] == Bounds(s[i], s[i] + w) && b[i].end <= n {
      assert s[i] == i * stride;
    }
  }

  // ---------------------------------------------------------------------------
  // Anchor-to-end segmentation (re-scoring and the prediction animation)

  /** The window for counter value `k`: start `k * stride`, end clipped to `n`; a
      window that comes out shorter than `w` is replaced by `[max(0, n - w), n)`. */
  function WindowAt(k: nat, n: nat, w: nat, stride: nat): Bounds {
    var s := k * stride;
    var e := Min(s + w, n);
    if e - s < w then Bounds(Max(0, n - w), n) else Bounds(s, e)
  }

  /** The windows re-scoring visits from counter `k` on: stop when the start reaches
      `n`, or after a window that ends at `n`. */
  function AnchorWindowsFrom(k: nat, n: nat, w: nat, stride: nat): seq<Bounds>
    requires ValidParams(w, stride)
    decreases n - k * stride
  {
    if k * stride >= n then []
    else
      var b := WindowAt(k, n, w, stride);
      if b.end >= n then [b]
      else
        assert (k + 1) * stride == k * stride + stride;
        [b] + AnchorWindowsFrom(k + 1, n, w, stride)
  }

  function AnchorWindows(n: nat, w: nat, stride: nat): seq<Bounds>
    requires ValidParams(w, stride)
  {
    AnchorWindowsFrom(0, n, w, stride)
  }

  /** The re-scoring loop stops once its start reaches `n`: the windows already
      visited are then all of them. */
  lemma AnchorLoopExit(all: seq<Bounds>, done: seq<Bounds>, k: nat, n: nat, w: nat, stride: nat)
    requires ValidParams(w, stride) && all == done + AnchorWindowsFrom(k, n, w, stride)
    requires k * stride >= n
    ensures all == done
  {
  }

  /** A window whose start lies inside the data is a non-empty part of it. */
  lemma WindowAtInside(k: nat, n: nat, w: nat, stride: nat)
    requires ValidParams(w, stride) && k * stride < n
    ensures var b := WindowAt(k, n, w, stride); 0 <= b.start < b.end <= n
  {
  }

  /** One unfolding of the re-scoring windows at a start inside the data. */
  lemma AnchorUnfold(k: nat, n: nat, w: nat, stride: nat)
    requires ValidParams(w, stride) && k * stride < n
    ensures var b := WindowAt(k, n, w, stride);
      AnchorWindowsFrom(k, n, w, stride) ==
        [b] + (if b.end >= n then [] else AnchorWindowsFrom(k + 1, n, w, stride))
  {
    var b := WindowAt(k, n, w, stride);
    if b.end < n {
      assert (k + 1) * stride == k * stride + stride;
    }
  }

  /** One turn of the re-scoring loop at counter `k`, when its start lies inside the
      data: the window it visits is the next one, and either it is the last one or the
      loop goes on at `k + 1`. */
  lemma AnchorLoopStep(all: seq<Bounds>, done: seq<Bounds>, k: nat, n: nat, w: nat, stride: nat)
    requires ValidParams(w, stride) && all == done + AnchorWindowsFrom(k, n, w, stride)
    requires k * stride < n
    ensures var b := WindowAt(k, n, w, stride);
      |done| < |all| && all[|done|] == b && 0 <= b.start < b.end <= n &&
      (b.end >= n ==> all == done + [b]) &&
      (b.end < n ==> all == (done + [b]) + AnchorWindowsFrom(k + 1, n, w, stride))
  {
    var b := WindowAt(k, n, w, stride);
    WindowAtInside(k, n, w, stride);
    AnchorUnfold(k, n, w, stride);
    var rest := if b.end >= n then [] else AnchorWindowsFrom(k + 1, n, w, stride);
    assert all == (done + [b]) + rest;
  }

  /** The window re-scoring adds after the stride progression: present exactly when
      the progression leaves a remainder and its next start still lies inside the data. */
  function AnchorTail(n: nat, w: nat, stride: nat): seq<Bounds>
    requires ValidParams(w, stride)
  {
    if n == 0 then []
    else if n < w then [Bounds(0, n)]
    else
      var q := (n - w) / stride;
      if (n - w) % stride != 0 && (q + 1) * stride < n then [Bounds(n - w, n)] else []
  }

  /** One unfolding of the re-scoring loop from a full window that ends before `n`. */
  lemma AnchorStepFull(k: nat, n: nat, w: nat, stride: nat)
    requires ValidParams(w, stride) && k * stride + w < n
    ensures AnchorWindowsFrom(k, n, w, stride) ==
      [DropWindow(k, w, stride)] + AnchorWindowsFrom(k + 1, n, w, stride)
  {
    assert WindowAt(k, n, w, stride) == DropWindow(k, w, stride);
  }

  /** The loop ends after a full window that ends exactly at `n`. */
  lemma AnchorStepLast(k: nat, n: nat, w: nat, stride: nat)
    requires ValidParams(w, stride) && k * stride + w == n
    ensures AnchorWindowsFrom(k, n, w, stride) == [DropWindow(k, w, stride)]
  {
    assert WindowAt(k, n, w, stride) == DropWindow(k, w, stride);
  }

  /** A start inside the data whose window would run past `n` is re-anchored, and the loop ends. */
  lemma AnchorStepShort(k: nat, n: nat, w: nat, stride: nat)
    requires ValidParams(w, stride) && k * stride < n < k * stride + w
    ensures AnchorWindowsFrom(k, n, w, stride) == [Bounds(Max(0, n - w), n)]
  {
    assert WindowAt(k, n, w, stride) == Bounds(Max(0, n - w), n);
  }

  /** From the last full window `q` on: that window, then the tail. */
  lemma AnchorSuffixLast(n: nat, w: nat, stride: nat)
    requires ValidParams(w, stride) && n >= w
    ensures AnchorWindowsFrom((n - w) / stride, n, w, stride) ==
      [DropWindow((n - w) / stride, w, stride)] + AnchorTail(n, w, stride)
  {
    var q, r := (n - w) / stride, (n - w) % stride;
    assert n - w == q * stride + r;
    if r == 0 {
      AnchorStepLast(q, n, w, stride);
    } else {
      AnchorStepFull(q, n, w, stride);
      AnchorAfterLast(n, w, stride);
    }
  }

  /** After the last full window of a progression with a remainder, the loop visits
      exactly the tail. */
  lemma AnchorAfterLast(n: nat, w: nat, stride: nat)
    requires ValidParams(w, stride) && n >= w && (n - w) % stride != 0
    ensures AnchorWindowsFrom((n - w) / stride + 1, n, w, stride) == AnchorTail(n, w, stride)
  {
    var q, r := (n - w) / stride, (n - w) % stride;
    assert n - w == q * stride + r && r < stride;
    assert (q + 1) * stride == q * stride + stride;
    if (q + 1) * stride < n {
      AnchorStepShort(q + 1, n, w, stride);
    }
  }

  /** Before the last full window `q`, the window at `k` is full and ends before `n`. */
  lemma AnchorStepBeforeLast(k: nat, n: nat, w: nat, stride: nat)
    requires ValidParams(w, stride) && n >= w && k < (n - w) / stride
    ensures AnchorWindowsFrom(k, n, w, stride) ==
      [DropWindow(k, w, stride)] + AnchorWindowsFrom(k + 1, n, w, stride)
  {
    var q := (n - w) / stride;
    MulMono(k + 1, q, stride);
    assert (k + 1) * stride == k * stride + stride;
    AnchorStepFull(k, n, w, stride);
  }

  /** The run of full windows from `k` to `q` starts with the window at `k`. */
  lemma DropRunCons(k: nat, q: nat, w: nat, stride: nat)
    requires k < q
    ensures seq(q + 1 - k, i => DropWindow(k + i, w, stride)) ==
      [DropWindow(k, w, stride)] + seq(q + 1 - (k + 1), i => DropWindow(k + 1 + i, w, stride))
  {
  }

  /** The progression from counter `k` up to the last full window `q`. */
  lemma {:induction false} AnchorSuffix(k: nat, n: nat, w: nat, stride: nat)
    requires ValidParams(w, stride) && n >= w
    requires k <= (n - w) / stride
    ensures AnchorWindowsFrom(k, n, w, stride) ==
      seq((n - w) / stride + 1 - k, i => DropWindow(k + i, w, stride)) + AnchorTail(n, w, stride)
    decreases (n - w) / stride - k
  {
    var q := (n - w) / stride;
    if k < q {
      AnchorStepBeforeLast(k, n, w, stride);
      AnchorSuffix(k + 1, n, w, stride);
      DropRunCons(k, q, w, stride);
    } else {
      AnchorSuffixLast(n, w, stride);
      assert seq(q + 1 - k, i => DropWindow(k + i, w, stride)) == [DropWindow(k, w, stride)];
    }
  }

  /** Re-scoring visits the drop-remainder windows of training, then at most one
      window anchored to the end: `[n - w, n)` after a remainder, or `[0, n)` when
      fewer than `w` samples exist. */
  lemma AnchorWindowsClosedForm(n: nat, w: nat, stride: nat)
    requires ValidParams(w, stride)
    ensures AnchorWindows(n, w, stride) == DropWindows(n, w, stride) + AnchorTail(n, w, stride)
  {
    if n >= w {
      AnchorSuffix(0, n, w, stride);
      assert seq((n - w) / stride + 1, i => DropWindow(0 + i, w, stride)) == DropWindows(n, w, stride);
    } else if n > 0 {
      assert WindowAt(0, n, w, stride) == Bounds(0, n);
    }
  }

  /** Where the `i`-th full window of the progression lies. */
  lemma DropWindowFacts(n: int, w: int, stride: int, i: int)
    requires ValidParams(w, stride) && 0 <= i < FiniteWindowCount(n, w, stride)
    ensures 0 <= i * stride && i * stride + w <= n
    ensures i < FiniteWindowCount(n, w, stride) - 1 ==> i * stride + w < n
    ensures i == FiniteWindowCount(n, w, stride) - 1 ==> n - w == i * stride + (n - w) % stride
  {
    var q, r := (n - w) / stride, (n - w) % stride;
    assert n - w == q * stride + r && 0 <= r < stride;
    MulMono(0, i, stride);
    MulMono(i, q, stride);
    if i < q {
      MulMono(i + 1, q, stride);
      assert (i + 1) * stride == i * stride + stride;
    }
  }

  /** Re-scoring's windows: none for empty data, otherwise each inside `[0, n)` and
      `min(w, n)` samples long; every window but the last is the full window
      `[i * stride, i * stride + w)` and ends before `n`; starts strictly increase. */
  lemma AnchorWindowsShape(n: nat, w: nat, stride: nat)
    requires ValidParams(w, stride)
    ensures var a := AnchorWindows(n, w, stride);
      (|a| == 0 <==> n == 0) &&
      (forall i :: 0 <= i < |a| ==> 0 <= a[i].start && a[i].end <= n && a[i].end - a[i].start == Min(w, n)) &&
      (forall i :: 0 <= i < |a| - 1 ==> a[i] == DropWindow(i, w, stride) && a[i].end < n) &&
      (forall i, j :: 0 <= i < j < |a| ==> a[i].start < a[j].start)
  {
    var a := AnchorWindows(n, w, stride);
    AnchorWindowsEmpty(n, w, stride);
    forall i | 0 <= i < |a|
      ensures 0 <= a[i].start && a[i].end <= n && a[i].end - a[i].start == Min(w, n)
      ensures i < |a| - 1 ==> a[i] == DropWindow(i, w, stride) && a[i].end < n
    {
      AnchorWindowAt(n, w, stride, i);
    }
    forall i, j | 0 <= i < j < |a| ensures a[i].start < a[j].start {
      AnchorStartsIncrease(n, w, stride, i, j);
    }
  }

  /** Re-scoring visits no window exactly when there is no data. */
  lemma AnchorWindowsEmpty(n: nat, w: nat, stride: nat)
    requires ValidParams(w, stride)
    ensures |AnchorWindows(n, w, stride)| == 0 <==> n == 0
  {
    AnchorWindowsClosedForm(n, w, stride);
    AnchorTailFacts(n, w, stride);
  }

  /** The tail window, when there is one, follows a progression that misses the last samples. */
  lemma AnchorTailFacts(n: nat, w: nat, stride: nat)
    requires ValidParams(w, stride)
    ensures var t := AnchorTail(n, w, stride); var m := FiniteWindowCount(n, w, stride);
      |t| <= 1 && (n == 0 ==> t == []) && (0 < n < w ==> t == [Bounds(0, n)] && m == 0) &&
      (n >= w && t != [] ==> t == [Bounds(n - w, n)] && (n - w) % stride != 0 && m >= 1)
  {
  }

  /** Window `i` of re-scoring: its place and length inside the data, and, before the
      last, training's window ending before `n`. */
  lemma AnchorWindowAt(n: nat, w: nat, stride: nat, i: nat)
    requires ValidParams(w, stride) && i < |AnchorWindows(n, w, stride)|
    ensures var a := AnchorWindows(n, w, stride);
      0 <= a[i].start && a[i].end <= n && a[i].end - a[i].start == Min(w, n) &&
      (i < |a| - 1 ==> a[i] == DropWindow(i, w, stride) && a[i].end < n)
  {
    AnchorWindowsClosedForm(n, w, stride);
    AnchorTailFacts(n, w, stride);
    var a := AnchorWindows(n, w, stride);
    var d := DropWindows(n, w, stride);
    var m := |d|;
    if i < m {
      assert a[i] == d[i];
      DropWindowFacts(n, w, stride, i);
    }
  }

  /** Re-scoring's windows start strictly later one after the other. */
  lemma AnchorStartsIncrease(n: nat, w: nat, stride: nat, i: nat, j: nat)
    requires ValidParams(w, stride) && i < j < |AnchorWindows(n, w, stride)|
    ensures AnchorWindows(n, w, stride)[i].start < AnchorWindows(n, w, stride)[j].start
  {
    AnchorWindowsClosedForm(n, w, stride);
    AnchorTailFacts(n, w, stride);
    var a := AnchorWindows(n, w, stride);
    var d := DropWindows(n, w, stride);
    var m := |d|;
    assert a[i] == d[i];
    if j < m {
      assert a[j] == d[j];
      MulMono(i + 1, j, stride);
      assert (i + 1) * stride == i * stride + stride;
    } else {
      DropWindowFacts(n, w, stride, m - 1);
      MulMono(i, m - 1, stride);
    }
  }

  predicate Covers(b: Bounds, j: int) { b.start <= j < b.end }

  /** Sample `j` lies in one of the windows `a`. */
  predicate Covered(a: seq<Bounds>, j: int) { exists i :: 0 <= i < |a| && Covers(a[i], j) }

  /** With `stride <= w` and at least one full window, re-scoring ends with `[n - w, n)`. */
  lemma AnchorWindowsEndAnchored(n: nat, w: nat, stride: nat)
    requires ValidParams(w, stride) && stride <= w && n >= w
    ensures var a := AnchorWindows(n, w, stride);
      |a| >= FiniteWindowCount(n, w, stride) && a[|a| - 1] == Bounds(n - w, n) &&
      forall k :: 0 <= k < FiniteWindowCount(n, w, stride) ==> a[k] == DropWindow(k, w, stride)
  {
    AnchorWindowsClosedForm(n, w, stride);
    var a := AnchorWindows(n, w, stride);
    var t := AnchorTail(n, w, stride);
    var q, r := (n - w) / stride, (n - w) % stride;
    assert n - w == q * stride + r && 0 <= r < stride;
    assert (q + 1) * stride == q * stride + stride;
    assert r != 0 ==> t == [Bounds(n - w, n)];
    assert r == 0 ==> t == [] && a[|a| - 1] == DropWindow(q, w, stride);
  }

  /** Sample `j` lies in the full window `j / stride` or, past the progression, in the anchored one. */
  lemma AnchorCoversSample(n: nat, w: nat, stride: nat, j: int)
    requires ValidParams(w, stride) && stride <= w && n >= w && 0 <= j < n
    ensures Covered(AnchorWindows(n, w, stride), j)
  {
    AnchorWindowsEndAnchored(n, w, stride);
    var a := AnchorWindows(n, w, stride);
    var k := j / stride;
    if k < FiniteWindowCount(n, w, stride) {
      assert a[k] == DropWindow(k, w, stride);
      DivBounds(j, stride);
      assert Covers(a[k], j);
    } else {
      PastProgression(n, w, stride, j);
      assert Covers(a[|a| - 1], j);
    }
  }

  lemma DivBounds(j: int, stride: int)
    requires stride >= 1
    ensures (j / stride) * stride <= j < (j / stride) * stride + stride
  {
  }

  /** A sample beyond the last full window's start-progression lies in `[n - w, n)`. */
  lemma PastProgression(n: nat, w: nat, stride: nat, j: int)
    requires ValidParams(w, stride) && n >= w && j / stride >= FiniteWindowCount(n, w, stride)
    ensures j >= n - w
  {
    var q, k := (n - w) / stride, j / stride;
    MulMono(q + 1, k, stride);
    assert (q + 1) * stride == q * stride + stride;
    DivBounds(n - w, stride);
    DivBounds(j, stride);
  }

  /** Every window re-scoring visits is a non-empty range of samples. */
  lemma AnchorWindowsInRange(n: nat, w: nat, stride: nat)
    requires ValidParams(w, stride)
    ensures var a := AnchorWindows(n, w, stride);
      forall i :: 0 <= i < |a| ==> 0 <= a[i].start < a[i].end <= n
  {
    AnchorWindowsShape(n, w, stride);
  }

  /** When the stride does not exceed the window, re-scoring leaves no sample out:
      the last window ends exactly at `n` and every sample lies in some window. */
  lemma AnchorWindowsCover(n: nat, w: nat, stride: nat)
    requires ValidParams(w, stride) && stride <= w && n > 0
    ensures var a := AnchorWindows(n, w, stride);
      |a| > 0 && a[|a| - 1].end == n &&
      forall j :: 0 <= j < n ==> Covered(a, j)
  {
    var a := AnchorWindows(n, w, stride);
    if n < w {
      AnchorWindowsClosedForm(n, w, stride);
      assert a == [Bounds(0, n)];
      forall j | 0 <= j < n ensures Covered(a, j) {
        assert Covers(a[0], j);
      }
    } else {
      AnchorWindowsEndAnchored(n, w, stride);
      forall j | 0 <= j < n ensures Covered(a, j) {
        AnchorCoversSample(n, w, stride, j);
      }
    }
  }

  /** With a stride longer than the window, samples can go unscored: for 3 samples,
      window 2 and stride 3, the next start 3 reaches the end before sample 2 is seen. */
  lemma AnchorWindowsMaySkip()
    ensures AnchorWindows(3, 2, 3) == [Bounds(0, 2)]
  {
    assert WindowAt(0, 3, 2, 3) == Bounds(0, 2);
    assert AnchorWindowsFrom(1, 3, 2, 3) == [];
  }

  /** Window 3, stride 2: seven samples give `[0,3) [2,5) [4,7)` under both policies;
      an eighth sample adds `[5,8)` under the anchored policy only. */
  lemma WindowPolicyExample()
    ensures DropWindows(7, 3, 2) == DropWindows(8, 3, 2) == [Bounds(0, 3), Bounds(2, 5), Bounds(4, 7)]
    ensures AnchorWindows(7, 3, 2) == [Bounds(0, 3), Bounds(2, 5), Bounds(4, 7)]
    ensures AnchorWindows(8, 3, 2) == [Bounds(0, 3), Bounds(2, 5), Bounds(4, 7), Bounds(5, 8)]
  {
    AnchorWindowsClosedForm(7, 3, 2);
    AnchorWindowsClosedForm(8, 3, 2);
    assert DropWindows(7, 3, 2) == [Bounds(0, 3), Bounds(2, 5), Bounds(4, 7)];
    assert DropWindows(8, 3, 2) == [Bounds(0, 3), Bounds(2, 5), Bounds(4, 7)];
  }

  // ---------------------------------------------------------------------------
  // The prediction animation

  /** Python's `a // b` for a positive divisor (Dafny's `/` rounds toward negative
      infinity when the divisor is positive, as `//` does). */
  function FloorDiv(a: int, b: int): int
    requires b >= 1
  {
    a / b
  }

  /** The animation's frame count `max((total - w) // stride + 1, 1)`. */
  function FrameCount(total: nat, w: nat, stride: nat): (r: nat)
    requires ValidParams(w, stride)
    ensures r >= 1 && (total >= w ==> r == FiniteWindowCount(total, w, stride))
    ensures total < w + stride ==> r == 1
  {
    Max(FloorDiv(total - w, stride) + 1, 1)
  }

  /** The window each frame `i` shows, from `update(i)`. */
  function FrameWindows(total: nat, w: nat, stride: nat): (r: seq<Bounds>)
    requires ValidParams(w, stride)
    ensures |r| == FrameCount(total, w, stride)
  {
    seq(FrameCount(total, w, stride), i requires 0 <= i => WindowAt(i, total, w, stride))
  }

  /** With any data at all, every frame shows a non-empty range of samples. */
  lemma FrameWindowsInRange(total: nat, w: nat, stride: nat)
    requires ValidParams(w, stride) && total > 0
    ensures var f := FrameWindows(total, w, stride);
      forall i :: 0 <= i < |f| ==> 0 <= f[i].start < f[i].end <= total
  {
    FrameWindowsShape(total, w, stride);
    if total >= w {
      var f := FrameWindows(total, w, stride);
      forall i | 0 <= i < |f| ensures 0 <= f[i].start < f[i].end <= total {
        DropWindowFacts(total, w, stride, i);
      }
    }
  }

  /** With at least one full window, the animation shows exactly training's windows
      and never re-anchors; with fewer than `w` samples it shows one frame of all of them. */
  lemma FrameWindowsShape(total: nat, w: nat, stride: nat)
    requires ValidParams(w, stride)
    ensures total >= w ==>
      FrameCount(total, w, stride) == FiniteWindowCount(total, w, stride) &&
      FrameWindows(total, w, stride) == DropWindows(total, w, stride)
    ensures total < w ==> FrameWindows(total, w, stride) == [Bounds(0, total)]
  {
    var f := FrameWindows(total, w, stride);
    if total >= w {
      var d := DropWindows(total, w, stride);
      forall i | 0 <= i < |d| ensures f[i] == d[i] {
        DropWindowFacts(total, w, stride, i);
      }
    } else {
      var q := (total - w) / stride;
      assert total - w == q * stride + (total - w) % stride;
      if q >= 0 { MulMono(0, q, stride); }
      assert f[0] == Bounds(0, total);
    }
  }
}
