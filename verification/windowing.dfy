/** The per-file part of `custom_generator`: speaker-code tiling, cutting an aligned
    utterance into overlapping windows, and building the next-sample (input, target) pair. */
module Windowing {
  import opened Seqs
  import opened Align

  /** `np.concatenate([h, np.tile(sc, [len(h), 1])], axis=1)`: the speaker code is appended
      to every feature frame. */
  function AppendSpeakerCode<F>(h: seq<seq<F>>, code: seq<F>): (r: seq<seq<F>>)
    ensures |r| == |h|
    ensures forall i :: 0 <= i < |h| ==> |r[i]| == |h[i]| + |code|
    ensures forall i :: 0 <= i < |h| ==> r[i][..|h[i]|] == h[i] && r[i][|h[i]|..] == code
  {
    seq(|h|, i requires 0 <= i < |h| => h[i] + code)
  }

  /** Tiling before alignment, as the source does, gives the same result as aligning first
      and tiling the surviving frames: the two steps commute. */
  lemma TilingCommutesWithAlignment<S, F>(x: seq<S>, h: seq<seq<F>>, code: seq<F>)
    ensures ValidateLength(x, AppendSpeakerCode(h, code)).0 == ValidateLength(x, h).0
    ensures ValidateLength(x, AppendSpeakerCode(h, code)).1 == AppendSpeakerCode(ValidateLength(x, h).1, code)
  {
    var t := AppendSpeakerCode(h, code);
    var m := Min(|x|, |h|);
    assert ValidateLength(x, t).1 == t[..m];
    assert ValidateLength(x, h).1 == h[..m];
    var lhs := ValidateLength(x, t).1;
    var rhs := AppendSpeakerCode(ValidateLength(x, h).1, code);
    assert |lhs| == |rhs| == m;
    forall i | 0 <= i < m
      ensures lhs[i] == rhs[i]
    {
      assert lhs[i] == t[i] == h[i] + code;
      assert rhs[i] == h[..m][i] + code;
    }
  }

  /** One training batch `((batch_x, batch_h), batch_target)`. The reshaping to a leading
      batch axis of one and to channel-first features does not change the contents and is
      not represented. */
  datatype Batch<S, F> = Batch(input: seq<S>, feat: seq<seq<F>>, target: seq<S>)

  /** Builds the batch from an aligned window (train.py lines 72-79, and 88-95 for a whole
      utterance): the element-wise transforms are applied to the window, the input is the
      window without its last sample, the target the window without its first, and the
      features drop their last frame. */
  function MakeBatch<S, F>(x: seq<S>, h: seq<seq<F>>, wavT: S -> S, featT: seq<F> -> seq<F>): (b: Batch<S, F>)
    ensures |b.input| == |b.target| == (if |x| == 0 then 0 else |x| - 1)
    ensures |b.feat| == (if |h| == 0 then 0 else |h| - 1)
    ensures forall i {:trigger b.input[i]} :: 0 <= i < |b.input| ==> b.input[i] == wavT(x[i])
    ensures forall i {:trigger b.target[i]} :: 0 <= i < |b.target| ==> b.target[i] == wavT(x[i + 1])
    ensures forall i :: 0 <= i < |b.feat| ==> b.feat[i] == featT(h[i])
    ensures forall i {:trigger b.target[i]} :: 0 <= i && i + 1 < |b.input| ==> b.target[i] == b.input[i + 1]
  {
    var x' := MapSeq(wavT, x);
    var h' := MapSeq(featT, h);
    Batch(DropLast(x'), DropLast(h'), DropFirst(x'))
  }

  /** Input and target together lose nothing: the transformed window is the input followed
      by the last target sample, and also the first input sample followed by the target. */
  lemma BatchReassembles<S, F>(x: seq<S>, h: seq<seq<F>>, wavT: S -> S, featT: seq<F> -> seq<F>)
    requires |x| >= 2
    ensures var b := MakeBatch(x, h, wavT, featT);
      && b.input + [b.target[|b.target| - 1]] == MapSeq(wavT, x)
      && [b.input[0]] + b.target == MapSeq(wavT, x)
  {
  }

  /** The drain loop keeps going at step `k` exactly when the buffer, advanced `k` times by
      `b`, is still strictly longer than `r + b` (train.py line 68). */
  predicate HasWindow(len: nat, r: nat, b: nat, k: nat)
  {
    len - k * b > r + b
  }

  lemma MulMonotonic(a: nat, c: nat, b: nat)
    requires a <= c
    ensures a * b <= c * b
  {
    assert c * b == a * b + (c - a) * b;
  }

  /** Where window `k` starts in the buffer, `k * b`: the buffer has advanced `k` times by
      `b`. The generator's lemmas use this name so that their proofs do not see the product. */
  function WindowStart(k: nat, b: nat): (start: nat)
  {
    k * b
  }

  /** The next window starts one batch size later. */
  lemma WindowStartSucc(k: nat, b: nat)
    ensures WindowStart(k + 1, b) == WindowStart(k, b) + b
  {
  }

  /** The number of windows cut from a buffer of `len` samples: the number of steps `k >= 0`
      at which the loop guard holds. A buffer of at most `r + b` samples, `r + b` included,
      yields none. */
  function WindowCount(len: nat, r: nat, b: nat): (n: nat)
    requires b > 0
    ensures forall k: nat :: k < n <==> HasWindow(len, r, b, k)
    ensures n > 0 <==> len > r + b
  {
    if len > r + b then
      var d := len - r - b;
      var q := (d - 1) / b;
      assert (d - 1) == q * b + (d - 1) % b;
      forall k: nat
        ensures k < q + 1 <==> HasWindow(len, r, b, k)
      {
        if k <= q {
          MulMonotonic(k, q, b);
        } else {
          MulMonotonic(q + 1, k, b);
          assert (q + 1) * b == q * b + b;
        }
      }
      q + 1
    else
      assert forall k: nat :: k * b >= 0;
      0
  }

  /** Advancing the buffer by `b` shifts the steps at which the guard holds by one. */
  lemma HasWindowShift(len: nat, r: nat, b: nat, k: nat)
    requires len >= b
    ensures HasWindow(len, r, b, k + 1) <==> HasWindow(len - b, r, b, k)
  {
    assert (k + 1) * b == k * b + b;
  }

  /** A buffer with a window yields that window plus those of the buffer advanced by `b`. */
  lemma WindowCountStep(len: nat, r: nat, b: nat)
    requires b > 0 && len > r + b
    ensures WindowCount(len, r, b) == WindowCount(len - b, r, b) + 1
  {
    var n, m := WindowCount(len, r, b), WindowCount(len - b, r, b);
    if n < m + 1 {
      HasWindowShift(len, r, b, n - 1);
      assert false;
    } else if n > m + 1 {
      HasWindowShift(len, r, b, m);
      assert false;
    }
  }

  /** Window `k - 1` of the advanced buffer is window `k` of the original buffer. */
  lemma ShiftedSlice<T>(buf: seq<T>, r: nat, b: nat, k: nat)
    requires 1 <= k && b <= |buf|
    requires (k - 1) * b + r + b <= |buf[b..]|
    ensures k * b + r + b <= |buf|
    ensures buf[b..][(k - 1) * b..(k - 1) * b + r + b] == buf[k * b..k * b + r + b]
  {
    assert (k - 1) * b + b == k * b;
  }

  /** The windows the drain loop slices from a buffer (train.py lines 68-84): while the buffer
      is longer than `r + b`, its first `r + b` entries form a window and the buffer advances by
      `b`. Window `k` covers positions `[k*b, k*b + r + b)`; the remainder is dropped. */
  function Windows<T>(buf: seq<T>, r: nat, b: nat): (ws: seq<seq<T>>)
    requires b > 0
    ensures |ws| == WindowCount(|buf|, r, b)
    ensures forall k :: 0 <= k < |ws| ==> k * b + r + b <= |buf| && ws[k] == buf[k * b..k * b + r + b]
    decreases |buf|
  {
    if |buf| > r + b then
      var rest := Windows(buf[b..], r, b);
      WindowCountStep(|buf|, r, b);
      ConsWindow(buf, r, b, rest);
      [buf[..r + b]] + rest
    else
      []
  }

  /** The first window followed by the windows of the advanced buffer are the windows of the
      whole buffer, each at its own offset. */
  lemma ConsWindow<T>(buf: seq<T>, r: nat, b: nat, rest: seq<seq<T>>)
    requires b > 0 && |buf| > r + b
    requires forall k :: 0 <= k < |rest| ==> k * b + r + b <= |buf[b..]| && rest[k] == buf[b..][k * b..k * b + r + b]
    ensures forall k :: 0 <= k < |rest| + 1 ==>
      k * b + r + b <= |buf| && ([buf[..r + b]] + rest)[k] == buf[k * b..k * b + r + b]
  {
    var ws := [buf[..r + b]] + rest;
    forall k | 0 <= k < |ws|
      ensures k * b + r + b <= |buf| && ws[k] == buf[k * b..k * b + r + b]
    {
      if k == 0 {
        assert ws[0] == buf[..r + b];
      } else {
        assert ws[k] == rest[k - 1];
        ShiftedSlice(buf, r, b, k);
      }
    }
  }

  /** A buffer with a window starts its windows with its first `r + b` entries, followed by
      the windows of the buffer advanced by `b`. */
  lemma WindowsCons<T>(buf: seq<T>, r: nat, b: nat)
    requires b > 0 && |buf| > r + b
    ensures Windows(buf, r, b) == [buf[..r + b]] + Windows(buf[b..], r, b)
  {
  }

  /** Consecutive windows overlap in exactly `r` positions: the last `r` entries of window
      `k` are the first `r` entries of window `k + 1`. */
  lemma WindowsOverlap<T>(buf: seq<T>, r: nat, b: nat, k: nat)
    requires b > 0
    requires k + 1 < |Windows(buf, r, b)|
    ensures |Windows(buf, r, b)[k]| == r + b
    ensures Windows(buf, r, b)[k][b..] == Windows(buf, r, b)[k + 1][..r]
  {
    var ws := Windows(buf, r, b);
    var start := WindowStart(k, b);
    WindowStartSucc(k, b);
    assert ws[k] == buf[start..start + r + b];
    assert ws[k + 1] == buf[start + b..start + b + r + b];
    SliceOfSlice(buf, start, start + r + b, b);
    assert ws[k + 1][..r] == buf[start + b..start + b + r];
  }

  /** After the last window the buffer, advanced once per window, is at most `r + b` long:
      only a remainder too short for another window is dropped. */
  lemma WindowsDropOnlyShortRemainder<T>(buf: seq<T>, r: nat, b: nat)
    requires b > 0
    ensures |buf| - |Windows(buf, r, b)| * b <= r + b
  {
    var n := |Windows(buf, r, b)|;
    assert !HasWindow(|buf|, r, b, n);
  }

  /** 50000 aligned samples with a receptive field of 2000 and a batch size of 20000 give
      exactly two windows, `[0, 22000)` and `[20000, 42000)`. */
  lemma WindowsExample<T>(buf: seq<T>)
    requires |buf| == 50000
    ensures |Windows(buf, 2000, 20000)| == 2
    ensures Windows(buf, 2000, 20000)[0] == buf[..22000]
    ensures Windows(buf, 2000, 20000)[1] == buf[20000..42000]
  {
    var ws := Windows(buf, 2000, 20000);
    assert WindowCount(50000, 2000, 20000) == 2;
    assert ws[1] == buf[1 * 20000..1 * 20000 + 2000 + 20000];
  }

  /** The targets that enter the loss: `batch_target[receptive_field:]` (train.py line 221). */
  function LossTargets<S>(target: seq<S>, r: nat): (lt: seq<S>)
    ensures |lt| == if r <= |target| then |target| - r else 0
    ensures forall i :: 0 <= i < |lt| ==> lt[i] == target[r + i]
  {
    From(target, r)
  }

  /** For a fixed-size window of `r + b` samples, input, target and features all have
      `r + b - 1` entries and the loss sees the `b - 1` targets after the receptive field: the
      transformed window entries at positions `[r + 1, r + b)`. */
  lemma WindowLossTargets<S, F>(w: seq<S>, hw: seq<seq<F>>, r: nat, b: nat,
                                wavT: S -> S, featT: seq<F> -> seq<F>)
    requires b > 0
    requires |w| == |hw| == r + b
    ensures var batch := MakeBatch(w, hw, wavT, featT);
      && |batch.input| == |batch.target| == |batch.feat| == r + b - 1
      && LossTargets(batch.target, r) == MapSeq(wavT, w[r + 1..])
      && |LossTargets(batch.target, r)| == b - 1
  {
    var batch := MakeBatch(w, hw, wavT, featT);
    var lt := LossTargets(batch.target, r);
    var wanted := MapSeq(wavT, w[r + 1..]);
    assert |lt| == |wanted| == b - 1;
    forall i | 0 <= i < b - 1
      ensures lt[i] == wanted[i]
    {
      assert lt[i] == batch.target[r + i] == wavT(w[r + i + 1]);
    }
  }

  /** In buffer coordinates, the loss targets of window `k` are the buffer entries at
      `[k*b + r + 1, k*b + r + b)`. Window `k`'s range ends just before `(k+1)*b + r` and
      window `k+1`'s starts just after it, so that one position lies between them. */
  lemma WindowLossPositions<T>(buf: seq<T>, r: nat, b: nat, k: nat)
    requires b > 0
    requires k < |Windows(buf, r, b)|
    ensures Windows(buf, r, b)[k][r + 1..] == buf[k * b + r + 1..k * b + r + b]
  {
    var start := k * b;
    var w := Windows(buf, r, b)[k];
    assert start + r + b <= |buf| && w == buf[start..start + r + b];
    SliceOfSlice(buf, start, start + r + b, r + 1);
  }

  /** Multiplying by the same factor keeps the order. */
  lemma {:induction false} MulMonotone(x: nat, y: nat, b: nat)
    requires x <= y
    ensures x * b <= y * b
    decreases y - x
  {
    if x < y {
      MulMonotone(x, y - 1, b);
      assert y * b == (y - 1) * b + b;
    }
  }

  /** The positions `k*b + r` that separate the loss ranges are loss targets of no window:
      whatever window `j` and whatever `k`, position `k*b + r` lies outside window `j`'s
      range `[j*b + r + 1, j*b + r + b)`. */
  lemma SeparatorsAreNeverTargets<T>(buf: seq<T>, r: nat, b: nat, j: nat, k: nat)
    requires b > 0
    requires j < |Windows(buf, r, b)|
    ensures !(j * b + r + 1 <= k * b + r < j * b + r + b)
  {
    if k <= j {
      MulMonotone(k, j, b);
    } else {
      MulMonotone(j + 1, k, b);
      assert (j + 1) * b == j * b + b;
    }
  }
}
