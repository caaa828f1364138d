/** The length aligner `validate_length` of train.py: audio samples and feature frames come
    from independent extraction pipelines and may disagree in length by a few entries. */
module Align {
  import opened Seqs

  /** Trims the longer of two parallel sequences to the length of the shorter one; the
      heads are kept and nothing is ever padded. The trailing `assert len(x) == len(y)` of
      the source is the first postcondition, so it cannot fail. */
  function ValidateLength<A, B>(x: seq<A>, y: seq<B>): (r: (seq<A>, seq<B>))
    ensures |r.0| == |r.1| == Min(|x|, |y|)
    ensures r.0 == x[..|r.0|] && r.1 == y[..|r.1|]
    ensures |x| <= |y| ==> r.0 == x
    ensures |y| <= |x| ==> r.1 == y
  {
    var y' := if |x| < |y| then y[..|x|] else y;
    var x' := if |x| > |y'| then x[..|y'|] else x;
    (x', y')
  }

  /** Aligning an already aligned pair changes nothing. */
  lemma AlignIdempotent<A, B>(x: seq<A>, y: seq<B>)
    ensures ValidateLength(ValidateLength(x, y).0, ValidateLength(x, y).1) == ValidateLength(x, y)
  {
  }

  /** The result does not depend on which of the two sequences is passed first. */
  lemma AlignSymmetric<A, B>(x: seq<A>, y: seq<B>)
    ensures ValidateLength(y, x) == (ValidateLength(x, y).1, ValidateLength(x, y).0)
  {
  }

  /** No pair of equal-length prefixes is longer than the aligned pair: the aligner trims
      only what it must. */
  lemma AlignKeepsLongestPrefixes<A, B>(x: seq<A>, y: seq<B>, m: nat)
    requires m <= |x| && m <= |y|
    ensures m <= |ValidateLength(x, y).0|
    ensures ValidateLength(x, y).0[..m] == x[..m] && ValidateLength(x, y).1[..m] == y[..m]
  {
  }
}
