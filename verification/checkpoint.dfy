/** Checkpoint naming and storage (`save_checkpoint` in train.py): a checkpoint holds the
    iteration count and is written to `<dir>/checkpoint-<count>.pkl`, replacing any file of
    that name. Model and optimizer state are not represented. */
module Checkpoint {
  import opened Results

  function DigitChar(d: nat): (c: char)
    requires d < 10
    ensures '0' <= c <= '9'
    ensures c as int - '0' as int == d
  {
    "0123456789"[d]
  }

  predicate IsDigit(c: char)
  {
    '0' <= c <= '9'
  }

  function DigitValue(c: char): (d: nat)
    requires IsDigit(c)
    ensures d < 10
  {
    c as int - '0' as int
  }

  /** The decimal digits of `n`, most significant first, without leading zeros. */
  function NatDigits(n: nat): (s: string)
    ensures |s| >= 1
    ensures forall i :: 0 <= i < |s| ==> IsDigit(s[i])
    ensures |s| > 1 ==> s[0] != '0'
    decreases n
  {
    if n < 10 then [DigitChar(n)] else NatDigits(n / 10) + [DigitChar(n % 10)]
  }

  /** Python's `"%d" % i`: a minus sign for negative values, then the digits. */
  function FormatInt(i: int): (s: string)
    ensures |s| >= 1 && (s[0] == '-' <==> i < 0)
    ensures var digits := if i < 0 then s[1..] else s;
      && |digits| >= 1
      && (forall k :: 0 <= k < |digits| ==> IsDigit(digits[k]))
      && (|digits| > 1 ==> digits[0] != '0')
  {
    if i < 0 then "-" + NatDigits(-i) else NatDigits(i)
  }

  /** Reads a non-empty string of digits as a number. */
  function ParseDigits(s: string): (n: nat)
    requires forall i :: 0 <= i < |s| ==> IsDigit(s[i])
    decreases |s|
  {
    if |s| == 0 then 0 else ParseDigits(s[..|s| - 1]) * 10 + DigitValue(s[|s| - 1])
  }

  /** Reads an optionally signed decimal numeral; `None` for anything else. */
  function ParseInt(s: string): (r: Option<int>)
  {
    if |s| >= 2 && s[0] == '-' && forall i :: 1 <= i < |s| ==> IsDigit(s[i]) then
      var magnitude: int := ParseDigits(s[1..]);
      Some(-magnitude)
    else if |s| >= 1 && forall i :: 0 <= i < |s| ==> IsDigit(s[i]) then
      Some(ParseDigits(s))
    else
      None
  }

  lemma {:induction false} DigitsRoundTrip(n: nat)
    ensures ParseDigits(NatDigits(n)) == n
    decreases n
  {
    if n >= 10 {
      DigitsRoundTrip(n / 10);
      var s := NatDigits(n);
      assert s[..|s| - 1] == NatDigits(n / 10);
    }
  }

  /** A minus sign followed by digits parses as the negated digit value. */
  lemma ParseNegative(digits: string)
    requires |digits| >= 1 && forall k :: 0 <= k < |digits| ==> IsDigit(digits[k])
    ensures ParseInt("-" + digits) == Some(-(ParseDigits(digits) as int))
  {
    var s := "-" + digits;
    assert s[1..] == digits;
    forall k | 1 <= k < |s| ensures IsDigit(s[k]) {
      assert s[k] == digits[k - 1];
    }
  }

  /** Digits alone parse as their value. */
  lemma ParseNonNegative(digits: string)
    requires |digits| >= 1 && forall k :: 0 <= k < |digits| ==> IsDigit(digits[k])
    ensures ParseInt(digits) == Some(ParseDigits(digits) as int)
  {
    assert IsDigit(digits[0]);
  }

  /** Formatting then parsing gives the number back: the decimal text names exactly one
      iteration count. */
  lemma FormatRoundTrip(i: int)
    ensures ParseInt(FormatInt(i)) == Some(i)
  {
    if i < 0 {
      var n: nat := -i;
      assert FormatInt(i) == "-" + NatDigits(n);
      DigitsRoundTrip(n);
      ParseNegative(NatDigits(n));
    } else {
      var n: nat := i;
      assert FormatInt(i) == NatDigits(n);
      DigitsRoundTrip(n);
      ParseNonNegative(NatDigits(n));
    }
  }

  /** The checkpoint file name, `checkpoint_dir + "/checkpoint-%d.pkl" % iterations`. The
      label can be read back from it, so two different iteration counts never share a file. */
  function CheckpointName(dir: string, iterations: int): (name: string)
    ensures LabelOfName(dir, name) == Some(iterations)
  {
    var prefix := dir + "/checkpoint-";
    var digits := FormatInt(iterations);
    var name := prefix + digits + ".pkl";
    assert name[|prefix|..|name| - 4] == digits;
    FormatRoundTrip(iterations);
    name
  }

  /** Recovers the iteration count from a checkpoint file name in `dir`. */
  function LabelOfName(dir: string, name: string): (r: Option<int>)
  {
    var prefix := dir + "/checkpoint-";
    if |name| >= |prefix| + 4 && name[..|prefix|] == prefix && name[|name| - 4..] == ".pkl" then
      ParseInt(name[|prefix|..|name| - 4])
    else
      None
  }

  lemma NameInjective(dir: string, a: int, b: int)
    ensures CheckpointName(dir, a) == CheckpointName(dir, b) <==> a == b
  {
  }

  /** What a checkpoint stores besides model and optimizer state. */
  datatype Checkpoint = Checkpoint(iterations: int)

  /** The checkpoint directory as a map from file name to contents. */
  type Store = map<string, Checkpoint>

  /** Saving writes the checkpoint under its name, replacing any earlier file of that name. */
  function Save(store: Store, dir: string, iterations: int): (r: Store)
    ensures r.Keys == store.Keys + {CheckpointName(dir, iterations)}
    ensures r[CheckpointName(dir, iterations)].iterations == iterations
    ensures forall name :: name in store && name != CheckpointName(dir, iterations) ==> r[name] == store[name]
  {
    store[CheckpointName(dir, iterations) := Checkpoint(iterations)]
  }

  /** Saves the labels in order: the directory gains exactly the files of the saved labels. */
  function SaveAll(store: Store, dir: string, labels: seq<int>): (r: Store)
    ensures r.Keys == store.Keys + set l | l in labels :: CheckpointName(dir, l)
    decreases |labels|
  {
    if |labels| == 0 then store else SaveAll(Save(store, dir, labels[0]), dir, labels[1..])
  }

  /** After a run's saves, each saved label has its own file holding that label; no save of
      one label ever overwrites the checkpoint of another, and every file that is not the
      checkpoint of a saved label is left as it was. */
  lemma {:induction false} SaveAllKeepsEveryLabel(store: Store, dir: string, labels: seq<int>)
    ensures forall l :: l in labels ==>
      CheckpointName(dir, l) in SaveAll(store, dir, labels) &&
      SaveAll(store, dir, labels)[CheckpointName(dir, l)] == Checkpoint(l)
    ensures forall name :: name in store && (forall l :: l in labels ==> name != CheckpointName(dir, l)) ==>
      name in SaveAll(store, dir, labels) && SaveAll(store, dir, labels)[name] == store[name]
    decreases |labels|
  {
    if |labels| > 0 {
      var s1 := Save(store, dir, labels[0]);
      SaveAllKeepsEveryLabel(s1, dir, labels[1..]);
      var result := SaveAll(store, dir, labels);
      forall l | l in labels
        ensures CheckpointName(dir, l) in result && result[CheckpointName(dir, l)] == Checkpoint(l)
      {
        if l !in labels[1..] {
          assert l == labels[0];
          LaterSavesKeep(s1, dir, labels[1..], l);
        }
      }
      forall name | name in store && (forall l :: l in labels ==> name != CheckpointName(dir, l))
        ensures name in result && result[name] == store[name]
      {
        assert labels[0] in labels;
        assert forall l :: l in labels[1..] ==> l in labels;
      }
    }
  }

  /** Saving labels other than `l` leaves the file of `l` alone. */
  lemma {:induction false} LaterSavesKeep(store: Store, dir: string, labels: seq<int>, l: int)
    requires CheckpointName(dir, l) in store
    requires l !in labels
    ensures CheckpointName(dir, l) in SaveAll(store, dir, labels)
    ensures SaveAll(store, dir, labels)[CheckpointName(dir, l)] == store[CheckpointName(dir, l)]
    decreases |labels|
  {
    if |labels| > 0 {
      NameInjective(dir, l, labels[0]);
      LaterSavesKeep(Save(store, dir, labels[0]), dir, labels[1..], l);
    }
  }
}
