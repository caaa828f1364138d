/** The corpus indexer of `custom_generator`: the sorted list of audio file names is turned
    into two parallel path lists, audio under the audio directory and features under the
    feature directory with `.wav` replaced by `.h5`, and both lists are shuffled by the same
    permutation. Directory listing is not modelled: the sorted names are an input. */
module Corpus {
  import opened Seqs

  /** The sorted file names found under the audio directory, with both directories. */
  datatype Listing = Listing(wavDir: string, featDir: string, names: seq<string>)

  /** `pat` occurs in `s` starting at position `i`. */
  predicate MatchAt(s: string, pat: string, i: int)
  {
    0 <= i && i + |pat| <= |s| && s[i..i + |pat|] == pat
  }

  /** `pat` occurs somewhere in `s`. */
  predicate Occurs(s: string, pat: string)
  {
    exists i :: 0 <= i <= |s| && MatchAt(s, pat, i)
  }

  /** An occurrence in the tail of `s` is an occurrence in `s`, one position later. */
  lemma OccursInTail(s: string, pat: string)
    requires |s| > 0
    ensures Occurs(s[1..], pat) ==> Occurs(s, pat)
  {
    if Occurs(s[1..], pat) {
      var i :| 0 <= i <= |s[1..]| && MatchAt(s[1..], pat, i);
      assert s[1..][i..i + |pat|] == s[i + 1..i + 1 + |pat|];
      assert MatchAt(s, pat, i + 1);
    }
  }

  /** Python's `s.replace(pat, rep)` for a non-empty pattern: scans left to right and
      replaces every non-overlapping occurrence. A string without the pattern is returned
      unchanged. */
  function ReplaceAll(s: string, pat: string, rep: string): (r: string)
    requires |pat| > 0
    ensures !Occurs(s, pat) ==> r == s
    decreases |s|
  {
    if |s| < |pat| then s
    else if s[..|pat|] == pat then
      assert MatchAt(s, pat, 0);
      rep + ReplaceAll(s[|pat|..], pat, rep)
    else
      OccursInTail(s, pat);
      [s[0]] + ReplaceAll(s[1..], pat, rep)
  }

  /** One step of the replacement when the text starts with `.wav`. */
  lemma ReplaceHeadMatch(s: string)
    requires |s| >= 4 && s[..4] == ".wav"
    ensures ReplaceAll(s, ".wav", ".h5") == ".h5" + ReplaceAll(s[4..], ".wav", ".h5")
  {
  }

  /** One step of the replacement when the text does not start with `.wav`. */
  lemma ReplaceHeadOther(s: string)
    requires |s| >= 4 && s[..4] != ".wav"
    ensures ReplaceAll(s, ".wav", ".h5") == [s[0]] + ReplaceAll(s[1..], ".wav", ".h5")
  {
  }

  /** Regrouping a prefix in front of a three-part concatenation. */
  lemma Regroup(c: string, x: string, h: string, y: string)
    ensures c + (x + h + y) == c + x + h + y
  {
  }

  /** Cutting `a + u + b` inside `a`. */
  lemma CutInside(a: string, u: string, b: string, n: nat)
    requires n <= |a|
    ensures (a + u + b)[..n] == a[..n]
    ensures (a + u + b)[n..] == a[n..] + u + b
  {
  }

  /** An occurrence of `.wav` cannot start within the first three characters before another
      one: the second one's `.` would fall on `w`, `a` or `v`. */
  lemma NoWavAcross(a: string, b: string)
    requires 0 < |a| < 4
    ensures (a + ".wav" + b)[..4] != ".wav"
  {
    var s := a + ".wav" + b;
    assert s[|a|] == '.';
  }

  /** The inductive step of `ReplaceAroundWav` when the text before the occurrence starts
      with `.wav` itself. */
  lemma SplitAfterLeadingWav(a: string, b: string)
    requires |a| >= 4 && a[..4] == ".wav"
    requires ReplaceAll(a[4..] + ".wav" + b, ".wav", ".h5")
          == ReplaceAll(a[4..], ".wav", ".h5") + ".h5" + ReplaceAll(b, ".wav", ".h5")
    ensures ReplaceAll(a + ".wav" + b, ".wav", ".h5")
         == ReplaceAll(a, ".wav", ".h5") + ".h5" + ReplaceAll(b, ".wav", ".h5")
  {
    CutInside(a, ".wav", b, 4);
    ReplaceHeadMatch(a + ".wav" + b);
    ReplaceHeadMatch(a);
    Regroup(".h5", ReplaceAll(a[4..], ".wav", ".h5"), ".h5", ReplaceAll(b, ".wav", ".h5"));
  }

  /** The inductive step of `ReplaceAroundWav` when the text before the occurrence does not
      start with `.wav`: its first character is copied. */
  lemma SplitAfterOtherHead(a: string, b: string)
    requires |a| > 0 && !(|a| >= 4 && a[..4] == ".wav")
    requires ReplaceAll(a[1..] + ".wav" + b, ".wav", ".h5")
          == ReplaceAll(a[1..], ".wav", ".h5") + ".h5" + ReplaceAll(b, ".wav", ".h5")
    ensures ReplaceAll(a + ".wav" + b, ".wav", ".h5")
         == ReplaceAll(a, ".wav", ".h5") + ".h5" + ReplaceAll(b, ".wav", ".h5")
  {
    if |a| < 4 {
      NoWavAcross(a, b);
      assert a == [a[0]] + a[1..];
    } else {
      CutInside(a, ".wav", b, 4);
      ReplaceHeadOther(a);
    }
    CutInside(a, ".wav", b, 1);
    ReplaceHeadOther(a + ".wav" + b);
    Regroup([a[0]], ReplaceAll(a[1..], ".wav", ".h5"), ".h5", ReplaceAll(b, ".wav", ".h5"));
  }

  /** Every occurrence of `.wav` becomes `.h5`, wherever it sits in the name: the
      replacement splits at any occurrence into the replacements of the text before and
      after it. Since `.wav` starts with the only `.` it contains, two occurrences never
      overlap and none can straddle the split. */
  lemma {:induction false} ReplaceAroundWav(a: string, b: string)
    ensures ReplaceAll(a + ".wav" + b, ".wav", ".h5")
         == ReplaceAll(a, ".wav", ".h5") + ".h5" + ReplaceAll(b, ".wav", ".h5")
    decreases |a|
  {
    if |a| == 0 {
      var s := a + ".wav" + b;
      assert s[..4] == ".wav";
      assert s[4..] == b;
      ReplaceHeadMatch(s);
    } else if |a| >= 4 && a[..4] == ".wav" {
      ReplaceAroundWav(a[4..], b);
      SplitAfterLeadingWav(a, b);
    } else {
      ReplaceAroundWav(a[1..], b);
      SplitAfterOtherHead(a, b);
    }
  }

  /** The extension `.wav` at the end of a file name becomes `.h5`, whatever the stem is. */
  lemma ReplaceWavSuffix(stem: string)
    ensures ReplaceAll(stem + ".wav", ".wav", ".h5") == ReplaceAll(stem, ".wav", ".h5") + ".h5"
  {
    ReplaceAroundWav(stem, "");
    assert stem + ".wav" + "" == stem + ".wav";
  }

  /** A file name of the form `stem.wav` whose stem does not itself contain `.wav`. */
  predicate IsWavName(name: string)
  {
    |name| >= 4 && name[|name| - 4..] == ".wav" && !Occurs(name[..|name| - 4], ".wav")
  }

  /** The stem of such a file name: the name is the stem followed by `.wav`. */
  function Stem(name: string): (stem: string)
    requires IsWavName(name)
    ensures name == stem + ".wav"
    ensures !Occurs(stem, ".wav")
  {
    name[..|name| - 4]
  }

  /** Path of an audio file: `wav_dir + "/" + filename`. */
  function WavPath(wavDir: string, name: string): (p: string)
  {
    wavDir + "/" + name
  }

  /** Path of the paired feature file: `feat_dir + "/" + filename.replace(".wav", ".h5")`. */
  function FeatPath(featDir: string, name: string): (p: string)
    ensures !Occurs(name, ".wav") ==> p == featDir + "/" + name
  {
    featDir + "/" + ReplaceAll(name, ".wav", ".h5")
  }

  /** Every `.wav` in the file name is replaced, not only the extension: the feature path
      of a name with an occurrence of `.wav` replaces it and all occurrences on each side. */
  lemma FeatPathAroundWav(featDir: string, a: string, b: string)
    ensures FeatPath(featDir, a + ".wav" + b)
         == featDir + "/" + ReplaceAll(a, ".wav", ".h5") + ".h5" + ReplaceAll(b, ".wav", ".h5")
  {
    ReplaceAroundWav(a, b);
  }

  /** For a name `stem.wav` the feature file is `stem.h5` in the feature directory. */
  lemma FeatPathOfWavName(featDir: string, name: string)
    requires IsWavName(name)
    ensures FeatPath(featDir, name) == featDir + "/" + Stem(name) + ".h5"
  {
    ReplaceWavSuffix(Stem(name));
  }

  /** In one directory, two audio paths are equal exactly when the file names are. */
  lemma WavPathInjective(wavDir: string, a: string, b: string)
    ensures WavPath(wavDir, a) == WavPath(wavDir, b) <==> a == b
  {
    assert WavPath(wavDir, a)[|wavDir| + 1..] == a;
    assert WavPath(wavDir, b)[|wavDir| + 1..] == b;
  }

  /** For a file name `stem.wav` whose stem does not mention `.wav`, the feature file is
      `stem.h5` in the feature directory, and the audio file is `stem.wav` in the audio
      directory: the pair shares the stem and differs only in directory and extension. */
  lemma PairSharesStem(wavDir: string, featDir: string, stem: string)
    requires !Occurs(stem, ".wav")
    ensures WavPath(wavDir, stem + ".wav") == wavDir + "/" + stem + ".wav"
    ensures FeatPath(featDir, stem + ".wav") == featDir + "/" + stem + ".h5"
  {
    var name := stem + ".wav";
    assert name[..|name| - 4] == stem;
    FeatPathOfWavName(featDir, name);
  }

  /** `wav_list` before shuffling. */
  function WavList(l: Listing): (r: seq<string>)
    ensures |r| == |l.names|
    ensures forall i :: 0 <= i < |r| ==> r[i] == WavPath(l.wavDir, l.names[i])
  {
    seq(|l.names|, i requires 0 <= i < |l.names| => WavPath(l.wavDir, l.names[i]))
  }

  /** `feat_list` before shuffling. */
  function FeatList(l: Listing): (r: seq<string>)
    ensures |r| == |l.names|
    ensures forall i :: 0 <= i < |r| ==> r[i] == FeatPath(l.featDir, l.names[i])
  {
    seq(|l.names|, i requires 0 <= i < |l.names| => FeatPath(l.featDir, l.names[i]))
  }

  /** The corpus entries: one (audio path, feature path) pair per file name, in sorted order. */
  function Entries(l: Listing): (r: seq<(string, string)>)
    ensures |r| == |l.names|
    ensures forall i :: 0 <= i < |r| ==> r[i] == (WavPath(l.wavDir, l.names[i]), FeatPath(l.featDir, l.names[i]))
  {
    Zip(WavList(l), FeatList(l))
  }

  /** Two audio paths of the listing are equal exactly when their file names are. */
  lemma WavListInjective(l: Listing, i: nat, j: nat)
    requires i < |l.names| && j < |l.names|
    ensures WavList(l)[i] == WavList(l)[j] <==> l.names[i] == l.names[j]
  {
    WavPathInjective(l.wavDir, l.names[i], l.names[j]);
  }

  /** The entry of a file name `stem.wav` pairs `wav_dir/stem.wav` with `feat_dir/stem.h5`. */
  lemma EntryOfWavName(l: Listing, i: nat)
    requires i < |l.names| && IsWavName(l.names[i])
    ensures Entries(l)[i] == (l.wavDir + "/" + Stem(l.names[i]) + ".wav", l.featDir + "/" + Stem(l.names[i]) + ".h5")
  {
    var stem := Stem(l.names[i]);
    PairSharesStem(l.wavDir, l.featDir, stem);
  }

  /** An audio path determines its feature path: two entries with the same audio path have
      the same feature path, so the pairing is a function from audio files to features. */
  lemma EntriesPairFunctionally(l: Listing, i: nat, j: nat)
    requires i < |Entries(l)| && j < |Entries(l)|
    ensures Entries(l)[i].0 == Entries(l)[j].0 ==> Entries(l)[i].1 == Entries(l)[j].1
  {
    WavListInjective(l, i, j);
  }

  /** Shuffling (train.py lines 44-46 and 101-103): the same index list `idx`, a permutation
      of `range(n_files)`, reorders both parallel lists. Position `k` of both results comes
      from the same position `idx[k]`, so every audio path keeps its feature path, and the
      collection of pairs is unchanged. */
  function Shuffle(wavs: seq<string>, feats: seq<string>, idx: seq<nat>): (r: (seq<string>, seq<string>))
    requires |wavs| == |feats|
    requires IsPermutation(idx, |wavs|)
    ensures |idx| == |r.0| == |r.1| == |wavs|
    ensures forall k :: 0 <= k < |wavs| ==> idx[k] < |wavs| && (r.0[k], r.1[k]) == (wavs[idx[k]], feats[idx[k]])
    ensures multiset(Zip(r.0, r.1)) == multiset(Zip(wavs, feats))
  {
    PermutationInBounds(idx, |wavs|);
    PermuteZip(wavs, feats, idx);
    PermutePreservesMultiset(Zip(wavs, feats), idx);
    (Permute(wavs, idx), Permute(feats, idx))
  }
}
