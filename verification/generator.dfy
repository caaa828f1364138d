/** `custom_generator` as an explicit state machine. The Python generator suspends at each
    `yield`; here its suspended state is a `State` record and one resumption is `NextBatch`,
    which repeats the small step `Step` (emit a window, load the next file, or start a new
    pass over a reshuffled corpus) until a batch comes out. */
module Generator {
  import opened Results
  import opened Seqs
  import opened Align
  import opened Corpus
  import opened Windowing
  import opened Resumption

  /** Everything the generator is given or reaches outside itself. Reading audio and feature
      files and drawing random permutations are parameters: `draw(d)` is the permutation
      returned by the `d`-th call of `np.random.permutation` (call 0 is the initial shuffle). */
  datatype Config<!S, !F> = Config(
    listing: Listing,
    receptiveField: nat,
    batchSize: Option<nat>,
    shuffle: bool,
    useSpeakerCode: bool,
    wavTransform: S -> S,
    featTransform: seq<F> -> seq<F>,
    readWav: string -> seq<S>,
    readFeat: string -> seq<seq<F>>,
    readSpeakerCode: string -> seq<F>,
    draw: nat -> seq<nat>)

  /** Every draw is a permutation of the file indices, as `np.random.permutation(n_files)` is. */
  ghost predicate ValidConfig<S, F>(cfg: Config<S, F>)
  {
    cfg.shuffle ==> forall d: nat :: IsPermutation(cfg.draw(d), |cfg.listing.names|)
  }

  /** The generator's suspended state: the current order of the two path lists, the position
      of the next file in it, the rolling buffer pair of fixed-batch mode, and the number of
      permutations drawn so far. */
  datatype State<S, F> = State(
    wavs: seq<string>,
    feats: seq<string>,
    cursor: nat,
    xBuf: seq<S>,
    hBuf: seq<seq<F>>,
    draws: nat)

  /** The state keeps one entry per file name, every audio path still paired with its own
      feature path, and buffers of equal length. */
  predicate Inv<S, F>(cfg: Config<S, F>, st: State<S, F>)
  {
    && |st.wavs| == |st.feats| == |cfg.listing.names|
    && multiset(Zip(st.wavs, st.feats)) == multiset(Entries(cfg.listing))
    && st.cursor <= |st.wavs|
    && |st.xBuf| == |st.hBuf|
  }

  /** The number of samples in a window in fixed-batch mode. */
  function WindowLength<S, F>(cfg: Config<S, F>): (len: nat)
    requires cfg.batchSize.Some?
  {
    cfg.receptiveField + cfg.batchSize.value
  }

  /** What every yielded batch satisfies: input, features and target have equal length, the
      target is the input shifted by one, and in fixed-batch mode the length is one less than
      the window length. */
  ghost predicate WellFormed<S, F>(cfg: Config<S, F>, b: Batch<S, F>)
  {
    && |b.input| == |b.target| == |b.feat|
    && (forall i :: 0 <= i && i + 1 < |b.input| ==> b.target[i] == b.input[i + 1])
    && (cfg.batchSize.Some? ==>
          |b.input| == if WindowLength(cfg) == 0 then 0 else WindowLength(cfg) - 1)
  }

  /** The generator before its first batch: the path lists in sorted order, shuffled once by
      the first draw when shuffling is on (train.py lines 37-46). */
  function Start<S, F>(cfg: Config<S, F>): (st: State<S, F>)
    requires ValidConfig(cfg)
    ensures Inv(cfg, st)
    ensures st.cursor == 0 && st.xBuf == [] && st.hBuf == []
    ensures !cfg.shuffle ==> st.wavs == WavList(cfg.listing) && st.feats == FeatList(cfg.listing)
    ensures cfg.shuffle ==> forall k :: 0 <= k < |st.wavs| ==>
      cfg.draw(0)[k] < |cfg.listing.names| &&
      st.wavs[k] == WavPath(cfg.listing.wavDir, cfg.listing.names[cfg.draw(0)[k]]) &&
      st.feats[k] == FeatPath(cfg.listing.featDir, cfg.listing.names[cfg.draw(0)[k]])
  {
    var wavs, feats := WavList(cfg.listing), FeatList(cfg.listing);
    if cfg.shuffle then
      var shuffled := Shuffle(wavs, feats, cfg.draw(0));
      State(shuffled.0, shuffled.1, 0, [], [], 1)
    else
      State(wavs, feats, 0, [], [], 0)
  }

  /** Loads one file pair (train.py lines 51-59): reads audio and features, appends the
      speaker code to every frame when enabled, then aligns the lengths. */
  function Load<S, F>(cfg: Config<S, F>, wav: string, feat: string): (r: (seq<S>, seq<seq<F>>))
    ensures |r.0| == |r.1| == Min(|cfg.readWav(wav)|, |cfg.readFeat(feat)|)
    ensures r.0 == cfg.readWav(wav)[..|r.0|]
    ensures forall i :: 0 <= i < |r.1| ==>
      r.1[i] == if cfg.useSpeakerCode then cfg.readFeat(feat)[i] + cfg.readSpeakerCode(feat)
                else cfg.readFeat(feat)[i]
  {
    var x := cfg.readWav(wav);
    var h := cfg.readFeat(feat);
    var h' := if cfg.useSpeakerCode then AppendSpeakerCode(h, cfg.readSpeakerCode(feat)) else h;
    ValidateLength(x, h')
  }

  /** End of a pass (train.py lines 99-103): the cursor returns to the first file, and when
      shuffling is on both path lists are reordered by the next draw. */
  function Reshuffle<S, F>(cfg: Config<S, F>, st: State<S, F>): (st': State<S, F>)
    requires ValidConfig(cfg) && Inv(cfg, st)
    ensures Inv(cfg, st')
    ensures st'.cursor == 0 && st'.xBuf == st.xBuf && st'.hBuf == st.hBuf
    ensures !cfg.shuffle ==> st' == st.(cursor := 0)
    ensures cfg.shuffle ==> st'.draws == st.draws + 1 && forall k :: 0 <= k < |st.wavs| ==>
      cfg.draw(st.draws)[k] < |st.wavs| &&
      (st'.wavs[k], st'.feats[k]) == (st.wavs[cfg.draw(st.draws)[k]], st.feats[cfg.draw(st.draws)[k]])
  {
    if cfg.shuffle then
      var shuffled := Shuffle(st.wavs, st.feats, cfg.draw(st.draws));
      st.(wavs := shuffled.0, feats := shuffled.1, cursor := 0, draws := st.draws + 1)
    else
      st.(cursor := 0)
  }

  /** Fixed-batch mode has a window ready in its buffer. */
  predicate WindowReady<S, F>(cfg: Config<S, F>, st: State<S, F>)
  {
    cfg.batchSize.Some? && |st.xBuf| > WindowLength(cfg)
  }

  /** One step of the generator. In fixed-batch mode it emits the window at the head of the
      buffer and advances the buffer by the batch size (lines 68-84), or, when the buffer is
      too short, loads the next file into a fresh buffer; in whole-utterance mode it loads the
      next file and emits it whole (lines 87-97). Past the last file it starts a new pass. */
  function Step<S, F>(cfg: Config<S, F>, st: State<S, F>): (r: (State<S, F>, Option<Batch<S, F>>))
    requires ValidConfig(cfg) && Inv(cfg, st)
    ensures Inv(cfg, r.0)
    ensures r.1.Some? <==> WindowReady(cfg, st) || (cfg.batchSize.None? && st.cursor < |st.wavs|)
    ensures r.1.Some? ==> WellFormed(cfg, r.1.value)
  {
    match cfg.batchSize
    case Some(b) =>
      var w := cfg.receptiveField + b;
      if |st.xBuf| > w then
        var batch := MakeBatch(st.xBuf[..w], st.hBuf[..w], cfg.wavTransform, cfg.featTransform);
        (st.(xBuf := st.xBuf[b..], hBuf := st.hBuf[b..]), Some(batch))
      else if st.cursor < |st.wavs| then
        var loaded := Load(cfg, st.wavs[st.cursor], st.feats[st.cursor]);
        (st.(cursor := st.cursor + 1, xBuf := loaded.0, hBuf := loaded.1), None)
      else
        (Reshuffle(cfg, st), None)
    case None =>
      if st.cursor < |st.wavs| then
        var loaded := Load(cfg, st.wavs[st.cursor], st.feats[st.cursor]);
        var batch := MakeBatch(loaded.0, loaded.1, cfg.wavTransform, cfg.featTransform);
        (st.(cursor := st.cursor + 1), Some(batch))
      else
        (Reshuffle(cfg, st), None)
  }

  /** Resumes the generator until it yields, taking at most `fuel` steps. */
  function NextBatch<S, F>(cfg: Config<S, F>, st: State<S, F>, fuel: nat): (r: Option<(Batch<S, F>, State<S, F>)>)
    requires ValidConfig(cfg) && Inv(cfg, st)
    ensures r.Some? ==> Inv(cfg, r.value.1) && WellFormed(cfg, r.value.0)
    decreases fuel
  {
    if fuel == 0 then None
    else
      var next := Step(cfg, st);
      match next.1
      case Some(batch) => Some((batch, next.0))
      case None => NextBatch(cfg, next.0, fuel - 1)
  }

  /** Runs `m` steps and collects what they yield, in order. */
  function Run<S, F>(cfg: Config<S, F>, st: State<S, F>, m: nat): (r: (State<S, F>, seq<Batch<S, F>>))
    requires ValidConfig(cfg) && Inv(cfg, st)
    ensures Inv(cfg, r.0)
    ensures |r.1| <= m
    ensures forall k :: 0 <= k < |r.1| ==> WellFormed(cfg, r.1[k])
    decreases m
  {
    if m == 0 then (st, [])
    else
      var next := Step(cfg, st);
      var rest := Run(cfg, next.0, m - 1);
      match next.1
      case None => rest
      case Some(batch) => (rest.0, [batch] + rest.1)
  }

  /** A step that yields nothing adds nothing to what the following steps yield. */
  lemma RunSkipping<S, F>(cfg: Config<S, F>, st: State<S, F>, m: nat)
    requires ValidConfig(cfg) && Inv(cfg, st)
    requires m > 0 && Step(cfg, st).1.None?
    ensures Run(cfg, st, m) == Run(cfg, Step(cfg, st).0, m - 1)
  {
  }

  /** The batches built from a list of aligned sample windows and frame windows, in order. */
  function WindowBatches<S, F>(cfg: Config<S, F>, xs: seq<seq<S>>, hs: seq<seq<seq<F>>>): (r: seq<Batch<S, F>>)
    requires |xs| == |hs|
    ensures |r| == |xs|
  {
    seq(|xs|, k requires 0 <= k < |xs| => MakeBatch(xs[k], hs[k], cfg.wavTransform, cfg.featTransform))
  }

  /** A step that yields puts its batch in front of what the following steps yield. */
  lemma RunYielding<S, F>(cfg: Config<S, F>, st: State<S, F>, m: nat)
    requires ValidConfig(cfg) && Inv(cfg, st)
    requires m > 0 && Step(cfg, st).1.Some?
    ensures Run(cfg, st, m).0 == Run(cfg, Step(cfg, st).0, m - 1).0
    ensures Run(cfg, st, m).1 == [Step(cfg, st).1.value] + Run(cfg, Step(cfg, st).0, m - 1).1
  {
  }

  lemma WindowBatchesCons<S, F>(cfg: Config<S, F>, xs: seq<seq<S>>, hs: seq<seq<seq<F>>>)
    requires |xs| == |hs| > 0
    ensures WindowBatches(cfg, xs, hs)
      == [MakeBatch(xs[0], hs[0], cfg.wavTransform, cfg.featTransform)] + WindowBatches(cfg, xs[1..], hs[1..])
  {
  }

  /** A step that yields nothing hands the rest of the budget to the following steps. */
  lemma NextBatchSkips<S, F>(cfg: Config<S, F>, st: State<S, F>, fuel: nat)
    requires ValidConfig(cfg) && Inv(cfg, st)
    requires fuel > 0 && Step(cfg, st).1.None?
    ensures NextBatch(cfg, st, fuel) == NextBatch(cfg, Step(cfg, st).0, fuel - 1)
  {
  }

  /** The generator's step as a total function on states. States outside the invariant,
      which the generator never reaches, stay where they are and yield nothing. */
  ghost function StepFn<S, F>(cfg: Config<S, F>): (f: State<S, F> -> (State<S, F>, Option<Batch<S, F>>))
    requires ValidConfig(cfg)
  {
    st => if Inv(cfg, st) then Step(cfg, st) else (st, None)
  }

  /** One step of `Run` and of the generic run agree: they agree from `st` once they agree
      from the state `next` that the first step reaches. */
  lemma RunStepsStep<S, F>(cfg: Config<S, F>, st: State<S, F>, m: nat) returns (next: State<S, F>)
    requires ValidConfig(cfg) && Inv(cfg, st) && m > 0
    ensures Inv(cfg, next)
    ensures Run(cfg, next, m - 1) == Steps(StepFn(cfg), next, m - 1) ==>
      Run(cfg, st, m) == Steps(StepFn(cfg), st, m)
  {
    var step := Step(cfg, st);
    next := step.0;
    assert StepFn(cfg)(st) == step;
    if step.1.Some? {
      RunYielding(cfg, st, m);
    } else {
      RunSkipping(cfg, st, m);
    }
  }

  /** `Run` is the generic run of steps for the generator's step function. */
  lemma RunIsSteps<S, F>(cfg: Config<S, F>, st: State<S, F>, m: nat)
    requires ValidConfig(cfg) && Inv(cfg, st)
    ensures Run(cfg, st, m) == Steps(StepFn(cfg), st, m)
    decreases m
  {
    if m > 0 {
      var next := RunStepsStep(cfg, st, m);
      RunIsSteps(cfg, next, m - 1);
    }
  }

  /** One step of `NextBatch` and of the generic resumption agree: they agree from `st`
      once they agree from the state `next` that the first step reaches. */
  lemma NextBatchResumeStep<S, F>(cfg: Config<S, F>, st: State<S, F>, fuel: nat) returns (next: State<S, F>)
    requires ValidConfig(cfg) && Inv(cfg, st) && fuel > 0
    ensures Inv(cfg, next)
    ensures NextBatch(cfg, next, fuel - 1) == Resume(StepFn(cfg), next, fuel - 1) ==>
      NextBatch(cfg, st, fuel) == Resume(StepFn(cfg), st, fuel)
  {
    next := Step(cfg, st).0;
    assert StepFn(cfg)(st) == Step(cfg, st);
  }

  /** `NextBatch` is the generic resumption for the generator's step function. */
  lemma NextBatchIsResume<S, F>(cfg: Config<S, F>, st: State<S, F>, fuel: nat)
    requires ValidConfig(cfg) && Inv(cfg, st)
    ensures NextBatch(cfg, st, fuel) == Resume(StepFn(cfg), st, fuel)
    decreases fuel
  {
    if fuel > 0 {
      var next := NextBatchResumeStep(cfg, st, fuel);
      NextBatchIsResume(cfg, next, fuel - 1);
    }
  }

  /** A resumption of the generator is a run of the small steps: the batch `NextBatch`
      returns is the one and only batch that the first `m` steps yield, for the number `m`
      of steps it took, and it stops in the state those steps reach. */
  lemma NextBatchIsRun<S, F>(cfg: Config<S, F>, st: State<S, F>, fuel: nat) returns (m: nat)
    requires ValidConfig(cfg) && Inv(cfg, st)
    requires NextBatch(cfg, st, fuel).Some?
    ensures 1 <= m <= fuel
    ensures Run(cfg, st, m) == (NextBatch(cfg, st, fuel).value.1, [NextBatch(cfg, st, fuel).value.0])
  {
    NextBatchIsResume(cfg, st, fuel);
    m := ResumeIsSteps(StepFn(cfg), st, fuel);
    RunIsSteps(cfg, st, m);
  }

  /** In fixed-batch mode a buffer longer than the window length yields its first window and
      advances by one batch size. */
  lemma WindowStep<S, F>(cfg: Config<S, F>, st: State<S, F>)
    requires ValidConfig(cfg) && Inv(cfg, st) && cfg.batchSize.Some?
    requires |st.xBuf| > WindowLength(cfg)
    ensures var b, w := cfg.batchSize.value, WindowLength(cfg);
      Step(cfg, st) == (st.(xBuf := st.xBuf[b..], hBuf := st.hBuf[b..]),
                        Some(MakeBatch(st.xBuf[..w], st.hBuf[..w], cfg.wavTransform, cfg.featTransform)))
  {
  }

  /** Running from a buffer with a window ready yields that window's batch first, then what
      the remaining steps yield from the buffer advanced by one batch size. */
  lemma RunWindow<S, F>(cfg: Config<S, F>, st: State<S, F>, n: nat)
    requires ValidConfig(cfg) && Inv(cfg, st) && cfg.batchSize.Some?
    requires |st.xBuf| > WindowLength(cfg) && n > 0
    ensures var b, w := cfg.batchSize.value, WindowLength(cfg);
      var st1 := st.(xBuf := st.xBuf[b..], hBuf := st.hBuf[b..]);
      && Inv(cfg, st1)
      && Run(cfg, st, n) == (Run(cfg, st1, n - 1).0,
                             [MakeBatch(st.xBuf[..w], st.hBuf[..w], cfg.wavTransform, cfg.featTransform)] + Run(cfg, st1, n - 1).1)
  {
    WindowStep(cfg, st);
    RunYielding(cfg, st, n);
  }

  /** The state with both buffers advanced by `k` entries (`x_buffer[k:]`, `h_buffer[k:]`). */
  function Advance<S, F>(st: State<S, F>, k: nat): (r: State<S, F>)
  {
    st.(xBuf := From(st.xBuf, k), hBuf := From(st.hBuf, k))
  }

  /** Advancing by `b` and then by `n - 1` times `b` is advancing by `n` times `b`. */
  lemma AdvanceTwice<S, F>(st: State<S, F>, b: nat, n: nat)
    requires b <= |st.xBuf| && b <= |st.hBuf| && n > 0
    ensures Advance(st.(xBuf := st.xBuf[b..], hBuf := st.hBuf[b..]), WindowStart(n - 1, b)) == Advance(st, WindowStart(n, b))
  {
    assert (n - 1) * b + b == n * b;
  }

  /** Draining a loaded buffer in fixed-batch mode: the next `n` steps, `n` the number of
      windows of the buffer, yield exactly the batches of those windows in order and leave the
      buffer advanced by `n` batch sizes; nothing else in the state changes. */
  lemma DrainEmitsWindows<S, F>(cfg: Config<S, F>, st: State<S, F>)
    requires ValidConfig(cfg) && Inv(cfg, st)
    requires cfg.batchSize.Some? && cfg.batchSize.value > 0
    ensures var b, r := cfg.batchSize.value, cfg.receptiveField;
      var xs, hs := Windows(st.xBuf, r, b), Windows(st.hBuf, r, b);
      && |xs| == |hs|
      && Run(cfg, st, |xs|).1 == WindowBatches(cfg, xs, hs)
      && Run(cfg, st, |xs|).0 == Advance(st, WindowStart(|xs|, b))
  {
    DrainBatches(cfg, st);
    DrainState(cfg, st);
  }

  /** The batches part of `DrainEmitsWindows`. */
  lemma {:induction false} DrainBatches<S, F>(cfg: Config<S, F>, st: State<S, F>)
    requires ValidConfig(cfg) && Inv(cfg, st)
    requires cfg.batchSize.Some? && cfg.batchSize.value > 0
    ensures var b, r := cfg.batchSize.value, cfg.receptiveField;
      var xs, hs := Windows(st.xBuf, r, b), Windows(st.hBuf, r, b);
      && |xs| == |hs|
      && Run(cfg, st, |xs|).1 == WindowBatches(cfg, xs, hs)
    decreases |st.xBuf|
  {
    var b, r := cfg.batchSize.value, cfg.receptiveField;
    var xs, hs := Windows(st.xBuf, r, b), Windows(st.hBuf, r, b);
    if |st.xBuf| > r + b {
      var st1 := st.(xBuf := st.xBuf[b..], hBuf := st.hBuf[b..]);
      var n := |xs|;
      WindowsCons(st.xBuf, r, b);
      WindowsCons(st.hBuf, r, b);
      assert xs[0] == st.xBuf[..r + b] && xs[1..] == Windows(st1.xBuf, r, b);
      assert hs[0] == st.hBuf[..r + b] && hs[1..] == Windows(st1.hBuf, r, b);
      RunWindow(cfg, st, n);
      DrainBatches(cfg, st1);
      WindowBatchesCons(cfg, xs, hs);
    } else {
      assert |xs| == 0 && |hs| == 0;
    }
  }

  /** The state part of `DrainEmitsWindows`. */
  lemma {:induction false} DrainState<S, F>(cfg: Config<S, F>, st: State<S, F>)
    requires ValidConfig(cfg) && Inv(cfg, st)
    requires cfg.batchSize.Some? && cfg.batchSize.value > 0
    ensures var b, r := cfg.batchSize.value, cfg.receptiveField;
      var n := |Windows(st.xBuf, r, b)|;
      Run(cfg, st, n).0 == Advance(st, WindowStart(n, b))
    decreases |st.xBuf|
  {
    var b, r := cfg.batchSize.value, cfg.receptiveField;
    var n := |Windows(st.xBuf, r, b)|;
    if |st.xBuf| > r + b {
      var st1 := st.(xBuf := st.xBuf[b..], hBuf := st.hBuf[b..]);
      WindowsCons(st.xBuf, r, b);
      assert |Windows(st1.xBuf, r, b)| == n - 1;
      RunWindow(cfg, st, n);
      DrainState(cfg, st1);
      AdvanceTwice(st, b, n);
    }
  }

  /** In whole-utterance mode every step before the end of a pass yields one batch built from
      the whole aligned utterance of the next file: its input and target run over all aligned
      samples, shifted by one, and its features are the transformed aligned frames without the
      last one. */
  lemma WholeUtteranceBatch<S, F>(cfg: Config<S, F>, st: State<S, F>)
    requires ValidConfig(cfg) && Inv(cfg, st)
    requires cfg.batchSize.None? && st.cursor < |st.wavs|
    ensures var next := Step(cfg, st);
      var x := cfg.readWav(st.wavs[st.cursor]);
      var n := Min(|x|, |cfg.readFeat(st.feats[st.cursor])|);
      var loaded := Load(cfg, st.wavs[st.cursor], st.feats[st.cursor]);
      && next.1.Some?
      && next.0 == st.(cursor := st.cursor + 1)
      && |next.1.value.input| == (if n == 0 then 0 else n - 1)
      && (forall i :: 0 <= i < |next.1.value.input| ==>
            next.1.value.input[i] == cfg.wavTransform(x[i]) &&
            next.1.value.target[i] == cfg.wavTransform(x[i + 1]))
      && next.1.value == MakeBatch(loaded.0, loaded.1, cfg.wavTransform, cfg.featTransform)
      && |next.1.value.feat| == |next.1.value.input|
      && (forall i :: 0 <= i < |next.1.value.feat| ==> next.1.value.feat[i] == cfg.featTransform(loaded.1[i]))
  {
  }

  /** Past the last file, with no window left in the buffer, a step yields nothing and starts
      the next pass at the first file of an order reshuffled by the next draw. */
  lemma EndOfPass<S, F>(cfg: Config<S, F>, st: State<S, F>)
    requires ValidConfig(cfg) && Inv(cfg, st)
    requires st.cursor == |st.wavs| && !WindowReady(cfg, st)
    ensures var next := Step(cfg, st);
      && next.1.None?
      && next.0.cursor == 0
      && (cfg.shuffle ==> forall k :: 0 <= k < |st.wavs| ==>
            cfg.draw(st.draws)[k] < |st.wavs| &&
            next.0.wavs[k] == st.wavs[cfg.draw(st.draws)[k]] &&
            next.0.feats[k] == st.feats[cfg.draw(st.draws)[k]])
      && (!cfg.shuffle ==> next.0.wavs == st.wavs && next.0.feats == st.feats)
  {
  }

  /** A file pair whose aligned length exceeds the window length in fixed-batch mode. Tiling
      the speaker code keeps the frame count, so the aligned length is the shorter of the
      sample count and the frame count. */
  ghost predicate Long<S, F>(cfg: Config<S, F>, wav: string, feat: string)
  {
    cfg.batchSize.Some? && Min(|cfg.readWav(wav)|, |cfg.readFeat(feat)|) > WindowLength(cfg)
  }

  /** The corpus can feed the generator: in fixed-batch mode some file pair is long enough for
      a window, in whole-utterance mode there is at least one file. */
  ghost predicate HasWork<S, F>(cfg: Config<S, F>)
  {
    var l := cfg.listing;
    if cfg.batchSize.Some? then
      exists i :: 0 <= i < |l.names| && Long(cfg, WavPath(l.wavDir, l.names[i]), FeatPath(l.featDir, l.names[i]))
    else
      |l.names| > 0
  }

  /** Steps enough for one batch from any state of a corpus that can feed the generator: the
      rest of the current pass, one reshuffle, and one further pass. */
  function Fuel<S, F>(cfg: Config<S, F>): (fuel: nat)
  {
    2 * |cfg.listing.names| + 2
  }

  /** In fixed-batch mode with no window ready, a step before the end of the pass loads the
      next file into a fresh buffer and yields nothing; the buffer then has a window exactly
      when the file is long. */
  lemma LoadStep<S, F>(cfg: Config<S, F>, st: State<S, F>)
    requires ValidConfig(cfg) && Inv(cfg, st) && cfg.batchSize.Some?
    requires !WindowReady(cfg, st) && st.cursor < |st.wavs|
    ensures var loaded := Load(cfg, st.wavs[st.cursor], st.feats[st.cursor]);
      && Step(cfg, st) == (st.(cursor := st.cursor + 1, xBuf := loaded.0, hBuf := loaded.1), None)
      && (WindowReady(cfg, Step(cfg, st).0) <==> Long(cfg, st.wavs[st.cursor], st.feats[st.cursor]))
  {
  }

  /** Whatever the shuffles did, the long file is still somewhere in the current order. */
  lemma LongPresent<S, F>(cfg: Config<S, F>, st: State<S, F>) returns (j: nat)
    requires Inv(cfg, st) && cfg.batchSize.Some? && HasWork(cfg)
    ensures j < |st.wavs| && Long(cfg, st.wavs[j], st.feats[j])
  {
    var l := cfg.listing;
    var i :| 0 <= i < |l.names| && Long(cfg, WavPath(l.wavDir, l.names[i]), FeatPath(l.featDir, l.names[i]));
    var e := Entries(l)[i];
    assert e in multiset(Entries(l));
    assert e in multiset(Zip(st.wavs, st.feats));
    var k :| 0 <= k < |st.wavs| && Zip(st.wavs, st.feats)[k] == e;
    j := k;
  }

  /** Every pair in the current order is one of the corpus entries. */
  lemma PairIsEntry<S, F>(cfg: Config<S, F>, st: State<S, F>, j: nat) returns (i: nat)
    requires Inv(cfg, st) && j < |st.wavs|
    ensures i < |cfg.listing.names|
    ensures st.wavs[j] == WavPath(cfg.listing.wavDir, cfg.listing.names[i])
    ensures st.feats[j] == FeatPath(cfg.listing.featDir, cfg.listing.names[i])
  {
    var e := Zip(st.wavs, st.feats)[j];
    assert e in multiset(Zip(st.wavs, st.feats));
    assert e in multiset(Entries(cfg.listing));
    var k :| 0 <= k < |Entries(cfg.listing)| && Entries(cfg.listing)[k] == e;
    i := k;
  }

  /** Loading the next file in fixed-batch mode keeps the order and the draws, moves the
      cursor on by one, and leaves a window ready exactly when the file is long. */
  lemma SkipLoad<S, F>(cfg: Config<S, F>, st: State<S, F>, fuel: nat) returns (next: State<S, F>)
    requires ValidConfig(cfg) && Inv(cfg, st) && cfg.batchSize.Some?
    requires !WindowReady(cfg, st) && st.cursor < |st.wavs| && fuel > 0
    ensures Inv(cfg, next)
    ensures next.wavs == st.wavs && next.feats == st.feats && next.cursor == st.cursor + 1
    ensures WindowReady(cfg, next) <==> Long(cfg, st.wavs[st.cursor], st.feats[st.cursor])
    ensures NextBatch(cfg, st, fuel) == NextBatch(cfg, next, fuel - 1)
  {
    LoadStep(cfg, st);
    next := Step(cfg, st).0;
    NextBatchSkips(cfg, st, fuel);
  }

  /** A ready window comes out at the next step. */
  lemma ReadyYields<S, F>(cfg: Config<S, F>, st: State<S, F>, fuel: nat)
    requires ValidConfig(cfg) && Inv(cfg, st)
    requires WindowReady(cfg, st) && fuel > 0
    ensures NextBatch(cfg, st, fuel).Some?
  {
    assert Step(cfg, st).1.Some?;
  }

  /** With no window ready and a long file at position `j` of the current pass, a batch comes
      out within `j - cursor + 2` steps. */
  lemma ReachLong<S, F>(cfg: Config<S, F>, st: State<S, F>, j: nat, fuel: nat)
    requires ValidConfig(cfg) && Inv(cfg, st) && cfg.batchSize.Some?
    requires !WindowReady(cfg, st)
    requires st.cursor <= j < |st.wavs| && Long(cfg, st.wavs[j], st.feats[j])
    requires fuel >= j - st.cursor + 2
    ensures NextBatch(cfg, st, fuel).Some?
    decreases j - st.cursor
  {
    var next := SkipLoad(cfg, st, fuel);
    if WindowReady(cfg, next) {
      ReadyYields(cfg, next, fuel - 1);
    } else {
      assert st.cursor != j;
      ReachLong(cfg, next, j, fuel - 1);
    }
  }

  /** At the end of a pass with no window ready, a batch comes out after the reshuffle and at
      most one more pass. */
  lemma PassEndReaches<S, F>(cfg: Config<S, F>, st: State<S, F>, fuel: nat)
    requires ValidConfig(cfg) && Inv(cfg, st) && cfg.batchSize.Some? && HasWork(cfg)
    requires !WindowReady(cfg, st) && st.cursor == |st.wavs|
    requires fuel >= |st.wavs| + 2
    ensures NextBatch(cfg, st, fuel).Some?
  {
    var next := Step(cfg, st);
    NextBatchSkips(cfg, st, fuel);
    var j := LongPresent(cfg, next.0);
    ReachLong(cfg, next.0, j, fuel - 1);
  }

  /** With no window ready and no long file left in the current pass, a batch comes out after
      the rest of the pass, the reshuffle and at most one more pass. */
  lemma ReachNextPass<S, F>(cfg: Config<S, F>, st: State<S, F>, fuel: nat)
    requires ValidConfig(cfg) && Inv(cfg, st) && cfg.batchSize.Some? && HasWork(cfg)
    requires !WindowReady(cfg, st)
    requires forall j :: st.cursor <= j < |st.wavs| ==> !Long(cfg, st.wavs[j], st.feats[j])
    requires fuel >= (|st.wavs| - st.cursor) + |st.wavs| + 2
    ensures NextBatch(cfg, st, fuel).Some?
    decreases |st.wavs| - st.cursor
  {
    if st.cursor < |st.wavs| {
      var next := SkipLoad(cfg, st, fuel);
      assert fuel - 1 >= (|next.wavs| - next.cursor) + |next.wavs| + 2;
      assert forall j :: next.cursor <= j < |next.wavs| ==> !Long(cfg, next.wavs[j], next.feats[j]);
      ReachNextPass(cfg, next, fuel - 1);
    } else {
      PassEndReaches(cfg, st, fuel);
    }
  }

  /** The generator never stops producing: from any reachable state of a corpus that can feed
      it, resuming yields a batch within `Fuel(cfg)` steps. */
  lemma Productive<S, F>(cfg: Config<S, F>, st: State<S, F>)
    requires ValidConfig(cfg) && Inv(cfg, st) && HasWork(cfg)
    ensures NextBatch(cfg, st, Fuel(cfg)).Some?
  {
    var fuel := Fuel(cfg);
    if cfg.batchSize.None? {
      var next := Step(cfg, st);
      if st.cursor == |st.wavs| {
        assert NextBatch(cfg, st, fuel) == NextBatch(cfg, next.0, fuel - 1);
        assert Step(cfg, next.0).1.Some?;
      }
    } else if WindowReady(cfg, st) {
      assert Step(cfg, st).1.Some?;
    } else if j :| st.cursor <= j < |st.wavs| && Long(cfg, st.wavs[j], st.feats[j]) {
      ReachLong(cfg, st, j, fuel);
    } else {
      ReachNextPass(cfg, st, fuel);
    }
  }

  /** Conversely, a corpus that cannot feed the generator starves it: with no window ready,
      no number of steps yields a batch. */
  lemma {:induction false} Starves<S, F>(cfg: Config<S, F>, st: State<S, F>, fuel: nat)
    requires ValidConfig(cfg) && Inv(cfg, st) && !HasWork(cfg)
    requires !WindowReady(cfg, st)
    ensures NextBatch(cfg, st, fuel).None?
    decreases fuel
  {
    if fuel > 0 {
      var next := Step(cfg, st);
      assert next.1.None?;
      if cfg.batchSize.Some? && st.cursor < |st.wavs| {
        var i := PairIsEntry(cfg, st, st.cursor);
        assert !Long(cfg, st.wavs[st.cursor], st.feats[st.cursor]);
      }
      Starves(cfg, next.0, fuel - 1);
    }
  }

  /** A fresh generator yields its first batch exactly when the corpus can feed it. */
  lemma FirstBatchIff<S, F>(cfg: Config<S, F>)
    requires ValidConfig(cfg)
    ensures NextBatch(cfg, Start(cfg), Fuel(cfg)).Some? <==> HasWork(cfg)
  {
    if HasWork(cfg) {
      Productive(cfg, Start(cfg));
    } else {
      Starves(cfg, Start(cfg), Fuel(cfg));
    }
  }

  /** Pulls `count` batches in a row, as the training loop's `generator.next()` calls do. */
  function Take<S, F>(cfg: Config<S, F>, st: State<S, F>, count: nat): (r: Option<(seq<Batch<S, F>>, State<S, F>)>)
    requires ValidConfig(cfg) && Inv(cfg, st)
    ensures r.Some? ==> |r.value.0| == count && Inv(cfg, r.value.1)
    ensures r.Some? ==> forall k :: 0 <= k < count ==> WellFormed(cfg, r.value.0[k])
    decreases count
  {
    if count == 0 then Some(([], st))
    else
      match NextBatch(cfg, st, Fuel(cfg))
      case None => None
      case Some(first) =>
        match Take(cfg, first.1, count - 1)
        case None => None
        case Some(rest) => Some(([first.0] + rest.0, rest.1))
  }

  /** `Take` is the generic repetition of resumptions for the generator's step function. */
  lemma TakeIsRepeat<S, F>(cfg: Config<S, F>, st: State<S, F>, count: nat)
    requires ValidConfig(cfg) && Inv(cfg, st)
    ensures Take(cfg, st, count) == Repeat(StepFn(cfg), st, count, Fuel(cfg))
    decreases count
  {
    if count > 0 {
      NextBatchIsResume(cfg, st, Fuel(cfg));
      if NextBatch(cfg, st, Fuel(cfg)).Some? {
        TakeIsRepeat(cfg, NextBatch(cfg, st, Fuel(cfg)).value.1, count - 1);
      }
    }
  }

  /** Taking `count` batches is a run of the small steps: for the total number `m` of steps
      the resumptions took, at most `count` budgets, those steps yield exactly the batches
      taken, in order, and end in the state `Take` returns. */
  lemma TakeIsRun<S, F>(cfg: Config<S, F>, st: State<S, F>, count: nat) returns (m: nat)
    requires ValidConfig(cfg) && Inv(cfg, st)
    requires Take(cfg, st, count).Some?
    ensures m <= count * Fuel(cfg)
    ensures Run(cfg, st, m) == (Take(cfg, st, count).value.1, Take(cfg, st, count).value.0)
  {
    TakeIsRepeat(cfg, st, count);
    m := RepeatIsSteps(StepFn(cfg), st, count, Fuel(cfg));
    RunIsSteps(cfg, st, m);
  }

  /** Requesting any number of batches succeeds on a corpus that can feed the generator. */
  lemma {:induction false} Endless<S, F>(cfg: Config<S, F>, st: State<S, F>, count: nat)
    requires ValidConfig(cfg) && Inv(cfg, st) && HasWork(cfg)
    ensures Take(cfg, st, count).Some?
    decreases count
  {
    if count > 0 {
      Productive(cfg, st);
      Endless(cfg, NextBatch(cfg, st, Fuel(cfg)).value.1, count - 1);
    }
  }
}
