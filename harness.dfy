/**
 * The benchmark's main loop: sparse active indices, random training samples,
 * one shared record counter for the predictor, and the test-set score.
 *
 * The recognizer (spatial pooler) and the predictor (SDR classifier) are not
 * modelled; they are arbitrary functions given to the harness. The recognizer
 * sees the record number of the step it serves, so any sequence of answers a
 * stateful recognizer could give is one such function.
 */
module Harness {
  import opened Wrappers
  import opened Idx
  import opened Reader

  /** Training iterations. */
  const TRAIN_TIME: nat := 60000 * 1
  /** The only prediction horizon the predictor is configured with. */
  const HORIZON: int := 0

  /** What the recognizer computes: (call number, encoded image, learn) to a dense activity array. */
  type Recognizer = (nat, seq<nat>, bool) -> seq<nat>

  /** One entry of a predictor result: a horizon and a probability-like distribution over categories. */
  datatype Entry = Entry(horizon: int, pdf: seq<real>)

  /** Horizons strictly increase along the entries, as in an ordered map. */
  predicate IncreasingHorizons(entries: seq<Entry>)
  {
    |entries| <= 1
    || (&& entries[|entries| - 2].horizon < entries[|entries| - 1].horizon
        && IncreasingHorizons(entries[..|entries| - 1]))
  }

  /** A predictor result: its entries in iteration order, one per horizon. */
  type ClassifierResult = entries: seq<Entry> | IncreasingHorizons(entries) witness []

  /** The arguments of one call to the predictor. */
  datatype PredictorCall = PredictorCall(
    recordNum: nat,
    activeIndex: seq<nat>,
    bucketIdxList: seq<nat>,
    actValueList: seq<real>,
    category: bool,
    learn: bool,
    infer: bool)

  type Predictor = PredictorCall -> ClassifierResult

  // ---------------------------------------------------------------------------
  // Dense activity to sparse indices

  /** The positions of the non-zero entries of `a`, in scan order. */
  function NonzeroIndices(a: seq<nat>): (idx: seq<nat>)
    ensures |idx| <= |a|
  {
    if a == [] then []
    else NonzeroIndices(a[..|a| - 1]) + (if a[|a| - 1] != 0 then [|a| - 1] else [])
  }

  /**
   * The active indices increase strictly, are positions of the array, and hold
   * exactly the positions whose entry is non-zero.
   */
  lemma {:induction false} NonzeroIndicesSpec(a: seq<nat>)
    ensures forall j, k :: 0 <= j < k < |NonzeroIndices(a)| ==> NonzeroIndices(a)[j] < NonzeroIndices(a)[k]
    ensures forall k :: 0 <= k < |NonzeroIndices(a)| ==> NonzeroIndices(a)[k] < |a|
    ensures forall i :: 0 <= i < |a| ==> (a[i] != 0 <==> i in NonzeroIndices(a))
  {
    if a != [] {
      var front := a[..|a| - 1];
      NonzeroIndicesSpec(front);
      assert forall i :: 0 <= i < |front| ==> a[i] == front[i];
    }
  }

  /** The scan of the activity array that pushes every active column's index. */
  method ActiveIndices(activeArray: seq<nat>) returns (activeIndex: seq<nat>)
    ensures activeIndex == NonzeroIndices(activeArray)
  {
    activeIndex := [];
    var i := 0;
    while i < |activeArray|
      invariant 0 <= i <= |activeArray|
      invariant activeIndex == NonzeroIndices(activeArray[..i])
    {
      assert activeArray[..i + 1][..i] == activeArray[..i];
      if activeArray[i] != 0 {
        activeIndex := activeIndex + [i];
      }
      i := i + 1;
    }
    assert activeArray[..i] == activeArray;
  }

  // ---------------------------------------------------------------------------
  // Sampling and prediction

  /** The training sample drawn from a random number `rnd`: `rnd` modulo the number of labels. */
  function SampleIndex(rnd: nat, size: nat): (index: nat)
    requires size > 0
    ensures index < size
    ensures rnd < size ==> index == rnd
  {
    rnd % size
  }

  /** The position of the first maximal element, as `std::max_element` finds it; 0 when `pdf` is empty. */
  function ArgMax(pdf: seq<real>): (k: nat)
    ensures pdf == [] ==> k == 0
    ensures pdf != [] ==> k < |pdf|
  {
    if |pdf| <= 1 then 0
    else
      var k := ArgMax(pdf[..|pdf| - 1]);
      if pdf[|pdf| - 1] > pdf[k] then |pdf| - 1 else k
  }

  /** ArgMax is a maximum, and everything before it is strictly smaller. */
  lemma {:induction false} ArgMaxIsFirstMax(pdf: seq<real>)
    ensures forall j :: 0 <= j < |pdf| ==> pdf[j] <= pdf[ArgMax(pdf)]
    ensures forall j :: 0 <= j < ArgMax(pdf) ==> pdf[j] < pdf[ArgMax(pdf)]
  {
    if |pdf| > 1 {
      var front := pdf[..|pdf| - 1];
      ArgMaxIsFirstMax(front);
      assert forall j :: 0 <= j < |front| ==> pdf[j] == front[j];
    }
  }

  /** A position that is maximal and beats everything before it is the one ArgMax returns. */
  lemma ArgMaxUnique(pdf: seq<real>, c: nat)
    requires c < |pdf|
    requires forall j :: 0 <= j < |pdf| ==> pdf[j] <= pdf[c]
    requires forall j :: 0 <= j < c ==> pdf[j] < pdf[c]
    ensures ArgMax(pdf) == c
  {
    ArgMaxIsFirstMax(pdf);
  }

  /** The entries of a result that the test loop scores: those for horizon 0. */
  function SampleCount(result: seq<Entry>): (n: nat)
    ensures n <= |result|
  {
    if result == [] then 0
    else SampleCount(result[..|result| - 1]) + (if result[|result| - 1].horizon == HORIZON then 1 else 0)
  }

  /** The horizon-0 entries of a result whose first maximum is the label `truth`. */
  function HitCount(result: seq<Entry>, truth: nat): (n: nat)
    ensures n <= SampleCount(result)
  {
    if result == [] then 0
    else
      var e := result[|result| - 1];
      HitCount(result[..|result| - 1], truth) + (if e.horizon == HORIZON && ArgMax(e.pdf) == truth then 1 else 0)
  }

  /** A result has no horizon-0 entry exactly when none of its entries is for horizon 0. */
  lemma {:induction false} NoSampleIffNoHorizon(result: seq<Entry>)
    ensures SampleCount(result) == 0 <==> forall k :: 0 <= k < |result| ==> result[k].horizon != HORIZON
  {
    if result != [] {
      var front := result[..|result| - 1];
      NoSampleIffNoHorizon(front);
      assert forall k :: 0 <= k < |front| ==> front[k] == result[k];
    }
  }

  /** In an increasing result every entry before the last has a smaller horizon than the last. */
  lemma {:induction false} BelowLast(result: seq<Entry>)
    requires IncreasingHorizons(result)
    ensures forall k :: 0 <= k < |result| - 1 ==> result[k].horizon < result[|result| - 1].horizon
  {
    if |result| > 1 {
      var front := result[..|result| - 1];
      BelowLast(front);
      assert forall k :: 0 <= k < |front| ==> front[k] == result[k];
    }
  }

  /** A result whose horizons increase, as a map's entries do, has at most one horizon-0 entry. */
  lemma {:induction false} OneSamplePerResult(result: seq<Entry>)
    requires IncreasingHorizons(result)
    ensures SampleCount(result) <= 1
  {
    if result != [] {
      var front := result[..|result| - 1];
      OneSamplePerResult(front);
      if result[|result| - 1].horizon == HORIZON {
        BelowLast(result);
        NoSampleIffNoHorizon(front);
        assert forall k :: 0 <= k < |front| ==> front[k] == result[k];
      }
    }
  }

  /** Such a result is scored exactly once when it has an entry for horizon 0, and not at all otherwise. */
  lemma SampledIffHorizon(result: seq<Entry>)
    requires IncreasingHorizons(result)
    ensures SampleCount(result) == 1 <==> exists k :: 0 <= k < |result| && result[k].horizon == HORIZON
  {
    OneSamplePerResult(result);
    NoSampleIffNoHorizon(result);
  }

  /**
   * The check of one result: each entry is visited in order; an entry for
   * horizon 0 is one more sample, and one more hit when its first maximum is
   * the label `truth`.
   */
  method CheckResult(result: ClassifierResult, truth: nat) returns (hits: nat, samples: nat)
    ensures hits == HitCount(result, truth) && samples == SampleCount(result)
  {
    hits, samples := 0, 0;
    var i := 0;
    while i < |result|
      invariant 0 <= i <= |result|
      invariant hits == HitCount(result[..i], truth) && samples == SampleCount(result[..i])
    {
      assert result[..i + 1][..i] == result[..i];
      var entry := result[i];
      if entry.horizon == HORIZON {
        var pdf := entry.pdf;
        var cls := ArgMax(pdf);
        if cls == truth {
          hits := hits + 1;
        }
        samples := samples + 1;
      }
      i := i + 1;
    }
    assert result[..i] == result;
  }

  // ---------------------------------------------------------------------------
  // The calls the two loops make

  /** The predictor call of a training step on sample `index`: learn, do not infer. */
  function TrainingCall(recordNum: nat, index: nat, images: seq<seq<nat>>, labels: seq<nat>, sp: Recognizer): (c: PredictorCall)
    requires index < |labels| <= |images|
    ensures c.recordNum == recordNum && c.category && c.learn && !c.infer
    ensures |c.bucketIdxList| == 1 && c.bucketIdxList[0] == labels[index]
    ensures |c.actValueList| == 1 && c.actValueList[0] == labels[index] as real
  {
    PredictorCall(recordNum, NonzeroIndices(sp(recordNum, images[index], true)),
                  [labels[index]], [labels[index] as real], true, true, false)
  }

  /** The predictor call of a test step: no label, do not learn, infer. */
  function TestingCall(recordNum: nat, image: seq<nat>, sp: Recognizer): (c: PredictorCall)
    ensures c.recordNum == recordNum && c.category && !c.learn && c.infer
    ensures c.bucketIdxList == [] && c.actValueList == []
  {
    PredictorCall(recordNum, NonzeroIndices(sp(recordNum, image, false)), [], [], true, false, true)
  }

  /** The predictor calls of `n` training steps, the first one at record `first`. */
  function TrainingCalls(first: nat, n: nat, images: seq<seq<nat>>, labels: seq<nat>, rand: nat -> nat, sp: Recognizer): (cs: seq<PredictorCall>)
    requires n > 0 ==> |labels| > 0
    requires |labels| <= |images|
    ensures |cs| == n
  {
    if n == 0 then []
    else
      TrainingCalls(first, n - 1, images, labels, rand, sp)
      + [TrainingCall(first + n - 1, SampleIndex(rand(n - 1), |labels|), images, labels, sp)]
  }

  /**
   * Training step `k` learns the sample picked by the `k`-th random number,
   * under record number `first + k`.
   */
  lemma {:induction false} TrainingCallsSteps(first: nat, n: nat, images: seq<seq<nat>>, labels: seq<nat>, rand: nat -> nat, sp: Recognizer)
    requires n > 0 ==> |labels| > 0
    requires |labels| <= |images|
    ensures forall k :: 0 <= k < n ==>
              TrainingCalls(first, n, images, labels, rand, sp)[k]
              == TrainingCall(first + k, SampleIndex(rand(k), |labels|), images, labels, sp)
  {
    if n > 0 {
      TrainingCallsSteps(first, n - 1, images, labels, rand, sp);
    }
  }

  /** The predictor calls of the first `n` test steps, the first one at record `first`. */
  function TestingCalls(first: nat, n: nat, images: seq<seq<nat>>, sp: Recognizer): (cs: seq<PredictorCall>)
    requires n <= |images|
    ensures |cs| == n
  {
    if n == 0 then []
    else TestingCalls(first, n - 1, images, sp) + [TestingCall(first + n - 1, images[n - 1], sp)]
  }

  /** Test step `k` infers on image `k` in file order, without a label, under record number `first + k`. */
  lemma {:induction false} TestingCallsSteps(first: nat, n: nat, images: seq<seq<nat>>, sp: Recognizer)
    requires n <= |images|
    ensures forall k :: 0 <= k < n ==> TestingCalls(first, n, images, sp)[k] == TestingCall(first + k, images[k], sp)
  {
    if n > 0 {
      TestingCallsSteps(first, n - 1, images, sp);
    }
  }

  /**
   * Training and testing share one record counter: in the log of a run, the
   * call at position `k` carries record number `k`.
   */
  lemma RecordNumbersConsecutive(log: seq<PredictorCall>, trainTime: nat, trainImages: seq<seq<nat>>, trainLabels: seq<nat>,
                                 rand: nat -> nat, testImages: seq<seq<nat>>, nTests: nat, sp: Recognizer)
    requires trainTime > 0 ==> |trainLabels| > 0
    requires |trainLabels| <= |trainImages| && nTests <= |testImages|
    requires log == TrainingCalls(0, trainTime, trainImages, trainLabels, rand, sp) + TestingCalls(trainTime, nTests, testImages, sp)
    ensures forall k :: 0 <= k < |log| ==> log[k].recordNum == k
  {
    TrainingCallsSteps(0, trainTime, trainImages, trainLabels, rand, sp);
    TestingCallsSteps(trainTime, nTests, testImages, sp);
  }

  /** The predictor's answer to test step `k`, the first step being at record `first`. */
  function Answer(first: nat, k: nat, images: seq<seq<nat>>, sp: Recognizer, clsr: Predictor): (r: ClassifierResult)
    requires k < |images|
    ensures SampleCount(r) <= 1
  {
    var r := clsr(TestingCall(first + k, images[k], sp));
    OneSamplePerResult(r);
    r
  }

  /** The samples scored over the first `n` test steps: at most one per step. */
  function TestSamples(first: nat, n: nat, images: seq<seq<nat>>, sp: Recognizer, clsr: Predictor): (samples: nat)
    requires n <= |images|
    ensures samples <= n
  {
    if n == 0 then 0
    else
      TestSamples(first, n - 1, images, sp, clsr) + SampleCount(Answer(first, n - 1, images, sp, clsr))
  }

  /** The correct predictions over the first `n` test steps: never more than the samples scored. */
  function TestScore(first: nat, n: nat, images: seq<seq<nat>>, labels: seq<nat>, sp: Recognizer, clsr: Predictor): (score: nat)
    requires n <= |images| && n <= |labels|
    ensures score <= TestSamples(first, n, images, sp, clsr)
  {
    if n == 0 then 0
    else TestScore(first, n - 1, images, labels, sp, clsr) + HitCount(Answer(first, n - 1, images, sp, clsr), labels[n - 1])
  }

  /** When every answer has exactly one horizon-0 entry, every test step is scored once. */
  lemma {:induction false} OneSampleEach(first: nat, n: nat, images: seq<seq<nat>>, sp: Recognizer, clsr: Predictor)
    requires n <= |images|
    requires forall k :: 0 <= k < n ==> SampleCount(Answer(first, k, images, sp, clsr)) == 1
    ensures TestSamples(first, n, images, sp, clsr) == n
  {
    if n > 0 {
      OneSampleEach(first, n - 1, images, sp, clsr);
    }
  }

  /**
   * A predictor that always answers class 1 (its horizon-0 distribution peaks at
   * position 1) scores 2 of 4 on the labels 0, 1, 2, 1.
   */
  lemma ScoringExample(first: nat, images: seq<seq<nat>>, sp: Recognizer, clsr: Predictor)
    requires |images| == 4
    requires forall c :: clsr(c) == [Entry(HORIZON, [0.1, 0.7, 0.2])]
    ensures TestScore(first, 4, images, [0, 1, 2, 1], sp, clsr) == 2
    ensures TestSamples(first, 4, images, sp, clsr) == 4
  {
    var r := [Entry(HORIZON, [0.1, 0.7, 0.2])];
    ArgMaxUnique([0.1, 0.7, 0.2], 1);
    assert r[..0] == [];
    assert HitCount(r, 0) == 0 && HitCount(r, 1) == 1 && HitCount(r, 2) == 0 && SampleCount(r) == 1;
    var labels := [0, 1, 2, 1];
    assert forall k :: 0 <= k < 4 ==> Answer(first, k, images, sp, clsr) == r;
    assert TestSamples(first, 1, images, sp, clsr) == 1 && TestScore(first, 1, images, labels, sp, clsr) == 0;
    assert TestSamples(first, 2, images, sp, clsr) == 2 && TestScore(first, 2, images, labels, sp, clsr) == 1;
    assert TestSamples(first, 3, images, sp, clsr) == 3 && TestScore(first, 3, images, labels, sp, clsr) == 1;
  }

  // ---------------------------------------------------------------------------
  // The harness state

  /**
   * The state the training and test loops share: the record counter and, as a
   * record of what the predictor has been asked, every call made to it.
   */
  class Harness {
    /** The record number given to the next predictor call. */
    var recordNum: nat
    /** Every predictor call made so far, in order. */
    ghost var calls: seq<PredictorCall>

    /** One call per record used so far, call `k` made under record number `k`. */
    ghost predicate Valid()
      reads this
    {
      && |calls| == recordNum
      && forall k :: 0 <= k < |calls| ==> calls[k].recordNum == k
    }

    constructor ()
      ensures Valid()
      ensures recordNum == 0 && calls == []
    {
      recordNum, calls := 0, [];
    }

    /** `clsr.compute(recordNum++, ...)`: the call is made with the current record number, which then advances. */
    method Classify(clsr: Predictor, activeIndex: seq<nat>, bucketIdxList: seq<nat>, actValueList: seq<real>,
                    learn: bool, infer: bool) returns (result: ClassifierResult)
      requires Valid()
      modifies this
      ensures Valid()
      ensures recordNum == old(recordNum) + 1
      ensures calls == old(calls) + [PredictorCall(old(recordNum), activeIndex, bucketIdxList, actValueList, true, learn, infer)]
      ensures result == clsr(calls[old(recordNum)])
    {
      var call := PredictorCall(recordNum, activeIndex, bucketIdxList, actValueList, true, learn, infer);
      calls := calls + [call];
      recordNum := recordNum + 1;
      result := clsr(call);
    }

    /**
     * Training step `i`: draw the sample with the `i`-th random number, let the
     * recognizer learn on its image, and let the predictor learn its label, as
     * bucket and as value. The log grows from the calls of `i` steps to those
     * of `i + 1`.
     */
    method TrainStep(ghost first: nat, ghost calls0: seq<PredictorCall>, i: nat,
                     images: seq<seq<nat>>, labels: seq<nat>, rand: nat -> nat, sp: Recognizer, clsr: Predictor)
      requires Valid()
      requires 0 < |labels| <= |images|
      requires recordNum == first + i
      requires calls == calls0 + TrainingCalls(first, i, images, labels, rand, sp)
      modifies this
      ensures Valid()
      ensures recordNum == first + i + 1
      ensures calls == calls0 + TrainingCalls(first, i + 1, images, labels, rand, sp)
    {
      var index := SampleIndex(rand(i), |labels|);
      var image := images[index];
      var labelValue := labels[index];
      var activeArray := sp(recordNum, image, true);
      var activeIndex := ActiveIndices(activeArray);
      ghost var logged, call := TrainingCalls(first, i, images, labels, rand, sp), TrainingCall(first + i, index, images, labels, sp);
      assert TrainingCalls(first, i + 1, images, labels, rand, sp) == logged + [call];
      assert call.activeIndex == activeIndex;
      var _ := Classify(clsr, activeIndex, [labelValue], [labelValue as real], true, false);
      assert calls == calls0 + logged + [call];
    }

    /**
     * Test step `i`: the recognizer answers on image `i` without learning, the
     * predictor infers, and its horizon-0 answer is checked against label `i`.
     * The log and the two totals grow from those of `i` steps to those of `i + 1`.
     */
    method TestStep(ghost first: nat, ghost calls0: seq<PredictorCall>, i: nat,
                    images: seq<seq<nat>>, labels: seq<nat>, sp: Recognizer, clsr: Predictor,
                    score: nat, nSamples: nat) returns (score': nat, nSamples': nat)
      requires Valid()
      requires i < |labels| <= |images|
      requires recordNum == first + i
      requires calls == calls0 + TestingCalls(first, i, images, sp)
      requires score == TestScore(first, i, images, labels, sp, clsr)
      requires nSamples == TestSamples(first, i, images, sp, clsr)
      modifies this
      ensures Valid()
      ensures recordNum == first + i + 1
      ensures calls == calls0 + TestingCalls(first, i + 1, images, sp)
      ensures score' == TestScore(first, i + 1, images, labels, sp, clsr)
      ensures nSamples' == TestSamples(first, i + 1, images, sp, clsr)
    {
      var image := images[i];
      var truth := labels[i];
      var activeArray := sp(recordNum, image, false);
      var activeIndex := ActiveIndices(activeArray);
      ghost var logged := TestingCalls(first, i, images, sp);
      var result := Classify(clsr, activeIndex, [], [], false, true);
      assert result == Answer(first, i, images, sp, clsr);
      var hits, samples := CheckResult(result, truth);
      score', nSamples' := score + hits, nSamples + samples;
      assert TestingCalls(first, i + 1, images, sp) == logged + [TestingCall(first + i, image, sp)];
    }

    /** The training loop: `trainTime` training steps. */
    method Train(trainTime: nat, images: seq<seq<nat>>, labels: seq<nat>, rand: nat -> nat, sp: Recognizer, clsr: Predictor)
      requires Valid()
      requires trainTime > 0 ==> |labels| > 0
      requires |labels| <= |images|
      modifies this
      ensures Valid()
      ensures recordNum == old(recordNum) + trainTime
      ensures calls == old(calls) + TrainingCalls(old(recordNum), trainTime, images, labels, rand, sp)
    {
      ghost var first, calls0 := recordNum, calls;
      var i := 0;
      while i < trainTime
        invariant Valid()
        invariant 0 <= i <= trainTime
        invariant recordNum == first + i
        invariant calls == calls0 + TrainingCalls(first, i, images, labels, rand, sp)
      {
        TrainStep(first, calls0, i, images, labels, rand, sp, clsr);
        i := i + 1;
      }
    }

    /**
     * The test loop: one test step per label, in file order, counting the
     * scored samples and the correct predictions among them.
     */
    method Test(images: seq<seq<nat>>, labels: seq<nat>, sp: Recognizer, clsr: Predictor) returns (score: nat, nSamples: nat)
      requires Valid()
      requires |labels| <= |images|
      modifies this
      ensures Valid()
      ensures recordNum == old(recordNum) + |labels|
      ensures calls == old(calls) + TestingCalls(old(recordNum), |labels|, images, sp)
      ensures score == TestScore(old(recordNum), |labels|, images, labels, sp, clsr)
      ensures nSamples == TestSamples(old(recordNum), |labels|, images, sp, clsr)
    {
      ghost var first, calls0 := recordNum, calls;
      score, nSamples := 0, 0;
      var i := 0;
      while i < |labels|
        invariant Valid()
        invariant 0 <= i <= |labels|
        invariant recordNum == first + i
        invariant calls == calls0 + TestingCalls(first, i, images, sp)
        invariant score == TestScore(first, i, images, labels, sp, clsr)
        invariant nSamples == TestSamples(first, i, images, sp, clsr)
      {
        score, nSamples := TestStep(first, calls0, i, images, labels, sp, clsr, score, nSamples);
        i := i + 1;
      }
    }
  }

  // ---------------------------------------------------------------------------
  // The whole run

  /** The totals a run prints from: correct predictions, scored samples, records used. */
  datatype Tally = Tally(score: nat, nSamples: nat, records: nat)

  /** Both files are read and every label has an image (and, for training, there is one label at least). */
  predicate Paired(host: Endian, images: seq<Byte>, labels: seq<Byte>, nonEmpty: bool)
    requires 16 <= |images| && 8 <= |labels|
  {
    ImagesAccepted(host, images) && LabelHeader(host, labels).Some? ==>
      && LabelCount(host, labels) <= ImageCount(host, images)
      && (nonEmpty ==> LabelCount(host, labels) > 0)
  }

  /**
   * The error that ends the program when it reads an image file and then its
   * label file: the image reader's complaint comes first, the label reader's
   * second, and there is none when both files are accepted.
   */
  function FileError(host: Endian, imageFile: seq<Byte>, labelFile: seq<Byte>): (e: Option<Error>)
    requires 16 <= |imageFile| && 8 <= |labelFile|
    ensures e.None? <==> ImagesAccepted(host, imageFile) && LabelHeader(host, labelFile).Some?
    ensures ImageHeader(host, imageFile).None? ==> e == Some(Corrupt)
    ensures e == Some(BadDimensions) <==> ImageHeader(host, imageFile).Some? && !ImagesAccepted(host, imageFile)
  {
    if ImageHeader(host, imageFile).None? then Some(Corrupt)
    else if !ImagesAccepted(host, imageFile) then Some(BadDimensions)
    else if LabelHeader(host, labelFile).None? then Some(Corrupt)
    else None
  }

  /**
   * The totals a run ends with, given the test files: one record per training
   * step and per test label, and the score and samples of the test loop over
   * the decoded test set.
   */
  function ExpectedTally(host: Endian, testImageFile: seq<Byte>, testLabelFile: seq<Byte>, sp: Recognizer, clsr: Predictor): (t: Tally)
    requires ImagesFit(host, testImageFile) && ImagesAccepted(host, testImageFile)
    requires LabelsFit(host, testLabelFile) && LabelHeader(host, testLabelFile).Some?
    requires Paired(host, testImageFile, testLabelFile, false)
    ensures t.records == TRAIN_TIME + LabelCount(host, testLabelFile)
    ensures t.score <= t.nSamples <= LabelCount(host, testLabelFile)
  {
    var images, labels := DecodedImages(host, testImageFile), DecodedLabels(host, testLabelFile);
    Tally(TestScore(TRAIN_TIME, |labels|, images, labels, sp, clsr),
          TestSamples(TRAIN_TIME, |labels|, images, sp, clsr),
          TRAIN_TIME + |labels|)
  }

  /**
   * The predictor calls of a run: `TRAIN_TIME` training steps on the decoded
   * training set, then one test step per decoded test label.
   */
  ghost function RunLog(host: Endian, trainImageFile: seq<Byte>, trainLabelFile: seq<Byte>,
                        testImageFile: seq<Byte>, testLabelFile: seq<Byte>, rand: nat -> nat, sp: Recognizer): (log: seq<PredictorCall>)
    requires ImagesFit(host, trainImageFile) && ImagesAccepted(host, trainImageFile)
    requires LabelsFit(host, trainLabelFile) && LabelHeader(host, trainLabelFile).Some?
    requires ImagesFit(host, testImageFile) && ImagesAccepted(host, testImageFile)
    requires LabelsFit(host, testLabelFile) && LabelHeader(host, testLabelFile).Some?
    requires Paired(host, trainImageFile, trainLabelFile, true)
    requires Paired(host, testImageFile, testLabelFile, false)
    ensures |log| == TRAIN_TIME + LabelCount(host, testLabelFile)
  {
    TrainingCalls(0, TRAIN_TIME, DecodedImages(host, trainImageFile), DecodedLabels(host, trainLabelFile), rand, sp)
    + TestingCalls(TRAIN_TIME, LabelCount(host, testLabelFile), DecodedImages(host, testImageFile), sp)
  }

  /** In the log of a run, the call at position `k` carries record number `k`. */
  lemma RunLogNumbered(host: Endian, trainImageFile: seq<Byte>, trainLabelFile: seq<Byte>,
                       testImageFile: seq<Byte>, testLabelFile: seq<Byte>, rand: nat -> nat, sp: Recognizer)
    requires ImagesFit(host, trainImageFile) && ImagesAccepted(host, trainImageFile)
    requires LabelsFit(host, trainLabelFile) && LabelHeader(host, trainLabelFile).Some?
    requires ImagesFit(host, testImageFile) && ImagesAccepted(host, testImageFile)
    requires LabelsFit(host, testLabelFile) && LabelHeader(host, testLabelFile).Some?
    requires Paired(host, trainImageFile, trainLabelFile, true)
    requires Paired(host, testImageFile, testLabelFile, false)
    ensures var log := RunLog(host, trainImageFile, trainLabelFile, testImageFile, testLabelFile, rand, sp);
            forall k :: 0 <= k < |log| ==> log[k].recordNum == k
  {
    var trainImages, trainLabels := DecodedImages(host, trainImageFile), DecodedLabels(host, trainLabelFile);
    var testImages, nTests := DecodedImages(host, testImageFile), LabelCount(host, testLabelFile);
    var log := RunLog(host, trainImageFile, trainLabelFile, testImageFile, testLabelFile, rand, sp);
    assert log == TrainingCalls(0, TRAIN_TIME, trainImages, trainLabels, rand, sp) + TestingCalls(TRAIN_TIME, nTests, testImages, sp);
    RecordNumbersConsecutive(log, TRAIN_TIME, trainImages, trainLabels, rand, testImages, nTests, sp);
  }

  /**
   * The training half of the program: read the training images and labels
   * and, when both are accepted, run the training loop on them. A rejected
   * file is the error that ends the run.
   */
  method TrainPhase(harness: Harness, host: Endian, trainImageFile: seq<Byte>, trainLabelFile: seq<Byte>,
                    rand: nat -> nat, sp: Recognizer, clsr: Predictor)
    returns (failure: Option<Error>)
    requires harness.Valid() && harness.recordNum == 0 && harness.calls == []
    requires ImagesFit(host, trainImageFile) && LabelsFit(host, trainLabelFile)
    requires Paired(host, trainImageFile, trainLabelFile, true)
    modifies harness
    ensures harness.Valid()
    ensures failure.None? <==> ImagesAccepted(host, trainImageFile) && LabelHeader(host, trainLabelFile).Some?
    ensures failure == FileError(host, trainImageFile, trainLabelFile)
    ensures failure.Some? ==> harness.recordNum == 0 && harness.calls == []
    ensures failure.None? ==>
              && harness.recordNum == TRAIN_TIME
              && harness.calls == TrainingCalls(0, TRAIN_TIME, DecodedImages(host, trainImageFile),
                                                DecodedLabels(host, trainLabelFile), rand, sp)
  {
    var trainImages := ReadImages(host, trainImageFile);
    if trainImages.Err? {
      return Some(trainImages.error);
    }
    var trainLabels := ReadLabels(host, trainLabelFile);
    if trainLabels.Err? {
      return Some(trainLabels.error);
    }
    harness.Train(TRAIN_TIME, trainImages.value, trainLabels.value, rand, sp, clsr);
    assert [] + TrainingCalls(0, TRAIN_TIME, trainImages.value, trainLabels.value, rand, sp)
           == TrainingCalls(0, TRAIN_TIME, trainImages.value, trainLabels.value, rand, sp);
    return None;
  }

  /**
   * The test half of the program: read the test images and labels and, when
   * both are accepted, run the test loop on them after the training records.
   */
  method TestPhase(harness: Harness, host: Endian, testImageFile: seq<Byte>, testLabelFile: seq<Byte>,
                   sp: Recognizer, clsr: Predictor)
    returns (outcome: Result<Tally, Error>)
    requires harness.Valid() && harness.recordNum == TRAIN_TIME
    requires ImagesFit(host, testImageFile) && LabelsFit(host, testLabelFile)
    requires Paired(host, testImageFile, testLabelFile, false)
    modifies harness
    ensures harness.Valid()
    ensures outcome.Ok? <==> ImagesAccepted(host, testImageFile) && LabelHeader(host, testLabelFile).Some?
    ensures outcome.Err? ==> Some(outcome.error) == FileError(host, testImageFile, testLabelFile)
    ensures outcome.Err? ==> harness.recordNum == old(harness.recordNum) && harness.calls == old(harness.calls)
    ensures outcome.Ok? ==>
              && outcome.value == ExpectedTally(host, testImageFile, testLabelFile, sp, clsr)
              && harness.calls == old(harness.calls) + TestingCalls(TRAIN_TIME, LabelCount(host, testLabelFile),
                                                                   DecodedImages(host, testImageFile), sp)
  {
    var testImages := ReadImages(host, testImageFile);
    if testImages.Err? {
      return Err(testImages.error);
    }
    var testLabels := ReadLabels(host, testLabelFile);
    if testLabels.Err? {
      return Err(testLabels.error);
    }
    var score, nSamples := harness.Test(testImages.value, testLabels.value, sp, clsr);
    return Ok(Tally(score, nSamples, harness.recordNum));
  }

  /**
   * The program: train, then test, on one harness whose record counter starts
   * at 0. A file the readers reject ends the run with its error; otherwise the
   * run makes exactly the calls of `RunLog` and ends with the totals of
   * `ExpectedTally`.
   */
  method RunBenchmark(host: Endian, trainImageFile: seq<Byte>, trainLabelFile: seq<Byte>,
                      testImageFile: seq<Byte>, testLabelFile: seq<Byte>,
                      rand: nat -> nat, sp: Recognizer, clsr: Predictor)
    returns (outcome: Result<Tally, Error>, ghost log: seq<PredictorCall>)
    requires ImagesFit(host, trainImageFile) && LabelsFit(host, trainLabelFile)
    requires ImagesFit(host, testImageFile) && LabelsFit(host, testLabelFile)
    requires Paired(host, trainImageFile, trainLabelFile, true)
    requires Paired(host, testImageFile, testLabelFile, false)
    ensures outcome.Ok? <==>
              && ImagesAccepted(host, trainImageFile) && LabelHeader(host, trainLabelFile).Some?
              && ImagesAccepted(host, testImageFile) && LabelHeader(host, testLabelFile).Some?
    ensures outcome.Ok? ==> outcome.value == ExpectedTally(host, testImageFile, testLabelFile, sp, clsr)
    ensures outcome.Ok? ==> log == RunLog(host, trainImageFile, trainLabelFile, testImageFile, testLabelFile, rand, sp)
    ensures outcome.Err? ==>
              Some(outcome.error) == if FileError(host, trainImageFile, trainLabelFile).Some?
                                     then FileError(host, trainImageFile, trainLabelFile)
                                     else FileError(host, testImageFile, testLabelFile)
    ensures FileError(host, trainImageFile, trainLabelFile).Some? ==> log == []
    ensures FileError(host, trainImageFile, trainLabelFile).None? ==>
              TrainingCalls(0, TRAIN_TIME, DecodedImages(host, trainImageFile), DecodedLabels(host, trainLabelFile), rand, sp) <= log
    ensures FileError(host, trainImageFile, trainLabelFile).None? && FileError(host, testImageFile, testLabelFile).Some? ==>
              |log| == TRAIN_TIME
    ensures forall k :: 0 <= k < |log| ==> log[k].recordNum == k
  {
    var harness := new Harness();
    var failure := TrainPhase(harness, host, trainImageFile, trainLabelFile, rand, sp, clsr);
    if failure.Some? {
      return Err(failure.value), harness.calls;
    }
    outcome := TestPhase(harness, host, testImageFile, testLabelFile, sp, clsr);
    log := harness.calls;
  }
}
