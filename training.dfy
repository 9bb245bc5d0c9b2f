/**
 * The skeleton of the training and validation loops: examples are visited in
 * mini-batches of 16, only `N / 16` full batches are visited, predictions are
 * compared with the gold labels, and on the final epoch the misclassified
 * validation positions are recorded. The network, its loss and the optimizer
 * are abstracted into an uninterpreted predictor.
 */
module Training {
  import opened Vectorizer

  const MinibatchSize: nat := 16

  /**
   * The classifier seen from the loops: given how many optimizer steps have
   * been taken so far and an input vector, the label `argmax` picks.
   */
  type Predictor = (nat, seq<nat>) -> int

  /** A misclassified validation example: its position and the predicted label. */
  datatype Mistake = Mistake(position: nat, predicted: int)

  /** An accuracy as the pair the source divides; a zero denominator is the source's ZeroDivisionError. */
  datatype Ratio = Ratio(num: nat, den: nat)

  /**
   * The label predicted for position `p`. In training the parameters change
   * after every mini-batch, so batch `p / 16` sees `steps + p / 16` steps; in
   * validation (`frozen`) every position sees `steps`.
   */
  function Prediction(data: seq<Vectorized>, predict: Predictor, steps: nat, frozen: bool, p: nat): int
    requires p < |data|
  {
    predict(if frozen then steps else steps + p / MinibatchSize, data[p].vector)
  }

  /** How many of the first `n` positions are predicted correctly. */
  function Correct(data: seq<Vectorized>, predict: Predictor, steps: nat, frozen: bool, n: nat): nat
    requires n <= |data|
  {
    if n == 0 then 0
    else
      Correct(data, predict, steps, frozen, n - 1)
      + (if Prediction(data, predict, steps, frozen, n - 1) == data[n - 1].goldLabel then 1 else 0)
  }

  /** The misclassified positions among the first `n`, in the order the loop meets them. */
  function Mistakes(data: seq<Vectorized>, predict: Predictor, steps: nat, n: nat): seq<Mistake>
    requires n <= |data|
  {
    if n == 0 then []
    else
      var predicted := Prediction(data, predict, steps, true, n - 1);
      Mistakes(data, predict, steps, n - 1)
      + (if predicted != data[n - 1].goldLabel then [Mistake(n - 1, predicted)] else [])
  }

  /** How many examples a pass over `n` examples sees. */
  function Seen(n: nat): (r: nat)
    ensures r <= n < r + MinibatchSize
  {
    MinibatchSize * (n / MinibatchSize)
  }

  /** Positions read by the first `batches` mini-batches, in the order the nested loops read them. */
  function Batches(batches: nat): seq<nat>
  {
    if batches == 0 then []
    else Batches(batches - 1) + seq(MinibatchSize, k requires 0 <= k => (batches - 1) * MinibatchSize + k)
  }

  /** Positions the loops read from a data set of `n` examples. */
  function BatchPositions(n: nat): seq<nat>
  {
    Batches(n / MinibatchSize)
  }

  /** The first `batches` mini-batches read positions `0, 1, ...` in order, each once. */
  lemma {:induction false} BatchesAreConsecutive(batches: nat)
    ensures |Batches(batches)| == batches * MinibatchSize
    ensures forall i :: 0 <= i < |Batches(batches)| ==> Batches(batches)[i] == i
  {
    if batches > 0 {
      BatchesAreConsecutive(batches - 1);
    }
  }

  /**
   * Every position is read exactly once, in increasing order, and is below
   * `n`; `16 * (n / 16)` positions are read and the remainder, fewer than 16
   * positions at the end, never is.
   */
  lemma BatchPositionsInBounds(n: nat)
    ensures |BatchPositions(n)| == Seen(n)
    ensures n - MinibatchSize < |BatchPositions(n)| <= n
    ensures forall i :: 0 <= i < |BatchPositions(n)| ==> BatchPositions(n)[i] == i
    ensures forall p :: p in BatchPositions(n) <==> 0 <= p < Seen(n)
  {
    BatchesAreConsecutive(n / MinibatchSize);
    var read := BatchPositions(n);
    forall p
      ensures p in read <==> 0 <= p < Seen(n)
    {
      if 0 <= p < |read| { assert read[p] == p; }
    }
  }

  /**
   * One training pass: `correct` and `total` as the loops leave them, and, as
   * a ghost trace, the positions they read.
   */
  method TrainingPass(data: seq<Vectorized>, predict: Predictor, steps: nat)
    returns (correct: nat, total: nat, ghost read: seq<nat>)
    ensures read == BatchPositions(|data|)
    ensures total == Seen(|data|)
    ensures correct == Correct(data, predict, steps, false, total)
  {
    var n := |data|;
    correct, total, read := 0, 0, [];
    for minibatchIndex := 0 to n / MinibatchSize
      invariant total == minibatchIndex * MinibatchSize
      invariant read == Batches(minibatchIndex)
      invariant correct == Correct(data, predict, steps, false, total)
    {
      for exampleIndex := 0 to MinibatchSize
        invariant total == minibatchIndex * MinibatchSize + exampleIndex
        invariant read == Batches(minibatchIndex) + seq(exampleIndex, k requires 0 <= k => minibatchIndex * MinibatchSize + k)
        invariant correct == Correct(data, predict, steps, false, total)
      {
        var position := minibatchIndex * MinibatchSize + exampleIndex;
        var example := data[position];
        assert position / MinibatchSize == minibatchIndex;
        var predictedLabel := predict(steps + minibatchIndex, example.vector);
        if predictedLabel == example.goldLabel {
          correct := correct + 1;
        }
        total := total + 1;
        read := read + [position];
      }
    }
  }

  /**
   * One validation pass with the parameters frozen after `steps` steps; when
   * `recordErrors` holds (the final epoch) the misclassified positions are
   * appended to `errors`.
   */
  method ValidationPass(data: seq<Vectorized>, predict: Predictor, steps: nat, recordErrors: bool, errors: seq<Mistake>)
    returns (correct: nat, total: nat, errorsOut: seq<Mistake>, ghost read: seq<nat>)
    ensures read == BatchPositions(|data|)
    ensures total == Seen(|data|)
    ensures correct == Correct(data, predict, steps, true, total)
    ensures errorsOut == errors + if recordErrors then Mistakes(data, predict, steps, total) else []
  {
    var n := |data|;
    correct, total, errorsOut, read := 0, 0, errors, [];
    for minibatchIndex := 0 to n / MinibatchSize
      invariant total == minibatchIndex * MinibatchSize
      invariant read == Batches(minibatchIndex)
      invariant correct == Correct(data, predict, steps, true, total)
      invariant errorsOut == errors + if recordErrors then Mistakes(data, predict, steps, total) else []
    {
      for exampleIndex := 0 to MinibatchSize
        invariant total == minibatchIndex * MinibatchSize + exampleIndex
        invariant read == Batches(minibatchIndex) + seq(exampleIndex, k requires 0 <= k => minibatchIndex * MinibatchSize + k)
        invariant correct == Correct(data, predict, steps, true, total)
        invariant errorsOut == errors + if recordErrors then Mistakes(data, predict, steps, total) else []
      {
        var position := minibatchIndex * MinibatchSize + exampleIndex;
        var example := data[position];
        var predictedLabel := predict(steps, example.vector);
        if predictedLabel == example.goldLabel {
          correct := correct + 1;
        }
        if recordErrors && predictedLabel != example.goldLabel {
          errorsOut := errorsOut + [Mistake(position, predictedLabel)];
        }
        total := total + 1;
        read := read + [position];
      }
    }
  }

  /** Every position is either counted as correct or recorded as a mistake, never both. */
  lemma {:induction false} CorrectAndMistakesPartition(data: seq<Vectorized>, predict: Predictor, steps: nat, n: nat)
    requires n <= |data|
    ensures Correct(data, predict, steps, true, n) + |Mistakes(data, predict, steps, n)| == n
  {
    if n > 0 {
      CorrectAndMistakesPartition(data, predict, steps, n - 1);
    }
  }

  /**
   * The recorded mistakes are misclassified positions: strictly increasing,
   * each below `n`, each carrying the label actually predicted there, which
   * differs from the gold label.
   */
  lemma {:induction false} MistakesAreMisclassified(data: seq<Vectorized>, predict: Predictor, steps: nat, n: nat)
    requires n <= |data|
    ensures forall i, j :: 0 <= i < j < |Mistakes(data, predict, steps, n)| ==>
      Mistakes(data, predict, steps, n)[i].position < Mistakes(data, predict, steps, n)[j].position
    ensures forall i :: 0 <= i < |Mistakes(data, predict, steps, n)| ==>
      var m := Mistakes(data, predict, steps, n)[i];
      m.position < n && m.predicted == Prediction(data, predict, steps, true, m.position) &&
      m.predicted != data[m.position].goldLabel
  {
    if n > 0 {
      MistakesAreMisclassified(data, predict, steps, n - 1);
      var before := Mistakes(data, predict, steps, n - 1);
      var after := Mistakes(data, predict, steps, n);
      assert forall i :: 0 <= i < |before| ==> after[i] == before[i];
      assert |after| == |before| || (|after| == |before| + 1 && after[|before|].position == n - 1);
    }
  }

  /** Every misclassified position below `n` is recorded. */
  lemma {:induction false} MisclassifiedAreRecorded(data: seq<Vectorized>, predict: Predictor, steps: nat, n: nat, p: nat)
    requires n <= |data|
    requires p < n && Prediction(data, predict, steps, true, p) != data[p].goldLabel
    ensures exists i :: 0 <= i < |Mistakes(data, predict, steps, n)| && Mistakes(data, predict, steps, n)[i].position == p
  {
    var before := Mistakes(data, predict, steps, n - 1);
    var after := Mistakes(data, predict, steps, n);
    if p < n - 1 {
      MisclassifiedAreRecorded(data, predict, steps, n - 1, p);
      var i :| 0 <= i < |before| && before[i].position == p;
      assert after[i] == before[i];
    } else {
      assert after[|before|].position == p;
    }
  }

  /** A predictor that makes no mistake on the first `n` positions. */
  ghost predicate Perfect(data: seq<Vectorized>, predict: Predictor, steps: nat, frozen: bool, n: nat)
    requires n <= |data|
  {
    forall p :: 0 <= p < n ==> Prediction(data, predict, steps, frozen, p) == data[p].goldLabel
  }

  lemma {:induction false} CorrectOfPerfect(data: seq<Vectorized>, predict: Predictor, steps: nat, frozen: bool, n: nat)
    requires n <= |data|
    ensures Correct(data, predict, steps, frozen, n) <= n
    ensures Perfect(data, predict, steps, frozen, n) <==> Correct(data, predict, steps, frozen, n) == n
  {
    if n > 0 {
      CorrectOfPerfect(data, predict, steps, frozen, n - 1);
    }
  }

  /** `training_acc.append(correct / N)`: the accuracy the loop records, as written, over all `n` examples. */
  function TrainingAccuracyAsWritten(correct: nat, n: nat): Ratio
  {
    Ratio(correct, n)
  }

  /**
   * `correct / total`: the accuracy over the `total` examples actually seen,
   * as the training print (line 181) and the validation record (line 220) divide.
   */
  function Accuracy(correct: nat, total: nat): Ratio
  {
    Ratio(correct, total)
  }

  /**
   * As written, a training pass whose every prediction on the examples it sees
   * is right records `Seen(N)/N`: for `N >= 16` that is one exactly when `N` is
   * a multiple of 16, and with `N = 17` it is 16/17. For `N < 16`, zero
   * included, nothing is seen and the ratio has numerator 0; the source never
   * records it, because the print on the line before divides by a zero `total`.
   */
  lemma AsWrittenAccuracyOfPerfectPass(data: seq<Vectorized>, predict: Predictor, steps: nat)
    requires Perfect(data, predict, steps, false, Seen(|data|))
    ensures var r := TrainingAccuracyAsWritten(Correct(data, predict, steps, false, Seen(|data|)), |data|);
      r.den == |data| &&
      (r.num == r.den <==> |data| % MinibatchSize == 0) && r.den - r.num == |data| % MinibatchSize &&
      (|data| < MinibatchSize ==> r.num == 0)
  {
    CorrectOfPerfect(data, predict, steps, false, Seen(|data|));
  }

  /**
   * Corrected: a training pass whose every prediction on the examples it sees
   * is right records an accuracy of one whenever `N >= 16`; below 16 the pass
   * sees nothing and the ratio is 0/0, the source's ZeroDivisionError.
   */
  lemma AccuracyOfPerfectPass(data: seq<Vectorized>, predict: Predictor, steps: nat)
    requires Perfect(data, predict, steps, false, Seen(|data|))
    ensures var r := Accuracy(Correct(data, predict, steps, false, Seen(|data|)), Seen(|data|));
      r.num == r.den == Seen(|data|) &&
      (r.den > 0 <==> |data| >= MinibatchSize)
  {
    CorrectOfPerfect(data, predict, steps, false, Seen(|data|));
  }

  /** The order of the training data after the shuffles of the first `epochs` epochs (`random.shuffle` works in place). */
  function Shuffled(train: seq<Vectorized>, shuffle: (nat, seq<Vectorized>) -> seq<Vectorized>, epochs: nat): seq<Vectorized>
  {
    if epochs == 0 then train else shuffle(epochs - 1, Shuffled(train, shuffle, epochs - 1))
  }

  /** Optimizer steps taken by the end of the training pass of epoch `epochs - 1`. */
  function StepsAfter(train: seq<Vectorized>, shuffle: (nat, seq<Vectorized>) -> seq<Vectorized>, epochs: nat): nat
  {
    if epochs == 0 then 0
    else StepsAfter(train, shuffle, epochs - 1) + |Shuffled(train, shuffle, epochs)| / MinibatchSize
  }

  /** The training accuracy of epoch `e`, over the examples the pass saw. */
  function EpochTrainingAccuracy(train: seq<Vectorized>, shuffle: (nat, seq<Vectorized>) -> seq<Vectorized>,
                                 predict: Predictor, e: nat): Ratio
  {
    var order := Shuffled(train, shuffle, e + 1);
    Accuracy(Correct(order, predict, StepsAfter(train, shuffle, e), false, Seen(|order|)), Seen(|order|))
  }

  /** The validation accuracy of epoch `e`, with the parameters its training pass left. */
  function EpochValidationAccuracy(train: seq<Vectorized>, valid: seq<Vectorized>,
                                   shuffle: (nat, seq<Vectorized>) -> seq<Vectorized>, predict: Predictor, e: nat): Ratio
  {
    Accuracy(Correct(valid, predict, StepsAfter(train, shuffle, e + 1), true, Seen(|valid|)), Seen(|valid|))
  }

  /** The training accuracies of the first `n` epochs, in order. */
  function TrainingAccuracies(train: seq<Vectorized>, shuffle: (nat, seq<Vectorized>) -> seq<Vectorized>,
                              predict: Predictor, n: nat): (r: seq<Ratio>)
    ensures |r| == n
    ensures forall e :: 0 <= e < n ==> r[e] == EpochTrainingAccuracy(train, shuffle, predict, e)
  {
    if n == 0 then [] else TrainingAccuracies(train, shuffle, predict, n - 1) + [EpochTrainingAccuracy(train, shuffle, predict, n - 1)]
  }

  /** The validation accuracies of the first `n` epochs, in order. */
  function ValidationAccuracies(train: seq<Vectorized>, valid: seq<Vectorized>,
                                shuffle: (nat, seq<Vectorized>) -> seq<Vectorized>, predict: Predictor, n: nat): (r: seq<Ratio>)
    ensures |r| == n
    ensures forall e :: 0 <= e < n ==> r[e] == EpochValidationAccuracy(train, valid, shuffle, predict, e)
  {
    if n == 0 then [] else ValidationAccuracies(train, valid, shuffle, predict, n - 1) + [EpochValidationAccuracy(train, valid, shuffle, predict, n - 1)]
  }

  /**
   * One epoch: reshuffle the training order, run the training pass from the
   * steps taken so far, then the validation pass with the parameters it left,
   * recording that pass's mistakes when `last` holds.
   */
  method Epoch(train: seq<Vectorized>, valid: seq<Vectorized>, shuffle: (nat, seq<Vectorized>) -> seq<Vectorized>,
               predict: Predictor, epoch: nat, trainData: seq<Vectorized>, steps: nat, last: bool, errors: seq<Mistake>)
    returns (trainDataOut: seq<Vectorized>, stepsOut: nat, trainingRatio: Ratio, validationRatio: Ratio, errorsOut: seq<Mistake>)
    requires trainData == Shuffled(train, shuffle, epoch)
    requires steps == StepsAfter(train, shuffle, epoch)
    ensures trainDataOut == Shuffled(train, shuffle, epoch + 1)
    ensures stepsOut == StepsAfter(train, shuffle, epoch + 1)
    ensures trainingRatio == EpochTrainingAccuracy(train, shuffle, predict, epoch)
    ensures validationRatio == EpochValidationAccuracy(train, valid, shuffle, predict, epoch)
    ensures errorsOut == errors + if last then Mistakes(valid, predict, StepsAfter(train, shuffle, epoch + 1), Seen(|valid|)) else []
  {
    trainDataOut := shuffle(epoch, trainData);
    var correct, total;
    ghost var trainRead, validRead;
    correct, total, trainRead := TrainingPass(trainDataOut, predict, steps);
    trainingRatio := Accuracy(correct, total);
    stepsOut := steps + |trainDataOut| / MinibatchSize;
    var validCorrect, validTotal;
    validCorrect, validTotal, errorsOut, validRead := ValidationPass(valid, predict, stepsOut, last, errors);
    validationRatio := Accuracy(validCorrect, validTotal);
  }

  /**
   * The epoch loop: one accuracy of each kind per epoch (training accuracy
   * over the examples seen), and the mistakes of the final validation pass.
   */
  method Run(train: seq<Vectorized>, valid: seq<Vectorized>, epochs: nat,
             shuffle: (nat, seq<Vectorized>) -> seq<Vectorized>, predict: Predictor)
    returns (trainingAcc: seq<Ratio>, validationAcc: seq<Ratio>, errors: seq<Mistake>)
    ensures |trainingAcc| == epochs && |validationAcc| == epochs
    ensures forall e :: 0 <= e < epochs ==> trainingAcc[e] == EpochTrainingAccuracy(train, shuffle, predict, e)
    ensures forall e :: 0 <= e < epochs ==> validationAcc[e] == EpochValidationAccuracy(train, valid, shuffle, predict, e)
    ensures errors == if epochs == 0 then [] else Mistakes(valid, predict, StepsAfter(train, shuffle, epochs), Seen(|valid|))
  {
    trainingAcc, validationAcc, errors := [], [], [];
    var trainData := train;
    var steps := 0;
    for epoch := 0 to epochs
      invariant trainData == Shuffled(train, shuffle, epoch)
      invariant steps == StepsAfter(train, shuffle, epoch)
      invariant trainingAcc == TrainingAccuracies(train, shuffle, predict, epoch)
      invariant validationAcc == ValidationAccuracies(train, valid, shuffle, predict, epoch)
      invariant errors == if 0 < epoch == epochs then Mistakes(valid, predict, StepsAfter(train, shuffle, epoch), Seen(|valid|)) else []
    {
      var trainingRatio, validationRatio;
      var last := epoch == epochs - 1;
      trainData, steps, trainingRatio, validationRatio, errors :=
        Epoch(train, valid, shuffle, predict, epoch, trainData, steps, last, errors);
      trainingAcc := trainingAcc + [trainingRatio];
      validationAcc := validationAcc + [validationRatio];
    }
  }
}
