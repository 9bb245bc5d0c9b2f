# Bag-of-words pipeline of a review-rating classifier

This project models the deterministic part of a feed-forward review classifier (`ffnn3hiddenlayers.py`) and proves properties of that model. It covers:

- **Vocabulary builder (`make_vocab`).** Builds the set of distinct tokens of the labelled training documents.
- **Indexer (`make_indices`).** Sorts that set in Python's code-point string order and appends the reserved marker `<UNK>`. It then enumerates the list into a token-to-index map and an index-to-token map, and adds the marker to the caller's set in place.
- **Vectorizer (`convert_to_vector_representation`).** Turns each document into a count vector with one slot per map entry, folding unknown tokens into the marker's slot.
- **Mini-batch skeleton of the training and validation loops.** Batches have 16 examples. Only `N // 16` full batches are visited. Correct predictions are counted, and on the final epoch the misclassified validation positions are recorded.

The network is an uninterpreted `Predictor`: it maps the number of optimizer steps taken so far and an input vector to a label. During training the step count grows by one per mini-batch. During validation it is frozen.

Modules, one per component: `Corpus` (marker, labelled example), `Lex` (string order), `Vocabulary`, `Indexer`, `Vectorizer`, `Training`, and `Pipeline` (lines 128-133 of the main program).

The Python `set` that `make_indices` mutates is the class `Vocabulary.WordSet`. `MakeIndices` modifies it and returns the same object. Dictionaries are `map` values, and the vector is a fresh `array<nat>` filled by increments. Counts are natural numbers; the source keeps them in a float tensor.

## Model
| member | source | states |
|---|---|---|
| `Lex.Less` | ffnn3hiddenlayers.py:66 | Python's `a < b` on `str`: the first differing code point decides, and a proper prefix comes first (definition) |
| `Lex.LessIrreflexive` | ffnn3hiddenlayers.py:66 | no string sorts before itself |
| `Lex.LessTransitive` | ffnn3hiddenlayers.py:66 | the string order `sorted` uses is transitive |
| `Lex.LessAsymmetric` | ffnn3hiddenlayers.py:66 | `a < b` excludes `b < a` |
| `Lex.LessTotal` | ffnn3hiddenlayers.py:66 | any two distinct strings are ordered one way or the other |
| `Lex.LessIsLexicographic` | ffnn3hiddenlayers.py:66 | the element-by-element comparison is the textbook lexicographic order: proper prefix first, else the first differing code point decides (both directions) |
| `Vocabulary.WordSet.constructor` | ffnn3hiddenlayers.py:54 | a new set is empty |
| `Vocabulary.WordSet.Add` | ffnn3hiddenlayers.py:57 | adding a token extends the set by that token and nothing else |
| `Vocabulary.Words` | ffnn3hiddenlayers.py:53-58 | the union, document by document, of the tokens of every document; labels are not consulted (definition) |
| `Vocabulary.MakeVocab` | ffnn3hiddenlayers.py:53-58 | returns a fresh set equal to the tokens of all documents, built by the nested loops |
| `Vocabulary.WordsAreOccurringTokens` | ffnn3hiddenlayers.py:53-58 | a token is in the vocabulary iff it occurs at some position of some document (so empty input gives the empty set) |
| `Vocabulary.WordsIgnoreLabels` | ffnn3hiddenlayers.py:55 | corpora with the same documents and any labels have the same vocabulary |
| `Indexer.LeastExists` | ffnn3hiddenlayers.py:66 | every non-empty vocabulary has a smallest token |
| `Indexer.Sorted` | ffnn3hiddenlayers.py:66 | `sorted(vocab)` has exactly the set's elements, one position per element, in strictly ascending order |
| `Indexer.StrictlySortedUnique` | ffnn3hiddenlayers.py:66 | two strictly ascending lists with the same elements are equal |
| `Indexer.SortedIsDeterministic` | ffnn3hiddenlayers.py:66 | any ascending arrangement of the vocabulary is the list `Sorted` gives, so the vector layout is reproducible |
| `Indexer.Layout` | ffnn3hiddenlayers.py:66-67 | `vocab_list`: the sorted vocabulary followed by `'<UNK>'` (definition) |
| `Indexer.Forward` | ffnn3hiddenlayers.py:70-71 | `word2index` after enumerating a list: each position `i` in turn sets `word2index[list[i]] = i`, later positions overwriting earlier ones (definition) |
| `Indexer.Inverse` | ffnn3hiddenlayers.py:70-72 | `index2word` after enumerating a list: each position `i` in turn sets `index2word[i] = list[i]` (definition) |
| `Indexer.LayoutShape` | ffnn3hiddenlayers.py:66-67 | the layout has `|vocab| + 1` entries, the marker last, elements vocab plus marker, no repetition when the marker is new |
| `Indexer.ForwardIsLastPosition` | ffnn3hiddenlayers.py:70-71 | for any list, the loop maps each listed token, and only those, to its last position |
| `Indexer.InverseIsPosition` | ffnn3hiddenlayers.py:70-72 | for any list, the loop maps exactly the positions `[0, len)` to the token at that position |
| `Indexer.ForwardOfDistinct` | ffnn3hiddenlayers.py:70-71 | on a repetition-free list each token maps to its only position, with one key per element |
| `Indexer.MapsInvertOnDistinct` | ffnn3hiddenlayers.py:70-72 | on a repetition-free list the two maps invert each other and have the list's length |
| `Indexer.IndexMapsInvert` | ffnn3hiddenlayers.py:66-74 | with `'<UNK>'` not in vocab: keys are vocab plus marker, indices exactly `[0, V)`, `index2word[word2index[w]] == w` and `word2index[index2word[i]] == i`, and `len(vocab) == len(word2index) == len(index2word) == V` |
| `Indexer.MarkerIndexIsLast` | ffnn3hiddenlayers.py:66-67 | the marker gets index `|vocab|`, the last slot, and every other vocabulary token a smaller index |
| `Indexer.IndicesFollowOrder` | ffnn3hiddenlayers.py:66-71 | for vocabulary tokens, `a < b` iff `word2index[a] < word2index[b]` |
| `Indexer.MarkerAlreadyPresent` | ffnn3hiddenlayers.py:66-73 | if the marker is already in vocab, `word2index` has `|vocab|` keys but `index2word` has `|vocab| + 1` |
| `Indexer.MakeIndices` | ffnn3hiddenlayers.py:65-74 | returns the caller's own set, now extended by the marker and nothing else, and the two maps produced by enumerating sorted vocab plus marker |
| `Vectorizer.IsIndexMap` | ffnn3hiddenlayers.py:63 | what the conversion needs of `word2index`: the marker is a key and every index is below `len(word2index)` (definition) |
| `Vectorizer.Slot` | ffnn3hiddenlayers.py:84 | `word2index.get(word, word2index[unk])`: a known token's own index, else the marker's (definition) |
| `Vectorizer.CountIn` | ffnn3hiddenlayers.py:83-85 | how many tokens of a document have slot `i` (definition) |
| `Vectorizer.BagOfWords` | ffnn3hiddenlayers.py:82-85 | the count vector: `len(word2index)` slots, slot `i` holding `CountIn(document, word2index, i)` (definition) |
| `Vectorizer.ConvertToVectorRepresentation` | ffnn3hiddenlayers.py:79-87 | same length as the input; each label unchanged and in place; each vector has length `len(word2index)` and holds the document's per-slot counts |
| `Vectorizer.SumIncrement` | ffnn3hiddenlayers.py:85 | one increment of one slot raises the sum of the vector by one |
| `Vectorizer.BagOfWordsStep` | ffnn3hiddenlayers.py:83-85 | one more token raises exactly its slot by one |
| `Vectorizer.BagSumIsLength` | ffnn3hiddenlayers.py:82-85 | the entries of a document's vector sum to the document's length |
| `Vectorizer.BagCountsKnownWord` | ffnn3hiddenlayers.py:84-85 | with an injective map, the slot of a known non-marker token counts its occurrences |
| `Vectorizer.BagCountsMarker` | ffnn3hiddenlayers.py:84-85 | with an injective map, the marker's slot counts the tokens that are not keys, plus literal markers |
| `Vectorizer.AllUnknownDocument` | ffnn3hiddenlayers.py:82-85 | a document of unknown tokens only has one non-zero entry, in the marker's slot, equal to its length |
| `Vectorizer.LayoutIsIndexMap` | ffnn3hiddenlayers.py:63-72 | the maps built from a marker-free vocabulary have the marker as a key, indices below `len(word2index)`, and no two tokens sharing an index |
| `Vectorizer.LayoutSlotCounts` | ffnn3hiddenlayers.py:82-85 | for those maps, slot `i < V - 1` counts occurrences of `index2word[i]` and slot `V - 1` counts every token outside the vocabulary |
| `Pipeline.Prepare` | ffnn3hiddenlayers.py:128-133 | vocabulary from training data only; maps from its layout; both data sets vectorized with that map; `len(vocab)` (the network's input size) equals every vector's length |
| `Training.Prediction` | ffnn3hiddenlayers.py:161-165 | the label predicted at a position: after `steps + position // 16` optimizer steps in training, after the frozen `steps` in validation (lines 199-202) (definition) |
| `Training.Correct` | ffnn3hiddenlayers.py:167 | the number of the first `n` positions whose prediction equals the gold label, as `correct += int(predicted_label == gold_label)` accumulates (also line 204) (definition) |
| `Training.Mistakes` | ffnn3hiddenlayers.py:205-206 | the `(position, predicted label)` pairs of the misclassified positions among the first `n`, in increasing position order (definition) |
| `Training.BatchPositions` | ffnn3hiddenlayers.py:157-161 | the positions `minibatch_index * 16 + example_index` in the order the nested loops produce them (definition) |
| `Training.Seen` | ffnn3hiddenlayers.py:154-157 | a pass over `N` examples sees `16 * (N // 16)` of them, which is at most `N` and more than `N - 16` |
| `Training.BatchesAreConsecutive` | ffnn3hiddenlayers.py:157-161 | the first `b` mini-batches read positions `0 .. 16b - 1`, in order, each once |
| `Training.BatchPositionsInBounds` | ffnn3hiddenlayers.py:157-161 | the loops read each position `< 16 * (N // 16) <= N` exactly once and never the remainder |
| `Training.TrainingPass` | ffnn3hiddenlayers.py:153-168 | reads exactly the batch positions; `total == 16 * (N // 16)`; `correct` counts the right predictions, batch `b` predicting after `b` more steps |
| `Training.ValidationPass` | ffnn3hiddenlayers.py:192-207 | the same reads and `total`; `correct` with frozen parameters; on the final epoch appends exactly the misclassified positions to `errors` |
| `Training.CorrectAndMistakesPartition` | ffnn3hiddenlayers.py:204-206 | every validation position seen is either counted correct or recorded as a mistake |
| `Training.MistakesAreMisclassified` | ffnn3hiddenlayers.py:205-206 | recorded positions are strictly increasing and below `total`, and each carries the label predicted there, which differs from the gold label |
| `Training.MisclassifiedAreRecorded` | ffnn3hiddenlayers.py:205-206 | every misclassified position below `total` is recorded |
| `Training.CorrectOfPerfect` | ffnn3hiddenlayers.py:167 | `correct <= total`, with equality iff every prediction is right |
| `Training.TrainingAccuracyAsWritten` | ffnn3hiddenlayers.py:182 | `correct / N`, as the training accuracy is recorded (definition) |
| `Training.Accuracy` | ffnn3hiddenlayers.py:181 | `correct / total`, as the training accuracy is printed and the validation accuracy recorded at line 220 (definition) |
| `Training.AsWrittenAccuracyOfPerfectPass` | ffnn3hiddenlayers.py:182 | as written, a pass with no wrong prediction on the examples it sees records `Seen(N)/N`: for `N >= 16` that is one iff `N % 16 == 0` and otherwise short by `N % 16` (16/17 for `N = 17`); for `N < 16`, zero included, its numerator is 0, and the source raises ZeroDivisionError at line 181 before recording anything |
| `Training.AccuracyOfPerfectPass` | ffnn3hiddenlayers.py:181 | measured over the examples seen, a pass with no wrong prediction on them scores one for every `N >= 16`; below 16 the ratio is 0/0, the source's ZeroDivisionError |
| `Training.Shuffled` | ffnn3hiddenlayers.py:152 | the training order after the in-place shuffles of the first `e` epochs, each shuffling the previous order (definition) |
| `Training.StepsAfter` | ffnn3hiddenlayers.py:157-177 | the optimizer steps taken by the end of epoch `e - 1`'s training pass: one per full mini-batch of each epoch (definition) |
| `Training.EpochTrainingAccuracy` | ffnn3hiddenlayers.py:157-181 | epoch `e`'s training accuracy: correct predictions over the examples seen, on that epoch's shuffled order (definition) |
| `Training.EpochValidationAccuracy` | ffnn3hiddenlayers.py:195-220 | epoch `e`'s validation accuracy, with the parameters that epoch's training pass left (definition) |
| `Training.Epoch` | ffnn3hiddenlayers.py:152-220 | one epoch: the training order becomes the next shuffle, the training and validation accuracies are that epoch's, the steps advance by that epoch's full batches, and the validation pass's mistakes are appended to `errors` exactly when `last` holds |
| `Training.TrainingAccuracies` | ffnn3hiddenlayers.py:182 | the list `training_acc` after `n` epochs: entry `e` is epoch `e`'s training accuracy (the corrected one, see Findings) |
| `Training.ValidationAccuracies` | ffnn3hiddenlayers.py:220 | the list `validation_acc` after `n` epochs: entry `e` is epoch `e`'s validation accuracy |
| `Training.Run` | ffnn3hiddenlayers.py:144-220 | one training and one validation accuracy per epoch, each following the shuffled order and the steps so far; `errors` ends as the final epoch's validation mistakes (empty with no epochs) |

## Findings
| source | as written | input that shows it | evidently intended | confidence | as-written member | corrected member |
|---|---|---|---|---|---|---|
| ffnn3hiddenlayers.py:182 | `training_acc.append(correct/N)` divides by the number of training examples although only `16 * (N // 16)` were predicted; the line before prints `correct / total` | 17 training examples, all 16 seen predicted right: 16/17 is recorded, not 1 | `correct / total`, the accuracy over the examples seen, as printed on line 181 and as validation does on line 220 | medium, not executed; `training_acc` is never read afterwards (lines 227-228 plot `validation_acc` and `training_loss`), so no output of the program shows it | `Training.AsWrittenAccuracyOfPerfectPass` | `Training.AccuracyOfPerfectPass` |

## Left out
- The network (`FFNN`, `forward`, `compute_Loss`, `LogSoftmax`, `NLLLoss`, `argmax`) and SGD with momentum are PyTorch calls on floating-point tensors. They become the uninterpreted `Training.Predictor`. `forward` names `self.w11`/`self.w111` while the layers are `W11`/`W111`, so the source cannot run as written.
- Loss accumulation and the loss metrics (`total_loss`, `training_loss`, `validation_loss`) are float sums and divisions, so they are not modelled.
- The accuracy divisions are float operations. They are kept as `Training.Ratio` numerator and denominator pairs.
- Run: when validation has fewer than 16 records, `total` is 0, and line 217 raises ZeroDivisionError. The model records a `Ratio` with denominator 0 instead. The same holds for the training print on line 181.
- Run: records the corrected training accuracy (`Training.Accuracy`, over the examples seen). The accuracy as written on line 182 is `Training.TrainingAccuracyAsWritten`; see Findings.
- Run: `random.shuffle` and the seeding (lines 122-123, 152) are library randomness. They become the `shuffle` parameter, applied in place to the previous epoch's order. It is not constrained to be a permutation, because no property here depends on that.
- Indexer.Sorted: Python's `sorted` is a library sort. The model builds the ascending list by taking the least element first. `Indexer.SortedIsDeterministic` shows that any correct sort gives the same list.
- Vectorizer.ConvertToVectorRepresentation: requires `word2index` to contain the marker and to map only to indices below its size, as the comment at line 63 documents. Without that, the source raises KeyError at the first token of any document when the marker is missing (line 84 looks it up for every token), and IndexError when a token whose index is out of range occurs (line 85); documents that avoid both convert normally. Both call sites (lines 132-133) pass the maps of `make_indices`, which `Vectorizer.LayoutIsIndexMap` shows meet the requirement when the marker is new.
- Pipeline.Prepare: requires that no training token is literally `<UNK>`. The loader guarantees this by lowercasing (line 100).
- `load_data` (JSON file I/O, lowercasing, splitting, and filtering against NLTK's stopword list, which is not part of this model), argument parsing, `tqdm`, timing, `print`, plotting, printing the last five errors, and the no-op `--do_train` flag are I/O and UI glue.
- The positions the loops read are a ghost trace of the two pass methods. The source keeps no such list.
