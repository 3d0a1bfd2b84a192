# MNIST spatial-pooler benchmark, modelled in Dafny

This project models the core of the MNIST example program in
`src/examples/mnist/MNIST_SP.cpp`. The program reads the MNIST training and
test sets, trains a spatial pooler (the recognizer) and an SDR classifier (the
predictor) on randomly chosen training images, and then scores the
classifier's predictions on the test images, one per test label.

The model covers three parts:

- **The IDX file readers** (`idx.dfy`, `reader.dfy`).
  - Every header word is read as a signed 32-bit integer in the host's byte order.
  - If the magic number does not match, every header word is byte-reversed.
    If it still does not match, the file is rejected as corrupt.
  - The label reader then takes one byte per label.
  - The image reader also demands 28 × 28 images. It then reads each image's
    raw pixels.
- **The two-channel threshold encoding** (`encoder.dfy`). Each pixel becomes
  two channels: "light" (1 iff the byte is at least 128) and its complement.
- **The harness bookkeeping of `main`** (`harness.dfy`).
  - Dense activity arrays are turned into sorted active-index lists.
  - Each training step picks a sample with `rand() % size`.
  - One record counter is shared by every predictor call, in both phases.
  - On the test set, the argmax of the horizon-0 distribution is compared with
    the label, and `score` and `n_samples` are counted.

The host byte order is a parameter (`Endian`). A file is its sequence of bytes.
The recognizer and the predictor are arbitrary functions the harness is given.
The harness is a class whose field is the record counter. Its ghost field is
the log of every predictor call it has made.

The main results:

- **Host independence.** Both magic numbers read as themselves in exactly one
  byte order. So the decoded header does not depend on the host
  (`Idx.HeaderHostIndependent`). Byte-swapping a file's header does not change
  the decoded header (`Idx.HeaderSwapInvariant`), nor the labels and images the
  readers return (`Reader.LabelsSwapInvariant`, `Reader.ImagesSwapInvariant`).
- **The readers.** They accept exactly the files whose header decodes, and for
  images also has 28 × 28 dimensions. Label `i` is byte `8 + i`. Image `i` is
  the encoding of the 784 bytes at `16 + 784·i`.
- **The whole run** (`Harness.RunBenchmark`).
  - The run makes exactly the predictor calls of `Harness.RunLog`: the training
    calls on the decoded training set, then one call per test label, on the
    test image at the same position.
  - In that log the `k`-th call carries record number `k`
    (`Harness.RunLogNumbered`).
  - The run ends with the totals of `Harness.ExpectedTally`: the score and
    sample count of the test loop over the decoded test set, and
    `train_time + |test labels|` records.
  - So `score <= n_samples <= |test labels|`.
  - A rejected file ends the run with the error `Harness.FileError` gives:
    the training pair is read first, and within a pair the image file before
    the label file. A rejected training file ends the run before any
    predictor call. A rejected test file ends it after exactly the training
    calls.
  - Whatever the outcome, the `k`-th call of the run carries record number
    `k`. This is part of the harness invariant.

## Model

| member | source | states |
|---|---|---|
| Idx.BigEndianValue | src/examples/mnist/MNIST_SP.cpp:48-49 | four header bytes, taken most-significant first, give a value in the unsigned 32-bit range |
| Idx.ToInt32 | src/examples/mnist/MNIST_SP.cpp:46-49 | storing that value in an `int` gives a signed 32-bit integer congruent to it modulo 2^32 |
| Idx.Reverse | src/examples/mnist/MNIST_SP.cpp:51-52 | `std::reverse` keeps the length and puts byte `i` at position `len-1-i` |
| Idx.ReverseInvolutive | src/examples/mnist/MNIST_SP.cpp:50-53 | reversing twice restores the bytes |
| Idx.Word | src/examples/mnist/MNIST_SP.cpp:48-49 | four bytes read into an `int` give the signed 32-bit value (`ToInt32`) of the bit pattern that has the first byte lowest on a little-endian host and highest on a big-endian one |
| Idx.ReverseFlipsOrder | src/examples/mnist/MNIST_SP.cpp:50-53 | reading reversed bytes in one byte order equals reading the original bytes in the other order |
| Idx.BigEndianInjective | src/examples/mnist/MNIST_SP.cpp:50-54 | two 4-byte words with the same value are the same bytes |
| Idx.DecodeHeader | src/examples/mnist/MNIST_SP.cpp:46-57 | the header is accepted iff the first word equals the magic in host order or after reversal; an accepted header has `n` words and starts with the magic |
| Idx.HeaderOneOrder | src/examples/mnist/MNIST_SP.cpp:50-53 | an accepted header is either all words in host order (no swap) or all words in the other order (swap), never a mix |
| Idx.HeaderWords | src/examples/mnist/MNIST_SP.cpp:81-86 | word `k` of an accepted header is the `k`-th 4 bytes read as is when the magic matched, and reversed otherwise |
| Idx.MagicReadsOneWay | src/examples/mnist/MNIST_SP.cpp:50-54 | bytes that read as 0x801 or 0x803 in one byte order do not in the other, so the second comparison only fails for a corrupt file |
| Idx.HeaderHostIndependent | src/examples/mnist/MNIST_SP.cpp:46-57 | a little-endian host and a big-endian host decode the same header from the same file, or both reject it |
| Idx.SwapHeader | src/examples/mnist/MNIST_SP.cpp:81-86 | byte-swapping the first `n` header words keeps the file's length and payload and reverses each of those words |
| Idx.HeaderSwapInvariant | src/examples/mnist/MNIST_SP.cpp:73-90 | a file and its header-swapped twin decode to the same header |
| Encoder.Light | src/examples/mnist/MNIST_SP.cpp:102 | the first channel is 0 or 1, and 1 exactly when the byte is at least 128 |
| Encoder.Channel | src/examples/mnist/MNIST_SP.cpp:102-103 | a channel is 0 or 1, and the second channel is `1 -` the first |
| Encoder.Encoding | src/examples/mnist/MNIST_SP.cpp:99-104 | an image of `n` pixels encodes to `2n` values |
| Encoder.EncodingChannels | src/examples/mnist/MNIST_SP.cpp:101-104 | position `k` of the encoding is channel `k % 2` of pixel `k / 2` |
| Encoder.PixelChannels | src/examples/mnist/MNIST_SP.cpp:101-104 | for every pixel `p`: `data[2p]` is 1 iff `raw[p] >= 128`, both channels are 0 or 1, and they sum to 1 |
| Encoder.EncodingAppend | src/examples/mnist/MNIST_SP.cpp:101-104 | the encoding works pixel by pixel: encoding a concatenation concatenates the encodings |
| Encoder.AllDarkImage | src/examples/mnist/MNIST_SP.cpp:101-104 | an all-zero image encodes to alternating 0, 1 |
| Encoder.EncodingExample | src/examples/mnist/MNIST_SP.cpp:101-104 | the bytes 0, 255, 128, 50 encode to 0,1, 1,0, 1,0, 0,1 |
| Encoder.EncodeImage | src/examples/mnist/MNIST_SP.cpp:99-104 | the array filled by the threshold loop holds the encoding of the raw pixels |
| Reader.LabelHeader | src/examples/mnist/MNIST_SP.cpp:46-57 | a label header is accepted iff its first word reads as 0x801 in the host's byte order or in the other one; it then has two words, the first being 0x801 |
| Reader.ImageHeader | src/examples/mnist/MNIST_SP.cpp:73-90 | an image header is accepted iff its first word reads as 0x803 in the host's byte order or in the other one; it then has four words, the first being 0x803 |
| Reader.ImagesAccepted | src/examples/mnist/MNIST_SP.cpp:87-92 | an image file passes iff its header decodes with 28 rows and 28 columns |
| Reader.AcceptedImageSize | src/examples/mnist/MNIST_SP.cpp:91-93 | in a file `ImagesAccepted` lets through (header accepted, 28 rows, 28 columns), `n_rows * n_cols` is the image size of 784 the reader uses |
| Reader.DecodedLabels | src/examples/mnist/MNIST_SP.cpp:58-63 | an accepted label file holds as many labels as its count announces, none for a negative count |
| Reader.DecodedImages | src/examples/mnist/MNIST_SP.cpp:94-107 | an accepted image file holds as many images as its count announces, none for a negative count |
| Reader.PixelsDecoded | src/examples/mnist/MNIST_SP.cpp:94-107 | images that are, one by one, the encodings of the file's raw images are `DecodedImages` |
| Reader.LabelsSwapInvariant | src/examples/mnist/MNIST_SP.cpp:46-63 | a label file and its header-swapped twin are both rejected, or both give the same labels |
| Reader.ImagesSwapInvariant | src/examples/mnist/MNIST_SP.cpp:73-107 | an image file and its header-swapped twin have the same header, and give the same images when accepted |
| Reader.Iterations | src/examples/mnist/MNIST_SP.cpp:59 | a loop `for (int i = 0; i < count; ++i)` runs `count` times, and not at all for a negative count |
| Reader.ImageBytes | src/examples/mnist/MNIST_SP.cpp:96-97 | image `i` is the `28*28` bytes after the 16-byte header and the `i` images before it |
| Reader.ReadLabelHeader | src/examples/mnist/MNIST_SP.cpp:46-53 | after the conditional swap, the magic equals 0x801 iff the label header is accepted, and then the count is the header's second word |
| Reader.ReadLabelBytes | src/examples/mnist/MNIST_SP.cpp:58-63 | the push loop yields `Iterations(count)` labels, label `i` being byte `8 + i` |
| Reader.ReadLabels | src/examples/mnist/MNIST_SP.cpp:40-65 | the reader fails (corrupt) iff the header is rejected; otherwise it returns one label per announced entry, label `i` being byte `8 + i`, which is `DecodedLabels` |
| Reader.ReadImageHeader | src/examples/mnist/MNIST_SP.cpp:73-86 | after the conditional swap of all four words, the magic equals 0x803 iff the image header is accepted, and then count, rows and columns are the header's words 1, 2 and 3 |
| Reader.ReadPixels | src/examples/mnist/MNIST_SP.cpp:94-107 | the image loop yields `Iterations(count)` images, image `i` being the encoding of `ImageBytes(file, i)` |
| Reader.ReadImages | src/examples/mnist/MNIST_SP.cpp:67-109 | the reader succeeds iff the header is accepted with 28 rows and 28 columns; it fails as corrupt on a rejected header and on bad dimensions otherwise; image `i` is the encoding of its raw bytes, and the images are `DecodedImages` |
| Reader.SampleLabelHeader | src/examples/mnist/MNIST_SP.cpp:46-57 | a big-endian label file announcing 3 labels decodes to (0x801, 3) on either host |
| Reader.ReadLabelsExample | src/examples/mnist/MNIST_SP.cpp:40-65 | that file reads as the labels 5, 2, 5 on either host |
| Reader.SampleImageHeader | src/examples/mnist/MNIST_SP.cpp:73-90 | a big-endian 2×2 image file decodes to (0x803, 1, 2, 2) on either host |
| Reader.ReadImagesExample | src/examples/mnist/MNIST_SP.cpp:91-92 | that file is refused for its dimensions |
| Harness.NonzeroIndices | src/examples/mnist/MNIST_SP.cpp:182-187 | there are no more active indices than array entries |
| Harness.NonzeroIndicesSpec | src/examples/mnist/MNIST_SP.cpp:182-187 | the active indices strictly increase, are in bounds, and index `i` is listed iff `activeArray[i] != 0` |
| Harness.ActiveIndices | src/examples/mnist/MNIST_SP.cpp:214-219 | the push loop returns exactly the non-zero positions in scan order |
| Harness.SampleIndex | src/examples/mnist/MNIST_SP.cpp:176 | `rand() % size` is a valid index, and is `rand()` itself when that is below the size |
| Harness.ArgMax | src/examples/mnist/MNIST_SP.cpp:232-233 | the position found is inside a non-empty distribution, and 0 for an empty one |
| Harness.ArgMaxIsFirstMax | src/examples/mnist/MNIST_SP.cpp:232-233 | `max_element` gives a maximum, and the first one: every earlier entry is strictly smaller |
| Harness.ArgMaxUnique | src/examples/mnist/MNIST_SP.cpp:232-233 | any first maximum is the position found, so ties go to the lowest class |
| Harness.SampleCount | src/examples/mnist/MNIST_SP.cpp:229-238 | a result adds at most one sample per entry |
| Harness.HitCount | src/examples/mnist/MNIST_SP.cpp:229-238 | a result adds no more hits than samples |
| Harness.NoSampleIffNoHorizon | src/examples/mnist/MNIST_SP.cpp:229-230 | a result adds no sample iff none of its entries has horizon 0 |
| Harness.BelowLast | src/examples/mnist/MNIST_SP.cpp:229 | in an ordered result, every entry's horizon is below the last one's |
| Harness.OneSamplePerResult | src/examples/mnist/MNIST_SP.cpp:229-237 | one result adds at most one sample, because horizons are distinct keys |
| Harness.SampledIffHorizon | src/examples/mnist/MNIST_SP.cpp:229-237 | one result adds exactly one sample iff it has a horizon-0 entry |
| Harness.CheckResult | src/examples/mnist/MNIST_SP.cpp:229-238 | the result-checking loop counts the hits and the samples of one result |
| Harness.TrainingCall | src/examples/mnist/MNIST_SP.cpp:189-195 | a training call carries the current record number, learns and does not infer, and its bucket and value lists are the one sampled label |
| Harness.TestingCall | src/examples/mnist/MNIST_SP.cpp:221-227 | a test call carries the current record number, infers and does not learn, and its bucket and value lists are empty, so the label never reaches the predictor |
| Harness.Answer | src/examples/mnist/MNIST_SP.cpp:220-227 | the predictor's answer to one test call adds at most one sample |
| Harness.TrainingCalls | src/examples/mnist/MNIST_SP.cpp:174-197 | `n` training steps make `n` predictor calls |
| Harness.TrainingCallsSteps | src/examples/mnist/MNIST_SP.cpp:174-197 | training step `k` makes the training call for the sample `rand(k) % size` under record `first + k` |
| Harness.TestingCalls | src/examples/mnist/MNIST_SP.cpp:206-227 | `n` test steps make `n` predictor calls |
| Harness.TestingCallsSteps | src/examples/mnist/MNIST_SP.cpp:206-227 | test step `k` makes the test call on test image `k` under record `first + k` |
| Harness.RecordNumbersConsecutive | src/examples/mnist/MNIST_SP.cpp:166-227 | in a log of training calls from record 0 followed by test calls, the `k`-th call carries record number `k` |
| Harness.TestSamples | src/examples/mnist/MNIST_SP.cpp:202-239 | `n` test steps add at most `n` samples |
| Harness.TestScore | src/examples/mnist/MNIST_SP.cpp:202-239 | the score never exceeds the number of samples |
| Harness.OneSampleEach | src/examples/mnist/MNIST_SP.cpp:229-238 | when every answer has a horizon-0 entry, the sample count is the number of test steps |
| Harness.ScoringExample | src/examples/mnist/MNIST_SP.cpp:229-238 | with a predictor that always favours class 1, the labels 0, 1, 2, 1 score 2 out of 4 |
| Harness.Harness.constructor | src/examples/mnist/MNIST_SP.cpp:166 | the record counter starts at 0 with no predictor calls made, which sets up the invariant that call `k` carries record `k` |
| Harness.Harness.Classify | src/examples/mnist/MNIST_SP.cpp:189-195 | one predictor call is made with the current record number, the counter goes up by one, and the predictor's answer is returned; the invariant that call `k` carries record `k` is kept |
| Harness.Harness.TrainStep | src/examples/mnist/MNIST_SP.cpp:175-196 | one training step makes the next training call and adds one record |
| Harness.Harness.Train | src/examples/mnist/MNIST_SP.cpp:174-197 | training adds `trainTime` records and makes exactly the training calls |
| Harness.Harness.TestStep | src/examples/mnist/MNIST_SP.cpp:207-238 | one test step makes the next test call and adds that image's hits and samples |
| Harness.Harness.Test | src/examples/mnist/MNIST_SP.cpp:202-239 | testing adds one record per test label, makes exactly the test calls, and returns the total score and sample count |
| Harness.ExpectedTally | src/examples/mnist/MNIST_SP.cpp:199-239 | the totals of a run: 60000 plus the number of test labels as records, and a score at most the sample count, which is at most the number of test labels |
| Harness.RunLog | src/examples/mnist/MNIST_SP.cpp:166-227 | the calls of a run number 60000 plus the number of test labels |
| Harness.RunLogNumbered | src/examples/mnist/MNIST_SP.cpp:166-227 | in the calls of a run, the `k`-th carries record number `k` |
| Harness.FileError | src/examples/mnist/MNIST_SP.cpp:169-171 | reading an image file and then its label file fails iff one is rejected; a bad image magic is `Corrupt`, and `BadDimensions` comes exactly from an image header that decodes with other dimensions than 28 × 28, so the image file's error wins over the label file's |
| Harness.TrainPhase | src/examples/mnist/MNIST_SP.cpp:169-197 | the training half fails iff a training file is rejected, with the error `FileError` gives, before any predictor call; otherwise the counter is at 60000 and the calls are the training calls on the decoded training set |
| Harness.TestPhase | src/examples/mnist/MNIST_SP.cpp:199-239 | the test half fails iff a test file is rejected, with the error `FileError` gives and no call made; otherwise it makes the test calls on the decoded test set and returns `ExpectedTally` |
| Harness.RunBenchmark | src/examples/mnist/MNIST_SP.cpp:166-240 | the run completes iff all four files are accepted, and then makes exactly the calls of `RunLog` and returns `ExpectedTally`; otherwise its error is the training pair's `FileError` if there is one, else the test pair's; a rejected training file means no calls, and accepted training files mean the training calls are a prefix of the log, the whole log when a test file is rejected; call `k` always carries record `k` |

## Left out

- The spatial pooler and the SDR classifier are not modelled: the
  `SpatialPoolerTopology` and `SDRClassifier` sources are not part of this
  model. They are the function parameters `sp` and `clsr`, and their
  configuration (lines 139-164) is left out. What the classifier learns in
  training is not modelled. Its answer depends only on the call, and the call
  carries the record number. So any sequence of answers a learning classifier
  could give is one such function.
- The recognizer returns an activity array of any length; the fixed width
  `ncols = 10 * 10 * 100` (line 158) is not modelled.
- In training the program reuses one `activeArray` across steps (line 167)
  and passes it to `sp.compute` without clearing it. The model treats the
  recognizer's output as a fresh array each step.
- Opening a file, and the `exit(1)` when that fails, are not modelled. A file
  is given as its bytes.
- The fatal `exit(1)` on a corrupt header is an `Err(Corrupt)` result.
- A failed `NTA_ASSERT` on the dimensions is an `Err(BadDimensions)` result.
  The assertion is modelled as always active.
- Short reads are excluded by preconditions (`LabelsFit`, `ImagesFit`). A
  truncated file would leave the rest of a buffer unread, which the model
  does not describe.
- The signal handlers (lines 117-118) and the console output are left out.
- `rand()` is a parameter `rand: nat -> nat` that gives the value for each
  training step. The C library generator and its seed are not modelled.
- Harness.SampleIndex: the contract states the bound and the identity below
  `size`, which is weaker than `rnd % size`. The body computes `rnd % size`,
  and the rest of the model uses that value.
- The final line divides `score / n_samples` in floating point (line 240) and
  prints it. It is left out, including the division by zero when there are no
  samples. The run returns the two counts instead.
- `score` is a `Real` in the source, a floating-point type. Here it is a
  natural number. `score += 1` is exact only while `score` is below 2^24 for
  a 32-bit float, or 2^53 for a 64-bit one. The model agrees with the source
  under that bound, and the 10000-label MNIST test set stays far below it.
- The predictor's distributions are floating point in the source and
  `seq<real>` here: there is no NaN and no IEEE rounding. `std::max_element`
  compares with `<`. So `Harness.ArgMax` agrees with it only when no entry is
  NaN. For example, the source gives 0 for `{NaN, 1.0}`, a case the model
  cannot express.
- `recordNum`, `index` and the counters are `UInt` in the source. Their 32-bit
  wrap-around is not modelled, because it cannot happen with 60000 training
  steps and a test set read from a file.
- Header words are modelled as signed 32-bit integers.
- Allocation of the image buffers (`new[]`, `delete[]`) and their lifetimes
  are not modelled. An image is a sequence value.
- The program never checks that the label and image counts agree. Indexing
  an image past the end is undefined behaviour in the source, so the
  precondition `Paired` requires each label file to announce no more labels
  than its image file has images.
- `Paired` also requires at least one training label, because
  `rand() % 0` is undefined.
- The classifier result is an ordered map in the source. Here it is a
  sequence of entries with strictly increasing horizons, which is how the
  `for (auto iter : result)` loop visits it.
- The source aborts on neither a count mismatch nor an empty test set, and
  the model follows the code on both.
