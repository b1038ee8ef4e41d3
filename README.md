# PatchNet dataset building, seq2seq batches and GumTree method-pair extraction

This project is a Dafny model of three pieces of a neural code-editing
pipeline, with proofs about each.

- **PatchNet dataset builder** (`patchnet.dfy`, module `PatchNetDataset`). A
  description file comes as a list of lines. Lines are paired two by two into
  examples. Each example gives a commit hash and a stable flag. The hash is
  piece 1 of its first line split at `": "`: the text between the first and
  the second separator (`"commit: abc: x"` gives `abc`). The flag is
  `strtobool` of piece 1 of its second line, split the same way. Every
  example becomes a numbered `DataSample`, and the token counters of all the
  commits are summed.
  - For pre-training, the mined commits are numbered in order. A commit whose
    MODIFY diffs hold more than `MAX_DIFF_LENGTH` (100) lines is skipped. The
    others become unstable samples.
  - The samples are split into stable and unstable samples.
  - `write_data` turns the samples into the line lists of `prev.txt`,
    `updated.txt`, `trg.txt`, `ids.txt` and `commit_hashes.txt`.
- **Seq2seq batch** (`batch.dfy`, module `Seq2SeqBatch`). The `Batch`
  constructor takes padded token matrices with their lengths.
  - It builds a pad mask of shape (rows, 1, width) for the source and the
    three diff inputs.
  - Given a target, it forms the decoder input `trg[:, :-1]` and the gold
    output `trg[:, 1:]`.
  - It builds the target mask from the gold output and counts the non-pad
    gold tokens (`ntokens`).
- **Method-pair extractor** (`diff_extractor.dfy`, module `GumTreeDiffer`).
  The GumTree tree of the prev Java file is walked in pre-order. A node pairs
  when it is a method declaration and the updated-side node it is mapped to is
  one as well.
  - Each pair holds the prev method's name and the two methods' texts, each
    sliced from its file. The name is the label of the first SIMPLE_NAME
    child, or `NoMethodNameFound_<hashCode>` when there is none.
  - The pairs are written as `method_pairs/<name>/prev_method.java` and
    `updated_method.java`. File writes are modelled as a list of operations
    run against a small file-system model. This lets the proofs state when
    saving succeeds and when it fails.
- **Shared helpers.** `text.dfy` (module `Text`) models Python's
  `str.split(sep)` and `sep.join`, and decimal formatting by `str(n)` and
  `Integer.toString`. `wrappers.dfy` holds `Option` and `Result`.

Each exception the modelled code can raise is an error value:
- `IndexError` from a line without `": "`;
- `ValueError` from `strtobool`;
- `TypeError` from `int(None)`;
- `NullPointerException` for an unmatched method declaration;
- `StringIndexOutOfBoundsException` from `substring`;
- `FileAlreadyExistsException`.

Traversal note. On line 49 of `DiffExtractor.java` the `&&` short-circuits.
The mapped node is looked at only when the visited node is itself a
`METHOD_DECLARATION`. So an unmapped node makes the extraction fail only when
it is a method declaration; every other unmapped node is passed over and its
children are still visited. The model follows this (`VisitNode`). It does not
require every visited node to have a mapping.

Structure note. The recursion `extractMethodDiffsRecursively` is modelled as
three methods:
- `AddOwnPair`: the node's own lookup and append;
- `ExtractChildren`: the `for` loop over the children;
- `ExtractMethodDiffsRecursively`: the two together.

All three are proved against the pre-order specification `CollectAll(PreOrder(t))`.

## Model

| member | source | states |
|---|---|---|
| PatchNetDataset.ExamplesTextData | datasets/PatchNet/PatchNetDataset.py:138-140 | There are `⌊n/2⌋` examples for `n` lines, and example `i` is the pair of lines `2i` and `2i+1`. |
| PatchNetDataset.ExamplesCoverEvenPrefix | datasets/PatchNet/PatchNetDataset.py:140 | The examples, flattened, are every line of the description except an unpaired last one, in order. |
| PatchNetDataset.TrailingLineDropped | datasets/PatchNet/PatchNetDataset.py:140 | Appending one line to an even-length description adds no example. |
| PatchNetDataset.CommitHashFieldSpec | datasets/PatchNet/PatchNetDataset.py:129-131 | The hash is found exactly when the first line holds `": "`. Otherwise it is an IndexError; the model's error carries that line, which Python's does not. The hash itself holds no `": "`. |
| PatchNetDataset.CommitHashOfKeyValueLine | datasets/PatchNet/PatchNetDataset.py:129-131 | For a line `key: value[: more…]` whose pieces hold no `": "`, the extracted hash is `value`. |
| PatchNetDataset.StrToBool | datasets/PatchNet/PatchNetDataset.py:133-135 | Gives true exactly for the lower-cased words y/yes/t/true/on/1 and false exactly for n/no/f/false/off/0. Any other value is a ValueError that carries the lower-cased value. |
| PatchNetDataset.StrToBoolIgnoresCase | datasets/PatchNet/PatchNetDataset.py:135 | Two values that differ only in letter case are read the same way. |
| PatchNetDataset.StableFieldSpec | datasets/PatchNet/PatchNetDataset.py:133-135 | Without `": "` the stable field is an IndexError (the model's error carries the line). With one, it is `strtobool` of the second piece. |
| PatchNetDataset.StableOfKeyValueLine | datasets/PatchNet/PatchNetDataset.py:133-135 | For a line `key: value[: more…]` whose pieces hold no `": "`, the stable field is `strtobool(value)`. |
| PatchNetDataset.KeyValueLineSplits | datasets/PatchNet/PatchNetDataset.py:131 | Splitting such a line at `": "` gives at least two pieces, and the second is `value`. |
| PatchNetDataset.ParseExamples | datasets/PatchNet/PatchNetDataset.py:78-80 | There is one parse result per example. |
| PatchNetDataset.ParseExamplesAt | datasets/PatchNet/PatchNetDataset.py:79-80 | Result `i` is the parse of example `i`: the hash first, then the stable field. |
| PatchNetDataset.DescribeAllErrSticks | datasets/PatchNet/PatchNetDataset.py:78-84 | Once an example fails, the whole extraction fails with that same error. |
| PatchNetDataset.DescribeAllSpec | datasets/PatchNet/PatchNetDataset.py:78-84 | The extraction succeeds iff every example parses. On success there is one sample per example, in order, with `idx == i` and the example's hash and label. On failure the error is that of the first example that fails. |
| PatchNetDataset.SumCountersAppend | datasets/PatchNet/PatchNetDataset.py:84 | The summed counter of two sample lists is the sum of their counters. |
| PatchNetDataset.ParseExampleSpec | datasets/PatchNet/PatchNetDataset.py:79-80 | The hash line is read first: without `": "` it raises IndexError whatever the stable line holds. Then a stable line without `": "` raises IndexError. Otherwise the result is `strtobool`'s error, or the pair of piece 1 of the hash line and the truth value of piece 1 of the stable line. |
| PatchNetDataset.ExtractDataSamples | datasets/PatchNet/PatchNetDataset.py:72-91 | The loop returns exactly the samples of the described examples and their summed token counter, or the first parse error. |
| PatchNetDataset.ModifiedLineCountAppend | datasets/PatchNet/PatchNetDataset.py:123-126 | The MODIFY line count of two modification lists is the sum of their counts. |
| PatchNetDataset.ModifiedLineCountBounds | datasets/PatchNet/PatchNetDataset.py:124-126 | Only MODIFY diffs count: the count is at most the number of all diff lines, and equals it when every change is a MODIFY. |
| PatchNetDataset.NonModifyIgnored | datasets/PatchNet/PatchNetDataset.py:125 | Inserting a modification that is not a MODIFY never changes the count. |
| PatchNetDataset.IsGreaterThanMaxNumberOfLinesInDiff | datasets/PatchNet/PatchNetDataset.py:121-127 | The result is true iff the MODIFY diff lines number strictly more than 100. |
| PatchNetDataset.KeptIndices | datasets/PatchNet/PatchNetDataset.py:105-108 | Every kept position is below `n`. |
| PatchNetDataset.KeptAreUnflagged | datasets/PatchNet/PatchNetDataset.py:106-108 | Every kept commit is not too long. |
| PatchNetDataset.UnflaggedAreKept | datasets/PatchNet/PatchNetDataset.py:105-111 | Every commit that is not too long is kept. |
| PatchNetDataset.KeptIncreasing | datasets/PatchNet/PatchNetDataset.py:105 | The kept positions are strictly increasing, so commit order is kept. |
| PatchNetDataset.KeptIndicesSpec | datasets/PatchNet/PatchNetDataset.py:105-111 | The kept positions are exactly the unflagged ones, in increasing order. |
| PatchNetDataset.PreTrainSamplesAreKept | datasets/PatchNet/PatchNetDataset.py:105-111 | Sample `j` is the kept commit `kept[j]`, built with label False and numbered `kept[j]`. |
| PatchNetDataset.ExtractDataSamplesForPreTrain | datasets/PatchNet/PatchNetDataset.py:94-119 | The loop returns exactly the pre-train samples and their summed counter. |
| PatchNetDataset.PreTrainKeepsUnflagged | datasets/PatchNet/PatchNetDataset.py:105-110 | A commit position appears as a sample's `idx` iff that commit is not too long. |
| PatchNetDataset.PreTrainSamplesShape | datasets/PatchNet/PatchNetDataset.py:109-111 | Every pre-train sample is unstable and carries its commit's hash and code. The idx values strictly increase. No pre-train sample is stable. |
| PatchNetDataset.StablePatches | datasets/PatchNet/PatchNetDataset.py:142-143 | A sample is in the stable list iff it is a sample whose label is True. |
| PatchNetDataset.UnstablePatches | datasets/PatchNet/PatchNetDataset.py:145-146 | A sample is in the unstable list iff it is a sample whose label is not True (False or None). |
| PatchNetDataset.NoStableNoPatches | datasets/PatchNet/PatchNetDataset.py:142-143 | Samples none of which is stable give an empty stable list. |
| PatchNetDataset.PartitionSizes | datasets/PatchNet/PatchNetDataset.py:142-146 | The two list sizes add up to the number of samples. |
| PatchNetDataset.PartitionContents | datasets/PatchNet/PatchNetDataset.py:142-146 | As multisets, the stable list plus the unstable list is exactly the sample list. |
| PatchNetDataset.PartitionCounters | datasets/PatchNet/PatchNetDataset.py:142-146 | The token counters of the two lists sum to the counter of all samples. |
| PatchNetDataset.PartitionKeepsOrder | datasets/PatchNet/PatchNetDataset.py:142-146 | Each list is a subsequence of the samples, so the relative order is kept. |
| PatchNetDataset.TrgFileLines | datasets/PatchNet/PatchNetDataset.py:159 | The lines exist iff every sample is labelled. Line `i` is `"1"` or `"0"` for sample `i`. Otherwise it is a TypeError at the first unlabelled sample; the model's error carries that sample's idx, which Python's does not. |
| PatchNetDataset.IdsFileLines | datasets/PatchNet/PatchNetDataset.py:160 | There is one line per sample, and line `i` is `str` of sample `i`'s idx. |
| PatchNetDataset.CommitHashesFileLines | datasets/PatchNet/PatchNetDataset.py:161 | There is one line per sample, and line `i` is sample `i`'s commit hash. |
| PatchNetDataset.PrevFileLines | datasets/PatchNet/PatchNetDataset.py:156 | There is one line per sample, and line `i` is sample `i`'s prev tokens joined by spaces. |
| PatchNetDataset.UpdatedFileLines | datasets/PatchNet/PatchNetDataset.py:157-158 | There is one line per sample, and line `i` is sample `i`'s updated tokens joined by spaces. |
| PatchNetDataset.WriteData | datasets/PatchNet/PatchNetDataset.py:155-166 | Writing succeeds iff every sample is labelled. It then produces, in order, `prev.txt`, `updated.txt`, `trg.txt`, `ids.txt` and `commit_hashes.txt`, each holding its line list joined by newlines. All line lists are built before the first write, so an unlabelled sample means no file is written. |
| PatchNetDataset.TrgLinesCountPartition | datasets/PatchNet/PatchNetDataset.py:159 | `trg.txt` holds as many `"1"` lines as there are stable patches and as many `"0"` lines as unstable ones. |
| PatchNetDataset.TrgLineReadsBack | datasets/PatchNet/PatchNetDataset.py:159 | `strtobool` of line `i` of `trg.txt` gives sample `i`'s label back. |
| PatchNetDataset.IdsLineReadsBack | datasets/PatchNet/PatchNetDataset.py:160 | An `ids.txt` line is all digits and parses back to the sample's idx. Samples with different idx have different lines. |
| PatchNetDataset.TrgFileSplitsIntoLabels | datasets/PatchNet/PatchNetDataset.py:164 | Splitting the written `trg.txt` text at newlines gives back exactly the label lines. |
| PatchNetDataset.IdsFileReadsBack | datasets/PatchNet/PatchNetDataset.py:160-165 | Splitting the written `ids.txt` text at newlines gives one decimal line per sample, and line `i` reads back as sample `i`'s idx. |
| PatchNetDataset.CommitHashesFileReadsBack | datasets/PatchNet/PatchNetDataset.py:161-166 | When no hash holds a newline, splitting `commit_hashes.txt` at newlines gives back each sample's hash, in order. |
| PatchNetDataset.PrevLineReadsBack | datasets/PatchNet/PatchNetDataset.py:156 | A `prev.txt` line split at spaces gives back the sample's prev tokens, when there is at least one and none holds a space. |
| PatchNetDataset.UpdatedLineReadsBack | datasets/PatchNet/PatchNetDataset.py:157-158 | An `updated.txt` line split at spaces gives back the sample's updated tokens, under the same conditions. |
| Text.IndexOfSpec | datasets/PatchNet/PatchNetDataset.py:131 | The search finds the first occurrence of the separator, and finds none exactly when the separator does not occur. |
| Text.SplitPieces | datasets/PatchNet/PatchNetDataset.py:131 | `split` gives more than one piece iff the separator occurs, and no piece contains it. |
| Text.JoinSplit | datasets/PatchNet/PatchNetDataset.py:131 | Joining the pieces of a split with the separator gives back the original string. |
| Text.SplitJoin | datasets/PatchNet/PatchNetDataset.py:162-166 | Splitting a join of separator-free pieces gives the pieces back, for a separator like `": "` or `"\n"`. |
| Text.ParseNatToString | datasets/PatchNet/PatchNetDataset.py:160 | Reading `str(n)` back as a decimal number gives `n`. |
| Text.NatToStringInjective | datasets/PatchNet/PatchNetDataset.py:160 | Different numbers are formatted differently. |
| Text.IntToStringRoundTrip | neural_editor/seq2seq/datasets/Defects4J/GumTreeDiffer/src/main/java/DiffExtractor.java:100 | `Integer.toString(i)` is a well-formed, optionally signed decimal that reads back to `i`. |
| Seq2SeqBatch.NotPad | neural_editor/seq2seq/Batch.py:35 | `m != pad_index` has the shape of `m` and is true exactly at the entries that are not padding. |
| Seq2SeqBatch.Unsqueeze | neural_editor/seq2seq/Batch.py:13 | `unsqueeze(-2)` keeps the rows and wraps each row as a single-row matrix. |
| Seq2SeqBatch.PadMaskSpec | neural_editor/seq2seq/Batch.py:13-21 | A source or diff mask has shape (rows, 1, width) and is true exactly at the non-pad tokens. |
| Seq2SeqBatch.DecoderInput | neural_editor/seq2seq/Batch.py:32 | `trg[:, :-1]` keeps the rows. Each row loses its last entry (an empty row stays empty), and the remaining entries are unchanged. |
| Seq2SeqBatch.GoldOutput | neural_editor/seq2seq/Batch.py:34 | `trg[:, 1:]` keeps the rows. Each row loses its first entry, and entry `j` is the target's `j+1`. |
| Seq2SeqBatch.ShiftShape | neural_editor/seq2seq/Batch.py:31-34 | A rectangular target of width W gives rectangular decoder input and gold output of width W−1 (0 when W = 0). |
| Seq2SeqBatch.ShiftReconstructs | neural_editor/seq2seq/Batch.py:31-34 | No token is lost. Each target row is its decoder input plus its last token, and also its first token plus its gold output. |
| Seq2SeqBatch.ShiftAligned | neural_editor/seq2seq/Batch.py:31-34 | Teacher forcing: the decoder input at step `j+1` is the gold output of step `j`. |
| Seq2SeqBatch.CountNonPad | neural_editor/seq2seq/Batch.py:36 | A row holds at most as many non-pad tokens as it has entries. |
| Seq2SeqBatch.NTokensAtMostEntries | neural_editor/seq2seq/Batch.py:36 | `ntokens` is at most the number of entries. |
| Seq2SeqBatch.EntriesRectangular | neural_editor/seq2seq/Batch.py:36 | A rectangular matrix has rows × width entries. |
| Seq2SeqBatch.NTokensBound | neural_editor/seq2seq/Batch.py:34-36 | For a target of width W > 0, `ntokens` ≤ rows·(W−1). |
| Seq2SeqBatch.CountNonPadIsMaskCount | neural_editor/seq2seq/Batch.py:35-36 | A row's non-pad count is the number of true entries in its mask row. |
| Seq2SeqBatch.NTokensIsMaskCount | neural_editor/seq2seq/Batch.py:35-36 | `ntokens` is the number of true entries of `trg_mask`. |
| Seq2SeqBatch.CountPaddedRow | neural_editor/seq2seq/Batch.py:36 | A row of `len` tokens followed only by padding has `len` non-pad entries. |
| Seq2SeqBatch.NTokensOfPaddedTarget | neural_editor/seq2seq/Batch.py:31-36 | For a properly padded target with every length ≥ 1, `ntokens` plus the number of rows is the sum of the target lengths. |
| Seq2SeqBatch.Batch.constructor | neural_editor/seq2seq/Batch.py:9-36 | Every field matches `__init__` exactly, with `pad_index` 0 unless given. Each tensor keeps its lengths, the source and diff masks are computed from their tensors, and `nseqs` is the source row count. Without a target, all five target fields are None. With one, they are the decoder input, the gold output, its mask, the lengths and the gold token count. |
| GumTreeDiffer.NodeText | neural_editor/seq2seq/datasets/Defects4J/GumTreeDiffer/src/main/java/DiffExtractor.java:88-90 | `substring(pos, endPos)` succeeds iff 0 ≤ pos ≤ endPos ≤ length. Its text is the content's characters `pos…endPos−1`. Otherwise it fails with StringIndexOutOfBounds. |
| GumTreeDiffer.NodeTextNested | neural_editor/seq2seq/datasets/Defects4J/GumTreeDiffer/src/main/java/DiffExtractor.java:88-90 | A node whose range lies inside another's has text that is the matching piece of the outer text. |
| GumTreeDiffer.NodeTextAdjacent | neural_editor/seq2seq/datasets/Defects4J/GumTreeDiffer/src/main/java/DiffExtractor.java:88-90 | The texts of two adjacent ranges concatenate to the text of their union. |
| GumTreeDiffer.SimpleNameLabels | neural_editor/seq2seq/datasets/Defects4J/GumTreeDiffer/src/main/java/DiffExtractor.java:93-96 | The filtered names are no more than the children. |
| GumTreeDiffer.SimpleNameLabelsSpec | neural_editor/seq2seq/datasets/Defects4J/GumTreeDiffer/src/main/java/DiffExtractor.java:93-96 | The first collected label is the label of the first SIMPLE_NAME child. |
| GumTreeDiffer.NoSimpleNameNoLabels | neural_editor/seq2seq/datasets/Defects4J/GumTreeDiffer/src/main/java/DiffExtractor.java:93-97 | Without a SIMPLE_NAME child no label is collected. |
| GumTreeDiffer.MethodNameFirstWins | neural_editor/seq2seq/datasets/Defects4J/GumTreeDiffer/src/main/java/DiffExtractor.java:102-108 | With one or more SIMPLE_NAME children, the method is named by the first one. |
| GumTreeDiffer.MethodNameFallback | neural_editor/seq2seq/datasets/Defects4J/GumTreeDiffer/src/main/java/DiffExtractor.java:97-100 | Without a SIMPLE_NAME child, the name is `NoMethodNameFound_` followed by the hash code in decimal, which reads back to the hash code. |
| GumTreeDiffer.NewMethodDiff | neural_editor/seq2seq/datasets/Defects4J/GumTreeDiffer/src/main/java/DiffExtractor.java:78-86 | The pair is built iff both texts can be sliced. It then holds the prev method's name and the two texts. A failing prev slice is the error that is raised (it is sliced first); otherwise a failing updated slice is. |
| GumTreeDiffer.NameFromPrevOnly | neural_editor/seq2seq/datasets/Defects4J/GumTreeDiffer/src/main/java/DiffExtractor.java:81-85 | The updated method's own name never changes the pair; a mismatch only prints a warning. |
| GumTreeDiffer.PreOrder | neural_editor/seq2seq/datasets/Defects4J/GumTreeDiffer/src/main/java/DiffExtractor.java:47-55 | The traversal starts at the node itself. |
| GumTreeDiffer.PreOrderForestAppend | neural_editor/seq2seq/datasets/Defects4J/GumTreeDiffer/src/main/java/DiffExtractor.java:52-54 | Visiting two child lists in turn is visiting their concatenation. |
| GumTreeDiffer.ChildBlock | neural_editor/seq2seq/datasets/Defects4J/GumTreeDiffer/src/main/java/DiffExtractor.java:52-54 | Child `k`'s subtree is visited as one contiguous block. The block comes after the node and after the blocks of the earlier children. |
| GumTreeDiffer.VisitNode | neural_editor/seq2seq/datasets/Defects4J/GumTreeDiffer/src/main/java/DiffExtractor.java:48-51 | A node fails iff it is a method declaration and either has no mapping (then the error is the NPE for that node) or is mapped to a method declaration whose texts cannot be sliced (then it is that slicing error). It gives no pair iff it is not a method declaration or its match is not one. Otherwise its pair is the `MethodDiff` of the node and its match. |
| GumTreeDiffer.PairedNodes | neural_editor/seq2seq/datasets/Defects4J/GumTreeDiffer/src/main/java/DiffExtractor.java:49 | A node is listed iff it is one of the input nodes and pairs. |
| GumTreeDiffer.CollectAllSpec | neural_editor/seq2seq/datasets/Defects4J/GumTreeDiffer/src/main/java/DiffExtractor.java:47-55 | Collection succeeds iff every node's own visit does. It then yields one pair per pairing node, in visiting order. |
| GumTreeDiffer.CollectAllFirstError | neural_editor/seq2seq/datasets/Defects4J/GumTreeDiffer/src/main/java/DiffExtractor.java:47-55 | The error is that of the first node whose visit fails. |
| GumTreeDiffer.CollectAllAppend | neural_editor/seq2seq/datasets/Defects4J/GumTreeDiffer/src/main/java/DiffExtractor.java:47-55 | Visiting `a` then `b` yields `a`'s pairs followed by `b`'s. The first failure wins. |
| GumTreeDiffer.CollectPreOrder | neural_editor/seq2seq/datasets/Defects4J/GumTreeDiffer/src/main/java/DiffExtractor.java:48-54 | A subtree yields the node's own pair and then the pairs of its children's subtrees. A failure of the node comes before anything its children do. |
| GumTreeDiffer.ForestStep | neural_editor/seq2seq/datasets/Defects4J/GumTreeDiffer/src/main/java/DiffExtractor.java:52-54 | One more loop iteration adds exactly the pairs of the next child's subtree, or that subtree's error. |
| GumTreeDiffer.ForestPrefixError | neural_editor/seq2seq/datasets/Defects4J/GumTreeDiffer/src/main/java/DiffExtractor.java:52-54 | An exception in an earlier child ends the whole loop with that exception. |
| GumTreeDiffer.NestedPairsCollected | neural_editor/seq2seq/datasets/Defects4J/GumTreeDiffer/src/main/java/DiffExtractor.java:49-54 | The children of a pairing method are still visited. Each child subtree's pairs appear, as one block, among the subtree's pairs. |
| GumTreeDiffer.DiffList.Add | neural_editor/seq2seq/datasets/Defects4J/GumTreeDiffer/src/main/java/DiffExtractor.java:50 | `result.add` appends the pair at the end. |
| GumTreeDiffer.AddOwnPair | neural_editor/seq2seq/datasets/Defects4J/GumTreeDiffer/src/main/java/DiffExtractor.java:48-51 | The node's own step raises exactly as `VisitNode` does, leaving `result` unchanged. Otherwise it appends exactly the node's own pair, if any. |
| GumTreeDiffer.ExtractMethodDiffsRecursively | neural_editor/seq2seq/datasets/Defects4J/GumTreeDiffer/src/main/java/DiffExtractor.java:47-55 | On success, `result` has gained exactly the pre-order pairs of the subtree. On failure, the status is the first error in pre-order. |
| GumTreeDiffer.ExtractChildren | neural_editor/seq2seq/datasets/Defects4J/GumTreeDiffer/src/main/java/DiffExtractor.java:52-54 | The loop appends exactly the pairs of the children's subtrees, in order, or stops with the first error. |
| GumTreeDiffer.ExtractMethodDiffs | neural_editor/seq2seq/datasets/Defects4J/GumTreeDiffer/src/main/java/DiffExtractor.java:40-45 | The result is the pairs of the whole prev tree in pre-order, or the first error. |
| GumTreeDiffer.AllPairWritesAppend | neural_editor/seq2seq/datasets/Defects4J/GumTreeDiffer/src/main/java/DiffExtractor.java:64-69 | The writes of two pair lists are the writes of the first followed by those of the second. |
| GumTreeDiffer.SaveMethodDiffs | neural_editor/seq2seq/datasets/Defects4J/GumTreeDiffer/src/main/java/DiffExtractor.java:57-70 | An extraction error propagates. No pairs means no operations. Otherwise the operations are: create `method_pairs`, then for each pair in order create its directory and write its prev and then its updated text. |
| GumTreeDiffer.Apply | neural_editor/seq2seq/datasets/Defects4J/GumTreeDiffer/src/main/java/DiffExtractor.java:63-68 | A successful operation never removes a directory. |
| GumTreeDiffer.Execute | neural_editor/seq2seq/datasets/Defects4J/GumTreeDiffer/src/main/java/DiffExtractor.java:63-68 | A successful run never removes a directory. |
| GumTreeDiffer.ExecuteAppend | neural_editor/seq2seq/datasets/Defects4J/GumTreeDiffer/src/main/java/DiffExtractor.java:63-68 | The first exception stops the rest. Otherwise the second list runs on the file system the first left. |
| GumTreeDiffer.NoPairsCreatesNothing | neural_editor/seq2seq/datasets/Defects4J/GumTreeDiffer/src/main/java/DiffExtractor.java:59-61 | Without pairs the file system is left as it was, and no `method_pairs` is created. |
| GumTreeDiffer.OtherPairDir | neural_editor/seq2seq/datasets/Defects4J/GumTreeDiffer/src/main/java/DiffExtractor.java:65 | A path inside one pair's directory is outside the directory of any pair with a different name. |
| GumTreeDiffer.PairDirInMethodPairs | neural_editor/seq2seq/datasets/Defects4J/GumTreeDiffer/src/main/java/DiffExtractor.java:62-65 | Every pair directory lies inside `method_pairs`. |
| GumTreeDiffer.PairWritesEffect | neural_editor/seq2seq/datasets/Defects4J/GumTreeDiffer/src/main/java/DiffExtractor.java:65-68 | In an absent directory, one pair's writes succeed. The directory then holds the prev and updated texts, and nothing outside it changes. |
| GumTreeDiffer.AbsentAfterPair | neural_editor/seq2seq/datasets/Defects4J/GumTreeDiffer/src/main/java/DiffExtractor.java:64-69 | Writing one pair leaves the directory of a differently named pair still absent. |
| GumTreeDiffer.AllPairWritesEffect | neural_editor/seq2seq/datasets/Defects4J/GumTreeDiffer/src/main/java/DiffExtractor.java:64-69 | With distinct names and absent directories, all writes succeed. Every pair ends up stored, and nothing outside the pair directories changes. |
| GumTreeDiffer.ExecuteAddsOnlyNamedPaths | neural_editor/seq2seq/datasets/Defects4J/GumTreeDiffer/src/main/java/DiffExtractor.java:63-68 | A successful run adds no directory or file other than the paths its operations name. |
| GumTreeDiffer.AllPairWritesOnlyPairPaths | neural_editor/seq2seq/datasets/Defects4J/GumTreeDiffer/src/main/java/DiffExtractor.java:64-69 | Successful pair writes add only the pairs' directories and their two files. |
| GumTreeDiffer.SaveSucceeds | neural_editor/seq2seq/datasets/Defects4J/GumTreeDiffer/src/main/java/DiffExtractor.java:57-70 | Take some pairs with distinct plain names (non-empty, not `.` or `..`, no `/`), and no `method_pairs` yet. Saving then succeeds: `method_pairs/<name>/` holds each pair's texts, `method_pairs` holds nothing else, and nothing outside `method_pairs` changes. |
| GumTreeDiffer.ExistingPairDirFails | neural_editor/seq2seq/datasets/Defects4J/GumTreeDiffer/src/main/java/DiffExtractor.java:66 | A pair whose directory already exists makes the writes fail. |
| GumTreeDiffer.PairWritesCreateDir | neural_editor/seq2seq/datasets/Defects4J/GumTreeDiffer/src/main/java/DiffExtractor.java:66 | Successful writes for a pair leave its directory in place. |
| GumTreeDiffer.DuplicateNameFails | neural_editor/seq2seq/datasets/Defects4J/GumTreeDiffer/src/main/java/DiffExtractor.java:64-69 | Two pairs with the same name make the pair writes fail. |
| GumTreeDiffer.SaveFailsOnDuplicateName | neural_editor/seq2seq/datasets/Defects4J/GumTreeDiffer/src/main/java/DiffExtractor.java:62-69 | Two pairs with the same method name (overloaded methods) make saving fail. |
| GumTreeDiffer.SaveFailsOnExistingMethodPairs | neural_editor/seq2seq/datasets/Defects4J/GumTreeDiffer/src/main/java/DiffExtractor.java:62-63 | A `method_pairs` left from an earlier run makes saving fail with FileAlreadyExists before anything is written. |

## Left out

- `Code.prev` and `Code.updated` already hold the token texts, the `t[1]` of each token tuple that `get_prev()` and `get_updated()` return (PatchNetDataset.py:156-157).
- Repository mining and `Commit.get_code` are left out, and with them their errors (the `commits[0]` IndexError of PatchNetDataset.py:41 and all I/O errors): pydriller and the prev/updated generator are not modelled. Two inputs stand in for them:
  - `ExtractDataSamples` gets the commit's code through a parameter `mine`.
  - `ExtractDataSamplesForPreTrain` receives the commits already mined, with their modifications' change types and diff line counts.
  The `SINCE_DATE`/`TO_DATE`/file-type filter of the mining is left out with it.
- The file reads are left out: the description file, the `prev.java`/`updated.java` reads in the `DiffExtractor` constructor, and `load`. Their results are inputs: the list of description lines, and the two file texts.
- `pickle.dump` and `load` are left out; the model produces only the text files' contents. `WriteData` does not perform the writes themselves.
- GumTree parsing and matching are not modelled. The prev tree and the node-id mapping are inputs, as `Extractor`.
- The `DiffExtractor` constructor is not modelled beyond this: `Extractor` is an immutable value built elsewhere.
- `print`, timing, the progress messages and `print_statistics` are left out. So are the `System.out` warnings of `getMethodName` and of the `MethodDiff` constructor; they affect no result.
- The CUDA transfer in `Batch.__init__` (Batch.py:38-45) is left out; it changes a tensor's device, not its values.
- Torch tensors are modelled as sequences of rows of integers. The model does not capture dtypes, devices or `.data`/`.item()`.
- `StrToBool`: lower-cases ASCII letters only. `str.lower` maps every cased non-ASCII letter as well. No such letter lower-cases onto an accepted word, so true and false are read alike, but the ValueError's payload differs: the model keeps `É` where Python reports `é`.
- `SumCounters`: `Counter` addition is modelled as multiset sum. `Counter` also drops non-positive counts, but a multiset has none.
- `MethodName`: the Java `hashCode()` is an opaque integer value of the node, not computed.
- `SaveMethodDiffs`: it returns the write operations in order. Running them is the separate `Execute` over a modelled file system, which covers only these:
  - directories;
  - whole-file writes;
  - `FileAlreadyExists`;
  - a missing parent directory;
  - a write onto a directory.
  Permissions and disk errors are not modelled.
- `KeptIndices`: its own contract states only the bound. `KeptIndicesSpec` states its full meaning.
- `NodeText`: positions count Unicode scalar values, because a Dafny `string` holds those. Java's `substring` and GumTree's `pos`/`endPos` count UTF-16 code units. The two agree on text without characters outside the Basic Multilingual Plane. Each character outside it shifts every later Java index by one against the model, so on such files the model can slice other text or fail where Java does not.
- `SaveSucceeds`: a path is a list of names compared exactly, one name per component. Java's `resolve` treats `""`, `.`, `..` and names holding `/` otherwise, so the lemma is stated for plain names only. On a case-insensitive file system (the default on macOS and Windows), names differing only in case, such as `foo` and `Foo`, name the same directory. Saving then fails at the second `createDirectory`, while the model saves both.
