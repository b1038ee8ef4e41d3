/**
 * The PatchNet dataset builder: parsing the description file into labelled
 * commits, the numbered sample list with its summed token counter, the
 * "diff too long" filter used for pre-training, the stable/unstable split,
 * and the line lists written to the output files.
 *
 * Repository mining and the prev/updated code generator are not modelled:
 * what the generator derives from a commit is an input (`Code`), and the
 * description file arrives already split into lines.
 */
module PatchNetDataset {
  import opened Wrappers
  import opened Text

  /** A commit whose MODIFY diffs have more lines than this is skipped when pre-training. */
  const MAX_DIFF_LENGTH: nat := 100
  /** Separates a key from its value on a description line. */
  const FIELD_SEPARATOR: string := ": "
  /** The values `strtobool` reads as true and as false, after lower-casing. */
  const TRUE_VALUES: seq<string> := ["y", "yes", "t", "true", "on", "1"]
  const FALSE_VALUES: seq<string> := ["n", "no", "f", "false", "off", "0"]

  type Token = string

  /** What the prev/updated generator derives from a commit: the token texts of both sides and their counter. */
  datatype Code = Code(prev: seq<Token>, updated: seq<Token>, counter: multiset<Token>)

  datatype Commit = Commit(commitHash: string, code: Code)

  /** `stable` is Python's `Optional[bool]`. */
  datatype DataSample = DataSample(commit: Commit, stable: Option<bool>, idx: nat)

  /** pydriller's ModificationType. */
  datatype ModificationType = Added | Copy | Rename | Deleted | Modify | Unknown

  /** A file modification of a commit: its change type and the number of lines of its diff. */
  datatype Modification = Modification(changeType: ModificationType, diffLineCount: nat)

  /** A commit as the repository miner yields it, with the code the generator derives from it. */
  datatype MinedCommit = MinedCommit(hash: string, modifications: seq<Modification>, code: Code)

  /** `IndexError` when a line has no `": "`; `ValueError` from `strtobool`. */
  datatype ParseError = MissingField(line: string) | InvalidTruthValue(value: string)

  /** `int(None)` raises `TypeError` when a sample without a label is written. */
  datatype WriteError = LabelIsNone(idx: nat)

  // ---------------------------------------------------------------------
  // Description file
  // ---------------------------------------------------------------------

  /** `zip(lines[::2], lines[1::2])`: line 2i paired with line 2i+1; an unpaired last line is dropped. */
  function ExamplesTextData(lines: seq<string>): (r: seq<(string, string)>)
    ensures |r| == |lines| / 2
    ensures forall i :: 0 <= i < |r| ==> r[i] == (lines[2 * i], lines[2 * i + 1])
    decreases |lines|
  {
    if |lines| < 2 then [] else [(lines[0], lines[1])] + ExamplesTextData(lines[2..])
  }

  /** The lines a list of pairs was made of, in order. */
  function Unpair(pairs: seq<(string, string)>): seq<string>
  {
    if |pairs| == 0 then [] else [pairs[0].0, pairs[0].1] + Unpair(pairs[1..])
  }

  /** The examples use every line of the description except an unpaired last one. */
  lemma {:induction false} ExamplesCoverEvenPrefix(lines: seq<string>)
    ensures Unpair(ExamplesTextData(lines)) == lines[..|lines| - |lines| % 2]
    decreases |lines|
  {
    if |lines| >= 2 {
      var rest := lines[2..];
      ExamplesCoverEvenPrefix(rest);
      assert ExamplesTextData(lines)[1..] == ExamplesTextData(rest);
      assert lines[..|lines| - |lines| % 2] == [lines[0], lines[1]] + rest[..|rest| - |rest| % 2];
    }
  }

  /** Adding a line to a description with an even number of lines adds no example. */
  lemma TrailingLineDropped(lines: seq<string>, extra: string)
    requires |lines| % 2 == 0
    ensures ExamplesTextData(lines + [extra]) == ExamplesTextData(lines)
  {
    var a, b := ExamplesTextData(lines + [extra]), ExamplesTextData(lines);
    assert |a| == |b|;
    forall i | 0 <= i < |a|
      ensures a[i] == b[i]
    {
      assert (lines + [extra])[2 * i] == lines[2 * i];
      assert (lines + [extra])[2 * i + 1] == lines[2 * i + 1];
    }
  }

  /** `example[0].split(': ')[1]`. */
  function ExtractCommitHashField(example: (string, string)): Result<string, ParseError>
  {
    var pieces := Split(example.0, FIELD_SEPARATOR);
    if |pieces| < 2 then Err(MissingField(example.0)) else Ok(pieces[1])
  }

  /** The hash is found exactly when the line holds a `": "`; it is a piece that holds none itself. */
  lemma CommitHashFieldSpec(example: (string, string))
    ensures var r := ExtractCommitHashField(example);
      && (r.Ok? <==> Contains(example.0, FIELD_SEPARATOR))
      && (r.Err? ==> r.error == MissingField(example.0))
      && (r.Ok? ==> !Contains(r.value, FIELD_SEPARATOR))
  {
    SplitPieces(example.0, FIELD_SEPARATOR);
  }

  /** ASCII lower-casing of one character. */
  function LowerChar(c: char): char
  {
    if 'A' <= c <= 'Z' then ((c as int) + 32) as char else c
  }

  function Lower(s: string): string
  {
    seq(|s|, k requires 0 <= k < |s| => LowerChar(s[k]))
  }

  /** `distutils.util.strtobool`: a case-insensitive yes/no word; otherwise `ValueError` naming the lower-cased value. */
  function StrToBool(v: string): (r: Result<bool, ParseError>)
    ensures r == Ok(true) <==> Lower(v) in TRUE_VALUES
    ensures r == Ok(false) <==> Lower(v) in FALSE_VALUES
    ensures r.Err? <==> r == Err(InvalidTruthValue(Lower(v)))
  {
    var l := Lower(v);
    if l in TRUE_VALUES then Ok(true)
    else if l in FALSE_VALUES then Ok(false)
    else Err(InvalidTruthValue(l))
  }

  /** Two strings that agree up to case are read alike. */
  lemma StrToBoolIgnoresCase(u: string, v: string)
    requires |u| == |v| && forall k :: 0 <= k < |u| ==> LowerChar(u[k]) == LowerChar(v[k])
    ensures StrToBool(u) == StrToBool(v)
  {
    assert Lower(u) == Lower(v);
  }

  /** `bool(strtobool(example[1].split(': ')[1]))`. */
  function ExtractStableField(example: (string, string)): Result<bool, ParseError>
  {
    var pieces := Split(example.1, FIELD_SEPARATOR);
    if |pieces| < 2 then Err(MissingField(example.1)) else StrToBool(pieces[1])
  }

  /** Without a `": "` the stable field is missing; with one, it is `strtobool` of the second piece. */
  lemma StableFieldSpec(example: (string, string))
    ensures !Contains(example.1, FIELD_SEPARATOR) ==> ExtractStableField(example) == Err(MissingField(example.1))
    ensures Contains(example.1, FIELD_SEPARATOR) ==>
      |Split(example.1, FIELD_SEPARATOR)| >= 2 &&
      ExtractStableField(example) == StrToBool(Split(example.1, FIELD_SEPARATOR)[1])
  {
    SplitPieces(example.1, FIELD_SEPARATOR);
  }

  /** Splitting `key: value[: more...]` at `": "` gives its pieces back when none holds a `": "`. */
  lemma KeyValueLineSplits(key: string, value: string, more: seq<string>)
    requires !Contains(key, FIELD_SEPARATOR) && !Contains(value, FIELD_SEPARATOR)
    requires forall k :: 0 <= k < |more| ==> !Contains(more[k], FIELD_SEPARATOR)
    ensures var pieces := Split(Join([key, value] + more, FIELD_SEPARATOR), FIELD_SEPARATOR);
      |pieces| >= 2 && pieces[1] == value
  {
    var parts := [key, value] + more;
    forall k | 0 <= k < |parts|
      ensures !Contains(parts[k], FIELD_SEPARATOR)
    {
      if k >= 2 {
        assert parts[k] == more[k - 2];
      }
    }
    ColonSpaceUnbordered();
    SplitJoin(parts, FIELD_SEPARATOR);
  }

  /** On a line `key: value[: more...]` whose pieces hold no `": "`, the commit hash is `value`. */
  lemma CommitHashOfKeyValueLine(key: string, value: string, more: seq<string>, other: string)
    requires !Contains(key, FIELD_SEPARATOR) && !Contains(value, FIELD_SEPARATOR)
    requires forall k :: 0 <= k < |more| ==> !Contains(more[k], FIELD_SEPARATOR)
    ensures ExtractCommitHashField((Join([key, value] + more, FIELD_SEPARATOR), other)) == Ok(value)
  {
    KeyValueLineSplits(key, value, more);
  }

  /** On a line `key: value[: more...]` whose pieces hold no `": "`, the stable field is `strtobool(value)`. */
  lemma StableOfKeyValueLine(key: string, value: string, more: seq<string>, other: string)
    requires !Contains(key, FIELD_SEPARATOR) && !Contains(value, FIELD_SEPARATOR)
    requires forall k :: 0 <= k < |more| ==> !Contains(more[k], FIELD_SEPARATOR)
    ensures ExtractStableField((other, Join([key, value] + more, FIELD_SEPARATOR))) == StrToBool(value)
  {
    KeyValueLineSplits(key, value, more);
  }

  // ---------------------------------------------------------------------
  // Sample bookkeeping
  // ---------------------------------------------------------------------

  /** The two fields of one example, hash first: the first one missing or malformed raises. */
  function ParseExample(example: (string, string)): Result<(string, bool), ParseError>
  {
    var hash :- ExtractCommitHashField(example);
    var stable :- ExtractStableField(example);
    Ok((hash, stable))
  }

  /**
   * The hash line is looked at first: without a `": "` it raises whatever the
   * stable line holds; then the stable line must hold one and read as a truth
   * value, and the pair is piece 1 of each line.
   */
  lemma ParseExampleSpec(example: (string, string))
    ensures !Contains(example.0, FIELD_SEPARATOR) ==> ParseExample(example) == Err(MissingField(example.0))
    ensures Contains(example.0, FIELD_SEPARATOR) && !Contains(example.1, FIELD_SEPARATOR) ==>
      ParseExample(example) == Err(MissingField(example.1))
    ensures Contains(example.0, FIELD_SEPARATOR) && Contains(example.1, FIELD_SEPARATOR) ==>
      && |Split(example.0, FIELD_SEPARATOR)| >= 2 && |Split(example.1, FIELD_SEPARATOR)| >= 2
      && var b := StrToBool(Split(example.1, FIELD_SEPARATOR)[1]);
         ParseExample(example) == if b.Ok? then Ok((Split(example.0, FIELD_SEPARATOR)[1], b.value)) else Err(b.error)
  {
    CommitHashFieldSpec(example);
    StableFieldSpec(example);
    SplitPieces(example.0, FIELD_SEPARATOR);
  }

  /** The parse results of all examples, in order. */
  function ParseExamples(examples: seq<(string, string)>): (r: seq<Result<(string, bool), ParseError>>)
    ensures |r| == |examples|
  {
    if |examples| == 0 then [] else [ParseExample(examples[0])] + ParseExamples(examples[1..])
  }

  lemma {:induction false} ParseExamplesAt(examples: seq<(string, string)>, i: nat)
    requires i < |examples|
    ensures ParseExamples(examples)[i] == ParseExample(examples[i])
  {
    if i > 0 {
      ParseExamplesAt(examples[1..], i - 1);
    }
  }

  /** The sample built from a parsed example at position `idx`; `mine` stands for building the commit from its hash. */
  function SampleOf(fields: (string, bool), idx: nat, mine: string -> Code): DataSample
  {
    DataSample(Commit(fields.0, mine(fields.0)), Some(fields.1), idx)
  }

  /** The samples of the first `n` parsed examples, or the error of the first one that failed. */
  function DescribeAll(parsed: seq<Result<(string, bool), ParseError>>, n: nat, mine: string -> Code)
    : Result<seq<DataSample>, ParseError>
    requires n <= |parsed|
  {
    if n == 0 then Ok([])
    else
      var samples :- DescribeAll(parsed, n - 1, mine);
      var fields :- parsed[n - 1];
      Ok(samples + [SampleOf(fields, n - 1, mine)])
  }

  /** Once an example fails, every longer prefix fails with the same error. */
  lemma {:induction false} DescribeAllErrSticks(parsed: seq<Result<(string, bool), ParseError>>, n: nat, m: nat, mine: string -> Code)
    requires n <= m <= |parsed| && DescribeAll(parsed, n, mine).Err?
    ensures DescribeAll(parsed, m, mine) == DescribeAll(parsed, n, mine)
    decreases m - n
  {
    if n < m {
      DescribeAllErrSticks(parsed, n, m - 1, mine);
    }
  }

  /**
   * The described samples are one per example, in input order, numbered by
   * position and always labelled; a failure is the first failing example's error.
   */
  lemma {:induction false} DescribeAllSpec(parsed: seq<Result<(string, bool), ParseError>>, n: nat, mine: string -> Code)
    requires n <= |parsed|
    ensures var r := DescribeAll(parsed, n, mine);
      r.Ok? <==> forall i :: 0 <= i < n ==> parsed[i].Ok?
    ensures var r := DescribeAll(parsed, n, mine);
      r.Ok? ==> |r.value| == n && forall i :: 0 <= i < n ==>
        && r.value[i] == SampleOf(parsed[i].value, i, mine)
        && r.value[i].idx == i && r.value[i].stable.Some?
    ensures var r := DescribeAll(parsed, n, mine);
      r.Err? ==> exists k :: 0 <= k < n && parsed[k] == Err(r.error) && forall j :: 0 <= j < k ==> parsed[j].Ok?
    decreases n
  {
    if n > 0 {
      DescribeAllSpec(parsed, n - 1, mine);
      var prefix := DescribeAll(parsed, n - 1, mine);
      if prefix.Ok? && parsed[n - 1].Ok? {
        var s := prefix.value + [SampleOf(parsed[n - 1].value, n - 1, mine)];
        assert DescribeAll(parsed, n, mine) == Ok(s);
        forall i | 0 <= i < n
          ensures s[i] == SampleOf(parsed[i].value, i, mine)
        {
          if i < n - 1 {
            assert s[i] == prefix.value[i];
          }
        }
      }
    }
  }

  /** The multiset sum of the samples' token counters (`Counter` `+=`). */
  function SumCounters(samples: seq<DataSample>): multiset<Token>
  {
    if |samples| == 0 then multiset{} else samples[0].commit.code.counter + SumCounters(samples[1..])
  }

  lemma {:induction false} SumCountersAppend(a: seq<DataSample>, b: seq<DataSample>)
    ensures SumCounters(a + b) == SumCounters(a) + SumCounters(b)
    decreases |a|
  {
    if |a| == 0 {
      assert a + b == b;
    } else {
      assert (a + b)[0] == a[0];
      assert (a + b)[1..] == a[1..] + b;
      SumCountersAppend(a[1..], b);
    }
  }

  /** The samples of a description file with their summed counter, or the first parse error. */
  function DataSamplesOf(descriptionLines: seq<string>, mine: string -> Code)
    : Result<(seq<DataSample>, multiset<Token>), ParseError>
  {
    var examples := ExamplesTextData(descriptionLines);
    var samples :- DescribeAll(ParseExamples(examples), |examples|, mine);
    Ok((samples, SumCounters(samples)))
  }

  /** The two field extractions of one loop iteration, hash first. */
  method ExtractFields(example: (string, string)) returns (r: Result<(string, bool), ParseError>)
    ensures r == ParseExample(example)
  {
    var hashField := ExtractCommitHashField(example);
    if hashField.Err? {
      return Err(hashField.error);
    }
    var stableField := ExtractStableField(example);
    if stableField.Err? {
      return Err(stableField.error);
    }
    return Ok((hashField.value, stableField.value));
  }

  /**
   * `extract_data_samples`: the samples described by all examples and their
   * summed counter; the first example whose fields do not parse aborts it.
   */
  method ExtractDataSamples(descriptionLines: seq<string>, mine: string -> Code)
    returns (r: Result<(seq<DataSample>, multiset<Token>), ParseError>)
    ensures r == DataSamplesOf(descriptionLines, mine)
  {
    var examples := ExamplesTextData(descriptionLines);
    ghost var parsed := ParseExamples(examples);
    var samples: seq<DataSample> := [];
    var counter: multiset<Token> := multiset{};
    var idx := 0;
    while idx < |examples|
      invariant 0 <= idx <= |examples|
      invariant DescribeAll(parsed, idx, mine) == Ok(samples)
      invariant counter == SumCounters(samples)
    {
      ParseExamplesAt(examples, idx);
      var fields := ExtractFields(examples[idx]);
      if fields.Err? {
        DescribeAllErrSticks(parsed, idx + 1, |examples|, mine);
        return Err(fields.error);
      }
      var commitHash := fields.value.0;
      var commit := Commit(commitHash, mine(commitHash));
      var sample := DataSample(commit, Some(fields.value.1), idx);
      SumCountersAppend(samples, [sample]);
      samples := samples + [sample];
      counter := counter + commit.code.counter;
      idx := idx + 1;
    }
    return Ok((samples, counter));
  }

  // ---------------------------------------------------------------------
  // The "diff too long" filter and pre-train extraction
  // ---------------------------------------------------------------------

  /** The diff lines of the MODIFY modifications; other change types count nothing. */
  function ModifiedLineCount(mods: seq<Modification>): nat
  {
    if |mods| == 0 then 0
    else (if mods[0].changeType == Modify then mods[0].diffLineCount else 0) + ModifiedLineCount(mods[1..])
  }

  /** The diff lines of all modifications, whatever their change type. */
  function TotalLineCount(mods: seq<Modification>): nat
  {
    if |mods| == 0 then 0 else mods[0].diffLineCount + TotalLineCount(mods[1..])
  }

  lemma {:induction false} ModifiedLineCountAppend(a: seq<Modification>, b: seq<Modification>)
    ensures ModifiedLineCount(a + b) == ModifiedLineCount(a) + ModifiedLineCount(b)
    decreases |a|
  {
    if |a| == 0 {
      assert a + b == b;
    } else {
      assert (a + b)[0] == a[0];
      assert (a + b)[1..] == a[1..] + b;
      ModifiedLineCountAppend(a[1..], b);
    }
  }

  /** Only MODIFY diffs count: the count is at most all diff lines, and equals them when every change is a MODIFY. */
  lemma {:induction false} ModifiedLineCountBounds(mods: seq<Modification>)
    ensures ModifiedLineCount(mods) <= TotalLineCount(mods)
    ensures (forall k :: 0 <= k < |mods| ==> mods[k].changeType == Modify) ==>
              ModifiedLineCount(mods) == TotalLineCount(mods)
    decreases |mods|
  {
    if |mods| > 0 {
      ModifiedLineCountBounds(mods[1..]);
    }
  }

  /** Adding or removing a modification that is not a MODIFY never changes the count. */
  lemma NonModifyIgnored(a: seq<Modification>, m: Modification, b: seq<Modification>)
    requires m.changeType != Modify
    ensures ModifiedLineCount(a + [m] + b) == ModifiedLineCount(a + b)
  {
    ModifiedLineCountAppend(a + [m], b);
    ModifiedLineCountAppend(a, [m]);
    ModifiedLineCountAppend(a, b);
  }

  /** The commit is flagged: strictly more than MAX_DIFF_LENGTH lines in its MODIFY diffs. */
  predicate TooLong(commit: MinedCommit)
  {
    ModifiedLineCount(commit.modifications) > MAX_DIFF_LENGTH
  }

  /** `is_greater_than_max_number_of_lines_in_diff`. */
  method IsGreaterThanMaxNumberOfLinesInDiff(commit: MinedCommit) returns (tooLong: bool)
    ensures tooLong <==> TooLong(commit)
  {
    var mods := commit.modifications;
    var totalNumOfLines := 0;
    var i := 0;
    while i < |mods|
      invariant 0 <= i <= |mods|
      invariant totalNumOfLines == ModifiedLineCount(mods[..i])
    {
      ModifiedLineCountAppend(mods[..i], [mods[i]]);
      assert mods[..i + 1] == mods[..i] + [mods[i]];
      if mods[i].changeType == Modify {
        totalNumOfLines := totalNumOfLines + mods[i].diffLineCount;
      }
      i := i + 1;
    }
    assert mods[..i] == mods;
    tooLong := totalNumOfLines > MAX_DIFF_LENGTH;
  }

  /** The positions, below `n`, of the commits the pre-train extraction keeps, in increasing order. */
  function KeptIndices(commits: seq<MinedCommit>, n: nat): (r: seq<nat>)
    requires n <= |commits|
    ensures forall j :: 0 <= j < |r| ==> r[j] < n
  {
    if n == 0 then [] else KeptIndices(commits, n - 1) + (if TooLong(commits[n - 1]) then [] else [n - 1])
  }

  /** Every kept position holds a commit that is not flagged. */
  lemma {:induction false} KeptAreUnflagged(commits: seq<MinedCommit>, n: nat)
    requires n <= |commits|
    ensures forall j :: 0 <= j < |KeptIndices(commits, n)| ==> !TooLong(commits[KeptIndices(commits, n)[j]])
    decreases n
  {
    if n > 0 {
      KeptAreUnflagged(commits, n - 1);
      var r0, r := KeptIndices(commits, n - 1), KeptIndices(commits, n);
      if TooLong(commits[n - 1]) {
        assert r == r0;
      } else {
        assert r == r0 + [n - 1];
        forall j | 0 <= j < |r|
          ensures !TooLong(commits[r[j]])
        {
          if j < |r0| {
            assert r[j] == r0[j];
          }
        }
      }
    }
  }

  /** Every unflagged position below `n` is kept. */
  lemma {:induction false} UnflaggedAreKept(commits: seq<MinedCommit>, n: nat)
    requires n <= |commits|
    ensures forall k :: 0 <= k < n && !TooLong(commits[k]) ==> k in KeptIndices(commits, n)
    decreases n
  {
    if n > 0 {
      UnflaggedAreKept(commits, n - 1);
      var r0 := KeptIndices(commits, n - 1);
      assert forall x :: x in r0 ==> x in KeptIndices(commits, n);
    }
  }

  /** The kept positions are strictly increasing, so the input order is kept. */
  lemma {:induction false} KeptIncreasing(commits: seq<MinedCommit>, n: nat)
    requires n <= |commits|
    ensures forall j, j' :: 0 <= j < j' < |KeptIndices(commits, n)| ==> KeptIndices(commits, n)[j] < KeptIndices(commits, n)[j']
    decreases n
  {
    if n > 0 {
      KeptIncreasing(commits, n - 1);
      var r0, r := KeptIndices(commits, n - 1), KeptIndices(commits, n);
      if TooLong(commits[n - 1]) {
        assert r == r0;
      } else {
        assert r == r0 + [n - 1];
        forall j, j' | 0 <= j < j' < |r|
          ensures r[j] < r[j']
        {
          assert r[j] == r0[j];
          if j' < |r0| {
            assert r[j'] == r0[j'];
          }
        }
      }
    }
  }

  /** The kept positions are exactly the unflagged ones, in strictly increasing order. */
  lemma KeptIndicesSpec(commits: seq<MinedCommit>, n: nat)
    requires n <= |commits|
    ensures var r := KeptIndices(commits, n);
      && (forall j :: 0 <= j < |r| ==> !TooLong(commits[r[j]]))
      && (forall k :: 0 <= k < n && !TooLong(commits[k]) ==> k in r)
      && (forall j, j' :: 0 <= j < j' < |r| ==> r[j] < r[j'])
  {
    KeptAreUnflagged(commits, n);
    UnflaggedAreKept(commits, n);
    KeptIncreasing(commits, n);
  }

  /** The sample the pre-train extraction makes of a kept commit: never stable, numbered by its position. */
  function PreTrainSample(commit: MinedCommit, idx: nat): DataSample
  {
    DataSample(Commit(commit.hash, commit.code), Some(false), idx)
  }

  /** The samples made from the kept commits among the first `n`. */
  function PreTrainSamplesUpTo(commits: seq<MinedCommit>, n: nat): seq<DataSample>
    requires n <= |commits|
  {
    if n == 0 then []
    else PreTrainSamplesUpTo(commits, n - 1)
         + (if TooLong(commits[n - 1]) then [] else [PreTrainSample(commits[n - 1], n - 1)])
  }

  /** The samples `extract_data_samples_for_pre_train` returns for the mined commits. */
  function PreTrainSamples(commits: seq<MinedCommit>): seq<DataSample>
  {
    PreTrainSamplesUpTo(commits, |commits|)
  }

  /** The pre-train samples are the kept commits, one each, numbered by their position in the commit list. */
  lemma {:induction false} PreTrainSamplesAreKept(commits: seq<MinedCommit>, n: nat)
    requires n <= |commits|
    ensures var s, kept := PreTrainSamplesUpTo(commits, n), KeptIndices(commits, n);
      |s| == |kept| && forall j :: 0 <= j < |kept| ==> s[j] == PreTrainSample(commits[kept[j]], kept[j])
    decreases n
  {
    if n > 0 {
      PreTrainSamplesAreKept(commits, n - 1);
      var s0, kept0 := PreTrainSamplesUpTo(commits, n - 1), KeptIndices(commits, n - 1);
      if !TooLong(commits[n - 1]) {
        var s, kept := PreTrainSamplesUpTo(commits, n), KeptIndices(commits, n);
        assert s == s0 + [PreTrainSample(commits[n - 1], n - 1)];
        assert kept == kept0 + [n - 1];
        forall j | 0 <= j < |kept|
          ensures s[j] == PreTrainSample(commits[kept[j]], kept[j])
        {
          if j < |kept0| {
            assert s[j] == s0[j] && kept[j] == kept0[j];
          }
        }
      }
    }
  }

  /** `extract_data_samples_for_pre_train`, after mining: skip flagged commits, keep the rest in order. */
  method ExtractDataSamplesForPreTrain(commits: seq<MinedCommit>)
    returns (samples: seq<DataSample>, counter: multiset<Token>)
    ensures samples == PreTrainSamples(commits)
    ensures counter == SumCounters(samples)
  {
    samples := [];
    counter := multiset{};
    var idx := 0;
    while idx < |commits|
      invariant 0 <= idx <= |commits|
      invariant samples == PreTrainSamplesUpTo(commits, idx)
      invariant counter == SumCounters(samples)
    {
      var commit := commits[idx];
      var tooLong := IsGreaterThanMaxNumberOfLinesInDiff(commit);
      if tooLong {
        idx := idx + 1;
        continue;
      }
      var sample := DataSample(Commit(commit.hash, commit.code), Some(false), idx);
      SumCountersAppend(samples, [sample]);
      samples := samples + [sample];
      counter := counter + sample.commit.code.counter;
      idx := idx + 1;
    }
  }

  /** A kept commit is exactly one that is not flagged, and the numbering follows the commit list. */
  lemma PreTrainKeepsUnflagged(commits: seq<MinedCommit>, k: nat)
    requires k < |commits|
    ensures !TooLong(commits[k]) <==> exists j :: 0 <= j < |PreTrainSamples(commits)| && PreTrainSamples(commits)[j].idx == k
  {
    var kept := KeptIndices(commits, |commits|);
    var samples := PreTrainSamples(commits);
    PreTrainSamplesAreKept(commits, |commits|);
    KeptIndicesSpec(commits, |commits|);
    if !TooLong(commits[k]) {
      var j :| 0 <= j < |kept| && kept[j] == k;
      assert samples[j].idx == k;
    }
  }

  /** Pre-train samples are all unstable, numbered in strictly increasing order, and carry the commit's data. */
  lemma PreTrainSamplesShape(commits: seq<MinedCommit>)
    ensures var s := PreTrainSamples(commits);
      && (forall j :: 0 <= j < |s| ==>
            (s[j].stable == Some(false) && s[j].idx < |commits|
             && s[j].commit == Commit(commits[s[j].idx].hash, commits[s[j].idx].code)))
      && (forall j, j' :: 0 <= j < j' < |s| ==> s[j].idx < s[j'].idx)
      && StablePatches(s) == []
  {
    var s := PreTrainSamples(commits);
    PreTrainSamplesAreKept(commits, |commits|);
    KeptIndicesSpec(commits, |commits|);
    NoStableNoPatches(s);
  }

  // ---------------------------------------------------------------------
  // Stable / unstable partition
  // ---------------------------------------------------------------------

  /** Python truthiness of the `Optional[bool]` label: only `True` is truthy. */
  predicate IsStable(sample: DataSample)
  {
    sample.stable == Some(true)
  }

  /** `get_stable_patches`. */
  function StablePatches(samples: seq<DataSample>): (r: seq<DataSample>)
    ensures forall x :: x in r <==> x in samples && IsStable(x)
  {
    if |samples| == 0 then []
    else (if IsStable(samples[0]) then [samples[0]] else []) + StablePatches(samples[1..])
  }

  /** `get_unstable_patches`. */
  function UnstablePatches(samples: seq<DataSample>): (r: seq<DataSample>)
    ensures forall x :: x in r <==> x in samples && !IsStable(x)
  {
    if |samples| == 0 then []
    else (if IsStable(samples[0]) then [] else [samples[0]]) + UnstablePatches(samples[1..])
  }

  lemma {:induction false} NoStableNoPatches(samples: seq<DataSample>)
    requires forall j :: 0 <= j < |samples| ==> !IsStable(samples[j])
    ensures StablePatches(samples) == []
    decreases |samples|
  {
    if |samples| > 0 {
      NoStableNoPatches(samples[1..]);
    }
  }

  /** `a` is `b` with some elements deleted: the elements of `a` appear in `b` in the same order. */
  ghost predicate IsSubsequence(a: seq<DataSample>, b: seq<DataSample>)
    decreases |b|
  {
    || |a| == 0
    || (|b| > 0 && ((a[0] == b[0] && IsSubsequence(a[1..], b[1..])) || IsSubsequence(a, b[1..])))
  }

  /** The two lists split the samples: their sizes add up to the total. */
  lemma {:induction false} PartitionSizes(samples: seq<DataSample>)
    ensures |StablePatches(samples)| + |UnstablePatches(samples)| == |samples|
    decreases |samples|
  {
    if |samples| > 0 {
      PartitionSizes(samples[1..]);
    }
  }

  /** Every sample lands in exactly one of the two lists, as often as it occurs. */
  lemma {:induction false} PartitionContents(samples: seq<DataSample>)
    ensures multiset(StablePatches(samples)) + multiset(UnstablePatches(samples)) == multiset(samples)
    decreases |samples|
  {
    if |samples| > 0 {
      var x, rest := samples[0], samples[1..];
      PartitionContents(rest);
      assert samples == [x] + rest;
      assert multiset(samples) == multiset{x} + multiset(rest);
      if IsStable(x) {
        assert StablePatches(samples) == [x] + StablePatches(rest);
        assert UnstablePatches(samples) == UnstablePatches(rest);
      } else {
        assert StablePatches(samples) == StablePatches(rest);
        assert UnstablePatches(samples) == [x] + UnstablePatches(rest);
      }
    }
  }

  /** The token counters of the two lists add up to the counter of all samples. */
  lemma {:induction false} PartitionCounters(samples: seq<DataSample>)
    ensures SumCounters(StablePatches(samples)) + SumCounters(UnstablePatches(samples)) == SumCounters(samples)
    decreases |samples|
  {
    if |samples| > 0 {
      var rest := samples[1..];
      var x := samples[0];
      PartitionCounters(rest);
      if IsStable(x) {
        SumCountersAppend([x], StablePatches(rest));
        assert UnstablePatches(samples) == UnstablePatches(rest);
      } else {
        SumCountersAppend([x], UnstablePatches(rest));
        assert StablePatches(samples) == StablePatches(rest);
      }
    }
  }

  /** Both lists keep the samples' relative order. */
  lemma {:induction false} PartitionKeepsOrder(samples: seq<DataSample>)
    ensures IsSubsequence(StablePatches(samples), samples)
    ensures IsSubsequence(UnstablePatches(samples), samples)
    decreases |samples|
  {
    if |samples| > 0 {
      var rest := samples[1..];
      PartitionKeepsOrder(rest);
      var s := StablePatches(samples);
      var u := UnstablePatches(samples);
      if IsStable(samples[0]) {
        assert s[0] == samples[0] && s[1..] == StablePatches(rest);
        assert u == UnstablePatches(rest);
      } else {
        assert u[0] == samples[0] && u[1..] == UnstablePatches(rest);
        assert s == StablePatches(rest);
      }
    }
  }

  // ---------------------------------------------------------------------
  // Output lines of write_data
  // ---------------------------------------------------------------------

  /** `str(int(sample.stable))`. */
  function LabelLine(sample: DataSample): Result<string, WriteError>
  {
    match sample.stable
    case None => Err(LabelIsNone(sample.idx))
    case Some(b) => Ok(if b then "1" else "0")
  }

  /** The lines of `trg.txt`, in sample order; the first unlabelled sample raises. */
  function TrgFileLines(samples: seq<DataSample>): (r: Result<seq<string>, WriteError>)
    ensures r.Ok? <==> forall i :: 0 <= i < |samples| ==> samples[i].stable.Some?
    ensures r.Ok? ==> |r.value| == |samples| && forall i :: 0 <= i < |samples| ==> LabelLine(samples[i]) == Ok(r.value[i])
    ensures r.Err? ==> exists k :: 0 <= k < |samples| && samples[k].stable.None? && r.error == LabelIsNone(samples[k].idx)
                         && forall j :: 0 <= j < k ==> samples[j].stable.Some?
  {
    if |samples| == 0 then Ok([])
    else
      var line :- LabelLine(samples[0]);
      var rest :- TrgFileLines(samples[1..]);
      Ok([line] + rest)
  }

  /** The lines of `ids.txt`: `str(idx)` per sample. */
  function IdsFileLines(samples: seq<DataSample>): (r: seq<string>)
    ensures |r| == |samples|
    ensures forall i :: 0 <= i < |samples| ==> r[i] == NatToString(samples[i].idx)
  {
    seq(|samples|, i requires 0 <= i < |samples| => NatToString(samples[i].idx))
  }

  /** The lines of `commit_hashes.txt`. */
  function CommitHashesFileLines(samples: seq<DataSample>): (r: seq<string>)
    ensures |r| == |samples|
    ensures forall i :: 0 <= i < |samples| ==> r[i] == samples[i].commit.commitHash
  {
    seq(|samples|, i requires 0 <= i < |samples| => samples[i].commit.commitHash)
  }

  /** The lines of `prev.txt`: the prev tokens of each commit joined by spaces. */
  function PrevFileLines(samples: seq<DataSample>): (r: seq<string>)
    ensures |r| == |samples|
    ensures forall i :: 0 <= i < |samples| ==> r[i] == Join(samples[i].commit.code.prev, " ")
  {
    seq(|samples|, i requires 0 <= i < |samples| => Join(samples[i].commit.code.prev, " "))
  }

  /** The lines of `updated.txt`. */
  function UpdatedFileLines(samples: seq<DataSample>): (r: seq<string>)
    ensures |r| == |samples|
    ensures forall i :: 0 <= i < |samples| ==> r[i] == Join(samples[i].commit.code.updated, " ")
  {
    seq(|samples|, i requires 0 <= i < |samples| => Join(samples[i].commit.code.updated, " "))
  }

  /** A text file `write_data` writes. */
  datatype OutputFile = OutputFile(name: string, text: string)

  /** The text files `write_data` writes, in order; every line list is built before the first write. */
  function WriteData(samples: seq<DataSample>): (r: Result<seq<OutputFile>, WriteError>)
    ensures r.Ok? <==> forall i :: 0 <= i < |samples| ==> samples[i].stable.Some?
    ensures r.Ok? ==> r.value == [OutputFile("prev.txt", Join(PrevFileLines(samples), "\n")),
                                  OutputFile("updated.txt", Join(UpdatedFileLines(samples), "\n")),
                                  OutputFile("trg.txt", Join(TrgFileLines(samples).value, "\n")),
                                  OutputFile("ids.txt", Join(IdsFileLines(samples), "\n")),
                                  OutputFile("commit_hashes.txt", Join(CommitHashesFileLines(samples), "\n"))]
  {
    var prevLines := PrevFileLines(samples);
    var updatedLines := UpdatedFileLines(samples);
    var trgLines :- TrgFileLines(samples);
    var idsLines := IdsFileLines(samples);
    var hashLines := CommitHashesFileLines(samples);
    Ok([OutputFile("prev.txt", Join(prevLines, "\n")),
        OutputFile("updated.txt", Join(updatedLines, "\n")),
        OutputFile("trg.txt", Join(trgLines, "\n")),
        OutputFile("ids.txt", Join(idsLines, "\n")),
        OutputFile("commit_hashes.txt", Join(hashLines, "\n"))])
  }

  /** How many times `x` occurs in `lines`. */
  function Count(lines: seq<string>, x: string): nat
  {
    if |lines| == 0 then 0 else (if lines[0] == x then 1 else 0) + Count(lines[1..], x)
  }

  /** `trg.txt` holds one `"1"` per stable sample and one `"0"` per unstable one. */
  lemma {:induction false} TrgLinesCountPartition(samples: seq<DataSample>)
    requires TrgFileLines(samples).Ok?
    ensures Count(TrgFileLines(samples).value, "1") == |StablePatches(samples)|
    ensures Count(TrgFileLines(samples).value, "0") == |UnstablePatches(samples)|
    decreases |samples|
  {
    if |samples| > 0 {
      var lines := TrgFileLines(samples).value;
      TrgLinesCountPartition(samples[1..]);
      assert lines[1..] == TrgFileLines(samples[1..]).value;
    }
  }

  /** Reading a `trg.txt` line back with `strtobool` gives the sample's label. */
  lemma TrgLineReadsBack(samples: seq<DataSample>, i: nat)
    requires TrgFileLines(samples).Ok? && i < |samples|
    ensures samples[i].stable.Some? && StrToBool(TrgFileLines(samples).value[i]) == Ok(samples[i].stable.value)
  {
    var line := TrgFileLines(samples).value[i];
    assert LabelLine(samples[i]) == Ok(line);
    if samples[i].stable.value {
      assert line == "1" && Lower("1") == "1" && "1" in TRUE_VALUES;
    } else {
      assert line == "0" && Lower("0") == "0" && "0" in FALSE_VALUES;
    }
  }

  /** An `ids.txt` line read back as a decimal number is the sample's idx; distinct idx give distinct lines. */
  lemma IdsLineReadsBack(samples: seq<DataSample>, i: nat)
    requires i < |samples|
    ensures AllDigits(IdsFileLines(samples)[i]) && ParseNat(IdsFileLines(samples)[i]) == samples[i].idx
    ensures forall j :: 0 <= j < |samples| && samples[j].idx != samples[i].idx ==>
              IdsFileLines(samples)[j] != IdsFileLines(samples)[i]
  {
    ParseNatToString(samples[i].idx);
    forall j | 0 <= j < |samples| && samples[j].idx != samples[i].idx
      ensures IdsFileLines(samples)[j] != IdsFileLines(samples)[i]
    {
      NatToStringInjective(samples[j].idx, samples[i].idx);
    }
  }

  /** Splitting `trg.txt` at newlines gives back one label line per sample. */
  lemma TrgFileSplitsIntoLabels(samples: seq<DataSample>)
    requires |samples| > 0 && TrgFileLines(samples).Ok?
    ensures Split(Join(TrgFileLines(samples).value, "\n"), "\n") == TrgFileLines(samples).value
  {
    var lines := TrgFileLines(samples).value;
    forall k | 0 <= k < |lines|
      ensures !Contains(lines[k], "\n")
    {
      assert LabelLine(samples[k]) == Ok(lines[k]);
      assert lines[k] == "1" || lines[k] == "0";
    }
    NewlineUnbordered();
    SplitJoin(lines, "\n");
  }
  /** Splitting `ids.txt` at newlines gives one decimal line per sample, which reads back as its idx. */
  lemma IdsFileReadsBack(samples: seq<DataSample>)
    requires |samples| > 0
    ensures var lines := Split(Join(IdsFileLines(samples), "\n"), "\n");
      && |lines| == |samples|
      && forall i :: 0 <= i < |samples| ==> AllDigits(lines[i]) && ParseNat(lines[i]) == samples[i].idx
  {
    var lines := IdsFileLines(samples);
    forall k | 0 <= k < |lines|
      ensures !Contains(lines[k], "\n")
    {
      DigitsHoldNoNewline(lines[k]);
    }
    NewlineUnbordered();
    SplitJoin(lines, "\n");
    forall i | 0 <= i < |samples|
      ensures ParseNat(lines[i]) == samples[i].idx
    {
      ParseNatToString(samples[i].idx);
    }
  }

  /** Splitting `commit_hashes.txt` at newlines gives back each sample's hash, when no hash holds a newline. */
  lemma CommitHashesFileReadsBack(samples: seq<DataSample>)
    requires |samples| > 0
    requires forall i :: 0 <= i < |samples| ==> !Contains(samples[i].commit.commitHash, "\n")
    ensures var lines := Split(Join(CommitHashesFileLines(samples), "\n"), "\n");
      |lines| == |samples| && forall i :: 0 <= i < |samples| ==> lines[i] == samples[i].commit.commitHash
  {
    var lines := CommitHashesFileLines(samples);
    NewlineUnbordered();
    SplitJoin(lines, "\n");
  }

  /** Splitting a `prev.txt` line at spaces gives back the sample's prev tokens, when it has some and none holds a space. */
  lemma PrevLineReadsBack(samples: seq<DataSample>, i: nat)
    requires i < |samples|
    requires |samples[i].commit.code.prev| > 0
    requires forall k :: 0 <= k < |samples[i].commit.code.prev| ==> !Contains(samples[i].commit.code.prev[k], " ")
    ensures Split(PrevFileLines(samples)[i], " ") == samples[i].commit.code.prev
  {
    SpaceUnbordered();
    SplitJoin(samples[i].commit.code.prev, " ");
  }

  /** Splitting an `updated.txt` line at spaces gives back the sample's updated tokens, under the same conditions. */
  lemma UpdatedLineReadsBack(samples: seq<DataSample>, i: nat)
    requires i < |samples|
    requires |samples[i].commit.code.updated| > 0
    requires forall k :: 0 <= k < |samples[i].commit.code.updated| ==> !Contains(samples[i].commit.code.updated[k], " ")
    ensures Split(UpdatedFileLines(samples)[i], " ") == samples[i].commit.code.updated
  {
    SpaceUnbordered();
    SplitJoin(samples[i].commit.code.updated, " ");
  }
}
