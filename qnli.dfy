/** The `QuestionNLI` problem: reading the tab-separated GLUE QNLI files
    into (question, sentence, label) examples. Download, unzipping and file
    reading are not modelled: a file is the sequence of its lines. */
module Qnli {
  import opened Errors
  import opened Strings

  datatype DatasetSplit = Train | Eval | Test

  /** `dataset_splits`: 100 training shards and 1 evaluation shard. */
  function DatasetSplits(): (r: seq<(DatasetSplit, nat)>)
    ensures |r| == 2 && r[0] == (Train, 100) && r[1] == (Eval, 1)
  {
    [(Train, 100), (Eval, 1)]
  }

  /** `class_labels`: label index 0 is "not_entailment", 1 is "entailment". */
  function ClassLabels(): seq<string>
  {
    ["not_entailment", "entailment"]
  }

  /** `num_classes`: one class per label. */
  function NumClasses(): (r: nat)
    ensures r == |ClassLabels()|
  {
    2
  }

  /** `label_list.index(l)`: the position of the label, or `ValueError`. */
  function LabelIndex(l: string): (r: Result<nat>)
    ensures r.Ok? <==> l in ClassLabels()
    ensures r.Err? ==> r.error == ValueError
    ensures r.Ok? ==> r.value < NumClasses() && ClassLabels()[r.value] == l
  {
    if l == "not_entailment" then Ok(0)
    else if l == "entailment" then Ok(1)
    else Err(ValueError)
  }

  datatype Example = Example(inputs: seq<string>, labelId: nat)

  /** One data line: stripped, split on tabs into exactly four fields
      (index, question, sentence, label); the index is dropped. */
  function ParseLine(line: string): (r: Result<Example>)
    ensures r.Err? ==> r.error == ValueError
    ensures r.Err? <==>
      |Split(Strip(line), '\t')| != 4 || Split(Strip(line), '\t')[3] !in ClassLabels()
    ensures r.Ok? ==>
      var fields := Split(Strip(line), '\t');
      r.value.inputs == [fields[1], fields[2]] && r.value.labelId < NumClasses() && ClassLabels()[r.value.labelId] == fields[3]
  {
    var fields := Split(Strip(line), '\t');
    if |fields| != 4 then Err(ValueError)
    else
      var labelId :- LabelIndex(fields[3]);
      Ok(Example([fields[1], fields[2]], labelId))
  }

  /** The examples of the data lines in order, up to the first line that
      fails to parse; the error, if any, ends the generator. */
  function ParseLines(lines: seq<string>): (r: (seq<Example>, Option<Error>))
    ensures |r.0| <= |lines|
    ensures forall k :: 0 <= k < |r.0| ==> ParseLine(lines[k]) == Ok(r.0[k])
    ensures r.1.None? ==> |r.0| == |lines|
    ensures r.1.Some? ==> |r.0| < |lines| && ParseLine(lines[|r.0|]) == Err(r.1.value)
  {
    if |lines| == 0 then ([], None)
    else
      var front := ParseLines(lines[..|lines| - 1]);
      if front.1.Some? then front
      else match ParseLine(lines[|lines| - 1])
        case Ok(e) => (front.0 + [e], None)
        case Err(err) => (front.0, Some(err))
  }

  /** `example_generator`: the header line (index 0) is skipped. */
  function ExampleGenerator(lines: seq<string>): (r: (seq<Example>, Option<Error>))
    ensures |lines| <= 1 ==> r == ([], None)
    ensures |lines| >= 1 ==> |r.0| <= |lines| - 1
    ensures forall k :: 0 <= k < |r.0| ==> ParseLine(lines[k + 1]) == Ok(r.0[k])
  {
    if |lines| == 0 then ([], None) else ParseLines(lines[1..])
  }

  /** The generator fails exactly when some data line is malformed, and
      otherwise yields one example per data line, in order. */
  lemma ExampleGeneratorSpec(lines: seq<string>)
    requires |lines| >= 1
    ensures ExampleGenerator(lines).1.None? <==> forall k :: 1 <= k < |lines| ==> ParseLine(lines[k]).Ok?
    ensures ExampleGenerator(lines).1.None? ==>
      |ExampleGenerator(lines).0| == |lines| - 1
      && forall k :: 1 <= k < |lines| ==> ExampleGenerator(lines).0[k - 1] == ParseLine(lines[k]).value
  {
    var data := lines[1..];
    var r := ParseLines(data);
    if r.1.Some? {
      assert lines[|r.0| + 1] == data[|r.0|];
    } else {
      forall k | 1 <= k < |lines|
        ensures ParseLine(lines[k]) == Ok(r.0[k - 1])
      {
        assert lines[k] == data[k - 1];
      }
    }
  }

  /** Whatever the header says, it yields nothing and cannot fail. */
  lemma HeaderIgnored(h1: string, h2: string, rest: seq<string>)
    ensures ExampleGenerator([h1] + rest) == ExampleGenerator([h2] + rest)
  {
    assert ([h1] + rest)[1..] == rest == ([h2] + rest)[1..];
  }

  /** A data line as the QNLI files write it: four tab-separated fields and
      a line break. */
  function FormatLine(index: string, question: string, sentence: string, labelId: nat): string
    requires labelId < NumClasses()
  {
    JoinWith([index, question, sentence, ClassLabels()[labelId]], '\t') + "\n"
  }

  /** Reading back a well-formed line gives its question, sentence and label. */
  lemma ParseFormatLine(index: string, question: string, sentence: string, labelId: nat)
    requires labelId < NumClasses()
    requires |index| > 0 && !IsAsciiSpace(index[0])
    requires '\t' !in index && '\t' !in question && '\t' !in sentence
    ensures ParseLine(FormatLine(index, question, sentence, labelId)) == Ok(Example([question, sentence], labelId))
  {
    var l := ClassLabels()[labelId];
    var fields := [index, question, sentence, l];
    var body := JoinWith(fields, '\t');
    assert body == index + ['\t'] + (question + ['\t'] + (sentence + ['\t'] + l)) by {
      assert fields[1..] == [question, sentence, l];
      assert JoinWith([question, sentence, l], '\t') == question + ['\t'] + JoinWith([sentence, l], '\t') by {
        assert [question, sentence, l][1..] == [sentence, l];
      }
      assert JoinWith([sentence, l], '\t') == sentence + ['\t'] + JoinWith([l], '\t') by {
        assert [sentence, l][1..] == [l];
      }
    }
    assert body[0] == index[0];
    assert body[|body| - 1] == l[|l| - 1];
    StripNewline(body);
    SplitJoin(fields, '\t');
  }

  /** `strip` removes the line break after a line whose ends are not blank. */
  lemma StripNewline(s: string)
    requires |s| > 0 && !IsAsciiSpace(s[0]) && !IsAsciiSpace(s[|s| - 1])
    ensures Strip(s + "\n") == s
  {
    var t := s + "\n";
    assert StripLeft(t) == t;
    assert t[..|t| - 1] == s;
    assert StripRight(t) == StripRight(s);
  }

  /** The file `generate_samples` reads: `train.tsv` for the training split
      and `dev.tsv` for every other split. */
  function SplitFile(split: DatasetSplit): (r: string)
    ensures r == "train.tsv" <==> split == Train
    ensures r != "train.tsv" ==> r == "dev.tsv"
  {
    if split == Train then "train.tsv" else "dev.tsv"
  }

  /** `generate_samples`: the examples of the split's file inside the QNLI
      directory; `read` stands for opening the file and reading its lines. */
  function GenerateSamples(qnliDir: string, split: DatasetSplit, read: string -> seq<string>)
    : (r: (seq<Example>, Option<Error>))
    ensures var lines := read(PathJoin(qnliDir, SplitFile(split)));
      forall k :: 0 <= k < |r.0| ==> k + 1 < |lines| && ParseLine(lines[k + 1]) == Ok(r.0[k])
  {
    ExampleGenerator(read(PathJoin(qnliDir, SplitFile(split))))
  }

  /** The two dataset splits read different files. */
  lemma SplitsReadDistinctFiles()
    ensures SplitFile(DatasetSplits()[0].0) == "train.tsv"
    ensures SplitFile(DatasetSplits()[1].0) == "dev.tsv"
  {
  }
}
