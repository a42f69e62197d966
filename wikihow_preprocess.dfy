/** wikihow_sequence_reconstruction/scripts/preprocess.py: step extraction over the WikiHow
    dataset's text column. Its pattern keeps letters and whitespace only, so digits are dropped. */
module WikihowPreprocess {
  import opened Wrappers
  import opened Strings
  import opened TextClean

  /** The text column after fillna(''): every missing cell becomes the empty string. */
  function FillMissing(column: seq<Option<string>>): (texts: seq<string>)
    ensures |texts| == |column|
    ensures forall i :: 0 <= i < |column| ==> (column[i].None? ==> texts[i] == "")
    ensures forall i :: 0 <= i < |column| ==> (column[i].Some? ==> texts[i] == column[i].value)
  {
    seq(|column|, i requires 0 <= i < |column| => column[i].GetOr(""))
  }

  /** extract_steps: one cleaned step per sentence. */
  function ExtractSteps(text: string, sentTokenize: string -> seq<string>): (steps: seq<string>)
    ensures |steps| == |sentTokenize(text)|
    ensures forall i :: 0 <= i < |steps| ==> steps[i] == CleanSentence(sentTokenize(text)[i], false)
    ensures forall i :: 0 <= i < |steps| ==> IsClean(steps[i], false)
  {
    CleanAll(sentTokenize(text), false)
  }

  /** No extracted step holds a digit or an upper-case letter, and each is stripped. */
  lemma ExtractedStepsHaveNoDigits(text: string, sentTokenize: string -> seq<string>, i: nat)
    requires i < |sentTokenize(text)|
    ensures var step := ExtractSteps(text, sentTokenize)[i];
      && (forall k :: 0 <= k < |step| ==> !IsDigit(step[k]) && !IsUpper(step[k]))
      && Stripped(step)
  {
    var step := ExtractSteps(text, sentTokenize)[i];
    assert IsClean(step, false);
    forall k | 0 <= k < |step|
      ensures !IsDigit(step[k]) && !IsUpper(step[k])
    {
      assert CleanChar(step[k], false);
    }
  }

  /** The column the script writes: the steps of every row, missing texts counting as ''. */
  function StepsColumn(column: seq<Option<string>>, sentTokenize: string -> seq<string>): (steps: seq<seq<string>>)
    ensures |steps| == |column|
    ensures forall i :: 0 <= i < |column| ==> column[i].None? ==> steps[i] == CleanAll(sentTokenize(""), false)
    ensures forall i :: 0 <= i < |column| ==> column[i].Some? ==> steps[i] == ExtractSteps(column[i].value, sentTokenize)
  {
    var texts := FillMissing(column);
    seq(|texts|, i requires 0 <= i < |texts| => ExtractSteps(texts[i], sentTokenize))
  }
}
