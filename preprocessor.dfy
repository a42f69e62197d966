/** preprocessor.py: the second copy of the document preprocessor. Its preprocess_text has no
    missing-value check of its own; the CSV branch fills missing text cells with '' first. */
module Preprocessor {
  import opened Wrappers
  import opened Strings
  import opened TextClean
  import U = UtilsPreprocess

  /** preprocess_text: one cleaned step per sentence of the text. */
  function PreprocessText(text: string, sentTokenize: string -> seq<string>): (steps: seq<string>)
    ensures |steps| == |sentTokenize(text)|
    ensures forall i :: 0 <= i < |steps| ==> IsClean(steps[i], true)
  {
    CleanAll(sentTokenize(text), true)
  }

  /** Every step is its own sentence, cleaned, at the sentence's position, and cleaning it again is a no-op. */
  lemma PreprocessTextPerSentence(text: string, sentTokenize: string -> seq<string>, i: nat)
    requires i < |sentTokenize(text)|
    ensures var steps := PreprocessText(text, sentTokenize);
      && steps[i] == CleanSentence(sentTokenize(text)[i], true)
      && CleanSentence(steps[i], true) == steps[i]
  {
    CleanSentenceIdempotent(sentTokenize(text)[i], true);
  }

  /** process_document: None unless the name ends with '.csv' or '.pdf'; a PDF gives one record titled by the file name. */
  function ProcessDocument(file: U.UploadedFile, sentTokenize: string -> seq<string>): (r: Option<U.Processed>)
    ensures r.Some? <==> EndsWith(file.name, ".csv") || EndsWith(file.name, ".pdf")
    ensures EndsWith(file.name, ".csv") ==>
      && r.value.CsvRecords?
      && |r.value.records| == |file.csvRows|
      && forall i :: 0 <= i < |file.csvRows| ==>
           && r.value.records[i].title == file.csvRows[i].title
           && r.value.records[i].steps == PreprocessText(file.csvRows[i].text.GetOr(""), sentTokenize)
    ensures !EndsWith(file.name, ".csv") && EndsWith(file.name, ".pdf") ==>
      r == Some(U.PdfRecord(U.Record(file.name, PreprocessText(Join(file.pdfPageTexts, "\n"), sentTokenize))))
  {
    if EndsWith(file.name, ".csv") then
      Some(U.CsvRecords(seq(|file.csvRows|, i requires 0 <= i < |file.csvRows| =>
        U.Record(file.csvRows[i].title, PreprocessText(file.csvRows[i].text.GetOr(""), sentTokenize)))))
    else if EndsWith(file.name, ".pdf") then
      Some(U.PdfRecord(U.Record(file.name, PreprocessText(Join(file.pdfPageTexts, "\n"), sentTokenize))))
    else None
  }

  /** This copy and the one in utils/preprocess.py produce the same steps for any present text. */
  lemma AgreesWithUtils(text: string, sentTokenize: string -> seq<string>)
    ensures PreprocessText(text, sentTokenize) == U.PreprocessText(Some(text), sentTokenize)
  {
  }
}
