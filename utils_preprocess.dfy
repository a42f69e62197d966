/** utils/preprocess.py: sentence cleaning of uploaded CSV and PDF documents.
    The sentence splitter (nltk's sent_tokenize) and the CSV and PDF readers are foreign:
    the splitter is a parameter and the file contents are given as values. */
module UtilsPreprocess {
  import opened Wrappers
  import opened Strings
  import opened TextClean

  /** One row of an uploaded CSV file; a missing (NaN) text cell is None. */
  datatype CsvRow = CsvRow(title: string, text: Option<string>)

  /** An uploaded file: its name, and its contents as the CSV reader and the PDF reader see them. */
  datatype UploadedFile = UploadedFile(name: string, csvRows: seq<CsvRow>, pdfPageTexts: seq<string>)

  /** A preprocessed document: its title and its cleaned steps. */
  datatype Record = Record(title: string, steps: seq<string>)

  /** What process_document returns for a CSV file (one record per row) or a PDF file. */
  datatype Processed = CsvRecords(records: seq<Record>) | PdfRecord(record: Record)

  /** preprocess_text: a missing text counts as the empty string; then one cleaned step per sentence. */
  function PreprocessText(text: Option<string>, sentTokenize: string -> seq<string>): (steps: seq<string>)
    ensures var sentences := sentTokenize(text.GetOr(""));
      && |steps| == |sentences|
      && forall i :: 0 <= i < |steps| ==>
           steps[i] == CleanSentence(sentences[i], true) && IsClean(steps[i], true)
  {
    CleanAll(sentTokenize(if text.None? then "" else text.value), true)
  }

  /** A missing text is processed exactly like the empty string. */
  lemma MissingTextIsEmpty(sentTokenize: string -> seq<string>)
    ensures PreprocessText(None, sentTokenize) == PreprocessText(Some(""), sentTokenize)
  {
  }

  /** Cleaning the produced steps again changes none of them. */
  lemma PreprocessTextStable(text: Option<string>, sentTokenize: string -> seq<string>)
    ensures var steps := PreprocessText(text, sentTokenize);
      forall i :: 0 <= i < |steps| ==> CleanSentence(steps[i], true) == steps[i]
  {
    var steps := PreprocessText(text, sentTokenize);
    forall i | 0 <= i < |steps|
      ensures CleanSentence(steps[i], true) == steps[i]
    {
      CleanSentenceFixesClean(steps[i], true);
    }
  }

  /** process_document: dispatch on the case-sensitive suffix of the file name. */
  function ProcessDocument(file: UploadedFile, sentTokenize: string -> seq<string>): (r: Option<Processed>)
    ensures r.Some? <==> EndsWith(file.name, ".csv") || EndsWith(file.name, ".pdf")
    ensures EndsWith(file.name, ".csv") ==>
      && r.value.CsvRecords?
      && |r.value.records| == |file.csvRows|
      && forall i :: 0 <= i < |file.csvRows| ==>
           r.value.records[i] == Record(file.csvRows[i].title, PreprocessText(Some(file.csvRows[i].text.GetOr("")), sentTokenize))
    ensures !EndsWith(file.name, ".csv") && EndsWith(file.name, ".pdf") ==>
      r == Some(PdfRecord(Record(file.name, PreprocessText(Some(Join(file.pdfPageTexts, "\n")), sentTokenize))))
  {
    if EndsWith(file.name, ".csv") then
      // data['text'].fillna('') precedes the per-row call
      Some(CsvRecords(seq(|file.csvRows|, i requires 0 <= i < |file.csvRows| =>
        Record(file.csvRows[i].title, PreprocessText(Some(file.csvRows[i].text.GetOr("")), sentTokenize)))))
    else if EndsWith(file.name, ".pdf") then
      Some(PdfRecord(Record(file.name, PreprocessText(Some(Join(file.pdfPageTexts, "\n")), sentTokenize))))
    else None
  }

  /** The suffix test is case-sensitive: an upper-case extension is not recognised. */
  lemma UpperCaseExtensionIgnored(csvRows: seq<CsvRow>, pages: seq<string>, sentTokenize: string -> seq<string>)
    ensures ProcessDocument(UploadedFile("report.PDF", csvRows, pages), sentTokenize).None?
  {
  }
}
