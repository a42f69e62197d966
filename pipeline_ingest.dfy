/** pipeline/ingest.py: loading a directory of papers and embedding their chunks in batches.
    The directory listing, the loaders, the text splitter and the vector store are foreign:
    the listing and each loader's outcome are inputs, the chunks are an input, and whether
    adding a batch succeeds is an oracle indexed by the batch number. */
module PipelineIngest {
  import opened Wrappers
  import opened Strings

  /** posixpath.splitext's extension: from the last '.', provided that dot comes after the last
      '/' and some character other than '.' precedes it in the final component; "" otherwise. */
  function Extension(path: string): (ext: string)
    ensures ext == [] || (ext[0] == '.' && '.' !in ext[1..] && '/' !in ext)
  {
    var start := match LastIndexOf(path, '/') case None => 0 case Some(s) => s + 1;
    match LastIndexOf(path, '.')
    case None => ""
    case Some(dot) =>
      if start <= dot && exists k :: start <= k < dot && path[k] != '.' then
        assert path[dot..] == [path[dot]] + path[dot + 1..];
        path[dot..]
      else ""
  }

  /** The last '.' of `<stem>.<ext>` is the one before `ext`, when `ext` has none. */
  lemma LastDotBeforeExt(stem: string, ext: string)
    requires '.' !in ext
    ensures LastIndexOf(stem + "." + ext, '.') == Some(|stem|)
  {
    var path := stem + "." + ext;
    var dot := |stem|;
    var tail := path[dot + 1..];
    assert tail == ext;
    forall k | dot < k < |path|
      ensures path[k] != '.'
    {
      assert path[k] == tail[k - dot - 1];
    }
    LastIndexOfIs(path, '.', dot);
  }

  /** A name `<stem>.<ext>`, whose stem has no '/' and does not start with '.', has extension ".<ext>". */
  lemma ExtensionOfName(stem: string, ext: string)
    requires |stem| > 0 && stem[0] != '.' && '/' !in stem
    requires '.' !in ext && '/' !in ext
    ensures Extension(stem + "." + ext) == "." + ext
  {
    var path := stem + "." + ext;
    LastDotBeforeExt(stem, ext);
    assert '/' !in path;
    assert path[0] == stem[0];
    assert path[|stem|..] == "." + ext;
  }

  /** A name whose only dot is its first character (".bashrc", or "..") has no extension. */
  lemma LeadingDotsOnly(name: string)
    requires |name| > 0 && name[0] == '.' && '.' !in name[1..]
    ensures Extension(name) == ""
  {
    forall k | 1 <= k < |name|
      ensures name[k] != '.'
    {
      assert name[k] == name[1..][k - 1];
    }
  }

  /** How load_documents treats a file. */
  datatype FileKind = Txt | Pdf | Unsupported

  /** The extension, lower-cased, decides: ".txt" and ".pdf" are loaded, anything else is skipped. */
  function Classify(name: string): (k: FileKind)
    ensures k == Txt <==> Lower(Extension(name)) == ".txt"
    ensures k == Pdf <==> Lower(Extension(name)) == ".pdf"
  {
    var ext := Lower(Extension(name));
    if ext == ".txt" then Txt else if ext == ".pdf" then Pdf else Unsupported
  }

  /** The extension is compared case-insensitively: "paper.PDF", "paper.Pdf" and the like load as PDFs. */
  lemma ClassifyIgnoresCase(stem: string, ext: string)
    requires |stem| > 0 && stem[0] != '.' && '/' !in stem
    requires Lower(ext) == "pdf"
    ensures Classify(stem + "." + ext) == Pdf
  {
    DottedPdf(ext);
    ExtensionOfName(stem, ext);
  }

  /** An extension that lower-cases to "pdf" holds no '.' or '/', and with its dot lower-cases to ".pdf". */
  lemma DottedPdf(ext: string)
    requires Lower(ext) == "pdf"
    ensures '.' !in ext && '/' !in ext && Lower("." + ext) == ".pdf"
  {
    forall k | 0 <= k < |ext|
      ensures ext[k] != '.' && ext[k] != '/'
    {
      assert LowerChar(ext[k]) == "pdf"[k];
    }
    assert forall k :: 1 <= k < 4 ==> Lower("." + ext)[k] == Lower(ext)[k - 1];
  }

  /** One directory entry: its name and what its loader returns, None when loading raises. */
  datatype Entry = Entry(name: string, load: Option<seq<string>>)

  /** What one entry adds: the loaded documents of a supported file, nothing otherwise. */
  function Contribution(e: Entry): (docs: seq<string>)
    ensures Classify(e.name) == Unsupported || e.load.None? ==> docs == []
  {
    if Classify(e.name) != Unsupported && e.load.Some? then e.load.value else []
  }

  /** The lists `f` gives for the elements of `xs`, concatenated in order. */
  function ConcatMap<T>(xs: seq<T>, f: T -> seq<string>): seq<string> {
    if |xs| == 0 then []
    else ConcatMap(xs[..|xs| - 1], f) + f(xs[|xs| - 1])
  }

  lemma {:induction false} ConcatMapAppend<T>(a: seq<T>, b: seq<T>, f: T -> seq<string>)
    ensures ConcatMap(a + b, f) == ConcatMap(a, f) + ConcatMap(b, f)
  {
    if |b| == 0 {
      assert a + b == a;
    } else {
      assert (a + b)[..|a + b| - 1] == a + b[..|b| - 1];
      ConcatMapAppend(a, b[..|b| - 1], f);
    }
  }

  /** The documents loaded from the entries, in listing order: those of the supported files that load. */
  function Loaded(entries: seq<Entry>): (docs: seq<string>) {
    ConcatMap(entries, Contribution)
  }

  /** Loading works entry by entry: it distributes over concatenation of listings. */
  lemma LoadedAppend(a: seq<Entry>, b: seq<Entry>)
    ensures Loaded(a + b) == Loaded(a) + Loaded(b)
  {
    ConcatMapAppend(a, b, Contribution);
  }

  /** A file that fails to load, or has an unsupported extension, adds nothing and does not stop the loop. */
  lemma SkippedEntry(before: seq<Entry>, e: Entry, after: seq<Entry>)
    requires Classify(e.name) == Unsupported || e.load.None?
    ensures Loaded(before + [e] + after) == Loaded(before) + Loaded(after)
  {
    NothingFrom(e);
    LoadedAppend(before, [e]);
    LoadedAppend(before + [e], after);
  }

  lemma NothingFrom(e: Entry)
    requires Classify(e.name) == Unsupported || e.load.None?
    ensures Loaded([e]) == []
  {
    assert [e][..0] == [];
    assert Loaded([e]) == ConcatMap([e][..0], Contribution) + Contribution(e);
  }

  /** load_documents: [] for a missing directory; otherwise every supported file's documents, in order. */
  method LoadDocuments(directoryExists: bool, entries: seq<Entry>) returns (documents: seq<string>)
    ensures documents == if directoryExists then Loaded(entries) else []
  {
    documents := [];
    if !directoryExists {
      return;
    }
    for i := 0 to |entries|
      invariant documents == Loaded(entries[..i])
    {
      assert entries[..i + 1][..i] == entries[..i];
      assert Loaded(entries[..i + 1]) == Loaded(entries[..i]) + Contribution(entries[i]);
      var kind := Classify(entries[i].name);
      if kind == Txt || kind == Pdf {
        match entries[i].load {
          case Some(docs) => documents := documents + docs;
          case None =>
        }
      }
    }
    assert entries[..|entries|] == entries;
  }

  /** The slices texts[i:i+size] for i in range(0, len(texts), size). */
  function Batches(texts: seq<string>, size: nat): (bs: seq<seq<string>>)
    requires size > 0
  {
    if |texts| == 0 then []
    else
      var k := if size <= |texts| then size else |texts|;
      [texts[..k]] + Batches(texts[k..], size)
  }

  /** Every batch is non-empty and holds at most `size` chunks. */
  lemma {:induction false} BatchSizes(texts: seq<string>, size: nat)
    requires size > 0
    ensures forall b :: b in Batches(texts, size) ==> 0 < |b| <= size
  {
    if |texts| > 0 {
      var k := if size <= |texts| then size else |texts|;
      BatchSizes(texts[k..], size);
    }
  }

  function Flatten(bs: seq<seq<string>>): seq<string> {
    if |bs| == 0 then [] else bs[0] + Flatten(bs[1..])
  }

  /** The batches partition the chunks: concatenated in order they give the chunk list back. */
  lemma {:induction false} BatchesPartition(texts: seq<string>, size: nat)
    requires size > 0
    ensures Flatten(Batches(texts, size)) == texts
  {
    if |texts| > 0 {
      var k := if size <= |texts| then size else |texts|;
      BatchesPartition(texts[k..], size);
      assert texts[..k] + texts[k..] == texts;
    }
  }

  /** There are ceil(n / size) batches: the fewest batches of `size` chunks that hold them all. */
  lemma {:induction false} BatchesCount(texts: seq<string>, size: nat)
    requires size > 0
    ensures var count := |Batches(texts, size)|; (count - 1) * size < |texts| <= count * size
  {
    if |texts| > 0 {
      var k := if size <= |texts| then size else |texts|;
      BatchesCount(texts[k..], size);
      var rest := |Batches(texts[k..], size)|;
      assert |Batches(texts, size)| == rest + 1;
      if k == size {
        assert (rest - 1) * size == rest * size - size;
        assert (rest + 1) * size == rest * size + size;
      } else {
        assert texts[k..] == [];
        assert rest == 0;
      }
    }
  }

  /** One batch taken at position `i`, the rest batched after it. */
  lemma BatchesStep(texts: seq<string>, i: nat, size: nat)
    requires size > 0 && i < |texts|
    ensures Batches(texts[i..], size)
      == [texts[i..Min(i + size, |texts|)]] + Batches(texts[Min(i + size, |texts|)..], size)
  {
    var end := Min(i + size, |texts|);
    assert texts[i..][..end - i] == texts[i..end];
    assert texts[i..][end - i..] == texts[end..];
  }

  /** The chunks of the batches whose add_documents call succeeds, in order. */
  function StoredBy(bs: seq<seq<string>>, succeeds: nat -> bool): seq<string> {
    if |bs| == 0 then []
    else StoredBy(bs[..|bs| - 1], succeeds) + (if succeeds(|bs| - 1) then bs[|bs| - 1] else [])
  }

  /** The batching loop's invariant survives taking one more batch. */
  lemma BatchLoopStep(texts: seq<string>, i: nat, size: nat, attempted: seq<seq<string>>)
    requires size > 0 && i < |texts|
    requires attempted + Batches(texts[i..], size) == Batches(texts, size)
    ensures (attempted + [texts[i..Min(i + size, |texts|)]]) + Batches(texts[Min(i + size, |texts|)..], size)
      == Batches(texts, size)
  {
    BatchesStep(texts, i, size);
    var end := Min(i + size, |texts|);
    assert (attempted + [texts[i..end]]) + Batches(texts[end..], size)
      == attempted + ([texts[i..end]] + Batches(texts[end..], size));
  }

  lemma StoredBySnoc(bs: seq<seq<string>>, b: seq<string>, succeeds: nat -> bool)
    ensures StoredBy(bs + [b], succeeds) == StoredBy(bs, succeeds) + (if succeeds(|bs|) then b else [])
  {
    assert (bs + [b])[..|bs|] == bs;
  }

  /** Python's min for the slice end. */
  function Min(a: int, b: int): int {
    if a <= b then a else b
  }

  /** The batching loop of main: every batch is attempted, in order, whatever happened to the earlier ones. */
  method EmbedBatches(texts: seq<string>, succeeds: nat -> bool) returns (attempted: seq<seq<string>>, stored: seq<string>)
    ensures attempted == Batches(texts, 3)
    ensures stored == StoredBy(attempted, succeeds)
  {
    var batchSize := 3;
    var total := |texts|;
    attempted, stored := [], [];
    var i := 0;
    while i < total
      invariant 0 <= i
      invariant attempted + Batches(texts[Min(i, total)..], batchSize) == Batches(texts, batchSize)
      invariant stored == StoredBy(attempted, succeeds)
      decreases total - i
    {
      var batch := texts[i..Min(i + batchSize, total)];
      BatchLoopStep(texts, i, batchSize, attempted);
      if succeeds(|attempted|) {
        stored := stored + batch;
      }
      StoredBySnoc(attempted, batch, succeeds);
      attempted := attempted + [batch];
      i := i + batchSize;
    }
    assert texts[Min(i, total)..] == [];
    assert attempted + [] == attempted;
  }

  /** main after loading: nothing is split or embedded when no document was loaded. */
  method IngestAll(documents: seq<string>, texts: seq<string>, succeeds: nat -> bool) returns (attempted: seq<seq<string>>, stored: seq<string>)
    ensures |documents| == 0 ==> attempted == [] && stored == []
    ensures |documents| > 0 ==> attempted == Batches(texts, 3) && stored == StoredBy(attempted, succeeds)
  {
    if |documents| == 0 {
      return [], [];
    }
    attempted, stored := EmbedBatches(texts, succeeds);
  }
}
