/** web_scrapers/search_tool_arxiv.py: file names and paths of downloaded arXiv papers.
    The HTTP request, the PDF text extraction and the file writes are foreign; the status code
    and the response body are inputs, and a write is returned as the file it would create. */
module SearchToolArxiv {
  import opened Wrappers
  import opened Strings

  /** The characters sanitize_filename replaces, in the order it replaces them. */
  const InvalidChars: seq<char> := ['<', '>', ':', '"', '/', '\\', '|', '?', '*']

  /** A file the code writes: where, and what. */
  datatype FileWrite<T> = FileWrite(path: string, content: T)

  /** The character sanitize_filename leaves in place of `c`. */
  function SafeChar(c: char): char {
    if c in InvalidChars then '-' else c
  }

  /** Reference definition of sanitize_filename: every invalid character becomes '-', position by position. */
  function Sanitized(name: string): (r: string)
    ensures |r| == |name|
    ensures forall c :: c in InvalidChars ==> c !in r
  {
    seq(|name|, i requires 0 <= i < |name| => SafeChar(name[i]))
  }

  /** str.replace of one character by '-' rewrites exactly the positions holding that character. */
  lemma {:induction false} ReplaceCharPointwise(s: string, c: char)
    ensures |Replace(s, [c], "-")| == |s|
    ensures forall i :: 0 <= i < |s| ==> Replace(s, [c], "-")[i] == (if s[i] == c then '-' else s[i])
  {
    if s != [] {
      ReplaceCharPointwise(s[1..], c);
      if [c] <= s {
        assert s[|[c]|..] == s[1..];
      }
    }
  }

  /** sanitize_filename: one str.replace per invalid character, rebinding the name each time. */
  method SanitizeFilename(filename: string) returns (r: string)
    ensures r == Sanitized(filename)
  {
    r := filename;
    for k := 0 to |InvalidChars|
      invariant |r| == |filename|
      invariant forall i :: 0 <= i < |r| ==>
        r[i] == (if filename[i] in InvalidChars[..k] then '-' else filename[i])
    {
      ReplaceCharPointwise(r, InvalidChars[k]);
      assert InvalidChars[..k + 1] == InvalidChars[..k] + [InvalidChars[k]];
      r := Replace(r, [InvalidChars[k]], "-");
    }
    assert InvalidChars[..|InvalidChars|] == InvalidChars;
  }

  /** A name with no invalid character is left as it is. */
  lemma SanitizedKeepsValidName(name: string)
    requires forall c :: c in InvalidChars ==> c !in name
    ensures Sanitized(name) == name
  {
  }

  /** sanitize_filename is idempotent. */
  lemma SanitizeIdempotent(name: string)
    ensures Sanitized(Sanitized(name)) == Sanitized(name)
  {
    SanitizedKeepsValidName(Sanitized(name));
  }

  /** download_pdf: on status 200 the body is written to `<folder>/<sanitized title>.pdf`
      and that path is returned; on any other status nothing is written and None is returned. */
  function DownloadPdf(status: int, body: seq<bv8>, title: string, saveFolder: string): (r: Option<FileWrite<seq<bv8>>>)
    ensures r.Some? <==> status == 200
    ensures r.Some? ==> r.value.content == body
  {
    if status == 200 then
      Some(FileWrite(PathJoin(saveFolder, Sanitized(title) + ".pdf"), body))
    else None
  }

  /** The downloaded file lands directly inside the save folder, named after the sanitized title. */
  lemma DownloadStaysInFolder(body: seq<bv8>, title: string, saveFolder: string)
    ensures var name := Sanitized(title) + ".pdf";
      && '/' !in name
      && exists sep :: sep in {"", "/"} && DownloadPdf(200, body, title, saveFolder).value.path == saveFolder + sep + name
  {
    var name := Sanitized(title) + ".pdf";
    assert '/' in InvalidChars;
    assert name[0] != '/';
    var path := DownloadPdf(200, body, title, saveFolder).value.path;
    if saveFolder == [] || saveFolder[|saveFolder| - 1] == '/' {
      assert "" in {"", "/"} && path == saveFolder + "" + name;
    } else {
      assert "/" in {"", "/"} && path == saveFolder + "/" + name;
    }
  }

  /** The text-file path save_text derives: every ".pdf" becomes ".txt". */
  function TextPath(filePath: string): string {
    Replace(filePath, ".pdf", ".txt")
  }

  /** save_text: the extracted text is written next to the PDF. */
  function SaveText(text: string, filePath: string): (w: FileWrite<string>)
    ensures w.content == text
    ensures w.path == TextPath(filePath)
    ensures |w.path| == |filePath|
  {
    TextPathLength(filePath);
    FileWrite(TextPath(filePath), text)
  }

  /** Replacing ".pdf" by ".txt" keeps the length and the first character. */
  lemma {:induction false} TextPathLength(s: string)
    ensures |TextPath(s)| == |s|
    ensures |s| > 0 ==> TextPath(s)[0] == s[0]
  {
    if s != [] {
      if ".pdf" <= s {
        TextPathLength(s[4..]);
      } else {
        TextPathLength(s[1..]);
      }
    }
  }

  /** Without a ".pdf" at its start the text path keeps the first character and rewrites the rest. */
  lemma TextPathUnfold(s: string)
    requires |s| > 0 && !(".pdf" <= s)
    ensures TextPath(s) == [s[0]] + TextPath(s[1..])
  {
  }

  /** Where `s` does not start with ".pdf", neither does its text path: the first four
      characters are copied unless one of them starts a rewritten ".pdf". */
  lemma NoPdfAtStart(s: string)
    requires !(".pdf" <= s)
    ensures !(".pdf" <= TextPath(s))
  {
    var r := TextPath(s);
    TextPathLength(s);
    if |s| >= 4 && s[0] == '.' {
      var t := s[1..];
      TextPathUnfold(s);
      TextPathLength(t);
      assert r[1] == t[0] == s[1];
      if s[1] == 'p' {
        TextPathUnfold(t);
        TextPathLength(t[1..]);
        assert r[2] == t[1] == s[2];
        if s[2] == 'd' {
          TextPathUnfold(t[1..]);
          TextPathLength(t[2..]);
          assert t[1..][1..] == t[2..];
          assert r[3] == t[2] == s[3];
          assert s[..4] != ".pdf";
        }
      }
    }
  }

  /** A derived text path never still holds ".pdf". */
  lemma {:induction false} TextPathHasNoPdf(s: string)
    ensures forall j :: 0 <= j <= |TextPath(s)| ==> !(".pdf" <= TextPath(s)[j..])
  {
    var r := TextPath(s);
    TextPathLength(s);
    if s == [] {
    } else if ".pdf" <= s {
      TextPathHasNoPdf(s[4..]);
      var rest := TextPath(s[4..]);
      assert r == ".txt" + rest;
      forall j | 0 <= j <= |r|
        ensures !(".pdf" <= r[j..])
      {
        if j >= 4 {
          assert r[j..] == rest[j - 4..];
        } else {
          assert r[j] == ".txt"[j];
          if j == 0 {
            assert r[1] == 't';
          }
        }
      }
    } else {
      TextPathHasNoPdf(s[1..]);
      var t := s[1..];
      var rest := TextPath(t);
      TextPathUnfold(s);
      TextPathLength(t);
      assert r == [s[0]] + rest;
      forall j | 0 <= j <= |r|
        ensures !(".pdf" <= r[j..])
      {
        if j >= 1 {
          assert r[j..] == rest[j - 1..];
        } else {
          NoPdfAtStart(s);
        }
      }
    }
  }

  /** Rewriting a path that ends in ".pdf" gives one that ends in ".txt". */
  lemma {:induction false} TextPathOfPdf(x: string)
    ensures TextPath(x + ".pdf") == TextPath(x) + ".txt"
  {
    var s := x + ".pdf";
    if x == [] {
      assert s == ".pdf";
      assert s[4..] == [];
    } else if ".pdf" <= x {
      assert s[4..] == x[4..] + ".pdf";
      TextPathOfPdf(x[4..]);
    } else {
      if |x| < 4 {
        assert s[|x|] == '.';
      } else {
        assert s[..4] == x[..4];
      }
      assert !(".pdf" <= s);
      assert s[1..] == x[1..] + ".pdf";
      TextPathOfPdf(x[1..]);
    }
  }
}
