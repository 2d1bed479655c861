/** Loading uploaded PDFs: the upload is validated, each file is copied to
    a named temporary file "<dir>/<filename>_temp_<random>.pdf", the
    temporary files are parsed into pages labelled with their original file
    name and split into chunks, and the temporary files are removed again.
    Parsing and splitting are the `Loader` and `Splitter` parameters; the
    temporary directory is a map from paths to contents. */
module PdfLoader {
  import opened Common
  import Text

  type Bytes = seq<bv8>

  /** An uploaded file. */
  datatype UploadFile = UploadFile(filename: string, contentType: string, content: Bytes)

  /** What goes wrong, if anything, while copying one upload: creating the
      temporary file, or reading the upload and writing the copy (after the
      temporary file exists). */
  datatype Fault = NoFault | OpenFails(message: string) | WriteFails(message: string)

  /** `PyPDFLoader(path).load()` given what the path holds, if anything. */
  type Loader = (string, Option<Bytes>) -> Result<seq<Document>>

  /** `split_documents`. */
  type Splitter = seq<Document> -> seq<Document>

  const PdfType := "application/pdf"
  const Marker := "_temp_"

  // ---------------------------------------------------------------------
  // Validation

  /** Why an upload is refused, if it is: no files, or the first file whose
      content type is not PDF. */
  function Rejection(files: seq<UploadFile>): (r: Option<Error>)
    ensures files == [] ==> r == Some(HttpError(400, "No files provided"))
    ensures r.None? <==> files != [] && forall i :: 0 <= i < |files| ==> files[i].contentType == PdfType
    ensures r.Some? && files != [] ==>
      exists i :: 0 <= i < |files| && files[i].contentType != PdfType &&
        (forall j :: 0 <= j < i ==> files[j].contentType == PdfType) &&
        r.value == HttpError(400, "File " + files[i].filename + " is not a PDF. Only PDF files are allowed.")
  {
    if files == [] then Some(HttpError(400, "No files provided"))
    else NotPdf(files, 0)
  }

  function NotPdf(files: seq<UploadFile>, from: nat): (r: Option<Error>)
    requires from <= |files|
    requires forall j :: 0 <= j < from ==> files[j].contentType == PdfType
    ensures r.None? <==> forall i :: 0 <= i < |files| ==> files[i].contentType == PdfType
    ensures r.Some? ==>
      exists i :: from <= i < |files| && files[i].contentType != PdfType &&
        (forall j :: 0 <= j < i ==> files[j].contentType == PdfType) &&
        r.value == HttpError(400, "File " + files[i].filename + " is not a PDF. Only PDF files are allowed.")
    decreases |files| - from
  {
    if from == |files| then None
    else if files[from].contentType != PdfType then
      Some(HttpError(400, "File " + files[from].filename + " is not a PDF. Only PDF files are allowed."))
    else NotPdf(files, from + 1)
  }

  /** The checks at the start of `__init__`. */
  method ValidateUploads(files: seq<UploadFile>) returns (r: Outcome)
    ensures r.Pass? <==> Rejection(files).None?
    ensures r.Fail? ==> r.error == Rejection(files).value
  {
    if |files| == 0 {
      return Fail(HttpError(400, "No files provided"));
    }
    var i := 0;
    while i < |files|
      invariant 0 <= i <= |files|
      invariant forall j :: 0 <= j < i ==> files[j].contentType == PdfType
      invariant NotPdf(files, i) == Rejection(files)
    {
      if files[i].contentType != PdfType {
        return Fail(HttpError(400, "File " + files[i].filename + " is not a PDF. Only PDF files are allowed."));
      }
      i := i + 1;
    }
    return Pass;
  }

  // ---------------------------------------------------------------------
  // Temporary file names

  /** The path `NamedTemporaryFile(prefix=name + "_temp_", suffix=".pdf")`
      creates in `dir`, with `token` its random part. */
  function TempPath(dir: string, name: string, token: string): string
  {
    dir + "/" + name + Marker + token + ".pdf"
  }

  /** The file name `load_pdfs` recovers from a page's source path: the part
      after the last "/", cut at the first "_temp_". */
  function FileNameOf(source: string): (r: string)
    ensures '/' !in r
    ensures !Text.Contains(r, Marker)
  {
    var base := Text.LastSegment(source, '/');
    var r := Text.FirstPiece(base, Marker);
    Text.FirstPieceLacksSeparator(base, Marker);
    assert forall c :: c in r ==> c in base by {
      forall c | c in r ensures c in base {
        var i :| 0 <= i < |r| && r[i] == c;
        assert base[i] == c;
      }
    }
    r
  }

  /** An occurrence of the marker inside `name` is an occurrence in `name`. */
  lemma OccurrenceInside(name: string, rest: string, i: int)
    requires Text.OccursAt(name + Marker + rest, Marker, i) && i + |Marker| <= |name|
    ensures Text.OccursAt(name, Marker, i)
  {
    assert (name + Marker + rest)[i..i + |Marker|] == name[i..i + |Marker|];
  }

  /** The marker can overlap the end of `name` only by "_temp", because its
      only non-trivial border is "_". */
  lemma OccurrenceStraddling(name: string, rest: string, i: int)
    requires Text.OccursAt(name + Marker + rest, Marker, i)
    requires |name| - |Marker| < i < |name|
    ensures i == |name| - 5
    ensures Text.EndsWith(name, "_temp")
  {
    var s := name + Marker + rest;
    var j := |name| - i;
    assert s[|name|] == '_';
    assert s[i..i + |Marker|][j] == s[i + j];
    assert Marker[j] == '_';
    assert j == 5;
    assert name[|name| - 5..] == s[i..i + 5] == Marker[..5];
  }

  /** The extraction on a temporary path only looks at what follows the
      directory. */
  lemma ExtractAfterDirectory(dir: string, name: string, token: string)
    requires '/' !in name && '/' !in token
    ensures FileNameOf(TempPath(dir, name, token)) == Text.FirstPiece(name + Marker + (token + ".pdf"), Marker)
  {
    var base := name + Marker + (token + ".pdf");
    assert TempPath(dir, name, token) == dir + ['/'] + base;
    assert '/' !in base by {
      assert '/' !in Marker && '/' !in ".pdf";
      assert base == name + Marker + token + ".pdf";
    }
    Text.LastSegmentAfterSeparator(dir, '/', base);
  }

  lemma CleanNameRecovered(name: string, rest: string)
    requires !Text.Contains(name, Marker) && !Text.EndsWith(name, "_temp")
    ensures Text.FirstPiece(name + Marker + rest, Marker) == name
  {
    forall i | 0 <= i < |name| ensures !Text.OccursAt(name + Marker + rest, Marker, i) {
      if Text.OccursAt(name + Marker + rest, Marker, i) {
        if i + |Marker| <= |name| {
          OccurrenceInside(name, rest, i);
          assert false;
        } else {
          OccurrenceStraddling(name, rest, i);
          assert false;
        }
      }
    }
    Text.FirstPieceBefore(name, Marker, rest);
  }

  lemma MarkerInNameCuts(name: string, rest: string)
    requires Text.Contains(name, Marker)
    ensures Text.FirstPiece(name + Marker + rest, Marker) != name
  {
    var base := name + Marker + rest;
    var i :| 0 <= i <= |name| && Text.OccursAt(name, Marker, i);
    assert base[i..i + |Marker|] == name[i..i + |Marker|];
    Text.FirstPieceStopsAt(base, Marker, i);
  }

  lemma TempSuffixCuts(name: string, rest: string)
    requires Text.EndsWith(name, "_temp")
    ensures Text.FirstPiece(name + Marker + rest, Marker) != name
  {
    var base := name + Marker + rest;
    var i := |name| - 5;
    assert base[i..i + |Marker|] == name[i..] + "_";
    assert Text.OccursAt(base, Marker, i);
    Text.FirstPieceStopsAt(base, Marker, i);
  }

  /** Round trip of the temporary naming: for a name and a random part
      without "/", the recovered file name is the uploaded name exactly when
      the name neither contains "_temp_" nor ends in "_temp". */
  lemma TempNameRoundTrip(dir: string, name: string, token: string)
    requires '/' !in name && '/' !in token
    ensures FileNameOf(TempPath(dir, name, token)) == name <==>
            !Text.Contains(name, Marker) && !Text.EndsWith(name, "_temp")
  {
    ExtractAfterDirectory(dir, name, token);
    var rest := token + ".pdf";
    if !Text.Contains(name, Marker) && !Text.EndsWith(name, "_temp") {
      CleanNameRecovered(name, rest);
    } else if Text.Contains(name, Marker) {
      MarkerInNameCuts(name, rest);
    } else {
      TempSuffixCuts(name, rest);
    }
  }

  lemma NotesLiterals()
    ensures '/' !in "notes_temp"
    ensures !Text.Contains("notes", Marker) && !Text.EndsWith("notes", "_temp")
  {
  }

  lemma NotesTempSplits(tail: string)
    ensures "notes_temp" + Marker + tail == "notes" + Marker + ("temp_" + tail)
  {
    assert "notes_temp" + Marker == "notes" + Marker + "temp_";
    AppendAssoc("notes" + Marker, "temp_", tail);
  }

  /** A concrete name the extraction gets wrong: "notes_temp" comes back as
      "notes". */
  lemma TempSuffixCounterexample(token: string)
    requires '/' !in token
    ensures FileNameOf(TempPath("/tmp", "notes_temp", token)) == "notes"
  {
    NotesLiterals();
    ExtractAfterDirectory("/tmp", "notes_temp", token);
    var rest := "temp_" + token + ".pdf";
    NotesTempSplits(token + ".pdf");
    AppendAssoc("temp_", token, ".pdf");
    CleanNameRecovered("notes", rest);
  }

  // ---------------------------------------------------------------------
  // The temporary directory

  class TempDir {
    var files: map<string, Bytes>

    constructor (files: map<string, Bytes>)
      ensures this.files == files
    {
      this.files := files;
    }
  }

  /** The map after assigning `values[i]` to `keys[i]`, in order. */
  function Recorded<V>(m: map<string, V>, keys: seq<string>, values: seq<V>): (r: map<string, V>)
    requires |keys| == |values|
    ensures forall k :: k in r <==> k in m || k in keys
    decreases |keys|
  {
    if keys == [] then m
    else Recorded(m, keys[..|keys| - 1], values[..|values| - 1])[keys[|keys| - 1] := values[|values| - 1]]
  }

  /** The directory after `os.remove` of each path in turn, a missing file
      and a failing removal being skipped. */
  function DeleteAll(m: map<string, Bytes>, paths: seq<string>, removeFails: string -> bool)
    : map<string, Bytes>
    decreases |paths|
  {
    if paths == [] then m
    else
      var before := DeleteAll(m, paths[..|paths| - 1], removeFails);
      var p := paths[|paths| - 1];
      if p in before && !removeFails(p) then before - {p} else before
  }

  /** Every listed path is attempted: exactly the listed paths whose removal
      does not fail are gone, and no other file is touched. */
  lemma {:induction false} DeleteAllRemovesListed(m: map<string, Bytes>, paths: seq<string>,
                                                 removeFails: string -> bool, p: string)
    ensures p in DeleteAll(m, paths, removeFails) <==> p in m && (p !in paths || removeFails(p))
    ensures p in DeleteAll(m, paths, removeFails) ==> DeleteAll(m, paths, removeFails)[p] == m[p]
    decreases |paths|
  {
    if paths != [] {
      var init := paths[..|paths| - 1];
      DeleteAllRemovesListed(m, init, removeFails, p);
      assert paths == init + [paths[|paths| - 1]];
    }
  }

  /** Files written to fresh paths and then all removed leave the directory
      as it was. */
  lemma WriteThenDeleteRestores(m: map<string, Bytes>, paths: seq<string>, contents: seq<Bytes>,
                                removeFails: string -> bool)
    requires |paths| == |contents|
    requires forall i :: 0 <= i < |paths| ==> paths[i] !in m && !removeFails(paths[i])
    ensures DeleteAll(Recorded(m, paths, contents), paths, removeFails) == m
  {
    var after := DeleteAll(Recorded(m, paths, contents), paths, removeFails);
    forall p ensures p in after <==> p in m {
      DeleteAllRemovesListed(Recorded(m, paths, contents), paths, removeFails, p);
    }
    forall p | p in after ensures after[p] == m[p] {
      DeleteAllRemovesListed(Recorded(m, paths, contents), paths, removeFails, p);
      RecordedKeepsOthers(m, paths, contents, p);
    }
  }

  lemma {:induction false} RecordedKeepsOthers<V>(m: map<string, V>, keys: seq<string>, values: seq<V>, k: string)
    requires |keys| == |values| && k !in keys && k in m
    ensures Recorded(m, keys, values)[k] == m[k]
    decreases |keys|
  {
    if keys != [] {
      assert keys[..|keys| - 1] <= keys;
      RecordedKeepsOthers(m, keys[..|keys| - 1], values[..|values| - 1], k);
    }
  }

  lemma RecordedSnoc<V>(m: map<string, V>, keys: seq<string>, values: seq<V>, k: string, v: V)
    requires |keys| == |values|
    ensures Recorded(m, keys + [k], values + [v]) == Recorded(m, keys, values)[k := v]
  {
    assert (keys + [k])[..|keys|] == keys;
    assert (values + [v])[..|values|] == values;
  }

  /** Every recorded temporary path has its upload's name recorded. */
  ghost predicate Covers(paths: seq<string>, names: map<string, string>)
  {
    forall i :: 0 <= i < |paths| ==> paths[i] in names
  }

  lemma CoversSnoc(paths: seq<string>, names: map<string, string>, path: string, name: string)
    requires Covers(paths, names)
    ensures Covers(paths + [path], names[path := name])
  {
    forall i | 0 <= i < |paths + [path]| ensures (paths + [path])[i] in names[path := name] {
      if i < |paths| {
        assert (paths + [path])[i] == paths[i];
      }
    }
  }

  /** The paths of the first `n` uploads. */
  function CreatedPaths(dir: string, files: seq<UploadFile>, token: nat -> string, n: nat): (r: seq<string>)
    requires n <= |files|
    ensures |r| == n
    ensures forall i :: 0 <= i < n ==> r[i] == TempPath(dir, files[i].filename, token(i))
  {
    seq(n, i requires 0 <= i < n => TempPath(dir, files[i].filename, token(i)))
  }

  function Contents(files: seq<UploadFile>, n: nat): (r: seq<Bytes>)
    requires n <= |files|
    ensures |r| == n
    ensures forall i :: 0 <= i < n ==> r[i] == files[i].content
  {
    seq(n, i requires 0 <= i < n => files[i].content)
  }

  function Names(files: seq<UploadFile>, n: nat): (r: seq<string>)
    requires n <= |files|
    ensures |r| == n
    ensures forall i :: 0 <= i < n ==> r[i] == files[i].filename
  {
    seq(n, i requires 0 <= i < n => files[i].filename)
  }

  lemma CreatedSnoc(dir: string, files: seq<UploadFile>, token: nat -> string, i: nat)
    requires i < |files|
    ensures CreatedPaths(dir, files, token, i + 1) ==
            CreatedPaths(dir, files, token, i) + [TempPath(dir, files[i].filename, token(i))]
    ensures Names(files, i + 1) == Names(files, i) + [files[i].filename]
    ensures Contents(files, i + 1) == Contents(files, i) + [files[i].content]
  {
  }

  /** The number of uploads copied before the first fault. */
  function FirstFault(fault: nat -> Fault, n: nat): (k: nat)
    ensures k <= n
    ensures forall i :: 0 <= i < k ==> fault(i).NoFault?
    ensures k < n ==> !fault(k).NoFault?
  {
    if n == 0 then 0
    else
      var k := FirstFault(fault, n - 1);
      if k < n - 1 then k
      else if fault(n - 1).NoFault? then n
      else n - 1
  }

  // ---------------------------------------------------------------------
  // Loading

  /** The pages with `file_name` set to `name`, everything else kept. */
  function Label(pages: seq<Document>, name: string): (r: seq<Document>)
    ensures |r| == |pages|
    ensures forall i :: 0 <= i < |r| ==>
      r[i].content == pages[i].content &&
      r[i].metadata == pages[i].metadata["file_name" := Str(name)]
  {
    seq(|pages|, i requires 0 <= i < |pages| =>
      pages[i].(metadata := pages[i].metadata["file_name" := Str(name)]))
  }

  /** The labelled pages of every temporary file in order, or the first
      loading failure. */
  function Pages(stored: map<string, Bytes>, paths: seq<string>, names: map<string, string>, loader: Loader)
    : (r: Result<seq<Document>>)
    requires forall i :: 0 <= i < |paths| ==> paths[i] in names
    decreases |paths|
  {
    if paths == [] then Ok([])
    else
      var p := paths[|paths| - 1];
      match Pages(stored, paths[..|paths| - 1], names, loader)
      case Err(e) => Err(e)
      case Ok(before) =>
        match loader(p, if p in stored then Some(stored[p]) else None)
        case Err(e) => Err(e)
        case Ok(pages) => Ok(before + Label(pages, names[p]))
  }

  /** Every loaded page carries the recorded file name of one of the
      temporary files. */
  lemma {:induction false} PagesLabelled(stored: map<string, Bytes>, paths: seq<string>,
                                         names: map<string, string>, loader: Loader)
    requires forall i :: 0 <= i < |paths| ==> paths[i] in names
    requires Pages(stored, paths, names, loader).Ok?
    ensures forall d :: d in Pages(stored, paths, names, loader).value ==>
      "file_name" in d.metadata &&
      exists i :: 0 <= i < |paths| && d.metadata["file_name"] == Str(names[paths[i]])
    decreases |paths|
  {
    if paths != [] {
      var init := paths[..|paths| - 1];
      var p := paths[|paths| - 1];
      PagesLabelled(stored, init, names, loader);
      var before := Pages(stored, init, names, loader).value;
      var pages := loader(p, if p in stored then Some(stored[p]) else None).value;
      forall d | d in Pages(stored, paths, names, loader).value
        ensures "file_name" in d.metadata
        ensures exists i :: 0 <= i < |paths| && d.metadata["file_name"] == Str(names[paths[i]])
      {
        if d in before {
          var i :| 0 <= i < |init| && d.metadata["file_name"] == Str(names[init[i]]);
          assert paths[i] == init[i];
        } else {
          assert d in Label(pages, names[p]);
          var k :| 0 <= k < |pages| && Label(pages, names[p])[k] == d;
          assert d.metadata["file_name"] == Str(names[paths[|paths| - 1]]);
        }
      }
    }
  }

  /** The pages `PyPDFLoader` reads from one temporary path (none when it fails). */
  function Loaded(stored: map<string, Bytes>, p: string, loader: Loader): seq<Document>
  {
    match loader(p, if p in stored then Some(stored[p]) else None)
    case Ok(pages) => pages
    case Err(_) => []
  }

  /** The parts one after the other. */
  function Concat(parts: seq<seq<Document>>): seq<Document>
    decreases |parts|
  {
    if parts == [] then [] else Concat(parts[..|parts| - 1]) + parts[|parts| - 1]
  }

  /** The load file by file: when it succeeds, every temporary file loaded,
      and the result is each file's own pages, in path order, labelled with
      the name recorded for that file's path. */
  lemma {:induction false} PagesByFile(stored: map<string, Bytes>, paths: seq<string>,
                                       names: map<string, string>, loader: Loader)
    requires forall i :: 0 <= i < |paths| ==> paths[i] in names
    requires Pages(stored, paths, names, loader).Ok?
    ensures forall i :: 0 <= i < |paths| ==>
      loader(paths[i], if paths[i] in stored then Some(stored[paths[i]]) else None).Ok?
    ensures Pages(stored, paths, names, loader).value ==
      Concat(seq(|paths|, i requires 0 <= i < |paths| => Label(Loaded(stored, paths[i], loader), names[paths[i]])))
    decreases |paths|
  {
    if paths != [] {
      var init := paths[..|paths| - 1];
      var p := paths[|paths| - 1];
      PagesByFile(stored, init, names, loader);
      var parts := seq(|paths|, i requires 0 <= i < |paths| => Label(Loaded(stored, paths[i], loader), names[paths[i]]));
      var initParts := seq(|init|, i requires 0 <= i < |init| => Label(Loaded(stored, init[i], loader), names[init[i]]));
      forall i | 0 <= i < |init| ensures parts[i] == initParts[i] && init[i] == paths[i] {
      }
      assert parts[..|parts| - 1] == initParts;
      var loaded := loader(p, if p in stored then Some(stored[p]) else None);
      assert loaded.Ok? && Loaded(stored, p, loader) == loaded.value;
      assert Pages(stored, paths, names, loader).value ==
        Pages(stored, init, names, loader).value + parts[|parts| - 1];
    }
  }

  /** End to end, for the names recorded at creation: the pages of each
      upload, in upload order, each page labelled with its own upload's
      file name, whatever that name is. */
  lemma PagesCarryUploadNames(stored: map<string, Bytes>, dir: string, files: seq<UploadFile>,
                              token: nat -> string, loader: Loader)
    requires forall a, b :: 0 <= a < b < |files| ==>
      TempPath(dir, files[a].filename, token(a)) != TempPath(dir, files[b].filename, token(b))
    requires var paths := CreatedPaths(dir, files, token, |files|);
      Pages(stored, paths, Recorded(map[], paths, Names(files, |files|)), loader).Ok?
    ensures var paths := CreatedPaths(dir, files, token, |files|);
      Pages(stored, paths, Recorded(map[], paths, Names(files, |files|)), loader).value ==
        Concat(seq(|files|, i requires 0 <= i < |files| => Label(Loaded(stored, paths[i], loader), files[i].filename)))
  {
    var paths := CreatedPaths(dir, files, token, |files|);
    var names := Recorded(map[], paths, Names(files, |files|));
    PagesByFile(stored, paths, names, loader);
    forall i | 0 <= i < |files| ensures paths[i] in names && names[paths[i]] == files[i].filename {
      RecordedAt(map[], paths, Names(files, |files|), i);
    }
    SameLabels(stored, paths, names, files, loader);
  }

  lemma SameLabels(stored: map<string, Bytes>, paths: seq<string>, names: map<string, string>,
                   files: seq<UploadFile>, loader: Loader)
    requires |paths| == |files|
    requires forall i :: 0 <= i < |files| ==> paths[i] in names && names[paths[i]] == files[i].filename
    ensures seq(|paths|, i requires 0 <= i < |paths| => Label(Loaded(stored, paths[i], loader), names[paths[i]])) ==
      seq(|files|, i requires 0 <= i < |files| => Label(Loaded(stored, paths[i], loader), files[i].filename))
  {
  }

  class PdfLoaderService {
    var files: seq<UploadFile>
    var tempPaths: seq<string>
    /** The uploaded file name of each temporary path. */
    var tempNames: map<string, string>
    var docs: seq<Document>

    /** Every temporary path has its upload's name recorded. */
    ghost predicate Valid()
      reads this
    {
      Covers(tempPaths, tempNames)
    }

    constructor (files: seq<UploadFile>)
      ensures this.files == files && tempPaths == [] && tempNames == map[] && docs == []
      ensures Valid()
    {
      this.files := files;
      tempPaths := [];
      tempNames := map[];
      docs := [];
    }

    /** `delete_temp_files`: every path is attempted; failures are swallowed. */
    method DeleteTempFiles(tmp: TempDir, removeFails: string -> bool)
      modifies tmp
      ensures tmp.files == DeleteAll(old(tmp.files), tempPaths, removeFails)
    {
      var j := 0;
      while j < |tempPaths|
        invariant 0 <= j <= |tempPaths|
        invariant tmp.files == DeleteAll(old(tmp.files), tempPaths[..j], removeFails)
      {
        assert tempPaths[..j + 1][..j] == tempPaths[..j];
        var path := tempPaths[j];
        if path in tmp.files && !removeFails(path) {
          tmp.files := tmp.files - {path};
        }
        j := j + 1;
      }
      assert tempPaths[..j] == tempPaths;
    }

    /** `_create_temp_files`: each upload is copied to its temporary path and
        the path recorded, in file order. At the first fault the recorded
        files are removed and a 500 is raised; a file whose write failed
        exists but was never recorded, so it stays behind. */
    method CreateTempFiles(tmp: TempDir, dir: string, token: nat -> string, fault: nat -> Fault,
                           removeFails: string -> bool) returns (r: Outcome)
      requires Valid()
      modifies this, tmp
      ensures Valid()
      ensures files == old(files) && docs == old(docs)
      ensures var n := FirstFault(fault, |files|);
        tempPaths == old(tempPaths) + CreatedPaths(dir, files, token, n) &&
        tempNames == Recorded(old(tempNames), CreatedPaths(dir, files, token, n), Names(files, n))
      ensures var n := FirstFault(fault, |files|);
        n == |files| ==>
          r == Pass &&
          tmp.files == Recorded(old(tmp.files), CreatedPaths(dir, files, token, n), Contents(files, n))
      ensures var n := FirstFault(fault, |files|);
        n < |files| ==>
          var written := Recorded(old(tmp.files), CreatedPaths(dir, files, token, n), Contents(files, n));
          var leaked := if fault(n).WriteFails? then written[TempPath(dir, files[n].filename, token(n)) := []] else written;
          r == Fail(HttpError(500, "Error processing uploaded files: " + fault(n).message)) &&
          tmp.files == DeleteAll(leaked, tempPaths, removeFails)
    {
      var n := CopyUntilFault(tmp, dir, token, fault);
      if n == |files| {
        return Pass;
      }
      if fault(n).WriteFails? {
        tmp.files := tmp.files[TempPath(dir, files[n].filename, token(n)) := []];
      }
      DeleteTempFiles(tmp, removeFails);
      return Fail(HttpError(500, "Error processing uploaded files: " + fault(n).message));
    }

    /** The loop of `_create_temp_files` up to the first fault: the number
        of uploads copied and recorded. */
    method CopyUntilFault(tmp: TempDir, dir: string, token: nat -> string, fault: nat -> Fault)
      returns (n: nat)
      requires Valid()
      modifies this, tmp
      ensures n == FirstFault(fault, |files|)
      ensures Valid()
      ensures files == old(files) && docs == old(docs)
      ensures tempPaths == old(tempPaths) + CreatedPaths(dir, files, token, n)
      ensures tempNames == Recorded(old(tempNames), CreatedPaths(dir, files, token, n), Names(files, n))
      ensures tmp.files == Recorded(old(tmp.files), CreatedPaths(dir, files, token, n), Contents(files, n))
    {
      ghost var k := FirstFault(fault, |files|);
      ghost var paths0, names0, written0 := tempPaths, tempNames, tmp.files;
      n := 0;
      while n < |files| && fault(n).NoFault?
        invariant 0 <= n <= k
        invariant files == old(files) && docs == old(docs)
        invariant tempPaths == paths0 + CreatedPaths(dir, files, token, n)
        invariant tempNames == Recorded(names0, CreatedPaths(dir, files, token, n), Names(files, n))
        invariant tmp.files == Recorded(written0, CreatedPaths(dir, files, token, n), Contents(files, n))
        invariant Valid()
      {
        var path := TempPath(dir, files[n].filename, token(n));
        ghost var created := CreatedPaths(dir, files, token, n);
        CreatedSnoc(dir, files, token, n);
        RecordedSnoc(written0, created, Contents(files, n), path, files[n].content);
        RecordedSnoc(names0, created, Names(files, n), path, files[n].filename);
        AppendAssoc(paths0, created, [path]);
        CopyOne(tmp, path, files[n]);
        n := n + 1;
      }
    }

    /** One step of that loop: the upload's bytes are written to its path,
        the path is appended to the list and its name recorded. */
    method CopyOne(tmp: TempDir, path: string, upload: UploadFile)
      requires Valid()
      modifies this, tmp
      ensures Valid()
      ensures files == old(files) && docs == old(docs)
      ensures tempPaths == old(tempPaths) + [path]
      ensures tempNames == old(tempNames)[path := upload.filename]
      ensures tmp.files == old(tmp.files)[path := upload.content]
    {
      CoversSnoc(tempPaths, tempNames, path, upload.filename);
      tmp.files := tmp.files[path := upload.content];
      tempPaths := tempPaths + [path];
      tempNames := tempNames[path := upload.filename];
    }

    /** `load_pdfs`: every temporary file is loaded and its pages labelled
        with the upload's file name; the temporary files are removed whether
        loading succeeds or fails, and failures become a 500. */
    method LoadPdfs(tmp: TempDir, loader: Loader, splitter: Splitter, removeFails: string -> bool)
      returns (r: Result<seq<Document>>)
      requires Valid()
      modifies this, tmp
      ensures files == old(files) && tempPaths == old(tempPaths) && tempNames == old(tempNames)
      ensures tmp.files == DeleteAll(old(tmp.files), tempPaths, removeFails)
      ensures var pages := Pages(old(tmp.files), tempPaths, tempNames, loader);
        pages.Ok? ==> r == Ok(splitter(pages.value)) && docs == splitter(pages.value)
      ensures var pages := Pages(old(tmp.files), tempPaths, tempNames, loader);
        pages.Err? ==>
          r == Err(HttpError(500, "Error loading PDF documents: " + Describe(pages.error))) && docs == old(docs)
    {
      var stored := tmp.files;
      var allDocs: seq<Document> := [];
      var j := 0;
      while j < |tempPaths|
        invariant 0 <= j <= |tempPaths|
        invariant tmp.files == stored
        invariant Pages(stored, tempPaths[..j], tempNames, loader) == Ok(allDocs)
      {
        assert tempPaths[..j + 1][..j] == tempPaths[..j];
        var path := tempPaths[j];
        var loaded := loader(path, if path in tmp.files then Some(tmp.files[path]) else None);
        if loaded.Err? {
          assert tempPaths[..j + 1][j] == path;
          PagesFailurePropagates(stored, tempPaths[..j + 1], tempPaths, tempNames, loader);
          DeleteTempFiles(tmp, removeFails);
          return Err(HttpError(500, "Error loading PDF documents: " + Describe(loaded.error)));
        }
        var pages := loaded.value;
        var labelled: seq<Document> := [];
        var k := 0;
        while k < |pages|
          invariant 0 <= k <= |pages|
          invariant labelled == Label(pages[..k], tempNames[path])
        {
          labelled := labelled + [pages[k].(metadata := pages[k].metadata["file_name" := Str(tempNames[path])])];
          k := k + 1;
          assert labelled == Label(pages[..k], tempNames[path]);
        }
        assert pages[..k] == pages;
        allDocs := allDocs + labelled;
        j := j + 1;
      }
      assert tempPaths[..j] == tempPaths;
      DeleteTempFiles(tmp, removeFails);
      docs := splitter(allDocs);
      return Ok(docs);
    }
  }

  /** A loading failure on some temporary file is the failure of the whole
      load. */
  lemma {:induction false} PagesFailurePropagates(stored: map<string, Bytes>, prefix: seq<string>,
                                                  paths: seq<string>, names: map<string, string>, loader: Loader)
    requires prefix <= paths
    requires forall i :: 0 <= i < |paths| ==> paths[i] in names
    requires Pages(stored, prefix, names, loader).Err?
    ensures Pages(stored, paths, names, loader) == Pages(stored, prefix, names, loader)
    decreases |paths|
  {
    if |paths| > |prefix| {
      var init := paths[..|paths| - 1];
      assert prefix <= init;
      PagesFailurePropagates(stored, prefix, init, names, loader);
    } else {
      assert prefix == paths;
    }
  }

  /** `PDFLoaderService(files)`: validation first, so nothing is written for
      a refused upload; then the temporary copies. */
  method NewPdfLoader(files: seq<UploadFile>, tmp: TempDir, dir: string, token: nat -> string,
                      fault: nat -> Fault, removeFails: string -> bool)
    returns (r: Result<PdfLoaderService>)
    modifies tmp
    ensures Rejection(files).Some? ==> r == Err(Rejection(files).value) && tmp.files == old(tmp.files)
    ensures r.Ok? ==>
      fresh(r.value) && r.value.Valid() && r.value.files == files && r.value.docs == [] &&
      r.value.tempPaths == CreatedPaths(dir, files, token, |files|) &&
      tmp.files == Recorded(old(tmp.files), r.value.tempPaths, Contents(files, |files|))
    ensures r.Ok? ==> r.value.tempNames == Recorded(map[], r.value.tempPaths, Names(files, |files|))
    ensures Rejection(files).None? ==> (r.Ok? <==> FirstFault(fault, |files|) == |files|)
    ensures var n := FirstFault(fault, |files|);
      Rejection(files).None? && n < |files| ==>
        var written := Recorded(old(tmp.files), CreatedPaths(dir, files, token, n), Contents(files, n));
        var leaked := if fault(n).WriteFails? then written[TempPath(dir, files[n].filename, token(n)) := []] else written;
        r == Err(HttpError(500, "Error processing uploaded files: " + fault(n).message)) &&
        tmp.files == DeleteAll(leaked, CreatedPaths(dir, files, token, n), removeFails)
  {
    var valid := ValidateUploads(files);
    if valid.Fail? {
      return Err(valid.error);
    }
    var service := new PdfLoaderService(files);
    var created := service.CreateTempFiles(tmp, dir, token, fault, removeFails);
    ghost var n := FirstFault(fault, |files|);
    assert [] + CreatedPaths(dir, files, token, n) == CreatedPaths(dir, files, token, n);
    if created.Fail? {
      return Err(created.error);
    }
    return Ok(service);
  }

  /** The names recorded at creation are the uploads' names; the extraction
      from the path, as written, agrees with them exactly for names that
      neither contain "_temp_" nor end in "_temp". */
  lemma RecordedNames(dir: string, files: seq<UploadFile>, token: nat -> string, i: int)
    requires 0 <= i < |files|
    requires '/' !in files[i].filename && '/' !in token(i)
    requires forall a, b :: 0 <= a < b < |files| ==>
      TempPath(dir, files[a].filename, token(a)) != TempPath(dir, files[b].filename, token(b))
    ensures var paths := CreatedPaths(dir, files, token, |files|);
      Recorded(map[], paths, Names(files, |files|))[paths[i]] == files[i].filename
    ensures var paths := CreatedPaths(dir, files, token, |files|);
      FileNameOf(paths[i]) == files[i].filename <==>
        !Text.Contains(files[i].filename, Marker) && !Text.EndsWith(files[i].filename, "_temp")
  {
    var paths := CreatedPaths(dir, files, token, |files|);
    RecordedAt(map[], paths, Names(files, |files|), i);
    TempNameRoundTrip(dir, files[i].filename, token(i));
  }

  /** With distinct keys, the map holds each key's own value. */
  lemma {:induction false} RecordedAt<V>(m: map<string, V>, keys: seq<string>, values: seq<V>, i: int)
    requires |keys| == |values| && 0 <= i < |keys|
    requires forall a, b :: 0 <= a < b < |keys| ==> keys[a] != keys[b]
    ensures Recorded(m, keys, values)[keys[i]] == values[i]
    decreases |keys|
  {
    if i < |keys| - 1 {
      var init := keys[..|keys| - 1];
      assert init[i] == keys[i];
      RecordedAt(m, init, values[..|values| - 1], i);
    }
  }
}
