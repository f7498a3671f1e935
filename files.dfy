/** The file-type dispatch of files.go and the ingest step of hcl.go and
    json.go, as functions: which diagnostics a batch of filenames produces and
    what the file store holds afterwards. */
module FileIngest {
  import opened Base
  import opened Hcl

  const DiagCannotDetermineFileType: string :=
    "Cannot determine file type based on extension, only .json and .hcl files are supported"
  const DiagCannotDetermineFileTypeDetail: string :=
    "You must provide a file with either a .json or .hcl extension, only json and hcl files are supported"

  /** Declared next to the others but never emitted: FileGlob discards the glob error. */
  const DiagGlobError: string := "There was a problem parsing the file pattern"
  const DiagGlobErrorDetail: string :=
    "The file pattern was not able to be parsed. This might be an implementation problem."

  const DiagFailedToRead: string := "Failed to read file"

  /** The one diagnostic an unsupported extension produces. */
  const UnsupportedFileType: Diagnostic :=
    Diagnostic(DiagError, DiagCannotDetermineFileType, DiagCannotDetermineFileTypeDetail)

  /** What ioutil.ReadFile can read: a name present here reads as its bytes,
      any other name fails to read. */
  type FileSystem = map<string, seq<byte>>

  /** What filepath.Glob returns: the matching names, or ErrBadPattern (with
      no matches) for a malformed pattern. */
  datatype GlobResult = Matches(names: seq<string>) | BadPattern

  // ---------------------------------------------------------------------
  // path.Ext
  // ---------------------------------------------------------------------

  /** Scans p[..i] from the right for the last dot before a slash, given that
      p[i..] holds neither. */
  function ExtFrom(p: string, i: nat): (e: string)
    requires i <= |p|
    requires forall m :: i <= m < |p| ==> p[m] != '.' && p[m] != '/'
    ensures |e| <= |p| && e == p[|p| - |e|..]
    ensures e != [] ==> e[0] == '.' && forall m :: |p| - |e| < m < |p| ==> p[m] != '.' && p[m] != '/'
    ensures e == [] ==> forall m :: 0 <= m < |p| && p[m] == '.' ==> exists j :: m < j < |p| && p[j] == '/'
    decreases i
  {
    if i == 0 then []
    else if p[i - 1] == '/' then
      []
    else if p[i - 1] == '.' then p[i - 1..]
    else ExtFrom(p, i - 1)
  }

  /** path.Ext: the suffix of p from the last dot of its final slash-separated
      element, or empty if that element has no dot. */
  function Ext(p: string): (e: string)
    ensures |e| <= |p| && e == p[|p| - |e|..]
    ensures e != [] ==> e[0] == '.' && forall m :: |p| - |e| < m < |p| ==> p[m] != '.' && p[m] != '/'
    ensures e == [] ==> forall m :: 0 <= m < |p| && p[m] == '.' ==> exists j :: m < j < |p| && p[j] == '/'
  {
    ExtFrom(p, |p|)
  }

  // ---------------------------------------------------------------------
  // Dispatch and ingest of one file
  // ---------------------------------------------------------------------

  datatype Format = HclFormat | JsonFormat

  datatype FileKind = Supported(format: Format) | Unsupported

  /** The switch of Files: exactly ".json" and exactly ".hcl" are recognised. */
  function Classify(filename: string): (k: FileKind)
    ensures k == Supported(JsonFormat) <==> Ext(filename) == ".json"
    ensures k == Supported(HclFormat) <==> Ext(filename) == ".hcl"
    ensures k == Unsupported <==> Ext(filename) != ".json" && Ext(filename) != ".hcl"
  {
    var ext := Ext(filename);
    if ext == ".json" then Supported(JsonFormat)
    else if ext == ".hcl" then Supported(HclFormat)
    else Unsupported
  }

  /** strconv.Quote, as fmt's %q applies it, for the escapes a filename
      usually needs. */
  function Quote(s: string): string {
    "\"" + Escape(s) + "\""
  }

  /** strconv.Unquote's reading of the escapes Escape writes. */
  function Unescape(t: string): string
    decreases |t|
  {
    if t == [] then []
    else if t[0] == '\\' && |t| >= 2 then [UnescapeChar(t[1])] + Unescape(t[2..])
    else [t[0]] + Unescape(t[1..])
  }

  function UnescapeChar(c: char): char {
    if c == 'n' then '\n'
    else if c == 'r' then '\r'
    else if c == 't' then '\t'
    else c
  }

  /** Unescape reads back one escaped character. */
  lemma UnescapeEscapeChar(c: char, rest: string)
    ensures Unescape(EscapeChar(c) + rest) == [c] + Unescape(rest)
  {
    var t := EscapeChar(c) + rest;
    if c == '"' || c == '\\' || c == '\n' || c == '\r' || c == '\t' {
      assert t[0] == '\\' && t[2..] == rest;
    } else {
      assert t[0] == c && t[1..] == rest;
    }
  }

  /** Escaping loses nothing: Unescape recovers the string. */
  lemma {:induction false} UnescapeEscape(s: string)
    ensures Unescape(Escape(s)) == s
  {
    if s != [] {
      UnescapeEscape(s[1..]);
      UnescapeEscapeChar(s[0], Escape(s[1..]));
    }
  }

  /** A quoted filename is enclosed in double quotes and unquotes to itself. */
  lemma QuoteRoundTrip(s: string)
    ensures var q := Quote(s);
            |q| >= 2 && q[0] == '"' && q[|q| - 1] == '"' && Unescape(q[1..|q| - 1]) == s
  {
    var q := Quote(s);
    assert q[1..|q| - 1] == Escape(s);
    UnescapeEscape(s);
  }

  function Escape(s: string): string {
    if s == [] then []
    else EscapeChar(s[0]) + Escape(s[1..])
  }

  function EscapeChar(c: char): string {
    if c == '"' then "\\\""
    else if c == '\\' then "\\\\"
    else if c == '\n' then "\\n"
    else if c == '\r' then "\\r"
    else if c == '\t' then "\\t"
    else [c]
  }

  function FormatName(format: Format): string {
    match format
    case HclFormat => "HCL"
    case JsonFormat => "JSON"
  }

  /** The diagnostic when a file of the given format cannot be read: an error
      whose detail names the format and the quoted filename. */
  function ReadFailure(format: Format, filename: string): (d: Diagnostic)
    ensures d.severity == DiagError && d.summary == DiagFailedToRead
    ensures d.detail == "The " + FormatName(format) + " file " + Quote(filename) + " could not be read."
    ensures d != UnsupportedFileType
  {
    Diagnostic(DiagError, DiagFailedToRead, "The " + FormatName(format) + " file " + Quote(filename) + " could not be read.")
  }

  /** hclsyntax.ParseConfig or json.Parse, by format. */
  function ParseSource(format: Format, src: seq<byte>, filename: string, engine: Engine): Parsed {
    match format
    case HclFormat => engine.parseHCL(src, filename)
    case JsonFormat => engine.parseJSON(src, filename)
  }

  /** The filename ends up in the store: its type is supported and it reads. */
  predicate Stored(filename: string, fs: FileSystem) {
    Classify(filename).Supported? && filename in fs
  }

  /** The diagnostics one filename contributes; they do not depend on what the
      store already holds. */
  function FileDiagnostics(filename: string, fs: FileSystem, engine: Engine): (ds: seq<Diagnostic>)
    ensures Classify(filename).Unsupported? ==> ds == [UnsupportedFileType]
    ensures Classify(filename).Supported? && filename !in fs ==> ds == [ReadFailure(Classify(filename).format, filename)]
    ensures !Stored(filename, fs) ==> |ds| == 1 && ds[0].severity == DiagError
    ensures Stored(filename, fs) ==> ds == ParseSource(Classify(filename).format, fs[filename], filename, engine).diags
  {
    match Classify(filename)
    case Unsupported => [UnsupportedFileType]
    case Supported(format) =>
      if filename in fs then ParseSource(format, fs[filename], filename, engine).diags
      else [ReadFailure(format, filename)]
  }

  /** The parsed unit a stored filename is stored as. */
  function StoredUnit(filename: string, fs: FileSystem, engine: Engine): File
    requires Stored(filename, fs)
  {
    ParseSource(Classify(filename).format, fs[filename], filename, engine).file
  }

  /** The file store and the diagnostics accumulated so far. */
  datatype Batch = Batch(files: map<string, File>, diags: seq<Diagnostic>)

  /** One iteration of Files: dispatch on the extension, ingest, accumulate. */
  function IngestFile(b: Batch, filename: string, fs: FileSystem, engine: Engine): (r: Batch)
    ensures r.diags == b.diags + FileDiagnostics(filename, fs, engine)
    ensures r.files.Keys == if Stored(filename, fs) then b.files.Keys + {filename} else b.files.Keys
    ensures Stored(filename, fs) ==> r.files[filename] == StoredUnit(filename, fs, engine)
    ensures forall k :: k in b.files && k != filename ==> r.files[k] == b.files[k]
  {
    var files := if Stored(filename, fs) then b.files[filename := StoredUnit(filename, fs, engine)] else b.files;
    Batch(files, b.diags + FileDiagnostics(filename, fs, engine))
  }

  /** All of Files, in input order. */
  function IngestAll(b: Batch, filenames: seq<string>, fs: FileSystem, engine: Engine): Batch
    decreases |filenames|
  {
    if filenames == [] then b
    else IngestFile(IngestAll(b, filenames[..|filenames| - 1], fs, engine), filenames[|filenames| - 1], fs, engine)
  }

  /** Every filename's diagnostics, concatenated in input order. */
  function AllFileDiagnostics(filenames: seq<string>, fs: FileSystem, engine: Engine): seq<Diagnostic>
    decreases |filenames|
  {
    if filenames == [] then []
    else AllFileDiagnostics(filenames[..|filenames| - 1], fs, engine) + FileDiagnostics(filenames[|filenames| - 1], fs, engine)
  }

  /** The stored files, listed in the order of keys. */
  function Units(files: map<string, File>, keys: seq<string>): (units: seq<File>)
    requires forall i :: 0 <= i < |keys| ==> keys[i] in files
    ensures |units| == |keys|
    ensures forall i :: 0 <= i < |keys| ==> units[i] == files[keys[i]]
  {
    if keys == [] then [] else Units(files, keys[..|keys| - 1]) + [files[keys[|keys| - 1]]]
  }

  // ---------------------------------------------------------------------
  // Properties of a batch
  // ---------------------------------------------------------------------

  lemma IngestAllPrefixStep(b: Batch, filenames: seq<string>, fs: FileSystem, engine: Engine, n: nat)
    requires n < |filenames|
    ensures IngestAll(b, filenames[..n + 1], fs, engine)
            == IngestFile(IngestAll(b, filenames[..n], fs, engine), filenames[n], fs, engine)
  {
    assert filenames[..n + 1][..n] == filenames[..n];
  }

  /** One call with a + b is a call with a followed by a call with b. */
  lemma {:induction false} IngestAllAppend(b: Batch, x: seq<string>, y: seq<string>, fs: FileSystem, engine: Engine)
    ensures IngestAll(b, x + y, fs, engine) == IngestAll(IngestAll(b, x, fs, engine), y, fs, engine)
    decreases |y|
  {
    if y == [] {
      assert x + y == x;
    } else {
      var y' := y[..|y| - 1];
      assert (x + y)[..|x + y| - 1] == x + y';
      IngestAllAppend(b, x, y', fs, engine);
    }
  }

  /** The diagnostics are those given plus every file's own, in input order:
      an unsupported or unreadable file does not stop the batch. */
  lemma {:induction false} IngestedDiagnostics(b: Batch, filenames: seq<string>, fs: FileSystem, engine: Engine)
    ensures IngestAll(b, filenames, fs, engine).diags == b.diags + AllFileDiagnostics(filenames, fs, engine)
    decreases |filenames|
  {
    if filenames != [] {
      var init := filenames[..|filenames| - 1];
      var last := filenames[|filenames| - 1];
      IngestedDiagnostics(b, init, fs, engine);
      assert AllFileDiagnostics(filenames, fs, engine)
          == AllFileDiagnostics(init, fs, engine) + FileDiagnostics(last, fs, engine);
    }
  }

  /** The store afterwards holds the earlier names plus exactly the given
      names that have a supported type and read; an unsupported or unreadable
      name is never added. */
  lemma {:induction false} IngestedKeys(b: Batch, filenames: seq<string>, fs: FileSystem, engine: Engine)
    ensures IngestAll(b, filenames, fs, engine).files.Keys
            == b.files.Keys + set n | n in filenames && Stored(n, fs)
    decreases |filenames|
  {
    if filenames != [] {
      var init := filenames[..|filenames| - 1];
      IngestedKeys(b, init, fs, engine);
      assert forall n :: n in filenames <==> n in init || n == filenames[|filenames| - 1];
    }
  }

  /** A stored name holds the unit parsed from its current bytes; a name the
      batch does not store keeps what it held before. */
  lemma {:induction false} IngestedUnits(b: Batch, filenames: seq<string>, fs: FileSystem, engine: Engine, n: string)
    requires n in IngestAll(b, filenames, fs, engine).files
    ensures n in filenames && Stored(n, fs) ==>
              IngestAll(b, filenames, fs, engine).files[n] == StoredUnit(n, fs, engine)
    ensures !(n in filenames && Stored(n, fs)) ==>
              n in b.files && IngestAll(b, filenames, fs, engine).files[n] == b.files[n]
    decreases |filenames|
  {
    if filenames != [] {
      var init := filenames[..|filenames| - 1];
      var last := filenames[|filenames| - 1];
      assert forall m :: m in filenames <==> m in init || m == last;
      if n == last && Stored(n, fs) {
      } else {
        IngestedUnits(b, init, fs, engine, n);
      }
    }
  }

  /** The diagnostics of a prefix of the batch are a prefix of the batch's. */
  lemma {:induction false} PrefixDiagnostics(b: Batch, filenames: seq<string>, fs: FileSystem, engine: Engine, n: nat)
    requires n <= |filenames|
    ensures IngestAll(b, filenames[..n], fs, engine).diags <= IngestAll(b, filenames, fs, engine).diags
    decreases |filenames| - n
  {
    if n < |filenames| {
      PrefixDiagnostics(b, filenames, fs, engine, n + 1);
      IngestAllPrefixStep(b, filenames, fs, engine, n);
    } else {
      assert filenames[..n] == filenames;
    }
  }

  /** A name with an unsupported extension makes the result contain the
      "cannot determine file type" error. */
  lemma UnsupportedNameReported(b: Batch, filenames: seq<string>, fs: FileSystem, engine: Engine, i: nat)
    requires i < |filenames| && Classify(filenames[i]).Unsupported?
    ensures UnsupportedFileType in IngestAll(b, filenames, fs, engine).diags
    ensures HasErrors(IngestAll(b, filenames, fs, engine).diags)
  {
    IngestAllPrefixStep(b, filenames, fs, engine, i);
    assert FileDiagnostics(filenames[i], fs, engine) == [UnsupportedFileType];
    var upto := IngestAll(b, filenames[..i + 1], fs, engine).diags;
    assert upto[|upto| - 1] == UnsupportedFileType;
    PrefixDiagnostics(b, filenames, fs, engine, i + 1);
    var all := IngestAll(b, filenames, fs, engine).diags;
    assert all[|upto| - 1] == UnsupportedFileType;
  }

  /** Files never reports DiagGlobError itself: a diagnostic with that summary
      can only have come from parsing one of the stored files. */
  lemma {:induction false} GlobErrorOnlyFromParsers(filenames: seq<string>, fs: FileSystem, engine: Engine, d: Diagnostic)
    requires d in AllFileDiagnostics(filenames, fs, engine) && d.summary == DiagGlobError
    ensures exists i :: 0 <= i < |filenames| && Stored(filenames[i], fs)
              && d in ParseSource(Classify(filenames[i]).format, fs[filenames[i]], filenames[i], engine).diags
    decreases |filenames|
  {
    var init := filenames[..|filenames| - 1];
    var last := filenames[|filenames| - 1];
    if d in AllFileDiagnostics(init, fs, engine) {
      GlobErrorOnlyFromParsers(init, fs, engine, d);
      var i :| 0 <= i < |init| && Stored(init[i], fs)
               && d in ParseSource(Classify(init[i]).format, fs[init[i]], init[i], engine).diags;
      assert filenames[i] == init[i];
    } else {
      assert d in FileDiagnostics(last, fs, engine);
      assert filenames[|filenames| - 1] == last;
    }
  }

  /** A batch of n distinct readable names with supported extensions, into an
      empty store, stores exactly n files. */
  lemma DistinctFilesAllStored(filenames: seq<string>, fs: FileSystem, engine: Engine)
    requires Distinct(filenames)
    requires forall i :: 0 <= i < |filenames| ==> Stored(filenames[i], fs)
    ensures |IngestAll(Batch(map[], []), filenames, fs, engine).files| == |filenames|
  {
    IngestedKeys(Batch(map[], []), filenames, fs, engine);
    var keys := IngestAll(Batch(map[], []), filenames, fs, engine).files.Keys;
    assert keys == set n | n in filenames;
    DistinctCardinality(filenames);
  }

  /** ExtFrom finds the dot at k from any start past it, when nothing after
      k is a dot or a slash. */
  lemma {:induction false} ExtFromLastDot(p: string, i: nat, k: nat)
    requires k < i <= |p| && p[k] == '.'
    requires forall m :: k < m < |p| ==> p[m] != '.' && p[m] != '/'
    ensures ExtFrom(p, i) == p[k..]
    decreases i
  {
    if i - 1 > k {
      ExtFromLastDot(p, i - 1, k);
    }
  }

  /** The extension of dir + "." + x, where x holds no dot and no slash, is "." + x. */
  lemma ExtOfDottedName(dir: string, x: string)
    requires '.' !in x && '/' !in x
    ensures Ext(dir + "." + x) == "." + x
  {
    var p := dir + "." + x;
    var k := |dir|;
    forall m | k < m < |p| ensures p[m] != '.' && p[m] != '/' {
      assert p[m] == x[m - k - 1];
    }
    ExtFromLastDot(p, |p|, k);
    assert p[k..] == "." + x;
  }

  /** ExtFrom stops empty at the slash at k when nothing after k is a dot or a slash. */
  lemma {:induction false} ExtFromLastSlash(p: string, i: nat, k: nat)
    requires k < i <= |p| && p[k] == '/'
    requires forall m :: k < m < |p| ==> p[m] != '.' && p[m] != '/'
    ensures ExtFrom(p, i) == []
    decreases i
  {
    if i - 1 > k {
      ExtFromLastSlash(p, i - 1, k);
    }
  }

  /** The final element x of dir + "/" + x has no dot: the extension is empty,
      whatever dots dir holds. */
  lemma ExtAfterSlash(dir: string, x: string)
    requires '.' !in x && '/' !in x
    ensures Ext(dir + "/" + x) == []
  {
    var p := dir + "/" + x;
    var k := |dir|;
    forall m | k < m < |p| ensures p[m] != '.' && p[m] != '/' {
      assert p[m] == x[m - k - 1];
    }
    ExtFromLastSlash(p, |p|, k);
  }

  /** Dispatch looks only at the exact extension of the final path element:
      case variants and dots in directory names do not count. */
  lemma ClassifyHclFile()
    ensures Classify("./testdata/test.hcl") == Supported(HclFormat)
  {
    ExtOfDottedName("./testdata/test", "hcl");
    assert "./testdata/test.hcl" == "./testdata/test" + "." + "hcl";
  }

  lemma ClassifyJsonFile()
    ensures Classify("./testdata/test.json") == Supported(JsonFormat)
  {
    ExtOfDottedName("./testdata/test", "json");
    assert "./testdata/test.json" == "./testdata/test" + "." + "json";
  }

  lemma ClassifyUpperCaseUnsupported()
    ensures Classify("main.HCL") == Unsupported
  {
    ExtOfDottedName("main", "HCL");
    assert "main.HCL" == "main" + "." + "HCL";
  }

  lemma ClassifyDotInDirectoryUnsupported()
    ensures Classify("./testdata.d/main") == Unsupported
  {
    ExtAfterSlash("./testdata.d", "main");
    assert "./testdata.d/main" == "./testdata.d" + "/" + "main";
  }
}
