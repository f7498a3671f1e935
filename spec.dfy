/** The Spec type of spec.go and files.go: a registrar built from named block
    definitions, a store of parsed files keyed by filename, and the operations
    that fill the store, merge it into one body and parse that body. */
module Spec {
  import opened Base
  import opened Hcl
  import opened Parser
  import opened Registrar
  import opened FileIngest

  /** The user-facing diagnostics: the list, and the Spec it came from. */
  datatype Diagnostics = Diagnostics(spec: Spec, diags: seq<Diagnostic>) {
    predicate HasErrors()
      ensures HasErrors() <==> exists d :: d in diags && d.severity == DiagError
    {
      Hcl.HasErrors(diags)
    }
  }

  /** A registrar with step 1 holding one registration per definition, in
      list order, with order keys 0, 1, 2, ... */
  method RegistrarFor(defs: NamedBlockDefinitions) returns (r: Registrar)
    requires |defs| <= INT64_MAX
    ensures fresh(r)
    ensures r.increaseNextOrderBy == 1 && r.nextOrder as int == |defs|
    ensures |r.registrations| == |defs|
    ensures forall i :: 0 <= i < |defs| ==>
              && fresh(r.registrations[i])
              && r.registrations[i].blockName == defs[i].name
              && r.registrations[i].definition == defs[i].definition
              && r.registrations[i].order as int == i
  {
    r := new Registrar(1);
    for n := 0 to |defs|
      invariant r.increaseNextOrderBy == 1 && r.nextOrder as int == n
      invariant |r.registrations| == n
      invariant forall i :: 0 <= i < n ==>
                  && fresh(r.registrations[i])
                  && r.registrations[i].blockName == defs[i].name
                  && r.registrations[i].definition == defs[i].definition
                  && r.registrations[i].order as int == i
    {
      r.RegisterBlock(defs[n].name, defs[n].definition);
    }
  }

  class Spec {
    const registrar: Registrar
    var files: map<string, File>

    /** New: registers the pre-ordered definitions in slice order; the file
        store starts empty. Slices hold at most INT64_MAX elements. */
    constructor New(defs: NamedBlockDefinitions)
      requires |defs| <= INT64_MAX
      ensures files == map[]
      ensures fresh(registrar)
      ensures registrar.increaseNextOrderBy == 1 && registrar.nextOrder as int == |defs|
      ensures |registrar.registrations| == |defs|
      ensures forall i :: 0 <= i < |defs| ==>
                && fresh(registrar.registrations[i])
                && registrar.registrations[i].blockName == defs[i].name
                && registrar.registrations[i].definition == defs[i].definition
                && registrar.registrations[i].order as int == i
    {
      var r := RegistrarFor(defs);
      registrar := r;
      files := map[];
    }

    /** NewSubset: the same for variadic arguments; none gives no registrations. */
    constructor NewSubset(defs: NamedBlockDefinitions)
      requires |defs| <= INT64_MAX
      ensures files == map[]
      ensures fresh(registrar)
      ensures registrar.increaseNextOrderBy == 1 && registrar.nextOrder as int == |defs|
      ensures |registrar.registrations| == |defs|
      ensures forall i :: 0 <= i < |defs| ==>
                && fresh(registrar.registrations[i])
                && registrar.registrations[i].blockName == defs[i].name
                && registrar.registrations[i].definition == defs[i].definition
                && registrar.registrations[i].order as int == i
    {
      var r := RegistrarFor(defs);
      registrar := r;
      files := map[];
    }

    /** The registrar's current list; its elements are the registrar's own Registration objects. */
    method Registrations() returns (rs: seq<Registration>)
      ensures rs == registrar.registrations
    {
      rs := registrar.Registrations();
    }

    /** The registrar's object grammar. */
    method Build() returns (spec: map<string, Grammar>)
      ensures spec.Keys == set i | 0 <= i < |registrar.registrations| :: registrar.registrations[i].blockName
      ensures forall i :: 0 <= i < |registrar.registrations| && LastWithName(registrar.registrations, i, |registrar.registrations|) ==>
                spec[registrar.registrations[i].blockName] == registrar.registrations[i].definition.spec
    {
      spec := registrar.Build();
    }

    /** Collects every stored file exactly once, in the unspecified order keys
        of map iteration, and merges them into one body. */
    method Body(engine: Engine) returns (body: Body, ghost keys: seq<string>)
      ensures Distinct(keys) && |keys| == |files|
      ensures forall k :: k in keys <==> k in files
      ensures body == engine.mergeFiles(Units(files, keys))
    {
      var collected: seq<File> := [];
      var pending := files.Keys;
      keys := [];
      while pending != {}
        invariant pending <= files.Keys
        invariant forall k :: k in files <==> k in pending || k in keys
        invariant forall k :: k in keys ==> k !in pending
        invariant Distinct(keys) && |keys| + |pending| == |files|
        invariant collected == Units(files, keys)
        decreases pending
      {
        var k :| k in pending;
        collected := collected + [files[k]];
        keys := keys + [k];
        pending := pending - {k};
      }
      body := engine.mergeFiles(collected);
    }

    /** Runs the registrar's Parse on the merged body with the same context
        and returns its diagnostics unchanged. */
    method Parse(ctx: EvalContext, engine: Engine) returns (d: Diagnostics, ghost keys: seq<string>, ghost specCalls: seq<Registration>)
      modifies registrar, ctx
      ensures Distinct(keys) && forall k :: k in keys <==> k in files
      ensures SortedByOrder(registrar.registrations)
      ensures multiset(registrar.registrations) == multiset(old(registrar.registrations))
      ensures specCalls == registrar.registrations
      ensures ctx.variables.Some? && ctx.functions.Some?
      ensures var final := Run(Definitions(registrar.registrations),
                               DecodeState(engine.mergeFiles(Units(files, keys)), [], old(ctx.Current())), engine);
              d == Diagnostics(this, final.diags) && ctx.Current() == final.scope
    {
      var body;
      body, keys := Body(engine);
      var diags;
      diags, specCalls := registrar.Parse(body, ctx, engine);
      d := Diagnostics(this, diags);
    }

    /** parseHCL and parseJSON: parse the source and store the unit under the
        filename, replacing any earlier unit; return the parser's diagnostics. */
    method ParseSource(src: seq<byte>, filename: string, format: Format, engine: Engine) returns (diags: seq<Diagnostic>)
      modifies this
      ensures var p := FileIngest.ParseSource(format, src, filename, engine);
              files == old(files)[filename := p.file] && diags == p.diags
    {
      var parsed := FileIngest.ParseSource(format, src, filename, engine);
      files := files[filename := parsed.file];
      diags := parsed.diags;
    }

    /** parseHCLFile and parseJSONFile: read the file; a failed read gives one
        "Failed to read file" error and stores nothing. */
    method ParseFile(filename: string, format: Format, fs: FileSystem, engine: Engine) returns (diags: seq<Diagnostic>)
      modifies this
      ensures filename !in fs ==> files == old(files) && diags == [ReadFailure(format, filename)]
      ensures filename in fs ==>
                var p := FileIngest.ParseSource(format, fs[filename], filename, engine);
                files == old(files)[filename := p.file] && diags == p.diags
    {
      if filename !in fs {
        return [ReadFailure(format, filename)];
      }
      diags := ParseSource(fs[filename], filename, format, engine);
    }

    /** Files: dispatches every filename on its extension, in input order, and
        accumulates the diagnostics; the store and the result are IngestAll's. */
    method Files(filenames: seq<string>, fs: FileSystem, engine: Engine) returns (d: Diagnostics)
      modifies this
      ensures var b := IngestAll(Batch(old(files), []), filenames, fs, engine);
              files == b.files && d == Diagnostics(this, b.diags)
      ensures filenames == [] ==> files == old(files) && d.diags == []
    {
      var diags: seq<Diagnostic> := [];
      for n := 0 to |filenames|
        invariant var b := IngestAll(Batch(old(files), []), filenames[..n], fs, engine);
                  files == b.files && diags == b.diags
      {
        var filename := filenames[n];
        var ext := Ext(filename);
        if ext == ".json" {
          var ds := ParseFile(filename, JsonFormat, fs, engine);
          diags := diags + ds;
        } else if ext == ".hcl" {
          var ds := ParseFile(filename, HclFormat, fs, engine);
          diags := diags + ds;
        } else {
          diags := diags + [UnsupportedFileType];
        }
        IngestAllPrefixStep(Batch(old(files), []), filenames, fs, engine, n);
      }
      assert filenames[..|filenames|] == filenames;
      d := Diagnostics(this, diags);
    }

    /** Every stored filename exactly once, in the unspecified order of map
        iteration. */
    method ParsedFiles() returns (names: seq<string>)
      ensures Distinct(names) && |names| == |files|
      ensures forall k :: k in names <==> k in files
    {
      names := [];
      var pending := files.Keys;
      while pending != {}
        invariant pending <= files.Keys
        invariant forall k :: k in files <==> k in pending || k in names
        invariant forall k :: k in names ==> k !in pending
        invariant Distinct(names) && |names| + |pending| == |files|
        decreases pending
      {
        var k :| k in pending;
        names := names + [k];
        pending := pending - {k};
      }
    }

    /** FileGlob: Files over the glob's matches. The glob error is discarded:
        filepath.Glob returns no matches with ErrBadPattern, so a malformed
        pattern behaves as one that matches nothing. */
    method FileGlob(pattern: string, glob: string -> GlobResult, fs: FileSystem, engine: Engine) returns (d: Diagnostics)
      modifies this
      ensures glob(pattern).Matches? ==>
                var b := IngestAll(Batch(old(files), []), glob(pattern).names, fs, engine);
                files == b.files && d == Diagnostics(this, b.diags)
      ensures glob(pattern).BadPattern? ==> files == old(files) && d == Diagnostics(this, [])
      ensures glob(pattern) == Matches([]) ==> files == old(files) && d.diags == []
    {
      var filenames: seq<string> := [];
      var result := glob(pattern);
      if result.Matches? {
        filenames := result.names;
      }
      d := Files(filenames, fs, engine);
    }
  }
}
