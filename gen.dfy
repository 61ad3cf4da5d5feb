/** The orchestration of goapi/gen.go: the request's files that were asked
    for become one output file each, every file's services and every
    service's methods are turned into the data the file template renders,
    and the first failure ends the run. */
module Gen {

  import opened Wrappers
  import opened Strings
  import opened Descriptors
  import opened GenHelpers
  import opened RestMethod

  // ---------------------------------------------------------------------
  // Names.

  /** The service name with every `Service` removed. */
  function ServiceName(name: string): string {
    ReplaceAll(name, "Service", "")
  }

  /** The Go package name: the last `/`-separated segment of the
      go_package option with every `-` turned into `_`. */
  function GoPackageName(goPackage: string): (r: string)
    ensures '-' !in r && '/' !in r
  {
    var ps := Split(goPackage, "/");
    SplitCharPieces(goPackage, '/');
    assert Last(ps) in ps;
    SplitCharPieces(Last(ps), '-');
    JoinAvoids(Split(Last(ps), "-"), "_", '-');
    SplitAvoids(Last(ps), "-", '/');
    JoinAvoids(Split(Last(ps), "-"), "_", '/');
    ReplaceAll(Last(ps), "-", "_")
  }

  /** The generated file's name: the source name with every `.proto`
      removed, then `.api.go`. */
  function OutputName(name: string): string {
    ReplaceAll(name, ".proto", "") + ".api.go"
  }

  // ---------------------------------------------------------------------
  // What each level produces.

  /** parseRestMethod: the names and types of a method and its code; a
      client-streaming method gets the client-stream stub, a
      server-streaming one the server-stream stub, and only a unary method
      has its REST call generated, whose failure is the method's. */
  ghost function MethodDataOf(sc: Schema, ext: Externals, s: Service, m: Method): Result<MethodData> {
    var code :-
      if m.clientStreaming then Ok(ext.noClientStream(m.name))
      else if m.serverStreaming then Ok(ext.noServerStream(m.name))
      else MethodCodeOf(sc, ext, m);
    Ok(MethodData(ServiceName(s.name), m.name, m.comment, TypeName(m.inputType), TypeName(m.outputType), code))
  }

  /** parseRestMethod as a function of the method alone. */
  ghost function MethodFn(sc: Schema, ext: Externals, s: Service): Method -> Result<MethodData> {
    m => MethodDataOf(sc, ext, s, m)
  }

  /** The data of a service's methods, in order; the first failure ends it. */
  ghost function MethodsOf(sc: Schema, ext: Externals, s: Service, ms: seq<Method>): Result<seq<MethodData>> {
    MapResult(MethodFn(sc, ext, s), ms)
  }

  /** parseRestService. */
  ghost function ServiceDataOf(sc: Schema, ext: Externals, f: File, s: Service): Result<ServiceData> {
    var methods :- MethodsOf(sc, ext, s, s.methods);
    Ok(ServiceData(f.package, ServiceName(s.name), methods))
  }

  /** parseRestService as a function of the service alone. */
  ghost function ServiceFn(sc: Schema, ext: Externals, f: File): Service -> Result<ServiceData> {
    s => ServiceDataOf(sc, ext, f, s)
  }

  /** The data of a file's services, in order; the first failure ends it. */
  ghost function ServicesOf(sc: Schema, ext: Externals, f: File, ss: seq<Service>): Result<seq<ServiceData>> {
    MapResult(ServiceFn(sc, ext, f), ss)
  }

  /** parseRestFile. */
  ghost function FileDataOf(sc: Schema, ext: Externals, f: File): Result<FileData> {
    var services :- ServicesOf(sc, ext, f, f.services);
    Ok(FileData(ext.release, f.name, GoPackageName(f.goPackage), services))
  }

  /** The output file of one source file: its data rendered by the file
      template, under the output name. */
  ghost function OutputOf(sc: Schema, ext: Externals, f: File): Result<OutputFile> {
    var data :- FileDataOf(sc, ext, f);
    var content :- ext.renderFile(data);
    Ok(OutputFile(OutputName(f.name), content))
  }

  /** The files to generate, in the order of the request's files. */
  function Selected(names: seq<string>, fs: seq<File>): (r: seq<File>)
    ensures forall f :: f in r <==> f in fs && f.name in names
    decreases |fs|
  {
    if fs == [] then []
    else
      var front := Selected(names, fs[..|fs| - 1]);
      var f := fs[|fs| - 1];
      assert fs == fs[..|fs| - 1] + [f];
      if f.name in names then front + [f] else front
  }

  /** One output file as a function of the source file alone. */
  ghost function OutputFn(sc: Schema, ext: Externals): File -> Result<OutputFile> {
    f => OutputOf(sc, ext, f)
  }

  /** The output files of a sequence of source files, in order; the first
      failure ends it. */
  ghost function OutputsOf(sc: Schema, ext: Externals, fs: seq<File>): Result<seq<OutputFile>> {
    MapResult(OutputFn(sc, ext), fs)
  }

  /** Gen: the options are parsed first; then the files asked for are
      generated. */
  ghost function GenOf(sc: Schema, ext: Externals, req: Request): Result<Response> {
    var _ :- ext.parseOptions(req.parameter);
    var files :- OutputsOf(sc, ext, Selected(req.fileToGenerate, req.protoFiles));
    Ok(Response(files))
  }

  /** A failure among the first `k` request files is the run's failure. */
  lemma {:induction false} SelectedPrefixFailure(sc: Schema, ext: Externals, req: Request, k: nat)
    requires k <= |req.protoFiles|
    requires OutputsOf(sc, ext, Selected(req.fileToGenerate, req.protoFiles[..k])).Fail?
    ensures OutputsOf(sc, ext, Selected(req.fileToGenerate, req.protoFiles)) ==
      OutputsOf(sc, ext, Selected(req.fileToGenerate, req.protoFiles[..k]))
    decreases |req.protoFiles| - k
  {
    if k < |req.protoFiles| {
      SelectedStep(req.fileToGenerate, req.protoFiles, k);
      var sel := Selected(req.fileToGenerate, req.protoFiles[..k]);
      var sel' := Selected(req.fileToGenerate, req.protoFiles[..k + 1]);
      if sel' != sel {
        assert sel'[..|sel|] == sel;
        MapResultFailureStays(OutputFn(sc, ext), sel', |sel|);
      }
      SelectedPrefixFailure(sc, ext, req, k + 1);
    } else {
      assert req.protoFiles[..k] == req.protoFiles;
    }
  }

  // ---------------------------------------------------------------------
  // The generator.

  method ParseRestMethod(sc: Schema, ext: Externals, s: Service, m: Method) returns (r: Result<MethodData>)
    ensures r == MethodDataOf(sc, ext, s, m)
  {
    var data := MethodData(ServiceName(s.name), m.name, m.comment, TypeName(m.inputType), TypeName(m.outputType), "");
    if m.clientStreaming {
      data := data.(reqCode := ext.noClientStream(m.name));
    } else if m.serverStreaming {
      data := data.(reqCode := ext.noServerStream(m.name));
    } else {
      var code :- GenRestMethodCode(sc, ext, m);
      data := data.(reqCode := code);
    }
    return Ok(data);
  }

  /** One step of parseRestService's loop: a failing method ends the
      service with its failure; otherwise its data is appended. */
  lemma MethodsStep(sc: Schema, ext: Externals, s: Service, i: nat)
    requires i < |s.methods| && MethodsOf(sc, ext, s, s.methods[..i]).Ok?
    ensures MethodDataOf(sc, ext, s, s.methods[i]).Fail? ==>
      MethodsOf(sc, ext, s, s.methods) == Fail(MethodDataOf(sc, ext, s, s.methods[i]).failure)
    ensures MethodDataOf(sc, ext, s, s.methods[i]).Ok? ==>
      MethodsOf(sc, ext, s, s.methods[..i + 1]) ==
        Ok(MethodsOf(sc, ext, s, s.methods[..i]).value + [MethodDataOf(sc, ext, s, s.methods[i]).value])
  {
    var fn := MethodFn(sc, ext, s);
    assert s.methods[..i + 1] == s.methods[..i] + [s.methods[i]];
    MapResultStep(fn, s.methods[..i], s.methods[i]);
    if fn(s.methods[i]).Fail? {
      MapResultFailureStays(fn, s.methods, i + 1);
    }
  }

  /** One step of parseRestFile's loop, in the same way. */
  lemma ServicesStep(sc: Schema, ext: Externals, f: File, i: nat)
    requires i < |f.services| && ServicesOf(sc, ext, f, f.services[..i]).Ok?
    ensures ServiceDataOf(sc, ext, f, f.services[i]).Fail? ==>
      ServicesOf(sc, ext, f, f.services) == Fail(ServiceDataOf(sc, ext, f, f.services[i]).failure)
    ensures ServiceDataOf(sc, ext, f, f.services[i]).Ok? ==>
      ServicesOf(sc, ext, f, f.services[..i + 1]) ==
        Ok(ServicesOf(sc, ext, f, f.services[..i]).value + [ServiceDataOf(sc, ext, f, f.services[i]).value])
  {
    var fn := ServiceFn(sc, ext, f);
    assert f.services[..i + 1] == f.services[..i] + [f.services[i]];
    MapResultStep(fn, f.services[..i], f.services[i]);
    if fn(f.services[i]).Fail? {
      MapResultFailureStays(fn, f.services, i + 1);
    }
  }

  method ParseRestService(sc: Schema, ext: Externals, f: File, s: Service) returns (r: Result<ServiceData>)
    ensures r == ServiceDataOf(sc, ext, f, s)
  {
    var methods: seq<MethodData> := [];
    var i := 0;
    while i < |s.methods|
      invariant 0 <= i <= |s.methods|
      invariant MethodsOf(sc, ext, s, s.methods[..i]) == Ok(methods)
    {
      var mth := ParseRestMethod(sc, ext, s, s.methods[i]);
      MethodsStep(sc, ext, s, i);
      if mth.Fail? {
        return Fail(mth.failure);
      }
      methods := methods + [mth.value];
      i := i + 1;
    }
    assert s.methods[..i] == s.methods;
    return Ok(ServiceData(f.package, ServiceName(s.name), methods));
  }

  method ParseRestFile(sc: Schema, ext: Externals, f: File) returns (r: Result<FileData>)
    ensures r == FileDataOf(sc, ext, f)
  {
    var services: seq<ServiceData> := [];
    var i := 0;
    while i < |f.services|
      invariant 0 <= i <= |f.services|
      invariant ServicesOf(sc, ext, f, f.services[..i]) == Ok(services)
    {
      var srv := ParseRestService(sc, ext, f, f.services[i]);
      ServicesStep(sc, ext, f, i);
      if srv.Fail? {
        return Fail(srv.failure);
      }
      services := services + [srv.value];
      i := i + 1;
    }
    assert f.services[..i] == f.services;
    return Ok(FileData(ext.release, f.name, GoPackageName(f.goPackage), services));
  }

  /** One output file: the file's data rendered by the file template. */
  method FileOutput(sc: Schema, ext: Externals, f: File) returns (r: Result<OutputFile>)
    ensures r == OutputOf(sc, ext, f)
  {
    var data :- ParseRestFile(sc, ext, f);
    var bs :- ext.renderFile(data);
    return Ok(OutputFile(OutputName(f.name), bs));
  }

  lemma SelectedStep(names: seq<string>, fs: seq<File>, i: nat)
    requires i < |fs|
    ensures Selected(names, fs[..i + 1]) ==
      Selected(names, fs[..i]) + (if fs[i].name in names then [fs[i]] else [])
  {
    assert fs[..i + 1][..i] == fs[..i];
  }

  /** Gen. */
  method Generate(sc: Schema, ext: Externals, req: Request) returns (r: Result<Response>)
    ensures r == GenOf(sc, ext, req)
  {
    var opts := ext.parseOptions(req.parameter);
    if opts.Fail? {
      return Fail(opts.failure);
    }
    var files: seq<OutputFile> := [];
    ghost var sel: seq<File> := [];
    var i := 0;
    while i < |req.protoFiles|
      invariant 0 <= i <= |req.protoFiles|
      invariant sel == Selected(req.fileToGenerate, req.protoFiles[..i])
      invariant OutputsOf(sc, ext, sel) == Ok(files)
    {
      var f := req.protoFiles[i];
      SelectedStep(req.fileToGenerate, req.protoFiles, i);
      var wanted := Contains(req.fileToGenerate, f.name);
      if wanted {
        var out := FileOutput(sc, ext, f);
        MapResultStep(OutputFn(sc, ext), sel, f);
        sel := sel + [f];
        if out.Fail? {
          SelectedPrefixFailure(sc, ext, req, i + 1);
          return Fail(out.failure);
        }
        files := files + [out.value];
      }
      i := i + 1;
    }
    assert req.protoFiles[..i] == req.protoFiles;
    return Ok(Response(files));
  }

  // ---------------------------------------------------------------------
  // What the run produces.

  /** The data of one method: its names and types, and the code chosen by
      its streaming flags; client streaming wins over server streaming, and
      only a unary method can fail, exactly when its REST call fails. */
  lemma MethodDataChar(sc: Schema, ext: Externals, s: Service, m: Method)
    ensures MethodDataOf(sc, ext, s, m).Ok? ==>
      var d := MethodDataOf(sc, ext, s, m).value;
      d.servName == ServiceName(s.name) && d.methName == m.name && d.comment == m.comment &&
      d.reqTyp == TypeName(m.inputType) && d.resTyp == TypeName(m.outputType)
    ensures m.clientStreaming ==>
      MethodDataOf(sc, ext, s, m).Ok? && MethodDataOf(sc, ext, s, m).value.reqCode == ext.noClientStream(m.name)
    ensures !m.clientStreaming && m.serverStreaming ==>
      MethodDataOf(sc, ext, s, m).Ok? && MethodDataOf(sc, ext, s, m).value.reqCode == ext.noServerStream(m.name)
    ensures !m.clientStreaming && !m.serverStreaming ==>
      (MethodDataOf(sc, ext, s, m).Ok? <==> MethodCodeOf(sc, ext, m).Ok?) &&
      (MethodDataOf(sc, ext, s, m).Ok? ==> MethodDataOf(sc, ext, s, m).value.reqCode == MethodCodeOf(sc, ext, m).value) &&
      (MethodDataOf(sc, ext, s, m).Fail? ==> MethodDataOf(sc, ext, s, m).failure == MethodCodeOf(sc, ext, m).failure)
  {
  }

  /** A streaming method gets its stub whatever its binding and whatever
      the schema: its HTTP rule is never read. */
  lemma StreamingIgnoresBinding(sc: Schema, sc': Schema, ext: Externals, s: Service, m: Method, o: Option<HttpRule>)
    requires m.clientStreaming || m.serverStreaming
    ensures MethodDataOf(sc, ext, s, m).Ok?
    ensures MethodDataOf(sc, ext, s, m) == MethodDataOf(sc', ext, s, m.(options := o))
  {
  }

  /** The first failing method of a sequence is at `k`. */
  ghost predicate FirstMethodFailure(sc: Schema, ext: Externals, s: Service, ms: seq<Method>, k: nat, e: Failure) {
    FirstFailure(MethodFn(sc, ext, s), ms, k, e)
  }

  /** The methods' data: one entry per method, in order, when every method
      succeeds; otherwise the failure of the first method that fails. */
  lemma MethodsChar(sc: Schema, ext: Externals, s: Service, ms: seq<Method>)
    ensures MethodsOf(sc, ext, s, ms).Ok? <==> forall k :: 0 <= k < |ms| ==> MethodDataOf(sc, ext, s, ms[k]).Ok?
    ensures MethodsOf(sc, ext, s, ms).Ok? ==>
      |MethodsOf(sc, ext, s, ms).value| == |ms| &&
      forall k :: 0 <= k < |ms| ==> MethodsOf(sc, ext, s, ms).value[k] == MethodDataOf(sc, ext, s, ms[k]).value
    ensures MethodsOf(sc, ext, s, ms).Fail? ==>
      exists k :: FirstMethodFailure(sc, ext, s, ms, k, MethodsOf(sc, ext, s, ms).failure)
  {
    var fn := MethodFn(sc, ext, s);
    MapResultChar(fn, ms);
    forall k | 0 <= k < |ms| ensures fn(ms[k]) == MethodDataOf(sc, ext, s, ms[k]) {
    }
    var r := MethodsOf(sc, ext, s, ms);
    if r.Fail? {
      var k :| FirstFailure(fn, ms, k, r.failure);
      assert FirstMethodFailure(sc, ext, s, ms, k, r.failure);
    }
  }

  /** The first failing service of a sequence is at `k`. */
  ghost predicate FirstServiceFailure(sc: Schema, ext: Externals, f: File, ss: seq<Service>, k: nat, e: Failure) {
    FirstFailure(ServiceFn(sc, ext, f), ss, k, e)
  }

  /** The services' data: one entry per service, in order, when every
      service succeeds; otherwise the failure of the first that fails. */
  lemma ServicesChar(sc: Schema, ext: Externals, f: File, ss: seq<Service>)
    ensures ServicesOf(sc, ext, f, ss).Ok? <==> forall k :: 0 <= k < |ss| ==> ServiceDataOf(sc, ext, f, ss[k]).Ok?
    ensures ServicesOf(sc, ext, f, ss).Ok? ==>
      |ServicesOf(sc, ext, f, ss).value| == |ss| &&
      forall k :: 0 <= k < |ss| ==> ServicesOf(sc, ext, f, ss).value[k] == ServiceDataOf(sc, ext, f, ss[k]).value
    ensures ServicesOf(sc, ext, f, ss).Fail? ==>
      exists k :: FirstServiceFailure(sc, ext, f, ss, k, ServicesOf(sc, ext, f, ss).failure)
  {
    var fn := ServiceFn(sc, ext, f);
    MapResultChar(fn, ss);
    forall k | 0 <= k < |ss| ensures fn(ss[k]) == ServiceDataOf(sc, ext, f, ss[k]) {
    }
    var r := ServicesOf(sc, ext, f, ss);
    if r.Fail? {
      var k :| FirstFailure(fn, ss, k, r.failure);
      assert FirstServiceFailure(sc, ext, f, ss, k, r.failure);
    }
  }

  /** The first failing output of a sequence of files is at `k`. */
  ghost predicate FirstOutputFailure(sc: Schema, ext: Externals, fs: seq<File>, k: nat, e: Failure) {
    FirstFailure(OutputFn(sc, ext), fs, k, e)
  }

  /** The output files: one per source file, in order, when every file
      succeeds; otherwise the failure of the first that fails. */
  lemma OutputsChar(sc: Schema, ext: Externals, fs: seq<File>)
    ensures OutputsOf(sc, ext, fs).Ok? <==> forall k :: 0 <= k < |fs| ==> OutputOf(sc, ext, fs[k]).Ok?
    ensures OutputsOf(sc, ext, fs).Ok? ==>
      |OutputsOf(sc, ext, fs).value| == |fs| &&
      forall k :: 0 <= k < |fs| ==> OutputsOf(sc, ext, fs).value[k] == OutputOf(sc, ext, fs[k]).value
    ensures OutputsOf(sc, ext, fs).Fail? ==>
      exists k :: FirstOutputFailure(sc, ext, fs, k, OutputsOf(sc, ext, fs).failure)
  {
    var fn := OutputFn(sc, ext);
    MapResultChar(fn, fs);
    forall k | 0 <= k < |fs| ensures fn(fs[k]) == OutputOf(sc, ext, fs[k]) {
    }
    var r := OutputsOf(sc, ext, fs);
    if r.Fail? {
      var k :| FirstFailure(fn, fs, k, r.failure);
      assert FirstOutputFailure(sc, ext, fs, k, r.failure);
    }
  }

  /** A service's data as parseRestService builds it from a service of the
      file: the file's package, the service name without `Service`, and one
      entry per method, in order, each naming its method and its service. */
  ghost predicate ServiceDataFits(d: ServiceData, f: File, s: Service) {
    d.pkgName == f.package && d.servName == ServiceName(s.name) && |d.methods| == |s.methods| &&
    forall j :: 0 <= j < |s.methods| ==>
      d.methods[j].servName == d.servName && d.methods[j].methName == s.methods[j].name
  }

  lemma ServiceDataChar(sc: Schema, ext: Externals, f: File, s: Service)
    ensures ServiceDataOf(sc, ext, f, s).Ok? <==>
      forall j :: 0 <= j < |s.methods| ==> MethodDataOf(sc, ext, s, s.methods[j]).Ok?
    ensures ServiceDataOf(sc, ext, f, s).Ok? ==> ServiceDataFits(ServiceDataOf(sc, ext, f, s).value, f, s)
  {
    MethodsChar(sc, ext, s, s.methods);
    forall j | 0 <= j < |s.methods| {
      MethodDataChar(sc, ext, s, s.methods[j]);
    }
  }

  /** parseRestFile: the release, the source name and the Go package name,
      and one entry per service, in order; it succeeds exactly when every
      method of every service does. */
  lemma FileDataChar(sc: Schema, ext: Externals, f: File)
    ensures FileDataOf(sc, ext, f).Ok? <==>
      forall i, j :: 0 <= i < |f.services| && 0 <= j < |f.services[i].methods| ==>
        MethodDataOf(sc, ext, f.services[i], f.services[i].methods[j]).Ok?
    ensures FileDataOf(sc, ext, f).Ok? ==>
      var d := FileDataOf(sc, ext, f).value;
      d.version == ext.release && d.source == f.name && d.goPackage == GoPackageName(f.goPackage) &&
      |d.services| == |f.services| &&
      forall i :: 0 <= i < |f.services| ==> ServiceDataFits(d.services[i], f, f.services[i])
  {
    ServicesChar(sc, ext, f, f.services);
    forall i | 0 <= i < |f.services| {
      ServiceDataChar(sc, ext, f, f.services[i]);
    }
  }

  /** Gen: a failure to parse the options ends the run before any file;
      otherwise the response holds one file per requested source file, in
      the request's order, named after it and holding its rendered data,
      unless some file fails, and then the first failure is the run's. */
  lemma GenChar(sc: Schema, ext: Externals, req: Request)
    ensures ext.parseOptions(req.parameter).Fail? ==>
      GenOf(sc, ext, req) == Fail(ext.parseOptions(req.parameter).failure)
    ensures GenOf(sc, ext, req).Ok? ==>
      var sel := Selected(req.fileToGenerate, req.protoFiles);
      var files := GenOf(sc, ext, req).value.files;
      |files| == |sel| &&
      forall k :: 0 <= k < |sel| ==>
        files[k].name == OutputName(sel[k].name) && FileDataOf(sc, ext, sel[k]).Ok? &&
        ext.renderFile(FileDataOf(sc, ext, sel[k]).value) == Ok(files[k].content)
    ensures GenOf(sc, ext, req).Fail? && ext.parseOptions(req.parameter).Ok? ==>
      exists k :: FirstOutputFailure(sc, ext, Selected(req.fileToGenerate, req.protoFiles), k, GenOf(sc, ext, req).failure)
  {
    OutputsChar(sc, ext, Selected(req.fileToGenerate, req.protoFiles));
  }

  /** Selecting from two runs of files is selecting from each: the files
      keep their relative order. */
  lemma {:induction false} SelectedAppend(names: seq<string>, a: seq<File>, b: seq<File>)
    ensures Selected(names, a + b) == Selected(names, a) + Selected(names, b)
    decreases |b|
  {
    if b == [] {
      assert a + b == a;
    } else {
      var b' := b[..|b| - 1];
      SelectedAppend(names, a, b');
      assert (a + b)[..|a + b| - 1] == a + b';
    }
  }

  /** When every file is asked for, every file is generated, in order. */
  lemma {:induction false} SelectedAll(names: seq<string>, fs: seq<File>)
    requires forall k :: 0 <= k < |fs| ==> fs[k].name in names
    ensures Selected(names, fs) == fs
    decreases |fs|
  {
    if fs != [] {
      SelectedAll(names, fs[..|fs| - 1]);
      assert fs == fs[..|fs| - 1] + [fs[|fs| - 1]];
    }
  }

  // ---------------------------------------------------------------------
  // Names.

  /** A service named `XService` gives the name `X` when `Service` does
      not occur in `X`. */
  lemma ServiceNameOfSuffix(base: string)
    requires Absent(base, "Service")
    ensures ServiceName(base + "Service") == base
  {
    var t := "Service";
    var s := base + t;
    forall j: nat | j < |base| ensures !OccursAt(s, t, j) {
      if j + |t| <= |base| {
        assert s[j..j + |t|] == base[j..j + |t|];
        assert !OccursAt(base, t, j);
      } else if j + |t| <= |s| {
        var d := |base| - j;
        assert s[j..j + |t|][d] == s[|base|] == 'S';
        assert t[d] != 'S';
      }
    }
    ReplaceAtEnd(base, t);
  }

  /** The services of the examples: `SearchService` and `StorageService`. */
  lemma ServiceNameExamples()
    ensures ServiceName("SearchService") == "Search"
    ensures ServiceName("StorageService") == "Storage"
  {
    assert "SearchService" == "Search" + "Service";
    assert "StorageService" == "Storage" + "Service";
    AbsentExample("Search");
    AbsentExample("Storage");
    ServiceNameOfSuffix("Search");
    ServiceNameOfSuffix("Storage");
  }

  /** A name no longer than `Service`, and different from it, holds no
      `Service`. */
  lemma AbsentExample(base: string)
    requires |base| <= 7 && base != "Service"
    ensures Absent(base, "Service")
  {
  }

  /** A source `X.proto` gives the output `X.api.go` when `.proto` does not
      occur in `X`. */
  lemma OutputNameOfProto(base: string)
    requires Absent(base, ".proto")
    ensures OutputName(base + ".proto") == base + ".api.go"
  {
    var t := ".proto";
    var s := base + t;
    forall j: nat | j < |base| ensures !OccursAt(s, t, j) {
      if j + |t| <= |base| {
        assert s[j..j + |t|] == base[j..j + |t|];
        assert !OccursAt(base, t, j);
      } else if j + |t| <= |s| {
        var d := |base| - j;
        assert s[j..j + |t|][d] == s[|base|] == '.';
        assert t[d] != '.';
      }
    }
    ReplaceAtEnd(base, t);
  }

  /** The package name is taken from the last segment of the go_package
      path. */
  lemma GoPackageNameOfPath(dir: string, last: string)
    requires '/' !in last
    ensures GoPackageName(dir + "/" + last) == ReplaceAll(last, "-", "_")
    ensures GoPackageName(last) == ReplaceAll(last, "-", "_")
  {
    SplitLastPiece(dir, '/', last);
    AbsentChar(last, '/');
    SplitAbsent(last, "/");
  }

  /** A last segment `a-b` gives the package `a_b`, as
      `github.com/acme/echo-api` gives `echo_api`. */
  lemma GoPackageNameDashed(dir: string, a: string, b: string)
    requires '/' !in a && '/' !in b && '-' !in a && '-' !in b
    ensures GoPackageName(dir + "/" + (a + "-" + b)) == a + "_" + b
  {
    assert '/' !in a + "-" + b;
    GoPackageNameOfPath(dir, a + "-" + b);
    var parts := [a, b];
    SplitJoin(parts, '-');
    assert Join(parts, "-") == a + "-" + b;
    assert Join(parts, "_") == a + "_" + b;
  }
}
