/**
 * The action builders of action.js. Each builder checks the fields it needs,
 * then turns the caller's `data` object into an action descriptor in place:
 * it attaches an `execute` function carrying a `displayName` (and, for `copy`,
 * replaces `opts` by the defaulted options) and returns the same object.
 *
 * What `execute` does when the task runner calls it is a gulp pipeline; here
 * it is the sequence of steps it assembles (module-level `Step`), read from the
 * descriptor's fields at the time of the call. The plugins behind the steps
 * are not modelled; the marker transform of `del` is, in module MarkerStrip.
 */
module Action {
  import opened Util
  import MarkerStrip

  /** The ten builders. */
  datatype Kind = Copy | Clean | MinifyImg | Del | Pug | Sass | Transform | Json | Zip | Mkdirp

  /** The fields a builder refuses to do without, in the order it tests them. */
  function RequiredFields(kind: Kind): seq<string>
  {
    match kind
    case Copy | Pug | Sass => ["src", "dest"]
    case Clean | MinifyImg => ["src"]
    case Del => ["src", "marker"]
    case Transform | Json => ["src", "cb"]
    case Zip => ["src", "fname"]
    case Mkdirp => ["path"]
  }

  /** The message of the `Error` a builder throws. */
  function MissingFieldMessage(kind: Kind): string
  {
    match kind
    case Copy => "Required parameter of action.copy not specified (src, dest)"
    case Clean => "Required parameter of action.clean not specified (src)"
    case MinifyImg => "Required parameter of action.minifyimg not specified (src)"
    case Del => "Required parameter of action.del not specified (src, marker)"
    case Pug => "Required parameter of action.pug not specified (src, dest)"
    case Sass => "Required parameter of action.sass not specified (src, dest)"
    case Transform => "Required parameter of action.transform not specified (src, cb)"
    case Json => "Required parameter of action.json not specified (src, cb)"
    case Zip => "Required parameter of action.zip not specified (src, fname)"
    case Mkdirp => "Required parameter of action.mkdirp not specified (path)"
  }

  /** `!data.f1 || !data.f2 || ...` over the fields from index `i` on. */
  function MissingFrom(fields: seq<string>, props: map<string, Value>, i: nat): (missing: bool)
    requires i <= |fields|
    decreases |fields| - i
  {
    if i == |fields| then false
    else !Truthy(Lookup(props, fields[i])) || MissingFrom(fields, props, i + 1)
  }

  /** The builder's test: some required field is absent or falsy. */
  function Missing(kind: Kind, props: map<string, Value>): bool
  {
    MissingFrom(RequiredFields(kind), props, 0)
  }

  lemma {:induction false} MissingFromExactly(fields: seq<string>, props: map<string, Value>, i: nat)
    requires i <= |fields|
    ensures MissingFrom(fields, props, i) <==> exists j | i <= j < |fields| :: !Truthy(Lookup(props, fields[j]))
    decreases |fields| - i
  {
    if i < |fields| {
      MissingFromExactly(fields, props, i + 1);
    }
  }

  /** A builder throws exactly when one of its required fields is absent or
      falsy; the other fields play no part in the test. */
  lemma MissingIffFalsyField(kind: Kind, props: map<string, Value>)
    ensures Missing(kind, props) <==> exists f | f in RequiredFields(kind) :: !Truthy(Lookup(props, f))
  {
    MissingFromExactly(RequiredFields(kind), props, 0);
    var fs := RequiredFields(kind);
    if exists f | f in fs :: !Truthy(Lookup(props, f)) {
      var f :| f in fs && !Truthy(Lookup(props, f));
      var j :| 0 <= j < |fs| && fs[j] == f;
    }
  }

  /** A value as a template literal `${...}` spells it. Objects are spelled
      with their tag and functions by a placeholder (see README). */
  function DisplayString(v: Value): string
  {
    match v
    case Undefined => "undefined"
    case Null => "null"
    case Boolean(b) => if b then "true" else "false"
    case Number(n) => if n < 0 then "-" + IndexKey(-n) else IndexKey(n)
    case Str(s) => s
    case Function(_, _) => "function"
    case Obj(_, _) => "[object " + Tag(v) + "]"
  }

  /** The name an action gets when `data.name` is falsy. */
  function DefaultName(kind: Kind, props: map<string, Value>): string
  {
    match kind
    case Copy => "Copy"
    case Clean => "Clean"
    case MinifyImg => "Minify Images"
    case Del => "Delete markers {" + DisplayString(Lookup(props, "marker")) + "}"
    case Pug => "Pug"
    case Sass => "Sass"
    case Transform => "Transform"
    case Json => "Json"
    case Zip => "Zip"
    case Mkdirp => "Create Directory"
  }

  /** `data.name || <default>`. */
  function DisplayName(kind: Kind, props: map<string, Value>): Value
  {
    if Truthy(Lookup(props, "name")) then Lookup(props, "name") else Str(DefaultName(kind, props))
  }

  /** The options object `copy` starts from: `{ allowEmpty: true }`. */
  const CopyDefaults: Value := Obj(PlainObject, map["allowEmpty" := Boolean(true)])

  /** `util.merge({ allowEmpty: true }, data.opts)` (action.js line 31). */
  function CopyOptions(opts: Value): Value
  {
    var r := Merge(CopyDefaults, opts);
    if r.Ok? then r.value else CopyDefaults
  }

  /** The defaulting of `copy` never throws and is a shallow overlay: every
      key the caller gives is kept as given, and `allowEmpty` is true unless
      the caller gives it. */
  lemma CopyOptionsOverlay(opts: Value)
    ensures Merge(CopyDefaults, opts) == Ok(CopyOptions(opts))
    ensures CopyOptions(opts) == Obj(PlainObject, map["allowEmpty" := Boolean(true)] + Props(opts))
  {
    forall k | k in Props(opts) && IsPlain(Props(opts)[k])
      ensures Typeof(Lookup(CopyDefaults.props, k)) != "object"
    {
    }
    MergeOverNonObjects(CopyDefaults, opts);
  }

  /** After `copy`, `opts.allowEmpty` is true unless the caller set it, and every
      other caller option is present with its own value. */
  lemma CopyAllowsEmpty(opts: Value)
    ensures var o := CopyOptions(opts).props;
      && Lookup(o, "allowEmpty") == (if "allowEmpty" in Props(opts) then Props(opts)["allowEmpty"] else Boolean(true))
      && forall k | k in Props(opts) :: k in o && o[k] == Props(opts)[k]
  {
    CopyOptionsOverlay(opts);
  }

  /** What a builder leaves in `data`: the fields it had, `execute` (a new
      function, identified by `closure`, whose `displayName` is set) and, for
      `copy`, the defaulted `opts`; or the message it throws. */
  function Built(kind: Kind, props: map<string, Value>, closure: nat): Result<map<string, Value>, string>
  {
    if Missing(kind, props) then Err(MissingFieldMessage(kind))
    else
      var withOpts := if kind == Copy then props["opts" := CopyOptions(Lookup(props, "opts"))] else props;
      Ok(withOpts["execute" := Function(closure, map["displayName" := DisplayName(kind, props)])])
  }

  /** The descriptor a builder returns: every field the caller set is still
      there, unchanged except `execute` and (for `copy`) `opts`; `execute` is
      a function whose `displayName` is `data.name` when truthy and the
      builder's default otherwise, so never empty. */
  lemma BuiltDescriptor(kind: Kind, props: map<string, Value>, closure: nat)
    requires !Missing(kind, props)
    ensures var d := Built(kind, props, closure);
      && d.Ok?
      && d.value.Keys == props.Keys + {"execute"} + (if kind == Copy then {"opts"} else {})
      && (forall k | k in props && k != "execute" && (k == "opts" ==> kind != Copy) :: d.value[k] == props[k])
      && d.value["execute"].Function?
      && Get(d.value["execute"], "displayName") == DisplayName(kind, props)
      && Truthy(DisplayName(kind, props))
  {
  }

  /** Where `gulp.dest` writes: a path, or each file's own base directory. */
  datatype Target = Path(path: Value) | WriteBack

  /** One stage of the work `execute` sets up, in the order it sets them up. */
  datatype Step =
    | RunCallback(cb: Value)                // `data.cb()`, before anything else
    | Source(src: Value, opts: Value)       // `gulp.src(data.src, data.opts)`
    | LogCompiling                          // the `debug` transform of pug and sass
    | CompilePug(pugOptions: Value)
    | CompileSass(sassOptions: Value)
    | Imagemin(cached: bool)                // wrapped in gulp-cache when `data.cache`
    | StripMarkers(marker: Value)           // the transform of MarkerStrip.Strip
    | TransformContents(cb: Value)          // `data.cb(contents, file)`
    | TransformJson(cb: Value)              // JSON.parse, `data.cb`, JSON.stringify
    | Archive(fname: Value, zipOptions: Value)
    | Rename(fname: Value)
    | Write(target: Target)                 // `gulp.dest(...)`
    | Delete(src: Value)                    // `del(data.src)`
    | MakeDirectory(path: Value)            // `mkdirp(data.path, ...)`

  /** One `gulp.dest` per target, in order. */
  function Writes(ts: seq<Target>): (steps: seq<Step>)
    ensures |steps| == |ts|
  {
    if ts == [] then [] else Writes(ts[..|ts| - 1]) + [Write(ts[|ts| - 1])]
  }

  /** `dest.forEach(str => ... gulp.dest(str))`: one path per element. */
  function Paths(elements: seq<Value>): (ts: seq<Target>)
    ensures |ts| == |elements|
  {
    if elements == [] then [] else Paths(elements[..|elements| - 1]) + [Path(elements[|elements| - 1])]
  }

  lemma {:induction false} WritesAt(ts: seq<Target>)
    ensures forall i | 0 <= i < |ts| :: Writes(ts)[i] == Write(ts[i])
    decreases |ts|
  {
    if ts != [] {
      WritesAt(ts[..|ts| - 1]);
    }
  }

  lemma {:induction false} PathsAt(elements: seq<Value>)
    ensures forall i | 0 <= i < |elements| :: Paths(elements)[i] == Path(elements[i])
    decreases |elements|
  {
    if elements != [] {
      PathsAt(elements[..|elements| - 1]);
    }
  }

  /** Where an action writes, by builder and by the kind of `dest`. */
  function Destinations(kind: Kind, dest: Value): seq<Target>
  {
    match kind
    case Copy | Pug | Sass =>
      if IsArray(dest) then Paths(Elements(dest)) else [Path(dest)]
    case MinifyImg | Del | Transform | Json =>
      if dest.Str? then [Path(dest)]
      else if IsArray(dest) then Paths(Elements(dest))
      else [WriteBack]
    case Zip =>
      if dest.Str? then [Path(dest)]
      else if IsArray(dest) then Paths(Elements(dest))
      else [Path(Str("./"))]
    case Clean | Mkdirp => []
  }

  /** The builders whose `execute` runs a gulp stream (all but clean and mkdirp). */
  predicate Streams(kind: Kind)
  {
    kind != Clean && kind != Mkdirp
  }

  /** `if (data.cb instanceof Function) data.cb();`, which transform and json
      do not have (their `cb` is the content transform). */
  function Opening(kind: Kind, props: map<string, Value>): seq<Step>
  {
    if kind != Transform && kind != Json && Lookup(props, "cb").Function? then [RunCallback(Lookup(props, "cb"))] else []
  }

  /** What a stream does to the files between `gulp.src` and the renaming. */
  function Stages(kind: Kind, props: map<string, Value>): seq<Step>
  {
    var debug := if Truthy(Lookup(props, "debug")) then [LogCompiling] else [];
    match kind
    case MinifyImg => [Imagemin(Truthy(Lookup(props, "cache")))]
    case Del => [StripMarkers(Lookup(props, "marker"))]
    case Pug => debug + [CompilePug(Lookup(props, "pug"))]
    case Sass => debug + [CompileSass(Lookup(props, "sass"))]
    case Transform => [TransformContents(Lookup(props, "cb"))]
    case Json => [TransformJson(Lookup(props, "cb"))]
    case Zip => [Archive(Lookup(props, "fname"), Lookup(props, "zip"))]
    case _ => []
  }

  /** `if (data.fname) pipeline = pipeline.pipe(rename(data.fname));` (zip
      uses `fname` as the archive name instead). */
  function Renaming(kind: Kind, props: map<string, Value>): seq<Step>
  {
    if kind != Zip && Truthy(Lookup(props, "fname")) then [Rename(Lookup(props, "fname"))] else []
  }

  /** What follows the callback: `del`, `mkdirp`, or a stream from
      `gulp.src` to `gulp.dest`. */
  function Work(kind: Kind, props: map<string, Value>): seq<Step>
  {
    if kind == Clean then [Delete(Lookup(props, "src"))]
    else if kind == Mkdirp then [MakeDirectory(Lookup(props, "path"))]
    else [Source(Lookup(props, "src"), Lookup(props, "opts"))] + StreamTail(kind, props)
  }

  /** A stream after `gulp.src`: its stages, the renaming, the writes. */
  function StreamTail(kind: Kind, props: map<string, Value>): seq<Step>
  {
    Stages(kind, props) + Renaming(kind, props) + Writes(Destinations(kind, Lookup(props, "dest")))
  }

  /** The stages `execute` sets up for a descriptor with fields `props`. */
  function Pipeline(kind: Kind, props: map<string, Value>): seq<Step>
  {
    Opening(kind, props) + Work(kind, props)
  }

  /** The `gulp.dest` targets among some stages, in order. */
  function Targets(steps: seq<Step>): (ts: seq<Target>)
    ensures |ts| <= |steps|
  {
    if steps == [] then []
    else Targets(steps[..|steps| - 1]) + (if steps[|steps| - 1].Write? then [steps[|steps| - 1].target] else [])
  }

  lemma {:induction false} TargetsAppend(a: seq<Step>, b: seq<Step>)
    ensures Targets(a + b) == Targets(a) + Targets(b)
    decreases |b|
  {
    if b == [] {
      assert a + b == a;
    } else {
      assert (a + b)[..|a + b| - 1] == a + b[..|b| - 1];
      TargetsAppend(a, b[..|b| - 1]);
    }
  }

  lemma {:induction false} TargetsOfWrites(ts: seq<Target>)
    ensures Targets(Writes(ts)) == ts
    decreases |ts|
  {
    if ts != [] {
      assert Writes(ts)[..|ts| - 1] == Writes(ts[..|ts| - 1]);
      TargetsOfWrites(ts[..|ts| - 1]);
    }
  }

  lemma {:induction false} NoTargets(steps: seq<Step>)
    requires forall i | 0 <= i < |steps| :: !steps[i].Write?
    ensures Targets(steps) == []
    decreases |steps|
  {
    if steps != [] {
      NoTargets(steps[..|steps| - 1]);
    }
  }

  /** The pipeline writes exactly where the destination rules say, in that
      order, and nowhere else: no other stage is a `gulp.dest`. */
  lemma PipelineWritesDestinations(kind: Kind, props: map<string, Value>)
    ensures Targets(Pipeline(kind, props)) == Destinations(kind, Lookup(props, "dest"))
  {
    var opening, work := Opening(kind, props), Work(kind, props);
    NoTargets(opening);
    TargetsAppend(opening, work);
    if Streams(kind) {
      var source := [Source(Lookup(props, "src"), Lookup(props, "opts"))];
      NoTargets(source);
      TargetsAppend(source, StreamTail(kind, props));
      StreamTailWrites(kind, props);
    } else {
      NoTargets(work);
    }
  }

  lemma StreamTailWrites(kind: Kind, props: map<string, Value>)
    ensures Targets(StreamTail(kind, props)) == Destinations(kind, Lookup(props, "dest"))
  {
    var stages, renaming := Stages(kind, props), Renaming(kind, props);
    var ts := Destinations(kind, Lookup(props, "dest"));
    NoTargets(stages);
    NoTargets(renaming);
    TargetsAppend(stages, renaming);
    TargetsAppend(stages + renaming, Writes(ts));
    TargetsOfWrites(ts);
  }

  lemma StreamTailStages(kind: Kind, props: map<string, Value>)
    ensures forall i | 0 <= i < |StreamTail(kind, props)| ::
      !StreamTail(kind, props)[i].RunCallback? && !StreamTail(kind, props)[i].Source?
  {
    WritesAt(Destinations(kind, Lookup(props, "dest")));
  }

  /** After the callback, no stage is a callback; a stream reads its sources
      in its first stage and only there. */
  lemma WorkStages(kind: Kind, props: map<string, Value>)
    ensures Work(kind, props) != []
    ensures forall i | 0 <= i < |Work(kind, props)| :: !Work(kind, props)[i].RunCallback?
    ensures Streams(kind) <==> Work(kind, props)[0].Source?
    ensures forall i | 0 < i < |Work(kind, props)| :: !Work(kind, props)[i].Source?
  {
    StreamTailStages(kind, props);
  }

  /** The callback, when there is one, runs first, before any file is read;
      transform and json never call it as a bare callback. */
  lemma CallbackFirst(kind: Kind, props: map<string, Value>)
    ensures Pipeline(kind, props) != []
    ensures Pipeline(kind, props)[0].RunCallback? <==>
      Lookup(props, "cb").Function? && kind != Transform && kind != Json
    ensures forall i | 0 < i < |Pipeline(kind, props)| :: !Pipeline(kind, props)[i].RunCallback?
  {
    WorkStages(kind, props);
  }

  /** A stream reads its sources once, right after the callback. */
  lemma SourceAfterCallback(kind: Kind, props: map<string, Value>)
    requires Streams(kind)
    ensures var p := Pipeline(kind, props); var n := |Opening(kind, props)|;
      n < |p| && p[n] == Source(Lookup(props, "src"), Lookup(props, "opts"))
      && forall i | 0 <= i < |p| && i != n :: !p[i].Source?
  {
    WorkStages(kind, props);
  }

  /** The destination rules of minifyimg, del, transform and json: a string is
      the one destination, an array gives one destination per element in order,
      anything else writes each file back where it was read. */
  lemma WriteBackDispatch(kind: Kind, dest: Value)
    requires kind in {MinifyImg, Del, Transform, Json}
    ensures dest.Str? ==> Destinations(kind, dest) == [Path(dest)]
    ensures IsArray(dest) ==>
      |Destinations(kind, dest)| == |Elements(dest)|
      && forall i | 0 <= i < |Elements(dest)| :: Destinations(kind, dest)[i] == Path(Elements(dest)[i])
    ensures !dest.Str? && !IsArray(dest) ==> Destinations(kind, dest) == [WriteBack]
  {
    if IsArray(dest) {
      PathsAt(Elements(dest));
    }
  }

  /** The rules of copy, pug and sass: an array gives one destination per
      element, anything else (a string included) is the one destination. */
  lemma PathDispatch(kind: Kind, dest: Value)
    requires kind in {Copy, Pug, Sass}
    ensures IsArray(dest) ==>
      |Destinations(kind, dest)| == |Elements(dest)|
      && forall i | 0 <= i < |Elements(dest)| :: Destinations(kind, dest)[i] == Path(Elements(dest)[i])
    ensures !IsArray(dest) ==> Destinations(kind, dest) == [Path(dest)]
  {
    if IsArray(dest) {
      PathsAt(Elements(dest));
    }
  }

  /** The rules of zip: as minifyimg, but the fallback is "./". */
  lemma ZipDispatch(dest: Value)
    ensures dest.Str? ==> Destinations(Zip, dest) == [Path(dest)]
    ensures IsArray(dest) ==>
      |Destinations(Zip, dest)| == |Elements(dest)|
      && forall i | 0 <= i < |Elements(dest)| :: Destinations(Zip, dest)[i] == Path(Elements(dest)[i])
    ensures !dest.Str? && !IsArray(dest) ==> Destinations(Zip, dest) == [Path(Str("./"))]
  {
    if IsArray(dest) {
      PathsAt(Elements(dest));
    }
  }

  /** An array without holes: the i-th destination is the i-th element. */
  lemma DenseArrayDestinations(kind: Kind, dest: Value)
    requires Streams(kind) && IsArray(dest)
    requires forall i: nat | i < dest.cls.length :: IndexKey(i) in dest.props
    ensures |Destinations(kind, dest)| == dest.cls.length
    ensures forall i: nat | i < dest.cls.length :: Destinations(kind, dest)[i] == Path(dest.props[IndexKey(i)])
  {
    DenseElements(dest.props, dest.cls.length);
    PathsAt(Elements(dest));
  }

  /** The file contents `del` writes: both replaces of action.js lines
      165-169, with the marker spelled into the first pattern as the template
      literal spells it. Modelled for the documented marker alphabet
      (digits, upper-case letters and `_`, action.js line 148); `None` stands
      for a marker outside it, which the code does not reject. */
  function DelContents(marker: Value, content: string): (r: MarkerStrip.Option<string>)
    ensures r.Some? <==> MarkerStrip.ValidMarker(DisplayString(marker))
    ensures r.Some? ==> MarkerStrip.IsSubsequence(r.value, content) && |r.value| <= |content|
  {
    var m := DisplayString(marker);
    if MarkerStrip.ValidMarker(m) then
      MarkerStrip.StripDeletes(content, m);
      MarkerStrip.Some(MarkerStrip.Strip(content, m))
    else MarkerStrip.None
  }

  /** The caller's `data` object, which a builder turns into the descriptor. */
  class Descriptor {
    var props: map<string, Value>

    constructor (p: map<string, Value>)
      ensures props == p
    {
      props := p;
    }
  }

  /** `action.<kind>(data)`: throws the builder's message when `data` is not an
      object or lacks a required field; otherwise sets the fields in `data`
      itself and returns that same object. `data == null` stands for every
      non-object argument, on which each builder's first test fails. */
  method Build(kind: Kind, data: Descriptor?, closure: nat) returns (r: Result<Descriptor, string>)
    modifies data
    ensures data == null ==> r == Err(MissingFieldMessage(kind))
    ensures data != null && Missing(kind, old(data.props)) ==>
      r == Err(MissingFieldMessage(kind)) && data.props == old(data.props)
    ensures data != null && !Missing(kind, old(data.props)) ==>
      r.Ok? && r.value == data && Built(kind, old(data.props), closure) == Ok(data.props)
  {
    if data == null || Missing(kind, data.props) {
      r := Err(MissingFieldMessage(kind));
    } else {
      Describe(kind, data, closure);
      r := Ok(data);
    }
  }

  /** The part of a builder after its test: `copy` defaults `data.opts`, then
      `data.execute` is attached and named. */
  method Describe(kind: Kind, data: Descriptor, closure: nat)
    requires !Missing(kind, data.props)
    modifies data
    ensures Built(kind, old(data.props), closure) == Ok(data.props)
  {
    ghost var before := data.props;
    if kind == Copy {
      data.props := data.props["opts" := CopyOptions(Lookup(data.props, "opts"))];
    }
    ghost var withOpts := data.props;
    var execute := Function(closure, map[]);
    data.props := data.props["execute" := execute];
    DisplayNameReads(kind, before, data.props);
    var name := DisplayName(kind, data.props);
    data.props := data.props["execute" := Function(closure, execute.fprops["displayName" := name])];
    assert data.props == withOpts["execute" := Function(closure, map["displayName" := DisplayName(kind, before)])];
  }

  /** The name depends only on `name` and `marker`, which a builder leaves alone. */
  lemma DisplayNameReads(kind: Kind, p: map<string, Value>, q: map<string, Value>)
    requires Lookup(p, "name") == Lookup(q, "name") && Lookup(p, "marker") == Lookup(q, "marker")
    ensures DisplayName(kind, p) == DisplayName(kind, q)
  {
  }

  /** What `data.execute()` sets up, reading the descriptor's fields at the
      time of the call, one `pipeline = pipeline.pipe(...)` at a time. This is
      the step-by-step form of `Pipeline`; the properties of the pipeline are
      proved once, about `Pipeline` (`CallbackFirst`, `SourceAfterCallback`,
      `PipelineWritesDestinations`), and reach this method through its
      `ensures`. */
  method RunExecute(kind: Kind, data: Descriptor) returns (steps: seq<Step>)
    ensures steps == Pipeline(kind, data.props)
  {
    var props := data.props;
    steps := Opening(kind, props);
    var work;
    if kind == Clean {
      work := [Delete(Lookup(props, "src"))];
    } else if kind == Mkdirp {
      work := [MakeDirectory(Lookup(props, "path"))];
    } else {
      work := RunStream(kind, props);
    }
    steps := steps + work;
  }

  /** From `gulp.src(data.src, data.opts)` to the last `gulp.dest`: the
      step-by-step form of `Work` for the stream builders. */
  method RunStream(kind: Kind, props: map<string, Value>) returns (steps: seq<Step>)
    requires Streams(kind)
    ensures steps == Work(kind, props)
  {
    var tail := Stages(kind, props);
    if kind != Zip && Truthy(Lookup(props, "fname")) {
      tail := tail + [Rename(Lookup(props, "fname"))];
    }
    assert tail == Stages(kind, props) + Renaming(kind, props);
    tail := WriteDestinations(tail, kind, Lookup(props, "dest"));
    steps := [Source(Lookup(props, "src"), Lookup(props, "opts"))] + tail;
  }

  /** The `dest` dispatch at the end of each stream. */
  method WriteDestinations(steps0: seq<Step>, kind: Kind, dest: Value) returns (steps: seq<Step>)
    requires Streams(kind)
    ensures steps == steps0 + Writes(Destinations(kind, dest))
  {
    var writesBack := kind in {MinifyImg, Del, Transform, Json};
    if (writesBack || kind == Zip) && dest.Str? {
      steps := steps0 + [Write(Path(dest))];
    } else if IsArray(dest) {
      steps := WriteEach(steps0, dest);
    } else if writesBack {
      steps := steps0 + [Write(WriteBack)];
    } else if kind == Zip {
      steps := steps0 + [Write(Path(Str("./")))];
    } else {
      steps := steps0 + [Write(Path(dest))];
    }
  }

  /** `dest.forEach(str => { pipeline = pipeline.pipe(gulp.dest(str)); })`. */
  method WriteEach(steps0: seq<Step>, dest: Value) returns (steps: seq<Step>)
    requires IsArray(dest)
    ensures steps == steps0 + Writes(Paths(Elements(dest)))
  {
    var props, n := dest.props, dest.cls.length;
    steps := steps0;
    var i := 0;
    while i < n
      invariant i <= n
      invariant steps == steps0 + Writes(Paths(ElementsBelow(props, i)))
    {
      ghost var es := ElementsBelow(props, i);
      var key := IndexKey(i);
      if key in props {
        assert ElementsBelow(props, i + 1) == es + [props[key]];
        WritesPathsSnoc(es, props[key]);
        steps := steps + [Write(Path(props[key]))];
      } else {
        assert ElementsBelow(props, i + 1) == es;
      }
      i := i + 1;
    }
  }

  lemma WritesPathsSnoc(es: seq<Value>, e: Value)
    ensures forall pre: seq<Step> :: pre + Writes(Paths(es + [e])) == (pre + Writes(Paths(es))) + [Write(Path(e))]
  {
    assert (es + [e])[..|es|] == es;
    assert Paths(es + [e])[..|es|] == Paths(es);
  }
}
