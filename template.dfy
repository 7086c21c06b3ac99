/** The decision logic of server/template/koa-middleware.js: which requests
    the middleware serves, how a URL is resolved to a template file and a
    project configuration, and the partial written for a component preview.
    Node's `path.join`, the project-directory rule and the locals merge are
    collaborators whose code is not part of this model; they are passed in
    as functions. */
module Template {
  import opened Text
  import opened Maybe

  /** Template data: locals, request state and parsed configuration. */
  type Data = map<string, string>

  // ---------------------------------------------------------------------
  // path.extname (POSIX rule)

  /** The path without its trailing slashes. */
  function TrimSlashes(path: string): (r: string)
    ensures |r| <= |path| && r == path[..|r|]
    ensures r == "" || r[|r| - 1] != '/'
    ensures forall i :: |r| <= i < |path| ==> path[i] == '/'
    decreases |path|
  {
    if |path| > 0 && path[|path| - 1] == '/' then TrimSlashes(path[..|path| - 1]) else path
  }

  /** Index of the last `c` in `s`, or -1. */
  function LastIndexOf(s: string, c: char): (k: int)
    ensures -1 <= k < |s|
    ensures k >= 0 ==> s[k] == c
    ensures forall i :: k < i < |s| ==> s[i] != c
    decreases |s|
  {
    if |s| == 0 then -1
    else if s[|s| - 1] == c then |s| - 1
    else LastIndexOf(s[..|s| - 1], c)
  }

  /** `LastIndexOf` is pinned down by where `c` occurs. */
  lemma LastIndexAt(s: string, c: char, j: int)
    requires -1 <= j < |s| && (j >= 0 ==> s[j] == c)
    requires forall i :: j < i < |s| ==> s[i] != c
    ensures LastIndexOf(s, c) == j
  {
  }

  /** The last segment of a path, trailing slashes ignored. */
  function BaseSegment(path: string): (seg: string)
    ensures forall i :: 0 <= i < |seg| ==> seg[i] != '/'
  {
    var t := TrimSlashes(path);
    t[LastIndexOf(t, '/') + 1..]
  }

  /** `path.extname`: the last segment from its last dot on, or "" when the
      segment has no dot, when its last dot is its first character, or
      when the segment is `..`. */
  function Extname(path: string): (r: string)
    ensures r != "" ==> r[0] == '.' && forall i :: 0 < i < |r| ==> r[i] != '.' && r[i] != '/'
    ensures r != "" ==> |r| < |BaseSegment(path)| && EndsWith(BaseSegment(path), r)
  {
    var seg := BaseSegment(path);
    var d := LastIndexOf(seg, '.');
    if d <= 0 || seg == ".." then "" else seg[d..]
  }

  /** A file extension as a template extension is written: a dot followed by
      at least one character, none of them a dot or a slash. */
  predicate IsExtension(e: string)
  {
    |e| >= 2 && e[0] == '.' && forall i :: 0 < i < |e| ==> e[i] != '.' && e[i] != '/'
  }

  /** A path whose last character is not a slash is its own trimmed form. */
  lemma TrimNone(s: string)
    requires s != "" && s[|s| - 1] != '/'
    ensures TrimSlashes(s) == s
  {
  }

  /** The extension of a file name ending in `e` is `e`. */
  lemma ExtnameOfAppend(p: string, e: string)
    requires IsExtension(e)
    requires p != "" && p[|p| - 1] != '/'
    ensures Extname(p + e) == e
  {
    var q := p[LastIndexOf(p, '/') + 1..];
    SegmentOfAppend(p, e);
    LastDotOfAppend(q, e);
    ExtnameFromDot(p + e, |q|);
    assert (q + e)[|q|..] == e;
  }

  /** The extension starts at the last dot of the segment when that dot is
      not its first character and the segment is not `..`. */
  lemma ExtnameFromDot(path: string, d: int)
    requires d == LastIndexOf(BaseSegment(path), '.') && d > 0 && BaseSegment(path) != ".."
    ensures Extname(path) == BaseSegment(path)[d..]
  {
  }

  /** After a non-empty stem, the extension's dot is the last one. */
  lemma LastDotOfAppend(q: string, e: string)
    requires IsExtension(e)
    ensures LastIndexOf(q + e, '.') == |q|
  {
    var s := q + e;
    forall i | |q| < i < |s| ensures s[i] != '.' {
      assert s[i] == e[i - |q|];
    }
    LastIndexAt(s, '.', |q|);
  }

  /** Appending an extension extends the last segment. */
  lemma SegmentOfAppend(p: string, e: string)
    requires IsExtension(e)
    requires p != "" && p[|p| - 1] != '/'
    ensures BaseSegment(p + e) == p[LastIndexOf(p, '/') + 1..] + e
  {
    TrimNone(p + e);
    SegmentOfTrimmed(p + e);
    LastSlashOfAppend(p, e);
    SliceOfAppend(p, e, LastIndexOf(p, '/') + 1);
  }

  lemma SegmentOfTrimmed(s: string)
    requires TrimSlashes(s) == s
    ensures BaseSegment(s) == s[LastIndexOf(s, '/') + 1..]
  {
  }

  lemma SliceOfAppend(p: string, e: string, k: nat)
    requires k <= |p|
    ensures (p + e)[k..] == p[k..] + e
  {
  }

  /** An extension adds no slash. */
  lemma LastSlashOfAppend(p: string, e: string)
    requires IsExtension(e)
    ensures LastIndexOf(p + e, '/') == LastIndexOf(p, '/')
  {
    var s := p + e;
    var k := LastIndexOf(p, '/');
    forall i | k < i < |s| ensures s[i] != '/' {
      if i < |p| { assert s[i] == p[i]; } else { assert s[i] == e[i - |p|]; }
    }
    LastIndexAt(s, '/', k);
  }

  /** A segment without a dot has no extension. */
  lemma ExtnameNoDot(path: string)
    requires '.' !in BaseSegment(path)
    ensures Extname(path) == ""
  {
  }

  /** A dot-file (a segment whose only dot is its first character) has no
      extension. */
  lemma ExtnameDotFile(dir: string, name: string)
    requires forall i :: 0 <= i < |name| ==> name[i] != '.' && name[i] != '/'
    ensures Extname(dir + "/." + name) == ""
  {
    var s := dir + "/." + name;
    TrimNone(s);
    LastIndexAt(s, '/', |dir|);
    var seg := s[|dir| + 1..];
    assert seg == "." + name;
    LastIndexAt(seg, '.', 0);
  }

  /** A trailing slash does not change the last segment. */
  lemma BaseSegmentSlash(file: string)
    requires file != "" && file[|file| - 1] != '/'
    ensures BaseSegment(file + "/") == BaseSegment(file)
  {
    assert (file + "/")[..|file + "/"| - 1] == file;
    TrimNone(file);
  }

  // ---------------------------------------------------------------------
  // Which requests are served

  /** What `validate` reads of the request context. `body` is absent when
      nothing has set a response body yet. */
  datatype Request = Request(httpMethod: string, body: Option<string>, status: int, acceptsHtml: bool, path: string)

  /** Gates other than the path all pass. */
  predicate Unanswered(req: Request)
  {
    (req.httpMethod == "GET" || req.httpMethod == "HEAD") && req.body == None && req.status == 404 && req.acceptsHtml
  }

  /** `validate(ctx, templateExt)`: only a GET or HEAD that nothing has
      answered yet (no body, status still 404) and that accepts HTML, for a
      path with no extension or with the template extension. */
  function Validate(req: Request, templateExt: string): (ok: bool)
    ensures ok ==> req.httpMethod == "GET" || req.httpMethod == "HEAD"
    ensures ok ==> req.body == None && req.status == 404 && req.acceptsHtml
    ensures ok <==> Unanswered(req) && Extname(req.path) in {"", templateExt}
  {
    if req.httpMethod != "HEAD" && req.httpMethod != "GET" then false
    else if req.body != None || req.status != 404 || !req.acceptsHtml then false
    else
      var ext := Extname(req.path);
      if ext != "" && ext != templateExt then false
      else true
  }

  /** A path naming a template file is served. */
  lemma ValidateTemplateFile(req: Request, file: string, templateExt: string)
    requires Unanswered(req) && IsExtension(templateExt)
    requires file != "" && file[|file| - 1] != '/' && req.path == file + templateExt
    ensures Validate(req, templateExt)
  {
    ExtnameOfAppend(file, templateExt);
  }

  /** A path naming a file of another type is passed on. */
  lemma ValidateOtherFile(req: Request, file: string, ext: string, templateExt: string)
    requires IsExtension(ext) && ext != templateExt
    requires file != "" && file[|file| - 1] != '/' && req.path == file + ext
    ensures !Validate(req, templateExt)
  {
    ExtnameOfAppend(file, ext);
  }

  /** A dot-file path is served like a directory. */
  lemma ValidateDotFile(req: Request, dir: string, name: string, templateExt: string)
    requires Unanswered(req)
    requires forall i :: 0 <= i < |name| ==> name[i] != '.' && name[i] != '/'
    requires req.path == dir + "/." + name
    ensures Validate(req, templateExt)
  {
    ExtnameDotFile(dir, name);
  }

  // ---------------------------------------------------------------------
  // Resolving a URL

  /** A URL under `/components/` previews a component: the flag is set and
      the first 11 characters (`/components`) are dropped, keeping the slash. */
  function StripComponent(url: string): (r: (string, bool))
    ensures r.1 <==> StartsWith(url, "/components/")
    ensures r.1 ==> "/components" + r.0 == url && StartsWith(r.0, "/")
    ensures !r.1 ==> r.0 == url
  {
    if StartsWith(url, "/components/") then
      assert url == "/components" + url[11..];
      (url[11..], true)
    else (url, false)
  }

  /** Configuration file extensions, in the order they are tried. */
  const ConfigExtensions: seq<string> := [".yml", ".yaml", ".json", ".js"]

  /** File name under which a component preview is registered. */
  const ComponentViewer: string := "__component_viewer__.ext"

  /** What `fetchData` yields: no promise at all (a falsy return), a promise
      that resolves, or one that rejects. A promise may resolve to nothing
      (`undefined` or `null`), which is `Resolved(None)`. */
  datatype Fetched = Missing | Resolved(config: Option<Data>) | Rejected

  /** The configuration handed to the renderer, when rendering happens at
      all: `{}` when there was no promise, whatever the promise resolved to
      (possibly nothing) otherwise, and no rendering when it rejected. */
  function ConfigOf(f: Fetched): (c: Option<Option<Data>>)
    ensures c == None <==> f == Rejected
    ensures f == Missing ==> c == Some(Some(map[]))
    ensures f.Resolved? ==> c == Some(f.config)
  {
    match f
    case Missing => Some(Some(map[]))
    case Resolved(config) => Some(config)
    case Rejected => None
  }

  /** The middleware's options. */
  datatype Options = Options(root: string, isProjectGroup: bool, configFilename: string, templateExt: string)

  /** `path.join`, the project-directory rule and the locals merge. */
  datatype Collaborators = Collaborators(
    join: seq<string> -> string,
    projectDir: (string, bool) -> string,
    merge: (Data, Data, Data) -> Data)

  /** The name a component preview includes: the URL after `/<projectDir>/`. */
  function PartialName(url: string, projectDir: string): (r: string)
    ensures |r| <= |url|
  {
    Slice(url, |projectDir| + 2)
  }

  /** The lines of the preview partial, as the template literal lays them
      out: front matter switching the layout off, then the component include. */
  function PartialLines(name: string): (r: seq<string>)
    ensures |r| == 6
  {
    ["", Spaces(16) + "---", Spaces(16) + "layout: false", Spaces(16) + "---",
     Spaces(16) + "{{> " + name + " }}", Spaces(12)]
  }

  function PartialBody(url: string, projectDir: string): string
  {
    Join(PartialLines(PartialName(url, projectDir)), "\n")
  }

  /** For a component URL `/<projectDir>/<name>`, the partial includes `name`. */
  lemma {:induction false} PartialNameOf(projectDir: string, name: string)
    ensures PartialName("/" + projectDir + "/" + name, projectDir) == name
  {
    var url := "/" + projectDir + "/" + name;
    if name == "" {
      assert |url| == |projectDir| + 2;
    } else {
      assert url[|projectDir| + 2..] == name;
    }
  }

  /** Split back into lines, the partial gives its six lines: the front
      matter, then the include. */
  lemma PartialBodyLines(url: string, projectDir: string)
    requires '\n' !in PartialName(url, projectDir)
    ensures Lines(PartialBody(url, projectDir)) == PartialLines(PartialName(url, projectDir))
    ensures Lines(PartialBody(url, projectDir))[2] == Spaces(16) + "layout: false"
  {
    var name := PartialName(url, projectDir);
    var ls := PartialLines(name);
    forall i | 0 <= i < |ls| ensures '\n' !in ls[i] {
      SpacedNoNewline(16, "---");
      SpacedNoNewline(16, "layout: false");
      SpacedNoNewline(12, "");
      IncludeNoNewline(name);
    }
    LinesOfJoin(ls);
  }

  lemma SpacedNoNewline(n: nat, s: string)
    requires '\n' !in s
    ensures '\n' !in Spaces(n) + s
  {
    assert forall i :: 0 <= i < |Spaces(n) + s| ==> (Spaces(n) + s)[i] != '\n' by {
      forall i | 0 <= i < |Spaces(n) + s| ensures (Spaces(n) + s)[i] != '\n' {
        if i >= n { assert (Spaces(n) + s)[i] == s[i - n]; assert s[i - n] in s; }
      }
    }
  }

  lemma IncludeNoNewline(name: string)
    requires '\n' !in name
    ensures '\n' !in Spaces(16) + "{{> " + name + " }}"
  {
    SpacedNoNewline(0, name);
    var t := "{{> " + name + " }}";
    assert '\n' !in t by {
      forall i | 0 <= i < |t| ensures t[i] != '\n' {
        if 4 <= i < 4 + |name| { assert t[i] == name[i - 4]; assert name[i - 4] in name; }
      }
    }
    SpacedNoNewline(16, t);
    assert Spaces(16) + "{{> " + name + " }}" == Spaces(16) + t;
  }

  /** Where a request's template, configuration and preview partial are. */
  datatype Plan = Plan(url: string, isComponent: bool, projectDir: string, configPath: string, fileUrl: string)

  /** The resolution steps of the render function, before any I/O. */
  function Prepare(url: string, opts: Options, env: Collaborators): (pl: Plan)
    ensures pl.isComponent <==> StartsWith(url, "/components/")
    ensures pl.isComponent ==> "/components" + pl.url == url
    ensures !pl.isComponent ==> pl.url == url
    ensures pl.projectDir == env.projectDir(pl.url, opts.isProjectGroup)
    ensures pl.configPath == env.join([opts.root, pl.projectDir, opts.configFilename])
    ensures pl.isComponent ==> pl.fileUrl == env.join([opts.root, pl.projectDir, ComponentViewer])
    ensures !pl.isComponent ==> pl.fileUrl == env.join([opts.root, url, if Extname(url) == "" then "index.html" else ""])
  {
    var (u, isComponent) := StripComponent(url);
    var projectDir := env.projectDir(u, opts.isProjectGroup);
    var configPath := env.join([opts.root, projectDir, opts.configFilename]);
    var fileUrl := if isComponent then env.join([opts.root, projectDir, ComponentViewer])
                   else env.join([opts.root, u, if Extname(u) != "" then "" else "index.html"]);
    Plan(u, isComponent, projectDir, configPath, fileUrl)
  }

  /** A URL naming a template file is joined as it is. */
  lemma TargetOfTemplateFile(url: string, file: string, templateExt: string, opts: Options, env: Collaborators)
    requires !StartsWith(url, "/components/")
    requires IsExtension(templateExt) && file != "" && file[|file| - 1] != '/'
    requires url == file + templateExt
    ensures Prepare(url, opts, env).fileUrl == env.join([opts.root, url, ""])
  {
    ExtnameOfAppend(file, templateExt);
  }

  /** A URL whose last segment has no dot, such as `/docs/intro`, is served
      from the `index.html` under it. */
  lemma TargetOfPage(url: string, opts: Options, env: Collaborators)
    requires !StartsWith(url, "/components/") && '.' !in BaseSegment(url)
    ensures Prepare(url, opts, env).fileUrl == env.join([opts.root, url, "index.html"])
  {
    ExtnameNoDot(url);
  }

  /** A URL naming a directory, `/` at the end and no dot in its last
      segment, is served from that directory's `index.html`. */
  lemma TargetOfDirectory(dir: string, opts: Options, env: Collaborators)
    requires !StartsWith(dir + "/", "/components/")
    requires dir != "" && dir[|dir| - 1] != '/' && '.' !in BaseSegment(dir)
    ensures Prepare(dir + "/", opts, env).fileUrl == env.join([opts.root, dir + "/", "index.html"])
  {
    BaseSegmentSlash(dir);
    ExtnameNoDot(dir + "/");
  }

  /** Previewing `/components/<projectDir>/<name>` renders the viewer file of
      that project, whose partial includes `name`. */
  lemma ComponentPreview(projectDir: string, name: string, opts: Options, env: Collaborators)
    requires env.projectDir("/" + projectDir + "/" + name, opts.isProjectGroup) == projectDir
    ensures var pl := Prepare("/components/" + projectDir + "/" + name, opts, env);
            && pl.isComponent
            && pl.fileUrl == env.join([opts.root, projectDir, ComponentViewer])
            && PartialName(pl.url, pl.projectDir) == name
  {
    var url := "/components/" + projectDir + "/" + name;
    assert url[..12] == "/components/";
    assert url[11..] == "/" + projectDir + "/" + name;
    PartialNameOf(projectDir, name);
  }
}
