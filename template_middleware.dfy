/** The stateful side of server/template/koa-middleware.js: the render
    function built by `createRenderer`, which registers a partial on the
    template engine for component previews, and `renderView`, which sets
    the response body. Promises are read as their settled results. */
module TemplateMiddleware {
  import opened Maybe
  import opened Text
  import opened Template

  /** What the template engine is asked to render. `config` is `None` when
      the configuration promise resolved to nothing. */
  datatype RenderCall = RenderCall(fileUrl: string, projectDir: string, locals: Data, config: Option<Data>, options: Options)

  /** The settled result of rendering: the HTML, or a rejection. */
  datatype Rendered = Html(html: string) | Failed

  /** The request context: what the middleware reads, and the body it sets. */
  class Context {
    const httpMethod: string
    const status: int
    const acceptsHtml: bool
    const path: string
    const state: Data
    var body: Option<string>

    constructor (httpMethod: string, status: int, acceptsHtml: bool, path: string, state: Data, body: Option<string>)
      ensures this.httpMethod == httpMethod && this.status == status && this.acceptsHtml == acceptsHtml
      ensures this.path == path && this.state == state && this.body == body
    {
      this.httpMethod := httpMethod;
      this.status := status;
      this.acceptsHtml := acceptsHtml;
      this.path := path;
      this.state := state;
      this.body := body;
    }

    /** The request as `validate` sees it. */
    function Request(): (req: Template.Request)
      reads this
      ensures req.path == path && req.body == body
    {
      Template.Request(httpMethod, body, status, acceptsHtml, path)
    }
  }

  /** The template engine the render function drives: its locals, its
      partial registry, and its configuration lookup and rendering, which
      are not part of this model and are given as functions. */
  class Renderer {
    const locals: Data
    const fetchData: (string, seq<string>) -> Fetched
    const renderTemplate: (RenderCall, map<string, string>) -> Rendered
    var partials: map<string, string>

    constructor (locals: Data, fetchData: (string, seq<string>) -> Fetched,
                 renderTemplate: (RenderCall, map<string, string>) -> Rendered)
      ensures this.locals == locals && this.fetchData == fetchData && this.renderTemplate == renderTemplate
      ensures partials == map[]
    {
      this.locals := locals;
      this.fetchData := fetchData;
      this.renderTemplate := renderTemplate;
      partials := map[];
    }

    /** `registerPartial(name, body)`: later lookups of `name` give `body`. */
    method RegisterPartial(name: string, body: string)
      modifies this`partials
      ensures partials == old(partials)[name := body]
    {
      partials := partials[name := body];
    }

    /** The partials after preparing a request: the preview partial is
        registered only for a component. */
    function PartialsAfter(pl: Plan): (m: map<string, string>)
      reads this
      ensures pl.isComponent ==> m == partials[pl.fileUrl := PartialBody(pl.url, pl.projectDir)]
      ensures !pl.isComponent ==> m == partials
    {
      if pl.isComponent then partials[pl.fileUrl := PartialBody(pl.url, pl.projectDir)] else partials
    }

    /** What rendering a prepared request settles to, given the partials
        then registered: a rejected configuration fails without rendering. */
    function Settled(pl: Plan, locals: Data, opts: Options, registry: map<string, string>): (r: Rendered)
      reads this
      ensures fetchData(pl.configPath, ConfigExtensions) == Rejected ==> r == Failed
      ensures fetchData(pl.configPath, ConfigExtensions) != Rejected ==>
                r == renderTemplate(RenderCall(pl.fileUrl, pl.projectDir, locals,
                                               ConfigOf(fetchData(pl.configPath, ConfigExtensions)).value, opts), registry)
    {
      match ConfigOf(fetchData(pl.configPath, ConfigExtensions))
      case None => Failed
      case Some(config) => renderTemplate(RenderCall(pl.fileUrl, pl.projectDir, locals, config, opts), registry)
    }

    /** The render function of `createRenderer(this, opts)`, called as
        `render(ctx, url, locals)`: merges the locals, resolves the URL,
        registers the preview partial for a component, and renders with the
        configuration found (`{}` when there is none to look up). */
    method Render(ctx: Context, url: string, locals: Option<Data>, opts: Options, env: Collaborators)
      returns (r: Rendered)
      modifies this`partials
      ensures partials == old(PartialsAfter(Prepare(url, opts, env)))
      ensures r == Settled(Prepare(url, opts, env), env.merge(locals.GetOr(map[]), ctx.state, this.locals), opts, partials)
    {
      var given := if locals.Some? then locals.value else map[];
      var merged := env.merge(given, ctx.state, this.locals);

      var u := url;
      var isComponent := false;
      if StartsWith(u, "/components/") {
        u := u[11..];
        isComponent := true;
      }

      var projectDir := env.projectDir(u, opts.isProjectGroup);
      var configFileUrl := env.join([opts.root, projectDir, opts.configFilename]);
      var fetched := fetchData(configFileUrl, ConfigExtensions);
      var config: Option<Option<Data>>;
      match fetched {
        case Missing => config := Some(Some(map[]));
        case Resolved(c) => config := Some(c);
        case Rejected => config := None;
      }

      var fileUrl: string;
      if isComponent {
        fileUrl := env.join([opts.root, projectDir, ComponentViewer]);
        RegisterPartial(fileUrl, PartialBody(u, projectDir));
      } else {
        fileUrl := env.join([opts.root, u, if Extname(u) != "" then "" else "index.html"]);
      }

      if config.None? {
        r := Failed;
      } else {
        r := renderTemplate(RenderCall(fileUrl, projectDir, merged, config.value, opts), partials);
      }
    }

    /** `renderView(ctx, next)`: a request the middleware does not serve is
        passed on untouched; a rendered one gets the HTML as its body and is
        passed on; a failed one keeps its body and is not passed on. The
        result says whether `next` was called. */
    method RenderView(ctx: Context, opts: Options, env: Collaborators) returns (nextCalled: bool)
      modifies ctx`body, this`partials
      ensures !Validate(old(ctx.Request()), opts.templateExt) ==>
                nextCalled && ctx.body == old(ctx.body) && partials == old(partials)
      ensures Validate(old(ctx.Request()), opts.templateExt) ==>
                var pl := Prepare(ctx.path, opts, env);
                var r := Settled(pl, env.merge(map[], ctx.state, locals), opts, partials);
                && partials == old(PartialsAfter(pl))
                && (r.Html? ==> nextCalled && ctx.body == Some(r.html))
                && (r.Failed? ==> !nextCalled && ctx.body == old(ctx.body))
    {
      if !Validate(ctx.Request(), opts.templateExt) {
        return true;
      }
      var r := Render(ctx, ctx.path, None, opts, env);
      if r.Html? {
        ctx.body := Some(r.html);
        nextCalled := true;
      } else {
        nextCalled := false;
      }
    }
  }
}
