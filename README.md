# sugar-cli: help formatting and template middleware, in Dafny

This project models two pieces of sugar-cli.

The first is the command-line front end, `bin/command.js`. It overrides parts of commander's `Command.prototype`:
- argument names are written as `<name>`, `[name]` or `<name...>`;
- columns are padded with spaces;
- the commands table and the options table are built;
- the help screen is assembled;
- `version` is a getter and setter on the program object;
- the error hooks print a red report and end the process.

The second is the koa middleware `server/template/koa-middleware.js`. It decides which requests it serves. It resolves a URL to a template file and a project configuration, and registers a preview partial for component URLs. It then renders and sets the response body, or passes the request on.

Modules:
- `Text` (text.dfy): string helpers. `Spaces`, `Join`, `Indent`, `StartsWith` and `Slice` model the JavaScript calls the code makes: `Array(n + 1).join(' ')`, `join`, `replace(/^/gm, pre)`, `startsWith` and `slice`. `Lines` (splitting at newlines), `EndsWith` and `Contains` are specification helpers, used only to state properties of the results.
- `Colours` (colours.dfy): a colour wraps non-empty text in an opening and a closing code, and leaves the empty string unchanged. The palette is a parameter; with colours off every code is empty.
- `CliHelp` (cli_help.dfy): the pure help-text functions.
- `CliCommand` (cli_command.dfy): the program object as a class. It holds the version, the registered options and the listeners. The error hooks return an `Outcome` (continue, or exit with a code and the text written to each stream) instead of printing and exiting.
- `Template` (template.dfy): `path.extname`, `validate` and the URL resolution, as functions. `path.join`, `getProjectDir` and `merge` are given as function values.
- `TemplateMiddleware` (template_middleware.dfy) has two classes. The template engine is a class with a partial registry, an opaque configuration fetch and an opaque renderer. The request context is a class whose body is set. The render function and `renderView` are methods proved against `Template.Prepare`.
- `Maybe` (maybe.dfy): the option type.

## Model

| member | source | states |
|---|---|---|
| `CliHelp.HumanReadableArgName` | bin/command.js:5-8 | Brackets are `<…>` exactly when required, `[…]` otherwise; inside is the name, followed by `...` exactly when variadic; the length is the name's plus 2 or 5 |
| `CliHelp.ArgNameRoundTrip` | bin/command.js:5-8 | Reading the bracketed form back gives the argument again, whenever the name does not itself end in `...` |
| `CliHelp.ArgNameFromParse` | bin/command.js:5-8 | Every string that reads back as an argument is exactly that argument's bracketed form |
| `CliHelp.Pad` | bin/command.js:10-13 | The result has length max(\|str\|, width), starts with `str`, is spaces after it, and is `str` itself when width ≤ \|str\| |
| `CliHelp.PadIdempotent` | bin/command.js:10-13 | Padding twice to one width equals padding once |
| `CliHelp.Visible` | bin/command.js:73-75 | The filtered list is no longer than the registered one and holds no command marked hidden |
| `CliHelp.VisibleMembers` | bin/command.js:73-75 | A command is listed iff it is registered and not hidden |
| `CliHelp.VisibleAppend` | bin/command.js:73-75 | Filtering distributes over concatenation, so registration order is kept |
| `CliHelp.ArgNames` | bin/command.js:76-78 | One bracketed name per declared argument, in declaration order |
| `CliHelp.LeftColumn` | bin/command.js:76-81 | The left column starts with the command's name, is longer than it, and continues with `\|` when an alias is set and with a space otherwise |
| `CliHelp.LeftColumnShape` | bin/command.js:76-81 | With an alias the column starts with `name\|alias`. After the name and alias part comes ` [options] ` and the argument names when the command has options, and a single space and the argument names when it has none |
| `CliHelp.CommandRows` | bin/command.js:73-84 | One row per visible command, in order: the green left column and the grey description, which is the word `undefined` for a command whose description was never set |
| `CliHelp.Widest` | bin/command.js:86-88 | The width is at least the start value and at least every row's coloured left-column length |
| `CliHelp.WidestAttained` | bin/command.js:86-88 | The width is the start value or the length of some row's left column |
| `CliHelp.CommandHelp` | bin/command.js:70-96 | The commands block is empty iff no command is registered |
| `CliHelp.CommandTableAligned` | bin/command.js:86-94 | Each table line is its left column padded to the common width (the widest left column), then two spaces and the description only when the description is non-empty |
| `CliHelp.CommandDescriptionColumn` | bin/command.js:82-93 | After the padded left column a line holds nothing when the description is set to the empty string. It holds two spaces and the grey description when the description is non-empty, and two spaces and the grey word `undefined` when it was never set |
| `CliHelp.CommandColumnsUniform` | bin/command.js:86-94 | Every row gets the same colour codes, so the uncoloured left columns also end at one common column, that of the widest one |
| `CliHelp.CommandHelpLines` | bin/command.js:90-95 | With a visible command and no line breaks in the data, the block's lines are a blank line, the heading, a blank line, each table line indented by four spaces, and a blank line |
| `CliHelp.CommandHelpAllHidden` | bin/command.js:70-95 | When every registered command is hidden the block still prints the heading, with one line holding only the four-space indent |
| `CliHelp.OptionRows` | bin/command.js:98-106 | There are \|options\| + 1 rows: the `-h, --help` row first, then one row per option in registration order, each padded to the same width |
| `CliHelp.OptionHelp` | bin/command.js:98-107 | The options block starts with the `-h, --help` row. It is only that row when no option is registered, and otherwise ends with a newline and the last registered option's row |
| `CliHelp.OptionHelpLines` | bin/command.js:98-107 | Without line breaks in the data, splitting the options block gives back exactly those rows, one more than there are options |
| `CliHelp.OptionColumnsAligned` | bin/command.js:99-105 | When the width covers every flag string, including `-h, --help`, every row has the two-space gap at one common column |
| `CliHelp.UsageName` | bin/command.js:117-120 | The usage name is the name, followed by `\|alias` exactly when an alias is set |
| `CliHelp.HelpInformation` | bin/command.js:109-138 | The screen is the usage block, then the commands block only when commands exist, then the description block only when a description is set, then the options block |
| `CliHelp.HelpOptionsIndented` | bin/command.js:129-131 | Each line of the options block body is an options row indented by four spaces |
| `Text.IndentJoin` | bin/command.js:94 | Applying `replace(/^/gm, pre)` to lines joined by newlines prefixes every line with `pre` |
| `CliCommand.MissingArgument` | bin/command.js:15-23 | Always exits with code 1, writes nothing to stdout, and the report names the argument in backquote and quote |
| `CliCommand.Command.VersionValue` | bin/command.js:26 | The getter gives nothing (`undefined`) while no version is set, as after construction, and otherwise the version stored last; `SetVersion` ensures it then gives the new one |
| `CliCommand.Command.SetVersion` | bin/command.js:25-35 | Stores the version so that the getter returns it. Appends the option with the given flags, or `-v, --version` when none is given. Appends the `version` listener. Returns the receiver. When no earlier listener ends the process, emitting `version` prints the version and exits 0 |
| `CliCommand.VersionFlags` | bin/command.js:28 | A truthy flags string is used as given; a missing or empty one falls back to `-v, --version` |
| `CliCommand.VersionAction` | bin/command.js:30-33 | The version listener exits 0, writes nothing to stderr, and its stdout shows the version (exactly two spaces, the version and a newline without colours) |
| `CliCommand.Fire` | bin/command.js:30 | Emitting an event yields the action of a registered listener for it, or nothing when no listener for it exists |
| `CliCommand.FireAppend` | bin/command.js:30 | A listener added last only decides an event that no earlier listener ended |
| `CliCommand.VersionRowLast` | bin/command.js:29 | After the version option is registered, the options table has one more row, and its last row is the version flags and description |
| `CliCommand.OptionMissingMessage` | bin/command.js:39-50 | The message starts with ``option `flags' argument missing``. It equals that prefix iff no truthy flag is given; otherwise the rest is ``, got `flag'`` |
| `CliCommand.OptionMissingArgument` | bin/command.js:37-53 | Always exits with code 1 and nothing on stdout. The report names the option's flags, and also names the seen flag when one is given |
| `CliCommand.OptionMissingGot` | bin/command.js:39-50 | The reports with and without a seen flag are equal iff that flag is empty |
| `CliCommand.Command.UnknownOption` | bin/command.js:55-61 | Returns with no effect iff unknown options are allowed; otherwise exits with code 1 and nothing on stdout, and the report names the flag |
| `CliCommand.VariadicArgNotLast` | bin/command.js:63-68 | Always exits with code 1 and nothing on stdout, and the report names the argument |
| `Template.Extname` | server/template/koa-middleware.js:64 | The extension is empty, or a dot followed by characters that are neither dots nor slashes; it is a proper suffix of the path's last segment |
| `Template.ExtnameOfAppend` | server/template/koa-middleware.js:64 | A file name followed by an extension has exactly that extension |
| `Template.ExtnameDotFile` | server/template/koa-middleware.js:64 | A segment whose only dot is its first character has no extension |
| `Template.ExtnameNoDot` | server/template/koa-middleware.js:64 | A last segment without a dot has no extension |
| `Template.Validate` | server/template/koa-middleware.js:61-67 | True iff the method is GET or HEAD, no body is set, the status is 404, HTML is accepted, and the extension is empty or the template extension |
| `Template.ValidateTemplateFile` | server/template/koa-middleware.js:64-66 | An unanswered GET/HEAD for a file with the template extension is served |
| `Template.ValidateOtherFile` | server/template/koa-middleware.js:65 | A path with any other extension is never served |
| `Template.ValidateDotFile` | server/template/koa-middleware.js:64-66 | A dot-file path counts as extension-less and is served |
| `Template.StripComponent` | server/template/koa-middleware.js:20-24 | The component flag is set iff the URL starts with `/components/`. In that case `/components` followed by the result is the URL, so the result starts with `/`. Otherwise the URL is unchanged |
| `Template.ConfigOf` | server/template/koa-middleware.js:31-35 | When `fetchData` returns no promise the renderer gets `{}`. When the promise resolves the renderer gets its value, which may be nothing (`undefined` or `null`). Only a rejected promise stops rendering |
| `Template.Prepare` | server/template/koa-middleware.js:19-49 | The project directory comes from the stripped URL. The config path joins root, project directory and config file name. The target is the component viewer under the project directory for a component. Otherwise it is `join(root, url, 'index.html')` when the URL has no extension, and `join(root, url, '')` when it has one |
| `Template.TargetOfTemplateFile` | server/template/koa-middleware.js:48 | A URL naming a template file is joined with an empty last part |
| `Template.TargetOfPage` | server/template/koa-middleware.js:48 | A URL whose last segment has no dot, such as `/docs/intro`, is served from `join(root, url, 'index.html')` |
| `Template.TargetOfDirectory` | server/template/koa-middleware.js:48 | A directory URL with a dot-free last segment is served from its `index.html` |
| `Template.PartialNameOf` | server/template/koa-middleware.js:45 | For `/<projectDir>/<name>` the included partial name is `name` |
| `Template.PartialBodyLines` | server/template/koa-middleware.js:41-46 | The partial body splits into six lines: blank, `---`, `layout: false`, `---`, the include, and the closing indent |
| `Template.ComponentPreview` | server/template/koa-middleware.js:20-46 | `/components/<projectDir>/<name>` is a component preview. Its target is that project's viewer file, and its partial includes `name` |
| `TemplateMiddleware.Renderer.RegisterPartial` | server/template/koa-middleware.js:41-46 | Later lookups of the name give the registered body |
| `TemplateMiddleware.Renderer.PartialsAfter` | server/template/koa-middleware.js:38-49 | Preparing a component registers its partial under the target path; other requests leave the registry as it was |
| `TemplateMiddleware.Renderer.Settled` | server/template/koa-middleware.js:31-35 | A rejected configuration fails without rendering. Otherwise the renderer gets the target, the project directory, the merged locals and the configuration: `{}` when `fetchData` returned no promise, else what the promise resolved to, possibly nothing |
| `TemplateMiddleware.Renderer.Render` | server/template/koa-middleware.js:12-55 | The render function's registry and result are those of `Prepare`, `PartialsAfter` and `Settled` for the URL and the merged locals |
| `TemplateMiddleware.Renderer.RenderView` | server/template/koa-middleware.js:72-82 | An ineligible request calls `next` and changes neither the body nor the registry. A rendered one gets the HTML as body and calls `next`. A failed one keeps its body and does not call `next` |

## Left out

- Colours are a palette parameter, not the ANSI codes of `colors/safe`. The model keeps that package's rule that the empty string stays empty.
- Lengths are counted in Unicode characters, not in JavaScript's UTF-16 code units. Text outside the Basic Multilingual Plane would pad differently.
- Commander internals are not part of this model. `usage()` and `largestOptionLength()` are inputs. `option()` is modelled as appending the flags and description; the `option:` listener it registers and flag parsing are left out.
- `console.error`, `process.stdout.write` and `process.exit` are not performed. Each hook returns an `Outcome` instead. `%s` substitution is modelled for string arguments only.
- A sub-command's description that was never set is modelled as `None`, and it prints as `undefined`, as `colors.grey(undefined)` does. The program's own description, aliases and flags that are absent (`undefined`) are modelled as the empty string. The source only tests them for truthiness, and `undefined` and the empty string both fail that test.
- CliCommand.MissingArgument: states the exit code, the empty stdout and that the report names the argument. The exact coloured report is stated only through `ErrorText`.
- CliCommand.VariadicArgNotLast: weaker in the same way as `MissingArgument`.
- CliCommand.Command.UnknownOption: weaker in the same way as `MissingArgument`.
- CliCommand.OptionMissingArgument: weaker in the same way; its message is stated in full by `OptionMissingMessage`.
- `path.join`, `getProjectDir` and `merge` are function values with no properties assumed. Where `merge` writes into the caller's locals object, the model takes its result as the new locals. No caller of the render function in this file sees that object.
- `path.extname` follows Node's POSIX rule only; Windows paths are not modelled.
- `fetchData` and `renderTemplate` belong to the sugar-server engine, which is not part of this model. They are functions of the path and the extension list, and of the render call and the registered partials. Their promises appear as their settled results.
- TemplateMiddleware.Renderer.Render: the partial registry belongs to the one template engine that serves every request. Its key for a component preview is the project's viewer file, whatever the component's name. Rendering waits for the configuration promise. The model assumes no other request registers a partial between the registration and the render call. Without that assumption, of two overlapping previews in one project, the earlier can be rendered with the later one's partial.
- Promise sequencing, the `debug` logging and the error printed by `console.error` in `renderView` are left out. A rejection of the `next()` promise itself, which the same `catch` swallows, is not modelled.
- koa's side effects of setting `ctx.body` (status and content type) and `ctx.accepts` content negotiation are left out; acceptance of HTML is a boolean.
