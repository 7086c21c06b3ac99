/** The stateful side of bin/command.js: the `version` getter/setter, the
    listeners it registers, and the error hooks that print to standard error
    and end the process. Printing and exiting are not performed: a hook
    returns an `Outcome` saying what would be written and with which code the
    process would end. */
module CliCommand {
  import opened Text
  import opened Colours
  import opened Maybe
  import opened CliHelp

  /** What a hook leaves behind: either control returns to the caller, or
      the process ends with `code` after writing `stdout` and `stderr`. */
  datatype Outcome = Continue | Exit(code: int, stdout: string, stderr: string)

  /** A handler registered with `on(event, …)`, described by what it does. */
  datatype Listener = Listener(event: string, action: Outcome)

  /** JavaScript truthiness of an optional string argument. */
  predicate Given(s: Option<string>)
  {
    s.Some? && s.value != ""
  }

  // ---------------------------------------------------------------------
  // Error reports

  /** The three `console.error` calls of a hook: an empty line, the message
      in bold red after `  error: `, an empty line. The `%s` placeholders are
      filled in before colouring ends, so the arguments sit inside the codes. */
  function ErrorText(message: string, p: Palette): (r: string)
    ensures p == Plain ==> r == "\n  error: " + message + "\n\n"
    ensures |r| > |message| + 11
  {
    "\n" + Paint(p.red, Paint(p.bold, "  error: " + message)) + "\n" + "\n"
  }

  /** Whatever stands around an argument in the message, the report shows it. */
  lemma ReportShows(pre: string, arg: string, post: string, p: Palette)
    ensures Contains(ErrorText(pre + arg + post, p), arg)
  {
    var inner := "  error: " + pre + arg + post;
    assert "  error: " + (pre + arg + post) == inner;
    assert Paint(p.bold, inner) == p.bold.open + inner + p.bold.close;
    assert Paint(p.red, Paint(p.bold, inner)) == p.red.open + (p.bold.open + inner + p.bold.close) + p.red.close;
    var before := "\n" + p.red.open + p.bold.open + "  error: " + pre;
    var after := post + p.bold.close + p.red.close + "\n" + "\n";
    assert ErrorText(pre + arg + post, p) == before + arg + after;
    ContainsInfix(before, arg, after);
  }

  /** A hook that reports `message` and ends the process with code 1. */
  function Fail(message: string, p: Palette): (o: Outcome)
    ensures o.Exit? && o.code == 1 && o.stdout == ""
    ensures |o.stderr| > |message|
  {
    Exit(1, "", ErrorText(message, p))
  }

  /** `missingArgument(name)`: always ends the process with code 1, naming
      the argument between a backquote and a quote. */
  function MissingArgument(name: string, p: Palette): (o: Outcome)
    ensures o.Exit? && o.code == 1 && o.stdout == ""
    ensures Contains(o.stderr, "`" + name + "'")
  {
    ReportShows("missing required argument ", "`" + name + "'", "", p);
    assert "missing required argument " + ("`" + name + "'") + "" == "missing required argument `" + name + "'";
    Fail("missing required argument `" + name + "'", p)
  }

  /** The message of `optionMissingArgument`: the `, got …` part appears
      exactly when a (truthy) flag is given. */
  function OptionMissingMessage(flags: string, flag: Option<string>): (m: string)
    ensures StartsWith(m, "option `" + flags + "' argument missing")
    ensures m == "option `" + flags + "' argument missing" <==> !Given(flag)
    ensures Given(flag) ==> m[|"option `" + flags + "' argument missing"|..] == ", got `" + flag.value + "'"
  {
    var base := "option `" + flags + "' argument missing";
    if Given(flag) then
      assert (base + ", got `" + flag.value + "'")[..|base|] == base;
      base + ", got `" + flag.value + "'"
    else base
  }

  /** `optionMissingArgument(option, flag)`: always ends the process with
      code 1; the report names the option's flags, and the flag that was
      seen when one is given. */
  function OptionMissingArgument(flags: string, flag: Option<string>, p: Palette): (o: Outcome)
    ensures o.Exit? && o.code == 1 && o.stdout == ""
    ensures Contains(o.stderr, "`" + flags + "'")
    ensures Given(flag) ==> Contains(o.stderr, ", got `" + flag.value + "'")
  {
    OptionMissingShows(flags, flag, p);
    Fail(OptionMissingMessage(flags, flag), p)
  }

  lemma OptionMissingShows(flags: string, flag: Option<string>, p: Palette)
    ensures Contains(ErrorText(OptionMissingMessage(flags, flag), p), "`" + flags + "'")
    ensures Given(flag) ==> Contains(ErrorText(OptionMissingMessage(flags, flag), p), ", got `" + flag.value + "'")
  {
    var m := OptionMissingMessage(flags, flag);
    var rest := m[|"option `" + flags + "'"|..];
    assert m == "option " + ("`" + flags + "'") + rest;
    ReportShows("option ", "`" + flags + "'", rest, p);
    if Given(flag) {
      var base := "option `" + flags + "' argument missing";
      assert m == base + (", got `" + flag.value + "'") + "";
      ReportShows(base, ", got `" + flag.value + "'", "", p);
    }
  }

  /** With and without a seen flag the two reports differ, and a missing
      flag reads the same as an empty one. */
  lemma {:induction false} OptionMissingGot(flags: string, flag: string, p: Palette)
    ensures OptionMissingArgument(flags, Some(flag), p) == OptionMissingArgument(flags, None, p) <==> flag == ""
  {
    var base := "option `" + flags + "' argument missing";
    if flag != "" {
      var m := OptionMissingMessage(flags, Some(flag));
      assert |m| > |base|;
      assert |ErrorText(m, p)| == |m| + |ErrorText(base, p)| - |base|;
    }
  }

  /** `variadicArgNotLast(name)`: always ends the process with code 1,
      naming the argument. */
  function VariadicArgNotLast(name: string, p: Palette): (o: Outcome)
    ensures o.Exit? && o.code == 1 && o.stdout == ""
    ensures Contains(o.stderr, "`" + name + "'")
  {
    ReportShows("variadic arguments must be last ", "`" + name + "'", "", p);
    assert "variadic arguments must be last " + ("`" + name + "'") + "" == "variadic arguments must be last `" + name + "'";
    Fail("variadic arguments must be last `" + name + "'", p)
  }

  // ---------------------------------------------------------------------
  // Listeners

  /** Emitting `event`: listeners run in registration order and the first
      one that ends the process decides the outcome. */
  function Fire(ls: seq<Listener>, event: string): (o: Outcome)
    ensures o != Continue ==> exists i :: 0 <= i < |ls| && ls[i].event == event && ls[i].action == o
    ensures (forall i :: 0 <= i < |ls| ==> ls[i].event != event) ==> o == Continue
  {
    if |ls| == 0 then Continue
    else if ls[0].event == event && ls[0].action != Continue then ls[0].action
    else Fire(ls[1..], event)
  }

  /** A listener added last only decides an event nobody before it ended. */
  lemma {:induction false} FireAppend(ls: seq<Listener>, l: Listener, event: string)
    ensures Fire(ls + [l], event)
         == if Fire(ls, event) != Continue then Fire(ls, event)
            else if l.event == event then l.action
            else Continue
  {
    if |ls| == 0 {
      assert ls + [l] == [l];
    } else {
      assert (ls + [l])[1..] == ls[1..] + [l];
      FireAppend(ls[1..], l, event);
    }
  }

  // ---------------------------------------------------------------------
  // Version

  /** The flags the version option is registered under: the given ones, or
      `-v, --version` when none (or an empty string) is given. */
  function VersionFlags(flags: Option<string>): (r: string)
    ensures r != ""
    ensures Given(flags) ==> r == flags.value
    ensures !Given(flags) ==> r == "-v, --version"
  {
    if Given(flags) then flags.value else "-v, --version"
  }

  /** What the version listener does: print the version in green after two
      spaces, then end the process with code 0. */
  function VersionAction(str: string, p: Palette): (o: Outcome)
    ensures o.Exit? && o.code == 0 && o.stderr == ""
    ensures Contains(o.stdout, str)
    ensures p == Plain ==> o.stdout == "  " + str + "\n"
  {
    if str == "" then
      assert ("  " + Paint(p.green, str) + "\n")[..0] == "";
      Exit(0, "  " + Paint(p.green, str) + "\n", "")
    else
      assert "  " + Paint(p.green, str) + "\n" == ("  " + p.green.open) + str + (p.green.close + "\n");
      ContainsInfix("  " + p.green.open, str, p.green.close + "\n");
      Exit(0, "  " + Paint(p.green, str) + "\n", "")
  }

  /** The parser object: the state that `version` and `unknownOption` read
      and write. What the help screen reads of it is `CliHelp.HelpView`. */
  class Command {
    var options: seq<CliOption>
    var allowUnknownOption: bool
    var version: Option<string>
    var listeners: seq<Listener>

    constructor ()
      ensures options == [] && listeners == []
      ensures !allowUnknownOption && version == None
    {
      options := [];
      allowUnknownOption := false;
      version := None;
      listeners := [];
    }

    /** `version()` with no argument: `undefined` until a version is set,
        then the version stored last. */
    function VersionValue(): (v: Option<string>)
      reads this
      ensures v.Some? <==> version.Some?
      ensures version.Some? ==> v.value == version.value
    {
      version
    }

    /** `version(str, flags)`: stores `str`, registers the version option
        and the listener that prints it, and returns the receiver. */
    method SetVersion(str: string, flags: Option<string>, p: Palette) returns (self: Command)
      modifies this`version, this`options, this`listeners
      ensures self == this
      ensures VersionValue() == Some(str)
      ensures options == old(options) + [CliOption(VersionFlags(flags), "output the version number")]
      ensures listeners == old(listeners) + [Listener("version", VersionAction(str, p))]
      ensures old(Fire(listeners, "version")) == Continue ==> Fire(listeners, "version") == VersionAction(str, p)
    {
      version := Some(str);
      options := options + [CliOption(VersionFlags(flags), "output the version number")];
      FireAppend(listeners, Listener("version", VersionAction(str, p)), "version");
      listeners := listeners + [Listener("version", VersionAction(str, p))];
      self := this;
    }

    /** `unknownOption(flag)`: nothing happens when unknown options are
        allowed; otherwise the process ends with code 1 naming the flag. */
    function UnknownOption(flag: string, p: Palette): (o: Outcome)
      reads this
      ensures o == Continue <==> allowUnknownOption
      ensures !allowUnknownOption ==> o.Exit? && o.code == 1 && o.stdout == ""
      ensures !allowUnknownOption ==> Contains(o.stderr, "`" + flag + "'")
    {
      if allowUnknownOption then Continue
      else
        ReportShows("unknown option ", "`" + flag + "'", "", p);
        assert "unknown option " + ("`" + flag + "'") + "" == "unknown option `" + flag + "'";
        Fail("unknown option `" + flag + "'", p)
    }
  }

  /** Once the version is set, the options table ends with its row. */
  lemma VersionRowLast(options: seq<CliOption>, flags: Option<string>, width: int, p: Palette)
    ensures var rows := OptionRows(options + [CliOption(VersionFlags(flags), "output the version number")], width, p);
            |rows| == |options| + 2 &&
            rows[|options| + 1] == Paint(p.green, Pad(VersionFlags(flags), width)) + "  " + Paint(p.grey, "output the version number")
  {
  }
}
