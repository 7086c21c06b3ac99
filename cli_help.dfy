/** The help-text overrides of bin/command.js: argument names, padding, the
    commands table, the options table and the assembled help screen. They
    read a command's registered data and build strings; nothing is changed. */
module CliHelp {
  import opened Text
  import opened Colours
  import opened Maybe

  /** A declared positional argument. */
  datatype Arg = Arg(name: string, required: bool, variadic: bool)

  /** A registered option: its flag string and its description. */
  datatype CliOption = CliOption(flags: string, description: string)

  /** What the commands table reads of a registered sub-command. An empty
      `alias` is an absent one; `description` is `None` when it was never
      set; `noHelp` hides the command from the table. */
  datatype SubCommand = SubCommand(
    name: string,
    alias: string,
    options: seq<CliOption>,
    args: seq<Arg>,
    description: Option<string>,
    noHelp: bool)

  /** The text `colors.grey` receives for a sub-command's description: a
      description never set is `undefined`, which prints as that word. */
  function DescriptionText(d: Option<string>): (r: string)
    ensures d.None? ==> r == "undefined"
    ensures d.Some? ==> r == d.value
  {
    if d.Some? then d.value else "undefined"
  }

  /** A table row before padding: left column and description, both coloured. */
  datatype Row = Row(left: string, desc: string)

  function Max(a: int, b: int): (m: int)
    ensures m >= a && m >= b && (m == a || m == b)
  {
    if a >= b then a else b
  }

  // ---------------------------------------------------------------------
  // Argument names

  /** `<name>` for a required argument, `[name]` for an optional one, with
      `...` inside the brackets for a variadic one. */
  function HumanReadableArgName(arg: Arg): (r: string)
    ensures |r| == |arg.name| + (if arg.variadic then 5 else 2)
    ensures r[0] == (if arg.required then '<' else '[')
    ensures r[|r| - 1] == (if arg.required then '>' else ']')
    ensures r[1..|r| - 1] == arg.name + (if arg.variadic then "..." else "")
  {
    var nameOutput := arg.name + (if arg.variadic then "..." else "");
    if arg.required then "<" + nameOutput + ">" else "[" + nameOutput + "]"
  }

  /** Reads an argument back from its bracketed form. */
  function ParseArgName(s: string): Option<Arg>
  {
    if |s| < 2 then None
    else if !((s[0] == '<' && s[|s| - 1] == '>') || (s[0] == '[' && s[|s| - 1] == ']')) then None
    else
      var inner := s[1..|s| - 1];
      if EndsWith(inner, "...") then Some(Arg(inner[..|inner| - 3], s[0] == '<', true))
      else Some(Arg(inner, s[0] == '<', false))
  }

  /** The bracketed form determines the argument, unless its name itself ends
      in `...`, which would read as the variadic marker. */
  lemma ArgNameRoundTrip(arg: Arg)
    requires !EndsWith(arg.name, "...")
    ensures ParseArgName(HumanReadableArgName(arg)) == Some(arg)
  {
    var s := HumanReadableArgName(arg);
    var inner := s[1..|s| - 1];
    if arg.variadic {
      assert inner == arg.name + "...";
      assert inner[|inner| - 3..] == "...";
      assert inner[..|inner| - 3] == arg.name;
    } else {
      assert inner == arg.name;
    }
  }

  /** Every well-bracketed string is the help form of what it reads back as. */
  lemma ArgNameFromParse(s: string, arg: Arg)
    requires ParseArgName(s) == Some(arg)
    ensures HumanReadableArgName(arg) == s
  {
    var inner := s[1..|s| - 1];
    if EndsWith(inner, "...") {
      assert inner == inner[..|inner| - 3] + "...";
    }
    assert s == [s[0]] + inner + [s[|s| - 1]];
  }

  /** The help form of each argument, in declaration order. */
  function ArgNames(args: seq<Arg>): (names: seq<string>)
    ensures |names| == |args|
    ensures forall i :: 0 <= i < |args| ==> names[i] == HumanReadableArgName(args[i])
  {
    seq(|args|, i requires 0 <= i < |args| => HumanReadableArgName(args[i]))
  }

  /** The argument names joined by single spaces. */
  function ArgsText(args: seq<Arg>): string
  {
    Join(ArgNames(args), " ")
  }

  // ---------------------------------------------------------------------
  // Padding

  /** `str` followed by spaces up to `width`; unchanged when already as wide. */
  function Pad(str: string, width: int): (r: string)
    ensures |r| == Max(|str|, width)
    ensures r[..|str|] == str
    ensures forall i :: |str| <= i < |r| ==> r[i] == ' '
    ensures width <= |str| ==> r == str
  {
    str + Spaces(Max(0, width - |str|))
  }

  /** Padding twice to one width is padding once. */
  lemma PadIdempotent(str: string, width: int)
    ensures Pad(Pad(str, width), width) == Pad(str, width)
  {
  }

  // ---------------------------------------------------------------------
  // The commands table

  /** `|alias` when an alias is set. */
  function AliasPart(alias: string): string
  {
    if alias != "" then "|" + alias else ""
  }

  /** ` [options]` when the command has options. */
  function OptionsPart(options: seq<CliOption>): string
  {
    if |options| > 0 then " [options]" else ""
  }

  /** Left column of a command's row: its name, `|alias` when it has an alias,
      ` [options]` when it has options, then a space and its argument names. */
  function LeftColumn(c: SubCommand): (r: string)
    ensures |r| > |c.name|
    ensures StartsWith(r, c.name)
    ensures r[|c.name|] == (if c.alias != "" then '|' else ' ')
  {
    c.name + AliasPart(c.alias) + OptionsPart(c.options) + " " + ArgsText(c.args)
  }

  /** The alias follows the name behind a bar, and the argument names close
      the column behind a single space. */
  lemma LeftColumnShape(c: SubCommand)
    ensures c.alias != "" ==> StartsWith(LeftColumn(c), c.name + "|" + c.alias)
    ensures |c.options| > 0 ==> LeftColumn(c)[|c.name + AliasPart(c.alias)|..] == " [options] " + ArgsText(c.args)
    ensures |c.options| == 0 ==> LeftColumn(c)[|c.name + AliasPart(c.alias)|..] == " " + ArgsText(c.args)
    ensures EndsWith(LeftColumn(c), " " + ArgsText(c.args))
  {
    ConcatShape(c.name, AliasPart(c.alias), OptionsPart(c.options), ArgsText(c.args));
    OptionsPartShape(c.options, ArgsText(c.args));
  }

  lemma OptionsPartShape(options: seq<CliOption>, args: string)
    ensures |options| > 0 ==> OptionsPart(options) + " " + args == " [options] " + args
    ensures |options| == 0 ==> OptionsPart(options) + " " + args == " " + args
  {
  }

  lemma ConcatShape(name: string, aliasPart: string, optionsPart: string, args: string)
    ensures StartsWith(name + aliasPart + optionsPart + " " + args, name + aliasPart)
    ensures (name + aliasPart + optionsPart + " " + args)[|name + aliasPart|..] == optionsPart + " " + args
    ensures EndsWith(name + aliasPart + optionsPart + " " + args, " " + args)
  {
    var r := name + aliasPart + optionsPart + " " + args;
    assert r == (name + aliasPart) + (optionsPart + " " + args);
    assert r == (name + aliasPart + optionsPart) + (" " + args);
  }

  /** The commands that are not hidden, in registration order. */
  function Visible(cmds: seq<SubCommand>): (r: seq<SubCommand>)
    ensures |r| <= |cmds|
    ensures forall i :: 0 <= i < |r| ==> !r[i].noHelp
  {
    if |cmds| == 0 then []
    else if cmds[0].noHelp then Visible(cmds[1..])
    else [cmds[0]] + Visible(cmds[1..])
  }

  /** The table lists exactly the registered commands not marked hidden. */
  lemma {:induction false} VisibleMembers(cmds: seq<SubCommand>)
    ensures forall c :: c in Visible(cmds) <==> c in cmds && !c.noHelp
  {
    if |cmds| > 0 {
      VisibleMembers(cmds[1..]);
      assert forall c :: c in cmds <==> c == cmds[0] || c in cmds[1..];
    }
  }

  /** Filtering keeps the relative order: it distributes over concatenation. */
  lemma {:induction false} VisibleAppend(a: seq<SubCommand>, b: seq<SubCommand>)
    ensures Visible(a + b) == Visible(a) + Visible(b)
  {
    if |a| > 0 {
      var ab := a + b;
      assert ab[0] == a[0];
      assert ab[1..] == a[1..] + b;
      VisibleAppend(a[1..], b);
      if a[0].noHelp {
        assert Visible(ab) == Visible(a[1..]) + Visible(b);
      } else {
        assert Visible(ab) == [a[0]] + (Visible(a[1..]) + Visible(b));
        assert Visible(a) == [a[0]] + Visible(a[1..]);
      }
    } else {
      assert a + b == b;
    }
  }

  /** The coloured rows of the table, one per visible command. */
  function CommandRows(cmds: seq<SubCommand>, p: Palette): (rows: seq<Row>)
    ensures |rows| == |Visible(cmds)|
    ensures forall i :: 0 <= i < |rows| ==>
              rows[i] == Row(Paint(p.green, LeftColumn(Visible(cmds)[i])), Paint(p.grey, DescriptionText(Visible(cmds)[i].description)))
  {
    var v := Visible(cmds);
    seq(|v|, i requires 0 <= i < |v| =>
      Row(Paint(p.green, LeftColumn(v[i])), Paint(p.grey, DescriptionText(v[i].description))))
  }

  /** `rows.reduce((max, row) => Math.max(max, row.left.length), acc)`. */
  function Widest(rows: seq<Row>, acc: int): (w: int)
    ensures w >= acc
    ensures forall i :: 0 <= i < |rows| ==> |rows[i].left| <= w
    decreases |rows|
  {
    if |rows| == 0 then acc
    else Widest(rows[1..], Max(acc, |rows[0].left|))
  }

  /** The width is attained: it is the start value or some row's width. */
  lemma {:induction false} WidestAttained(rows: seq<Row>, acc: int)
    ensures var w := Widest(rows, acc);
            w == acc || exists i :: 0 <= i < |rows| && w == |rows[i].left|
    decreases |rows|
  {
    if |rows| > 0 {
      var acc' := Max(acc, |rows[0].left|);
      WidestAttained(rows[1..], acc');
      var w := Widest(rows[1..], acc');
      if w != acc' {
        var j :| 0 <= j < |rows[1..]| && w == |rows[1..][j].left|;
        assert rows[1..][j] == rows[j + 1];
      }
    }
  }

  /** A row: the left column padded to `width`, then two spaces and the
      description when there is one. */
  function FormatRow(row: Row, width: int): string
  {
    Pad(row.left, width) + (if row.desc != "" then "  " + row.desc else "")
  }

  /** The table's lines before indentation. */
  function CommandTable(cmds: seq<SubCommand>, p: Palette): (t: seq<string>)
    ensures |t| == |Visible(cmds)|
  {
    var rows := CommandRows(cmds, p);
    var width := Widest(rows, 0);
    seq(|rows|, i requires 0 <= i < |rows| => FormatRow(rows[i], width))
  }

  /** The commands block: empty when no command is registered. */
  function CommandHelp(cmds: seq<SubCommand>, p: Palette): (r: string)
    ensures r == "" <==> |cmds| == 0
  {
    if |cmds| == 0 then ""
    else
      var parts := ["", Paint(p.green, "  Commands:"), "", Indent(Join(CommandTable(cmds, p), "\n"), "    "), ""];
      JoinFiveAtLeast(parts, "\n");
      Join(parts, "\n")
  }

  lemma JoinFiveAtLeast(parts: seq<string>, sep: string)
    requires |parts| == 5 && |sep| == 1
    ensures |Join(parts, sep)| >= 4
  {
    assert parts == [parts[0], parts[1], parts[2], parts[3], parts[4]];
    JoinUnfoldFive(parts[0], parts[1], parts[2], parts[3], parts[4], sep);
  }

  /** Every row is the coloured left column padded to one common width, which
      is that of the widest coloured left column, followed by two spaces and
      the description when there is one. */
  lemma CommandTableAligned(cmds: seq<SubCommand>, p: Palette)
    ensures var rows := CommandRows(cmds, p);
            var w := Widest(rows, 0);
            var t := CommandTable(cmds, p);
            && (forall i :: 0 <= i < |rows| ==> |rows[i].left| <= w)
            && (|rows| > 0 ==> exists i :: 0 <= i < |rows| && w == |rows[i].left|)
            && (forall i :: 0 <= i < |t| ==>
                  && |t[i]| >= w
                  && t[i][..w] == Pad(rows[i].left, w)
                  && t[i][w..] == (if rows[i].desc != "" then "  " + rows[i].desc else ""))
  {
    var rows := CommandRows(cmds, p);
    var w := Widest(rows, 0);
    var t := CommandTable(cmds, p);
    WidestAttained(rows, 0);
    forall i | 0 <= i < |t|
      ensures |t[i]| >= w && t[i][..w] == Pad(rows[i].left, w)
      ensures t[i][w..] == (if rows[i].desc != "" then "  " + rows[i].desc else "")
    {
      RowSplit(rows[i], w);
    }
  }

  /** What follows the padded left column: nothing for a description set to
      the empty string, the description for any other, and the word
      `undefined` for a command whose description was never set. */
  lemma CommandDescriptionColumn(cmds: seq<SubCommand>, p: Palette, i: int)
    requires 0 <= i < |Visible(cmds)|
    ensures var w := Widest(CommandRows(cmds, p), 0);
            var t := CommandTable(cmds, p);
            var d := Visible(cmds)[i].description;
            && |t[i]| >= w
            && (d.None? ==> t[i][w..] == "  " + Paint(p.grey, "undefined"))
            && (d == Some("") ==> t[i][w..] == "")
            && (d.Some? && d.value != "" ==> t[i][w..] == "  " + Paint(p.grey, d.value))
  {
    var rows := CommandRows(cmds, p);
    RowSplit(rows[i], Widest(rows, 0));
  }

  lemma RowSplit(row: Row, w: int)
    requires |row.left| <= w
    ensures var r := FormatRow(row, w);
            |r| >= w && r[..w] == Pad(row.left, w)
            && r[w..] == (if row.desc != "" then "  " + row.desc else "")
  {
    var pad := Pad(row.left, w);
    assert |pad| == w;
  }

  /** Colours are applied to every left column alike, so the uncoloured text of
      each row also ends at one column: the widest uncoloured left column. */
  lemma CommandColumnsUniform(cmds: seq<SubCommand>, p: Palette)
    requires |Visible(cmds)| > 0
    ensures var rows := CommandRows(cmds, p);
            var v := Visible(cmds);
            var w := Widest(rows, 0);
            && w >= Overhead(p.green)
            && (forall i :: 0 <= i < |v| ==> |LeftColumn(v[i])| <= w - Overhead(p.green))
            && (exists i :: 0 <= i < |v| && |LeftColumn(v[i])| == w - Overhead(p.green))
  {
    var rows := CommandRows(cmds, p);
    var v := Visible(cmds);
    var w := Widest(rows, 0);
    forall i | 0 <= i < |v| ensures |rows[i].left| == |LeftColumn(v[i])| + Overhead(p.green) {
      PaintedLeftColumn(v[i], p);
    }
    WidestAttained(rows, 0);
    assert |rows[0].left| <= w;
    if w != 0 {
      var j :| 0 <= j < |rows| && w == |rows[j].left|;
      assert |LeftColumn(v[j])| == w - Overhead(p.green);
    }
  }

  lemma PaintedLeftColumn(c: SubCommand, p: Palette)
    ensures |Paint(p.green, LeftColumn(c))| == |LeftColumn(c)| + Overhead(p.green)
  {
    assert |LeftColumn(c)| >= 1;
  }

  /** Every character the table rows are built from is free of line breaks. */
  predicate ArgNoBreaks(a: Arg)
  {
    NoBreaks(a.name)
  }

  predicate CommandNoBreaks(c: SubCommand)
  {
    && NoBreaks(c.name) && NoBreaks(c.alias) && NoBreaks(DescriptionText(c.description))
    && forall j :: 0 <= j < |c.args| ==> ArgNoBreaks(c.args[j])
  }

  lemma NoBreaksNoNewline(s: string)
    requires NoBreaks(s)
    ensures '\n' !in s
  {
    assert forall i :: 0 <= i < |s| ==> s[i] != '\n';
  }

  lemma NoBreaksSpaces(n: nat)
    ensures NoBreaks(Spaces(n))
  {
  }

  lemma NoBreaksJoin(parts: seq<string>, sep: string)
    requires AllNoBreaks(parts) && NoBreaks(sep)
    ensures NoBreaks(Join(parts, sep))
  {
    if |parts| > 1 {
      NoBreaksJoin(parts[1..], sep);
      NoBreaksAppend(parts[0], sep);
      NoBreaksAppend(parts[0] + sep, Join(parts[1..], sep));
    }
  }

  lemma NoBreaksArgName(a: Arg)
    requires ArgNoBreaks(a)
    ensures NoBreaks(HumanReadableArgName(a))
  {
    var marker := if a.variadic then "..." else "";
    var open := if a.required then "<" else "[";
    var close := if a.required then ">" else "]";
    NoBreaksAppend(a.name, marker);
    NoBreaksAppend(open, a.name + marker);
    NoBreaksAppend(open + (a.name + marker), close);
    assert HumanReadableArgName(a) == open + (a.name + marker) + close;
  }

  lemma NoBreaksArgsText(args: seq<Arg>)
    requires forall j :: 0 <= j < |args| ==> ArgNoBreaks(args[j])
    ensures NoBreaks(ArgsText(args))
  {
    var names := ArgNames(args);
    forall i | 0 <= i < |names| ensures NoBreaks(names[i]) {
      NoBreaksArgName(args[i]);
    }
    NoBreaksJoin(names, " ");
  }

  lemma NoBreaksLeftColumn(c: SubCommand)
    requires CommandNoBreaks(c)
    ensures NoBreaks(LeftColumn(c))
  {
    NoBreaksArgsText(c.args);
    NoBreaksAliasPart(c.alias);
    NoBreaksOptionsPart(c.options);
    NoBreaksConcat4(c.name, AliasPart(c.alias), OptionsPart(c.options), " ", ArgsText(c.args));
  }

  lemma NoBreaksAliasPart(alias: string)
    requires NoBreaks(alias)
    ensures NoBreaks(AliasPart(alias))
  {
    NoBreaksAppend("|", alias);
  }

  /** The literal pieces of a left column carry no line breaks. */
  lemma NoBreaksOptionsPart(options: seq<CliOption>)
    ensures NoBreaks(OptionsPart(options)) && NoBreaks(" ")
  {
  }

  lemma NoBreaksConcat4(a: string, b: string, c: string, d: string, e: string)
    requires NoBreaks(a) && NoBreaks(b) && NoBreaks(c) && NoBreaks(d) && NoBreaks(e)
    ensures NoBreaks(a + b + c + d + e)
  {
    NoBreaksAppend(a, b);
    NoBreaksAppend(a + b, c);
    NoBreaksAppend(a + b + c, d);
    NoBreaksAppend(a + b + c + d, e);
  }

  lemma NoBreaksCommandTable(cmds: seq<SubCommand>, p: Palette)
    requires p.Valid()
    requires forall i :: 0 <= i < |cmds| ==> CommandNoBreaks(cmds[i])
    ensures AllNoBreaks(CommandTable(cmds, p))
  {
    var rows := CommandRows(cmds, p);
    var v := Visible(cmds);
    var w := Widest(rows, 0);
    var t := CommandTable(cmds, p);
    VisibleMembers(cmds);
    forall i | 0 <= i < |t| ensures NoBreaks(t[i]) {
      assert v[i] in v;
      NoBreaksCommandRow(v[i], w, p);
    }
  }

  lemma NoBreaksCommandRow(c: SubCommand, w: int, p: Palette)
    requires p.Valid() && CommandNoBreaks(c)
    ensures NoBreaks(FormatRow(Row(Paint(p.green, LeftColumn(c)), Paint(p.grey, DescriptionText(c.description))), w))
  {
    var left := Paint(p.green, LeftColumn(c));
    var desc := Paint(p.grey, DescriptionText(c.description));
    NoBreaksLeftColumn(c);
    PaintNoBreaks(p.green, LeftColumn(c));
    PaintNoBreaks(p.grey, DescriptionText(c.description));
    NoBreaksSpaces(Max(0, w - |left|));
    NoBreaksAppend(left, Spaces(Max(0, w - |left|)));
    NoBreaksAppend("  ", desc);
    NoBreaksAppend(Pad(left, w), if desc != "" then "  " + desc else "");
  }

  /** With at least one visible command and no line breaks in the data, the
      block's lines are: a blank line, the heading, a blank line, each table
      row indented by four spaces, and a final blank line. */
  lemma {:induction false} CommandHelpLines(cmds: seq<SubCommand>, p: Palette)
    requires p.Valid()
    requires forall i :: 0 <= i < |cmds| ==> CommandNoBreaks(cmds[i])
    requires |Visible(cmds)| > 0
    ensures Lines(CommandHelp(cmds, p))
         == ["", Paint(p.green, "  Commands:"), ""] + Prefixed(CommandTable(cmds, p), "    ") + [""]
  {
    var heading := Paint(p.green, "  Commands:");
    var body := Prefixed(CommandTable(cmds, p), "    ");
    CommandHelpFramed(cmds, p);
    HeadingNoNewline(p);
    IndentedTableNoNewline(cmds, p);
    FramedLines(CommandHelp(cmds, p), heading, body);
  }

  lemma FramedLines(s: string, heading: string, body: seq<string>)
    requires s == Join(["", heading, ""] + body + [""], "\n")
    requires '\n' !in heading
    requires forall i :: 0 <= i < |body| ==> '\n' !in body[i]
    ensures Lines(s) == ["", heading, ""] + body + [""]
  {
    LinesFramed("", heading, "", body, "");
  }

  lemma HeadingNoNewline(p: Palette)
    requires p.Valid()
    ensures '\n' !in Paint(p.green, "  Commands:")
  {
    PaintedNoNewline(p.green, "  Commands:");
  }

  lemma PaintedNoNewline(st: Style, s: string)
    requires NoBreaks(st.open) && NoBreaks(st.close) && NoBreaks(s)
    ensures '\n' !in Paint(st, s)
  {
    PaintNoBreaks(st, s);
    NoBreaksNoNewline(Paint(st, s));
  }

  /** The block joins the heading lines, the indented rows and a blank line. */
  lemma CommandHelpFramed(cmds: seq<SubCommand>, p: Palette)
    requires p.Valid()
    requires forall i :: 0 <= i < |cmds| ==> CommandNoBreaks(cmds[i])
    requires |Visible(cmds)| > 0
    ensures CommandHelp(cmds, p)
         == Join(["", Paint(p.green, "  Commands:"), ""] + Prefixed(CommandTable(cmds, p), "    ") + [""], "\n")
  {
    var t := CommandTable(cmds, p);
    var heading := Paint(p.green, "  Commands:");
    NoBreaksCommandTable(cmds, p);
    IndentJoin(t, "    ");
    JoinFramed("", heading, "", Prefixed(t, "    "), "", "\n");
  }

  lemma IndentedTableNoNewline(cmds: seq<SubCommand>, p: Palette)
    requires p.Valid()
    requires forall i :: 0 <= i < |cmds| ==> CommandNoBreaks(cmds[i])
    ensures var body := Prefixed(CommandTable(cmds, p), "    ");
            forall i :: 0 <= i < |body| ==> '\n' !in body[i]
  {
    NoBreaksCommandTable(cmds, p);
    assert NoBreaks("    ");
    PrefixedNoNewline(CommandTable(cmds, p), "    ");
  }

  /** Prefixing lines free of breaks with a prefix free of breaks keeps
      every line free of newlines. */
  lemma PrefixedNoNewline(lines: seq<string>, pre: string)
    requires NoBreaks(pre) && AllNoBreaks(lines)
    ensures forall i :: 0 <= i < |lines| ==> '\n' !in Prefixed(lines, pre)[i]
  {
    forall i | 0 <= i < |lines| ensures '\n' !in Prefixed(lines, pre)[i] {
      NoBreaksAppend(pre, lines[i]);
      NoBreaksNoNewline(pre + lines[i]);
    }
  }

  /** Joining a framed list is joining the frame around the joined middle. */
  lemma JoinFramed(a: string, b: string, c: string, body: seq<string>, e: string, sep: string)
    requires |body| >= 1
    ensures Join([a, b, c] + body + [e], sep) == Join([a, b, c, Join(body, sep), e], sep)
  {
    JoinAppend([a, b, c], body, sep);
    JoinAppend([a, b, c] + body, [e], sep);
    JoinFirstThree(a, b, c, sep);
    JoinUnfoldFive(a, b, c, Join(body, sep), e, sep);
  }

  lemma LinesFramed(a: string, b: string, c: string, body: seq<string>, e: string)
    requires '\n' !in a && '\n' !in b && '\n' !in c && '\n' !in e
    requires forall i :: 0 <= i < |body| ==> '\n' !in body[i]
    ensures Lines(Join([a, b, c] + body + [e], "\n")) == [a, b, c] + body + [e]
  {
    FramedNoNewline(a, b, c, body, e);
    LinesOfJoin([a, b, c] + body + [e]);
  }

  lemma FramedNoNewline(a: string, b: string, c: string, body: seq<string>, e: string)
    requires '\n' !in a && '\n' !in b && '\n' !in c && '\n' !in e
    requires forall i :: 0 <= i < |body| ==> '\n' !in body[i]
    ensures forall i :: 0 <= i < |[a, b, c] + body + [e]| ==> '\n' !in ([a, b, c] + body + [e])[i]
  {
    var whole := [a, b, c] + body + [e];
    forall i | 0 <= i < |whole| ensures '\n' !in whole[i] {
      if i < 3 {
      } else if i < 3 + |body| {
        assert whole[i] == body[i - 3];
      } else {
        assert whole[i] == e;
      }
    }
  }

  lemma JoinFirstThree(a: string, b: string, c: string, sep: string)
    ensures Join([a, b, c], sep) == a + sep + b + sep + c
  {
    assert [a, b, c][1..] == [b, c];
    assert [b, c][1..] == [c];
    assert Join([c], sep) == c;
    assert Join([b, c], sep) == b + sep + c;
  }

  lemma JoinUnfoldFive(a: string, b: string, c: string, d: string, e: string, sep: string)
    ensures Join([a, b, c, d, e], sep) == a + sep + b + sep + c + sep + d + sep + e
  {
    assert [a, b, c, d, e][1..] == [b, c, d, e];
    assert [b, c, d, e][1..] == [c, d, e];
    assert [c, d, e][1..] == [d, e];
    assert [d, e][1..] == [e];
    assert Join([e], sep) == e;
    assert Join([d, e], sep) == d + sep + e;
    assert Join([c, d, e], sep) == c + sep + (d + sep + e);
    assert Join([b, c, d, e], sep) == b + sep + (c + sep + (d + sep + e));
  }

  /** Registered commands that are all hidden still print the heading, with
      one line holding only the indentation. */
  lemma CommandHelpAllHidden(cmds: seq<SubCommand>, p: Palette)
    requires |cmds| > 0 && |Visible(cmds)| == 0
    ensures CommandHelp(cmds, p) == "\n" + Paint(p.green, "  Commands:") + "\n\n    \n"
  {
    var heading := Paint(p.green, "  Commands:");
    assert CommandTable(cmds, p) == [];
    assert Indent(Join([], "\n"), "    ") == "    ";
    JoinUnfoldFive("", heading, "", "    ", "", "\n");
  }

  // ---------------------------------------------------------------------
  // The options table

  /** The synthetic first entry for `-h, --help`. */
  const HelpOption := CliOption("-h, --help", "output usage information")

  /** A flag string padded to the common width, two spaces, the description. */
  function OptionRow(o: CliOption, width: int, p: Palette): string
  {
    Paint(p.green, Pad(o.flags, width)) + "  " + Paint(p.grey, o.description)
  }

  /** The lines of the options table: the help row, then one per option in
      registration order. */
  function OptionRows(options: seq<CliOption>, width: int, p: Palette): (rows: seq<string>)
    ensures |rows| == |options| + 1
    ensures rows[0] == OptionRow(HelpOption, width, p)
    ensures forall i :: 0 <= i < |options| ==> rows[i + 1] == OptionRow(options[i], width, p)
  {
    [OptionRow(HelpOption, width, p)] + seq(|options|, i requires 0 <= i < |options| => OptionRow(options[i], width, p))
  }

  /** The options block body; `width` is the parser's largest option length.
      The `-h, --help` row comes first and the last registered option's row
      comes last. */
  function OptionHelp(options: seq<CliOption>, width: int, p: Palette): (r: string)
    ensures StartsWith(r, OptionRow(HelpOption, width, p))
    ensures |options| == 0 ==> r == OptionRow(HelpOption, width, p)
    ensures |options| > 0 ==> EndsWith(r, "\n" + OptionRow(options[|options| - 1], width, p))
  {
    var rows := OptionRows(options, width, p);
    if |options| > 0 then
      JoinEnds(rows, "\n");
      Join(rows, "\n")
    else
      Join(rows, "\n")
  }

  predicate OptionNoBreaks(o: CliOption)
  {
    NoBreaks(o.flags) && NoBreaks(o.description)
  }

  lemma NoBreaksOptionRows(options: seq<CliOption>, width: int, p: Palette)
    requires p.Valid()
    requires forall i :: 0 <= i < |options| ==> OptionNoBreaks(options[i])
    ensures AllNoBreaks(OptionRows(options, width, p))
  {
    var rows := OptionRows(options, width, p);
    assert OptionNoBreaks(HelpOption);
    forall i | 0 <= i < |rows| ensures NoBreaks(rows[i]) {
      var o := if i == 0 then HelpOption else options[i - 1];
      NoBreaksFlagRow(o.flags, o.description, width, p);
    }
  }

  lemma NoBreaksFlagRow(f: string, d: string, width: int, p: Palette)
    requires p.Valid() && NoBreaks(f) && NoBreaks(d)
    ensures NoBreaks(Paint(p.green, Pad(f, width)) + "  " + Paint(p.grey, d))
  {
    NoBreaksSpaces(Max(0, width - |f|));
    NoBreaksAppend(f, Spaces(Max(0, width - |f|)));
    PaintNoBreaks(p.green, Pad(f, width));
    PaintNoBreaks(p.grey, d);
    NoBreaksAppend(Paint(p.green, Pad(f, width)), "  ");
    NoBreaksAppend(Paint(p.green, Pad(f, width)) + "  ", Paint(p.grey, d));
  }

  /** The options block has exactly one line more than there are options. */
  lemma OptionHelpLines(options: seq<CliOption>, width: int, p: Palette)
    requires p.Valid()
    requires forall i :: 0 <= i < |options| ==> OptionNoBreaks(options[i])
    ensures Lines(OptionHelp(options, width, p)) == OptionRows(options, width, p)
    ensures |Lines(OptionHelp(options, width, p))| == |options| + 1
  {
    var rows := OptionRows(options, width, p);
    NoBreaksOptionRows(options, width, p);
    forall i | 0 <= i < |rows| ensures '\n' !in rows[i] {
      NoBreaksNoNewline(rows[i]);
    }
    LinesOfJoin(rows);
  }

  /** When `width` covers every flag, including `-h, --help`, every row's
      description starts two spaces after one common column. */
  lemma OptionColumnsAligned(options: seq<CliOption>, width: int, p: Palette)
    requires width >= |HelpOption.flags|
    requires forall i :: 0 <= i < |options| ==> |options[i].flags| <= width
    ensures var rows := OptionRows(options, width, p);
            var k := width + Overhead(p.green);
            forall i :: 0 <= i < |rows| ==> |rows[i]| >= k + 2 && rows[i][k..k + 2] == "  "
  {
    var rows := OptionRows(options, width, p);
    RowGap(HelpOption.flags, HelpOption.description, width, p);
    forall i | 1 <= i < |rows|
      ensures |rows[i]| >= width + Overhead(p.green) + 2
      ensures rows[i][width + Overhead(p.green)..width + Overhead(p.green) + 2] == "  "
    {
      RowGap(options[i - 1].flags, options[i - 1].description, width, p);
    }
  }

  /** A flag padded to a width that covers it is followed by the two-space gap
      at the same column, whatever the flag. */
  lemma RowGap(f: string, d: string, width: int, p: Palette)
    requires |f| <= width && width > 0
    ensures var r := Paint(p.green, Pad(f, width)) + "  " + Paint(p.grey, d);
            var k := width + Overhead(p.green);
            |r| >= k + 2 && r[k..k + 2] == "  "
  {
    var left := Paint(p.green, Pad(f, width));
    assert |left| == width + Overhead(p.green);
    assert (left + "  " + Paint(p.grey, d))[|left|..|left| + 2] == "  ";
  }

  // ---------------------------------------------------------------------
  // The help screen

  /** What the help screen reads of the program object. `usage` is the
      parser's own usage string and `optionWidth` its largest option length. */
  datatype HelpView = HelpView(
    name: string,
    alias: string,
    description: string,
    usage: string,
    commands: seq<SubCommand>,
    options: seq<CliOption>,
    optionWidth: int)

  /** The name on the usage line: `name|alias` when an alias is set. */
  function UsageName(name: string, alias: string): (r: string)
    ensures StartsWith(r, name)
    ensures r == name <==> alias == ""
    ensures alias != "" ==> r[|name|..] == "|" + alias
  {
    if alias != "" then name + "|" + alias else name
  }

  function UsageLine(v: HelpView, p: Palette): string
  {
    Paint(p.green, "  Usage: " + UsageName(v.name, v.alias) + " " + v.usage)
  }

  /** The help screen is, in this order: the usage block, the commands block
      when there are commands, the description block when there is a
      description, and the options block. */
  function HelpInformation(v: HelpView, p: Palette): (r: string)
    ensures r == "\n" + UsageLine(v, p) + "\n\n"
               + (if |v.commands| > 0 then CommandHelp(v.commands, p) + "\n" else "")
               + (if v.description != "" then Paint(p.grey, "  " + v.description) + "\n\n" else "")
               + Paint(p.green, "  Options:") + "\n\n"
               + Indent(OptionHelp(v.options, v.optionWidth, p), "    ") + "\n\n"
  {
    var desc := if v.description != "" then [Paint(p.grey, "  " + v.description), ""] else [];
    var usage := ["", UsageLine(v, p), ""];
    var commandHelp := CommandHelp(v.commands, p);
    var cmds := if commandHelp != "" then [commandHelp] else [];
    var options := [Paint(p.green, "  Options:"), "", Indent(OptionHelp(v.options, v.optionWidth, p), "    "), "", ""];
    JoinHelpBlocks(UsageLine(v, p), commandHelp, v.description != "",
                   Paint(p.grey, "  " + v.description), Paint(p.green, "  Options:"),
                   Indent(OptionHelp(v.options, v.optionWidth, p), "    "));
    Join(usage + cmds + desc + options, "\n")
  }

  /** Joining the help screen's blocks, with the string parts left abstract. */
  lemma JoinHelpBlocks(usage: string, commands: string, hasDesc: bool, desc: string,
                       heading: string, body: string)
    ensures Join(["", usage, ""] + (if commands != "" then [commands] else [])
                 + (if hasDesc then [desc, ""] else []) + [heading, "", body, "", ""], "\n")
         == "\n" + usage + "\n\n" + (if commands != "" then commands + "\n" else "")
          + (if hasDesc then desc + "\n\n" else "") + heading + "\n\n" + body + "\n\n"
  {
    var cmds: seq<string> := if commands != "" then [commands] else [];
    var descs: seq<string> := if hasDesc then [desc, ""] else [];
    var options := [heading, "", body, "", ""];
    var tailText := (if hasDesc then desc + "\n\n" else "") + heading + "\n\n" + body + "\n\n";
    JoinTail(hasDesc, desc, heading, body);
    JoinMid(commands, descs + options, tailText);
    JoinUsageBlocks(usage, cmds, descs, options, (if commands != "" then commands + "\n" else "") + tailText);
  }

  lemma JoinUsageBlocks(usage: string, cmds: seq<string>, descs: seq<string>, options: seq<string>, midText: string)
    requires |options| >= 1 && Join(cmds + (descs + options), "\n") == midText
    ensures Join(["", usage, ""] + cmds + descs + options, "\n") == "\n" + usage + "\n\n" + midText
  {
    JoinUsage(usage, cmds + (descs + options), midText);
    ConcatAssoc(["", usage, ""], cmds, descs, options);
  }

  lemma ConcatAssoc(a: seq<string>, b: seq<string>, c: seq<string>, d: seq<string>)
    ensures a + b + c + d == a + (b + (c + d))
  {
  }

  lemma JoinMid(commands: string, tail: seq<string>, tailText: string)
    requires |tail| >= 1 && Join(tail, "\n") == tailText
    ensures Join((if commands != "" then [commands] else []) + tail, "\n")
         == (if commands != "" then commands + "\n" else "") + tailText
  {
    if commands != "" {
      JoinAppend([commands], tail, "\n");
    } else {
      assert [] + tail == tail;
    }
  }

  lemma JoinUsage(usage: string, rest: seq<string>, restText: string)
    requires |rest| >= 1 && Join(rest, "\n") == restText
    ensures Join(["", usage, ""] + rest, "\n") == "\n" + usage + "\n\n" + restText
  {
    JoinAppend(["", usage, ""], rest, "\n");
    JoinFirstThree("", usage, "", "\n");
  }

  lemma JoinTail(hasDesc: bool, desc: string, heading: string, body: string)
    ensures Join((if hasDesc then [desc, ""] else []) + [heading, "", body, "", ""], "\n")
         == (if hasDesc then desc + "\n\n" else "") + heading + "\n\n" + body + "\n\n"
  {
    if hasDesc {
      JoinDescOptions(desc, heading, body);
    } else {
      JoinOptions(heading, body);
      assert [] + [heading, "", body, "", ""] == [heading, "", body, "", ""];
    }
  }

  lemma JoinOptions(heading: string, body: string)
    ensures Join([heading, "", body, "", ""], "\n") == heading + "\n\n" + body + "\n\n"
  {
    JoinUnfoldFive(heading, "", body, "", "", "\n");
  }

  lemma JoinDescOptions(desc: string, heading: string, body: string)
    ensures Join([desc, ""] + [heading, "", body, "", ""], "\n")
         == desc + "\n\n" + heading + "\n\n" + body + "\n\n"
  {
    JoinOptions(heading, body);
    JoinAppend([desc, ""], [heading, "", body, "", ""], "\n");
    assert [desc, ""][1..] == [""];
    assert Join([desc, ""], "\n") == desc + "\n";
  }

  /** Each line of the options block's body is an options-table row indented
      by four spaces. */
  lemma HelpOptionsIndented(v: HelpView, p: Palette)
    requires p.Valid()
    requires forall i :: 0 <= i < |v.options| ==> OptionNoBreaks(v.options[i])
    ensures Indent(OptionHelp(v.options, v.optionWidth, p), "    ")
         == Join(Prefixed(OptionRows(v.options, v.optionWidth, p), "    "), "\n")
  {
    NoBreaksOptionRows(v.options, v.optionWidth, p);
    IndentJoin(OptionRows(v.options, v.optionWidth, p), "    ");
  }
}
