/** String helpers shared by the CLI formatter and the template middleware.
    `Spaces`, `Join`, `Indent`, `StartsWith` and `Slice` model the JavaScript
    built-ins the code calls: `Array(n + 1).join(' ')`, `Array.prototype.join`,
    `String.prototype.replace(/^/gm, pre)`, `startsWith` and `slice`.
    `Lines` (splitting at newlines), `EndsWith` and `Contains` are only used
    to state properties of the results. */
module Text {

  /** `n` spaces: what `Array(n + 1).join(' ')` builds. */
  function Spaces(n: nat): (r: string)
    ensures |r| == n
    ensures forall i :: 0 <= i < n ==> r[i] == ' '
  {
    if n == 0 then "" else Spaces(n - 1) + " "
  }

  /** `Array.prototype.join(sep)`: the empty array gives "", a single element
      gives itself, otherwise elements are separated by `sep`. */
  function Join(parts: seq<string>, sep: string): string
  {
    if |parts| == 0 then ""
    else if |parts| == 1 then parts[0]
    else parts[0] + sep + Join(parts[1..], sep)
  }

  /** `s.split('\n')`: always at least one piece; none of them holds a newline. */
  function Lines(s: string): (r: seq<string>)
    ensures |r| >= 1
    ensures forall i :: 0 <= i < |r| ==> '\n' !in r[i]
  {
    if |s| == 0 then [""]
    else if s[0] == '\n' then [""] + Lines(s[1..])
    else
      var rest := Lines(s[1..]);
      [[s[0]] + rest[0]] + rest[1..]
  }

  /** The characters after which JavaScript's multiline `^` matches. */
  predicate IsLineTerminator(c: char)
  {
    c == '\n' || c == '\r' || c == '\U{2028}' || c == '\U{2029}'
  }

  predicate NoBreaks(s: string)
  {
    forall i :: 0 <= i < |s| ==> !IsLineTerminator(s[i])
  }

  predicate AllNoBreaks(ss: seq<string>)
  {
    forall i :: 0 <= i < |ss| ==> NoBreaks(ss[i])
  }

  /** Copies `s`, inserting `pre` after every line terminator. */
  function AfterBreaks(s: string, pre: string): string
  {
    if |s| == 0 then ""
    else [s[0]] + (if IsLineTerminator(s[0]) then pre else "") + AfterBreaks(s[1..], pre)
  }

  /** `s.replace(/^/gm, pre)`: `pre` at the start of the string and after
      every line terminator (also at the very end when `s` ends with one). */
  function Indent(s: string, pre: string): string
  {
    pre + AfterBreaks(s, pre)
  }

  /** Each element of `lines` with `pre` in front. */
  function Prefixed(lines: seq<string>, pre: string): (r: seq<string>)
    ensures |r| == |lines|
    ensures forall i :: 0 <= i < |lines| ==> r[i] == pre + lines[i]
  {
    seq(|lines|, i requires 0 <= i < |lines| => pre + lines[i])
  }

  /** `s.startsWith(t)`. */
  predicate StartsWith(s: string, t: string)
  {
    |t| <= |s| && s[..|t|] == t
  }

  /** `s.endsWith(t)`. */
  predicate EndsWith(s: string, t: string)
  {
    |t| <= |s| && s[|s| - |t|..] == t
  }

  /** `s.includes(t)`: `t` occurs somewhere in `s` as a contiguous block. */
  predicate Contains(s: string, t: string)
    decreases |s|
  {
    StartsWith(s, t) || (|s| > 0 && Contains(s[1..], t))
  }

  /** `s.slice(k)` for a non-negative start. */
  function Slice(s: string, k: nat): (r: string)
    ensures |r| == if k < |s| then |s| - k else 0
    ensures k < |s| ==> s == s[..k] + r
  {
    if k < |s| then s[k..] else ""
  }

  // ---------------------------------------------------------------------
  // Lemmas

  /** Whatever stands around it, a block is found by `Contains`. */
  lemma {:induction false} ContainsInfix(a: string, t: string, b: string)
    ensures Contains(a + t + b, t)
  {
    if |a| == 0 {
      assert (a + t + b)[..|t|] == t;
    } else {
      assert (a + t + b)[1..] == a[1..] + t + b;
      ContainsInfix(a[1..], t, b);
    }
  }

  /** Splitting at a newline splits the pieces independently. */
  lemma {:induction false} LinesAppend(a: string, b: string)
    ensures Lines(a + "\n" + b) == Lines(a) + Lines(b)
  {
    if |a| == 0 {
      assert a + "\n" + b == "\n" + b;
      assert ("\n" + b)[1..] == b;
    } else {
      assert (a + "\n" + b)[1..] == a[1..] + "\n" + b;
      LinesAppend(a[1..], b);
    }
  }

  /** A string without newline is one line. */
  lemma {:induction false} LinesSingle(a: string)
    requires '\n' !in a
    ensures Lines(a) == [a]
  {
    if |a| > 0 {
      assert a[0] in a;
      assert forall c :: c in a[1..] ==> c in a;
      LinesSingle(a[1..]);
      assert [a[0]] + a[1..] == a;
    }
  }

  /** Splitting undoes joining, for lines free of newlines. */
  lemma {:induction false} LinesOfJoin(parts: seq<string>)
    requires |parts| >= 1
    requires forall i :: 0 <= i < |parts| ==> '\n' !in parts[i]
    ensures Lines(Join(parts, "\n")) == parts
  {
    if |parts| == 1 {
      LinesSingle(parts[0]);
    } else {
      LinesAppend(parts[0], Join(parts[1..], "\n"));
      LinesSingle(parts[0]);
      LinesOfJoin(parts[1..]);
      assert [parts[0]] + parts[1..] == parts;
    }
  }

  /** Joining undoes splitting, for every string. */
  lemma {:induction false} JoinOfLines(s: string)
    ensures Join(Lines(s), "\n") == s
  {
    if |s| == 0 {
    } else if s[0] == '\n' {
      JoinOfLines(s[1..]);
      assert [""] + Lines(s[1..]) == [""] + Lines(s[1..]);
      assert ([""] + Lines(s[1..]))[1..] == Lines(s[1..]);
      assert s == "\n" + s[1..];
    } else {
      var rest := Lines(s[1..]);
      JoinOfLines(s[1..]);
      var r := [[s[0]] + rest[0]] + rest[1..];
      assert r[1..] == rest[1..];
      if |rest| == 1 {
        assert s == [s[0]] + s[1..];
      } else {
        assert Join(rest, "\n") == rest[0] + "\n" + Join(rest[1..], "\n");
        assert s == [s[0]] + s[1..];
      }
    }
  }

  /** Joining a concatenation of two non-empty lists puts one separator between them. */
  lemma {:induction false} JoinAppend(a: seq<string>, b: seq<string>, sep: string)
    requires |a| >= 1 && |b| >= 1
    ensures Join(a + b, sep) == Join(a, sep) + sep + Join(b, sep)
  {
    if |a| == 1 {
      assert (a + b)[1..] == b;
    } else {
      assert (a + b)[1..] == a[1..] + b;
      JoinAppend(a[1..], b, sep);
    }
  }

  /** A joined list of two or more parts starts with its first part and
      ends with the separator and its last part. */
  lemma JoinEnds(parts: seq<string>, sep: string)
    requires |parts| >= 2
    ensures StartsWith(Join(parts, sep), parts[0])
    ensures EndsWith(Join(parts, sep), sep + parts[|parts| - 1])
  {
    var n := |parts|;
    JoinAppend(parts[..n - 1], [parts[n - 1]], sep);
    assert parts[..n - 1] + [parts[n - 1]] == parts;
    assert Join(parts, sep) == Join(parts[..n - 1], sep) + (sep + parts[n - 1]);
  }

  /** Inserting after terminators splits across a newline. */
  lemma {:induction false} AfterBreaksAppend(a: string, b: string, pre: string)
    ensures AfterBreaks(a + "\n" + b, pre) == AfterBreaks(a, pre) + "\n" + pre + AfterBreaks(b, pre)
  {
    if |a| == 0 {
      assert a + "\n" + b == "\n" + b;
      assert ("\n" + b)[1..] == b;
    } else {
      assert (a + "\n" + b)[1..] == a[1..] + "\n" + b;
      AfterBreaksAppend(a[1..], b, pre);
    }
  }

  /** Text without terminators is copied unchanged. */
  lemma {:induction false} AfterBreaksPlain(a: string, pre: string)
    requires NoBreaks(a)
    ensures AfterBreaks(a, pre) == a
  {
    if |a| > 0 {
      AfterBreaksPlain(a[1..], pre);
      assert [a[0]] + a[1..] == a;
    }
  }

  /** Indenting joined lines indents each of them. */
  lemma {:induction false} IndentJoin(lines: seq<string>, pre: string)
    requires |lines| >= 1
    requires AllNoBreaks(lines)
    ensures Indent(Join(lines, "\n"), pre) == Join(Prefixed(lines, pre), "\n")
  {
    if |lines| == 1 {
      AfterBreaksPlain(lines[0], pre);
    } else {
      var rest := lines[1..];
      IndentCons(lines[0], Join(rest, "\n"), pre);
      IndentJoin(rest, pre);
      assert Prefixed(lines, pre)[1..] == Prefixed(rest, pre);
    }
  }

  /** Indenting a first line free of breaks, a newline and the rest. */
  lemma IndentCons(first: string, rest: string, pre: string)
    requires NoBreaks(first)
    ensures Indent(first + "\n" + rest, pre) == pre + first + "\n" + Indent(rest, pre)
  {
    AfterBreaksAppend(first, rest, pre);
    AfterBreaksPlain(first, pre);
  }
}
