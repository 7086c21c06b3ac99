/** The `colors/safe` wrappers used by the CLI formatter, seen from outside:
    each colour puts an opening code before the text and a closing code after
    it, and an empty string is returned unchanged. With colours disabled every
    code is empty and painting is the identity. */
module Colours {
  import opened Text

  datatype Style = Style(open: string, close: string)

  /** The four styles the formatter uses. */
  datatype Palette = Palette(green: Style, grey: Style, red: Style, bold: Style)
  {
    /** No escape code holds a line terminator (ANSI codes never do). */
    predicate Valid()
    {
      && NoBreaks(green.open) && NoBreaks(green.close)
      && NoBreaks(grey.open) && NoBreaks(grey.close)
      && NoBreaks(red.open) && NoBreaks(red.close)
      && NoBreaks(bold.open) && NoBreaks(bold.close)
    }
  }

  /** Colours switched off. */
  const Plain := Palette(Style("", ""), Style("", ""), Style("", ""), Style("", ""))

  /** Extra characters a style adds around non-empty text. */
  function Overhead(st: Style): nat
  {
    |st.open| + |st.close|
  }

  function Paint(st: Style, s: string): (r: string)
    ensures |r| == if s == "" then 0 else |s| + Overhead(st)
    ensures r == "" <==> s == ""
    ensures st == Style("", "") ==> r == s
  {
    if s == "" then "" else st.open + s + st.close
  }

  /** Painting keeps text free of line breaks when the codes are. */
  lemma PaintNoBreaks(st: Style, s: string)
    requires NoBreaks(st.open) && NoBreaks(st.close) && NoBreaks(s)
    ensures NoBreaks(Paint(st, s))
  {
    if s != "" {
      var r := st.open + s + st.close;
      forall i | 0 <= i < |r| ensures !IsLineTerminator(r[i]) {
        if i < |st.open| {
          assert r[i] == st.open[i];
        } else if i < |st.open| + |s| {
          assert r[i] == s[i - |st.open|];
        } else {
          assert r[i] == st.close[i - |st.open| - |s|];
        }
      }
    }
  }

  lemma NoBreaksAppend(a: string, b: string)
    requires NoBreaks(a) && NoBreaks(b)
    ensures NoBreaks(a + b)
  {
    forall i | 0 <= i < |a + b| ensures !IsLineTerminator((a + b)[i]) {
      if i < |a| { assert (a + b)[i] == a[i]; } else { assert (a + b)[i] == b[i - |a|]; }
    }
  }
}
