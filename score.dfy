/**
 * The score display (src/scoredisplay.ts): a stored value and format string,
 * and an element whose children are the formatted text, one text node per
 * line with a `<br>` element between consecutive lines.
 */
module Score {
  import opened Wrappers
  import opened Text

  /** The placeholder that the value replaces. */
  const Token: string := "{value}"

  const DefaultValue: int := 0
  const DefaultFormat: string := "{value}"

  /** A child of the display element: a text node or a `<br>` element. */
  datatype DomNode = TextNode(text: string) | LineBreak

  /** The options passed to the constructor; a missing option takes its default. */
  datatype ScoreOptions = ScoreOptions(value: Option<int>, format: Option<string>)

  /** The text to show: the format with its first `{value}` replaced by the value's decimal text. */
  function Rendered(format: string, value: int): (text: string)
    ensures (forall j :: !OccursAt(format, Token, j)) ==> text == format
    ensures forall i :: FirstOccurrence(format, Token, i) ==>
              text == format[..i] + DecimalString(value) + format[i + |Token|..]
  {
    ReplaceFirst(format, Token, DecimalString(value))
  }

  /** A format without the placeholder is shown as it is. */
  lemma RenderedWithoutToken(format: string, value: int)
    requires forall j :: !OccursAt(format, Token, j)
    ensures Rendered(format, value) == format
  {
  }

  /** Only the first placeholder is replaced; whatever follows it is kept verbatim. */
  lemma RenderedFirstToken(format: string, value: int, i: int)
    requires OccursAt(format, Token, i)
    requires forall j :: 0 <= j < i ==> !OccursAt(format, Token, j)
    ensures Rendered(format, value) == format[..i] + DecimalString(value) + format[i + |Token|..]
  {
    ReplaceFirstAt(format, Token, DecimalString(value), i);
  }

  /**
   * The children that the `forEach` over the lines appends: each line as a
   * text node, preceded by a `<br>` for every line after the first.
   */
  function Layout(lines: seq<string>): (nodes: seq<DomNode>)
    ensures |lines| == 0 ==> nodes == []
    ensures |lines| >= 1 ==> |nodes| == 2 * |lines| - 1
    ensures forall k :: 0 <= k < |lines| ==> nodes[2 * k] == TextNode(lines[k])
    ensures forall k :: 0 <= k < |lines| - 1 ==> nodes[2 * k + 1] == LineBreak
  {
    if |lines| == 0 then []
    else
      var last := |lines| - 1;
      Layout(lines[..last]) + (if last >= 1 then [LineBreak] else []) + [TextNode(lines[last])]
  }

  /** The number of `<br>` elements among the children. */
  function Breaks(nodes: seq<DomNode>): nat {
    if nodes == [] then 0 else (if nodes[0] == LineBreak then 1 else 0) + Breaks(nodes[1..])
  }

  /** What the children show, reading each `<br>` as a line break. */
  function Visible(nodes: seq<DomNode>): string {
    if nodes == [] then ""
    else (match nodes[0] case TextNode(t) => t case LineBreak => "\n") + Visible(nodes[1..])
  }

  lemma {:induction false} VisibleAppend(a: seq<DomNode>, b: seq<DomNode>)
    ensures Visible(a + b) == Visible(a) + Visible(b)
  {
    if a != [] {
      assert (a + b)[1..] == a[1..] + b;
      VisibleAppend(a[1..], b);
    } else {
      assert a + b == b;
    }
  }

  lemma {:induction false} BreaksAppend(a: seq<DomNode>, b: seq<DomNode>)
    ensures Breaks(a + b) == Breaks(a) + Breaks(b)
  {
    if a != [] {
      assert (a + b)[1..] == a[1..] + b;
      BreaksAppend(a[1..], b);
    } else {
      assert a + b == b;
    }
  }

  lemma {:induction false} JoinSnoc(lines: seq<string>)
    requires |lines| >= 2
    ensures Join(lines) == Join(lines[..|lines| - 1]) + "\n" + lines[|lines| - 1]
  {
    if |lines| > 2 {
      JoinSnoc(lines[1..]);
      assert lines[1..][..|lines| - 2] == lines[..|lines| - 1][1..];
    }
  }

  /** The children show exactly the lines joined by newlines, with one `<br>` between consecutive lines. */
  lemma {:induction false} LayoutShowsLines(lines: seq<string>)
    requires |lines| >= 1
    ensures Visible(Layout(lines)) == Join(lines)
    ensures Breaks(Layout(lines)) == |lines| - 1
  {
    var last := |lines| - 1;
    var init := lines[..last];
    if last == 0 {
      assert Layout(lines) == [TextNode(lines[0])];
      assert Visible([TextNode(lines[0])]) == lines[0] + Visible([]);
      assert Breaks([TextNode(lines[0])]) == 0 + Breaks([]);
    } else {
      LayoutShowsLines(init);
      var tail := [LineBreak, TextNode(lines[last])];
      assert Layout(lines) == Layout(init) + tail;
      VisibleAppend(Layout(init), tail);
      BreaksAppend(Layout(init), tail);
      assert Visible(tail) == "\n" + lines[last] by {
        assert tail[1..] == [TextNode(lines[last])];
        assert Visible(tail[1..]) == lines[last] + Visible([]);
      }
      assert Breaks(tail) == 1 by {
        assert tail[1..] == [TextNode(lines[last])];
        assert Breaks(tail[1..]) == 0 + Breaks([]);
      }
      JoinSnoc(lines);
    }
  }

  /**
   * The whole display: the children show the rendered text, and there is one
   * `<br>` per newline in it.
   */
  lemma DisplayShowsRenderedText(format: string, value: int)
    ensures Visible(Layout(Split(Rendered(format, value)))) == Rendered(format, value)
    ensures Breaks(Layout(Split(Rendered(format, value)))) == Newlines(Rendered(format, value))
  {
    var text := Rendered(format, value);
    LayoutShowsLines(Split(text));
    JoinSplit(text);
  }

  /** With the default options the display shows "0". */
  lemma DefaultDisplay()
    ensures Rendered(DefaultFormat, DefaultValue) == "0"
    ensures Layout(Split(Rendered(DefaultFormat, DefaultValue))) == [TextNode("0")]
  {
    assert OccursAt(DefaultFormat, Token, 0);
    RenderedFirstToken(DefaultFormat, DefaultValue, 0);
    assert DecimalString(0) == "0";
    SplitNoNewline("0");
  }

  class ScoreDisplay {
    /** The stored `value` and `format` options. */
    var value: int
    var format: string
    /** The children of the display element. */
    var content: seq<DomNode>

    /** The element shows the current value in the current format. */
    ghost predicate Shows()
      reads this
    {
      content == Layout(Split(Rendered(format, value)))
    }

    /** Applies the defaults to missing options, then creates the element and paints it. */
    constructor (options: ScoreOptions)
      ensures value == options.value.GetOr(DefaultValue)
      ensures format == options.format.GetOr(DefaultFormat)
      ensures options.value.None? ==> value == 0
      ensures options.format.None? ==> format == "{value}"
      ensures Shows()
    {
      value := options.value.GetOr(DefaultValue);
      format := options.format.GetOr(DefaultFormat);
      content := [];
      new;
      Repaint();
    }

    /**
     * `sdRepaint`: computes the text, clears the element and appends the
     * lines. The new children depend on the value and format only, so
     * repainting again changes nothing.
     */
    method Repaint()
      modifies this`content
      ensures Shows()
    {
      var lines := Split(Rendered(format, value));
      content := [];
      AppendLines(lines);
    }

    /** The `forEach` of `sdRepaint`: appends the lines to the cleared element. */
    method AppendLines(lines: seq<string>)
      requires content == []
      modifies this`content
      ensures content == Layout(lines)
    {
      var i := 0;
      while i < |lines|
        invariant 0 <= i <= |lines|
        invariant content == Layout(lines[..i])
      {
        if i >= 1 {
          content := content + [LineBreak];
        }
        content := content + [TextNode(lines[i])];
        assert lines[..i + 1][..i] == lines[..i];
        i := i + 1;
      }
      assert lines[..|lines|] == lines;
    }

    /** The `value` setter: stores the value and repaints. */
    method SetValue(v: int)
      modifies this
      ensures value == v && format == old(format)
      ensures Shows()
    {
      value := v;
      Repaint();
    }

    /** The `format` setter: stores the format and repaints. */
    method SetFormat(f: string)
      modifies this
      ensures format == f && value == old(value)
      ensures Shows()
    {
      format := f;
      Repaint();
    }
  }
}
