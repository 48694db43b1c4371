/** `richTextToMarkdown` of scripts/notion-client.js: each rich-text run is wrapped in the
    markers of its annotations, bold innermost and the link outermost, and the runs are
    concatenated. */
module NotionRichText {
  import opened Wrappers

  /** One rich-text run; a missing `plain_text` is "", and `href` is the link target, whose
      empty string counts as no link. */
  datatype Annotations = Annotations(bold: bool, italic: bool, strikethrough: bool, code: bool)
  datatype RichText = RichText(plainText: string, annotations: Annotations, href: Option<string>)

  predicate HasLink(t: RichText) {
    t.href.Some? && t.href.value != ""
  }

  /** `on ? open + x + close : x`: one annotation's wrapping step. */
  function Wrap(on: bool, open: string, close: string, x: string): string {
    if on then open + x + close else x
  }

  /** The marker a step contributes: itself when the step applies, else nothing. */
  function Mark(on: bool, marker: string): string {
    if on then marker else ""
  }

  function LinkTarget(t: RichText): string {
    if t.href.Some? then t.href.value else ""
  }

  /** The Markdown of one run, wrapping step by step as the source does. */
  function RunToMarkdown(t: RichText): string {
    var a := t.annotations;
    Wrap(HasLink(t), "[", "](" + LinkTarget(t) + ")",
      Wrap(a.code, "`", "`",
        Wrap(a.strikethrough, "~~", "~~",
          Wrap(a.italic, "*", "*",
            Wrap(a.bold, "**", "**", t.plainText)))))
  }

  /** The opening markers, outermost first. */
  function Opening(t: RichText): string {
    var a := t.annotations;
    Mark(HasLink(t), "[") + (Mark(a.code, "`") + (Mark(a.strikethrough, "~~")
      + (Mark(a.italic, "*") + Mark(a.bold, "**"))))
  }

  /** The closing markers, innermost first. */
  function Closing(t: RichText): string {
    var a := t.annotations;
    Mark(a.bold, "**") + Mark(a.italic, "*") + Mark(a.strikethrough, "~~") + Mark(a.code, "`")
      + Mark(HasLink(t), "](" + LinkTarget(t) + ")")
  }

  /** The wrap order: the text sits inside bold, inside italic, inside strikethrough, inside
      code, inside the link. */
  lemma WrapOrder(t: RichText)
    ensures RunToMarkdown(t) == Opening(t) + t.plainText + Closing(t)
  {
    var a := t.annotations;
    var m := t.plainText;
    var b := Mark(a.bold, "**");
    var i := Mark(a.italic, "*");
    var s := Mark(a.strikethrough, "~~");
    var c := Mark(a.code, "`");
    var x1 := Wrap(a.bold, "**", "**", m);
    var x2 := Wrap(a.italic, "*", "*", x1);
    var x3 := Wrap(a.strikethrough, "~~", "~~", x2);
    var x4 := Wrap(a.code, "`", "`", x3);
    FirstLayer(a.bold, "**", m);
    Layer(a.italic, "*", "*", x1, b, m, b);
    Layer(a.strikethrough, "~~", "~~", x2, i + b, m, b + i);
    Layer(a.code, "`", "`", x3, s + (i + b), m, b + i + s);
    Layer(HasLink(t), "[", "](" + LinkTarget(t) + ")", x4, c + (s + (i + b)), m, b + i + s + c);
  }

  /** The innermost step wraps the text in one marker on each side. */
  lemma FirstLayer(on: bool, marker: string, m: string)
    ensures Wrap(on, marker, marker, m) == Mark(on, marker) + m + Mark(on, marker)
  {
    if !on {
      assert "" + m + "" == m;
    }
  }

  /** A later step moves its markers outside those already there. */
  lemma Layer(on: bool, open: string, close: string, x: string, o: string, m: string, c: string)
    requires x == o + m + c
    ensures Wrap(on, open, close, x) == (Mark(on, open) + o) + m + (c + Mark(on, close))
  {
    if on {
      assert open + (o + m + c) + close == (open + o) + m + (c + close);
    } else {
      assert "" + o == o;
      assert c + "" == c;
    }
  }

  /** A run without annotations and without a link is its plain text. */
  lemma PlainRun(t: RichText)
    requires t.annotations == Annotations(false, false, false, false) && !HasLink(t)
    ensures RunToMarkdown(t) == t.plainText
  {
  }

  /** The runs concatenated with no separator. */
  function Runs(rs: seq<RichText>): string {
    if |rs| == 0 then "" else Runs(rs[..|rs| - 1]) + RunToMarkdown(rs[|rs| - 1])
  }

  /** The whole conversion: anything that is not an array gives "". */
  function RichTextToMarkdown(arr: Option<seq<RichText>>): (r: string)
    ensures arr.None? ==> r == ""
  {
    match arr
      case None => ""
      case Some(rs) => Runs(rs)
  }

  /** Concatenation of run lists is concatenation of their Markdown. */
  lemma {:induction false} RunsAppend(a: seq<RichText>, b: seq<RichText>)
    ensures Runs(a + b) == Runs(a) + Runs(b)
    decreases |b|
  {
    if |b| == 0 {
      assert a + b == a;
    } else {
      var init, last := b[..|b| - 1], b[|b| - 1];
      assert (a + b)[..|a + b| - 1] == a + init;
      assert (a + b)[|a + b| - 1] == last;
      RunsAppend(a, init);
      var m := RunToMarkdown(last);
      assert Runs(a + b) == Runs(a + init) + m;
      assert Runs(b) == Runs(init) + m;
      AssociateStrings(Runs(a), Runs(init), m);
    }
  }

  lemma AssociateStrings(x: string, y: string, z: string)
    ensures (x + y) + z == x + (y + z)
  {
  }

  /** Every run's Markdown appears in order: the conversion of a list is its first run's
      Markdown followed by the conversion of the rest. */
  lemma RunsCons(t: RichText, rest: seq<RichText>)
    ensures Runs([t] + rest) == RunToMarkdown(t) + Runs(rest)
  {
    RunsAppend([t], rest);
    assert Runs([t]) == Runs([]) + RunToMarkdown(t);
  }

  /** Annotated text only grows: every marker adds characters around the plain text. */
  lemma RunLength(t: RichText)
    ensures |RunToMarkdown(t)| == |Opening(t)| + |t.plainText| + |Closing(t)|
    ensures |RunToMarkdown(t)| >= |t.plainText|
  {
    WrapOrder(t);
  }

  /** A run with every annotation and a link. */
  lemma AllMarkers()
    ensures RunToMarkdown(RichText("x", Annotations(true, true, true, true), Some("u")))
      == "[`~~***x***~~`](u)"
  {
  }
}
