/**
 * rst2html.py, the HTML writer's handlers for figure references and
 * videos. The translator appends to its `body` and keeps a `context` stack
 * of closing text, pushed when a node is entered and popped when it is
 * left. Tags are kept as records holding the attributes the writer passes;
 * `starttag`'s attribute quoting and ordering, and the node's classes and
 * ids it adds to every tag, belong to docutils.
 */
module RstHtml {

  import opened Wrappers
  import opened RstMedia
  import RstFigures

  datatype Att = Flag | Text(value: string)

  datatype Html = Raw(text: string) | StartTag(tag: string, suffix: string, atts: map<string, Att>)

  /**
   * Where a video node sits: under a reference (`:target:` wraps it in one),
   * under another text element, or elsewhere; for a reference, whether its
   * own parent is a text element.
   */
  datatype Parent = TextElementParent | ReferenceParent(grandparentIsText: bool) | BlockParent

  /** docutils declares `reference` as a `TextElement`, so a reference parent is one too. */
  predicate IsTextElement(p: Parent)
  {
    p.TextElementParent? || p.ReferenceParent?
  }

  /**
   * The writer's test for an inline context: the parent is a text element,
   * or a reference whose own parent is not one.
   */
  predicate InlineContext(p: Parent)
  {
    IsTextElement(p) || (p.ReferenceParent? && !p.grandparentIsText)
  }

  /** The attributes of a video node the writer reads. */
  datatype VideoNode = VideoNode(controls: bool, loop: bool, autoplay: bool,
                                 width: Option<string>, height: Option<string>,
                                 classes: seq<string>, align: Option<string>,
                                 uri: string, parent: Parent)

  const DivOpen: string := "<div align=\"center\" class=\"align-center\">"
  const DivClose: string := "</div>\n"

  predicate IsDigitOrDot(c: char)
  {
    '0' <= c <= '9' || c == '.'
  }

  predicate DigitsAndDots(v: string)
  {
    |v| >= 1 && forall k :: 0 <= k < |v| ==> IsDigitOrDot(v[k])
  }

  /**
   * `re.match(r'^[0-9.]+$', v)`: one or more digits and dots, where `$` also
   * matches before a final newline.
   */
  predicate Unitless(v: string)
  {
    DigitsAndDots(v) || (|v| >= 2 && v[|v| - 1] == '\n' && DigitsAndDots(v[..|v| - 1]))
  }

  /** A unitless length is read as pixels. */
  function Pixels(v: string): (p: string)
  {
    if Unitless(v) then v + "px" else v
  }

  /** `'%s: %s;' % (name, value)`. */
  function Declaration(name: string, value: string): string
  {
    name + ": " + Pixels(value) + ";"
  }

  /** The style declarations, width before height. */
  function StyleParts(node: VideoNode): (parts: seq<string>)
    ensures |parts| <= 2
  {
    (if node.width.Some? then [Declaration("width", node.width.value)] else []) +
    (if node.height.Some? then [Declaration("height", node.height.value)] else [])
  }

  /** `' '.join(parts)`. */
  function JoinSpace(parts: seq<string>): string
  {
    if parts == [] then "" else if |parts| == 1 then parts[0] else parts[0] + " " + JoinSpace(parts[1..])
  }

  /** The flags and lengths copied from the node. */
  function BaseAtts(node: VideoNode): map<string, Att>
  {
    var a0: map<string, Att> := map[];
    var a1 := if node.controls then a0["controls" := Flag] else a0;
    var a2 := if node.loop then a1["loop" := Flag] else a1;
    var a3 := if node.autoplay then a2["autoplay" := Flag] else a2;
    var a4 := if node.width.Some? then a3["width" := Text(node.width.value)] else a3;
    if node.height.Some? then a4["height" := Text(node.height.value)] else a4
  }

  /** The alignment in effect: the `align-center` class forces "center". */
  function VideoAlign(node: VideoNode): Option<string>
  {
    if "align-center" in node.classes then Some("center") else node.align
  }

  predicate Centered(node: VideoNode)
  {
    VideoAlign(node) == Some("center")
  }

  lemma BaseAttsLengths(node: VideoNode)
    ensures ("width" in BaseAtts(node)) == node.width.Some?
    ensures node.width.Some? ==> BaseAtts(node)["width"] == Text(node.width.value)
    ensures ("height" in BaseAtts(node)) == node.height.Some?
    ensures node.height.Some? ==> BaseAtts(node)["height"] == Text(node.height.value)
  {
  }

  /** The attributes once the lengths have moved into the style. */
  function StyledAtts(node: VideoNode): map<string, Att>
  {
    var styled := BaseAtts(node) - {"width", "height"};
    if StyleParts(node) != [] then styled["style" := Text(JoinSpace(StyleParts(node)))] else styled
  }

  /** The attributes of the `<video>` tag. */
  function VideoAtts(node: VideoNode): map<string, Att>
  {
    var a := StyledAtts(node);
    var align := VideoAlign(node);
    if align.None? then a
    else if align.value == "center" then a["class" := Text("align-center")]
    else a["align" := Text(align.value)]["class" := Text("align-" + align.value)]
  }

  /** The text after the `<video>` tag: none inline, under a link or in a centring div. */
  function VideoSuffix(node: VideoNode): string
  {
    if Centered(node) then ""
    else if InlineContext(node.parent) then ""
    else "\n"
  }

  /** The closing text pushed on entering the video. */
  function ContextEntry(node: VideoNode): string
  {
    if Centered(node) then DivClose else ""
  }

  function SourceTag(file: string): Html
  {
    StartTag("source", "", map["src" := Text(file)])
  }

  /** One `<source>` element per file. */
  function Sources(files: seq<string>): (h: seq<Html>)
    ensures |h| == 2 * |files|
  {
    if files == [] then [] else [SourceTag(files[0]), Raw("</source>\n")] + Sources(files[1..])
  }

  /** What `html_visit_video` appends to the body. */
  function VideoHtml(node: VideoNode): seq<Html>
  {
    (if Centered(node) then [Raw(DivOpen)] else []) +
    [StartTag("video", VideoSuffix(node), VideoAtts(node))] +
    Sources(SplitOn(node.uri, ','))
  }

  /** `html_depart_video` on a body and a context stack. */
  function DepartVideo(body: seq<Html>, context: seq<string>): (r: Result<(seq<Html>, seq<string>), RstFigures.PyError>)
    ensures r.Err? <==> context == []
  {
    if context == [] then Err(RstFigures.IndexError)
    else Ok((body + [Raw("</video>\n"), Raw(context[|context| - 1])], context[..|context| - 1]))
  }

  lemma {:induction false} SourcesAppend(files: seq<string>, f: string)
    ensures Sources(files + [f]) == Sources(files) + [SourceTag(f), Raw("</source>\n")]
  {
    if files != [] {
      assert (files + [f])[1..] == files[1..] + [f];
      SourcesAppend(files[1..], f);
    }
  }

  /** The writer's state: the output so far and the stack of closing text. */
  class Translator {
    var body: seq<Html>
    var context: seq<string>

    constructor ()
      ensures body == [] && context == []
    {
      body := [];
      context := [];
    }

    /** `html_visit_figref`: open a link to the figure's target. */
    method VisitFigref(target: string)
      modifies this
      ensures body == old(body) + [Raw(RstFigures.FigrefOpen(target))] && context == old(context)
    {
      body := body + [Raw("<a href=\"#figure-" + target + "\">")];
    }

    /** `html_depart_figref`. */
    method DepartFigref()
      modifies this
      ensures body == old(body) + [Raw("</a>")] && context == old(context)
    {
      body := body + [Raw("</a>")];
    }

    /** `html_visit_video`. */
    method VisitVideo(node: VideoNode)
      modifies this
      ensures body == old(body) + VideoHtml(node)
      ensures context == old(context) + [ContextEntry(node)]
    {
      var atts := StyleAttributes(node);
      var suffix := "\n";
      if InlineContext(node.parent) {
        suffix := "";
      }
      atts, suffix := ApplyAlignment(node, atts, suffix);
      ghost var prefix := if Centered(node) then [Raw(DivOpen)] else [];
      body := body + [StartTag("video", suffix, atts)];
      EmitSources(SplitOn(node.uri, ','));
      assert body == old(body) + (prefix + [StartTag("video", suffix, atts)] + Sources(SplitOn(node.uri, ',')));
    }

    /** The alignment block: a centring div, or an `align` attribute; one context entry either way. */
    method ApplyAlignment(node: VideoNode, atts0: map<string, Att>, suffix0: string) returns (atts: map<string, Att>, suffix: string)
      requires atts0 == StyledAtts(node)
      requires suffix0 == (if InlineContext(node.parent) then "" else "\n")
      modifies this
      ensures atts == VideoAtts(node) && suffix == VideoSuffix(node)
      ensures body == old(body) + (if Centered(node) then [Raw(DivOpen)] else [])
      ensures context == old(context) + [ContextEntry(node)]
    {
      atts, suffix := atts0, suffix0;
      var align := node.align;
      if "align-center" in node.classes {
        align := Some("center");
      }
      assert align == VideoAlign(node);
      if align.Some? {
        if align.value == "center" {
          assert "align-" + align.value == "align-center";
          body := body + [Raw(DivOpen)];
          context := context + [DivClose];
          suffix := "";
        } else {
          atts := atts["align" := Text(align.value)];
          context := context + [""];
        }
        atts := atts["class" := Text("align-" + align.value)];
      } else {
        context := context + [""];
      }
    }

    /** `for filename in node['uri'].split(',')`: one `<source>` element each. */
    method EmitSources(files: seq<string>)
      modifies this
      ensures body == old(body) + Sources(files) && context == old(context)
    {
      for j := 0 to |files|
        invariant body == old(body) + Sources(files[..j]) && context == old(context)
      {
        SourcesAppend(files[..j], files[j]);
        assert files[..j + 1] == files[..j] + [files[j]];
        body := body + [StartTag("source", "", map["src" := Text(files[j])]), Raw("</source>\n")];
      }
      assert files[..|files|] == files;
    }

    /** The flags and lengths copied from the node, the lengths then moved into one style. */
    static method StyleAttributes(node: VideoNode) returns (atts: map<string, Att>)
      ensures atts == StyledAtts(node)
    {
      atts := map[];
      if node.controls { atts := atts["controls" := Flag]; }
      if node.loop { atts := atts["loop" := Flag]; }
      if node.autoplay { atts := atts["autoplay" := Flag]; }
      if node.width.Some? { atts := atts["width" := Text(node.width.value)]; }
      if node.height.Some? { atts := atts["height" := Text(node.height.value)]; }
      assert atts == BaseAtts(node);
      var style: seq<string>;
      atts, style := MoveToStyle(node, atts);
      if style != [] {
        atts := atts["style" := Text(JoinSpace(style))];
      }
    }

    /** The loop over "width" and "height": each present length moves into the style. */
    static method MoveToStyle(node: VideoNode, atts0: map<string, Att>) returns (atts: map<string, Att>, style: seq<string>)
      requires atts0 == BaseAtts(node)
      ensures atts == BaseAtts(node) - {"width", "height"}
      ensures style == StyleParts(node)
    {
      BaseAttsLengths(node);
      atts, style := atts0, [];
      var names := ["width", "height"];
      for j := 0 to 2
        invariant atts == BaseAtts(node) - (if j == 0 then {} else if j == 1 then {"width"} else {"width", "height"})
        invariant style == (if j >= 1 && node.width.Some? then [Declaration("width", node.width.value)] else []) +
                           (if j >= 2 && node.height.Some? then [Declaration("height", node.height.value)] else [])
      {
        var name := names[j];
        if name in atts {
          var value := atts[name].value;
          if Unitless(value) {
            value := value + "px";
          }
          style := style + [name + ": " + value + ";"];
          atts := atts - {name};
        }
        assert BaseAtts(node) - (if j == 0 then {} else {"width"}) - {name} ==
               BaseAtts(node) - (if j == 0 then {"width"} else {"width", "height"});
      }
    }

    /** `html_depart_video`: close the video and emit the text its visit pushed. */
    method DepartVideoStep() returns (err: Option<RstFigures.PyError>)
      modifies this
      ensures DepartVideo(old(body), old(context)).Ok? ==>
        err.None? && (body, context) == DepartVideo(old(body), old(context)).value
      ensures DepartVideo(old(body), old(context)).Err? ==>
        err == Some(RstFigures.IndexError) && body == old(body) + [Raw("</video>\n")] && context == old(context)
    {
      body := body + [Raw("</video>\n")];
      if context == [] {
        return Some(RstFigures.IndexError);
      }
      var top := context[|context| - 1];
      context := context[..|context| - 1];
      body := body + [Raw(top)];
      assert body == old(body) + [Raw("</video>\n"), Raw(top)];
      err := None;
    }
  }

  /** Width and height leave the attributes; the style holds what was given, width first. */
  lemma StyleRule(node: VideoNode)
    ensures "width" !in VideoAtts(node) && "height" !in VideoAtts(node)
    ensures ("style" in VideoAtts(node)) <==> (node.width.Some? || node.height.Some?)
    ensures node.width.Some? && node.height.Some? ==>
      VideoAtts(node)["style"] == Text(Declaration("width", node.width.value) + " " + Declaration("height", node.height.value))
    ensures node.width.Some? && node.height.None? ==>
      VideoAtts(node)["style"] == Text(Declaration("width", node.width.value))
  {
    if node.width.Some? && node.height.Some? {
      var w, h := Declaration("width", node.width.value), Declaration("height", node.height.value);
      assert StyleParts(node) == [w, h];
      assert JoinSpace([w, h]) == w + " " + JoinSpace([h]);
    }
  }

  /** Digits and dots get "px"; anything with a unit (here a percentage) is kept as given. */
  lemma PixelsRule(d: string)
    requires DigitsAndDots(d)
    ensures Pixels(d) == d + "px"
    ensures Pixels(d + "%") == d + "%"
    ensures Pixels(d + "em") == d + "em"
  {
    assert (d + "%")[|d|] == '%';
    assert (d + "em")[|d|] == 'e' && (d + "em")[|d| + 1] == 'm';
  }

  /**
   * Centre alignment, asked for directly or through the `align-center`
   * class, wraps the video in a div: the div opens first, the tag is not
   * followed by a newline, and the text pushed closes the div. Any other
   * alignment goes on the tag and pushes nothing to close.
   */
  /**
   * The text after `<video>`: none under a text element or a reference,
   * whatever the reference's own parent is (the second half of the test can
   * never decide), none in a centring div, and a newline only for a block
   * parent without centring.
   */
  lemma SuffixRule(node: VideoNode)
    ensures InlineContext(node.parent) <==> IsTextElement(node.parent)
    ensures VideoSuffix(node) == "" <==> Centered(node) || node.parent.TextElementParent? || node.parent.ReferenceParent?
    ensures VideoSuffix(node) == "\n" <==> !Centered(node) && node.parent.BlockParent?
    ensures VideoHtml(node)[if Centered(node) then 1 else 0] == StartTag("video", VideoSuffix(node), VideoAtts(node))
  {
  }

  lemma AlignmentRule(node: VideoNode)
    ensures "align-center" in node.classes ==> Centered(node)
    ensures Centered(node) ==>
      VideoHtml(node)[0] == Raw(DivOpen) && VideoHtml(node)[1].suffix == "" &&
      ContextEntry(node) == DivClose && VideoAtts(node)["class"] == Text("align-center") &&
      "align" !in VideoAtts(node)
    ensures !Centered(node) && VideoAlign(node).Some? ==>
      VideoHtml(node)[0].StartTag? && ContextEntry(node) == "" &&
      VideoAtts(node)["align"] == Text(VideoAlign(node).value) &&
      VideoAtts(node)["class"] == Text("align-" + VideoAlign(node).value)
    ensures VideoAlign(node).None? ==>
      (VideoHtml(node)[0].StartTag? && ContextEntry(node) == "" &&
       "class" !in VideoAtts(node) && "align" !in VideoAtts(node))
  {
  }

  /**
   * One `<source>` per comma-separated URI, in order, after the `<video>`
   * tag; joined with commas the sources give back the node's URI.
   */
  lemma SourcePerUri(node: VideoNode, k: nat)
    requires k < |SplitOn(node.uri, ',')|
    ensures var start := if Centered(node) then 2 else 1;
      |VideoHtml(node)| == start + 2 * |SplitOn(node.uri, ',')| &&
      VideoHtml(node)[start + 2 * k] == SourceTag(SplitOn(node.uri, ',')[k]) &&
      VideoHtml(node)[start + 2 * k + 1] == Raw("</source>\n")
    ensures JoinOn(SplitOn(node.uri, ','), ',') == node.uri
  {
    SourcesAt(SplitOn(node.uri, ','), k);
    SplitJoin(node.uri, ',');
  }

  lemma {:induction false} SourcesAt(files: seq<string>, k: nat)
    requires k < |files|
    ensures Sources(files)[2 * k] == SourceTag(files[k]) && Sources(files)[2 * k + 1] == Raw("</source>\n")
  {
    if k > 0 {
      SourcesAt(files[1..], k - 1);
    }
  }

  /**
   * Leaving a video pops exactly the entry its visit pushed: the stack is
   * back where it was, and the body ends with the video's closing tag and
   * that entry (the div's closing tag when centred).
   */
  lemma VisitDepartBalanced(body: seq<Html>, context: seq<string>, node: VideoNode)
    ensures var r := DepartVideo(body + VideoHtml(node), context + [ContextEntry(node)]);
      r.Ok? && r.value.1 == context &&
      r.value.0 == body + VideoHtml(node) + [Raw("</video>\n"), Raw(ContextEntry(node))] &&
      (Centered(node) ==> r.value.0[|r.value.0| - 1] == Raw(DivClose))
  {
    assert (context + [ContextEntry(node)])[..|context|] == context;
  }
}
