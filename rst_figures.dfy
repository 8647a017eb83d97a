/**
 * rst2html.py, figures and references to them: the `figure` directive, the
 * `fig` role and the `FigureReferences` transform that numbers the labelled
 * figures of a document and fills in the text of every reference.
 *
 * A document is flattened into the sequence of its nodes in traversal
 * order; only figures and figure references matter to the transform.
 *
 * docutils runs the transform only when `fig_role` has queued it, that is
 * when the document holds at least one `:fig:` reference
 * (rst2html.py:169-170); the functions below apply it to any document, so a
 * statement about them concerns documents with such a reference.
 */
module RstFigures {

  import opened Wrappers
  import opened RstMedia

  // ----------------------------------------------------------------------
  // '%d'
  // ----------------------------------------------------------------------

  function Digit(d: nat): (c: char)
    requires d < 10
    ensures '0' <= c <= '9'
  {
    (48 + d) as char
  }

  /** `'%d' % n`: decimal digits, no leading zero. */
  function Decimal(n: nat): (s: string)
    ensures |s| >= 1 && forall k :: 0 <= k < |s| ==> '0' <= s[k] <= '9'
    ensures s[0] == '0' ==> n == 0
    decreases n
  {
    if n < 10 then [Digit(n)] else Decimal(n / 10) + [Digit(n % 10)]
  }

  /** The value of a string of decimal digits. */
  function DecimalValue(s: string): nat
    requires forall k :: 0 <= k < |s| ==> '0' <= s[k] <= '9'
  {
    if s == [] then 0 else DecimalValue(s[..|s| - 1]) * 10 + (s[|s| - 1] as int - 48)
  }

  /** The digits read back as the number they were written from. */
  lemma {:induction false} DecimalRoundTrip(n: nat)
    ensures DecimalValue(Decimal(n)) == n
    decreases n
  {
    if n >= 10 {
      var s := Decimal(n);
      assert s[..|s| - 1] == Decimal(n / 10);
      DecimalRoundTrip(n / 10);
    }
  }

  /** The text a resolved reference shows: `'(%d)' % n`. */
  function RefText(n: nat): (t: string)
  {
    "(" + Decimal(n) + ")"
  }

  /** `'(?)'`: the text of a reference nothing resolved. */
  const Unresolved: string := "(?)"

  /** A resolved reference never shows the placeholder, and different numbers show different texts. */
  lemma RefTextDistinct(n: nat, m: nat)
    ensures RefText(n) != Unresolved
    ensures RefText(n) == RefText(m) ==> n == m
  {
    assert RefText(n)[1] == Decimal(n)[0];
    if RefText(n) == RefText(m) {
      assert Decimal(n) == RefText(n)[1..|RefText(n)| - 1];
      assert Decimal(m) == RefText(m)[1..|RefText(m)| - 1];
      DecimalRoundTrip(n);
      DecimalRoundTrip(m);
    }
  }

  // ----------------------------------------------------------------------
  // Document nodes
  // ----------------------------------------------------------------------

  /**
   * The `label` attribute of a figure node: absent, None, or a string.
   * `node['label']` on an absent attribute raises KeyError.
   */
  datatype Label = Missing | NoLabel | Named(name: string)

  datatype Node =
    | Figure(labelAttr: Label, number: Option<nat>)
    | FigRef(target: string, text: string)
    | Other

  /** `node['label'] is not None`, reading an absent attribute as None. */
  predicate Labelled(n: Node)
  {
    n.Figure? && n.labelAttr.Named?
  }

  datatype PyError = KeyError(key: string) | AttributeError(name: string) | IndexError

  /** The number of labelled figures in `ns`. */
  function LabelledCount(ns: seq<Node>): (c: nat)
    ensures c <= |ns|
  {
    if ns == [] then 0 else LabelledCount(ns[..|ns| - 1]) + (if Labelled(ns[|ns| - 1]) then 1 else 0)
  }

  // ----------------------------------------------------------------------
  // FigureReferences.apply
  // ----------------------------------------------------------------------

  /** The first pass on one node, `num` being the count of labelled figures before it. */
  function NumberOne(n: Node, num: nat): Node
  {
    if !n.Figure? then n
    else if Labelled(n) then n.(number := Some(num + 1))
    else n.(number := None)
  }

  function Next(n: Node, num: nat): nat
  {
    if Labelled(n) then num + 1 else num
  }

  /** The first pass from a counter value on: the nodes after numbering. */
  function NumberFrom(ns: seq<Node>, num: nat): (r: seq<Node>)
    ensures |r| == |ns|
  {
    if ns == [] then [] else [NumberOne(ns[0], num)] + NumberFrom(ns[1..], Next(ns[0], num))
  }

  /** The first pass from a counter value on: the `numbers` dictionary it leaves. */
  function NumbersFrom(ns: seq<Node>, num: nat, m: map<string, nat>): map<string, nat>
  {
    if ns == [] then m
    else
      var m' := if Labelled(ns[0]) then m[ns[0].labelAttr.name := num + 1] else m;
      NumbersFrom(ns[1..], Next(ns[0], num), m')
  }

  /** The second pass on one node. */
  function ResolveOne(n: Node, numbers: map<string, nat>): Node
  {
    if n.FigRef? && n.target in numbers then n.(text := RefText(numbers[n.target])) else n
  }

  /** The document after the transform. */
  function Applied(ns: seq<Node>): (r: seq<Node>)
    ensures |r| == |ns|
  {
    var numbered := NumberFrom(ns, 0);
    var numbers := NumbersFrom(ns, 0, map[]);
    seq(|ns|, k requires 0 <= k < |ns| => ResolveOne(numbered[k], numbers))
  }

  /** The node at position i after numbering from `num`. */
  lemma {:induction false} NumberAt(ns: seq<Node>, num: nat, i: nat)
    requires i < |ns|
    ensures NumberFrom(ns, num)[i] == NumberOne(ns[i], num + LabelledCount(ns[..i]))
  {
    if i > 0 {
      NumberAt(ns[1..], Next(ns[0], num), i - 1);
      LabelledCountCons(ns[0], ns[1..][..i - 1]);
      assert [ns[0]] + ns[1..][..i - 1] == ns[..i];
    }
  }

  lemma {:induction false} LabelledCountCons(n: Node, ns: seq<Node>)
    ensures LabelledCount([n] + ns) == LabelledCount(ns) + (if Labelled(n) then 1 else 0)
    decreases |ns|
  {
    if ns != [] {
      assert ([n] + ns)[..|ns|] == [n] + ns[..|ns| - 1];
      LabelledCountCons(n, ns[..|ns| - 1]);
    }
  }

  /**
   * Figures with a label are numbered 1, 2, ... in document order (the k-th
   * labelled figure gets k); figures without one get None; every other node
   * is left as it is.
   */
  lemma FiguresNumbered(ns: seq<Node>, i: nat)
    requires i < |ns|
    ensures Labelled(ns[i]) ==> Applied(ns)[i] == ns[i].(number := Some(LabelledCount(ns[..i]) + 1))
    ensures ns[i].Figure? && !Labelled(ns[i]) ==> Applied(ns)[i] == ns[i].(number := None)
    ensures !ns[i].Figure? && !ns[i].FigRef? ==> Applied(ns)[i] == ns[i]
  {
    NumberAt(ns, 0, i);
  }

  /** The dictionary keys are the labels seen; a key maps to its last figure's number. */
  lemma {:induction false} NumbersLast(ns: seq<Node>, num: nat, m: map<string, nat>, l: string, j: nat)
    requires j < |ns| && Labelled(ns[j]) && ns[j].labelAttr.name == l
    requires forall k :: j < k < |ns| ==> !(Labelled(ns[k]) && ns[k].labelAttr.name == l)
    ensures l in NumbersFrom(ns, num, m)
    ensures NumbersFrom(ns, num, m)[l] == num + LabelledCount(ns[..j]) + 1
  {
    var m' := if Labelled(ns[0]) then m[ns[0].labelAttr.name := num + 1] else m;
    if j == 0 {
      NumbersUntouched(ns[1..], Next(ns[0], num), m', l);
    } else {
      NumbersLast(ns[1..], Next(ns[0], num), m', l, j - 1);
      LabelledCountCons(ns[0], ns[1..][..j - 1]);
      assert [ns[0]] + ns[1..][..j - 1] == ns[..j];
    }
  }

  lemma {:induction false} NumbersUntouched(ns: seq<Node>, num: nat, m: map<string, nat>, l: string)
    requires forall k :: 0 <= k < |ns| ==> !(Labelled(ns[k]) && ns[k].labelAttr.name == l)
    ensures (l in NumbersFrom(ns, num, m)) == (l in m)
    ensures l in m ==> NumbersFrom(ns, num, m)[l] == m[l]
    decreases |ns|
  {
    if ns != [] {
      var m' := if Labelled(ns[0]) then m[ns[0].labelAttr.name := num + 1] else m;
      NumbersUntouched(ns[1..], Next(ns[0], num), m', l);
    }
  }

  /**
   * A reference to a label resolves to the number of the LAST figure
   * carrying that label; a reference to a label no figure carries keeps its
   * text.
   */
  lemma ReferenceResolved(ns: seq<Node>, i: nat, j: nat)
    requires i < |ns| && ns[i].FigRef? && j < |ns| && Labelled(ns[j]) && ns[j].labelAttr.name == ns[i].target
    requires forall k :: j < k < |ns| ==> !(Labelled(ns[k]) && ns[k].labelAttr.name == ns[i].target)
    ensures Applied(ns)[j].Figure? && Applied(ns)[j].number.Some?
    ensures Applied(ns)[i] == ns[i].(text := RefText(Applied(ns)[j].number.value))
  {
    NumberAt(ns, 0, i);
    NumberAt(ns, 0, j);
    NumbersLast(ns, 0, map[], ns[i].target, j);
  }

  lemma ReferenceUnknown(ns: seq<Node>, i: nat)
    requires i < |ns| && ns[i].FigRef?
    requires forall k :: 0 <= k < |ns| ==> !(Labelled(ns[k]) && ns[k].labelAttr.name == ns[i].target)
    ensures Applied(ns)[i] == ns[i]
  {
    NumberAt(ns, 0, i);
    NumbersUntouched(ns, 0, map[], ns[i].target);
  }

  /**
   * `FigureReferences.apply` with the evidently intended reading of a
   * figure without a `label` attribute (unlabelled): a first pass numbers
   * the figures and records label -> number, a second pass rewrites the
   * text of every reference whose target was recorded. Both passes update
   * the nodes in place.
   */
  method Apply(nodes: array<Node>)
    modifies nodes
    ensures nodes[..] == Applied(old(nodes[..]))
  {
    var numbers := NumberFigures(nodes);
    ResolveReferences(nodes, numbers);
  }

  /** The first loop of `apply`: number the figures, recording label -> number. */
  method NumberFigures(nodes: array<Node>) returns (numbers: map<string, nat>)
    modifies nodes
    ensures nodes[..] == NumberFrom(old(nodes[..]), 0)
    ensures numbers == NumbersFrom(old(nodes[..]), 0, map[])
  {
    ghost var doc := nodes[..];
    var num: nat := 0;
    numbers := map[];
    var i := 0;
    while i < nodes.Length
      invariant 0 <= i <= nodes.Length
      invariant nodes[i..] == doc[i..]
      invariant NumberFrom(doc, 0) == nodes[..i] + NumberFrom(doc[i..], num)
      invariant NumbersFrom(doc, 0, map[]) == NumbersFrom(doc[i..], num, numbers)
    {
      var node := nodes[i];
      ghost var numBefore, numbersBefore := num, numbers;
      assert doc[i..] == [node] + doc[i + 1..];
      if node.Figure? {
        if node.labelAttr.Named? {
          num := num + 1;
          nodes[i] := node.(number := Some(num));
          numbers := numbers[node.labelAttr.name := num];
        } else {
          nodes[i] := node.(number := None);
        }
      }
      NumberStep(doc[i..], numBefore, numbersBefore);
      assert nodes[..i + 1] == nodes[..i] + [NumberOne(node, numBefore)];
      i := i + 1;
    }
    assert nodes[..] == nodes[..nodes.Length];
  }

  lemma NumberStep(rest: seq<Node>, num: nat, m: map<string, nat>)
    requires rest != []
    ensures NumberFrom(rest, num) == [NumberOne(rest[0], num)] + NumberFrom(rest[1..], Next(rest[0], num))
    ensures NumbersFrom(rest, num, m) ==
      NumbersFrom(rest[1..], Next(rest[0], num), if Labelled(rest[0]) then m[rest[0].labelAttr.name := num + 1] else m)
  {
  }

  /** The second loop of `apply`: a reference to a recorded label shows its number. */
  method ResolveReferences(nodes: array<Node>, numbers: map<string, nat>)
    modifies nodes
    ensures forall k :: 0 <= k < nodes.Length ==> nodes[k] == ResolveOne(old(nodes[k]), numbers)
  {
    var i := 0;
    while i < nodes.Length
      invariant 0 <= i <= nodes.Length
      invariant forall k :: 0 <= k < i ==> nodes[k] == ResolveOne(old(nodes[k]), numbers)
      invariant forall k :: i <= k < nodes.Length ==> nodes[k] == old(nodes[k])
    {
      var node := nodes[i];
      if node.FigRef? && node.target in numbers {
        nodes[i] := node.(text := RefText(numbers[node.target]));
      }
      i := i + 1;
    }
  }

  /**
   * `FigureReferences.apply` as written: `node['label']` raises KeyError on
   * the first figure without a `label` attribute, before any reference is
   * resolved.
   */
  function ApplyAsWritten(ns: seq<Node>): (r: Result<seq<Node>, PyError>)
    ensures r.Err? <==> exists k :: 0 <= k < |ns| && ns[k].Figure? && ns[k].labelAttr.Missing?
    ensures r.Err? ==> r.error == KeyError("label")
    ensures r.Ok? ==> r.value == Applied(ns)
  {
    if exists k :: 0 <= k < |ns| && ns[k].Figure? && ns[k].labelAttr.Missing? then Err(KeyError("label"))
    else Ok(Applied(ns))
  }

  // ----------------------------------------------------------------------
  // The fig role and the figure directive
  // ----------------------------------------------------------------------

  /** `fig_role`: a reference to the (unescaped) role text, showing the placeholder. */
  function FigRole(text: string): (n: Node)
    ensures n.FigRef? && n.target == text && n.text == Unresolved
  {
    FigRef(text, Unresolved)
  }

  /** A `fig` reference to a label no figure carries still shows "(?)" after the transform. */
  lemma DanglingReferenceShowsPlaceholder(ns: seq<Node>, i: nat, text: string)
    requires i < |ns| && ns[i] == FigRole(text)
    requires forall k :: 0 <= k < |ns| ==> !(Labelled(ns[k]) && ns[k].labelAttr.name == text)
    ensures Applied(ns)[i].FigRef? && Applied(ns)[i].text == Unresolved
  {
    ReferenceUnknown(ns, i);
  }

  /** The id of the target a figure with this label is given. */
  function TargetId(name: string): (id: string)
  {
    "figure-" + name
  }

  /** `html_visit_figref`: the opening tag of the link a reference is written as. */
  function FigrefOpen(target: string): (html: string)
  {
    "<a href=\"#figure-" + target + "\">"
  }

  /** The link of a reference points at the id of the target of the figure it names. */
  lemma LinkPointsAtTarget(name: string)
    ensures FigrefOpen(name) == "<a href=\"#" + TargetId(name) + "\">"
  {
  }

  datatype FigWidth = ImageWidth | Length(value: string)
  datatype Width = Pixels(px: nat) | Given(value: string)

  /** The options the directive reads itself. */
  datatype FigureOptions = FigureOptions(labelOption: Option<string>, figwidth: Option<FigWidth>,
                                         figclass: Option<seq<string>>, align: Option<string>)

  /** A node of the parsed directive content. */
  datatype Body = Paragraph(text: string) | Comment(length: nat) | OtherBody

  /** The figure node the directive builds. */
  datatype FigureNode = FigureNode(media: Media, width: Option<Width>, classes: seq<string>,
                                   align: Option<string>, caption: Option<string>,
                                   legend: seq<Body>, labelAttr: Label)

  /** The nodes the directive returns. */
  datatype Out = Target(id: string) | FigureOut(figure: FigureNode) | MediaMessage | CaptionError

  /** What opening the image file for `figwidth: image` gives: its width, an I/O failure, or no such function. */
  datatype OpenOutcome = Opened(width: nat) | IOFailure | NoOpenFunction

  /** The call as written, `PIL.open`: the PIL package itself has no `open`. */
  const OpenAsWritten: OpenOutcome := NoOpenFunction

  /** Python truthiness of an optional string. */
  predicate Truthy(s: Option<string>)
  {
    s.Some? && s.value != ""
  }

  /**
   * `Figure.run`. The media node itself comes from `Media.run`
   * (`mediaFails` when it returns a system message); `content` is the
   * parsed directive content; `fileInsertion` is the document setting and
   * `open` the outcome of opening the image.
   */
  function FigureRun(opts: FigureOptions, uri: string, mediaFails: bool, content: seq<Body>,
                     fileInsertion: bool, open: OpenOutcome): (r: Result<seq<Out>, PyError>)
  {
    if mediaFails then Ok([MediaMessage])
    else if opts.figwidth == Some(ImageWidth) && fileInsertion && open.NoOpenFunction? then
      Err(AttributeError("open"))
    else
      var width :=
        if opts.figwidth == Some(ImageWidth) then
          (if fileInsertion && open.Opened? then Some(Pixels(open.width)) else None)
        else if opts.figwidth.Some? then Some(Given(opts.figwidth.value.value))
        else None;
      var figclasses := if opts.figclass.Some? then opts.figclass.value else ["right"];
      var align := if Truthy(opts.align) then opts.align else None;
      var fig := FigureNode(MediaRun(uri), width, figclasses, align, None, [], Missing);
      if content != [] && !content[0].Paragraph? && content[0] != Comment(0) then
        Ok([FigureOut(fig), CaptionError])
      else
        var caption := if content != [] && content[0].Paragraph? then Some(content[0].text) else None;
        var legend := if |content| > 1 then content[1..] else [];
        var name := if Truthy(opts.labelOption) then opts.labelOption.value else uri;
        var fig' := fig.(caption := caption, legend := legend, labelAttr := Named(name));
        if name != "" then Ok([Target(TargetId(name)), FigureOut(fig')]) else Ok([FigureOut(fig')])
  }

  /** The node the transform sees for a figure the directive built. */
  function AsDocumentNode(f: FigureNode): (n: Node)
    ensures n.Figure? && n.labelAttr == f.labelAttr && n.number == None
  {
    Figure(f.labelAttr, None)
  }

  predicate Completed(opts: FigureOptions, content: seq<Body>)
  {
    content == [] || content[0].Paragraph? || content[0] == Comment(0)
  }

  /**
   * A figure whose caption is acceptable is labelled with its `label`
   * option, or its URI when none is given; it is preceded by a target
   * `figure-<label>` whenever that label is not empty; its classes default
   * to ["right"]; and its media is a video or an image by the URI's
   * extension.
   */
  lemma FigureLabelAndTarget(opts: FigureOptions, uri: string, content: seq<Body>, fileInsertion: bool,
                             open: OpenOutcome)
    requires !(opts.figwidth == Some(ImageWidth) && fileInsertion && open.NoOpenFunction?)
    requires Completed(opts, content)
    ensures var r := FigureRun(opts, uri, false, content, fileInsertion, open);
      var name := if Truthy(opts.labelOption) then opts.labelOption.value else uri;
      r.Ok? && r.value[|r.value| - 1].FigureOut? &&
      r.value[|r.value| - 1].figure.labelAttr == Named(name) &&
      r.value[|r.value| - 1].figure.media == MediaRun(uri) &&
      (opts.figclass.None? ==> r.value[|r.value| - 1].figure.classes == ["right"]) &&
      (name != "" ==> |r.value| == 2 && r.value[0] == Target(TargetId(name))) &&
      (name == "" ==> |r.value| == 1)
  {
  }

  /**
   * A caption that is neither a paragraph nor an empty comment makes the
   * directive return the figure and an error, before the figure is given
   * its `label` attribute.
   */
  lemma CaptionErrorLeavesLabelMissing(opts: FigureOptions, uri: string, content: seq<Body>,
                                       fileInsertion: bool, open: OpenOutcome)
    requires !(opts.figwidth == Some(ImageWidth) && fileInsertion && open.NoOpenFunction?)
    requires !Completed(opts, content)
    ensures var r := FigureRun(opts, uri, false, content, fileInsertion, open);
      r.Ok? && |r.value| == 2 && r.value[1] == CaptionError &&
      r.value[0].FigureOut? && r.value[0].figure.labelAttr == Missing
  {
  }

  /**
   * As written, one such figure anywhere in a document that also holds a
   * `:fig:` reference (so that the transform runs) makes the transform raise
   * KeyError; with an absent label read as None the same figure is simply
   * left unnumbered.
   */
  lemma CaptionErrorBreaksTransform(ns: seq<Node>, i: nat, f: FigureNode)
    requires i < |ns| && f.labelAttr == Missing && ns[i] == AsDocumentNode(f)
    ensures ApplyAsWritten(ns) == Err(KeyError("label"))
    ensures Applied(ns)[i] == Figure(Missing, None)
  {
    FiguresNumbered(ns, i);
  }

  /** Every figure the directive completes is labelled, so the transform numbers it. */
  lemma DirectiveFiguresNumbered(opts: FigureOptions, uri: string, content: seq<Body>, fileInsertion: bool,
                                 open: OpenOutcome, ns: seq<Node>, i: nat)
    requires !(opts.figwidth == Some(ImageWidth) && fileInsertion && open.NoOpenFunction?)
    requires Completed(opts, content)
    requires i < |ns|
    requires var r := FigureRun(opts, uri, false, content, fileInsertion, open);
      r.Ok? && r.value[|r.value| - 1].FigureOut? && ns[i] == AsDocumentNode(r.value[|r.value| - 1].figure)
    ensures Applied(ns)[i].Figure? && Applied(ns)[i].number == Some(LabelledCount(ns[..i]) + 1)
  {
    FigureLabelAndTarget(opts, uri, content, fileInsertion, open);
    FiguresNumbered(ns, i);
  }

  /**
   * `figwidth: image` with file insertion enabled, as written: the call
   * `PIL.open` raises AttributeError, since the PIL package has no `open`,
   * and nothing catches it.
   */
  lemma FigwidthImageAsWritten(opts: FigureOptions, uri: string, content: seq<Body>)
    requires opts.figwidth == Some(ImageWidth)
    ensures FigureRun(opts, uri, false, content, true, OpenAsWritten) == Err(AttributeError("open"))
  {
  }

  /**
   * `figwidth: image` with file insertion enabled and the image opened
   * (`PIL.Image.open`): the figure gets the image's pixel width; an I/O
   * failure leaves the width unset; without file insertion nothing is opened.
   */
  lemma FigwidthImage(opts: FigureOptions, uri: string, content: seq<Body>, w: nat)
    requires opts.figwidth == Some(ImageWidth)
    ensures var r := FigureRun(opts, uri, false, content, true, Opened(w));
      var at := if Completed(opts, content) then |r.value| - 1 else 0;
      r.Ok? && 0 <= at < |r.value| && r.value[at].FigureOut? && r.value[at].figure.width == Some(Pixels(w))
    ensures var r := FigureRun(opts, uri, false, content, true, IOFailure);
      var at := if Completed(opts, content) then |r.value| - 1 else 0;
      r.Ok? && 0 <= at < |r.value| && r.value[at].FigureOut? && r.value[at].figure.width.None?
    ensures forall open :: FigureRun(opts, uri, false, content, false, open) ==
                           FigureRun(opts, uri, false, content, false, IOFailure)
  {
  }
}
