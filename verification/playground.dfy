/** The code playground: three panes whose widgets can be swapped by
    dragging one pane's header onto another, an editor that snippets can be
    dropped into, and the labels and previews shown for them. */
module PlayGround {
  import opened Js

  /** The three panes; only these are ever drop targets. */
  datatype Slot = Left | RightTop | RightBottom

  function SlotKey(s: Slot): (k: string)
    ensures k in SlotKeys()
  {
    match s
    case Left => "left"
    case RightTop => "rightTop"
    case RightBottom => "rightBottom"
  }

  function SlotKeys(): set<string> {
    {"left", "rightTop", "rightBottom"}
  }

  /** Pane key to widget name; a JS object, so any key may appear. */
  type Layout = map<string, Value>

  function InitialLayout(): Layout {
    map["left" := Str("questions"), "rightTop" := Str("editor"), "rightBottom" := Str("output")]
  }

  /** Each pane holds one of the three widgets and each widget is shown in
      exactly one pane. */
  predicate ValidLayout(l: Layout) {
    l.Keys == SlotKeys() &&
    {l["left"], l["rightTop"], l["rightBottom"]} == {Str("questions"), Str("editor"), Str("output")}
  }

  lemma InitialLayoutValid()
    ensures ValidLayout(InitialLayout())
  {
    var l := InitialLayout();
    assert l.Keys == SlotKeys();
  }

  /** `onDropWidget` as written: `src` is whatever the drag carried as
      plain text, and it is trusted to be a pane key. */
  function DropWidgetAsWritten(l: Layout, src: string, target: Slot): (r: Layout)
    ensures src == "" || src == SlotKey(target) ==> r == l
    ensures src != "" && src != SlotKey(target) ==>
      && r.Keys == l.Keys + {src, SlotKey(target)}
      && r[src] == Get(l, SlotKey(target))
      && r[SlotKey(target)] == Get(l, src)
      && forall k :: k in l && k != src && k != SlotKey(target) ==> r[k] == l[k]
  {
    var t := SlotKey(target);
    if src == "" || src == t then l
    else
      var tmp := Get(l, src);
      l[src := Get(l, t)][t := tmp]
  }

  /** Plain text that is not a pane key, such as a selection dragged out of
      the editor, empties the target pane and adds a bogus key. */
  lemma DropOfForeignTextBreaksLayout(l: Layout, src: string, target: Slot)
    requires ValidLayout(l)
    requires src != "" && src !in SlotKeys()
    ensures DropWidgetAsWritten(l, src, target)[SlotKey(target)] == Undefined
    ensures !ValidLayout(DropWidgetAsWritten(l, src, target))
  {
    assert src in DropWidgetAsWritten(l, src, target).Keys;
  }

  /** A concrete instance: dropping the text `x` on the left pane. */
  lemma DropOfTextOnLeftPane()
    ensures DropWidgetAsWritten(InitialLayout(), "x", Left)["left"] == Undefined
  {
    InitialLayoutValid();
    DropOfForeignTextBreaksLayout(InitialLayout(), "x", Left);
  }

  /** `onDropWidget` with the source checked to be a pane key: the widgets
      of the two panes are exchanged, everything else stays. */
  function DropWidget(l: Layout, src: string, target: Slot): (r: Layout)
    ensures src !in SlotKeys() || src == SlotKey(target) ==> r == l
    ensures src in SlotKeys() && src != SlotKey(target) ==>
      && r.Keys == l.Keys + {src, SlotKey(target)}
      && r[src] == Get(l, SlotKey(target))
      && r[SlotKey(target)] == Get(l, src)
      && forall k :: k in l && k != src && k != SlotKey(target) ==> r[k] == l[k]
  {
    if src in SlotKeys() then DropWidgetAsWritten(l, src, target) else l
  }

  /** On the drags the page itself starts, the correction changes nothing. */
  lemma DropWidgetAgreesOnPaneKeys(l: Layout, src: string, target: Slot)
    requires src == "" || src in SlotKeys()
    ensures DropWidget(l, src, target) == DropWidgetAsWritten(l, src, target)
  {
  }

  /** A swap keeps every widget shown exactly once. */
  lemma DropPreservesValid(l: Layout, src: string, target: Slot)
    requires ValidLayout(l)
    ensures ValidLayout(DropWidget(l, src, target))
  {
    var r := DropWidget(l, src, target);
    if src in SlotKeys() && src != SlotKey(target) {
      assert r.Keys == SlotKeys();
      assert {r["left"], r["rightTop"], r["rightBottom"]} == {l["left"], l["rightTop"], l["rightBottom"]};
    }
  }

  /** Repeating the same swap restores the layout. */
  lemma SwapTwiceRestores(l: Layout, src: string, target: Slot)
    requires ValidLayout(l)
    ensures DropWidget(DropWidget(l, src, target), src, target) == l
  {
    var r := DropWidget(DropWidget(l, src, target), src, target);
    if src in SlotKeys() && src != SlotKey(target) {
      assert r.Keys == l.Keys;
      assert forall k :: k in l ==> r[k] == l[k];
    }
  }

  /** The layout after a sequence of drags, first drag first. */
  function ApplyDrops(l: Layout, drops: seq<(string, Slot)>): Layout
    decreases |drops|
  {
    if |drops| == 0 then l
    else ApplyDrops(DropWidget(l, drops[0].0, drops[0].1), drops[1..])
  }

  /** Any sequence of drags keeps the layout a permutation of the three
      widgets. */
  lemma {:induction false} DropsPreserveValid(l: Layout, drops: seq<(string, Slot)>)
    requires ValidLayout(l)
    ensures ValidLayout(ApplyDrops(l, drops))
    decreases |drops|
  {
    if |drops| > 0 {
      DropPreservesValid(l, drops[0].0, drops[0].1);
      DropsPreserveValid(DropWidget(l, drops[0].0, drops[0].1), drops[1..]);
    }
  }

  /** `c ? c + "\n" + snippet : snippet` */
  function AppendSnippet(code: string, snippet: string): (r: string)
    ensures code == "" ==> r == snippet
    ensures code != "" ==> |r| == |code| + 1 + |snippet| && r[..|code|] == code && r[|code|] == '\n'
    ensures r[|r| - |snippet|..] == snippet
  {
    if code != "" then code + "\n" + snippet else snippet
  }

  /** Dropping snippets one after another on an empty editor puts them on
      separate lines. */
  lemma AppendTwice(a: string, b: string)
    requires a != ""
    ensures AppendSnippet(AppendSnippet("", a), b) == a + "\n" + b
  {
  }

  const PreviewLength := 60

  /** The secondary text of a question: the snippet cut to 60 characters,
      with "..." only when something was cut. */
  function Preview(snippet: string): (r: string)
    ensures |snippet| <= PreviewLength ==> r == snippet
    ensures |snippet| > PreviewLength ==> |r| == PreviewLength + 3 && r[..PreviewLength] == snippet[..PreviewLength] && r[PreviewLength..] == "..."
  {
    var cut := if |snippet| <= PreviewLength then snippet else snippet[..PreviewLength];
    cut + (if |snippet| > PreviewLength then "..." else "")
  }

  /** The header title of a pane: the three widget names capitalised, any
      other value shown as it is. */
  function WidgetLabel(t: string): (r: string)
    ensures t == "questions" ==> r == "Questions"
    ensures t == "editor" ==> r == "Editor"
    ensures t == "output" ==> r == "Output"
    ensures t !in {"questions", "editor", "output"} ==> r == t
  {
    if t == "questions" then "Questions"
    else if t == "editor" then "Editor"
    else if t == "output" then "Output"
    else t
  }

  /** The panes of a valid layout carry three different labels. */
  lemma ValidLayoutLabelsDistinct(l: Layout)
    requires ValidLayout(l)
    requires forall k :: k in l ==> l[k].Str?
    ensures WidgetLabel(l["left"].s) != WidgetLabel(l["rightTop"].s)
    ensures WidgetLabel(l["left"].s) != WidgetLabel(l["rightBottom"].s)
    ensures WidgetLabel(l["rightTop"].s) != WidgetLabel(l["rightBottom"].s)
  {
  }

  /** What a drop on the editor carried under "question-snippet". */
  datatype SnippetDrop = NoSnippet | Malformed | Question(snippet: string)

  const InitialCode := "// write your JS here\nconsole.log('run the code');"

  class PlayGround {
    var layout: Layout
    var code: string

    ghost predicate Valid()
      reads this
    {
      ValidLayout(layout)
    }

    constructor ()
      ensures Valid()
      ensures layout == InitialLayout() && code == InitialCode
    {
      layout := InitialLayout();
      code := InitialCode;
      InitialLayoutValid();
    }

    /** A pane header dropped on `target`; `src` is the plain text of the
        drag. */
    method OnDropWidget(src: string, target: Slot)
      requires Valid()
      modifies this
      ensures Valid()
      ensures layout == DropWidget(old(layout), src, target)
      ensures code == old(code)
    {
      DropPreservesValid(layout, src, target);
      if src !in SlotKeys() || src == SlotKey(target) {
        return;
      }
      var next := layout;
      var tmp := Get(next, src);
      next := next[src := Get(next, SlotKey(target))];
      next := next[SlotKey(target) := tmp];
      layout := next;
    }

    /** A question dropped on the editor; nothing happens without data or
        when it does not parse. */
    method OnDropSnippet(drop: SnippetDrop)
      modifies this
      ensures drop.Question? ==> code == AppendSnippet(old(code), drop.snippet)
      ensures !drop.Question? ==> code == old(code)
      ensures layout == old(layout)
    {
      if drop.Question? {
        code := AppendSnippet(code, drop.snippet);
      }
    }

    /** Typing in the editor, or clicking a question. */
    method SetCode(c: string)
      modifies this
      ensures code == c && layout == old(layout)
    {
      code := c;
    }
  }
}
