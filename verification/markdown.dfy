/**
 The block structure of rendered task reports: `markdown_to_safe_html` of
 apps/video-call/task_worker.py, from the lines of the source to the list of rendered
 blocks. Inline rendering and escaping are left as they are: a block carries its text.
 */
module MarkdownBlocks {
  import opened Common
  import opened Text

  datatype ListKind = Bullets | Numbers

  datatype Leaf = Heading(level: nat, text: string) | Quote(text: string) | Rule | Paragraph(text: string)

  /** One entry of `rendered`. */
  datatype Block =
    | OpenList(kind: ListKind)
    | CloseList(kind: ListKind)
    | ListItem(text: string)
    | Simple(leaf: Leaf)
    | Code(lines: seq<string>)

  // ----- the lines

  datatype Kind = Fence | Blank | Item(kind: ListKind, text: string) | Other(leaf: Leaf)

  /** A source line without its trailing white space, and what it is. */
  datatype Line = Line(text: string, read: Kind)

  function SkipSpaces(s: string, i: nat): nat
    requires i <= |s|
    decreases |s| - i
  {
    if i < |s| && IsSpace(s[i]) then SkipSpaces(s, i + 1) else i
  }

  function After(s: string, i: nat): string {
    if i <= |s| && SkipSpaces(s, i) <= |s| then s[SkipSpaces(s, i)..] else ""
  }

  function CountHashes(s: string, i: nat := 0): nat
    requires i <= |s|
    decreases |s| - i
  {
    if i < |s| && s[i] == '#' then CountHashes(s, i + 1) else i
  }

  function CountDigits(s: string, i: nat := 0): nat
    requires i <= |s|
    decreases |s| - i
  {
    if i < |s| && '0' <= s[i] <= '9' then CountDigits(s, i + 1) else i
  }

  predicate SpaceAt(s: string, i: nat) {
    i < |s| && IsSpace(s[i])
  }

  /** A stripped line, in the order of the tests in the source. */
  function Classify(s: string): Kind {
    if "```" <= s then Fence
    else if s == "" then Blank
    else
      var hashes, digits := CountHashes(s), CountDigits(s);
      if 1 <= hashes <= 4 && SpaceAt(s, hashes) then Other(Heading(hashes, After(s, hashes)))
      else if s[0] in {'-', '*', '+'} && SpaceAt(s, 1) then Item(Bullets, After(s, 1))
      else if 1 <= digits < |s| && s[digits] in {'.', ')'} && SpaceAt(s, digits + 1) then Item(Numbers, After(s, digits + 1))
      else if s[0] == '>' then Other(Quote(Strip(s[1..])))
      else if s == "---" || s == "***" then Other(Rule)
      else Other(Paragraph(s))
  }

  function Read(raw: string): Line {
    Line(RStrip(raw), Classify(Strip(RStrip(raw))))
  }

  function ReadAll(raws: seq<string>): seq<Line> {
    seq(|raws|, i requires 0 <= i < |raws| => Read(raws[i]))
  }

  // ----- the renderer, a state machine over the lines

  datatype Renderer = Renderer(rendered: seq<Block>, list: Option<ListKind>, inCode: bool, code: seq<string>)

  const START := Renderer([], None, false, [])

  function Closed(r: Renderer): Renderer {
    if r.list.Some? then r.(rendered := r.rendered + [CloseList(r.list.value)], list := None) else r
  }

  function Feed(r: Renderer, line: Line): Renderer {
    if line.read.Fence? then
      var c := Closed(r);
      if c.inCode then c.(rendered := c.rendered + [Code(c.code)], code := [], inCode := false) else c.(inCode := true)
    else if r.inCode then r.(code := r.code + [line.text])
    else
      match line.read
      case Item(kind, text) =>
        var o := if r.list == Some(kind) then r
                 else Closed(r).(list := Some(kind), rendered := Closed(r).rendered + [OpenList(kind)]);
        o.(rendered := o.rendered + [ListItem(text)])
      case Other(leaf) => Closed(r).(rendered := Closed(r).rendered + [Simple(leaf)])
      case _ => Closed(r)
  }

  function Finish(r: Renderer): seq<Block> {
    var c := Closed(r);
    if c.inCode then c.rendered + [Code(c.code)] else c.rendered
  }

  function FeedAll(r: Renderer, lines: seq<Line>): Renderer
    decreases |lines|
  {
    if lines == [] then r else FeedAll(Feed(r, lines[0]), lines[1..])
  }

  function Render(lines: seq<Line>): seq<Block> {
    Finish(FeedAll(START, lines))
  }

  // ----- the reference: a document is a sequence of lists, code blocks and other blocks

  datatype Node = List(kind: ListKind, items: seq<string>) | Verbatim(lines: seq<string>) | Single(leaf: Leaf)

  /** The items at the front that belong to one list. */
  function ItemsOf(kind: ListKind, lines: seq<Line>): (items: seq<string>)
    ensures |items| <= |lines|
    decreases |lines|
  {
    if lines == [] || !lines[0].read.Item? || lines[0].read.kind != kind then []
    else [lines[0].read.text] + ItemsOf(kind, lines[1..])
  }

  /** The lines up to the closing fence, if there is one. */
  function CodeOf(lines: seq<Line>): (code: seq<string>)
    ensures |code| <= |lines|
    decreases |lines|
  {
    if lines == [] || lines[0].read.Fence? then [] else [lines[0].text] + CodeOf(lines[1..])
  }

  function AfterItems(kind: ListKind, lines: seq<Line>): (rest: seq<Line>)
    ensures |rest| <= |lines|
  {
    lines[|ItemsOf(kind, lines)|..]
  }

  /** What follows the closing fence; nothing if the block is not terminated. */
  function AfterCode(lines: seq<Line>): (rest: seq<Line>)
    ensures |rest| <= |lines|
  {
    var n := |CodeOf(lines)|;
    if n < |lines| then lines[n + 1..] else []
  }

  function Structure(lines: seq<Line>): seq<Node>
    decreases |lines|
  {
    if lines == [] then []
    else
      match lines[0].read
      case Blank => Structure(lines[1..])
      case Other(leaf) => [Single(leaf)] + Structure(lines[1..])
      case Fence => [Verbatim(CodeOf(lines[1..]))] + Structure(AfterCode(lines[1..]))
      case Item(kind, text) =>
        [List(kind, [text] + ItemsOf(kind, lines[1..]))] + Structure(AfterItems(kind, lines[1..]))
  }

  function Items(texts: seq<string>): seq<Block> {
    if texts == [] then [] else [ListItem(texts[0])] + Items(texts[1..])
  }

  function NodeBlocks(n: Node): seq<Block> {
    match n
    case List(kind, items) => [OpenList(kind)] + Items(items) + [CloseList(kind)]
    case Verbatim(lines) => [Code(lines)]
    case Single(leaf) => [Simple(leaf)]
  }

  function Flatten(doc: seq<Node>): seq<Block> {
    if doc == [] then [] else NodeBlocks(doc[0]) + Flatten(doc[1..])
  }

  // ----- the renderer prints the structure

  /** What remains to be printed outside lists and code, inside a list, and inside code. */
  function TextLeft(lines: seq<Line>): seq<Block> {
    Flatten(Structure(lines))
  }

  function ListLeft(kind: ListKind, lines: seq<Line>): seq<Block> {
    Items(ItemsOf(kind, lines)) + [CloseList(kind)] + TextLeft(AfterItems(kind, lines))
  }

  function CodeLeft(code: seq<string>, lines: seq<Line>): seq<Block> {
    [Code(code + CodeOf(lines))] + TextLeft(AfterCode(lines))
  }

  function Left(r: Renderer, lines: seq<Line>): seq<Block> {
    if r.inCode then CodeLeft(r.code, lines)
    else if r.list.Some? then ListLeft(r.list.value, lines)
    else TextLeft(lines)
  }

  predicate Proper(r: Renderer) {
    (r.inCode ==> r.list.None?) && (!r.inCode ==> r.code == [])
  }

  lemma TextLeftFence(lines: seq<Line>)
    requires lines != [] && lines[0].read.Fence?
    ensures TextLeft(lines) == CodeLeft([], lines[1..])
  {
    var rest := lines[1..];
    FlattenCons(Verbatim(CodeOf(rest)), Structure(AfterCode(rest)));
    assert [] + CodeOf(rest) == CodeOf(rest);
    hide Flatten, CodeOf, AfterCode;
  }

  lemma TextLeftOther(lines: seq<Line>)
    requires lines != [] && lines[0].read.Other?
    ensures TextLeft(lines) == [Simple(lines[0].read.leaf)] + TextLeft(lines[1..])
  {
    FlattenCons(Single(lines[0].read.leaf), Structure(lines[1..]));
    hide Flatten;
  }

  lemma TextLeftItem(lines: seq<Line>)
    requires lines != [] && lines[0].read.Item?
    ensures var Item(kind, text) := lines[0].read;
            TextLeft(lines) == [OpenList(kind), ListItem(text)] + ListLeft(kind, lines[1..])
  {
    hide Flatten, Items, ItemsOf, AfterItems;
    var Item(kind, text) := lines[0].read;
    ListPrinted(kind, text, ItemsOf(kind, lines[1..]), Structure(AfterItems(kind, lines[1..])));
  }

  lemma ListPrinted(kind: ListKind, text: string, items: seq<string>, doc: seq<Node>)
    ensures Flatten([List(kind, [text] + items)] + doc)
         == [OpenList(kind), ListItem(text)] + (Items(items) + [CloseList(kind)] + Flatten(doc))
  {
    FlattenCons(List(kind, [text] + items), doc);
    ItemsCons(text, items);
    hide Flatten, Items;
    assert [OpenList(kind)] + ([ListItem(text)] + Items(items)) + [CloseList(kind)] + Flatten(doc)
        == [OpenList(kind), ListItem(text)] + (Items(items) + [CloseList(kind)] + Flatten(doc));
  }

  lemma TextLeftBlank(lines: seq<Line>)
    requires lines == [] || lines[0].read.Blank?
    ensures TextLeft(lines) == if lines == [] then [] else TextLeft(lines[1..])
  {}

  lemma FlattenCons(n: Node, doc: seq<Node>)
    ensures Flatten([n] + doc) == NodeBlocks(n) + Flatten(doc)
  {
    assert ([n] + doc)[1..] == doc;
  }

  lemma ItemsCons(text: string, texts: seq<string>)
    ensures Items([text] + texts) == [ListItem(text)] + Items(texts)
  {
    assert ([text] + texts)[1..] == texts;
  }

  lemma CodeLeftStep(code: seq<string>, lines: seq<Line>)
    requires lines != []
    ensures CodeLeft(code, lines) ==
            if lines[0].read.Fence? then [Code(code)] + TextLeft(lines[1..]) else CodeLeft(code + [lines[0].text], lines[1..])
  {
    var rest := lines[1..];
    if lines[0].read.Fence? {
      assert code + CodeOf(lines) == code;
      assert AfterCode(lines) == rest;
    } else {
      assert code + CodeOf(lines) == code + [lines[0].text] + CodeOf(rest);
      assert AfterCode(lines) == AfterCode(rest);
    }
    hide TextLeft;
  }

  /** A list goes on with an item of its own kind and is closed before anything else. */
  lemma ListLeftStep(kind: ListKind, lines: seq<Line>)
    ensures ListLeft(kind, lines) ==
            if lines != [] && lines[0].read.Item? && lines[0].read.kind == kind
            then [ListItem(lines[0].read.text)] + ListLeft(kind, lines[1..])
            else [CloseList(kind)] + TextLeft(lines)
  {
    if lines != [] && lines[0].read.Item? && lines[0].read.kind == kind {
      var rest := lines[1..];
      ItemsCons(lines[0].read.text, ItemsOf(kind, rest));
      assert AfterItems(kind, lines) == AfterItems(kind, rest);
      hide Items, TextLeft, AfterItems;
      assert [ListItem(lines[0].read.text)] + Items(ItemsOf(kind, rest)) + [CloseList(kind)] + TextLeft(AfterItems(kind, rest))
          == [ListItem(lines[0].read.text)] + (Items(ItemsOf(kind, rest)) + [CloseList(kind)] + TextLeft(AfterItems(kind, rest)));
    } else {
      assert AfterItems(kind, lines) == lines;
      assert Items([]) == [];
      hide TextLeft, AfterItems;
    }
  }

  /** Closing an open list prints what a list prints first when its items are over. */
  lemma ClosedLeft(r: Renderer, lines: seq<Line>)
    requires Proper(r) && !r.inCode && lines != [] && !(lines[0].read.Item? && r.list == Some(lines[0].read.kind))
    ensures r.rendered + Left(r, lines) == Closed(r).rendered + TextLeft(lines)
  {
    hide ListLeft, TextLeft;
    if r.list.Some? {
      ListLeftStep(r.list.value, lines);
      assert r.rendered + ([CloseList(r.list.value)] + TextLeft(lines))
          == r.rendered + [CloseList(r.list.value)] + TextLeft(lines);
    }
  }

  /** One line moves blocks from what is left to what is rendered. */
  lemma StepPrints(r: Renderer, lines: seq<Line>)
    requires Proper(r) && lines != []
    ensures var r' := Feed(r, lines[0]);
            Proper(r') && r'.rendered + Left(r', lines[1..]) == r.rendered + Left(r, lines)
  {
    hide ListLeft, TextLeft, CodeLeft;
    var rest, r' := lines[1..], Feed(r, lines[0]);
    if r.inCode {
      CodeLeftStep(r.code, lines);
      assert r.rendered + ([Code(r.code)] + TextLeft(rest)) == r.rendered + [Code(r.code)] + TextLeft(rest);
    } else if lines[0].read.Item? && r.list == Some(lines[0].read.kind) {
      ListLeftStep(r.list.value, lines);
      var item := [ListItem(lines[0].read.text)];
      assert r.rendered + (item + ListLeft(r.list.value, rest)) == r.rendered + item + ListLeft(r.list.value, rest);
    } else {
      ClosedLeft(r, lines);
      TextStep(Closed(r).rendered, lines, r');
    }
  }

  lemma TextStep(rendered: seq<Block>, lines: seq<Line>, r': Renderer)
    requires lines != []
    requires match lines[0].read
             case Fence => r' == Renderer(rendered, None, true, [])
             case Blank => r' == Renderer(rendered, None, false, [])
             case Item(kind, text) => r' == Renderer(rendered + [OpenList(kind)] + [ListItem(text)], Some(kind), false, [])
             case Other(leaf) => r' == Renderer(rendered + [Simple(leaf)], None, false, [])
    ensures r'.rendered + Left(r', lines[1..]) == rendered + TextLeft(lines)
  {
    hide ListLeft, TextLeft, CodeLeft;
    var rest := lines[1..];
    match lines[0].read
    case Fence => TextLeftFence(lines);
    case Blank => TextLeftBlank(lines);
    case Item(kind, text) =>
      TextLeftItem(lines);
      assert rendered + [OpenList(kind)] + [ListItem(text)] + ListLeft(kind, rest)
          == rendered + ([OpenList(kind), ListItem(text)] + ListLeft(kind, rest));
    case Other(leaf) =>
      TextLeftOther(lines);
      assert rendered + [Simple(leaf)] + TextLeft(rest) == rendered + ([Simple(leaf)] + TextLeft(rest));
  }

  lemma EndPrints(r: Renderer)
    requires Proper(r)
    ensures Finish(r) == r.rendered + Left(r, [])
  {
    assert r.code + [] == r.code;
    TextLeftBlank([]);
    if r.list.Some? {
      ListLeftStep(r.list.value, []);
    }
    hide TextLeft, ListLeft;
  }

  lemma {:induction false} FeedAllPrints(r: Renderer, lines: seq<Line>)
    requires Proper(r)
    ensures Finish(FeedAll(r, lines)) == r.rendered + Left(r, lines)
    decreases |lines|
  {
    hide Finish, Left, Proper, Feed;
    if lines == [] {
      EndPrints(r);
    } else {
      StepPrints(r, lines);
      FeedAllPrints(Feed(r, lines[0]), lines[1..]);
    }
  }

  /** For every source text the renderer prints its structure: each list once around its own items, each code block whole. */
  lemma RenderIsStructure(lines: seq<Line>)
    ensures Render(lines) == Flatten(Structure(lines))
  {
    FeedAllPrints(START, lines);
    hide FeedAll, Finish, Flatten, Structure;
  }

  // ----- balance

  /** Lists are closed by their own tag, items are inside, everything else is outside, nothing is left open. */
  predicate Balanced(blocks: seq<Block>, open: Option<ListKind>)
    decreases |blocks|
  {
    if blocks == [] then open.None?
    else match blocks[0]
         case OpenList(kind) => open.None? && Balanced(blocks[1..], Some(kind))
         case CloseList(kind) => open == Some(kind) && Balanced(blocks[1..], None)
         case ListItem(_) => open.Some? && Balanced(blocks[1..], open)
         case _ => open.None? && Balanced(blocks[1..], open)
  }

  lemma {:induction false} ItemsBalanced(items: seq<string>, kind: ListKind, tail: seq<Block>)
    requires Balanced(tail, None)
    ensures Balanced(Items(items) + ([CloseList(kind)] + tail), Some(kind))
    decreases |items|
  {
    var all := Items(items) + ([CloseList(kind)] + tail);
    if items == [] {
      assert all == [CloseList(kind)] + tail && all[1..] == tail;
    } else {
      ItemsBalanced(items[1..], kind, tail);
      assert all[0] == ListItem(items[0]) && all[1..] == Items(items[1..]) + ([CloseList(kind)] + tail);
      hide Items;
    }
  }

  lemma NodeBalanced(n: Node, tail: seq<Block>)
    requires Balanced(tail, None)
    ensures Balanced(NodeBlocks(n) + tail, None)
  {
    hide Balanced, Items;
    match n
    case List(kind, items) =>
      ItemsBalanced(items, kind, tail);
      ListOpens(kind, Items(items) + ([CloseList(kind)] + tail));
      assert [OpenList(kind)] + Items(items) + [CloseList(kind)] + tail
          == [OpenList(kind)] + (Items(items) + ([CloseList(kind)] + tail));
    case Verbatim(lines) => LeafFirst(Code(lines), tail);
    case Single(leaf) => LeafFirst(Simple(leaf), tail);
  }

  lemma ListOpens(kind: ListKind, rest: seq<Block>)
    requires Balanced(rest, Some(kind))
    ensures Balanced([OpenList(kind)] + rest, None)
  {
    assert ([OpenList(kind)] + rest)[1..] == rest;
  }

  lemma LeafFirst(block: Block, rest: seq<Block>)
    requires (block.Code? || block.Simple?) && Balanced(rest, None)
    ensures Balanced([block] + rest, None)
  {
    assert ([block] + rest)[1..] == rest;
  }

  lemma {:induction false} FlattenBalanced(doc: seq<Node>)
    ensures Balanced(Flatten(doc), None)
    decreases |doc|
  {
    if doc != [] {
      hide Balanced, NodeBlocks;
      FlattenBalanced(doc[1..]);
      NodeBalanced(doc[0], Flatten(doc[1..]));
    } else {
      assert Flatten(doc) == [];
    }
  }

  /** The emitted tags are balanced for every source text, an unterminated fence included. */
  lemma RenderBalanced(lines: seq<Line>)
    ensures Balanced(Render(lines), None)
  {
    RenderIsStructure(lines);
    hide Render, Structure;
    FlattenBalanced(Structure(lines));
  }

  // ----- what the lines mean, as the patterns of the source state it

  /** `\s+` from `from` up to `to`, and the rest of the line after it. */
  predicate RestAfterSpace(s: string, from: nat, t: string) {
    && t != "" && !IsSpace(t[0]) && from + |t| < |s| && s[|s| - |t|..] == t
    && forall i | from <= i < |s| - |t| :: IsSpace(s[i])
  }

  /** One to four number signs, white space, text. */
  predicate IsHeading(s: string, level: nat, t: string) {
    1 <= level <= 4 && level <= |s| && (forall i | 0 <= i < level :: s[i] == '#') && RestAfterSpace(s, level, t)
  }

  /** A dash, a star or a plus sign, white space, text. */
  predicate IsBullet(s: string, t: string) {
    s != "" && (s[0] == '-' || s[0] == '*' || s[0] == '+') && RestAfterSpace(s, 1, t)
  }

  /** Digits, a full stop or a closing parenthesis, white space, text. */
  predicate IsNumbered(s: string, digits: nat, t: string) {
    && 1 <= digits < |s| && (forall i | 0 <= i < digits :: '0' <= s[i] <= '9')
    && (s[digits] == '.' || s[digits] == ')') && RestAfterSpace(s, digits + 1, t)
  }

  /** What a stripped line must look like to be read as this kind. */
  ghost predicate ReadsAs(s: string, k: Kind) {
    match k
    case Fence => |s| >= 3 && s[0] == '`' && s[1] == '`' && s[2] == '`'
    case Blank => s == ""
    case Item(kind, t) => if kind == Bullets then IsBullet(s, t) else exists digits: nat :: IsNumbered(s, digits, t)
    case Other(leaf) =>
      match leaf
      case Heading(level, t) => IsHeading(s, level, t)
      case Quote(t) => s != "" && s[0] == '>' && t == Strip(s[1..])
      case Rule => s == "---" || s == "***"
      case Paragraph(t) => t == s && s != "" && Ordinary(s)
  }

  /** None of the patterns. */
  ghost predicate Ordinary(s: string) {
    && !(|s| >= 3 && s[0] == '`' && s[1] == '`' && s[2] == '`') && !(s != "" && s[0] == '>') && s != "---" && s != "***"
    && (forall level: nat, t :: !IsHeading(s, level, t)) && (forall t :: !IsBullet(s, t)) && (forall digits: nat, t :: !IsNumbered(s, digits, t))
  }

  lemma {:induction false} SkipSpacesIs(s: string, i: nat)
    requires i <= |s|
    ensures i <= SkipSpaces(s, i) <= |s| && (forall k | i <= k < SkipSpaces(s, i) :: IsSpace(s[k]))
    ensures SkipSpaces(s, i) < |s| ==> !IsSpace(s[SkipSpaces(s, i)])
    decreases |s| - i
  {
    if i < |s| && IsSpace(s[i]) {
      SkipSpacesIs(s, i + 1);
    }
  }

  lemma {:induction false} CountHashesIs(s: string, i: nat)
    requires i <= |s|
    ensures i <= CountHashes(s, i) <= |s| && (forall k | i <= k < CountHashes(s, i) :: s[k] == '#')
    ensures CountHashes(s, i) < |s| ==> s[CountHashes(s, i)] != '#'
    decreases |s| - i
  {
    if i < |s| && s[i] == '#' {
      CountHashesIs(s, i + 1);
    }
  }

  lemma {:induction false} CountDigitsIs(s: string, i: nat)
    requires i <= |s|
    ensures i <= CountDigits(s, i) <= |s| && (forall k | i <= k < CountDigits(s, i) :: '0' <= s[k] <= '9')
    ensures CountDigits(s, i) < |s| ==> !('0' <= s[CountDigits(s, i)] <= '9')
    decreases |s| - i
  {
    if i < |s| && '0' <= s[i] <= '9' {
      CountDigitsIs(s, i + 1);
    }
  }

  /** In a line without white space at its end, some text follows white space. */
  lemma AfterIsRest(s: string, from: nat, t: string)
    requires Trim(s) && from <= |s|
    ensures RestAfterSpace(s, from, t) <==> SpaceAt(s, from) && t == After(s, from)
  {
    SkipSpacesIs(s, from);
    var k := SkipSpaces(s, from);
    hide SkipSpaces;
    if SpaceAt(s, from) {
      assert !IsSpace(s[|s| - 1]);
      assert from < k < |s|;
      assert After(s, from) == s[k..] && s[k..][0] == s[k];
    }
    if RestAfterSpace(s, from, t) {
      var m := |s| - |t|;
      assert t[0] == s[m] && IsSpace(s[from]);
      assert m == k;
    }
  }

  lemma HeadingIff(s: string)
    requires Trim(s) && s != ""
    ensures forall level: nat, t :: IsHeading(s, level, t) <==>
              level == CountHashes(s) && 1 <= level <= 4 && SpaceAt(s, level) && t == After(s, level)
  {
    CountHashesIs(s, 0);
    forall level: nat, t
      ensures IsHeading(s, level, t) <==> level == CountHashes(s) && 1 <= level <= 4 && SpaceAt(s, level) && t == After(s, level)
    {
      if level <= |s| {
        AfterIsRest(s, level, t);
        hide CountHashes, After;
      }
    }
  }

  lemma BulletIff(s: string)
    requires Trim(s) && s != ""
    ensures forall t :: IsBullet(s, t) <==> (s[0] == '-' || s[0] == '*' || s[0] == '+') && SpaceAt(s, 1) && t == After(s, 1)
  {
    forall t ensures IsBullet(s, t) <==> (s[0] == '-' || s[0] == '*' || s[0] == '+') && SpaceAt(s, 1) && t == After(s, 1) {
      AfterIsRest(s, 1, t);
      hide After;
    }
  }

  lemma NumberedIff(s: string)
    requires Trim(s) && s != ""
    ensures forall digits: nat, t :: IsNumbered(s, digits, t) <==>
              && digits == CountDigits(s) && 1 <= digits < |s| && (s[digits] == '.' || s[digits] == ')')
              && SpaceAt(s, digits + 1) && t == After(s, digits + 1)
  {
    CountDigitsIs(s, 0);
    forall digits: nat, t
      ensures IsNumbered(s, digits, t) <==>
                && digits == CountDigits(s) && 1 <= digits < |s| && (s[digits] == '.' || s[digits] == ')')
                && SpaceAt(s, digits + 1) && t == After(s, digits + 1)
    {
      if digits < |s| {
        AfterIsRest(s, digits + 1, t);
        hide CountDigits, After;
      }
    }
  }

  /** A stripped line is read as the one kind whose pattern it matches. */
  lemma ClassifyIff(s: string, k: Kind)
    requires Trim(s)
    ensures Classify(s) == k <==> ReadsAs(s, k)
  {
    hide Classify, ReadsAs;
    ClassifySound(s);
    if ReadsAs(s, k) {
      ReadsOnce(s, k, Classify(s));
    }
  }

  lemma ClassifySound(s: string)
    requires Trim(s)
    ensures ReadsAs(s, Classify(s))
  {
    hide IsHeading, IsBullet, IsNumbered, CountHashes, CountDigits, After, Strip;
    assert "```" <= s <==> |s| >= 3 && s[0] == '`' && s[1] == '`' && s[2] == '`';
    if s != "" {
      HeadingIff(s);
      BulletIff(s);
      NumberedIff(s);
      FirstChars(s);
      var k := Classify(s);
      if k.Item? && k.kind == Numbers {
        assert IsNumbered(s, CountDigits(s), k.text);
      }
    }
  }

  lemma FirstChars(s: string)
    requires s != ""
    ensures CountHashes(s) > 0 ==> s[0] == '#'
    ensures CountDigits(s) > 0 ==> '0' <= s[0] <= '9'
  {
    CountHashesIs(s, 0);
    CountDigitsIs(s, 0);
  }

  /** No line matches the patterns of two kinds, or one pattern in two ways. */
  lemma ReadsOnce(s: string, j: Kind, k: Kind)
    requires Trim(s) && ReadsAs(s, j) && ReadsAs(s, k)
    ensures j == k
  {
    hide RestAfterSpace, CountHashes, CountDigits, After, Strip;
    if s != "" {
      HeadingIff(s);
      BulletIff(s);
      NumberedIff(s);
    }
  }

  /** A raw line keeps its indentation for code blocks and is read without it. */
  lemma ReadIs(raw: string, k: Kind)
    ensures Read(raw).text == RStrip(raw) && (Read(raw).read == k <==> ReadsAs(Strip(RStrip(raw)), k))
  {
    hide Classify, ReadsAs, Strip;
    StripTrims(RStrip(raw));
    ClassifyIff(Strip(RStrip(raw)), k);
  }

  // ----- the loop

  /** `source` is the list that `splitlines` gives. */
  method MarkdownToBlocks(source: seq<string>) returns (rendered: seq<Block>)
    ensures rendered == Render(ReadAll(source)) && Balanced(rendered, None)
  {
    hide Balanced, Feed, Structure, Read, ReadAll;
    ghost var lines := ReadAll(source);
    ReadAllLines(source);
    RenderBalanced(lines);
    rendered := [];
    var listKind: Option<ListKind>, inCode, codeLines := None, false, [];
    var index := 0;
    while index < |source|
      invariant 0 <= index <= |source|
      invariant FeedAll(Renderer(rendered, listKind, inCode, codeLines), lines[index..]) == FeedAll(START, lines)
    {
      assert lines[index..][0] == lines[index] && lines[index..][1..] == lines[index + 1..];
      rendered, listKind, inCode, codeLines := RenderLine(rendered, listKind, inCode, codeLines, source[index]);
      index := index + 1;
    }
    if listKind.Some? {
      rendered := rendered + [CloseList(listKind.value)];
    }
    if inCode {
      rendered := rendered + [Code(codeLines)];
    }
  }

  lemma ReadAllLines(source: seq<string>)
    ensures |ReadAll(source)| == |source| && forall i | 0 <= i < |source| :: ReadAll(source)[i] == Read(source[i])
  {
    hide Read;
  }

  /** The body of the loop. */
  method RenderLine(rendered0: seq<Block>, listKind0: Option<ListKind>, inCode0: bool, codeLines0: seq<string>, raw: string)
    returns (rendered: seq<Block>, listKind: Option<ListKind>, inCode: bool, codeLines: seq<string>)
    ensures Renderer(rendered, listKind, inCode, codeLines)
         == Feed(Renderer(rendered0, listKind0, inCode0, codeLines0), Read(raw))
  {
    hide Classify, RStrip, Strip;
    rendered, listKind, inCode, codeLines := rendered0, listKind0, inCode0, codeLines0;
    var line := RStrip(raw);
    var read := Classify(Strip(line));
    if read.Fence? {
      rendered, listKind := CloseOpenList(rendered, listKind);
      if inCode {
        rendered, codeLines, inCode := rendered + [Code(codeLines)], [], false;
      } else {
        inCode := true;
      }
      return;
    }
    if inCode {
      codeLines := codeLines + [line];
      return;
    }
    if read.Blank? {
      rendered, listKind := CloseOpenList(rendered, listKind);
      return;
    }
    if read.Item? {
      if listKind != Some(read.kind) {
        rendered, listKind := CloseOpenList(rendered, listKind);
        listKind, rendered := Some(read.kind), rendered + [OpenList(read.kind)];
      }
      rendered := rendered + [ListItem(read.text)];
      return;
    }
    rendered, listKind := CloseOpenList(rendered, listKind);
    rendered := rendered + [Simple(read.leaf)];
  }

  /** `close_list` */
  method CloseOpenList(rendered: seq<Block>, listKind: Option<ListKind>) returns (after: seq<Block>, kind: Option<ListKind>)
    ensures kind == None
    ensures after == if listKind.Some? then rendered + [CloseList(listKind.value)] else rendered
  {
    after, kind := rendered, None;
    if listKind.Some? {
      after := after + [CloseList(listKind.value)];
    }
  }
}
