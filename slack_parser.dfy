/** parsers/slack.py: the leaf elements of a Slack message, the pull-request links among
    them, and the names of the reactions already on the message. */
module SlackParser {
  import opened Json
  import PullRequestPattern

  // ---------------------------------------------------------------------------------------
  // Message shape

  /** A content node the walker can visit without raising: a dict whose `"elements"`, when
      present, is a list of such nodes, and which, when it is a leaf (no `"elements"`) of
      `"type"` `"link"`, carries a string `"url"` (the url is then given to `re.search`). */
  predicate WellFormedNode(j: Json)
    decreases j
  {
    j.Obj? &&
    (Has(j, "elements") ==>
      j.fields["elements"].Arr? && forall c :: c in j.fields["elements"].items ==> WellFormedNode(c)) &&
    (!Has(j, "elements") && Get(j, "type") == Str("link") ==> Get(j, "url").Str?)
  }

  /** A message as the Slack API returns it: a dict, `"blocks"` a list of content nodes and
      `"reactions"` a list of dicts, each when present. */
  predicate WellFormedMessage(m: Json) {
    m.Obj? &&
    (Has(m, "blocks") ==>
      m.fields["blocks"].Arr? && forall b :: b in m.fields["blocks"].items ==> WellFormedNode(b)) &&
    (Has(m, "reactions") ==>
      m.fields["reactions"].Arr? && forall r :: r in m.fields["reactions"].items ==> r.Obj?)
  }

  /** The `"elements"` list of a node that has one. */
  function Children(j: Json): (cs: seq<Json>)
    requires WellFormedNode(j) && Has(j, "elements")
    ensures forall c :: c in cs ==> WellFormedNode(c)
  {
    j.fields["elements"].items
  }

  // ---------------------------------------------------------------------------------------
  // get_block_elements, as values

  /** The list `get_block_elements(block, acc)` returns when called with an accumulator that
      holds `acc`. An empty accumulator is replaced by a fresh list (line 18); as a value that
      is still `acc`, the difference shows in `WalkInner`. */
  function Walk(block: Json, acc: seq<Json>): seq<Json>
    requires WellFormedNode(block)
    decreases block, 2
  {
    if Truthy(Get(block, "elements")) then WalkOuter(block, 0, acc) else acc
  }

  /** The loop over the block's elements (lines 21-29), from index `i` on. */
  function WalkOuter(block: Json, i: nat, acc: seq<Json>): seq<Json>
    requires WellFormedNode(block) && Has(block, "elements")
    decreases block, 1, |Children(block)| - i
  {
    var children := Children(block);
    if i >= |children| then acc
    else
      var e := children[i];
      WalkOuter(block, i + 1, if !Has(e, "elements") then acc + [e] else WalkInner(e, 0, acc))
  }

  /** The loop over a second-level node's elements (lines 25-29), from index `j` on. The
      recursive call at line 29 shares the caller's list only when that list is non-empty;
      otherwise it fills a fresh list that nobody keeps, so the caller's list stays empty. */
  function WalkInner(node: Json, j: nat, acc: seq<Json>): seq<Json>
    requires WellFormedNode(node) && Has(node, "elements")
    decreases node, 0, |Children(node)| - j
  {
    var children := Children(node);
    if j >= |children| then acc
    else
      var e := children[j];
      WalkInner(node, j + 1,
        if !Has(e, "elements") then acc + [e]
        else if acc == [] then acc
        else Walk(e, acc))
  }

  // ---------------------------------------------------------------------------------------
  // The reference: all leaves in depth-first order, tagged with their depth

  datatype Leaf = Leaf(node: Json, depth: nat)

  /** The leaves under the elements `i..` of `node`, those elements being at `depth`: a node
      without an `"elements"` key is a leaf, any other node is descended into. */
  function Leaves(node: Json, i: nat, depth: nat): seq<Leaf>
    requires WellFormedNode(node) && Has(node, "elements")
    decreases node, |Children(node)| - i
  {
    var children := Children(node);
    if i >= |children| then []
    else
      var c := children[i];
      (if !Has(c, "elements") then [Leaf(c, depth)] else Leaves(c, 0, depth + 1)) +
      Leaves(node, i + 1, depth)
  }

  /** Every leaf under a block, depth first, left to right; the block's own elements are at
      depth 1. */
  function BlockLeaves(block: Json): seq<Leaf>
    requires WellFormedNode(block)
  {
    if Has(block, "elements") then Leaves(block, 0, 1) else []
  }

  function Nodes(ls: seq<Leaf>): (ns: seq<Json>)
    ensures |ns| == |ls| && forall k :: 0 <= k < |ls| ==> ns[k] == ls[k].node
  {
    if ls == [] then [] else [ls[0].node] + Nodes(ls[1..])
  }

  /** `ls` without the leaves at depth 3 or more that come before its first shallower leaf. */
  function DropLeadingDeep(ls: seq<Leaf>): seq<Leaf> {
    if ls == [] then [] else if ls[0].depth >= 3 then DropLeadingDeep(ls[1..]) else ls
  }

  /** What the walk keeps of `ls` given the accumulator it starts with. */
  function Kept(ls: seq<Leaf>, acc: seq<Json>): seq<Leaf> {
    if acc == [] then DropLeadingDeep(ls) else ls
  }

  lemma {:induction false} NodesAppend(a: seq<Leaf>, b: seq<Leaf>)
    ensures Nodes(a + b) == Nodes(a) + Nodes(b)
  {
    if a != [] {
      assert (a + b)[1..] == a[1..] + b;
      NodesAppend(a[1..], b);
    }
  }

  lemma {:induction false} DropAppend(a: seq<Leaf>, b: seq<Leaf>)
    ensures DropLeadingDeep(a + b) ==
      if DropLeadingDeep(a) == [] then DropLeadingDeep(b) else DropLeadingDeep(a) + b
  {
    if a == [] {
      assert a + b == b;
    } else {
      assert (a + b)[0] == a[0];
      assert (a + b)[1..] == a[1..] + b;
      DropAppend(a[1..], b);
    }
  }

  lemma {:induction false} DropAllDeep(ls: seq<Leaf>)
    requires forall k :: 0 <= k < |ls| ==> ls[k].depth >= 3
    ensures DropLeadingDeep(ls) == []
  {
    if ls != [] {
      DropAllDeep(ls[1..]);
    }
  }

  /** Every leaf under elements at `depth` is at `depth` or deeper. */
  lemma {:induction false} LeavesDepth(node: Json, i: nat, depth: nat)
    requires WellFormedNode(node) && Has(node, "elements")
    ensures forall k :: 0 <= k < |Leaves(node, i, depth)| ==> Leaves(node, i, depth)[k].depth >= depth
    decreases node, |Children(node)| - i
  {
    var children := Children(node);
    if i < |children| {
      var c := children[i];
      if Has(c, "elements") {
        LeavesDepth(c, 0, depth + 1);
      }
      LeavesDepth(node, i + 1, depth);
    }
  }

  /** The depth tags do not change which nodes are leaves. */
  lemma {:induction false} LeavesShift(node: Json, i: nat, d1: nat, d2: nat)
    requires WellFormedNode(node) && Has(node, "elements")
    ensures Nodes(Leaves(node, i, d1)) == Nodes(Leaves(node, i, d2))
    decreases node, |Children(node)| - i
  {
    var children := Children(node);
    if i < |children| {
      var c := children[i];
      var first1 := if !Has(c, "elements") then [Leaf(c, d1)] else Leaves(c, 0, d1 + 1);
      var first2 := if !Has(c, "elements") then [Leaf(c, d2)] else Leaves(c, 0, d2 + 1);
      if Has(c, "elements") {
        LeavesShift(c, 0, d1 + 1, d2 + 1);
      }
      LeavesShift(node, i + 1, d1, d2);
      NodesAppend(first1, Leaves(node, i + 1, d1));
      NodesAppend(first2, Leaves(node, i + 1, d2));
    }
  }

  /** Leaves are nodes without an `"elements"` key, and well formed. */
  lemma {:induction false} LeavesAreLeaves(node: Json, i: nat, depth: nat)
    requires WellFormedNode(node) && Has(node, "elements")
    ensures forall k :: 0 <= k < |Leaves(node, i, depth)| ==>
      !Has(Leaves(node, i, depth)[k].node, "elements") && WellFormedNode(Leaves(node, i, depth)[k].node)
    decreases node, |Children(node)| - i
  {
    var children := Children(node);
    if i < |children| {
      var c := children[i];
      if Has(c, "elements") {
        LeavesAreLeaves(c, 0, depth + 1);
      }
      LeavesAreLeaves(node, i + 1, depth);
    }
  }

  /** What `get_block_elements` returns: the accumulator followed by the block's leaves in
      depth-first order, except that while the accumulator is still empty, the leaves of
      third-level nodes are lost (the recursive call at line 29 fills a fresh list). */
  lemma {:induction false} WalkSpec(block: Json, acc: seq<Json>)
    requires WellFormedNode(block)
    ensures Walk(block, acc) == acc + Nodes(Kept(BlockLeaves(block), acc))
    decreases block, 2
  {
    if Has(block, "elements") {
      OuterSpec(block, 0, acc);
      if !Truthy(Get(block, "elements")) {
        assert Children(block) == [];
      }
    }
  }

  lemma {:induction false} OuterSpec(block: Json, i: nat, acc: seq<Json>)
    requires WellFormedNode(block) && Has(block, "elements")
    ensures WalkOuter(block, i, acc) == acc + Nodes(Kept(Leaves(block, i, 1), acc))
    decreases block, 1, |Children(block)| - i
  {
    var children := Children(block);
    if i < |children| {
      var e := children[i];
      var rest := Leaves(block, i + 1, 1);
      if !Has(e, "elements") {
        assert Leaves(block, i, 1) == [Leaf(e, 1)] + rest;
        assert WalkOuter(block, i, acc) == WalkOuter(block, i + 1, acc + [e]);
        OuterSpec(block, i + 1, acc + [e]);
        LeafStep(acc, e, 1, rest, WalkOuter(block, i, acc));
      } else {
        var first := Leaves(e, 0, 2);
        var acc' := WalkInner(e, 0, acc);
        assert Leaves(block, i, 1) == first + rest;
        assert WalkOuter(block, i, acc) == WalkOuter(block, i + 1, acc');
        InnerSpec(e, 0, acc);
        OuterSpec(block, i + 1, acc');
        NodeStep(acc, first, rest, acc', WalkOuter(block, i, acc));
      }
    }
  }

  /** A shallow leaf in front of `rest` is kept and appended first. */
  lemma LeafStep(acc: seq<Json>, e: Json, depth: nat, rest: seq<Leaf>, walked: seq<Json>)
    requires depth < 3
    requires walked == (acc + [e]) + Nodes(Kept(rest, acc + [e]))
    ensures walked == acc + Nodes(Kept([Leaf(e, depth)] + rest, acc))
  {
    NodesAppend([Leaf(e, depth)], rest);
    Associative(acc, [e], Nodes(rest));
  }

  /** Walking a node's leaves `first` and then the leaves `rest` behind it, from `acc`. */
  lemma NodeStep(acc: seq<Json>, first: seq<Leaf>, rest: seq<Leaf>, acc': seq<Json>, walked: seq<Json>)
    requires acc' == acc + Nodes(Kept(first, acc))
    requires walked == acc' + Nodes(Kept(rest, acc'))
    ensures walked == acc + Nodes(Kept(first + rest, acc))
  {
    if acc != [] {
      assert acc' == acc + Nodes(first) && acc' != [];
      assert walked == (acc + Nodes(first)) + Nodes(rest);
      NodesAppend(first, rest);
      Associative(acc, Nodes(first), Nodes(rest));
    } else {
      DropAppend(first, rest);
      var kept := DropLeadingDeep(first);
      assert acc' == Nodes(kept);
      if kept == [] {
        assert acc' == [];
        assert walked == Nodes(DropLeadingDeep(rest));
        assert DropLeadingDeep(first + rest) == DropLeadingDeep(rest);
      } else {
        assert acc' != [];
        assert walked == Nodes(kept) + Nodes(rest);
        assert DropLeadingDeep(first + rest) == kept + rest;
        NodesAppend(kept, rest);
      }
    }
  }


  lemma {:induction false} InnerSpec(node: Json, j: nat, acc: seq<Json>)
    requires WellFormedNode(node) && Has(node, "elements")
    ensures WalkInner(node, j, acc) == acc + Nodes(Kept(Leaves(node, j, 2), acc))
    decreases node, 0, |Children(node)| - j
  {
    var children := Children(node);
    if j < |children| {
      var e := children[j];
      var rest := Leaves(node, j + 1, 2);
      if !Has(e, "elements") {
        assert Leaves(node, j, 2) == [Leaf(e, 2)] + rest;
        assert WalkInner(node, j, acc) == WalkInner(node, j + 1, acc + [e]);
        InnerSpec(node, j + 1, acc + [e]);
        LeafStep(acc, e, 2, rest, WalkInner(node, j, acc));
      } else {
        var deep := Leaves(e, 0, 3);
        assert Leaves(node, j, 2) == deep + rest;
        if acc == [] {
          assert WalkInner(node, j, acc) == WalkInner(node, j + 1, acc);
          InnerSpec(node, j + 1, acc);
          DeepPrefixDropped(e, rest);
        } else {
          assert WalkInner(node, j, acc) == WalkInner(node, j + 1, Walk(e, acc));
          InnerRecursive(e, acc, rest);
          InnerSpec(node, j + 1, Walk(e, acc));
        }
      }
    }
  }

  /** Leaves of a third-level node in front of `rest` are dropped together while nothing has
      been kept yet. */
  lemma DeepPrefixDropped(e: Json, rest: seq<Leaf>)
    requires WellFormedNode(e) && Has(e, "elements")
    ensures DropLeadingDeep(Leaves(e, 0, 3) + rest) == DropLeadingDeep(rest)
  {
    var deep := Leaves(e, 0, 3);
    LeavesDepth(e, 0, 3);
    DropAllDeep(deep);
    DropAppend(deep, rest);
  }

  /** The recursive call at line 29 with a non-empty list appends all of the node's leaves. */
  lemma InnerRecursive(e: Json, acc: seq<Json>, rest: seq<Leaf>)
    requires WellFormedNode(e) && Has(e, "elements") && acc != []
    ensures Walk(e, acc) != []
    ensures Walk(e, acc) + Nodes(rest) == acc + Nodes(Leaves(e, 0, 3) + rest)
    decreases e, 3
  {
    var l1, l3 := Leaves(e, 0, 1), Leaves(e, 0, 3);
    WalkSpec(e, acc);
    assert Kept(BlockLeaves(e), acc) == l1;
    LeavesShift(e, 0, 1, 3);
    NodesAppend(l3, rest);
    var w, n3, nr := Walk(e, acc), Nodes(l3), Nodes(rest);
    assert w == acc + n3;
    Associative(acc, n3, nr);
  }

  /** Concatenation regroups; stated once so that proofs need not rediscover it. */
  lemma Associative<T>(a: seq<T>, b: seq<T>, c: seq<T>)
    ensures (a + b) + c == a + (b + c)
  {
  }

  // ---------------------------------------------------------------------------------------
  // Consequences of WalkSpec

  /** All leaves under a block, depth first, left to right. */
  function DfsLeaves(block: Json): seq<Json>
    requires WellFormedNode(block)
  {
    Nodes(BlockLeaves(block))
  }

  /** With a non-empty accumulator nothing is lost: every leaf is appended, in order. */
  lemma WalkNonEmpty(block: Json, acc: seq<Json>)
    requires WellFormedNode(block) && acc != []
    ensures Walk(block, acc) == acc + DfsLeaves(block)
  {
    WalkSpec(block, acc);
  }

  /** How many leaves at depth 3 or more open the sequence. */
  function DeepPrefix(ls: seq<Leaf>): (n: nat)
    ensures n <= |ls|
  {
    if ls != [] && ls[0].depth >= 3 then 1 + DeepPrefix(ls[1..]) else 0
  }

  lemma {:induction false} DropIsSuffix(ls: seq<Leaf>)
    ensures DropLeadingDeep(ls) == ls[DeepPrefix(ls)..]
    ensures forall k :: 0 <= k < DeepPrefix(ls) ==> ls[k].depth >= 3
    ensures DeepPrefix(ls) < |ls| ==> ls[DeepPrefix(ls)].depth < 3
  {
    if ls != [] && ls[0].depth >= 3 {
      var tail := ls[1..];
      DropIsSuffix(tail);
      assert tail[DeepPrefix(tail)..] == ls[DeepPrefix(ls)..];
      forall k | 1 <= k < DeepPrefix(ls) ensures ls[k].depth >= 3 {
        assert ls[k] == tail[k - 1];
      }
    }
  }

  /** Starting from an empty accumulator (as get_layout_elements does), the result is the
      block's depth-first leaves from its first leaf at depth 1 or 2 on: the leaves in front
      of it all sit at depth 3 or more and are lost. */
  lemma WalkFromEmpty(block: Json)
    requires WellFormedNode(block)
    ensures var ls, n := BlockLeaves(block), DeepPrefix(BlockLeaves(block));
      Walk(block, []) == DfsLeaves(block)[n..] &&
      (forall k :: 0 <= k < n ==> ls[k].depth >= 3) && (n < |ls| ==> ls[n].depth < 3)
  {
    var ls := BlockLeaves(block);
    WalkSpec(block, []);
    DropIsSuffix(ls);
    assert Nodes(ls[DeepPrefix(ls)..]) == Nodes(ls)[DeepPrefix(ls)..];
  }

  /** Only nodes without an `"elements"` key are appended (a node with the key, even an empty
      list, is descended into), and never the block itself. */
  lemma WalkAppendsOnlyLeaves(block: Json, acc: seq<Json>)
    requires WellFormedNode(block)
    ensures |Walk(block, acc)| >= |acc| && Walk(block, acc)[..|acc|] == acc
    ensures forall k :: |acc| <= k < |Walk(block, acc)| ==>
      !Has(Walk(block, acc)[k], "elements") && WellFormedNode(Walk(block, acc)[k]) &&
      Walk(block, acc)[k] != block
  {
    WalkSpec(block, acc);
    var ns := Nodes(Kept(BlockLeaves(block), acc));
    KeptAreLeaves(block, acc);
    var w := Walk(block, acc);
    assert w == acc + ns;
    forall k | |acc| <= k < |w|
      ensures !Has(w[k], "elements") && WellFormedNode(w[k]) && w[k] != block
    {
      assert w[k] == ns[k - |acc|];
    }
  }

  /** What the walk keeps of a block's leaves are leaves, and none of them is the block. */
  lemma KeptAreLeaves(block: Json, acc: seq<Json>)
    requires WellFormedNode(block)
    ensures var kept := Kept(BlockLeaves(block), acc);
      forall k :: 0 <= k < |kept| ==>
        !Has(kept[k].node, "elements") && WellFormedNode(kept[k].node) && kept[k].node != block
  {
    var ls := BlockLeaves(block);
    var kept := Kept(ls, acc);
    if Has(block, "elements") {
      LeavesAreLeaves(block, 0, 1);
      DropIsSuffix(ls);
      var off := if acc == [] then DeepPrefix(ls) else 0;
      assert kept == ls[off..];
      forall k | 0 <= k < |kept|
        ensures !Has(kept[k].node, "elements") && WellFormedNode(kept[k].node) && kept[k].node != block
      {
        assert kept[k] == ls[k + off];
      }
    } else {
      assert ls == [];
    }
  }

  /** Example of the lost leaves: a message that opens with a bulleted list holding a link. */
  lemma WalkLosesLeadingList()
    ensures
      var link := Obj(map["type" := Str("link"), "url" := Str("u")]);
      var section := Obj(map["type" := Str("rich_text_section"), "elements" := Arr([link])]);
      var list := Obj(map["type" := Str("rich_text_list"), "elements" := Arr([section])]);
      var block := Obj(map["type" := Str("rich_text"), "elements" := Arr([list])]);
      WellFormedNode(block) && DfsLeaves(block) == [link] && Walk(block, []) == []
  {
    var link := Obj(map["type" := Str("link"), "url" := Str("u")]);
    var section := Obj(map["type" := Str("rich_text_section"), "elements" := Arr([link])]);
    var list := Obj(map["type" := Str("rich_text_list"), "elements" := Arr([section])]);
    var block := Obj(map["type" := Str("rich_text"), "elements" := Arr([list])]);
    assert WellFormedNode(link) && WellFormedNode(section) && WellFormedNode(list);
    assert Children(block) == [list] && Children(list) == [section] && Children(section) == [link];
    assert WellFormedNode(block);
    assert !Has(link, "elements") && Has(section, "elements") && Has(list, "elements");
    assert Leaves(section, 0, 3) == [Leaf(link, 3)];
    assert Leaves(list, 0, 2) == [Leaf(link, 3)];
    assert Leaves(block, 0, 1) == [Leaf(link, 3)];
    assert WalkInner(list, 0, []) == [];
    assert WalkOuter(block, 0, []) == [];
  }

  /** Example: the same list after a text leaf keeps its link. */
  lemma WalkKeepsListAfterText()
    ensures
      var text := Obj(map["type" := Str("text")]);
      var link := Obj(map["type" := Str("link"), "url" := Str("u")]);
      var first := Obj(map["type" := Str("rich_text_section"), "elements" := Arr([text])]);
      var section := Obj(map["type" := Str("rich_text_section"), "elements" := Arr([link])]);
      var list := Obj(map["type" := Str("rich_text_list"), "elements" := Arr([section])]);
      var block := Obj(map["type" := Str("rich_text"), "elements" := Arr([first, list])]);
      WellFormedNode(block) && Walk(block, []) == [text, link]
  {
    var text := Obj(map["type" := Str("text")]);
    var link := Obj(map["type" := Str("link"), "url" := Str("u")]);
    var first := Obj(map["type" := Str("rich_text_section"), "elements" := Arr([text])]);
    var section := Obj(map["type" := Str("rich_text_section"), "elements" := Arr([link])]);
    var list := Obj(map["type" := Str("rich_text_list"), "elements" := Arr([section])]);
    var block := Obj(map["type" := Str("rich_text"), "elements" := Arr([first, list])]);
    assert WellFormedNode(text) && WellFormedNode(link);
    assert WellFormedNode(first) && WellFormedNode(section);
    assert WellFormedNode(list);
    assert Children(block) == [first, list];
    assert WellFormedNode(block);
    assert WalkInner(first, 0, []) == [text];
    assert Truthy(Get(section, "elements"));
    assert !Has(link, "elements");
    assert WalkOuter(section, 1, [text, link]) == [text, link];
    assert WalkOuter(section, 0, [text]) == [text, link];
    assert Walk(section, [text]) == [text, link];
    assert Has(section, "elements") && Children(list) == [section];
    assert WalkInner(list, 1, [text, link]) == [text, link];
    assert WalkInner(list, 0, [text]) == [text, link];
    assert Has(first, "elements") && Has(list, "elements");
    assert WalkOuter(block, 2, [text, link]) == [text, link];
    assert WalkOuter(block, 1, [text]) == [text, link];
    assert WalkOuter(block, 0, []) == [text, link];
  }

  // ---------------------------------------------------------------------------------------
  // get_block_elements, as the code runs it

  /** The Python list object `get_block_elements` appends to. */
  class ElementList {
    var items: seq<Json>

    constructor ()
      ensures items == []
    {
      items := [];
    }

    /** `list.append(x)`. */
    method Append(x: Json)
      modifies this
      ensures items == old(items) + [x]
    {
      items := items + [x];
    }
  }

  /** `MessageElementParser.get_block_elements(block, blockElements)` (lines 17-30). A
      non-empty `blockElements` is the list the leaves go into and the one returned; null or
      an empty list is replaced by a fresh list, and the caller's list is left as it was. */
  method GetBlockElements(block: Json, blockElements: ElementList?) returns (r: ElementList)
    requires WellFormedNode(block)
    modifies blockElements
    ensures blockElements != null && old(blockElements.items) != [] ==> r == blockElements
    ensures blockElements == null || old(blockElements.items) == [] ==>
      fresh(r) && (blockElements != null ==> blockElements.items == [])
    ensures r.items == Walk(block, if blockElements == null then [] else old(blockElements.items))
    decreases block
  {
    if blockElements != null && blockElements.items != [] {
      r := blockElements;
    } else {
      r := new ElementList();
    }
    ghost var start := r.items;
    if Truthy(Get(block, "elements")) {
      var children := Children(block);
      var i := 0;
      while i < |children|
        invariant 0 <= i <= |children|
        invariant r == blockElements || fresh(r)
        invariant WalkOuter(block, i, r.items) == WalkOuter(block, 0, start)
        invariant blockElements != null && r != blockElements ==> blockElements.items == []
      {
        var blockElement := children[i];
        if !Has(blockElement, "elements") {
          r.Append(blockElement);
        } else {
          var elements := Children(blockElement);
          ghost var innerStart := r.items;
          var j := 0;
          while j < |elements|
            invariant 0 <= j <= |elements|
            invariant WalkInner(blockElement, j, r.items) == WalkInner(blockElement, 0, innerStart)
            invariant blockElements != null && r != blockElements ==> blockElements.items == []
          {
            var element := elements[j];
            if !Has(element, "elements") {
              r.Append(element);
            } else {
              var _ := GetBlockElements(element, r);
            }
            j := j + 1;
          }
        }
        i := i + 1;
      }
    }
  }

  // ---------------------------------------------------------------------------------------
  // get_layout_elements, urls, get_pull_requests

  /** The message's `"blocks"` (line 12). */
  function Blocks(message: Json): (bs: seq<Json>)
    requires WellFormedMessage(message)
    ensures forall b :: b in bs ==> WellFormedNode(b)
    ensures Has(message, "blocks") ==> bs == message.fields["blocks"].items
  {
    if Has(message, "blocks") then message.fields["blocks"].items else []
  }

  /** The elements of the blocks, in order, each block walked from an empty list. */
  function BlocksElements(blocks: seq<Json>): seq<Json>
    requires forall b :: b in blocks ==> WellFormedNode(b)
  {
    if blocks == [] then []
    else BlocksElements(blocks[..|blocks| - 1]) + Walk(blocks[|blocks| - 1], [])
  }

  function LayoutElements(message: Json): seq<Json>
    requires WellFormedMessage(message)
  {
    BlocksElements(Blocks(message))
  }

  /** `get_layout_elements` (lines 32-42). */
  method GetLayoutElements(message: Json) returns (layoutElements: seq<Json>)
    requires WellFormedMessage(message)
    ensures layoutElements == LayoutElements(message)
  {
    var layoutBlocks := Blocks(message);
    layoutElements := [];
    var i := 0;
    while i < |layoutBlocks|
      invariant 0 <= i <= |layoutBlocks|
      invariant layoutElements == BlocksElements(layoutBlocks[..i])
    {
      var blockElements := GetBlockElements(layoutBlocks[i], null);
      assert layoutBlocks[..i + 1][..i] == layoutBlocks[..i];
      layoutElements := layoutElements + blockElements.items;
      i := i + 1;
    }
    assert layoutBlocks[..i] == layoutBlocks;
  }

  /** The layout elements are leaves of the message's blocks: well formed and without an
      `"elements"` key. Each block contributes a suffix of its depth-first leaves. */
  lemma {:induction false} BlocksElementsAreLeaves(blocks: seq<Json>)
    requires forall b :: b in blocks ==> WellFormedNode(b)
    ensures forall e :: e in BlocksElements(blocks) ==> WellFormedNode(e) && !Has(e, "elements")
  {
    if blocks != [] {
      var init, last := blocks[..|blocks| - 1], blocks[|blocks| - 1];
      assert forall b :: b in init ==> b in blocks;
      BlocksElementsAreLeaves(init);
      WalkAppendsOnlyLeaves(last, []);
      forall e | e in Walk(last, []) ensures WellFormedNode(e) && !Has(e, "elements") {
        var k :| 0 <= k < |Walk(last, [])| && Walk(last, [])[k] == e;
      }
    }
  }

  /** Blocks are walked independently and their elements concatenated. */
  lemma {:induction false} BlocksElementsAppend(a: seq<Json>, b: seq<Json>)
    requires forall x :: x in a ==> WellFormedNode(x)
    requires forall x :: x in b ==> WellFormedNode(x)
    ensures BlocksElements(a + b) == BlocksElements(a) + BlocksElements(b)
    decreases |b|
  {
    if b != [] {
      var b', last := b[..|b| - 1], b[|b| - 1];
      assert (a + b)[..|a + b| - 1] == a + b';
      assert (a + b)[|a + b| - 1] == last;
      assert forall x :: x in b' ==> x in b;
      BlocksElementsAppend(a, b');
      assert BlocksElements(a + b) == BlocksElements(a + b') + Walk(last, []);
      assert BlocksElements(b) == BlocksElements(b') + Walk(last, []);
      Associative(BlocksElements(a), BlocksElements(b'), Walk(last, []));
    } else {
      assert a + b == a;
    }
  }

  /** The elements a comprehension over `message_element.get(...)` can visit. */
  predicate ElementsShaped(elements: seq<Json>) {
    forall e :: e in elements ==> e.Obj? && (Get(e, "type") == Str("link") ==> Get(e, "url").Str?)
  }

  /** `urls` (lines 52-53): the url of every link element, in order. */
  function Urls(elements: seq<Json>): (urls: seq<string>)
    requires ElementsShaped(elements)
    ensures |urls| <= |elements|
  {
    if elements == [] then []
    else
      var e := elements[0];
      (if Get(e, "type") == Str("link") then [Get(e, "url").s] else []) + Urls(elements[1..])
  }

  /** A string is among the urls exactly when some link element carries it. */
  lemma {:induction false} UrlsMembers(elements: seq<Json>, u: string)
    requires ElementsShaped(elements)
    ensures u in Urls(elements) <==>
      exists e :: e in elements && Get(e, "type") == Str("link") && Get(e, "url") == Str(u)
  {
    if elements != [] {
      var tail := elements[1..];
      assert forall e :: e in tail ==> e in elements;
      UrlsMembers(tail, u);
      assert forall e :: e in elements ==> e == elements[0] || e in tail;
    }
  }

  lemma {:induction false} UrlsAppend(a: seq<Json>, b: seq<Json>)
    requires ElementsShaped(a) && ElementsShaped(b)
    ensures ElementsShaped(a + b) && Urls(a + b) == Urls(a) + Urls(b)
  {
    if a != [] {
      assert (a + b)[1..] == a[1..] + b;
      assert (a + b)[0] == a[0];
      UrlsAppend(a[1..], b);
    } else {
      assert a + b == b;
    }
  }

  /** `get_pull_requests` (lines 58-67): the first match of the pull-request pattern in each
      url, in order; a url without one contributes nothing. */
  function PullRequests(urls: seq<string>): (prs: seq<string>)
    ensures |prs| <= |urls|
  {
    if urls == [] then []
    else
      var m := PullRequestPattern.Search(urls[0]);
      (if m.Some? then [m.value] else []) + PullRequests(urls[1..])
  }

  /** Every pull-request url found matches the pattern in full and is taken from one url. */
  lemma {:induction false} PullRequestsMatch(urls: seq<string>)
    ensures forall p :: p in PullRequests(urls) ==>
      PullRequestPattern.Matches(p) &&
      exists k, a, b :: 0 <= k < |urls| && 0 <= a <= b <= |urls[k]| && p == urls[k][a..b]
  {
    if urls != [] {
      var tail := urls[1..];
      PullRequestsMatch(tail);
      var m := PullRequestPattern.Search(urls[0]);
      PullRequestPattern.SearchSpec(urls[0]);
      var first := if m.Some? then [m.value] else [];
      assert PullRequests(urls) == first + PullRequests(tail);
      forall p | p in PullRequests(urls)
        ensures PullRequestPattern.Matches(p) &&
          exists k, a, b :: 0 <= k < |urls| && 0 <= a <= b <= |urls[k]| && p == urls[k][a..b]
      {
        if p in first {
          var a, b :| 0 <= a <= b <= |urls[0]| && m.value == urls[0][a..b] &&
            PullRequestPattern.Matches(urls[0][a..b]);
          assert p == urls[0][a..b];
        } else {
          assert p in PullRequests(tail);
          var k, a, b :| 0 <= k < |tail| && 0 <= a <= b <= |tail[k]| && p == tail[k][a..b];
          assert tail[k] == urls[k + 1];
        }
      }
    }
  }

  /** Some substring of `u` matches the pull-request pattern. */
  ghost predicate ContainsMatch(u: string) {
    exists a, b :: 0 <= a <= b <= |u| && PullRequestPattern.Matches(u[a..b])
  }

  /** A single url yields one pull request exactly when some substring of it matches, and
      then it is the leftmost match, taken as long as possible. */
  lemma PullRequestsOfUrl(u: string)
    ensures |PullRequests([u])| <= 1
    ensures PullRequests([u]) != [] <==> ContainsMatch(u)
    ensures PullRequests([u]) != [] ==>
      exists a, b :: 0 <= a <= b <= |u| && PullRequests([u])[0] == u[a..b] &&
        PullRequestPattern.Matches(u[a..b]) &&
        (forall b' :: b < b' <= |u| ==> !PullRequestPattern.Matches(u[a..b'])) &&
        (forall a', b' :: 0 <= a' < a && a' <= b' <= |u| ==> !PullRequestPattern.Matches(u[a'..b']))
  {
    assert [u][1..] == [];
    PullRequestPattern.SearchSpec(u);
  }

  lemma {:induction false} PullRequestsAppend(a: seq<string>, b: seq<string>)
    ensures PullRequests(a + b) == PullRequests(a) + PullRequests(b)
  {
    if a != [] {
      assert (a + b)[1..] == a[1..] + b;
      assert (a + b)[0] == a[0];
      PullRequestsAppend(a[1..], b);
    } else {
      assert a + b == b;
    }
  }

  /** `MessagePullRequestParser(message).pull_requests`. */
  function MessagePullRequests(message: Json): (prs: seq<string>)
    requires WellFormedMessage(message)
    ensures forall p :: p in prs ==> PullRequestPattern.Matches(p)
  {
    var elements := LayoutElements(message);
    BlocksElementsAreLeaves(Blocks(message));
    var urls := Urls(elements);
    PullRequestsMatch(urls);
    PullRequests(urls)
  }

  // ---------------------------------------------------------------------------------------
  // MessageReactionsParser

  /** `get_message_reactions` (lines 81-88): the `"name"` of every reaction, in order, or
      nothing when the message has no `"reactions"` key. */
  function Reactions(message: Json): (names: seq<Json>)
    requires WellFormedMessage(message)
    ensures !Has(message, "reactions") ==> names == []
    ensures Has(message, "reactions") ==>
      var rs := message.fields["reactions"].items;
      |names| == |rs| && forall k :: 0 <= k < |rs| ==> names[k] == Get(rs[k], "name")
  {
    if Has(message, "reactions") then
      var rs := message.fields["reactions"].items;
      seq(|rs|, k requires 0 <= k < |rs| => Get(rs[k], "name"))
    else []
  }

  /** `lookup_reaction` (lines 90-96). */
  function LookupReaction(reactions: seq<Json>, reaction: string): bool {
    reactions != [] && Str(reaction) in reactions
  }

  /** A message carries `reaction` exactly when one of its reactions has that name. */
  lemma LookupReactionSpec(message: Json, reaction: string)
    requires WellFormedMessage(message)
    ensures LookupReaction(Reactions(message), reaction) <==>
      Has(message, "reactions") &&
      exists r :: r in message.fields["reactions"].items && Get(r, "name") == Str(reaction)
  {
    if Has(message, "reactions") {
      var rs := message.fields["reactions"].items;
      var names := Reactions(message);
      if Str(reaction) in names {
        var k :| 0 <= k < |names| && names[k] == Str(reaction);
        assert rs[k] in rs;
      }
      if exists r :: r in rs && Get(r, "name") == Str(reaction) {
        var r :| r in rs && Get(r, "name") == Str(reaction);
        var k :| 0 <= k < |rs| && rs[k] == r;
        assert names[k] == Str(reaction);
      }
    }
  }
}
