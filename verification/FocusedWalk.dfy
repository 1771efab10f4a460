/** app/ai/focused_tool_result.py: walking a JSON tool result for passages.

    The walk keeps its own stack instead of recursing. It must still visit the leaves in the
    order they are written, label each passage with the nearest url and title around it, and
    account for every passage it does not return. */
module FocusedWalk {
  import opened Options
  import opened PythonText
  import opened Json
  import opened FocusedChunks

  const MAX_CANDIDATES: nat := 4_000

  /** One passage; its `order` is its position in the list. */
  datatype Candidate = Candidate(path: string, text: string, url: Option<string>, title: Option<string>)

  // ---------------------------------------------------------------- one node

  predicate IsMetadata(field: Field) {
    field.key in ["title", "url", "source_url"] && field.value.Str?
  }

  function StringField(fields: seq<Field>, key: string): Option<string> {
    match Get(fields, key)
    case Some(Str(s)) => if Strip(s) == "" then None else Some(Strip(s))
    case _ => None
  }

  function OrElse<T>(a: Option<T>, b: Option<T>): Option<T> {
    if a.Some? then a else b
  }

  /** The url an object gives itself. */
  function OwnUrl(node: Value): Option<string> {
    if node.Obj? then OrElse(StringField(node.fields, "url"), StringField(node.fields, "source_url")) else None
  }

  function OwnTitle(node: Value): Option<string> {
    if node.Obj? then StringField(node.fields, "title") else None
  }

  function ScalarFact(caption: string, node: Value): Option<string> {
    if !(node.Bool? || node.Int? || (node.Float? && node.finite)) then None
    else if Strip(caption) == "" then None
    else Some(Strip(caption) + ": " + Dumps(node, true))
  }

  /** What a node that is no container contributes: its text, if it has any to offer. */
  function LeafText(node: Value, caption: string, isUrl: string -> bool): Option<string> {
    if node.Str? then if isUrl(node.s) then None else Some(node.s)
    else ScalarFact(caption, node)
  }

  // ---------------------------------------------------------------- the reference walk

  /** A leaf of the tree with the containers around it, outermost first. */
  datatype Leaf = Leaf(path: string, caption: string, value: Value, around: seq<Value>)

  predicate IsContainer(node: Value) {
    node.Obj? || node.Arr?
  }

  /** The leaves in the order they are written. Strings that only label their object are none. */
  function Leaves(node: Value, path: string, caption: string, around: seq<Value>): seq<Leaf>
    decreases node, 0
  {
    match node
    case Obj(fields) => FieldLeaves(fields, path, around + [node])
    case Arr(items) => ItemLeaves(items, 0, path, caption, around + [node])
    case _ => [Leaf(path, caption, node, around)]
  }

  function FieldLeaves(fields: seq<Field>, path: string, around: seq<Value>): seq<Leaf>
    decreases fields, 1
  {
    if |fields| == 0 then [] else
    var field := fields[0];
    (if IsMetadata(field) then [] else Leaves(field.value, path + "." + field.key, field.key, around))
    + FieldLeaves(fields[1..], path, around)
  }

  function ItemLeaves(items: seq<Value>, index: nat, path: string, caption: string, around: seq<Value>): seq<Leaf>
    decreases items, 1
  {
    if |items| == 0 then []
    else Leaves(items[0], path + "[" + Decimal(index) + "]", caption, around)
         + ItemLeaves(items[1..], index + 1, path, caption, around)
  }

  /** The nearest enclosing object's own url, from the inside out. */
  function NearestUrl(around: seq<Value>): Option<string> {
    if |around| == 0 then None
    else OrElse(OwnUrl(around[|around| - 1]), NearestUrl(around[..|around| - 1]))
  }

  function NearestTitle(around: seq<Value>): Option<string> {
    if |around| == 0 then None
    else OrElse(OwnTitle(around[|around| - 1]), NearestTitle(around[..|around| - 1]))
  }

  /** What is found, and how many pieces were dropped at the ceiling of their own leaf. */
  datatype Found = Found(candidates: seq<Candidate>, dropped: nat)

  function Nothing(): Found {
    Found([], 0)
  }

  function Both(a: Found, b: Found): Found {
    Found(a.candidates + b.candidates, a.dropped + b.dropped)
  }

  function Labelled(chunks: seq<Chunk>, url: Option<string>, title: Option<string>): (r: seq<Candidate>)
    ensures |r| == |chunks|
    ensures forall i :: 0 <= i < |chunks| ==> r[i] == Candidate(chunks[i].path, chunks[i].text, url, title)
  {
    if |chunks| == 0 then []
    else [Candidate(chunks[0].path, chunks[0].text, url, title)] + Labelled(chunks[1..], url, title)
  }

  function LeafFound(node: Value, path: string, caption: string, url: Option<string>, title: Option<string>,
                     isUrl: string -> bool): Found {
    match LeafText(node, caption, isUrl)
    case None => Nothing()
    case Some(text) => Found(Labelled(Chunked(path, text), url, title), |LeafPieces(text)| - |Chunked(path, text)|)
  }

  /** All passages of the leaves, each with the url and title nearest to it. */
  function AllFound(leaves: seq<Leaf>, isUrl: string -> bool): Found {
    if |leaves| == 0 then Nothing()
    else
      var leaf := leaves[0];
      Both(LeafFound(leaf.value, leaf.path, leaf.caption, NearestUrl(leaf.around), NearestTitle(leaf.around), isUrl),
           AllFound(leaves[1..], isUrl))
  }

  // ---------------------------------------------------------------- the stack

  datatype Frame = Frame(node: Value, path: string, url: Option<string>, title: Option<string>, caption: string)

  /** A frame whose url and title are the nearest ones of the containers around its node. */
  ghost predicate Fits(frame: Frame, around: seq<Value>) {
    frame.url == NearestUrl(around) && frame.title == NearestTitle(around)
  }

  /** The leaves still to come from a stack, its top first. `around` runs beside it. */
  ghost function StackLeaves(stack: seq<Frame>, around: seq<seq<Value>>): seq<Leaf>
    requires |around| == |stack|
  {
    if |stack| == 0 then []
    else
      var top := stack[|stack| - 1];
      Leaves(top.node, top.path, top.caption, around[|stack| - 1])
        + StackLeaves(stack[..|stack| - 1], around[..|stack| - 1])
  }

  lemma StackLeavesPush(stack: seq<Frame>, around: seq<seq<Value>>, frame: Frame, above: seq<Value>)
    requires |around| == |stack|
    ensures StackLeaves(stack + [frame], around + [above])
         == Leaves(frame.node, frame.path, frame.caption, above) + StackLeaves(stack, around)
  {
    assert (stack + [frame])[..|stack|] == stack && (around + [above])[..|stack|] == around;
  }

  /** A bound on the work left: the nodes of the trees on the stack. */
  function NodeCount(node: Value): nat
    decreases node, 0
  {
    match node
    case Obj(fields) => 1 + FieldCount(fields)
    case Arr(items) => 1 + ItemCount(items)
    case _ => 1
  }

  function FieldCount(fields: seq<Field>): nat
    decreases fields, 1
  {
    if |fields| == 0 then 0 else
    var field := fields[0];
    NodeCount(field.value) + FieldCount(fields[1..])
  }

  function ItemCount(items: seq<Value>): nat
    decreases items, 1
  {
    if |items| == 0 then 0 else NodeCount(items[0]) + ItemCount(items[1..])
  }

  function StackCount(stack: seq<Frame>): nat {
    if |stack| == 0 then 0 else NodeCount(stack[|stack| - 1].node) + StackCount(stack[..|stack| - 1])
  }

  lemma StackCountPush(stack: seq<Frame>, frame: Frame)
    ensures StackCount(stack + [frame]) == NodeCount(frame.node) + StackCount(stack)
  {
    assert (stack + [frame])[..|stack|] == stack;
  }

  /** The fields of an object, pushed so that the first one is popped first. */
  method PushFields(stack: seq<Frame>, fields: seq<Field>, path: string, url: Option<string>, title: Option<string>,
                    ghost trails: seq<seq<Value>>, ghost around: seq<Value>)
    returns (pushed: seq<Frame>, ghost trails': seq<seq<Value>>)
    requires |trails| == |stack| && url == NearestUrl(around) && title == NearestTitle(around)
    requires forall i :: 0 <= i < |stack| ==> Fits(stack[i], trails[i])
    ensures |trails'| == |pushed| && forall i :: 0 <= i < |pushed| ==> Fits(pushed[i], trails'[i])
    ensures StackLeaves(pushed, trails') == FieldLeaves(fields, path, around) + StackLeaves(stack, trails)
    ensures StackCount(pushed) <= FieldCount(fields) + StackCount(stack)
  {
    hide Leaves, NodeCount, NearestUrl, NearestTitle, StackLeaves, StackCount, IsMetadata;
    pushed, trails' := stack, trails;
    var i := |fields|;
    NoFieldLeaves(path, around);
    assert fields[|fields|..] == [];
    assert FieldCount(fields[|fields|..]) == 0;
    while i > 0
      invariant 0 <= i <= |fields|
      invariant |trails'| == |pushed| && forall i :: 0 <= i < |pushed| ==> Fits(pushed[i], trails'[i])
      invariant StackLeaves(pushed, trails') == FieldLeaves(fields[i..], path, around) + StackLeaves(stack, trails)
      invariant StackCount(pushed) <= FieldCount(fields[i..]) + StackCount(stack)
    {
      i := i - 1;
      var field := fields[i];
      assert fields[i..][1..] == fields[i + 1..];
      if IsMetadata(field) {
        continue;
      }
      var frame := Frame(field.value, path + "." + field.key, url, title, field.key);
      StackLeavesPush(pushed, trails', frame, around);
      StackCountPush(pushed, frame);
      pushed, trails' := pushed + [frame], trails' + [around];
    }
    assert fields[0..] == fields;
  }

  lemma NoFieldLeaves(path: string, around: seq<Value>)
    ensures FieldLeaves([], path, around) == []
    ensures forall index, caption :: ItemLeaves([], index, path, caption, around) == []
  {
  }

  method PushItems(stack: seq<Frame>, items: seq<Value>, path: string, url: Option<string>, title: Option<string>,
                   caption: string, ghost trails: seq<seq<Value>>, ghost around: seq<Value>)
    returns (pushed: seq<Frame>, ghost trails': seq<seq<Value>>)
    requires |trails| == |stack| && url == NearestUrl(around) && title == NearestTitle(around)
    requires forall i :: 0 <= i < |stack| ==> Fits(stack[i], trails[i])
    ensures |trails'| == |pushed| && forall i :: 0 <= i < |pushed| ==> Fits(pushed[i], trails'[i])
    ensures StackLeaves(pushed, trails') == ItemLeaves(items, 0, path, caption, around) + StackLeaves(stack, trails)
    ensures StackCount(pushed) <= ItemCount(items) + StackCount(stack)
  {
    hide Leaves, NodeCount, NearestUrl, NearestTitle, StackLeaves, StackCount;
    pushed, trails' := stack, trails;
    var i := |items|;
    NoFieldLeaves(path, around);
    assert items[|items|..] == [];
    assert ItemCount(items[|items|..]) == 0;
    while i > 0
      invariant 0 <= i <= |items|
      invariant |trails'| == |pushed| && forall i :: 0 <= i < |pushed| ==> Fits(pushed[i], trails'[i])
      invariant StackLeaves(pushed, trails')
           == ItemLeaves(items[i..], i, path, caption, around) + StackLeaves(stack, trails)
      invariant StackCount(pushed) <= ItemCount(items[i..]) + StackCount(stack)
    {
      i := i - 1;
      assert items[i..][1..] == items[i + 1..];
      var frame := Frame(items[i], path + "[" + Decimal(i) + "]", url, title, caption);
      StackLeavesPush(pushed, trails', frame, around);
      StackCountPush(pushed, frame);
      pushed, trails' := pushed + [frame], trails' + [around];
    }
    assert items[0..] == items;
  }

  // ---------------------------------------------------------------- the walk

  /** The first `MAX_CANDIDATES` of what was found, and the number of all the rest. */
  function Capped(found: Found): (seq<Candidate>, nat) {
    if |found.candidates| <= MAX_CANDIDATES then (found.candidates, found.dropped)
    else (found.candidates[..MAX_CANDIDATES], found.dropped + |found.candidates| - MAX_CANDIDATES)
  }

  lemma CappedOneMore(found: Found, c: Candidate)
    ensures var (candidates, overflow) := Capped(found);
      Capped(Found(found.candidates + [c], found.dropped))
        == if |candidates| >= MAX_CANDIDATES then (candidates, overflow + 1) else (candidates + [c], overflow)
  {
    var more := found.candidates + [c];
    if |found.candidates| >= MAX_CANDIDATES {
      assert more[..MAX_CANDIDATES] == found.candidates[..MAX_CANDIDATES];
      assert found.candidates[..|found.candidates|] == found.candidates;
    } else {
      assert more[..|more|] == more;
    }
  }

  /** The loop that appends one leaf's chunks, counting those past the cap. */
  method AppendChunks(candidates: seq<Candidate>, overflow: nat, chunks: seq<Chunk>, dropped: nat,
                      url: Option<string>, title: Option<string>, ghost found: Found)
    returns (candidates': seq<Candidate>, overflow': nat)
    requires (candidates, overflow) == Capped(found)
    ensures (candidates', overflow') == Capped(Both(found, Found(Labelled(chunks, url, title), dropped)))
  {
    hide Labelled;
    candidates', overflow' := candidates, overflow + dropped;
    ghost var labelled := Labelled(chunks, url, title);
    assert found.candidates + labelled[..0] == found.candidates;
    for i := 0 to |chunks|
      invariant (candidates', overflow') == Capped(Both(found, Found(labelled[..i], dropped)))
    {
      CappedOneMore(Both(found, Found(labelled[..i], dropped)), labelled[i]);
      assert found.candidates + labelled[..i + 1] == (found.candidates + labelled[..i]) + [labelled[i]];
      if |candidates'| >= MAX_CANDIDATES {
        overflow' := overflow' + 1;
        continue;
      }
      candidates' := candidates' + [Candidate(chunks[i].path, chunks[i].text, url, title)];
    }
    assert labelled[..|chunks|] == labelled;
  }

  /** The stack walk returns exactly the first passages of the reference walk and counts exactly
      the ones it leaves out. */
  method WalkJson(root: Value, isUrl: string -> bool) returns (candidates: seq<Candidate>, overflow: nat)
    ensures (candidates, overflow) == Capped(AllFound(Leaves(root, "$", "", []), isUrl))
  {
    hide Leaves, AllFound, StackLeaves, StackCount, NodeCount, FieldLeaves, ItemLeaves, LeafText, OwnUrl;
    hide OwnTitle, Chunked;
    hide LeafPieces, Capped;
    candidates, overflow := [], 0;
    var stack := [Frame(root, "$", None, None, "")];
    ghost var trails: seq<seq<Value>> := [[]];
    ghost var found := Nothing();
    ghost var all := Leaves(root, "$", "", []);
    StartStack(stack[0]);
    NothingIsCapped(found);
    NothingFirst(AllFound(all, isUrl));
    while stack != []
      invariant |trails| == |stack| && forall i :: 0 <= i < |stack| ==> Fits(stack[i], trails[i])
      invariant (candidates, overflow) == Capped(found)
      invariant Both(found, AllFound(StackLeaves(stack, trails), isUrl)) == AllFound(all, isUrl)
      decreases StackCount(stack)
    {
      var top := stack[|stack| - 1];
      var rest := stack[..|stack| - 1];
      ghost var above, below := trails[|stack| - 1], trails[..|stack| - 1];
      assert stack == rest + [top] && trails == below + [above];
      StackLeavesPush(rest, below, top, above);
      StackCountPush(rest, top);
      PopUnfold(top, above);
      stack, trails := rest, below;
      if top.node.Obj? {
        var fields := top.node.fields;
        var url := OrElse(OrElse(StringField(fields, "url"), StringField(fields, "source_url")), top.url);
        var title := OrElse(StringField(fields, "title"), top.title);
        NearestOfObject(top.node, above);
        stack, trails := PushFields(stack, fields, top.path, url, title, trails, above + [top.node]);
        continue;
      }
      if top.node.Arr? {
        NearestOfArray(top.node, above);
        stack, trails := PushItems(stack, top.node.items, top.path, top.url, top.title, top.caption, trails,
                                   above + [top.node]);
        continue;
      }
      ghost var before := found;
      ghost var rested := StackLeaves(rest, below);
      found := Both(before, LeafFound(top.node, top.path, top.caption, top.url, top.title, isUrl));
      OneLeaf(top, above, rested, before, isUrl);
      var text := LeafText(top.node, top.caption, isUrl);
      if text.None? {
        NothingLast(before);
        continue;
      }
      var chunks, dropped := Chunks(top.path, text.value);
      candidates, overflow := AppendChunks(candidates, overflow, chunks, dropped, top.url, top.title, before);
    }
    NoLeaves(trails, isUrl);
    NothingLast(found);
  }

  lemma NothingFirst(f: Found)
    ensures Both(Nothing(), f) == f
  {
    assert [] + f.candidates == f.candidates;
  }

  lemma NothingLast(f: Found)
    ensures Both(f, Nothing()) == f
  {
    assert f.candidates + [] == f.candidates;
  }

  lemma NothingIsCapped(f: Found)
    requires f == Nothing()
    ensures Capped(f) == ([], 0)
  {
  }

  lemma NoLeaves(trails: seq<seq<Value>>, isUrl: string -> bool)
    requires trails == []
    ensures AllFound(StackLeaves([], trails), isUrl) == Nothing()
  {
  }

  lemma StartStack(frame: Frame)
    requires frame.url == None && frame.title == None
    ensures Fits(frame, [])
    ensures StackLeaves([frame], [[]]) == Leaves(frame.node, frame.path, frame.caption, [])
  {
    StackLeavesPush([], [], frame, []);
    assert [] + [frame] == [frame];
    var none: seq<seq<Value>> := [];
    assert none + [[]] == [[]];
  }

  lemma PopUnfold(top: Frame, above: seq<Value>)
    ensures NodeCount(top.node) >= 1
    ensures top.node.Obj? ==>
      && Leaves(top.node, top.path, top.caption, above) == FieldLeaves(top.node.fields, top.path, above + [top.node])
      && NodeCount(top.node) == 1 + FieldCount(top.node.fields)
    ensures top.node.Arr? ==>
      && Leaves(top.node, top.path, top.caption, above)
        == ItemLeaves(top.node.items, 0, top.path, top.caption, above + [top.node])
      && NodeCount(top.node) == 1 + ItemCount(top.node.items)
    ensures !IsContainer(top.node) ==>
      Leaves(top.node, top.path, top.caption, above) == [Leaf(top.path, top.caption, top.node, above)]
  {
    hide FieldLeaves, ItemLeaves;
  }

  lemma NearestOfObject(node: Value, around: seq<Value>)
    requires node.Obj?
    ensures NearestUrl(around + [node])
         == OrElse(OrElse(StringField(node.fields, "url"), StringField(node.fields, "source_url")), NearestUrl(around))
    ensures NearestTitle(around + [node]) == OrElse(StringField(node.fields, "title"), NearestTitle(around))
  {
    hide StringField;
    assert (around + [node])[..|around|] == around;
  }

  lemma NearestOfArray(node: Value, around: seq<Value>)
    requires node.Arr?
    ensures NearestUrl(around + [node]) == NearestUrl(around) && NearestTitle(around + [node]) == NearestTitle(around)
  {
    assert (around + [node])[..|around|] == around;
  }

  lemma OneLeaf(top: Frame, above: seq<Value>, rest: seq<Leaf>, before: Found, isUrl: string -> bool)
    requires Fits(top, above)
    ensures var leaf := Leaf(top.path, top.caption, top.node, above);
            var here := LeafFound(top.node, top.path, top.caption, top.url, top.title, isUrl);
            Both(before, AllFound([leaf] + rest, isUrl)) == Both(Both(before, here), AllFound(rest, isUrl))
  {
    hide LeafFound, NearestUrl, NearestTitle;
    var leaf := Leaf(top.path, top.caption, top.node, above);
    assert ([leaf] + rest)[1..] == rest;
  }

  // ---------------------------------------------------------------- what the walk promises

  /** The pieces of one leaf, before any ceiling. */
  function PiecesOf(leaf: Leaf, isUrl: string -> bool): seq<string> {
    match LeafText(leaf.value, leaf.caption, isUrl)
    case None => []
    case Some(text) => LeafPieces(text)
  }

  /** How many pieces all leaves have. */
  function PieceTotal(leaves: seq<Leaf>, isUrl: string -> bool): nat {
    if |leaves| == 0 then 0 else |PiecesOf(leaves[0], isUrl)| + PieceTotal(leaves[1..], isUrl)
  }

  /** The pieces within the ceiling of each leaf, in order. */
  function PiecesInCeiling(leaves: seq<Leaf>, isUrl: string -> bool): seq<string> {
    if |leaves| == 0 then [] else Kept(PiecesOf(leaves[0], isUrl)) + PiecesInCeiling(leaves[1..], isUrl)
  }

  function Texts(candidates: seq<Candidate>): (texts: seq<string>)
    ensures |texts| == |candidates|
    ensures forall i :: 0 <= i < |candidates| ==> texts[i] == candidates[i].text
  {
    seq(|candidates|, i requires 0 <= i < |candidates| => candidates[i].text)
  }

  lemma OneLeafFound(leaf: Leaf, isUrl: string -> bool)
    ensures var found := LeafFound(leaf.value, leaf.path, leaf.caption, NearestUrl(leaf.around),
                                   NearestTitle(leaf.around), isUrl);
      && Texts(found.candidates) == Kept(PiecesOf(leaf, isUrl))
      && |found.candidates| + found.dropped == |PiecesOf(leaf, isUrl)|
  {
    hide LeafPieces, LeafText, NearestUrl, NearestTitle;
  }

  lemma {:induction false} AllFoundAreThePieces(leaves: seq<Leaf>, isUrl: string -> bool)
    ensures var found := AllFound(leaves, isUrl);
      && Texts(found.candidates) == PiecesInCeiling(leaves, isUrl)
      && |found.candidates| + found.dropped == PieceTotal(leaves, isUrl)
  {
    hide PiecesOf, Kept, LeafFound, NearestUrl, NearestTitle, Texts;
    if leaves == [] {
      TextsAppend([], []);
    } else {
      var leaf := leaves[0];
      OneLeafFound(leaf, isUrl);
      AllFoundAreThePieces(leaves[1..], isUrl);
      var first := LeafFound(leaf.value, leaf.path, leaf.caption, NearestUrl(leaf.around), NearestTitle(leaf.around),
                             isUrl);
      TextsAppend(first.candidates, AllFound(leaves[1..], isUrl).candidates);
    }
  }

  lemma TextsAppend(a: seq<Candidate>, b: seq<Candidate>)
    ensures Texts(a + b) == Texts(a) + Texts(b) && Texts([]) == []
  {
    hide Texts;
    assert forall i :: 0 <= i < |a| ==> (a + b)[i] == a[i];
    assert forall i :: 0 <= i < |b| ==> (a + b)[|a| + i] == b[i];
    assert forall i :: 0 <= i < |a| ==> Texts(a + b)[i] == Texts(a)[i];
    assert forall i :: 0 <= i < |b| ==> Texts(a + b)[|a| + i] == Texts(b)[i];
  }

  /** Nothing of the document is lost uncounted: the returned passages are the first of the pieces
      within the ceiling of their leaf, and with the overflow they make up all pieces there are. */
  lemma WalkAccountsForAll(root: Value, isUrl: string -> bool)
    ensures var leaves := Leaves(root, "$", "", []);
            var (candidates, overflow) := Capped(AllFound(leaves, isUrl));
      && |candidates| + overflow == PieceTotal(leaves, isUrl)
      && Texts(candidates) <= PiecesInCeiling(leaves, isUrl)
      && |candidates| == (if |PiecesInCeiling(leaves, isUrl)| <= MAX_CANDIDATES then |PiecesInCeiling(leaves, isUrl)|
                          else MAX_CANDIDATES)
  {
    hide Leaves, AllFound, PiecesInCeiling, PieceTotal;
    AllFoundAreThePieces(Leaves(root, "$", "", []), isUrl);
  }

  /** A passage's url is the own url of the innermost object around it that has one. */
  lemma {:induction false} NearestUrlIsNearest(around: seq<Value>, i: nat)
    requires i < |around| && OwnUrl(around[i]).Some?
    requires forall j :: i < j < |around| ==> OwnUrl(around[j]).None?
    ensures NearestUrl(around) == OwnUrl(around[i])
  {
    hide OwnUrl;
    if i < |around| - 1 {
      NearestUrlIsNearest(around[..|around| - 1], i);
    }
  }

  lemma {:induction false} NearestTitleIsNearest(around: seq<Value>, i: nat)
    requires i < |around| && OwnTitle(around[i]).Some?
    requires forall j :: i < j < |around| ==> OwnTitle(around[j]).None?
    ensures NearestTitle(around) == OwnTitle(around[i])
  {
    hide OwnTitle;
    if i < |around| - 1 {
      NearestTitleIsNearest(around[..|around| - 1], i);
    }
  }

  /** Every candidate of the walk carries text within the bound. */
  lemma {:induction false} CandidatesAreBounded(leaves: seq<Leaf>, isUrl: string -> bool)
    ensures forall c :: c in AllFound(leaves, isUrl).candidates ==> IsPiece(c.text)
  {
    hide IsPiece, LeafText, NearestUrl, NearestTitle, LeafPieces;
    if leaves != [] {
      CandidatesAreBounded(leaves[1..], isUrl);
      var leaf := leaves[0];
      var text := LeafText(leaf.value, leaf.caption, isUrl);
      if text.Some? {
        PiecesAreBounded(text.value);
      }
    }
  }
}
