/** app/ai/focused_tool_result.py: what of a document the walk finds, said on the document itself. */
module FocusedEvidence {
  import opened Options
  import opened PythonText
  import opened Json
  import opened FocusedChunks
  import opened FocusedWalk

  // ---------------------------------------------------------------- which leaf gives which text

  /** The scalars that state a fact when there is a name for it. */
  predicate IsFact(node: Value) {
    match node
    case Bool(_) => true
    case Int(_) => true
    case Float(_, _, finite) => finite
    case _ => false
  }

  /** The pieces a leaf gives: a string that is no url, its own; a scalar under a name, those of the
      name, a colon and its JSON; anything else, none. */
  predicate Gives(leaf: Leaf, isUrl: string -> bool, pieces: seq<string>) {
    match leaf.value
    case Str(s) => pieces == if isUrl(s) then [] else LeafPieces(s)
    case scalar =>
      if IsFact(scalar) && Strip(leaf.caption) != ""
      then pieces == LeafPieces(Strip(leaf.caption) + ": " + Dumps(scalar, true))
      else pieces == []
  }

  ghost predicate AllGive(leaves: seq<Leaf>, isUrl: string -> bool, pieces: seq<seq<string>>) {
    |pieces| == |leaves| && forall i :: 0 <= i < |leaves| ==> Gives(leaves[i], isUrl, pieces[i])
  }

  function CountAll(pieces: seq<seq<string>>): nat {
    if |pieces| == 0 then 0 else |pieces[0]| + CountAll(pieces[1..])
  }

  /** At most sixty pieces of each leaf, one leaf after the other. */
  function InCeiling(pieces: seq<seq<string>>): seq<string> {
    if |pieces| == 0 then []
    else
      var first := pieces[0];
      (if |first| <= 60 then first else first[..60]) + InCeiling(pieces[1..])
  }

  lemma GivenPieces(leaf: Leaf, isUrl: string -> bool, pieces: seq<string>)
    requires Gives(leaf, isUrl, pieces)
    ensures PiecesOf(leaf, isUrl) == pieces
  {
    hide LeafPieces, Strip, Dumps;
  }

  lemma {:induction false} GivenTotals(leaves: seq<Leaf>, isUrl: string -> bool, pieces: seq<seq<string>>)
    requires AllGive(leaves, isUrl, pieces)
    ensures PieceTotal(leaves, isUrl) == CountAll(pieces) && PiecesInCeiling(leaves, isUrl) == InCeiling(pieces)
  {
    hide Gives, PiecesOf;
    if leaves != [] {
      GivenPieces(leaves[0], isUrl, pieces[0]);
      forall i | 0 <= i < |leaves| - 1
        ensures Gives(leaves[1..][i], isUrl, pieces[1..][i])
      {
        assert Gives(leaves[i + 1], isUrl, pieces[i + 1]);
      }
      GivenTotals(leaves[1..], isUrl, pieces[1..]);
    }
  }

  /** What the walk returns, from the document alone: the texts are the first of the pieces its
      leaves give, within the ceiling of each leaf, and together with the overflow they are all
      pieces the leaves give. */
  lemma WalkReturnsWhatLeavesGive(root: Value, isUrl: string -> bool, pieces: seq<seq<string>>)
    requires AllGive(Leaves(root, "$", "", []), isUrl, pieces)
    ensures var (candidates, overflow) := Capped(AllFound(Leaves(root, "$", "", []), isUrl));
            var all := InCeiling(pieces);
      && Texts(candidates) == (if |all| <= 4_000 then all else all[..4_000])
      && |candidates| + overflow == CountAll(pieces)
  {
    hide Leaves, AllFound, PiecesInCeiling, PieceTotal, CountAll, InCeiling, Texts, AllGive;
    GivenTotals(Leaves(root, "$", "", []), isUrl, pieces);
    WalkAccountsForAll(root, isUrl);
    TextsLength(Capped(AllFound(Leaves(root, "$", "", []), isUrl)).0);
  }

  lemma TextsLength(candidates: seq<Candidate>)
    ensures |Texts(candidates)| == |candidates|
  {
  }

  // ---------------------------------------------------------------- each text is found, at its place

  lemma {:induction false} LeafAmongAll(leaves: seq<Leaf>, i: nat, isUrl: string -> bool, c: Candidate)
    requires i < |leaves|
    requires var leaf := leaves[i];
             c in LeafFound(leaf.value, leaf.path, leaf.caption, NearestUrl(leaf.around), NearestTitle(leaf.around),
                            isUrl).candidates
    ensures c in AllFound(leaves, isUrl).candidates
  {
    hide LeafFound, NearestUrl, NearestTitle;
    if i > 0 {
      LeafAmongAll(leaves[1..], i - 1, isUrl, c);
    }
  }

  /** Where a piece of a leaf is found: at the leaf's path, with its number when the leaf is too long
      to stand alone, under the nearest url and title. */
  function PieceAt(leaf: Leaf, text: string, j: nat): Candidate
    requires j < |LeafPieces(text)|
  {
    Candidate(if |Strip(text)| <= 1_200 then leaf.path else leaf.path + "#" + Decimal(j), LeafPieces(text)[j],
              NearestUrl(leaf.around), NearestTitle(leaf.around))
  }

  lemma PieceIsFound(leaves: seq<Leaf>, i: nat, isUrl: string -> bool, text: string, j: nat)
    requires i < |leaves| && LeafText(leaves[i].value, leaves[i].caption, isUrl) == Some(text)
    requires j < |LeafPieces(text)| && j < MAX_CHUNKS_PER_LEAF
    ensures PieceAt(leaves[i], text, j) in AllFound(leaves, isUrl).candidates
  {
    hide LeafText, NearestUrl, NearestTitle, LeafPieces, AllFound, Strip;
    var leaf := leaves[i];
    var found := LeafFound(leaf.value, leaf.path, leaf.caption, NearestUrl(leaf.around), NearestTitle(leaf.around),
                           isUrl);
    assert found.candidates[j] == PieceAt(leaf, text, j);
    LeafAmongAll(leaves, i, isUrl, found.candidates[j]);
  }

  /** Every string of the document that is no url is found, piece by piece, as long as the document
      has no more pieces than are returned. */
  lemma EveryTextIsFound(root: Value, isUrl: string -> bool, i: nat, j: nat)
    requires var leaves := Leaves(root, "$", "", []);
      && i < |leaves| && leaves[i].value.Str? && !isUrl(leaves[i].value.s)
      && j < |LeafPieces(leaves[i].value.s)| && j < 60
      && |PiecesInCeiling(leaves, isUrl)| <= 4_000
    ensures var leaves := Leaves(root, "$", "", []);
            PieceAt(leaves[i], leaves[i].value.s, j) in Capped(AllFound(leaves, isUrl)).0
  {
    hide Leaves, AllFound, PiecesInCeiling, PieceTotal, LeafPieces, PieceAt;
    var leaves := Leaves(root, "$", "", []);
    PieceIsFound(leaves, i, isUrl, leaves[i].value.s, j);
    WalkAccountsForAll(root, isUrl);
    NothingIsCut(AllFound(leaves, isUrl), leaves, isUrl);
  }

  /** So is every number and truth value under a key, with the key in front of it. */
  lemma EveryFactIsFound(root: Value, isUrl: string -> bool, i: nat, j: nat)
    requires var leaves := Leaves(root, "$", "", []);
      && i < |leaves| && IsFact(leaves[i].value) && Strip(leaves[i].caption) != ""
      && j < |LeafPieces(Strip(leaves[i].caption) + ": " + Dumps(leaves[i].value, true))| && j < 60
      && |PiecesInCeiling(leaves, isUrl)| <= 4_000
    ensures var leaves := Leaves(root, "$", "", []);
            var fact := Strip(leaves[i].caption) + ": " + Dumps(leaves[i].value, true);
            PieceAt(leaves[i], fact, j) in Capped(AllFound(leaves, isUrl)).0
  {
    hide Leaves, AllFound, PiecesInCeiling, PieceTotal, LeafPieces, PieceAt, Strip, Dumps;
    var leaves := Leaves(root, "$", "", []);
    PieceIsFound(leaves, i, isUrl, Strip(leaves[i].caption) + ": " + Dumps(leaves[i].value, true), j);
    WalkAccountsForAll(root, isUrl);
    NothingIsCut(AllFound(leaves, isUrl), leaves, isUrl);
  }

  lemma NothingIsCut(found: Found, leaves: seq<Leaf>, isUrl: string -> bool)
    requires found == AllFound(leaves, isUrl) && |PiecesInCeiling(leaves, isUrl)| <= 4_000
    ensures Capped(found).0 == found.candidates
  {
    hide AllFound, PiecesInCeiling;
    AllFoundAreThePieces(leaves, isUrl);
  }

  // ---------------------------------------------------------------- which strings only label

  /** The leaves of one field: none, when it is a string under a key that labels its object. */
  function OfField(field: Field, path: string, around: seq<Value>): seq<Leaf> {
    if field.value.Str? && (field.key == "title" || field.key == "url" || field.key == "source_url") then []
    else Leaves(field.value, path + "." + field.key, field.key, around)
  }

  lemma {:induction false} FieldLeavesAppend(a: seq<Field>, b: seq<Field>, path: string, around: seq<Value>)
    ensures FieldLeaves(a + b, path, around) == FieldLeaves(a, path, around) + FieldLeaves(b, path, around)
  {
    hide Leaves, IsMetadata;
    if a == [] {
      assert a + b == b;
    } else {
      assert (a + b)[1..] == a[1..] + b;
      FieldLeavesAppend(a[1..], b, path, around);
    }
  }

  /** The leaves of an object are those of its fields, in order. */
  lemma LeavesOfObject(fields: seq<Field>, i: nat, path: string, caption: string, around: seq<Value>)
    requires i < |fields|
    ensures var inside := around + [Obj(fields)];
            var before, after := FieldLeaves(fields[..i], path, inside), FieldLeaves(fields[i + 1..], path, inside);
            Leaves(Obj(fields), path, caption, around) == before + OfField(fields[i], path, inside) + after
  {
    hide FieldLeaves;
    var inside := around + [Obj(fields)];
    assert fields == fields[..i] + ([fields[i]] + fields[i + 1..]);
    FieldLeavesAppend(fields[..i], [fields[i]] + fields[i + 1..], path, inside);
    FieldLeavesAppend([fields[i]], fields[i + 1..], path, inside);
    OneField(fields[i], path, inside);
  }

  lemma OneField(field: Field, path: string, around: seq<Value>)
    ensures FieldLeaves([field], path, around) == OfField(field, path, around)
  {
    hide Leaves;
    assert [field][1..] == [] && FieldLeaves([], path, around) == [];
  }

  // ---------------------------------------------------------------- what an object calls itself

  /** Under the key there is a string, and this is what it says without the blanks around it. */
  predicate Says(fields: seq<Field>, key: string, text: string) {
    match Get(fields, key)
    case Some(Str(s)) => text == Strip(s) && text != ""
    case _ => false
  }

  /** An object's own url is what its `url` says, or else its `source_url`; its title, its `title`. */
  lemma OwnLabels(node: Value, text: string)
    ensures OwnUrl(node) == Some(text) <==>
      && node.Obj?
      && (|| Says(node.fields, "url", text)
          || (Says(node.fields, "source_url", text) && forall other :: !Says(node.fields, "url", other)))
    ensures OwnTitle(node) == Some(text) <==> node.Obj? && Says(node.fields, "title", text)
  {
    hide Get, Strip;
    if node.Obj? {
      match Get(node.fields, "url")
      case Some(Str(s)) => assert Strip(s) != "" ==> Says(node.fields, "url", Strip(s));
      case _ =>
    }
  }
}
