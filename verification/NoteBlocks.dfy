/** A note's description and its blocks, kept in step by seven operations
    (application_context/block_context.go, note_context.go, basic_entity_context.go). */
module NoteBlocks {
  import opened Outcomes
  import opened BlockPositions
  import opened Sequences

  /** For a text block the content is its text. */
  datatype Block = Block(kind: string, position: string, content: string)

  type Blocks = map<nat, Block>

  datatype BlockError = NotFound | UnknownType | InvalidContent | EmptyPosition | DuplicatePosition
    | ForeignBlock | PositionTaken

  const REBALANCE_THRESHOLD: nat := 8

  // ---- order by (position, id) ----

  predicate Before(blocks: Blocks, i: nat, j: nat)
    requires i in blocks && j in blocks
  {
    Less(blocks[i].position, blocks[j].position) || (blocks[i].position == blocks[j].position && i < j)
  }

  lemma BeforeIsTotal(blocks: Blocks, i: nat, j: nat)
    requires i in blocks && j in blocks && i != j
    ensures Before(blocks, i, j) <==> !Before(blocks, j, i)
  {
    LessIsTotal(blocks[i].position, blocks[j].position);
  }

  lemma BeforeIsTransitive(blocks: Blocks, i: nat, j: nat, k: nat)
    requires i in blocks && j in blocks && k in blocks && Before(blocks, i, j) && Before(blocks, j, k)
    ensures Before(blocks, i, k)
  {
    if Less(blocks[i].position, blocks[j].position) && Less(blocks[j].position, blocks[k].position) {
      LessIsTransitive(blocks[i].position, blocks[j].position, blocks[k].position);
    }
  }

  predicate IsFirst(blocks: Blocks, id: nat) {
    id in blocks && forall j :: j in blocks && j != id ==> Before(blocks, id, j)
  }

  lemma FirstIsUnique(blocks: Blocks, i: nat, j: nat)
    requires IsFirst(blocks, i) && IsFirst(blocks, j)
    ensures i == j
  {
    if i != j {
      BeforeIsTotal(blocks, i, j);
    }
  }

  lemma {:induction false} FirstExists(blocks: Blocks) returns (first: nat)
    requires blocks != map[]
    ensures IsFirst(blocks, first)
    decreases |blocks|
  {
    var id :| id in blocks;
    var rest := blocks - {id};
    if rest == map[] {
      first := id;
      assert forall j :: j in blocks && j != id ==> j in rest;
    } else {
      var other := FirstExists(rest);
      BeforeIsTotal(blocks, id, other);
      first := if Before(blocks, id, other) then id else other;
      forall j | j in blocks && j != first ensures Before(blocks, first, j) {
        assert j != id ==> j in rest;
        if j != id && j != other {
          assert Before(rest, other, j);
          if first == id { BeforeIsTransitive(blocks, id, other, j); }
        }
      }
    }
  }

  function TextBlocks(blocks: Blocks): Blocks {
    map id | id in blocks && blocks[id].kind == "text" :: blocks[id]
  }

  /** The agreement the two-way sync maintains: with text blocks present, the description
      is the text of the first of them. */
  ghost predicate Agrees(description: string, blocks: Blocks) {
    forall id :: IsFirst(TextBlocks(blocks), id) ==> description == blocks[id].content
  }

  /** In columns: this is the text block with the least position, the least id on ties. */
  ghost predicate IsFirstText(blocks: Blocks, id: nat) {
    && id in blocks && blocks[id].kind == "text"
    && forall j :: j in blocks && j != id && blocks[j].kind == "text" ==>
         LexBelow(blocks[id].position, blocks[j].position) || (blocks[id].position == blocks[j].position && id < j)
  }

  lemma FirstIsFirstText(blocks: Blocks, id: nat)
    ensures IsFirst(TextBlocks(blocks), id) <==> IsFirstText(blocks, id)
  {
    if id in blocks {
      forall j | j in blocks
        ensures Less(blocks[id].position, blocks[j].position) <==> LexBelow(blocks[id].position, blocks[j].position)
      {
        LessIsLex(blocks[id].position, blocks[j].position);
      }
    }
    if id in TextBlocks(blocks) {
      assert forall j :: j in TextBlocks(blocks) <==> j in blocks && blocks[j].kind == "text";
    }
  }

  /** What every operation keeps: the description is what the first text block says. */
  lemma AgreementInColumns(description: string, blocks: Blocks)
    ensures Agrees(description, blocks) <==> forall id :: IsFirstText(blocks, id) ==> description == blocks[id].content
  {
    forall id ensures IsFirst(TextBlocks(blocks), id) <==> IsFirstText(blocks, id) {
      FirstIsFirstText(blocks, id);
    }
  }

  /** The same blocks in the same order, whatever their positions are now. */
  ghost predicate Rearranged(before: Blocks, after: Blocks) {
    && after.Keys == before.Keys
    && (forall id :: id in before ==> after[id].kind == before[id].kind && after[id].content == before[id].content)
    && (forall i, j :: i in before && j in before ==> (Before(after, i, j) <==> Before(before, i, j)))
  }

  lemma RearrangedKeepsAgreement(description: string, before: Blocks, after: Blocks)
    requires Rearranged(before, after) && Agrees(description, before)
    ensures Agrees(description, after)
  {
    forall id | IsFirst(TextBlocks(after), id) ensures description == after[id].content {
      forall j | j in TextBlocks(before) && j != id ensures Before(TextBlocks(before), id, j) {
        assert j in TextBlocks(after) && Before(TextBlocks(after), id, j);
        assert Before(after, id, j);
      }
      assert IsFirst(TextBlocks(before), id);
    }
  }

  /** A list of the blocks, each once. */
  ghost predicate Lists(blocks: Blocks, order: seq<nat>) {
    && (forall id :: id in blocks <==> id in order)
    && (forall i, j :: 0 <= i < j < |order| ==> order[i] != order[j])
  }

  ghost predicate InOrder(blocks: Blocks, order: seq<nat>)
    requires Lists(blocks, order)
  {
    forall i, j :: 0 <= i < j < |order| ==> Before(blocks, order[i], order[j])
  }

  /** The list a query ordered by (position, id) returns. */
  function OrderedIds(blocks: Blocks): (order: seq<nat>)
    ensures Lists(blocks, order) && InOrder(blocks, order)
    decreases |blocks|
  {
    if blocks == map[] then []
    else
      assert exists id :: IsFirst(blocks, id) by { var first := FirstExists(blocks); }
      assert forall i, j :: IsFirst(blocks, i) && IsFirst(blocks, j) ==> i == j by {
        forall i, j | IsFirst(blocks, i) && IsFirst(blocks, j) ensures i == j { FirstIsUnique(blocks, i, j); }
      }
      var first: nat :| first in blocks && IsFirst(blocks, first);
      var rest := OrderedIds(blocks - {first});
      FirstThenRest(blocks, first, rest);
      [first] + rest
  }

  lemma FirstThenRest(blocks: Blocks, first: nat, rest: seq<nat>)
    requires IsFirst(blocks, first) && Lists(blocks - {first}, rest) && InOrder(blocks - {first}, rest)
    ensures Lists(blocks, [first] + rest) && InOrder(blocks, [first] + rest)
  {
    ListsOneMore(blocks, first, rest);
    var order := [first] + rest;
    forall i, j | 0 <= i < j < |order| ensures Before(blocks, order[i], order[j]) {
      assert rest[j - 1] in rest;
      if i > 0 {
        assert rest[i - 1] in rest && Before(blocks - {first}, rest[i - 1], rest[j - 1]);
      }
    }
  }

  lemma ListsOneMore(blocks: Blocks, first: nat, rest: seq<nat>)
    requires first in blocks && Lists(blocks - {first}, rest)
    ensures Lists(blocks, [first] + rest)
  {
    var order := [first] + rest;
    assert first !in rest;
    forall id ensures id in blocks <==> id in order {
      assert id in blocks <==> id == first || id in blocks - {first};
    }
    forall j | 0 < j < |order| ensures order[j] != first {
      assert order[j] == rest[j - 1] && rest[j - 1] in rest;
    }
  }

  /** Whether an empty text block at this position would come first, and so is given the
      description to hold. */
  predicate Seeds(blocks: Blocks, description: string, kind: string, position: string, content: string) {
    && kind == "text" && content == "" && description != ""
    && forall id :: id in blocks && blocks[id].kind == "text" ==> Less(position, blocks[id].position)
  }

  lemma EmptyTextBlockIsSafe(before: Blocks, description: string, id: nat, placed: string)
    requires Agrees(description, before) && forall j :: j in before ==> j < id
    ensures Agrees(description, before[id := Block("text", placed,
              if Seeds(before, description, "text", placed, "") then description else "")])
  {
    var content := if Seeds(before, description, "text", placed, "") then description else "";
    var after := before[id := Block("text", placed, content)];
    forall first | IsFirst(TextBlocks(after), first) ensures description == after[first].content {
      if first == id {
        forall j | j in before && before[j].kind == "text" ensures Less(placed, before[j].position) {
          assert j in TextBlocks(after) && Before(TextBlocks(after), id, j);
        }
      } else {
        forall j | j in TextBlocks(before) && j != first ensures Before(TextBlocks(before), first, j) {
          assert j in TextBlocks(after) && Before(TextBlocks(after), first, j);
        }
        assert IsFirst(TextBlocks(before), first);
      }
    }
  }

  /** The blocks, in the order they had, at the evenly spaced positions. */
  ghost predicate EvenlySpaced(before: Blocks, after: Blocks, order: seq<nat>) {
    && Lists(before, order) && InOrder(before, order) && after.Keys == before.Keys
    && (forall k :: 0 <= k < |order| ==>
          order[k] in before && after[order[k]] == before[order[k]].(position := EvenPosition(k, |order|)))
  }

  /** Any ascending positions will do. */
  lemma EvenlySpacedKeepsOrder(before: Blocks, after: Blocks, order: seq<nat>, positions: seq<string>)
    requires Lists(before, order) && InOrder(before, order) && after.Keys == before.Keys
    requires |positions| == |order| && Ascending(positions)
    requires forall k :: 0 <= k < |order| ==>
      order[k] in before && after[order[k]] == before[order[k]].(position := positions[k])
    ensures Rearranged(before, after)
  {
    forall i, j | i in before && j in before ensures Before(after, i, j) <==> Before(before, i, j) {
      assert i in order && j in order;
      var a :| 0 <= a < |order| && order[a] == i;
      var b :| 0 <= b < |order| && order[b] == j;
      if a < b {
        BeforeIsTotal(before, i, j);
      } else if b < a {
        BeforeIsTotal(before, i, j);
        BeforeIsTotal(after, i, j);
      } else {
        LessIsTotal(before[i].position, before[i].position);
        LessIsTotal(after[i].position, after[i].position);
      }
    }
    forall id | id in before ensures after[id].kind == before[id].kind && after[id].content == before[id].content {
      assert id in order;
    }
  }

  /** Rewriting the text of the first text block leaves it first. */
  lemma EditKeepsFirst(before: Blocks, first: nat, text: string)
    requires IsFirst(TextBlocks(before), first)
    ensures Agrees(text, before[first := before[first].(content := text)])
  {
    var after := before[first := before[first].(content := text)];
    forall id | IsFirst(TextBlocks(after), id) ensures id == first {
      if id != first {
        assert first in TextBlocks(after) && id in TextBlocks(before);
        assert Before(TextBlocks(after), id, first) && Before(TextBlocks(before), first, id);
        BeforeIsTotal(before, id, first);
      }
    }
  }

  function Moved(blocks: Blocks, positions: map<nat, string>): Blocks {
    map id | id in blocks :: if id in positions then blocks[id].(position := positions[id]) else blocks[id]
  }

  /** What a reorder insists on, whether it names all of the note's blocks or only some. */
  predicate CanMove(blocks: Blocks, positions: map<nat, string>) {
    && (forall i :: i in positions ==> positions[i] != "" && i in blocks)
    && (forall i, j :: i in positions && j in positions && i != j ==> positions[i] != positions[j])
    && (forall i, j :: i in positions && j in blocks && j !in positions ==> positions[i] != blocks[j].position)
  }

  /** Where a new block goes: where the caller says, else "n" when no block has a position,
      else the position generated after the last. */
  ghost predicate IsPlace(blocks: Blocks, position: string, generated: string, placed: string) {
    && (position != "" ==> placed == position)
    && (position == "" && (forall id :: id in blocks ==> blocks[id].position == "") ==> placed == "n")
    && (position == "" && (exists id :: id in blocks && blocks[id].position != "") ==> placed == generated)
  }

  /** What a new block holds: what the caller says; but an empty text block that comes
      before all other text blocks holds the description. */
  ghost predicate IsStartingContent(blocks: Blocks, description: string, kind: string, placed: string,
    content: string, held: string)
  {
    var first := forall id :: id in blocks && blocks[id].kind == "text" ==> LexBelow(placed, blocks[id].position);
    && (kind == "text" && content == "" && first ==> held == description)
    && (kind != "text" || content != "" || !first ==> held == content)
  }

  lemma SeededContent(blocks: Blocks, description: string, kind: string, placed: string, content: string)
    ensures IsStartingContent(blocks, description, kind, placed, content,
              if Seeds(blocks, description, kind, placed, content) then description else content)
  {
    forall id | id in blocks ensures Less(placed, blocks[id].position) <==> LexBelow(placed, blocks[id].position) {
      LessIsLex(placed, blocks[id].position);
    }
  }

  /** Some of the blocks with new positions, the others as they were. */
  ghost predicate AreMoved(before: Blocks, positions: map<nat, string>, after: Blocks) {
    && after.Keys == before.Keys
    && (forall id :: id in before && id in positions ==>
          after[id] == Block(before[id].kind, positions[id], before[id].content))
    && (forall id :: id in before && id !in positions ==> after[id] == before[id])
  }

  lemma MovedAre(blocks: Blocks, positions: map<nat, string>)
    ensures AreMoved(blocks, positions, Moved(blocks, positions))
  {
  }

  /** After the last block when the caller names no position; "n" in an empty note. */
  function Placed(blocks: Blocks, position: string, generated: string): string {
    if position != "" then position
    else if forall id :: id in blocks ==> blocks[id].position == "" then "n"
    else generated
  }

  class Note {
    var description: string
    var blocks: Blocks
    var nextId: nat

    ghost predicate Valid()
      reads this
    {
      (forall id :: id in blocks ==> id < nextId) && Agrees(description, blocks)
    }

    constructor (text: string)
      ensures Valid() && description == text && blocks == map[]
    {
      description, blocks, nextId := text, map[], 1;
    }

    /** The first text block by (position, id), as every sync looks it up. */
    method FirstTextBlock() returns (first: Option<nat>)
      ensures first.Some? ==> IsFirst(TextBlocks(blocks), first.value)
      ensures first.None? ==> TextBlocks(blocks) == map[]
    {
      var texts := TextBlocks(blocks);
      if id :| id in texts && IsFirst(texts, id) {
        return Some(id);
      }
      if texts != map[] {
        ghost var id := FirstExists(texts);
        assert false;
      }
      first := None;
    }

    method SyncFirstTextBlockToDescription()
      modifies this`description
      ensures Agrees(description, blocks)
      ensures TextBlocks(blocks) == map[] ==> description == ""
    {
      var first := FirstTextBlock();
      if first.None? {
        description := "";
        return;
      }
      description := blocks[first.value].content;
      forall id | IsFirst(TextBlocks(blocks), id) ensures description == blocks[id].content {
        FirstIsUnique(TextBlocks(blocks), id, first.value);
      }
    }

    /** Evenly spaced positions in the current order: no block changes place. */
    method RebalanceBlockPositions()
      requires Valid()
      modifies this`blocks
      ensures Valid() && Rearranged(old(blocks), blocks)
      ensures exists order: seq<nat> :: EvenlySpaced(old(blocks), blocks, order)
    {
      var order := OrderedIds(blocks);
      var newPositions := GenerateEvenPositions(|order|);
      AssignPositions(order, newPositions);
      GeneratedAscend(|order|);
      EvenlySpacedKeepsOrder(old(blocks), blocks, order, newPositions);
      assert EvenlySpaced(old(blocks), blocks, order);
      RearrangedKeepsAgreement(description, old(blocks), blocks);
    }

    method AssignPositions(order: seq<nat>, positions: seq<string>)
      requires Lists(blocks, order) && |positions| == |order|
      modifies this`blocks
      ensures blocks.Keys == old(blocks).Keys
      ensures forall k :: 0 <= k < |order| ==>
        order[k] in old(blocks) && blocks[order[k]] == old(blocks)[order[k]].(position := positions[k])
    {
      assert forall k :: 0 <= k < |order| ==> order[k] in order;
      for i := 0 to |order|
        invariant blocks.Keys == old(blocks).Keys
        invariant forall k :: 0 <= k < i ==>
          blocks[order[k]] == old(blocks)[order[k]].(position := positions[k])
        invariant forall k :: i <= k < |order| ==> blocks[order[k]] == old(blocks)[order[k]]
      {
        var id := order[i];
        assert forall k :: 0 <= k < |order| && k != i ==> order[k] != id;
        blocks := blocks[id := blocks[id].(position := positions[i])];
      }
    }

    method MaybeRebalanceBlockPositions()
      requires Valid()
      modifies this`blocks
      ensures Valid() && Rearranged(old(blocks), blocks)
      ensures (forall id :: id in old(blocks) ==> |old(blocks)[id].position| <= 8) ==>
        blocks == old(blocks)
      ensures (exists id :: id in old(blocks) && |old(blocks)[id].position| > 8) ==>
        exists order: seq<nat> :: EvenlySpaced(old(blocks), blocks, order)
    {
      var positions := set id | id in blocks :: blocks[id].position;
      if NeedsRebalancing(positions, REBALANCE_THRESHOLD) {
        RebalanceBlockPositions();
      }
    }

    /** Seeds, stores and syncs. */
    method AddBlock(kind: string, placed: string, content: string) returns (id: nat)
      requires Valid()
      modifies this
      ensures Valid() && id == old(nextId)
      ensures blocks == old(blocks)[id := Block(kind, placed,
        if Seeds(old(blocks), old(description), kind, placed, content) then old(description) else content)]
      ensures kind != "text" || content == "" ==> description == old(description)
    {
      var seeded := content;
      if kind == "text" && Seeds(blocks, description, kind, placed, content) {
        seeded := description;
      }
      id := nextId;
      blocks, nextId := blocks[id := Block(kind, placed, seeded)], nextId + 1;
      if kind != "text" {
        assert TextBlocks(blocks) == TextBlocks(old(blocks));
        return;
      }
      SyncFirstTextBlockToDescription();
      if content == "" {
        EmptyTextBlockIsSafe(old(blocks), old(description), id, placed);
        assert id in TextBlocks(blocks);
        ghost var first := FirstExists(TextBlocks(blocks));
      }
    }

    /** `generated` is the position after the last one, for a caller that gives none. An
        empty text block, wherever it lands, leaves the description alone. */
    method CreateBlock(kind: string, position: string, content: string, known: bool, accepted: bool,
      generated: string) returns (r: Result<nat, BlockError>)
      requires Valid()
      modifies this
      ensures Valid()
      ensures r.Err? <==> !known || !accepted
      ensures r.Err? ==> blocks == old(blocks) && description == old(description)
      ensures r.Ok? ==> r.value == old(nextId) && exists placed: string, held: string ::
        && IsPlace(old(blocks), position, generated, placed)
        && IsStartingContent(old(blocks), old(description), kind, placed, content, held)
        && Rearranged(old(blocks)[r.value := Block(kind, placed, held)], blocks)
      ensures kind != "text" || content == "" ==> description == old(description)
    {
      if !known {
        return Err(UnknownType);
      }
      if !accepted {
        return Err(InvalidContent);
      }
      var placed := Placed(blocks, position, generated);
      SeededContent(blocks, description, kind, placed, content);
      var id := AddBlock(kind, placed, content);
      MaybeRebalanceBlockPositions();
      r := Ok(id);
    }

    method UpdateBlockContent(id: nat, content: string, accepted: bool) returns (r: Result<(), BlockError>)
      requires Valid()
      modifies this
      ensures Valid() && nextId == old(nextId)
      ensures r == if id !in old(blocks) then Err(NotFound) else if !accepted then Err(InvalidContent) else Ok(())
      ensures blocks == if r.Ok? then old(blocks)[id := old(blocks)[id].(content := content)] else old(blocks)
      ensures r.Err? || old(blocks)[id].kind != "text" ==> description == old(description)
    {
      if id !in blocks {
        return Err(NotFound);
      }
      if !accepted {
        return Err(InvalidContent);
      }
      var block := blocks[id];
      blocks := blocks[id := block.(content := content)];
      if block.kind == "text" {
        SyncFirstTextBlockToDescription();
      } else {
        assert TextBlocks(blocks) == TextBlocks(old(blocks));
      }
      r := Ok(());
    }

    method DeleteBlock(id: nat) returns (r: Result<(), BlockError>)
      requires Valid()
      modifies this
      ensures Valid() && nextId == old(nextId)
      ensures r == if id in old(blocks) then Ok(()) else Err(NotFound)
      ensures blocks == old(blocks) - {id}
      ensures id !in old(blocks) || old(blocks)[id].kind != "text" ==> description == old(description)
      ensures id in old(blocks) && old(blocks)[id].kind == "text" && TextBlocks(blocks) == map[] ==> description == ""
    {
      if id !in blocks {
        assert blocks - {id} == blocks;
        return Err(NotFound);
      }
      var isText := blocks[id].kind == "text";
      blocks := blocks - {id};
      if isText {
        SyncFirstTextBlockToDescription();
      } else {
        assert TextBlocks(blocks) == TextBlocks(old(blocks));
      }
      r := Ok(());
    }

    /** Edits the note, and the first text block with it so that the next block operation
        does not bring the old text back. */
    method UpdateDescription(text: string)
      requires Valid()
      modifies this
      ensures Valid() && description == text && nextId == old(nextId)
      ensures TextBlocks(old(blocks)) == map[] ==> blocks == old(blocks)
      ensures forall id :: IsFirst(TextBlocks(old(blocks)), id) ==>
        blocks == old(blocks)[id := old(blocks)[id].(content := text)]
    {
      description := text;
      var first := FirstTextBlock();
      if first.Some? {
        blocks := blocks[first.value := blocks[first.value].(content := text)];
        EditKeepsFirst(old(blocks), first.value, text);
        forall id | IsFirst(TextBlocks(old(blocks)), id) ensures id == first.value {
          FirstIsUnique(TextBlocks(old(blocks)), id, first.value);
        }
      }
    }

    /** The same for a whole-note edit, which changes the blocks in the same way. */
    method EditNote(text: string)
      requires Valid()
      modifies this
      ensures Valid() && description == text && nextId == old(nextId)
      ensures TextBlocks(old(blocks)) == map[] ==> blocks == old(blocks)
      ensures forall id :: IsFirst(TextBlocks(old(blocks)), id) ==>
        blocks == old(blocks)[id := old(blocks)[id].(content := text)]
    {
      UpdateDescription(text);
    }

    /** Checks the positions a reorder asks for; which of two faults is reported depends
        on the order in which the map is walked. */
    method CheckPositions(positions: map<nat, string>) returns (r: Result<(), BlockError>)
      requires Valid()
      ensures r.Ok? <==> CanMove(blocks, positions)
      ensures r == Err(EmptyPosition) ==> exists i :: i in positions && positions[i] == ""
      ensures r == Err(DuplicatePosition) ==>
        exists i, j :: i in positions && j in positions && i != j && positions[i] == positions[j]
      ensures r == Err(ForeignBlock) ==> exists i :: i in positions && i !in blocks
      ensures r == Err(PositionTaken) ==>
        exists i, j :: i in positions && j in blocks && j !in positions && positions[i] == blocks[j].position
    {
      var seen: set<string>, remaining := {}, positions.Keys;
      while remaining != {}
        invariant remaining <= positions.Keys
        invariant forall i :: i in positions && i !in remaining ==> positions[i] in seen && positions[i] != ""
        invariant forall p :: p in seen ==> exists i :: i in positions && i !in remaining && positions[i] == p
        invariant forall i, j :: i in positions && j in positions && i != j && i !in remaining && j !in remaining ==>
          positions[i] != positions[j]
        decreases |remaining|
      {
        var id :| id in remaining;
        if positions[id] == "" {
          return Err(EmptyPosition);
        }
        if positions[id] in seen {
          return Err(DuplicatePosition);
        }
        seen := seen + {positions[id]};
        remaining := remaining - {id};
      }
      if id :| id in positions && id !in blocks {
        return Err(ForeignBlock);
      }
      if id :| id in blocks && id !in positions && blocks[id].position in seen {
        return Err(PositionTaken);
      }
      r := Ok(());
    }

    method MoveBlocks(positions: map<nat, string>) returns (hasTextBlock: bool)
      requires forall id :: id in positions ==> id in blocks
      modifies this`blocks
      ensures blocks == Moved(old(blocks), positions)
      ensures hasTextBlock <==> exists id :: id in positions && old(blocks)[id].kind == "text"
    {
      var remaining := positions.Keys;
      hasTextBlock := false;
      while remaining != {}
        invariant remaining <= positions.Keys && blocks.Keys == old(blocks).Keys
        invariant forall id :: id in blocks && (id !in positions || id in remaining) ==> blocks[id] == old(blocks)[id]
        invariant forall id :: id in positions && id !in remaining ==>
          blocks[id] == old(blocks)[id].(position := positions[id])
        invariant hasTextBlock ==> exists id :: id in positions && old(blocks)[id].kind == "text"
        invariant !hasTextBlock ==> forall id :: id in positions && id !in remaining ==> old(blocks)[id].kind != "text"
        decreases |remaining|
      {
        var id :| id in remaining;
        blocks := blocks[id := blocks[id].(position := positions[id])];
        hasTextBlock := hasTextBlock || blocks[id].kind == "text";
        remaining := remaining - {id};
      }
    }

    method ReorderBlocks(positions: map<nat, string>) returns (r: Result<(), BlockError>)
      requires Valid()
      modifies this
      ensures Valid() && nextId == old(nextId)
      ensures r.Ok? <==>
        && (forall i :: i in positions ==> positions[i] != "" && i in old(blocks))
        && (forall i, j :: i in positions && j in positions && i != j ==> positions[i] != positions[j])
        && (forall i, j :: i in positions && j in old(blocks) && j !in positions ==>
              positions[i] != old(blocks)[j].position)
      ensures r.Ok? ==> exists moved: Blocks :: AreMoved(old(blocks), positions, moved) && Rearranged(moved, blocks)
      ensures r.Err? ==> blocks == old(blocks)
      ensures r.Err? || (forall id :: id in positions ==> old(blocks)[id].kind != "text") ==>
        description == old(description)
    {
      if positions == map[] {
        assert AreMoved(blocks, positions, blocks);
        return Ok(());
      }
      MovedAre(blocks, positions);
      r := CheckPositions(positions);
      if r.Err? {
        return;
      }
      ReorderChecked(positions);
    }

    /** The statements of a reorder that has passed the checks. */
    method ReorderChecked(positions: map<nat, string>)
      requires Valid() && CanMove(blocks, positions)
      modifies this
      ensures Valid() && nextId == old(nextId)
      ensures Rearranged(Moved(old(blocks), positions), blocks)
      ensures (forall id :: id in positions ==> old(blocks)[id].kind != "text") ==> description == old(description)
    {
      var hasTextBlock := MoveBlocks(positions);
      if hasTextBlock {
        SyncFirstTextBlockToDescription();
      } else {
        assert TextBlocks(blocks) == TextBlocks(old(blocks));
      }
      MaybeRebalanceBlockPositions();
    }
  }
}
