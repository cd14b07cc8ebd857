/** Writing one value at a path of nested objects
    (application_context/basic_entity_context.go, setNestedValue). */
module NestedValue {
  import opened Outcomes

  /** A decoded document; arrays and scalars are leaves as far as paths go. */
  datatype Json = Leaf(text: string) | Object(fields: map<string, Json>)

  type Path = p: seq<string> | |p| > 0 witness [""]

  /** What is below a key: its object, or an empty one where there is none. */
  function Below(doc: map<string, Json>, key: string): map<string, Json> {
    if key in doc && doc[key].Object? then doc[key].fields else map[]
  }

  /** The document after the write. */
  function Written(doc: map<string, Json>, path: Path, value: Json): map<string, Json>
    decreases |path|
  {
    if |path| == 1 then doc[path[0] := value]
    else doc[path[0] := Object(Written(Below(doc, path[0]), path[1..], value))]
  }

  /** What a read finds at a path, if anything. */
  function Read(doc: map<string, Json>, path: Path): Option<Json>
    decreases |path|
  {
    if |path| == 1 then if path[0] in doc then Some(doc[path[0]]) else None
    else Read(Below(doc, path[0]), path[1..])
  }

  /** Neither path is a prefix of the other. */
  predicate Diverge(p: seq<string>, q: seq<string>) {
    p != [] && q != [] && (p[0] != q[0] || Diverge(p[1..], q[1..]))
  }

  lemma {:induction false} ReadsBack(doc: map<string, Json>, path: Path, value: Json)
    ensures Read(Written(doc, path, value), path) == Some(value)
    decreases |path|
  {
    if |path| > 1 {
      ReadsBack(Below(doc, path[0]), path[1..], value);
    }
  }

  /** A longer read goes on inside the new value. */
  lemma {:induction false} ReadsInside(doc: map<string, Json>, path: Path, value: map<string, Json>, more: Path)
    ensures Read(Written(doc, path, Object(value)), path + more) == Read(value, more)
    decreases |path|
  {
    assert (path + more)[1..] == path[1..] + more;
    if |path| > 1 {
      ReadsInside(Below(doc, path[0]), path[1..], value, more);
    } else {
      assert path[1..] + more == more;
    }
  }

  /** Nothing changes at a path that diverges, also where a scalar on the way is replaced. */
  lemma {:induction false} DivergingReadsUnchanged(doc: map<string, Json>, path: Path, value: Json, other: Path)
    requires Diverge(path, other)
    ensures Read(Written(doc, path, value), other) == Read(doc, other)
    decreases |path|
  {
    if path[0] == other[0] {
      DivergingReadsUnchanged(Below(doc, path[0]), path[1..], value, other[1..]);
    }
  }

  lemma {:induction false} SecondWriteWins(doc: map<string, Json>, path: Path, first: Json, second: Json)
    ensures Written(Written(doc, path, first), path, second) == Written(doc, path, second)
    decreases |path|
  {
    if |path| > 1 {
      SecondWriteWins(Below(doc, path[0]), path[1..], first, second);
    }
  }

  /** A write changes the entry of the path's first key, looking only below that key. */
  function Entry(below: map<string, Json>, path: Path, value: Json): Json {
    if |path| == 1 then value else Object(Written(below, path[1..], value))
  }

  lemma WrittenEntry(doc: map<string, Json>, path: Path, value: Json)
    ensures Written(doc, path, value) == doc[path[0] := Entry(Below(doc, path[0]), path, value)]
  {
  }

  lemma {:induction false} DivergingWritesCommute(doc: map<string, Json>, p: Path, v: Json, q: Path, w: Json)
    requires Diverge(p, q)
    ensures Written(Written(doc, p, v), q, w) == Written(Written(doc, q, w), p, v)
    decreases |p|
  {
    if p[0] == q[0] {
      DivergingWritesCommute(Below(doc, p[0]), p[1..], v, q[1..], w);
      SameKeyTwice(doc, p, v, q, w);
      SameKeyTwice(doc, q, w, p, v);
    } else {
      OtherKeysCommute(doc, p, v, q, w);
    }
  }

  lemma OtherKeysCommute(doc: map<string, Json>, p: Path, v: Json, q: Path, w: Json)
    requires p[0] != q[0]
    ensures Written(Written(doc, p, v), q, w) == Written(Written(doc, q, w), p, v)
  {
    OtherKeyAfter(doc, p, v, q, w);
    OtherKeyAfter(doc, q, w, p, v);
    var x, y := Entry(Below(doc, p[0]), p, v), Entry(Below(doc, q[0]), q, w);
    assert doc[p[0] := x][q[0] := y] == doc[q[0] := y][p[0] := x];
  }

  lemma OtherKeyAfter(doc: map<string, Json>, p: Path, v: Json, q: Path, w: Json)
    requires p[0] != q[0]
    ensures Written(Written(doc, p, v), q, w) ==
      doc[p[0] := Entry(Below(doc, p[0]), p, v)][q[0] := Entry(Below(doc, q[0]), q, w)]
  {
    WrittenEntry(doc, p, v);
    WrittenEntry(Written(doc, p, v), q, w);
    assert Below(Written(doc, p, v), q[0]) == Below(doc, q[0]);
  }

  lemma SameKeyTwice(doc: map<string, Json>, p: Path, v: Json, q: Path, w: Json)
    requires |p| > 1 && |q| > 1 && p[0] == q[0]
    ensures Written(Written(doc, p, v), q, w) ==
      doc[p[0] := Object(Written(Written(Below(doc, p[0]), p[1..], v), q[1..], w))]
  {
    WrittenEntry(doc, p, v);
    WrittenEntry(Written(doc, p, v), q, w);
    assert Below(Written(doc, p, v), q[0]) == Written(Below(doc, p[0]), p[1..], v);
  }

  // ---- in place ----

  datatype Value = Scalar(text: string) | Nested(obj: JsonMap)

  class JsonMap {
    var fields: map<string, Value>
    ghost var repr: set<JsonMap>

    constructor ()
      ensures fields == map[] && repr == {this} && Valid()
    {
      fields, repr := map[], {this};
    }

    /** A tree: each object belongs to one key of one parent. */
    ghost predicate Valid()
      reads this, repr
      decreases repr
    {
      && this in repr
      && (forall k :: k in fields && fields[k].Nested? ==>
            && fields[k].obj in repr && fields[k].obj.repr <= repr - {this} && fields[k].obj.Valid())
      && (forall k, l :: k in fields && l in fields && k != l && fields[k].Nested? && fields[l].Nested? ==>
            fields[k].obj.repr !! fields[l].obj.repr)
    }

    ghost function Doc(): map<string, Json>
      requires Valid()
      reads this, repr
      decreases repr
    {
      map k | k in fields :: if fields[k].Nested? then Object(fields[k].obj.Doc()) else Leaf(fields[k].text)
    }
  }

  ghost predicate ValidValue(v: Value)
    reads if v.Nested? then {v.obj} + v.obj.repr else {}
  {
    v.Nested? ==> v.obj.Valid()
  }

  ghost function JsonOf(v: Value): Json
    requires ValidValue(v)
    reads if v.Nested? then {v.obj} + v.obj.repr else {}
  {
    if v.Nested? then Object(v.obj.Doc()) else Leaf(v.text)
  }

  ghost function Footprint(v: Value): set<JsonMap>
    reads if v.Nested? then {v.obj} else {}
  {
    if v.Nested? then v.obj.repr else {}
  }

  predicate IsOther(fields: map<string, Value>, key: string, k: string) {
    k in fields && k != key && fields[k].Nested?
  }

  /** Everything about a node except what is at one key: its other entries are whole trees
      inside `foot`, and stand for the entries of `doc`. */
  ghost predicate Others(fields: map<string, Value>, key: string, doc: map<string, Json>, foot: set<JsonMap>)
    reads foot
  {
    && (forall k :: IsOther(fields, key, k) ==>
          && fields[k].obj in foot && fields[k].obj.repr <= foot && fields[k].obj.Valid()
          && k in doc && doc[k] == Object(fields[k].obj.Doc()))
    && (forall k :: k in fields && k != key && fields[k].Scalar? ==> k in doc && doc[k] == Leaf(fields[k].text))
    && (forall k :: k in doc && k != key ==> k in fields)
    && (forall k, l :: IsOther(fields, key, k) && IsOther(fields, key, l) && k != l ==>
          fields[k].obj.repr !! fields[l].obj.repr)
  }

  /** What a valid node says about the rest of it, seen from one of its keys. */
  lemma SeenFromKey(node: JsonMap, key: string) returns (foot: set<JsonMap>)
    requires node.Valid()
    ensures foot <= node.repr - {node}
    ensures Others(node.fields, key, node.Doc(), foot)
    ensures key in node.fields && node.fields[key].Nested? ==>
      foot !! node.fields[key].obj.repr && Below(node.Doc(), key) == node.fields[key].obj.Doc()
    ensures !(key in node.fields && node.fields[key].Nested?) ==> Below(node.Doc(), key) == map[]
  {
    var nested := key in node.fields && node.fields[key].Nested?;
    foot := node.repr - {node} - if nested then node.fields[key].obj.repr else {};
  }

  /** A tree under the key of such a node makes it a tree again. */
  lemma AttachedIsTree(node: JsonMap, key: string, doc: map<string, Json>, foot: set<JsonMap>, child: Value)
    requires Others(node.fields, key, doc, foot) && key in node.fields && node.fields[key] == child
    requires ValidValue(child) && Footprint(child) !! foot && node !in Footprint(child) + foot
    requires node.repr == {node} + foot + Footprint(child)
    ensures node.Valid()
    ensures node.Doc() == doc[key := JsonOf(child)]
  {
    forall k, l | k in node.fields && l in node.fields && k != l && node.fields[k].Nested? && node.fields[l].Nested?
      ensures node.fields[k].obj.repr !! node.fields[l].obj.repr
    {
      assert k != key ==> IsOther(node.fields, key, k);
      assert l != key ==> IsOther(node.fields, key, l);
    }
    forall k | k in node.fields && node.fields[k].Nested?
      ensures node.fields[k].obj in node.repr && node.fields[k].obj.repr <= node.repr - {node}
      ensures node.fields[k].obj.Valid()
    {
      assert k != key ==> IsOther(node.fields, key, k);
    }
    assert node.Valid();
    AttachedDoc(node, key, doc, foot, child);
  }

  lemma AttachedDoc(node: JsonMap, key: string, doc: map<string, Json>, foot: set<JsonMap>, child: Value)
    requires Others(node.fields, key, doc, foot) && key in node.fields && node.fields[key] == child
    requires ValidValue(child) && node.Valid()
    ensures node.Doc() == doc[key := JsonOf(child)]
  {
    forall k | k in node.fields && k != key ensures k in doc && node.Doc()[k] == doc[k] {
      assert node.fields[k].Nested? ==> IsOther(node.fields, key, k);
    }
  }

  ghost method Reattach(node: JsonMap, key: string, doc: map<string, Json>, foot: set<JsonMap>, child: Value)
    requires Others(node.fields, key, doc, foot) && key in node.fields && node.fields[key] == child
    requires ValidValue(child) && Footprint(child) !! foot && node !in Footprint(child) + foot
    modifies node`repr
    ensures node.Valid() && node.repr == {node} + foot + old(Footprint(child))
    ensures node.Doc() == doc[key := old(JsonOf(child))]
  {
    node.repr := {node} + foot + Footprint(child);
    AttachedIsTree(node, key, doc, foot, child);
  }

  /** One step of the walk: the object under a key, or a new one put there in place of
      whatever is not an object. */
  method Descend(current: JsonMap, key: string) returns (next: JsonMap, ghost foot: set<JsonMap>)
    requires current.Valid()
    modifies current`fields
    ensures next.Valid() && next.Doc() == Below(old(current.Doc()), key)
    ensures current !in next.repr && (next.repr <= old(current.repr) || fresh(next.repr))
    ensures foot <= old(current.repr) - {current} && foot !! next.repr
    ensures key in current.fields && current.fields[key] == Nested(next)
    ensures Others(current.fields, key, old(current.Doc()), foot)
  {
    foot := SeenFromKey(current, key);
    if key in current.fields && current.fields[key].Nested? {
      next := current.fields[key].obj;
    } else {
      next := new JsonMap();
      current.fields := current.fields[key := Nested(next)];
      OthersIgnoreKey(old(current.fields), current.fields, key, old(current.Doc()), foot);
    }
  }

  lemma OthersIgnoreKey(before: map<string, Value>, after: map<string, Value>, key: string,
    doc: map<string, Json>, foot: set<JsonMap>)
    requires Others(before, key, doc, foot) && key in after && after == before[key := after[key]]
    ensures Others(after, key, doc, foot)
  {
    forall k | IsOther(after, key, k) ensures IsOther(before, key, k) && after[k] == before[k] { }
  }

  /** An object the walk has passed, what it stood for, and the trees beside the path. */
  datatype Link = Link(node: JsonMap, doc: map<string, Json>, foot: set<JsonMap>)

  ghost predicate LinkOk(link: Link, key: string, zone: set<JsonMap>)
    reads zone
  {
    && link.node in zone && link.foot <= zone && link.node !in link.foot
    && key in link.node.fields && Others(link.node.fields, key, link.doc, link.foot)
  }

  predicate Apart(a: Link, b: Link) {
    a.node != b.node && a.foot !! b.foot && a.node !in b.foot && b.node !in a.foot
  }

  ghost predicate Walk(walk: seq<Link>, parts: seq<string>, zone: set<JsonMap>)
    reads zone
  {
    && |walk| < |parts|
    && (forall j :: 0 <= j < |walk| ==> LinkOk(walk[j], parts[j], zone))
    && (forall j :: 0 < j < |walk| ==> LeadsTo(walk[j - 1], parts[j - 1], walk[j].node, walk[j].doc))
    && (forall j, l :: 0 <= j < l < |walk| ==> Apart(walk[j], walk[l]))
  }

  predicate LeadsTo(link: Link, key: string, next: JsonMap, doc: map<string, Json>)
    reads link.node
  {
    key in link.node.fields && link.node.fields[key] == Nested(next) && doc == Below(link.doc, key)
  }

  lemma WalkOneMore(walk: seq<Link>, parts: seq<string>, zone: set<JsonMap>, link: Link)
    requires Walk(walk, parts, zone) && |walk| + 1 < |parts|
    requires link.node !in zone && link.foot !! zone
    requires LinkOk(link, parts[|walk|], {link.node} + link.foot)
    requires walk != [] ==> LeadsTo(walk[|walk| - 1], parts[|walk| - 1], link.node, link.doc)
    ensures Walk(walk + [link], parts, zone + {link.node} + link.foot)
  {
    var longer, bigger := walk + [link], zone + {link.node} + link.foot;
    LinksOneMore(walk, parts, zone, link);
    ApartOneMore(walk, parts, zone, link);
    forall j | 0 < j < |longer| ensures LeadsTo(longer[j - 1], parts[j - 1], longer[j].node, longer[j].doc) {
    }
  }

  lemma LinksOneMore(walk: seq<Link>, parts: seq<string>, zone: set<JsonMap>, link: Link)
    requires Walk(walk, parts, zone) && |walk| + 1 < |parts|
    requires LinkOk(link, parts[|walk|], {link.node} + link.foot)
    ensures forall j :: 0 <= j < |walk + [link]| ==>
      LinkOk((walk + [link])[j], parts[j], zone + {link.node} + link.foot)
  {
    var longer, bigger := walk + [link], zone + {link.node} + link.foot;
    forall j | 0 <= j < |longer| ensures LinkOk(longer[j], parts[j], bigger) {
      if j < |walk| { assert LinkOk(walk[j], parts[j], zone); }
    }
  }

  lemma ApartOneMore(walk: seq<Link>, parts: seq<string>, zone: set<JsonMap>, link: Link)
    requires Walk(walk, parts, zone) && link.node !in zone && link.foot !! zone
    ensures forall j, l :: 0 <= j < l < |walk + [link]| ==> Apart((walk + [link])[j], (walk + [link])[l])
  {
    var longer := walk + [link];
    forall j, l | 0 <= j < l < |longer| ensures Apart(longer[j], longer[l]) {
      assert LinkOk(walk[j], parts[j], zone);
      assert l < |walk| ==> Apart(walk[j], walk[l]);
    }
  }

  lemma WalkOneLess(walk: seq<Link>, parts: seq<string>, zone: set<JsonMap>)
    requires Walk(walk, parts, zone) && walk != []
    ensures var n := |walk| - 1; Walk(walk[..n], parts, zone - {walk[n].node} - walk[n].foot)
  {
    var n := |walk| - 1;
    var smaller := zone - {walk[n].node} - walk[n].foot;
    forall j | 0 <= j < n ensures LinkOk(walk[j], parts[j], smaller) {
      assert LinkOk(walk[j], parts[j], zone) && Apart(walk[j], walk[n]);
    }
  }

  function Above(walk: seq<Link>, zone: set<JsonMap>): set<JsonMap>
    requires walk != []
  {
    zone - {walk[|walk| - 1].node} - walk[|walk| - 1].foot
  }

  function First(walk: seq<Link>, last: JsonMap): JsonMap {
    if walk == [] then last else walk[0].node
  }

  /** What each object on the way will stand for once the one below it does. */
  predicate Goals(walk: seq<Link>, parts: seq<string>, goals: seq<map<string, Json>>) {
    && |goals| == |walk| + 1 <= |parts|
    && forall j :: 0 <= j < |walk| ==> goals[j] == walk[j].doc[parts[j] := Object(goals[j + 1])]
  }

  /** The walk's last link leads to this object. */
  predicate EndsAt(walk: seq<Link>, parts: seq<string>, last: JsonMap)
    requires |walk| < |parts|
    reads if walk == [] then {} else {walk[|walk| - 1].node}
  {
    walk != [] ==>
      var link, key := walk[|walk| - 1], parts[|walk| - 1];
      key in link.node.fields && link.node.fields[key] == Nested(last)
  }

  /** One step back up: the object above a whole tree becomes one. */
  ghost method RebuildOne(walk: seq<Link>, parts: seq<string>, zone: set<JsonMap>, last: JsonMap)
    requires Walk(walk, parts, zone) && walk != [] && last.Valid() && last.repr !! zone && EndsAt(walk, parts, last)
    modifies walk[|walk| - 1].node`repr
    ensures var n := |walk| - 1;
      && walk[n].node.Valid() && walk[n].node.repr == {walk[n].node} + walk[n].foot + old(last.repr)
      && walk[n].node.Doc() == walk[n].doc[parts[n] := Object(old(last.Doc()))]
      && Walk(walk[..n], parts, Above(walk, zone)) && EndsAt(walk[..n], parts, walk[n].node)
      && walk[n].node.repr !! Above(walk, zone)
  {
    var n := |walk| - 1;
    var link := walk[n];
    assert LinkOk(link, parts[n], zone);
    WalkOneLess(walk, parts, zone);
    assert n > 0 ==> LeadsTo(walk[n - 1], parts[n - 1], link.node, link.doc) && Apart(walk[n - 1], link);
    Reattach(link.node, parts[n], link.doc, link.foot, Nested(last));
  }

  /** Back up the path: with the last object a whole tree again, so is every one above it. */
  ghost method Rebuild(walk: seq<Link>, parts: seq<string>, zone: set<JsonMap>, last: JsonMap,
    goals: seq<map<string, Json>>)
    requires Walk(walk, parts, zone) && last.Valid() && last.repr !! zone && EndsAt(walk, parts, last)
    requires Goals(walk, parts, goals) && last.Doc() == goals[|walk|]
    modifies zone`repr
    ensures First(walk, last).Valid() && First(walk, last).Doc() == goals[0]
    ensures First(walk, last).repr <= old(last.repr) + zone
    decreases |walk|
  {
    if walk != [] {
      var n := |walk| - 1;
      assert LinkOk(walk[n], parts[n], zone);
      RebuildOne(walk, parts, zone, last);
      Rebuild(walk[..n], parts, Above(walk, zone), walk[n].node, goals[..n + 1]);
    }
  }

  /** The documents along a path of objects that each hold the next. */
  predicate Descends(docs: seq<map<string, Json>>, parts: seq<string>) {
    && 0 < |docs| <= |parts|
    && forall j :: 0 < j < |docs| ==> docs[j] == Below(docs[j - 1], parts[j - 1])
  }

  lemma {:induction false} GoalsAreWritten(docs: seq<map<string, Json>>, parts: seq<string>, value: Json)
    returns (goals: seq<map<string, Json>>)
    requires Descends(docs, parts) && |docs| == |parts|
    ensures |goals| == |docs| && goals[0] == Written(docs[0], parts, value)
    ensures goals[|docs| - 1] == docs[|docs| - 1][parts[|docs| - 1] := value]
    ensures forall j :: 0 <= j < |docs| - 1 ==> goals[j] == docs[j][parts[j] := Object(goals[j + 1])]
    decreases |docs|
  {
    if |docs| == 1 {
      goals := [Written(docs[0], parts, value)];
    } else {
      assert docs[1] == Below(docs[0], parts[0]);
      var rest := GoalsAreWritten(docs[1..], parts[1..], value);
      goals := [Written(docs[0], parts, value)] + rest;
    }
  }

  /** The last step: the value replaces whatever the key holds, and drops what was below it. */
  method Assign(current: JsonMap, key: string, value: Value)
    requires current.Valid() && ValidValue(value) && Footprint(value) !! current.repr
    modifies current
    ensures current.Valid() && current.Doc() == old(current.Doc())[key := old(JsonOf(value))]
    ensures current.repr <= old(current.repr) + old(Footprint(value))
  {
    ghost var foot := SeenFromKey(current, key);
    ghost var doc := current.Doc();
    ghost var before := current.fields;
    current.fields := current.fields[key := value];
    OthersIgnoreKey(before, current.fields, key, doc, foot);
    Reattach(current, key, doc, foot, value);
  }

  /** The walk has come this far: above `current` everything is set aside in `zone`. */
  ghost predicate OnPath(walk: seq<Link>, parts: seq<string>, zone: set<JsonMap>, docs: seq<map<string, Json>>,
    current: JsonMap)
    reads zone, current, current.repr
  {
    && Walk(walk, parts, zone) && current.Valid() && current.repr !! zone
    && (walk != [] ==> walk[|walk| - 1].node in zone) && EndsAt(walk, parts, current)
    && |docs| == |walk| + 1 && Descends(docs, parts) && docs[|walk|] == current.Doc()
    && forall j :: 0 <= j < |walk| ==> docs[j] == walk[j].doc
  }

  method Advance(current: JsonMap, key: string, ghost parts: seq<string>, ghost walk: seq<Link>,
    ghost zone: set<JsonMap>, ghost docs: seq<map<string, Json>>) returns (next: JsonMap, ghost link: Link)
    requires |walk| + 1 < |parts| && key == parts[|walk|] && OnPath(walk, parts, zone, docs, current)
    modifies current`fields
    ensures link.node == current && link.foot <= old(current.repr)
    ensures next.Valid() && (next.repr <= old(current.repr) || fresh(next.repr))
    ensures OnPath(walk + [link], parts, zone + {current} + link.foot, docs + [next.Doc()], next)
  {
    ghost var n, doc := |walk|, current.Doc();
    assert n > 0 ==> LinkOk(walk[n - 1], parts[n - 1], zone);
    ghost var foot;
    next, foot := Descend(current, key);
    link := Link(current, doc, foot);
    assert n > 0 ==> LeadsTo(walk[n - 1], parts[n - 1], current, doc);
    WalkOneMore(walk, parts, zone, link);
  }

  /** The assignment that ends the walk, and with it the whole write. */
  method WriteLast(current: JsonMap, key: string, value: Value, ghost parts: Path, ghost walk: seq<Link>,
    ghost zone: set<JsonMap>, ghost docs: seq<map<string, Json>>)
    requires |walk| + 1 == |parts| && key == parts[|walk|] && OnPath(walk, parts, zone, docs, current)
    requires ValidValue(value) && Footprint(value) !! zone + current.repr
    modifies current, zone`repr
    ensures First(walk, current).Valid()
    ensures First(walk, current).Doc() == Written(docs[0], parts, old(JsonOf(value)))
  {
    ghost var goals := GoalsAreWritten(docs, parts, JsonOf(value));
    assert walk != [] ==> LinkOk(walk[|walk| - 1], parts[|walk| - 1], zone);
    Assign(current, key, value);
    Rebuild(walk, parts, zone, current, goals);
  }

  /** The write, in place: afterwards the same object stands for the written document. */
  method SetNestedValue(m: JsonMap, parts: Path, value: Value)
    requires m.Valid() && ValidValue(value) && Footprint(value) !! m.repr
    modifies m.repr
    ensures m.Valid() && m.Doc() == Written(old(m.Doc()), parts, old(JsonOf(value)))
  {
    var current := m;
    ghost var walk: seq<Link>, zone: set<JsonMap>, docs := [], {}, [m.Doc()];
    for i := 0 to |parts| - 1
      invariant |walk| == i && OnPath(walk, parts, zone, docs, current)
      invariant First(walk, current) == m && docs[0] == old(m.Doc())
      invariant forall o :: o in zone + current.repr ==> o in old(m.repr) || fresh(o)
    {
      ghost var link;
      var next;
      next, link := Advance(current, parts[i], parts, walk, zone, docs);
      walk, zone, docs := walk + [link], zone + {current} + link.foot, docs + [next.Doc()];
      current := next;
    }
    assert ValidValue(value) && Footprint(value) == old(Footprint(value)) && JsonOf(value) == old(JsonOf(value));
    WriteLast(current, parts[|parts| - 1], value, parts, walk, zone, docs);
  }
}
