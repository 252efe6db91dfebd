/**
 Grouping documents that are read through a shared cache (planner/pipe.go, planner/arbitrary_join.go): parents and
 children are read from the same pipe by separate cursors, and collected by key. The key of a document is that
 of a given function.
 */
module Join {
  import opened Options

  datatype Cell = Nil | Scalar(v: int) | Docs(docs: seq<Doc>)

  datatype Doc = Doc(fields: seq<Cell>)

  // ---------- The pipe ----------

  class PipeNode {
    const source: seq<Doc>
    /** How many documents the source has yielded. */
    var pulled: nat
    var docs: seq<Doc>
    var docIndex: int

    constructor (source: seq<Doc>)
      ensures this.source == source && Valid() && docIndex == -1 && pulled == 0
    {
      this.source, pulled, docs, docIndex := source, 0, [], -1;
    }

    /** The cache is the part of the source that was pulled, each document once. */
    ghost predicate Valid()
      reads this
    {
      pulled <= |source| && docs == source[..pulled]
    }

    /** The document after `docIndex`, wherever that was set to; only documents not yet cached are pulled. */
    method Next() returns (hasNext: bool, value: Doc)
      requires Valid() && docIndex >= -1
      modifies this
      ensures Valid() && hasNext == (old(docIndex) + 1 < |source|)
      ensures hasNext ==> docIndex == old(docIndex) + 1 && value == source[docIndex]
      ensures hasNext ==> pulled == if old(pulled) > docIndex then old(pulled) else docIndex + 1
      ensures !hasNext ==> docIndex == old(docIndex) && pulled == |source|
    {
      value := Doc([]);
      while docIndex >= |docs| - 1
        invariant Valid() && docIndex == old(docIndex) && old(pulled) <= pulled
        invariant pulled == old(pulled) || pulled <= docIndex + 2
        decreases |source| - pulled
      {
        if pulled == |source| {
          return false, value;
        }
        docs := docs + [source[pulled]];
        pulled := pulled + 1;
      }
      docIndex := docIndex + 1;
      return true, docs[docIndex];
    }
  }

  /** The documents from a position on that pass a filter. */
  function Kept(source: seq<Doc>, keep: Doc -> bool, from: nat): seq<Doc>
    requires from <= |source|
    decreases |source| - from
  {
    if from == |source| then []
    else (if keep(source[from]) then [source[from]] else []) + Kept(source, keep, from + 1)
  }

  // ---------- The groups ----------

  /** The child documents in a cell. */
  function ChildrenIn(c: Cell): seq<Doc> { if c.Docs? then c.docs else [] }

  /** What all sources of a join share: the cells of child groups, and the widths of documents. */
  datatype Layout = Layout(childIndexes: seq<nat>, parentWidth: nat, width: nat) {
    ghost predicate Valid() {
      parentWidth <= width && forall c :: c in childIndexes ==> c < width
    }
  }

  /** Groups in the order in which they were started, and where each key's group is. */
  datatype Groups = Groups(values: seq<Doc>, indexesByKey: map<string, nat>) {

    predicate Has(k: string) { k in indexesByKey && indexesByKey[k] < |values| }

    /** Keys and positions correspond one to one, and every group has a cell for each kind of children. */
    ghost predicate Valid(layout: Layout) {
      && (forall k :: k in indexesByKey ==> indexesByKey[k] < |values|)
      && (forall j, k :: j in indexesByKey && k in indexesByKey && j != k ==> indexesByKey[j] != indexesByKey[k])
      && |indexesByKey| == |values|
      && (forall i :: 0 <= i < |values| ==> IsGroup(values[i], layout))
    }

    /** The children of one kind in the group of a key. */
    function Children(k: string, c: nat): seq<Doc> {
      if Has(k) && c < |values[indexesByKey[k]].fields| then ChildrenIn(values[indexesByKey[k]].fields[c]) else []
    }

    /** A cell in the group of a key. */
    function CellAt(k: string, i: nat): Cell {
      if Has(k) && i < |values[indexesByKey[k]].fields| then values[indexesByKey[k]].fields[i] else Nil
    }

    function Set(k: string, doc: Doc): Groups
      requires Has(k)
    {
      this.(values := values[indexesByKey[k] := doc])
    }

    function Add(k: string, doc: Doc): Groups {
      Groups(values + [doc], indexesByKey[k := |values|])
    }
  }

  ghost predicate IsGroup(d: Doc, layout: Layout) {
    && |d.fields| >= layout.parentWidth
    && forall c :: c in layout.childIndexes ==> c < |d.fields| && !d.fields[c].Scalar?
  }

  /** The cells of a group once a parent's cells are copied over, apart from the child groups. */
  function WithCells(into: seq<Cell>, cells: seq<Cell>, childIndexes: seq<nat>): seq<Cell> {
    seq(|into|, i requires 0 <= i < |into| => if i < |cells| && i !in childIndexes then cells[i] else into[i])
  }

  /** The cells of a new group: every child group is empty, in a document wide enough for it. */
  function WithEmptyGroups(cells: seq<Cell>, childIndexes: seq<nat>): (r: seq<Cell>)
    ensures |r| >= |cells| && forall c :: c in childIndexes ==> c < |r| && r[c] == Docs([])
    ensures forall i :: 0 <= i < |cells| && i !in childIndexes ==> r[i] == cells[i]
  {
    if childIndexes == [] then cells
    else
      var init, c := childIndexes[..|childIndexes| - 1], childIndexes[|childIndexes| - 1];
      assert childIndexes == init + [c];
      var r := WithEmptyGroups(cells, init);
      var wide := if c < |r| then r else r + seq(c + 1 - |r|, _ => Nil);
      wide[c := Docs([])]
  }

  function AfterParent(g: Groups, layout: Layout, key: string, value: Doc): Groups {
    if g.Has(key)
    then g.Set(key, Doc(WithCells(g.values[g.indexesByKey[key]].fields, value.fields, layout.childIndexes)))
    else g.Add(key, Doc(WithEmptyGroups(value.fields, layout.childIndexes)))
  }

  /** `NewDoc`: a document with every cell empty. */
  function Blank(width: nat): Doc { Doc(seq(width, _ => Nil)) }

  /** The group of a key, started as a blank document where there is none. */
  function Opened(g: Groups, layout: Layout, key: string): Groups {
    if g.Has(key) then g else g.Add(key, Blank(layout.width))
  }

  function Appended(g: Groups, key: string, c: nat, value: Doc): Groups {
    if g.Has(key) && c < |g.values[g.indexesByKey[key]].fields|
    then g.Set(key, Doc(g.values[g.indexesByKey[key]].fields[c := Docs(g.Children(key, c) + [value])]))
    else g
  }

  function AfterChild(g: Groups, layout: Layout, key: string, c: nat, value: Doc): Groups {
    Appended(Opened(g, layout, key), key, c, value)
  }

  lemma AddKeepsValid(g: Groups, layout: Layout, key: string, doc: Doc)
    requires g.Valid(layout) && key !in g.indexesByKey && IsGroup(doc, layout)
    ensures g.Add(key, doc).Valid(layout)
  {
    var h := g.Add(key, doc);
    forall i | 0 <= i < |h.values| ensures IsGroup(h.values[i], layout) {
      assert i < |g.values| ==> h.values[i] == g.values[i];
    }
  }

  lemma SetKeepsValid(g: Groups, layout: Layout, key: string, doc: Doc)
    requires g.Valid(layout) && key in g.indexesByKey && IsGroup(doc, layout)
    ensures g.Set(key, doc).Valid(layout)
  {
  }

  lemma ParentKeepsValid(g: Groups, layout: Layout, key: string, value: Doc)
    requires layout.Valid() && g.Valid(layout) && |value.fields| == layout.parentWidth
    ensures AfterParent(g, layout, key, value).Valid(layout)
  {
    if key in g.indexesByKey {
      var doc := g.values[g.indexesByKey[key]];
      assert IsGroup(doc, layout);
      SetKeepsValid(g, layout, key, Doc(WithCells(doc.fields, value.fields, layout.childIndexes)));
    } else {
      AddKeepsValid(g, layout, key, Doc(WithEmptyGroups(value.fields, layout.childIndexes)));
    }
  }

  lemma OpenedIsValid(g: Groups, layout: Layout, key: string)
    requires layout.Valid() && g.Valid(layout)
    ensures Opened(g, layout, key).Valid(layout) && Opened(g, layout, key).Has(key)
    ensures Opened(g, layout, key).indexesByKey.Keys == g.indexesByKey.Keys + {key}
  {
    if key !in g.indexesByKey {
      AddKeepsValid(g, layout, key, Blank(layout.width));
    }
  }

  lemma ChildKeepsValid(g: Groups, layout: Layout, key: string, c: nat, value: Doc)
    requires layout.Valid() && g.Valid(layout) && c in layout.childIndexes
    ensures AfterChild(g, layout, key, c, value).Valid(layout)
  {
    OpenedIsValid(g, layout, key);
    var h := Opened(g, layout, key);
    var doc := h.values[h.indexesByKey[key]];
    assert IsGroup(doc, layout);
    SetKeepsValid(h, layout, key, Doc(doc.fields[c := Docs(h.Children(key, c) + [value])]));
  }

  lemma AddedChildren(g: Groups, layout: Layout, key: string, doc: Doc, k: string, c: nat)
    requires g.Valid(layout) && key !in g.indexesByKey && c < |doc.fields|
    ensures g.Add(key, doc).Children(k, c) == if k == key then ChildrenIn(doc.fields[c]) else g.Children(k, c)
  {
  }

  lemma SetChildren(g: Groups, layout: Layout, key: string, doc: Doc, k: string, c: nat)
    requires g.Valid(layout) && key in g.indexesByKey && c < |doc.fields|
    ensures g.Set(key, doc).Children(k, c) == if k == key then ChildrenIn(doc.fields[c]) else g.Children(k, c)
  {
  }

  /** A parent changes no children. */
  lemma ParentKeepsChildren(g: Groups, layout: Layout, key: string, value: Doc, k: string, c: nat)
    requires layout.Valid() && g.Valid(layout) && c in layout.childIndexes
    ensures AfterParent(g, layout, key, value).Children(k, c) == g.Children(k, c)
    ensures AfterParent(g, layout, key, value).indexesByKey.Keys == g.indexesByKey.Keys + {key}
  {
    if key in g.indexesByKey {
      var doc := g.values[g.indexesByKey[key]];
      assert IsGroup(doc, layout);
      SetChildren(g, layout, key, Doc(WithCells(doc.fields, value.fields, layout.childIndexes)), k, c);
    } else {
      AddedChildren(g, layout, key, Doc(WithEmptyGroups(value.fields, layout.childIndexes)), k, c);
    }
  }

  lemma OpenedHasNoChildren(g: Groups, layout: Layout, key: string, k: string, c: nat)
    requires layout.Valid() && g.Valid(layout) && c in layout.childIndexes
    ensures Opened(g, layout, key).Children(k, c) == g.Children(k, c)
  {
    if key !in g.indexesByKey {
      AddedChildren(g, layout, key, Blank(layout.width), k, c);
    }
  }

  lemma AppendedAtEnd(g: Groups, layout: Layout, key: string, d: nat, value: Doc, k: string, c: nat)
    requires g.Valid(layout) && key in g.indexesByKey && d in layout.childIndexes && c in layout.childIndexes
    ensures Appended(g, key, d, value).Children(k, c)
            == g.Children(k, c) + if k == key && c == d then [value] else []
    ensures Appended(g, key, d, value).indexesByKey == g.indexesByKey
  {
    var doc := g.values[g.indexesByKey[key]];
    assert IsGroup(doc, layout);
    SetChildren(g, layout, key, Doc(doc.fields[d := Docs(g.Children(key, d) + [value])]), k, c);
  }

  /** A child goes to the end of its own group, and nowhere else. */
  lemma ChildIsAppended(g: Groups, layout: Layout, key: string, d: nat, value: Doc, k: string, c: nat)
    requires layout.Valid() && g.Valid(layout) && d in layout.childIndexes && c in layout.childIndexes
    ensures AfterChild(g, layout, key, d, value).Children(k, c)
            == g.Children(k, c) + if k == key && c == d then [value] else []
    ensures AfterChild(g, layout, key, d, value).indexesByKey.Keys == g.indexesByKey.Keys + {key}
  {
    OpenedIsValid(g, layout, key);
    OpenedHasNoChildren(g, layout, key, k, c);
    AppendedAtEnd(Opened(g, layout, key), layout, key, d, value, k, c);
  }

  class OrderedMap {
    var g: Groups

    constructor ()
      ensures g == Groups([], map[])
    {
      g := Groups([], map[]);
    }

    method MergeParent(key: string, layout: Layout, value: Doc)
      requires layout.Valid() && g.Valid(layout) && |value.fields| == layout.parentWidth
      modifies this
      ensures g == AfterParent(old(g), layout, key, value) && g.Valid(layout)
    {
      ParentKeepsValid(g, layout, key, value);
      if key in g.indexesByKey {
        var index := g.indexesByKey[key];
        assert IsGroup(g.values[index], layout);
        var fields := CopyCells(g.values[index].fields, value.fields, layout.childIndexes);
        g := g.(values := g.values[index := Doc(fields)]);
      } else {
        var fields := EmptyGroups(value.fields, layout.childIndexes);
        g := Groups(g.values + [Doc(fields)], g.indexesByKey[key := |g.values|]);
      }
    }

    method AppendChild(key: string, childIndex: nat, value: Doc, layout: Layout)
      requires layout.Valid() && g.Valid(layout) && childIndex in layout.childIndexes
      modifies this
      ensures g == AfterChild(old(g), layout, key, childIndex, value) && g.Valid(layout)
    {
      OpenedIsValid(g, layout, key);
      ChildKeepsValid(g, layout, key, childIndex, value);
      ghost var mid := Opened(g, layout, key);
      if key !in g.indexesByKey {
        g := Groups(g.values + [Blank(layout.width)], g.indexesByKey[key := |g.values|]);
      }
      assert g == mid;
      var index := g.indexesByKey[key];
      var parent := g.values[index];
      assert IsGroup(parent, layout);
      var cell := parent.fields[childIndex];
      var children := if cell == Nil then [value] else ChildrenIn(cell) + [value];
      assert children == g.Children(key, childIndex) + [value];
      g := g.(values := g.values[index := Doc(parent.fields[childIndex := Docs(children)])]);
    }
  }

  /** Copies every cell but the child groups. */
  method CopyCells(into: seq<Cell>, cells: seq<Cell>, childIndexes: seq<nat>) returns (r: seq<Cell>)
    requires |cells| <= |into|
    ensures r == WithCells(into, cells, childIndexes)
  {
    r := into;
    for i := 0 to |cells|
      invariant |r| == |into|
      invariant forall j :: 0 <= j < |into| ==> r[j] == if j < i && j !in childIndexes then cells[j] else into[j]
    {
      if i in childIndexes {
        continue;
      }
      r := r[i := cells[i]];
    }
  }

  /** Starts every child group empty, widening the document where it is too short. */
  method EmptyGroups(cells: seq<Cell>, childIndexes: seq<nat>) returns (r: seq<Cell>)
    ensures r == WithEmptyGroups(cells, childIndexes)
  {
    r := cells;
    for a := 0 to |childIndexes|
      invariant r == WithEmptyGroups(cells, childIndexes[..a])
    {
      assert childIndexes[..a + 1][..a] == childIndexes[..a];
      var c := childIndexes[a];
      if c >= |r| {
        r := r + seq(c + 1 - |r|, _ => Nil);
      }
      r := r[c := Docs([])];
    }
    assert childIndexes[..|childIndexes|] == childIndexes;
  }

  // ---------- Reading through the pipe ----------

  function WithKey(docs: seq<Doc>, keyOf: Doc -> string, k: string): seq<Doc> {
    if docs == [] then []
    else WithKey(docs[..|docs| - 1], keyOf, k)
         + (if keyOf(docs[|docs| - 1]) == k then [docs[|docs| - 1]] else [])
  }

  /** Reads the pipe from a cursor on, until a document passes the filter. */
  method Read(pipe: PipeNode, keep: Doc -> bool, from: int) returns (ok: bool, doc: Doc)
    requires pipe.Valid() && -1 <= from < |pipe.source|
    modifies pipe
    ensures pipe.Valid() && from <= pipe.docIndex < |pipe.source|
    ensures ok ==> Kept(pipe.source, keep, from + 1) == [doc] + Kept(pipe.source, keep, pipe.docIndex + 1)
    ensures ok ==> doc in pipe.source
    ensures !ok ==> Kept(pipe.source, keep, from + 1) == [] == Kept(pipe.source, keep, pipe.docIndex + 1)
  {
    pipe.docIndex := from;
    while true
      invariant pipe.Valid() && from <= pipe.docIndex < |pipe.source|
      invariant Kept(pipe.source, keep, from + 1) == Kept(pipe.source, keep, pipe.docIndex + 1)
      decreases |pipe.source| - pipe.docIndex
    {
      ok, doc := pipe.Next();
      if !ok || keep(doc) {
        return;
      }
    }
  }

  class DataSource {
    const pipe: PipeNode
    const childIndex: nat
    const parent: Option<Doc -> bool>
    const child: Option<Doc -> bool>
    var lastParentDocIndex: int
    var lastChildDocIndex: int

    constructor (pipe: PipeNode, childIndex: nat, parent: Option<Doc -> bool>, child: Option<Doc -> bool>)
      ensures this.pipe == pipe && this.childIndex == childIndex && this.parent == parent && this.child == child
      ensures lastParentDocIndex == -1 && lastChildDocIndex == -1
    {
      this.pipe, this.childIndex, this.parent, this.child := pipe, childIndex, parent, child;
      lastParentDocIndex, lastChildDocIndex := -1, -1;
    }

    ghost predicate Valid()
      reads this, pipe
    {
      pipe.Valid() && -1 <= lastParentDocIndex < |pipe.source| && -1 <= lastChildDocIndex < |pipe.source|
    }

    /** The parents, or children, that the source yields from a cursor on. */
    ghost function Left(keep: Option<Doc -> bool>, cursor: int): seq<Doc>
      requires -1 <= cursor < |pipe.source|
    {
      if keep == None then [] else Kept(pipe.source, keep.value, cursor + 1)
    }

    ghost function Parents(): seq<Doc> { Left(parent, -1) }

    ghost function ChildDocs(): seq<Doc> { Left(child, -1) }

    /** The next parent, read from where the parents stand in the pipe. */
    method NextParent() returns (hasNext: bool, value: Doc)
      requires Valid() && parent.Some?
      modifies pipe, this`lastParentDocIndex
      ensures Valid()
      ensures hasNext ==> Left(parent, old(lastParentDocIndex)) == [value] + Left(parent, lastParentDocIndex)
      ensures hasNext ==> value in pipe.source
      ensures !hasNext ==> Left(parent, old(lastParentDocIndex)) == [] == Left(parent, lastParentDocIndex)
    {
      hasNext, value := Read(pipe, parent.value, lastParentDocIndex);
      lastParentDocIndex := pipe.docIndex;
    }

    /** The next child, read from where the children stand in the pipe. */
    method NextChild() returns (hasNext: bool, value: Doc)
      requires Valid() && child.Some?
      modifies pipe, this`lastChildDocIndex
      ensures Valid()
      ensures hasNext ==> Left(child, old(lastChildDocIndex)) == [value] + Left(child, lastChildDocIndex)
      ensures !hasNext ==> Left(child, old(lastChildDocIndex)) == [] == Left(child, lastChildDocIndex)
    {
      hasNext, value := Read(pipe, child.value, lastChildDocIndex);
      lastChildDocIndex := pipe.docIndex;
    }
  }

  // ---------- The join ----------

  /** What the join reads, in the order in which it reads it. */
  datatype Event = ParentRead(doc: Doc) | ChildRead(c: nat, doc: Doc)

  function After(g: Groups, layout: Layout, keyOf: Doc -> string, e: Event): Groups {
    match e
    case ParentRead(d) => AfterParent(g, layout, keyOf(d), d)
    case ChildRead(c, d) => AfterChild(g, layout, keyOf(d), c, d)
  }

  function Joined(g: Groups, layout: Layout, keyOf: Doc -> string, es: seq<Event>): Groups {
    if es == [] then g else After(Joined(g, layout, keyOf, es[..|es| - 1]), layout, keyOf, es[|es| - 1])
  }

  function ParentsRead(es: seq<Event>): seq<Doc> {
    if es == [] then []
    else ParentsRead(es[..|es| - 1]) + (if es[|es| - 1].ParentRead? then [es[|es| - 1].doc] else [])
  }

  function ChildrenRead(es: seq<Event>, c: nat): seq<Doc> {
    if es == [] then []
    else ChildrenRead(es[..|es| - 1], c)
         + (if es[|es| - 1].ChildRead? && es[|es| - 1].c == c then [es[|es| - 1].doc] else [])
  }

  /** Events that the layout has room for. */
  ghost predicate Fits(layout: Layout, e: Event) {
    match e
    case ParentRead(d) => |d.fields| == layout.parentWidth
    case ChildRead(c, _) => c in layout.childIndexes
  }

  lemma {:induction false} JoinedIsValid(g: Groups, layout: Layout, keyOf: Doc -> string, es: seq<Event>)
    requires layout.Valid() && g.Valid(layout) && forall e :: e in es ==> Fits(layout, e)
    ensures Joined(g, layout, keyOf, es).Valid(layout)
  {
    if es != [] {
      var init, e := es[..|es| - 1], es[|es| - 1];
      JoinedIsValid(g, layout, keyOf, init);
      assert Fits(layout, e);
      match e
      case ParentRead(d) => ParentKeepsValid(Joined(g, layout, keyOf, init), layout, keyOf(d), d);
      case ChildRead(c, d) => ChildKeepsValid(Joined(g, layout, keyOf, init), layout, keyOf(d), c, d);
    }
  }

  /** What one read adds: its key, and, for a child, one document at the end of one group. */
  lemma AfterAdds(g: Groups, layout: Layout, keyOf: Doc -> string, e: Event, k: string, c: nat)
    requires layout.Valid() && g.Valid(layout) && Fits(layout, e) && c in layout.childIndexes
    ensures After(g, layout, keyOf, e).Children(k, c)
            == g.Children(k, c) + if e.ChildRead? && e.c == c && keyOf(e.doc) == k then [e.doc] else []
  {
    match e
    case ParentRead(d) => ParentKeepsChildren(g, layout, keyOf(d), d, k, c);
    case ChildRead(i, d) => ChildIsAppended(g, layout, keyOf(d), i, d, k, c);
  }

  lemma WithKeyAppended(docs: seq<Doc>, d: Doc, keyOf: Doc -> string, k: string)
    ensures WithKey(docs + [d], keyOf, k) == WithKey(docs, keyOf, k) + if keyOf(d) == k then [d] else []
  {
    assert (docs + [d])[..|docs|] == docs;
  }

  lemma ChildReadAppended(es: seq<Event>, e: Event, keyOf: Doc -> string, k: string, c: nat)
    ensures WithKey(ChildrenRead(es + [e], c), keyOf, k)
            == WithKey(ChildrenRead(es, c), keyOf, k)
               + if e.ChildRead? && e.c == c && keyOf(e.doc) == k then [e.doc] else []
  {
    var all, read := es + [e], ChildrenRead(es, c);
    assert all[..|all| - 1] == es && all[|all| - 1] == e;
    if e.ChildRead? && e.c == c {
      assert ChildrenRead(all, c) == read + [e.doc];
      WithKeyAppended(read, e.doc, keyOf, k);
    } else {
      assert ChildrenRead(all, c) == read;
    }
  }

  /** Every child read lands in the group of its key, in order, exactly once; parents add groups but no children. */
  lemma {:induction false} JoinConserves(layout: Layout, keyOf: Doc -> string, es: seq<Event>, k: string, c: nat)
    requires layout.Valid() && (forall e :: e in es ==> Fits(layout, e)) && c in layout.childIndexes
    ensures Joined(Groups([], map[]), layout, keyOf, es).Children(k, c) == WithKey(ChildrenRead(es, c), keyOf, k)
  {
    var empty := Groups([], map[]);
    if es == [] {
      assert empty.Children(k, c) == [];
    } else {
      var init, e := es[..|es| - 1], es[|es| - 1];
      assert es == init + [e];
      JoinedIsValid(empty, layout, keyOf, init);
      JoinConserves(layout, keyOf, init, k, c);
      AfterAdds(Joined(empty, layout, keyOf, init), layout, keyOf, e, k, c);
      ChildReadAppended(init, e, keyOf, k, c);
    }
  }

  ghost function DocsRead(es: seq<Event>): set<Doc> { set e | e in es :: e.doc }

  ghost function KeysOf(docs: set<Doc>, keyOf: Doc -> string): set<string> { set d | d in docs :: keyOf(d) }

  /** The keys in the order in which each was first read. */
  function FirstReads(es: seq<Event>, keyOf: Doc -> string): seq<string> {
    if es == [] then []
    else
      var keys, k := FirstReads(es[..|es| - 1], keyOf), keyOf(es[|es| - 1].doc);
      if k in keys then keys else keys + [k]
  }

  lemma {:induction false} FirstReadsAll(es: seq<Event>, keyOf: Doc -> string)
    ensures forall k :: k in FirstReads(es, keyOf) <==> k in KeysOf(DocsRead(es), keyOf)
  {
    if es != [] {
      var init, e := es[..|es| - 1], es[|es| - 1];
      assert es == init + [e];
      FirstReadsAll(init, keyOf);
      assert DocsRead(es) == DocsRead(init) + {e.doc};
    }
  }

  /** Group number i is that of the i-th key. */
  ghost predicate InOrder(g: Groups, keys: seq<string>) {
    && |keys| == |g.values|
    && g.indexesByKey.Keys == (set k | k in keys)
    && forall i :: 0 <= i < |keys| ==> keys[i] in g.indexesByKey && g.indexesByKey[keys[i]] == i
  }

  lemma AfterKeepsOrder(g: Groups, layout: Layout, keyOf: Doc -> string, e: Event, keys: seq<string>)
    requires layout.Valid() && g.Valid(layout) && Fits(layout, e) && InOrder(g, keys)
    ensures InOrder(After(g, layout, keyOf, e), if keyOf(e.doc) in keys then keys else keys + [keyOf(e.doc)])
  {
  }

  /** Groups stand in the order in which their keys were first read, by a parent or by a child. */
  lemma {:induction false} GroupsInReadOrder(layout: Layout, keyOf: Doc -> string, es: seq<Event>)
    requires layout.Valid() && forall e :: e in es ==> Fits(layout, e)
    ensures InOrder(Joined(Groups([], map[]), layout, keyOf, es), FirstReads(es, keyOf))
  {
    if es != [] {
      var init := es[..|es| - 1];
      GroupsInReadOrder(layout, keyOf, init);
      JoinedIsValid(Groups([], map[]), layout, keyOf, init);
      AfterKeepsOrder(Joined(Groups([], map[]), layout, keyOf, init), layout, keyOf, es[|es| - 1],
                      FirstReads(init, keyOf));
    }
  }

  /** A cell of the last parent with a key. */
  function LastCell(parents: seq<Doc>, keyOf: Doc -> string, k: string, i: nat): Cell {
    if parents == [] then Nil
    else
      var last := parents[|parents| - 1];
      if keyOf(last) == k && i < |last.fields| then last.fields[i]
      else LastCell(parents[..|parents| - 1], keyOf, k, i)
  }

  lemma AppendedKeepsCell(g: Groups, layout: Layout, key: string, c: nat, value: Doc, k: string, i: nat)
    requires g.Valid(layout) && c in layout.childIndexes && i !in layout.childIndexes
    ensures Appended(g, key, c, value).CellAt(k, i) == g.CellAt(k, i)
  {
    if k in g.indexesByKey && key in g.indexesByKey && k != key {
      assert g.indexesByKey[k] != g.indexesByKey[key];
    }
  }

  lemma OpenedKeepsCell(g: Groups, layout: Layout, key: string, k: string, i: nat)
    requires g.Valid(layout)
    ensures Opened(g, layout, key).CellAt(k, i) == g.CellAt(k, i)
  {
  }

  lemma ChildKeepsCell(g: Groups, layout: Layout, key: string, c: nat, value: Doc, k: string, i: nat)
    requires layout.Valid() && g.Valid(layout) && c in layout.childIndexes && i !in layout.childIndexes
    ensures AfterChild(g, layout, key, c, value).CellAt(k, i) == g.CellAt(k, i)
  {
    OpenedIsValid(g, layout, key);
    OpenedKeepsCell(g, layout, key, k, i);
    AppendedKeepsCell(Opened(g, layout, key), layout, key, c, value, k, i);
  }

  lemma AfterSetsCell(g: Groups, layout: Layout, keyOf: Doc -> string, e: Event, k: string, i: nat)
    requires layout.Valid() && g.Valid(layout) && Fits(layout, e)
    requires i < layout.parentWidth && i !in layout.childIndexes
    ensures After(g, layout, keyOf, e).CellAt(k, i)
            == if e.ParentRead? && keyOf(e.doc) == k then e.doc.fields[i] else g.CellAt(k, i)
  {
    if e.ChildRead? {
      ChildKeepsCell(g, layout, keyOf(e.doc), e.c, e.doc, k, i);
    }
  }

  lemma ParentReadLast(es: seq<Event>, e: Event, keyOf: Doc -> string, k: string, i: nat)
    requires e.ParentRead? ==> i < |e.doc.fields|
    ensures LastCell(ParentsRead(es + [e]), keyOf, k, i)
            == if e.ParentRead? && keyOf(e.doc) == k then e.doc.fields[i] else LastCell(ParentsRead(es), keyOf, k, i)
  {
    var all, parents := es + [e], ParentsRead(es);
    assert all[..|all| - 1] == es && all[|all| - 1] == e;
    if e.ParentRead? {
      assert ParentsRead(all) == parents + [e.doc];
      assert (parents + [e.doc])[..|parents|] == parents;
    } else {
      assert ParentsRead(all) == parents;
    }
  }

  /** Apart from its child groups, a group shows the last parent that was read with its key. */
  lemma {:induction false} GroupShowsLastParent(layout: Layout, keyOf: Doc -> string, es: seq<Event>, k: string, i: nat)
    requires layout.Valid() && forall e :: e in es ==> Fits(layout, e)
    requires i < layout.parentWidth && i !in layout.childIndexes
    ensures Joined(Groups([], map[]), layout, keyOf, es).CellAt(k, i) == LastCell(ParentsRead(es), keyOf, k, i)
  {
    var empty := Groups([], map[]);
    if es == [] {
      assert empty.CellAt(k, i) == Nil;
    } else {
      var init, e := es[..|es| - 1], es[|es| - 1];
      assert es == init + [e] && Fits(layout, e);
      JoinedIsValid(empty, layout, keyOf, init);
      GroupShowsLastParent(layout, keyOf, init, k, i);
      AfterSetsCell(Joined(empty, layout, keyOf, init), layout, keyOf, e, k, i);
      ParentReadLast(init, e, keyOf, k, i);
    }
  }

  // ---------- The join over the sources ----------

  /** The groups are what the reads so far make of them. */
  ghost predicate IsTrace(g: Groups, layout: Layout, keyOf: Doc -> string, es: seq<Event>) {
    g == Joined(Groups([], map[]), layout, keyOf, es) && g.Valid(layout) && forall e :: e in es ==> Fits(layout, e)
  }

  lemma TraceGrows(g: Groups, layout: Layout, keyOf: Doc -> string, es: seq<Event>, e: Event)
    requires layout.Valid() && IsTrace(g, layout, keyOf, es) && Fits(layout, e)
    ensures IsTrace(After(g, layout, keyOf, e), layout, keyOf, es + [e])
  {
    assert (es + [e])[..|es|] == es;
    JoinedIsValid(Groups([], map[]), layout, keyOf, es + [e]);
  }

  /** What was read, and the parents and children that a source still has to yield. */
  datatype Progress = Progress(read: seq<Event>, parents: seq<Doc>, children: seq<Doc>)

  ghost predicate At(source: DataSource, p: Progress)
    reads source, source.pipe
  {
    && source.Valid()
    && p.parents == source.Left(source.parent, source.lastParentDocIndex)
    && p.children == source.Left(source.child, source.lastChildDocIndex)
  }

  /** Read and still to be read, parents and children are the same at both points; children are of kind `k`. */
  ghost predicate SameTotal(k: nat, p: Progress, q: Progress) {
    && ParentsRead(p.read) + p.parents == ParentsRead(q.read) + q.parents
    && forall c {:trigger ChildrenRead(q.read, c)} ::
         ChildrenRead(p.read, c) + (if c == k then p.children else [])
         == ChildrenRead(q.read, c) + (if c == k then q.children else [])
  }

  lemma SameTotalTransitive(k: nat, p: Progress, q: Progress, r: Progress)
    requires SameTotal(k, p, q) && SameTotal(k, q, r)
    ensures SameTotal(k, p, r)
  {
    forall c: nat
      ensures ChildrenRead(p.read, c) + (if c == k then p.children else [])
              == ChildrenRead(r.read, c) + (if c == k then r.children else [])
    {
      assert ChildrenRead(q.read, c) == ChildrenRead(q.read, c);
    }
  }

  lemma ParentMoves(k: nat, es: seq<Event>, d: Doc, parents: seq<Doc>, children: seq<Doc>)
    ensures SameTotal(k, Progress(es, [d] + parents, children), Progress(es + [ParentRead(d)], parents, children))
  {
    var all := es + [ParentRead(d)];
    assert all[..|all| - 1] == es;
    assert ParentsRead(es) + ([d] + parents) == ParentsRead(all) + parents;
  }

  lemma ChildMoves(k: nat, es: seq<Event>, d: Doc, parents: seq<Doc>, children: seq<Doc>)
    ensures SameTotal(k, Progress(es, parents, [d] + children), Progress(es + [ChildRead(k, d)], parents, children))
  {
    var all := es + [ChildRead(k, d)];
    assert all[..|all| - 1] == es;
    assert ChildrenRead(es, k) + ([d] + children) == ChildrenRead(all, k) + children;
  }

  method MergeParent(source: DataSource, keyOf: Doc -> string, dest: OrderedMap, layout: Layout, ghost p: Progress)
    returns (hasNext: bool, ghost q: Progress)
    requires At(source, p) && source.parent.Some? && layout.Valid() && IsTrace(dest.g, layout, keyOf, p.read)
    requires forall d :: d in source.pipe.source ==> |d.fields| == layout.parentWidth
    modifies source.pipe, source`lastParentDocIndex, dest
    ensures At(source, q) && IsTrace(dest.g, layout, keyOf, q.read) && SameTotal(source.childIndex, p, q)
    ensures hasNext == (p.parents != []) && q.children == p.children
    ensures q.parents == if hasNext then p.parents[1..] else []
  {
    var value;
    hasNext, value := source.NextParent();
    q := p;
    if !hasNext {
      return;
    }
    TraceGrows(dest.g, layout, keyOf, p.read, ParentRead(value));
    dest.MergeParent(keyOf(value), layout, value);
    q := Progress(p.read + [ParentRead(value)], p.parents[1..], p.children);
    ParentMoves(source.childIndex, p.read, value, q.parents, q.children);
  }

  method AppendChild(source: DataSource, keyOf: Doc -> string, dest: OrderedMap, layout: Layout, ghost p: Progress)
    returns (hasNext: bool, ghost q: Progress)
    requires At(source, p) && source.child.Some? && layout.Valid() && IsTrace(dest.g, layout, keyOf, p.read)
    requires source.childIndex in layout.childIndexes
    modifies source.pipe, source`lastChildDocIndex, dest
    ensures At(source, q) && IsTrace(dest.g, layout, keyOf, q.read) && SameTotal(source.childIndex, p, q)
    ensures hasNext == (p.children != []) && q.parents == p.parents
    ensures q.children == if hasNext then p.children[1..] else []
  {
    var value;
    hasNext, value := source.NextChild();
    q := p;
    if !hasNext {
      return;
    }
    TraceGrows(dest.g, layout, keyOf, p.read, ChildRead(source.childIndex, value));
    dest.AppendChild(keyOf(value), source.childIndex, value, layout);
    q := Progress(p.read + [ChildRead(source.childIndex, value)], p.parents, p.children[1..]);
    ChildMoves(source.childIndex, p.read, value, q.parents, q.children);
  }

  /** One round of the inner loop: a parent, then a child, each while there are any. */
  method JoinOnce(source: DataSource, keyOf: Doc -> string, dest: OrderedMap, layout: Layout, ghost p: Progress,
                  parent: bool, child: bool)
    returns (hasNextParent: bool, hasNextChild: bool, ghost q: Progress)
    requires At(source, p) && layout.Valid() && IsTrace(dest.g, layout, keyOf, p.read)
    requires (parent ==> source.parent.Some?) && (child ==> source.child.Some?)
    requires (!parent ==> p.parents == []) && (!child ==> p.children == [])
    requires source.childIndex in layout.childIndexes
    requires forall d :: d in source.pipe.source ==> |d.fields| == layout.parentWidth
    modifies source.pipe, source, dest
    ensures At(source, q) && IsTrace(dest.g, layout, keyOf, q.read) && SameTotal(source.childIndex, p, q)
    ensures hasNextParent == (p.parents != []) && hasNextChild == (p.children != [])
    ensures q.parents == (if hasNextParent then p.parents[1..] else [])
    ensures q.children == (if hasNextChild then p.children[1..] else [])
  {
    q, hasNextParent, hasNextChild := p, parent, child;
    if hasNextParent {
      hasNextParent, q := MergeParent(source, keyOf, dest, layout, q);
    }
    if hasNextChild {
      ghost var r := q;
      hasNextChild, q := AppendChild(source, keyOf, dest, layout, q);
      SameTotalTransitive(source.childIndex, p, r, q);
    }
  }

  /** The inner loop of the join: one source, parents and children in turn until both have ended. */
  method JoinSource(source: DataSource, keyOf: Doc -> string, dest: OrderedMap, layout: Layout, ghost p: Progress)
    returns (ghost q: Progress)
    requires At(source, p) && layout.Valid() && IsTrace(dest.g, layout, keyOf, p.read)
    requires source.childIndex in layout.childIndexes
    requires forall d :: d in source.pipe.source ==> |d.fields| == layout.parentWidth
    modifies source.pipe, source, dest
    ensures source.Valid() && IsTrace(dest.g, layout, keyOf, q.read) && SameTotal(source.childIndex, p, q)
    ensures q.parents == [] == q.children
  {
    q := p;
    var hasNextParent, hasNextChild := source.parent.Some?, source.child.Some?;
    while hasNextParent || hasNextChild
      invariant At(source, q) && IsTrace(dest.g, layout, keyOf, q.read) && SameTotal(source.childIndex, p, q)
      invariant (hasNextParent ==> source.parent.Some?) && (hasNextChild ==> source.child.Some?)
      invariant (!hasNextParent ==> q.parents == []) && (!hasNextChild ==> q.children == [])
      decreases |q.parents| + |q.children|, hasNextParent, hasNextChild
    {
      ghost var r := q;
      hasNextParent, hasNextChild, q := JoinOnce(source, keyOf, dest, layout, q, hasNextParent, hasNextChild);
      SameTotalTransitive(source.childIndex, p, r, q);
    }
  }

  ghost function AllParents(sources: seq<DataSource>): seq<Doc> {
    if sources == [] then [] else AllParents(sources[..|sources| - 1]) + sources[|sources| - 1].Parents()
  }

  /** The children of one kind, source after source. */
  ghost function AllChildren(sources: seq<DataSource>, c: nat): seq<Doc> {
    if sources == [] then []
    else
      var last := sources[|sources| - 1];
      AllChildren(sources[..|sources| - 1], c) + if last.childIndex == c then last.ChildDocs() else []
  }

  /** The reads are those of the first n sources. */
  ghost predicate HasRead(es: seq<Event>, sources: seq<DataSource>, n: nat)
    requires n <= |sources|
  {
    && ParentsRead(es) == AllParents(sources[..n])
    && forall c {:trigger ChildrenRead(es, c)} :: ChildrenRead(es, c) == AllChildren(sources[..n], c)
  }

  lemma ReadOneMore(p: Progress, q: Progress, sources: seq<DataSource>, n: nat)
    requires n < |sources| && HasRead(p.read, sources, n) && SameTotal(sources[n].childIndex, p, q)
    requires p.parents == sources[n].Parents() && p.children == sources[n].ChildDocs() && q.parents == [] == q.children
    ensures HasRead(q.read, sources, n + 1)
  {
    var more := sources[..n + 1];
    assert more[..|more| - 1] == sources[..n];
    forall c: nat ensures ChildrenRead(q.read, c) == AllChildren(more, c) {
      assert ChildrenRead(p.read, c) == AllChildren(sources[..n], c);
    }
  }

  /** Whatever was read is a parent or a child of some kind. */
  lemma {:induction false} ReadAsParentOrChild(es: seq<Event>, layout: Layout, d: Doc)
    requires forall e :: e in es ==> Fits(layout, e)
    ensures d in DocsRead(es) <==>
            d in ParentsRead(es) || exists c :: c in layout.childIndexes && d in ChildrenRead(es, c)
  {
    if es != [] {
      var init, e := es[..|es| - 1], es[|es| - 1];
      assert es == init + [e] && Fits(layout, e);
      ReadAsParentOrChild(init, layout, d);
      assert DocsRead(es) == DocsRead(init) + {e.doc};
      if e.ChildRead? {
        assert forall c: nat :: d in ChildrenRead(es, c) <==> d in ChildrenRead(init, c) || (c == e.c && d == e.doc);
      } else {
        assert forall c: nat :: ChildrenRead(es, c) == ChildrenRead(init, c);
      }
    }
  }

  /**
   One group for each key that the sources yield. It has the children of its key, kind by kind and in order, and
   nothing else; its other cells are those of the last parent of its key.
   */
  ghost predicate IsJoin(g: Groups, sources: seq<DataSource>, keyOf: Doc -> string, parentWidth: nat) {
    && (forall s, k :: s in sources ==>
          g.Children(k, s.childIndex) == WithKey(AllChildren(sources, s.childIndex), keyOf, k))
    && (forall k :: k in g.indexesByKey <==> exists d :: keyOf(d) == k && Yielded(sources, d))
    && (forall i: nat, k :: i < parentWidth && !IsChildIndex(sources, i) ==>
          g.CellAt(k, i) == LastCell(AllParents(sources), keyOf, k, i))
  }

  ghost predicate IsChildIndex(sources: seq<DataSource>, i: nat) { exists s :: s in sources && s.childIndex == i }

  ghost predicate Yielded(sources: seq<DataSource>, d: Doc) {
    d in AllParents(sources) || exists s :: s in sources && d in AllChildren(sources, s.childIndex)
  }

  ghost predicate HasLayout(sources: seq<DataSource>, layout: Layout) {
    |layout.childIndexes| == |sources|
    && forall i :: 0 <= i < |sources| ==> layout.childIndexes[i] == sources[i].childIndex
  }

  lemma GroupKeys(g: Groups, layout: Layout, keyOf: Doc -> string, es: seq<Event>, k: string)
    requires layout.Valid() && IsTrace(g, layout, keyOf, es)
    ensures k in g.indexesByKey <==> exists d :: keyOf(d) == k && d in DocsRead(es)
  {
    GroupsInReadOrder(layout, keyOf, es);
    FirstReadsAll(es, keyOf);
  }

  lemma ChildrenReadAre(es: seq<Event>, sources: seq<DataSource>, c: nat)
    requires HasRead(es, sources, |sources|)
    ensures ChildrenRead(es, c) == AllChildren(sources, c) && ParentsRead(es) == AllParents(sources)
  {
    assert sources[..|sources|] == sources;
  }

  lemma ReadIsYielded(layout: Layout, es: seq<Event>, sources: seq<DataSource>, d: Doc)
    requires HasRead(es, sources, |sources|) && HasLayout(sources, layout) && forall e :: e in es ==> Fits(layout, e)
    requires d in DocsRead(es)
    ensures Yielded(sources, d)
  {
    ReadAsParentOrChild(es, layout, d);
    ChildrenReadAre(es, sources, 0);
    if d !in ParentsRead(es) {
      var c :| c in layout.childIndexes && d in ChildrenRead(es, c);
      var i :| 0 <= i < |sources| && layout.childIndexes[i] == c;
      ChildrenReadAre(es, sources, c);
      assert sources[i] in sources && d in AllChildren(sources, sources[i].childIndex);
    }
  }

  lemma YieldedIsRead(layout: Layout, es: seq<Event>, sources: seq<DataSource>, d: Doc)
    requires HasRead(es, sources, |sources|) && HasLayout(sources, layout) && forall e :: e in es ==> Fits(layout, e)
    ensures d in DocsRead(es) <==> Yielded(sources, d)
  {
    if d in DocsRead(es) {
      ReadIsYielded(layout, es, sources, d);
    } else if Yielded(sources, d) {
      ReadAsParentOrChild(es, layout, d);
      ChildrenReadAre(es, sources, 0);
      var s :| s in sources && d in AllChildren(sources, s.childIndex);
      var i :| 0 <= i < |sources| && sources[i] == s;
      assert layout.childIndexes[i] == s.childIndex;
      ChildrenReadAre(es, sources, s.childIndex);
    }
  }

  lemma ChildIndexOf(sources: seq<DataSource>, layout: Layout, c: nat)
    requires HasLayout(sources, layout)
    ensures c in layout.childIndexes <==> IsChildIndex(sources, c)
  {
    if c in layout.childIndexes {
      var i :| 0 <= i < |sources| && layout.childIndexes[i] == c;
      assert sources[i] in sources;
    }
  }

  lemma TraceIsJoin(g: Groups, layout: Layout, keyOf: Doc -> string, es: seq<Event>, sources: seq<DataSource>)
    requires layout.Valid() && IsTrace(g, layout, keyOf, es) && HasRead(es, sources, |sources|)
    requires HasLayout(sources, layout)
    ensures IsJoin(g, sources, keyOf, layout.parentWidth)
  {
    assert sources[..|sources|] == sources;
    forall s, k | s in sources
      ensures g.Children(k, s.childIndex) == WithKey(AllChildren(sources, s.childIndex), keyOf, k)
    {
      ChildIndexOf(sources, layout, s.childIndex);
      JoinConserves(layout, keyOf, es, k, s.childIndex);
      assert ChildrenRead(es, s.childIndex) == AllChildren(sources, s.childIndex);
    }
    forall k ensures k in g.indexesByKey <==> exists d :: keyOf(d) == k && Yielded(sources, d) {
      GroupKeys(g, layout, keyOf, es, k);
      forall d: Doc { YieldedIsRead(layout, es, sources, d); }
    }
    forall i: nat, k | i < layout.parentWidth && !IsChildIndex(sources, i)
      ensures g.CellAt(k, i) == LastCell(AllParents(sources), keyOf, k, i)
    {
      ChildIndexOf(sources, layout, i);
      GroupShowsLastParent(layout, keyOf, es, k, i);
    }
  }

  ghost predicate Unread(source: DataSource)
    reads source, source.pipe
  {
    source.pipe.Valid() && source.lastParentDocIndex == -1 && source.lastChildDocIndex == -1
  }

  method ChildIndexes(sources: seq<DataSource>) returns (childIndexes: seq<nat>)
    ensures |childIndexes| == |sources|
    ensures forall i :: 0 <= i < |sources| ==> childIndexes[i] == sources[i].childIndex
  {
    childIndexes := [];
    for i := 0 to |sources|
      invariant |childIndexes| == i && forall j :: 0 <= j < i ==> childIndexes[j] == sources[j].childIndex
    {
      childIndexes := childIndexes + [sources[i].childIndex];
    }
  }

  /** Reads every source to its end, one after the other; sources may share a pipe. */
  method ReadAll(sources: seq<DataSource>, keyOf: Doc -> string, dest: OrderedMap, layout: Layout)
    returns (ghost es: seq<Event>)
    requires layout.Valid() && HasLayout(sources, layout) && dest.g == Groups([], map[])
    requires forall s :: s in sources ==> Unread(s)
    requires forall i, j :: 0 <= i < j < |sources| ==> sources[i] != sources[j]
    requires forall s, d :: s in sources && d in s.pipe.source ==> |d.fields| == layout.parentWidth
    modifies sources, (set s | s in sources :: s.pipe), dest
    ensures HasRead(es, sources, |sources|) && IsTrace(dest.g, layout, keyOf, es)
  {
    es := [];
    for i := 0 to |sources|
      invariant HasRead(es, sources, i) && IsTrace(dest.g, layout, keyOf, es)
      invariant forall j :: i <= j < |sources| ==> Unread(sources[j])
    {
      ghost var p := Progress(es, sources[i].Parents(), sources[i].ChildDocs());
      ghost var q := JoinSource(sources[i], keyOf, dest, layout, p);
      ReadOneMore(p, q, sources, i);
      es := q.read;
    }
  }

  /** The groups stand in the order in which their keys were first read. */
  method Join(sources: seq<DataSource>, keyOf: Doc -> string, parentWidth: nat, width: nat)
    returns (result: OrderedMap, ghost es: seq<Event>)
    requires parentWidth <= width && forall s :: s in sources ==> Unread(s) && s.childIndex < width
    requires forall i, j :: 0 <= i < j < |sources| ==> sources[i] != sources[j]
    requires forall s, d :: s in sources && d in s.pipe.source ==> |d.fields| == parentWidth
    modifies sources, set s | s in sources :: s.pipe
    ensures IsJoin(result.g, sources, keyOf, parentWidth)
    ensures HasRead(es, sources, |sources|) && InOrder(result.g, FirstReads(es, keyOf))
  {
    result := new OrderedMap();
    var childIndexes := ChildIndexes(sources);
    var layout := Layout(childIndexes, parentWidth, width);
    es := ReadAll(sources, keyOf, result, layout);
    TraceIsJoin(result.g, layout, keyOf, es, sources);
    GroupsInReadOrder(layout, keyOf, es);
  }
}
