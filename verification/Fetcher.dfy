/**
 The document fetcher (db/fetcher/fetcher.go): it groups a stream of key/value pairs into documents, span by span,
 and merges the streams of active and of deleted documents by document key.
 */
module Fetcher {
  import opened Options
  import opened ByteOrder

  datatype InstanceType = ValueKey | DeletedKey | OtherKey

  /** A pair from the iterator; the field is None when its identifier is not a number. */
  datatype KeyValue = KeyValue(inst: InstanceType, doc: Bytes, field: Option<nat>, value: Bytes)

  datatype Document = Document(key: Bytes, properties: map<nat, Bytes>)

  const OBJECT_MARKER: Byte := 0xff

  type Span = seq<KeyValue>

  // ---------- What the stream holds ----------

  /** A span ends at the first pair that is not a value. */
  function CutAt(span: Span, i: nat): (n: nat)
    requires i <= |span|
    ensures i <= n <= |span|
    decreases |span| - i
  {
    if i == |span| || span[i].inst == OtherKey then i else CutAt(span, i + 1)
  }

  function Cut(span: Span): Span { span[..CutAt(span, 0)] }

  /** Everything from a span on, each span up to its end. */
  function StreamFrom(spans: seq<Span>, i: nat): Span
    requires i <= |spans|
    decreases |spans| - i
  {
    if i == |spans| then [] else Cut(spans[i]) + StreamFrom(spans, i + 1)
  }

  function Stream(spans: seq<Span>): Span { StreamFrom(spans, 0) }

  /** The first position from i on that is not of the leading document. */
  function GroupAt(s: Span, i: nat): (n: nat)
    requires 0 < i <= |s|
    ensures i <= n <= |s|
    decreases |s| - i
  {
    if i == |s| || s[i].doc != s[0].doc then i else GroupAt(s, i + 1)
  }

  /** The number of leading pairs of one document. */
  function GroupLen(s: Span): (n: nat)
    ensures n <= |s| && (s != [] ==> n > 0)
  {
    if s == [] then 0 else GroupAt(s, 1)
  }

  lemma {:induction false} GroupAtIs(s: Span, i: nat)
    requires 0 < i <= |s| && forall k :: 0 <= k < i ==> s[k].doc == s[0].doc
    ensures forall k :: 0 <= k < GroupAt(s, i) ==> s[k].doc == s[0].doc
    ensures GroupAt(s, i) < |s| ==> s[GroupAt(s, i)].doc != s[0].doc
    decreases |s| - i
  {
    if i < |s| && s[i].doc == s[0].doc {
      GroupAtIs(s, i + 1);
    }
  }

  lemma GroupIs(s: Span)
    ensures forall i :: 0 <= i < GroupLen(s) ==> s[i].doc == s[0].doc
    ensures GroupLen(s) < |s| ==> s[GroupLen(s)].doc != s[0].doc
  {
    if s != [] {
      GroupAtIs(s, 1);
    }
  }

  predicate IsMarker(kv: KeyValue) { kv.value == [OBJECT_MARKER] }

  function Properties(s: Span): map<nat, Bytes> { WithPairs(map[], s) }

  function DocumentOf(s: Span): Document
    requires s != []
  {
    Document(s[0].doc, Properties(s))
  }

  /** The documents of a stream, in order. */
  function Documents(s: Span): seq<Document> {
    if s == [] then [] else [DocumentOf(s[..GroupLen(s)])] + Documents(s[GroupLen(s)..])
  }

  predicate Readable(schema: set<nat>, s: Span) {
    forall kv :: kv in s ==> IsMarker(kv) || (kv.field.Some? && kv.field.value in schema)
  }

  // ---------- What the fetcher makes of it ----------

  /** The spans from one on that hold a pair, each up to its end. */
  function CutsFrom(spans: seq<Span>, i: nat): (cs: seq<Span>)
    requires i <= |spans|
    ensures NoneEmpty(cs)
    decreases |spans| - i
  {
    if i == |spans| then []
    else if Cut(spans[i]) == [] then CutsFrom(spans, i + 1)
    else [Cut(spans[i])] + CutsFrom(spans, i + 1)
  }

  function Cuts(spans: seq<Span>): seq<Span> { CutsFrom(spans, 0) }

  function WithPairs(properties: map<nat, Bytes>, s: Span): map<nat, Bytes> {
    if s == [] then properties else WithPair(WithPairs(properties, s[..|s| - 1]), s[|s| - 1])
  }

  /** The fields of a document once the first n pairs of a span are added. */
  function Taken(carry: map<nat, Bytes>, s: Span, n: nat): map<nat, Bytes>
    requires n <= |s|
  {
    if n == 0 then carry else WithPair(Taken(carry, s, n - 1), s[n - 1])
  }

  lemma {:induction false} TakenIs(carry: map<nat, Bytes>, s: Span, n: nat)
    requires n <= |s|
    ensures Taken(carry, s, n) == WithPairs(carry, s[..n])
  {
    if n > 0 {
      TakenIs(carry, s, n - 1);
      assert s[..n][..n - 1] == s[..n - 1];
    }
  }

  predicate NoneEmpty(cs: seq<Span>) { forall i :: 0 <= i < |cs| ==> |cs[i]| > 0 }

  /** The part of a span from a position on, and then further spans. */
  function Beyond(cut: Span, pos: nat, more: seq<Span>): (cs: seq<Span>)
    requires pos <= |cut| && NoneEmpty(more)
    ensures NoneEmpty(cs) && (pos < |cut| ==> cs != [] && cs[0][0] == cut[pos])
  {
    if pos == |cut| then more else [cut[pos..]] + more
  }

  /** What is left of the spans once the leading pairs of one document in one span are taken. */
  function WithoutGroup(cs: seq<Span>): (rest: seq<Span>)
    requires NoneEmpty(cs) && cs != []
    ensures NoneEmpty(rest) && |rest| <= |cs| && (|rest| == |cs| ==> |rest[0]| < |cs[0]|)
  {
    Beyond(cs[0], GroupLen(cs[0]), cs[1..])
  }

  /**
   The documents that the fetcher returns. A span ends the document that is being read, but one that goes on in the
   next span is not started afresh there: it comes again, with the fields of both.
   */
  function Fetches(carry: map<nat, Bytes>, cs: seq<Span>): seq<Document>
    requires NoneEmpty(cs)
    decreases |cs|, if cs == [] then 0 else |cs[0]|
  {
    if cs == [] then []
    else
      var doc, rest := Document(cs[0][0].doc, Taken(carry, cs[0], GroupLen(cs[0]))), WithoutGroup(cs);
      [doc] + Fetches(if rest != [] && rest[0][0].doc == doc.key then doc.properties else map[], rest)
  }

  lemma TailOfBeyond(cut: Span, pos: nat, more: seq<Span>)
    requires pos < |cut| && NoneEmpty(more)
    ensures Tail(Beyond(cut, pos, more)) == Beyond(cut, pos + 1, more)
  {
    assert cut[pos..][1..] == cut[pos + 1..];
  }

  /** What is left of the spans once the first pair is taken. */
  function Tail(cs: seq<Span>): seq<Span>
    requires NoneEmpty(cs) && cs != []
  {
    (if |cs[0]| == 1 then [] else [cs[0][1..]]) + cs[1..]
  }

  // ---------- The fetcher ----------

  class DocumentFetcher {
    const spans: seq<Span>
    const schema: set<nat>
    var curSpanIndex: int
    var pos: nat
    var kv: Option<KeyValue>
    var kvEnd: bool
    var docKey: Option<Bytes>
    var properties: map<nat, Bytes>
    var isReadingDocument: bool

    /** A pair is at hand, unless the stream has ended: it is the one before `pos` in the current span. */
    ghost predicate AtPair()
      reads this
    {
      && 0 <= curSpanIndex < |spans|
      && 0 < pos <= |Cut(spans[curSpanIndex])| && kv == Some(Cut(spans[curSpanIndex])[pos - 1])
    }

    ghost predicate Valid()
      reads this
    {
      && -1 <= curSpanIndex < |spans|
      && (spans == [] ==> !kvEnd && kv == None)
      && (spans != [] && !kvEnd ==> AtPair() && (isReadingDocument ==> docKey == Some(kv.value.doc)))
    }

    /** The spans beyond the pairs taken so far. */
    ghost function Ahead(): seq<Span>
      reads this
      requires 0 <= curSpanIndex < |spans| && pos <= |Cut(spans[curSpanIndex])|
    {
      Beyond(Cut(spans[curSpanIndex]), pos, CutsFrom(spans, curSpanIndex + 1))
    }

    /** The spans from the pair at hand on. */
    ghost function Rest(): (cs: seq<Span>)
      reads this
      requires spans != [] && !kvEnd ==> AtPair()
      ensures NoneEmpty(cs) && (cs != [] ==> kv.Some? && cs[0][0] == kv.value)
      ensures cs == [] <==> kvEnd || spans == []
    {
      if kvEnd || spans == [] then []
      else Beyond(Cut(spans[curSpanIndex]), pos - 1, CutsFrom(spans, curSpanIndex + 1))
    }

    /** The fields of the document being read. */
    ghost function Carry(): map<nat, Bytes>
      reads this
    {
      if isReadingDocument then properties else map[]
    }

    constructor (spans: seq<Span>, schema: set<nat>)
      ensures this.spans == spans && this.schema == schema && Valid() && Rest() == Cuts(spans) && Carry() == map[]
    {
      this.spans, this.schema := spans, schema;
      curSpanIndex, pos, kv, kvEnd := -1, 0, None, false;
      docKey, properties, isReadingDocument := None, map[], false;
      new;
      var started := StartNextSpan();
    }

    /** The pair at hand is not of the document being read. */
    ghost predicate Crossed()
      reads this
      requires spans != [] && !kvEnd ==> AtPair()
    {
      Rest() != [] && docKey.Some? && Rest()[0][0].doc != docKey.value
    }

    /** Moves to the next span that holds a pair; false when there is no span left. */
    method StartNextSpan() returns (started: bool)
      requires -1 <= curSpanIndex < |spans|
      modifies this`curSpanIndex, this`pos, this`kv, this`kvEnd, this`isReadingDocument
      ensures started <==> old(curSpanIndex) + 1 < |spans|
      ensures !started ==> curSpanIndex == old(curSpanIndex) && kv == old(kv) && kvEnd == old(kvEnd)
                           && isReadingDocument == old(isReadingDocument)
      ensures started ==> old(curSpanIndex) < curSpanIndex < |spans| && (!kvEnd ==> AtPair())
      ensures started ==> Rest() == CutsFrom(spans, old(curSpanIndex) + 1)
      ensures started ==> isReadingDocument == (old(isReadingDocument) && !Crossed())
      decreases |spans| - curSpanIndex, 0
    {
      if curSpanIndex + 1 >= |spans| {
        return false;
      }
      curSpanIndex := curSpanIndex + 1;
      pos := 0;
      assert Cut(spans[curSpanIndex])[0..] == Cut(spans[curSpanIndex]);
      var _ := NextKey();
      return true;
    }

    /** Takes the next pair; true when the pairs of the current document, or of the span, are finished. */
    method NextKey() returns (spanDone: bool)
      requires 0 <= curSpanIndex < |spans| && pos <= |Cut(spans[curSpanIndex])|
      modifies this`curSpanIndex, this`pos, this`kv, this`kvEnd, this`isReadingDocument
      ensures old(curSpanIndex) <= curSpanIndex < |spans| && (!kvEnd ==> AtPair())
      ensures Rest() == old(Ahead())
      ensures spanDone <==> old(pos) == |Cut(spans[old(curSpanIndex)])| || Crossed()
      ensures isReadingDocument == (old(isReadingDocument) && !Crossed())
      decreases |spans| - curSpanIndex, 1
    {
      var span := spans[curSpanIndex];
      ghost var cut, here, more := Cut(span), pos, CutsFrom(spans, curSpanIndex + 1);
      CutAtIs(span, 0, pos);
      assert Ahead() == Beyond(cut, here, more);
      if pos < |span| {
        kv := Some(span[pos]);
        spanDone := span[pos].inst == OtherKey;
        pos := pos + 1;
      } else {
        kv := None;
        spanDone := true;
      }
      kvEnd := spanDone;
      if kvEnd {
        assert Beyond(cut, here, more) == more;
        var started := StartNextSpan();
        assert !started ==> more == [];
        assert Rest() == more;
        return true;
      }
      assert Rest() == Beyond(cut, here, more);
      if docKey.Some? && kv.value.doc != docKey.value {
        isReadingDocument := false;
        return true;
      }
      return false;
    }

    /** Adds one pair to the document being read, which starts afresh with its first pair. */
    method ProcessKV(pair: KeyValue) returns (ok: bool)
      modifies this`docKey, this`properties, this`isReadingDocument
      ensures isReadingDocument
      ensures docKey == if old(isReadingDocument) then old(docKey) else Some(pair.doc)
      ensures ok <==> Readable(schema, [pair])
      ensures ok ==> properties == WithPair(old(Carry()), pair)
    {
      if !isReadingDocument {
        isReadingDocument := true;
        properties := map[];
        docKey := Some(pair.doc);
      }
      if pair.value == [OBJECT_MARKER] {
        return true;
      }
      if pair.field == None || pair.field.value !in schema {
        return false;
      }
      properties := properties[pair.field.value := pair.value];
      return true;
    }

    /** Moves past the pair at hand; `end` says that the document, or the span, is complete. */
    method Advance(ghost cs: seq<Span>) returns (end: bool)
      requires spans != [] && !kvEnd && AtPair() && cs == Rest() && docKey == Some(cs[0][0].doc)
      modifies this`curSpanIndex, this`pos, this`kv, this`kvEnd, this`isReadingDocument
      ensures -1 <= curSpanIndex < |spans| && (!kvEnd ==> AtPair()) && Rest() == Tail(cs)
      ensures end <==> |cs[0]| == 1 || cs[0][1].doc != cs[0][0].doc
      ensures isReadingDocument == (old(isReadingDocument) && !Crossed())
    {
      TailOfBeyond(Cut(spans[curSpanIndex]), pos - 1, CutsFrom(spans, curSpanIndex + 1));
      end := NextKey();
    }

    /** Takes the pair at hand into the document; `end` says that the document, or the span, is complete with it. */
    method ReadPair(ghost cs: seq<Span>) returns (ok: bool, end: bool)
      requires Valid() && spans != [] && !kvEnd && cs == Rest()
      modifies this
      ensures ok <==> Readable(schema, [cs[0][0]])
      ensures ok ==> Valid() && Rest() == Tail(cs)
      ensures ok ==> docKey == Some(cs[0][0].doc) && properties == WithPair(old(Carry()), cs[0][0])
      ensures ok ==> (end <==> |cs[0]| == 1 || cs[0][1].doc != cs[0][0].doc)
      ensures ok ==> (isReadingDocument <==> !Crossed()) && (!end ==> isReadingDocument && !kvEnd)
    {
      var pair := kv.value;
      ok := ProcessKV(pair);
      if !ok {
        return false, false;
      }
      end := Advance(cs);
      if !end {
        assert Rest()[0][0] == cs[0][1];
      }
    }

    /** The first n pairs of the first span have been read, all of one document, and the next is of it too. */
    ghost predicate Reading(cs: seq<Span>, carry: map<nat, Bytes>, n: nat)
      reads this
    {
      && NoneEmpty(cs) && cs != [] && n < |cs[0]| && Valid() && spans != [] && !kvEnd
      && Rest() == Beyond(cs[0], n, cs[1..]) && Carry() == Taken(carry, cs[0], n)
      && SameUpTo(cs[0], n)
    }

    method ReadOneMore(ghost cs: seq<Span>, ghost carry: map<nat, Bytes>, ghost n: nat) returns (ok: bool, end: bool)
      requires Reading(cs, carry, n)
      modifies this
      ensures !ok ==> !Readable(schema, cs[0])
      ensures ok && !end ==> Reading(cs, carry, n + 1)
      ensures ok && end ==> Valid() && spans != [] && GroupLen(cs[0]) == n + 1
      ensures ok && end ==> Rest() == WithoutGroup(cs)
      ensures ok && end ==> docKey == Some(cs[0][0].doc) && properties == Taken(carry, cs[0], n + 1)
      ensures ok && end ==> isReadingDocument == !Crossed()
    {
      ghost var here := Beyond(cs[0], n, cs[1..]);
      NextPair(cs, n);
      ok, end := ReadPair(here);
    }

    /** The next document, which is taken off those to come. */
    method FetchNext() returns (ok: bool, doc: Option<Document>)
      requires Valid()
      modifies this
      ensures ok ==> spans != [] && Valid()
      ensures spans != [] && (forall c :: c in old(Rest()) ==> Readable(schema, c)) ==> ok
      ensures ok && old(Rest()) == [] ==> doc == None && Rest() == []
      ensures ok && old(Rest()) != [] ==>
                doc.Some? && Fetches(old(Carry()), old(Rest())) == [doc.value] + Fetches(Carry(), Rest())
      ensures ok && old(Rest()) != [] ==> Rest() == WithoutGroup(old(Rest()))
    {
      if kvEnd {
        return true, None;
      }
      if kv == None {
        return false, None;
      }
      ghost var cs, carry := Rest(), Carry();
      ghost var n := 0;
      assert cs[0][0..] == cs[0] && [cs[0]] + cs[1..] == cs;
      while true
        invariant Reading(cs, carry, n)
        decreases |cs[0]| - n
      {
        var end;
        ok, end := ReadOneMore(cs, carry, n);
        if !ok {
          return false, None;
        }
        n := n + 1;
        if end {
          doc := Some(Document(docKey.value, properties));
          return true, doc;
        }
      }
    }

    /** The stream has a span, and the schema has every field in it. */
    ghost predicate Ready()
      reads this
    {
      Valid() && spans != [] && forall c :: c in Rest() ==> Readable(schema, c)
    }

    /** The documents still to come. */
    ghost function Docs(): seq<Document>
      reads this
      requires Ready()
    {
      Fetches(Carry(), Rest())
    }

    lemma Peek()
      requires Ready()
      ensures kvEnd <==> Docs() == []
      ensures !kvEnd ==> kv.Some? && Docs()[0].key == kv.value.doc
    {
    }

    method NextDocument() returns (doc: Option<Document>)
      requires Ready()
      modifies this
      ensures Ready()
      ensures old(Docs()) == [] ==> doc == None && Docs() == []
      ensures old(Docs()) != [] ==> doc == Some(old(Docs())[0]) && Docs() == old(Docs())[1..]
    {
      ghost var cs := Rest();
      var ok;
      ok, doc := FetchNext();
      if cs != [] {
        StaysReadable(schema, cs);
      }
    }
  }

  /** The first pairs, up to and with the one at n, are of one document. */
  ghost predicate SameUpTo(s: Span, n: nat)
    requires n < |s|
  {
    forall i :: 0 <= i <= n ==> s[i].doc == s[0].doc
  }

  /** The pair after the one at n is of the same document, or the leading group ends with that one. */
  lemma NextPair(cs: seq<Span>, n: nat)
    requires NoneEmpty(cs) && cs != [] && n < |cs[0]| && SameUpTo(cs[0], n)
    ensures
      var s, here := cs[0], Beyond(cs[0], n, cs[1..]);
      var end := |here[0]| == 1 || here[0][1].doc != here[0][0].doc;
      && here != [] && here[0][0] == s[n] && s[n] in s && s[n].doc == s[0].doc
      && Tail(here) == Beyond(s, n + 1, cs[1..])
      && (!end ==> n + 1 < |s| && SameUpTo(s, n + 1))
      && (end ==> GroupLen(s) == n + 1 && Tail(here) == WithoutGroup(cs))
  {
    var s, here := cs[0], Beyond(cs[0], n, cs[1..]);
    TailOfBeyond(s, n, cs[1..]);
    assert here[0] == s[n..];
    if n + 1 == |s| || s[n + 1].doc != s[0].doc {
      GroupLenIs(s, n + 1);
    }
  }

  lemma StaysReadable(schema: set<nat>, cs: seq<Span>)
    requires NoneEmpty(cs) && cs != [] && forall c :: c in cs ==> Readable(schema, c)
    ensures forall c :: c in WithoutGroup(cs) ==> Readable(schema, c)
  {
    var s, n := cs[0], GroupLen(cs[0]);
    assert Readable(schema, s) && forall kv :: kv in s[n..] ==> kv in s;
  }

  function WithPair(properties: map<nat, Bytes>, kv: KeyValue): map<nat, Bytes> {
    if IsMarker(kv) || kv.field == None then properties else properties[kv.field.value := kv.value]
  }

  lemma {:induction false} GroupLenIs(s: Span, n: nat)
    requires 0 < n <= |s| && (forall i :: 0 <= i < n ==> s[i].doc == s[0].doc) && (n < |s| ==> s[n].doc != s[0].doc)
    ensures GroupLen(s) == n
  {
    GroupIs(s);
  }

  /** The cut span ends at the end of the span or at the first pair that is not a value. */
  lemma {:induction false} CutAtIs(span: Span, i: nat, k: nat)
    requires i <= |span| && i <= k <= CutAt(span, i)
    ensures k == CutAt(span, i) <==> k == |span| || span[k].inst == OtherKey
    decreases |span| - i
  {
    if i < k {
      CutAtIs(span, i + 1, k);
    }
  }

  // ---------- Active and deleted documents together ----------

  datatype Status = Active | Deleted

  datatype Fetched = Fetched(doc: Document, status: Status)

  /** The order of document keys: ascending, or descending when reversed. */
  predicate Comes(k: Bytes, l: Bytes, reverse: bool) { if reverse then Less(l, k) else Less(k, l) }

  /** The merge of both streams: a deleted document goes first when its key comes first. */
  function Merged(active: seq<Document>, deleted: seq<Document>, reverse: bool): seq<Fetched> {
    if deleted != [] && (active == [] || Comes(deleted[0].key, active[0].key, reverse)) then
      [Fetched(deleted[0], Deleted)] + Merged(active, deleted[1..], reverse)
    else if active != [] then [Fetched(active[0], Active)] + Merged(active[1..], deleted, reverse)
    else []
  }

  class DocFetchers {
    const active: DocumentFetcher
    /** Only there when deleted documents are to be shown. */
    const deleted: DocumentFetcher?
    const reverse: bool

    constructor (active: DocumentFetcher, deleted: DocumentFetcher?, reverse: bool)
      requires active != deleted
      ensures this.active == active && this.deleted == deleted && this.reverse == reverse
    {
      this.active, this.deleted, this.reverse := active, deleted, reverse;
    }

    ghost predicate Ready()
      reads this, active, deleted
    {
      active != deleted && active.Ready() && (deleted != null ==> deleted.Ready())
    }

    ghost function ToCome(): seq<Fetched>
      reads this, active, deleted
      requires Ready()
    {
      Merged(active.Docs(), if deleted == null then [] else deleted.Docs(), reverse)
    }

    /** The next document of the merged stream, with its status. */
    method FetchNextDoc() returns (r: Option<Fetched>)
      requires Ready()
      modifies active, deleted
      ensures Ready()
      ensures r == None ==> old(ToCome()) == []
      ensures r.Some? ==> old(ToCome()) == [r.value] + ToCome()
    {
      active.Peek();
      if deleted != null {
        deleted.Peek();
        if !deleted.kvEnd && (active.kvEnd || Comes(deleted.kv.value.doc, active.kv.value.doc, reverse)) {
          r := TakeDeleted();
          return;
        }
      }
      r := TakeActive();
    }

    /** The first deleted document, when no active one comes before it. */
    method TakeDeleted() returns (r: Option<Fetched>)
      requires Ready() && deleted != null && deleted.Docs() != []
      requires active.Docs() == [] || Comes(deleted.Docs()[0].key, active.Docs()[0].key, reverse)
      modifies deleted
      ensures Ready() && r.Some? && old(ToCome()) == [r.value] + ToCome()
    {
      ghost var live, dead := active.Docs(), deleted.Docs();
      DeletedFirst(live, dead, reverse);
      var gone := deleted.NextDocument();
      assert active.Docs() == live && deleted.Docs() == dead[1..];
      return Some(Fetched(gone.value, Deleted));
    }

    method TakeActive() returns (r: Option<Fetched>)
      requires Ready()
      requires
        var dead := if deleted == null then [] else deleted.Docs();
        dead == [] || (active.Docs() != [] && !Comes(dead[0].key, active.Docs()[0].key, reverse))
      modifies active
      ensures Ready() && (r == None ==> old(ToCome()) == []) && (r.Some? ==> old(ToCome()) == [r.value] + ToCome())
    {
      ghost var live, dead := active.Docs(), if deleted == null then [] else deleted.Docs();
      ActiveFirst(live, dead, reverse);
      var doc := active.NextDocument();
      assert dead == if deleted == null then [] else deleted.Docs();
      if doc == None {
        return None;
      }
      return Some(Fetched(doc.value, Active));
    }

    /** Every document, active or deleted, in the order of the merge. */
    method FetchAll() returns (out: seq<Fetched>)
      requires Ready()
      modifies active, deleted
      ensures Ready() && out == old(ToCome())
    {
      out := [];
      ghost var all, rest := ToCome(), ToCome();
      while true
        invariant Ready() && rest == ToCome() && all == out + rest
        decreases |rest|
      {
        var r := FetchNextDoc();
        if r == None {
          return;
        }
        Shift(out, rest);
        out := out + [r.value];
        rest := rest[1..];
      }
    }
  }

  lemma DeletedFirst(live: seq<Document>, dead: seq<Document>, reverse: bool)
    requires dead != [] && (live == [] || Comes(dead[0].key, live[0].key, reverse))
    ensures Merged(live, dead, reverse) == [Fetched(dead[0], Deleted)] + Merged(live, dead[1..], reverse)
  {
  }

  lemma ActiveFirst(live: seq<Document>, dead: seq<Document>, reverse: bool)
    requires dead == [] || (live != [] && !Comes(dead[0].key, live[0].key, reverse))
    ensures Merged(live, dead, reverse)
            == if live == [] then [] else [Fetched(live[0], Active)] + Merged(live[1..], dead, reverse)
  {
  }

  lemma Shift(out: seq<Fetched>, rest: seq<Fetched>)
    requires rest != []
    ensures out + rest == out + [rest[0]] + rest[1..]
  {
  }

  // ---------- Grouping ----------

  /** Pairs come in the order of their document keys. */
  ghost predicate Ordered(s: Span, reverse: bool) {
    forall i, j :: 0 <= i < j < |s| ==> s[i].doc == s[j].doc || Comes(s[i].doc, s[j].doc, reverse)
  }

  ghost predicate OneValuePerField(s: Span) {
    forall i, j :: 0 <= i < j < |s| && s[i].doc == s[j].doc ==> s[i].field != s[j].field
  }

  ghost predicate KeysComeInOrder(ds: seq<Document>, reverse: bool) {
    forall i, j :: 0 <= i < j < |ds| ==> Comes(ds[i].key, ds[j].key, reverse)
  }

  lemma ComesTransitive(a: Bytes, b: Bytes, c: Bytes, reverse: bool)
    requires Comes(a, b, reverse) && Comes(b, c, reverse)
    ensures Comes(a, c, reverse)
  {
    if reverse { LessTransitive(c, b, a); } else { LessTransitive(a, b, c); }
  }

  lemma ComesIrreflexive(a: Bytes, reverse: bool)
    ensures !Comes(a, a, reverse)
  {
    LessIrreflexive(a);
  }

  lemma {:induction false} DocumentKeys(s: Span, d: Document)
    requires d in Documents(s)
    ensures exists kv :: kv in s && kv.doc == d.key
    decreases |s|
  {
    var n := GroupLen(s);
    if d == DocumentOf(s[..n]) {
      assert s[0] in s;
    } else {
      DocumentKeys(s[n..], d);
      var kv :| kv in s[n..] && kv.doc == d.key;
      assert kv in s;
    }
  }

  /** From an ordered stream, each document key comes once, in order. */
  lemma {:induction false} DocumentsInOrder(s: Span, reverse: bool)
    requires Ordered(s, reverse)
    ensures KeysComeInOrder(Documents(s), reverse)
    decreases |s|
  {
    GroupIs(s);
    if s != [] {
      var n := GroupLen(s);
      DocumentsInOrder(s[n..], reverse);
      forall d | d in Documents(s[n..]) ensures Comes(s[0].doc, d.key, reverse) {
        DocumentKeys(s[n..], d);
        var k :| n <= k < |s| && s[k].doc == d.key;
        if n < k && s[k].doc == s[0].doc {
          ComesIrreflexive(s[0].doc, reverse);
          if Comes(s[0].doc, s[n].doc, reverse) && Comes(s[n].doc, s[k].doc, reverse) {
            ComesTransitive(s[0].doc, s[n].doc, s[k].doc, reverse);
          }
        }
      }
      assert Documents(s) == [DocumentOf(s[..n])] + Documents(s[n..]);
    }
  }

  lemma {:induction false} PropertiesAre(s: Span, f: nat)
    ensures f in Properties(s) ==>
              exists kv :: kv in s && !IsMarker(kv) && kv.field == Some(f) && kv.value == Properties(s)[f]
    ensures (exists kv :: kv in s && !IsMarker(kv) && kv.field == Some(f)) ==> f in Properties(s)
  {
    if s != [] {
      var init, last := s[..|s| - 1], s[|s| - 1];
      PropertiesAre(init, f);
      assert s == init + [last];
      if f in Properties(init) {
        var kv :| kv in init && !IsMarker(kv) && kv.field == Some(f) && kv.value == Properties(init)[f];
        assert kv in s;
      }
      assert last in s;
    }
  }

  /** All the fields of a document, and only those, are in the document that the stream yields for it. */
  lemma {:induction false} DocumentsAreComplete(s: Span, reverse: bool, kv: KeyValue)
    requires Ordered(s, reverse) && OneValuePerField(s) && kv in s && !IsMarker(kv) && kv.field.Some?
    ensures exists d :: d in Documents(s) && d.key == kv.doc
                        && kv.field.value in d.properties && d.properties[kv.field.value] == kv.value
    decreases |s|
  {
    GroupIs(s);
    var n := GroupLen(s);
    var i :| 0 <= i < |s| && s[i] == kv;
    var group := s[..n];
    if i < n {
      var d, f := DocumentOf(group), kv.field.value;
      assert group[i] == kv;
      PropertiesAre(group, f);
      var kv' :| kv' in group && !IsMarker(kv') && kv'.field == Some(f) && kv'.value == Properties(group)[f];
      var j :| 0 <= j < n && s[j] == kv';
      assert i == j;
      assert d == Documents(s)[0];
    } else {
      assert s[n..][i - n] == kv;
      DocumentsAreComplete(s[n..], reverse, kv);
      var d :| d in Documents(s[n..]) && d.key == kv.doc
               && kv.field.value in d.properties && d.properties[kv.field.value] == kv.value;
      assert d in Documents(s);
    }
  }

  lemma {:induction false} DocumentsAreSound(s: Span, d: Document, f: nat)
    requires d in Documents(s) && f in d.properties
    ensures exists kv :: kv in s && kv.doc == d.key && kv.field == Some(f) && kv.value == d.properties[f]
    decreases |s|
  {
    GroupIs(s);
    var n := GroupLen(s);
    if d == DocumentOf(s[..n]) {
      PropertiesAre(s[..n], f);
      var kv :| kv in s[..n] && !IsMarker(kv) && kv.field == Some(f) && kv.value == d.properties[f];
      assert kv in s;
    } else {
      DocumentsAreSound(s[n..], d, f);
      var kv :| kv in s[n..] && kv.doc == d.key && kv.field == Some(f) && kv.value == d.properties[f];
      assert kv in s;
    }
  }

  // ---------- Merging ----------

  /** The merge holds every active and every deleted document, with its status, and nothing else. */
  lemma {:induction false} MergedHasAll(a: seq<Document>, d: seq<Document>, reverse: bool, x: Fetched)
    ensures x in Merged(a, d, reverse) <==> x.doc in (if x.status == Active then a else d)
    ensures |Merged(a, d, reverse)| == |a| + |d|
    decreases |a| + |d|
  {
    if d != [] && (a == [] || Comes(d[0].key, a[0].key, reverse)) {
      MergedHasAll(a, d[1..], reverse, x);
      assert d == [d[0]] + d[1..];
    } else if a != [] {
      MergedHasAll(a[1..], d, reverse, x);
      assert a == [a[0]] + a[1..];
    }
  }

  ghost predicate FetchedInOrder(fs: seq<Fetched>, reverse: bool) {
    forall i, j :: 0 <= i < j < |fs| ==> Comes(fs[i].doc.key, fs[j].doc.key, reverse)
  }

  /** If both streams are in order and share no key, so is the merge. */
  lemma {:induction false} MergedInOrder(a: seq<Document>, d: seq<Document>, reverse: bool)
    requires KeysComeInOrder(a, reverse) && KeysComeInOrder(d, reverse)
    requires forall x, y :: x in a && y in d ==> x.key != y.key
    ensures FetchedInOrder(Merged(a, d, reverse), reverse)
    decreases |a| + |d|
  {
    if d != [] && (a == [] || Comes(d[0].key, a[0].key, reverse)) {
      MergedInOrder(a, d[1..], reverse);
      FirstComes(d[0], a, d[1..], reverse);
    } else if a != [] {
      MergedInOrder(a[1..], d, reverse);
      if d != [] {
        assert a[0] in a && d[0] in d;
        LessTotal(a[0].key, d[0].key);
      }
      FirstComes(a[0], a[1..], d, reverse);
    }
  }

  lemma FirstComes(x: Document, a: seq<Document>, d: seq<Document>, reverse: bool)
    requires KeysComeInOrder(a, reverse) && KeysComeInOrder(d, reverse)
    requires a != [] ==> Comes(x.key, a[0].key, reverse)
    requires d != [] ==> Comes(x.key, d[0].key, reverse)
    ensures forall y :: y in Merged(a, d, reverse) ==> Comes(x.key, y.doc.key, reverse)
  {
    forall y | y in Merged(a, d, reverse) ensures Comes(x.key, y.doc.key, reverse) {
      MergedHasAll(a, d, reverse, y);
      var s := if y.status == Active then a else d;
      var i :| 0 <= i < |s| && s[i] == y.doc;
      if i > 0 {
        ComesTransitive(x.key, s[0].key, s[i].key, reverse);
      }
    }
  }

  lemma MergedIsOrderedUnion(active: Span, deleted: Span, reverse: bool, x: Fetched)
    requires Ordered(active, reverse) && Ordered(deleted, reverse)
    requires forall a, b :: a in active && b in deleted ==> a.doc != b.doc
    ensures FetchedInOrder(Merged(Documents(active), Documents(deleted), reverse), reverse)
    ensures x in Merged(Documents(active), Documents(deleted), reverse)
            <==> x.doc in Documents(if x.status == Active then active else deleted)
  {
    DocumentsInOrder(active, reverse);
    DocumentsInOrder(deleted, reverse);
    forall d, e | d in Documents(active) && e in Documents(deleted) ensures d.key != e.key {
      DocumentKeys(active, d);
      DocumentKeys(deleted, e);
    }
    MergedInOrder(Documents(active), Documents(deleted), reverse);
    MergedHasAll(Documents(active), Documents(deleted), reverse, x);
  }

  // ---------- Spans that share a document ----------

  /** A document goes on in the next span: the last pair of one and the first pair of the other are of it. */
  predicate GoesOn(cs: seq<Span>, i: nat)
    requires NoneEmpty(cs) && i + 1 < |cs|
  {
    cs[i][|cs[i]| - 1].doc == cs[i + 1][0].doc
  }

  /** The condition on the spans: no document goes on in the next one. */
  ghost predicate NoneGoesOn(cs: seq<Span>)
    requires NoneEmpty(cs)
  {
    forall i: nat :: i + 1 < |cs| ==> !GoesOn(cs, i)
  }

  /** How many documents go on. */
  function Extra(cs: seq<Span>): nat
    requires NoneEmpty(cs)
  {
    if |cs| < 2 then 0 else (if GoesOn(cs, 0) then 1 else 0) + Extra(cs[1..])
  }

  lemma {:induction false} ExtraIsZero(cs: seq<Span>)
    requires NoneEmpty(cs)
    ensures Extra(cs) == 0 <==> NoneGoesOn(cs)
  {
    if |cs| >= 2 {
      ExtraIsZero(cs[1..]);
      if NoneGoesOn(cs) {
        forall i: nat | i + 1 < |cs[1..]| ensures !GoesOn(cs[1..], i) { assert !GoesOn(cs, i + 1); }
      }
      if !GoesOn(cs, 0) && NoneGoesOn(cs[1..]) {
        forall i: nat | i + 1 < |cs| ensures !GoesOn(cs, i) { assert i > 0 ==> !GoesOn(cs[1..], i - 1); }
      }
    }
  }

  function Joined(cs: seq<Span>): Span { if cs == [] then [] else cs[0] + Joined(cs[1..]) }

  lemma {:induction false} StreamIsJoined(spans: seq<Span>, i: nat)
    requires i <= |spans|
    ensures StreamFrom(spans, i) == Joined(CutsFrom(spans, i))
    decreases |spans| - i
  {
    if i < |spans| {
      StreamIsJoined(spans, i + 1);
      var c, cs := Cut(spans[i]), CutsFrom(spans, i + 1);
      assert ([c] + cs)[1..] == cs;
      assert [] + Joined(cs) == Joined(cs);
    }
  }

  lemma GroupWithin(s: Span, more: Span)
    requires s != [] && (GroupLen(s) == |s| && more != [] ==> more[0].doc != s[0].doc)
    ensures GroupLen(s + more) == GroupLen(s)
    ensures (s + more)[..GroupLen(s)] == s[..GroupLen(s)] && (s + more)[GroupLen(s)..] == s[GroupLen(s)..] + more
  {
    GroupIs(s);
    GroupLenIs(s + more, GroupLen(s));
  }

  lemma JoinedWithoutGroup(cs: seq<Span>)
    requires NoneEmpty(cs) && cs != []
    ensures Joined(WithoutGroup(cs)) == cs[0][GroupLen(cs[0])..] + Joined(cs[1..])
    ensures |cs| > 1 ==> Joined(cs[1..]) != [] && Joined(cs[1..])[0] == cs[1][0]
  {
    var s, n, rest := cs[0], GroupLen(cs[0]), WithoutGroup(cs);
    assert n < |s| ==> rest[1..] == cs[1..];
    assert [] + cs[1..] == cs[1..] && [] + Joined(cs[1..]) == Joined(cs[1..]);
    if |cs| > 1 {
      assert cs[1..][0] == cs[1];
    }
  }

  lemma ExtraSame(cs: seq<Span>, ds: seq<Span>)
    requires NoneEmpty(cs) && NoneEmpty(ds) && |cs| == |ds| > 0 && cs[1..] == ds[1..]
    requires cs[0][|cs[0]| - 1] == ds[0][|ds[0]| - 1]
    ensures Extra(cs) == Extra(ds)
  {
    if |cs| > 1 {
      assert cs[1] == cs[1..][0] && ds[1] == ds[1..][0];
    }
  }

  lemma ExtraWithoutGroup(cs: seq<Span>)
    requires NoneEmpty(cs) && cs != []
    requires GroupLen(cs[0]) == |cs[0]| && |cs| > 1 ==> !GoesOn(cs, 0)
    ensures Extra(WithoutGroup(cs)) == Extra(cs)
  {
    if GroupLen(cs[0]) < |cs[0]| {
      var rest := [cs[0][GroupLen(cs[0])..]] + cs[1..];
      assert rest[1..] == cs[1..];
      ExtraSame(cs, rest);
    } else {
      assert WithoutGroup(cs) == cs[1..];
    }
  }

  /** The leading group of a span is that of the stream, unless it fills the span and goes on. */
  lemma GroupOfJoined(cs: seq<Span>)
    requires NoneEmpty(cs) && cs != []
    requires GroupLen(cs[0]) == |cs[0]| && |cs| > 1 ==> !GoesOn(cs, 0)
    ensures
      var n := GroupLen(cs[0]);
      && GroupLen(Joined(cs)) == n && Joined(cs)[..n] == cs[0][..n] && Joined(cs)[n..] == Joined(WithoutGroup(cs))
      && Extra(WithoutGroup(cs)) == Extra(cs)
  {
    var s := cs[0];
    GroupIs(s);
    JoinedWithoutGroup(cs);
    ExtraWithoutGroup(cs);
    assert s[GroupLen(s) - 1].doc == s[0].doc;
    if |cs| == 1 {
      assert Joined(cs[1..]) == [];
    }
    GroupWithin(s, Joined(cs[1..]));
  }

  /** Pairs of the document that a stream starts with add no document to it. */
  lemma {:induction false} SameDocument(s: Span, t: Span)
    requires t != [] && forall i :: 0 <= i < |s| ==> s[i].doc == t[0].doc
    ensures |Documents(s + t)| == |Documents(t)|
  {
    SameGroup(s, t);
    assert (s + t)[|s| + GroupLen(t)..] == t[GroupLen(t)..];
    SameRest(s + t, t);
  }

  lemma SameRest(x: Span, y: Span)
    requires x != [] && y != [] && x[GroupLen(x)..] == y[GroupLen(y)..]
    ensures |Documents(x)| == |Documents(y)|
  {
  }

  lemma SameGroup(s: Span, t: Span)
    requires t != [] && forall i :: 0 <= i < |s| ==> s[i].doc == t[0].doc
    ensures GroupLen(s + t) == |s| + GroupLen(t)
  {
    var all, n := s + t, GroupLen(t);
    GroupIs(t);
    forall i | 0 <= i < |s| + n ensures all[i].doc == t[0].doc {
      if i >= |s| {
        assert all[i] == t[i - |s|];
      }
    }
    if n < |t| {
      assert all[|s| + n] == t[n];
    }
    GroupLenIs(all, |s| + n);
  }

  /** The fetcher returns as many documents as the stream has, and one more for each that goes on. */
  lemma {:induction false} FetchesTooMany(carry: map<nat, Bytes>, cs: seq<Span>)
    requires NoneEmpty(cs)
    ensures |Fetches(carry, cs)| == |Documents(Joined(cs))| + Extra(cs)
    decreases |cs|, if cs == [] then 0 else |cs[0]|
  {
    if cs != [] {
      GroupIs(cs[0]);
      var s: Span, n: nat, rest: seq<Span> := cs[0], GroupLen(cs[0]), WithoutGroup(cs);
      var doc := Document(s[0].doc, Taken(carry, s, n));
      FetchesTooMany(if rest != [] && rest[0][0].doc == doc.key then doc.properties else map[], rest);
      if n == |s| && |cs| > 1 && GoesOn(cs, 0) {
        assert [] + cs[1..] == cs[1..] && Joined(rest)[0] == cs[1][0];
        SameDocument(s, Joined(rest));
      } else {
        GroupOfJoined(cs);
      }
    }
  }

  lemma {:induction false} FetchesExactly(cs: seq<Span>)
    requires NoneEmpty(cs) && Extra(cs) == 0
    ensures Fetches(map[], cs) == Documents(Joined(cs))
    decreases |cs|, if cs == [] then 0 else |cs[0]|
  {
    if cs != [] {
      GroupIs(cs[0]);
      GroupOfJoined(cs);
      var s: Span, n: nat, rest: seq<Span> := cs[0], GroupLen(cs[0]), WithoutGroup(cs);
      FetchesExactly(rest);
      if n == |s| && |cs| > 1 {
        assert [] + cs[1..] == cs[1..];
      }
      TakenIs(map[], s, n);
      assert rest != [] ==> rest[0][0].doc != s[0].doc;
    }
  }

  /** Fetching the whole stream gives its documents if and only if no document goes on from one span to the next. */
  lemma FetchingIsGroupingExactly(spans: seq<Span>)
    ensures Fetches(map[], Cuts(spans)) == Documents(Stream(spans)) <==> NoneGoesOn(Cuts(spans))
  {
    var cs := Cuts(spans);
    StreamIsJoined(spans, 0);
    ExtraIsZero(cs);
    FetchesTooMany(map[], cs);
    if Extra(cs) == 0 {
      FetchesExactly(cs);
    }
  }

  /** The condition can fail: a document with a field in each of two spans comes twice. */
  lemma SharedDocumentComesTwice(doc: Bytes, v: Bytes, w: Bytes)
    requires v != [OBJECT_MARKER] && w != [OBJECT_MARKER]
    ensures
      var a, b := KeyValue(ValueKey, doc, Some(1), v), KeyValue(ValueKey, doc, Some(2), w);
      && Documents(Stream([[a], [b]])) == [Document(doc, map[1 := v, 2 := w])]
      && Fetches(map[], Cuts([[a], [b]])) == [Document(doc, map[1 := v]), Document(doc, map[1 := v, 2 := w])]
  {
    var a, b := KeyValue(ValueKey, doc, Some(1), v), KeyValue(ValueKey, doc, Some(2), w);
    var spans := [[a], [b]];
    assert Cut([a]) == [a] && Cut([b]) == [b];
    assert StreamFrom(spans, 1) == [b] && Stream(spans) == [a, b];
    assert CutsFrom(spans, 1) == [[b]] && Cuts(spans) == [[a], [b]];
    ComesOnce(a, b);
    ComesTwice(a, b);
  }

  predicate TwoFields(a: KeyValue, b: KeyValue) {
    a.doc == b.doc && a.field == Some(1) && b.field == Some(2) && !IsMarker(a) && !IsMarker(b)
  }

  lemma BothFields(a: KeyValue, b: KeyValue)
    requires TwoFields(a, b)
    ensures WithPairs(map[], [a]) == map[1 := a.value] && WithPairs(map[], [a, b]) == map[1 := a.value, 2 := b.value]
    ensures WithPairs(map[1 := a.value], [b]) == map[1 := a.value, 2 := b.value]
  {
    AddPair(map[], [], a);
    AddPair(map[], [a], b);
    AddPair(map[1 := a.value], [], b);
    assert [] + [a] == [a] && [] + [b] == [b] && [a] + [b] == [a, b];
  }

  lemma ComesOnce(a: KeyValue, b: KeyValue)
    requires TwoFields(a, b)
    ensures Documents([a, b]) == [Document(a.doc, map[1 := a.value, 2 := b.value])]
  {
    BothFields(a, b);
    GroupLenIs([a, b], 2);
    assert [a, b][..2] == [a, b] && [a, b][2..] == [] && Documents([a, b][2..]) == [];
  }

  lemma ComesTwice(a: KeyValue, b: KeyValue)
    requires TwoFields(a, b)
    ensures Fetches(map[], [[a], [b]])
            == [Document(a.doc, map[1 := a.value]), Document(a.doc, map[1 := a.value, 2 := b.value])]
  {
    BothFields(a, b);
    TakenIs(map[], [a], 1);
    TakenIs(map[1 := a.value], [b], 1);
    assert [a][..1] == [a] && [b][..1] == [b];
    assert WithoutGroup([[a], [b]]) == [[b]] && WithoutGroup([[b]]) == [];
    assert Fetches(map[1 := a.value], [[b]]) == [Document(a.doc, map[1 := a.value, 2 := b.value])];
  }

  lemma AddPair(carry: map<nat, Bytes>, s: Span, kv: KeyValue)
    ensures WithPairs(carry, s + [kv]) == WithPair(WithPairs(carry, s), kv)
  {
    assert (s + [kv])[..|s|] == s;
  }

  /**
   If no document goes on from one span to the next, fetching active and deleted documents from ordered streams without
   a common document gives one ordered union, each document with its status.
   */
  lemma FetchingIsOrderedUnion(active: seq<Span>, deleted: seq<Span>, reverse: bool, x: Fetched)
    requires NoneGoesOn(Cuts(active)) && NoneGoesOn(Cuts(deleted))
    requires Ordered(Stream(active), reverse) && Ordered(Stream(deleted), reverse)
    requires forall a, b :: a in Stream(active) && b in Stream(deleted) ==> a.doc != b.doc
    ensures
      var both := Merged(Fetches(map[], Cuts(active)), Fetches(map[], Cuts(deleted)), reverse);
      && FetchedInOrder(both, reverse)
      && (x in both <==> x.doc in Documents(Stream(if x.status == Active then active else deleted)))
  {
    FetchingIsGroupingExactly(active);
    FetchingIsGroupingExactly(deleted);
    MergedIsOrderedUnion(Stream(active), Stream(deleted), reverse, x);
  }
}
