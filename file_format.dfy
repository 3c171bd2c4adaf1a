/** The snapshot codec of src/file_format.rs: a flat stream of tagged
    records, no header and no terminator.

      0x01 global term     len:u16  count:u64  text[len]
      0x02 document title  len:u16  text[len]
      0x03 document path   len:u16  text[len]
      0x04 document term   len:u16  freq:f64   text[len]

    All integers are little-endian. The decoder keeps one open document,
    which a 0x02 record moves into the store; the document still open at
    the end of the input is dropped. */
module FileFormat {
  import opened Bytes
  import opened Index

  const GlobalTermTag: Byte := 0x01
  const TitleTag: Byte := 0x02
  const PathTag: Byte := 0x03
  const DocTermTag: Byte := 0x04

  datatype DecodeError =
    | OutOfOrder                    // a 0x03 or 0x04 record with no open document
    | UnknownTag(tag: Byte, at: nat)  // the tag byte and its offset in the input
    | Truncated                     // a record that runs past the input (a slice panic in the source)

  /** The decoder's state: the store built so far and the open document. */
  datatype Cursor = Cursor(store: TfIdf, open: Option<Document>)

  const Start: Cursor := Cursor(Empty, None)

  /** The store with the open document, if any, moved in under its own title. */
  function Close(c: Cursor): TfIdf
  {
    match c.open
    case None => c.store
    case Some(doc) => c.store.(documents := c.store.documents[doc.title := doc])
  }

  /** The u16 length field of the record at offset i. */
  function LenAt(b: seq<Byte>, i: nat): (n: nat)
    requires i + 3 <= |b|
    ensures n < TWO16
  {
    FieldWidths();
    FromLeBound(b[i + 1..i + 3]);
    FromLe(b[i + 1..i + 3])
  }

  /** The 8-byte field of the 0x01 or 0x04 record at offset i. */
  function WideAt(b: seq<Byte>, i: nat): U64
    requires i + 11 <= |b|
  {
    FieldWidths();
    FromLeBound(b[i + 3..i + 11]);
    FromLe(b[i + 3..i + 11])
  }

  /** The record at offset i of `b`: the new cursor and the record's size. */
  function Step(b: seq<Byte>, i: nat, c: Cursor): (r: Result<(Cursor, nat), DecodeError>)
    requires i < |b|
    ensures r.Ok? ==> 0 < r.value.1 <= |b| - i
    ensures r.Ok? ==>
      && i + 3 <= |b|
      && r.value.1 == (if b[i] == GlobalTermTag || b[i] == DocTermTag then 11 else 3) + LenAt(b, i)
  {
    var tag := b[i];
    if tag == GlobalTermTag then
      if |b| < i + 11 || |b| < i + 11 + LenAt(b, i) then Err(Truncated)
      else
        var n := 11 + LenAt(b, i);
        var g := c.store.globalTermCount[b[i + 11..i + n] := WideAt(b, i)];
        Ok((c.(store := c.store.(globalTermCount := g)), n))
    else if tag == TitleTag then
      if |b| < i + 3 || |b| < i + 3 + LenAt(b, i) then Err(Truncated)
      else
        var n := 3 + LenAt(b, i);
        Ok((Cursor(Close(c), Some(Document(b[i + 3..i + n], [], map[]))), n))
    else if tag == PathTag then
      if c.open.None? then Err(OutOfOrder)
      else if |b| < i + 3 || |b| < i + 3 + LenAt(b, i) then Err(Truncated)
      else
        var n := 3 + LenAt(b, i);
        Ok((c.(open := Some(c.open.value.(path := b[i + 3..i + n]))), n))
    else if tag == DocTermTag then
      if c.open.None? then Err(OutOfOrder)
      else if |b| < i + 11 || |b| < i + 11 + LenAt(b, i) then Err(Truncated)
      else
        var n := 11 + LenAt(b, i);
        var doc := c.open.value;
        Ok((c.(open := Some(doc.(termFrequency := doc.termFrequency[b[i + 11..i + n] := WideAt(b, i)]))), n))
    else
      Err(UnknownTag(tag, i))
  }

  /** Decodes the records of `b` from offset i on, starting from cursor `c`.
      Run, Resume and Apply are one loop cut into three, so that a proof
      unfolding Run does not reach the record decoder by itself. */
  function Run(b: seq<Byte>, i: nat, c: Cursor): Result<Cursor, DecodeError>
    requires i <= |b|
    decreases |b| - i, 2
  {
    if i == |b| then Ok(c) else Resume(b, i, c)
  }

  /** Decodes from offset i on, where a record starts. */
  function Resume(b: seq<Byte>, i: nat, c: Cursor): Result<Cursor, DecodeError>
    requires i < |b|
    decreases |b| - i, 1
  {
    Apply(b, i, c)
  }

  /** Decodes the record at offset i, then the rest. */
  function Apply(b: seq<Byte>, i: nat, c: Cursor): Result<Cursor, DecodeError>
    requires i < |b|
    decreases |b| - i, 0
  {
    match Step(b, i, c)
    case Err(e) => Err(e)
    case Ok((c', n)) => Run(b, i + n, c')
  }

  /** Decoding from offset i is decoding the record there, then the rest. */
  lemma RunStep(b: seq<Byte>, i: nat, c: Cursor)
    requires i < |b|
    ensures Step(b, i, c).Err? ==> Run(b, i, c) == Err(Step(b, i, c).error)
    ensures Step(b, i, c).Ok? ==> Run(b, i, c) == Run(b, i + Step(b, i, c).value.1, Step(b, i, c).value.0)
  {
    assert Run(b, i, c) == Resume(b, i, c);
    assert Resume(b, i, c) == Apply(b, i, c);
  }

  /** `TfIdf::deserialize` as written: the open document is dropped at the end. */
  function Decode(b: seq<Byte>): Result<TfIdf, DecodeError>
  {
    match Run(b, 0, Start)
    case Err(e) => Err(e)
    case Ok(c) => Ok(c.store)
  }

  /** The decoder as evidently intended: the open document is stored at the end too. */
  function DecodeFinalized(b: seq<Byte>): Result<TfIdf, DecodeError>
  {
    match Run(b, 0, Start)
    case Err(e) => Err(e)
    case Ok(c) => Ok(Close(c))
  }

  /** The body of `deserialize`'s loop: dispatches on the tag byte at offset i,
      updates the store or the open document, and returns the record's size. */
  method ReadRecord(b: seq<Byte>, i: nat, tfIdf: TfIdf, document: Option<Document>)
    returns (r: Result<(Cursor, nat), DecodeError>)
    requires i < |b|
    ensures r == Step(b, i, Cursor(tfIdf, document))
  {
    var tfIdf, document := tfIdf, document;
    var offset: nat;
    var c := b[i];
    if c == GlobalTermTag {
      if |b| < i + 11 { return Err(Truncated); }
      var termLen := LenAt(b, i);
      var count := WideAt(b, i);
      offset := 1 + 2 + 8;
      if |b| < i + offset + termLen { return Err(Truncated); }
      var term := b[i + offset..i + offset + termLen];
      tfIdf := tfIdf.(globalTermCount := tfIdf.globalTermCount[term := count]);
      offset := 1 + 2 + 8 + termLen;
    } else if c == TitleTag {
      if document.Some? {
        var doc := document.value;
        document := None;
        tfIdf := tfIdf.(documents := tfIdf.documents[doc.title := doc]);
      }
      if |b| < i + 3 { return Err(Truncated); }
      var titleLen := LenAt(b, i);
      offset := 1 + 2;
      if |b| < i + offset + titleLen { return Err(Truncated); }
      var title := b[i + offset..i + offset + titleLen];
      document := Some(Document(title, [], map[]));
      offset := 1 + 2 + titleLen;
    } else if c == PathTag {
      if document.None? { return Err(OutOfOrder); }
      if |b| < i + 3 { return Err(Truncated); }
      var pathLen := LenAt(b, i);
      offset := 1 + 2;
      if |b| < i + offset + pathLen { return Err(Truncated); }
      var path := b[i + offset..i + offset + pathLen];
      document := Some(document.value.(path := path));
      offset := 1 + 2 + pathLen;
    } else if c == DocTermTag {
      if document.None? { return Err(OutOfOrder); }
      if |b| < i + 11 { return Err(Truncated); }
      var termLen := LenAt(b, i);
      var freq := WideAt(b, i);
      offset := 1 + 2 + 8;
      if |b| < i + offset + termLen { return Err(Truncated); }
      var term := b[i + offset..i + offset + termLen];
      var doc := document.value;
      document := Some(doc.(termFrequency := doc.termFrequency[term := freq]));
      offset := 1 + 2 + 8 + termLen;
    } else {
      return Err(UnknownTag(c, i));
    }
    return Ok((Cursor(tfIdf, document), offset));
  }

  /** `TfIdf::deserialize`: the index-advancing loop with one open document. */
  method Deserialize(b: seq<Byte>) returns (r: Result<TfIdf, DecodeError>)
    ensures r == Decode(b)
    ensures b == [] ==> r == Ok(Empty)
  {
    var tfIdf := Empty;
    var document: Option<Document> := None;
    var i := 0;
    while i < |b|
      invariant i <= |b|
      invariant Run(b, i, Cursor(tfIdf, document)) == Run(b, 0, Start)
    {
      RunStep(b, i, Cursor(tfIdf, document));
      var record := ReadRecord(b, i, tfIdf, document);
      match record
      case Err(e) =>
        return Err(e);
      case Ok((cursor, offset)) =>
        tfIdf, document := cursor.store, cursor.open;
        i := i + offset;
    }
    return Ok(tfIdf);
  }

  // ---------------------------------------------------------------- encoding

  function GlobalTermRecord(term: Text, count: nat): (r: seq<Byte>)
    ensures |r| == 11 + |term|
  {
    [GlobalTermTag] + Le(U16Cast(|term|), 2) + Le(U64Cast(count), 8) + term
  }

  function TitleRecord(title: Text): (r: seq<Byte>)
    ensures |r| == 3 + |title|
  {
    [TitleTag] + Le(U16Cast(|title|), 2) + title
  }

  function PathRecord(path: Text): (r: seq<Byte>)
    ensures |r| == 3 + |path|
  {
    [PathTag] + Le(U16Cast(|path|), 2) + path
  }

  function DocTermRecord(term: Text, freq: F64): (r: seq<Byte>)
    ensures |r| == 11 + |term|
  {
    [DocTermTag] + Le(U16Cast(|term|), 2) + Le(freq, 8) + term
  }

  /** One visit of `for (_, doc) in &self.documents`: the map key, the
      document, and the iteration order of its term map. */
  datatype DocVisit = DocVisit(key: Text, doc: Document, terms: seq<(Text, F64)>)

  /** The HashMap iterations `serialize` performs, as (key, value) pairs. */
  datatype Order = Order(globalTerms: seq<(Text, nat)>, documents: seq<DocVisit>)

  /** The keys of `entries`. */
  function EntryKeys<V>(entries: seq<(Text, V)>): set<Text>
  {
    if entries == [] then {} else EntryKeys(entries[..|entries| - 1]) + {entries[|entries| - 1].0}
  }

  /** The keys of `visits`. */
  function VisitKeys(visits: seq<DocVisit>): set<Text>
  {
    if visits == [] then {} else VisitKeys(visits[..|visits| - 1]) + {visits[|visits| - 1].key}
  }

  /** `entries` is one iteration of `m`: each entry of `m` exactly once. */
  ghost predicate Lists<V>(entries: seq<(Text, V)>, m: map<Text, V>)
  {
    && (forall i, j :: 0 <= i < j < |entries| ==> entries[i].0 != entries[j].0)
    && (forall i :: 0 <= i < |entries| ==> entries[i].0 in m && m[entries[i].0] == entries[i].1)
    && EntryKeys(entries) == m.Keys
  }

  /** `visits` is one iteration of the document map and of every term map. */
  ghost predicate ListsDocuments(visits: seq<DocVisit>, docs: map<Text, Document>)
  {
    && (forall i, j :: 0 <= i < j < |visits| ==> visits[i].key != visits[j].key)
    && (forall i :: 0 <= i < |visits| ==>
          && visits[i].key in docs
          && docs[visits[i].key] == visits[i].doc
          && Lists(visits[i].terms, visits[i].doc.termFrequency))
    && VisitKeys(visits) == docs.Keys
  }

  /** The iterations `order` describes are iterations of `store`'s maps. */
  ghost predicate Listed(store: TfIdf, order: Order)
  {
    Lists(order.globalTerms, store.globalTermCount) && ListsDocuments(order.documents, store.documents)
  }

  /** Every length field and count of the store fits its u16 or u64 field,
      so that no cast in the encoder truncates. */
  ghost predicate Fits(store: TfIdf)
  {
    && (forall t :: t in store.globalTermCount ==> |t| < TWO16 && store.globalTermCount[t] < TWO64)
    && (forall k :: k in store.documents ==> DocumentFits(store.documents[k]))
  }

  ghost predicate DocumentFits(doc: Document)
  {
    && |doc.title| < TWO16
    && |doc.path| < TWO16
    && forall t :: t in doc.termFrequency ==> |t| < TWO16
  }

  function EncodeGlobalTerms(entries: seq<(Text, nat)>): seq<Byte>
  {
    if entries == [] then []
    else
      var (term, count) := entries[|entries| - 1];
      EncodeGlobalTerms(entries[..|entries| - 1]) + GlobalTermRecord(term, count)
  }

  function EncodeDocTerms(entries: seq<(Text, F64)>): seq<Byte>
  {
    if entries == [] then []
    else
      var (term, freq) := entries[|entries| - 1];
      EncodeDocTerms(entries[..|entries| - 1]) + DocTermRecord(term, freq)
  }

  function EncodeDocument(visit: DocVisit): seq<Byte>
  {
    TitleRecord(visit.doc.title) + PathRecord(visit.doc.path) + EncodeDocTerms(visit.terms)
  }

  function EncodeDocuments(visits: seq<DocVisit>): seq<Byte>
  {
    if visits == [] then []
    else EncodeDocuments(visits[..|visits| - 1]) + EncodeDocument(visits[|visits| - 1])
  }

  /** `TfIdf::serialize` as a byte string: every 0x01 record, then for each
      document its 0x02, its 0x03 and one 0x04 per term. */
  function Encode(order: Order): seq<Byte>
  {
    EncodeGlobalTerms(order.globalTerms) + EncodeDocuments(order.documents)
  }

  lemma GlobalTermsPrefix(entries: seq<(Text, nat)>, i: nat)
    requires i < |entries|
    ensures EncodeGlobalTerms(entries[..i + 1])
         == EncodeGlobalTerms(entries[..i]) + GlobalTermRecord(entries[i].0, entries[i].1)
  {
    assert entries[..i + 1][..i] == entries[..i];
  }

  lemma DocTermsPrefix(entries: seq<(Text, F64)>, k: nat)
    requires k < |entries|
    ensures EncodeDocTerms(entries[..k + 1]) == EncodeDocTerms(entries[..k]) + DocTermRecord(entries[k].0, entries[k].1)
  {
    assert entries[..k + 1][..k] == entries[..k];
  }

  lemma DocumentsPrefix(visits: seq<DocVisit>, j: nat)
    requires j < |visits|
    ensures EncodeDocuments(visits[..j + 1]) == EncodeDocuments(visits[..j]) + EncodeDocument(visits[j])
  {
    assert visits[..j + 1][..j] == visits[..j];
  }

  /** Appending pieces one by one appends their concatenation. */
  lemma AppendTwo(x: seq<Byte>, a: seq<Byte>, b: seq<Byte>)
    ensures x + a + b == x + (a + b)
  {
  }

  lemma AppendThree(x: seq<Byte>, a: seq<Byte>, b: seq<Byte>, c: seq<Byte>)
    ensures x + a + b + c == x + (a + b + c)
  {
  }

  lemma AppendFour(x: seq<Byte>, a: seq<Byte>, b: seq<Byte>, c: seq<Byte>, d: seq<Byte>)
    ensures x + a + b + c + d == x + (a + b + c + d)
  {
  }

  /** One 0x01 record appended to `out`. */
  method WriteGlobalTerm(out: seq<Byte>, term: Text, count: nat) returns (r: seq<Byte>)
    ensures r == out + GlobalTermRecord(term, count)
  {
    r := out;
    r := r + [GlobalTermTag];
    r := r + Le(U16Cast(|term|), 2);
    r := r + Le(U64Cast(count), 8);
    r := r + term;
    AppendFour(out, [GlobalTermTag], Le(U16Cast(|term|), 2), Le(U64Cast(count), 8), term);
  }

  /** The body of `serialize`'s document loop: one 0x02, one 0x03 and one
      0x04 record per term, appended to `out`. */
  method WriteDocument(out: seq<Byte>, visit: DocVisit) returns (r: seq<Byte>)
    ensures r == out + EncodeDocument(visit)
  {
    var doc := visit.doc;
    r := out;
    r := r + [TitleTag];
    r := r + Le(U16Cast(|doc.title|), 2);
    r := r + doc.title;
    r := r + [PathTag];
    r := r + Le(U16Cast(|doc.path|), 2);
    r := r + doc.path;
    AppendThree(out, [TitleTag], Le(U16Cast(|doc.title|), 2), doc.title);
    AppendThree(out + TitleRecord(doc.title), [PathTag], Le(U16Cast(|doc.path|), 2), doc.path);
    ghost var head := r;
    var terms := visit.terms;
    assert head == out + (TitleRecord(doc.title) + PathRecord(doc.path));
    for k := 0 to |terms|
      invariant r == head + EncodeDocTerms(terms[..k])
    {
      var (term, freq) := terms[k];
      ghost var prior := r;
      r := r + [DocTermTag];
      r := r + Le(U16Cast(|term|), 2);
      r := r + Le(freq, 8);
      r := r + term;
      AppendFour(prior, [DocTermTag], Le(U16Cast(|term|), 2), Le(freq, 8), term);
      DocTermsPrefix(terms, k);
      AppendTwo(head, EncodeDocTerms(terms[..k]), DocTermRecord(term, freq));
    }
    assert terms[..|terms|] == terms;
    AppendThree(out, TitleRecord(doc.title), PathRecord(doc.path), EncodeDocTerms(terms));
  }

  /** `TfIdf::serialize`: the global terms, then the documents, appended to an
      initially empty writer. `order` is what iterating the store's HashMaps
      yields (Listed(store, order) for the store being written); the encoder
      reads nothing else. */
  method Serialize(order: Order) returns (out: seq<Byte>)
    ensures out == Encode(order)
  {
    out := [];
    var terms := order.globalTerms;
    for i := 0 to |terms|
      invariant out == EncodeGlobalTerms(terms[..i])
    {
      var (term, count) := terms[i];
      out := WriteGlobalTerm(out, term, count);
      GlobalTermsPrefix(terms, i);
    }
    assert terms[..|terms|] == terms;
    ghost var globals := out;
    var visits := order.documents;
    for j := 0 to |visits|
      invariant out == globals + EncodeDocuments(visits[..j])
    {
      out := WriteDocument(out, visits[j]);
      DocumentsPrefix(visits, j);
      AppendTwo(globals, EncodeDocuments(visits[..j]), EncodeDocument(visits[j]));
    }
    assert visits[..|visits|] == visits;
  }
}
