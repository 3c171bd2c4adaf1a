/** What the decoder makes of the encoder's output, record by record and
    then for a whole snapshot, plus the error and prefix behaviour of the
    decoder of src/file_format.rs. */
module RoundTrip {
  import opened Bytes
  import opened Index
  import opened FileFormat

  // ------------------------------------------------------------ slicing

  /** A window of `b` holding x + y holds x, then y. */
  lemma Split(b: seq<Byte>, i: nat, x: seq<Byte>, y: seq<Byte>)
    requires i + |x| + |y| <= |b|
    requires b[i..i + |x| + |y|] == x + y
    ensures b[i..i + |x|] == x
    ensures b[i + |x|..i + |x| + |y|] == y
  {
    assert b[i..i + |x|] == b[i..i + |x| + |y|][..|x|];
    assert b[i + |x|..i + |x| + |y|] == b[i..i + |x| + |y|][|x|..];
  }

  /** `b` holds `x` at offset i. */
  ghost predicate At(b: seq<Byte>, i: nat, x: seq<Byte>)
    decreases |x|, 1
  {
    i + |x| <= |b| && Holds(b, i, x)
  }

  /** The bytes of `x` are those of `b` from offset i on. */
  ghost predicate Holds(b: seq<Byte>, i: nat, x: seq<Byte>)
    requires i + |x| <= |b|
    decreases |x|, 0
  {
    x == [] || (b[i] == x[0] && At(b, i + 1, x[1..]))
  }

  lemma {:induction false} AtSlice(b: seq<Byte>, i: nat, x: seq<Byte>)
    ensures At(b, i, x) <==> i + |x| <= |b| && b[i..i + |x|] == x
    decreases |x|
  {
    if x != [] && i + |x| <= |b| {
      AtSlice(b, i + 1, x[1..]);
      assert At(b, i, x) == Holds(b, i, x);
      assert b[i..i + |x|] == [b[i]] + b[i + 1..i + |x|];
      assert x == [x[0]] + x[1..];
    }
  }

  /** `b` holding x + y at offset i holds x there, then y. */
  lemma AtSplit(b: seq<Byte>, i: nat, x: seq<Byte>, y: seq<Byte>)
    requires At(b, i, x + y)
    ensures At(b, i, x) && At(b, i + |x|, y)
  {
    AtSlice(b, i, x + y);
    Split(b, i, x, y);
    AtSlice(b, i, x);
    AtSlice(b, i + |x|, y);
  }

  /** Reading an encoded length or count back gives the value. */
  lemma ReadBack(n: nat, k: nat)
    requires k == 2 || k == 8
    requires k == 2 ==> n < TWO16
    requires k == 8 ==> n < TWO64
    ensures FromLe(Le(n, k)) == n
  {
    FieldWidths();
    FromLeLe(n, k);
  }

  // ------------------------------------------------------ single records

  /** A 0x01 record for a term under 65 536 bytes is 11 + |term| bytes long
      and sets the term's global count, replacing any earlier count. */
  lemma StepGlobalTerm(b: seq<Byte>, i: nat, c: Cursor, term: Text, count: nat)
    requires |term| < TWO16 && count < TWO64
    requires i + 11 + |term| <= |b|
    requires b[i..i + 11 + |term|] == GlobalTermRecord(term, count)
    ensures Step(b, i, c)
         == Ok((c.(store := c.store.(globalTermCount := c.store.globalTermCount[term := count])), 11 + |term|))
  {
    var len, wide := Le(|term|, 2), Le(count, 8);
    Split(b, i, [GlobalTermTag] + len + wide, term);
    Split(b, i, [GlobalTermTag] + len, wide);
    Split(b, i, [GlobalTermTag], len);
    ReadBack(|term|, 2);
    ReadBack(count, 8);
  }

  /** A 0x02 record closes the open document and opens a fresh one with the
      record's title, an empty path and no terms. */
  lemma StepTitle(b: seq<Byte>, i: nat, c: Cursor, title: Text)
    requires |title| < TWO16
    requires i + 3 + |title| <= |b|
    requires b[i..i + 3 + |title|] == TitleRecord(title)
    ensures Step(b, i, c) == Ok((Cursor(Close(c), Some(Document(title, [], map[]))), 3 + |title|))
  {
    Split(b, i, [TitleTag] + Le(|title|, 2), title);
    Split(b, i, [TitleTag], Le(|title|, 2));
    ReadBack(|title|, 2);
  }

  /** A 0x03 record sets the path of the open document. */
  lemma StepPath(b: seq<Byte>, i: nat, c: Cursor, path: Text)
    requires c.open.Some?
    requires |path| < TWO16
    requires i + 3 + |path| <= |b|
    requires b[i..i + 3 + |path|] == PathRecord(path)
    ensures Step(b, i, c) == Ok((c.(open := Some(c.open.value.(path := path))), 3 + |path|))
  {
    Split(b, i, [PathTag] + Le(|path|, 2), path);
    Split(b, i, [PathTag], Le(|path|, 2));
    ReadBack(|path|, 2);
  }

  /** A 0x04 record sets one term frequency of the open document. */
  lemma StepDocTerm(b: seq<Byte>, i: nat, c: Cursor, term: Text, freq: F64)
    requires c.open.Some?
    requires |term| < TWO16
    requires i + 11 + |term| <= |b|
    requires b[i..i + 11 + |term|] == DocTermRecord(term, freq)
    ensures Step(b, i, c)
         == Ok((c.(open := Some(c.open.value.(termFrequency := c.open.value.termFrequency[term := freq]))), 11 + |term|))
  {
    var len, wide := Le(|term|, 2), Le(freq, 8);
    Split(b, i, [DocTermTag] + len + wide, term);
    Split(b, i, [DocTermTag] + len, wide);
    Split(b, i, [DocTermTag], len);
    ReadBack(|term|, 2);
    ReadBack(freq, 8);
  }

  lemma RunGlobalTerm(b: seq<Byte>, i: nat, c: Cursor, term: Text, count: nat)
    requires |term| < TWO16 && count < TWO64
    requires At(b, i, GlobalTermRecord(term, count))
    ensures Run(b, i, c)
         == Run(b, i + 11 + |term|, c.(store := c.store.(globalTermCount := c.store.globalTermCount[term := count])))
  {
    AtSlice(b, i, GlobalTermRecord(term, count));
    StepGlobalTerm(b, i, c, term, count);
    RunStep(b, i, c);
  }

  lemma RunDocTerm(b: seq<Byte>, i: nat, c: Cursor, term: Text, freq: F64)
    requires c.open.Some?
    requires |term| < TWO16
    requires At(b, i, DocTermRecord(term, freq))
    ensures Run(b, i, c)
         == Run(b, i + 11 + |term|, c.(open := Some(c.open.value.(termFrequency := c.open.value.termFrequency[term := freq]))))
  {
    AtSlice(b, i, DocTermRecord(term, freq));
    StepDocTerm(b, i, c, term, freq);
    RunStep(b, i, c);
  }

  lemma RunTitle(b: seq<Byte>, i: nat, c: Cursor, title: Text)
    requires |title| < TWO16
    requires At(b, i, TitleRecord(title))
    ensures Run(b, i, c) == Run(b, i + 3 + |title|, Cursor(Close(c), Some(Document(title, [], map[]))))
  {
    AtSlice(b, i, TitleRecord(title));
    StepTitle(b, i, c, title);
    RunStep(b, i, c);
  }

  lemma RunPath(b: seq<Byte>, i: nat, c: Cursor, path: Text)
    requires c.open.Some?
    requires |path| < TWO16
    requires At(b, i, PathRecord(path))
    ensures Run(b, i, c) == Run(b, i + 3 + |path|, c.(open := Some(c.open.value.(path := path))))
  {
    AtSlice(b, i, PathRecord(path));
    StepPath(b, i, c, path);
    RunStep(b, i, c);
  }

  /** The u16 cast of src/file_format.rs:101, 107, 110 and 114: a text of
      65 536 bytes or more gets a length field of |t| mod 65 536, so the
      decoder takes its record to end early. */
  lemma LengthFieldTruncates(title: Text, c: Cursor)
    requires |title| >= TWO16
    ensures LenAt(TitleRecord(title), 0) == |title| % TWO16
    ensures Step(TitleRecord(title), 0, c).Ok?
    ensures Step(TitleRecord(title), 0, c).value.1 == 3 + |title| % TWO16 < |TitleRecord(title)|
  {
    var b := TitleRecord(title);
    Split(b, 0, [TitleTag] + Le(U16Cast(|title|), 2), title);
    Split(b, 0, [TitleTag], Le(U16Cast(|title|), 2));
    ReadBack(U16Cast(|title|), 2);
  }

  // ---------------------------------------------------- runs of records

  /** The map `m` after inserting `entries` in order: later entries win. */
  function PutAll<V>(m: map<Text, V>, entries: seq<(Text, V)>): (r: map<Text, V>)
    ensures forall i :: 0 <= i < |entries| ==> entries[i].0 in r
    ensures forall k :: k in m ==> k in r
  {
    if entries == [] then m
    else
      var last := entries[|entries| - 1];
      PutAll<V>(m, entries[..|entries| - 1])[last.0 := last.1]
  }

  predicate GlobalsFit(entries: seq<(Text, nat)>)
  {
    forall i :: 0 <= i < |entries| ==> |entries[i].0| < TWO16 && entries[i].1 < TWO64
  }

  predicate TermsFit(entries: seq<(Text, F64)>)
  {
    forall i :: 0 <= i < |entries| ==> |entries[i].0| < TWO16
  }

  /** The 0x01 records of `entries` set the store's global counts to `entries`. */
  lemma {:induction false} RunGlobalTerms(b: seq<Byte>, i: nat, c: Cursor, entries: seq<(Text, nat)>)
    requires GlobalsFit(entries)
    requires At(b, i, EncodeGlobalTerms(entries))
    ensures Run(b, i, c)
         == Run(b, i + |EncodeGlobalTerms(entries)|,
                c.(store := c.store.(globalTermCount := PutAll<nat>(c.store.globalTermCount, entries))))
  {
    if entries != [] {
      var init, last := entries[..|entries| - 1], entries[|entries| - 1];
      var head, rec := EncodeGlobalTerms(init), GlobalTermRecord(last.0, last.1);
      assert GlobalsFit(init) by {
        forall k | 0 <= k < |init| ensures |init[k].0| < TWO16 && init[k].1 < TWO64 {
          assert init[k] == entries[k];
        }
      }
      assert EncodeGlobalTerms(entries) == head + rec;
      AtSplit(b, i, head, rec);
      RunGlobalTerms(b, i, c, init);
      var before := PutAll<nat>(c.store.globalTermCount, init);
      assert PutAll<nat>(c.store.globalTermCount, entries) == before[last.0 := last.1];
      RunGlobalTerm(b, i + |head|, c.(store := c.store.(globalTermCount := before)), last.0, last.1);
    }
  }

  /** The 0x04 records of `entries` set the open document's frequencies. */
  lemma {:induction false} RunDocTerms(b: seq<Byte>, i: nat, c: Cursor, entries: seq<(Text, F64)>)
    requires c.open.Some?
    requires TermsFit(entries)
    requires At(b, i, EncodeDocTerms(entries))
    ensures Run(b, i, c)
         == Run(b, i + |EncodeDocTerms(entries)|,
                c.(open := Some(c.open.value.(termFrequency := PutAll<F64>(c.open.value.termFrequency, entries)))))
  {
    if entries != [] {
      var init, last := entries[..|entries| - 1], entries[|entries| - 1];
      var head, rec := EncodeDocTerms(init), DocTermRecord(last.0, last.1);
      assert TermsFit(init) by {
        forall k | 0 <= k < |init| ensures |init[k].0| < TWO16 {
          assert init[k] == entries[k];
        }
      }
      assert EncodeDocTerms(entries) == head + rec;
      AtSplit(b, i, head, rec);
      RunDocTerms(b, i, c, init);
      var doc := c.open.value;
      var before := PutAll<F64>(doc.termFrequency, init);
      assert PutAll<F64>(doc.termFrequency, entries) == before[last.0 := last.1];
      RunDocTerm(b, i + |head|, c.(open := Some(doc.(termFrequency := before))), last.0, last.1);
    }
  }

  /** The document a decoder rebuilds from one visit's records. */
  function Reread(visit: DocVisit): Document
  {
    Document(visit.doc.title, visit.doc.path, PutAll<F64>(map[], visit.terms))
  }

  predicate VisitFits(visit: DocVisit)
  {
    |visit.doc.title| < TWO16 && |visit.doc.path| < TWO16 && TermsFit(visit.terms)
  }

  /** One document's records close the open document and leave the
      reread document open. */
  lemma RunDocument(b: seq<Byte>, i: nat, c: Cursor, visit: DocVisit)
    requires VisitFits(visit)
    requires At(b, i, EncodeDocument(visit))
    ensures Run(b, i, c) == Run(b, i + |EncodeDocument(visit)|, Cursor(Close(c), Some(Reread(visit))))
  {
    var doc := visit.doc;
    var title, path, terms := TitleRecord(doc.title), PathRecord(doc.path), EncodeDocTerms(visit.terms);
    AtSplit(b, i, title + path, terms);
    AtSplit(b, i, title, path);
    RunTitle(b, i, c, doc.title);
    var c1 := Cursor(Close(c), Some(Document(doc.title, [], map[])));
    assert R1: Run(b, i, c) == Run(b, i + |title|, c1);
    RunPath(b, i + |title|, c1, doc.path);
    var c2 := Cursor(Close(c), Some(Document(doc.title, doc.path, map[])));
    assert R2: Run(b, i + |title|, c1) == Run(b, i + |title| + |path|, c2);
    RunDocTerms(b, i + |title| + |path|, c2, visit.terms);
    var c3 := Cursor(Close(c), Some(Reread(visit)));
    assert R3: Run(b, i + |title| + |path|, c2) == Run(b, i + |title| + |path| + |terms|, c3);
    assert R4: i + |title| + |path| + |terms| == i + |EncodeDocument(visit)|;
  }

  /** The cursor after the records of `visits`, starting from `c`. */
  function AfterDocuments(c: Cursor, visits: seq<DocVisit>): (r: Cursor)
    ensures visits != [] ==> r.open.Some?
  {
    if visits == [] then c
    else Cursor(Close(AfterDocuments(c, visits[..|visits| - 1])), Some(Reread(visits[|visits| - 1])))
  }

  predicate VisitsFit(visits: seq<DocVisit>)
  {
    forall j :: 0 <= j < |visits| ==> VisitFits(visits[j])
  }

  lemma {:induction false} RunDocuments(b: seq<Byte>, i: nat, c: Cursor, visits: seq<DocVisit>)
    requires VisitsFit(visits)
    requires At(b, i, EncodeDocuments(visits))
    ensures Run(b, i, c) == Run(b, i + |EncodeDocuments(visits)|, AfterDocuments(c, visits))
  {
    if visits != [] {
      var init, last := visits[..|visits| - 1], visits[|visits| - 1];
      var head := EncodeDocuments(init);
      assert VisitsFit(init) by {
        forall j | 0 <= j < |init| ensures VisitFits(init[j]) {
          assert init[j] == visits[j];
        }
      }
      AtSplit(b, i, head, EncodeDocument(last));
      RunDocuments(b, i, c, init);
      RunDocument(b, i + |head|, AfterDocuments(c, init), last);
    }
  }

  /** Decoding an encoding visits every record: the final cursor holds the
      global counts and every document but the last one visited, which is
      still open. */
  lemma DecodeEncoding(order: Order)
    requires GlobalsFit(order.globalTerms) && VisitsFit(order.documents)
    ensures Run(Encode(order), 0, Start)
         == Ok(AfterDocuments(Cursor(TfIdf(PutAll<nat>(map[], order.globalTerms), map[]), None), order.documents))
  {
    var b := Encode(order);
    var g, d := EncodeGlobalTerms(order.globalTerms), EncodeDocuments(order.documents);
    AtSlice(b, 0, b);
    AtSplit(b, 0, g, d);
    RunGlobalTerms(b, 0, Start, order.globalTerms);
    RunDocuments(b, |g|, Cursor(TfIdf(PutAll<nat>(map[], order.globalTerms), map[]), None), order.documents);
  }

  // -------------------------------------------- from iterations to maps

  /** Inserting entries adds exactly their keys. */
  lemma {:induction false} PutAllKeys<V>(m: map<Text, V>, entries: seq<(Text, V)>)
    ensures PutAll<V>(m, entries).Keys == m.Keys + EntryKeys(entries)
  {
    if entries != [] {
      PutAllKeys(m, entries[..|entries| - 1]);
    }
  }

  /** Inserting entries that agree with `m` gives values that agree with `m`. */
  lemma {:induction false} PutAllAgrees<V>(entries: seq<(Text, V)>, m: map<Text, V>)
    requires forall i :: 0 <= i < |entries| ==> entries[i].0 in m && m[entries[i].0] == entries[i].1
    ensures forall k :: k in PutAll<V>(map[], entries) ==> k in m && PutAll<V>(map[], entries)[k] == m[k]
  {
    if entries != [] {
      var init := entries[..|entries| - 1];
      forall i | 0 <= i < |init| ensures init[i].0 in m && m[init[i].0] == init[i].1 {
        assert init[i] == entries[i];
      }
      PutAllAgrees(init, m);
    }
  }

  /** Inserting every entry of a listing of `m` into an empty map gives `m`. */
  lemma PutAllLists<V>(entries: seq<(Text, V)>, m: map<Text, V>)
    requires Lists(entries, m)
    ensures PutAll<V>(map[], entries) == m
  {
    PutAllKeys<V>(map[], entries);
    PutAllAgrees(entries, m);
  }

  /** A key no visit carries is not among the visited keys. */
  lemma {:induction false} NotVisited(visits: seq<DocVisit>, k: Text)
    requires forall j :: 0 <= j < |visits| ==> visits[j].key != k
    ensures k !in VisitKeys(visits)
  {
    if visits != [] {
      var init := visits[..|visits| - 1];
      forall j | 0 <= j < |init| ensures init[j].key != k {
        assert init[j] == visits[j];
      }
      NotVisited(init, k);
    }
  }

  /** Every visit is consistent with `docs`: stored under its key, which is
      the document's title, with its term map listed. */
  ghost predicate VisitsAgree(visits: seq<DocVisit>, docs: map<Text, Document>)
  {
    forall j :: 0 <= j < |visits| ==>
      && visits[j].key in docs
      && docs[visits[j].key] == visits[j].doc
      && visits[j].doc.title == visits[j].key
      && Lists(visits[j].terms, visits[j].doc.termFrequency)
  }

  /** After closing, the documents of `visits` are those of `docs` under
      the visited keys. */
  lemma {:induction false} ClosedDocuments(c: Cursor, visits: seq<DocVisit>, docs: map<Text, Document>)
    requires c == Cursor(TfIdf(c.store.globalTermCount, map[]), None)
    requires VisitsAgree(visits, docs)
    ensures AfterDocuments(c, visits).store.globalTermCount == c.store.globalTermCount
    ensures Close(AfterDocuments(c, visits)).documents.Keys == VisitKeys(visits)
    ensures forall k :: k in Close(AfterDocuments(c, visits)).documents ==>
              k in docs && Close(AfterDocuments(c, visits)).documents[k] == docs[k]
  {
    if visits != [] {
      var init, last := visits[..|visits| - 1], visits[|visits| - 1];
      assert VisitsAgree(init, docs) by {
        forall j | 0 <= j < |init| ensures init[j] == visits[j] { }
      }
      ClosedDocuments(c, init, docs);
      PutAllLists(last.terms, last.doc.termFrequency);
      assert Reread(last) == last.doc;
    }
  }

  lemma ListedAgrees(store: TfIdf, order: Order)
    requires Listed(store, order) && WellKeyed(store) && Fits(store)
    ensures GlobalsFit(order.globalTerms) && VisitsFit(order.documents)
    ensures VisitsAgree(order.documents, store.documents)
    ensures PutAll<nat>(map[], order.globalTerms) == store.globalTermCount
  {
    PutAllLists(order.globalTerms, store.globalTermCount);
    forall j | 0 <= j < |order.documents| ensures VisitFits(order.documents[j]) {
      var v := order.documents[j];
      assert DocumentFits(store.documents[v.key]);
      forall i | 0 <= i < |v.terms| ensures |v.terms[i].0| < TWO16 {
        assert v.terms[i].0 in v.doc.termFrequency;
      }
    }
  }

  // ------------------------------------------------------- round trips

  /** What both decoders return on an encoding: the cursor after every
      visit, without and with its open document closed. */
  lemma DecodedStores(store: TfIdf, order: Order)
    requires Listed(store, order) && WellKeyed(store) && Fits(store)
    ensures Decode(Encode(order))
         == Ok(AfterDocuments(Cursor(TfIdf(store.globalTermCount, map[]), None), order.documents).store)
    ensures DecodeFinalized(Encode(order))
         == Ok(Close(AfterDocuments(Cursor(TfIdf(store.globalTermCount, map[]), None), order.documents)))
  {
    ListedAgrees(store, order);
    DecodeEncoding(order);
  }

  /** The documents left after every visit but the last, closed, are the
      listed documents without the last visited key. */
  lemma AllButLast(gtc: map<Text, nat>, visits: seq<DocVisit>, docs: map<Text, Document>)
    requires ListsDocuments(visits, docs) && VisitsAgree(visits, docs)
    requires visits != []
    ensures AfterDocuments(Cursor(TfIdf(gtc, map[]), None), visits).store
         == TfIdf(gtc, docs - {visits[|visits| - 1].key})
  {
    var c0 := Cursor(TfIdf(gtc, map[]), None);
    var init, last := visits[..|visits| - 1], visits[|visits| - 1];
    assert VisitsAgree(init, docs) by {
      forall j | 0 <= j < |init| ensures init[j] == visits[j] { }
    }
    ClosedDocuments(c0, init, docs);
    forall j | 0 <= j < |init| ensures init[j].key != last.key {
      assert init[j] == visits[j];
    }
    NotVisited(init, last.key);
    var got := Close(AfterDocuments(c0, init)).documents;
    assert got.Keys == (docs - {last.key}).Keys;
  }

  /** Every visit, closed, gives back the listed documents. */
  lemma AllClosed(gtc: map<Text, nat>, visits: seq<DocVisit>, docs: map<Text, Document>)
    requires ListsDocuments(visits, docs) && VisitsAgree(visits, docs)
    ensures Close(AfterDocuments(Cursor(TfIdf(gtc, map[]), None), visits)) == TfIdf(gtc, docs)
  {
    var c0 := Cursor(TfIdf(gtc, map[]), None);
    ClosedDocuments(c0, visits, docs);
    assert Close(AfterDocuments(c0, visits)).documents.Keys == docs.Keys;
  }

  /** The decoder as written gives back the global counts exactly and every
      document except the last one the encoder visited. */
  lemma RoundTrip(store: TfIdf, order: Order)
    requires Listed(store, order) && WellKeyed(store) && Fits(store)
    ensures order.documents == [] ==> Decode(Encode(order)) == Ok(store)
    ensures order.documents != [] ==>
      Decode(Encode(order))
        == Ok(store.(documents := store.documents - {order.documents[|order.documents| - 1].key}))
  {
    DecodedStores(store, order);
    ListedAgrees(store, order);
    if order.documents == [] {
      AllClosed(store.globalTermCount, order.documents, store.documents);
    } else {
      AllButLast(store.globalTermCount, order.documents, store.documents);
    }
  }

  /** The finalizing decoder gives back the whole store. */
  lemma RoundTripFinalized(store: TfIdf, order: Order)
    requires Listed(store, order) && WellKeyed(store) && Fits(store)
    ensures DecodeFinalized(Encode(order)) == Ok(store)
  {
    DecodedStores(store, order);
    ListedAgrees(store, order);
    AllClosed(store.globalTermCount, order.documents, store.documents);
  }

  /** The finding at src/file_format.rs:95: a store with a document never
      survives the decoder as written; the last visited document is gone. */
  lemma DecodeLosesLastDocument(store: TfIdf, order: Order)
    requires Listed(store, order) && WellKeyed(store) && Fits(store)
    requires order.documents != []
    ensures Decode(Encode(order)).Ok?
    ensures order.documents[|order.documents| - 1].key !in Decode(Encode(order)).value.documents
    ensures Decode(Encode(order)) != Ok(store)
  {
    RoundTrip(store, order);
    assert order.documents[|order.documents| - 1].key in store.documents;
  }

  // ------------------------------------------------------ error paths

  /** On a longer input the records of a prefix decode the same. */
  lemma {:induction false} RunPrefix(p: seq<Byte>, q: seq<Byte>, i: nat, c: Cursor)
    requires i <= |p|
    requires Run(p, i, c).Ok?
    ensures Run(p + q, i, c) == Run(p + q, |p|, Run(p, i, c).value)
    decreases |p| - i
  {
    if i < |p| {
      var b := p + q;
      RunStep(p, i, c);
      RunStep(b, i, c);
      StepExtends(p, q, i, c);
      var (c', n) := Step(p, i, c).value;
      RunPrefix(p, q, i + n, c');
    }
  }

  /** A record that fits in `p` reads the same in p + q. */
  lemma StepExtends(p: seq<Byte>, q: seq<Byte>, i: nat, c: Cursor)
    requires i < |p|
    requires Step(p, i, c).Ok?
    ensures Step(p + q, i, c) == Step(p, i, c)
  {
    var b := p + q;
    assert b[i] == p[i];
    var n := Step(p, i, c).value.1;
    assert b[i..i + n] == p[i..i + n];
    if p[i] == GlobalTermTag || p[i] == DocTermTag {
      assert b[i + 1..i + 3] == p[i + 1..i + 3];
      assert b[i + 3..i + 11] == p[i + 3..i + 11];
      assert b[i + 11..i + n] == p[i + 11..i + n];
    } else {
      assert b[i + 1..i + 3] == p[i + 1..i + 3];
      assert b[i + 3..i + n] == p[i + 3..i + n];
    }
  }

  /** After a prefix that decodes, a byte that is not a tag aborts the
      whole decode with that byte and its offset. */
  lemma UnknownTagAborts(p: seq<Byte>, x: Byte, rest: seq<Byte>)
    requires Run(p, 0, Start).Ok?
    requires x !in {GlobalTermTag, TitleTag, PathTag, DocTermTag}
    ensures Decode(p + [x] + rest) == Err(UnknownTag(x, |p|))
    ensures DecodeFinalized(p + [x] + rest) == Err(UnknownTag(x, |p|))
  {
    var b := p + ([x] + rest);
    assert p + [x] + rest == b;
    RunPrefix(p, [x] + rest, 0, Start);
    RunStep(b, |p|, Run(p, 0, Start).value);
  }

  /** After a prefix that decodes with no document open, a 0x03 or 0x04
      record aborts the whole decode. */
  lemma OutOfOrderAborts(p: seq<Byte>, x: Byte, rest: seq<Byte>)
    requires Run(p, 0, Start).Ok? && Run(p, 0, Start).value.open.None?
    requires x == PathTag || x == DocTermTag
    ensures Decode(p + [x] + rest) == Err(OutOfOrder)
    ensures DecodeFinalized(p + [x] + rest) == Err(OutOfOrder)
  {
    var b := p + ([x] + rest);
    assert p + [x] + rest == b;
    RunPrefix(p, [x] + rest, 0, Start);
    RunStep(b, |p|, Run(p, 0, Start).value);
  }

  /** Only global-term records leave no document open, so a 0x03 or 0x04
      record right after them is out of order. */
  lemma GlobalTermsLeaveNoneOpen(entries: seq<(Text, nat)>)
    requires GlobalsFit(entries)
    ensures Run(EncodeGlobalTerms(entries), 0, Start).Ok?
    ensures Run(EncodeGlobalTerms(entries), 0, Start).value.open.None?
  {
    var b := EncodeGlobalTerms(entries);
    AtSlice(b, 0, b);
    RunGlobalTerms(b, 0, Start, entries);
  }

  /** Every store the decoder returns keeps each document under its title. */
  lemma {:induction false} RunWellKeyed(b: seq<Byte>, i: nat, c: Cursor)
    requires i <= |b|
    requires WellKeyed(c.store)
    requires Run(b, i, c).Ok?
    ensures WellKeyed(Run(b, i, c).value.store)
    ensures WellKeyed(Close(Run(b, i, c).value))
    decreases |b| - i
  {
    if i == |b| {
      CloseWellKeyed(c);
    } else {
      RunStep(b, i, c);
      var (c', n) := Step(b, i, c).value;
      CloseWellKeyed(c);
      assert WellKeyed(c'.store);
      RunWellKeyed(b, i + n, c');
    }
  }

  lemma CloseWellKeyed(c: Cursor)
    requires WellKeyed(c.store)
    ensures WellKeyed(Close(c))
  {
  }

  lemma DecodeWellKeyed(b: seq<Byte>)
    ensures Decode(b).Ok? ==> WellKeyed(Decode(b).value)
    ensures DecodeFinalized(b).Ok? ==> WellKeyed(DecodeFinalized(b).value)
  {
    if Run(b, 0, Start).Ok? {
      RunWellKeyed(b, 0, Start);
    }
  }
}
