/** `TfIdf::sort_documents` (src/main.rs:69-102): scores every document that
    holds a query term and lists them best first. The floating-point score
    of one term in one document is the parameter `contribution`. */
module Ranking {
  import opened Bytes
  import opened Index

  // ---------------------------------------------------------------- order

  /** Rust's `Ord` on `String`: byte-wise lexicographic, a proper prefix first. */
  predicate TextLess(a: Text, b: Text)
  {
    if a == [] then b != []
    else if b == [] then false
    else a[0] < b[0] || (a[0] == b[0] && TextLess(a[1..], b[1..]))
  }

  lemma {:induction false} TextLessIrreflexive(a: Text)
    ensures !TextLess(a, a)
  {
    if a != [] {
      TextLessIrreflexive(a[1..]);
    }
  }

  lemma {:induction false} TextLessTransitive(a: Text, b: Text, c: Text)
    requires TextLess(a, b) && TextLess(b, c)
    ensures TextLess(a, c)
  {
    if a != [] && b != [] && c != [] && a[0] == b[0] == c[0] {
      TextLessTransitive(a[1..], b[1..], c[1..]);
    }
  }

  lemma {:induction false} TextLessTotal(a: Text, b: Text)
    ensures a == b || TextLess(a, b) || TextLess(b, a)
  {
    if a != [] && b != [] && a[0] == b[0] {
      TextLessTotal(a[1..], b[1..]);
      if a[1..] == b[1..] {
        assert a == [a[0]] + a[1..] && b == [b[0]] + b[1..];
      }
    }
  }

  /** One entry of the result: `(score, path, title)`. */
  datatype Row = Row(score: nat, path: Text, title: Text)

  /** The tuple order of `(u64, String, String)`. */
  predicate RowLess(x: Row, y: Row)
  {
    || x.score < y.score
    || (x.score == y.score && TextLess(x.path, y.path))
    || (x.score == y.score && x.path == y.path && TextLess(x.title, y.title))
  }

  lemma RowLessStrict(x: Row, y: Row, z: Row)
    ensures !RowLess(x, x)
    ensures RowLess(x, y) && RowLess(y, z) ==> RowLess(x, z)
    ensures x == y || RowLess(x, y) || RowLess(y, x)
  {
    TextLessIrreflexive(x.path);
    TextLessIrreflexive(x.title);
    TextLessTotal(x.path, y.path);
    TextLessTotal(x.title, y.title);
    if RowLess(x, y) && RowLess(y, z) {
      if x.path != y.path && TextLess(x.path, y.path) && TextLess(y.path, z.path) {
        TextLessTransitive(x.path, y.path, z.path);
      }
      if x.title != y.title && TextLess(x.title, y.title) && TextLess(y.title, z.title) {
        TextLessTransitive(x.title, y.title, z.title);
      }
    }
  }

  /** `sort_by(|a, b| b.cmp(a))`: no entry is below a later one. */
  ghost predicate Descending(r: seq<Row>)
  {
    forall i, j :: 0 <= i < j < |r| ==> !RowLess(r[i], r[j])
  }

  /** Places x before the first entry below it. */
  function Insert(x: Row, r: seq<Row>): (s: seq<Row>)
    ensures multiset(s) == multiset(r) + multiset{x}
  {
    if r == [] || !RowLess(x, r[0]) then [x] + r
    else
      assert r == [r[0]] + r[1..];
      [r[0]] + Insert(x, r[1..])
  }

  lemma {:induction false} InsertDescending(x: Row, r: seq<Row>)
    requires Descending(r)
    ensures Descending(Insert(x, r))
  {
    var s := Insert(x, r);
    if r == [] || !RowLess(x, r[0]) {
      forall j | 0 < j < |s| ensures !RowLess(x, s[j]) {
        RowLessStrict(x, r[0], s[j]);
        assert s[j] == r[j - 1];
        if j > 1 {
          RowLessStrict(r[0], s[j], x);
          RowLessStrict(x, s[j], r[0]);
        }
      }
    } else {
      var t := r[1..];
      InsertDescending(x, t);
      assert s == [r[0]] + Insert(x, t);
      forall j | 0 < j < |s| ensures !RowLess(r[0], s[j]) {
        assert s[j] in multiset(t) + multiset{x};
        if s[j] != x {
          var k :| 0 <= k < |t| && t[k] == s[j];
          assert t[k] == r[k + 1];
        } else {
          RowLessStrict(r[0], x, r[0]);
        }
      }
    }
  }

  /** `Vec::sort_by` in descending order. */
  function SortDescending(r: seq<Row>): (s: seq<Row>)
    ensures multiset(s) == multiset(r)
  {
    if r == [] then []
    else
      assert r == [r[0]] + r[1..];
      Insert(r[0], SortDescending(r[1..]))
  }

  lemma {:induction false} SortDescendingSorted(r: seq<Row>)
    ensures Descending(SortDescending(r))
  {
    if r != [] {
      SortDescendingSorted(r[1..]);
      InsertDescending(r[0], SortDescending(r[1..]));
    }
  }

  // ------------------------------------------------------------- scoring

  /** `(100000.0 * idf * freq) as u64` with idf computed from the number of
      documents and the number of documents holding the term: abstracted as
      a function of those two counts and the stored frequency. */
  type Contribution = (nat, nat, F64) -> nat

  /** `term_contains_all`: how many documents hold term t. */
  function DocFreq(docs: map<Text, Document>, t: Text): nat
  {
    |set k | k in docs && t in docs[k].termFrequency|
  }

  /** The count over the keys `ks`, in their order. */
  function DocFreqIn(docs: map<Text, Document>, ks: seq<Text>, t: Text): nat
  {
    if ks == [] then 0
    else
      var k := ks[|ks| - 1];
      DocFreqIn(docs, ks[..|ks| - 1], t) + (if k in docs && t in docs[k].termFrequency then 1 else 0)
  }

  /** Counting over any enumeration of the documents gives the number of
      documents holding the term. */
  lemma {:induction false} DocFreqCounts(docs: map<Text, Document>, ks: seq<Text>, t: Text)
    requires forall i, j :: 0 <= i < j < |ks| ==> ks[i] != ks[j]
    ensures DocFreqIn(docs, ks, t) == |set k | k in ks && k in docs && t in docs[k].termFrequency|
  {
    if ks != [] {
      var init, last := ks[..|ks| - 1], ks[|ks| - 1];
      DocFreqCounts(docs, init, t);
      var before := set k | k in init && k in docs && t in docs[k].termFrequency;
      var after := set k | k in ks && k in docs && t in docs[k].termFrequency;
      assert last !in init by {
        forall i | 0 <= i < |init| ensures init[i] != last {
          assert init[i] == ks[i];
        }
      }
      if last in docs && t in docs[last].termFrequency {
        assert after == before + {last};
      } else {
        assert after == before;
      }
    }
  }

  lemma DocFreqEnumerated(docs: map<Text, Document>, keys: seq<Text>, t: Text)
    requires Enumerates(keys, docs)
    ensures DocFreqIn(docs, keys, t) == DocFreq(docs, t)
  {
    DocFreqCounts(docs, keys, t);
    assert (set k | k in keys && k in docs && t in docs[k].termFrequency)
        == (set k | k in docs && t in docs[k].termFrequency);
  }

  /** Whether the document holds one of the terms. */
  function Matches(doc: Document, terms: seq<Text>): bool
  {
    terms != [] && (Matches(doc, terms[..|terms| - 1]) || terms[|terms| - 1] in doc.termFrequency)
  }

  /** The document's summed score over every query term occurrence. */
  function TermScore(docs: map<Text, Document>, doc: Document, terms: seq<Text>, contribution: Contribution): nat
  {
    if terms == [] then 0
    else
      var t := terms[|terms| - 1];
      TermScore(docs, doc, terms[..|terms| - 1], contribution)
        + (if t in doc.termFrequency then contribution(|docs|, DocFreq(docs, t), doc.termFrequency[t]) else 0)
  }

  /** The titles a query returns: every document holding a query term. */
  ghost function Matching(docs: map<Text, Document>, terms: seq<Text>): set<Text>
  {
    set k | k in docs && Matches(docs[k], terms)
  }

  function Titles(r: seq<Row>): set<Text>
  {
    set i | 0 <= i < |r| :: r[i].title
  }

  lemma TitlesAppend(r: seq<Row>, x: Row)
    ensures Titles(r + [x]) == Titles(r) + {x.title}
  {
    var s := r + [x];
    forall k | k in Titles(s) ensures k in Titles(r) + {x.title} {
      var i :| 0 <= i < |s| && s[i].title == k;
      if i < |r| {
        assert r[i] == s[i];
      }
    }
    forall k | k in Titles(r) ensures k in Titles(s) {
      var i :| 0 <= i < |r| && r[i].title == k;
      assert s[i] == r[i];
    }
    assert s[|r|] == x;
  }

  /** The `BTreeMap` accumulator after the terms `ts`: an entry for every
      document holding one of them, with its summed score. */
  ghost predicate Accumulated(docs: map<Text, Document>, ts: seq<Text>, contribution: Contribution, acc: map<Text, nat>)
  {
    && (forall k :: k in acc ==> k in docs)
    && (forall k :: k in docs ==> AccumulatedAt(docs, ts, contribution, acc, k))
  }

  ghost predicate AccumulatedAt(docs: map<Text, Document>, ts: seq<Text>, contribution: Contribution, acc: map<Text, nat>, k: Text)
    requires k in docs
  {
    && (k in acc <==> Matches(docs[k], ts))
    && (if k in acc then acc[k] else 0) == TermScore(docs, docs[k], ts, contribution)
  }

  /** One result entry as the query defines it: a stored document's title,
      its stored path, and its summed score divided by the number of terms. */
  ghost predicate Scored(docs: map<Text, Document>, terms: seq<Text>, contribution: Contribution, x: Row)
  {
    && x.title in docs
    && x.path == docs[x.title].path
    && terms != []
    && x.score == TermScore(docs, docs[x.title], terms, contribution) / |terms|
  }

  /** The ranked result of a query: each matching title once, best first,
      with its stored path and its score divided by the number of query
      terms. `keys` is the order in which the document map is iterated. */
  method SortDocuments(store: TfIdf, terms: seq<Text>, keys: seq<Text>, contribution: Contribution)
    returns (r: seq<Row>)
    requires WellKeyed(store) && Enumerates(keys, store.documents)
    ensures Descending(r)
    ensures forall i, j :: 0 <= i < j < |r| ==> r[i].title != r[j].title
    ensures Titles(r) == Matching(store.documents, terms)
    ensures forall i :: 0 <= i < |r| ==> Scored(store.documents, terms, contribution, r[i])
    ensures terms == [] ==> r == []
  {
    var docs := store.documents;
    var acc := AccumulateAll(docs, keys, terms, contribution);
    var rows := Collect(docs, keys, terms, acc);
    EntriesRanked(docs, keys, terms, contribution, acc);
    r := Sorted(rows);
    forall i | 0 <= i < |r| ensures r[i] in rows {
      assert r[i] in multiset(rows);
    }
  }

  /** The outer `for term in terms` loop: the accumulator after every term. */
  method AccumulateAll(docs: map<Text, Document>, keys: seq<Text>, terms: seq<Text>, contribution: Contribution)
    returns (acc: map<Text, nat>)
    requires (forall k :: k in docs ==> docs[k].title == k) && Enumerates(keys, docs)
    ensures Accumulated(docs, terms, contribution, acc)
  {
    acc := map[];
    for t := 0 to |terms|
      invariant Accumulated(docs, terms[..t], contribution, acc)
    {
      var term := terms[t];
      var count := CountHolding(docs, keys, term);
      var acc' := AccumulateTerm(docs, keys, term, count, contribution, acc);
      AddedAll(docs, terms[..t], term, contribution, acc, acc');
      acc := acc';
      assert terms[..t + 1] == terms[..t] + [term];
    }
    assert terms[..|terms|] == terms;
  }

  /** The entries of the accumulated titles are the query's result:
      distinct titles, exactly the matching ones, each scored. */
  lemma EntriesRanked(docs: map<Text, Document>, keys: seq<Text>, terms: seq<Text>, contribution: Contribution,
                      acc: map<Text, nat>)
    requires Enumerates(keys, docs) && Accumulated(docs, terms, contribution, acc)
    ensures var rows := Entries(docs, terms, acc, keys);
      && (forall i, j :: 0 <= i < j < |rows| ==> rows[i].title != rows[j].title)
      && Titles(rows) == Matching(docs, terms)
      && (forall i :: 0 <= i < |rows| ==> Scored(docs, terms, contribution, rows[i]))
  {
    assert forall k :: k in acc ==> Matches(docs[k], terms) && terms != [];
    EntriesScored(docs, terms, contribution, acc, keys);
    EntriesTitles(docs, terms, acc, keys);
    EntriesDistinct(docs, terms, acc, keys);
    assert (set k | k in keys && k in acc) == Matching(docs, terms);
  }

  /** The first inner loop: counts the documents that hold the term. */
  method CountHolding(docs: map<Text, Document>, keys: seq<Text>, term: Text) returns (count: nat)
    requires Enumerates(keys, docs)
    ensures count == DocFreq(docs, term)
  {
    count := 0;
    for j := 0 to |keys|
      invariant count == DocFreqIn(docs, keys[..j], term)
    {
      assert keys[..j + 1][..j] == keys[..j];
      if term in docs[keys[j]].termFrequency {
        count := count + 1;
      }
    }
    assert keys[..|keys|] == keys;
    DocFreqEnumerated(docs, keys, term);
  }

  /** The entries for the accumulated titles among `ks`, in the order of `ks`. */
  function Entries(docs: map<Text, Document>, terms: seq<Text>, acc: map<Text, nat>, ks: seq<Text>): seq<Row>
  {
    if ks == [] then []
    else
      var k := ks[|ks| - 1];
      Entries(docs, terms, acc, ks[..|ks| - 1])
        + (if k in acc && k in docs && terms != [] then [Row(acc[k] / |terms|, docs[k].path, k)] else [])
  }

  /** Every entry is scored as the query defines. */
  lemma {:induction false} EntriesScored(docs: map<Text, Document>, terms: seq<Text>, contribution: Contribution,
                                         acc: map<Text, nat>, ks: seq<Text>)
    requires Accumulated(docs, terms, contribution, acc)
    ensures forall i :: 0 <= i < |Entries(docs, terms, acc, ks)| ==>
      Scored(docs, terms, contribution, Entries(docs, terms, acc, ks)[i])
  {
    if ks != [] {
      var init, k := ks[..|ks| - 1], ks[|ks| - 1];
      EntriesScored(docs, terms, contribution, acc, init);
    }
  }

  /** The entries' titles are the accumulated keys among `ks`. */
  lemma {:induction false} EntriesTitles(docs: map<Text, Document>, terms: seq<Text>, acc: map<Text, nat>, ks: seq<Text>)
    requires forall k :: k in acc ==> k in docs && terms != []
    ensures Titles(Entries(docs, terms, acc, ks)) == set k | k in ks && k in acc
  {
    if ks != [] {
      var init, k := ks[..|ks| - 1], ks[|ks| - 1];
      EntriesTitles(docs, terms, acc, init);
      var head := Entries(docs, terms, acc, init);
      if k in acc {
        var row := Row(acc[k] / |terms|, docs[k].path, k);
        assert Entries(docs, terms, acc, ks) == head + [row];
        TitlesAppend(head, row);
        assert (set x | x in ks && x in acc) == (set x | x in init && x in acc) + {k};
      } else {
        assert Entries(docs, terms, acc, ks) == head;
        assert (set x | x in ks && x in acc) == (set x | x in init && x in acc);
      }
    }
  }

  /** Over distinct keys, the entries carry distinct titles. */
  lemma {:induction false} EntriesDistinct(docs: map<Text, Document>, terms: seq<Text>, acc: map<Text, nat>, ks: seq<Text>)
    requires forall k :: k in acc ==> k in docs && terms != []
    requires forall i, j :: 0 <= i < j < |ks| ==> ks[i] != ks[j]
    ensures forall i, j :: 0 <= i < j < |Entries(docs, terms, acc, ks)| ==>
      Entries(docs, terms, acc, ks)[i].title != Entries(docs, terms, acc, ks)[j].title
  {
    if ks != [] {
      var init, k := ks[..|ks| - 1], ks[|ks| - 1];
      EntriesDistinct(docs, terms, acc, init);
      EntriesTitles(docs, terms, acc, init);
      var head := Entries(docs, terms, acc, init);
      assert k !in Titles(head) by {
        forall i | 0 <= i < |init| ensures init[i] != k {
          assert init[i] == ks[i];
        }
      }
      if k in acc {
        var s := Entries(docs, terms, acc, ks);
        assert s == head + [Row(acc[k] / |terms|, docs[k].path, k)];
        forall i | 0 <= i < |head| ensures s[i].title != k {
          assert s[i] == head[i];
        }
      }
    }
  }

  /** The `for (title, tf_idf) in documents` loop: one entry per accumulated
      title. It visits the titles in the store's order; the `BTreeMap`
      visits them in ascending order, which the sort that follows makes
      immaterial. */
  method Collect(docs: map<Text, Document>, keys: seq<Text>, terms: seq<Text>, acc: map<Text, nat>)
    returns (rows: seq<Row>)
    requires forall k :: k in acc ==> k in docs && terms != []
    ensures rows == Entries(docs, terms, acc, keys)
  {
    rows := [];
    for j := 0 to |keys|
      invariant rows == Entries(docs, terms, acc, keys[..j])
    {
      var title := keys[j];
      assert keys[..j + 1][..j] == keys[..j];
      if title in acc {
        rows := rows + [Row(acc[title] / |terms|, docs[title].path, title)];
      }
    }
    assert keys[..|keys|] == keys;
  }

  /** The inner `for (_, doc) in &self.documents` loop: adds one term's
      contribution to every document that holds it. */
  method AccumulateTerm(docs: map<Text, Document>, keys: seq<Text>, term: Text, count: nat,
                        contribution: Contribution, acc0: map<Text, nat>)
    returns (acc: map<Text, nat>)
    requires (forall k :: k in docs ==> docs[k].title == k) && Enumerates(keys, docs)
    requires forall k :: k in acc0 ==> k in docs
    ensures forall k :: k in acc ==> k in docs
    ensures forall k :: k in docs ==> Added(docs, term, count, contribution, acc0, acc, k)
  {
    acc := acc0;
    for j := 0 to |keys|
      invariant forall k :: k in acc ==> k in docs
      invariant forall p :: 0 <= p < j ==> Added(docs, term, count, contribution, acc0, acc, keys[p])
      invariant forall p :: j <= p < |keys| ==>
        (keys[p] in acc <==> keys[p] in acc0) && (keys[p] in acc ==> acc[keys[p]] == acc0[keys[p]])
    {
      var doc := docs[keys[j]];
      if term in doc.termFrequency {
        var score := contribution(|docs|, count, doc.termFrequency[term]);
        acc := acc[doc.title := (if doc.title in acc then acc[doc.title] else 0) + score];
      }
    }
    forall k | k in docs ensures Added(docs, term, count, contribution, acc0, acc, k) {
      assert k in keys;
    }
  }

  /** Adding a term's contributions to the accumulator of the terms before
      it gives the accumulator of the longer query. */
  lemma AddedAll(docs: map<Text, Document>, ts: seq<Text>, term: Text, contribution: Contribution,
                 acc0: map<Text, nat>, acc: map<Text, nat>)
    requires Accumulated(docs, ts, contribution, acc0)
    requires forall k :: k in acc ==> k in docs
    requires forall k :: k in docs ==> Added(docs, term, DocFreq(docs, term), contribution, acc0, acc, k)
    ensures Accumulated(docs, ts + [term], contribution, acc)
  {
    forall k | k in docs ensures AccumulatedAt(docs, ts + [term], contribution, acc, k) {
      AddedTerm(docs, ts, term, contribution, acc0, acc, k);
    }
  }

  /** The accumulator entry for k has had the term's contribution added. */
  ghost predicate Added(docs: map<Text, Document>, term: Text, count: nat, contribution: Contribution,
                        acc0: map<Text, nat>, acc: map<Text, nat>, k: Text)
    requires k in docs
  {
    var tf := docs[k].termFrequency;
    && (k in acc <==> k in acc0 || term in tf)
    && (if k in acc then acc[k] else 0)
       == (if k in acc0 then acc0[k] else 0) + (if term in tf then contribution(|docs|, count, tf[term]) else 0)
  }

  lemma AddedTerm(docs: map<Text, Document>, ts: seq<Text>, term: Text, contribution: Contribution,
                  acc0: map<Text, nat>, acc: map<Text, nat>, k: Text)
    requires k in docs
    requires AccumulatedAt(docs, ts, contribution, acc0, k)
    requires Added(docs, term, DocFreq(docs, term), contribution, acc0, acc, k)
    ensures AccumulatedAt(docs, ts + [term], contribution, acc, k)
  {
    assert (ts + [term])[..|ts|] == ts;
  }

  /** The sorted entries: a descending permutation, distinct titles kept. */
  method Sorted(rows: seq<Row>) returns (r: seq<Row>)
    requires forall i, j :: 0 <= i < j < |rows| ==> rows[i].title != rows[j].title
    ensures Descending(r) && multiset(r) == multiset(rows)
    ensures forall i, j :: 0 <= i < j < |r| ==> r[i].title != r[j].title
    ensures Titles(r) == Titles(rows)
  {
    r := SortDescending(rows);
    SortDescendingSorted(rows);
    DistinctTitlesKept(rows, r);
  }

  lemma DistinctTitlesKept(rows: seq<Row>, r: seq<Row>)
    requires forall i, j :: 0 <= i < j < |rows| ==> rows[i].title != rows[j].title
    requires multiset(r) == multiset(rows)
    ensures forall i, j :: 0 <= i < j < |r| ==> r[i].title != r[j].title
    ensures Titles(r) == Titles(rows)
  {
    forall i, j | 0 <= i < j < |r| ensures r[i].title != r[j].title {
      if r[i].title == r[j].title {
        assert r[i] in multiset(rows) && r[j] in multiset(rows);
        var a :| 0 <= a < |rows| && rows[a] == r[i];
        var b :| 0 <= b < |rows| && rows[b] == r[j];
        assert a == b;
        TwiceInMultiset(r, i, j);
        OnceInMultiset(rows, a);
      }
    }
    forall k | k in Titles(r) ensures k in Titles(rows) {
      var i :| 0 <= i < |r| && r[i].title == k;
      assert r[i] in multiset(rows);
    }
    forall k | k in Titles(rows) ensures k in Titles(r) {
      var i :| 0 <= i < |rows| && rows[i].title == k;
      assert rows[i] in multiset(r);
    }
  }

  lemma TwiceInMultiset(s: seq<Row>, i: nat, j: nat)
    requires i < j < |s| && s[i] == s[j]
    ensures multiset(s)[s[i]] >= 2
  {
    assert s == s[..j] + [s[j]] + s[j + 1..];
    assert s[i] in s[..j];
  }

  lemma {:induction false} OnceInMultiset(s: seq<Row>, a: nat)
    requires a < |s|
    requires forall i, j :: 0 <= i < j < |s| ==> s[i].title != s[j].title
    ensures multiset(s)[s[a]] == 1
  {
    assert s == s[..a] + [s[a]] + s[a + 1..];
    assert s[a] !in s[..a] && s[a] !in s[a + 1..] by {
      forall i | 0 <= i < |s| && i != a ensures s[i] != s[a] {
        if i < a {
          assert s[i].title != s[a].title;
        } else {
          assert s[a].title != s[i].title;
        }
      }
    }
  }

  // ---------------------------------------------------------- uniqueness

  /** Two descending sequences without repeats and with the same elements
      are equal: a strict total order leaves one arrangement. */
  lemma {:induction false} DescendingUnique(r1: seq<Row>, r2: seq<Row>)
    requires Descending(r1) && Descending(r2)
    requires forall i, j :: 0 <= i < j < |r1| ==> r1[i] != r1[j]
    requires forall i, j :: 0 <= i < j < |r2| ==> r2[i] != r2[j]
    requires forall x :: x in r1 <==> x in r2
    ensures r1 == r2
    decreases |r1|
  {
    SameEmptiness(r1, r2);
    if r1 != [] {
      assert r1[0] in r2;
      assert r2[0] in r1;
      var a, b := r1[0], r2[0];
      if a != b {
        var j :| 0 <= j < |r2| && r2[j] == a;
        var k :| 0 <= k < |r1| && r1[k] == b;
        RowLessStrict(a, b, a);
      }
      var t1, t2 := r1[1..], r2[1..];
      forall x ensures x in t1 <==> x in t2 {
        if x in t1 {
          var i :| 0 <= i < |t1| && t1[i] == x;
          assert r1[i + 1] == x;
          assert x in r2;
          var j :| 0 <= j < |r2| && r2[j] == x;
          assert j != 0;
          assert t2[j - 1] == x;
        }
        if x in t2 {
          var i :| 0 <= i < |t2| && t2[i] == x;
          assert r2[i + 1] == x;
          assert x in r1;
          var j :| 0 <= j < |r1| && r1[j] == x;
          assert j != 0;
          assert t1[j - 1] == x;
        }
      }
      assert Descending(t1) && Descending(t2) by {
        forall i, j | 0 <= i < j < |t1| ensures !RowLess(t1[i], t1[j]) {
          assert t1[i] == r1[i + 1] && t1[j] == r1[j + 1];
        }
        forall i, j | 0 <= i < j < |t2| ensures !RowLess(t2[i], t2[j]) {
          assert t2[i] == r2[i + 1] && t2[j] == r2[j + 1];
        }
      }
      forall i, j | 0 <= i < j < |t1| ensures t1[i] != t1[j] {
        assert t1[i] == r1[i + 1] && t1[j] == r1[j + 1];
      }
      forall i, j | 0 <= i < j < |t2| ensures t2[i] != t2[j] {
        assert t2[i] == r2[i + 1] && t2[j] == r2[j + 1];
      }
      DescendingUnique(t1, t2);
      assert r1 == [a] + t1 && r2 == [b] + t2;
    }
  }

  lemma SameEmptiness(r1: seq<Row>, r2: seq<Row>)
    requires forall x :: x in r1 <==> x in r2
    ensures r1 == [] <==> r2 == []
  {
    if r1 != [] {
      assert r1[0] in r2;
    }
    if r2 != [] {
      assert r2[0] in r1;
    }
  }

  /** The result of a query is fully determined by the store and the query:
      any two lists meeting SortDocuments' postcondition are the same list,
      so neither the document map's iteration order nor the sort's
      stability shows in the result. */
  lemma ResultDetermined(docs: map<Text, Document>, terms: seq<Text>, contribution: Contribution,
                         r1: seq<Row>, r2: seq<Row>)
    requires Descending(r1) && Descending(r2)
    requires forall i, j :: 0 <= i < j < |r1| ==> r1[i].title != r1[j].title
    requires forall i, j :: 0 <= i < j < |r2| ==> r2[i].title != r2[j].title
    requires Titles(r1) == Matching(docs, terms) && Titles(r2) == Matching(docs, terms)
    requires forall i :: 0 <= i < |r1| ==> Scored(docs, terms, contribution, r1[i])
    requires forall i :: 0 <= i < |r2| ==> Scored(docs, terms, contribution, r2[i])
    ensures r1 == r2
  {
    forall x | x in r1 ensures x in r2 {
      var i :| 0 <= i < |r1| && r1[i] == x;
      assert x.title in Titles(r2);
      var j :| 0 <= j < |r2| && r2[j].title == x.title;
      assert r2[j] == x;
    }
    forall x | x in r2 ensures x in r1 {
      var i :| 0 <= i < |r2| && r2[i] == x;
      assert x.title in Titles(r1);
      var j :| 0 <= j < |r1| && r1[j].title == x.title;
      assert r1[j] == x;
    }
    DescendingUnique(r1, r2);
  }
}
