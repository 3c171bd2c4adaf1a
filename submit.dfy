/** The store update of `submit_document` (src/main.rs:119-217) once the
    PDF has been read: the duplicate-title policy, the word counts and the
    term frequencies. The words are the document's normalised words in
    reading order; the f64 division `n as f64 / len as f64` is the
    parameter `divide`, which yields the bits of the quotient. */
module Submit {
  import opened Bytes
  import opened Index
  import opened Intern

  /** The `dupe` query parameter. */
  datatype DupePolicy = Replace | Rename | Ignore | Refuse

  function ParsePolicy(dupe: Option<string>): (p: DupePolicy)
    ensures p == Refuse <==> dupe !in {Some("replace"), Some("rename"), Some("ignore")}
  {
    match dupe
    case Some("replace") => Replace
    case Some("rename") => Rename
    case Some("ignore") => Ignore
    case _ => Refuse
  }

  /** The title a submission is filed under: the PDF's own title, or the
      path when the PDF has none or an empty one. */
  function ChooseTitle(pdfTitle: Option<Text>, path: Text): (t: Text)
    ensures t == path || (pdfTitle == Some(t) && t != [])
    ensures pdfTitle.Some? && pdfTitle.value != [] ==> t == pdfTitle.value
  {
    match pdfTitle
    case Some(s) => if s == [] then path else s
    case None => path
  }

  /** `"-1"`, appended to a clashing title under `dupe=rename`. */
  const RenameSuffix: Text := [0x2D, 0x31]

  /** The refusal message's parts: the title, the submitted path and the
      path already stored under that title. */
  datatype SubmitError = DuplicateTitle(title: Text, submitted: Text, found: Text)

  // ------------------------------------------------------------ counting

  /** How often w occurs among the words. */
  function Count(words: seq<Text>, w: Text): (n: nat)
    ensures n > 0 <==> w in words
  {
    if words == [] then 0
    else
      assert words == words[..|words| - 1] + [words[|words| - 1]];
      Count(words[..|words| - 1], w) + (if words[|words| - 1] == w then 1 else 0)
  }

  /** The counter `m` after one `entry(w).and_modify(+1).or_insert(1)` per word. */
  function AddWords(m: map<Text, nat>, words: seq<Text>): map<Text, nat>
  {
    if words == [] then m
    else
      var before := AddWords(m, words[..|words| - 1]);
      var w := words[|words| - 1];
      before[w := (if w in before then before[w] else 0) + 1]
  }

  /** Counting a batch of words adds each word's number of occurrences and
      creates an entry for exactly the new words. */
  lemma {:induction false} AddWordsCounts(m: map<Text, nat>, words: seq<Text>, w: Text)
    ensures w in AddWords(m, words) <==> w in m || w in words
    ensures w in AddWords(m, words) ==>
      AddWords(m, words)[w] == (if w in m then m[w] else 0) + Count(words, w)
  {
    if words != [] {
      var init := words[..|words| - 1];
      AddWordsCounts(m, init, w);
      assert w in words <==> w in init || w == words[|words| - 1] by {
        assert words == init + [words[|words| - 1]];
      }
    }
  }

  /** `term_frequency`: each distinct word's count over the number of
      distinct words. */
  function Frequencies(counts: map<Text, nat>, divide: (nat, nat) -> F64): map<Text, F64>
  {
    map t | t in counts :: divide(counts[t], |counts|)
  }

  /** The words once each, in order of first occurrence: `term_count`'s keys. */
  function Distinct(words: seq<Text>): (r: seq<Text>)
    ensures forall i, j :: 0 <= i < j < |r| ==> r[i] != r[j]
    ensures forall w :: w in r <==> w in words
  {
    if words == [] then []
    else
      var init, w := words[..|words| - 1], words[|words| - 1];
      assert words == init + [w];
      if w in Distinct(init) then Distinct(init) else Distinct(init) + [w]
  }

  // ------------------------------------------------------------- the rule

  /** The store after indexing a document under `title`: global counts
      raised by the words, the document stored (over anything there before). */
  function Ingest(store: TfIdf, title: Text, path: Text, words: seq<Text>, divide: (nat, nat) -> F64): TfIdf
  {
    TfIdf(AddWords(store.globalTermCount, words),
          store.documents[title := Document(title, path, Frequencies(AddWords(map[], words), divide))])
  }

  /** `submit_document` on one store: the result and the new store. */
  function Submit(store: TfIdf, title: Text, path: Text, dupe: Option<string>, words: seq<Text>,
                  divide: (nat, nat) -> F64): (Result<(), SubmitError>, TfIdf)
  {
    if title !in store.documents then (Ok(()), Ingest(store, title, path, words, divide))
    else match ParsePolicy(dupe)
      case Replace => (Ok(()), Ingest(store.(documents := store.documents - {title}), title, path, words, divide))
      case Rename => (Ok(()), Ingest(store, title + RenameSuffix, path, words, divide))
      case Ignore => (Ok(()), store)
      case Refuse => (Err(DuplicateTitle(title, path, store.documents[title].path)), store)
  }

  /** Whether the submission is indexed, and under which title. */
  function StoredTitle(store: TfIdf, title: Text, dupe: Option<string>): Option<Text>
  {
    if title !in store.documents then Some(title)
    else match ParsePolicy(dupe)
      case Replace => Some(title)
      case Rename => Some(title + RenameSuffix)
      case _ => None
  }

  /** A clashing title with no usable `dupe` is refused, and `dupe=ignore`
      succeeds; either way the store is unchanged. */
  lemma DuplicateLeavesStore(store: TfIdf, title: Text, path: Text, dupe: Option<string>, words: seq<Text>,
                             divide: (nat, nat) -> F64)
    requires title in store.documents
    requires ParsePolicy(dupe) in {Ignore, Refuse}
    ensures Submit(store, title, path, dupe, words, divide).1 == store
    ensures Submit(store, title, path, dupe, words, divide).0.Err? <==> ParsePolicy(dupe) == Refuse
    ensures StoredTitle(store, title, dupe) == None
  {
  }

  /** An indexed submission is stored under its title (or the renamed one),
      replacing whatever was there, and no other document changes. */
  lemma StoresDocument(store: TfIdf, title: Text, path: Text, dupe: Option<string>, words: seq<Text>,
                       divide: (nat, nat) -> F64)
    requires StoredTitle(store, title, dupe).Some?
    ensures var t := StoredTitle(store, title, dupe).value;
      && Submit(store, title, path, dupe, words, divide).0 == Ok(())
      && Submit(store, title, path, dupe, words, divide).1.documents
         == store.documents[t := Document(t, path, Frequencies(AddWords(map[], words), divide))]
  {
    if title in store.documents && ParsePolicy(dupe) == Replace {
      var d := Document(title, path, Frequencies(AddWords(map[], words), divide));
      assert (store.documents - {title})[title := d] == store.documents[title := d];
    }
  }

  /** Indexing raises each word's global count by its number of
      occurrences and touches no other count. */
  lemma GlobalCounts(store: TfIdf, title: Text, path: Text, dupe: Option<string>, words: seq<Text>,
                     divide: (nat, nat) -> F64, w: Text)
    requires StoredTitle(store, title, dupe).Some?
    ensures var g := Submit(store, title, path, dupe, words, divide).1.globalTermCount;
      && (w in g <==> w in store.globalTermCount || w in words)
      && (w in g ==> g[w] == (if w in store.globalTermCount then store.globalTermCount[w] else 0) + Count(words, w))
  {
    AddWordsCounts(store.globalTermCount, words, w);
  }

  /** No submission lowers or drops a global count, even one that replaces
      a document. */
  lemma NeverDecrements(store: TfIdf, title: Text, path: Text, dupe: Option<string>, words: seq<Text>,
                        divide: (nat, nat) -> F64, w: Text)
    requires w in store.globalTermCount
    ensures var g := Submit(store, title, path, dupe, words, divide).1.globalTermCount;
      w in g && g[w] >= store.globalTermCount[w]
  {
    AddWordsCounts(store.globalTermCount, words, w);
  }

  /** A document's frequencies have the distinct words as keys, each
      word's count divided by the number of distinct words. */
  lemma WordFrequencies(words: seq<Text>, divide: (nat, nat) -> F64)
    ensures var tf := Frequencies(AddWords(map[], words), divide);
      && (forall w :: w in tf <==> w in words)
      && |tf| == |Distinct(words)|
      && (forall w :: w in tf ==> tf[w] == divide(Count(words, w), |Distinct(words)|))
  {
    var counts := AddWords(map[], words);
    forall w ensures (w in counts <==> w in words) && (w in counts ==> counts[w] == Count(words, w)) {
      AddWordsCounts(map[], words, w);
    }
    DistinctSize(words, counts);
    assert Frequencies(counts, divide).Keys == counts.Keys;
  }

  /** The stored document's frequencies are those of its words. */
  lemma StoredFrequencies(store: TfIdf, title: Text, path: Text, dupe: Option<string>, words: seq<Text>,
                          divide: (nat, nat) -> F64)
    requires StoredTitle(store, title, dupe).Some?
    ensures var t := StoredTitle(store, title, dupe).value;
      var tf := Submit(store, title, path, dupe, words, divide).1.documents[t].termFrequency;
      && (forall w :: w in tf <==> w in words)
      && |tf| == |Distinct(words)|
      && (forall w :: w in tf ==> tf[w] == divide(Count(words, w), |Distinct(words)|))
  {
    StoresDocument(store, title, path, dupe, words, divide);
    WordFrequencies(words, divide);
  }

  lemma DistinctSize(words: seq<Text>, counts: map<Text, nat>)
    requires forall w :: w in counts <==> w in words
    ensures |counts| == |Distinct(words)|
  {
    var d := Distinct(words);
    DistinctCard(d);
    assert counts.Keys == (set w | w in d);
  }

  lemma {:induction false} DistinctCard(d: seq<Text>)
    requires forall i, j :: 0 <= i < j < |d| ==> d[i] != d[j]
    ensures |set w | w in d| == |d|
  {
    if d != [] {
      var init, w := d[..|d| - 1], d[|d| - 1];
      DistinctCard(init);
      assert w !in init by {
        forall i | 0 <= i < |init| ensures init[i] != w {
          assert init[i] == d[i];
        }
      }
      assert (set x | x in d) == (set x | x in init) + {w} by {
        assert d == init + [w];
      }
    }
  }

  /** Every document stays filed under its own title. */
  lemma KeepsWellKeyed(store: TfIdf, title: Text, path: Text, dupe: Option<string>, words: seq<Text>,
                       divide: (nat, nat) -> F64)
    requires WellKeyed(store)
    ensures WellKeyed(Submit(store, title, path, dupe, words, divide).1)
  {
  }

  /** `dupe=rename` files the document under `title + "-1"` without looking
      there first, so a document already under that title is overwritten. */
  lemma RenameOverwrites(store: TfIdf, title: Text, path: Text, words: seq<Text>, divide: (nat, nat) -> F64)
    requires title in store.documents && title + RenameSuffix in store.documents
    ensures var docs := Submit(store, title, path, Some("rename"), words, divide).1.documents;
      && docs.Keys == store.documents.Keys
      && docs[title] == store.documents[title]
      && docs[title + RenameSuffix].path == path
  {
  }

  // -------------------------------------------------------------- methods

  /** The word loop: interns each word and counts it in the document's
      counter and in the global one. */
  method CountWords(pool: StringPool, words: seq<Text>, global: map<Text, nat>)
    returns (counts: map<Text, nat>, global': map<Text, nat>)
    requires pool.Valid()
    modifies pool
    ensures counts == AddWords(map[], words) && global' == AddWords(global, words)
    ensures pool.Valid() && forall w :: w in words ==> w in pool.mapPool
    ensures forall j :: 0 <= j < old(|pool.flatPool|) ==> pool.GetStr(PoolId(j)) == old(pool.GetStr(PoolId(j)))
    ensures old(pool.flatPool) <= pool.flatPool
    ensures pool.mapPool.Keys == old(pool.mapPool).Keys + (set w | w in words)
  {
    counts, global' := map[], global;
    for i := 0 to |words|
      invariant counts == AddWords(map[], words[..i]) && global' == AddWords(global, words[..i])
      invariant pool.Valid()
      invariant old(pool.flatPool) <= pool.flatPool
      invariant pool.mapPool.Keys == old(pool.mapPool).Keys + (set w | w in words[..i])
      invariant forall j :: 0 <= j < old(|pool.flatPool|) ==> pool.GetStr(PoolId(j)) == old(pool.GetStr(PoolId(j)))
    {
      var w := words[i];
      ghost var keys := pool.mapPool.Keys;
      var _ := pool.Intern(w);
      assert pool.mapPool.Keys == keys + {w};
      WordSetStep(words, i);
      AddWordsStep(map[], words, i);
      AddWordsStep(global, words, i);
      counts := counts[w := (if w in counts then counts[w] else 0) + 1];
      global' := global'[w := (if w in global' then global'[w] else 0) + 1];
    }
    assert words[..|words|] == words;
  }

  /** Counting one more word of a prefix. */
  lemma AddWordsStep(m: map<Text, nat>, words: seq<Text>, i: nat)
    requires i < |words|
    ensures var before := AddWords(m, words[..i]);
      AddWords(m, words[..i + 1]) == before[words[i] := (if words[i] in before then before[words[i]] else 0) + 1]
  {
    assert words[..i + 1][..i] == words[..i];
  }

  /** The words of a longer prefix: those of the shorter one and one more. */
  lemma WordSetStep(words: seq<Text>, i: nat)
    requires i < |words|
    ensures var longer, shorter := words[..i + 1], words[..i];
      (set w | w in longer) == (set w | w in shorter) + {words[i]}
  {
    assert words[..i + 1] == words[..i] + [words[i]];
  }

  /** The frequency loop over `term_count`'s keys; each key is inserted
      once, as the source asserts. */
  method TermFrequencies(counts: map<Text, nat>, keys: seq<Text>, divide: (nat, nat) -> F64)
    returns (tf: map<Text, F64>)
    requires Enumerates(keys, counts)
    ensures tf == Frequencies(counts, divide)
  {
    tf := map[];
    for j := 0 to |keys|
      invariant forall t :: t in tf <==> t in keys[..j]
      invariant forall t :: t in tf ==> t in counts && tf[t] == divide(counts[t], |counts|)
    {
      assert keys[j] !in tf by {
        forall p | 0 <= p < j ensures keys[p] != keys[j] { }
      }
      tf := tf[keys[j] := divide(counts[keys[j]], |counts|)];
      assert keys[..j + 1] == keys[..j] + [keys[j]];
    }
    assert keys[..|keys|] == keys;
  }

  /** `DocShared`: the store behind its lock. */
  class DocShared {
    var tfIdf: TfIdf

    constructor (store: TfIdf)
      ensures tfIdf == store
    {
      tfIdf := store;
    }

    /** `submit_document` after the PDF is read: applies the duplicate
        policy, counts and interns the words, and stores the document. */
    method SubmitDocument(pool: StringPool, title: Text, path: Text, dupe: Option<string>, words: seq<Text>,
                          divide: (nat, nat) -> F64)
      returns (r: Result<(), SubmitError>)
      requires pool.Valid()
      modifies this, pool
      ensures (r, tfIdf) == Submit(old(tfIdf), title, path, dupe, words, divide)
      ensures pool.Valid()
      ensures StoredTitle(old(tfIdf), title, dupe).Some? ==> forall w :: w in words ==> w in pool.mapPool
      ensures StoredTitle(old(tfIdf), title, dupe).Some? ==>
        pool.mapPool.Keys == old(pool.mapPool).Keys + (set w | w in words)
      ensures StoredTitle(old(tfIdf), title, dupe).None? ==>
        pool.flatPool == old(pool.flatPool) && pool.mapPool == old(pool.mapPool) && pool.initialised == old(pool.initialised)
      ensures forall j :: 0 <= j < old(|pool.flatPool|) ==> pool.GetStr(PoolId(j)) == old(pool.GetStr(PoolId(j)))
    {
      var filed := title;
      if title in tfIdf.documents {
        match ParsePolicy(dupe)
        case Replace =>
          tfIdf := tfIdf.(documents := tfIdf.documents - {title});
        case Rename =>
          filed := title + RenameSuffix;
        case Ignore =>
          return Ok(());
        case Refuse =>
          return Err(DuplicateTitle(title, path, tfIdf.documents[title].path));
      }
      var counts, global := CountWords(pool, words, tfIdf.globalTermCount);
      tfIdf := tfIdf.(globalTermCount := global);
      forall w ensures w in counts <==> w in words {
        AddWordsCounts(map[], words, w);
      }
      var frequencies := TermFrequencies(counts, Distinct(words), divide);
      tfIdf := tfIdf.(documents := tfIdf.documents[filed := Document(filed, path, frequencies)]);
      return Ok(());
    }
  }
}
