/** The TF-IDF store of src/main.rs: documents keyed by title and the
    corpus-wide term counter. Terms are keyed by their text; in the source
    they are interned ids, which stand in one-to-one correspondence with
    their texts (see Intern.StringPool). */
module Index {
  import opened Bytes

  /** A term frequency: the bits of an f64, carried exactly. */
  type F64 = U64

  datatype Document = Document(title: Text, path: Text, termFrequency: map<Text, F64>)

  datatype TfIdf = TfIdf(globalTermCount: map<Text, nat>, documents: map<Text, Document>)

  /** `TfIdf::default()`. */
  const Empty: TfIdf := TfIdf(map[], map[])

  /** Every document is stored under its own title. Ingest and decode keep
      this, and ranking relies on it when it looks a result's path up by title. */
  ghost predicate WellKeyed(store: TfIdf)
  {
    forall k :: k in store.documents ==> store.documents[k].title == k
  }

  /** `keys` lists the keys of `m` once each: one iteration order of a HashMap. */
  ghost predicate Enumerates<V>(keys: seq<Text>, m: map<Text, V>)
  {
    && (forall i, j :: 0 <= i < j < |keys| ==> keys[i] != keys[j])
    && (forall i :: 0 <= i < |keys| ==> keys[i] in m)
    && (forall k :: k in m ==> k in keys)
  }
}
