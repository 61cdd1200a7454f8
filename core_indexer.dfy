/** src/core/indexer.rs: the immutable (name, uri) pair shared by the downloaders. */
module CoreIndexer {

  /** Derived `Eq`/`Hash`/`Clone`: equality is structural, a clone is the same value. */
  datatype Indexer = Indexer(name: string, uri: string)

  function New(name: string, uri: string): (ix: Indexer)
    ensures Name(ix) == name && Uri(ix) == uri
  {
    Indexer(name, uri)
  }

  function Name(ix: Indexer): string {
    ix.name
  }

  function Uri(ix: Indexer): string {
    ix.uri
  }

  /** Two indexers are equal exactly when their names and their uris are. */
  lemma IndexerEquality(a: Indexer, b: Indexer)
    ensures a == b <==> Name(a) == Name(b) && Uri(a) == Uri(b)
  {
  }
}
