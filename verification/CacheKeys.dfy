/** The tuple keys of both caches. */
module CacheKeys {

  datatype Key = Key(endpoint: string, db: string, collection: string)

  function MakeKey(endpoint: string, db: string, collection: string): Key
  {
    Key(endpoint, if db == "" then "default" else db, collection)
  }

  /** Two requests share a cache entry exactly when they name the same collection, the empty database
      name standing for "default". */
  lemma MakeKeyInjective(e1: string, d1: string, c1: string, e2: string, d2: string, c2: string)
    ensures MakeKey(e1, d1, c1) == MakeKey(e2, d2, c2) <==>
            e1 == e2 && c1 == c2 && (d1 == d2 || {d1, d2} == {"", "default"})
  {
    if d1 != d2 && MakeKey(e1, d1, c1) == MakeKey(e2, d2, c2) {
      assert {d1, d2} == {"", "default"};
    }
    if {d1, d2} == {"", "default"} {
      assert d1 in {"", "default"} && d2 in {"", "default"};
      assert "" in {d1, d2} && "default" in {d1, d2};
    }
  }

  /** `key[:2] == (endpoint, db or "default")`. */
  predicate InDb(k: Key, endpoint: string, db: string)
  {
    k.endpoint == endpoint && k.db == if db == "" then "default" else db
  }

  /** The database test finds exactly the keys made with that database's name, or with the other spelling of
      the default one. */
  lemma InDbIff(e1: string, d1: string, c: string, e2: string, d2: string)
    ensures InDb(MakeKey(e1, d1, c), e2, d2) <==> e1 == e2 && (d1 == d2 || {d1, d2} == {"", "default"})
  {
    assert InDb(MakeKey(e1, d1, c), e2, d2) <==> MakeKey(e1, d1, c) == MakeKey(e2, d2, c);
    MakeKeyInjective(e1, d1, c, e2, d2, c);
  }
}
