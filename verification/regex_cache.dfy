/** A cache of compiled regular expressions keyed by their pattern text. */
module RegexCache {
  import opened Wrappers
  import opened Regex

  datatype RegexCache = RegexCache(cache: map<string, Regex>)

  /** `RegexCache::new`: nothing is cached. */
  function New(): (c: RegexCache)
    ensures forall p :: Get(c, p) == None
  {
    RegexCache(map[])
  }

  /** `get`: the compiled regex cached for the pattern, if any. */
  function Get(c: RegexCache, pattern: string): (r: Option<Regex>)
    ensures r.Some? <==> pattern in c.cache
    ensures r.Some? ==> r.value == c.cache[pattern]
  {
    if pattern in c.cache then Some(c.cache[pattern]) else None
  }

  /** Every cached entry is the compilation of its own key. */
  predicate Valid(engine: RegexEngine, c: RegexCache) {
    forall p :: p in c.cache ==> Compile(engine, p) == Some(c.cache[p])
  }

  /**
   * `put`: compiles the pattern; on success caches it and returns it, on
   * failure returns nothing and leaves the cache as it was.
   */
  function Put(engine: RegexEngine, c: RegexCache, pattern: string): (r: (RegexCache, Option<Regex>))
    ensures r.1 == Compile(engine, pattern)
    ensures r.1.Some? ==> Get(r.0, pattern) == r.1
    ensures r.1.None? ==> r.0 == c
    ensures forall p :: p != pattern ==> Get(r.0, p) == Get(c, p)
    ensures Valid(engine, c) ==> Valid(engine, r.0)
  {
    match Compile(engine, pattern)
      case Some(re) => (RegexCache(c.cache[pattern := re]), Some(re))
      case None => (c, None)
  }

  lemma NewIsValid(engine: RegexEngine)
    ensures Valid(engine, New())
  {
  }

  /** Once a pattern is put, getting it returns the same regex as compiling it afresh. */
  lemma PutThenGet(engine: RegexEngine, c: RegexCache, pattern: string)
    requires engine.compiles(pattern)
    ensures Get(Put(engine, c, pattern).0, pattern) == Some(Regex(pattern))
  {
  }
}
