/**
 * The result cache of `App`: a map from search term to the hits fetched so
 * far for it and the last page fetched, with the operations that replace one
 * entry (merging a fetched page, dismissing a hit), the cache-hit test and
 * the values `render` derives from it.
 */
module Store {
  import opened Wrappers
  import opened Hits

  /** One entry of the cache: `{hits, page}`. A response of the search API has the same shape. */
  datatype PageResult = PageResult(hits: seq<Hit>, page: int)

  /** The `results` object with its entries; `null` is `None` at the use sites. */
  type Results = map<string, PageResult>

  /** `results` as every reader except `needsToSearchTopstories` sees it: `null` reads as no entries. */
  function Entries(results: Option<Results>): Results
  {
    match results
    case None => map[]
    case Some(m) => m
  }

  /** The hits cached under `key`, the empty list when there is no entry. */
  function StoredHits(m: Results, key: string): seq<Hit>
  {
    if key in m then m[key].hits else []
  }

  // ---------------------------------------------------------------------
  // Order-preserving sublists

  /** `a` is `b` with some elements left out and the rest in their order. */
  predicate IsSubsequence(a: seq<Hit>, b: seq<Hit>)
    decreases |b|
  {
    if a == [] then true
    else if b == [] then false
    else if a[0] == b[0] then IsSubsequence(a[1..], b[1..])
    else IsSubsequence(a, b[1..])
  }

  lemma {:induction false} SubsequenceCons(a: seq<Hit>, b: seq<Hit>, x: Hit)
    requires IsSubsequence(a, b)
    ensures IsSubsequence(a, [x] + b)
    decreases |b|, 2
  {
    assert ([x] + b)[1..] == b;
    if a != [] && a[0] == x {
      SubsequenceDropHead(a, b);
    }
  }

  lemma {:induction false} SubsequenceDropHead(a: seq<Hit>, b: seq<Hit>)
    requires a != [] && IsSubsequence(a, b)
    ensures IsSubsequence(a[1..], b)
    decreases |b|, 1
  {
    if a[0] == b[0] {
      SubsequenceCons(a[1..], b[1..], b[0]);
    } else {
      SubsequenceDropHead(a, b[1..]);
      SubsequenceCons(a[1..], b[1..], b[0]);
    }
    assert b == [b[0]] + b[1..];
  }

  lemma {:induction false} SubsequenceRefl(a: seq<Hit>)
    ensures IsSubsequence(a, a)
  {
    if a != [] {
      SubsequenceRefl(a[1..]);
    }
  }

  lemma {:induction false} SubsequenceTrans(a: seq<Hit>, b: seq<Hit>, c: seq<Hit>)
    requires IsSubsequence(a, b) && IsSubsequence(b, c)
    ensures IsSubsequence(a, c)
    decreases |c|
  {
    if a != [] {
      assert b != [] && c != [];
      if b[0] == c[0] {
        if a[0] == b[0] {
          SubsequenceTrans(a[1..], b[1..], c[1..]);
        } else {
          SubsequenceTrans(a, b[1..], c[1..]);
        }
      } else {
        SubsequenceTrans(a, b, c[1..]);
        SubsequenceCons(a, c[1..], c[0]);
        assert c == [c[0]] + c[1..];
      }
    }
  }

  lemma {:induction false} SubsequenceOfExtension(b: seq<Hit>, c: seq<Hit>)
    ensures IsSubsequence(c, b + c)
  {
    if b == [] {
      SubsequenceRefl(c);
      assert b + c == c;
    } else {
      SubsequenceOfExtension(b[1..], c);
      SubsequenceCons(c, b[1..] + c, b[0]);
      assert b + c == [b[0]] + (b[1..] + c);
    }
  }

  /** Appending the same list to both sides keeps a sublist a sublist. */
  lemma {:induction false} SubsequenceAppend(a: seq<Hit>, b: seq<Hit>, c: seq<Hit>)
    requires IsSubsequence(a, b)
    ensures IsSubsequence(a + c, b + c)
    decreases |b|
  {
    if a == [] {
      SubsequenceOfExtension(b, c);
      assert a + c == c;
    } else {
      assert a + c == [a[0]] + (a[1..] + c);
      assert b + c == [b[0]] + (b[1..] + c);
      if a[0] == b[0] {
        SubsequenceAppend(a[1..], b[1..], c);
      } else {
        SubsequenceAppend(a, b[1..], c);
      }
    }
  }

  // ---------------------------------------------------------------------
  // Dismiss

  /** `hits.filter(item => item.objectID !== id)`. */
  function Without(hits: seq<Hit>, id: string): (r: seq<Hit>)
    ensures IsSubsequence(r, hits)
    ensures forall i :: 0 <= i < |r| ==> r[i].objectID != id
    ensures (forall i :: 0 <= i < |hits| ==> hits[i].objectID != id) ==> r == hits
  {
    if hits == [] then []
    else
      var rest := Without(hits[1..], id);
      if hits[0].objectID != id then
        assert ([hits[0]] + rest)[1..] == rest;
        [hits[0]] + rest
      else
        SubsequenceCons(rest, hits[1..], hits[0]);
        rest
  }

  /** Every hit with another id keeps all its occurrences; hits with `id` keep none. */
  lemma {:induction false} WithoutCounts(hits: seq<Hit>, id: string, h: Hit)
    ensures multiset(Without(hits, id))[h] == if h.objectID == id then 0 else multiset(hits)[h]
  {
    if hits != [] {
      assert hits == [hits[0]] + hits[1..];
      WithoutCounts(hits[1..], id, h);
    }
  }

  lemma {:induction false} WithoutAppend(a: seq<Hit>, b: seq<Hit>, id: string)
    ensures Without(a + b, id) == Without(a, id) + Without(b, id)
  {
    if a == [] {
      assert a + b == b;
    } else {
      assert (a + b)[0] == a[0] && (a + b)[1..] == a[1..] + b;
      WithoutAppend(a[1..], b, id);
    }
  }

  /**
   * `onDismiss(id)`: replaces the entry of `key` by its hits without `id`,
   * keeping its page. There is nothing to destructure when the entry is
   * missing, and the source throws: `None`.
   */
  function Dismiss(results: Option<Results>, key: string, id: string): (r: Option<Results>)
    ensures r.None? <==> key !in Entries(results)
    ensures r.Some? ==> r.value.Keys == Entries(results).Keys
    ensures r.Some? ==> r.value[key] == PageResult(Without(Entries(results)[key].hits, id), Entries(results)[key].page)
    ensures r.Some? ==> forall k :: k in Entries(results) && k != key ==> r.value[k] == Entries(results)[k]
  {
    match results
    case None => None
    case Some(m) =>
      if key !in m then None
      else Some(m[key := PageResult(Without(m[key].hits, id), m[key].page)])
  }

  /** Dismissing an id no cached hit carries changes nothing. */
  lemma DismissAbsentId(results: Option<Results>, key: string, id: string)
    requires key in Entries(results)
    requires forall i :: 0 <= i < |Entries(results)[key].hits| ==> Entries(results)[key].hits[i].objectID != id
    ensures Dismiss(results, key, id) == Some(Entries(results))
  {
    var m := Entries(results);
    assert m[key := PageResult(m[key].hits, m[key].page)] == m;
  }

  /** Dismissing the same id twice is dismissing it once. */
  lemma DismissTwice(results: Option<Results>, key: string, id: string)
    ensures Dismiss(Dismiss(results, key, id), key, id) == Dismiss(results, key, id)
  {
    if key in Entries(results) {
      var once := Dismiss(results, key, id);
      DismissAbsentId(once, key, id);
    }
  }

  // ---------------------------------------------------------------------
  // Merge

  /**
   * `setSearchTopstories(result)`: the hits of the response go after the
   * cached hits of `key` (none when there is no entry), the response's page
   * replaces the stored one, and no other entry changes.
   */
  function Merge(m: Results, key: string, result: PageResult): (r: Results)
    ensures r.Keys == m.Keys + {key}
    ensures r[key].hits == StoredHits(m, key) + result.hits
    ensures r[key].page == result.page
    ensures forall k :: k in m && k != key ==> r[k] == m[k]
  {
    m[key := PageResult(StoredHits(m, key) + result.hits, result.page)]
  }

  /** Two merges under one key: the hits of both pages, in arrival order, and the later page. */
  lemma MergeAccumulates(m: Results, key: string, first: PageResult, second: PageResult)
    ensures Merge(Merge(m, key, first), key, second)[key]
            == PageResult(StoredHits(m, key) + first.hits + second.hits, second.page)
  {
  }

  /** Dismissing after a merge filters the old hits and the new hits alike. */
  lemma DismissAfterMerge(m: Results, key: string, result: PageResult, id: string)
    ensures Dismiss(Some(Merge(m, key, result)), key, id).Some?
    ensures Dismiss(Some(Merge(m, key, result)), key, id).value[key]
            == PageResult(Without(StoredHits(m, key), id) + Without(result.hits, id), result.page)
  {
    WithoutAppend(StoredHits(m, key), result.hits, id);
  }

  // ---------------------------------------------------------------------
  // Cache hit

  /**
   * `needsToSearchTopstories(term)` as written: `!results[term]`, a TypeError
   * (`None`) while `results` is still `null`.
   */
  function NeedsToSearchAsWritten(results: Option<Results>, term: string): Option<bool>
  {
    match results
    case None => None
    case Some(m) => Some(term !in m)
  }

  /** A fetch is needed exactly when nothing is cached for `term`, `null` counting as nothing. */
  function NeedsToSearch(results: Option<Results>, term: string): (r: bool)
    ensures r <==> term !in Entries(results)
    ensures results.Some? ==> NeedsToSearchAsWritten(results, term) == Some(r)
  {
    match results
    case None => true
    case Some(m) => term !in m
  }

  /**
   * A submit before the first response has arrived (or after the first fetch
   * failed) makes the code as written throw instead of fetching.
   */
  lemma NeedsToSearchBeforeFirstResponse(term: string)
    ensures NeedsToSearchAsWritten(None, term).None?
    ensures NeedsToSearch(None, term)
  {
  }

  // ---------------------------------------------------------------------
  // Render-time derivations

  /** `(results && results[key] && results[key].page) || 0`. */
  function DisplayedPage(results: Option<Results>, key: string): (p: int)
    ensures key in Entries(results) ==> p == Entries(results)[key].page
    ensures key !in Entries(results) ==> p == 0
  {
    if results.Some? && key in results.value then
      var page := results.value[key].page;
      if page != 0 then page else 0
    else 0
  }

  /** `(results && results[key] && results[key].hits) || []`. */
  function DisplayedList(results: Option<Results>, key: string): (l: seq<Hit>)
    ensures l == StoredHits(Entries(results), key)
  {
    if results.Some? && key in results.value then results.value[key].hits else []
  }

  /** After a merge under `key` the table shows the old list followed by the new page, and that page. */
  lemma DisplayAfterMerge(results: Option<Results>, key: string, result: PageResult, other: string)
    requires other != key
    ensures DisplayedList(Some(Merge(Entries(results), key, result)), key) == DisplayedList(results, key) + result.hits
    ensures DisplayedPage(Some(Merge(Entries(results), key, result)), key) == result.page
    ensures DisplayedList(Some(Merge(Entries(results), key, result)), other) == DisplayedList(results, other)
    ensures DisplayedPage(Some(Merge(Entries(results), key, result)), other) == DisplayedPage(results, other)
  {
  }
}
