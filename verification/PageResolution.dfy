/** The boot check on page paths, and the resolution of a concrete path to one page. */
module PageResolution {
  import opened Common
  import opened PagePaths

  datatype Access = PublicAccess | Authenticated | Platform(capability: string)

  datatype Page = Page(path: string, access: Access)

  datatype Feature = Feature(id: string, capabilities: set<string>, pages: seq<Page>)

  // ----- The boot check -----

  datatype BootError = MissingCapability(feature: string) | PageCollision(one: string, other: string)

  function RequiredCapability(access: Access): string {
    if access.PublicAccess? then "public-page" else "authenticated-page"
  }

  ghost predicate CapabilitiesDeclared(feature: Feature) {
    forall page | page in feature.pages :: RequiredCapability(page.access) in feature.capabilities
  }

  function PathsOf(pages: seq<Page>): seq<string> {
    seq(|pages|, i requires 0 <= i < |pages| => pages[i].path)
  }

  function AllPages(features: seq<Feature>): seq<Page> {
    if features == [] then [] else AllPages(features[..|features| - 1]) + features[|features| - 1].pages
  }

  ghost predicate ConflictFree(paths: seq<string>) {
    forall i, j | 0 <= i < j < |paths| :: !Conflicts(paths[i], paths[j])
  }

  /** The two paths are those of two pages, the first of them earlier, that conflict. */
  ghost predicate Collide(paths: seq<string>, one: string, other: string) {
    Conflicts(one, other) && exists i, j :: 0 <= i < j < |paths| && paths[i] == one && paths[j] == other
  }

  /** `ownedPages.find(...)` */
  method FindConflict(owned: seq<string>, path: string) returns (found: Option<nat>)
    ensures found.None? <==> forall i | 0 <= i < |owned| :: !Conflicts(owned[i], path)
    ensures found.Some? ==> found.value < |owned| && Conflicts(owned[found.value], path)
  {
    hide Conflicts;
    for k := 0 to |owned|
      invariant forall j | 0 <= j < k :: !Conflicts(owned[j], path)
    {
      if Conflicts(owned[k], path) {
        return Some(k);
      }
    }
    return None;
  }

  /** How many pages the features before this one have. */
  function Offset(features: seq<Feature>, f: nat): nat
    requires f <= |features|
  {
    |AllPages(features[..f])|
  }

  lemma OffsetOfNext(features: seq<Feature>, f: nat)
    requires f < |features|
    ensures Offset(features, f + 1) == Offset(features, f) + |features[f].pages|
  {
    assert features[..f + 1][..f] == features[..f];
  }

  lemma OffsetOfAll(features: seq<Feature>)
    ensures Offset(features, 0) == 0 && Offset(features, |features|) == |AllPages(features)|
  {
    assert features[..|features|] == features;
  }

  /** Where a feature's page stands among all pages. */
  lemma PageAt(features: seq<Feature>, f: nat, n: nat)
    requires f < |features| && n < |features[f].pages|
    ensures Offset(features, f) + n < |AllPages(features)|
    ensures AllPages(features)[Offset(features, f) + n] == features[f].pages[n]
  {
    assert features[..f + 1][..f] == features[..f];
    AllPagesSplit(features, f + 1);
  }

  lemma {:induction false} AllPagesSplit(features: seq<Feature>, k: nat)
    requires k <= |features|
    ensures AllPages(features[..k]) <= AllPages(features)
    decreases |features|
  {
    if k < |features| {
      AllPagesSplit(features[..|features| - 1], k);
      assert features[..|features| - 1][..k] == features[..k];
    } else {
      assert features[..k] == features;
    }
  }

  lemma OneMorePath(paths: seq<string>, k: nat)
    requires k < |paths| && ConflictFree(paths[..k]) && forall i | 0 <= i < k :: !Conflicts(paths[..k][i], paths[k])
    ensures paths[..k] + [paths[k]] == paths[..k + 1] && ConflictFree(paths[..k + 1])
  {
    hide Conflicts;
    var earlier, more := paths[..k], paths[..k + 1];
    assert more == earlier + [paths[k]];
    forall i, j | 0 <= i < j < |more|
      ensures !Conflicts(more[i], more[j])
    {
      assert more[i] == earlier[i];
      if j < k {
        assert !Conflicts(earlier[i], earlier[j]);
      }
    }
  }

  lemma ConflictInside(paths: seq<string>, i: nat, k: nat)
    requires i < k < |paths| && Conflicts(paths[..k][i], paths[k])
    ensures !ConflictFree(paths) && Collide(paths, paths[i], paths[k])
  {
    hide Conflicts;
    assert Conflicts(paths[i], paths[k]);
  }

  /** The check passes exactly when every page's capability is declared and no two pages conflict. */
  method AssertUniquePages(features: seq<Feature>) returns (r: Result<(), BootError>)
    ensures r.Ok? <==> (forall f | f in features :: CapabilitiesDeclared(f)) && ConflictFree(PathsOf(AllPages(features)))
    ensures r.Err? && r.error.MissingCapability? ==>
              exists f :: f in features && f.id == r.error.feature && !CapabilitiesDeclared(f)
    ensures r.Err? && r.error.PageCollision? ==> Collide(PathsOf(AllPages(features)), r.error.one, r.error.other)
  {
    hide Conflicts, ConflictFree, Collide, AllPages, Offset;
    var owned: seq<string> := [];
    ghost var all := PathsOf(AllPages(features));
    OffsetOfAll(features);
    NothingConflicts();
    for f := 0 to |features|
      invariant Offset(features, f) == |owned| <= |all| && owned == all[..|owned|] && ConflictFree(owned)
      invariant forall k | 0 <= k < f :: CapabilitiesDeclared(features[k])
    {
      var feature := features[f];
      OffsetOfNext(features, f);
      for n := 0 to |feature.pages|
        invariant Offset(features, f) + n == |owned| <= |all| && owned == all[..|owned|] && ConflictFree(owned)
        invariant forall k | 0 <= k < n :: RequiredCapability(feature.pages[k].access) in feature.capabilities
      {
        var page := feature.pages[n];
        PageAt(features, f, n);
        if RequiredCapability(page.access) !in feature.capabilities {
          assert page in feature.pages && feature in features;
          return Err(MissingCapability(feature.id));
        }
        var conflicting := FindConflict(owned, page.path);
        if conflicting.Some? {
          ConflictInside(all, conflicting.value, |owned|);
          return Err(PageCollision(owned[conflicting.value], page.path));
        }
        OneMorePath(all, |owned|);
        owned := owned + [page.path];
      }
    }
    assert owned == all;
    return Ok(());
  }

  lemma NothingConflicts()
    ensures ConflictFree([])
  {
  }

  // ----- Loading -----

  /** A page as a feature's entry point contributes it; `render` stands for its renderer. */
  datatype LoadedPage = LoadedPage(page: Page, render: int)

  type Entrypoints = string -> seq<LoadedPage>

  function ManifestPages(loaded: seq<LoadedPage>): seq<Page> {
    seq(|loaded|, i requires 0 <= i < |loaded| => loaded[i].page)
  }

  /** The loaded pages are the manifest's, in any order. */
  ghost predicate WithoutDrift(feature: Feature, entrypoints: Entrypoints) {
    multiset(ManifestPages(entrypoints(feature.id))) == multiset(feature.pages)
  }

  function LoadedPages(features: seq<Feature>, entrypoints: Entrypoints): seq<LoadedPage> {
    if features == [] then []
    else LoadedPages(features[..|features| - 1], entrypoints) + entrypoints(features[|features| - 1].id)
  }

  // ----- Resolution -----

  function Count(loaded: LoadedPage): nat {
    DynamicSegmentCount(loaded.page.path)
  }

  function Insert(pages: seq<LoadedPage>, p: LoadedPage): seq<LoadedPage> {
    if pages == [] then [p]
    else if Count(pages[|pages| - 1]) <= Count(p) then pages + [p]
    else Insert(pages[..|pages| - 1], p) + [pages[|pages| - 1]]
  }

  /** `pages.sort(...)`: by dynamic segments, pages with the same count in the order given. */
  function SortByCount(pages: seq<LoadedPage>): seq<LoadedPage> {
    if pages == [] then [] else Insert(SortByCount(pages[..|pages| - 1]), pages[|pages| - 1])
  }

  ghost predicate Ascending(pages: seq<LoadedPage>) {
    forall i, j | 0 <= i < j < |pages| :: Count(pages[i]) <= Count(pages[j])
  }

  lemma {:induction false} InsertKeepsBag(pages: seq<LoadedPage>, p: LoadedPage)
    ensures multiset(Insert(pages, p)) == multiset(pages) + multiset{p}
  {
    hide Count;
    if pages != [] && Count(pages[|pages| - 1]) > Count(p) {
      var front, last := pages[..|pages| - 1], pages[|pages| - 1];
      assert pages == front + [last];
      InsertKeepsBag(front, p);
    }
  }

  lemma {:induction false} InsertSorts(pages: seq<LoadedPage>, p: LoadedPage)
    requires Ascending(pages)
    ensures Ascending(Insert(pages, p))
  {
    hide Count;
    if pages != [] && Count(pages[|pages| - 1]) > Count(p) {
      var front, last := pages[..|pages| - 1], pages[|pages| - 1];
      InsertSorts(front, p);
      InsertKeepsBag(front, p);
      var inserted := Insert(front, p);
      assert Insert(pages, p) == inserted + [last];
      hide Insert;
      forall x | x in inserted
        ensures Count(x) <= Count(last)
      {
        assert x in multiset(inserted);
        assert x in front || x == p;
      }
    }
  }

  lemma {:induction false} SortSorts(pages: seq<LoadedPage>)
    ensures Ascending(SortByCount(pages)) && multiset(SortByCount(pages)) == multiset(pages)
  {
    if pages != [] {
      var front, last := pages[..|pages| - 1], pages[|pages| - 1];
      assert pages == front + [last];
      SortSorts(front);
      InsertSorts(SortByCount(front), last);
      InsertKeepsBag(SortByCount(front), last);
    }
  }

  predicate PageMatches(loaded: LoadedPage, path: string) {
    PathMatches(loaded.page.path, path)
  }

  predicate IsStatic(loaded: LoadedPage) {
    Count(loaded) == 0
  }

  /** The first page, in sorted order, that matches. */
  function Resolved(pages: seq<LoadedPage>, path: string): Option<LoadedPage> {
    FirstMatch(SortByCount(pages), path)
  }

  function FirstMatch(pages: seq<LoadedPage>, path: string): Option<LoadedPage> {
    if pages == [] then None
    else if PageMatches(pages[0], path) then Some(pages[0])
    else FirstMatch(pages[1..], path)
  }

  method ResolvePage(pages: seq<LoadedPage>, path: string) returns (r: Option<(LoadedPage, map<string, string>)>)
    ensures r.Some? <==> Resolved(pages, path).Some?
    ensures r.Some? ==>
              && r.value.0 == Resolved(pages, path).value
              && PageMatches(r.value.0, path)
              && r.value.1 == Parameters(Split(r.value.0.page.path), Split(path), |Split(path)|)
  {
    var sorted := SortByCount(pages);
    for i := 0 to |sorted|
      invariant FirstMatch(sorted, path) == FirstMatch(sorted[i..], path)
    {
      var match_ := MatchPage(sorted[i].page.path, path);
      if match_.Some? {
        return Some((sorted[i], match_.value));
      }
      assert sorted[i..][1..] == sorted[i + 1..];
    }
    return None;
  }

  // ----- What resolution means -----

  lemma {:induction false} FirstMatchIsFirst(pages: seq<LoadedPage>, path: string)
    ensures FirstMatch(pages, path).None? <==> forall p | p in pages :: !PageMatches(p, path)
    ensures FirstMatch(pages, path).Some? ==>
              exists i | 0 <= i < |pages| ::
                pages[i] == FirstMatch(pages, path).value && PageMatches(pages[i], path) &&
                forall j | 0 <= j < i :: !PageMatches(pages[j], path)
  {
    hide PageMatches;
    if pages != [] && !PageMatches(pages[0], path) {
      FirstMatchIsFirst(pages[1..], path);
      assert pages == [pages[0]] + pages[1..];
      if FirstMatch(pages, path).Some? {
        var i :| 0 <= i < |pages[1..]| && pages[1..][i] == FirstMatch(pages, path).value && PageMatches(pages[1..][i], path) &&
                 forall j | 0 <= j < i :: !PageMatches(pages[1..][j], path);
        assert forall j | 0 <= j < i :: pages[j + 1] == pages[1..][j];
        assert pages[i + 1] == pages[1..][i];
        forall j | 0 <= j < i + 1
          ensures !PageMatches(pages[j], path)
        {
          if j > 0 {
            assert !PageMatches(pages[1..][j - 1], path);
          }
        }
      }
    } else if pages != [] {
      assert pages[0] in pages;
    }
  }

  /** The loaded pages have valid, pairwise different and unambiguous paths. */
  ghost predicate Unambiguous(pages: multiset<LoadedPage>) {
    && (forall p | p in pages :: pages[p] == 1 && ValidPagePath(p.page.path))
    && (forall p, q | p in pages && q in pages && p != q :: !Conflicts(p.page.path, q.page.path))
  }

  /** Among unambiguous pages a concrete path matches at most one static and at most one dynamic page. */
  lemma AtMostOneOfEach(pages: multiset<LoadedPage>, p: LoadedPage, q: LoadedPage, path: string)
    requires Unambiguous(pages) && p in pages && q in pages && p != q
    requires PageMatches(p, path) && PageMatches(q, path)
    ensures IsStatic(p) <==> !IsStatic(q)
  {
    BracketIffDynamic(p.page.path);
    BracketIffDynamic(q.page.path);
    CommonMatchOverlaps(p.page.path, q.page.path, path);
    if IsStatic(p) && IsStatic(q) {
      StaticMatchesItself(p.page.path, path);
      StaticMatchesItself(q.page.path, path);
    }
  }

  /**
   Resolution without reference to any order: the result is a matching page, static if there is a static one; and it
   is the only page of which that can be said.
   */
  ghost predicate Best(pages: multiset<LoadedPage>, path: string, best: LoadedPage) {
    && best in pages && PageMatches(best, path)
    && (IsStatic(best) || forall p | p in pages && IsStatic(p) :: !PageMatches(p, path))
  }

  lemma BestIsUnique(pages: multiset<LoadedPage>, path: string, one: LoadedPage, other: LoadedPage)
    requires Unambiguous(pages) && Best(pages, path, one) && Best(pages, path, other)
    ensures one == other
  {
    if one != other {
      AtMostOneOfEach(pages, one, other, path);
    }
  }

  lemma SortedMatchIsBest(sorted: seq<LoadedPage>, path: string, i: nat)
    requires Ascending(sorted) && i < |sorted| && PageMatches(sorted[i], path)
    requires forall j | 0 <= j < i :: !PageMatches(sorted[j], path)
    ensures Best(multiset(sorted), path, sorted[i])
  {
    hide PageMatches, Count;
    if !IsStatic(sorted[i]) {
      forall p | p in multiset(sorted) && IsStatic(p)
        ensures !PageMatches(p, path)
      {
        assert p in sorted;
        var j :| 0 <= j < |sorted| && sorted[j] == p;
        assert j < i;
      }
    }
  }

  lemma ResolvedIsBest(pages: seq<LoadedPage>, path: string)
    ensures Resolved(pages, path).None? <==> forall p | p in multiset(pages) :: !PageMatches(p, path)
    ensures Resolved(pages, path).Some? ==> Best(multiset(pages), path, Resolved(pages, path).value)
  {
    var sorted := SortByCount(pages);
    SortSorts(pages);
    FirstMatchIsFirst(sorted, path);
    hide PageMatches, FirstMatch, SortByCount, Best, Ascending;
    assert forall p :: p in sorted <==> p in multiset(sorted);
    if FirstMatch(sorted, path).Some? {
      var i :| 0 <= i < |sorted| && sorted[i] == FirstMatch(sorted, path).value && PageMatches(sorted[i], path) &&
               forall j | 0 <= j < i :: !PageMatches(sorted[j], path);
      SortedMatchIsBest(sorted, path, i);
    }
  }

  /** The same pages in another order resolve every path to the same page. */
  lemma ResolutionIgnoresOrder(one: seq<LoadedPage>, other: seq<LoadedPage>, path: string)
    requires multiset(one) == multiset(other) && Unambiguous(multiset(one))
    ensures Resolved(one, path) == Resolved(other, path)
  {
    ResolvedIsBest(one, path);
    ResolvedIsBest(other, path);
    hide PageMatches, Resolved, Unambiguous;
    if Resolved(one, path).Some? && Resolved(other, path).Some? {
      BestIsUnique(multiset(one), path, Resolved(one, path).value, Resolved(other, path).value);
    }
  }

  // ----- From the boot check to resolution -----

  lemma ConflictsIsSymmetric(one: string, other: string)
    ensures Conflicts(one, other) <==> Conflicts(other, one)
  {
  }

  lemma MultisetCount<T>(items: seq<T>, i: nat, j: nat)
    requires i < j < |items| && items[i] == items[j]
    ensures multiset(items)[items[i]] >= 2
  {
    assert items == items[..j] + [items[j]] + items[j + 1..];
    assert items[i] in items[..j];
  }

  lemma {:induction false} CountedTwice<T>(items: seq<T>, x: T) returns (i: nat, j: nat)
    requires multiset(items)[x] >= 2
    ensures i < j < |items| && items[i] == x == items[j]
  {
    var n := |items| - 1;
    assert items == items[..n] + [items[n]];
    if items[n] == x {
      assert x in multiset(items[..n]);
      i :| 0 <= i < n && items[i] == x;
      j := n;
    } else {
      i, j := CountedTwice(items[..n], x);
    }
  }

  lemma DistinctCountOnce<T>(items: seq<T>)
    requires NoDuplicates(items)
    ensures forall x :: multiset(items)[x] <= 1
  {
    forall x | multiset(items)[x] >= 2
      ensures false
    {
      var i, j := CountedTwice(items, x);
    }
  }

  lemma ConflictFreeIsDistinct(pages: seq<Page>)
    requires ConflictFree(PathsOf(pages))
    ensures NoDuplicates(pages)
  {
    var paths := PathsOf(pages);
    forall i, j | 0 <= i < j < |pages|
      ensures pages[i] != pages[j]
    {
      SelfConflict(paths[i]);
      assert !Conflicts(paths[i], paths[j]);
    }
  }

  lemma ConflictFreePair(pages: seq<Page>, one: Page, other: Page)
    requires ConflictFree(PathsOf(pages)) && one in pages && other in pages && one != other
    ensures !Conflicts(one.path, other.path)
  {
    hide Conflicts;
    var a :| 0 <= a < |pages| && pages[a] == one;
    var b :| 0 <= b < |pages| && pages[b] == other;
    assert PathsOf(pages)[a] == one.path && PathsOf(pages)[b] == other.path;
    ConflictsIsSymmetric(one.path, other.path);
  }

  /** Distinct pages have distinct renderings, whatever renders them. */
  lemma DistinctManifest(loaded: seq<LoadedPage>)
    requires forall page :: multiset(ManifestPages(loaded))[page] <= 1
    ensures NoDuplicates(loaded)
    ensures forall i, j | 0 <= i < |loaded| && 0 <= j < |loaded| && i != j :: loaded[i].page != loaded[j].page
  {
    forall i, j | 0 <= i < j < |loaded|
      ensures loaded[i].page != loaded[j].page
    {
      if loaded[i].page == loaded[j].page {
        MultisetCount(ManifestPages(loaded), i, j);
      }
    }
  }

  /** Pages that are a conflict-free manifest's, in any order, are unambiguous. */
  lemma ConflictFreeIsUnambiguous(pages: seq<Page>, loaded: seq<LoadedPage>)
    requires ConflictFree(PathsOf(pages)) && forall p | p in pages :: ValidPagePath(p.path)
    requires multiset(ManifestPages(loaded)) == multiset(pages)
    ensures Unambiguous(multiset(loaded))
  {
    hide Conflicts, ValidPagePath, ConflictFree;
    ConflictFreeIsDistinct(pages);
    DistinctCountOnce(pages);
    DistinctManifest(loaded);
    DistinctCountOnce(loaded);
    forall p | p in multiset(loaded)
      ensures multiset(loaded)[p] == 1 && p.page in pages
    {
      LoadedFromManifest(pages, loaded, p);
    }
    forall p, q | p in multiset(loaded) && q in multiset(loaded) && p != q
      ensures !Conflicts(p.page.path, q.page.path)
    {
      var i :| 0 <= i < |loaded| && loaded[i] == p;
      var j :| 0 <= j < |loaded| && loaded[j] == q;
      ConflictFreePair(pages, p.page, q.page);
    }
  }

  lemma LoadedFromManifest(pages: seq<Page>, loaded: seq<LoadedPage>, p: LoadedPage)
    requires multiset(ManifestPages(loaded)) == multiset(pages) && p in multiset(loaded)
    ensures p.page in pages
  {
    var i :| 0 <= i < |loaded| && loaded[i] == p;
    assert ManifestPages(loaded)[i] in multiset(ManifestPages(loaded));
  }

  lemma SelfConflict(path: string)
    ensures Conflicts(path, path)
  {
  }

  lemma ManifestPagesOfConcat(one: seq<LoadedPage>, other: seq<LoadedPage>)
    ensures ManifestPages(one + other) == ManifestPages(one) + ManifestPages(other)
  {
  }

  lemma {:induction false} LoadedAreManifest(features: seq<Feature>, entrypoints: Entrypoints)
    requires forall f | f in features :: WithoutDrift(f, entrypoints)
    ensures multiset(ManifestPages(LoadedPages(features, entrypoints))) == multiset(AllPages(features))
  {
    if features != [] {
      var front, last := features[..|features| - 1], features[|features| - 1];
      assert features == front + [last];
      assert last in features;
      LoadedAreManifest(front, entrypoints);
      ManifestPagesOfConcat(LoadedPages(front, entrypoints), entrypoints(last.id));
      assert WithoutDrift(last, entrypoints);
    }
  }

  lemma LoadedSnoc(features: seq<Feature>, f: Feature, entrypoints: Entrypoints)
    ensures LoadedPages(features + [f], entrypoints) == LoadedPages(features, entrypoints) + entrypoints(f.id)
  {
    assert (features + [f])[..|features|] == features;
  }

  lemma {:induction false} LoadedWithout(before: seq<Feature>, f: Feature, after: seq<Feature>, entrypoints: Entrypoints)
    ensures multiset(LoadedPages(before + [f] + after, entrypoints)) ==
            multiset(LoadedPages(before + after, entrypoints)) + multiset(entrypoints(f.id))
  {
    hide LoadedPages;
    if after == [] {
      assert before + [f] + after == before + [f] && before + after == before;
      LoadedSnoc(before, f, entrypoints);
    } else {
      var front, last := after[..|after| - 1], after[|after| - 1];
      LoadedWithout(before, f, front, entrypoints);
      assert before + [f] + after == before + [f] + front + [last] && before + after == before + front + [last];
      LoadedSnoc(before + [f] + front, last, entrypoints);
      LoadedSnoc(before + front, last, entrypoints);
    }
  }

  lemma {:induction false} LoadedOfPermutation(one: seq<Feature>, other: seq<Feature>, entrypoints: Entrypoints)
    requires multiset(one) == multiset(other)
    ensures multiset(LoadedPages(one, entrypoints)) == multiset(LoadedPages(other, entrypoints))
    decreases |one|
  {
    hide LoadedPages;
    if one == [] {
      assert |other| == |multiset(other)| == 0;
    } else {
      var front, last := one[..|one| - 1], one[|one| - 1];
      var before, after := WithoutLast(one, other);
      LoadedOfPermutation(front, before + after, entrypoints);
      LoadedWithout(before, last, after, entrypoints);
      assert one == front + [last];
      LoadedSnoc(front, last, entrypoints);
    }
  }

  /**
   Once the boot check has passed and every feature has loaded its manifest's pages, the features may be registered in
   any order: every concrete path resolves to the one best page, or to none if no page matches.
   */
  lemma RegistrationOrderDoesNotMatter(features: seq<Feature>, reordered: seq<Feature>, entrypoints: Entrypoints, path: string)
    requires multiset(features) == multiset(reordered)
    requires ConflictFree(PathsOf(AllPages(features)))
    requires forall p | p in AllPages(features) :: ValidPagePath(p.path)
    requires forall f | f in features :: WithoutDrift(f, entrypoints)
    ensures var loaded := multiset(LoadedPages(features, entrypoints));
            var result := Resolved(LoadedPages(features, entrypoints), path);
            && Resolved(LoadedPages(reordered, entrypoints), path) == result
            && (result.None? <==> forall p | p in loaded :: !PageMatches(p, path))
            && (result.Some? ==> forall p | Best(loaded, path, p) :: p == result.value)
            && (result.Some? ==> Best(loaded, path, result.value))
  {
    hide PageMatches, Resolved, ConflictFree, Unambiguous, Best;
    var loaded := LoadedPages(features, entrypoints);
    LoadedAreManifest(features, entrypoints);
    ConflictFreeIsUnambiguous(AllPages(features), loaded);
    LoadedOfPermutation(features, reordered, entrypoints);
    ResolutionIgnoresOrder(loaded, LoadedPages(reordered, entrypoints), path);
    ResolvedIsBest(loaded, path);
    forall p | Best(multiset(loaded), path, p) && Resolved(loaded, path).Some?
      ensures p == Resolved(loaded, path).value
    {
      BestIsUnique(multiset(loaded), path, p, Resolved(loaded, path).value);
    }
  }
}
