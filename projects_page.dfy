/**
 * The data side of the projects listing page (`ProjectsPage`): it builds one
 * view-counter key per project, folds the fetched counters into a slug-to-count
 * map, picks three featured projects by slug, and lists the other published
 * projects newest first, split into the first two and the rest.
 *
 * The project records and the fetched counters are inputs: `fetched[i]` is
 * the counter stored under `ViewKeys(allProjects)[i]`, `None` when absent.
 * Dates are integer timestamps; `None` stands for a project without a date.
 */
module ProjectsPage {
  import opened Wrappers

  /** A project record, reduced to the fields the page's logic reads. */
  datatype Project = Project(slug: string, published: bool, date: Option<int>)

  /** The three projects the page features above the listing. */
  const FeaturedSlug: string := "unkey"
  const Top2Slug: string := "planetfall"
  const Top3Slug: string := "highstorm"

  function Min(a: int, b: int): int { if a <= b then a else b }

  // ---------------------------------------------------------------------------
  // View-counter keys
  // ---------------------------------------------------------------------------

  /** `parts.join(sep)`. */
  function Join(parts: seq<string>, sep: string): string
    decreases |parts|
  {
    if |parts| == 0 then ""
    else if |parts| == 1 then parts[0]
    else parts[0] + sep + Join(parts[1..], sep)
  }

  const KeyPrefix: string := "pageviews:projects:"

  /** `["pageviews", "projects", slug].join(":")`. */
  function ViewKey(slug: string): (key: string)
    ensures key == KeyPrefix + slug
  {
    var parts := ["pageviews", "projects", slug];
    assert parts[1..] == ["projects", slug] && parts[1..][1..] == [slug];
    assert Join([slug], ":") == slug;
    assert Join(parts[1..], ":") == "projects" + ":" + slug;
    assert Join(parts, ":") == "pageviews" + ":" + ("projects" + ":" + slug);
    assert "pageviews" + ":" + ("projects" + ":" + slug) == KeyPrefix + slug;
    Join(parts, ":")
  }

  /** Reads the slug back out of a view-counter key. */
  function SlugOfKey(key: string): (slug: Option<string>)
    ensures slug.Some? <==> |key| >= |KeyPrefix| && key[..|KeyPrefix|] == KeyPrefix
    ensures slug.Some? ==> key == KeyPrefix + slug.value
  {
    if |key| >= |KeyPrefix| && key[..|KeyPrefix|] == KeyPrefix then Some(key[|KeyPrefix|..]) else None
  }

  /** A key names exactly one slug: distinct projects never share a counter. */
  lemma KeyRoundTrip(slug: string, other: string)
    ensures SlugOfKey(ViewKey(slug)) == Some(slug)
    ensures ViewKey(slug) == ViewKey(other) <==> slug == other
  {
    var k := ViewKey(slug);
    assert k[..|KeyPrefix|] == KeyPrefix;
    assert k[|KeyPrefix|..] == slug;
    if ViewKey(slug) == ViewKey(other) {
      assert ViewKey(other)[|KeyPrefix|..] == other;
    }
  }

  /** `allProjects.map(p => ViewKey(p.slug))`: one key per project, in order. */
  function ViewKeys(ps: seq<Project>): (keys: seq<string>)
    ensures |keys| == |ps|
    ensures forall i :: 0 <= i < |ps| ==> SlugOfKey(keys[i]) == Some(ps[i].slug)
    decreases |ps|
  {
    if |ps| == 0 then []
    else
      KeyRoundTrip(ps[0].slug, ps[0].slug);
      [ViewKey(ps[0].slug)] + ViewKeys(ps[1..])
  }

  // ---------------------------------------------------------------------------
  // View counts
  // ---------------------------------------------------------------------------

  /** `v ?? 0`. */
  function OrZero(v: Option<int>): int {
    v.GetOr(0)
  }

  /** The slugs of all projects. */
  function Slugs(ps: seq<Project>): set<string> {
    set i | 0 <= i < |ps| :: ps[i].slug
  }

  lemma SlugsOfPrefix(ps: seq<Project>, i: nat)
    requires i < |ps|
    ensures Slugs(ps[..i + 1]) == Slugs(ps[..i]) + {ps[i].slug}
  {
    var a, b := ps[..i + 1], ps[..i];
    assert a[i] == ps[i];
    forall x | x in Slugs(a) ensures x in Slugs(b) + {ps[i].slug} {
      var k :| 0 <= k < |a| && a[k].slug == x;
      if k < i { assert b[k] == a[k]; }
    }
    forall x | x in Slugs(b) ensures x in Slugs(a) {
      var k :| 0 <= k < |b| && b[k].slug == x;
      assert a[k] == b[k];
    }
  }

  /** No project after index k and before index hi has the slug of project k. */
  predicate LastBefore(ps: seq<Project>, k: nat, hi: nat)
    requires k < |ps| && hi <= |ps|
  {
    forall j :: k < j < hi ==> ps[j].slug != ps[k].slug
  }

  /**
   * The `reduce` that builds `views`: for each index i, `acc[allProjects[i].slug]
   * = fetched[i] ?? 0`. Each slug gets the count of its last occurrence and
   * the map has no other keys.
   */
  method BuildViews(ps: seq<Project>, fetched: seq<Option<int>>) returns (views: map<string, int>)
    requires |fetched| == |ps|
    ensures views.Keys == Slugs(ps)
    ensures forall i :: 0 <= i < |ps| && LastBefore(ps, i, |ps|) ==> views[ps[i].slug] == OrZero(fetched[i])
  {
    views := map[];
    var i := 0;
    while i < |fetched|
      invariant 0 <= i <= |ps|
      invariant views.Keys == Slugs(ps[..i])
      invariant forall k :: 0 <= k < i ==> ps[k].slug in views
      invariant forall k :: 0 <= k < i && LastBefore(ps, k, i) ==> views[ps[k].slug] == OrZero(fetched[k])
    {
      SlugsOfPrefix(ps, i);
      LastWinsStep(ps, fetched, views, i);
      views := views[ps[i].slug := OrZero(fetched[i])];
      i := i + 1;
    }
    assert ps[..i] == ps;
  }

  /** One step of the fold keeps "each slug holds the count of its last occurrence so far". */
  lemma LastWinsStep(ps: seq<Project>, fetched: seq<Option<int>>, views: map<string, int>, i: nat)
    requires |fetched| == |ps| && i < |ps|
    requires forall k :: 0 <= k < i ==> ps[k].slug in views
    requires forall k :: 0 <= k < i && LastBefore(ps, k, i) ==> views[ps[k].slug] == OrZero(fetched[k])
    ensures forall k :: 0 <= k < i + 1 && LastBefore(ps, k, i + 1) ==>
              views[ps[i].slug := OrZero(fetched[i])][ps[k].slug] == OrZero(fetched[k])
  {
    var next := views[ps[i].slug := OrZero(fetched[i])];
    forall k | 0 <= k < i + 1 && LastBefore(ps, k, i + 1)
      ensures next[ps[k].slug] == OrZero(fetched[k])
    {
      if k < i {
        assert ps[i].slug != ps[k].slug;
        assert LastBefore(ps, k, i);
      }
    }
  }

  /** `views[slug] ?? 0`: the count shown on a card. */
  function ViewCount(views: map<string, int>, slug: string): int {
    if slug in views then views[slug] else 0
  }

  /** The index of the last project with the given slug: the one whose counter `views` keeps. */
  function LastIndex(ps: seq<Project>, slug: string): (j: nat)
    requires slug in Slugs(ps)
    ensures j < |ps| && ps[j].slug == slug && LastBefore(ps, j, |ps|)
    decreases |ps|
  {
    var n := |ps| - 1;
    if ps[n].slug == slug then n
    else
      var k :| 0 <= k < |ps| && ps[k].slug == slug;
      assert ps[..n][k] == ps[k];
      var j := LastIndex(ps[..n], slug);
      assert forall m :: j < m < n ==> ps[m] == ps[..n][m];
      j
  }

  /**
   * The count a card shows for a project's slug is the counter fetched for
   * the last project with that slug, or 0 when that counter is absent.
   */
  lemma CountShown(ps: seq<Project>, fetched: seq<Option<int>>, views: map<string, int>, slug: string)
    requires |fetched| == |ps| && slug in Slugs(ps)
    requires views.Keys == Slugs(ps)
    requires forall i :: 0 <= i < |ps| && LastBefore(ps, i, |ps|) ==> views[ps[i].slug] == OrZero(fetched[i])
    ensures ViewCount(views, slug) == OrZero(fetched[LastIndex(ps, slug)])
  {
    var j := LastIndex(ps, slug);
    assert views[ps[j].slug] == OrZero(fetched[j]);
  }

  // ---------------------------------------------------------------------------
  // Featured projects
  // ---------------------------------------------------------------------------

  /** The index of the first project with the given slug. */
  function FindIndex(ps: seq<Project>, slug: string): (r: Option<nat>)
    ensures r.Some? ==> r.value < |ps| && ps[r.value].slug == slug
    ensures r.Some? ==> forall j :: 0 <= j < r.value ==> ps[j].slug != slug
    ensures r.None? ==> forall j :: 0 <= j < |ps| ==> ps[j].slug != slug
    decreases |ps|
  {
    if |ps| == 0 then None
    else if ps[0].slug == slug then Some(0)
    else match FindIndex(ps[1..], slug)
      case None => None
      case Some(i) => Some(i + 1)
  }

  /** `p` is the first project of `ps` that has the slug. */
  predicate FirstWithSlug(ps: seq<Project>, slug: string, p: Project) {
    exists i :: 0 <= i < |ps| && ps[i] == p && p.slug == slug && forall j :: 0 <= j < i ==> ps[j].slug != slug
  }

  /** `allProjects.find(project => project.slug === slug)`: the first match. */
  function Find(ps: seq<Project>, slug: string): (r: Option<Project>)
    ensures r.Some? <==> slug in Slugs(ps)
    ensures r.Some? ==> r.value in ps && FirstWithSlug(ps, slug, r.value)
  {
    match FindIndex(ps, slug)
    case None => None
    case Some(i) =>
      assert FirstWithSlug(ps, slug, ps[i]) by {
        assert 0 <= i < |ps| && ps[i].slug == slug && forall j :: 0 <= j < i ==> ps[j].slug != slug;
      }
      Some(ps[i])
  }

  // ---------------------------------------------------------------------------
  // The listing
  // ---------------------------------------------------------------------------

  /** `s.filter(keep)`. */
  function Filter<T(==, !new)>(keep: T -> bool, s: seq<T>): (r: seq<T>)
    ensures |r| <= |s|
    ensures forall x :: x in r <==> x in s && keep(x)
    ensures forall x :: multiset(r)[x] == if keep(x) then multiset(s)[x] else 0
    decreases |s|
  {
    if |s| == 0 then []
    else
      assert s == [s[0]] + s[1..];
      if keep(s[0]) then [s[0]] + Filter(keep, s[1..]) else Filter(keep, s[1..])
  }

  /** Published, and none of the three featured slugs. */
  predicate Listed(p: Project, a: string, b: string, c: string) {
    p.published && p.slug != a && p.slug != b && p.slug != c
  }

  /** The two `filter` steps: published projects, then those not featured. */
  function Candidates(ps: seq<Project>, a: string, b: string, c: string): (r: seq<Project>)
    ensures forall p :: p in r <==> p in ps && Listed(p, a, b, c)
    ensures forall p :: multiset(r)[p] == if Listed(p, a, b, c) then multiset(ps)[p] else 0
  {
    var published := Filter((p: Project) => p.published, ps);
    Filter((p: Project) => p.slug != a && p.slug != b && p.slug != c, published)
  }

  /**
   * The sort comparator `(a, b) => time(b) - time(a)`, where an undated
   * project has time `new Date(Infinity).getTime()`, which is NaN; `None`
   * is that NaN, which the sort treats as 0 (keep the order).
   */
  function Compare(a: Project, b: Project): (r: Option<int>)
    ensures r.Some? <==> a.date.Some? && b.date.Some?
    ensures r.Some? ==> (r.value > 0 <==> b.date.value > a.date.value)
  {
    if a.date.Some? && b.date.Some? then Some(b.date.value - a.date.value) else None
  }

  /** The comparator asks to put `a` after `b`. */
  predicate After(a: Project, b: Project) {
    match Compare(a, b)
    case Some(d) => d > 0
    case None => false
  }

  predicate AllDated(s: seq<Project>) {
    forall i :: 0 <= i < |s| ==> s[i].date.Some?
  }

  /** The timestamp of a dated project (0 for an undated one, which never matters below). */
  function Time(p: Project): int {
    p.date.GetOr(0)
  }

  /** s[lo..hi] is in non-increasing date order. */
  predicate NewestFirstBetween(s: seq<Project>, lo: nat, hi: nat) {
    forall k, m :: lo <= k < m < hi <= |s| ==> Time(s[k]) >= Time(s[m])
  }

  /** Every project has a date and no project is older than one after it. */
  predicate NewestFirst(s: seq<Project>) {
    AllDated(s) && NewestFirstBetween(s, 0, |s|)
  }

  lemma DatedPermutation(s: seq<Project>, t: seq<Project>)
    requires multiset(s) == multiset(t)
    ensures AllDated(s) <==> AllDated(t)
  {
    if AllDated(s) {
      forall i | 0 <= i < |t| ensures t[i].date.Some? {
        assert t[i] in multiset(s);
        var k :| 0 <= k < |s| && s[k] == t[i];
      }
    }
    if AllDated(t) {
      forall i | 0 <= i < |s| ensures s[i].date.Some? {
        assert s[i] in multiset(t);
        var k :| 0 <= k < |t| && t[k] == s[i];
      }
    }
  }

  /** Exchanges a[j - 1] and a[j]. */
  method SwapDown(a: array<Project>, j: nat)
    requires 0 < j < a.Length
    modifies a
    ensures a[..] == old(a[..])[j - 1 := old(a[j])][j := old(a[j - 1])]
    ensures multiset(a[..]) == multiset(old(a[..]))
  {
    a[j - 1], a[j] := a[j], a[j - 1];
  }

  /**
   * One pass of the insertion sort: a[i] moves left while the comparator says
   * its left neighbour belongs after it. When everything is dated and a[..i]
   * was newest first, a[..i + 1] is newest first afterwards.
   */
  method InsertAt(a: array<Project>, i: nat)
    requires i < a.Length
    modifies a
    ensures multiset(a[..]) == multiset(old(a[..]))
    ensures a[i + 1..] == old(a[i + 1..])
    ensures AllDated(old(a[..])) && NewestFirstBetween(old(a[..]), 0, i) ==>
              AllDated(a[..]) && NewestFirstBetween(a[..], 0, i + 1)
  {
    ghost var dated := AllDated(a[..]) && NewestFirstBetween(a[..], 0, i);
    var j := i;
    while j > 0 && After(a[j - 1], a[j])
      invariant 0 <= j <= i
      invariant multiset(a[..]) == multiset(old(a[..]))
      invariant a[i + 1..] == old(a[i + 1..])
      invariant dated ==> AllDated(a[..])
      invariant dated ==> NewestFirstBetween(a[..], 0, j) && NewestFirstBetween(a[..], j, i + 1)
      invariant dated ==> forall k, m :: 0 <= k < j < m <= i ==> Time(a[k]) >= Time(a[m])
    {
      SwapDown(a, j);
      j := j - 1;
    }
  }

  /**
   * The in-place `sort`: an insertion sort driven by the comparator. It only
   * reorders; when every project has a date the result is newest first. With
   * undated projects the comparator is not a consistent order and nothing is
   * promised about the order.
   */
  method SortNewestFirst(a: array<Project>)
    modifies a
    ensures multiset(a[..]) == multiset(old(a[..]))
    ensures AllDated(a[..]) <==> AllDated(old(a[..]))
    ensures AllDated(a[..]) ==> NewestFirst(a[..])
  {
    ghost var dated := AllDated(a[..]);
    var i := 0;
    while i < a.Length
      invariant 0 <= i <= a.Length
      invariant multiset(a[..]) == multiset(old(a[..]))
      invariant dated ==> AllDated(a[..]) && NewestFirstBetween(a[..], 0, i)
    {
      InsertAt(a, i);
      i := i + 1;
    }
    DatedPermutation(a[..], old(a[..]));
  }

  /** `s.slice(start, end)` for non-negative arguments: both ends clamp to `|s|`. */
  function Slice<T>(s: seq<T>, start: nat, end: nat): (r: seq<T>)
    ensures |r| == if Min(start, |s|) < Min(end, |s|) then Min(end, |s|) - start else 0
    ensures forall i :: 0 <= i < |r| ==> r[i] == s[start + i]
  {
    var lo := Min(start, |s|);
    var hi := Min(end, |s|);
    if lo < hi then s[lo..hi] else []
  }

  /**
   * `sorted.slice(0, 2)` and `sorted.slice(2)` put back together give
   * `sorted`; the first part has at most two projects, and the second part,
   * the "remaining projects" section, is non-empty exactly when
   * `sorted.length > 2`.
   */
  lemma {:induction false} SplitAtTwo<T>(s: seq<T>)
    ensures Slice(s, 0, 2) + Slice(s, 2, |s|) == s
    ensures |Slice(s, 0, 2)| == Min(2, |s|)
    ensures |s| > 2 <==> Slice(s, 2, |s|) != []
  {
    var first, rest := Slice(s, 0, 2), Slice(s, 2, |s|);
    assert |first| + |rest| == |s|;
    forall i | 0 <= i < |s| ensures (first + rest)[i] == s[i] {
      if i >= |first| {
        assert (first + rest)[i] == rest[i - |first|];
      }
    }
  }

  // ---------------------------------------------------------------------------
  // The page
  // ---------------------------------------------------------------------------

  datatype Page = Page(
    keys: seq<string>,         // the keys passed to `mget`, one per project
    views: map<string, int>,
    featured: Project,
    top2: Project,
    top3: Project,
    sorted: seq<Project>,
    additional: seq<Project>,  // `sorted.slice(0, 2)`, shown under the featured pair
    remaining: seq<Project>,   // `sorted.slice(2)`, shown last
    showRemaining: bool)       // `sorted.length > 2`

  /**
   * `sorted`: the published projects other than the three featured ones,
   * newest first. It holds exactly the listed projects, each as often as in
   * `allProjects`.
   */
  method SortedListing(allProjects: seq<Project>, a: string, b: string, c: string) returns (sorted: seq<Project>)
    ensures forall p :: p in sorted ==> p in allProjects && p.published
    ensures forall p :: p in sorted ==> p.slug != a && p.slug != b && p.slug != c
    ensures forall p :: multiset(sorted)[p] == if Listed(p, a, b, c) then multiset(allProjects)[p] else 0
    ensures AllDated(sorted) ==> NewestFirst(sorted)
  {
    var candidates := Candidates(allProjects, a, b, c);
    var arr := new Project[|candidates|](i requires 0 <= i < |candidates| => candidates[i]);
    assert arr[..] == candidates;
    SortNewestFirst(arr);
    sorted := arr[..];
    assert multiset(sorted) == multiset(candidates);
    forall p | p in sorted ensures p in candidates {
      assert p in multiset(sorted);
    }
  }

  /**
   * The page's data: the three `find`s must succeed (the source asserts so
   * with `!`), and the fetched counters line up with the keys.
   */
  method BuildPage(allProjects: seq<Project>, fetched: seq<Option<int>>) returns (page: Page)
    requires |fetched| == |allProjects|
    requires FeaturedSlug in Slugs(allProjects)
    requires Top2Slug in Slugs(allProjects)
    requires Top3Slug in Slugs(allProjects)
    ensures page.featured in allProjects && FirstWithSlug(allProjects, FeaturedSlug, page.featured)
    ensures page.top2 in allProjects && FirstWithSlug(allProjects, Top2Slug, page.top2)
    ensures page.top3 in allProjects && FirstWithSlug(allProjects, Top3Slug, page.top3)
    ensures forall p :: p in page.sorted ==> p in allProjects && p.published
    ensures forall p :: p in page.sorted ==> p.slug != FeaturedSlug && p.slug != Top2Slug && p.slug != Top3Slug
    ensures forall p :: multiset(page.sorted)[p] ==
              if Listed(p, FeaturedSlug, Top2Slug, Top3Slug) then multiset(allProjects)[p] else 0
    ensures AllDated(page.sorted) ==> NewestFirst(page.sorted)
    ensures page.additional + page.remaining == page.sorted
    ensures |page.additional| == Min(2, |page.sorted|)
    ensures page.showRemaining <==> page.remaining != []
    ensures |page.keys| == |allProjects|
    ensures forall i :: 0 <= i < |allProjects| ==> page.keys[i] == KeyPrefix + allProjects[i].slug
    ensures page.views.Keys == Slugs(allProjects)
    ensures ViewCount(page.views, FeaturedSlug) == OrZero(fetched[LastIndex(allProjects, FeaturedSlug)])
    ensures ViewCount(page.views, Top2Slug) == OrZero(fetched[LastIndex(allProjects, Top2Slug)])
    ensures forall p :: p in page.sorted ==>
              p.slug in Slugs(allProjects) &&
              ViewCount(page.views, p.slug) == OrZero(fetched[LastIndex(allProjects, p.slug)])
  {
    var keys := ViewKeys(allProjects);
    var views := BuildViews(allProjects, fetched);
    var featured := Find(allProjects, FeaturedSlug).value;
    var top2 := Find(allProjects, Top2Slug).value;
    var top3 := Find(allProjects, Top3Slug).value;
    var sorted := SortedListing(allProjects, featured.slug, top2.slug, top3.slug);
    CountShown(allProjects, fetched, views, FeaturedSlug);
    CountShown(allProjects, fetched, views, Top2Slug);
    forall p | p in sorted
      ensures p.slug in Slugs(allProjects)
      ensures ViewCount(views, p.slug) == OrZero(fetched[LastIndex(allProjects, p.slug)])
    {
      var k :| 0 <= k < |allProjects| && allProjects[k] == p;
      CountShown(allProjects, fetched, views, p.slug);
    }
    SplitAtTwo(sorted);
    page := Page(keys, views, featured, top2, top3, sorted,
                 Slice(sorted, 0, 2), Slice(sorted, 2, |sorted|), |sorted| > 2);
  }
}
