/**
 * The anatomy atlas routes: a read-only tree of regions, each holding
 * subregions. The routes list the regions, look one region or one
 * subregion up, and search the subregions with a weighted score.
 */
module Atlas {
  import opened JsValues

  datatype Subregion = Subregion(
    id: string,
    name: string,
    description: Option<string>,
    keyStructures: Option<seq<string>>,
    clinicalRelevance: Option<string>)

  datatype Region = Region(id: string, name: string, icon: string, subregions: seq<Subregion>)

  // ----------------------------------------------------- GET /regions

  datatype RegionSummary = RegionSummary(id: string, name: string, icon: string, subregionCount: nat)

  /** `GET /api/atlas/regions`: one summary per region, in order, counting its subregions. */
  function RegionSummaries(regions: seq<Region>): (r: seq<RegionSummary>)
    ensures |r| == |regions|
    ensures forall i :: 0 <= i < |r| ==>
      && r[i].id == regions[i].id && r[i].name == regions[i].name && r[i].icon == regions[i].icon
      && r[i].subregionCount == |regions[i].subregions|
    decreases |regions|
  {
    if regions == [] then []
    else
      var g := regions[0];
      [RegionSummary(g.id, g.name, g.icon, |g.subregions|)] + RegionSummaries(regions[1..])
  }

  // ---------------------------------------------------------- lookups

  /** The reply of a lookup: the value, or a 404 with its message. */
  datatype Lookup<T> = Found(value: T) | NotFound(error: string)

  /** `regions.find(r => r.id === id)`. */
  function FindRegion(regions: seq<Region>, id: string): (r: Option<Region>)
    ensures r.None? <==> forall g :: g in regions ==> g.id != id
    ensures r.Some? ==> r.value in regions && r.value.id == id
    ensures r.Some? ==> exists i :: 0 <= i < |regions| && regions[i] == r.value && forall j :: 0 <= j < i ==> regions[j].id != id
  {
    Find(regions, (g: Region) => g.id == id)
  }

  /** `subregions.find(s => s.id === id)`. */
  function FindSubregion(subregions: seq<Subregion>, id: string): (r: Option<Subregion>)
    ensures r.None? <==> forall s :: s in subregions ==> s.id != id
    ensures r.Some? ==> r.value in subregions && r.value.id == id
    ensures r.Some? ==> exists i :: 0 <= i < |subregions| && subregions[i] == r.value && forall j :: 0 <= j < i ==> subregions[j].id != id
  {
    Find(subregions, (s: Subregion) => s.id == id)
  }

  /** `GET /api/atlas/regions/:regionId`. */
  function GetRegion(regions: seq<Region>, regionId: string): (r: Lookup<Region>)
    ensures r.NotFound? <==> forall g :: g in regions ==> g.id != regionId
    ensures r.NotFound? ==> r.error == "Region not found"
    ensures r.Found? ==> r.value in regions && r.value.id == regionId
    ensures r.Found? ==> exists i :: 0 <= i < |regions| && regions[i] == r.value && forall j :: 0 <= j < i ==> regions[j].id != regionId
  {
    var g := FindRegion(regions, regionId);
    if g.None? then NotFound("Region not found") else Found(g.value)
  }

  /** `{ ...subregion, regionName: region.name }`. */
  datatype SubregionDetail = SubregionDetail(subregion: Subregion, regionName: string)

  /**
   * `GET /api/atlas/regions/:regionId/:subregionId`: "Region not found"
   * exactly when no region has the ID; "Subregion not found" exactly when
   * the region exists but the subregion does not; otherwise the subregion
   * of that region together with the region's name.
   */
  function GetSubregion(regions: seq<Region>, regionId: string, subregionId: string): (r: Lookup<SubregionDetail>)
    ensures r == NotFound("Region not found") <==> forall g :: g in regions ==> g.id != regionId
    ensures r == NotFound("Subregion not found") <==>
      && FindRegion(regions, regionId).Some?
      && forall s :: s in FindRegion(regions, regionId).value.subregions ==> s.id != subregionId
    ensures r.NotFound? ==> r.error == "Region not found" || r.error == "Subregion not found"
    ensures r.Found? <==>
      && FindRegion(regions, regionId).Some?
      && exists s :: s in FindRegion(regions, regionId).value.subregions && s.id == subregionId
    ensures r.Found? ==>
      exists g :: g in regions && g.id == regionId
        && r.value.regionName == g.name && r.value.subregion in g.subregions
        && r.value.subregion.id == subregionId
  {
    var g := FindRegion(regions, regionId);
    if g.None? then NotFound("Region not found")
    else
      var s := FindSubregion(g.value.subregions, subregionId);
      if s.None? then NotFound("Subregion not found")
      else Found(SubregionDetail(s.value, g.value.name))
  }

  // ---------------------------------------------------------- search

  /** One search result. */
  datatype Hit = Hit(regionId: string, regionName: string, subregionId: string,
                     subregionName: string, matchScore: int)

  /** Some key structure contains the query, ignoring case. */
  predicate AnyIncludes(structures: seq<string>, query: string) {
    exists i :: 0 <= i < |structures| && Includes(Lower(structures[i]), query)
  }

  /**
   * The weighted match score of a subregion against a lower-cased query:
   * 3 for the name, 2 for the description, 2 for any key structure and 1
   * for the clinical relevance; so between 0 and 8.
   */
  function Score(s: Subregion, query: string): (r: int)
    ensures 0 <= r <= 8
    ensures Includes(Lower(s.name), query) ==> r >= 3
  {
    (if Includes(Lower(s.name), query) then 3 else 0)
    + (if Truthy(s.description) && Includes(Lower(s.description.value), query) then 2 else 0)
    + (if s.keyStructures.Some? && AnyIncludes(s.keyStructures.value, query) then 2 else 0)
    + (if Truthy(s.clinicalRelevance) && Includes(Lower(s.clinicalRelevance.value), query) then 1 else 0)
  }

  function HitOf(g: Region, s: Subregion, query: string): Hit {
    Hit(g.id, g.name, s.id, s.name, Score(s, query))
  }

  /** The results the inner loop pushes for subregions `subs` of region `g`, in order. */
  function SubregionHits(g: Region, subs: seq<Subregion>, query: string): seq<Hit>
    decreases |subs|
  {
    if subs == [] then []
    else
      var s := subs[|subs| - 1];
      SubregionHits(g, subs[..|subs| - 1], query) + (if Score(s, query) > 0 then [HitOf(g, s, query)] else [])
  }

  /** The results both loops push, region by region, before sorting. */
  function RegionHits(regions: seq<Region>, query: string): seq<Hit>
    decreases |regions|
  {
    if regions == [] then []
    else
      var g := regions[|regions| - 1];
      RegionHits(regions[..|regions| - 1], query) + SubregionHits(g, g.subregions, query)
  }

  /** Subregion `j` of region `i` scores above zero. */
  predicate Matched(regions: seq<Region>, i: int, j: int, query: string) {
    0 <= i < |regions| && 0 <= j < |regions[i].subregions| && Score(regions[i].subregions[j], query) > 0
  }

  lemma {:induction false} SubregionHitsExactly(g: Region, subs: seq<Subregion>, query: string)
    ensures forall h :: h in SubregionHits(g, subs, query) <==>
      exists j :: 0 <= j < |subs| && Score(subs[j], query) > 0 && h == HitOf(g, subs[j], query)
    decreases |subs|
  {
    if subs != [] {
      var init := subs[..|subs| - 1];
      SubregionHitsExactly(g, init, query);
      forall h
        ensures h in SubregionHits(g, subs, query) <==>
          exists j :: 0 <= j < |subs| && Score(subs[j], query) > 0 && h == HitOf(g, subs[j], query)
      {
        if h in SubregionHits(g, init, query) {
          var j :| 0 <= j < |init| && Score(init[j], query) > 0 && h == HitOf(g, init[j], query);
          assert subs[j] == init[j];
        }
        if exists j :: 0 <= j < |subs| && Score(subs[j], query) > 0 && h == HitOf(g, subs[j], query) {
          var j :| 0 <= j < |subs| && Score(subs[j], query) > 0 && h == HitOf(g, subs[j], query);
          if j < |init| {
            assert subs[j] == init[j];
          }
        }
      }
    }
  }

  /**
   * Exactly the subregions scoring above zero are reported, each with the
   * region whose subregion list holds it and with its score.
   */
  lemma {:induction false} RegionHitsExactly(regions: seq<Region>, query: string)
    ensures forall h :: h in RegionHits(regions, query) <==>
      exists i, j :: Matched(regions, i, j, query) && h == HitOf(regions[i], regions[i].subregions[j], query)
    decreases |regions|
  {
    if regions != [] {
      var init := regions[..|regions| - 1];
      var g := regions[|regions| - 1];
      RegionHitsExactly(init, query);
      SubregionHitsExactly(g, g.subregions, query);
      forall h
        ensures h in RegionHits(regions, query) <==>
          exists i, j :: Matched(regions, i, j, query) && h == HitOf(regions[i], regions[i].subregions[j], query)
      {
        if h in RegionHits(init, query) {
          var i, j :| Matched(init, i, j, query) && h == HitOf(init[i], init[i].subregions[j], query);
          assert regions[i] == init[i];
          assert Matched(regions, i, j, query);
        }
        if h in SubregionHits(g, g.subregions, query) {
          var j :| 0 <= j < |g.subregions| && Score(g.subregions[j], query) > 0
            && h == HitOf(g, g.subregions[j], query);
          assert Matched(regions, |regions| - 1, j, query);
        }
        if exists i, j :: Matched(regions, i, j, query) && h == HitOf(regions[i], regions[i].subregions[j], query) {
          var i, j :| Matched(regions, i, j, query) && h == HitOf(regions[i], regions[i].subregions[j], query);
          if i < |init| {
            assert regions[i] == init[i];
            assert Matched(init, i, j, query);
          }
        }
      }
    }
  }

  // ----------------------------------------------------------- sorting

  /** Scores never increase along `s`. */
  predicate ScoresDescending(s: seq<Hit>) {
    forall i, j :: 0 <= i < j < |s| ==> s[i].matchScore >= s[j].matchScore
  }

  /** Places `h` before the first result scoring no higher, so `h` precedes its equals. */
  function InsertByScore(h: Hit, s: seq<Hit>): (r: seq<Hit>)
    requires ScoresDescending(s)
    ensures ScoresDescending(r)
    ensures multiset(r) == multiset(s) + multiset{h}
    decreases |s|
  {
    if s == [] then [h]
    else if s[0].matchScore <= h.matchScore then
      assert forall j :: 0 < j < |s| + 1 ==> ([h] + s)[j] == s[j - 1];
      [h] + s
    else
      var rest := InsertByScore(h, s[1..]);
      assert s == [s[0]] + s[1..];
      InsertAfterHead(s[0], rest, s[1..], h);
      [s[0]] + rest
  }

  lemma InsertAfterHead(x: Hit, rest: seq<Hit>, tail: seq<Hit>, h: Hit)
    requires ScoresDescending(rest) && ScoresDescending([x] + tail)
    requires multiset(rest) == multiset(tail) + multiset{h}
    requires x.matchScore >= h.matchScore
    ensures ScoresDescending([x] + rest)
  {
    forall j | 0 <= j < |rest|
      ensures x.matchScore >= rest[j].matchScore
    {
      assert rest[j] in multiset(rest);
      if rest[j] != h {
        assert rest[j] in multiset(tail);
        var k :| 0 <= k < |tail| && tail[k] == rest[j];
        assert ([x] + tail)[0] == x && ([x] + tail)[k + 1] == tail[k];
      }
    }
    forall i, j | 0 <= i < j < |rest| + 1
      ensures ([x] + rest)[i].matchScore >= ([x] + rest)[j].matchScore
    {
      if i > 0 {
        assert ([x] + rest)[i] == rest[i - 1];
      }
    }
  }

  /** `results.sort((a, b) => b.matchScore - a.matchScore)`, which is stable. */
  function SortByScore(s: seq<Hit>): (r: seq<Hit>)
    ensures ScoresDescending(r)
    ensures multiset(r) == multiset(s)
    decreases |s|
  {
    if s == [] then []
    else
      assert s == [s[0]] + s[1..];
      InsertByScore(s[0], SortByScore(s[1..]))
  }

  /** The results scoring exactly `k`, in order. */
  function WithScore(s: seq<Hit>, k: int): seq<Hit>
    decreases |s|
  {
    if s == [] then []
    else (if s[0].matchScore == k then [s[0]] else []) + WithScore(s[1..], k)
  }

  lemma WithScoreCons(x: Hit, s: seq<Hit>, k: int)
    ensures WithScore([x] + s, k) == (if x.matchScore == k then [x] else []) + WithScore(s, k)
  {
    assert ([x] + s)[1..] == s;
  }

  lemma {:induction false} InsertByScoreWithScore(h: Hit, s: seq<Hit>, k: int)
    requires ScoresDescending(s)
    ensures WithScore(InsertByScore(h, s), k) == (if h.matchScore == k then [h] else []) + WithScore(s, k)
    decreases |s|
  {
    if s == [] {
      WithScoreCons(h, s, k);
    } else if s[0].matchScore <= h.matchScore {
      WithScoreCons(h, s, k);
    } else {
      var rest := InsertByScore(h, s[1..]);
      InsertByScoreWithScore(h, s[1..], k);
      WithScoreCons(s[0], rest, k);
    }
  }

  /**
   * The sort is stable: the results with any one score appear in the same
   * relative order before and after it.
   */
  lemma {:induction false} SortByScoreStable(s: seq<Hit>, k: int)
    ensures WithScore(SortByScore(s), k) == WithScore(s, k)
    decreases |s|
  {
    if s != [] {
      SortByScoreStable(s[1..], k);
      InsertByScoreWithScore(s[0], SortByScore(s[1..]), k);
    }
  }

  /**
   * `GET /api/atlas/search?q=`: nothing for a missing or empty query;
   * otherwise every subregion whose score against the lower-cased query is
   * positive, visited region by region, then ordered by descending score.
   */
  method Search(regions: seq<Region>, q: Option<string>) returns (results: seq<Hit>)
    ensures !Truthy(q) ==> results == []
    ensures Truthy(q) ==> results == SortByScore(RegionHits(regions, Lower(q.value)))
  {
    if !Truthy(q) {
      return [];
    }
    var query := Lower(q.value);
    results := [];
    var i := 0;
    while i < |regions|
      invariant 0 <= i <= |regions|
      invariant results == RegionHits(regions[..i], query)
    {
      var region := regions[i];
      var j := 0;
      while j < |region.subregions|
        invariant 0 <= j <= |region.subregions|
        invariant results == RegionHits(regions[..i], query) + SubregionHits(region, region.subregions[..j], query)
      {
        var sub := region.subregions[j];
        var matchScore := Score(sub, query);
        assert region.subregions[..j + 1][..j] == region.subregions[..j];
        if matchScore > 0 {
          results := results + [Hit(region.id, region.name, sub.id, sub.name, matchScore)];
        }
        j := j + 1;
      }
      assert region.subregions[..j] == region.subregions;
      assert regions[..i + 1][..i] == regions[..i];
      i := i + 1;
    }
    assert regions[..i] == regions;
    results := SortByScore(results);
  }

  /**
   * What a search returns for a truthy query: ordered by descending score,
   * holding exactly the positively scoring subregions with their containing
   * region, and keeping region-then-subregion order among equal scores.
   */
  lemma SearchResults(regions: seq<Region>, q: string)
    requires q != ""
    ensures var r := SortByScore(RegionHits(regions, Lower(q)));
      && ScoresDescending(r)
      && (forall h :: h in r <==>
            exists i, j :: Matched(regions, i, j, Lower(q))
              && h == HitOf(regions[i], regions[i].subregions[j], Lower(q)))
      && forall k :: WithScore(r, k) == WithScore(RegionHits(regions, Lower(q)), k)
  {
    var hits := RegionHits(regions, Lower(q));
    RegionHitsExactly(regions, Lower(q));
    var r := SortByScore(hits);
    forall h
      ensures h in r <==> h in hits
    {
      assert h in r <==> h in multiset(r);
      assert h in hits <==> h in multiset(hits);
    }
    forall k
      ensures WithScore(r, k) == WithScore(hits, k)
    {
      SortByScoreStable(hits, k);
    }
  }
}
