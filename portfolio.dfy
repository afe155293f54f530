/** The portfolio grid: a fixed catalogue of projects, each tagged with one
    category, and a row of filter buttons. The filter `all` shows the whole
    catalogue; any other filter shows the projects of that category, in
    catalogue order. */
module Portfolio {

  datatype Project = Project(
    id: nat,
    title: string,
    category: string,
    technologies: seq<string>,
    featured: bool)

  /** A filter button: the filter it selects and the text it shows (the
      source's `label`, a reserved word in Dafny). */
  datatype FilterCategory = FilterCategory(id: string, caption: string)

  const AllFilter := "all"

  /** The six projects of the portfolio, in display order. */
  function Projects(): (ps: seq<Project>)
    ensures |ps| == 6
  {
    [ Project(1, "E-Commerce Platform", "web", ["React", "Node.js", "MongoDB", "Stripe"], true),
      Project(2, "Mobile Banking App", "mobile", ["React Native", "Firebase", "Biometric Auth"], true),
      Project(3, "SaaS Dashboard", "web", ["Vue.js", "D3.js", "Express", "PostgreSQL"], false),
      Project(4, "Fitness Tracking App", "mobile", ["Flutter", "Firebase", "Health APIs"], false),
      Project(5, "AI-Powered Analytics", "ai", ["Python", "TensorFlow", "React", "AWS"], true),
      Project(6, "Real Estate Platform", "web", ["Next.js", "Prisma", "Cloudinary", "Mapbox"], false) ]
  }

  /** The filter buttons, in display order; the first shows everything. */
  function Categories(): (cs: seq<FilterCategory>)
    ensures |cs| == 4 && cs[0].id == AllFilter
  {
    [ FilterCategory("all", "All Projects"),
      FilterCategory("web", "Web Development"),
      FilterCategory("mobile", "Mobile Apps"),
      FilterCategory("ai", "AI Solutions") ]
  }

  /** The filters other than `all`: the categories a project can carry,
      in the order of their buttons. */
  function ProjectCategories(): (ids: seq<string>)
    ensures |ids| == |Categories()| - 1
    ensures forall k :: 0 <= k < |ids| ==> ids[k] == Categories()[k + 1].id
  {
    ["web", "mobile", "ai"]
  }

  // ---------------------------------------------------------------------
  // Filtering

  /** The projects of `ps` whose category is `c`, in their order in `ps`. */
  function KeepCategory(ps: seq<Project>, c: string): (r: seq<Project>)
    ensures |r| <= |ps|
  {
    if ps == [] then []
    else if ps[0].category == c then [ps[0]] + KeepCategory(ps[1..], c)
    else KeepCategory(ps[1..], c)
  }

  /** Soundness and completeness: a project is kept exactly when it is in
      `ps` and carries category `c`. */
  lemma {:induction false} KeepCategoryMembers(ps: seq<Project>, c: string)
    ensures forall p :: p in KeepCategory(ps, c) <==> p in ps && p.category == c
  {
    if ps != [] {
      KeepCategoryMembers(ps[1..], c);
      assert forall p :: p in ps <==> p == ps[0] || p in ps[1..];
    }
  }

  /** The projects shown in the grid while `activeFilter` is selected. */
  function FilteredProjects(ps: seq<Project>, activeFilter: string): (r: seq<Project>)
    ensures |r| <= |ps|
  {
    if activeFilter == AllFilter then ps else KeepCategory(ps, activeFilter)
  }

  /** The filter `all` shows the catalogue unchanged; any other filter shows
      exactly the catalogue's projects of that category. */
  lemma FilteredProjectsMembers(ps: seq<Project>, activeFilter: string)
    ensures activeFilter == AllFilter ==> FilteredProjects(ps, activeFilter) == ps
    ensures activeFilter != AllFilter ==>
      forall p :: p in FilteredProjects(ps, activeFilter) <==> p in ps && p.category == activeFilter
  {
    KeepCategoryMembers(ps, activeFilter);
  }

  /** `a` is `b` with some elements dropped and the rest kept in order. */
  ghost predicate IsSubsequence<T>(a: seq<T>, b: seq<T>)
  {
    exists pick: seq<nat> ::
      && |pick| == |a|
      && (forall j :: 0 <= j < |pick| ==> pick[j] < |b| && a[j] == b[pick[j]])
      && (forall j, k :: 0 <= j < k < |pick| ==> pick[j] < pick[k])
  }

  /** The filtered list keeps catalogue order: it is a subsequence of it. */
  lemma {:induction false} KeepCategoryIsSubsequence(ps: seq<Project>, c: string)
    ensures IsSubsequence(KeepCategory(ps, c), ps)
  {
    var pick := KeepCategoryPositions(ps, c);
  }

  /** The catalogue positions of the projects KeepCategory keeps. */
  lemma {:induction false} KeepCategoryPositions(ps: seq<Project>, c: string)
    returns (pick: seq<nat>)
    ensures |pick| == |KeepCategory(ps, c)|
    ensures forall j :: 0 <= j < |pick| ==> pick[j] < |ps| && KeepCategory(ps, c)[j] == ps[pick[j]]
    ensures forall j, k :: 0 <= j < k < |pick| ==> pick[j] < pick[k]
  {
    if ps == [] {
      pick := [];
    } else {
      var rest := KeepCategoryPositions(ps[1..], c);
      var shifted := seq(|rest|, j requires 0 <= j < |rest| => rest[j] + 1);
      if ps[0].category == c {
        pick := [0] + shifted;
      } else {
        pick := shifted;
      }
    }
  }

  lemma FilteredProjectsIsSubsequence(ps: seq<Project>, activeFilter: string)
    ensures IsSubsequence(FilteredProjects(ps, activeFilter), ps)
  {
    if activeFilter == AllFilter {
      var pick := seq(|ps|, j requires 0 <= j < |ps| => j);
      assert |pick| == |ps|;
    } else {
      KeepCategoryIsSubsequence(ps, activeFilter);
    }
  }

  /** Selecting the same category twice changes nothing. */
  lemma {:induction false} KeepCategoryIdempotent(ps: seq<Project>, c: string)
    ensures KeepCategory(KeepCategory(ps, c), c) == KeepCategory(ps, c)
  {
    if ps != [] {
      KeepCategoryIdempotent(ps[1..], c);
    }
  }

  lemma FilteredProjectsIdempotent(ps: seq<Project>, activeFilter: string)
    ensures FilteredProjects(FilteredProjects(ps, activeFilter), activeFilter)
         == FilteredProjects(ps, activeFilter)
  {
    if activeFilter != AllFilter {
      KeepCategoryIdempotent(ps, activeFilter);
    }
  }

  // ---------------------------------------------------------------------
  // The three category filters partition the catalogue

  ghost predicate CategoriesKnown(ps: seq<Project>)
  {
    forall p :: p in ps ==> p.category in ProjectCategories()
  }

  /** When every project carries one of the three categories, the three
      filtered lists together hold each project exactly as often as the
      catalogue does. */
  lemma {:induction false} CategoryFiltersPartition(ps: seq<Project>)
    requires CategoriesKnown(ps)
    ensures multiset(KeepCategory(ps, "web")) + multiset(KeepCategory(ps, "mobile"))
          + multiset(KeepCategory(ps, "ai")) == multiset(ps)
    ensures |KeepCategory(ps, "web")| + |KeepCategory(ps, "mobile")|
          + |KeepCategory(ps, "ai")| == |ps|
  {
    var w, m, a := KeepCategory(ps, "web"), KeepCategory(ps, "mobile"), KeepCategory(ps, "ai");
    KeepCategoryMultiset(ps);
    assert |multiset(w) + multiset(m) + multiset(a)| == |multiset(ps)|;
  }

  lemma {:induction false} KeepCategoryMultiset(ps: seq<Project>)
    requires CategoriesKnown(ps)
    ensures multiset(KeepCategory(ps, "web")) + multiset(KeepCategory(ps, "mobile"))
          + multiset(KeepCategory(ps, "ai")) == multiset(ps)
  {
    if ps != [] {
      var p, t := ps[0], ps[1..];
      assert ps == [p] + t;
      assert forall q :: q in t ==> q in ps;
      KeepCategoryMultiset(t);
      CategoryNamesDiffer();
      var cats := ProjectCategories();
      assert p.category == cats[0] || p.category == cats[1] || p.category == cats[2];
      var w, m, a := KeepCategory(t, "web"), KeepCategory(t, "mobile"), KeepCategory(t, "ai");
      if p.category == "web" {
        assert KeepCategory(ps, "web") == [p] + w;
        assert KeepCategory(ps, "mobile") == m && KeepCategory(ps, "ai") == a;
      } else if p.category == "mobile" {
        assert KeepCategory(ps, "mobile") == [p] + m;
        assert KeepCategory(ps, "web") == w && KeepCategory(ps, "ai") == a;
      } else {
        assert KeepCategory(ps, "ai") == [p] + a;
        assert KeepCategory(ps, "web") == w && KeepCategory(ps, "mobile") == m;
      }
    }
  }

  /** No project appears under two different category filters. */
  lemma KeepCategoryDisjoint(ps: seq<Project>, c: string, d: string)
    requires c != d
    ensures forall p :: p in KeepCategory(ps, c) ==> p !in KeepCategory(ps, d)
  {
    KeepCategoryMembers(ps, c);
    KeepCategoryMembers(ps, d);
  }

  lemma CatalogueCategoriesKnown()
    ensures CategoriesKnown(Projects())
  {
  }

  /** Three web projects, two mobile ones and one AI one. */
  lemma CatalogueFilterSizes()
    ensures KeepCategory(Projects(), "web") == [Projects()[0], Projects()[2], Projects()[5]]
    ensures KeepCategory(Projects(), "mobile") == [Projects()[1], Projects()[3]]
    ensures KeepCategory(Projects(), "ai") == [Projects()[4]]
  {
    CategoryNamesDiffer();
    var ps := Projects();
    var cats := seq(6, k requires 0 <= k < 6 => ps[k].category);
    assert cats == ["web", "mobile", "web", "mobile", "ai", "web"];
    KeepCategoryOfSix(ps, "web");
    KeepCategoryOfSix(ps, "mobile");
    KeepCategoryOfSix(ps, "ai");
  }

  /** KeepCategory over a six-element list, unfolded one element at a time. */
  lemma KeepCategoryOfSix(ps: seq<Project>, c: string)
    requires |ps| == 6
    ensures KeepCategory(ps, c) ==
      Kept(ps[0], c) + (Kept(ps[1], c) + (Kept(ps[2], c) +
      (Kept(ps[3], c) + (Kept(ps[4], c) + Kept(ps[5], c)))))
  {
    var t1 := ps[1..];
    var t2 := t1[1..];
    var t3 := t2[1..];
    var t4 := t3[1..];
    var t5 := t4[1..];
    assert t5 == [ps[5]];
    assert KeepCategory(t5, c) == Kept(ps[5], c);
    assert t4 == [ps[4]] + t5;
    assert t3 == [ps[3]] + t4;
    assert t2 == [ps[2]] + t3;
    assert t1 == [ps[1]] + t2;
    assert KeepCategory(t4, c) == Kept(ps[4], c) + KeepCategory(t5, c);
    assert KeepCategory(t3, c) == Kept(ps[3], c) + KeepCategory(t4, c);
    assert KeepCategory(t2, c) == Kept(ps[2], c) + KeepCategory(t3, c);
    assert KeepCategory(t1, c) == Kept(ps[1], c) + KeepCategory(t2, c);
    assert KeepCategory(ps, c) == Kept(ps[0], c) + KeepCategory(t1, c);
  }

  /** The one-element contribution of a project to KeepCategory. */
  function Kept(p: Project, c: string): (r: seq<Project>)
  {
    if p.category == c then [p] else []
  }

  lemma CategoryNamesDiffer()
    ensures "web" != "mobile" && "web" != "ai" && "mobile" != "ai"
    ensures AllFilter != "web" && AllFilter != "mobile" && AllFilter != "ai"
  {
    assert "web"[0] != "mobile"[0] && "web"[0] != "ai"[0] && "mobile"[0] != "ai"[0];
    assert AllFilter[0] != "web"[0] && AllFilter[0] != "mobile"[0] && AllFilter[1] != "ai"[1];
  }

  // ---------------------------------------------------------------------
  // Project ids are used as list keys in the grid

  ghost predicate DistinctIds(ps: seq<Project>)
  {
    forall j, k :: 0 <= j < k < |ps| ==> ps[j].id != ps[k].id
  }

  lemma {:induction false} CatalogueIdsDistinct()
    ensures DistinctIds(Projects())
  {
    var ps := Projects();
    assert forall j :: 0 <= j < |ps| ==> ps[j].id == j + 1;
  }

  /** A distinct-keyed list stays distinct-keyed under every filter. */
  lemma FilteredIdsDistinct(ps: seq<Project>, activeFilter: string)
    requires DistinctIds(ps)
    ensures DistinctIds(FilteredProjects(ps, activeFilter))
  {
    if activeFilter != AllFilter {
      var r := KeepCategory(ps, activeFilter);
      var pick := KeepCategoryPositions(ps, activeFilter);
      forall j, k | 0 <= j < k < |r|
        ensures r[j].id != r[k].id
      {
        assert r[j] == ps[pick[j]] && r[k] == ps[pick[k]];
      }
    }
  }

  /** The filter buttons, with the selected one highlighted: button k is
      highlighted exactly when its id is the active filter. */
  function FilterButtons(activeFilter: string): (lit: seq<bool>)
    ensures |lit| == |Categories()|
    ensures forall k :: 0 <= k < |lit| ==> lit[k] == (Categories()[k].id == activeFilter)
  {
    seq(|Categories()|, k requires 0 <= k < |Categories()| => Categories()[k].id == activeFilter)
  }

  /** The filter ids are distinct, so while one of them is active its button
      is the only one highlighted. */
  lemma {:induction false} OneFilterButtonLit(activeFilter: string, k: nat)
    requires k < |Categories()| && Categories()[k].id == activeFilter
    ensures forall j :: 0 <= j < |Categories()| ==> FilterButtons(activeFilter)[j] == (j == k)
  {
    var cs := Categories();
    assert cs[0].id == "all" && cs[1].id == "web" && cs[2].id == "mobile" && cs[3].id == "ai";
    assert "all"[0] == 'a' && "web"[0] == 'w' && "mobile"[0] == 'm' && "ai"[1] == 'i' && "all"[1] == 'l';
  }
}
