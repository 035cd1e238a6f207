/**
 * The Projects page: the category filter buttons and the list of
 * repositories shown under the selected one.
 */
module ProjectsPage {
  import opened Wrappers
  import opened Seqs
  import opened GitHub

  /** The ids of the filter buttons, in display order. */
  const FilterIds: seq<string> := ["all", "ml", "web", "data"]

  predicate Shown(selected: string, repo: Repo) {
    selected == "all" || Categorize(repo) == selected
  }

  /**
   * `repos?.filter(...) || []`: nothing while the repositories are not
   * loaded, every repository under "all", otherwise the repositories of the
   * selected category, in the order the proxy returned them.
   */
  function FilteredRepos(repos: Option<seq<Repo>>, selected: string): (shown: seq<Repo>)
    ensures repos.None? ==> shown == []
    ensures repos.Some? ==> |shown| <= |repos.value|
  {
    if repos.None? then [] else Filter(repos.value, (r: Repo) => Shown(selected, r))
  }

  /** "all" shows every loaded repository, in order. */
  lemma AllShowsEverything(repos: seq<Repo>)
    ensures FilteredRepos(Some(repos), "all") == repos
  {
    FilterAll(repos, (r: Repo) => Shown("all", r));
  }

  /** Under any other filter a repository is shown exactly when its category is the filter's. */
  lemma ShownExactly(repos: seq<Repo>, selected: string, repo: Repo)
    requires selected != "all"
    ensures repo in FilteredRepos(Some(repos), selected) <==> repo in repos && Categorize(repo) == selected
  {
    var p := (r: Repo) => Shown(selected, r);
    FilterMembers(repos, p);
    if repo in repos && Categorize(repo) == selected {
      var i :| 0 <= i < |repos| && repos[i] == repo;
    }
  }

  /** A repository categorised "other" appears only under "all". */
  lemma OtherOnlyUnderAll(repos: seq<Repo>, repo: Repo, selected: string)
    requires selected in FilterIds && selected != "all" && Categorize(repo) == "other"
    ensures repo !in FilteredRepos(Some(repos), selected)
  {
    ShownExactly(repos, selected, repo);
  }

  function CountIn(repos: seq<Repo>, category: string): nat {
    |Filter(repos, (r: Repo) => Categorize(r) == category)|
  }

  /**
   * The three category filters split the repositories: together with the
   * "other" ones they count every repository exactly once.
   */
  lemma {:induction false} FiltersPartition(repos: seq<Repo>)
    ensures |FilteredRepos(Some(repos), "ml")| + |FilteredRepos(Some(repos), "web")|
      + |FilteredRepos(Some(repos), "data")| + CountIn(repos, "other") == |repos|
    decreases |repos|
  {
    if |repos| > 0 {
      FiltersPartition(repos[1..]);
      assert Categorize(repos[0]) in {"ml", "data", "web", "other"};
    }
  }
}
