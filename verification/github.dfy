/**
 * The helpers the project pages apply to a GitHub repository: sorting it
 * into a category by keywords, picking the colour of its language badge and
 * printing how long ago it was updated.
 */
module GitHub {
  import opened Wrappers
  import opened Strings
  import opened Seqs

  /**
   * A repository as the GitHub proxy returns it.  `ownerLogin` and
   * `imageUrl` are the untyped `owner.login` and `imageUrl` fields the
   * project card reads besides the declared ones.
   */
  datatype Repo = Repo(
    id: int,
    name: string,
    description: Option<string>,
    htmlUrl: string,
    language: Option<string>,
    stargazersCount: int,
    forksCount: int,
    updatedAt: string,
    topics: seq<string>,
    homepage: Option<string>,
    ownerLogin: Option<string>,
    imageUrl: Option<string>)

  const MlKeywords: seq<string> :=
    ["machine-learning", "ml", "ai", "neural", "tensorflow", "pytorch", "sklearn", "deep-learning"]
  const DataKeywords: seq<string> :=
    ["data", "analysis", "analytics", "pandas", "numpy", "visualization", "sql"]
  const WebKeywords: seq<string> :=
    ["web", "react", "vue", "angular", "javascript", "typescript", "html", "css", "frontend", "backend"]

  /** `(repo.description || '')`. */
  function DescriptionText(repo: Repo): string {
    if repo.description.Some? then repo.description.value else ""
  }

  /**
   * A keyword hits a repository when its lower-cased name or description
   * contains it or a topic equals it; for the web keywords the lower-cased
   * language is searched too.
   */
  predicate Hits(repo: Repo, keyword: string, withLanguage: bool) {
    Contains(ToLower(repo.name), keyword)
    || Contains(ToLower(DescriptionText(repo)), keyword)
    || keyword in repo.topics
    || (withLanguage && repo.language.Some? && Contains(ToLower(repo.language.value), keyword))
  }

  predicate AnyHit(repo: Repo, keywords: seq<string>, withLanguage: bool) {
    Any(keywords, (k: string) => Hits(repo, k, withLanguage))
  }

  lemma AnyHitWitness(repo: Repo, keywords: seq<string>, withLanguage: bool)
    ensures AnyHit(repo, keywords, withLanguage) <==>
      exists i :: 0 <= i < |keywords| && Hits(repo, keywords[i], withLanguage)
  {
  }

  /**
   * `categorizeRepo`: the first of the ML, data and web keyword lists that
   * hits the repository names its category, and a repository no list hits is
   * "other".
   */
  function Categorize(repo: Repo): (c: string)
    ensures c in {"ml", "data", "web", "other"}
    ensures c == "ml" <==> exists i :: 0 <= i < |MlKeywords| && Hits(repo, MlKeywords[i], false)
    ensures c == "data" <==>
      (forall i :: 0 <= i < |MlKeywords| ==> !Hits(repo, MlKeywords[i], false)) &&
      (exists i :: 0 <= i < |DataKeywords| && Hits(repo, DataKeywords[i], false))
    ensures c == "other" <==>
      (forall i :: 0 <= i < |MlKeywords| ==> !Hits(repo, MlKeywords[i], false)) &&
      (forall i :: 0 <= i < |DataKeywords| ==> !Hits(repo, DataKeywords[i], false)) &&
      (forall i :: 0 <= i < |WebKeywords| ==> !Hits(repo, WebKeywords[i], true))
  {
    AnyHitWitness(repo, MlKeywords, false);
    AnyHitWitness(repo, DataKeywords, false);
    AnyHitWitness(repo, WebKeywords, true);
    if AnyHit(repo, MlKeywords, false) then "ml"
    else if AnyHit(repo, DataKeywords, false) then "data"
    else if AnyHit(repo, WebKeywords, true) then "web"
    else "other"
  }

  /** A data keyword wins over every web keyword, but loses to any ML keyword. */
  lemma DataBeforeWeb(repo: Repo, i: nat)
    requires i < |DataKeywords| && Hits(repo, DataKeywords[i], false)
    ensures Categorize(repo) == "data" || Categorize(repo) == "ml"
    ensures Categorize(repo) == "ml" <==> exists j :: 0 <= j < |MlKeywords| && Hits(repo, MlKeywords[j], false)
  {
    AnyHitWitness(repo, DataKeywords, false);
  }

  /** The category depends on the name only through its lower-case form. */
  lemma CategorizeIgnoresNameCase(repo: Repo, name: string)
    requires ToLower(name) == ToLower(repo.name)
    ensures Categorize(repo.(name := name)) == Categorize(repo)
  {
    var other := repo.(name := name);
    forall k, w ensures Hits(other, k, w) == Hits(repo, k, w) {
    }
  }

  /**
   * Keywords match inside words: a repository whose lower-cased name
   * contains any ML keyword anywhere is filed under machine learning.
   */
  lemma NameWithMlKeywordIsMl(repo: Repo, k: nat, at: nat)
    requires k < |MlKeywords|
    requires at + |MlKeywords[k]| <= |repo.name| && ToLower(repo.name)[at..at + |MlKeywords[k]|] == MlKeywords[k]
    ensures Categorize(repo) == "ml"
  {
    ContainsAt(ToLower(repo.name), MlKeywords[k], at);
    assert Hits(repo, MlKeywords[k], false);
  }

  /** So an HTML site is filed under machine learning: "html" contains "ml". */
  lemma HtmlSiteIsMl(repo: Repo)
    requires repo.name == "html-site"
    ensures Categorize(repo) == "ml"
  {
    assert ToLower(repo.name) == "html-site";
    NameWithMlKeywordIsMl(repo, 1, 2);
  }

  /** The badge colours of `getLanguageColor`. */
  const Palette: map<string, string> := map[
    "JavaScript" := "#f1e05a", "TypeScript" := "#2b7489", "Python" := "#3572A5",
    "Java" := "#b07219", "C++" := "#f34b7d", "C" := "#555555", "Go" := "#00ADD8",
    "Rust" := "#dea584", "Swift" := "#ffac45", "Kotlin" := "#F18E33", "PHP" := "#4F5D95",
    "Ruby" := "#701516", "Shell" := "#89e051", "HTML" := "#e34c26", "CSS" := "#563d7c"]

  const DefaultColor: string := "#6b7280"

  /** `getLanguageColor`: the palette colour of a known language, grey otherwise. */
  function LanguageColor(language: Option<string>): (c: string)
    ensures language.Some? && language.value in Palette ==> c == Palette[language.value]
    ensures (language.None? || language.value !in Palette) ==> c == DefaultColor
  {
    if language.Some? && language.value in Palette then Palette[language.value] else DefaultColor
  }

  /**
   * Different known languages get different colours, none of them the
   * default grey, so the badge colour identifies the language.
   */
  lemma LanguageColorsDistinct(a: string, b: string)
    requires a in Palette && b in Palette && a != b
    ensures LanguageColor(Some(a)) != LanguageColor(Some(b))
    ensures LanguageColor(Some(a)) != DefaultColor
  {
  }

  /** The lookup is case-sensitive. */
  lemma LanguageColorCaseSensitive()
    ensures LanguageColor(Some("JavaScript")) == "#f1e05a"
    ensures LanguageColor(Some("javascript")) == DefaultColor
  {
    assert "javascript" !in Palette;
  }

  const DayMs: nat := 1000 * 60 * 60 * 24

  function Abs(x: int): nat {
    if x < 0 then -x else x
  }

  /** `Math.ceil(a / b)` for non-negative integers. */
  function CeilDiv(a: nat, b: nat): nat
    requires b > 0
  {
    (a + b - 1) / b
  }

  /** `Math.ceil(|now - earlier| / day)`: the whole days between two instants, rounded up. */
  function DaysBetween(now: int, earlier: int): (d: nat)
    ensures d * DayMs >= Abs(now - earlier)
    ensures d > 0 ==> (d - 1) * DayMs < Abs(now - earlier)
  {
    CeilDiv(Abs(now - earlier), DayMs)
  }

  /** A count and the unit word it is printed with. */
  datatype Age = Age(count: nat, unit: string)

  /**
   * The bucket a day count falls in.  Every unit but the day ones counts
   * whole units rounded up, so "weeks" runs from 1 to 5 and "months" from 1
   * to 13.
   */
  function AgeOf(days: nat): (a: Age)
    ensures a.unit in {"day", "days", "weeks", "months", "years"}
    ensures a.unit == "day" <==> days == 1
    ensures a.unit == "day" ==> a.count == 1
    ensures a.unit == "days" <==> days != 1 && days < 7
    ensures a.unit == "days" ==> a.count == days
    ensures a.unit == "weeks" <==> 7 <= days < 30
    ensures a.unit == "weeks" ==> 1 <= a.count <= 5 && (a.count - 1) * 7 < days <= a.count * 7
    ensures a.unit == "months" <==> 30 <= days < 365
    ensures a.unit == "months" ==> 1 <= a.count <= 13 && (a.count - 1) * 30 < days <= a.count * 30
    ensures a.unit == "years" <==> 365 <= days
    ensures a.unit == "years" ==> 1 <= a.count && (a.count - 1) * 365 < days <= a.count * 365
  {
    if days == 1 then Age(1, "day")
    else if days < 7 then Age(days, "days")
    else if days < 30 then Age(CeilDiv(days, 7), "weeks")
    else if days < 365 then Age(CeilDiv(days, 30), "months")
    else Age(CeilDiv(days, 365), "years")
  }

  function AgeText(a: Age): string {
    NatToString(a.count) + " " + a.unit + " ago"
  }

  /**
   * `formatLastUpdated`.  `updated` is the parsed update time, `None` when
   * the text is no date: then every comparison with NaN fails and the text
   * reads "NaN years ago".
   */
  function FormatLastUpdated(now: int, updated: Option<int>): (text: string)
    ensures updated.None? ==> text == "NaN years ago"
    ensures updated.Some? ==> text == AgeText(AgeOf(DaysBetween(now, updated.value)))
  {
    if updated.None? then "NaN years ago" else AgeText(AgeOf(DaysBetween(now, updated.value)))
  }

  /** A date in the future is described like one equally far in the past. */
  lemma FormatSymmetric(a: int, b: int)
    ensures FormatLastUpdated(a, Some(b)) == FormatLastUpdated(b, Some(a))
  {
  }

  /** The rounding shows at the bucket edges: a week reads "1 weeks", 364 days "13 months". */
  lemma FormatEdges(now: int)
    ensures FormatLastUpdated(now + 7 * DayMs, Some(now)) == "1 weeks ago"
    ensures FormatLastUpdated(now + 364 * DayMs, Some(now)) == "13 months ago"
    ensures FormatLastUpdated(now, Some(now)) == "0 days ago"
  {
    assert DaysBetween(now + 7 * DayMs, now) == 7;
    assert NatToString(1) == "1";
    assert DaysBetween(now + 364 * DayMs, now) == 364;
    assert NatToString(13) == NatToString(1) + [DigitChar(3)];
    assert DaysBetween(now, now) == 0;
    assert NatToString(0) == "0";
  }
}
