/**
 * The admin panel's request builders and its small pieces of state: the
 * LinkedIn post payload, adding a GitHub repository to the selected
 * projects, toggling a selected project's featured flag, the choice between
 * creating and updating contact info or an education entry, and the token
 * check when the panel opens.
 */
module AdminPanel {
  import opened Wrappers
  import opened Strings
  import opened Seqs
  import opened Json
  import opened Schema
  import opened Records
  import opened FileStore
  import opened Routes

  /** The server reads back the id the panel writes into a path. */
  lemma IdTextRoundTrip(n: nat)
    ensures ParseInt(IntToString(n)) == Some(n)
  {
    ParseIntOfNat(n);
  }

  /** `Bearer ${token}` with the token from local storage; a missing token prints as "null". */
  function BearerOf(token: Option<string>): string {
    "Bearer " + (if token.Some? then token.value else "null")
  }

  /** The LinkedIn form. */
  datatype LinkedinForm = LinkedinForm(url: string, content: string, imageUrl: string, featured: bool)

  /**
   * The LinkedIn post the panel sends: the title is the first hundred
   * characters of the content, the address goes out as `postUrl`, an empty
   * image address as null, and the publication time is the current time as
   * ISO text.
   */
  function LinkedinPayload(form: LinkedinForm, nowIso: string): (r: Record)
    ensures r.Keys == {"title", "content", "postUrl", "imageUrl", "featured", "publishedAt"}
    ensures r["title"].Str? && |r["title"].s| <= 100 && |r["title"].s| <= |form.content|
    ensures r["title"].s == form.content[..|r["title"].s|]
    ensures |form.content| <= 100 ==> r["title"] == Str(form.content)
    ensures r["content"] == Str(form.content) && r["postUrl"] == Str(form.url)
    ensures r["imageUrl"] == (if form.imageUrl == "" then Null else Str(form.imageUrl))
    ensures r["featured"] == Bool(form.featured) && r["publishedAt"] == Str(nowIso)
  {
    map["title" := Str(Take(form.content, 100)), "content" := Str(form.content), "postUrl" := Str(form.url),
        "imageUrl" := (if form.imageUrl == "" then Null else Str(form.imageUrl)),
        "featured" := Bool(form.featured), "publishedAt" := Str(nowIso)]
  }

  /** Every LinkedIn payload the panel builds passes the server's LinkedIn insert schema. */
  lemma LinkedinPayloadAccepted(form: LinkedinForm, nowIso: string, parseDate: string -> Option<int>)
    ensures ParseInsert(LinkedinPosts, LinkedinPayload(form, nowIso), parseDate).Ok?
  {
    var body := LinkedinPayload(form, nowIso);
    ParseInsertOk(LinkedinPosts, body, parseDate);
    var cols := InsertColumns(LinkedinPosts);
    forall i | 0 <= i < |cols| ensures FieldOk(cols[i], body) {
      assert cols[i] == Extended(Fields(LinkedinPosts)[i]);
    }
  }

  /** `value || fallback` for a field of the untyped repository. */
  function FieldOr(r: Record, k: string, fallback: Value): (v: Value)
    ensures FieldTruthy(r, k) ==> v == r[k]
    ensures !FieldTruthy(r, k) ==> v == fallback
  {
    if FieldTruthy(r, k) then r[k] else fallback
  }

  /**
   * `addProjectToSelected`: the repository's id, name and address are
   * copied (an absent one stays absent, as JSON drops `undefined`), a missing description or language becomes "", missing counts
   * become 0, and the project is selected and not featured.
   */
  function SelectedProjectPayload(repo: Record): (p: Record)
    ensures {"description", "language", "stargazersCount", "forksCount", "isSelected", "featured"} <= p.Keys
    ensures p["isSelected"] == Bool(true) && p["featured"] == Bool(false)
    ensures p["description"] == FieldOr(repo, "description", Str(""))
    ensures p["language"] == FieldOr(repo, "language", Str(""))
    ensures p["stargazersCount"] == FieldOr(repo, "stargazers_count", Num(0))
    ensures p["forksCount"] == FieldOr(repo, "forks_count", Num(0))
    ensures "id" in repo <==> "githubRepoId" in p
    ensures "id" in repo ==> p["githubRepoId"] == repo["id"]
    ensures "name" in repo ==> "name" in p && p["name"] == repo["name"]
    ensures "html_url" in repo ==> "htmlUrl" in p && p["htmlUrl"] == repo["html_url"]
    ensures forall k :: k in p ==>
      k in {"githubRepoId", "name", "description", "htmlUrl", "language", "stargazersCount", "forksCount",
            "isSelected", "featured"}
  {
    var fixed := map["description" := FieldOr(repo, "description", Str("")),
                     "language" := FieldOr(repo, "language", Str("")),
                     "stargazersCount" := FieldOr(repo, "stargazers_count", Num(0)),
                     "forksCount" := FieldOr(repo, "forks_count", Num(0)),
                     "isSelected" := Bool(true), "featured" := Bool(false)];
    var withId := if "id" in repo then fixed["githubRepoId" := repo["id"]] else fixed;
    var withName := if "name" in repo then withId["name" := repo["name"]] else withId;
    if "html_url" in repo then withName["htmlUrl" := repo["html_url"]] else withName
  }

  /** `toggleProjectFeatured`: the update sends only `featured`, flipped. */
  function FeaturedToggle(project: Record): (data: Record)
    ensures data.Keys == {"featured"}
    ensures data["featured"] == Bool(!FieldTruthy(project, "featured"))
  {
    map["featured" := Bool(!FieldTruthy(project, "featured"))]
  }

  /** Toggling and merging the update into the project flips its featured flag and touches nothing else. */
  lemma ToggleFlipsOnlyFeatured(project: Record)
    ensures var after := Spread(project, FeaturedToggle(project));
      IsFeatured(after) == !IsFeatured(project) &&
      after.Keys == project.Keys + {"featured"} &&
      forall k :: k in project && k != "featured" ==> after[k] == project[k]
  {
  }

  predicate HoldsRepo(repoId: Value, p: Record) {
    "githubRepoId" in p && p["githubRepoId"] == repoId
  }

  /** `selectedProjects?.some(p => p.githubRepoId === repo.id)`, with undefined read as false. */
  function IsAlreadySelected(selected: Option<seq<Record>>, repoId: Value): (b: bool)
    ensures b <==> selected.Some? && exists i :: 0 <= i < |selected.value| && HoldsRepo(repoId, selected.value[i])
  {
    selected.Some? && Any(selected.value, (p: Record) => HoldsRepo(repoId, p))
  }

  /**
   * Saving contact info: an update of the stored info by its id when some
   * is loaded, otherwise a create.  The token from local storage goes out
   * as the bearer token.
   */
  function ContactInfoSave(existing: Option<Record>, form: Record, token: Option<string>): (req: Request)
    ensures existing.Some? ==>
      req == Request(Put, ["api", "contact-info", IntToString(NumOr(existing.value, "id", 0))], Some(BearerOf(token)), form, None)
    ensures existing.None? ==> req == Request(Post, ["api", "contact-info"], Some(BearerOf(token)), form, None)
  {
    if existing.Some? then
      Request(Put, ["api", "contact-info", IntToString(NumOr(existing.value, "id", 0))], Some(BearerOf(token)), form, None)
    else Request(Post, ["api", "contact-info"], Some(BearerOf(token)), form, None)
  }

  /** A `PUT /api/contact-info/<id>` goes to the first registered update, the one with the prefix check. */
  lemma ContactInfoPutDispatch(id: string)
    ensures Dispatch(Put, ["api", "contact-info", id]) == 29
    ensures RouteAt(29).handler == UpdateContactInfo(Prefix)
  {
    var path := ["api", "contact-info", id];
    var rs := Registered();
    var r := RouteAt(29);
    assert Matches(r.pattern[2..], path[2..]);
    assert Matches(r.pattern[1..], path[1..]);
    assert Selects(rs[29], Put, path);
    forall j | 0 <= j < 29 ensures !Selects(rs[j], Put, path) {
      if Selects(rs[j], Put, path) {
        ResourceNames(j);
        MatchesLit(rs[j].pattern, path, 1);
      }
    }
  }

  /** A contact-info PUT is handled by the prefix-checked update, with the last segment as its id text. */
  lemma ContactInfoPutHandled(req: Request, dir: Dir, env: Env, id: string)
    requires req.verb == Put && req.path == ["api", "contact-info", id]
    ensures Handle(req, dir, env) == Some(UpdateInfo(Prefix, id, req, dir))
  {
    var path := req.path;
    ContactInfoPutDispatch(id);
    assert ParamOf(Registered()[29].pattern, path) == id by {
      var pat := RouteAt(29).pattern;
      assert Registered()[29] == RouteAt(29);
      assert pat[1..][1..] == [Param] && path[1..][1..] == [id];
      assert ParamOf(pat[1..][1..], path[1..][1..]) == id;
      assert ParamOf(pat[1..], path[1..]) == id;
    }
  }

  /**
   * Saving over loaded contact info that is still the stored one reaches
   * it: the server merges the form into it, whatever token the panel holds,
   * even none.
   */
  lemma ContactInfoSaveUpdatesStored(dir: Dir, form: Record, token: Option<string>, env: Env, n: nat)
    requires ContactInfoOf(dir).Some? && HasId(ContactInfoOf(dir).value, n)
    ensures var info := ContactInfoOf(dir).value;
      Handle(ContactInfoSave(Some(info), form, token), dir, env) ==
        Some(Outcome(Response(200, One(Spread(info, form))), AfterUpdateContactInfo(dir, n, form)))
  {
    var info := ContactInfoOf(dir).value;
    assert NumOr(info, "id", 0) == n;
    var req := ContactInfoSave(Some(info), form, token);
    ContactInfoPutHandled(req, dir, env, IntToString(n));
    GuardStrength(req.authorization, if token.Some? then token.value else "null");
    IdTextRoundTrip(n);
    assert UpdatedContactInfo(dir, n, form) == Some(Spread(info, form));
  }

  /** The education requests go to paths no API route takes. */
  lemma EducationRequestsUnrouted(id: int, body: Record, dir: Dir, env: Env)
    ensures Handle(Request(Post, ["api", "education"], Some("Bearer admin123"), body, None), dir, env) == None
    ensures Handle(Request(Put, ["api", "education", IntToString(id)], Some("Bearer admin123"), body, None), dir, env) == None
  {
    UnregisteredPaths(Post, ["api", "education"]);
    UnregisteredPaths(Put, ["api", "education", IntToString(id)]);
  }

  /** The admin panel's authentication and education-editing state. */
  class Panel {
    var isAdminAuthenticated: bool
    var showAuthModal: bool
    var editingEducation: Option<Record>
    var educationForm: Record

    constructor()
      ensures !isAdminAuthenticated && !showAuthModal && editingEducation.None?
    {
      isAdminAuthenticated := false;
      showAuthModal := false;
      editingEducation := None;
      educationForm := map[];
    }

    /** The mount effect: the stored token "admin123" authenticates; anything else opens the login dialog. */
    method Mount(token: Option<string>)
      modifies this
      ensures token == Some("admin123") ==> isAdminAuthenticated && showAuthModal == old(showAuthModal)
      ensures token != Some("admin123") ==> showAuthModal && isAdminAuthenticated == old(isAdminAuthenticated)
      ensures editingEducation == old(editingEducation) && educationForm == old(educationForm)
    {
      if token == Some("admin123") {
        isAdminAuthenticated := true;
      } else {
        showAuthModal := true;
      }
    }

    /** `handleEducationSubmit`: update the entry being edited, by its id, or else create one. */
    method HandleEducationSubmit() returns (req: Request)
      ensures editingEducation.Some? ==>
        req == Request(Put, ["api", "education", IntToString(NumOr(editingEducation.value, "id", 0))],
                       Some("Bearer admin123"), educationForm, None)
      ensures editingEducation.None? ==>
        req == Request(Post, ["api", "education"], Some("Bearer admin123"), educationForm, None)
    {
      if editingEducation.Some? {
        var id := NumOr(editingEducation.value, "id", 0);
        req := Request(Put, ["api", "education", IntToString(id)], Some("Bearer admin123"), educationForm, None);
      } else {
        req := Request(Post, ["api", "education"], Some("Bearer admin123"), educationForm, None);
      }
    }
  }
}
