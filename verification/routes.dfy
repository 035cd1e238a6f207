/**
 * The HTTP API.  Routes are tried in the order they are registered and the
 * first whose verb and path pattern match takes the request.  Each handler
 * is a function of the request, the data directory and the environment
 * (the clock, the date parser and the GitHub proxy's answer), giving the
 * response and the directory after it.
 */
module Routes {
  import opened Wrappers
  import opened Strings
  import opened Json
  import opened Schema
  import opened Seqs
  import opened Records
  import opened FileStore

  datatype Verb = Get | Post | Put | Delete

  /** A path pattern segment: literal text, or a `:param`. */
  datatype Segment = Lit(text: string) | Param

  /** The file multer stored for an upload. */
  datatype Upload = Upload(filename: string, mimetype: string)

  /** A request, its path already split into segments. */
  datatype Request = Request(verb: Verb, path: seq<string>, authorization: Option<string>, body: Record, file: Option<Upload>)

  /** What `res.json` sends. */
  datatype Body =
    | One(record: Record)
    | Many(records: seq<Record>)
    | Undefined
    | Failure(error: string)
    | Done
    | Sent(message: string)
    | Token(token: string)

  datatype Response = Response(status: int, body: Body)

  /** The clock, `new Date(text)`, and the answer of the GitHub repository proxy. */
  datatype Env = Env(now: int, parseDate: string -> Option<int>, fetchRepos: string -> Response)

  datatype Outcome = Outcome(response: Response, dir: Dir)

  /** The two authorisation checks. */
  datatype Guard = Strict | Prefix

  /** `authorization === "Bearer admin123"`. */
  predicate StrictAuth(h: Option<string>) {
    h == Some("Bearer admin123")
  }

  /** `authorization && authorization.startsWith("Bearer ")`. */
  predicate PrefixAuth(h: Option<string>) {
    h.Some? && StartsWith(h.value, "Bearer ")
  }

  predicate Passes(g: Guard, h: Option<string>) {
    if g == Strict then StrictAuth(h) else PrefixAuth(h)
  }

  /** The exact check implies the prefix check, and the prefix check takes any bearer token. */
  lemma GuardStrength(h: Option<string>, token: string)
    ensures StrictAuth(h) ==> PrefixAuth(h)
    ensures PrefixAuth(Some("Bearer " + token))
    ensures StrictAuth(Some("Bearer " + token)) <==> token == "admin123"
  {
    var s := "Bearer " + token;
    assert s[..7] == "Bearer ";
    assert "Bearer admin123" == "Bearer " + "admin123";
    if StrictAuth(Some(s)) {
      assert s[7..] == token;
      assert "Bearer admin123"[7..] == "admin123";
    }
  }

  datatype Handler =
    | GithubRepos
    | ListAll(table: Table)
    | ListFeatured(table: Table)
    | UpsertProject
    | UploadMedia
    | SubmitContact
    | AdminLogin
    | CreateIn(table: Table, guard: Guard)
    | UpdateIn(table: Table, guard: Guard)
    | DeleteIn(table: Table, guard: Guard)
    | ReadContactInfo
    | CreateContactInfo(guard: Guard)
    | UpdateContactInfo(guard: Guard)

  datatype Route = Route(verb: Verb, pattern: seq<Segment>, handler: Handler)

  /** The registration made `i`-th by `registerRoutes`. */
  function RouteAt(i: nat): Route
    requires i < 31
  {
    if i == 0 then Route(Get, [Lit("api"), Lit("github"), Lit("repos"), Param], GithubRepos)
    else if i == 1 then Route(Get, [Lit("api"), Lit("projects")], ListAll(Projects))
    else if i == 2 then Route(Post, [Lit("api"), Lit("projects")], UpsertProject)
    else if i == 3 then Route(Post, [Lit("api"), Lit("projects"), Param, Lit("upload")], UploadMedia)
    else if i == 4 then Route(Post, [Lit("api"), Lit("contact")], SubmitContact)
    else if i == 5 then Route(Post, [Lit("api"), Lit("admin"), Lit("auth")], AdminLogin)
    else if i == 6 then Route(Get, [Lit("api"), Lit("certifications")], ListAll(Certifications))
    else if i == 7 then Route(Get, [Lit("api"), Lit("certifications"), Lit("featured")], ListFeatured(Certifications))
    else if i == 8 then Route(Post, [Lit("api"), Lit("certifications")], CreateIn(Certifications, Strict))
    else if i == 9 then Route(Put, [Lit("api"), Lit("certifications"), Param], UpdateIn(Certifications, Strict))
    else if i == 10 then Route(Delete, [Lit("api"), Lit("certifications"), Param], DeleteIn(Certifications, Strict))
    else if i == 11 then Route(Get, [Lit("api"), Lit("linkedin-posts")], ListAll(LinkedinPosts))
    else if i == 12 then Route(Get, [Lit("api"), Lit("linkedin-posts"), Lit("featured")], ListFeatured(LinkedinPosts))
    else if i == 13 then Route(Post, [Lit("api"), Lit("linkedin-posts")], CreateIn(LinkedinPosts, Prefix))
    else if i == 14 then Route(Put, [Lit("api"), Lit("linkedin-posts"), Param], UpdateIn(LinkedinPosts, Prefix))
    else if i == 15 then Route(Put, [Lit("api"), Lit("linkedin-posts"), Param], UpdateIn(LinkedinPosts, Strict))
    else if i == 16 then Route(Delete, [Lit("api"), Lit("linkedin-posts"), Param], DeleteIn(LinkedinPosts, Strict))
    else if i == 17 then Route(Get, [Lit("api"), Lit("skills")], ListAll(Skills))
    else if i == 18 then Route(Get, [Lit("api"), Lit("skills"), Lit("featured")], ListFeatured(Skills))
    else if i == 19 then Route(Post, [Lit("api"), Lit("skills")], CreateIn(Skills, Strict))
    else if i == 20 then Route(Put, [Lit("api"), Lit("skills"), Param], UpdateIn(Skills, Strict))
    else if i == 21 then Route(Delete, [Lit("api"), Lit("skills"), Param], DeleteIn(Skills, Strict))
    else if i == 22 then Route(Get, [Lit("api"), Lit("blogs")], ListAll(Blogs))
    else if i == 23 then Route(Get, [Lit("api"), Lit("blogs"), Lit("featured")], ListFeatured(Blogs))
    else if i == 24 then Route(Post, [Lit("api"), Lit("blogs")], CreateIn(Blogs, Strict))
    else if i == 25 then Route(Put, [Lit("api"), Lit("blogs"), Param], UpdateIn(Blogs, Strict))
    else if i == 26 then Route(Delete, [Lit("api"), Lit("blogs"), Param], DeleteIn(Blogs, Strict))
    else if i == 27 then Route(Get, [Lit("api"), Lit("contact-info")], ReadContactInfo)
    else if i == 28 then Route(Post, [Lit("api"), Lit("contact-info")], CreateContactInfo(Prefix))
    else if i == 29 then Route(Put, [Lit("api"), Lit("contact-info"), Param], UpdateContactInfo(Prefix))
    else Route(Put, [Lit("api"), Lit("contact-info"), Param], UpdateContactInfo(Strict))
  }

  /** The registrations, in order. */
  function Registered(): (rs: seq<Route>)
    ensures |rs| == 31 && forall i :: 0 <= i < 31 ==> rs[i] == RouteAt(i)
  {
    seq(31, i requires 0 <= i < 31 => RouteAt(i))
  }

  /** Same number of segments, and every literal segment spelled out in the path. */
  predicate Matches(pattern: seq<Segment>, path: seq<string>) {
    |pattern| == |path| &&
    (|pattern| == 0 || ((pattern[0].Param? || pattern[0].text == path[0]) && Matches(pattern[1..], path[1..])))
  }

  lemma {:induction false} MatchesLit(pattern: seq<Segment>, path: seq<string>, k: nat)
    requires Matches(pattern, path) && k < |pattern| && pattern[k].Lit?
    ensures pattern[k].text == path[k]
  {
    if k > 0 {
      MatchesLit(pattern[1..], path[1..], k - 1);
    }
  }

  predicate Selects(r: Route, verb: Verb, path: seq<string>) {
    r.verb == verb && Matches(r.pattern, path)
  }

  /** The path segment standing where the pattern has its parameter. */
  function ParamOf(pattern: seq<Segment>, path: seq<string>): string
    requires |pattern| == |path|
  {
    if |pattern| == 0 then ""
    else if pattern[0].Param? then path[0]
    else ParamOf(pattern[1..], path[1..])
  }

  /** The route that takes a request: the first registered one that matches, or -1. */
  function Dispatch(verb: Verb, path: seq<string>): (i: int)
    ensures -1 <= i < |Registered()|
    ensures i >= 0 ==> Selects(Registered()[i], verb, path)
    ensures i >= 0 ==> forall j :: 0 <= j < i ==> !Selects(Registered()[j], verb, path)
    ensures i == -1 <==> forall j :: 0 <= j < |Registered()| ==> !Selects(Registered()[j], verb, path)
  {
    FindIndex(Registered(), (r: Route) => Selects(r, verb, path))
  }

  /** A registration identical in verb and pattern to an earlier one never takes a request. */
  lemma ShadowedBy(verb: Verb, path: seq<string>, early: nat, late: nat)
    requires early < late < 31
    requires RouteAt(early).verb == RouteAt(late).verb && RouteAt(early).pattern == RouteAt(late).pattern
    ensures Dispatch(verb, path) != late
  {
    var rs := Registered();
    if Selects(rs[late], verb, path) {
      assert Selects(rs[early], verb, path);
    }
  }

  /**
   * The second `PUT /api/linkedin-posts/:id` and the second
   * `PUT /api/contact-info/:id` never take a request: the identical
   * registration before each always does.
   */
  lemma DuplicatesUnreachable(verb: Verb, path: seq<string>)
    ensures Dispatch(verb, path) != 15 && Dispatch(verb, path) != 30
    ensures RouteAt(14).verb == RouteAt(15).verb && RouteAt(14).pattern == RouteAt(15).pattern
    ensures RouteAt(29).verb == RouteAt(30).verb && RouteAt(29).pattern == RouteAt(30).pattern
  {
    LinkedinDuplicate();
    ContactInfoDuplicate();
    ShadowedBy(verb, path, 14, 15);
    ShadowedBy(verb, path, 29, 30);
  }

  lemma LinkedinDuplicate()
    ensures RouteAt(14).verb == RouteAt(15).verb && RouteAt(14).pattern == RouteAt(15).pattern
  {
  }

  lemma ContactInfoDuplicate()
    ensures RouteAt(29).verb == RouteAt(30).verb && RouteAt(29).pattern == RouteAt(30).pattern
  {
  }

  /** The resource name every registered path carries after `/api`. */
  lemma ResourceNames(j: nat)
    requires j < 31
    ensures var p := RouteAt(j).pattern;
      |p| >= 2 && p[0] == Lit("api") && p[1].Lit? &&
      p[1].text in {"github", "projects", "contact", "admin", "certifications", "linkedin-posts",
                    "skills", "blogs", "contact-info"}
  {
  }

  /** A `PUT /api/linkedin-posts/<id>` goes to the handler with the prefix check. */
  lemma LinkedinPutTakesPrefix(id: string)
    ensures Dispatch(Put, ["api", "linkedin-posts", id]) == 14
    ensures RouteAt(14).handler == UpdateIn(LinkedinPosts, Prefix)
  {
    var path := ["api", "linkedin-posts", id];
    var rs := Registered();
    var r := RouteAt(14);
    assert Matches(r.pattern[2..], path[2..]);
    assert Matches(r.pattern[1..], path[1..]);
    assert Selects(rs[14], Put, path);
    forall j | 0 <= j < 14 ensures !Selects(rs[j], Put, path) {
      if Selects(rs[j], Put, path) {
        ResourceNames(j);
        MatchesLit(rs[j].pattern, path, 1);
      }
    }
  }

  /** The check that guards a handler, if any. */
  function GuardOf(h: Handler): Option<Guard> {
    match h
    case UploadMedia => Some(Strict)
    case CreateIn(_, g) => Some(g)
    case UpdateIn(_, g) => Some(g)
    case DeleteIn(_, g) => Some(g)
    case CreateContactInfo(g) => Some(g)
    case UpdateContactInfo(g) => Some(g)
    case _ => None
  }

  /**
   * Only LinkedIn create and update and contact-info create and update use
   * the prefix check; every other write, certifications included, demands
   * the exact header.
   */
  lemma PrefixGuardedRoutes(i: int)
    requires 0 <= i < |Registered()| && GuardOf(Registered()[i].handler).Some?
    ensures GuardOf(Registered()[i].handler) == Some(Prefix) <==> i in {13, 14, 28, 29}
    ensures var h := Registered()[i].handler;
      (h.CreateIn? || h.UpdateIn? || h.DeleteIn?) && h.table == Certifications ==> GuardOf(h) == Some(Strict)
  {
  }

  const Unauthorized := Response(401, Failure("Unauthorized"))

  function InvalidMessage(t: Table): string {
    match t
    case Certifications => "Invalid certification data"
    case LinkedinPosts => "Invalid LinkedIn post data"
    case Skills => "Invalid skill data"
    case Blogs => "Invalid blog data"
    case _ => "Invalid contact info data"
  }

  function NotFoundMessage(t: Table): string {
    match t
    case Certifications => "Certification not found"
    case LinkedinPosts => "LinkedIn post not found"
    case Skills => "Skill not found"
    case Blogs => "Blog not found"
    case _ => "Contact info not found"
  }

  /** `POST /api/projects`: validate, then update the project with that GitHub id or create one. */
  function Upsert(req: Request, dir: Dir, env: Env): Outcome {
    match ParseInsert(Projects, req.body, env.parseDate)
    case Err(_) => Outcome(Response(400, Failure("Invalid project data")), dir)
    case Ok(v) =>
      ProjectGithubId(req.body, env.parseDate);
      match FindBy(dir, Projects, "githubId", v["githubId"])
      case Some(existing) =>
        var id := IdKey(existing);
        var body := match Updated(dir, Projects, id, v) case Some(r) => One(r) case None => Undefined;
        Outcome(Response(200, body), AfterUpdate(dir, Projects, id, v))
      case None =>
        Outcome(Response(200, One(Created(dir, Projects, v, env.now))), AfterCreate(dir, Projects, v, env.now))
  }

  /** Where an uploaded file's URL goes: images to `imageUrl`, anything else to `videoUrl`. */
  function MediaUpdate(file: Upload): Record {
    var url := "/uploads/" + file.filename;
    if StartsWith(file.mimetype, "image/") then map["imageUrl" := Str(url)] else map["videoUrl" := Str(url)]
  }

  /** `POST /api/projects/:id/upload`. */
  function UploadTo(param: string, req: Request, dir: Dir): Outcome {
    if req.file.None? then Outcome(Response(400, Failure("No file uploaded")), dir)
    else if !StrictAuth(req.authorization) then Outcome(Unauthorized, dir)
    else
      var updates := MediaUpdate(req.file.value);
      match ParseInt(param)
      case None => Outcome(Response(404, Failure("Project not found")), dir)
      case Some(id) =>
        match Updated(dir, Projects, id, updates)
        case None => Outcome(Response(404, Failure("Project not found")), dir)
        case Some(r) => Outcome(Response(200, One(r)), AfterUpdate(dir, Projects, id, updates))
  }

  /** `POST /api/admin/auth`. */
  function Login(req: Request, dir: Dir): Outcome {
    if "password" in req.body && req.body["password"] == Str("admin123") then
      Outcome(Response(200, Token("admin123")), dir)
    else Outcome(Response(401, Failure("Invalid password")), dir)
  }

  /** `POST /api/contact`. */
  function Contact(req: Request, dir: Dir, env: Env): Outcome {
    match ParseInsert(ContactMessages, req.body, env.parseDate)
    case Err(_) => Outcome(Response(400, Failure("Invalid form data")), dir)
    case Ok(v) => Outcome(Response(200, Sent("Message sent successfully")), AfterCreate(dir, ContactMessages, v, env.now))
  }

  /** The guarded create, update and delete handlers of one table. */
  function Create(t: Table, g: Guard, req: Request, dir: Dir, env: Env): Outcome {
    if !Passes(g, req.authorization) then Outcome(Unauthorized, dir)
    else
      match ParseInsert(t, req.body, env.parseDate)
      case Err(_) => Outcome(Response(400, Failure(InvalidMessage(t))), dir)
      case Ok(v) => Outcome(Response(200, One(Created(dir, t, v, env.now))), AfterCreate(dir, t, v, env.now))
  }

  function Update(t: Table, g: Guard, param: string, req: Request, dir: Dir): Outcome {
    if !Passes(g, req.authorization) then Outcome(Unauthorized, dir)
    else
      match ParseInt(param)
      case None => Outcome(Response(404, Failure(NotFoundMessage(t))), dir)
      case Some(id) =>
        match Updated(dir, t, id, req.body)
        case None => Outcome(Response(404, Failure(NotFoundMessage(t))), dir)
        case Some(r) => Outcome(Response(200, One(r)), AfterUpdate(dir, t, id, req.body))
  }

  function Remove(t: Table, g: Guard, param: string, req: Request, dir: Dir): Outcome {
    if !Passes(g, req.authorization) then Outcome(Unauthorized, dir)
    else
      match ParseInt(param)
      case None => Outcome(Response(404, Failure(NotFoundMessage(t))), dir)
      case Some(id) =>
        if Deleted(dir, t, id) then Outcome(Response(200, Done), AfterDelete(dir, t, id))
        else Outcome(Response(404, Failure(NotFoundMessage(t))), dir)
  }

  function CreateInfo(g: Guard, req: Request, dir: Dir, env: Env): Outcome {
    if !Passes(g, req.authorization) then Outcome(Unauthorized, dir)
    else
      match ParseInsert(ContactInfo, req.body, env.parseDate)
      case Err(_) => Outcome(Response(400, Failure(InvalidMessage(ContactInfo))), dir)
      case Ok(v) => Outcome(Response(200, One(NewContactInfo(v, env.now))), AfterCreateContactInfo(dir, v, env.now))
  }

  function UpdateInfo(g: Guard, param: string, req: Request, dir: Dir): Outcome {
    if !Passes(g, req.authorization) then Outcome(Unauthorized, dir)
    else
      match ParseInt(param)
      case None => Outcome(Response(404, Failure(NotFoundMessage(ContactInfo))), dir)
      case Some(id) =>
        match UpdatedContactInfo(dir, id, req.body)
        case None => Outcome(Response(404, Failure(NotFoundMessage(ContactInfo))), dir)
        case Some(r) => Outcome(Response(200, One(r)), AfterUpdateContactInfo(dir, id, req.body))
  }

  /** Runs one handler; `param` is the text of the route's `:param` segment. */
  function Run(h: Handler, param: string, req: Request, dir: Dir, env: Env): Outcome {
    match h
    case GithubRepos => Outcome(env.fetchRepos(param), dir)
    case ListAll(t) => Outcome(Response(200, Many(Listing(dir, t, env.parseDate))), dir)
    case ListFeatured(t) => Outcome(Response(200, Many(FeaturedListing(dir, t, env.parseDate))), dir)
    case UpsertProject => Upsert(req, dir, env)
    case UploadMedia => UploadTo(param, req, dir)
    case SubmitContact => Contact(req, dir, env)
    case AdminLogin => Login(req, dir)
    case CreateIn(t, g) => Create(t, g, req, dir, env)
    case UpdateIn(t, g) => Update(t, g, param, req, dir)
    case DeleteIn(t, g) => Remove(t, g, param, req, dir)
    case ReadContactInfo =>
      Outcome(Response(200, match ContactInfoOf(dir) case Some(r) => One(r) case None => Undefined), dir)
    case CreateContactInfo(g) => CreateInfo(g, req, dir, env)
    case UpdateContactInfo(g) => UpdateInfo(g, param, req, dir)
  }

  /**
   * The API's answer to a request, or `None` when no API route takes it and
   * it passes on to whatever the server mounts after the API.
   */
  function Handle(req: Request, dir: Dir, env: Env): Option<Outcome> {
    var i := Dispatch(req.verb, req.path);
    if i == -1 then None
    else Some(Run(Registered()[i].handler, ParamOf(Registered()[i].pattern, req.path), req, dir, env))
  }

  /**
   * A guarded handler whose check fails answers 401 and writes nothing,
   * whatever the body; only a missing upload file is reported before it.
   */
  lemma GuardComesFirst(req: Request, dir: Dir, env: Env)
    requires Dispatch(req.verb, req.path) >= 0
    requires var h := Registered()[Dispatch(req.verb, req.path)].handler;
      GuardOf(h).Some? && !Passes(GuardOf(h).value, req.authorization) && (h == UploadMedia ==> req.file.Some?)
    ensures Handle(req, dir, env) == Some(Outcome(Unauthorized, dir))
  {
  }

  /** No API route answers the selected-project, education or contact-message paths. */
  lemma UnregisteredPaths(verb: Verb, path: seq<string>)
    requires |path| >= 2 && path[1] in {"selected-projects", "education", "contact-messages"}
    ensures Dispatch(verb, path) == -1
  {
    var rs := Registered();
    forall j | 0 <= j < |rs| ensures !Selects(rs[j], verb, path) {
      if Selects(rs[j], verb, path) {
        ResourceNames(j);
        MatchesLit(rs[j].pattern, path, 1);
      }
    }
  }

  /**
   * Upserting a valid project.  With no project holding its GitHub id, the
   * project is created and appended.  Otherwise the first record holding
   * the found project's id (the found project itself when its id is a
   * number and ids are unique) is merged with the body in place, every other
   * record and file is kept, and the merged record is the answer; when no
   * record holds that id nothing is written and the answer is `undefined`.
   */
  lemma UpsertFacts(req: Request, dir: Dir, env: Env)
    requires ParseInsert(Projects, req.body, env.parseDate).Ok?
    ensures var v := ParseInsert(Projects, req.body, env.parseDate).value;
      var o := Upsert(req, dir, env);
      var before := ReadList(dir, Projects);
      o.response.status == 200 &&
      match FindBy(dir, Projects, "githubId", req.body["githubId"])
      case None =>
        o.response.body == One(Created(dir, Projects, v, env.now)) &&
        ReadList(o.dir, Projects) == before + [Created(dir, Projects, v, env.now)]
      case Some(p) =>
        var k := FindIndex(before, (x: Record) => HasId(x, IdKey(p)));
        (HasId(p, IdKey(p)) ==> k != -1) &&
        (HasId(p, IdKey(p)) && UniqueIds(before) ==> before[k] == p) &&
        (k == -1 ==> o.response.body == Undefined && o.dir == dir) &&
        (k != -1 ==>
          o.response.body == One(Spread(before[k], v)) &&
          ReadList(o.dir, Projects) == before[k := Spread(before[k], v)] &&
          OnlyChanged(dir, o.dir, FileName(Projects)))
  {
    var v := ParseInsert(Projects, req.body, env.parseDate).value;
    ProjectGithubId(req.body, env.parseDate);
    match FindBy(dir, Projects, "githubId", req.body["githubId"])
    case None =>
    case Some(p) =>
      UpsertFound(dir, p, v);
  }

  /** The update branch of the upsert, for the found project `p`. */
  lemma UpsertFound(dir: Dir, p: Record, v: Record)
    requires p in ReadList(dir, Projects)
    ensures var before := ReadList(dir, Projects);
      var id := IdKey(p);
      var k := FindIndex(before, (x: Record) => HasId(x, id));
      (HasId(p, id) ==> k != -1) &&
      (HasId(p, id) && UniqueIds(before) ==> before[k] == p) &&
      (k == -1 ==> Updated(dir, Projects, id, v).None? && AfterUpdate(dir, Projects, id, v) == dir) &&
      (k != -1 ==>
        Updated(dir, Projects, id, v) == Some(Spread(before[k], v)) &&
        ReadList(AfterUpdate(dir, Projects, id, v), Projects) == before[k := Spread(before[k], v)] &&
        OnlyChanged(dir, AfterUpdate(dir, Projects, id, v), FileName(Projects)))
  {
    var before := ReadList(dir, Projects);
    var id := IdKey(p);
    var k := FindIndex(before, (x: Record) => HasId(x, id));
    assert Source(dir, Projects) == before;
    if HasId(p, id) {
      var j :| 0 <= j < |before| && before[j] == p;
      assert HasId(before[j], id);
      assert k != -1 && k <= j;
      assert HasId(before[k], id);
    }
    if k != -1 {
      var u := UpdateFirst(before, id, v);
      assert u.Some?;
      assert u.value == before[k := Spread(before[k], v)];
    }
  }


  /**
   * Upload: a missing file answers 400 whatever the header; with the exact
   * header and a known project, the file URL lands in `imageUrl` for an
   * image and in `videoUrl` otherwise; an unknown project answers 404 and
   * writes nothing.
   */
  lemma UploadFacts(param: string, req: Request, dir: Dir)
    ensures req.file.None? ==> UploadTo(param, req, dir) == Outcome(Response(400, Failure("No file uploaded")), dir)
    ensures req.file.Some? && StrictAuth(req.authorization) && ParseInt(param).Some? ==>
      var id := ParseInt(param).value;
      var o := UploadTo(param, req, dir);
      var url := Str("/uploads/" + req.file.value.filename);
      var field := if StartsWith(req.file.value.mimetype, "image/") then "imageUrl" else "videoUrl";
      ((forall i :: 0 <= i < |ReadList(dir, Projects)| ==> !HasId(ReadList(dir, Projects)[i], id)) ==>
        o == Outcome(Response(404, Failure("Project not found")), dir)) &&
      (o.response.status == 200 ==>
        o.response.body.One? && field in o.response.body.record && o.response.body.record[field] == url)
  {
  }

  /** Admin login succeeds exactly for the password `admin123` and never writes. */
  lemma LoginFacts(req: Request, dir: Dir)
    ensures Login(req, dir).dir == dir
    ensures Login(req, dir).response.status == 200 <==> "password" in req.body && req.body["password"] == Str("admin123")
    ensures Login(req, dir).response.status == 200 ==> Login(req, dir).response.body == Token("admin123")
    ensures Login(req, dir).response.status != 200 ==> Login(req, dir).response.status == 401
  {
  }

  /** A contact message is stored at the end of the list when valid, and rejected with 400 otherwise. */
  lemma ContactFacts(req: Request, dir: Dir, env: Env)
    ensures var o := Contact(req, dir, env);
      match ParseInsert(ContactMessages, req.body, env.parseDate)
      case Err(_) => o.response.status == 400 && o.dir == dir
      case Ok(v) =>
        o.response == Response(200, Sent("Message sent successfully")) &&
        ReadList(o.dir, ContactMessages) == ReadList(dir, ContactMessages) + [Created(dir, ContactMessages, v, env.now)]
  {
  }

  /** Update and delete of an id no record holds answer 404 and write nothing. */
  lemma MissingIdNotFound(t: Table, g: Guard, param: string, req: Request, dir: Dir)
    requires Passes(g, req.authorization)
    requires ParseInt(param).Some? ==>
      forall i :: 0 <= i < |Source(dir, t)| ==> !HasId(Source(dir, t)[i], ParseInt(param).value)
    ensures Update(t, g, param, req, dir) == Outcome(Response(404, Failure(NotFoundMessage(t))), dir)
    ensures Remove(t, g, param, req, dir) == Outcome(Response(404, Failure(NotFoundMessage(t))), dir)
  {
  }
}
