/**
 * The server's showcase-image lookup: for a repository without a picture,
 * probe a fixed list of file names in the repository's main branch and take
 * the first one that answers.  The HEAD request is an oracle `headOk` that
 * says whether a URL answered with an ok status; a request that throws or
 * times out counts as not ok.
 */
module ImageFetcher {
  import opened Wrappers
  import opened Strings
  import opened Seqs
  import opened Json

  /** The file names tried, in order. */
  const Candidates: seq<string> := [
    "showcaseimage.jpg", "showcaseimage.png", "showcaseimage.jpeg",
    "showcase.jpg", "showcase.png", "showcase.jpeg"]

  const RawHost: string := "https://raw.githubusercontent.com/"

  /** The raw-content URL of a file in the repository's main branch. */
  function CandidateUrl(user: string, repo: string, name: string): string {
    RawHost + user + "/" + repo + "/main/" + name
  }

  /** The URLs of several file names, in the same order. */
  function UrlsOf(user: string, repo: string, names: seq<string>): (urls: seq<string>)
    ensures |urls| == |names|
    ensures forall i :: 0 <= i < |names| ==> urls[i] == CandidateUrl(user, repo, names[i])
  {
    seq(|names|, i requires 0 <= i < |names| => CandidateUrl(user, repo, names[i]))
  }

  /** `name.split(".").pop() || null`. */
  function FormatOf(name: string): (f: Option<string>)
    ensures f.Some? ==> f.value != "" && f.value == Last(Split(name, '.'))
    ensures f.None? ==> Last(Split(name, '.')) == ""
  {
    var ext := Last(Split(name, '.'));
    if ext == "" then None else Some(ext)
  }

  /** The format is the text after the last dot: a non-empty, dot-free suffix of the name. */
  lemma FormatIsExtension(name: string)
    requires FormatOf(name).Some?
    ensures var ext := FormatOf(name).value;
      |ext| <= |name| && name[|name| - |ext|..] == ext &&
      (forall i :: 0 <= i < |ext| ==> ext[i] != '.') &&
      (|ext| < |name| ==> name[|name| - |ext| - 1] == '.')
  {
    SplitLast(name, '.');
  }

  /** The three image extensions after any dot-free stem. */
  lemma StemFormats(stem: string)
    requires forall i :: 0 <= i < |stem| ==> stem[i] != '.'
    ensures FormatOf(stem + ".jpg") == Some("jpg")
    ensures FormatOf(stem + ".png") == Some("png")
    ensures FormatOf(stem + ".jpeg") == Some("jpeg")
  {
    assert stem + ".jpg" == stem + "." + "jpg";
    ExtensionOf(stem + ".jpg", stem, "jpg");
    assert stem + ".png" == stem + "." + "png";
    ExtensionOf(stem + ".png", stem, "png");
    assert stem + ".jpeg" == stem + "." + "jpeg";
    ExtensionOf(stem + ".jpeg", stem, "jpeg");
  }

  /** Every candidate's format is one of the three image extensions. */
  lemma CandidateFormat(i: nat)
    requires i < |Candidates|
    ensures FormatOf(Candidates[i]) == Some(if i % 3 == 0 then "jpg" else if i % 3 == 1 then "png" else "jpeg")
  {
    var stem := if i < 3 then "showcaseimage" else "showcase";
    StemFormats(stem);
    assert Candidates[i] == stem + (if i % 3 == 0 then ".jpg" else if i % 3 == 1 then ".png" else ".jpeg");
  }

  /** A dot-free stem, a dot and a dot-free extension: the format is the extension. */
  lemma ExtensionOf(name: string, stem: string, ext: string)
    requires forall i :: 0 <= i < |stem| ==> stem[i] != '.'
    requires ext != "" && forall i :: 0 <= i < |ext| ==> ext[i] != '.'
    requires name == stem + "." + ext
    ensures FormatOf(name) == Some(ext)
  {
    assert name == stem + ['.'] + ext;
    SplitConcat(stem, ext, '.');
    SplitNoSeparator(stem, '.');
    SplitNoSeparator(ext, '.');
  }

  /** What `fetchShowcaseImage` resolves to. */
  datatype ImageCheck = ImageCheck(url: Option<string>, format: Option<string>)

  /** Whether the probe of one candidate answers ok. */
  predicate Answers(headOk: string -> bool, user: string, repo: string, name: string) {
    headOk(CandidateUrl(user, repo, name))
  }

  /** The position of the first candidate that answers, or -1. */
  function FirstHit(user: string, repo: string, headOk: string -> bool): (i: int)
    ensures -1 <= i < |Candidates|
    ensures 0 <= i ==> Answers(headOk, user, repo, Candidates[i])
    ensures 0 <= i ==> forall j :: 0 <= j < i ==> !Answers(headOk, user, repo, Candidates[j])
    ensures i == -1 <==> forall j :: 0 <= j < |Candidates| ==> !Answers(headOk, user, repo, Candidates[j])
  {
    FindIndex(Candidates, (name: string) => Answers(headOk, user, repo, name))
  }

  /**
   * The specification of `fetchShowcaseImage`: the URL and format of the
   * first candidate that answers, or null for both when none does.
   */
  function ShowcaseImage(user: string, repo: string, headOk: string -> bool): (r: ImageCheck)
    ensures r.url.Some? <==> exists j :: 0 <= j < |Candidates| && Answers(headOk, user, repo, Candidates[j])
    ensures r.url.None? ==> r.format.None?
    ensures r.url.Some? ==> exists i :: (0 <= i < |Candidates| &&
      (forall j :: 0 <= j < i ==> !Answers(headOk, user, repo, Candidates[j])) &&
      Answers(headOk, user, repo, Candidates[i]) &&
      r.url.value == CandidateUrl(user, repo, Candidates[i]) &&
      r.format == FormatOf(Candidates[i]))
  {
    var i := FirstHit(user, repo, headOk);
    if i == -1 then ImageCheck(None, None)
    else ImageCheck(Some(CandidateUrl(user, repo, Candidates[i])), FormatOf(Candidates[i]))
  }

  /** Every URL found carries a format, one of the three image extensions. */
  lemma FoundFormat(user: string, repo: string, headOk: string -> bool)
    requires ShowcaseImage(user, repo, headOk).url.Some?
    ensures ShowcaseImage(user, repo, headOk).format in {Some("jpg"), Some("png"), Some("jpeg")}
  {
    CandidateFormat(FirstHit(user, repo, headOk));
  }

  /** The URLs probed: each candidate up to and including the first that answers. */
  function Probes(user: string, repo: string, headOk: string -> bool): seq<string> {
    var i := FirstHit(user, repo, headOk);
    if i == -1 then UrlsOf(user, repo, Candidates) else UrlsOf(user, repo, Candidates[..i + 1])
  }

  /**
   * The probes are a prefix of the candidates' URLs in order, every one but
   * the last failed, and the list stops early only at a candidate that answered.
   */
  lemma ProbesInOrder(user: string, repo: string, headOk: string -> bool)
    ensures var urls := Probes(user, repo, headOk);
      1 <= |urls| <= |Candidates| &&
      urls == UrlsOf(user, repo, Candidates[..|urls|]) &&
      (forall j :: 0 <= j < |urls| - 1 ==> !Answers(headOk, user, repo, Candidates[j])) &&
      (|urls| < |Candidates| ==> Answers(headOk, user, repo, Candidates[|urls| - 1]))
  {
    if FirstHit(user, repo, headOk) == -1 {
      assert Candidates[..|Candidates|] == Candidates;
    }
  }

  /** No candidate after the first that answers is ever requested. */
  lemma NothingProbedAfterHit(user: string, repo: string, headOk: string -> bool, i: nat)
    requires i < |Candidates| && Answers(headOk, user, repo, Candidates[i])
    ensures |Probes(user, repo, headOk)| <= i + 1
    ensures ShowcaseImage(user, repo, headOk).url.Some?
  {
    ProbesInOrder(user, repo, headOk);
  }

  /**
   * `fetchShowcaseImage`: tries the candidates in order and returns at the
   * first that answers.  `probes` lists the URLs requested.
   */
  method FetchShowcaseImage(user: string, repo: string, headOk: string -> bool)
    returns (result: ImageCheck, probes: seq<string>)
    ensures result == ShowcaseImage(user, repo, headOk)
    ensures probes == Probes(user, repo, headOk)
  {
    probes := [];
    var i := 0;
    while i < |Candidates|
      invariant 0 <= i <= |Candidates|
      invariant forall j :: 0 <= j < i ==> !Answers(headOk, user, repo, Candidates[j])
      invariant probes == UrlsOf(user, repo, Candidates[..i])
    {
      var url := CandidateUrl(user, repo, Candidates[i]);
      probes := probes + [url];
      assert probes == UrlsOf(user, repo, Candidates[..i + 1]);
      if headOk(url) {
        assert FirstHit(user, repo, headOk) == i;
        result := ImageCheck(Some(url), FormatOf(Candidates[i]));
        return;
      }
      i := i + 1;
    }
    assert Candidates[..i] == Candidates;
    result := ImageCheck(None, None);
  }

  /** `!project.imageUrl`: the project has no usable picture yet. */
  predicate NeedsImage(project: Record) {
    !FieldTruthy(project, "imageUrl")
  }

  /** `project.htmlUrl.split` only works on a string; anything else throws. */
  predicate HasUrlText(project: Record) {
    "htmlUrl" in project && project["htmlUrl"].Str?
  }

  /** Segment `i` of `htmlUrl` split on "/", "undefined" past the end. */
  function UrlSegment(project: Record, i: nat): string
    requires HasUrlText(project)
  {
    ElementOrUndefined(Split(project["htmlUrl"].s, '/'), i)
  }

  /** Splitting off a leading piece that holds no slash. */
  lemma SplitAfterPiece(piece: string, rest: string)
    requires forall i :: 0 <= i < |piece| ==> piece[i] != '/'
    ensures Split(piece + "/" + rest, '/') == [piece] + Split(rest, '/')
  {
    assert piece + "/" + rest == piece + ['/'] + rest;
    SplitConcat(piece, rest, '/');
    SplitNoSeparator(piece, '/');
  }

  /** For a GitHub page URL, segments 3 and 4 are the owner and the repository. */
  lemma GitHubUrlSegments(project: Record, owner: string, name: string, tail: string)
    requires forall i :: 0 <= i < |owner| ==> owner[i] != '/'
    requires forall i :: 0 <= i < |name| ==> name[i] != '/'
    requires "htmlUrl" in project && project["htmlUrl"] == Str("https://github.com/" + owner + "/" + name + tail)
    requires tail == "" || tail[0] == '/'
    ensures HasUrlText(project)
    ensures UrlSegment(project, 3) == owner && UrlSegment(project, 4) == name
  {
    var after := name + tail;
    var r3 := owner + "/" + after;
    var r2 := "github.com" + "/" + r3;
    var r1 := "" + "/" + r2;
    var url := project["htmlUrl"].s;
    assert url == "https:" + "/" + r1;
    var p1 := Split(r1, '/');
    var p2 := Split(r2, '/');
    var p3 := Split(r3, '/');
    var p4 := Split(after, '/');
    assert Split(url, '/') == ["https:"] + p1 by { SplitAfterPiece("https:", r1); }
    assert p1 == [""] + p2 by { SplitAfterPiece("", r2); }
    assert p2 == ["github.com"] + p3 by { SplitAfterPiece("github.com", r3); }
    assert p3 == [owner] + p4 by { SplitAfterPiece(owner, after); }
    assert p4[0] == name by {
      if tail == "" {
        assert after == name;
        SplitNoSeparator(name, '/');
      } else {
        assert after == name + "/" + tail[1..];
        SplitAfterPiece(name, tail[1..]);
      }
    }
  }

  /**
   * What one step of `updateProjectsWithShowcaseImages` makes of a project:
   * the project itself when it has a picture, an error when its `htmlUrl`
   * cannot be split, and otherwise the project with `imageUrl` set to the
   * showcase image found, if any.
   */
  function WithShowcase(project: Record, headOk: string -> bool): (r: Result<Record>)
    ensures !NeedsImage(project) ==> r == Ok(project)
    ensures r.Err? <==> NeedsImage(project) && !HasUrlText(project)
  {
    if !NeedsImage(project) then Ok(project)
    else if !HasUrlText(project) then Err("htmlUrl is not a string")
    else
      var found := ShowcaseImage(UrlSegment(project, 3), UrlSegment(project, 4), headOk);
      if found.url.Some? then Ok(project["imageUrl" := Str(found.url.value)]) else Ok(project)
  }

  /**
   * A step changes a project only by giving it the URL of a candidate that
   * answered, found from the owner and repository named in its `htmlUrl`.
   */
  lemma WithShowcaseSetsFoundImage(project: Record, headOk: string -> bool)
    requires WithShowcase(project, headOk).Ok? && WithShowcase(project, headOk).value != project
    ensures HasUrlText(project) && NeedsImage(project)
    ensures exists i :: (0 <= i < |Candidates| &&
      Answers(headOk, UrlSegment(project, 3), UrlSegment(project, 4), Candidates[i]) &&
      WithShowcase(project, headOk).value ==
        project["imageUrl" := Str(CandidateUrl(UrlSegment(project, 3), UrlSegment(project, 4), Candidates[i]))])
  {
  }

  /** The URLs one step requests: none for a project that has a picture or that throws. */
  function ProbesFor(project: Record, headOk: string -> bool): (urls: seq<string>)
    ensures !NeedsImage(project) ==> urls == []
  {
    if NeedsImage(project) && HasUrlText(project)
    then Probes(UrlSegment(project, 3), UrlSegment(project, 4), headOk)
    else []
  }

  /** The specification of `updateProjectsWithShowcaseImages`: each project in turn, stopping at the first that throws. */
  function UpdateAll(projects: seq<Record>, headOk: string -> bool): (r: Result<seq<Record>>)
    decreases |projects|
  {
    if |projects| == 0 then Ok([])
    else
      match WithShowcase(projects[0], headOk)
      case Err(reason) => Err(reason)
      case Ok(p) =>
        match UpdateAll(projects[1..], headOk)
        case Err(reason) => Err(reason)
        case Ok(ps) => Ok([p] + ps)
  }

  /** All URLs requested, up to and including the project that throws. */
  function ProbesAll(projects: seq<Record>, headOk: string -> bool): seq<string>
    decreases |projects|
  {
    if |projects| == 0 then []
    else if WithShowcase(projects[0], headOk).Err? then []
    else ProbesFor(projects[0], headOk) + ProbesAll(projects[1..], headOk)
  }

  /**
   * The update keeps the projects and their order and changes each one
   * exactly as its own step does; it fails exactly when some project
   * without a picture has no `htmlUrl` text.
   */
  lemma {:induction false} UpdateAllPointwise(projects: seq<Record>, headOk: string -> bool)
    ensures UpdateAll(projects, headOk).Ok? <==>
      forall i :: 0 <= i < |projects| ==> WithShowcase(projects[i], headOk).Ok?
    ensures UpdateAll(projects, headOk).Ok? ==>
      |UpdateAll(projects, headOk).value| == |projects| &&
      forall i :: 0 <= i < |projects| ==>
        UpdateAll(projects, headOk).value[i] == WithShowcase(projects[i], headOk).value
    decreases |projects|
  {
    if |projects| > 0 {
      UpdateAllPointwise(projects[1..], headOk);
      assert forall i :: 1 <= i < |projects| ==> projects[1..][i - 1] == projects[i];
    }
  }

  /** A list whose projects all have pictures comes back unchanged, and nothing is requested. */
  lemma {:induction false} AllPicturedUntouched(projects: seq<Record>, headOk: string -> bool)
    requires forall i :: 0 <= i < |projects| ==> !NeedsImage(projects[i])
    ensures UpdateAll(projects, headOk) == Ok(projects)
    ensures ProbesAll(projects, headOk) == []
    decreases |projects|
  {
    if |projects| > 0 {
      AllPicturedUntouched(projects[1..], headOk);
      assert [projects[0]] + projects[1..] == projects;
    }
  }

  /**
   * `updateProjectsWithShowcaseImages`: looks up a picture for every project
   * that lacks one and collects the projects in order.  A project whose
   * `htmlUrl` is not text makes the call fail.
   */
  method UpdateProjectsWithShowcaseImages(projects: seq<Record>, headOk: string -> bool)
    returns (result: Result<seq<Record>>, probes: seq<string>)
    ensures result == UpdateAll(projects, headOk)
    ensures probes == ProbesAll(projects, headOk)
  {
    var updated: seq<Record> := [];
    probes := [];
    var i := 0;
    assert projects[i..] == projects;
    AfterNothing(projects, headOk);
    while i < |projects|
      invariant 0 <= i <= |projects|
      invariant UpdateAll(projects, headOk) == AfterPrefix(updated, projects[i..], headOk)
      invariant ProbesAll(projects, headOk) == probes + ProbesAll(projects[i..], headOk)
    {
      var original := projects[i];
      assert projects[i..] == [original] + projects[i + 1..];
      var step, tried := UpdateOne(original, headOk);
      if step.Err? {
        AfterPrefixFails(updated, original, projects[i + 1..], headOk);
        result := Err(step.reason);
        return;
      }
      var project := step.value;
      AfterPrefixStep(updated, original, projects[i + 1..], headOk);
      probes := probes + tried;
      updated := updated + [project];
      i := i + 1;
    }
    assert projects[i..] == [];
    assert updated + [] == updated;
    result := Ok(updated);
  }

  /**
   * The body of the loop of `updateProjectsWithShowcaseImages` for one
   * project: `Err` where reading `htmlUrl.split` throws.
   */
  method UpdateOne(project: Record, headOk: string -> bool) returns (r: Result<Record>, tried: seq<string>)
    ensures r == WithShowcase(project, headOk)
    ensures tried == ProbesFor(project, headOk)
  {
    tried := [];
    if FieldTruthy(project, "imageUrl") {
      return Ok(project), tried;
    }
    if !("htmlUrl" in project && project["htmlUrl"].Str?) {
      return Err("htmlUrl is not a string"), tried;
    }
    var parts := Split(project["htmlUrl"].s, '/');
    var owner := ElementOrUndefined(parts, 3);
    var repoName := ElementOrUndefined(parts, 4);
    var found;
    found, tried := FetchShowcaseImage(owner, repoName, headOk);
    if found.url.Some? {
      r := Ok(project["imageUrl" := Str(found.url.value)]);
    } else {
      r := Ok(project);
    }
  }

  /** The result of the whole run given the projects already done and those still to do. */
  function AfterPrefix(done: seq<Record>, rest: seq<Record>, headOk: string -> bool): Result<seq<Record>> {
    match UpdateAll(rest, headOk)
    case Err(reason) => Err(reason)
    case Ok(ps) => Ok(done + ps)
  }

  lemma AfterNothing(projects: seq<Record>, headOk: string -> bool)
    ensures AfterPrefix([], projects, headOk) == UpdateAll(projects, headOk)
  {
    if UpdateAll(projects, headOk).Ok? {
      assert [] + UpdateAll(projects, headOk).value == UpdateAll(projects, headOk).value;
    }
  }

  lemma AfterPrefixFails(done: seq<Record>, p: Record, rest: seq<Record>, headOk: string -> bool)
    requires WithShowcase(p, headOk).Err?
    ensures AfterPrefix(done, [p] + rest, headOk) == Err(WithShowcase(p, headOk).reason)
    ensures ProbesAll([p] + rest, headOk) == []
  {
  }

  lemma AfterPrefixStep(done: seq<Record>, p: Record, rest: seq<Record>, headOk: string -> bool)
    requires WithShowcase(p, headOk).Ok?
    ensures AfterPrefix(done, [p] + rest, headOk) == AfterPrefix(done + [WithShowcase(p, headOk).value], rest, headOk)
    ensures ProbesAll([p] + rest, headOk) == ProbesFor(p, headOk) + ProbesAll(rest, headOk)
  {
    assert ([p] + rest)[1..] == rest;
    if UpdateAll(rest, headOk).Ok? {
      assert done + ([WithShowcase(p, headOk).value] + UpdateAll(rest, headOk).value) ==
        (done + [WithShowcase(p, headOk).value]) + UpdateAll(rest, headOk).value;
    }
  }
}
