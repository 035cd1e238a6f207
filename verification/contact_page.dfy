/**
 * The Contact page: the social links built from the stored contact info,
 * and the message form with its submission.
 */
module ContactPage {
  import opened Wrappers
  import opened Strings
  import opened Seqs
  import opened Json
  import opened Schema
  import opened FileStore
  import opened Routes

  /** One social link: its name, where it points and the text shown. */
  datatype Link = Link(name: string, url: string, caption: string)

  /** The links shown before any contact info is stored. */
  const FallbackLinks: seq<Link> := [
    Link("Email", "mailto:harrinair2000@gmail.com", "harrinair2000@gmail.com"),
    Link("LinkedIn", "https://www.linkedin.com/in/hari-nair3", "https://www.linkedin.com/in/hari-nair3"),
    Link("GitHub", "https://github.com/hari3100", "github.com/hari3100")]

  /** `info.k` used as a condition: a non-empty text. */
  predicate Filled(info: Record, k: string) {
    k in info && info[k].Str? && info[k].s != ""
  }

  function Text(info: Record, k: string): string
    requires Filled(info, k)
  {
    info[k].s
  }

  /** A profile address without its scheme: the first "https://", then the first "http://", removed. */
  function Label(url: string): string {
    ReplaceFirst(ReplaceFirst(url, "https://", ""), "http://", "")
  }

  /** A secure address whose remainder holds no second scheme is shown without "https://". */
  lemma LabelDropsScheme(url: string)
    requires StartsWith(url, "https://") && !Contains(url[8..], "http://")
    ensures Label(url) == url[8..]
  {
    ReplaceFirstAtStart(url, "https://");
    ReplaceFirstAbsent(url[8..], "http://", "");
  }

  /** The link a filled field contributes, if the field is filled. */
  function EmailLink(info: Record): seq<Link> {
    if Filled(info, "email") then [Link("Email", "mailto:" + Text(info, "email"), Text(info, "email"))] else []
  }

  function LinkedinLink(info: Record): seq<Link> {
    if Filled(info, "linkedinUrl") then
      [Link("LinkedIn", Text(info, "linkedinUrl"), Label(Text(info, "linkedinUrl")))]
    else []
  }

  function GithubLink(info: Record): seq<Link> {
    if Filled(info, "githubUrl") then [Link("GitHub", Text(info, "githubUrl"), Label(Text(info, "githubUrl")))] else []
  }

  function PhoneLink(info: Record): seq<Link> {
    if Filled(info, "phoneNumber") then
      [Link("Phone", "tel:" + Text(info, "phoneNumber"), Text(info, "phoneNumber"))]
    else []
  }

  /**
   * `getSocialLinks`: the fallback links when no info is loaded, otherwise
   * the email, LinkedIn, GitHub and phone links in that order, each pushed
   * only when its field is filled.
   */
  method SocialLinks(info: Option<Record>) returns (links: seq<Link>)
    ensures info.None? ==> links == FallbackLinks
    ensures info.Some? ==>
      links == EmailLink(info.value) + LinkedinLink(info.value) + GithubLink(info.value) + PhoneLink(info.value)
  {
    if info.None? {
      return FallbackLinks;
    }
    var r := info.value;
    links := [];
    if Filled(r, "email") {
      links := links + [Link("Email", "mailto:" + Text(r, "email"), Text(r, "email"))];
    }
    assert links == EmailLink(r);
    if Filled(r, "linkedinUrl") {
      links := links + [Link("LinkedIn", Text(r, "linkedinUrl"), Label(Text(r, "linkedinUrl")))];
    }
    assert links == EmailLink(r) + LinkedinLink(r);
    if Filled(r, "githubUrl") {
      links := links + [Link("GitHub", Text(r, "githubUrl"), Label(Text(r, "githubUrl")))];
    }
    assert links == EmailLink(r) + LinkedinLink(r) + GithubLink(r);
    if Filled(r, "phoneNumber") {
      links := links + [Link("Phone", "tel:" + Text(r, "phoneNumber"), Text(r, "phoneNumber"))];
    }
  }

  /** The links a loaded contact info gives. */
  function LinksOf(info: Record): seq<Link> {
    EmailLink(info) + LinkedinLink(info) + GithubLink(info) + PhoneLink(info)
  }

  function Names(links: seq<Link>): seq<string> {
    Map(links, (l: Link) => l.name)
  }

  lemma NamesAppend(a: seq<Link>, b: seq<Link>)
    ensures Names(a + b) == Names(a) + Names(b)
  {
    assert forall i :: 0 <= i < |a + b| ==> Names(a + b)[i] == (Names(a) + Names(b))[i];
  }

  /** `[name]` when `present`, nothing otherwise. */
  function When(present: bool, name: string): seq<string> {
    if present then [name] else []
  }

  /**
   * The links come in the fixed order email, LinkedIn, GitHub, phone, each
   * exactly when its field is filled, so there are at most four.
   */
  lemma LinkOrder(info: Record)
    ensures Names(LinksOf(info)) ==
      When(Filled(info, "email"), "Email") + When(Filled(info, "linkedinUrl"), "LinkedIn") +
      When(Filled(info, "githubUrl"), "GitHub") + When(Filled(info, "phoneNumber"), "Phone")
    ensures |LinksOf(info)| <= 4
  {
    var e, l, g, p := EmailLink(info), LinkedinLink(info), GithubLink(info), PhoneLink(info);
    NamesAppend(e, l);
    NamesAppend(e + l, g);
    NamesAppend(e + l + g, p);
  }

  lemma EmailLinkScheme(info: Record)
    ensures forall x :: x in EmailLink(info) ==> x.name == "Email" && StartsWith(x.url, "mailto:")
  {
    if Filled(info, "email") {
      var u := "mailto:" + Text(info, "email");
      assert u[..7] == "mailto:";
    }
  }

  lemma PhoneLinkScheme(info: Record)
    ensures forall x :: x in PhoneLink(info) ==> x.name == "Phone" && StartsWith(x.url, "tel:")
  {
    if Filled(info, "phoneNumber") {
      var u := "tel:" + Text(info, "phoneNumber");
      assert u[..4] == "tel:";
    }
  }

  /** The email link uses the "mailto:" scheme and the phone link the "tel:" scheme. */
  lemma LinkSchemes(info: Record)
    ensures forall l :: l in LinksOf(info) && l.name == "Email" ==> StartsWith(l.url, "mailto:")
    ensures forall l :: l in LinksOf(info) && l.name == "Phone" ==> StartsWith(l.url, "tel:")
  {
    var e, l, g, p := EmailLink(info), LinkedinLink(info), GithubLink(info), PhoneLink(info);
    EmailLinkScheme(info);
    PhoneLinkScheme(info);
    assert forall x: Link :: x in l ==> x.name == "LinkedIn";
    assert forall x: Link :: x in g ==> x.name == "GitHub";
    assert LinksOf(info) == e + l + g + p;
  }

  /** The location field never makes a link: changing it changes no link. */
  lemma LocationMakesNoLink(info: Record, location: Value)
    ensures LinksOf(info["location" := location]) == LinksOf(info)
  {
    var other := info["location" := location];
    assert EmailLink(other) == EmailLink(info);
    assert LinkedinLink(other) == LinkedinLink(info);
    assert GithubLink(other) == GithubLink(info);
    assert PhoneLink(other) == PhoneLink(info);
  }

  /** The form's fields, all text. */
  const FormFields: set<string> := {"name", "email", "subject", "message"}

  /** The form as the request body that carries it. */
  function FormBody(form: map<string, string>): Record {
    map k | k in form :: Str(form[k])
  }

  /**
   * The path the form posts to in the source, `/api/contact-messages`: no
   * API route takes it, so the message is never stored.
   */
  const SubmitPathAsWritten: seq<string> := ["api", "contact-messages"]

  /** The path the server registers for contact messages, `/api/contact`. */
  const ContactPath: seq<string> := ["api", "contact"]

  lemma SubmitAsWrittenIsUnrouted(form: map<string, string>, dir: Dir, env: Env)
    ensures Handle(Request(Post, SubmitPathAsWritten, None, FormBody(form), None), dir, env) == None
  {
    UnregisteredPaths(Post, SubmitPathAsWritten);
  }

  /** A `POST /api/contact` goes to the contact-message handler. */
  lemma ContactPathDispatch()
    ensures Dispatch(Post, ContactPath) == 4
    ensures RouteAt(4).handler == SubmitContact
  {
    var rs := Registered();
    assert Matches(RouteAt(4).pattern[1..], ContactPath[1..]);
    assert Selects(rs[4], Post, ContactPath);
    forall j | 0 <= j < 4 ensures !Selects(rs[j], Post, ContactPath) {
      if Selects(rs[j], Post, ContactPath) {
        MatchesLit(rs[j].pattern, ContactPath, 1);
      }
    }
  }

  /**
   * Posted to the path the server registers, a form holding its four fields
   * is accepted, stored at the end of the contact messages and answered
   * with success.
   */
  lemma SubmitToContactPathStores(form: map<string, string>, dir: Dir, env: Env)
    requires FormFields <= form.Keys
    ensures var body := FormBody(form);
      var o := Handle(Request(Post, ContactPath, None, body, None), dir, env);
      ParseInsert(ContactMessages, body, env.parseDate).Ok? && o.Some? &&
      o.value.response == Response(200, Sent("Message sent successfully")) &&
      ReadList(o.value.dir, ContactMessages) ==
        ReadList(dir, ContactMessages) + [Created(dir, ContactMessages, ParseInsert(ContactMessages, body, env.parseDate).value, env.now)]
  {
    var body := FormBody(form);
    ContactPathDispatch();
    ParseInsertOk(ContactMessages, body, env.parseDate);
    var req := Request(Post, ContactPath, None, body, None);
    ContactFacts(req, dir, env);
  }

  /** A notification: title, text and whether it reports a failure. */
  datatype Toast = Toast(title: string, description: string, destructive: bool)

  /** The contact form's state. */
  class ContactForm {
    var formData: map<string, string>
    var isSubmitting: bool

    constructor()
      ensures formData == map["name" := "", "email" := "", "subject" := "", "message" := ""]
      ensures !isSubmitting
    {
      formData := map["name" := "", "email" := "", "subject" := "", "message" := ""];
      isSubmitting := false;
    }

    /** `handleInputChange`: the input's own field takes its value; every other field is kept. */
    method HandleInputChange(name: string, value: string)
      modifies this
      ensures formData == old(formData)[name := value]
      ensures isSubmitting == old(isSubmitting)
    {
      formData := formData[name := value];
    }

    /**
     * `handleSubmit` up to the request: the form is posted as it stands, to
     * `/api/contact-messages`, which no API route takes.
     */
    method Submit() returns (request: Request)
      modifies this
      ensures isSubmitting && formData == old(formData)
      ensures request == Request(Post, SubmitPathAsWritten, None, FormBody(formData), None)
    {
      isSubmitting := true;
      request := Request(Post, SubmitPathAsWritten, None, FormBody(formData), None);
    }

    /** The request settled: a success empties every field, a failure keeps the form for another try. */
    method SubmitSettled(succeeded: bool) returns (toast: Toast)
      modifies this
      ensures !isSubmitting
      ensures succeeded ==> formData == map["name" := "", "email" := "", "subject" := "", "message" := ""]
      ensures succeeded ==> toast == Toast("Message Sent!", "Thank you for your message. I'll get back to you soon!", false)
      ensures !succeeded ==> formData == old(formData)
      ensures !succeeded ==> toast == Toast("Error", "Failed to send message. Please try again.", true)
    {
      if succeeded {
        toast := Toast("Message Sent!", "Thank you for your message. I'll get back to you soon!", false);
        formData := map["name" := "", "email" := "", "subject" := "", "message" := ""];
      } else {
        toast := Toast("Error", "Failed to send message. Please try again.", true);
      }
      isSubmitting := false;
    }
  }
}
