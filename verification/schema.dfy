/**
 * The tables of the shared schema and the insert schemas derived from them.
 * An insert schema accepts a request body when every required column is
 * present with a value of the column's kind, every optional column that is
 * present holds such a value (or `null` where the column is nullable), and
 * it keeps only the columns it knows: unknown fields are dropped.
 */
module Schema {
  import opened Wrappers
  import opened Json

  datatype Table =
    | Users | Projects | ContactMessages | Certifications | LinkedinPosts
    | Skills | Blogs | ContactInfo | Educations | SelectedProjects

  /**
   * Column kinds.  `DateOrText` is the extended `publishedAt` of the blog and
   * LinkedIn insert schemas: a date, or a string that is turned into one.
   */
  datatype Kind = Serial | Text | Integer | Boolean | Timestamp | DateOrText

  datatype Column = Column(name: string, kind: Kind, notNull: bool, default: Option<Value>)

  function Req(name: string, kind: Kind): Column { Column(name, kind, true, None) }
  function Opt(name: string, kind: Kind): Column { Column(name, kind, false, None) }
  function Def(name: string, kind: Kind, d: Value): Column { Column(name, kind, false, Some(d)) }

  const Id := Column("id", Serial, true, None)
  /** `defaultNow()`: the database fills it in; its default is not a JSON value. */
  const CreatedAt := Column("createdAt", Timestamp, false, None)

  /** The columns of each table besides `id` and `createdAt`, in declaration order. */
  function Fields(t: Table): seq<Column> {
    match t
    case Users => [Req("username", Text), Req("password", Text)]
    case Projects =>
      [Req("githubId", Integer), Req("name", Text), Opt("description", Text),
       Opt("imageUrl", Text), Opt("videoUrl", Text), Opt("category", Text),
       Opt("customDescription", Text), Def("featured", Boolean, Bool(false))]
    case ContactMessages =>
      [Req("name", Text), Req("email", Text), Req("subject", Text), Req("message", Text)]
    case Certifications =>
      [Req("title", Text), Req("issuer", Text), Req("year", Text), Opt("imageUrl", Text),
       Opt("description", Text), Def("featured", Boolean, Bool(false))]
    case LinkedinPosts =>
      [Req("title", Text), Req("content", Text), Req("postUrl", Text), Opt("imageUrl", Text),
       Def("likes", Integer, Num(0)), Def("comments", Integer, Num(0)),
       Def("featured", Boolean, Bool(false)), Req("publishedAt", Timestamp)]
    case Skills =>
      [Req("name", Text), Req("category", Text), Opt("logoUrl", Text),
       Def("featured", Boolean, Bool(false))]
    case Blogs =>
      [Req("title", Text), Req("url", Text), Opt("description", Text), Opt("imageUrl", Text),
       Req("publishedAt", Timestamp), Def("featured", Boolean, Bool(false))]
    case ContactInfo =>
      [Req("email", Text), Opt("linkedinUrl", Text), Opt("githubUrl", Text),
       Opt("phoneNumber", Text), Opt("location", Text)]
    case Educations =>
      [Req("courseName", Text), Req("collegeName", Text), Req("startMonth", Text),
       Req("startYear", Integer), Req("endMonth", Text), Req("endYear", Integer),
       Req("status", Text)]
    case SelectedProjects =>
      [Req("githubRepoId", Integer), Req("name", Text), Opt("description", Text),
       Req("htmlUrl", Text), Opt("language", Text), Def("stargazersCount", Integer, Num(0)),
       Def("forksCount", Integer, Num(0)), Def("isSelected", Boolean, Bool(true)),
       Opt("customDescription", Text), Opt("imageUrl", Text),
       Def("featured", Boolean, Bool(false)), Def("displayOrder", Integer, Num(0))]
  }

  /** The full table: the serial `id`, the fields, and `createdAt` on every table but users. */
  function Columns(t: Table): seq<Column> {
    [Id] + Fields(t) + (if t == Users then [] else [CreatedAt])
  }

  /** The first column with the given name, if any. */
  function ColumnNamed(cols: seq<Column>, name: string): (r: Option<Column>)
    ensures r.Some? ==> r.value in cols && r.value.name == name
    ensures r.None? ==> forall i :: 0 <= i < |cols| ==> cols[i].name != name
  {
    if |cols| == 0 then None
    else if cols[0].name == name then Some(cols[0])
    else ColumnNamed(cols[1..], name)
  }

  /** The extended `publishedAt`: a date, or a string turned into one. */
  function Extended(c: Column): Column {
    if c.name == "publishedAt" then Req("publishedAt", DateOrText) else c
  }

  /**
   * The columns an insert schema knows.  The user schema picks `username` and
   * `password`; every other schema omits `id` and `createdAt`, and the blog
   * and LinkedIn schemas extend `publishedAt`.
   */
  function InsertColumns(t: Table): (r: seq<Column>)
    ensures |r| == |Fields(t)|
  {
    if t == LinkedinPosts || t == Blogs then
      seq(|Fields(t)|, i requires 0 <= i < |Fields(t)| => Extended(Fields(t)[i]))
    else Fields(t)
  }

  lemma FieldsOmitIdAndCreatedAt(t: Table)
    ensures forall i :: 0 <= i < |Fields(t)| ==> Fields(t)[i].name != "id" && Fields(t)[i].name != "createdAt"
  {
    match t {
      case Users =>
      case Projects =>
      case ContactMessages =>
      case Certifications =>
      case LinkedinPosts =>
      case Skills =>
      case Blogs =>
      case ContactInfo =>
      case Educations =>
      case SelectedProjects =>
    }
  }

  /** Every insert schema leaves out the table's `id` and `createdAt` columns. */
  lemma InsertOmitsIdAndCreatedAt(t: Table, body: Record, parseDate: string -> Option<int>)
    requires ParseInsert(t, body, parseDate).Ok?
    ensures "id" !in ParseInsert(t, body, parseDate).value
    ensures "createdAt" !in ParseInsert(t, body, parseDate).value
  {
    var cols := InsertColumns(t);
    FieldsOmitIdAndCreatedAt(t);
    forall i | 0 <= i < |cols| ensures cols[i].name != "id" && cols[i].name != "createdAt" {
      if t == LinkedinPosts || t == Blogs {
        assert cols[i] == Extended(Fields(t)[i]);
      }
    }
    var r := ParseColumns(cols, body, parseDate).value;
    assert forall k :: k in r ==> exists i :: 0 <= i < |cols| && cols[i].name == k;
  }

  /** A column the insert schema cannot do without. */
  predicate Required(c: Column) {
    c.notNull && c.default.None?
  }

  /** A present, non-null value the column's kind accepts. */
  predicate OfKind(k: Kind, v: Value) {
    match k
    case Serial => v.Num?
    case Text => v.Str?
    case Integer => v.Num?
    case Boolean => v.Bool?
    case Timestamp => v.Date?
    case DateOrText => v.Date? || v.Str?
  }

  /** Whether the column accepts what the body holds for it. */
  predicate FieldOk(c: Column, body: Record) {
    if c.name !in body then !Required(c)
    else if body[c.name] == Null then !c.notNull
    else OfKind(c.kind, body[c.name])
  }

  /** The value stored for an accepted field: a string `publishedAt` becomes a date. */
  function Converted(c: Column, v: Value, parseDate: string -> Option<int>): Value {
    if c.kind == DateOrText && v.Str? then
      (match parseDate(v.s) case Some(ms) => Date(ms) case None => InvalidDate)
    else v
  }

  /** Runs the columns over the body, collecting the accepted fields. */
  function ParseColumns(cols: seq<Column>, body: Record, parseDate: string -> Option<int>): (r: Result<Record>)
    ensures r.Ok? ==> forall k :: k in r.value ==> exists i :: 0 <= i < |cols| && cols[i].name == k
  {
    if |cols| == 0 then Ok(map[])
    else
      var c := cols[0];
      if !FieldOk(c, body) then Err("invalid field " + c.name)
      else
        match ParseColumns(cols[1..], body, parseDate)
        case Err(e) => Err(e)
        case Ok(rest) =>
          if c.name in body then Ok(rest[c.name := Converted(c, body[c.name], parseDate)]) else Ok(rest)
  }

  /**
   * `insertXSchema.parse(body)`.  `parseDate` is `new Date(text)`: the instant
   * it denotes, or `None` for an invalid date.
   */
  function ParseInsert(t: Table, body: Record, parseDate: string -> Option<int>): Result<Record>
  {
    ParseColumns(InsertColumns(t), body, parseDate)
  }

  /** A body is accepted exactly when every column accepts its field. */
  lemma {:induction false} ParseColumnsOk(cols: seq<Column>, body: Record, parseDate: string -> Option<int>)
    ensures ParseColumns(cols, body, parseDate).Ok? <==> forall i :: 0 <= i < |cols| ==> FieldOk(cols[i], body)
  {
    if |cols| > 0 {
      ParseColumnsOk(cols[1..], body, parseDate);
      if FieldOk(cols[0], body) {
        forall i | 1 <= i < |cols| ensures cols[i] == cols[1..][i - 1] {}
      }
    }
  }

  /**
   * An accepted body keeps exactly the known fields it carries, each converted
   * by its first column of that name.
   */
  lemma {:induction false} ParseColumnsFields(cols: seq<Column>, body: Record, parseDate: string -> Option<int>, k: string)
    requires ParseColumns(cols, body, parseDate).Ok?
    ensures var r := ParseColumns(cols, body, parseDate).value;
      (k in r <==> k in body && ColumnNamed(cols, k).Some?) &&
      (k in r ==> r[k] == Converted(ColumnNamed(cols, k).value, body[k], parseDate))
  {
    if |cols| > 0 {
      ParseColumnsFields(cols[1..], body, parseDate, k);
    }
  }

  lemma ParseInsertOk(t: Table, body: Record, parseDate: string -> Option<int>)
    ensures ParseInsert(t, body, parseDate).Ok? <==>
      forall i :: 0 <= i < |InsertColumns(t)| ==> FieldOk(InsertColumns(t)[i], body)
  {
    ParseColumnsOk(InsertColumns(t), body, parseDate);
  }

  /** The user insert schema keeps `username` and `password` and nothing else. */
  lemma UserPick(body: Record, parseDate: string -> Option<int>)
    requires ParseInsert(Users, body, parseDate).Ok?
    ensures ParseInsert(Users, body, parseDate).value.Keys == {"username", "password"}
    ensures "username" in body && body["username"].Str?
    ensures "password" in body && body["password"].Str?
    ensures ParseInsert(Users, body, parseDate).value["username"] == body["username"]
    ensures ParseInsert(Users, body, parseDate).value["password"] == body["password"]
  {
    var cols := InsertColumns(Users);
    ParseInsertOk(Users, body, parseDate);
    assert FieldOk(cols[0], body) && FieldOk(cols[1], body);
    ParseColumnsFields(cols, body, parseDate, "username");
    ParseColumnsFields(cols, body, parseDate, "password");
  }

  /** `ColumnNamed` finds the column at `i` when no earlier column has its name. */
  lemma {:induction false} ColumnNamedAt(cols: seq<Column>, i: nat, name: string)
    requires i < |cols| && cols[i].name == name
    requires forall j :: 0 <= j < i ==> cols[j].name != name
    ensures ColumnNamed(cols, name) == Some(cols[i])
  {
    if i > 0 {
      ColumnNamedAt(cols[1..], i - 1, name);
    }
  }

  /**
   * A string `publishedAt` on a blog or LinkedIn insert is stored as the date
   * it denotes, or as an invalid date; it is never kept as a string.
   */
  lemma PublishedAtCoerced(t: Table, body: Record, parseDate: string -> Option<int>, text: string)
    requires t == Blogs || t == LinkedinPosts
    requires "publishedAt" in body && body["publishedAt"] == Str(text)
    requires ParseInsert(t, body, parseDate).Ok?
    ensures var r := ParseInsert(t, body, parseDate).value;
      "publishedAt" in r &&
      r["publishedAt"] == (match parseDate(text) case Some(ms) => Date(ms) case None => InvalidDate)
  {
    var cols := InsertColumns(t);
    var i := if t == Blogs then 4 else 7;
    assert cols[i] == Req("publishedAt", DateOrText);
    forall j | 0 <= j < i ensures cols[j].name != "publishedAt" {
      assert cols[j] == Fields(t)[j];
    }
    ColumnNamedAt(cols, i, "publishedAt");
    ParseColumnsFields(cols, body, parseDate, "publishedAt");
  }

  /** An accepted project carries the numeric `githubId` it was sent with. */
  lemma ProjectGithubId(body: Record, parseDate: string -> Option<int>)
    requires ParseInsert(Projects, body, parseDate).Ok?
    ensures "githubId" in body && body["githubId"].Num?
    ensures var r := ParseInsert(Projects, body, parseDate).value;
      "githubId" in r && r["githubId"] == body["githubId"]
  {
    var cols := InsertColumns(Projects);
    ParseInsertOk(Projects, body, parseDate);
    assert FieldOk(cols[0], body);
    ColumnNamedAt(cols, 0, "githubId");
    ParseColumnsFields(cols, body, parseDate, "githubId");
  }

  /** An accepted certification carries a string title, issuer and year. */
  lemma CertificationRequired(body: Record, parseDate: string -> Option<int>)
    requires ParseInsert(Certifications, body, parseDate).Ok?
    ensures "title" in body && body["title"].Str?
    ensures "issuer" in body && body["issuer"].Str?
    ensures "year" in body && body["year"].Str?
  {
    var cols := InsertColumns(Certifications);
    ParseInsertOk(Certifications, body, parseDate);
    assert FieldOk(cols[0], body) && FieldOk(cols[1], body) && FieldOk(cols[2], body);
  }

  /** The three required fields suffice, and image and description may be null. */
  lemma CertificationMinimal(title: string, issuer: string, year: string, parseDate: string -> Option<int>)
    ensures ParseInsert(Certifications,
      map["title" := Str(title), "issuer" := Str(issuer), "year" := Str(year),
          "imageUrl" := Null, "description" := Null], parseDate).Ok?
  {
    var body := map["title" := Str(title), "issuer" := Str(issuer), "year" := Str(year),
          "imageUrl" := Null, "description" := Null];
    var cols := InsertColumns(Certifications);
    ParseInsertOk(Certifications, body, parseDate);
    forall i | 0 <= i < |cols| ensures FieldOk(cols[i], body) {
      assert cols[i] == Fields(Certifications)[i];
    }
  }

  /** Education status is free text: any string in its place keeps a body accepted. */
  lemma EducationStatusFreeText(body: Record, status: string, parseDate: string -> Option<int>)
    requires ParseInsert(Educations, body, parseDate).Ok?
    ensures ParseInsert(Educations, body["status" := Str(status)], parseDate).Ok?
  {
    var cols := InsertColumns(Educations);
    var body' := body["status" := Str(status)];
    ParseInsertOk(Educations, body, parseDate);
    ParseInsertOk(Educations, body', parseDate);
    forall i | 0 <= i < |cols| ensures FieldOk(cols[i], body') {
      assert cols[i] == Fields(Educations)[i];
      assert FieldOk(cols[i], body);
    }
  }
}
