/**
 * What both stores do to a record: fill in the defaults on create, stamp the
 * id and creation time, allocate ids, and list featured records or records
 * newest first.
 */
module Records {
  import opened Wrappers
  import opened Json
  import opened Schema
  import opened Seqs

  /**
   * The `field ?? default` fills of each create method.  Selected projects
   * also default `displayOrder`, to the number of stored projects; that fill
   * depends on the store and is not listed here.
   */
  function StoreDefaults(t: Table): map<string, Value> {
    match t
    case Projects =>
      map["description" := Null, "imageUrl" := Null, "videoUrl" := Null, "category" := Null,
          "customDescription" := Null, "featured" := Bool(false)]
    case Certifications => map["imageUrl" := Null, "description" := Null, "featured" := Bool(false)]
    case LinkedinPosts =>
      map["imageUrl" := Null, "likes" := Num(0), "comments" := Num(0), "featured" := Bool(false)]
    case Skills => map["logoUrl" := Null, "featured" := Bool(false)]
    case Blogs => map["description" := Null, "imageUrl" := Null, "featured" := Bool(false)]
    case ContactInfo =>
      map["linkedinUrl" := Null, "githubUrl" := Null, "phoneNumber" := Null, "location" := Null]
    case SelectedProjects =>
      map["description" := Null, "customDescription" := Null, "imageUrl" := Null, "language" := Null,
          "stargazersCount" := Num(0), "forksCount" := Num(0), "isSelected" := Bool(true),
          "featured" := Bool(false)]
    case _ => map[]
  }

  /** Users carry no creation time; every other table stamps one. */
  predicate Stamped(t: Table) {
    t != Users
  }

  /** `{ ...insert, k: insert.k ?? d, …, id, createdAt }`. */
  function NewRecord(t: Table, insert: Record, defaults: map<string, Value>, id: int, now: int): (r: Record)
    ensures "id" in r && r["id"] == Num(id)
    ensures Stamped(t) ==> "createdAt" in r && r["createdAt"] == Date(now)
    ensures forall k :: k in defaults && k != "id" && k != "createdAt" ==>
      k in r && r[k] == Coalesce(insert, k, defaults[k])
    ensures forall k :: k in insert && k !in defaults && k != "id" && k != "createdAt" ==>
      k in r && r[k] == insert[k]
    ensures forall k :: k in r ==>
      k in insert || k in defaults || k == "id" || (Stamped(t) && k == "createdAt")
  {
    var filled := map k | k in defaults :: Coalesce(insert, k, defaults[k]);
    var stamp := if Stamped(t) then map["id" := Num(id), "createdAt" := Date(now)] else map["id" := Num(id)];
    Spread(Spread(insert, filled), stamp)
  }

  /** A field the store fills with a non-null default is never null in the new record. */
  lemma NewRecordFilled(t: Table, insert: Record, id: int, now: int, k: string)
    requires k in StoreDefaults(t) && StoreDefaults(t)[k] != Null
    ensures var r := NewRecord(t, insert, StoreDefaults(t), id, now);
      k in r && r[k] != Null && (k in insert && insert[k] != Null ==> r[k] == insert[k])
  {
    assert k != "id" && k != "createdAt";
  }

  function SchemaDefault(c: Column): Value {
    if c.default.Some? then c.default.value else Null
  }

  /**
   * Every optional column of a table gets its schema default from the store's
   * create fill, except a selected project's `displayOrder`.
   */
  ghost predicate DefaultsAgree(t: Table) {
    forall i :: (0 <= i < |Fields(t)| && !Required(Fields(t)[i]) &&
                 !(t == SelectedProjects && Fields(t)[i].name == "displayOrder")) ==>
      Fields(t)[i].name in StoreDefaults(t) && StoreDefaults(t)[Fields(t)[i].name] == SchemaDefault(Fields(t)[i])
  }

  lemma ProjectsDefaultsAgree()
    ensures DefaultsAgree(Projects)
  {
  }

  lemma LinkedinDefaultsAgree()
    ensures DefaultsAgree(LinkedinPosts)
  {
  }

  lemma SelectedDefaultsAgree()
    ensures DefaultsAgree(SelectedProjects)
  {
  }

  lemma StoreDefaultsAgree(t: Table)
    ensures forall i :: (0 <= i < |Fields(t)| && !Required(Fields(t)[i]) &&
                         !(t == SelectedProjects && Fields(t)[i].name == "displayOrder")) ==>
      Fields(t)[i].name in StoreDefaults(t) && StoreDefaults(t)[Fields(t)[i].name] == SchemaDefault(Fields(t)[i])
  {
    match t {
      case Projects => ProjectsDefaultsAgree();
      case LinkedinPosts => LinkedinDefaultsAgree();
      case SelectedProjects => SelectedDefaultsAgree();
      case Users =>
      case ContactMessages =>
      case Certifications =>
      case Skills =>
      case Blogs =>
      case ContactInfo =>
      case Educations =>
    }
  }

  /** `r.id === id`. */
  predicate HasId(r: Record, id: int) {
    "id" in r && r["id"] == Num(id)
  }

  /** The id a record contributes to `Math.max`. */
  function IdKey(r: Record): int {
    NumOr(r, "id", 0)
  }

  /** `Math.max(0, ...rs.map(r => r.id))`. */
  function MaxId(rs: seq<Record>): (m: int)
    ensures m >= 0
    ensures forall i :: 0 <= i < |rs| ==> IdKey(rs[i]) <= m
    ensures m == 0 || exists i :: 0 <= i < |rs| && IdKey(rs[i]) == m
  {
    if |rs| == 0 then 0
    else
      var rest := MaxId(rs[1..]);
      if IdKey(rs[0]) > rest then IdKey(rs[0]) else rest
  }

  /** The id the next create uses. */
  function NewId(rs: seq<Record>): (id: int)
    ensures id >= 1
    ensures rs == [] ==> id == 1
    ensures forall i :: 0 <= i < |rs| ==> !HasId(rs[i], id)
  {
    MaxId(rs) + 1
  }

  /** Record filters, as named tests. */
  predicate IsFeatured(r: Record) {
    FieldTruthy(r, "featured")
  }

  predicate Keeps(id: int, r: Record) {
    !HasId(r, id)
  }

  /**
   * Deleting the record with the largest id and creating again gives the
   * same id back exactly when the largest id is 1 or some record holds the
   * id just below it; otherwise the new id is smaller.
   */
  lemma {:induction false} NewIdAfterDeletingMax(rs: seq<Record>)
    requires MaxId(rs) > 0
    ensures var m := MaxId(rs);
      var rest := Filter(rs, (r: Record) => Keeps(m, r));
      NewId(rest) <= m &&
      (NewId(rest) == m <==> m == 1 || exists i :: 0 <= i < |rs| && IdKey(rs[i]) == m - 1)
  {
    var m := MaxId(rs);
    var p := (r: Record) => Keeps(m, r);
    var rest := Filter(rs, p);
    FilterMembers(rs, p);
    forall i | 0 <= i < |rest| ensures IdKey(rest[i]) < m {
      var j :| 0 <= j < |rs| && rs[j] == rest[i];
    }
    if m > 1 && exists i :: 0 <= i < |rs| && IdKey(rs[i]) == m - 1 {
      var i :| 0 <= i < |rs| && IdKey(rs[i]) == m - 1;
      assert p(rs[i]);
      var k :| 0 <= k < |rest| && rest[k] == rs[i];
    }
    if NewId(rest) == m && m != 1 {
      var k :| 0 <= k < |rest| && IdKey(rest[k]) == m - 1;
      var j :| 0 <= j < |rs| && rs[j] == rest[k];
    }
  }

  /** `rs.filter(r => r.featured)`. */
  function Featured(rs: seq<Record>): (r: seq<Record>)
    ensures forall i :: 0 <= i < |r| ==> IsFeatured(r[i]) && r[i] in rs
    ensures forall i :: 0 <= i < |rs| && IsFeatured(rs[i]) ==> rs[i] in r
  {
    FilterMembers(rs, IsFeatured);
    Filter(rs, IsFeatured)
  }

  /**
   * `new Date(v).getTime()` for a stored value: a date is its instant, text
   * is read by `new Date(text)` (`parseDate`), a number is an instant,
   * `null` is the epoch and `true` one millisecond after it.  A value that
   * gives no valid date reads as 0.
   */
  function TimeOf(parseDate: string -> Option<int>, v: Value): int {
    match v
    case Date(ms) => ms
    case Str(s) => (match parseDate(s) case Some(ms) => ms case None => 0)
    case Num(n) => n
    case Bool(b) => if b then 1 else 0
    case Null => 0
    case InvalidDate => 0
  }

  /** `new Date(r.publishedAt).getTime()`; a missing date reads as 0. */
  function PublishedTime(parseDate: string -> Option<int>, r: Record): int {
    if "publishedAt" in r then TimeOf(parseDate, r["publishedAt"]) else 0
  }

  function NewestKey(parseDate: string -> Option<int>): Record -> int {
    (r: Record) => -PublishedTime(parseDate, r)
  }

  /** `rs.sort((a, b) => time(b) - time(a))`: newest first, ties in stored order. */
  function NewestFirst(parseDate: string -> Option<int>, rs: seq<Record>): seq<Record> {
    SortBy(rs, NewestKey(parseDate))
  }

  lemma NewestFirstOrdered(parseDate: string -> Option<int>, rs: seq<Record>)
    ensures multiset(NewestFirst(parseDate, rs)) == multiset(rs)
    ensures forall i, j :: 0 <= i < j < |NewestFirst(parseDate, rs)| ==>
      PublishedTime(parseDate, NewestFirst(parseDate, rs)[i]) >= PublishedTime(parseDate, NewestFirst(parseDate, rs)[j])
  {
    SortByPermutes(rs, NewestKey(parseDate));
    SortBySorted(rs, NewestKey(parseDate));
  }

  /**
   * A date read back from a JSON file is ISO text: it sorts exactly where
   * the date it denotes would, so of two records the one published later
   * comes first whichever form each date is stored in.
   */
  lemma TextDateSortsAsDate(parseDate: string -> Option<int>, a: Record, b: Record, text: string, ms: int)
    requires parseDate(text) == Some(ms)
    requires "publishedAt" in b && b["publishedAt"] == Str(text)
    requires PublishedTime(parseDate, a) < ms
    ensures NewestFirst(parseDate, [a, b]) == [b, a]
  {
    var key := NewestKey(parseDate);
    assert key(b) == -ms < key(a);
    assert SortBy([b], key) == [b] by {
      assert SortBy([b][1..], key) == [];
    }
    assert [a, b][1..] == [b];
    assert InsertByKey(a, [b], key) == [b] + InsertByKey(a, [], key);
  }

  /**
   * Sorting then filtering featured records (the file store) gives the same
   * list as filtering then sorting (the in-memory store).
   */
  lemma FeaturedNewestCommute(parseDate: string -> Option<int>, rs: seq<Record>)
    ensures Featured(NewestFirst(parseDate, rs)) == NewestFirst(parseDate, Featured(rs))
  {
    FilterSortCommute(rs, NewestKey(parseDate), IsFeatured);
  }
}
