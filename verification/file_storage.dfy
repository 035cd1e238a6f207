/**
 * The file store, the one the server uses.  Each table lives in one JSON
 * file of the data directory; every call reads the whole file, changes the
 * array it holds and writes it back.  The directory is a map from file name
 * to what the file parses as.
 */
module FileStore {
  import opened Wrappers
  import opened Json
  import opened Schema
  import opened Seqs
  import opened Records

  /** What `JSON.parse` makes of a file; `Unreadable` when it fails. */
  datatype Doc = Arr(items: seq<Record>) | Obj(fields: Record) | JNull | Unreadable

  type Dir = map<string, Doc>

  function FileName(t: Table): string {
    match t
    case Users => "users.json"
    case Projects => "projects.json"
    case ContactMessages => "contactMessages.json"
    case Certifications => "certifications.json"
    case LinkedinPosts => "linkedinPosts.json"
    case Skills => "skills.json"
    case Blogs => "blogs.json"
    case ContactInfo => "contactInfo.json"
    case Educations => "education.json"
    case SelectedProjects => "selectedProjects.json"
  }

  /** `readJsonFile(name, default)`: a missing or unparsable file reads as the default. */
  function ReadJsonFile(dir: Dir, name: string, default: Doc): (d: Doc)
    ensures (name !in dir || dir[name] == Unreadable) ==> d == default
    ensures name in dir && dir[name] != Unreadable ==> d == dir[name]
  {
    if name in dir && dir[name] != Unreadable then dir[name] else default
  }

  /** The array a table file holds, read with the default `[]`. */
  function ReadList(dir: Dir, t: Table): seq<Record> {
    match ReadJsonFile(dir, FileName(t), Arr([]))
    case Arr(rs) => rs
    case _ => []
  }

  /** `displayOrder || 0`. */
  function DisplayKey(r: Record): int {
    NumOr(r, "displayOrder", 0)
  }

  /** `getSelectedProjects`: ascending `displayOrder`, ties in file order. */
  function ByDisplayOrder(rs: seq<Record>): seq<Record> {
    SortBy(rs, DisplayKey)
  }

  lemma ByDisplayOrderSorted(rs: seq<Record>)
    ensures multiset(ByDisplayOrder(rs)) == multiset(rs)
    ensures forall i, j :: 0 <= i < j < |ByDisplayOrder(rs)| ==>
      DisplayKey(ByDisplayOrder(rs)[i]) <= DisplayKey(ByDisplayOrder(rs)[j])
  {
    SortByPermutes(rs, DisplayKey);
    SortBySorted(rs, DisplayKey);
  }

  /** No two records of the list hold the same numeric id. */
  ghost predicate UniqueIds(rs: seq<Record>) {
    forall i, j, id :: 0 <= i < j < |rs| && HasId(rs[i], id) ==> !HasId(rs[j], id)
  }

  /** Appending a record with the allocated id keeps ids unique. */
  lemma AppendKeepsIdsUnique(rs: seq<Record>, r: Record)
    requires UniqueIds(rs) && IdKey(r) == NewId(rs)
    ensures UniqueIds(rs + [r])
  {
    var s := rs + [r];
    forall i, j, id | 0 <= i < j < |s| && HasId(s[i], id) ensures !HasId(s[j], id) {
      if j == |rs| {
        assert IdKey(s[i]) == id && IdKey(r) > id;
      } else {
        assert s[i] == rs[i] && s[j] == rs[j];
      }
    }
  }

  /**
   * `const i = rs.findIndex(r => r.id === id); rs[i] = { ...rs[i], ...updates }`:
   * `None` when no record has the id, otherwise the list with the first such
   * record merged and every other position untouched.
   */
  function UpdateFirst(rs: seq<Record>, id: int, updates: Record): (r: Option<seq<Record>>)
    ensures r.None? <==> forall i :: 0 <= i < |rs| ==> !HasId(rs[i], id)
    ensures r.Some? ==> var i := FindIndex(rs, (x: Record) => HasId(x, id));
      0 <= i < |rs| && HasId(rs[i], id) && (forall j :: 0 <= j < i ==> !HasId(rs[j], id)) &&
      |r.value| == |rs| && r.value[i] == Spread(rs[i], updates) &&
      forall j :: 0 <= j < |rs| && j != i ==> r.value[j] == rs[j]
  {
    var i := FindIndex(rs, (x: Record) => HasId(x, id));
    if i == -1 then None else Some(rs[i := Spread(rs[i], updates)])
  }

  /**
   * An update whose body does not carry a different id keeps ids unique; the
   * body is not validated, so one that does can give two records the same id.
   */
  lemma UpdateKeepsIdsUnique(rs: seq<Record>, id: int, updates: Record)
    requires UniqueIds(rs) && UpdateFirst(rs, id, updates).Some?
    requires "id" !in updates || updates["id"] == Num(id)
    ensures UniqueIds(UpdateFirst(rs, id, updates).value)
  {
    var i := FindIndex(rs, (x: Record) => HasId(x, id));
    var s := UpdateFirst(rs, id, updates).value;
    assert forall k :: HasId(s[i], k) <==> HasId(rs[i], k);
  }

  /** Two records, and an update that copies the first one's id onto the second. */
  lemma UpdateCanDuplicateIds()
    ensures var rs := [map["id" := Num(1)], map["id" := Num(2)]];
      UniqueIds(rs) && UpdateFirst(rs, 2, map["id" := Num(1)]).Some? &&
      !UniqueIds(UpdateFirst(rs, 2, map["id" := Num(1)]).value)
  {
    var rs: seq<Record> := [map["id" := Num(1)], map["id" := Num(2)]];
    assert HasId(rs[0], 1) && HasId(rs[1], 2);
    assert FindIndex(rs, (x: Record) => HasId(x, 2)) == 1;
    var s := UpdateFirst(rs, 2, map["id" := Num(1)]).value;
    assert HasId(s[0], 1) && HasId(s[1], 1);
  }

  /** `rs.filter(r => r.id !== id)`. */
  function Without(rs: seq<Record>, id: int): seq<Record> {
    Filter(rs, (r: Record) => Keeps(id, r))
  }

  /**
   * Delete shrinks the list exactly when some record had the id; afterwards
   * none has it, and every other record is still there.
   */
  lemma WithoutFacts(rs: seq<Record>, id: int)
    ensures |Without(rs, id)| < |rs| <==> exists i :: 0 <= i < |rs| && HasId(rs[i], id)
    ensures forall i :: 0 <= i < |Without(rs, id)| ==> !HasId(Without(rs, id)[i], id) && Without(rs, id)[i] in rs
    ensures forall i :: 0 <= i < |rs| && !HasId(rs[i], id) ==> rs[i] in Without(rs, id)
  {
    var p := (r: Record) => Keeps(id, r);
    FilterShrinks(rs, p);
    FilterMembers(rs, p);
  }

  /** `reorderedIds.indexOf(r.id)`, or 999 when the id is not listed. */
  function Rank(ids: seq<int>, r: Record): int {
    var i := if "id" in r && r["id"].Num? then IndexOf(ids, r["id"].n) else -1;
    if i >= 0 then i else 999
  }

  /** `{ ...r, sortOrder: rank }`. */
  function WithSortOrder(ids: seq<int>, r: Record): Record {
    Spread(r, map["sortOrder" := Num(Rank(ids, r))])
  }

  function SortOrderKey(r: Record): int {
    NumOr(r, "sortOrder", 0)
  }

  /** The `reorder*` methods: tag each record with its rank, then sort by it. */
  function Reordered(rs: seq<Record>, ids: seq<int>): seq<Record> {
    SortBy(Map(rs, (r: Record) => WithSortOrder(ids, r)), SortOrderKey)
  }

  /** A record is listed when its id appears in `ids`. */
  predicate Listed(ids: seq<int>, r: Record) {
    "id" in r && r["id"].Num? && r["id"].n in ids
  }

  lemma RankFacts(ids: seq<int>, r: Record)
    ensures SortOrderKey(WithSortOrder(ids, r)) == Rank(ids, r)
    ensures Listed(ids, r) ==> 0 <= Rank(ids, r) < |ids| && ids[Rank(ids, r)] == r["id"].n
    ensures !Listed(ids, r) ==> Rank(ids, r) == 999
    ensures Listed(ids, WithSortOrder(ids, r)) == Listed(ids, r)
  {
  }

  /**
   * Reordering returns the tagged records, each with `sortOrder` its rank,
   * in ascending rank; when at most 999 ids are listed, every listed record
   * comes before every unlisted one.
   */
  lemma ReorderedFacts(rs: seq<Record>, ids: seq<int>)
    ensures multiset(Reordered(rs, ids)) == multiset(Map(rs, (r: Record) => WithSortOrder(ids, r)))
    ensures forall i, j :: 0 <= i < j < |Reordered(rs, ids)| ==>
      SortOrderKey(Reordered(rs, ids)[i]) <= SortOrderKey(Reordered(rs, ids)[j])
    ensures |ids| <= 999 ==> forall i, j ::
      (0 <= i < j < |Reordered(rs, ids)| && Listed(ids, Reordered(rs, ids)[j])) ==>
        Listed(ids, Reordered(rs, ids)[i])
  {
    var f := (r: Record) => WithSortOrder(ids, r);
    var tagged := Map(rs, f);
    var out := Reordered(rs, ids);
    SortByPermutes(tagged, SortOrderKey);
    SortBySorted(tagged, SortOrderKey);
    if |ids| <= 999 {
      forall i, j | 0 <= i < j < |out| && Listed(ids, out[j]) ensures Listed(ids, out[i]) {
        assert out[i] in multiset(tagged) && out[j] in multiset(tagged);
        var a :| 0 <= a < |tagged| && tagged[a] == out[i];
        var b :| 0 <= b < |tagged| && tagged[b] == out[j];
        RankFacts(ids, rs[a]);
        RankFacts(ids, rs[b]);
      }
    }
  }

  /** The tables with a `delete*` and a `reorder*` method. */
  const EditableTables: set<Table> :=
    {Certifications, LinkedinPosts, Skills, Blogs, Educations, SelectedProjects}

  /** The tables with an `update*` method. */
  const UpdatableTables: set<Table> := EditableTables + {Projects}

  /** The tables whose records are created through the list file. */
  const ListTables: set<Table> := UpdatableTables + {Users, ContactMessages}

  /** Every file but `name` is as it was. */
  ghost predicate OnlyChanged(before: Dir, after: Dir, name: string) {
    forall f :: f != name ==> (f in before <==> f in after) && (f in before ==> after[f] == before[f])
  }

  /**
   * The getters: LinkedIn posts and blogs newest first, selected projects by
   * display order, every other list as stored.
   */
  function Listing(dir: Dir, t: Table, parseDate: string -> Option<int>): (rs: seq<Record>)
    ensures multiset(rs) == multiset(ReadList(dir, t))
    ensures t == LinkedinPosts || t == Blogs ==>
      rs == NewestFirst(parseDate, ReadList(dir, t)) &&
      forall i, j :: 0 <= i < j < |rs| ==> PublishedTime(parseDate, rs[i]) >= PublishedTime(parseDate, rs[j])
    ensures t == SelectedProjects ==>
      rs == ByDisplayOrder(ReadList(dir, t)) &&
      forall i, j :: 0 <= i < j < |rs| ==> DisplayKey(rs[i]) <= DisplayKey(rs[j])
    ensures t != LinkedinPosts && t != Blogs && t != SelectedProjects ==> rs == ReadList(dir, t)
  {
    NewestFirstOrdered(parseDate, ReadList(dir, t));
    ByDisplayOrderSorted(ReadList(dir, t));
    if t == LinkedinPosts || t == Blogs then NewestFirst(parseDate, ReadList(dir, t))
    else if t == SelectedProjects then ByDisplayOrder(ReadList(dir, t))
    else ReadList(dir, t)
  }

  /**
   * The featured getters: the listing, then `filter(r => r.featured)`.  For
   * LinkedIn posts and blogs this is the order the in-memory store gives by
   * filtering first and sorting after.
   */
  function FeaturedListing(dir: Dir, t: Table, parseDate: string -> Option<int>): (rs: seq<Record>)
    ensures forall i :: 0 <= i < |rs| ==> IsFeatured(rs[i]) && rs[i] in ReadList(dir, t)
    ensures forall r :: r in ReadList(dir, t) && IsFeatured(r) ==> r in rs
    ensures t == LinkedinPosts || t == Blogs ==> rs == NewestFirst(parseDate, Featured(ReadList(dir, t)))
    ensures t != LinkedinPosts && t != Blogs && t != SelectedProjects ==> rs == Featured(ReadList(dir, t))
  {
    var listed := Listing(dir, t, parseDate);
    SameMembers(listed, ReadList(dir, t));
    FeaturedNewestCommute(parseDate, ReadList(dir, t));
    Featured(listed)
  }

  /** The record test of `find(r => r[field] === value)`. */
  predicate FieldIs(field: string, v: Value, r: Record) {
    field in r && r[field] == v
  }

  /** `getUser`, `getUserByUsername`, `getProjectByGithubId`: the first match in the file. */
  function FindBy(dir: Dir, t: Table, field: string, v: Value): (r: Option<Record>)
    ensures r.Some? ==>
      exists j :: 0 <= j < |ReadList(dir, t)| && ReadList(dir, t)[j] == r.value && FieldIs(field, v, r.value) &&
        forall k :: 0 <= k < j ==> !FieldIs(field, v, ReadList(dir, t)[k])
    ensures r.None? ==> forall i :: 0 <= i < |ReadList(dir, t)| ==> !FieldIs(field, v, ReadList(dir, t)[i])
  {
    Find(ReadList(dir, t), (x: Record) => FieldIs(field, v, x))
  }

  /** The list a write starts from: selected projects are read through their sorted getter. */
  function Source(dir: Dir, t: Table): seq<Record> {
    if t == SelectedProjects then ByDisplayOrder(ReadList(dir, t)) else ReadList(dir, t)
  }

  /** The fills of a create; a selected project's `displayOrder` defaults to the count. */
  function CreateDefaults(t: Table, count: int): map<string, Value> {
    if t == SelectedProjects then StoreDefaults(t)["displayOrder" := Num(count)] else StoreDefaults(t)
  }

  /** The record a create stores. */
  function Created(dir: Dir, t: Table, insert: Record, now: int): Record {
    NewRecord(t, insert, CreateDefaults(t, |Source(dir, t)|), NewId(Source(dir, t)), now)
  }

  /** The directory after a create. */
  function AfterCreate(dir: Dir, t: Table, insert: Record, now: int): Dir {
    dir[FileName(t) := Arr(Source(dir, t) + [Created(dir, t, insert, now)])]
  }

  /**
   * The created record's id is above every id already stored, and a create
   * pushes it onto the list it read and touches no other file.
   */
  lemma CreateFacts(dir: Dir, t: Table, insert: Record, now: int)
    ensures var r := Created(dir, t, insert, now);
      IdKey(r) == NewId(Source(dir, t)) &&
      forall i :: 0 <= i < |Source(dir, t)| ==> IdKey(Source(dir, t)[i]) < IdKey(r)
    ensures var d := AfterCreate(dir, t, insert, now);
      ReadList(d, t) == Source(dir, t) + [Created(dir, t, insert, now)] &&
      OnlyChanged(dir, d, FileName(t))
  {
  }

  /**
   * Outside selected projects, a create keeps every stored record where it
   * was and, when ids were unique, keeps them unique.
   */
  lemma CreateAppends(dir: Dir, t: Table, insert: Record, now: int)
    requires t != SelectedProjects
    ensures var before := ReadList(dir, t);
      var after := ReadList(AfterCreate(dir, t, insert, now), t);
      |after| == |before| + 1 && after[..|before|] == before &&
      (UniqueIds(before) ==> UniqueIds(after))
  {
    var before := ReadList(dir, t);
    var after := ReadList(AfterCreate(dir, t, insert, now), t);
    CreateFacts(dir, t, insert, now);
    assert after == before + [Created(dir, t, insert, now)];
    assert after[..|before|] == before;
    if UniqueIds(before) {
      AppendKeepsIdsUnique(before, Created(dir, t, insert, now));
    }
  }

  /** A selected project created without `displayOrder` gets the number stored before it. */
  lemma SelectedDisplayOrder(dir: Dir, insert: Record, now: int)
    ensures var r := Created(dir, SelectedProjects, insert, now);
      "displayOrder" in r && r["displayOrder"] == Coalesce(insert, "displayOrder", Num(|ReadList(dir, SelectedProjects)|))
  {
    assert |Source(dir, SelectedProjects)| == |ReadList(dir, SelectedProjects)| by {
      ByDisplayOrderSorted(ReadList(dir, SelectedProjects));
      assert |multiset(Source(dir, SelectedProjects))| == |multiset(ReadList(dir, SelectedProjects))|;
    }
  }

  /** What an update answers: the first record with the id, merged; nothing without one. */
  function Updated(dir: Dir, t: Table, id: int, updates: Record): (r: Option<Record>)
    ensures r.None? <==> forall i :: 0 <= i < |Source(dir, t)| ==> !HasId(Source(dir, t)[i], id)
    ensures r.Some? ==> exists i :: (0 <= i < |Source(dir, t)| && HasId(Source(dir, t)[i], id) &&
      (forall j :: 0 <= j < i ==> !HasId(Source(dir, t)[j], id)) &&
      r.value == Spread(Source(dir, t)[i], updates))
  {
    var rs := Source(dir, t);
    var i := FindIndex(rs, (x: Record) => HasId(x, id));
    if i == -1 then None else Some(Spread(rs[i], updates))
  }

  /** An update writes the merged list, or writes nothing when no record has the id. */
  function AfterUpdate(dir: Dir, t: Table, id: int, updates: Record): (d: Dir)
    ensures Updated(dir, t, id, updates).None? ==> d == dir
    ensures Updated(dir, t, id, updates).Some? ==>
      ReadList(d, t) == UpdateFirst(Source(dir, t), id, updates).value && OnlyChanged(dir, d, FileName(t))
  {
    match UpdateFirst(Source(dir, t), id, updates)
    case None => dir
    case Some(rs) => dir[FileName(t) := Arr(rs)]
  }

  /** What a delete answers: whether the list shrank, which is whether a record had the id. */
  function Deleted(dir: Dir, t: Table, id: int): (b: bool)
    ensures b <==> exists i :: 0 <= i < |Source(dir, t)| && HasId(Source(dir, t)[i], id)
  {
    WithoutFacts(Source(dir, t), id);
    |Without(Source(dir, t), id)| < |Source(dir, t)|
  }

  /** A delete writes the filtered list only when it shrank. */
  function AfterDelete(dir: Dir, t: Table, id: int): (d: Dir)
    ensures !Deleted(dir, t, id) ==> d == dir
    ensures Deleted(dir, t, id) ==>
      ReadList(d, t) == Without(Source(dir, t), id) && OnlyChanged(dir, d, FileName(t))
  {
    if Deleted(dir, t, id) then dir[FileName(t) := Arr(Without(Source(dir, t), id))] else dir
  }

  /** A reorder writes the ranked records back, reading the file as stored. */
  function AfterReorder(dir: Dir, t: Table, ids: seq<int>): (d: Dir)
    ensures ReadList(d, t) == Reordered(ReadList(dir, t), ids)
    ensures OnlyChanged(dir, d, FileName(t))
  {
    dir[FileName(t) := Arr(Reordered(ReadList(dir, t), ids))]
  }

  /** `getContactInfo`: the stored object, or `undefined`. */
  function ContactInfoOf(dir: Dir): (r: Option<Record>)
    ensures r.Some? <==> ReadJsonFile(dir, FileName(ContactInfo), JNull).Obj?
  {
    var d := ReadJsonFile(dir, FileName(ContactInfo), JNull);
    if d.Obj? then Some(d.fields) else None
  }

  /** `createContactInfo` always stores id 1. */
  function NewContactInfo(insert: Record, now: int): (r: Record)
    ensures HasId(r, 1)
  {
    NewRecord(ContactInfo, insert, StoreDefaults(ContactInfo), 1, now)
  }

  /** A create replaces whatever contact info was stored. */
  function AfterCreateContactInfo(dir: Dir, insert: Record, now: int): (d: Dir)
    ensures ContactInfoOf(d) == Some(NewContactInfo(insert, now))
    ensures OnlyChanged(dir, d, FileName(ContactInfo))
  {
    dir[FileName(ContactInfo) := Obj(NewContactInfo(insert, now))]
  }

  /** `updateContactInfo`: `undefined` unless the stored object has that id. */
  function UpdatedContactInfo(dir: Dir, id: int, updates: Record): (r: Option<Record>)
    ensures r.Some? <==> ContactInfoOf(dir).Some? && HasId(ContactInfoOf(dir).value, id)
    ensures r.Some? ==> r.value == Spread(ContactInfoOf(dir).value, updates)
  {
    var info := ContactInfoOf(dir);
    if info.None? || !HasId(info.value, id) then None else Some(Spread(info.value, updates))
  }

  function AfterUpdateContactInfo(dir: Dir, id: int, updates: Record): (d: Dir)
    ensures UpdatedContactInfo(dir, id, updates).None? ==> d == dir
    ensures UpdatedContactInfo(dir, id, updates).Some? ==>
      ContactInfoOf(d) == UpdatedContactInfo(dir, id, updates) && OnlyChanged(dir, d, FileName(ContactInfo))
  {
    match UpdatedContactInfo(dir, id, updates)
    case None => dir
    case Some(r) => dir[FileName(ContactInfo) := Obj(r)]
  }

  /**
   * The store the server uses.  Each method reads its file into a local
   * array, changes it and writes it back.
   */
  class FileStorage {
    var files: Dir

    constructor (dir: Dir)
      ensures files == dir
    {
      files := dir;
    }

    /** The list `create*` methods: allocate max+1, fill defaults, push, write back. */
    method Create(t: Table, insert: Record, now: int) returns (r: Record)
      requires t in ListTables
      modifies this
      ensures r == Created(old(files), t, insert, now)
      ensures files == AfterCreate(old(files), t, insert, now)
    {
      var rs := Source(files, t);
      r := Created(files, t, insert, now);
      rs := rs + [r];
      files := files[FileName(t) := Arr(rs)];
    }

    /** The `update*` methods: merge into the first match in place; nothing is written without one. */
    method Update(t: Table, id: int, updates: Record) returns (r: Option<Record>)
      requires t in UpdatableTables
      modifies this
      ensures r == Updated(old(files), t, id, updates)
      ensures files == AfterUpdate(old(files), t, id, updates)
    {
      var rs := Source(files, t);
      var index := FindIndex(rs, (x: Record) => HasId(x, id));
      if index == -1 {
        return None;
      }
      rs := rs[index := Spread(rs[index], updates)];
      files := files[FileName(t) := Arr(rs)];
      r := Some(rs[index]);
    }

    /** The `delete*` methods: filter out the id; write and answer true only if the list shrank. */
    method Delete(t: Table, id: int) returns (deleted: bool)
      requires t in EditableTables
      modifies this
      ensures deleted == Deleted(old(files), t, id)
      ensures files == AfterDelete(old(files), t, id)
    {
      var rs := Source(files, t);
      var filtered := Without(rs, id);
      if |filtered| < |rs| {
        files := files[FileName(t) := Arr(filtered)];
        return true;
      }
      return false;
    }

    /** The `reorder*` methods; they read the file as stored, even for selected projects. */
    method Reorder(t: Table, ids: seq<int>) returns (ok: bool)
      requires t in EditableTables
      modifies this
      ensures ok && files == AfterReorder(old(files), t, ids)
    {
      var rs := ReadList(files, t);
      files := files[FileName(t) := Arr(Reordered(rs, ids))];
      ok := true;
    }

    method CreateContactInfo(insert: Record, now: int) returns (r: Record)
      modifies this
      ensures r == NewContactInfo(insert, now)
      ensures files == AfterCreateContactInfo(old(files), insert, now)
    {
      r := NewRecord(ContactInfo, insert, StoreDefaults(ContactInfo), 1, now);
      files := files[FileName(ContactInfo) := Obj(r)];
    }

    method UpdateContactInfo(id: int, updates: Record) returns (r: Option<Record>)
      modifies this
      ensures r == UpdatedContactInfo(old(files), id, updates)
      ensures files == AfterUpdateContactInfo(old(files), id, updates)
    {
      var info := ContactInfoOf(files);
      if info.None? || !HasId(info.value, id) {
        return None;
      }
      var updated := Spread(info.value, updates);
      files := files[FileName(ContactInfo) := Obj(updated)];
      r := Some(updated);
    }
  }
}
