/**
 * The in-memory store: one JavaScript `Map` from id to record per table,
 * one id counter per table, and a contact-info singleton with its own
 * counter.  A `Map` iterates in insertion order, and setting a key that is
 * already present keeps its place.
 */
module MemStore {
  import opened Wrappers
  import opened Json
  import opened Schema
  import opened Seqs
  import opened Records

  /** A `Map<number, record>`: its keys in insertion order, and the entries. */
  datatype IdMap = IdMap(keys: seq<int>, rows: map<int, Record>)

  ghost predicate Distinct(keys: seq<int>) {
    forall i, j :: 0 <= i < j < |keys| ==> keys[i] != keys[j]
  }

  /** The keys are listed once each, and every id issued so far is below `next`. */
  ghost predicate ValidMap(m: IdMap, next: int) {
    Distinct(m.keys) && (forall i :: 0 <= i < |m.keys| ==> m.keys[i] in m.rows) &&
    (forall k :: k in m.rows ==> k in m.keys && 1 <= k < next)
  }

  const Empty := IdMap([], map[])

  /** `Array.from(map.values())`. */
  function Values(m: IdMap): (vs: seq<Record>)
    requires forall i :: 0 <= i < |m.keys| ==> m.keys[i] in m.rows
    ensures |vs| == |m.keys|
  {
    seq(|m.keys|, i requires 0 <= i < |m.keys| => m.rows[m.keys[i]])
  }

  /** `map.set(id, r)` for a key that is not yet present. */
  function Add(m: IdMap, id: int, r: Record): IdMap {
    IdMap(m.keys + [id], m.rows[id := r])
  }

  /** `map.set(id, r)` for a key that is present: the entry keeps its place. */
  function Replace(m: IdMap, id: int, r: Record): IdMap {
    IdMap(m.keys, m.rows[id := r])
  }

  function DropKey(keys: seq<int>, id: int): seq<int> {
    Filter(keys, (k: int) => k != id)
  }

  /** `map.delete(id)`. */
  function Remove(m: IdMap, id: int): IdMap {
    IdMap(DropKey(m.keys, id), m.rows - {id})
  }

  /** Creating under the counter appends the record and keeps the map valid. */
  lemma AddFresh(m: IdMap, next: int, r: Record)
    requires ValidMap(m, next) && next >= 1
    ensures next !in m.rows
    ensures ValidMap(Add(m, next, r), next + 1)
  {
    var m' := Add(m, next, r);
    assert next !in m.rows;
    forall i, j | 0 <= i < j < |m'.keys| ensures m'.keys[i] != m'.keys[j] {
      if j == |m.keys| {
        assert m.keys[i] in m.rows;
      }
    }
    forall k | k in m'.rows ensures k in m'.keys && 1 <= k < next + 1 {
      if k != next {
        assert k in m.keys;
      }
    }
  }

  /** The new record comes last in iteration order. */
  lemma AddValues(m: IdMap, next: int, r: Record)
    requires ValidMap(m, next) && next >= 1
    ensures ValidMap(Add(m, next, r), next + 1)
    ensures Values(Add(m, next, r)) == Values(m) + [r]
  {
    AddFresh(m, next, r);
  }

  /** Replacing an entry changes that entry's record only, in place. */
  lemma ReplaceValid(m: IdMap, next: int, id: int, r: Record)
    requires ValidMap(m, next) && id in m.rows
    ensures ValidMap(Replace(m, id, r), next)
  {
  }

  lemma ReplaceInPlace(m: IdMap, next: int, id: int, r: Record)
    requires ValidMap(m, next) && id in m.rows
    ensures ValidMap(Replace(m, id, r), next)
    ensures var vs := Values(m); var vs' := Values(Replace(m, id, r));
      |vs'| == |vs| &&
      forall i :: 0 <= i < |vs| ==> vs'[i] == (if m.keys[i] == id then r else vs[i])
  {
  }

  /** Deleting a key keeps the other keys in their order. */
  lemma DropKeySplit(keys: seq<int>, id: int)
    requires Distinct(keys)
    ensures id in keys ==> var p := IndexOf(keys, id); DropKey(keys, id) == keys[..p] + keys[p + 1..]
    ensures id !in keys ==> DropKey(keys, id) == keys
  {
    var q := (k: int) => k != id;
    if id in keys {
      var p := IndexOf(keys, id);
      var before, after := keys[..p], keys[p + 1..];
      assert keys == before + [id] + after;
      assert forall i :: 0 <= i < |before| ==> q(before[i]);
      assert forall i :: 0 <= i < |after| ==> after[i] == keys[p + 1 + i] != keys[p];
      FilterAll(before, q);
      FilterAll(after, q);
      assert Filter([id], q) == [] + Filter([id][1..], q);
      FilterAppend(before, [id], q);
      assert Filter(before + [id], q) == before;
      FilterAppend(before + [id], after, q);
    } else {
      FilterAll(keys, q);
    }
  }

  lemma DropKeyFacts(keys: seq<int>, id: int)
    requires Distinct(keys)
    ensures Distinct(DropKey(keys, id))
    ensures forall k :: k in DropKey(keys, id) <==> k in keys && k != id
  {
    DropKeySplit(keys, id);
    if id in keys {
      var p := IndexOf(keys, id);
      var d := DropKey(keys, id);
      assert forall i :: 0 <= i < |d| ==> d[i] == keys[if i < p then i else i + 1];
      forall k ensures k in d <==> k in keys && k != id {
        if k in keys && k != id {
          var j :| 0 <= j < |keys| && keys[j] == k;
          assert d[if j < p then j else j - 1] == k;
        }
      }
    }
  }

  lemma RemoveFacts(m: IdMap, next: int, id: int)
    requires ValidMap(m, next)
    ensures ValidMap(Remove(m, id), next)
    ensures id !in Remove(m, id).rows
    ensures id !in m.rows ==> Values(Remove(m, id)) == Values(m)
  {
    DropKeyFacts(m.keys, id);
    DropKeySplit(m.keys, id);
  }

  /** Dropping the key at position `p`, with the other rows unchanged, drops that value. */
  lemma ValuesDropAt(m: IdMap, m': IdMap, p: nat)
    requires p < |m.keys| && forall i :: 0 <= i < |m.keys| ==> m.keys[i] in m.rows
    requires m'.keys == m.keys[..p] + m.keys[p + 1..]
    requires forall i :: 0 <= i < |m'.keys| ==> m'.keys[i] in m'.rows && m'.rows[m'.keys[i]] == m.rows[m'.keys[i]]
    ensures Values(m') == Values(m)[..p] + Values(m)[p + 1..]
  {
    var vs, vs' := Values(m), Values(m');
    forall i | 0 <= i < |vs'| ensures vs'[i] == (vs[..p] + vs[p + 1..])[i] {
      var j := if i < p then i else i + 1;
      assert m'.keys[i] == m.keys[j];
      assert (vs[..p] + vs[p + 1..])[i] == vs[j];
    }
  }

  /** Deleting a present id removes its entry and keeps the rest in order. */
  lemma RemoveValues(m: IdMap, next: int, id: int)
    requires ValidMap(m, next) && id in m.rows
    ensures ValidMap(Remove(m, id), next)
    ensures var p := IndexOf(m.keys, id);
      0 <= p < |Values(m)| && Values(Remove(m, id)) == Values(m)[..p] + Values(m)[p + 1..]
  {
    RemoveFacts(m, next, id);
    DropKeySplit(m.keys, id);
    DropKeyFacts(m.keys, id);
    var m' := Remove(m, id);
    ValuesDropAt(m, m', IndexOf(m.keys, id));
  }

  /** The operations of one table, for reasoning about a run of them. */
  datatype Op = CreateOp(insert: Record, now: int) | UpdateOp(id: int, updates: Record) | DeleteOp(id: int)

  /** One operation on a table and its counter; a create also reports the id it used. */
  function Step(t: Table, m: IdMap, next: int, op: Op): (IdMap, int, Option<int>) {
    match op
    case CreateOp(insert, now) =>
      (Add(m, next, NewRecord(t, insert, StoreDefaults(t), next, now)), next + 1, Some(next))
    case UpdateOp(id, updates) =>
      (if id in m.rows then Replace(m, id, Spread(m.rows[id], updates)) else m, next, None)
    case DeleteOp(id) => (Remove(m, id), next, None)
  }

  /** Runs the operations in turn and collects the ids the creates used. */
  function Run(t: Table, m: IdMap, next: int, ops: seq<Op>): (IdMap, int, seq<int>)
    decreases |ops|
  {
    if |ops| == 0 then (m, next, [])
    else
      var (m1, n1, issued) := Step(t, m, next, ops[0]);
      var (m2, n2, rest) := Run(t, m1, n1, ops[1..]);
      (m2, n2, (if issued.Some? then [issued.value] else []) + rest)
  }

  /**
   * Ids are never reused: over any run of creates, updates and deletes the
   * ids issued are strictly increasing, none below the counter at the start,
   * all below the counter at the end, and the map stays valid.
   */
  lemma {:induction false} IdsNeverReused(t: Table, m: IdMap, next: int, ops: seq<Op>)
    requires ValidMap(m, next) && next >= 1
    ensures var (m', next', issued) := Run(t, m, next, ops);
      ValidMap(m', next') && next <= next' &&
      (forall i :: 0 <= i < |issued| ==> next <= issued[i] < next') &&
      (forall i, j :: 0 <= i < j < |issued| ==> issued[i] < issued[j])
    decreases |ops|
  {
    if |ops| > 0 {
      var (m1, n1, issued1) := Step(t, m, next, ops[0]);
      if ops[0].CreateOp? {
        AddFresh(m, next, NewRecord(t, ops[0].insert, StoreDefaults(t), next, ops[0].now));
      } else if ops[0].UpdateOp? {
        if ops[0].id in m.rows {
          ReplaceValid(m, next, ops[0].id, Spread(m.rows[ops[0].id], ops[0].updates));
        }
      } else {
        RemoveFacts(m, next, ops[0].id);
      }
      IdsNeverReused(t, m1, n1, ops[1..]);
    }
  }

  /** The tables the in-memory store keeps. */
  const MemTables: set<Table> := {Users, Projects, ContactMessages, Certifications, LinkedinPosts, Skills, Blogs}

  /** The record test of `find(r => r[field] === value)`. */
  predicate FieldIs(field: string, v: Value, r: Record) {
    field in r && r[field] == v
  }

  /** Every table present with its counter, and each map valid under its counter. */
  ghost predicate TablesOk(maps: map<Table, IdMap>, counters: map<Table, int>) {
    forall t :: t in MemTables ==> t in maps && t in counters && counters[t] >= 1 && ValidMap(maps[t], counters[t])
  }

  lemma TablesOkUpdate(maps: map<Table, IdMap>, counters: map<Table, int>, t: Table, m: IdMap, next: int)
    requires TablesOk(maps, counters) && t in MemTables && next >= 1 && ValidMap(m, next)
    ensures TablesOk(maps[t := m], counters[t := next])
  {
    var maps', counters' := maps[t := m], counters[t := next];
    forall u | u in MemTables
      ensures u in maps' && u in counters' && counters'[u] >= 1 && ValidMap(maps'[u], counters'[u])
    {
      if u != t {
        assert maps'[u] == maps[u] && counters'[u] == counters[u];
      }
    }
  }

  /** Adding a record under a table's counter and raising the counter keeps every table valid. */
  lemma CreateKeepsTablesOk(maps: map<Table, IdMap>, counters: map<Table, int>, t: Table, r: Record)
    requires TablesOk(maps, counters) && t in MemTables
    ensures TablesOk(maps[t := Add(maps[t], counters[t], r)], counters[t := counters[t] + 1])
  {
    var next := counters[t];
    AddFresh(maps[t], next, r);
    TablesOkUpdate(maps, counters, t, Add(maps[t], next, r), next + 1);
  }

  class MemStorage {
    var maps: map<Table, IdMap>
    var counters: map<Table, int>
    var contactInfoData: Option<Record>
    var currentContactInfoId: int

    ghost predicate Valid()
      reads this
    {
      TablesOk(maps, counters) && currentContactInfoId >= 1
    }

    /** Empty tables, every counter at 1.  The seeded sample content is not modelled. */
    constructor ()
      ensures Valid() && contactInfoData.None? && currentContactInfoId == 1
      ensures forall t :: t in MemTables ==> maps[t] == Empty && counters[t] == 1
    {
      maps := map t | t in MemTables :: Empty;
      counters := map t | t in MemTables :: 1;
      contactInfoData := None;
      currentContactInfoId := 1;
    }

    /** `getUsers`, `getProjects`, `getCertifications`, …: stored order. */
    function All(t: Table): seq<Record>
      reads this
      requires Valid() && t in MemTables
    {
      Values(maps[t])
    }

    /**
     * The listing each getter returns: LinkedIn posts and blogs newest first,
     * everything else in insertion order.
     */
    function Listing(t: Table, parseDate: string -> Option<int>): (rs: seq<Record>)
      reads this
      requires Valid() && t in MemTables
      ensures multiset(rs) == multiset(All(t))
      ensures t == LinkedinPosts || t == Blogs ==>
        rs == NewestFirst(parseDate, All(t)) &&
        forall i, j :: 0 <= i < j < |rs| ==> PublishedTime(parseDate, rs[i]) >= PublishedTime(parseDate, rs[j])
      ensures t != LinkedinPosts && t != Blogs ==> rs == All(t)
    {
      NewestFirstOrdered(parseDate, All(t));
      if t == LinkedinPosts || t == Blogs then NewestFirst(parseDate, All(t)) else All(t)
    }

    /** The featured getters: the featured records, filtered and then sorted. */
    function FeaturedListing(t: Table, parseDate: string -> Option<int>): (rs: seq<Record>)
      reads this
      requires Valid() && t in MemTables
      ensures multiset(rs) == multiset(Featured(All(t)))
      ensures t == LinkedinPosts || t == Blogs ==>
        rs == NewestFirst(parseDate, Featured(All(t))) &&
        forall i, j :: 0 <= i < j < |rs| ==> PublishedTime(parseDate, rs[i]) >= PublishedTime(parseDate, rs[j])
      ensures t != LinkedinPosts && t != Blogs ==> rs == Featured(All(t))
    {
      NewestFirstOrdered(parseDate, Featured(All(t)));
      if t == LinkedinPosts || t == Blogs then NewestFirst(parseDate, Featured(All(t))) else Featured(All(t))
    }

    /** `getUser(id)`: `map.get(id)`. */
    function Lookup(t: Table, id: int): (r: Option<Record>)
      reads this
      requires Valid() && t in MemTables
      ensures r.Some? <==> id in maps[t].rows
      ensures r.Some? ==> r.value == maps[t].rows[id]
    {
      if id in maps[t].rows then Some(maps[t].rows[id]) else None
    }

    /** `getUserByUsername`, `getProjectByGithubId`: the first record whose field holds `v`. */
    function FindBy(t: Table, field: string, v: Value): (r: Option<Record>)
      reads this
      requires Valid() && t in MemTables
      ensures r.Some? ==>
        exists j :: 0 <= j < |All(t)| && All(t)[j] == r.value && FieldIs(field, v, r.value) &&
          forall k :: 0 <= k < j ==> !FieldIs(field, v, All(t)[k])
      ensures r.None? ==> forall x :: x in All(t) ==> !FieldIs(field, v, x)
    {
      Find(All(t), (x: Record) => FieldIs(field, v, x))
    }

    /** The `create*` methods: the next id from the table's counter, defaults filled in. */
    method Create(t: Table, insert: Record, now: int) returns (r: Record)
      requires Valid() && t in MemTables
      modifies this
      ensures Valid()
      ensures r == NewRecord(t, insert, StoreDefaults(t), old(counters[t]), now)
      ensures maps == old(maps)[t := Add(old(maps[t]), old(counters[t]), r)]
      ensures counters == old(counters)[t := old(counters[t]) + 1]
      ensures contactInfoData == old(contactInfoData) && currentContactInfoId == old(currentContactInfoId)
    {
      var id := counters[t];
      r := NewRecord(t, insert, StoreDefaults(t), id, now);
      CreateKeepsTablesOk(maps, counters, t, r);
      maps := maps[t := Add(maps[t], id, r)];
      counters := counters[t := id + 1];
    }

    /** The `update*` methods: a missing id gives `undefined`, otherwise the merge. */
    method Update(t: Table, id: int, updates: Record) returns (r: Option<Record>)
      requires Valid() && t in MemTables
      modifies this
      ensures Valid()
      ensures r.None? <==> id !in old(maps[t].rows)
      ensures r.None? ==> maps == old(maps)
      ensures r.Some? ==> r.value == Spread(old(maps[t].rows[id]), updates) &&
                          maps == old(maps)[t := Replace(old(maps[t]), id, r.value)]
      ensures counters == old(counters)
      ensures contactInfoData == old(contactInfoData) && currentContactInfoId == old(currentContactInfoId)
    {
      if id !in maps[t].rows {
        return None;
      }
      var updated := Spread(maps[t].rows[id], updates);
      ReplaceValid(maps[t], counters[t], id, updated);
      TablesOkUpdate(maps, counters, t, Replace(maps[t], id, updated), counters[t]);
      maps := maps[t := Replace(maps[t], id, updated)];
      r := Some(updated);
    }

    /** The `delete*` methods: `map.delete(id)`, true exactly when the id was there. */
    method Delete(t: Table, id: int) returns (deleted: bool)
      requires Valid() && t in MemTables
      modifies this
      ensures Valid()
      ensures deleted == (id in old(maps[t].rows))
      ensures maps == old(maps)[t := Remove(old(maps[t]), id)]
      ensures id !in maps[t].rows
      ensures counters == old(counters)
      ensures contactInfoData == old(contactInfoData) && currentContactInfoId == old(currentContactInfoId)
    {
      deleted := id in maps[t].rows;
      RemoveFacts(maps[t], counters[t], id);
      TablesOkUpdate(maps, counters, t, Remove(maps[t], id), counters[t]);
      maps := maps[t := Remove(maps[t], id)];
    }

    /** `getContactInfo`. */
    function ContactInfoRecord(): Option<Record>
      reads this
    {
      contactInfoData
    }

    /** `createContactInfo`: replaces the singleton, with the next contact-info id. */
    method CreateContactInfo(insert: Record, now: int) returns (r: Record)
      requires Valid()
      modifies this
      ensures Valid()
      ensures r == NewRecord(ContactInfo, insert, StoreDefaults(ContactInfo), old(currentContactInfoId), now)
      ensures contactInfoData == Some(r) && currentContactInfoId == old(currentContactInfoId) + 1
      ensures maps == old(maps) && counters == old(counters)
    {
      var id := currentContactInfoId;
      currentContactInfoId := id + 1;
      r := NewRecord(ContactInfo, insert, StoreDefaults(ContactInfo), id, now);
      contactInfoData := Some(r);
    }

    /** `updateContactInfo`: only the stored singleton with that id is updated. */
    method UpdateContactInfo(id: int, updates: Record) returns (r: Option<Record>)
      requires Valid()
      modifies this
      ensures Valid()
      ensures r.Some? <==> old(contactInfoData).Some? && HasId(old(contactInfoData).value, id)
      ensures r.Some? ==> r.value == Spread(old(contactInfoData).value, updates) && contactInfoData == r
      ensures r.None? ==> contactInfoData == old(contactInfoData)
      ensures maps == old(maps) && counters == old(counters) && currentContactInfoId == old(currentContactInfoId)
    {
      if contactInfoData.None? || !HasId(contactInfoData.value, id) {
        return None;
      }
      var updated := Spread(contactInfoData.value, updates);
      contactInfoData := Some(updated);
      r := Some(updated);
    }
  }
}
