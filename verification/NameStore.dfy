/**
 The name server's two storages: `SqlStorage` over two tables (src/Pyro4/naming_storage.py) against a plain
 dictionary (`MemoryStorage` in src/Pyro4/naming.py), and the name server's operations on them.
 */
module NameStore {
  import opened Common

  /** A row of pyro_names, by its id, and a row of pyro_metadata. */
  datatype Row = Row(name: string, uri: string)

  datatype Tag = Tag(object_: nat, metadata: string)

  datatype Entry = Entry(uri: string, metadata: set<string>)

  /** What a storage stands for. */
  type Names = map<string, Entry>

  // ------------------------------------------------- what the tables mean

  ghost predicate UniqueNames(names: map<nat, Row>) {
    forall i, j :: i in names && j in names && names[i].name == names[j].name ==> i == j
  }

  /** The foreign key: every metadata row belongs to a name. */
  ghost predicate ForeignKey(names: map<nat, Row>, tags: seq<Tag>) {
    forall t :: t in tags ==> t.object_ in names
  }

  function TagsOf(tags: seq<Tag>, id: nat): set<string> {
    set t | t in tags && t.object_ == id :: t.metadata
  }

  ghost function ViewOf(names: map<nat, Row>, tags: seq<Tag>): Names
    requires UniqueNames(names)
  {
    map id | id in names :: names[id].name := EntryOf(names, tags, id)
  }

  ghost predicate HasName(names: map<nat, Row>, id: nat, n: string) {
    id in names && names[id].name == n
  }

  function Rows(names: map<nat, Row>, ids: set<nat>): map<nat, Row> {
    map id | id in names && id in ids :: names[id]
  }

  function EntryOf(names: map<nat, Row>, tags: seq<Tag>, id: nat): Entry
    requires id in names
  {
    Entry(names[id].uri, TagsOf(tags, id))
  }

  /** `m` has an entry for each row, and no other. */
  ghost predicate Represents(names: map<nat, Row>, tags: seq<Tag>, m: Names) {
    && (forall id, n :: HasName(names, id, n) ==> n in m && m[n] == EntryOf(names, tags, id))
    && (forall n :: n in m ==> exists id :: HasName(names, id, n))
  }

  lemma ViewIs(names: map<nat, Row>, tags: seq<Tag>, m: Names)
    requires UniqueNames(names)
    ensures m == ViewOf(names, tags) <==> Represents(names, tags, m)
  {
    var v := ViewOf(names, tags);
    forall n | n in v ensures exists id :: HasName(names, id, n) {
      var id :| id in names && names[id].name == n;
      assert HasName(names, id, n);
    }
    assert Represents(names, tags, v);
    if Represents(names, tags, m) {
      forall n | n in m ensures n in v && m[n] == v[n] {
        var id :| HasName(names, id, n);
      }
      forall n | n in v ensures n in m {
        var id :| HasName(names, id, n);
      }
    }
  }

  function Without(tags: seq<Tag>, id: nat): seq<Tag> {
    if tags == [] then []
    else (if tags[0].object_ == id then [] else [tags[0]]) + Without(tags[1..], id)
  }

  lemma {:induction false} WithoutRemoves(tags: seq<Tag>, id: nat)
    ensures forall t :: t in Without(tags, id) <==> t in tags && t.object_ != id
  {
    if tags != [] {
      WithoutRemoves(tags[1..], id);
      assert forall t :: t in tags <==> t == tags[0] || t in tags[1..];
    }
  }

  lemma {:induction false} WithoutDistinct(tags: seq<Tag>, id: nat)
    requires Distinct(tags)
    ensures Distinct(Without(tags, id))
  {
    if tags != [] {
      WithoutDistinct(tags[1..], id);
      WithoutRemoves(tags[1..], id);
      assert tags[0] !in tags[1..];
    }
  }

  // ---------------------------------------------------------- the SQL searches

  function SetOf(q: seq<string>): set<string> {
    set m | m in q
  }

  /** SELECT object FROM pyro_metadata WHERE metadata IN q */
  function IdsWithAny(tags: seq<Tag>, q: seq<string>): set<nat> {
    set t | t in tags && t.metadata in q :: t.object_
  }

  /** COUNT(metadata) of the group of `id`, over the rows WHERE metadata IN q. */
  function GroupCount(tags: seq<Tag>, q: seq<string>, id: nat): nat {
    if tags == [] then 0
    else GroupCount(tags[1..], q, id) + if tags[0].object_ == id && tags[0].metadata in q then 1 else 0
  }

  /** ... GROUP BY object HAVING COUNT(metadata) = the length of q. Only objects with a row form a group. */
  function IdsWithAll(tags: seq<Tag>, q: seq<string>): set<nat> {
    set id | id in IdsWithAny(tags, q) && GroupCount(tags, q, id) == |q|
  }

  /** The name server's own filters, for storages without a search of their own. */
  function HavingAll(m: Names, q: seq<string>): Names {
    map n | n in m && SetOf(q) <= m[n].metadata :: m[n]
  }

  function HavingAny(m: Names, q: seq<string>): Names {
    map n | n in m && SetOf(q) * m[n].metadata != {} :: m[n]
  }

  // ---------------------------------------------------------------- the code

  class SqlStorage {
    var names: map<nat, Row>
    var tags: seq<Tag>

    ghost predicate Valid()
      reads this
    {
      UniqueNames(names) && ForeignKey(names, tags) && Distinct(tags)
    }

    ghost function View(): Names
      reads this
      requires Valid()
    {
      ViewOf(names, tags)
    }

    constructor ()
      ensures Valid() && View() == map[]
    {
      names, tags := map[], [];
    }

    // The statements. What each requires is the constraint the database would otherwise report as violated.

    method SelectId(name: string) returns (id: Option<nat>)
      ensures id.Some? ==> id.value in names && names[id.value].name == name
      ensures id.None? ==> forall i :: i in names ==> names[i].name != name
    {
      if i :| i in names && names[i].name == name {
        return Some(i);
      }
      return None;
    }

    method DeleteTags(id: nat)
      requires Valid()
      modifies this`tags
      ensures Valid() && tags == Without(old(tags), id)
      ensures forall t :: t in tags <==> t in old(tags) && t.object_ != id
    {
      WithoutRemoves(tags, id);
      WithoutDistinct(tags, id);
      tags := Without(tags, id);
    }

    method DeleteName(id: nat)
      requires Valid() && forall t :: t in tags ==> t.object_ != id
      modifies this`names
      ensures Valid() && names == old(names) - {id}
    {
      names := names - {id};
    }

    /** The database picks any unused id, so it may reuse one. */
    method InsertName(name: string, uri: string) returns (id: nat)
      requires Valid() && forall i :: i in names ==> names[i].name != name
      modifies this`names
      ensures Valid() && id !in old(names) && names == old(names)[id := Row(name, uri)]
    {
      ghost var bound := BoundedIds(names.Keys);
      assert bound !in names;
      id :| id !in names;
      names := names[id := Row(name, uri)];
    }

    method InsertTag(id: nat, metadata: string)
      requires Valid() && id in names && Tag(id, metadata) !in tags
      modifies this`tags
      ensures Valid() && tags == old(tags) + [Tag(id, metadata)]
    {
      tags := tags + [Tag(id, metadata)];
    }

    // The operations.

    method GetItem(item: string) returns (r: Option<Entry>)
      requires Valid()
      ensures r == if item in View() then Some(View()[item]) else None
    {
      var dbid := SelectId(item);
      if dbid.Some? {
        r := Some(EntryOf(names, tags, dbid.value));
      } else {
        r := None;
      }
    }

    method DelItem(key: string)
      requires Valid()
      modifies this
      ensures Valid() && View() == old(View()) - {key}
      ensures forall i :: i in names ==> names[i].name != key
    {
      hide TagsOf;
      ViewIs(names, tags, View());
      var dbid := SelectId(key);
      if dbid.Some? {
        ghost var before := tags;
        DeleteTags(dbid.value);
        DeleteName(dbid.value);
        DeletedView(old(names), before, dbid.value);
      }
    }

    method SetItem(key: string, uri: string, metadata: set<string>)
      requires Valid()
      modifies this
      ensures Valid() && View() == old(View())[key := Entry(uri, metadata)]
    {
      hide ViewOf;
      DelItem(key);
      ghost var names0, tags0 := names, tags;
      var id := InsertName(key, uri);
      AddMetadata(id, metadata);
      InsertedView(names0, tags0, id, Row(key, uri), tags, metadata);
    }

    method AddMetadata(id: nat, metadata: set<string>)
      requires Valid() && id in names && forall t :: t in tags ==> t.object_ != id
      modifies this`tags
      ensures Valid()
      ensures forall t :: t in tags <==> t in old(tags) || (t.object_ == id && t.metadata in metadata)
    {
      var todo := metadata;
      while todo != {}
        invariant Valid() && todo <= metadata
        invariant forall t :: t in tags <==> t in old(tags) || (t.object_ == id && t.metadata in metadata - todo)
        decreases |todo|
      {
        var m :| m in todo;
        InsertTag(id, m);
        todo := todo - {m};
      }
    }

    method RemoveItems(items: seq<string>)
      requires Valid()
      modifies this
      ensures Valid() && View() == old(View()) - SetOf(items)
    {
      hide ViewOf;
      assert View() == old(View()) - SetOf(items[..0]);
      for i := 0 to |items|
        invariant Valid() && View() == old(View()) - SetOf(items[..i])
      {
        DelItem(items[i]);
        assert SetOf(items[..i + 1]) == SetOf(items[..i]) + {items[i]};
      }
      assert items[..|items|] == items;
    }

    /** The loop that turns selected rows into a dictionary. */
    method Collect(ids: set<nat>) returns (r: Names)
      requires Valid() && ids <= names.Keys
      ensures r == ViewOf(Rows(names, ids), tags)
    {
      hide ViewOf;
      hide Represents;
      hide EntryOf;
      r := map[];
      var todo := ids;
      ghost var done: map<nat, Row> := map[];
      EmptyTable(tags);
      while todo != {}
        invariant todo <= ids && done.Keys == ids - todo && forall id :: id in done ==> done[id] == names[id]
        invariant Represents(done, tags, r)
        decreases |todo|
      {
        var next :| next in todo;
        CollectedRow(names, done, tags, r, next);
        r := r[names[next].name := EntryOf(names, tags, next)];
        done := done[next := names[next]];
        todo := todo - {next};
      }
      assert done == Rows(names, ids);
      ViewIs(done, tags, r);
    }

    method Everything() returns (r: Names)
      requires Valid()
      ensures r == View()
    {
      r := Collect(names.Keys);
      assert Rows(names, names.Keys) == names;
    }

    /** `optimized_metadata_search`: a query for any takes precedence. */
    method MetadataSearch(metadataAll: seq<string>, metadataAny: seq<string>) returns (r: Names)
      requires Valid()
      ensures metadataAny != [] ==> r == HavingAny(View(), metadataAny)
      ensures metadataAny == [] ==> r == if metadataAll != [] && Distinct(metadataAll) then HavingAll(View(), metadataAll) else map[]
    {
      if metadataAny != [] {
        r := Collect(IdsWithAny(tags, metadataAny));
        AnySearch(names, tags, metadataAny);
      } else {
        r := Collect(IdsWithAll(tags, metadataAll));
        AllSearchFinds(names, tags, metadataAll);
      }
    }
  }

  class MemoryStorage {
    var entries: Names

    constructor ()
      ensures entries == map[]
    {
      entries := map[];
    }

    method SetItem(key: string, uri: string, metadata: set<string>)
      modifies this
      ensures entries == old(entries)[key := Entry(uri, metadata)]
    {
      entries := entries[key := Entry(uri, metadata)];
    }

    /** Unlike its SQL counterpart, raises a KeyError for an absent name. */
    method DelItem(key: string) returns (found: bool)
      modifies this
      ensures found == (key in old(entries)) && entries == old(entries) - {key}
    {
      found := key in entries;
      entries := entries - {key};
    }

    method RemoveItems(items: seq<string>)
      modifies this
      ensures entries == old(entries) - SetOf(items)
    {
      assert entries == old(entries) - SetOf(items[..0]);
      for i := 0 to |items|
        invariant entries == old(entries) - SetOf(items[..i])
      {
        var _ := DelItem(items[i]);
        assert SetOf(items[..i + 1]) == SetOf(items[..i]) + {items[i]};
      }
      assert items[..|items|] == items;
    }
  }

  lemma EmptyTable(tags: seq<Tag>)
    ensures Represents(map[], tags, map[])
  {
  }

  lemma CollectedRow(names: map<nat, Row>, done: map<nat, Row>, tags: seq<Tag>, r: Names, next: nat)
    requires UniqueNames(names) && next in names && next !in done
    requires forall id :: id in done ==> id in names && done[id] == names[id]
    requires Represents(done, tags, r)
    ensures Represents(done[next := names[next]], tags, r[names[next].name := EntryOf(names, tags, next)])
  {
    var more, r' := done[next := names[next]], r[names[next].name := EntryOf(names, tags, next)];
    forall n | n in r' ensures exists id :: HasName(more, id, n) {
      if n == names[next].name {
        assert HasName(more, next, n);
      } else {
        var id :| HasName(done, id, n);
        assert HasName(more, id, n);
      }
    }
    forall id, n | HasName(more, id, n) ensures n in r' && r'[n] == EntryOf(more, tags, id) {
      assert id != next ==> HasName(done, id, n);
    }
  }

  lemma BoundedIds(ids: set<nat>) returns (bound: nat)
    ensures forall i :: i in ids ==> i < bound
    decreases ids
  {
    if ids == {} {
      bound := 0;
    } else {
      var i :| i in ids;
      var b := BoundedIds(ids - {i});
      bound := if b <= i then i + 1 else b;
      forall j | j in ids ensures j < bound {
        assert j == i || j in ids - {i};
      }
    }
  }

  lemma OtherTags(tags: seq<Tag>, id: nat, i: nat)
    requires i != id
    ensures TagsOf(Without(tags, id), i) == TagsOf(tags, i)
  {
    WithoutRemoves(tags, id);
  }

  lemma DeletedView(names: map<nat, Row>, tags: seq<Tag>, id: nat)
    requires UniqueNames(names) && id in names
    ensures ViewOf(names - {id}, Without(tags, id)) == ViewOf(names, tags) - {names[id].name}
  {
    hide ViewOf;
    hide TagsOf;
    var left, tags', m := names - {id}, Without(tags, id), ViewOf(names, tags);
    ViewIs(names, tags, m);
    forall i, n | HasName(left, i, n) ensures n in m - {names[id].name} && m[n] == EntryOf(left, tags', i) {
      assert HasName(names, i, n);
      OtherTags(tags, id, i);
    }
    forall n | n in m - {names[id].name} ensures exists i :: HasName(left, i, n) {
      var i :| HasName(names, i, n);
      assert HasName(left, i, n);
    }
    ViewIs(left, tags', m - {names[id].name});
  }

  /** A row id that was used before brings none of its old metadata along. */
  lemma InsertedView(names: map<nat, Row>, tags: seq<Tag>, id: nat, row: Row, tags': seq<Tag>, metadata: set<string>)
    requires UniqueNames(names) && ForeignKey(names, tags) && id !in names && UniqueNames(names[id := row])
    requires forall t :: t in tags' <==> t in tags || (t.object_ == id && t.metadata in metadata)
    ensures ViewOf(names[id := row], tags') == ViewOf(names, tags)[row.name := Entry(row.uri, metadata)]
  {
    var more, m := names[id := row], ViewOf(names, tags);
    var m' := m[row.name := Entry(row.uri, metadata)];
    ViewIs(names, tags, m);
    forall x | x in metadata ensures x in TagsOf(tags', id) {
      assert Tag(id, x) in tags';
    }
    assert TagsOf(tags', id) == metadata;
    forall i, n | HasName(more, i, n) ensures n in m' && m'[n] == EntryOf(more, tags', i) {
      if i != id {
        assert HasName(names, i, n) && HasName(more, id, row.name);
        assert TagsOf(tags', i) == TagsOf(tags, i);
      }
    }
    forall n | n in m' ensures exists i :: HasName(more, i, n) {
      if n == row.name {
        assert HasName(more, id, n);
      } else {
        var i :| HasName(names, i, n);
        assert HasName(more, i, n);
      }
    }
    ViewIs(more, tags', m');
  }

  // -------------------------------------------------------- the name server

  const NAMESERVER_NAME := "Pyro.NameServer"

  datatype NamingError = AlreadyRegistered | UnknownName | TooManyFilters

  /** What `list` is given: a predicate stands for a regular expression. */
  datatype Filters = Filters(matches: Option<string -> bool>, metadataAll: Option<seq<string>>, metadataAny: Option<seq<string>>)

  datatype Op =
    | Register(name: string, uri: string, safe: bool, metadata: set<string>)
    | SetMetadata(name: string, metadata: set<string>)
    | Remove(name: string)
    | RemoveMatching(matches: string -> bool)
    | Lookup(name: string)
    | Enumerate(filters: Filters)

  datatype Reply = Done | Failed(error: NamingError) | Count(n: nat) | Found(entry: Entry) | Listing(names: Names)

  function Matching(m: Names, matches: string -> bool): Names {
    map n | n in m && matches(n) :: m[n]
  }

  /** An empty query is no query: everything is listed. For a query for all that repeats a word the tables find
      nothing. */
  ghost function Listed(m: Names, f: Filters, sql: bool): Result<Names, NamingError> {
    if (f.matches.Some? && (f.metadataAll.Some? || f.metadataAny.Some?)) || (f.metadataAll.Some? && f.metadataAny.Some?) then
      Err(TooManyFilters)
    else if f.matches.Some? then Ok(Matching(m, f.matches.value))
    else if f.metadataAll.Some? && f.metadataAll.value != [] then
      Ok(if sql && !Distinct(f.metadataAll.value) then map[] else HavingAll(m, f.metadataAll.value))
    else if f.metadataAny.Some? && f.metadataAny.value != [] then Ok(HavingAny(m, f.metadataAny.value))
    else Ok(m)
  }

  /** The operations on a plain dictionary; `sql`: but with the answers of the tables. */
  ghost function Perform(m: Names, op: Op, sql: bool): (Names, Reply) {
    match op
    case Register(name, uri, safe, metadata) =>
      if safe && name in m then (m, Failed(AlreadyRegistered)) else (m[name := Entry(uri, metadata)], Done)
    case SetMetadata(name, metadata) =>
      if name in m then (m[name := Entry(m[name].uri, metadata)], Done) else (m, Failed(UnknownName))
    case Remove(name) =>
      if name != "" && name in m && name != NAMESERVER_NAME then (m - {name}, Count(1)) else (m, Count(0))
    case RemoveMatching(matches) =>
      var gone := Matching(m, matches).Keys - {NAMESERVER_NAME};
      (m - gone, Count(|gone|))
    case Lookup(name) => (m, if name in m then Found(m[name]) else Failed(UnknownName))
    case Enumerate(f) => (m, match Listed(m, f, sql) case Ok(names) => Listing(names) case Err(e) => Failed(e))
  }

  /** The name satisfies the one filter that is given. Over the tables a query for all that repeats a word finds
      nothing. */
  ghost predicate Selected(f: Filters, n: string, e: Entry, sql: bool) {
    && (f.matches.Some? ==> f.matches.value(n))
    && (f.metadataAll.Some? && f.metadataAll.value != [] ==>
          (forall w :: w in f.metadataAll.value ==> w in e.metadata) && (sql ==> Distinct(f.metadataAll.value)))
    && (f.metadataAny.Some? && f.metadataAny.value != [] ==> exists w :: w in f.metadataAny.value && w in e.metadata)
  }

  /** What each operation promises: `m` becomes `m'`, and the answer is `r`. */
  ghost predicate Lawful(m: Names, op: Op, m': Names, r: Reply, sql: bool) {
    match op
    case Register(name, uri, safe, metadata) =>
      if safe && name in m then r == Failed(AlreadyRegistered) && m' == m
      else r == Done && name in m' && m'[name].uri == uri && m'[name].metadata == metadata && m' - {name} == m - {name}
    case SetMetadata(name, metadata) =>
      if name !in m then r == Failed(UnknownName) && m' == m
      else r == Done && name in m' && m'[name].uri == m[name].uri && m'[name].metadata == metadata && m' - {name} == m - {name}
    case Remove(name) =>
      if name in m && name != "" && name != NAMESERVER_NAME then r == Count(1) && name !in m' && m' == m - {name}
      else r == Count(0) && m' == m
    case RemoveMatching(matches) =>
      && (forall n :: n in m' <==> n in m && (!matches(n) || n == NAMESERVER_NAME))
      && (forall n :: n in m' ==> m'[n] == m[n])
      && r == Count(|m.Keys - m'.Keys|)
    case Lookup(name) => m' == m && r == if name in m then Found(m[name]) else Failed(UnknownName)
    case Enumerate(f) =>
      && m' == m
      && if (f.matches.Some? && f.metadataAll.Some?) || (f.matches.Some? && f.metadataAny.Some?)
            || (f.metadataAll.Some? && f.metadataAny.Some?)
         then r == Failed(TooManyFilters)
         else
           && r.Listing?
           && (forall n :: n in r.names <==> n in m && Selected(f, n, m[n], sql))
           && (forall n :: n in r.names ==> r.names[n] == m[n])
  }

  lemma PerformIsLawful(m: Names, op: Op, sql: bool)
    ensures var (m', r) := Perform(m, op, sql); Lawful(m, op, m', r, sql)
  {
    match op
    case Enumerate(f) => EnumerateIsLawful(m, f, sql);
    case RemoveMatching(matches) => RemovalIsLawful(m, matches, sql);
    case _ => hide Selected, Listed, Matching;
  }

  lemma RemovalIsLawful(m: Names, matches: string -> bool, sql: bool)
    ensures var (m', r) := Perform(m, RemoveMatching(matches), sql); Lawful(m, RemoveMatching(matches), m', r, sql)
  {
    var gone := Matching(m, matches).Keys - {NAMESERVER_NAME};
    RemovedNames(m, matches, gone);
    assert Perform(m, RemoveMatching(matches), sql) == (m - gone, Count(|gone|));
    hide Selected, Listed, Matching, Perform;
  }

  lemma RemovedNames(m: Names, matches: string -> bool, gone: set<string>)
    requires gone == Matching(m, matches).Keys - {NAMESERVER_NAME}
    ensures forall n :: n in m - gone <==> n in m && (!matches(n) || n == NAMESERVER_NAME)
    ensures forall n :: n in m - gone ==> (m - gone)[n] == m[n]
    ensures m.Keys - (m - gone).Keys == gone
  {
    forall n | n in m ensures n in gone <==> matches(n) && n != NAMESERVER_NAME {}
  }

  lemma EnumerateIsLawful(m: Names, f: Filters, sql: bool)
    ensures var (m', r) := Perform(m, Enumerate(f), sql); Lawful(m, Enumerate(f), m', r, sql)
  {
    assert Listed(m, f, sql).Err? ==> Listed(m, f, sql) == Err(TooManyFilters);
    assert Listed(m, f, sql).Err? <==>
             (f.matches.Some? && f.metadataAll.Some?) || (f.matches.Some? && f.metadataAny.Some?)
             || (f.metadataAll.Some? && f.metadataAny.Some?);
    if Listed(m, f, sql).Ok? { ListedIsSelected(m, f, sql); }
    hide Selected, Listed;
  }

  lemma ListedIsSelected(m: Names, f: Filters, sql: bool)
    requires Listed(m, f, sql).Ok?
    ensures forall n :: n in Listed(m, f, sql).value <==> n in m && Selected(f, n, m[n], sql)
    ensures forall n :: n in Listed(m, f, sql).value ==> Listed(m, f, sql).value[n] == m[n]
  {
    if f.metadataAny.Some? {
      var q := f.metadataAny.value;
      forall n | n in m ensures SetOf(q) * m[n].metadata != {} <==> exists w :: w in q && w in m[n].metadata {
        if w :| w in q && w in m[n].metadata { assert w in SetOf(q) * m[n].metadata; }
        if w :| w in SetOf(q) * m[n].metadata { assert w in q && w in m[n].metadata; }
      }
    }
  }

  /** Where what is stored under a name comes from: it may be as it was at first, but for its metadata if those were
      set in an operation since; it may be removed or never have been there; or it was registered in some operation,
      and its metadata were last set in another, or in the same. */
  datatype Origin = Initial(since: Option<nat>) | Gone | From(registered: nat, changed: nat)

  /** The last register of the name that was done and the last change of its metadata since, unless it was removed
      after that. */
  ghost function Latest(ops: seq<Op>, replies: seq<Reply>, n: string): Origin
    requires |ops| == |replies|
  {
    if ops == [] then Initial(None)
    else
      var k := |ops| - 1;
      var before, op, r := Latest(ops[..k], replies[..k], n), ops[k], replies[k];
      if op.Register? && op.name == n && r == Done then From(k, k)
      else if op.SetMetadata? && op.name == n && r == Done then
        (match before case From(i, _) => From(i, k) case Initial(_) => Initial(Some(k)) case Gone => Gone)
      else if op.Remove? && op.name == n && r == Count(1) then Gone
      else if op.RemoveMatching? && op.matches(n) && n != NAMESERVER_NAME then Gone
      else before
  }

  ghost predicate StoredAs(m: Names, ops: seq<Op>, o: Origin, n: string, v: Names) {
    match o
    case Gone => n !in v
    case Initial(None) => (n in v <==> n in m) && (n in m ==> v[n] == m[n])
    case Initial(Some(k)) =>
      n in m && n in v && k < |ops| && ops[k].SetMetadata? && v[n] == Entry(m[n].uri, ops[k].metadata)
    case From(i, k) =>
      && i <= k < |ops| && ops[i].Register? && (k == i || ops[k].SetMetadata?)
      && n in v && v[n] == Entry(ops[i].uri, ops[k].metadata)
  }

  lemma StoredStep(m: Names, ops: seq<Op>, replies: seq<Reply>, v: Names, op: Op, v': Names, r: Reply, sql: bool, n: string)
    requires |ops| == |replies| && StoredAs(m, ops, Latest(ops, replies, n), n, v) && Lawful(v, op, v', r, sql)
    ensures StoredAs(m, ops + [op], Latest(ops + [op], replies + [r], n), n, v')
  {
    var k := |ops|;
    assert (ops + [op])[..k] == ops && (replies + [r])[..k] == replies;
    assert forall i :: 0 <= i < k ==> (ops + [op])[i] == ops[i];
    match op
    case Register(name, _, _, _) => if name != n { SameElsewhere(v, v', name, n); }
    case SetMetadata(name, _) => if name != n { SameElsewhere(v, v', name, n); }
    case _ =>
  }

  lemma SameElsewhere(v: Names, v': Names, name: string, n: string)
    requires (v' == v || v' - {name} == v - {name}) && n != name
    ensures (n in v' <==> n in v) && (n in v ==> v'[n] == v[n])
  {
    assert n in v <==> n in v - {name};
    assert n in v' <==> n in v' - {name};
    assert n in v ==> v[n] == (v - {name})[n];
    assert n in v' ==> v'[n] == (v' - {name})[n];
  }

  lemma {:induction false} StoredAfter(m: Names, ops: seq<Op>, sql: bool, n: string)
    ensures |Replies(m, ops, sql)| == |ops|
    ensures StoredAs(m, ops, Latest(ops, Replies(m, ops, sql), n), n, After(m, ops, sql))
    decreases |ops|
  {
    if ops != [] {
      var k := |ops| - 1;
      var front, op := ops[..k], ops[k];
      assert ops == front + [op];
      StoredAfter(m, front, sql, n);
      OneMore(m, front, op, sql);
      var v := After(m, front, sql);
      PerformIsLawful(v, op, sql);
      hide Perform, Lawful, StoredAs, Latest;
      StoredStep(m, front, Replies(m, front, sql), v, op, Perform(v, op, sql).0, Perform(v, op, sql).1, sql, n);
    }
  }

  /** Main result: a lookup at any time answers the uri of the last register of the name and the metadata of its last
      register or change, whichever storage it is, and fails after a removal. */
  lemma LookupAnswers(m: Names, ops: seq<Op>, n: string, sql: bool)
    ensures |Replies(m, ops, sql)| == |ops| && |Replies(m, ops + [Lookup(n)], sql)| == |ops| + 1
    ensures var o, r := Latest(ops, Replies(m, ops, sql), n), Replies(m, ops + [Lookup(n)], sql)[|ops|];
            match o
            case Gone => r == Failed(UnknownName)
            case Initial(None) => r == if n in m then Found(m[n]) else Failed(UnknownName)
            case Initial(Some(k)) =>
              n in m && k < |ops| && ops[k].SetMetadata? && r == Found(Entry(m[n].uri, ops[k].metadata))
            case From(i, k) =>
              && i <= k < |ops| && ops[i].Register? && (k == i || ops[k].SetMetadata?)
              && r == Found(Entry(ops[i].uri, ops[k].metadata))
  {
    StoredAfter(m, ops, sql, n);
    OneMore(m, ops, Lookup(n), sql);
    hide Latest;
  }

  /** The name server's own registration cannot be removed through it. */
  lemma {:induction false} NameServerStays(m: Names, ops: seq<Op>, sql: bool)
    requires NAMESERVER_NAME in m
    ensures NAMESERVER_NAME in After(m, ops, sql)
    decreases ops
  {
    if ops != [] { NameServerStays(Perform(m, ops[0], sql).0, ops[1..], sql); }
  }

  /** A query that repeats a word, although some entry has all of its words. */
  ghost predicate Misleading(m: Names, op: Op) {
    op.Enumerate? && var f := op.filters;
    f.matches == None && f.metadataAny == None && f.metadataAll.Some? && f.metadataAll.value != []
    && !Distinct(f.metadataAll.value) && HavingAll(m, f.metadataAll.value) != map[]
  }

  ghost predicate NeverMisleading(m: Names, ops: seq<Op>)
    decreases ops
  {
    ops == [] || (!Misleading(m, ops[0]) && NeverMisleading(Perform(m, ops[0], false).0, ops[1..]))
  }

  /** Main result: the tables keep what the dictionary keeps through every sequence of operations, and answer the
      same throughout if and only if no query that repeats a word meets an entry with all of its words. */
  lemma {:induction false} SameAnswers(m: Names, ops: seq<Op>)
    ensures After(m, ops, true) == After(m, ops, false)
    ensures Replies(m, ops, true) == Replies(m, ops, false) <==> NeverMisleading(m, ops)
    decreases ops
  {
    if ops != [] {
      SameAnswer(m, ops[0]);
      var a, b, next := Perform(m, ops[0], true).1, Perform(m, ops[0], false).1, Perform(m, ops[0], false).0;
      SameAnswers(next, ops[1..]);
      hide Perform, Misleading;
      var s, t := Replies(next, ops[1..], true), Replies(next, ops[1..], false);
      assert ([a] + s)[0] == a && ([a] + s)[1..] == s && ([b] + t)[0] == b && ([b] + t)[1..] == t;
    }
  }

  lemma SameAnswer(m: Names, op: Op)
    ensures Perform(m, op, true).0 == Perform(m, op, false).0
    ensures Perform(m, op, true).1 == Perform(m, op, false).1 <==> !Misleading(m, op)
  {}

  ghost function Replies(m: Names, ops: seq<Op>, sql: bool): seq<Reply>
    decreases ops
  {
    if ops == [] then [] else [Perform(m, ops[0], sql).1] + Replies(Perform(m, ops[0], sql).0, ops[1..], sql)
  }

  ghost function After(m: Names, ops: seq<Op>, sql: bool): Names
    decreases ops
  {
    if ops == [] then m else After(Perform(m, ops[0], sql).0, ops[1..], sql)
  }

  lemma {:induction false} OneMore(m: Names, ops: seq<Op>, op: Op, sql: bool)
    ensures After(m, ops + [op], sql) == Perform(After(m, ops, sql), op, sql).0
    ensures Replies(m, ops + [op], sql) == Replies(m, ops, sql) + [Perform(After(m, ops, sql), op, sql).1]
    decreases ops
  {
    if ops == [] {
      assert ops + [op] == [op];
      assert Replies(Perform(m, op, sql).0, [], sql) == [];
    } else {
      assert (ops + [op])[1..] == ops[1..] + [op];
      OneMore(Perform(m, ops[0], sql).0, ops[1..], op, sql);
    }
  }

  /** Either storage. */
  datatype Storage = Sql(db: SqlStorage) | Memory(dict: MemoryStorage) {
    ghost function Objects(): set<object> {
      if Sql? then {db} else {dict}
    }

    ghost predicate Valid()
      reads Objects()
    {
      Sql? ==> db.Valid()
    }

    ghost function View(): Names
      reads Objects()
      requires Valid()
    {
      if Sql? then db.View() else dict.entries
    }

    method GetItem(name: string) returns (r: Option<Entry>)
      requires Valid()
      ensures r == if name in View() then Some(View()[name]) else None
    {
      match this {
        case Sql(db) => r := db.GetItem(name);
        case Memory(dict) => r := if name in dict.entries then Some(dict.entries[name]) else None;
      }
    }

    method SetItem(key: string, uri: string, metadata: set<string>)
      requires Valid()
      modifies Objects()
      ensures Valid() && View() == old(View())[key := Entry(uri, metadata)]
    {
      match this {
        case Sql(db) => db.SetItem(key, uri, metadata);
        case Memory(dict) => dict.SetItem(key, uri, metadata);
      }
    }

    method DelItem(key: string)
      requires Valid() && key in View()
      modifies Objects()
      ensures Valid() && View() == old(View()) - {key}
    {
      match this {
        case Sql(db) => db.DelItem(key);
        case Memory(dict) => var _ := dict.DelItem(key);
      }
    }

    method RemoveItems(items: seq<string>)
      requires Valid()
      modifies Objects()
      ensures Valid() && View() == old(View()) - SetOf(items)
    {
      match this {
        case Sql(db) => db.RemoveItems(items);
        case Memory(dict) => dict.RemoveItems(items);
      }
    }

    method Everything() returns (r: Names)
      requires Valid()
      ensures r == View()
    {
      match this {
        case Sql(db) => r := db.Everything();
        case Memory(dict) => r := dict.entries;
      }
    }
  }

  class NameServer {
    const storage: Storage

    constructor (storage: Storage)
      ensures this.storage == storage
    {
      this.storage := storage;
    }

    /** The filter loops of `list`, for a storage without a metadata search. */
    method Filter(everything: Names, q: seq<string>, all: bool) returns (r: Names)
      ensures r == if all then HavingAll(everything, q) else HavingAny(everything, q)
    {
      r := map[];
      var query := SetOf(q);
      var todo := everything.Keys;
      while todo != {}
        invariant todo <= everything.Keys
        invariant r == map n | n in everything && n !in todo
                               && (if all then query <= everything[n].metadata else query * everything[n].metadata != {}) :: everything[n]
        decreases |todo|
      {
        var name :| name in todo;
        if if all then query <= everything[name].metadata else query * everything[name].metadata != {} {
          r := r[name := everything[name]];
        }
        todo := todo - {name};
      }
    }

    /** The loop over names that match. */
    method FilterNames(everything: Names, matches: string -> bool) returns (r: Names)
      ensures r == Matching(everything, matches)
    {
      r := map[];
      var todo := everything.Keys;
      while todo != {}
        invariant todo <= everything.Keys
        invariant r == map n | n in everything && n !in todo && matches(n) :: everything[n]
        decreases |todo|
      {
        var name :| name in todo;
        if matches(name) {
          r := r[name := everything[name]];
        }
        todo := todo - {name};
      }
    }

    method List(f: Filters) returns (r: Result<Names, NamingError>)
      requires storage.Valid()
      ensures r == Listed(storage.View(), f, storage.Sql?)
    {
      if (f.matches.Some? && (f.metadataAll.Some? || f.metadataAny.Some?)) || (f.metadataAll.Some? && f.metadataAny.Some?) {
        return Err(TooManyFilters);
      }
      var names;
      if f.matches.Some? {
        var everything := storage.Everything();
        names := FilterNames(everything, f.matches.value);
      } else if f.metadataAll.Some? && f.metadataAll.value != [] {
        if storage.Sql? {
          names := storage.db.MetadataSearch(f.metadataAll.value, []);
        } else {
          names := Filter(storage.dict.entries, f.metadataAll.value, true);
        }
      } else if f.metadataAny.Some? && f.metadataAny.value != [] {
        if storage.Sql? {
          names := storage.db.MetadataSearch([], f.metadataAny.value);
        } else {
          names := Filter(storage.dict.entries, f.metadataAny.value, false);
        }
      } else {
        names := storage.Everything();
      }
      r := Ok(names);
    }

    method Items(names: set<string>) returns (items: seq<string>)
      ensures SetOf(items) == names && |items| == |names|
    {
      items := [];
      var todo := names;
      while todo != {}
        invariant todo <= names && SetOf(items) == names - todo && |items| + |todo| == |names|
        decreases |todo|
      {
        var name :| name in todo;
        assert SetOf(items + [name]) == SetOf(items) + {name};
        items := items + [name];
        todo := todo - {name};
      }
    }

    /** The branches of `remove` for a prefix or a regular expression. */
    method RemoveAllMatching(matches: string -> bool) returns (n: nat)
      requires storage.Valid()
      modifies storage.Objects()
      ensures var gone := Matching(old(storage.View()), matches).Keys - {NAMESERVER_NAME};
              storage.Valid() && storage.View() == old(storage.View()) - gone && n == |gone|
    {
      var names := ListMatching(matches);
      hide Matching;
      n := RemoveNames(names.Keys - {NAMESERVER_NAME});
    }

    method RemoveNames(gone: set<string>) returns (n: nat)
      requires storage.Valid()
      modifies storage.Objects()
      ensures storage.Valid() && storage.View() == old(storage.View()) - gone && n == |gone|
    {
      var items := Items(gone);
      hide SetOf;
      storage.RemoveItems(items);
      n := |items|;
    }

    method ListMatching(matches: string -> bool) returns (names: Names)
      requires storage.Valid()
      ensures names == Matching(storage.View(), matches)
    {
      var listed := List(Filters(Some(matches), None, None));
      hide Matching;
      names := listed.value;
    }

    /** `register`, `set_metadata`, `remove`, `lookup` and `list`. */
    method Execute(op: Op) returns (r: Reply)
      requires storage.Valid()
      modifies storage.Objects()
      ensures storage.Valid() && (storage.View(), r) == Perform(old(storage.View()), op, storage.Sql?)
      ensures Lawful(old(storage.View()), op, storage.View(), r, storage.Sql?)
    {
      PerformIsLawful(storage.View(), op, storage.Sql?);
      hide Lawful;
      match op {
        case Register(name, uri, safe, metadata) =>
          var present := storage.GetItem(name);
          if safe && present.Some? { return Failed(AlreadyRegistered); }
          storage.SetItem(name, uri, metadata);
          r := Done;
        case SetMetadata(name, metadata) =>
          var present := storage.GetItem(name);
          if present.None? { return Failed(UnknownName); }
          storage.SetItem(name, present.value.uri, metadata);
          r := Done;
        case Remove(name) =>
          var present := storage.GetItem(name);
          if name != "" && present.Some? && name != NAMESERVER_NAME {
            storage.DelItem(name);
            return Count(1);
          }
          r := Count(0);
        case RemoveMatching(matches) =>
          var n := RemoveAllMatching(matches);
          r := Count(n);
        case Lookup(name) =>
          var present := storage.GetItem(name);
          r := if present.Some? then Found(present.value) else Failed(UnknownName);
        case Enumerate(f) =>
          var names := List(f);
          r := if names.Ok? then Listing(names.value) else Failed(names.error);
      }
    }

    /** Whatever the storage, a name server keeps and answers what `Perform` says through every sequence of
        operations. */
    method Run(ops: seq<Op>) returns (replies: seq<Reply>)
      requires storage.Valid()
      modifies storage.Objects()
      ensures storage.Valid() && storage.View() == After(old(storage.View()), ops, storage.Sql?)
      ensures replies == Replies(old(storage.View()), ops, storage.Sql?)
      // what is stored, and so what is looked up next, are the uri and the metadata set last
      ensures |replies| == |ops|
      ensures forall n :: StoredAs(old(storage.View()), ops, Latest(ops, replies, n), n, storage.View())
    {
      hide Perform, StoredAs, Latest, Lawful;
      replies := [];
      for i := 0 to |ops|
        invariant storage.Valid() && storage.View() == After(old(storage.View()), ops[..i], storage.Sql?)
        invariant replies == Replies(old(storage.View()), ops[..i], storage.Sql?)
      {
        OneMore(old(storage.View()), ops[..i], ops[i], storage.Sql?);
        assert ops[..i + 1] == ops[..i] + [ops[i]];
        var r := Execute(ops[i]);
        replies := replies + [r];
      }
      assert ops[..|ops|] == ops;
      StoredAfter(old(storage.View()), ops, storage.Sql?, "");
      forall n ensures StoredAs(old(storage.View()), ops, Latest(ops, replies, n), n, storage.View()) {
        StoredAfter(old(storage.View()), ops, storage.Sql?, n);
      }
    }
  }

  // ------------------------------------------- the SQL searches are the filters

  ghost function FoundBySql(names: map<nat, Row>, tags: seq<Tag>, q: seq<string>): Names
    requires UniqueNames(names)
  {
    ViewOf(Rows(names, IdsWithAll(tags, q)), tags)
  }

  /** Selecting rows by their entries is filtering the dictionary. */
  lemma SelectedRows(names: map<nat, Row>, tags: seq<Tag>, ids: set<nat>, m: Names)
    requires UniqueNames(names) && m.Keys <= ViewOf(names, tags).Keys
    requires forall n :: n in m ==> m[n] == ViewOf(names, tags)[n]
    requires forall id :: id in names ==> (id in ids <==> names[id].name in m)
    ensures ViewOf(Rows(names, ids), tags) == m
  {
    hide ViewOf;
    var rows := Rows(names, ids);
    ViewIs(names, tags, ViewOf(names, tags));
    forall id, n | HasName(rows, id, n) ensures n in m && m[n] == EntryOf(rows, tags, id) {
      assert HasName(names, id, n);
    }
    forall n | n in m ensures exists id :: HasName(rows, id, n) {
      var id :| HasName(names, id, n);
      assert HasName(rows, id, n);
    }
    ViewIs(rows, tags, m);
  }

  lemma ViewAt(names: map<nat, Row>, tags: seq<Tag>, id: nat)
    requires UniqueNames(names) && id in names
    ensures names[id].name in ViewOf(names, tags) && ViewOf(names, tags)[names[id].name].metadata == TagsOf(tags, id)
  {
    hide ViewOf;
    hide TagsOf;
    ViewIs(names, tags, ViewOf(names, tags));
    assert HasName(names, id, names[id].name);
  }

  lemma AnyTag(tags: seq<Tag>, q: seq<string>, id: nat)
    ensures id in IdsWithAny(tags, q) <==> SetOf(q) * TagsOf(tags, id) != {}
  {
    if id in IdsWithAny(tags, q) {
      var t :| t in tags && t.metadata in q && t.object_ == id;
      assert t.metadata in SetOf(q) * TagsOf(tags, id);
    }
    if x :| x in SetOf(q) * TagsOf(tags, id) {
      var t :| t in tags && t.object_ == id && t.metadata == x;
      assert t.object_ in IdsWithAny(tags, q);
    }
  }

  /** The IN search for any of the metadata is the name server's own filter, for every query. */
  lemma AnySearch(names: map<nat, Row>, tags: seq<Tag>, q: seq<string>)
    requires UniqueNames(names) && ForeignKey(names, tags)
    ensures ViewOf(Rows(names, IdsWithAny(tags, q)), tags) == HavingAny(ViewOf(names, tags), q)
  {
    hide ViewOf;
    hide TagsOf;
    forall id | id in names ensures id in IdsWithAny(tags, q) <==> names[id].name in HavingAny(ViewOf(names, tags), q) {
      ViewAt(names, tags, id);
      AnyTag(tags, q, id);
    }
    SelectedRows(names, tags, IdsWithAny(tags, q), HavingAny(ViewOf(names, tags), q));
  }

  lemma HasTag(tags: seq<Tag>, id: nat, x: string)
    ensures x in TagsOf(tags, id) <==> Tag(id, x) in tags
  {
    if t :| t in tags && t.object_ == id && t.metadata == x {
      assert t == Tag(id, x);
    }
  }

  /** Without duplicate rows the group counts the metadata that occurs in the query. */
  lemma {:induction false} GroupCountIsIntersection(tags: seq<Tag>, q: seq<string>, id: nat)
    requires Distinct(tags)
    ensures GroupCount(tags, q, id) == |TagsOf(tags, id) * SetOf(q)|
  {
    if tags == [] {
      assert TagsOf(tags, id) * SetOf(q) == {};
    } else {
      var t, rest := tags[0], tags[1..];
      GroupCountIsIntersection(rest, q, id);
      assert forall x :: x in tags <==> x == t || x in rest;
      if t.object_ == id && t.metadata in q {
        assert t !in rest;
        HasTag(rest, id, t.metadata);
        assert TagsOf(tags, id) * SetOf(q) == TagsOf(rest, id) * SetOf(q) + {t.metadata};
      } else {
        assert TagsOf(tags, id) * SetOf(q) == TagsOf(rest, id) * SetOf(q);
      }
    }
  }

  lemma {:induction false} QuerySize(q: seq<string>)
    ensures |SetOf(q)| <= |q|
    ensures |SetOf(q)| == |q| <==> Distinct(q)
  {
    if q != [] {
      QuerySize(q[1..]);
      if q[0] in q[1..] {
        assert SetOf(q) == SetOf(q[1..]);
        var k :| 0 <= k < |q[1..]| && q[1..][k] == q[0];
        assert q[k + 1] == q[0];
      } else {
        assert SetOf(q) == SetOf(q[1..]) + {q[0]};
        if Distinct(q[1..]) {
          forall i, j | 0 <= i < j < |q| ensures q[i] != q[j] {
            assert q[j] == q[1..][j - 1] && q[j] in q[1..];
            assert i > 0 ==> q[i] == q[1..][i - 1];
          }
        } else {
          var i, j :| 0 <= i < j < |q[1..]| && q[1..][i] == q[1..][j];
          assert q[i + 1] == q[j + 1];
        }
      }
    }
  }

  lemma SubsetByCount(a: set<string>, b: set<string>)
    ensures |a * b| <= |b| && (|a * b| == |b| <==> b <= a)
  {
    SubsetSize(a * b, b);
  }

  lemma {:induction false} SubsetSize(a: set<string>, b: set<string>)
    requires a <= b
    ensures |a| <= |b| && (|a| == |b| <==> a == b)
    decreases a
  {
    if a != {} {
      var x :| x in a;
      SubsetSize(a - {x}, b - {x});
    }
  }

  lemma AllTags(tags: seq<Tag>, q: seq<string>, id: nat)
    requires Distinct(tags)
    ensures id in IdsWithAll(tags, q) <==> Distinct(q) && q != [] && SetOf(q) <= TagsOf(tags, id)
  {
    AnyTag(tags, q, id);
    GroupCountIsIntersection(tags, q, id);
    QuerySize(q);
    SubsetByCount(TagsOf(tags, id), SetOf(q));
    assert q != [] ==> q[0] in SetOf(q);
  }

  /** The GROUP BY/COUNT search for all of the metadata is the filter for a query without duplicates. */
  lemma AllSearch(names: map<nat, Row>, tags: seq<Tag>, q: seq<string>)
    requires UniqueNames(names) && ForeignKey(names, tags) && Distinct(tags) && Distinct(q) && q != []
    ensures FoundBySql(names, tags, q) == HavingAll(ViewOf(names, tags), q)
  {
    hide ViewOf;
    hide TagsOf;
    hide IdsWithAll;
    forall id | id in names ensures id in IdsWithAll(tags, q) <==> names[id].name in HavingAll(ViewOf(names, tags), q) {
      ViewAt(names, tags, id);
      AllTags(tags, q, id);
    }
    SelectedRows(names, tags, IdsWithAll(tags, q), HavingAll(ViewOf(names, tags), q));
  }

  /** For any other query it finds nothing. */
  lemma AllSearchFinds(names: map<nat, Row>, tags: seq<Tag>, q: seq<string>)
    requires UniqueNames(names) && ForeignKey(names, tags) && Distinct(tags)
    ensures FoundBySql(names, tags, q) ==
            if q != [] && Distinct(q) then HavingAll(ViewOf(names, tags), q) else map[]
  {
    if q != [] && Distinct(q) {
      AllSearch(names, tags, q);
    } else {
      forall id | id in names ensures id !in IdsWithAll(tags, q) {
        AllTags(tags, q, id);
      }
      assert Rows(names, IdsWithAll(tags, q)) == map[];
    }
  }

  ghost predicate SearchAgrees(names: map<nat, Row>, tags: seq<Tag>, q: seq<string>) {
    UniqueNames(names) && ForeignKey(names, tags) && Distinct(tags) ==>
      FoundBySql(names, tags, q) == HavingAll(ViewOf(names, tags), q)
  }

  lemma {:induction false} TagsFor(q: set<string>, id: nat) returns (tags: seq<Tag>)
    ensures Distinct(tags) && TagsOf(tags, id) == q && forall t :: t in tags ==> t.object_ == id
    decreases q
  {
    if q == {} {
      tags := [];
    } else {
      var x :| x in q;
      tags := TagsFor(q - {x}, id);
      HasTag(tags, id, x);
      var more := tags + [Tag(id, x)];
      assert TagsOf(more, id) == TagsOf(tags, id) + {x};
      tags := more;
    }
  }

  /** And for no other query: whatever repeats a word, or asks for nothing, is answered differently by some
      database. */
  lemma AllSearchAgreesExactly(q: seq<string>)
    ensures (forall names, tags :: SearchAgrees(names, tags, q)) <==> Distinct(q) && q != []
  {
    if Distinct(q) && q != [] {
      forall names, tags ensures SearchAgrees(names, tags, q) {
        if UniqueNames(names) && ForeignKey(names, tags) && Distinct(tags) {
          AllSearch(names, tags, q);
        }
      }
    } else {
      var names: map<nat, Row> := map[0 := Row("n", "u")];
      var tags := TagsFor(SetOf(q), 0);
      ViewAt(names, tags, 0);
      assert "n" in HavingAll(ViewOf(names, tags), q);
      AllTags(tags, q, 0);
      assert Rows(names, IdsWithAll(tags, q)) == map[];
      assert FoundBySql(names, tags, q) == map[];
      assert !SearchAgrees(names, tags, q);
    }
  }
}
