/** The agent's pass over the systemd units and the server's handling of it: together
    they drive the stored records to what systemd lists, and leave them there. */
module Reconcile {
  import opened Prelude
  import opened Slices
  import I = Iterators

  datatype Status = Unspecified | Running | Stopped | Unknown

  /** One line of the systemd listing. */
  datatype UnitInfo = UnitInfo(unit: string, description: string, sub: string)

  datatype UnitJson = UnitJson(status: Status, statusSource: string, unitExists: bool, description: string,
                               unitName: string)

  datatype Record = Record(uid: string, name: string, minionUid: string, minionEnabled: bool, unitJson: UnitJson)

  /** A requested change; Invalid is one without a record or without an action. */
  datatype Crud = Insert(record: Record) | Update(record: Record) | Invalid

  /** The agent's own note of a service. */
  datatype ServiceDto = ServiceDto(uid: string, name: string, minionUid: string, minionEnabled: bool)

  /** The service table, by uid. */
  type Table = map<string, Record>

  // ----- the agent's pass -----

  function StatusOf(unit: UnitInfo): Status {
    if unit.sub == "running" then Running else if unit.sub == "dead" then Stopped else Unknown
  }

  function Listed(unit: UnitInfo): UnitJson {
    UnitJson(StatusOf(unit), "systemctl", true, unit.description, unit.unit)
  }

  function Retired(json: UnitJson): UnitJson {
    json.(unitExists := false, status := Unspecified, statusSource := "service not showing in systemctl")
  }

  /** What a pass works from. `uids` is the stream of random uids; `sameState`
      says, call by call, whether reflect.DeepEqual also finds the internal
      fields of the two protobuf structures equal. */
  datatype Context = Context(minion: string, actual: map<string, UnitInfo>, stored: map<string, Record>,
                             uids: nat -> string, sameState: nat -> bool)

  datatype Pass = Pass(crud: seq<Crud>, nextUid: nat, compared: nat, services: map<string, ServiceDto>)

  function Note(r: Record): ServiceDto {
    ServiceDto(r.uid, r.name, r.minionUid, r.minionEnabled)
  }

  function NewRecord(c: Context, uid: string, name: string): Record
    requires name in c.actual
  {
    Record(uid, name, c.minion, false, Listed(c.actual[name]))
  }

  /** The action for one name, and the record the pass holds for it afterwards. */
  function Decide(c: Context, p: Pass, name: string): (Option<Crud>, Option<Record>) {
    if name in c.actual && name in c.stored then
      var json, record := Listed(c.actual[name]), c.stored[name];
      if json == record.unitJson && c.sameState(p.compared) then (None, Some(record))
      else (Some(Update(record.(unitJson := json))), Some(record.(unitJson := json)))
    else if name in c.actual then
      var record := NewRecord(c, c.uids(p.nextUid), name);
      (Some(Insert(record)), Some(record))
    else if name in c.stored then
      var record := c.stored[name];
      if !record.unitJson.unitExists then (None, Some(record))
      else (Some(Update(record.(unitJson := Retired(record.unitJson)))),
            Some(record.(unitJson := Retired(record.unitJson))))
    else (None, None)
  }

  function Visit(c: Context, p: Pass, name: string): Pass {
    var (crud, record) := Decide(c, p, name);
    Pass(p.crud + (if crud.Some? then [crud.value] else []),
         p.nextUid + (if name in c.actual && name !in c.stored then 1 else 0),
         p.compared + (if name in c.actual && name in c.stored then 1 else 0),
         if name in p.services || record.None? then p.services else p.services[name := Note(record.value)])
  }

  function VisitAll(c: Context, p: Pass, names: seq<string>): Pass {
    if names == [] then p else Visit(c, VisitAll(c, p, names[..|names| - 1]), names[|names| - 1])
  }

  // ----- the server's side -----

  /** One action; an invalid one and the insertion of a taken uid are errors. */
  function Apply(t: Table, a: Crud): Option<Table> {
    match a
    case Invalid => None
    case Insert(record) => if record.uid in t then None else Some(t[record.uid := record])
    case Update(record) =>
      Some(if record.uid in t then t[record.uid := t[record.uid].(unitJson := record.unitJson)] else t)
  }

  function ApplyAll(t: Table, crud: seq<Crud>): Option<Table> {
    Fold(Apply, t, crud)
  }

  // ----- the two sides as objects -----

  function UnitOf(u: UnitInfo): string {
    u.unit
  }

  function NameOf(r: Record): string {
    r.name
  }

  function ByUnit(listing: seq<UnitInfo>): map<string, UnitInfo> {
    I.ByKey(listing, UnitOf)
  }

  function ByName(records: seq<Record>): map<string, Record> {
    I.ByKey(records, NameOf)
  }

  class Agent {
    const minion: string
    const uids: nat -> string
    const sameState: nat -> bool
    var nextUid: nat
    var compared: nat
    var servicesByName: map<string, ServiceDto>

    constructor (minion: string, uids: nat -> string, sameState: nat -> bool)
      ensures this.minion == minion && this.uids == uids && this.sameState == sameState
      ensures nextUid == 0 && compared == 0 && servicesByName == map[]
    {
      this.minion, this.uids, this.sameState := minion, uids, sameState;
      nextUid, compared, servicesByName := 0, 0, map[];
    }

    method DeepEqual(a: UnitJson, b: UnitJson) returns (equal: bool)
      modifies this`compared
      ensures equal == (a == b && sameState(old(compared))) && compared == old(compared) + 1
    {
      equal := a == b && sameState(compared);
      compared := compared + 1;
    }

    method RandomUid() returns (uid: string)
      modifies this`nextUid
      ensures uid == uids(old(nextUid)) && nextUid == old(nextUid) + 1
    {
      uid := uids(nextUid);
      nextUid := nextUid + 1;
    }

    /** One pass. `names` are all the names it visits, in the order it takes. */
    method RunServiceSlurpLoopOnce(listing: seq<UnitInfo>, records: seq<Record>)
      returns (crudActions: seq<Crud>, names: seq<string>)
      modifies this
      ensures Distinct(names) && Items(names) == ByUnit(listing).Keys + ByName(records).Keys
      ensures Pass(crudActions, nextUid, compared, servicesByName)
              == VisitAll(Context(minion, ByUnit(listing), ByName(records), uids, sameState),
                          Pass([], old(nextUid), old(compared), old(servicesByName)), names)
    {
      var units := I.FromSlice(listing).Iterator();
      var actual := units.ToMap(UnitOf);
      var rows := I.FromSlice(records).Iterator();
      var stored := rows.ToMap(NameOf);
      var actualKeys := Keys(actual);
      var storedKeys := Keys(stored);
      names := RemoveDupes(actualKeys + storedKeys);
      KeysTogether(actualKeys, storedKeys);
      ghost var c := Context(minion, actual, stored, uids, sameState);
      ghost var start := Pass([], nextUid, compared, servicesByName);
      crudActions := [];
      for i := 0 to |names|
        invariant Pass(crudActions, nextUid, compared, servicesByName) == VisitAll(c, start, names[..i])
      {
        assert names[..i + 1][..i] == names[..i];
        crudActions := VisitName(actual, stored, names[i], crudActions);
      }
      assert names[..|names|] == names;
    }

    /** The body of the loop: the action for one name. */
    method VisitName(actual: map<string, UnitInfo>, stored: map<string, Record>, name: string, sofar: seq<Crud>)
      returns (crud: seq<Crud>)
      modifies this
      ensures Pass(crud, nextUid, compared, servicesByName)
              == Visit(Context(minion, actual, stored, uids, sameState),
                       Pass(sofar, old(nextUid), old(compared), old(servicesByName)), name)
    {
      crud := sofar;
      var record: Option<Record> := None;
      if name in actual && name in stored {
        var json := Listed(actual[name]);
        var equal := DeepEqual(json, stored[name].unitJson);
        record := Some(stored[name]);
        if !equal {
          record := Some(stored[name].(unitJson := json));
          crud := crud + [Update(record.value)];
        }
      } else if name in actual {
        var uid := RandomUid();
        record := Some(Record(uid, name, minion, false, Listed(actual[name])));
        crud := crud + [Insert(record.value)];
      } else if name in stored {
        record := Some(stored[name]);
        if stored[name].unitJson.unitExists {
          record := Some(stored[name].(unitJson := Retired(stored[name].unitJson)));
          crud := crud + [Update(record.value)];
        }
      }
      if name !in servicesByName && record.Some? {
        servicesByName := servicesByName[name := Note(record.value)];
      }
      assert sofar + [] == sofar;
    }
  }

  lemma KeysTogether(a: seq<string>, b: seq<string>)
    ensures Distinct(FirstOccurrences(a + b)) && Items(FirstOccurrences(a + b)) == Items(a) + Items(b)
  {
    NoDuplicates(a + b);
    forall x: string
      ensures x in Items(FirstOccurrences(a + b)) <==> x in Items(a) || x in Items(b)
    {
      SameItems(a + b, x);
    }
  }

  class Nefario {
    var table: Table

    constructor (table: Table)
      ensures this.table == table
    {
      this.table := table;
    }

    /** One statement: an insert that meets its uid is an error, an update that
        does not meet its uid changes no row. */
    method Exec(a: Crud) returns (ok: bool)
      requires !a.Invalid?
      modifies this
      ensures ok == Apply(old(table), a).Some?
      ensures table == if ok then Apply(old(table), a).value else old(table)
      ensures ok <==> a.Update? || a.record.uid !in old(table)
      ensures a.Update? && a.record.uid !in old(table) ==> table == old(table)
    {
      match a
      case Insert(record) =>
        if record.uid in table { return false; }
        table := table[record.uid := record];
        ok := true;
      case Update(record) =>
        if record.uid in table {
          table := table[record.uid := table[record.uid].(unitJson := record.unitJson)];
        }
        ok := true;
    }

    /** The actions one by one, each a statement of its own: an error leaves
        those before it in place. `works` says which statements the database
        itself carries out; `n` counts the actions applied. */
    method SystemdServiceCrud(crudActions: seq<Crud>, works: nat -> bool) returns (ok: bool, n: nat)
      modifies this
      ensures n <= |crudActions| && ok == (n == |crudActions|)
      ensures ApplyAll(old(table), crudActions[..n]) == Some(table)
      ensures !ok ==> if HasInvalid(crudActions) then n == 0 else !works(n) || Apply(table, crudActions[n]).None?
    {
      n := 0;
      var invalid := I.Filtering(I.FromSlice(crudActions), IsInvalid);
      var validRecords := invalid.IsEmpty();
      I.NothingPasses(crudActions, IsInvalid);
      if !validRecords { return false, 0; }
      while n < |crudActions|
        invariant n <= |crudActions| && ApplyAll(old(table), crudActions[..n]) == Some(table)
        decreases |crudActions| - n
      {
        assert crudActions[..n + 1] == crudActions[..n] + [crudActions[n]];
        FoldSnoc(Apply, old(table), crudActions[..n], crudActions[n]);
        if !works(n) { return false, n; }
        var applied := Exec(crudActions[n]);
        if !applied { return false, n; }
        n := n + 1;
      }
      ok := true;
    }
  }

  predicate IsInvalid(a: Crud) {
    a.Invalid?
  }

  predicate HasInvalid(crud: seq<Crud>) {
    exists i :: 0 <= i < |crud| && IsInvalid(crud[i])
  }

  // ----- what a pass starts from -----

  /** `stored` are the minion's rows by name: no two of them share a name. */
  predicate Lists(t: Table, minion: string, stored: map<string, Record>) {
    && (forall u :: u in t ==> t[u].uid == u)
    && (forall name :: name in stored ==>
          stored[name].name == name && stored[name].minionUid == minion
          && stored[name].uid in t && t[stored[name].uid] == stored[name])
    && (forall u :: u in t && t[u].minionUid == minion ==> t[u].name in stored && stored[t[u].name] == t[u])
  }

  predicate Enumerates(t: Table, minion: string, records: seq<Record>) {
    && (forall u :: u in t ==> t[u].uid == u)
    && (forall i :: 0 <= i < |records| ==>
        records[i].uid in t && t[records[i].uid] == records[i] && records[i].minionUid == minion)
    && (forall u :: u in t && t[u].minionUid == minion ==> t[u] in records)
    && (forall i, j :: 0 <= i < j < |records| ==> records[i].name != records[j].name)
  }

  /** A listing of the minion's rows with distinct names, made into a map. */
  lemma RecordsListTheTable(t: Table, minion: string, records: seq<Record>)
    requires Enumerates(t, minion, records)
    ensures Lists(t, minion, ByName(records))
  {
    I.ByKeyFinds(records, NameOf);
    forall u | u in t && t[u].minionUid == minion
      ensures t[u].name in ByName(records) && ByName(records)[t[u].name] == t[u]
    {
      var i :| 0 <= i < |records| && records[i] == t[u];
    }
  }

  /** The uids to come are new to the table and to each other. */
  ghost predicate Fresh(uids: nat -> string, from: nat, t: Table) {
    && (forall i: nat :: from <= i ==> uids(i) !in t)
    && (forall i: nat, j: nat :: from <= i < j ==> uids(i) != uids(j))
  }

  // ----- the table during a pass -----

  /** A stored row once its name has been visited. */
  function Settle(c: Context, r: Record): Record {
    if r.name in c.actual then r.(unitJson := Listed(c.actual[r.name]))
    else if r.unitJson.unitExists then r.(unitJson := Retired(r.unitJson))
    else r
  }

  predicate OldRow(c: Context, t: Table, t1: Table, done: set<string>, u: string) {
    u in t ==> u in t1 && t1[u] == if t[u].minionUid == c.minion && t[u].name in done then Settle(c, t[u]) else t[u]
  }

  predicate NewRow(c: Context, t: Table, t1: Table, given: map<string, string>, name: string) {
    name in given ==>
      name in c.actual && given[name] !in t && given[name] in t1 && t1[given[name]] == NewRecord(c, given[name], name)
  }

  predicate Accounted(t: Table, t1: Table, given: map<string, string>, u: string) {
    u in t1 && u !in t ==> t1[u].name in given && given[t1[u].name] == u
  }

  /** `t1` is `t` with the names in `done` visited; `given` are the uids of the
      rows that were added. */
  ghost predicate Visited(c: Context, t: Table, t1: Table, done: set<string>, given: map<string, string>) {
    && given.Keys == done * c.actual.Keys - c.stored.Keys
    && (forall u :: OldRow(c, t, t1, done, u))
    && (forall name :: NewRow(c, t, t1, given, name))
    && (forall u :: Accounted(t, t1, given, u))
  }

  /** Rows added so far took their uids from the stream. */
  predicate Drawn(uids: nat -> string, from: nat, to: nat, given: map<string, string>) {
    forall name :: name in given ==> exists i: nat :: from <= i < to && uids(i) == given[name]
  }

  lemma InsertVisits(c: Context, t: Table, t1: Table, done: set<string>, given: map<string, string>, uid: string,
                     name: string)
    requires Lists(t, c.minion, c.stored) && Visited(c, t, t1, done, given)
    requires name in c.actual && name !in c.stored && name !in done && uid !in t1
    ensures Visited(c, t, t1[uid := NewRecord(c, uid, name)], done + {name}, given[name := uid])
  {
    var t2, more := t1[uid := NewRecord(c, uid, name)], given[name := uid];
    assert OldRow(c, t, t1, done, uid);
    forall u ensures OldRow(c, t, t2, done + {name}, u) {
      assert OldRow(c, t, t1, done, u);
    }
    forall n ensures NewRow(c, t, t2, more, n) {
      assert NewRow(c, t, t1, given, n);
    }
    forall u ensures Accounted(t, t2, more, u) {
      assert Accounted(t, t1, given, u);
    }
  }

  lemma StoredVisits(c: Context, t: Table, t1: Table, done: set<string>, given: map<string, string>, name: string)
    requires Lists(t, c.minion, c.stored) && Visited(c, t, t1, done, given)
    requires name in c.stored && name !in done
    ensures c.stored[name].uid in t1 && t1[c.stored[name].uid] == c.stored[name]
    ensures Visited(c, t, t1[c.stored[name].uid := Settle(c, c.stored[name])], done + {name}, given)
  {
    var uid := c.stored[name].uid;
    assert OldRow(c, t, t1, done, uid);
    var t2 := t1[uid := Settle(c, c.stored[name])];
    forall u ensures OldRow(c, t, t2, done + {name}, u) {
      assert OldRow(c, t, t1, done, u);
    }
    forall n ensures NewRow(c, t, t2, given, n) {
      assert NewRow(c, t, t1, given, n);
    }
    forall u ensures Accounted(t, t2, given, u) {
      assert Accounted(t, t1, given, u);
    }
  }

  lemma VisitApplies(c: Context, t: Table, t1: Table, done: set<string>, given: map<string, string>, p: Pass,
                     name: string)
    returns (t2: Table, more: map<string, string>)
    requires Lists(t, c.minion, c.stored) && Visited(c, t, t1, done, given)
    requires (name in c.actual || name in c.stored) && name !in done && c.uids(p.nextUid) !in t1
    ensures var crud := Decide(c, p, name).0; if crud.Some? then Apply(t1, crud.value) == Some(t2) else t2 == t1
    ensures Visited(c, t, t2, done + {name}, more)
    ensures more == if name in c.actual && name !in c.stored then given[name := c.uids(p.nextUid)] else given
  {
    if name in c.stored {
      StoredVisits(c, t, t1, done, given, name);
      var u := c.stored[name].uid;
      t2, more := t1[u := Settle(c, c.stored[name])], given;
      assert t1 == t1[u := t1[u]];
    } else {
      InsertVisits(c, t, t1, done, given, c.uids(p.nextUid), name);
      t2, more := t1[c.uids(p.nextUid) := NewRecord(c, c.uids(p.nextUid), name)], given[name := c.uids(p.nextUid)];
    }
  }

  lemma NoUidIsReused(c: Context, t: Table, t1: Table, done: set<string>, given: map<string, string>, from: nat,
                      to: nat, next: nat)
    requires Visited(c, t, t1, done, given) && Fresh(c.uids, from, t) && from <= to <= next
             && Drawn(c.uids, from, to, given)
    ensures Fresh(c.uids, next, t1)
  {
    forall i: nat | next <= i
      ensures c.uids(i) !in t1
    {
      var u := c.uids(i);
      assert Accounted(t, t1, given, u);
    }
  }

  /** How far the server is when it has applied the actions of `p`. */
  ghost predicate Reached(t: Table, c: Context, from: nat, p: Pass, done: set<string>, t1: Table,
                          given: map<string, string>)
  {
    && ApplyAll(t, p.crud) == Some(t1) && Visited(c, t, t1, done, given)
    && from <= p.nextUid && Drawn(c.uids, from, p.nextUid, given)
  }

  lemma VisitReaches(t: Table, c: Context, from: nat, p: Pass, done: set<string>, t1: Table,
                     given: map<string, string>, name: string)
    returns (t2: Table, more: map<string, string>)
    requires Lists(t, c.minion, c.stored) && Fresh(c.uids, from, t) && Reached(t, c, from, p, done, t1, given)
    requires (name in c.actual || name in c.stored) && name !in done
    ensures Reached(t, c, from, Visit(c, p, name), done + {name}, t2, more)
  {
    NoUidIsReused(c, t, t1, done, given, from, p.nextUid, p.nextUid);
    t2, more := VisitApplies(c, t, t1, done, given, p, name);
    AppliesNext(t, p.crud, t1, Decide(c, p, name).0, t2);
    DrawnNext(c, p, from, given, name);
  }

  lemma SplitLast(names: seq<string>)
    requires Distinct(names) && names != []
    ensures names[|names| - 1] !in Items(names[..|names| - 1])
    ensures Items(names) == Items(names[..|names| - 1]) + {names[|names| - 1]}
  {
    assert names == names[..|names| - 1] + [names[|names| - 1]];
    ItemsAppend(names[..|names| - 1], names[|names| - 1]);
  }

  /** Applying a pass's actions settles exactly the names it visited. */
  lemma {:induction false} PassVisits(t: Table, c: Context, p0: Pass, names: seq<string>)
    returns (t1: Table, given: map<string, string>)
    requires Lists(t, c.minion, c.stored) && Fresh(c.uids, p0.nextUid, t) && p0.crud == []
    requires Distinct(names) && forall i :: 0 <= i < |names| ==> names[i] in c.actual || names[i] in c.stored
    ensures Reached(t, c, p0.nextUid, VisitAll(c, p0, names), Items(names), t1, given)
  {
    if names == [] {
      t1, given := t, map[];
    } else {
      var n, name := |names| - 1, names[|names| - 1];
      t1, given := PassVisits(t, c, p0, names[..n]);
      SplitLast(names);
      t1, given := VisitReaches(t, c, p0.nextUid, VisitAll(c, p0, names[..n]), Items(names[..n]), t1, given, name);
    }
  }

  lemma AppliesNext(t: Table, crud: seq<Crud>, t1: Table, a: Option<Crud>, t2: Table)
    requires ApplyAll(t, crud) == Some(t1)
    requires if a.Some? then Apply(t1, a.value) == Some(t2) else t2 == t1
    ensures ApplyAll(t, crud + if a.Some? then [a.value] else []) == Some(t2)
  {
    if a.Some? { FoldSnoc(Apply, t, crud, a.value); } else { assert crud + [] == crud; }
  }

  lemma DrawnNext(c: Context, p: Pass, from: nat, given: map<string, string>, name: string)
    requires from <= p.nextUid && Drawn(c.uids, from, p.nextUid, given)
    ensures var more := if name in c.actual && name !in c.stored then given[name := c.uids(p.nextUid)] else given;
            Drawn(c.uids, from, Visit(c, p, name).nextUid, more)
  {
  }

  // ----- main results -----

  /** The row's JSON says what systemd lists of the unit. */
  predicate ShowsUnit(json: UnitJson, unit: UnitInfo) {
    && json.unitExists && json.statusSource == "systemctl"
    && json.unitName == unit.unit && json.description == unit.description
    && (json.status == Running <==> unit.sub == "running") && (json.status == Stopped <==> unit.sub == "dead")
    && (json.status == Unknown <==> unit.sub != "running" && unit.sub != "dead")
  }

  /** The row's JSON after its unit has gone: marked once, then left alone. */
  predicate ShowsGone(before: UnitJson, after: UnitJson) {
    && !after.unitExists && after.unitName == before.unitName && after.description == before.description
    && (if before.unitExists then
          after.status == Unspecified && after.statusSource == "service not showing in systemctl"
        else after.status == before.status && after.statusSource == before.statusSource)
  }

  predicate RowConverged(r: Record, minion: string, actual: map<string, UnitInfo>) {
    r.minionUid == minion ==> if r.name in actual then ShowsUnit(r.unitJson, actual[r.name]) else !r.unitJson.unitExists
  }

  predicate HasRow(t: Table, minion: string, name: string) {
    exists u :: u in t && t[u].minionUid == minion && t[u].name == name
  }

  /** The minion's rows say what systemd lists, and every listed unit has one. */
  predicate Converged(t: Table, minion: string, actual: map<string, UnitInfo>) {
    && (forall u :: u in t ==> RowConverged(t[u], minion, actual))
    && (forall name :: name in actual ==> HasRow(t, minion, name))
  }

  predicate NamesUnique(t: Table, minion: string) {
    forall u, v ::
      u in t && v in t && t[u].minionUid == minion && t[v].minionUid == minion && t[u].name == t[v].name ==> u == v
  }

  predicate RowKept(t: Table, r: Record, u: string, minion: string) {
    if u in t then r.(unitJson := t[u].unitJson) == t[u] && (t[u].minionUid != minion ==> r == t[u])
    else r.minionUid == minion && r.uid == u
  }

  /** What a pass makes of the minion's rows that are not listed, and of new ones. */
  predicate RowsSettled(t: Table, t1: Table, minion: string, actual: map<string, UnitInfo>) {
    && (forall u :: u in t && u in t1 && t[u].minionUid == minion && t[u].name !in actual ==>
          ShowsGone(t[u].unitJson, t1[u].unitJson))
    && (forall u :: u in t1 && u !in t ==> t1[u].uid == u && t1[u].name in actual && !t1[u].minionEnabled)
    && (forall u :: u in t1 && t1[u].minionUid == minion ==> (t1[u].unitJson.unitExists <==> t1[u].name in actual))
  }

  /** No row is lost; only the unit JSON of the minion's rows may differ; rows
      that are new belong to the minion. */
  predicate OnlyJsonChanged(t: Table, t1: Table, minion: string) {
    && (forall u :: u in t ==> u in t1)
    && (forall u :: u in t1 ==> RowKept(t, t1[u], u, minion))
  }

  /** Where a row of a visited table comes from. */
  lemma VisitedRow(c: Context, t: Table, t1: Table, done: set<string>, given: map<string, string>, u: string)
    requires Lists(t, c.minion, c.stored) && Visited(c, t, t1, done, given) && u in t1
    ensures u in t ==> t1[u] == if t[u].minionUid == c.minion && t[u].name in done then Settle(c, t[u]) else t[u]
    ensures u !in t ==> t1[u].name in c.actual && t1[u].name !in c.stored && t1[u] == NewRecord(c, u, t1[u].name)
                        && t1[u].name in given && given[t1[u].name] == u
  {
    assert OldRow(c, t, t1, done, u);
    assert Accounted(t, t1, given, u);
    assert NewRow(c, t, t1, given, t1[u].name);
  }

  lemma VisitedHasRow(c: Context, t: Table, t1: Table, given: map<string, string>, name: string) returns (u: string)
    requires Lists(t, c.minion, c.stored) && Visited(c, t, t1, c.actual.Keys + c.stored.Keys, given) && name in c.actual
    ensures u in t1 && t1[u].minionUid == c.minion && t1[u].name == name
  {
    if name in c.stored {
      u := c.stored[name].uid;
      assert OldRow(c, t, t1, c.actual.Keys + c.stored.Keys, u);
    } else {
      u := given[name];
      assert NewRow(c, t, t1, given, name);
    }
  }

  lemma VisitedNamesUnique(c: Context, t: Table, t1: Table, done: set<string>, given: map<string, string>, u: string,
                           v: string)
    requires Lists(t, c.minion, c.stored) && Visited(c, t, t1, done, given)
    requires u in t1 && v in t1 && t1[u].minionUid == c.minion && t1[v].minionUid == c.minion
             && t1[u].name == t1[v].name
    ensures u == v
  {
    VisitedRow(c, t, t1, done, given, u);
    VisitedRow(c, t, t1, done, given, v);
  }

  /** However far a pass got, the table stays well-formed. */
  lemma VisitedKeeps(c: Context, t: Table, t1: Table, done: set<string>, given: map<string, string>)
    requires Lists(t, c.minion, c.stored) && Visited(c, t, t1, done, given)
    ensures NamesUnique(t1, c.minion) && OnlyJsonChanged(t, t1, c.minion)
  {
    forall u | u in t
      ensures u in t1
    {
      assert OldRow(c, t, t1, done, u);
    }
    forall u | u in t1
      ensures RowKept(t, t1[u], u, c.minion)
    {
      VisitedRow(c, t, t1, done, given, u);
    }
    forall u, v | u in t1 && v in t1 && t1[u].minionUid == c.minion && t1[v].minionUid == c.minion
           && t1[u].name == t1[v].name
      ensures u == v
    {
      VisitedNamesUnique(c, t, t1, done, given, u, v);
    }
  }

  /** A table all of whose names were visited has converged. */
  lemma VisitedIsConverged(c: Context, t: Table, t1: Table, given: map<string, string>)
    requires Lists(t, c.minion, c.stored) && Visited(c, t, t1, c.actual.Keys + c.stored.Keys, given)
    ensures Converged(t1, c.minion, c.actual) && RowsSettled(t, t1, c.minion, c.actual)
  {
    forall u | u in t1
      ensures RowConverged(t1[u], c.minion, c.actual)
      ensures u in t && t[u].minionUid == c.minion && t[u].name !in c.actual ==>
                ShowsGone(t[u].unitJson, t1[u].unitJson)
      ensures u !in t ==> t1[u].uid == u && t1[u].name in c.actual && !t1[u].minionEnabled
    {
      VisitedRow(c, t, t1, c.actual.Keys + c.stored.Keys, given, u);
    }
    forall name | name in c.actual
      ensures HasRow(t1, c.minion, name)
    {
      var u := VisitedHasRow(c, t, t1, given, name);
    }
  }

  /** One pass, applied by the server, drives the table to what systemd lists. */
  lemma OnePassConverges(t: Table, c: Context, p0: Pass, names: seq<string>) returns (t1: Table)
    requires Lists(t, c.minion, c.stored) && Fresh(c.uids, p0.nextUid, t) && p0.crud == []
    requires Distinct(names) && Items(names) == c.actual.Keys + c.stored.Keys
    ensures ApplyAll(t, VisitAll(c, p0, names).crud) == Some(t1)
    ensures Converged(t1, c.minion, c.actual) && NamesUnique(t1, c.minion) && OnlyJsonChanged(t, t1, c.minion)
    ensures RowsSettled(t, t1, c.minion, c.actual)
  {
    forall i | 0 <= i < |names|
      ensures names[i] in c.actual || names[i] in c.stored
    {
      assert names[i] in Items(names);
    }
    var given;
    t1, given := PassVisits(t, c, p0, names);
    VisitedIsConverged(c, t, t1, given);
    VisitedKeeps(c, t, t1, Items(names), given);
  }

  /** Once converged, no pass over the same listing changes the table, whatever
      reflect.DeepEqual makes of the structures' internal fields. */
  lemma {:induction false} NextPassChangesNothing(t: Table, c: Context, p0: Pass, names: seq<string>)
    requires Lists(t, c.minion, c.stored) && Converged(t, c.minion, c.actual) && p0.crud == []
    requires forall i :: 0 <= i < |names| ==> names[i] in c.actual || names[i] in c.stored
    ensures ApplyAll(t, VisitAll(c, p0, names).crud) == Some(t)
    ensures (forall k :: c.sameState(k)) ==> VisitAll(c, p0, names).crud == []
  {
    if names != [] {
      var n, name := |names| - 1, names[|names| - 1];
      NextPassChangesNothing(t, c, p0, names[..n]);
      var p := VisitAll(c, p0, names[..n]);
      ConvergedNameStays(t, c, p, name);
      AppliesNext(t, p.crud, t, Decide(c, p, name).0, t);
    }
  }

  lemma ConvergedNameStays(t: Table, c: Context, p: Pass, name: string)
    requires Lists(t, c.minion, c.stored) && Converged(t, c.minion, c.actual)
    requires name in c.actual || name in c.stored
    ensures var crud := Decide(c, p, name).0; crud.Some? ==> Apply(t, crud.value) == Some(t)
    ensures c.sameState(p.compared) ==> Decide(c, p, name).0.None?
  {
    if name in c.actual {
      assert HasRow(t, c.minion, name);
      var u :| u in t && t[u].minionUid == c.minion && t[u].name == name;
      assert c.stored[name] == t[u] && RowConverged(t[u], c.minion, c.actual);
      assert t[u].unitJson == Listed(c.actual[name]);
      assert t == t[u := t[u]];
    }
  }

  function Subject(a: Crud): string {
    if a.Invalid? then "" else a.record.name
  }

  function NamesOf(crud: seq<Crud>): seq<string> {
    seq(|crud|, i requires 0 <= i < |crud| => Subject(crud[i]))
  }

  /** A pass asks for at most one action per name. */
  lemma {:induction false} OneActionPerName(t: Table, c: Context, p0: Pass, names: seq<string>)
    requires Lists(t, c.minion, c.stored) && p0.crud == [] && Distinct(names)
    ensures var crud := VisitAll(c, p0, names).crud;
            Distinct(NamesOf(crud)) && forall i :: 0 <= i < |crud| ==> Subject(crud[i]) in names
  {
    if names != [] {
      var n, name := |names| - 1, names[|names| - 1];
      OneActionPerName(t, c, p0, names[..n]);
      var p := VisitAll(c, p0, names[..n]);
      assert names == names[..n] + [name];
      assert name !in names[..n];
      NamesExtend(p.crud, Decide(c, p, name).0, names[..n], name);
    }
  }

  lemma NamesExtend(crud: seq<Crud>, a: Option<Crud>, names: seq<string>, name: string)
    requires Distinct(NamesOf(crud)) && forall i :: 0 <= i < |crud| ==> Subject(crud[i]) in names
    requires name !in names && (a.Some? ==> Subject(a.value) == name)
    ensures var more := crud + if a.Some? then [a.value] else [];
            Distinct(NamesOf(more)) && forall i :: 0 <= i < |more| ==> Subject(more[i]) in names + [name]
  {
    if a.Some? {
      var more := crud + [a.value];
      assert NamesOf(more) == NamesOf(crud) + [name];
      assert forall i :: 0 <= i < |crud| ==> NamesOf(crud)[i] == Subject(crud[i]);
    } else {
      assert crud + [] == crud;
    }
  }

  /** What one pass over a listing leaves behind. */
  predicate Matches(t: Table, minion: string, listing: seq<UnitInfo>) {
    forall i :: 0 <= i < |listing| ==> MatchesUnit(t, minion, listing[i])
  }

  predicate MatchesUnit(t: Table, minion: string, unit: UnitInfo) {
    exists u :: u in t && t[u].minionUid == minion && t[u].name == unit.unit && ShowsUnit(t[u].unitJson, unit)
  }

  /** The whole of one pass, from the rows and the listing as they are read. */
  lemma ListingIsStored(t: Table, listing: seq<UnitInfo>, records: seq<Record>, c: Context, p0: Pass,
                        names: seq<string>)
    returns (t1: Table)
    requires forall i, j :: 0 <= i < j < |listing| ==> listing[i].unit != listing[j].unit
    requires Enumerates(t, c.minion, records) && c.actual == ByUnit(listing) && c.stored == ByName(records)
    requires Fresh(c.uids, p0.nextUid, t) && p0.crud == []
    requires Distinct(names) && Items(names) == c.actual.Keys + c.stored.Keys
    ensures ApplyAll(t, VisitAll(c, p0, names).crud) == Some(t1)
    ensures Converged(t1, c.minion, c.actual) && NamesUnique(t1, c.minion) && OnlyJsonChanged(t, t1, c.minion)
    ensures Matches(t1, c.minion, listing) && RowsSettled(t, t1, c.minion, ByUnit(listing))
    ensures forall u :: u in t1 && t1[u].minionUid == c.minion ==>
              (t1[u].unitJson.unitExists <==> exists i :: 0 <= i < |listing| && listing[i].unit == t1[u].name)
  {
    RecordsListTheTable(t, c.minion, records);
    t1 := OnePassConverges(t, c, p0, names);
    I.ByKeyFinds(listing, UnitOf);
    forall i | 0 <= i < |listing|
      ensures MatchesUnit(t1, c.minion, listing[i])
    {
      assert HasRow(t1, c.minion, listing[i].unit);
      var u :| u in t1 && t1[u].minionUid == c.minion && t1[u].name == listing[i].unit;
      assert RowConverged(t1[u], c.minion, c.actual);
    }
    assert forall name :: name in ByUnit(listing) ==> ByUnit(listing)[name] in listing;
  }

  /** The first actions of a pass are the actions of a pass over the first names. */
  lemma {:induction false} StartOfPass(c: Context, p0: Pass, names: seq<string>, k: nat) returns (m: nat)
    requires p0.crud == [] && k <= |VisitAll(c, p0, names).crud|
    ensures m <= |names| && VisitAll(c, p0, names[..m]).crud == VisitAll(c, p0, names).crud[..k]
    ensures VisitAll(c, p0, names[..m]).nextUid <= VisitAll(c, p0, names).nextUid
  {
    var all := VisitAll(c, p0, names).crud;
    if k == |all| {
      m := |names|;
      assert names[..m] == names && all[..k] == all;
    } else {
      var n := |names| - 1;
      var before := VisitAll(c, p0, names[..n]).crud;
      assert before <= all && k <= |before|;
      m := StartOfPass(c, p0, names[..n], k);
      assert names[..n][..m] == names[..m] && before[..k] == all[..k];
    }
  }

  /** A request that fails part way leaves the first `k` actions applied. That
      spoils nothing: names are still unique and the uids to come still fresh, so
      the next pass drives the table to the listing all the same. */
  lemma InterruptedPass(t: Table, c: Context, p0: Pass, names: seq<string>, k: nat) returns (t1: Table)
    requires Lists(t, c.minion, c.stored) && Fresh(c.uids, p0.nextUid, t) && p0.crud == []
    requires Distinct(names) && Items(names) == c.actual.Keys + c.stored.Keys
    requires k <= |VisitAll(c, p0, names).crud|
    ensures ApplyAll(t, VisitAll(c, p0, names).crud[..k]) == Some(t1)
    ensures NamesUnique(t1, c.minion) && OnlyJsonChanged(t, t1, c.minion)
            && Fresh(c.uids, VisitAll(c, p0, names).nextUid, t1)
  {
    var m := StartOfPass(c, p0, names, k);
    forall i | 0 <= i < m
      ensures names[..m][i] in c.actual || names[..m][i] in c.stored
    {
      assert names[i] in Items(names);
    }
    var given;
    t1, given := PassVisits(t, c, p0, names[..m]);
    VisitedKeeps(c, t, t1, Items(names[..m]), given);
    NoUidIsReused(c, t, t1, Items(names[..m]), given, p0.nextUid, VisitAll(c, p0, names[..m]).nextUid,
                  VisitAll(c, p0, names).nextUid);
  }

  /** What the database returns for the minion: each of its rows once. */
  predicate Rows(t: Table, minion: string, records: seq<Record>) {
    && Distinct(records)
    && (forall i :: 0 <= i < |records| ==>
        records[i].uid in t && t[records[i].uid] == records[i] && records[i].minionUid == minion)
    && (forall u :: u in t && t[u].minionUid == minion ==> t[u] in records)
  }

  /** A pass that failed after `k` actions, and the next one, over whatever is
      listed by then: the table says what was listed last. */
  lemma RetryConverges(t: Table, c: Context, p0: Pass, names: seq<string>, k: nat,
                       listing: seq<UnitInfo>, records: seq<Record>, c1: Context, p1: Pass, namesAgain: seq<string>)
    returns (t1: Table, t2: Table)
    requires Lists(t, c.minion, c.stored) && Fresh(c.uids, p0.nextUid, t) && p0.crud == []
    requires Distinct(names) && Items(names) == c.actual.Keys + c.stored.Keys
    requires k <= |VisitAll(c, p0, names).crud|
    requires forall i, j :: 0 <= i < j < |listing| ==> listing[i].unit != listing[j].unit
    requires c1.minion == c.minion && c1.uids == c.uids && p1 == VisitAll(c, p0, names).(crud := [])
    requires c1.actual == ByUnit(listing) && c1.stored == ByName(records)
    requires Distinct(namesAgain) && Items(namesAgain) == c1.actual.Keys + c1.stored.Keys
    ensures ApplyAll(t, VisitAll(c, p0, names).crud[..k]) == Some(t1)
    ensures Rows(t1, c.minion, records) ==>
              && ApplyAll(t1, VisitAll(c1, p1, namesAgain).crud) == Some(t2)
              && Converged(t2, c.minion, ByUnit(listing)) && Matches(t2, c.minion, listing)
  {
    t1 := InterruptedPass(t, c, p0, names, k);
    t2 := t1;
    if Rows(t1, c.minion, records) {
      t2 := ListingIsStored(t1, listing, records, c1, p1, namesAgain);
    }
  }

  /** A second pass over the same listing, with the rows read back, from any
      later state of the agent: every stored row stays as it is, and nothing is
      asked for when DeepEqual sees equal structures as equal. */
  lemma SecondPassIsStable(t1: Table, listing: seq<UnitInfo>, again: seq<Record>, c: Context, p1: Pass,
                           names: seq<string>)
    requires Converged(t1, c.minion, ByUnit(listing))
    requires Enumerates(t1, c.minion, again) && c.actual == ByUnit(listing) && c.stored == ByName(again)
             && p1.crud == []
    requires Items(names) == c.actual.Keys + c.stored.Keys
    ensures ApplyAll(t1, VisitAll(c, p1, names).crud) == Some(t1)
    ensures (forall k :: c.sameState(k)) ==> VisitAll(c, p1, names).crud == []
  {
    RecordsListTheTable(t1, c.minion, again);
    forall i | 0 <= i < |names|
      ensures names[i] in c.actual || names[i] in c.stored
    {
      assert names[i] in Items(names);
    }
    NextPassChangesNothing(t1, c, p1, names);
  }

  // ----- the agent's notes -----

  /** The note under `name` is of a row of the table, with the row's fields. */
  predicate NoteOfRow(t: Table, name: string, note: ServiceDto) {
    && note.uid in t && note.name == name && t[note.uid].name == name
    && t[note.uid].minionUid == note.minionUid && t[note.uid].minionEnabled == note.minionEnabled
  }

  /** Notes there were stay; every name visited has one, of its row. */
  predicate Noted(before: map<string, ServiceDto>, after: map<string, ServiceDto>, done: set<string>, t: Table) {
    && after.Keys == before.Keys + done
    && (forall name :: name in before ==> after[name] == before[name])
    && (forall name :: name in done && name !in before ==> NoteOfRow(t, name, after[name]))
  }

  lemma StillNoteOfRow(t: Table, a: Crud, t2: Table, name: string, note: ServiceDto)
    requires NoteOfRow(t, name, note) && Apply(t, a) == Some(t2)
    ensures NoteOfRow(t2, name, note)
  {
  }

  lemma VisitNotes(c: Context, before: map<string, ServiceDto>, p: Pass, done: set<string>, name: string, t1: Table,
                   t2: Table)
    requires Noted(before, p.services, done, t1) && name !in done && (name in c.actual || name in c.stored)
    requires name in c.stored ==> c.stored[name].name == name && c.stored[name].uid in t1
                                  && t1[c.stored[name].uid] == c.stored[name]
    requires var crud := Decide(c, p, name).0; if crud.Some? then Apply(t1, crud.value) == Some(t2) else t2 == t1
    ensures Noted(before, Visit(c, p, name).services, done + {name}, t2)
  {
    var (crud, record) := Decide(c, p, name);
    forall other | other in done && other !in before
      ensures NoteOfRow(t2, other, p.services[other])
    {
      if crud.Some? { StillNoteOfRow(t1, crud.value, t2, other, p.services[other]); }
    }
  }

  /** A pass leaves the notes there were and makes one for every other name it
      visits, with the fields of the name's row. */
  lemma {:induction false} NotesFollowRows(t: Table, c: Context, p0: Pass, names: seq<string>)
    returns (t1: Table)
    requires Lists(t, c.minion, c.stored) && Fresh(c.uids, p0.nextUid, t) && p0.crud == []
    requires Distinct(names) && forall i :: 0 <= i < |names| ==> names[i] in c.actual || names[i] in c.stored
    ensures ApplyAll(t, VisitAll(c, p0, names).crud) == Some(t1)
    ensures Noted(p0.services, VisitAll(c, p0, names).services, Items(names), t1)
  {
    if names == [] {
      t1 := t;
    } else {
      var n, name := |names| - 1, names[|names| - 1];
      var before, given := PassVisits(t, c, p0, names[..n]);
      var again := NotesFollowRows(t, c, p0, names[..n]);
      SplitLast(names);
      var p := VisitAll(c, p0, names[..n]);
      NoUidIsReused(c, t, before, Items(names[..n]), given, p0.nextUid, p.nextUid, p.nextUid);
      var more;
      t1, more := VisitApplies(c, t, before, Items(names[..n]), given, p, name);
      AppliesNext(t, p.crud, before, Decide(c, p, name).0, t1);
      if name in c.stored { StoredVisits(c, t, before, Items(names[..n]), given, name); }
      VisitNotes(c, p0.services, p, Items(names[..n]), name, before, t1);
    }
  }
}
