/** The VLAN database: the `vlans` table (one row per VLAN identifier) and
    the `vlans_per_device` table (one row per device), with the operations
    that add, delete, update and query rows of `vlans`.

    Each table is a map from its primary key to the rest of the row, so a
    table can never hold two rows with the same key. The database is an
    object whose methods change the `vlans` map in place, as the source's
    session does; the functions `AddRow`, `DeleteRow` and `UpdateRow` state
    what each change does to the table's contents, and the lemmas after them
    relate the changes to each other. */
module VlanStore {
  import opened Wrappers

  /** The description a VLAN gets when the caller gives none. */
  const DefaultDescription := "change_me"

  /** The non-key columns of a `vlans` row. */
  datatype VlanAttrs = VlanAttrs(name: string, description: string)

  /** A whole `vlans` row, as the queries return it. */
  datatype Vlan = Vlan(id: string, name: string, description: string)

  /** The non-key columns of a `vlans_per_device` row. */
  datatype DeviceVlanAttrs = DeviceVlanAttrs(vlanId: string, name: string, description: string)

  type VlanTable = map<string, VlanAttrs>

  /** `v` is a row of table `t`. */
  predicate InTable(t: VlanTable, v: Vlan) {
    v.id in t && t[v.id] == VlanAttrs(v.name, v.description)
  }

  // ---------------------------------------------------------------------------
  // What each operation does to the contents of the `vlans` table
  // ---------------------------------------------------------------------------

  /** Inserting a row: a new identifier gets the row; an identifier already
      present violates the primary key, the insert is rolled back and the
      existing row stays as it was. */
  function AddRow(t: VlanTable, id: string, attrs: VlanAttrs): (r: VlanTable)
    ensures id in r
    ensures id !in t ==> r[id] == attrs && r.Keys == t.Keys + {id}
    ensures id in t ==> r == t
    ensures forall k :: k in t ==> k in r && r[k] == t[k]
  {
    if id in t then t else t[id := attrs]
  }

  /** Deleting a row: only the row with that identifier goes, and deleting
      an identifier that is not there changes nothing. */
  function DeleteRow(t: VlanTable, id: string): (r: VlanTable)
    ensures id !in r
    ensures r.Keys == t.Keys - {id}
    ensures forall k :: k in r ==> r[k] == t[k]
    ensures id !in t ==> r == t
  {
    t - {id}
  }

  /** Updating a row: the row with that identifier gets the new name and
      description and keeps its identifier; an update never inserts. */
  function UpdateRow(t: VlanTable, id: string, attrs: VlanAttrs): (r: VlanTable)
    ensures r.Keys == t.Keys
    ensures id in t ==> r[id] == attrs
    ensures forall k :: k in t && k != id ==> r[k] == t[k]
    ensures id !in t ==> r == t
  {
    if id in t then t[id := attrs] else t
  }

  /** The row a query for `id` finds, if any. */
  function Lookup(t: VlanTable, id: string): (r: Option<Vlan>)
    ensures r.Some? <==> id in t
    ensures r.Some? ==> r.value.id == id && InTable(t, r.value)
  {
    if id in t then Some(Vlan(id, t[id].name, t[id].description)) else None
  }

  // ---------------------------------------------------------------------------
  // The database object
  // ---------------------------------------------------------------------------

  class VlanDatabase {
    /** The `vlans` table, keyed by VLAN identifier. */
    var vlans: VlanTable
    /** The `vlans_per_device` table, keyed by the device alone. */
    var vlansPerDevice: map<string, DeviceVlanAttrs>

    /** Opening the database file: the tables hold whatever earlier runs
        left in them (both are empty on the first run, when the file is
        created). */
    constructor (vlans0: VlanTable, vlansPerDevice0: map<string, DeviceVlanAttrs>)
      ensures vlans == vlans0 && vlansPerDevice == vlansPerDevice0
    {
      vlans := vlans0;
      vlansPerDevice := vlansPerDevice0;
    }

    /** `add_vlan`: inserts the row when the identifier is new; a duplicate
        identifier is reported (`added` is false) and changes nothing. */
    method AddVlan(id: string, name: string, description: string := DefaultDescription) returns (added: bool)
      modifies this`vlans
      ensures added <==> id !in old(vlans)
      ensures vlans == AddRow(old(vlans), id, VlanAttrs(name, description))
    {
      added := id !in vlans;
      vlans := AddRow(vlans, id, VlanAttrs(name, description));
    }

    /** `delete_vlan`: removes the row when it is there; a missing
        identifier is reported (`deleted` is false) and changes nothing. */
    method DeleteVlan(id: string) returns (deleted: bool)
      modifies this`vlans
      ensures deleted <==> id in old(vlans)
      ensures vlans == DeleteRow(old(vlans), id)
    {
      deleted := id in vlans;
      vlans := DeleteRow(vlans, id);
    }

    /** `update_vlan`: overwrites name and description of an existing row; a
        missing identifier is reported (`updated` is false) and nothing is
        inserted. */
    method UpdateVlan(id: string, name: string, description: string := DefaultDescription) returns (updated: bool)
      modifies this`vlans
      ensures updated <==> id in old(vlans)
      ensures vlans == UpdateRow(old(vlans), id, VlanAttrs(name, description))
    {
      updated := id in vlans;
      vlans := UpdateRow(vlans, id, VlanAttrs(name, description));
    }

    /** `query_vlan`: the row with that identifier, or none. */
    method QueryVlan(id: string) returns (vlan: Option<Vlan>)
      ensures vlan.Some? <==> id in vlans
      ensures vlan.Some? ==> vlan.value.id == id && InTable(vlans, vlan.value)
    {
      vlan := Lookup(vlans, id);
    }

    /** `query_all_vlan`: every row of the table exactly once, and nothing
        else; the empty list when the table is empty. The order of the rows
        is not fixed. */
    method QueryAllVlan() returns (all: seq<Vlan>)
      ensures |all| == |vlans|
      ensures forall v :: v in all <==> InTable(vlans, v)
      ensures forall i, j :: 0 <= i < j < |all| ==> all[i].id != all[j].id
    {
      all := [];
      var pending := vlans.Keys;
      while pending != {}
        invariant pending <= vlans.Keys
        invariant forall v :: v in all <==> InTable(vlans, v) && v.id !in pending
        invariant forall i, j :: 0 <= i < j < |all| ==> all[i].id != all[j].id
        invariant |all| + |pending| == |vlans.Keys|
        decreases |pending|
      {
        var id :| id in pending;
        var row := Vlan(id, vlans[id].name, vlans[id].description);
        assert forall v :: v in all ==> v.id != id;
        all := all + [row];
        pending := pending - {id};
      }
    }
  }

  // ---------------------------------------------------------------------------
  // How the operations combine
  // ---------------------------------------------------------------------------

  /** Adding the same identifier twice leaves the table as adding it once,
      whatever name and description the second call brings. */
  lemma AddRowIdempotent(t: VlanTable, id: string, a: VlanAttrs, b: VlanAttrs)
    ensures AddRow(AddRow(t, id, a), id, b) == AddRow(t, id, a)
  {
  }

  /** Deleting the same identifier twice leaves the table as deleting it
      once. */
  lemma DeleteRowIdempotent(t: VlanTable, id: string)
    ensures DeleteRow(DeleteRow(t, id), id) == DeleteRow(t, id)
  {
  }

  /** A query after an add finds the row that was there before, or the new
      one when the identifier was new. */
  lemma LookupAfterAdd(t: VlanTable, id: string, a: VlanAttrs)
    ensures Lookup(AddRow(t, id, a), id) ==
      if id in t then Lookup(t, id) else Some(Vlan(id, a.name, a.description))
  {
  }

  /** A query after an update finds the new name and description exactly
      when the row existed. */
  lemma LookupAfterUpdate(t: VlanTable, id: string, a: VlanAttrs)
    ensures Lookup(UpdateRow(t, id, a), id) ==
      if id in t then Some(Vlan(id, a.name, a.description)) else None
  {
  }

  /** Adding a new identifier and deleting it again restores the table. */
  lemma DeleteUndoesAdd(t: VlanTable, id: string, a: VlanAttrs)
    requires id !in t
    ensures DeleteRow(AddRow(t, id, a), id) == t
  {
  }

  /** An update of an existing row is the same as deleting it and adding the
      new row. */
  lemma UpdateIsDeleteThenAdd(t: VlanTable, id: string, a: VlanAttrs)
    requires id in t
    ensures UpdateRow(t, id, a) == AddRow(DeleteRow(t, id), id, a)
  {
  }

  /** The sequence sketched in the comment at the end of `db_ops.py`, on a
      database file created by this run: add "1", list the table, add "1"
      again, query it, update "1" and the missing "2", query "1", delete "1"
      twice and query it once more. `committed` holds what each add, update
      and delete reported, in order; `listed` what the listing returned;
      `found` what the three queries returned; `remaining` the table at the
      end. */
  method ExercisedSequence()
    returns (committed: seq<bool>, listed: seq<Vlan>, found: seq<Option<Vlan>>, remaining: VlanTable)
    ensures committed == [true, false, true, false, true, false]
    ensures listed == [Vlan("1", "user", DefaultDescription)]
    ensures found == [Some(Vlan("1", "user", DefaultDescription)), Some(Vlan("1", "pepe", DefaultDescription)), None]
    ensures remaining == map[]
  {
    var db := new VlanDatabase(map[], map[]);
    var added := db.AddVlan("1", "user");
    assert db.vlans == map["1" := VlanAttrs("user", DefaultDescription)];
    listed := db.QueryAllVlan();
    assert |listed| == 1 && listed[0] in listed;
    var again := db.AddVlan("1", "user");
    var first := db.QueryVlan("1");
    var updated := db.UpdateVlan("1", "pepe");
    var missing := db.UpdateVlan("2", "pepe");
    assert db.vlans.Keys == {"1"};
    var second := db.QueryVlan("1");
    var deleted := db.DeleteVlan("1");
    var deletedAgain := db.DeleteVlan("1");
    var third := db.QueryVlan("1");
    committed := [added, again, updated, missing, deleted, deletedAgain];
    found := [first, second, third];
    remaining := db.vlans;
  }
}
