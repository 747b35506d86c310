/** The decision logic of the sync tool: what `get_device_vlans` makes of the
    parser's records, the placeholder `vlans_difference`, and the branch in
    `sync_device` that decides whether the device is updated.

    Python dictionaries are modelled as lists of key/value entries in
    insertion order, and the two-element lists `[key, value]` that
    `get_device_vlans` builds as pairs. */
module SyncTool {
  import opened Wrappers
  import VlanParser
  import VlanStore

  /** The values these dictionaries hold: strings and booleans. */
  datatype PyValue = Str(s: string) | Bool(b: bool)

  /** One dictionary entry, or the list `[key, value]`. */
  type Entry = (string, PyValue)

  /** A dictionary: its entries in insertion order. */
  type Dict = seq<Entry>

  /** The exception a Python operation raises. */
  datatype PyError = AttributeError(attribute: string)

  /** The dictionary `custom_parser` builds for one record. */
  function RecordDict(r: VlanParser.VlanRecord): Dict {
    [("vlan_id", Str(r.vlanId)), ("vlan_name", Str(r.vlanName))]
  }

  /** The parser's list of records, as dictionaries. */
  function RecordDicts(records: seq<VlanParser.VlanRecord>): (ds: seq<Dict>)
    ensures |ds| == |records|
    ensures forall i :: 0 <= i < |records| ==> ds[i] == RecordDict(records[i])
  {
    seq(|records|, i requires 0 <= i < |records| => RecordDict(records[i]))
  }

  /** `d` has an entry for `key`. */
  predicate HasKey(d: Dict, key: string) {
    exists i :: 0 <= i < |d| && d[i].0 == key
  }

  // ---------------------------------------------------------------------------
  // get_device_vlans
  // ---------------------------------------------------------------------------

  /** The number of entries of all the dictionaries together. */
  function TotalSize(ds: seq<Dict>): nat {
    if ds == [] then 0 else |ds[0]| + TotalSize(ds[1..])
  }

  /** `[[k, v] for x in ds for k, v in x.items()]`. */
  function Flatten(ds: seq<Dict>): (pairs: seq<Entry>)
    ensures |pairs| == TotalSize(ds)
  {
    if ds == [] then [] else ds[0] + Flatten(ds[1..])
  }

  /** The comprehension keeps record order and, inside a record, key order:
      entry `j` of dictionary `i` lands right after the entries of the
      dictionaries before `i`. */
  lemma {:induction false} FlattenAt(ds: seq<Dict>, i: nat, j: nat)
    requires i < |ds| && j < |ds[i]|
    ensures TotalSize(ds[..i]) + j < |Flatten(ds)|
    ensures Flatten(ds)[TotalSize(ds[..i]) + j] == ds[i][j]
  {
    if i > 0 {
      FlattenAt(ds[1..], i - 1, j);
      assert ds[..i][1..] == ds[1..][..i - 1];
      assert ds[..i][0] == ds[0];
    }
  }

  /** A pair is in the list exactly when it is an entry of one of the
      dictionaries: nothing is lost and nothing is made up. */
  lemma {:induction false} FlattenMembers(ds: seq<Dict>)
    ensures forall e :: e in Flatten(ds) <==> exists i :: 0 <= i < |ds| && e in ds[i]
  {
    if ds != [] {
      FlattenMembers(ds[1..]);
      assert forall i :: 1 <= i < |ds| ==> ds[i] == ds[1..][i - 1];
      assert forall e, i :: 0 <= i < |ds| - 1 && e in ds[1..][i] ==> e in ds[i + 1];
    }
  }

  /** For parser output, record `i` gives the pairs at `2i` and `2i + 1`:
      first its identifier, then its name. Nothing else is in the list. */
  lemma {:induction false} FlattenRecords(records: seq<VlanParser.VlanRecord>)
    ensures |Flatten(RecordDicts(records))| == 2 * |records|
    ensures forall i :: 0 <= i < |records| ==>
      && Flatten(RecordDicts(records))[2 * i] == ("vlan_id", Str(records[i].vlanId))
      && Flatten(RecordDicts(records))[2 * i + 1] == ("vlan_name", Str(records[i].vlanName))
  {
    if records != [] {
      var rest := records[1..];
      FlattenRecords(rest);
      assert RecordDicts(records)[1..] == RecordDicts(rest);
      var f := Flatten(RecordDicts(records));
      assert f == RecordDict(records[0]) + Flatten(RecordDicts(rest));
      forall i | 1 <= i < |records|
        ensures f[2 * i] == ("vlan_id", Str(records[i].vlanId))
        ensures f[2 * i + 1] == ("vlan_name", Str(records[i].vlanName))
      {
        assert records[i] == rest[i - 1];
        assert f[2 * i] == Flatten(RecordDicts(rest))[2 * (i - 1)];
      }
    }
  }

  /** `get_device_vlans` as written: when the list is empty it logs a message
      built from `device.name`, but the device is a dictionary, which has no
      attribute `name`, so the call raises instead of returning `None`. */
  function GetDeviceVlansAsWritten(vlansDevice: seq<Dict>): (r: Result<Option<seq<Entry>>, PyError>)
    ensures r.Err? <==> |vlansDevice| == 0
    ensures r.Ok? ==> r.value.Some? && |r.value.value| == TotalSize(vlansDevice)
  {
    if |vlansDevice| == 0 then Err(AttributeError("name")) else Ok(Some(Flatten(vlansDevice)))
  }

  /** An empty parse makes the written code raise, so it never returns the
      `None` its early `return` is there for. */
  lemma EmptyParseRaises()
    ensures GetDeviceVlansAsWritten([]) == Err(AttributeError("name"))
    ensures forall ds :: GetDeviceVlansAsWritten(ds) != Ok(None)
  {
  }

  /** `get_device_vlans` as intended: `None` for an empty list (logged, not
      an error), otherwise the flattened `[key, value]` pairs. */
  function GetDeviceVlans(vlansDevice: seq<Dict>): (r: Option<seq<Entry>>)
    ensures r.None? <==> |vlansDevice| == 0
    ensures r.Some? ==> |r.value| == TotalSize(vlansDevice)
    ensures r.Some? ==> forall e :: e in r.value <==> exists i :: 0 <= i < |vlansDevice| && e in vlansDevice[i]
  {
    if |vlansDevice| == 0 then None
    else
      FlattenMembers(vlansDevice);
      Some(Flatten(vlansDevice))
  }

  /** On the parser's records the result has two pairs per record,
      `["vlan_id", id]` then `["vlan_name", name]`, or is `None` when there
      are no records. */
  lemma GetDeviceVlansOfRecords(records: seq<VlanParser.VlanRecord>)
    ensures GetDeviceVlans(RecordDicts(records)).None? <==> records == []
    ensures records != [] ==>
      var pairs := GetDeviceVlans(RecordDicts(records)).value;
      && |pairs| == 2 * |records|
      && forall i :: 0 <= i < |records| ==>
           pairs[2 * i] == ("vlan_id", Str(records[i].vlanId))
           && pairs[2 * i + 1] == ("vlan_name", Str(records[i].vlanName))
  {
    FlattenRecords(records);
  }

  // ---------------------------------------------------------------------------
  // vlans_difference and sync_device
  // ---------------------------------------------------------------------------

  const OperationType := "add/remove/update"

  /** The fields both placeholder changes share: the operation type and a
      VLAN with identifier "1" named "name". */
  predicate PlaceholderChange(d: Dict) {
    && ("operation_type", Str(OperationType)) in d
    && ("vlan_id", Str("1")) in d
    && ("vlan_name", Str("name")) in d
  }

  /** `vlans_difference`: a placeholder that ignores both lists and returns
      the same two changes: one for the device named "xxx" without a
      description, one for the database with the default description. */
  function VlansDifference(vlansDb: seq<VlanStore.Vlan>, vlansDevice: Option<seq<Entry>>): (diff: seq<Dict>)
    ensures |diff| == 2
    ensures ("device", Bool(true)) in diff[0] && ("dev_name", Str("xxx")) in diff[0]
    ensures !HasKey(diff[0], "vlan_description")
    ensures ("device", Bool(false)) in diff[1] && ("dev_name", Str("database")) in diff[1]
    ensures ("vlan_description", Str(VlanStore.DefaultDescription)) in diff[1]
    ensures PlaceholderChange(diff[0]) && PlaceholderChange(diff[1])
  {
    [ [("device", Bool(true)), ("dev_name", Str("xxx")), ("operation_type", Str(OperationType)),
       ("vlan_id", Str("1")), ("vlan_name", Str("name"))],
      [("device", Bool(false)), ("dev_name", Str("database")), ("operation_type", Str(OperationType)),
       ("vlan_id", Str("1")), ("vlan_name", Str("name")), ("vlan_description", Str(VlanStore.DefaultDescription))] ]
  }

  /** The result does not depend on the arguments. */
  lemma VlansDifferenceIgnoresInputs(db1: seq<VlanStore.Vlan>, dev1: Option<seq<Entry>>,
                                     db2: seq<VlanStore.Vlan>, dev2: Option<seq<Entry>>)
    ensures VlansDifference(db1, dev1) == VlansDifference(db2, dev2)
  {
  }

  /** What `sync_device` does with a device: hand the changes to
      `update_vlans` and log "updated", or log "in sync". */
  datatype SyncOutcome = Updated(changes: seq<Dict>) | InSync

  /** `sync_device` as written, given the records the device's output
      parsed into (an unreachable device gives none). An empty parse makes
      `get_device_vlans` raise, so neither branch is reached; otherwise the
      device is updated exactly when the difference list is not empty, with
      that list as the changes. */
  function SyncDeviceAsWritten(vlansDb: seq<VlanStore.Vlan>, parsed: seq<VlanParser.VlanRecord>)
    : (r: Result<SyncOutcome, PyError>)
    ensures r.Err? <==> parsed == []
    ensures r.Err? ==> r.error == AttributeError("name")
    ensures r.Ok? ==>
      var diff := VlansDifference(vlansDb, Some(Flatten(RecordDicts(parsed))));
      && (r.value.Updated? <==> |diff| != 0)
      && (r.value.Updated? ==> r.value.changes == diff)
  {
    match GetDeviceVlansAsWritten(RecordDicts(parsed))
    case Err(e) => Err(e)
    case Ok(vlansDevice) =>
      var diff := VlansDifference(vlansDb, vlansDevice);
      Ok(if |diff| != 0 then Updated(diff) else InSync)
  }

  /** As written, an empty parse raises and any other parse takes the
      "updated" branch with the two placeholder changes. */
  lemma SyncDeviceAsWrittenOutcome(vlansDb: seq<VlanStore.Vlan>, parsed: seq<VlanParser.VlanRecord>)
    ensures parsed == [] ==> SyncDeviceAsWritten(vlansDb, parsed) == Err(AttributeError("name"))
    ensures parsed != [] ==> SyncDeviceAsWritten(vlansDb, parsed) == Ok(Updated(VlansDifference([], None)))
  {
  }

  /** `sync_device` as intended, on the corrected `get_device_vlans`: the
      device is updated exactly when the difference list is not empty, with
      that list as the changes. */
  function SyncDevice(vlansDb: seq<VlanStore.Vlan>, parsed: seq<VlanParser.VlanRecord>): (outcome: SyncOutcome)
    ensures
      var diff := VlansDifference(vlansDb, GetDeviceVlans(RecordDicts(parsed)));
      && (outcome.Updated? <==> |diff| != 0)
      && (outcome.Updated? ==> outcome.changes == diff)
  {
    var vlansDevice := GetDeviceVlans(RecordDicts(parsed));
    var diff := VlansDifference(vlansDb, vlansDevice);
    if |diff| != 0 then Updated(diff) else InSync
  }

  /** The two agree whenever the written code does not raise. */
  lemma SyncDeviceAgrees(vlansDb: seq<VlanStore.Vlan>, parsed: seq<VlanParser.VlanRecord>)
    requires parsed != []
    ensures SyncDeviceAsWritten(vlansDb, parsed) == Ok(SyncDevice(vlansDb, parsed))
  {
  }

  /** With the placeholder difference every device takes the "updated"
      branch of the intended code, whatever the database and the device
      report, with the same two changes. */
  lemma SyncDeviceAlwaysUpdates(vlansDb: seq<VlanStore.Vlan>, parsed: seq<VlanParser.VlanRecord>)
    ensures SyncDevice(vlansDb, parsed).Updated?
    ensures SyncDevice(vlansDb, parsed).changes == VlansDifference([], None)
  {
  }
}
