# vlan_sync in Dafny

A model of the core of `vlan_sync`. This tool polls network switches for their
VLANs, compares them with a VLAN database and pushes the differences. The model
covers four parts:

- **Output parser** (`vlan_parser.dfy`, module `VlanParser`): `custom_parser`
  turns the text of `show vlan` on `cisco_ios` into `{vlan_id, vlan_name}`
  records, one per line that matches `^(\d+)\s+(\S+)\s+\S+.*$`.
  - The regular expression is modelled twice. `Shaped`/`LineMatches` is the
    declarative form: the line is cut into five pieces of the right classes.
    `MatchLine` is the scanning form, built from maximal runs. They are proved
    to agree, and the match is proved unique.
  - `CustomParser` is the loop of the source. It is proved equal to the
    recursive `Parse`, whose order, completeness and line-by-line behaviour
    are proved as lemmas.
- **VLAN database** (`vlan_store.dfy`, module `VlanStore`): the `vlans` and
  `vlans_per_device` tables, and the add, delete, update and query
  operations.
  - A table is a map from its primary key to the rest of the row.
  - `VlanDatabase` is an object whose methods change the `vlans` map in place.
    Each method is tied to a function (`AddRow`, `DeleteRow`, `UpdateRow`,
    `Lookup`) that states what it does to the table's contents.
  - Duplicate inserts, missing deletes and missing updates change nothing and
    are reported to the caller.
- **Sync decisions** (`sync_tool.dfy`, module `SyncTool`):
  - the post-processing in `get_device_vlans`, which flattens the records into
    `[key, value]` pairs;
  - the placeholder `vlans_difference`;
  - the branch in `sync_device`.
  - `get_device_vlans` and `sync_device` are each modelled twice: as written,
    where an empty parse raises, and as evidently intended (see Findings).
- **Inventory** (`inventory.dfy`, module `Inventory`): `load_inventory`,
  `get_source`, `add_devices_per_source` and `validate_device`.
  - A host mapping is an object (`Host`), because `add_devices_per_source`
    writes the credentials into the very mapping it keeps.
  - What the YAML loader read from each file is an input value. Loading
    builds fresh host objects.
  - `validate_device` returns the device, so the check that uses it
    (`ValidateDevice`, inside `AddDevicesPerSource`) keeps exactly the
    non-empty mappings.
  - The credentials (`USERNAME`/`PASSWORD`, possibly unset, i.e. `None`) are
    parameters.
  - The constructor as written runs `load_inventory` before it sets `logger`,
    `userid` and `passwd`. That version is modelled on values
    (`InventoryAsWritten`) and is proved never to assemble a device. The
    loading operations above are the intended version, with the attributes
    set first (see Findings).

`wrappers.dfy` holds `Option` and `Result`. An exception that escapes a Python
function is an `Err` value here.

Where a reader might expect otherwise, the model follows the code:

- `query_all_vlan` returns the rows in no fixed order, since no `ORDER BY` is
  given, not in insertion order.
- `vlans_per_device` is keyed by the device alone, not by device and VLAN.
- `vlans_difference` is the fixed two-entry placeholder of the code, not a
  difference algorithm.

## Model

| member | source | states |
|---|---|---|
| VlanParser.MatchLine | etc/device_ops.py:44-48 | The match of one line, by scanning maximal runs. A record's id and name leave room in the line for both separators and the third token. Its agreement with the pattern is `MatchLineIffMatches`, its uniqueness `MatchLineOfShaped`, its fields `MatchLineFields`. |
| VlanParser.MatchLineIffMatches | etc/device_ops.py:44-47 | A line (text without a line feed, as every piece of the split is) yields a record exactly when the pattern `^(\d+)\s+(\S+)\s+\S+.*$` matches it (both directions). |
| VlanParser.MatchLineOfShaped | etc/device_ops.py:44-48 | Whatever cut of the line fits the pattern, the record holds group 1 as `vlan_id` and group 2 as `vlan_name`, so the match is unique. |
| VlanParser.MatchLineShaped | etc/device_ops.py:44-48 | A record that is found comes from a cut of the line that fits the pattern, with the record's id and name as its groups. |
| VlanParser.MatchLineFields | etc/device_ops.py:44-48 | A record's id is a non-empty run of digits that opens the line and is followed by white space; its name is a non-empty token without white space. |
| VlanParser.SplitLines | etc/device_ops.py:43 | `split("\n")` always gives at least one piece, and no piece holds a line feed. |
| VlanParser.JoinSplitLines | etc/device_ops.py:43 | Joining the pieces with line feeds gives back the output. |
| VlanParser.SplitLinesOfLine | etc/device_ops.py:43 | Text without a line feed splits into itself alone. |
| VlanParser.SplitLinesConcat | etc/device_ops.py:43 | Splitting `a + "\n" + b` gives the pieces of `a` followed by those of `b`. |
| VlanParser.ParseLines | etc/device_ops.py:45-48 | The records of a list of lines, in line order: at most one per line. Its order and completeness are `MatchingLinesShape`, `MatchingLinesRecords` and `MatchingLinesComplete`. |
| VlanParser.Parse | etc/device_ops.py:41-51 | What `custom_parser` returns: at most one record per line of the split output. Other command/device-type pairs give nothing (`ParseUnsupported`); the loop is proved equal to it (`CustomParser`). |
| VlanParser.ParseLinesAppend | etc/device_ops.py:45-48 | The records of two runs of lines are the records of the first followed by those of the second. |
| VlanParser.ParseLinesSnoc | etc/device_ops.py:45-48 | One more line appends that line's record, if it has one, and nothing else. |
| VlanParser.CustomParser | etc/device_ops.py:31-51 | The loop returns exactly the records `Parse` gives: those of the matching lines, in line order, for `show vlan` on `cisco_ios`; nothing otherwise. |
| VlanParser.MatchingLinesShape | etc/device_ops.py:45-48 | There is one matching-line index per record, every index is a line, and the indices strictly increase. |
| VlanParser.MatchingLinesRecords | etc/device_ops.py:45-48 | Record `k` is the record of the `k`-th matching line: records keep line order and are never merged. |
| VlanParser.MatchingLinesComplete | etc/device_ops.py:45-48 | No matching line is dropped. |
| VlanParser.ParseUnsupported | etc/device_ops.py:42-51 | Any command/device-type pair other than `show vlan`/`cisco_ios` gives the empty list, not an error. |
| VlanParser.ParseBound | etc/device_ops.py:41-48 | There is at most one record per line of the output. |
| VlanParser.ParseConcat | etc/device_ops.py:43-48 | Parsing two texts joined by a line feed parses each one in turn. |
| VlanParser.ParseOneLine | etc/device_ops.py:43-48 | A single line gives its record if the pattern matches it, and nothing otherwise. |
| VlanParser.NoLeadingDigit | etc/device_ops.py:44-47 | A line that does not open with a digit gives nothing. |
| VlanParser.SampleNonRows | etc/device_ops.py:54-57 | The exact prompt line, blank line, column header and dash line that open the sample output give nothing. |
| VlanParser.SampleTruncatedRow | etc/device_ops.py:44-47 | A row that stops after the name gives nothing, because the third token is required. |
| VlanParser.SampleStatusRow | etc/device_ops.py:58 | The sample status-table row for VLAN 1, with its padding and port list, gives `("1", "default")`. |
| VlanParser.SampleTypeRow | etc/device_ops.py:74 | The sample type-table row for VLAN 1 also gives a record, `("1", "enet")`, with the type taken as the name. |
| VlanParser.ParseTwoRows | etc/device_ops.py:41-48 | Two matching lines give both records in order, even with the same id. |
| VlanStore.AddRow | etc/db_ops.py:36-49 | An insert adds the row for a new id and keeps every other row. A duplicate id violates the primary key and leaves the table as it was. |
| VlanStore.DeleteRow | etc/db_ops.py:52-64 | A delete removes only the row with that id; a missing id changes nothing. |
| VlanStore.UpdateRow | etc/db_ops.py:67-80 | An update sets the name and description of an existing row and keeps its id and every other row. It never inserts. |
| VlanStore.Lookup | etc/db_ops.py:83-93 | A query finds a row exactly when the id is in the table, and the row it finds is that id's row. |
| VlanStore.VlanDatabase.constructor | etc/db_ops.py:110-120 | Opening the database file gives tables holding whatever earlier runs left in them, since the file persists and `create_all` only creates missing tables. Both are empty on the first run. |
| VlanStore.VlanDatabase.AddVlan | etc/db_ops.py:36-49 | `vlans` becomes `AddRow` of the old table, with `change_me` as the default description. The result says whether the id was new (committed, as opposed to the integrity error). |
| VlanStore.VlanDatabase.DeleteVlan | etc/db_ops.py:52-64 | `vlans` becomes `DeleteRow` of the old table. The result says whether a row was there, as opposed to the unmapped-instance path. |
| VlanStore.VlanDatabase.UpdateVlan | etc/db_ops.py:67-80 | `vlans` becomes `UpdateRow` of the old table. The result says whether the row was found. |
| VlanStore.VlanDatabase.QueryVlan | etc/db_ops.py:83-93 | Returns the row with that id exactly when it exists, and none otherwise. |
| VlanStore.VlanDatabase.QueryAllVlan | etc/db_ops.py:96-107 | Returns every row exactly once and nothing else, so the list is as long as the table and empty when the table is empty. |
| VlanStore.AddRowIdempotent | etc/db_ops.py:36-49 | Adding the same id twice equals adding it once, whatever the second name. |
| VlanStore.DeleteRowIdempotent | etc/db_ops.py:52-64 | Deleting the same id twice equals deleting it once. |
| VlanStore.LookupAfterAdd | etc/db_ops.py:36-49 | A query after an add finds the old row, or the new one when the id was new. |
| VlanStore.LookupAfterUpdate | etc/db_ops.py:67-80 | A query after an update finds the new values exactly when the row existed. |
| VlanStore.DeleteUndoesAdd | etc/db_ops.py:36-64 | Adding a new id and deleting it restores the table. |
| VlanStore.UpdateIsDeleteThenAdd | etc/db_ops.py:36-80 | Updating an existing row equals deleting it and adding the new row. |
| VlanStore.ExercisedSequence | etc/db_ops.py:123-133 | On a fresh database file, the adds, updates and deletes of the commented sequence report `true, false, true, false, true, false`; the listing gives the one row; the queries find `user`, then `pepe`, then nothing; the table ends empty. |
| SyncTool.RecordDicts | etc/device_ops.py:48 | One `{vlan_id, vlan_name}` dictionary per record, in record order. |
| SyncTool.Flatten | vlan_sync_tool.py:73 | The flattened list has one pair per entry of the dictionaries. |
| SyncTool.FlattenAt | vlan_sync_tool.py:73 | Entry `j` of dictionary `i` sits at the position after all entries of the earlier dictionaries. |
| SyncTool.FlattenMembers | vlan_sync_tool.py:73 | A pair is in the flattened list exactly when it is an entry of one of the dictionaries. |
| SyncTool.FlattenRecords | vlan_sync_tool.py:73 | Parser records flatten to `["vlan_id", id]` followed by `["vlan_name", name]` for each record. |
| SyncTool.GetDeviceVlansAsWritten | vlan_sync_tool.py:69-74 | As written, an empty list raises `AttributeError` (from `device.name` on a dictionary); otherwise the result is the flattened pairs. |
| SyncTool.EmptyParseRaises | vlan_sync_tool.py:69-72 | As written, the function never returns `None`. |
| SyncTool.GetDeviceVlans | vlan_sync_tool.py:69-74 | As intended: `None` exactly for an empty list; otherwise one pair per dictionary entry and no other pairs. |
| SyncTool.GetDeviceVlansOfRecords | vlan_sync_tool.py:69-74 | On parser records: `None` exactly when there are none; otherwise two pairs per record, in order. |
| SyncTool.VlansDifference | vlan_sync_tool.py:77-90 | Two fixed changes: one for device `xxx` without a description, and one for the database with description `change_me`. |
| SyncTool.VlansDifferenceIgnoresInputs | vlan_sync_tool.py:77-90 | The result does not depend on the database or the device list. |
| SyncTool.SyncDeviceAsWritten | vlan_sync_tool.py:93-103 | As written: it raises `AttributeError` exactly when the parse is empty. Otherwise the device is updated exactly when the difference list is non-empty, with that list as the changes. |
| SyncTool.SyncDeviceAsWrittenOutcome | vlan_sync_tool.py:93-103 | As written: an empty parse raises before either branch, and any other parse takes the "updated" branch with the two placeholder changes. |
| SyncTool.SyncDevice | vlan_sync_tool.py:93-103 | As intended: the device is updated exactly when the difference list is non-empty, with that list as the changes; otherwise it is in sync. |
| SyncTool.SyncDeviceAgrees | vlan_sync_tool.py:93-103 | When the parse is not empty, the written code returns the intended outcome. |
| SyncTool.SyncDeviceAlwaysUpdates | vlan_sync_tool.py:93-103 | As intended: every device takes the "updated" branch with the two placeholder changes, so the "in sync" branch is unreachable. |
| Inventory.Host.constructor | etc/inventory.py:32 | A loaded host mapping holds what the file gave for it. |
| Inventory.ValidateDevice | etc/inventory.py:52-54 | The stub hands back the very device it was given, so the test at line 43 is the truthiness of that host's own mapping. |
| Inventory.AfterAdd | etc/inventory.py:43-46 | The mapping after `add_devices_per_source` has seen it: every key is kept, and it is non-empty exactly when it was. The credentials it holds are `AfterAddSpec`. |
| Inventory.AfterAddSpec | etc/inventory.py:43-46 | An accepted (non-empty) host gets `username` and `password` and keeps every other key. A rejected (empty) one is unchanged. |
| Inventory.AfterAddIdempotent | etc/inventory.py:43-46 | Stamping a host twice equals stamping it once. |
| Inventory.Accepted | etc/inventory.py:40-50 | At most as many hosts come out as went in. |
| Inventory.AcceptedMembers | etc/inventory.py:40-50 | A mapping is returned exactly when it is the stamped form of a non-empty input host. |
| Inventory.AcceptedCredentials | etc/inventory.py:43-46 | Every returned host carries the given credentials. |
| Inventory.AcceptedAllValid | etc/inventory.py:40-50 | When every host is non-empty, all are kept, stamped, in order. |
| Inventory.AcceptedAppend | etc/inventory.py:31-34 | Hosts of consecutive files are accepted file by file and concatenated, as `extend` does. |
| Inventory.Select | etc/inventory.py:41-46 | The kept list is no longer than the host list. |
| Inventory.SelectMembers | etc/inventory.py:41-46 | A host is kept exactly when it is listed and valid. |
| Inventory.AddDevicesPerSource | etc/inventory.py:40-50 | Keeps, in order, the hosts that were non-empty on entry. Every host's mapping becomes its stamped form, in place. |
| Inventory.SelectFields | etc/inventory.py:40-50 | After the in-place pass, the mappings of the kept objects are `Accepted` of the mappings before it. |
| Inventory.LoadHosts | etc/inventory.py:32 | Loading builds one fresh mapping per listed host, holding that host's data. |
| Inventory.AppendLoadedDevices | etc/inventory.py:32-34 | The list grows by the accepted hosts of one file. The devices already in it are untouched. |
| Inventory.AddFileDevices | etc/inventory.py:31-34 | For one file, an empty file adds nothing. A file without `hosts` raises. Any other file appends its accepted hosts. |
| Inventory.FileListDevices | etc/inventory.py:30-34 | The `file_list` loop gives `SourceDevices`: the accepted hosts of all files in order, or the error of the first file without `hosts`. |
| Inventory.GetSource | etc/inventory.py:25-38 | `file_list` gives the devices of its files. `remote_api_urls` and unknown kinds give the empty list. It fails exactly when `SourceDevices` does. |
| Inventory.SourceDevices | etc/inventory.py:25-38 | What `get_source` returns: only a `file_list` source can fail, and only with the `KeyError` for `hosts`; it gives no more mappings than its files list. Its loop is `FileListDevices`. |
| Inventory.OtherSourcesEmpty | etc/inventory.py:25-38 | A kind other than `file_list` contributes nothing and never fails. |
| Inventory.FileListFails | etc/inventory.py:30-34 | A `file_list` source fails exactly when one of its files lacks `hosts`. |
| Inventory.EmptyFileSkipped | etc/inventory.py:33 | An empty file changes nothing. |
| Inventory.LoadedFileAppended | etc/inventory.py:33-34 | A further file with hosts appends its accepted hosts. |
| Inventory.LoadInventory | etc/inventory.py:19-23 | The loop gives `InventoryDevices`: the empty result with no sources, otherwise the last source's devices. It fails as soon as a source does. |
| Inventory.InventoryDevices | etc/inventory.py:19-23 | What `load_inventory` returns: the only error is the `KeyError` for `hosts`, and the result is `None` exactly when there are no sources. Its loop is `LoadInventory`. |
| Inventory.InventoryFails | etc/inventory.py:19-23 | The load fails exactly when one of the sources does. |
| Inventory.LastSourceWins | etc/inventory.py:19-23 | When nothing fails, only the last source's devices are returned; earlier sources are dropped. |
| Inventory.RemoteAfterFilesGivesNothing | etc/inventory.py:19-29 | With `remote_api_urls` listed after `file_list`, the file hosts are discarded and the inventory is empty. |
| Inventory.HostsAsWritten | etc/inventory.py:40-48 | During construction, the first host raises `AttributeError`: an accepted one reads the unset `userid`, a rejected one the unset `logger`. Only an empty host list gets through, contributing nothing. |
| Inventory.FilesAsWritten | etc/inventory.py:30-34 | The `file_list` loop during construction: any error is the `KeyError` for `hosts` or an unset `userid` or `logger`. When it gets through is `FilesAsWrittenEmpty`. |
| Inventory.SourceDevicesAsWritten | etc/inventory.py:25-38 | `get_source` during construction: any error is the `KeyError` for `hosts` or an unset `userid` or `logger`; an unknown kind raises on `logger`. |
| Inventory.InventoryAsWritten | etc/inventory.py:9-23 | `Inventory(...)` as written, loading before the attributes are set: any error is the `KeyError` or an unset `userid` or `logger`, and the result is `None` exactly when there are no sources. That it never assembles a device is `InventoryAsWrittenNoDevices`. |
| Inventory.FilesAsWrittenEmpty | etc/inventory.py:30-34 | During construction, a `file_list` source gets through exactly when every file is empty or lists no hosts, and it then contributes nothing. |
| Inventory.InventoryAsWrittenNoDevices | etc/inventory.py:9-14 | The constructor as written either raises or ends with an empty device list: it never assembles a device. |
| Inventory.OneHostRaises | etc/inventory.py:9-14 | One file listing one switch makes the written constructor raise on `userid`, while the intended load returns that switch with the credentials. |

## Left out

- `run_cmd` (etc/device_ops.py:5-27) is not modelled. Its SSH session, the command it sends and its connection errors are network I/O. The parser takes the command output as a parameter, and an unreachable device is an empty record list. The `name` key it pops and does not restore on the error path is therefore not modelled either.
- `sync_vlans` and `main` are not modelled. They are the thread-pool fan-out over devices, argument parsing and configuration loading: concurrency and I/O.
- `update_vlans` comes from `etc.updater`, whose code this model does not cover. `SyncDevice` and `SyncDeviceAsWritten` stop at the list of changes it would be handed.
- The SQLite engine, `commit` versus `flush` and the session's rollback state after an `IntegrityError` are not modelled. The tables are maps, and every operation's effect is immediate. Of `init_db`, only the fact that the tables survive from earlier runs is modelled: they are the constructor's parameters.
- `String(10)`, `String(20)` and `String(50)` column widths are not modelled, since SQLite does not enforce them.
- Logging (`logger_poller`, `logger_orm`, `logger_svc`) is not modelled as output. Where building or sending a log message raises, the exception is modelled: `device.name` at vlan_sync_tool.py:70 (`GetDeviceVlansAsWritten`), and the unset `logger` during inventory construction (`HostsAsWritten`, `SourceDevicesAsWritten`). No other result depends on logging.
- `load_yaml`, `get_config` and the module-level configuration load are file I/O. What each inventory file loaded to is an input value (`InventoryFile`), and reading the `filename` key of a file entry is not modelled.
- `os.getenv` is not modelled: the credentials are parameters of the inventory operations.
- `Inventory.__init__` as written is modelled on values only (`InventoryAsWritten`), without host objects, since it never gets to stamp one. It calls `load_inventory` before it sets `logger`, `userid` and `passwd`. So any source of an unknown kind, and any file with a non-empty `hosts` list, whether its first host is accepted or rejected, makes it raise `AttributeError`. The intended loading operations take the credentials as parameters.
- `Inventory.LoadInventory`: the sources are a list of (kind, files) pairs. In the source they are a dictionary, so a kind appears at most once; the model allows repeats, and then the last entry wins.
- `Inventory.LoadInventory`: the empty `{}` returned with no sources is `None`, not an empty list.
- Non-mapping entries under `hosts` and `hosts: null` are not modelled: every host is a mapping and `hosts` is a list. A falsy non-mapping entry (`0`, `""`, `[]`) would be skipped at etc/inventory.py:43. A truthy one would raise `TypeError` on the credential assignment, and so would `hosts: null` when iterated.
- YAML anchors that alias one mapping under several entries are not modelled. Each loaded host is its own object.
- `\d` and `\s` are ASCII here: the digits 0-9 and space, tab, line feed, carriage return, vertical tab and form feed. Python's Unicode classes are wider.
- `VlanStore.VlanDatabase.QueryAllVlan` does not fix the order of the rows, since the query has no `ORDER BY`.
- `VlanStore.VlanDatabase.AddVlan`, `DeleteVlan` and `UpdateVlan` return whether the change happened. The source only logs it.
- No operation of the source reads or writes the `vlans_per_device` table. The model keeps it as a field keyed by the device alone, set only when the database is opened.

## Findings

| source | as written | input that shows it | evidently intended | confidence | as-written member | corrected member |
|---|---|---|---|---|---|---|
| vlan_sync_tool.py:70 | On an empty list, the log message reads `device.name`. `device` is a dictionary, so this raises `AttributeError` and the `return` on line 72 is never reached. | `get_device_vlans` for a device whose `run_cmd` returns `[]` (an unreachable device, or no matching lines) | Log the empty list and return `None` | not executed | SyncTool.GetDeviceVlansAsWritten (with SyncTool.EmptyParseRaises, SyncTool.SyncDeviceAsWritten, SyncTool.SyncDeviceAsWrittenOutcome) | SyncTool.GetDeviceVlans (used by SyncTool.SyncDevice) |
| etc/inventory.py:9-14 | `__init__` calls `load_inventory` before it sets `logger`, `userid` and `passwd`. An accepted host reads `self.userid` (line 44), a rejected one `self.logger` (line 48), and an unknown source kind `self.logger` (line 36), so each raises `AttributeError`. | `Inventory({"file_list": [...]}, logger)` where one file lists one host, e.g. `hosts: [{host: sw1}]` | Set `logger`, `userid` and `passwd` before loading, so the hosts come back stamped with the credentials | not executed | Inventory.InventoryAsWritten (with Inventory.FilesAsWritten, Inventory.SourceDevicesAsWritten, Inventory.InventoryAsWrittenNoDevices, Inventory.OneHostRaises) | Inventory.LoadInventory (with Inventory.InventoryDevices, Inventory.SourceDevices) |
