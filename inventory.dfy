/** Device-list assembly from the configured inventory sources.

    What the YAML loader read from each file is an input, given as values;
    loading a file builds a fresh mapping for every host it lists, and
    accepting a host writes the credentials into that very mapping, so a
    loaded host is an object (`Host`) whose `fields` are updated in place.
    The credentials, which the source reads from the environment, are
    parameters. */
module Inventory {
  import opened Wrappers

  /** The source kinds the inventory knows about. */
  const FileList := "file_list"
  const RemoteApiUrls := "remote_api_urls"

  /** A YAML scalar in a host mapping, or the `None` that `os.getenv` gives
      for an unset variable. */
  datatype Value = Text(text: string) | Number(n: int) | Flag(b: bool) | Null

  /** The contents of one host mapping. */
  type Fields = map<string, Value>

  /** One host mapping, as the loader built it. */
  class Host {
    var fields: Fields

    constructor (fields: Fields)
      ensures this.fields == fields
    {
      this.fields := fields;
    }
  }

  /** What the loader gave for one file listed under `file_list`: the empty
      mapping (which it also gives for an unreadable or non-mapping file), or
      a non-empty mapping with the host list under its `hosts` key, `None`
      when that key is missing. */
  datatype InventoryFile = Empty | Loaded(hosts: Option<seq<Fields>>)

  /** The exceptions that escape: a non-empty file without a `hosts` key
      (the lookup `devices["hosts"]` raises `KeyError`), and, while the
      inventory object is still being constructed, a read of an attribute
      the constructor has not set yet (`AttributeError`). */
  datatype InventoryError = MissingHosts | AttributeUnset(attribute: string)

  /** One entry of the inventory configuration: the source kind and, for
      `file_list`, what each of its files loaded to. */
  type Source = (string, seq<InventoryFile>)

  // ---------------------------------------------------------------------------
  // One host
  // ---------------------------------------------------------------------------

  /** A Python mapping is true exactly when it is not empty. */
  predicate Truthy(f: Fields) {
    |f| > 0
  }

  /** `validate_device`, a stub that hands the device back, so the test
      that uses it asks only whether the mapping is non-empty. */
  function ValidateDevice(device: Host): (r: Host)
    ensures r == device
  {
    device
  }

  /** The mapping a host has once `add_devices_per_source` has seen it. */
  function AfterAdd(f: Fields, user: Value, password: Value): (g: Fields)
    ensures f.Keys <= g.Keys
    ensures Truthy(g) == Truthy(f)
  {
    if Truthy(f) then f["username" := user]["password" := password] else f
  }

  /** An accepted host gets the credentials under `username` and `password`
      and keeps every other key; a rejected one is left alone; either way
      the mapping stays non-empty exactly when it was. */
  lemma AfterAddSpec(f: Fields, user: Value, password: Value)
    ensures Truthy(AfterAdd(f, user, password)) == Truthy(f)
    ensures Truthy(f) ==> AfterAdd(f, user, password).Keys == f.Keys + {"username", "password"}
    ensures Truthy(f) ==> AfterAdd(f, user, password)["username"] == user
    ensures Truthy(f) ==> AfterAdd(f, user, password)["password"] == password
    ensures forall k :: k in f && k != "username" && k != "password" ==>
      k in AfterAdd(f, user, password) && AfterAdd(f, user, password)[k] == f[k]
    ensures !Truthy(f) ==> AfterAdd(f, user, password) == f
  {
  }

  /** Seeing a host a second time changes nothing more. */
  lemma AfterAddIdempotent(f: Fields, user: Value, password: Value)
    ensures AfterAdd(AfterAdd(f, user, password), user, password) == AfterAdd(f, user, password)
  {
    AfterAddSpec(f, user, password);
  }

  // ---------------------------------------------------------------------------
  // add_devices_per_source on values
  // ---------------------------------------------------------------------------

  /** The host mappings `add_devices_per_source` returns for hosts that
      start out as `fs`: the non-empty ones, stamped, in their order. */
  function Accepted(fs: seq<Fields>, user: Value, password: Value): (kept: seq<Fields>)
    ensures |kept| <= |fs|
  {
    if fs == [] then []
    else
      var last := fs[|fs| - 1];
      Accepted(fs[..|fs| - 1], user, password) + if Truthy(last) then [AfterAdd(last, user, password)] else []
  }

  /** A mapping is returned exactly when it is a non-empty host of the input,
      stamped: no host is lost and none is made up. */
  lemma {:induction false} AcceptedMembers(fs: seq<Fields>, user: Value, password: Value)
    ensures forall g :: g in Accepted(fs, user, password) <==>
      exists f :: f in fs && Truthy(f) && g == AfterAdd(f, user, password)
  {
    if fs != [] {
      var init := fs[..|fs| - 1];
      AcceptedMembers(init, user, password);
      assert fs == init + [fs[|fs| - 1]];
    }
  }

  /** Every returned mapping is non-empty and carries the credentials. */
  lemma AcceptedCredentials(fs: seq<Fields>, user: Value, password: Value)
    ensures forall g :: g in Accepted(fs, user, password) ==>
      Truthy(g) && "username" in g && g["username"] == user && "password" in g && g["password"] == password
  {
    AcceptedMembers(fs, user, password);
  }

  /** Hosts that are all non-empty are all kept, in their order. */
  lemma {:induction false} AcceptedAllValid(fs: seq<Fields>, user: Value, password: Value)
    requires forall i :: 0 <= i < |fs| ==> Truthy(fs[i])
    ensures |Accepted(fs, user, password)| == |fs|
    ensures forall i :: 0 <= i < |fs| ==> Accepted(fs, user, password)[i] == AfterAdd(fs[i], user, password)
  {
    if fs != [] {
      AcceptedAllValid(fs[..|fs| - 1], user, password);
    }
  }

  /** The hosts of two lists, accepted together, are those of the first
      followed by those of the second. */
  lemma {:induction false} AcceptedAppend(a: seq<Fields>, b: seq<Fields>, user: Value, password: Value)
    ensures Accepted(a + b, user, password) == Accepted(a, user, password) + Accepted(b, user, password)
  {
    if b != [] {
      var init := b[..|b| - 1];
      AcceptedAppend(a, init, user, password);
      assert (a + b)[..|a + b| - 1] == a + init;
      assert (a + b)[|a + b| - 1] == b[|b| - 1];
    } else {
      assert a + b == a;
    }
  }

  // ---------------------------------------------------------------------------
  // add_devices_per_source on the host objects
  // ---------------------------------------------------------------------------

  /** The hosts of `hosts` that are in `valid`, in their order. */
  function Select(hosts: seq<Host>, valid: set<Host>): (kept: seq<Host>)
    ensures |kept| <= |hosts|
  {
    if hosts == [] then []
    else
      var last := hosts[|hosts| - 1];
      Select(hosts[..|hosts| - 1], valid) + if last in valid then [last] else []
  }

  /** A host is kept exactly when it is in the list and valid. */
  lemma {:induction false} SelectMembers(hosts: seq<Host>, valid: set<Host>)
    ensures forall h :: h in Select(hosts, valid) <==> h in hosts && h in valid
  {
    if hosts != [] {
      var init := hosts[..|hosts| - 1];
      SelectMembers(init, valid);
      assert hosts == init + [hosts[|hosts| - 1]];
    }
  }

  /** The listed hosts whose mappings are non-empty right now. */
  function TruthyHosts(hosts: seq<Host>): set<Host>
    reads set h | h in hosts
  {
    set h | h in hosts && Truthy(h.fields)
  }

  /** The current mappings of the listed hosts. */
  function FieldsOf(hosts: seq<Host>): (fs: seq<Fields>)
    reads set h | h in hosts
    ensures |fs| == |hosts|
    ensures forall i :: 0 <= i < |hosts| ==> fs[i] == hosts[i].fields
  {
    if hosts == [] then [] else FieldsOf(hosts[..|hosts| - 1]) + [hosts[|hosts| - 1].fields]
  }

  /** `add_devices_per_source`: keeps, in order, the hosts that
      `validate_device` accepts (the non-empty mappings) and writes the
      credentials into each of them; rejected hosts are left as they were. A
      host listed twice is handled twice, which changes nothing more. */
  method AddDevicesPerSource(hosts: seq<Host>, user: Value, password: Value) returns (kept: seq<Host>)
    modifies set h | h in hosts
    ensures kept == Select(hosts, old(TruthyHosts(hosts)))
    ensures forall h :: h in hosts ==> h.fields == AfterAdd(old(h.fields), user, password)
  {
    ghost var valid := TruthyHosts(hosts);
    kept := [];
    var i := 0;
    while i < |hosts|
      invariant 0 <= i <= |hosts|
      invariant kept == Select(hosts[..i], valid)
      invariant forall h :: h in hosts ==>
        h.fields == if h in hosts[..i] then AfterAdd(old(h.fields), user, password) else old(h.fields)
    {
      var device := hosts[i];
      assert hosts[..i + 1][..i] == hosts[..i];
      assert Select(hosts[..i + 1], valid) == Select(hosts[..i], valid) + if device in valid then [device] else [];
      assert Truthy(device.fields) <==> device in valid;
      if Truthy(ValidateDevice(device).fields) {
        device.fields := device.fields["username" := user]["password" := password];
        kept := kept + [device];
      }
      AfterAddIdempotent(old(device.fields), user, password);
      assert device.fields == AfterAdd(old(device.fields), user, password);
      i := i + 1;
      forall h | h in hosts
        ensures h.fields == if h in hosts[..i] then AfterAdd(old(h.fields), user, password) else old(h.fields)
      {
        assert h in hosts[..i] <==> h in hosts[..i - 1] || h == device;
      }
    }
    assert hosts[..i] == hosts;
  }

  /** What the host objects hold after `add_devices_per_source` is what
      `Accepted` gives for what they held before: each host stamped, the
      valid ones kept. */
  lemma {:induction false} SelectFields(hosts: seq<Host>, valid: set<Host>, fs: seq<Fields>, user: Value, password: Value)
    requires |fs| == |hosts|
    requires forall i :: 0 <= i < |hosts| ==>
      hosts[i].fields == AfterAdd(fs[i], user, password) && (hosts[i] in valid <==> Truthy(fs[i]))
    ensures FieldsOf(Select(hosts, valid)) == Accepted(fs, user, password)
  {
    if hosts != [] {
      var n := |hosts| - 1;
      var init := hosts[..n];
      SelectFields(init, valid, fs[..n], user, password);
      var rest := if hosts[n] in valid then [hosts[n]] else [];
      assert Select(hosts, valid) == Select(init, valid) + rest;
      FieldsOfAppend(Select(init, valid), rest);
      assert FieldsOf(rest) == if Truthy(fs[n]) then [AfterAdd(fs[n], user, password)] else [];
    }
  }

  /** The mappings of two lists of hosts are those of the first followed by
      those of the second. */
  lemma FieldsOfAppend(a: seq<Host>, b: seq<Host>)
    ensures FieldsOf(a + b) == FieldsOf(a) + FieldsOf(b)
  {
    assert forall i :: 0 <= i < |a + b| ==> FieldsOf(a + b)[i] == (FieldsOf(a) + FieldsOf(b))[i];
  }

  // ---------------------------------------------------------------------------
  // One source
  // ---------------------------------------------------------------------------

  /** The host mappings a file lists. */
  function HostsOf(file: InventoryFile): seq<Fields> {
    match file
    case Loaded(Some(hosts)) => hosts
    case _ => []
  }

  /** The host mappings of all the files, in file order. */
  function FileHosts(files: seq<InventoryFile>): seq<Fields> {
    if files == [] then [] else FileHosts(files[..|files| - 1]) + HostsOf(files[|files| - 1])
  }

  /** The index of the first non-empty file without a `hosts` key, or the
      number of files when there is none. */
  function FirstMissing(files: seq<InventoryFile>): (k: nat)
    ensures k <= |files|
    ensures forall j :: 0 <= j < k ==> files[j] != Loaded(None)
    ensures k < |files| ==> files[k] == Loaded(None)
  {
    if files == [] then 0
    else if files[0] == Loaded(None) then 0
    else
      var k := FirstMissing(files[1..]);
      assert forall j :: 1 <= j <= k ==> files[j] == files[1..][j - 1];
      k + 1
  }

  /** What `get_source` returns, as host mappings: nothing for
      `remote_api_urls` and for unknown kinds; for `file_list` the accepted
      hosts of every file in file order, or the `KeyError`. */
  function SourceDevices(sourceType: string, files: seq<InventoryFile>, user: Value, password: Value)
    : (r: Result<seq<Fields>, InventoryError>)
    ensures r.Err? ==> sourceType == FileList && r.error == MissingHosts
    ensures r.Ok? ==> |r.value| <= |FileHosts(files)|
  {
    if sourceType != FileList then Ok([])
    else if FirstMissing(files) < |files| then Err(MissingHosts)
    else Ok(Accepted(FileHosts(files), user, password))
  }

  /** Only `file_list` contributes hosts or raises; every other kind, the
      not yet implemented `remote_api_urls` included, gives nothing. */
  lemma OtherSourcesEmpty(sourceType: string, files: seq<InventoryFile>, user: Value, password: Value)
    requires sourceType != FileList
    ensures SourceDevices(sourceType, files, user, password) == Ok([])
  {
  }

  /** Appending a file that is not a missing-`hosts` file moves the first
      missing one only when there was none. */
  lemma FirstMissingSnoc(files: seq<InventoryFile>, file: InventoryFile)
    requires file != Loaded(None)
    ensures FirstMissing(files + [file]) == if FirstMissing(files) < |files| then FirstMissing(files) else |files| + 1
  {
    var m := FirstMissing(files);
    assert forall j :: 0 <= j < |files| ==> (files + [file])[j] == files[j];
    if m < |files| {
      assert (files + [file])[m] == Loaded(None);
    }
  }

  /** A `file_list` source fails exactly when some file is non-empty but has
      no `hosts` key. */
  lemma FileListFails(files: seq<InventoryFile>, user: Value, password: Value)
    ensures SourceDevices(FileList, files, user, password).Err? <==>
      exists j :: 0 <= j < |files| && files[j] == Loaded(None)
  {
  }

  /** The hosts of the files with one more file appended. */
  lemma FileHostsSnoc(files: seq<InventoryFile>, file: InventoryFile)
    ensures FileHosts(files + [file]) == FileHosts(files) + HostsOf(file)
  {
    assert (files + [file])[..|files|] == files;
  }

  /** A file that loaded to the empty mapping contributes nothing. */
  lemma EmptyFileSkipped(files: seq<InventoryFile>, user: Value, password: Value)
    ensures SourceDevices(FileList, files + [Empty], user, password) == SourceDevices(FileList, files, user, password)
  {
    FirstMissingSnoc(files, Empty);
    FileHostsSnoc(files, Empty);
    assert FileHosts(files) + [] == FileHosts(files);
  }

  /** The accepted hosts of a further file come after those of the files
      before it. */
  lemma LoadedFileAppended(files: seq<InventoryFile>, hosts: seq<Fields>, user: Value, password: Value)
    requires SourceDevices(FileList, files, user, password).Ok?
    ensures SourceDevices(FileList, files + [Loaded(Some(hosts))], user, password)
      == Ok(SourceDevices(FileList, files, user, password).value + Accepted(hosts, user, password))
  {
    FirstMissingSnoc(files, Loaded(Some(hosts)));
    FileHostsSnoc(files, Loaded(Some(hosts)));
    AcceptedAppend(FileHosts(files), hosts, user, password);
  }

  /** Builds a fresh host mapping for each listed host, as loading a file
      does. */
  method LoadHosts(fs: seq<Fields>) returns (hosts: seq<Host>)
    ensures FieldsOf(hosts) == fs
    ensures forall h :: h in hosts ==> fresh(h)
  {
    hosts := [];
    var i := 0;
    while i < |fs|
      invariant 0 <= i <= |fs|
      invariant |hosts| == i
      invariant forall j :: 0 <= j < i ==> hosts[j].fields == fs[j]
      invariant forall h :: h in hosts ==> fresh(h)
    {
      var h := new Host(fs[i]);
      hosts := hosts + [h];
      i := i + 1;
    }
  }

  /** One more file of a `file_list` source that has a `hosts` key (or is
      empty) moves the first missing index on and appends that file's
      accepted hosts. */
  lemma FileListStep(files: seq<InventoryFile>, i: nat, user: Value, password: Value)
    requires i < |files| && i <= FirstMissing(files) && files[i] != Loaded(None)
    ensures i + 1 <= FirstMissing(files)
    ensures Accepted(FileHosts(files[..i + 1]), user, password)
      == Accepted(FileHosts(files[..i]), user, password) + Accepted(HostsOf(files[i]), user, password)
  {
    assert files[..i + 1] == files[..i] + [files[i]];
    FileHostsSnoc(files[..i], files[i]);
    AcceptedAppend(FileHosts(files[..i]), HostsOf(files[i]), user, password);
  }

  /** The devices one loaded file contributes, appended to the list so far:
      its hosts, loaded as fresh mappings, go through
      `add_devices_per_source`, which stamps them in place and returns the
      accepted ones. The devices already in the list are left as they are. */
  method AppendLoadedDevices(devices: seq<Host>, fs: seq<Fields>, user: Value, password: Value)
    returns (all: seq<Host>)
    ensures FieldsOf(all) == old(FieldsOf(devices)) + Accepted(fs, user, password)
    ensures forall h :: h in all ==> h in devices || fresh(h)
  {
    var hosts := LoadHosts(fs);
    ghost var valid := TruthyHosts(hosts);
    assert forall j :: 0 <= j < |hosts| ==> (hosts[j] in valid <==> Truthy(fs[j]));
    var kept := AddDevicesPerSource(hosts, user, password);
    SelectMembers(hosts, valid);
    SelectFields(hosts, valid, fs, user, password);
    forall i | 0 <= i < |devices|
      ensures devices[i].fields == old(devices[i].fields)
    {
      assert devices[i] !in hosts;
    }
    assert FieldsOf(devices) == old(FieldsOf(devices));
    FieldsOfAppend(devices, kept);
    all := devices + kept;
  }

  /** One iteration of `get_source` over a `file_list`: an empty file is
      skipped, a file without `hosts` raises (the `KeyError` of
      `add_devices_per_source`), and the devices of any other file are
      appended. */
  method AddFileDevices(devices: seq<Host>, file: InventoryFile, user: Value, password: Value)
    returns (r: Result<seq<Host>, InventoryError>)
    ensures r.Err? <==> file == Loaded(None)
    ensures r.Ok? ==> FieldsOf(r.value) == old(FieldsOf(devices)) + Accepted(HostsOf(file), user, password)
    ensures r.Ok? ==> forall h :: h in r.value ==> h in devices || fresh(h)
  {
    match file {
      case Empty =>
        assert FieldsOf(devices) + [] == FieldsOf(devices);
        r := Ok(devices);
      case Loaded(None) =>
        r := Err(MissingHosts);
      case Loaded(Some(fs)) =>
        var all := AppendLoadedDevices(devices, fs, user, password);
        r := Ok(all);
    }
  }

  /** The `file_list` branch of `get_source`: the files in turn, each
      appending its devices to the list, until one raises. */
  method FileListDevices(files: seq<InventoryFile>, user: Value, password: Value)
    returns (r: Result<seq<Host>, InventoryError>)
    ensures r.Err? <==> SourceDevices(FileList, files, user, password).Err?
    ensures r.Ok? ==> FieldsOf(r.value) == SourceDevices(FileList, files, user, password).value
    ensures r.Ok? ==> forall h :: h in r.value ==> fresh(h)
  {
    var devicesFullList := [];
    var i := 0;
    while i < |files|
      invariant 0 <= i <= FirstMissing(files)
      invariant FieldsOf(devicesFullList) == Accepted(FileHosts(files[..i]), user, password)
      invariant forall h :: h in devicesFullList ==> fresh(h)
      decreases |files| - i
    {
      var step := AddFileDevices(devicesFullList, files[i], user, password);
      if step.Err? {
        assert FirstMissing(files) == i by {
          assert files[i] == Loaded(None);
        }
        return Err(MissingHosts);
      }
      FileListStep(files, i, user, password);
      devicesFullList := step.value;
      i := i + 1;
    }
    assert files[..i] == files;
    return Ok(devicesFullList);
  }

  /** `get_source`: the devices of a `file_list` source; the other kinds,
      known or not, give the empty list. */
  method GetSource(sourceType: string, files: seq<InventoryFile>, user: Value, password: Value)
    returns (r: Result<seq<Host>, InventoryError>)
    ensures r.Err? <==> SourceDevices(sourceType, files, user, password).Err?
    ensures r.Ok? ==> FieldsOf(r.value) == SourceDevices(sourceType, files, user, password).value
    ensures r.Ok? ==> forall h :: h in r.value ==> fresh(h)
  {
    if sourceType == RemoteApiUrls {
      // Not implemented in the source: contributes nothing.
      assert RemoteApiUrls[0] != FileList[0];
      r := Ok([]);
    } else if sourceType == FileList {
      r := FileListDevices(files, user, password);
    } else {
      r := Ok([]);
    }
  }

  // ---------------------------------------------------------------------------
  // All sources
  // ---------------------------------------------------------------------------

  /** What `load_inventory` returns, as host mappings: `None` for the empty
      mapping it starts from when there are no sources, otherwise the devices
      of the last source, since each source's list replaces the one before;
      a source that raises ends the whole load. */
  function InventoryDevices(sources: seq<Source>, user: Value, password: Value)
    : (r: Result<Option<seq<Fields>>, InventoryError>)
    ensures r.Err? ==> r.error == MissingHosts
    ensures r.Ok? ==> (r.value.None? <==> sources == [])
  {
    if sources == [] then Ok(None)
    else
      var last := sources[|sources| - 1];
      match InventoryDevices(sources[..|sources| - 1], user, password)
      case Err(e) => Err(e)
      case Ok(_) =>
        match SourceDevices(last.0, last.1, user, password)
        case Err(e) => Err(e)
        case Ok(devices) => Ok(Some(devices))
  }

  /** The load fails exactly when one of the sources does. */
  lemma {:induction false} InventoryFails(sources: seq<Source>, user: Value, password: Value)
    ensures InventoryDevices(sources, user, password).Err? <==>
      exists i :: 0 <= i < |sources| && SourceDevices(sources[i].0, sources[i].1, user, password).Err?
  {
    if sources != [] {
      var init := sources[..|sources| - 1];
      InventoryFails(init, user, password);
      assert forall i :: 0 <= i < |init| ==> init[i] == sources[i];
    }
  }

  /** When nothing fails, only the last source counts: the devices of every
      earlier source are dropped, and with no sources the result stays the
      empty mapping. */
  lemma LastSourceWins(sources: seq<Source>, user: Value, password: Value)
    requires InventoryDevices(sources, user, password).Ok?
    ensures sources == [] ==> InventoryDevices(sources, user, password).value == None
    ensures sources != [] ==>
      var last := sources[|sources| - 1];
      InventoryDevices(sources, user, password).value == Some(SourceDevices(last.0, last.1, user, password).value)
  {
  }

  /** A `file_list` source followed by `remote_api_urls` yields no devices at
      all: the files' hosts are loaded and stamped, then discarded. */
  lemma RemoteAfterFilesGivesNothing(files: seq<InventoryFile>, user: Value, password: Value)
    requires SourceDevices(FileList, files, user, password).Ok?
    ensures InventoryDevices([(FileList, files), (RemoteApiUrls, [])], user, password) == Ok(Some([]))
  {
    var sources: seq<Source> := [(FileList, files), (RemoteApiUrls, [])];
    assert sources[..1] == [(FileList, files)];
    assert sources[..1][..0] == [];
    assert InventoryDevices(sources[..1], user, password) == Ok(Some(SourceDevices(FileList, files, user, password).value));
    assert RemoteApiUrls[0] != FileList[0];
    OtherSourcesEmpty(RemoteApiUrls, [], user, password);
  }

  /** `load_inventory`: asks `get_source` for each source in turn and keeps
      only the latest list; the empty mapping it starts from stays when there
      are no sources. */
  method LoadInventory(sources: seq<Source>, user: Value, password: Value)
    returns (r: Result<Option<seq<Host>>, InventoryError>)
    ensures r.Err? <==> InventoryDevices(sources, user, password).Err?
    ensures r.Ok? ==> (r.value.None? <==> InventoryDevices(sources, user, password).value.None?)
    ensures r.Ok? && r.value.Some? ==> FieldsOf(r.value.value) == InventoryDevices(sources, user, password).value.value
    ensures r.Ok? && r.value.Some? ==> forall h :: h in r.value.value ==> fresh(h)
  {
    var inv: Option<seq<Host>> := None;
    var i := 0;
    while i < |sources|
      invariant 0 <= i <= |sources|
      invariant InventoryDevices(sources[..i], user, password).Ok?
      invariant inv.None? <==> InventoryDevices(sources[..i], user, password).value.None?
      invariant inv.Some? ==> FieldsOf(inv.value) == InventoryDevices(sources[..i], user, password).value.value
      invariant inv.Some? ==> forall h :: h in inv.value ==> fresh(h)
    {
      var source := sources[i];
      assert sources[..i + 1][..i] == sources[..i];
      var devices := GetSource(source.0, source.1, user, password);
      if devices.Err? {
        InventoryFails(sources, user, password);
        return Err(devices.error);
      }
      inv := Some(devices.value);
      i := i + 1;
    }
    assert sources[..i] == sources;
    return Ok(inv);
  }

  // ---------------------------------------------------------------------------
  // The constructor as written
  // ---------------------------------------------------------------------------

  /** `add_devices_per_source` while `__init__` is still running
      `load_inventory`: `userid`, `passwd` and `logger` are not set yet, so
      the first host raises, whether it is accepted (reading `userid`) or
      rejected (reading `logger`); only an empty host list gets through. */
  function HostsAsWritten(hosts: seq<Fields>): (r: Result<seq<Fields>, InventoryError>)
    ensures r.Ok? <==> hosts == []
    ensures r.Ok? ==> r.value == []
  {
    if hosts == [] then Ok([])
    else if Truthy(hosts[0]) then Err(AttributeUnset("userid"))
    else Err(AttributeUnset("logger"))
  }

  /** The `file_list` loop of `get_source` during construction. */
  function FilesAsWritten(files: seq<InventoryFile>): (r: Result<seq<Fields>, InventoryError>)
    ensures r.Err? ==> r.error in {MissingHosts, AttributeUnset("userid"), AttributeUnset("logger")}
  {
    if files == [] then Ok([])
    else
      match files[0]
      case Empty => FilesAsWritten(files[1..])
      case Loaded(None) => Err(MissingHosts)
      case Loaded(Some(hosts)) =>
        match HostsAsWritten(hosts)
        case Err(e) => Err(e)
        case Ok(devices) =>
          match FilesAsWritten(files[1..])
          case Err(e) => Err(e)
          case Ok(more) => Ok(devices + more)
  }

  /** `get_source` during construction: an unknown kind raises too, since
      it logs through the unset `logger`. */
  function SourceDevicesAsWritten(sourceType: string, files: seq<InventoryFile>): (r: Result<seq<Fields>, InventoryError>)
    ensures r.Err? ==> r.error in {MissingHosts, AttributeUnset("userid"), AttributeUnset("logger")}
  {
    if sourceType == RemoteApiUrls then Ok([])
    else if sourceType == FileList then FilesAsWritten(files)
    else Err(AttributeUnset("logger"))
  }

  /** `Inventory(sources, logger)` as written: `load_inventory` runs as the
      constructor's first step. */
  function InventoryAsWritten(sources: seq<Source>): (r: Result<Option<seq<Fields>>, InventoryError>)
    ensures r.Err? ==> r.error in {MissingHosts, AttributeUnset("userid"), AttributeUnset("logger")}
    ensures r.Ok? ==> (r.value.None? <==> sources == [])
  {
    if sources == [] then Ok(None)
    else
      var last := sources[|sources| - 1];
      match InventoryAsWritten(sources[..|sources| - 1])
      case Err(e) => Err(e)
      case Ok(_) =>
        match SourceDevicesAsWritten(last.0, last.1)
        case Err(e) => Err(e)
        case Ok(devices) => Ok(Some(devices))
  }

  /** During construction a `file_list` source gets through only when every
      file is empty or lists no hosts, and then it contributes nothing. */
  lemma {:induction false} FilesAsWrittenEmpty(files: seq<InventoryFile>)
    ensures FilesAsWritten(files).Ok? <==>
      forall i :: 0 <= i < |files| ==> files[i] == Empty || files[i] == Loaded(Some([]))
    ensures FilesAsWritten(files).Ok? ==> FilesAsWritten(files).value == []
  {
    if files != [] {
      FilesAsWrittenEmpty(files[1..]);
      assert forall i :: 1 <= i < |files| ==> files[i] == files[1..][i - 1];
    }
  }

  /** The constructor as written never assembles a device: whatever the
      sources, it either raises or ends with an empty device list. */
  lemma {:induction false} InventoryAsWrittenNoDevices(sources: seq<Source>)
    ensures InventoryAsWritten(sources).Ok? && InventoryAsWritten(sources).value.Some? ==>
      InventoryAsWritten(sources).value.value == []
  {
    if sources != [] {
      var last := sources[|sources| - 1];
      FilesAsWrittenEmpty(last.1);
    }
  }

  /** One inventory file listing one switch: as written the constructor
      raises on the unset `userid`, while the intended load returns that
      switch with the credentials. */
  lemma OneHostRaises(user: Value, password: Value)
    ensures InventoryAsWritten([(FileList, [Loaded(Some([map["host" := Text("sw1")]]))])]) == Err(AttributeUnset("userid"))
    ensures InventoryDevices([(FileList, [Loaded(Some([map["host" := Text("sw1")]]))])], user, password)
      == Ok(Some([map["host" := Text("sw1"), "username" := user, "password" := password]]))
  {
    var host: Fields := map["host" := Text("sw1")];
    var files := [Loaded(Some([host]))];
    var sources: seq<Source> := [(FileList, files)];
    assert sources[..0] == [];
    assert Truthy(host) by {
      assert "host" in host;
    }
    assert FilesAsWritten(files[1..]) == Ok([]);
    assert files[..0] == [];
    assert FileHosts(files) == [host];
    assert FirstMissing(files[1..]) == 0;
    assert [host][..0] == [];
    assert Accepted([host], user, password) == [AfterAdd(host, user, password)];
  }
}
