/**
 * The ownership tag (pkg/vsphere/vm.go, controllers/vm_reconcile.go): it goes into a map together with
 * the user's extra configuration, the map is turned into an option list in whatever order the runtime
 * iterates it, and a linear search reads it back.
 */
module Tags {
  import opened Wrappers

  const TAG_KEY := "guestinfo.vmware-hcp.template"

  /** A vSphere option; None is the nil value that the search passes over. */
  datatype OptionValue = OptionValue(key: string, value: Option<string>)

  datatype Key = Key(namespace: string, name: string)

  /** Kubernetes object names contain no slash. */
  predicate ValidKey(k: Key) {
    '/' !in k.namespace && '/' !in k.name
  }

  function Owner(k: Key): (r: string)
    ensures |r| == |k.namespace| + 1 + |k.name|
    ensures r[..|k.namespace|] == k.namespace && r[|k.namespace|] == '/' && r[|k.namespace| + 1..] == k.name
  {
    k.namespace + "/" + k.name
  }

  lemma SplitAtSlash(a: string, b: string, c: string, d: string)
    requires a + "/" + b == c + "/" + d
    requires |a| < |c|
    ensures '/' in c
  {
    assert (a + "/" + b)[|a|] == '/';
    assert (c + "/" + d)[|a|] == c[|a|];
  }

  /** The tag value identifies the template. */
  lemma OwnerInjective(j: Key, k: Key)
    requires ValidKey(j) && ValidKey(k)
    requires Owner(j) == Owner(k)
    ensures j == k
  {
    if |j.namespace| < |k.namespace| {
      SplitAtSlash(j.namespace, j.name, k.namespace, k.name);
    } else if |k.namespace| < |j.namespace| {
      SplitAtSlash(k.namespace, k.name, j.namespace, j.name);
    } else {
      assert j.namespace == Owner(j)[..|j.namespace|];
      assert k.namespace == Owner(k)[..|k.namespace|];
      assert j.name == Owner(j)[|j.namespace| + 1..];
      assert k.name == Owner(k)[|k.namespace| + 1..];
    }
  }

  /* ---------- writing ---------- */

  /** The user's configuration with the ownership tag put on top. */
  function Tagged(extraConfig: map<string, string>, k: Key): map<string, string> {
    extraConfig[TAG_KEY := Owner(k)]
  }

  /** The order in which the runtime happens to iterate a map. */
  predicate Enumerates(order: seq<string>, keys: set<string>) {
    && (set k | k in order) == keys
    && forall i, j :: 0 <= i < j < |order| ==> order[i] != order[j]
  }

  function MapOptions(config: map<string, string>, order: seq<string>): seq<OptionValue> {
    if order == [] then []
    else
      var last := order[|order| - 1];
      MapOptions(config, order[..|order| - 1]) +
      if last in config then [OptionValue(last, Some(config[last]))] else []
  }

  const SCSI_OPTIONS := [
    OptionValue("sched.scsi0:0.shares", Some("normal")),
    OptionValue("sched.scsi0:0.throughputCap", Some("off")),
    OptionValue("sched.scsi0:0.latencySensitivity", Some("normal"))
  ]

  const DISK_UUID := OptionValue("disk.enableUUID", Some("TRUE"))

  function FixedOptions(diskEnableUUID: bool): seq<OptionValue> {
    (if diskEnableUUID then [DISK_UUID] else []) + SCSI_OPTIONS
  }

  function BuildOptions(config: map<string, string>, order: seq<string>, diskEnableUUID: bool): seq<OptionValue> {
    MapOptions(config, order) + FixedOptions(diskEnableUUID)
  }

  /** The option list that createVM and CreateVM assemble between them. */
  method CreateOptions(extraConfig: map<string, string>, k: Key, order: seq<string>, diskEnableUUID: bool)
    returns (options: seq<OptionValue>)
    requires Enumerates(order, Tagged(extraConfig, k).Keys)
    ensures options == BuildOptions(Tagged(extraConfig, k), order, diskEnableUUID)
    ensures FirstValue(options, TAG_KEY) == Owner(k)
  {
    var config := extraConfig;
    config := config[TAG_KEY := Owner(k)];
    options := [];
    for i := 0 to |order|
      invariant options == MapOptions(config, order[..i])
    {
      assert order[..i + 1][..i] == order[..i];
      assert order[i] in (set k | k in order);
      options := options + [OptionValue(order[i], Some(config[order[i]]))];
    }
    assert order[..|order|] == order;
    if diskEnableUUID {
      options := options + [DISK_UUID];
    }
    options := options + SCSI_OPTIONS;
    assert options == BuildOptions(config, order, diskEnableUUID);
    TagRoundTrip(extraConfig, k, order, diskEnableUUID);
  }

  /* ---------- reading ---------- */

  function FirstValue(options: seq<OptionValue>, fullKey: string): string {
    if options == [] then ""
    else if options[0].key == fullKey && options[0].value.Some? then options[0].value.value
    else FirstValue(options[1..], fullKey)
  }

  /** GetVMTag for the key "template". */
  method GetVMTag(extraConfig: seq<OptionValue>) returns (owner: string)
    ensures owner == FirstValue(extraConfig, TAG_KEY)
  {
    for i := 0 to |extraConfig|
      invariant FirstValue(extraConfig[i..], TAG_KEY) == FirstValue(extraConfig, TAG_KEY)
    {
      if extraConfig[i].key == TAG_KEY && extraConfig[i].value.Some? {
        return extraConfig[i].value.value;
      }
    }
    assert extraConfig[|extraConfig|..] == [];
    return "";
  }

  /** The search finds v when some entry has the key and every entry with the key holds v. */
  lemma {:induction false} FirstValueIs(options: seq<OptionValue>, key: string, v: string)
    requires exists i :: 0 <= i < |options| && options[i] == OptionValue(key, Some(v))
    requires forall i :: 0 <= i < |options| && options[i].key == key ==> options[i].value == Some(v)
    ensures FirstValue(options, key) == v
  {
    if options[0].key != key {
      var i :| 0 <= i < |options| && options[i] == OptionValue(key, Some(v));
      assert options[1..][i - 1] == options[i];
      FirstValueIs(options[1..], key, v);
    }
  }

  lemma {:induction false} MapOptionsHold(config: map<string, string>, order: seq<string>)
    ensures forall o :: o in MapOptions(config, order) <==>
                          o.key in order && o.key in config && o.value == Some(config[o.key])
  {
    if order != [] {
      var init, last := order[..|order| - 1], order[|order| - 1];
      MapOptionsHold(config, init);
      assert order == init + [last];
    }
  }

  /**
   * Whatever the user's configuration holds (the tag key included) and whatever order the map is
   * iterated in, the tag read back is the creating template.
   */
  lemma TagRoundTrip(extraConfig: map<string, string>, k: Key, order: seq<string>, diskEnableUUID: bool)
    requires Enumerates(order, Tagged(extraConfig, k).Keys)
    ensures FirstValue(BuildOptions(Tagged(extraConfig, k), order, diskEnableUUID), TAG_KEY) == Owner(k)
  {
    var config := Tagged(extraConfig, k);
    var options := BuildOptions(config, order, diskEnableUUID);
    MapOptionsHold(config, order);
    var tag := OptionValue(TAG_KEY, Some(Owner(k)));
    assert TAG_KEY in config.Keys;
    assert TAG_KEY in order;
    assert tag in MapOptions(config, order);
    assert tag in options;
    FixedOptionsUntagged(diskEnableUUID);
    forall i | 0 <= i < |options| && options[i].key == TAG_KEY ensures options[i].value == Some(Owner(k)) {
      var o := options[i];
      assert o in options;
      assert o !in FixedOptions(diskEnableUUID);
      assert o in MapOptions(config, order);
    }
    FirstValueIs(options, TAG_KEY, Owner(k));
  }

  /** The first entry with the key and a value gives the value; without one the search finds nothing. */
  lemma {:induction false} FirstValueAt(options: seq<OptionValue>, key: string, i: nat)
    requires i <= |options|
    requires forall j :: 0 <= j < i ==> options[j].key != key || options[j].value == None
    requires i < |options| ==> options[i].key == key && options[i].value.Some?
    ensures FirstValue(options, key) == if i < |options| then options[i].value.value else ""
  {
    if i > 0 {
      FirstValueAt(options[1..], key, i - 1);
    }
  }

  /** The settings that every VM gets, unless the user's configuration speaks first. */
  predicate IsFixed(key: string, value: string, diskEnableUUID: bool) {
    || (key == "disk.enableUUID" && value == "TRUE" && diskEnableUUID)
    || (key == "sched.scsi0:0.shares" && value == "normal")
    || (key == "sched.scsi0:0.throughputCap" && value == "off")
    || (key == "sched.scsi0:0.latencySensitivity" && value == "normal")
  }

  /**
   * The options of a new VM are the user's, but for the tag key, which is the template's own; and the
   * fixed ones. None is lost, none is made up, and for every key the user's come before the fixed.
   */
  lemma OptionsAreConfigured(extraConfig: map<string, string>, k: Key, order: seq<string>, diskEnableUUID: bool)
    requires Enumerates(order, Tagged(extraConfig, k).Keys)
    ensures var options := BuildOptions(Tagged(extraConfig, k), order, diskEnableUUID);
            var tag := "guestinfo.vmware-hcp.template";
            && |order| <= |options|
            && (forall o :: o in options[..|order|] <==>
                  o.value.Some? && if o.key == tag then o.value.value == k.namespace + "/" + k.name
                                   else o.key in extraConfig && extraConfig[o.key] == o.value.value)
            && (forall o :: o in options[|order|..] <==> o.value.Some? && IsFixed(o.key, o.value.value, diskEnableUUID))
  {
    var config := Tagged(extraConfig, k);
    var options := BuildOptions(config, order, diskEnableUUID);
    MapOptionsHold(config, order);
    MapOptionsLength(config, order);
    assert forall key :: key in order <==> key in config.Keys;
    assert options[..|order|] == MapOptions(config, order);
    assert options[|order|..] == FixedOptions(diskEnableUUID);
    hide MapOptions, Enumerates;
    FixedOptionsAre(diskEnableUUID);
  }

  lemma {:induction false} MapOptionsLength(config: map<string, string>, order: seq<string>)
    requires forall key :: key in order ==> key in config
    ensures |MapOptions(config, order)| == |order|
  {
    if order != [] {
      MapOptionsLength(config, order[..|order| - 1]);
    }
  }

  lemma FixedOptionsAre(diskEnableUUID: bool)
    ensures forall o :: o in FixedOptions(diskEnableUUID) <==>
                          o.value.Some? && IsFixed(o.key, o.value.value, diskEnableUUID)
  {
    var fixed := FixedOptions(diskEnableUUID);
    assert fixed == (if diskEnableUUID then [DISK_UUID] else []) + [SCSI_OPTIONS[0], SCSI_OPTIONS[1], SCSI_OPTIONS[2]];
    forall o ensures o in fixed <==> o.value.Some? && IsFixed(o.key, o.value.value, diskEnableUUID) {
      if o.value.Some? && IsFixed(o.key, o.value.value, diskEnableUUID) {
        assert o == DISK_UUID || o == SCSI_OPTIONS[0] || o == SCSI_OPTIONS[1] || o == SCSI_OPTIONS[2];
        assert o in fixed;
      }
    }
  }

  lemma FixedOptionsUntagged(diskEnableUUID: bool)
    ensures forall o :: o in FixedOptions(diskEnableUUID) ==> o.key != TAG_KEY
  {
    assert TAG_KEY[0] == 'g' && DISK_UUID.key[0] == 'd';
    forall o | o in FixedOptions(diskEnableUUID) ensures o.key != TAG_KEY {
      if o in SCSI_OPTIONS {
        assert o.key[0] == 's';
      }
    }
  }
}
