/** The panel that lists the beacons of one minion (`BeaconsMinionPanel` in
    panels/BeaconsMinion.js): the rows built from a beacon listing, their
    menus, and the value cells that beacon events fill in. */
module BeaconsMinion {
  import opened Js
  import opened Strings
  import opened Wrappers

  /** The formatters of the output module, which is not part of this model. */
  datatype OutputFormat = OutputFormat(
    formatObject: Value -> string,  // Output.formatObject
    dateTimeStr: Value -> string,   // Output.dateTimeStr
    stringify: Value -> string)     // JSON.stringify

  // ---------------------------------------------------------------------------
  // Beacon event tags

  /** The characters a regular-expression `.` does not match. */
  predicate IsLineTerminator(c: char) {
    c == '\n' || c == '\r' || c == '\U{2028}' || c == '\U{2029}'
  }

  /** The position of the first line terminator, |s| when there is none. */
  function FirstLineTerminator(s: string): (i: nat)
    ensures i <= |s|
    ensures forall k :: 0 <= k < i ==> !IsLineTerminator(s[k])
    ensures i < |s| ==> IsLineTerminator(s[i])
  {
    if s == [] || IsLineTerminator(s[0]) then 0 else 1 + FirstLineTerminator(s[1..])
  }

  /** The tag prefix of events from one minion's beacons. */
  function TagPrefix(minionId: string): string {
    "salt/beacon/" + minionId + "/"
  }

  /** `replace(/[/].*\/, "")`: the first "/" goes, and with it the rest of its line. */
  function CutAtSlash(rest: string): (name: string)
    ensures '/' !in rest ==> name == rest
  {
    var cut := IndexOf(rest, '/');
    if cut == |rest| then rest
    else
      var tail := rest[cut..];
      rest[..cut] + tail[FirstLineTerminator(tail)..]
  }

  /** The beacon an event tag names: None when the tag is not from this
      minion's beacons. */
  function BeaconNameFromTag(tag: string, minionId: string): (name: Option<string>)
    ensures name.Some? <==> StartsWith(tag, TagPrefix(minionId))
    ensures name.Some? ==> |name.value| <= |tag| - |TagPrefix(minionId)|
  {
    var prefix := TagPrefix(minionId);
    if !StartsWith(tag, prefix) then None
    else Some(CutAtSlash(tag[|prefix|..]))
  }

  /** No line terminator in `s`. */
  predicate OneLine(s: string) {
    forall k :: 0 <= k < |s| ==> !IsLineTerminator(s[k])
  }

  lemma OneLineDrop(s: string, i: nat)
    requires OneLine(s) && i <= |s|
    ensures OneLine(s[i..])
  {
    forall k | 0 <= k < |s| - i
      ensures !IsLineTerminator(s[i..][k])
    {
      assert s[i..][k] == s[i + k];
    }
  }

  /** On one line the cut is exactly at the first "/". */
  lemma CutAtSlashOneLine(rest: string)
    requires OneLine(rest)
    ensures CutAtSlash(rest) == rest[..IndexOf(rest, '/')]
  {
    var cut := IndexOf(rest, '/');
    if cut < |rest| {
      OneLineDrop(rest, cut);
      var tail := rest[cut..];
      assert FirstLineTerminator(tail) == |tail|;
      assert tail[|tail|..] == [];
    }
  }

  /** For a one-line tag the name is everything between the prefix and the
      next "/", and it holds no "/". */
  lemma BeaconNameOneLine(tag: string, minionId: string)
    requires StartsWith(tag, TagPrefix(minionId)) && OneLine(tag)
    ensures var name := BeaconNameFromTag(tag, minionId).value;
      && '/' !in name
      && StartsWith(tag, TagPrefix(minionId) + name)
      && (|tag| == |TagPrefix(minionId) + name| || tag[|TagPrefix(minionId) + name|] == '/')
  {
    var prefix := TagPrefix(minionId);
    OneLineDrop(tag, |prefix|);
    var rest := tag[|prefix|..];
    CutAtSlashOneLine(rest);
    var cut := IndexOf(rest, '/');
    var name := rest[..cut];
    assert BeaconNameFromTag(tag, minionId).value == name;
    assert tag == prefix + rest;
    assert tag[..|prefix| + cut] == prefix + name;
    if cut < |rest| {
      assert tag[|prefix| + cut] == rest[cut];
    }
  }

  /** A tag with a second line keeps that line in the name: the regular
      expression's `.` stops at the line terminator. */
  lemma BeaconNameKeepsSecondLine(minionId: string, name: string, sub: string, c: char, more: string)
    requires '/' !in name && OneLine(sub) && IsLineTerminator(c)
    ensures BeaconNameFromTag(TagPrefix(minionId) + name + "/" + sub + [c] + more, minionId) ==
      Some(name + [c] + more)
  {
    var prefix := TagPrefix(minionId);
    var rest := name + "/" + sub + [c] + more;
    var tag := prefix + name + "/" + sub + [c] + more;
    assert tag == prefix + rest;
    assert tag[..|prefix|] == prefix;
    assert tag[|prefix|..] == rest;
    CutAtSlashMultiLine(name, sub, c, more);
  }

  lemma CutAtSlashMultiLine(name: string, sub: string, c: char, more: string)
    requires '/' !in name && OneLine(sub) && IsLineTerminator(c)
    ensures CutAtSlash(name + "/" + sub + [c] + more) == name + [c] + more
  {
    var rest := name + "/" + sub + [c] + more;
    assert rest[|name|] == '/' && rest[..|name|] == name;
    IndexOfAt(rest, '/', |name|);
    var tail := rest[|name|..];
    var line := "/" + sub;
    assert tail == line + ([c] + more);
    assert OneLine(line) by {
      forall k | 0 <= k < |line| ensures !IsLineTerminator(line[k]) {
        if k > 0 {
          assert line[k] == sub[k - 1];
        }
      }
    }
    FirstLineTerminatorAt(tail, line, [c] + more);
    assert tail[|line|..] == [c] + more;
  }

  lemma IndexOfAt(s: string, c: char, i: nat)
    requires i < |s| && s[i] == c && c !in s[..i]
    ensures IndexOf(s, c) == i
  {
  }

  lemma FirstLineTerminatorAt(s: string, a: string, b: string)
    requires s == a + b && b != [] && IsLineTerminator(b[0]) && OneLine(a)
    ensures FirstLineTerminator(s) == |a|
  {
    assert s[|a|] == b[0];
    assert forall k :: 0 <= k < |a| ==> s[k] == a[k];
  }

  /** The tag is shown above the data unless it is exactly prefix, name and "/". */
  predicate TagShown(tag: string, minionId: string, name: string) {
    tag != TagPrefix(minionId) + name + "/"
  }

  // ---------------------------------------------------------------------------
  // Event data

  /** The data of a beacon event as shown: a truthy `_stamp` is removed (it is
      shown as a time instead) and an `id` equal to the minion id is removed. */
  function CleanEventData(data: Props, minionId: string): (r: Props)
    ensures !Truthy(Get(r, "_stamp"))
    ensures !Truthy(Get(data, "_stamp")) ==> Get(r, "_stamp") == Get(data, "_stamp")
    ensures Get(r, "id") != Str(minionId)
    ensures Get(data, "id") != Str(minionId) ==> Get(r, "id") == Get(data, "id")
  {
    var d1 := if Truthy(Get(data, "_stamp")) then Without(data, "_stamp") else data;
    GetWithout(data, "_stamp", "_stamp");
    GetWithout(data, "_stamp", "id");
    GetWithout(d1, "id", "id");
    GetWithout(d1, "id", "_stamp");
    if Get(d1, "id") == Str(minionId) then Without(d1, "id") else d1
  }

  /** Cleaning touches no other property. */
  lemma CleanEventDataKeeps(data: Props, minionId: string, k: string)
    requires k != "_stamp" && k != "id"
    ensures Get(CleanEventData(data, minionId), k) == Get(data, k)
  {
    var d1 := if Truthy(Get(data, "_stamp")) then Without(data, "_stamp") else data;
    GetWithout(data, "_stamp", k);
    GetWithout(d1, "id", k);
  }

  /** Cleaning shown data again changes nothing. */
  lemma CleanEventDataIdempotent(data: Props, minionId: string)
    ensures CleanEventData(CleanEventData(data, minionId), minionId) == CleanEventData(data, minionId)
  {
    var r := CleanEventData(data, minionId);
    assert !HasKey(r, "_stamp") || !Truthy(Get(r, "_stamp"));
  }

  /** The text of the value cell for an event. */
  function EventText(out: OutputFormat, tag: string, minionId: string, name: string, data: Props): string {
    (if Truthy(Get(data, "_stamp")) then out.dateTimeStr(Get(data, "_stamp")) + "\n" else "") +
    (if TagShown(tag, minionId, name) then tag + "\n" else "") +
    out.formatObject(Obj(CleanEventData(data, minionId)))
  }

  /** An event without a stamp whose tag adds nothing shows only the data. */
  lemma EventTextPlain(out: OutputFormat, minionId: string, name: string, data: Props)
    requires !Truthy(Get(data, "_stamp"))
    ensures EventText(out, TagPrefix(minionId) + name + "/", minionId, name, data) ==
      out.formatObject(Obj(CleanEventData(data, minionId)))
  {
  }

  // ---------------------------------------------------------------------------
  // Beacon listings

  /** "Simplify the beacon information": `name` goes, and `enabled` goes when
      it is `true`. Only an object has properties to remove. */
  function SimplifyBeacon(beacon: Value): (r: Value)
    ensures !beacon.Obj? ==> r == beacon
    ensures beacon.Obj? ==> r.Obj? && !HasKey(r.props, "name") && Get(r.props, "enabled") != Bool(true)
  {
    if !beacon.Obj? then beacon
    else
      var p1 := Without(beacon.props, "name");
      GetWithout(beacon.props, "name", "enabled");
      if Get(p1, "enabled") == Bool(true) then
        var p2 := Without(p1, "enabled");
        WithoutKeepsAbsence(p1, "enabled", "name");
        Obj(p2)
      else Obj(p1)
  }

  /** Whether the listing marks the beacon disabled: `enabled === false`. */
  predicate BeaconDisabled(beacon: Value) {
    beacon.Obj? && Get(beacon.props, "enabled") == Bool(false)
  }

  /** Simplifying keeps the disabled mark and every other property. */
  lemma SimplifyBeaconKeeps(beacon: Value, k: string)
    requires beacon.Obj? && k != "name" && k != "enabled"
    ensures Get(SimplifyBeacon(beacon).props, k) == Get(beacon.props, k)
    ensures BeaconDisabled(SimplifyBeacon(beacon)) <==> BeaconDisabled(beacon)
  {
    var p1 := Without(beacon.props, "name");
    GetWithout(beacon.props, "name", k);
    GetWithout(beacon.props, "name", "enabled");
    GetWithout(p1, "enabled", k);
    GetWithout(p1, "enabled", "enabled");
  }

  /** Simplifying a simplified beacon changes nothing. */
  lemma SimplifyBeaconIdempotent(beacon: Value)
    ensures SimplifyBeacon(SimplifyBeacon(beacon)) == SimplifyBeacon(beacon)
  {
  }

  const Waiting := "(waiting)"
  const AllBeaconsDisabled := "(beacons disabled)"
  const ThisBeaconDisabled := "(beacon disabled)"

  /** The value cell of a new row: the reasons it is disabled, each on its
      own line, or "(waiting)"; trimmed. */
  function InitialValue(allDisabled: bool, beaconDisabled: bool): (text: string)
    ensures !allDisabled && !beaconDisabled ==> text == Waiting
    ensures allDisabled && !beaconDisabled ==> text == AllBeaconsDisabled
    ensures !allDisabled && beaconDisabled ==> text == ThisBeaconDisabled
    ensures allDisabled && beaconDisabled ==> text == AllBeaconsDisabled + "\n" + ThisBeaconDisabled
  {
    var v := (if allDisabled then "\n" + AllBeaconsDisabled else "") +
             (if beaconDisabled then "\n" + ThisBeaconDisabled else "");
    var w := if v == "" then Waiting else v;
    InitialValueTrim(allDisabled, beaconDisabled, v, w);
    Trim(w)
  }

  lemma InitialValueTrim(allDisabled: bool, beaconDisabled: bool, v: string, w: string)
    requires v == (if allDisabled then "\n" + AllBeaconsDisabled else "") +
                  (if beaconDisabled then "\n" + ThisBeaconDisabled else "")
    requires w == if v == "" then Waiting else v
    ensures !allDisabled && !beaconDisabled ==> Trim(w) == Waiting
    ensures allDisabled && !beaconDisabled ==> Trim(w) == AllBeaconsDisabled
    ensures !allDisabled && beaconDisabled ==> Trim(w) == ThisBeaconDisabled
    ensures allDisabled && beaconDisabled ==> Trim(w) == AllBeaconsDisabled + "\n" + ThisBeaconDisabled
  {
    if !allDisabled && !beaconDisabled {
      assert v == [];
      TrimUnchanged(Waiting);
    } else if allDisabled && !beaconDisabled {
      assert v == "\n" + AllBeaconsDisabled;
      TrimAfterNewline(AllBeaconsDisabled);
    } else if !allDisabled && beaconDisabled {
      assert v == "\n" + ThisBeaconDisabled;
      TrimAfterNewline(ThisBeaconDisabled);
    } else {
      var both := AllBeaconsDisabled + "\n" + ThisBeaconDisabled;
      assert v == "\n" + both;
      assert both[0] == '(' && both[|both| - 1] == ')';
      TrimAfterNewline(both);
    }
  }

  /** A leading line break goes; text that starts and ends with a bracket stays. */
  lemma TrimAfterNewline(s: string)
    requires |s| > 0 && s[0] == '(' && s[|s| - 1] == ')'
    ensures Trim("\n" + s) == s
  {
    assert "\n" + s == ['\n'] + s;
    TrimLeading('\n', s);
    TrimUnchanged(s);
  }

  /** A menu item: its title and the command it fills in. */
  datatype MenuEntry = MenuEntry(title: string, command: string)

  /** The panel menu: disable or enable all beacons, then add, reset and save. */
  function PanelMenu(enabled: Value): (menu: seq<MenuEntry>)
    ensures |menu| == 4 && menu[1..] == [MenuEntry("Add&nbsp;beacon...", "beacons.add <name> <data>"),
                                         MenuEntry("Reset&nbsp;beacons...", "beacons.reset"),
                                         MenuEntry("Save&nbsp;beacons...", "beacons.save")]
    ensures menu[0] == if enabled == Bool(false) then MenuEntry("Enable&nbsp;beacons...", "beacons.enable")
                       else MenuEntry("Disable&nbsp;beacons...", "beacons.disable")
  {
    (if enabled == Bool(false) then [] else [MenuEntry("Disable&nbsp;beacons...", "beacons.disable")]) +
    (if enabled != Bool(false) then [] else [MenuEntry("Enable&nbsp;beacons...", "beacons.enable")]) +
    [MenuEntry("Add&nbsp;beacon...", "beacons.add <name> <data>"),
     MenuEntry("Reset&nbsp;beacons...", "beacons.reset"),
     MenuEntry("Save&nbsp;beacons...", "beacons.save")]
  }

  /** The menu of one beacon's row: disable or enable that beacon, then delete it. */
  function BeaconMenu(key: string, beacon: Value): (menu: seq<MenuEntry>)
    ensures |menu| == 2 && menu[1] == MenuEntry("Delete&nbsp;beacon...", "beacons.delete " + key)
    ensures menu[0] == if BeaconDisabled(beacon) then MenuEntry("Enable&nbsp;beacon...", "beacons.enable_beacon " + key)
                       else MenuEntry("Disable&nbsp;beacon...", "beacons.disable_beacon " + key)
  {
    var disabledFlag := beacon.Obj? && Get(beacon.props, "enabled") == Bool(false);
    (if disabledFlag then [] else [MenuEntry("Disable&nbsp;beacon...", "beacons.disable_beacon " + key)]) +
    (if !disabledFlag then [] else [MenuEntry("Enable&nbsp;beacon...", "beacons.enable_beacon " + key)]) +
    [MenuEntry("Delete&nbsp;beacon...", "beacons.delete " + key)]
  }

  /** One row of the table. */
  datatype BeaconRow = BeaconRow(
    name: string,          // the "Name" cell
    config: string,        // the "Config" cell
    configDisabled: bool,  // the config cell carries "beacon-disabled"
    value: string,         // the "Value" cell
    waiting: bool,         // the value cell carries "beacon-waiting"
    menu: seq<MenuEntry>,  // the row's own menu
    click: string)         // the command a click on the row fills in

  /** The row for one beacon of the listing. */
  function RowFor(out: OutputFormat, raw: Props, allEnabled: Value, key: string, beacon: Value): (row: BeaconRow)
    ensures row.name == key && row.waiting
    ensures row.configDisabled <==> allEnabled == Bool(false) || BeaconDisabled(beacon)
    ensures row.value == InitialValue(allEnabled == Bool(false), BeaconDisabled(beacon))
  {
    var b := SimplifyBeacon(beacon);
    SimplifyBeaconDisabled(beacon);
    BeaconRow(key, out.formatObject(b),
              allEnabled == Bool(false) || BeaconDisabled(b),
              InitialValue(allEnabled == Bool(false), BeaconDisabled(b)),
              true, BeaconMenu(key, b),
              "beacons.modify " + key + " " + out.stringify(Get(raw, key)))
  }

  lemma SimplifyBeaconDisabled(beacon: Value)
    ensures BeaconDisabled(SimplifyBeacon(beacon)) <==> BeaconDisabled(beacon)
  {
    if beacon.Obj? {
      SimplifyBeaconKeeps(beacon, "");
    }
  }

  /** The rows for a sequence of beacon names, as the listing loop adds them. */
  function RowsFor(out: OutputFormat, raw: Props, allEnabled: Value, beacons: Props, keys: seq<string>): (rows: seq<BeaconRow>)
    ensures |rows| == |keys|
    ensures forall i :: 0 <= i < |keys| ==> rows[i] == RowFor(out, raw, allEnabled, keys[i], Get(beacons, keys[i]))
  {
    if keys == [] then []
    else
      var front := keys[..|keys| - 1];
      assert forall i :: 0 <= i < |front| ==> front[i] == keys[i];
      RowsFor(out, raw, allEnabled, beacons, front) +
      [RowFor(out, raw, allEnabled, keys[|keys| - 1], Get(beacons, keys[|keys| - 1]))]
  }

  lemma RowsForAppend(out: OutputFormat, raw: Props, allEnabled: Value, beacons: Props, keys: seq<string>, i: nat)
    requires i < |keys|
    ensures RowsFor(out, raw, allEnabled, beacons, keys[..i + 1]) ==
      RowsFor(out, raw, allEnabled, beacons, keys[..i]) + [RowFor(out, raw, allEnabled, keys[i], Get(beacons, keys[i]))]
  {
    TakeSnoc(keys, i);
    assert keys[..i + 1][..i] == keys[..i];
  }

  /** The beacons of the minion, as the fixing step (not part of this model) hands them over. */
  datatype Listing =
    | UnknownMinion                           // `undefined`
    | NoAnswer                                // `false`
    | Beacons(enabled: Value, beacons: Props) // `{enabled, beacons}`

  /** The reply to the listing request. */
  datatype ListingReply =
    | ListingError(msg: string)          // shown as an error row instead
    | ListingData(raw: Props, listing: Listing)

  /** `txtZeroOneMany` for the beacon count. */
  function CountText(n: nat): string {
    if n == 0 then "No beacons"
    else if n == 1 then "1 beacon"
    else DecimalText(n) + " beacons"
  }

  function DecimalText(n: nat): (s: string)
    ensures |s| >= 1
    ensures forall i :: 0 <= i < |s| ==> '0' <= s[i] <= '9'
  {
    var d := [(('0' as int) + n % 10) as char];
    if n < 10 then d else DecimalText(n / 10) + d
  }

  /** The footer: the count, and a hint while events are paused. */
  function FooterText(n: nat, playOrPause: string): (text: string)
    ensures StartsWith(text, CountText(n))
    ensures playOrPause == "pause" <==> |text| > |CountText(n)|
  {
    if playOrPause == "pause" then CountText(n) + ", press '&#x23F5;&#xFE0E;' to continue"
    else CountText(n)
  }

  /** The index of the first row showing `name`, if any. */
  function FirstRow(rows: seq<BeaconRow>, name: string): (i: Option<nat>)
    ensures i.Some? ==> (i.value < |rows| && rows[i.value].name == name &&
      forall j :: 0 <= j < i.value ==> rows[j].name != name)
    ensures i.None? ==> forall j :: 0 <= j < |rows| ==> rows[j].name != name
  {
    if rows == [] then None
    else if rows[0].name == name then Some(0)
    else
      var r := FirstRow(rows[1..], name);
      if r.None? then None else Some(r.value + 1)
  }

  class BeaconsMinionPanel {
    /** "play" or "pause", from the panel's play/pause button. */
    var playOrPause: string
    var title: string
    var msg: Option<string>
    var panelMenu: seq<MenuEntry>
    var rows: seq<BeaconRow>

    constructor ()
      ensures playOrPause == "play" && title == "Beacons on ..." && msg == None
      ensures panelMenu == [] && rows == []
    {
      playOrPause := "play";
      title := "Beacons on ...";
      msg := None;
      panelMenu := [];
      rows := [];
    }

    /** `_handleLocalBeaconsList`: the title notes that all beacons are
      disabled; an unknown or silent minion gets a message; a listing adds the
      panel menu and one row per beacon in sorted order, then the footer. */
    method HandleLocalBeaconsList(out: OutputFormat, minionId: string, reply: ListingReply)
      modifies this`title, this`msg, this`panelMenu, this`rows
      ensures reply.ListingError? ==>
        (title == old(title) && msg == old(msg) && panelMenu == old(panelMenu) && rows == old(rows))
      ensures reply.ListingData? ==>
        title == (if reply.listing.Beacons? && reply.listing.enabled == Bool(false)
                  then "Beacons on " + minionId + " (disabled)" else old(title))
      ensures reply.ListingData? && reply.listing.UnknownMinion? ==>
        msg == Some("Unknown minion '" + minionId + "'") && panelMenu == old(panelMenu) && rows == old(rows)
      ensures reply.ListingData? && reply.listing.NoAnswer? ==>
        msg == Some("Minion '" + minionId + "' did not answer") && panelMenu == old(panelMenu) && rows == old(rows)
      ensures reply.ListingData? && reply.listing.Beacons? ==>
        var l := reply.listing;
        && panelMenu == old(panelMenu) + PanelMenu(l.enabled)
        && rows == old(rows) + RowsFor(out, reply.raw, l.enabled, l.beacons, Sort(Keys(l.beacons)))
        && msg == Some(FooterText(|rows|, playOrPause))
    {
      if reply.ListingError? {
        return;
      }
      var listing := reply.listing;
      if listing.Beacons? && listing.enabled == Bool(false) {
        title := "Beacons on " + minionId + " (disabled)";
      }
      match listing {
        case UnknownMinion =>
          msg := Some("Unknown minion '" + minionId + "'");
        case NoAnswer =>
          msg := Some("Minion '" + minionId + "' did not answer");
        case Beacons(enabled, beacons) =>
          ShowBeacons(out, reply.raw, enabled, beacons);
      }
    }

    /** The listing part of `_handleLocalBeaconsList`: the panel menu, the rows
      in sorted name order, the footer. */
    method ShowBeacons(out: OutputFormat, raw: Props, enabled: Value, beacons: Props)
      modifies this`msg, this`panelMenu, this`rows
      ensures panelMenu == old(panelMenu) + PanelMenu(enabled)
      ensures rows == old(rows) + RowsFor(out, raw, enabled, beacons, Sort(Keys(beacons)))
      ensures msg == Some(FooterText(|rows|, playOrPause))
    {
      panelMenu := panelMenu + PanelMenu(enabled);
      var keys := Sort(Keys(beacons));
      AddRows(out, raw, enabled, beacons, keys);
      msg := Some(FooterText(|rows|, playOrPause));
    }

    /** The listing loop: one row per name, appended in order. */
    method AddRows(out: OutputFormat, raw: Props, enabled: Value, beacons: Props, keys: seq<string>)
      modifies this`rows
      ensures rows == old(rows) + RowsFor(out, raw, enabled, beacons, keys)
    {
      var added: seq<BeaconRow> := [];
      var i := 0;
      while i < |keys|
        invariant 0 <= i <= |keys|
        invariant added == RowsFor(out, raw, enabled, beacons, keys[..i])
        invariant rows == old(rows)
      {
        var row := RowFor(out, raw, enabled, keys[i], Get(beacons, keys[i]));
        RowsForAppend(out, raw, enabled, beacons, keys, i);
        added := added + [row];
        i := i + 1;
      }
      assert keys[..i] == keys;
      rows := rows + added;
    }

    /** `handleSaltBeaconEvent`: while playing, the first row of the beacon the
      tag names gets the event's text and stops waiting; the shown data loses
      its stamp and the minion's own id. Nothing else changes. */
    method HandleSaltBeaconEvent(out: OutputFormat, minionId: string, tag: string, data: JsObject)
      modifies this`rows, data
      ensures var name := BeaconNameFromTag(tag, minionId);
        var hit := if old(playOrPause) == "play" && name.Some? then FirstRow(old(rows), name.value) else None;
        && (hit.None? ==> rows == old(rows) && data.props == old(data.props))
        && (hit.Some? ==>
              rows == old(rows)[hit.value := old(rows)[hit.value].(
                        value := EventText(out, tag, minionId, name.value, old(data.props)),
                        waiting := false)]
              && data.props == CleanEventData(old(data.props), minionId))
    {
      if playOrPause != "play" {
        return;
      }
      var prefix := TagPrefix(minionId);
      if !StartsWith(tag, prefix) {
        return;
      }
      var beaconName := CutAtSlash(tag[|prefix|..]);
      var i := 0;
      while i < |rows|
        invariant 0 <= i <= |rows|
        invariant rows == old(rows) && data.props == old(data.props)
        invariant forall j :: 0 <= j < i ==> rows[j].name != beaconName
      {
        if rows[i].name != beaconName {
          i := i + 1;
          continue;
        }
        var txt := ShowEventData(out, minionId, tag, beaconName, data);
        FirstRowAt(rows, beaconName, i);
        rows := rows[i := rows[i].(value := txt, waiting := false)];
        return;
      }
      FirstRowNone(rows, beaconName);
    }
  }

  /** The row the loop stops at is the one `FirstRow` names. */
  lemma FirstRowAt(rows: seq<BeaconRow>, name: string, i: nat)
    requires i < |rows| && rows[i].name == name
    requires forall j :: 0 <= j < i ==> rows[j].name != name
    ensures FirstRow(rows, name) == Some(i)
  {
  }

  lemma FirstRowNone(rows: seq<BeaconRow>, name: string)
    requires forall j :: 0 <= j < |rows| ==> rows[j].name != name
    ensures FirstRow(rows, name) == None
  {
  }

  /** Removing one key keeps another one absent. */
  lemma WithoutKeepsAbsence(p: Props, k: string, j: string)
    requires !HasKey(p, j)
    ensures !HasKey(Without(p, k), j)
  {
    var r := Without(p, k);
    forall i | 0 <= i < |r|
      ensures r[i].0 != j
    {
      assert r[i] in p;
    }
  }

  /** The text for a matching row, cleaning the event data in place. */
  method ShowEventData(out: OutputFormat, minionId: string, tag: string, name: string, data: JsObject)
    returns (txt: string)
    modifies data
    ensures txt == EventText(out, tag, minionId, name, old(data.props))
    ensures data.props == CleanEventData(old(data.props), minionId)
  {
    var stamp := Get(data.props, "_stamp");
    var stampText := "";
    if Truthy(stamp) {
      stampText := out.dateTimeStr(stamp) + "\n";
      data.DeleteKey("_stamp");
    }
    var tagText := "";
    if tag != TagPrefix(minionId) + name + "/" {
      tagText := tag + "\n";
    }
    if Get(data.props, "id") == Str(minionId) {
      data.DeleteKey("id");
    }
    txt := stampText + tagText + out.formatObject(Obj(data.props));
  }
}
