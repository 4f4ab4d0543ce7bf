// Installing and removing the managed approval hook in a coding agent's settings file
// (hook/src/approvals.rs).
module Settings {
  import opened Prelude
  import Q = Quoting

  const TIMEOUT_SECONDS: nat := 120
  const STATUS: string := "Waiting for Oshioki browser approval"

  datatype Json = Null | Bool(b: bool) | Num(n: int) | Str(s: string) | Arr(items: seq<Json>) | Obj(fields: map<string, Json>)

  datatype Harness = Codex | Claude

  function Name(h: Harness): string {
    match h
    case Codex => "codex"
    case Claude => "claude"
  }

  function Marker(h: Harness): string {
    "oshioki-managed-hook-v1-" + Name(h)
  }

  predicate Contains(s: string, part: string) {
    part <= s || (s != [] && Contains(s[1..], part))
  }

  function Get(j: Json, key: string): Option<Json> {
    if j.Obj? && key in j.fields then Some(j.fields[key]) else None
  }

  // ---- one group ----

  predicate Owned(handler: Json, marker: string) {
    && Get(handler, "type") == Some(Str("command"))
    && Get(handler, "command").Some? && Get(handler, "command").value.Str?
    && Contains(Get(handler, "command").value.s, marker)
  }

  function Foreign(handlers: seq<Json>, marker: string): (r: seq<Json>)
    ensures |r| <= |handlers|
  {
    if handlers == [] then []
    else if Owned(handlers[0], marker) then Foreign(handlers[1..], marker)
    else [handlers[0]] + Foreign(handlers[1..], marker)
  }

  /** The group's handlers, if it has a list of them. */
  function Handlers(group: Json): Option<seq<Json>> {
    match Get(group, "hooks")
    case Some(Arr(items)) => Some(items)
    case _ => None
  }

  predicate Touched(group: Json, marker: string) {
    Handlers(group).Some? && |Foreign(Handlers(group).value, marker)| < |Handlers(group).value|
  }

  /** The group with its owned handlers gone. */
  function Cleaned(group: Json, marker: string): Json {
    if Handlers(group).None? then group
    else Obj(group.fields["hooks" := Arr(Foreign(Handlers(group).value, marker))])
  }

  /** Nothing but the hook was in it. */
  predicate OnlyOurs(group: Json, marker: string) {
    && Touched(group, marker) && Foreign(Handlers(group).value, marker) == []
    && forall key :: key in group.fields ==> key == "hooks" || key == "matcher"
  }

  /** What is left of a group: nothing when it held only the hook. */
  function Left(group: Json, marker: string): seq<Json> {
    if OnlyOurs(group, marker) then [] else [Cleaned(group, marker)]
  }

  function CleanedAll(groups: seq<Json>, marker: string): seq<Json> {
    if groups == [] then [] else Left(groups[0], marker) + CleanedAll(groups[1..], marker)
  }

  lemma CleanedFrom(groups: seq<Json>, marker: string, i: nat)
    requires i < |groups|
    ensures CleanedAll(groups[i..], marker) == Left(groups[i], marker) + CleanedAll(groups[i + 1..], marker)
    ensures AnyTouched(groups[i..], marker) <==> Touched(groups[i], marker) || AnyTouched(groups[i + 1..], marker)
  {
  }

  predicate AnyTouched(groups: seq<Json>, marker: string) {
    groups != [] && (Touched(groups[0], marker) || AnyTouched(groups[1..], marker))
  }

  // ---- the settings file ----

  /** The permission request groups; `None` when either level is missing, `Err` when one has the wrong shape. */
  datatype Groups = Missing | Malformed | Found(groups: seq<Json>)

  function GroupsOf(config: Json): Groups {
    match Get(config, "hooks")
    case None => Missing
    case Some(Obj(events)) =>
      if "PermissionRequest" !in events then Missing
      else if events["PermissionRequest"].Arr? then Found(events["PermissionRequest"].items)
      else Malformed
    case Some(_) => Malformed
  }

  function Events(config: Json): map<string, Json> {
    match Get(config, "hooks")
    case Some(Obj(events)) => events
    case _ => map[]
  }

  /** The same settings with these permission request groups. */
  function WithGroups(config: Json, groups: seq<Json>): Json
    requires config.Obj?
  {
    Obj(config.fields["hooks" := Obj(Events(config)["PermissionRequest" := Arr(groups)])])
  }

  /** `remove_owned_hook`: `None` is its error. */
  function Remove(config: Json, h: Harness): Option<Json>
    requires config.Obj?
  {
    match GroupsOf(config)
    case Missing => Some(config)
    case Malformed => None
    case Found(groups) => Some(WithGroups(config, CleanedAll(groups, Marker(h))))
  }

  function Command(h: Harness, executable: string): string {
    Q.SingleQuoted(executable) + Q.Spaced(["approvals", "request", "--harness", Name(h), "--managed-hook=" + Marker(h)])
  }

  function ManagedHandler(h: Harness, executable: string): Json {
    Obj(map["type" := Str("command"), "command" := Str(Command(h, executable)),
            "timeout" := Num(TIMEOUT_SECONDS), "statusMessage" := Str(STATUS)])
  }

  function ManagedGroup(h: Harness, executable: string): Json {
    Obj(map["hooks" := Arr([ManagedHandler(h, executable)])])
  }

  /** `install_harness_at` on the parsed file. */
  function Install(config: Json, h: Harness, executable: string): Option<Json>
    requires config.Obj?
  {
    match Remove(config, h)
    case None => None
    case Some(clean) =>
      match GroupsOf(clean)
      case Malformed => None
      case Missing => Some(WithGroups(clean, [ManagedGroup(h, executable)]))
      case Found(groups) => Some(WithGroups(clean, groups + [ManagedGroup(h, executable)]))
  }

  // ---- as the loops run ----

  method RetainForeign(handlers: seq<Json>, marker: string) returns (kept: seq<Json>)
    ensures kept == Foreign(handlers, marker)
  {
    kept := [];
    var i := 0;
    while i < |handlers|
      invariant 0 <= i <= |handlers|
      invariant Foreign(handlers, marker) == kept + Foreign(handlers[i..], marker)
    {
      var handler := handlers[i];
      if !Owned(handler, marker) {
        kept := kept + [handler];
      }
      i := i + 1;
    }
  }

  /** One turn of the loop: what is left of a group, and whether anything was taken out of it. */
  method CleanGroup(group: Json, marker: string) returns (kept: seq<Json>, removed: bool)
    ensures removed <==> Touched(group, marker)
    ensures kept == Left(group, marker)
  {
    if Handlers(group).None? {
      return [group], false;
    }
    var before := Handlers(group).value;
    var handlers := RetainForeign(before, marker);
    removed := |handlers| != |before|;
    var cleaned := Obj(group.fields["hooks" := Arr(handlers)]);
    assert cleaned.fields.Keys == group.fields.Keys;
    var otherwiseEmpty := forall key :: key in cleaned.fields ==> key == "hooks" || key == "matcher";
    assert otherwiseEmpty <==> forall key :: key in group.fields ==> key == "hooks" || key == "matcher" by {
      assert forall key :: key in cleaned.fields <==> key in group.fields;
    }
    kept := if removed && handlers == [] && otherwiseEmpty then [] else [cleaned];
  }

  /** The loop over the groups, taking each in turn and keeping what is left of it. */
  method CleanGroups(groups: seq<Json>, marker: string) returns (retained: seq<Json>, changed: bool)
    ensures retained == CleanedAll(groups, marker)
    ensures changed <==> AnyTouched(groups, marker)
  {
    retained, changed := [], false;
    var i := 0;
    assert groups[0..] == groups;
    while i < |groups|
      invariant 0 <= i <= |groups|
      invariant CleanedAll(groups, marker) == retained + CleanedAll(groups[i..], marker)
      invariant AnyTouched(groups, marker) <==> changed || AnyTouched(groups[i..], marker)
    {
      var kept, removed := CleanGroup(groups[i], marker);
      ghost var rest := CleanedAll(groups[i + 1..], marker);
      CleanedFrom(groups, marker, i);
      Associates(retained, kept, rest);
      retained := retained + kept;
      changed := changed || removed;
      i := i + 1;
    }
    assert groups[i..] == [];
  }

  /** A settings file as the commands edit it in place. */
  class SettingsFile {
    var config: Json

    /** `remove_owned_hook`: reports failure, and otherwise whether anything changed. */
    method RemoveOwnedHook(h: Harness) returns (ok: bool, changed: bool)
      requires config.Obj?
      modifies this
      ensures ok <==> Remove(old(config), h).Some?
      ensures config == if ok then Remove(old(config), h).value else old(config)
      ensures changed <==> GroupsOf(old(config)).Found? && AnyTouched(GroupsOf(old(config)).groups, Marker(h))
    {
      if Get(config, "hooks").None? {
        return true, false;
      }
      if !config.fields["hooks"].Obj? {
        return false, false;
      }
      var events := config.fields["hooks"].fields;
      if "PermissionRequest" !in events {
        return true, false;
      }
      if !events["PermissionRequest"].Arr? {
        return false, false;
      }
      var retained;
      retained, changed := CleanGroups(events["PermissionRequest"].items, Marker(h));
      config := Obj(config.fields["hooks" := Obj(events["PermissionRequest" := Arr(retained)])]);
      ok := true;
    }

    /** `install_harness_at`: on a malformed file nothing is written. */
    method InstallHarness(h: Harness, executable: string) returns (ok: bool)
      requires config.Obj?
      modifies this
      ensures ok <==> Install(old(config), h, executable).Some?
      ensures config == if ok then Install(old(config), h, executable).value else old(config)
    {
      var removed, _ := RemoveOwnedHook(h);
      if !removed {
        return false;
      }
      var events := map[];
      if Get(config, "hooks").Some? {
        events := config.fields["hooks"].fields;
      }
      var groups := [];
      if "PermissionRequest" in events {
        groups := events["PermissionRequest"].items;
      }
      assert [] + [ManagedGroup(h, executable)] == [ManagedGroup(h, executable)];
      groups := groups + [ManagedGroup(h, executable)];
      config := Obj(config.fields["hooks" := Obj(events["PermissionRequest" := Arr(groups)])]);
      ok := true;
    }
  }

  lemma Associates(a: seq<Json>, b: seq<Json>, c: seq<Json>)
    ensures a + (b + c) == (a + b) + c
  {
  }
}
