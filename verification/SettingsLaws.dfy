// What installing and removing the managed hook does to everything else in the file.
module SettingsLaws {
  import opened Prelude
  import opened Settings
  import Q = Quoting

  // ---- cleaning ----

  lemma {:induction false} ForeignKeeps(hs: seq<Json>, m: string)
    ensures Foreign(Foreign(hs, m), m) == Foreign(hs, m)
    ensures |Foreign(hs, m)| == |hs| ==> Foreign(hs, m) == hs
  {
    if hs != [] {
      ForeignKeeps(hs[1..], m);
      var rest := Foreign(hs[1..], m);
      if !Owned(hs[0], m) {
        assert ([hs[0]] + rest)[1..] == rest;
        assert [hs[0]] + hs[1..] == hs;
      }
    }
  }

  lemma CleanedGroup(g: Json, m: string)
    ensures !Touched(Cleaned(g, m), m) && !OnlyOurs(Cleaned(g, m), m)
    ensures Cleaned(Cleaned(g, m), m) == Cleaned(g, m)
    ensures !Touched(g, m) ==> Cleaned(g, m) == g && Left(g, m) == [g]
    ensures Handlers(Cleaned(g, m)) == (if Handlers(g).None? then None else Some(Foreign(Handlers(g).value, m)))
  {
    if Handlers(g).Some? {
      var hs := Handlers(g).value;
      ForeignKeeps(hs, m);
      var c := Cleaned(g, m);
      assert c.fields["hooks" := Arr(Foreign(hs, m))] == c.fields;
      if !Touched(g, m) {
        assert g.fields["hooks" := Arr(hs)] == g.fields;
      }
    }
  }

  lemma {:induction false} CleanedKeeps(gs: seq<Json>, m: string)
    ensures !AnyTouched(CleanedAll(gs, m), m)
    ensures CleanedAll(CleanedAll(gs, m), m) == CleanedAll(gs, m)
  {
    if gs != [] {
      CleanedKeeps(gs[1..], m);
      CleanedGroup(gs[0], m);
      var rest := CleanedAll(gs[1..], m);
      if !OnlyOurs(gs[0], m) {
        assert ([Cleaned(gs[0], m)] + rest)[1..] == rest;
      } else {
        assert [] + rest == rest;
      }
    }
  }

  lemma {:induction false} UntouchedStay(gs: seq<Json>, m: string)
    requires !AnyTouched(gs, m)
    ensures CleanedAll(gs, m) == gs
  {
    if gs != [] {
      CleanedGroup(gs[0], m);
      UntouchedStay(gs[1..], m);
      assert [gs[0]] + gs[1..] == gs;
    }
  }

  lemma {:induction false} CleanedConcat(a: seq<Json>, b: seq<Json>, m: string)
    ensures CleanedAll(a + b, m) == CleanedAll(a, m) + CleanedAll(b, m)
  {
    if a == [] {
      assert a + b == b;
    } else {
      assert (a + b)[1..] == a[1..] + b;
      CleanedConcat(a[1..], b, m);
    }
  }

  // ---- whose handler it is ----

  /** A command handler with the marker somewhere in its command line. */
  ghost predicate Mentions(handler: Json, m: string) {
    && handler.Obj?
    && "type" in handler.fields && handler.fields["type"] == Str("command")
    && "command" in handler.fields && handler.fields["command"].Str?
    && exists a, b :: handler.fields["command"].s == a + m + b
  }

  lemma {:induction false} ContainsIff(s: string, part: string)
    ensures Contains(s, part) <==> exists a, b :: s == a + part + b
  {
    if part <= s {
      assert s == [] + part + s[|part|..];
    } else if s == [] {
      assert forall a, b :: |a + part + b| >= |part|;
    } else {
      ContainsIff(s[1..], part);
      if Contains(s, part) {
        var a, b :| s[1..] == a + part + b;
        assert s == ([s[0]] + a) + part + b;
      }
      if exists a, b :: s == a + part + b {
        var a, b :| s == a + part + b;
        Shifted(a, part, b);
        assert s[1..] == a[1..] + part + b;
      }
    }
  }

  lemma Shifted(a: string, part: string, b: string)
    requires !(part <= a + part + b)
    ensures a != [] && (a + part + b)[1..] == a[1..] + part + b
  {
    assert a == [] ==> a + part + b == part + b;
  }

  lemma OwnedIff(handler: Json, m: string)
    ensures Owned(handler, m) <==> Mentions(handler, m)
  {
    if handler.Obj? && "command" in handler.fields && handler.fields["command"].Str? {
      ContainsIff(handler.fields["command"].s, m);
    }
  }

  /** Each handler in its turn: the mentioning ones go, every other one stays where it stands. */
  lemma {:induction false} HandlerStaysIff(a: seq<Json>, x: Json, b: seq<Json>, m: string)
    ensures Foreign(a + [x] + b, m) == Foreign(a, m) + (if Mentions(x, m) then [] else [x]) + Foreign(b, m)
  {
    var all := a + [x] + b;
    if a == [] {
      OwnedIff(x, m);
      assert all[0] == x && all[1..] == b;
    } else {
      assert all[0] == a[0] && all[1..] == a[1..] + [x] + b;
      HandlerStaysIff(a[1..], x, b, m);
    }
  }

  /** None of the group's handlers mentions the marker. */
  ghost predicate NoneMentions(hs: seq<Json>, m: string) {
    forall i :: 0 <= i < |hs| ==> !Mentions(hs[i], m)
  }

  lemma {:induction false} ForeignMentionsNone(hs: seq<Json>, m: string)
    ensures NoneMentions(Foreign(hs, m), m)
    ensures |Foreign(hs, m)| == |hs| <==> NoneMentions(hs, m)
    ensures Foreign(hs, m) == [] <==> forall i :: 0 <= i < |hs| ==> Mentions(hs[i], m)
  {
    if hs != [] {
      OwnedIff(hs[0], m);
      ForeignMentionsNone(hs[1..], m);
      assert forall i :: 0 < i < |hs| ==> hs[i] == hs[1..][i - 1];
      if !Owned(hs[0], m) {
        assert forall i :: 0 < i < |Foreign(hs, m)| ==> Foreign(hs, m)[i] == Foreign(hs[1..], m)[i - 1];
      }
    }
  }

  lemma TouchedIff(g: Json, m: string)
    ensures Touched(g, m) <==> Handlers(g).Some? && !NoneMentions(Handlers(g).value, m)
  {
    if Handlers(g).Some? {
      ForeignMentionsNone(Handlers(g).value, m);
    }
  }

  /** A group disappears exactly when it held handlers, all of them the hook's, and nothing else but a matcher. */
  lemma GroupGoesIff(g: Json, m: string)
    ensures Left(g, m) == [] <==>
            && g.Obj? && "hooks" in g.fields && g.fields["hooks"].Arr?
            && g.fields["hooks"].items != []
            && (forall i :: 0 <= i < |g.fields["hooks"].items| ==> Mentions(g.fields["hooks"].items[i], m))
            && g.fields.Keys <= {"hooks", "matcher"}
  {
    if Handlers(g).Some? {
      ForeignMentionsNone(Handlers(g).value, m);
    }
  }

  ghost predicate NoGroupMentions(gs: seq<Json>, m: string) {
    forall i :: 0 <= i < |gs| && Handlers(gs[i]).Some? ==> NoneMentions(Handlers(gs[i]).value, m)
  }

  lemma {:induction false} AnyTouchedIff(gs: seq<Json>, m: string)
    ensures AnyTouched(gs, m) <==> !NoGroupMentions(gs, m)
  {
    if gs != [] {
      TouchedIff(gs[0], m);
      AnyTouchedIff(gs[1..], m);
      assert forall i :: 0 < i < |gs| ==> gs[i] == gs[1..][i - 1];
    }
  }

  /** Each group in its turn. */
  lemma CleanedBetween(a: seq<Json>, g: Json, b: seq<Json>, m: string)
    ensures CleanedAll(a + [g] + b, m) == CleanedAll(a, m) + Left(g, m) + CleanedAll(b, m)
  {
    CleanedConcat(a + [g], b, m);
    CleanedConcat(a, [g], m);
    CleanedOne(g, m);
  }

  lemma CleanedOne(g: Json, m: string)
    ensures CleanedAll([g], m) == Left(g, m)
  {
    assert [g][1..] == [];
    assert CleanedAll([g], m) == Left(g, m) + CleanedAll([], m) == Left(g, m) + [];
  }

  // ---- the file around the groups ----

  lemma WithGroupsReads(c: Json, gs: seq<Json>)
    requires c.Obj?
    ensures GroupsOf(WithGroups(c, gs)) == Found(gs)
    ensures forall hs :: WithGroups(WithGroups(c, gs), hs) == WithGroups(c, hs)
  {
    var t := WithGroups(c, gs);
    forall hs
      ensures WithGroups(t, hs) == WithGroups(c, hs)
    {
      assert Events(t)["PermissionRequest" := Arr(hs)] == Events(c)["PermissionRequest" := Arr(hs)];
      assert t.fields["hooks" := WithGroups(c, hs).fields["hooks"]] == WithGroups(c, hs).fields;
    }
  }

  lemma WithGroupsSameIff(c: Json, gs: seq<Json>)
    requires c.Obj? && GroupsOf(c) != Malformed
    ensures WithGroups(c, gs) == c <==> GroupsOf(c) == Found(gs)
  {
    WithGroupsReads(c, gs);
    if GroupsOf(c) == Found(gs) {
      assert Events(c)["PermissionRequest" := Arr(gs)] == Events(c);
      assert c.fields["hooks" := Obj(Events(c))] == c.fields;
    }
  }

  lemma WithGroupsKeepsOthers(c: Json, gs: seq<Json>, key: string)
    requires c.Obj?
    ensures key != "hooks" ==> Get(WithGroups(c, gs), key) == Get(c, key)
    ensures key != "PermissionRequest" ==> SameEvent(c, WithGroups(c, gs), key)
  {
  }

  /** Another hook event reads the same in both files. */
  predicate SameEvent(c: Json, t: Json, key: string) {
    && (key in Events(t) <==> key in Events(c))
    && (key in Events(c) ==> Events(t)[key] == Events(c)[key])
  }

  // ---- the managed hook recognises itself ----

  lemma {:induction false} ContainsAtEnd(a: string, part: string)
    ensures Contains(a + part, part)
  {
    if a == [] {
      assert a + part == part;
    } else {
      ContainsAtEnd(a[1..], part);
      assert (a + part)[1..] == a[1..] + part;
    }
  }

  lemma {:induction false} ContainsAfter(a: string, b: string, part: string)
    requires Contains(b, part)
    ensures Contains(a + b, part)
  {
    if a == [] {
      assert a + b == b;
    } else {
      ContainsAfter(a[1..], b, part);
      assert (a + b)[1..] == a[1..] + b;
    }
  }

  lemma CommandContainsMarker(h: Harness, executable: string)
    ensures Contains(Command(h, executable), Marker(h))
  {
    var front, last := ["approvals", "request", "--harness", Name(h)], "--managed-hook=" + Marker(h);
    ContainsAtEnd("--managed-hook=", Marker(h));
    ContainsAfter(" ", last, Marker(h));
    ContainsAfter(Q.Spaced(front), " " + last, Marker(h));
    SpacedLast(front, last);
    assert front + [last] == ["approvals", "request", "--harness", Name(h), last];
    ContainsAfter(Q.SingleQuoted(executable), Q.Spaced(front + [last]), Marker(h));
  }

  lemma {:induction false} SpacedLast(front: seq<string>, last: string)
    ensures Q.Spaced(front + [last]) == Q.Spaced(front) + (" " + last)
  {
    if front == [] {
      assert front + [last] == [last];
      assert Q.Spaced([last]) == " " + last + Q.Spaced([last][1..]);
    } else {
      assert (front + [last])[1..] == front[1..] + [last];
      SpacedLast(front[1..], last);
    }
  }

  lemma ManagedIsOwned(h: Harness, executable: string)
    ensures Owned(ManagedHandler(h, executable), Marker(h))
    ensures OnlyOurs(ManagedGroup(h, executable), Marker(h))
    ensures CleanedAll([ManagedGroup(h, executable)], Marker(h)) == []
  {
    CommandContainsMarker(h, executable);
    var handlers := [ManagedHandler(h, executable)];
    assert Owned(handlers[0], Marker(h));
    assert Foreign(handlers, Marker(h)) == Foreign(handlers[1..], Marker(h)) == [];
    var group := ManagedGroup(h, executable);
    assert Handlers(group) == Some(handlers);
    var groups := [group];
    assert CleanedAll(groups, Marker(h)) == Left(groups[0], Marker(h)) + CleanedAll(groups[1..], Marker(h));
  }

  lemma MarkerIsPlain(h: Harness)
    ensures Q.Plain(Name(h)) && Q.Plain("--managed-hook=" + Marker(h))
  {
  }

  lemma MarkerSpelled(h: Harness)
    ensures Name(h) == if h == Codex then "codex" else "claude"
    ensures "--managed-hook=" + Marker(h) == "--managed-hook=oshioki-managed-hook-v1-" + Name(h)
  {
    Joined("--managed-hook=", "oshioki-managed-hook-v1-", Name(h));
    assert "--managed-hook=" + "oshioki-managed-hook-v1-" == "--managed-hook=oshioki-managed-hook-v1-";
  }

  lemma Joined(a: string, b: string, c: string)
    ensures a + (b + c) == (a + b) + c
  {
  }

  /** A shell runs the installed line as exactly this program with exactly these arguments. */
  lemma ManagedCommandWords(h: Harness, executable: string)
    ensures var name := if h == Codex then "codex" else "claude";
            Q.Words(Command(h, executable)) ==
            Some([executable] + ["approvals", "request", "--harness", name, "--managed-hook=oshioki-managed-hook-v1-" + name])
  {
    MarkerIsPlain(h);
    assert Q.Plain("approvals") && Q.Plain("request") && Q.Plain("--harness");
    MarkerSpelled(h);
    Q.CommandLineReads(executable, ["approvals", "request", "--harness", Name(h), "--managed-hook=" + Marker(h)]);
  }

  // ---- what the operator did not write is the only thing that changes ----

  /** What the operator wrote in a group: everything but the hook's handlers. */
  function Theirs(g: Json, m: string): (Json, Option<seq<Json>>) {
    if Handlers(g).None? then (g, None)
    else (Obj(g.fields - {"hooks"}), Some(Foreign(Handlers(g).value, m)))
  }

  /** The groups that are not the hook's alone, in order, each with what the operator wrote in it. */
  function Kept(gs: seq<Json>, m: string): seq<(Json, Option<seq<Json>>)> {
    if gs == [] then []
    else (if OnlyOurs(gs[0], m) then [] else [Theirs(gs[0], m)]) + Kept(gs[1..], m)
  }

  lemma CleanedIsTheirs(g: Json, m: string)
    ensures Theirs(Cleaned(g, m), m) == Theirs(g, m)
  {
    CleanedGroup(g, m);
    if Handlers(g).Some? {
      ForeignKeeps(Handlers(g).value, m);
      assert Cleaned(g, m).fields - {"hooks"} == g.fields - {"hooks"};
    }
  }

  /** Cleaning keeps every group that is not the hook's alone, in order, with all the operator wrote in it. */
  lemma {:induction false} ForeignGroupsStay(gs: seq<Json>, m: string)
    ensures Kept(CleanedAll(gs, m), m) == Kept(gs, m)
  {
    if gs != [] {
      ForeignGroupsStay(gs[1..], m);
      CleanedGroup(gs[0], m);
      CleanedIsTheirs(gs[0], m);
      var rest := CleanedAll(gs[1..], m);
      if OnlyOurs(gs[0], m) {
        assert [] + rest == rest;
      } else {
        assert ([Cleaned(gs[0], m)] + rest)[1..] == rest;
      }
    }
  }

  /** A group with no handler of the hook's survives verbatim where it stands, handlers or none. */
  lemma UntouchedGroupStays(a: seq<Json>, g: Json, b: seq<Json>, m: string)
    requires !Touched(g, m)
    ensures CleanedAll(a + [g] + b, m) == CleanedAll(a, m) + [g] + CleanedAll(b, m)
  {
    CleanedGroup(g, m);
    CleanedBetween(a, g, b, m);
  }

  // ---- removing ----

  /** Which files are refused, by both commands: `hooks` not a table, or its permission requests not a list. */
  lemma RefusedIff(c: Json, h: Harness, executable: string)
    requires c.Obj?
    ensures Install(c, h, executable).None? <==> Remove(c, h).None?
    ensures Remove(c, h).None? <==>
            && "hooks" in c.fields
            && (c.fields["hooks"].Obj? ==>
                  && "PermissionRequest" in c.fields["hooks"].fields
                  && !c.fields["hooks"].fields["PermissionRequest"].Arr?)
  {
    InstallMeaning(c, h, executable);
  }

  /** Removing changes the file exactly when an owned handler was there, and leaves none behind. */
  lemma RemoveMeaning(c: Json, h: Harness)
    requires c.Obj?
    ensures Remove(c, h).None? <==> GroupsOf(c).Malformed?
    ensures Remove(c, h).Some? ==>
              && (Remove(c, h).value == c <==> !(GroupsOf(c).Found? && AnyTouched(GroupsOf(c).groups, Marker(h))))
              && Remove(c, h).value.Obj?
              && Remove(Remove(c, h).value, h) == Remove(c, h)
  {
    if GroupsOf(c).Found? {
      var gs, m := GroupsOf(c).groups, Marker(h);
      var clean := CleanedAll(gs, m);
      CleanedKeeps(gs, m);
      WithGroupsReads(c, clean);
      WithGroupsSameIff(c, clean);
      if !AnyTouched(gs, m) {
        UntouchedStay(gs, m);
      }
    }
  }

  /** After a removal no handler mentions the marker, and only a mentioning one makes it change anything. */
  lemma RemoveMentionsNone(c: Json, h: Harness)
    requires c.Obj? && GroupsOf(c).Found?
    ensures GroupsOf(Remove(c, h).value).Found? && NoGroupMentions(GroupsOf(Remove(c, h).value).groups, Marker(h))
    ensures Remove(c, h).value == c <==> NoGroupMentions(GroupsOf(c).groups, Marker(h))
  {
    var gs, m := GroupsOf(c).groups, Marker(h);
    WithGroupsReads(c, CleanedAll(gs, m));
    CleanedKeeps(gs, m);
    AnyTouchedIff(CleanedAll(gs, m), m);
    AnyTouchedIff(gs, m);
    RemoveMeaning(c, h);
  }

  /** A handler that does not mention the marker survives a removal, between the same neighbours. */
  lemma ForeignHandlerStays(c: Json, h: Harness, a: seq<Json>, g: Json, b: seq<Json>, x: seq<Json>, handler: Json, y: seq<Json>)
    requires c.Obj? && GroupsOf(c) == Found(a + [g] + b) && Handlers(g) == Some(x + [handler] + y)
    requires !Mentions(handler, Marker(h))
    ensures var m := Marker(h);
            var kept := Obj(g.fields["hooks" := Arr(Foreign(x, m) + [handler] + Foreign(y, m))]);
            GroupsOf(Remove(c, h).value) == Found(CleanedAll(a, m) + [kept] + CleanedAll(b, m))
  {
    var m := Marker(h);
    KeepsHandler(g, x, handler, y, m);
    CleanedBetween(a, g, b, m);
    WithGroupsReads(c, CleanedAll(a + [g] + b, m));
  }

  lemma KeepsHandler(g: Json, x: seq<Json>, handler: Json, y: seq<Json>, m: string)
    requires Handlers(g) == Some(x + [handler] + y) && !Mentions(handler, m)
    ensures Left(g, m) == [Obj(g.fields["hooks" := Arr(Foreign(x, m) + [handler] + Foreign(y, m))])]
  {
    HandlerStaysIff(x, handler, y, m);
  }

  // ---- installing ----

  /** The groups an installation starts from. */
  function Before(c: Json): seq<Json> {
    if GroupsOf(c).Found? then GroupsOf(c).groups else []
  }

  /** Installing replaces whatever hook was there by one group of its own at the end. */
  lemma InstallMeaning(c: Json, h: Harness, executable: string)
    requires c.Obj?
    ensures Install(c, h, executable) ==
            if GroupsOf(c).Malformed? then None
            else Some(WithGroups(c, CleanedAll(Before(c), Marker(h)) + [ManagedGroup(h, executable)]))
  {
    if GroupsOf(c).Found? {
      WithGroupsReads(c, CleanedAll(Before(c), Marker(h)));
    } else if GroupsOf(c).Missing? {
      assert [] + [ManagedGroup(h, executable)] == [ManagedGroup(h, executable)];
    }
  }

  lemma CleanInstalled(gs: seq<Json>, h: Harness, executable: string)
    ensures CleanedAll(CleanedAll(gs, Marker(h)) + [ManagedGroup(h, executable)], Marker(h)) == CleanedAll(gs, Marker(h))
  {
    var m := Marker(h);
    CleanedConcat(CleanedAll(gs, m), [ManagedGroup(h, executable)], m);
    CleanedKeeps(gs, m);
    ManagedIsOwned(h, executable);
  }

  /** Installing twice, even from a moved executable, is installing once. */
  lemma InstallReplaces(c: Json, h: Harness, before: string, executable: string)
    requires c.Obj? && Install(c, h, before).Some?
    ensures Install(c, h, before).value.Obj?
    ensures Install(Install(c, h, before).value, h, executable) == Install(c, h, executable)
  {
    InstallMeaning(c, h, before);
    InstallMeaning(c, h, executable);
    var groups := CleanedAll(Before(c), Marker(h)) + [ManagedGroup(h, before)];
    var t := WithGroups(c, groups);
    WithGroupsReads(c, groups);
    InstallMeaning(t, h, executable);
    CleanInstalled(Before(c), h, before);
  }

  /** Exactly one handler of the file is then the hook's, and every foreign one is where it was. */
  lemma InstalledOnce(c: Json, h: Harness, executable: string)
    requires c.Obj? && Install(c, h, executable).Some?
    ensures var gs := Before(Install(c, h, executable).value);
            && gs != [] && gs[|gs| - 1] == ManagedGroup(h, executable)
            && !AnyTouched(gs[..|gs| - 1], Marker(h))
            && Kept(gs[..|gs| - 1], Marker(h)) == Kept(Before(c), Marker(h))
  {
    InstallMeaning(c, h, executable);
    var clean := CleanedAll(Before(c), Marker(h));
    WithGroupsReads(c, clean + [ManagedGroup(h, executable)]);
    assert (clean + [ManagedGroup(h, executable)])[..|clean|] == clean;
    CleanedKeeps(Before(c), Marker(h));
    ForeignGroupsStay(Before(c), Marker(h));
  }

  /**
    Uninstalling undoes installing exactly when the file already had a permission request
    list and no hook in it. Otherwise an empty list stays, or the older hook is gone too.
   */
  lemma UninstallUndoesInstallIff(c: Json, h: Harness, executable: string)
    requires c.Obj? && Install(c, h, executable).Some?
    ensures Install(c, h, executable).value.Obj?
    ensures Remove(Install(c, h, executable).value, h) == Some(WithGroups(c, CleanedAll(Before(c), Marker(h))))
    ensures Remove(Install(c, h, executable).value, h) == Some(c) <==>
            GroupsOf(c).Found? && !AnyTouched(GroupsOf(c).groups, Marker(h))
  {
    InstallMeaning(c, h, executable);
    var gs, m := Before(c), Marker(h);
    var clean := CleanedAll(gs, m);
    WithGroupsReads(c, clean + [ManagedGroup(h, executable)]);
    CleanInstalled(gs, h, executable);
    WithGroupsSameIff(c, clean);
    CleanedKeeps(gs, m);
    if !AnyTouched(gs, m) {
      UntouchedStay(gs, m);
    }
  }

  /** Neither installing nor removing touches any other setting or any other hook event. */
  lemma OtherSettingsStay(c: Json, h: Harness, executable: string, key: string)
    requires c.Obj?
    ensures Remove(c, h).Some? ==>
              && (key != "hooks" ==> Get(Remove(c, h).value, key) == Get(c, key))
              && (key != "PermissionRequest" ==> SameEvent(c, Remove(c, h).value, key))
    ensures Install(c, h, executable).Some? ==>
              && (key != "hooks" ==> Get(Install(c, h, executable).value, key) == Get(c, key))
              && (key != "PermissionRequest" ==> SameEvent(c, Install(c, h, executable).value, key))
  {
    InstallMeaning(c, h, executable);
    WithGroupsKeepsOthers(c, CleanedAll(Before(c), Marker(h)), key);
    WithGroupsKeepsOthers(c, CleanedAll(Before(c), Marker(h)) + [ManagedGroup(h, executable)], key);
  }
}
