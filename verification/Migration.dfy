// Moving an agent identity's box secret out of agent.json (agent/src/lib.rs).
module Migration {
  import opened Prelude

  const VERSION: nat := 1

  /** `IdentityFileV1`. */
  datatype File = File(version: nat, signing: Bytes, boxSecret: Option<Bytes>, boxRef: Option<string>, tokenHash: Bytes)

  /** What a path holds: an identity file, or bytes that do not decode as one. */
  datatype Content = Decodes(file: File) | Partial(bytes: Bytes)

  /** `agent.json`, `agent.json.prev`, their two staging files, and the secret store. */
  datatype Disk = Disk(
    live: Option<Content>,
    prev: Option<Content>,
    staged: Option<Content>,
    prevStaged: Option<Content>,
    store: map<string, Bytes>)

  datatype Loaded =
    | Identity(signing: Bytes, secret: Bytes, boxRef: string, tokenHash: Bytes)
    | Refused     // the load reported an error of its own
    | Stopped     // an I/O call failed, or the process died

  /** The points at which a load can be cut short: before each effect, and after the last. */
  const READ: nat := 0
  const STAGE_PREV: nat := 1
  const FLUSH_PREV: nat := 2
  const RENAME_PREV: nat := 3
  const PUT: nat := 4
  const STAGE_LIVE: nat := 5
  const FLUSH_LIVE: nat := 6
  const RENAME_LIVE: nat := 7
  const COMPLETE: nat := 9

  function Stripped(f: File, boxRef: string): File {
    File(VERSION, f.signing, None, Some(boxRef), f.tokenHash)
  }

  /** The disk after `persist_identity_prev` ran up to the cut. */
  function PrevPersisted(d: Disk, cut: nat): Disk {
    if d.prev.Some? || cut <= STAGE_PREV then d
    else if cut <= FLUSH_PREV then d.(prevStaged := Some(Partial([])))
    else if cut <= RENAME_PREV then d.(prevStaged := d.live)
    else d.(prevStaged := None, prev := d.live)
  }

  /** The disk after `write_identity_file` replaced the live file, up to the cut. */
  function LiveReplaced(d: Disk, f: File, cut: nat): Disk {
    if cut <= STAGE_LIVE then d
    else if cut <= FLUSH_LIVE then d.(staged := Some(Partial([])))
    else if cut <= RENAME_LIVE then d.(staged := Some(Decodes(f)))
    else d.(staged := None, live := Some(Decodes(f)))
  }

  function Migrated(d: Disk, f: File, secret: Bytes, boxRef: string, cut: nat): Disk {
    var saved := PrevPersisted(d, cut);
    if |secret| != 32 || cut <= PUT then saved
    else LiveReplaced(saved.(store := saved.store[boxRef := secret]), Stripped(f, boxRef), cut)
  }

  /** Whether a signing key on disk can be used, in software or in the enclave. */
  type KeyParser = Bytes -> bool

  /** `load_with` on a fresh reference, cut short before the given effect. */
  function Load(d: Disk, boxRef: string, cut: nat, parses: KeyParser): (Disk, Loaded) {
    if cut == READ || d.live.None? then (d, Stopped)
    else if d.live.value.Partial? || d.live.value.file.version != VERSION then (d, Refused)
    else
      var f := d.live.value.file;
      match (f.boxSecret, f.boxRef)
      case (Some(_), Some(_)) => (d, Refused)
      case (None, None) => (d, Refused)
      case (None, Some(r)) =>
        if cut < COMPLETE then (d, Stopped)
        else if r !in d.store then (d, Refused)
        else (d, Finished(f, d.store[r], r, parses))
      case (Some(secret), None) =>
        var t := Migrated(d, f, secret, boxRef, cut);
        if d.prev.None? && cut <= RENAME_PREV then (t, Stopped)
        else if |secret| != 32 then (t, Refused)
        else if cut < COMPLETE then (t, Stopped)
        else (t, Finished(f, secret, boxRef, parses))
  }

  /** What else a file needs to load. */
  predicate Usable(f: File, parses: KeyParser) {
    parses(f.signing) && |f.tokenHash| == 32
  }

  /** The checks left once the secret is in hand. */
  function Finished(f: File, secret: Bytes, boxRef: string, parses: KeyParser): Loaded {
    if !Usable(f, parses) then Refused else Identity(f.signing, secret, boxRef, f.tokenHash)
  }

  // ---- as the agent runs it ----

  class IdentityStore {
    var live: Option<Content>
    var prev: Option<Content>
    var staged: Option<Content>
    var prevStaged: Option<Content>
    var store: map<string, Bytes>

    ghost function State(): Disk
      reads this
    {
      Disk(live, prev, staged, prevStaged, store)
    }

    /** Leaves an existing `.prev` untouched; otherwise stages, flushes and renames. */
    method PersistPrev(original: Content, cut: nat) returns (ok: bool)
      requires live == Some(original)
      modifies this`prev, this`prevStaged
      ensures State() == PrevPersisted(old(State()), cut)
      ensures ok <==> old(prev).Some? || cut > RENAME_PREV
    {
      if prev.Some? {
        return true;
      }
      if cut <= STAGE_PREV { return false; }
      prevStaged := Some(Partial([]));
      if cut <= FLUSH_PREV { return false; }
      prevStaged := Some(original);
      if cut <= RENAME_PREV { return false; }
      prev, prevStaged := prevStaged, None;
      ok := true;
    }

    method ReplaceLive(f: File, cut: nat) returns (ok: bool)
      modifies this`live, this`staged
      ensures State() == LiveReplaced(old(State()), f, cut)
      ensures ok <==> cut > RENAME_LIVE
    {
      if cut <= STAGE_LIVE { return false; }
      staged := Some(Partial([]));
      if cut <= FLUSH_LIVE { return false; }
      staged := Some(Decodes(f));
      if cut <= RENAME_LIVE { return false; }
      live, staged := staged, None;
      ok := true;
    }

    method LoadWith(boxRef: string, cut: nat, parses: KeyParser) returns (r: Loaded)
      modifies this
      ensures (State(), r) == Load(old(State()), boxRef, cut, parses)
    {
      if cut == READ || live.None? { return Stopped; }
      var original := live.value;
      if original.Partial? || original.file.version != VERSION { return Refused; }
      var f := original.file;
      if f.boxSecret.Some? == f.boxRef.Some? { return Refused; }
      if f.boxRef.Some? {
        if cut < COMPLETE { return Stopped; }
        if f.boxRef.value !in store { return Refused; }
        return Finished(f, store[f.boxRef.value], f.boxRef.value, parses);
      }
      var secret := f.boxSecret.value;
      var saved := PersistPrev(original, cut);
      if !saved { return Stopped; }
      if |secret| != 32 { return Refused; }
      if cut <= PUT { return Stopped; }
      store := store[boxRef := secret];
      var replaced := ReplaceLive(Stripped(f, boxRef), cut);
      if !replaced || cut < COMPLETE { return Stopped; }
      assert store[boxRef] == secret;
      r := Finished(f, secret, boxRef, parses);
    }
  }

  // ---- any number of interrupted loads ----

  /** One attempt: the random reference it draws, where it is cut short, and whether its key can be used then. */
  datatype Attempt = Attempt(boxRef: string, cut: nat, parses: KeyParser)

  function Reloaded(d: Disk, attempts: seq<Attempt>): Disk
    decreases |attempts|
  {
    if attempts == [] then d
    else
      var n := |attempts| - 1;
      Load(Reloaded(d, attempts[..n]), attempts[n].boxRef, attempts[n].cut, attempts[n].parses).0
  }

  /** References are drawn from 128 random bits: none repeats one already in use. */
  ghost predicate FreshRefs(d: Disk, attempts: seq<Attempt>)
    decreases |attempts|
  {
    attempts != [] ==>
      var n := |attempts| - 1;
      FreshRefs(d, attempts[..n]) && attempts[n].boxRef !in Reloaded(d, attempts[..n]).store
  }

  /** A legacy identity waiting to be moved, whatever copy an earlier identity left beside it. */
  ghost predicate Legacy(d: Disk, f: File) {
    && d.live == Some(Decodes(f))
    && f.version == 1 && f.boxRef.None? && f.boxSecret.Some? && |f.boxSecret.value| == 32
  }

  /** The live file is the original, or names a stored secret that is the original's. */
  ghost predicate Safe(d: Disk, f: File, before: Option<Content>) {
    && f.boxSecret.Some?
    && (before.Some? ==> d.prev == before)
    && (before.None? ==> d.prev.None? || d.prev == Some(Decodes(f)))
    && (|| d.live == Some(Decodes(f))
        || exists r :: Moved(d, f, r, before))
  }

  /** Only the secret has left the live file, and a copy is beside it. */
  ghost predicate Moved(d: Disk, f: File, r: string, before: Option<Content>) {
    && f.boxSecret.Some? && d.live == Some(Decodes(f.(boxSecret := None, boxRef := Some(r))))
    && r in d.store && d.store[r] == f.boxSecret.value
    && d.prev == (if before.None? then Some(Decodes(f)) else before)
  }

  lemma LoadKeepsSafe(d: Disk, f: File, a: Attempt, before: Option<Content>)
    requires Safe(d, f, before) && f.version == VERSION && f.boxRef.None? && |f.boxSecret.value| == 32
    requires a.boxRef !in d.store
    ensures Safe(Load(d, a.boxRef, a.cut, a.parses).0, f, before)
  {
    var t := Load(d, a.boxRef, a.cut, a.parses).0;
    if d.live == Some(Decodes(f)) {
      if a.cut > RENAME_LIVE {
        assert Moved(t, f, a.boxRef, before);
      } else {
        assert t.live == d.live;
      }
    } else {
      var r :| Moved(d, f, r, before);
      assert Moved(t, f, r, before);
    }
  }

  /**
    However many loads are cut short, wherever each one is, and whatever `.prev` was there: the
    signing key and token hash on disk are the original ones, and the box secret is still inline
    or in the store under the live reference.
   */
  lemma {:induction false} NothingIsLost(d: Disk, f: File, attempts: seq<Attempt>)
    requires Legacy(d, f) && FreshRefs(d, attempts)
    ensures Safe(Reloaded(d, attempts), f, d.prev)
    decreases |attempts|
  {
    if attempts != [] {
      var n := |attempts| - 1;
      NothingIsLost(d, f, attempts[..n]);
      LoadKeepsSafe(Reloaded(d, attempts[..n]), f, attempts[n], d.prev);
    }
  }

  /**
    Whatever happened before, a load that is not cut short returns the original identity,
    exactly if the original file's signing key and token hash are usable at all.
   */
  lemma {:induction false} NextLoadSucceeds(d: Disk, f: File, attempts: seq<Attempt>, boxRef: string, parses: KeyParser)
    requires Legacy(d, f) && FreshRefs(d, attempts)
    ensures var r := Load(Reloaded(d, attempts), boxRef, COMPLETE, parses).1;
            && (r.Identity? <==> parses(f.signing) && |f.tokenHash| == 32)
            && (r.Identity? ==> r.signing == f.signing && r.secret == f.boxSecret.value && r.tokenHash == f.tokenHash)
  {
    NothingIsLost(d, f, attempts);
  }

  /** And no load ever returns anything but the original identity. */
  lemma {:induction false} NoLoadReturnsAnother(d: Disk, f: File, attempts: seq<Attempt>, a: Attempt)
    requires Legacy(d, f) && FreshRefs(d, attempts)
    ensures var r := Load(Reloaded(d, attempts), a.boxRef, a.cut, a.parses).1;
            r.Identity? ==> r.signing == f.signing && r.secret == f.boxSecret.value && r.tokenHash == f.tokenHash
  {
    NothingIsLost(d, f, attempts);
  }

  /**
    With the secret store wiped, the original file is still there, live or as `.prev`, exactly
    when the live file was not replaced yet or no other identity's copy was in the way.
   */
  lemma StoreLossIsRecoverableIff(d: Disk, f: File, attempts: seq<Attempt>)
    requires Legacy(d, f) && FreshRefs(d, attempts)
    ensures var t := Reloaded(d, attempts).(store := map[]);
            t.live == Some(Decodes(f)) || t.prev == Some(Decodes(f)) <==>
            t.live == d.live || d.prev.None? || d.prev == Some(Decodes(f))
  {
    NothingIsLost(d, f, attempts);
  }

  /**
    Which files load, exactly: version 1, a usable signing key and token hash, and the secret in
    one place only, inline with its 32 bytes or in the store under the reference.
   */
  lemma LoadsIff(d: Disk, boxRef: string, parses: KeyParser)
    ensures Load(d, boxRef, COMPLETE, parses).1.Identity? <==>
            && d.live.Some? && d.live.value.Decodes?
            && var f := d.live.value.file;
               && f.version == 1 && parses(f.signing) && |f.tokenHash| == 32
               && (|| (f.boxSecret.Some? && f.boxRef.None? && |f.boxSecret.value| == 32)
                   || (f.boxSecret.None? && f.boxRef.Some? && f.boxRef.value in d.store))
  {
  }

  /** A file that is not a legacy one with a whole secret is never rewritten, however it is loaded. */
  lemma {:induction false} OtherFilesStay(d: Disk, attempts: seq<Attempt>)
    requires d.live.Some? ==>
               || d.live.value.Partial? || d.live.value.file.version != 1
               || d.live.value.file.boxRef.Some? || d.live.value.file.boxSecret.None?
               || |d.live.value.file.boxSecret.value| != 32
    ensures Reloaded(d, attempts).live == d.live && Reloaded(d, attempts).store == d.store
    decreases |attempts|
  {
    if attempts != [] {
      OtherFilesStay(d, attempts[..|attempts| - 1]);
    }
  }

  // ---- the saved copy ----

  /** Once `.prev` exists no load changes it. */
  lemma {:induction false} PrevIsWrittenOnce(d: Disk, attempts: seq<Attempt>)
    requires d.prev.Some?
    ensures Reloaded(d, attempts).prev == d.prev
    decreases |attempts|
  {
    if attempts != [] {
      PrevIsWrittenOnce(d, attempts[..|attempts| - 1]);
    }
  }

  /**
    After a finished migration the original can be restored from `.prev` exactly when there
    was no `.prev` before it, or that one already was the original: a copy left by an
    earlier identity is kept instead.
   */
  lemma PrevHoldsTheOriginalIff(d: Disk, f: File, boxRef: string, parses: KeyParser)
    requires d.live == Some(Decodes(f)) && f.version == VERSION && f.boxRef.None?
    requires f.boxSecret.Some? && |f.boxSecret.value| == 32
    ensures Load(d, boxRef, COMPLETE, parses).0.prev == Some(Decodes(f)) <==> d.prev.None? || d.prev == Some(Decodes(f))
  {
  }

  /** No load touches another identity's stored secret. */
  lemma {:induction false} OtherSecretsStay(d: Disk, attempts: seq<Attempt>, r: string)
    requires FreshRefs(d, attempts) && r in d.store
    ensures r in Reloaded(d, attempts).store && Reloaded(d, attempts).store[r] == d.store[r]
    decreases |attempts|
  {
    if attempts != [] {
      OtherSecretsStay(d, attempts[..|attempts| - 1], r);
    }
  }

  // ---- a new identity ----

  datatype SaveFault = NoFault | PutFails | CreateFails | WriteFails

  /** `save_new_with`: store the secret, then create the file; on failure take the secret back. */
  function SaveNew(d: Disk, signing: Bytes, secret: Bytes, tokenHash: Bytes, boxRef: string,
                   fault: SaveFault, removeOk: bool): (Disk, bool) {
    if fault.PutFails? then (d, false)
    else
      var put := d.(store := d.store[boxRef := secret]);
      var undone := if removeOk then put.(store := put.store - {boxRef}) else put;
      if d.live.Some? || fault.CreateFails? then (undone, false)
      else if fault.WriteFails? then (undone.(live := Some(Partial([]))), false)
      else (put.(live := Some(Decodes(File(VERSION, signing, None, Some(boxRef), tokenHash)))), true)
  }

  /** What is saved loads back as itself. */
  lemma SaveLoadRoundTrip(d: Disk, signing: Bytes, secret: Bytes, tokenHash: Bytes, boxRef: string, other: string,
                          fault: SaveFault, removeOk: bool, parses: KeyParser)
    requires |tokenHash| == 32 && parses(signing)
    ensures var (t, ok) := SaveNew(d, signing, secret, tokenHash, boxRef, fault, removeOk);
            && (ok <==> d.live.None? && fault.NoFault?)
            && (ok ==> Load(t, other, COMPLETE, parses) == (t, Identity(signing, secret, boxRef, tokenHash)))
  {
  }

  /** An existing identity is never replaced. */
  lemma SaveKeepsExisting(d: Disk, signing: Bytes, secret: Bytes, tokenHash: Bytes, boxRef: string,
                          fault: SaveFault, removeOk: bool)
    requires d.live.Some?
    ensures SaveNew(d, signing, secret, tokenHash, boxRef, fault, removeOk).0.live == d.live
  {
  }

  /**
    A failed save leaves nothing behind exactly when the stored secret could be taken back
    and the file was never created: a write that fails after creation leaves a partial file.
   */
  lemma FailedSaveLeavesNothingIff(d: Disk, signing: Bytes, secret: Bytes, tokenHash: Bytes, boxRef: string,
                                   fault: SaveFault, removeOk: bool)
    requires boxRef !in d.store
    requires !SaveNew(d, signing, secret, tokenHash, boxRef, fault, removeOk).1
    ensures SaveNew(d, signing, secret, tokenHash, boxRef, fault, removeOk).0 == d <==>
            fault.PutFails? || (removeOk && (d.live.Some? || fault.CreateFails?))
  {
  }
}
