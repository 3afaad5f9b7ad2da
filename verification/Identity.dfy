/**
 Resolving and importing the human identity key, over whole runs of boots. The durable
 state is the keyring slot, the `identity.key` file and the migration marker; every
 operation on it may fail, and what a failed or interrupted write left behind is open.
 */
module Identity {
  import opened Options

  datatype Key = Key(nsec: string)

  datatype Slot = Absent | Corrupt | Holds(key: Key)

  datatype Disk = Disk(keyring: Slot, file: Slot, marker: bool)

  /** What an operation left behind, independently of what it reported. */
  datatype Effect = Kept | Written | Garbled | Cleared

  datatype Reply = Reply(ok: bool, effect: Effect)

  /**
   The disk, and how the coming operations turn out. Past the end of the script every
   operation fails without effect, which is also what a crash looks like to the disk.
   */
  datatype World = World(disk: Disk, script: seq<Reply>)

  datatype Failure = LoadFailed | StoreFailed | VerifyFailed | SaveFailed | NotDurable

  datatype Recovery = NoRecovery | Lost | KeyringLocked

  datatype Storage = Ephemeral | SystemKeyring | LocalFile

  datatype Resolved = Resolved(key: Key, recovery: Recovery, storage: Storage)

  // ---- Operations ----

  function Head(w: World): Reply { if w.script == [] then Reply(false, Kept) else w.script[0] }

  function Rest(w: World): seq<Reply> { if w.script == [] then [] else w.script[1..] }

  function After(slot: Slot, effect: Effect, key: Key): Slot {
    match effect
    case Kept => slot
    case Written => Holds(key)
    case Garbled => Corrupt
    case Cleared => Absent
  }

  /** A keyring write may leave anything: the old entry, the new one, garbage, or nothing. */
  function StoreKey(w: World, key: Key): (World, bool) {
    (World(w.disk.(keyring := After(w.disk.keyring, Head(w).effect, key)), Rest(w)), Head(w).ok)
  }

  function DeleteEntry(w: World): World {
    var gone := Head(w).ok || Head(w).effect == Cleared;
    World(w.disk.(keyring := if gone then Absent else w.disk.keyring), Rest(w))
  }

  /** `Ok(true)` is truthful: it reads the OS backend, not the cache. */
  function VerifyStored(w: World, key: Key): (World, bool) {
    (w.(script := Rest(w)), Head(w).ok && w.disk.keyring == Holds(key))
  }

  /** Atomic and synced: success means the marker is on disk; a failure may have written it all the same. */
  function WriteMarker(w: World): (World, bool) {
    var written := Head(w).ok || Head(w).effect == Written;
    (World(w.disk.(marker := w.disk.marker || written), Rest(w)), Head(w).ok)
  }

  function SaveKeyFile(w: World, key: Key): (World, bool) {
    var written := Head(w).ok || Head(w).effect == Written;
    (World(w.disk.(file := if written then Holds(key) else w.disk.file), Rest(w)), Head(w).ok)
  }

  /** `remove_file`, and the rename that quarantines a corrupt file. */
  function RemoveFile(w: World): World {
    var gone := Head(w).ok || Head(w).effect == Cleared;
    World(w.disk.(file := if gone then Absent else w.disk.file), Rest(w))
  }

  // ---- The source's procedures ----

  function EnsureMarkerThenCleanup(w: World): World {
    var (w1, ok) := if w.disk.marker then (w, true) else WriteMarker(w);
    if ok && !w1.disk.file.Absent? then RemoveFile(w1) else w1
  }

  /** `Ok(None)` when the file is corrupt. */
  function MigrateIdentityFile(w: World): (World, Result<Option<Key>, Failure>) {
    if !w.disk.file.Holds? then (w, Ok(None))
    else
      var key := w.disk.file.key;
      var (w1, stored) := StoreKey(w, key);
      if !stored then (w1, Err(StoreFailed))
      else
        var (w2, verified) := VerifyStored(w1, key);
        if !verified then (w2, Err(VerifyFailed))
        else
          var (w3, marked) := WriteMarker(w2);
          (if marked then RemoveFile(w3) else w3, Ok(Some(key)))
  }

  function PersistToKeyring(w: World, key: Key): (World, Result<(), Failure>) {
    var (w1, stored) := StoreKey(w, key);
    if !stored then (w1, Err(StoreFailed))
    else
      var (w2, verified) := VerifyStored(w1, key);
      if !verified then (w2, Err(VerifyFailed))
      else
        var (w3, marked) := WriteMarker(w2);
        if !marked then
          if w3.disk.file.Absent? then
            var (w4, saved) := SaveKeyFile(w3, key);
            (w4, if saved then Ok(()) else Err(NotDurable))
          else (w3, Ok(()))
        else (if w3.disk.file.Absent? then w3 else RemoveFile(w3), Ok(()))
  }

  /** Stores without reading back; the file is the fallback for a refused write. */
  function GenerateAndPersist(w: World, newKey: Key): (World, Result<Resolved, Failure>) {
    var (w1, stored) := StoreKey(w, newKey);
    if stored then
      var (w2, marked) := WriteMarker(w1);
      if marked then (w2, Ok(Resolved(newKey, NoRecovery, SystemKeyring)))
      else
        var (w3, saved) := SaveKeyFile(w2, newKey);
        (w3, if saved then Ok(Resolved(newKey, NoRecovery, SystemKeyring)) else Err(SaveFailed))
    else
      var (w2, saved) := SaveKeyFile(w1, newKey);
      (w2, if saved then Ok(Resolved(newKey, NoRecovery, LocalFile)) else Err(SaveFailed))
  }

  function LoadFileOrGenerate(w: World, newKey: Key): (World, Result<Resolved, Failure>) {
    if w.disk.file.Holds? then (w, Ok(Resolved(w.disk.file.key, NoRecovery, LocalFile)))
    else
      var w1 := if w.disk.file.Corrupt? then RemoveFile(w) else w;
      var (w2, saved) := SaveKeyFile(w1, newKey);
      (w2, if saved then Ok(Resolved(newKey, NoRecovery, LocalFile)) else Err(SaveFailed))
  }

  function RecoverFromKeyring(w: World, newKey: Key): (World, Result<Resolved, Failure>) {
    var w1 := DeleteEntry(w);
    var (w2, migrated) := if w1.disk.file.Absent? then (w1, Ok(None)) else MigrateIdentityFile(w1);
    match migrated
    case Err(e) => (w2, Err(e))
    case Ok(Some(key)) => (w2, Ok(Resolved(key, NoRecovery, SystemKeyring)))
    case Ok(None) =>
      if w2.disk.marker then (w2, Ok(Resolved(newKey, Lost, Ephemeral)))
      else GenerateAndPersist(w2, newKey)
  }

  /** The keyring holds `key`, readable: settle a leftover file, then heal a missing marker. */
  function ResolvePresent(w: World, key: Key): (World, Result<Resolved, Failure>) {
    if w.disk.file.Holds? && w.disk.file.key != key then
      var (w1, adopted) := PersistToKeyring(w, w.disk.file.key);
      (w1, Ok(Resolved(w.disk.file.key, NoRecovery, if adopted.Ok? then SystemKeyring else LocalFile)))
    else
      var w1 := if w.disk.file.Absent? then w else EnsureMarkerThenCleanup(w);
      var w2 := if w1.disk.file.Absent? && !w1.disk.marker then WriteMarker(w1).0 else w1;
      (w2, Ok(Resolved(key, NoRecovery, SystemKeyring)))
  }

  /**
   How the keyring answers this boot: not at all; truly; or with an entry the probe finds and the load does not,
   which the source treats as nothing stored.
   */
  datatype Probe = Unreachable | Answers | LoadsNothing

  /** The probe found an entry and the load went through. */
  function ResolveLoaded(w: World, probe: Probe, newKey: Key): (World, Result<Resolved, Failure>)
    requires !w.disk.keyring.Absent?
  {
    if probe.LoadsNothing? then GenerateAndPersist(w, newKey)
    else match w.disk.keyring
      case Corrupt => RecoverFromKeyring(w, newKey)
      case Holds(key) => ResolvePresent(w, key)
  }

  function Resolve(w: World, probe: Probe, newKey: Key): (World, Result<Resolved, Failure>) {
    if probe.Unreachable? then
      if w.disk.file.Absent? && w.disk.marker then (w, Ok(Resolved(newKey, KeyringLocked, Ephemeral)))
      else LoadFileOrGenerate(w, newKey)
    else
      match w.disk.keyring
      case Absent =>
        if w.disk.file.Absent? then
          if w.disk.marker then (w, Ok(Resolved(newKey, Lost, Ephemeral))) else GenerateAndPersist(w, newKey)
        else
          var (w1, migrated) := MigrateIdentityFile(w);
          match migrated {
            case Err(e) => (w1, Err(e))
            case Ok(Some(key)) => (w1, Ok(Resolved(key, NoRecovery, SystemKeyring)))
            case Ok(None) => GenerateAndPersist(w1, newKey)
          }
      case _ =>
        if !Head(w).ok then (w, Err(LoadFailed)) else ResolveLoaded(w.(script := Rest(w)), probe, newKey)
  }

  function Import(w: World, key: Key): (World, Result<Storage, Failure>) {
    var (w1, persisted) := PersistToKeyring(w, key);
    if persisted.Ok? then (w1, Ok(SystemKeyring))
    else
      var (w2, saved) := SaveKeyFile(w1, key);
      (w2, if saved then Ok(LocalFile) else Err(SaveFailed))
  }

  // ---- Boots ----

  /** One launch: how the keyring answers, the key generated if one is, how each operation turns out. */
  datatype Boot = Boot(probe: Probe, newKey: Key, replies: seq<Reply>)

  function Launch(d: Disk, b: Boot): (Disk, Result<Resolved, Failure>) {
    var (w, r) := Resolve(World(d, b.replies), b.probe, b.newKey);
    (w.disk, r)
  }

  function Launches(d: Disk, boots: seq<Boot>): Disk {
    if boots == [] then d else Launch(Launches(d, boots[..|boots| - 1]), boots[|boots| - 1]).0
  }

  /** The identity the disk stands for: a readable file wins over the keyring. */
  function Durable(d: Disk): Option<Key> {
    if d.file.Holds? then Some(d.file.key) else if d.keyring.Holds? then Some(d.keyring.key) else None
  }

  /** No boot, whatever happens during it, can lose or replace the identity. */
  predicate Safe(d: Disk) {
    d.file.Holds? || (d.file.Absent? && d.marker && d.keyring.Holds?)
  }

  predicate Same(d: Disk, e: Disk) { Safe(e) && Durable(e) == Durable(d) }

  /** The backend a boot or import reports really holds the key. */
  predicate Backed(d: Disk, key: Key, storage: Storage) {
    match storage
    case SystemKeyring => d.keyring == Holds(key)
    case LocalFile => d.file == Holds(key)
    case Ephemeral => true
  }

  lemma PersistOwnFile(w: World)
    requires w.disk.file.Holds?
    ensures var key := w.disk.file.key; var (w1, r) := PersistToKeyring(w, key);
            Same(w.disk, w1.disk) && (if r.Ok? then w1.disk.keyring == Holds(key) else w1.disk.file == Holds(key))
  {
  }

  lemma MigrateKeeps(w: World)
    requires w.disk.file.Holds?
    ensures var (w1, r) := MigrateIdentityFile(w);
            && Same(w.disk, w1.disk)
            && (r.Ok? ==> r.value == Some(w.disk.file.key) && w1.disk.keyring == Holds(w.disk.file.key))
  {
  }

  lemma PresentKeeps(w: World)
    requires w.disk.keyring.Holds? && Safe(w.disk)
    ensures var (w1, r) := ResolvePresent(w, w.disk.keyring.key);
            && Same(w.disk, w1.disk)
            && r.Ok? && r.value.recovery.NoRecovery? && Some(r.value.key) == Durable(w.disk)
            && Backed(w1.disk, r.value.key, r.value.storage)
  {
    if w.disk.file.Holds? && w.disk.file.key != w.disk.keyring.key {
      PersistOwnFile(w);
    }
  }

  lemma RecoverKeeps(w: World, newKey: Key)
    requires w.disk.file.Holds?
    ensures var (w1, r) := RecoverFromKeyring(w, newKey);
            && Same(w.disk, w1.disk)
            && (r.Ok? ==>
                  && r.value == Resolved(w.disk.file.key, NoRecovery, SystemKeyring)
                  && w1.disk.keyring == Holds(w.disk.file.key))
  {
    MigrateKeeps(DeleteEntry(w));
  }

  /** What the probe found is what the load returned. */
  predicate Faithful(d: Disk, probe: Probe) { probe.LoadsNothing? ==> d.keyring.Absent? }

  lemma ResolveKeeps(w: World, probe: Probe, newKey: Key)
    requires Safe(w.disk) && Faithful(w.disk, probe)
    ensures var (w1, r) := Resolve(w, probe, newKey);
            && Same(w.disk, w1.disk)
            && (r.Ok? && r.value.recovery.NoRecovery? ==>
                  Some(r.value.key) == Durable(w.disk) && Backed(w1.disk, r.value.key, r.value.storage))
            && (r.Ok? && !r.value.recovery.NoRecovery? ==>
                  r.value.recovery.KeyringLocked? && probe.Unreachable? && w1.disk == w.disk)
  {
    if !probe.Unreachable? {
      match w.disk.keyring
      case Absent => MigrateKeeps(w);
      case Corrupt => RecoverKeeps(w.(script := Rest(w)), newKey);
      case Holds(_) => PresentKeeps(w.(script := Rest(w)));
    }
  }

  /**
   One boot from a safe state: the identity is unchanged and still safe wherever the boot
   stopped; a boot that returns without recovery returns that identity and names a backend
   that holds it; the only recovery is a locked keyring, with nothing persisted.
   */
  lemma BootKeepsIdentity(d: Disk, b: Boot)
    requires Safe(d) && Faithful(d, b.probe)
    ensures var (e, r) := Launch(d, b);
            && Same(d, e)
            && (r.Ok? && r.value.recovery.NoRecovery? ==>
                  Some(r.value.key) == Durable(d) && Backed(e, r.value.key, r.value.storage))
            && (r.Ok? && !r.value.recovery.NoRecovery? ==>
                  r.value.recovery.KeyringLocked? && b.probe.Unreachable? && e == d)
  {
    ResolveKeeps(World(d, b.replies), b.probe, b.newKey);
  }

  /** A boot without recovery from a safe state runs as the identity exactly when its load agreed with its probe. */
  lemma RunsAsIdentityIffFaithful(d: Disk, b: Boot)
    requires Safe(d) && Some(b.newKey) != Durable(d)
    requires Launch(d, b).1.Ok? && Launch(d, b).1.value.recovery.NoRecovery?
    ensures Some(Launch(d, b).1.value.key) == Durable(d) <==> Faithful(d, b.probe)
  {
    if Faithful(d, b.probe) { BootKeepsIdentity(d, b); }
  }

  ghost predicate AllFaithful(boots: seq<Boot>) {
    forall i :: 0 <= i < |boots| ==> !boots[i].probe.LoadsNothing?
  }

  /** Identity survives every run of boots. */
  lemma {:induction false} RunKeepsIdentity(d: Disk, boots: seq<Boot>)
    requires Safe(d) && AllFaithful(boots)
    ensures Same(d, Launches(d, boots))
    ensures boots != [] ==>
              var r := Launch(Launches(d, boots[..|boots| - 1]), boots[|boots| - 1]).1;
              r.Ok? && r.value.recovery.NoRecovery? ==> Some(r.value.key) == Durable(d)
  {
    if boots != [] {
      RunKeepsIdentity(d, boots[..|boots| - 1]);
      BootKeepsIdentity(Launches(d, boots[..|boots| - 1]), boots[|boots| - 1]);
    }
  }

  const WORKS := Reply(true, Written)
  const FAILS := Reply(false, Kept)

  function OtherKey(key: Key): (other: Key)
    ensures other != key
  {
    Key(key.nsec + ['x'])
  }

  /** The launch that rotates an identity that is not safe: the keyring does not answer and a new file is written. */
  lemma UnsafeRotates(d: Disk)
    requires Durable(d).Some? && !Safe(d)
    ensures var b := Boot(Unreachable, OtherKey(Durable(d).value), [WORKS, WORKS]);
            Durable(Launch(d, b).0) == Some(b.newKey) && Durable(Launch(d, b).0) != Durable(d)
  {
  }

  /** Safety is exactly what it takes: of the states that have an identity, those no boot can take it from. */
  lemma SafeIffNoBootRotates(d: Disk)
    requires Durable(d).Some?
    ensures Safe(d) <==> forall b: Boot :: Faithful(d, b.probe) ==> Durable(Launch(d, b).0) == Durable(d)
  {
    if Safe(d) {
      forall b: Boot | Faithful(d, b.probe) ensures Durable(Launch(d, b).0) == Durable(d) {
        BootKeepsIdentity(d, b);
      }
    } else {
      UnsafeRotates(d);
    }
  }

  // ---- Fail closed ----

  /** Migrated once, and the key is in neither place now. */
  predicate KeyIsGone(d: Disk) { d.file.Absent? && d.marker && !d.keyring.Holds? }

  /** A lost identity is never silently replaced: no run of boots persists another or runs without recovery. */
  lemma {:induction false} LostStaysLost(d: Disk, boots: seq<Boot>)
    requires KeyIsGone(d) && AllFaithful(boots)
    ensures KeyIsGone(Launches(d, boots))
    ensures boots != [] ==>
              var r := Launch(Launches(d, boots[..|boots| - 1]), boots[|boots| - 1]).1;
              r.Ok? ==> !r.value.recovery.NoRecovery? && r.value.storage.Ephemeral?
  {
    if boots != [] {
      LostStaysLost(d, boots[..|boots| - 1]);
    }
  }

  // ---- The first boot ----

  function At(replies: seq<Reply>, i: nat): Reply { if i < |replies| then replies[i] else FAILS }

  /** The keyring said `Ok`, kept no key, and the marker then vouched for it. */
  predicate FalseOk(replies: seq<Reply>, i: nat) {
    At(replies, i).ok && At(replies, i).effect != Written && At(replies, i + 1).ok
  }

  /** Which operation stores the key: a corrupt entry is loaded, and deleted if the load saw it, before that. */
  function StoreStep(d: Disk, probe: Probe): nat {
    if d.keyring.Absent? then 0 else if probe.LoadsNothing? then 1 else 2
  }

  lemma FalseOkShifts(w: World, i: nat)
    ensures FalseOk(Rest(w), i) <==> FalseOk(w.script, i + 1)
  {
  }

  lemma GenerateDurableIff(w: World, newKey: Key)
    requires w.disk.file.Absent? && !w.disk.marker && !w.disk.keyring.Holds?
    ensures var (w1, r) := GenerateAndPersist(w, newKey);
            r.Ok? ==>
              && r.value == Resolved(newKey, NoRecovery, r.value.storage)
              && (Safe(w1.disk) && Durable(w1.disk) == Some(newKey) <==> !FalseOk(w.script, 0))
  {
  }

  /**
   The first boot's key is durable and safe unless the keyring's `Ok` was false, because this path does not
   read back.
   */
  lemma FirstBootDurableIff(d: Disk, b: Boot)
    requires d.file.Absent? && !d.marker && !d.keyring.Holds? && Launch(d, b).1.Ok?
    ensures var (e, r) := Launch(d, b);
            && r.value == Resolved(b.newKey, NoRecovery, r.value.storage)
            && (Safe(e) && Durable(e) == Some(b.newKey)
                <==> b.probe.Unreachable? || !FalseOk(b.replies, StoreStep(d, b.probe)))
  {
    var w := World(d, b.replies);
    var w1 := w.(script := Rest(w));
    if b.probe.Unreachable? {
    } else if d.keyring.Absent? {
      GenerateDurableIff(w, b.newKey);
    } else if b.probe.LoadsNothing? {
      GenerateDurableIff(w1, b.newKey);
      FalseOkShifts(w, 0);
    } else {
      GenerateDurableIff(DeleteEntry(w1), b.newKey);
      FalseOkShifts(w1, 0);
      FalseOkShifts(w, 1);
    }
  }

  /** Such a store ends in a lost identity. */
  lemma UnverifiedStoreLosesKey(newKey: Key)
    ensures var d := Disk(Absent, Absent, false);
            var (e, r) := Launch(d, Boot(Answers, newKey, [Reply(true, Kept), WORKS]));
            r == Ok(Resolved(newKey, NoRecovery, SystemKeyring)) && KeyIsGone(e)
  {
  }

  // ---- Import ----

  /** Whatever was on disk, a successful import names a backend that holds the key. */
  lemma ImportIsBacked(w: World, key: Key)
    ensures var (w1, r) := Import(w, key); r.Ok? ==> Backed(w1.disk, key, r.value)
  {
  }

  /** The file the import may leave behind does not contradict it. */
  predicate NoRivalFile(d: Disk, key: Key) { d.file.Absent? || d.file == Holds(key) }

  lemma ImportIsDurable(w: World, key: Key)
    requires NoRivalFile(w.disk, key)
    ensures var (w1, r) := Import(w, key); r.Ok? ==> Safe(w1.disk) && Durable(w1.disk) == Some(key)
  {
  }

  /** A marker write that fails leaves the older file in charge of an import that reported success. */
  lemma RivalFileSurvives(d: Disk, key: Key)
    requires !NoRivalFile(d, key)
    ensures var (w, r) := Import(World(d, [WORKS, WORKS, FAILS]), key);
            r == Ok(SystemKeyring) && !(Safe(w.disk) && Durable(w.disk) == Some(key))
  {
  }

  /** Import is durable under every failure pattern exactly when no other file is in its way. */
  lemma ImportDurableIffNoRival(d: Disk, key: Key)
    ensures NoRivalFile(d, key) <==>
            forall replies: seq<Reply> ::
              var (w, r) := Import(World(d, replies), key);
              r.Ok? ==> Safe(w.disk) && Durable(w.disk) == Some(key)
  {
    if NoRivalFile(d, key) {
      forall replies: seq<Reply>
        ensures var (w, r) := Import(World(d, replies), key); r.Ok? ==> Safe(w.disk) && Durable(w.disk) == Some(key)
      {
        ImportIsDurable(World(d, replies), key);
      }
    } else {
      RivalFileSurvives(d, key);
    }
  }

  /** Every boot after such an import that runs without recovery runs as the imported identity. */
  lemma ImportedIdentityStays(w: World, key: Key, boots: seq<Boot>)
    requires NoRivalFile(w.disk, key) && Import(w, key).1.Ok? && boots != [] && AllFaithful(boots)
    ensures var d := Import(w, key).0.disk;
            var r := Launch(Launches(d, boots[..|boots| - 1]), boots[|boots| - 1]).1;
            r.Ok? && r.value.recovery.NoRecovery? ==> r.value.key == key
  {
    ImportIsDurable(w, key);
    RunKeepsIdentity(Import(w, key).0.disk, boots);
  }

  /** A write that destroyed the entry it was to replace. */
  predicate Destroyed(effect: Effect) { effect == Garbled || effect == Cleared }

  predicate Saved(reply: Reply) { reply.ok || reply.effect == Written }

  /** The import did not destroy the only copy of the key. */
  predicate Spares(d: Disk, replies: seq<Reply>) {
    || d.file.Holds?
    || !Destroyed(At(replies, 0).effect)
    || Saved(At(replies, if At(replies, 0).ok then 2 else 1))
  }

  /** A readable file carries the identity through. */
  lemma ImportOverFile(d: Disk, replies: seq<Reply>, key: Key)
    requires d.file.Holds?
    ensures var e := Import(World(d, replies), key).0.disk;
            Safe(e) && (Durable(e) == Durable(d) || Durable(e) == Some(key))
  {
  }

  lemma ImportOverKeyring(d: Disk, replies: seq<Reply>, key: Key)
    requires d.file.Absent? && d.marker && d.keyring.Holds?
    ensures var e := Import(World(d, replies), key).0.disk;
            Safe(e) && (Durable(e) == Durable(d) || Durable(e) == Some(key)) <==> Spares(d, replies)
  {
    var w := World(d, replies);
    var (w1, stored) := StoreKey(w, key);
    if Destroyed(At(replies, 0).effect) {
      var w2 := if stored then VerifyStored(w1, key).0 else w1;
      assert PersistToKeyring(w, key).1.Err? && PersistToKeyring(w, key).0 == w2;
      assert Head(w2) == At(replies, if At(replies, 0).ok then 2 else 1);
    }
  }

  /**
   Stopped anywhere, an import from a safe state leaves the old identity or the new one, safe, unless the
   keyring held the only copy, its write destroyed it, and the fallback file was not written either.
   */
  lemma InterruptedImportIff(d: Disk, replies: seq<Reply>, key: Key)
    requires Safe(d)
    ensures var e := Import(World(d, replies), key).0.disk;
            Safe(e) && (Durable(e) == Durable(d) || Durable(e) == Some(key))
            <==> Spares(d, replies)
  {
    if d.file.Holds? {
      ImportOverFile(d, replies, key);
    } else {
      ImportOverKeyring(d, replies, key);
    }
  }

  /** The failing case: the only copy is garbled, and no file can be written in its place. */
  lemma GarbledImportLosesKey(held: Key, key: Key)
    ensures var d := Disk(Holds(held), Absent, true);
            var (w, r) := Import(World(d, [Reply(false, Garbled), FAILS]), key);
            Safe(d) && r == Err(SaveFailed) && KeyIsGone(w.disk)
  {
  }

  // ---- Boots and imports together ----

  datatype Event = Booted(boot: Boot) | Imported(key: Key, replies: seq<Reply>)

  function Happens(d: Disk, e: Event): Disk {
    match e
    case Booted(b) => Launch(d, b).0
    case Imported(key, replies) => Import(World(d, replies), key).0.disk
  }

  function Lives(d: Disk, events: seq<Event>): Disk {
    if events == [] then d else Happens(Lives(d, events[..|events| - 1]), events[|events| - 1])
  }

  ghost predicate Uneventful(d: Disk, e: Event) {
    match e
    case Booted(b) => Faithful(d, b.probe)
    case Imported(_, replies) => Spares(d, replies)
  }

  ghost predicate AllUneventful(d: Disk, events: seq<Event>) {
    events == [] ||
    (var before := events[..|events| - 1];
     AllUneventful(d, before) && Uneventful(Lives(d, before), events[|events| - 1]))
  }

  /** An import that reported success with no other file in its way. */
  predicate Settles(d: Disk, e: Event) {
    e.Imported? && NoRivalFile(d, e.key) && Import(World(d, e.replies), e.key).1.Ok?
  }

  /** The key of the last import that settled, or those tried since; else the one it began with. */
  function Candidates(d: Disk, events: seq<Event>): set<Key>
    requires Durable(d).Some?
  {
    if events == [] then {Durable(d).value}
    else
      var before, e := events[..|events| - 1], events[|events| - 1];
      if e.Booted? then Candidates(d, before)
      else if Settles(Lives(d, before), e) then {e.key}
      else Candidates(d, before) + {e.key}
  }

  lemma HappeningKeepsCandidates(d: Disk, e: Event)
    requires Safe(d) && Uneventful(d, e)
    ensures var after := Happens(d, e);
            && Safe(after)
            && (e.Booted? ==> Durable(after) == Durable(d))
            && (e.Imported? ==> Durable(after) == Durable(d) || Durable(after) == Some(e.key))
            && (Settles(d, e) ==> Durable(after) == Some(e.key))
  {
    match e
    case Booted(b) => BootKeepsIdentity(d, b);
    case Imported(key, replies) =>
      InterruptedImportIff(d, replies, key);
      if Settles(d, e) { ImportIsDurable(World(d, replies), key); }
  }

  /**
   Over every run of boots and imports, crashes and failures anywhere, the identity is one of the candidates, and
   safe.
   */
  lemma {:induction false} MixedRunKeepsIdentity(d: Disk, events: seq<Event>)
    requires Safe(d) && AllUneventful(d, events)
    ensures Safe(Lives(d, events)) && Durable(Lives(d, events)).value in Candidates(d, events)
  {
    if events != [] {
      var before := events[..|events| - 1];
      MixedRunKeepsIdentity(d, before);
      HappeningKeepsCandidates(Lives(d, before), events[|events| - 1]);
    }
  }

  predicate OnlySettling(d: Disk, events: seq<Event>) {
    events == [] ||
    (var before, e := events[..|events| - 1], events[|events| - 1];
     OnlySettling(d, before) && (e.Booted? || Settles(Lives(d, before), e)))
  }

  function LastImported(start: Key, events: seq<Event>): Key {
    if events == [] then start
    else if events[|events| - 1].Imported? then events[|events| - 1].key
    else LastImported(start, events[..|events| - 1])
  }

  /** If every import settled, the identity is the last one imported, or the one it began with. */
  lemma {:induction false} LastImportWins(d: Disk, events: seq<Event>)
    requires Safe(d) && AllUneventful(d, events) && OnlySettling(d, events)
    ensures Safe(Lives(d, events)) && Durable(Lives(d, events)) == Some(LastImported(Durable(d).value, events))
  {
    if events != [] {
      LastImportWins(d, events[..|events| - 1]);
      HappeningKeepsCandidates(Lives(d, events[..|events| - 1]), events[|events| - 1]);
    }
  }
}
