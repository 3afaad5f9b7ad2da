/** When a launch or an import succeeds, and with what: as conditions on the disk and on each operation's outcome. */
module IdentityStarts {
  import opened Options
  import opened Identity

  function OkAt(replies: seq<Reply>, i: nat): bool { At(replies, i).ok }

  /** The store at step `i` took effect and the read-back after it agreed. */
  predicate StoredAndVerified(replies: seq<Reply>, i: nat) {
    OkAt(replies, i) && At(replies, i).effect == Written && OkAt(replies, i + 1)
  }

  /** A generated key found a place: the keyring with its marker, or else the file. */
  predicate KeptSomewhere(replies: seq<Reply>, i: nat) {
    if OkAt(replies, i) then OkAt(replies, i + 1) || OkAt(replies, i + 2) else OkAt(replies, i + 1)
  }

  /** A launch succeeds, case by case of what the disk held and how the keyring answered. */
  predicate Starts(d: Disk, b: Boot) {
    var r := b.replies;
    if b.probe.Unreachable? then
      // a file is read; a migrated key is waited for; otherwise a new file must be written
      d.file.Holds? || (d.file.Absent? && d.marker) || OkAt(r, if d.file.Corrupt? then 1 else 0)
    else if d.keyring.Absent? then
      // a file is migrated; a migrated key is lost; otherwise a new key must be kept
      if d.file.Holds? then StoredAndVerified(r, 0)
      else (d.file.Absent? && d.marker) || KeptSomewhere(r, 0)
    else
      OkAt(r, 0)
      && if b.probe.LoadsNothing? then KeptSomewhere(r, 1)
         else if d.keyring.Holds? then true
         else if d.file.Holds? then StoredAndVerified(r, 2)
         else d.marker || KeptSomewhere(r, 2)
  }

  lemma AtShifts(w: World, i: nat)
    ensures At(Rest(w), i) == At(w.script, i + 1) && Head(w) == At(w.script, 0)
  {
  }

  lemma GenerateOkIff(w: World, newKey: Key)
    ensures GenerateAndPersist(w, newKey).1.Ok? <==> KeptSomewhere(w.script, 0)
  {
    AtShifts(w, 0);
    AtShifts(w, 1);
    AtShifts(w.(script := Rest(w)), 0);
  }

  lemma MigrateOkIff(w: World)
    requires w.disk.file.Holds? && !w.disk.keyring.Holds?
    ensures MigrateIdentityFile(w).1.Ok? <==> StoredAndVerified(w.script, 0)
    ensures MigrateIdentityFile(w).1.Ok? ==> MigrateIdentityFile(w).1.value == Some(w.disk.file.key)
  {
    AtShifts(w, 0);
  }

  lemma RecoverOkIff(w: World, newKey: Key)
    requires w.disk.keyring.Corrupt?
    ensures RecoverFromKeyring(w, newKey).1.Ok?
            <==> if w.disk.file.Holds? then StoredAndVerified(w.script, 1)
                 else w.disk.marker || KeptSomewhere(w.script, 1)
  {
    var w1 := DeleteEntry(w);
    AtShifts(w, 0);
    AtShifts(w, 1);
    AtShifts(w, 2);
    if w.disk.file.Holds? {
      MigrateOkIff(w1);
    } else {
      GenerateOkIff(w1, newKey);
    }
  }

  lemma LoadOkIff(w: World, newKey: Key)
    ensures LoadFileOrGenerate(w, newKey).1.Ok?
            <==> w.disk.file.Holds? || OkAt(w.script, if w.disk.file.Corrupt? then 1 else 0)
  {
    AtShifts(w, 0);
  }

  /** A launch succeeds if and only if the operations its case needs went through. */
  lemma LaunchStartsIff(d: Disk, b: Boot)
    ensures Launch(d, b).1.Ok? <==> Starts(d, b)
  {
    var w := World(d, b.replies);
    var w1 := w.(script := Rest(w));
    if b.probe.Unreachable? {
      LoadOkIff(w, b.newKey);
    } else if d.keyring.Absent? {
      if d.file.Holds? {
        MigrateOkIff(w);
      } else {
        GenerateOkIff(w, b.newKey);
      }
    } else {
      AtShifts(w, 0);
      AtShifts(w, 1);
      AtShifts(w, 2);
      AtShifts(w, 3);
      if b.probe.LoadsNothing? {
        GenerateOkIff(w1, b.newKey);
      } else if d.keyring.Corrupt? {
        RecoverOkIff(w1, b.newKey);
      }
    }
  }

  // ---- What it starts as ----

  /** A new key, kept where the store at step `i` let it be kept. */
  function Generated(key: Key, replies: seq<Reply>, i: nat): Resolved {
    Resolved(key, NoRecovery, if OkAt(replies, i) then SystemKeyring else LocalFile)
  }

  /** Who a launch that starts runs as, whether it says something was lost, and where it says the key is. */
  function StartsAs(d: Disk, b: Boot): Resolved {
    var r := b.replies;
    if b.probe.Unreachable? then
      match d.file
      case Holds(key) => Resolved(key, NoRecovery, LocalFile)
      case Absent => if d.marker then Resolved(b.newKey, KeyringLocked, Ephemeral)
                     else Resolved(b.newKey, NoRecovery, LocalFile)
      case Corrupt => Resolved(b.newKey, NoRecovery, LocalFile)
    else if d.keyring.Absent? then
      match d.file
      case Holds(key) => Resolved(key, NoRecovery, SystemKeyring)
      case Absent => if d.marker then Resolved(b.newKey, Lost, Ephemeral) else Generated(b.newKey, r, 0)
      case Corrupt => Generated(b.newKey, r, 0)
    else if b.probe.LoadsNothing? then Generated(b.newKey, r, 1)
    else if d.keyring.Holds? then
      if d.file.Holds? && d.file.key != d.keyring.key then
        Resolved(d.file.key, NoRecovery, if StoredAndVerified(r, 1) then SystemKeyring else LocalFile)
      else Resolved(d.keyring.key, NoRecovery, SystemKeyring)
    else if d.file.Holds? then Resolved(d.file.key, NoRecovery, SystemKeyring)
    else if d.marker then Resolved(b.newKey, Lost, Ephemeral)
    else Generated(b.newKey, r, 2)
  }

  lemma GeneratedIs(w: World, newKey: Key)
    ensures var r := GenerateAndPersist(w, newKey).1; r.Ok? ==> r.value == Generated(newKey, w.script, 0)
  {
    AtShifts(w, 0);
  }

  lemma AdoptedIs(w: World)
    requires w.disk.keyring.Holds? && w.disk.file.Holds? && w.disk.file.key != w.disk.keyring.key
    ensures PersistToKeyring(w, w.disk.file.key).1.Ok? <==> StoredAndVerified(w.script, 0)
  {
    AtShifts(w, 0);
  }

  lemma RecoveredIs(w: World, newKey: Key)
    requires w.disk.keyring.Corrupt? && RecoverFromKeyring(w, newKey).1.Ok?
    ensures RecoverFromKeyring(w, newKey).1.value
            == if w.disk.file.Holds? then Resolved(w.disk.file.key, NoRecovery, SystemKeyring)
               else if w.disk.marker then Resolved(newKey, Lost, Ephemeral)
               else Generated(newKey, w.script, 1)
  {
    AtShifts(w, 0);
    GeneratedIs(DeleteEntry(w), newKey);
  }

  /** For every disk, probe and outcome of the operations, a launch that starts is the one the table says. */
  lemma LaunchIs(d: Disk, b: Boot)
    requires Starts(d, b)
    ensures Launch(d, b).1 == Ok(StartsAs(d, b))
  {
    LaunchStartsIff(d, b);
    var w := World(d, b.replies);
    var w1 := w.(script := Rest(w));
    AtShifts(w, 0);
    AtShifts(w, 1);
    AtShifts(w, 2);
    if b.probe.Unreachable? {
    } else if d.keyring.Absent? {
      GeneratedIs(w, b.newKey);
    } else if b.probe.LoadsNothing? {
      GeneratedIs(w1, b.newKey);
    } else if d.keyring.Corrupt? {
      RecoveredIs(w1, b.newKey);
    } else if d.file.Holds? && d.file.key != d.keyring.key {
      AdoptedIs(w1);
    }
  }

  /** A key that only the keyring holds, unmarked, is marked by the next launch that can. */
  lemma LaunchHealsMarker(key: Key, b: Boot)
    requires b.probe.Answers? && OkAt(b.replies, 0) && OkAt(b.replies, 1)
    ensures !Safe(Disk(Holds(key), Absent, false))
    ensures Launch(Disk(Holds(key), Absent, false), b).0 == Disk(Holds(key), Absent, true)
  {
    AtShifts(World(Disk(Holds(key), Absent, false), b.replies), 0);
  }

  /**
   From a safe disk only a failed load, or a migration whose store or read-back failed, keeps the app from
   starting.
   */
  lemma SafeLaunchFailsIff(d: Disk, b: Boot)
    requires Safe(d) && Faithful(d, b.probe)
    ensures Launch(d, b).1.Err?
            <==> && !b.probe.Unreachable?
                 && (|| (!d.keyring.Absent? && !OkAt(b.replies, 0))
                     || (d.keyring.Absent? && !StoredAndVerified(b.replies, 0))
                     || (d.keyring.Corrupt? && !StoredAndVerified(b.replies, 2)))
  {
    LaunchStartsIff(d, b);
  }

  /** What a launch that starts from a safe disk runs as, and whether it is a recovery. */
  lemma SafeLaunchIs(d: Disk, b: Boot)
    requires Safe(d) && Faithful(d, b.probe) && Launch(d, b).1.Ok?
    ensures var (e, r) := Launch(d, b);
            if b.probe.Unreachable? && d.file.Absent? then r.value == Resolved(b.newKey, KeyringLocked, Ephemeral)
            else
              && r.value.recovery.NoRecovery? && Some(r.value.key) == Durable(d)
              && Backed(e, r.value.key, r.value.storage)
  {
    BootKeepsIdentity(d, b);
  }

  /** The next `n` operations work. */
  predicate Works(replies: seq<Reply>, n: nat) {
    |replies| >= n && forall i :: 0 <= i < n ==> replies[i] == WORKS
  }

  lemma WorksOn(w: World, n: nat)
    requires Works(w.script, n) && n > 0
    ensures Head(w) == WORKS && Works(Rest(w), n - 1)
  {
  }

  lemma WorkingPersist(w: World, key: Key)
    requires Works(w.script, 4)
    ensures var (w1, r) := PersistToKeyring(w, key); r.Ok? && w1.disk == Disk(Holds(key), Absent, true)
  {
    var w1 := StoreKey(w, key).0;
    var w2 := VerifyStored(w1, key).0;
    WorksOn(w, 4);
    WorksOn(w1, 3);
    WorksOn(w2, 2);
    WorksOn(WriteMarker(w2).0, 1);
  }

  lemma WorkingMigrate(w: World)
    requires w.disk.file.Holds? && Works(w.script, 4)
    ensures var (w1, r) := MigrateIdentityFile(w);
            r == Ok(Some(w.disk.file.key)) && w1.disk == Disk(Holds(w.disk.file.key), Absent, true)
  {
    var w1 := StoreKey(w, w.disk.file.key).0;
    var w2 := VerifyStored(w1, w.disk.file.key).0;
    WorksOn(w, 4);
    WorksOn(w1, 3);
    WorksOn(w2, 2);
    WorksOn(WriteMarker(w2).0, 1);
  }

  lemma WorkingPresent(w: World)
    requires w.disk.keyring.Holds? && Safe(w.disk) && Works(w.script, 4)
    ensures var (w1, r) := ResolvePresent(w, w.disk.keyring.key);
            && r == Ok(Resolved(Durable(w.disk).value, NoRecovery, SystemKeyring))
            && w1.disk == Disk(Holds(Durable(w.disk).value), Absent, true)
  {
    if w.disk.file.Holds? && w.disk.file.key != w.disk.keyring.key {
      WorkingPersist(w, w.disk.file.key);
    } else {
      WorksOn(w, 4);
      WorksOn(w.(script := Rest(w)), 3);
    }
  }

  /**
   When everything works, a launch from a safe disk settles the key in the keyring, vouched for, with no file
   left.
   */
  lemma WorkingLaunchSettles(d: Disk, b: Boot)
    requires Safe(d) && b.probe.Answers? && Works(b.replies, 6)
    ensures var (e, r) := Launch(d, b);
            && r == Ok(Resolved(Durable(d).value, NoRecovery, SystemKeyring))
            && e == Disk(Holds(Durable(d).value), Absent, true)
  {
    var w := World(d, b.replies);
    var w1 := w.(script := Rest(w));
    WorksOn(w, 6);
    match d.keyring
    case Absent => WorkingMigrate(w);
    case Holds(_) => WorkingPresent(w1);
    case Corrupt =>
      WorksOn(w1, 5);
      WorkingMigrate(DeleteEntry(w1));
  }

  /** The first launch of all, when everything works. */
  lemma WorkingFirstLaunch(b: Boot)
    requires b.probe.Answers? && Works(b.replies, 2)
    ensures Launch(Disk(Absent, Absent, false), b)
            == (Disk(Holds(b.newKey), Absent, true), Ok(Resolved(b.newKey, NoRecovery, SystemKeyring)))
  {
    var w := World(Disk(Absent, Absent, false), b.replies);
    WorksOn(w, 2);
    WorksOn(StoreKey(w, b.newKey).0, 1);
  }

  // ---- Import ----

  /** The keyring took the imported key and reads it back. */
  predicate Taken(d: Disk, replies: seq<Reply>, key: Key) {
    && OkAt(replies, 0) && OkAt(replies, 1)
    && (At(replies, 0).effect == Written || (At(replies, 0).effect == Kept && d.keyring == Holds(key)))
  }

  /** And it will be looked for there: by the marker, or because a file stands or could be written. */
  predicate Vouched(d: Disk, replies: seq<Reply>) { OkAt(replies, 2) || !d.file.Absent? || OkAt(replies, 3) }

  /** The step at which the file is tried as a last resort. */
  function Fallback(d: Disk, replies: seq<Reply>, key: Key): nat {
    if !OkAt(replies, 0) then 1 else if !Taken(d, replies, key) then 2 else 4
  }

  lemma PersistOkIff(d: Disk, replies: seq<Reply>, key: Key)
    ensures var (w, r) := PersistToKeyring(World(d, replies), key);
            && (r.Ok? <==> Taken(d, replies, key) && Vouched(d, replies))
            && (r.Err? ==> Head(w) == At(replies, Fallback(d, replies, key)))
  {
    var w := World(d, replies);
    AtShifts(w, 0);
    AtShifts(w, 1);
    AtShifts(w, 2);
    AtShifts(w, 3);
    var w1 := StoreKey(w, key).0;
    AtShifts(w1, 0);
    AtShifts(w1, 1);
    AtShifts(w1, 2);
    var w2 := VerifyStored(w1, key).0;
    AtShifts(w2, 0);
    AtShifts(w2, 1);
    var w3 := WriteMarker(w2).0;
    AtShifts(w3, 0);
  }

  /**
   An import ends in the keyring if it was taken and vouched for, else in the file if that could be written, else
   fails.
   */
  lemma ImportIs(d: Disk, replies: seq<Reply>, key: Key)
    ensures Import(World(d, replies), key).1
            == if Taken(d, replies, key) && Vouched(d, replies) then Ok(SystemKeyring)
               else if OkAt(replies, Fallback(d, replies, key)) then Ok(LocalFile)
               else Err(SaveFailed)
  {
    PersistOkIff(d, replies, key);
  }

  /** When everything works the import is in the keyring, vouched for, with no file left. */
  lemma WorkingImportSettles(d: Disk, replies: seq<Reply>, key: Key)
    requires Works(replies, 4)
    ensures var (w, r) := Import(World(d, replies), key);
            r == Ok(SystemKeyring) && w.disk == Disk(Holds(key), Absent, true)
  {
    WorkingPersist(World(d, replies), key);
  }
}
