/** The identity procedures as the source runs them: step by step on the durable state, with early returns. */
module IdentityStore {
  import opened Options
  import opened Identity
  import opened IdentityStarts

  class Store {
    var keyring: Slot
    var file: Slot
    var marker: bool
    var script: seq<Reply>  // how the coming operations turn out

    constructor (disk: Disk, replies: seq<Reply>)
      ensures State() == World(disk, replies)
    {
      keyring, file, marker, script := disk.keyring, disk.file, disk.marker, replies;
    }

    ghost function State(): World
      reads this
    {
      World(Disk(keyring, file, marker), script)
    }

    ghost function OnDisk(): Disk
      reads this
    {
      Disk(keyring, file, marker)
    }

    method NextReply() returns (r: Reply)
      modifies this`script
      ensures r == Head(old(State())) && script == Rest(old(State()))
    {
      if script == [] { return Reply(false, Kept); }
      r, script := script[0], script[1..];
    }

    // ---- Backend operations ----

    method StoreEntry(key: Key) returns (ok: bool)
      modifies this
      ensures (State(), ok) == StoreKey(old(State()), key)
    {
      var r := NextReply();
      keyring := After(keyring, r.effect, key);
      ok := r.ok;
    }

    method DeleteStored()
      modifies this
      ensures State() == DeleteEntry(old(State()))
    {
      var r := NextReply();
      if r.ok || r.effect == Cleared { keyring := Absent; }
    }

    method Verify(key: Key) returns (ok: bool)
      modifies this
      ensures (State(), ok) == VerifyStored(old(State()), key)
    {
      var r := NextReply();
      ok := r.ok && keyring == Holds(key);
    }

    method Mark() returns (ok: bool)
      modifies this
      ensures (State(), ok) == WriteMarker(old(State()))
    {
      var r := NextReply();
      if r.ok || r.effect == Written { marker := true; }
      ok := r.ok;
    }

    method Save(key: Key) returns (ok: bool)
      modifies this
      ensures (State(), ok) == SaveKeyFile(old(State()), key)
    {
      var r := NextReply();
      if r.ok || r.effect == Written { file := Holds(key); }
      ok := r.ok;
    }

    method Remove()
      modifies this
      ensures State() == RemoveFile(old(State()))
    {
      var r := NextReply();
      if r.ok || r.effect == Cleared { file := Absent; }
    }

    // ---- Procedures ----

    method MarkThenCleanup()
      modifies this
      ensures State() == EnsureMarkerThenCleanup(old(State()))
    {
      var ok := marker;
      if !ok { ok := Mark(); }
      if ok && !file.Absent? { Remove(); }
    }

    method Migrate() returns (r: Result<Option<Key>, Failure>)
      modifies this
      ensures (State(), r) == MigrateIdentityFile(old(State()))
      ensures old(file).Holds? ==> Same(old(OnDisk()), OnDisk())
      ensures old(file).Holds? && r.Ok? ==> r.value == Some(old(file).key) && keyring == Holds(old(file).key)
      ensures !old(file).Holds? ==> r == Ok(None) && OnDisk() == old(OnDisk())
    {
      if file.Holds? { MigrateKeeps(State()); }
      if !file.Holds? { return Ok(None); }
      var key := file.key;
      var ok := StoreEntry(key);
      if !ok { return Err(StoreFailed); }
      ok := Verify(key);
      if !ok { return Err(VerifyFailed); }
      // The marker goes down before the file goes away.
      ok := Mark();
      if ok { Remove(); }
      return Ok(Some(key));
    }

    method Persist(key: Key) returns (r: Result<(), Failure>)
      modifies this
      ensures (State(), r) == PersistToKeyring(old(State()), key)
      ensures r.Ok? ==> keyring == Holds(key)
      ensures r.Ok? && NoRivalFile(old(OnDisk()), key) ==> Safe(OnDisk()) && Durable(OnDisk()) == Some(key)
    {
      var ok := StoreEntry(key);
      if !ok { return Err(StoreFailed); }
      ok := Verify(key);
      if !ok { return Err(VerifyFailed); }
      ok := Mark();
      if !ok {
        // Keyring-only implies marker: without a marker the file must stay or be written.
        if file.Absent? {
          ok := Save(key);
          if !ok { return Err(NotDurable); }
        }
        return Ok(());
      }
      if !file.Absent? { Remove(); }
      return Ok(());
    }

    method Generate(newKey: Key) returns (r: Result<Resolved, Failure>)
      modifies this
      ensures (State(), r) == GenerateAndPersist(old(State()), newKey)
    {
      var ok := StoreEntry(newKey);
      if !ok {
        ok := Save(newKey);
        if !ok { return Err(SaveFailed); }
        return Ok(Resolved(newKey, NoRecovery, LocalFile));
      }
      ok := Mark();
      if !ok {
        ok := Save(newKey);
        if !ok { return Err(SaveFailed); }
      }
      return Ok(Resolved(newKey, NoRecovery, SystemKeyring));
    }

    method LoadOrGenerate(newKey: Key) returns (r: Result<Resolved, Failure>)
      modifies this
      ensures (State(), r) == LoadFileOrGenerate(old(State()), newKey)
    {
      if file.Holds? { return Ok(Resolved(file.key, NoRecovery, LocalFile)); }
      if file.Corrupt? { Remove(); }
      var ok := Save(newKey);
      if !ok { return Err(SaveFailed); }
      return Ok(Resolved(newKey, NoRecovery, LocalFile));
    }

    method Recover(newKey: Key) returns (r: Result<Resolved, Failure>)
      modifies this
      ensures (State(), r) == RecoverFromKeyring(old(State()), newKey)
      ensures old(file).Holds? ==> Same(old(OnDisk()), OnDisk())
      ensures old(file).Holds? && r.Ok? ==> r.value == Resolved(old(file).key, NoRecovery, SystemKeyring)
      ensures !old(file).Holds? && old(marker) ==> r == Ok(Resolved(newKey, Lost, Ephemeral)) && file == old(file)
    {
      if file.Holds? { RecoverKeeps(State(), newKey); }
      DeleteStored();
      if !file.Absent? {
        var migrated := Migrate();
        if migrated.Err? { return Err(migrated.error); }
        if migrated.value.Some? { return Ok(Resolved(migrated.value.value, NoRecovery, SystemKeyring)); }
      }
      if marker { return Ok(Resolved(newKey, Lost, Ephemeral)); }
      r := Generate(newKey);
    }

    method ResolveWith(key: Key) returns (r: Result<Resolved, Failure>)
      modifies this
      ensures (State(), r) == ResolvePresent(old(State()), key)
    {
      if file.Holds? && file.key != key {
        var imported := file.key;
        var adopted := Persist(imported);
        return Ok(Resolved(imported, NoRecovery, if adopted.Ok? then SystemKeyring else LocalFile));
      }
      if !file.Absent? { MarkThenCleanup(); }
      if file.Absent? && !marker {
        var _ := Mark();
      }
      return Ok(Resolved(key, NoRecovery, SystemKeyring));
    }

    method ResolveIdentity(probe: Probe, newKey: Key) returns (r: Result<Resolved, Failure>)
      modifies this
      ensures (State(), r) == Resolve(old(State()), probe, newKey)
      ensures r.Ok? <==> Starts(old(OnDisk()), Boot(probe, newKey, old(script)))
      ensures r.Ok? ==> r.value == StartsAs(old(OnDisk()), Boot(probe, newKey, old(script)))
      ensures Safe(old(OnDisk())) && probe.Answers? && Works(old(script), 6) ==>
                && r == Ok(Resolved(Durable(old(OnDisk())).value, NoRecovery, SystemKeyring))
                && OnDisk() == Disk(Holds(Durable(old(OnDisk())).value), Absent, true)
      ensures Safe(old(OnDisk())) && Faithful(old(OnDisk()), probe) ==> Same(old(OnDisk()), OnDisk())
      ensures Safe(old(OnDisk())) && Faithful(old(OnDisk()), probe) && r.Ok? && r.value.recovery.NoRecovery? ==>
                Some(r.value.key) == Durable(old(OnDisk())) && Backed(OnDisk(), r.value.key, r.value.storage)
    {
      if Safe(OnDisk()) && Faithful(OnDisk(), probe) { ResolveKeeps(State(), probe, newKey); }
      LaunchStartsIff(OnDisk(), Boot(probe, newKey, script));
      if Starts(OnDisk(), Boot(probe, newKey, script)) { LaunchIs(OnDisk(), Boot(probe, newKey, script)); }
      if Safe(OnDisk()) && probe.Answers? && Works(script, 6) {
        WorkingLaunchSettles(OnDisk(), Boot(probe, newKey, script));
      }
      if probe.Unreachable? {
        if file.Absent? && marker { return Ok(Resolved(newKey, KeyringLocked, Ephemeral)); }
        r := LoadOrGenerate(newKey);
        return;
      }
      if keyring.Absent? {
        if !file.Absent? {
          var migrated := Migrate();
          if migrated.Err? { return Err(migrated.error); }
          if migrated.value.Some? { return Ok(Resolved(migrated.value.value, NoRecovery, SystemKeyring)); }
        } else if marker {
          return Ok(Resolved(newKey, Lost, Ephemeral));
        }
        r := Generate(newKey);
        return;
      }
      if script == [] || !script[0].ok { return Err(LoadFailed); }
      var _ := NextReply();
      if probe.LoadsNothing? {
        r := Generate(newKey);
        return;
      }
      match keyring
      case Corrupt => r := Recover(newKey);
      case Holds(key) => r := ResolveWith(key);
    }

    method ImportIdentity(key: Key) returns (r: Result<Storage, Failure>)
      modifies this
      ensures (State(), r) == Import(old(State()), key)
      ensures r.Ok? ==> Backed(OnDisk(), key, r.value)
      ensures r == if Taken(old(OnDisk()), old(script), key) && Vouched(old(OnDisk()), old(script))
                   then Ok(SystemKeyring)
                   else if OkAt(old(script), Fallback(old(OnDisk()), old(script), key)) then Ok(LocalFile)
                   else Err(SaveFailed)
      ensures r.Ok? && NoRivalFile(old(OnDisk()), key) ==> Safe(OnDisk()) && Durable(OnDisk()) == Some(key)
      ensures Safe(old(OnDisk())) && Spares(old(OnDisk()), old(script)) ==>
                Safe(OnDisk()) && (Durable(OnDisk()) == Durable(old(OnDisk())) || Durable(OnDisk()) == Some(key))
    {
      ImportIsBacked(State(), key);
      ImportIs(OnDisk(), script, key);
      if NoRivalFile(OnDisk(), key) { ImportIsDurable(State(), key); }
      if Safe(OnDisk()) { InterruptedImportIff(OnDisk(), script, key); }
      var persisted := Persist(key);
      if persisted.Ok? { return Ok(SystemKeyring); }
      var ok := Save(key);
      if !ok { return Err(SaveFailed); }
      return Ok(LocalFile);
    }
  }

  method LaunchOnce(disk: Disk, boot: Boot) returns (end: Disk, r: Result<Resolved, Failure>)
    ensures (end, r) == Launch(disk, boot)
  {
    var store := new Store(disk, boot.replies);
    r := store.ResolveIdentity(boot.probe, boot.newKey);
    end := Disk(store.keyring, store.file, store.marker);
  }

  /** What launch `i` of a run reports. */
  function Report(disk: Disk, boots: seq<Boot>, i: nat): Result<Resolved, Failure>
    requires i < |boots|
  {
    Launch(Launches(disk, boots[..i]), boots[i]).1
  }

  ghost predicate Reports(disk: Disk, boots: seq<Boot>, results: seq<Result<Resolved, Failure>>) {
    |results| <= |boots| && forall i :: 0 <= i < |results| ==> results[i] == Report(disk, boots, i)
  }

  /** The launch succeeds as its disk and replies decide, and reports no other identity than the first disk's. */
  ghost predicate Tells(disk: Disk, boots: seq<Boot>, i: nat, r: Result<Resolved, Failure>)
    requires i < |boots|
  {
    && (r.Ok? <==> Starts(Launches(disk, boots[..i]), boots[i]))
    && (Safe(disk) && AllFaithful(boots) && r.Ok? && r.value.recovery.NoRecovery? ==>
          Some(r.value.key) == Durable(disk))
  }

  lemma ReportTells(disk: Disk, boots: seq<Boot>, i: nat)
    requires i < |boots|
    ensures Tells(disk, boots, i, Report(disk, boots, i))
  {
    LaunchStartsIff(Launches(disk, boots[..i]), boots[i]);
    if Safe(disk) && AllFaithful(boots) {
      RunKeepsIdentity(disk, boots[..i]);
      BootKeepsIdentity(Launches(disk, boots[..i]), boots[i]);
    }
  }

  /** A whole run of launches on one machine, each from where the last one stopped. */
  method LiveThrough(disk: Disk, boots: seq<Boot>) returns (end: Disk, results: seq<Result<Resolved, Failure>>)
    ensures end == Launches(disk, boots) && |results| == |boots|
    ensures Safe(disk) && AllFaithful(boots) ==> Same(disk, end)
    ensures forall i :: 0 <= i < |results| ==> Tells(disk, boots, i, results[i])
  {
    end, results := disk, [];
    for i := 0 to |boots|
      invariant end == Launches(disk, boots[..i]) && |results| == i && Reports(disk, boots, results)
    {
      assert boots[..i + 1][..i] == boots[..i];
      var r;
      end, r := LaunchOnce(end, boots[i]);
      results := results + [r];
    }
    assert boots[..|boots|] == boots;
    if Safe(disk) && AllFaithful(boots) { RunKeepsIdentity(disk, boots); }
    forall i | 0 <= i < |results|
      ensures Tells(disk, boots, i, results[i])
    {
      ReportTells(disk, boots, i);
    }
  }
}
