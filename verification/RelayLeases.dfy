/** Who owns a relay socket: one installed session per app, private sessions for requests of another scope. */
module RelayLeases {
  import opened Options

  datatype Scope = Scope(relay: string, pubkey: string)

  datatype Session = Session(scope: Scope, cancelled: bool)

  datatype Managed = Managed(scope: Scope, session: nat)

  datatype Lease = Lease(session: nat, private: bool, dropped: bool)

  predicate IsInstalled(current: Option<Managed>, i: nat) { current.Some? && current.value.session == i }

  /** Some request still holds this session for itself. */
  predicate IsPrivatelyLeased(leases: seq<Lease>, i: nat) {
    exists l :: 0 <= l < |leases| && leases[l].private && !leases[l].dropped && leases[l].session == i
  }

  /** The sockets that run are exactly the installed one and those of undropped private leases. */
  predicate NoLeak(current: Option<Managed>, sessions: seq<Session>, leases: seq<Lease>) {
    forall i :: 0 <= i < |sessions| ==>
      (!sessions[i].cancelled <==> IsInstalled(current, i) || IsPrivatelyLeased(leases, i))
  }

  /** A private session belongs to one lease and is never the installed one. */
  predicate PrivateAreAlone(current: Option<Managed>, leases: seq<Lease>) {
    && (forall l :: 0 <= l < |leases| && leases[l].private ==> !IsInstalled(current, leases[l].session))
    && (forall l, m :: 0 <= l < |leases| && 0 <= m < |leases| && l != m && leases[l].private ==>
          leases[l].session != leases[m].session)
  }

  predicate Known(current: Option<Managed>, sessions: seq<Session>, leases: seq<Lease>) {
    && (current.Some? ==>
          current.value.session < |sessions| && sessions[current.value.session].scope == current.value.scope)
    && (forall l :: 0 <= l < |leases| ==> leases[l].session < |sessions|)
  }

  class NativeRelayClient {
    var current: Option<Managed>
    var sessions: seq<Session>
    var leases: seq<Lease>

    ghost predicate Valid()
      reads this
    {
      Known(current, sessions, leases) && NoLeak(current, sessions, leases) && PrivateAreAlone(current, leases)
    }

    constructor ()
      ensures Valid() && current == None && sessions == [] && leases == []
    {
      current, sessions, leases := None, [], [];
    }

    method StartManaged(scope: Scope) returns (session: nat)
      modifies this`sessions
      ensures session == |old(sessions)| && sessions == old(sessions) + [Session(scope, false)]
    {
      session := |sessions|;
      sessions := sessions + [Session(scope, false)];
    }

    /** The archive's entry: the installed session of another scope is shut down, and nothing else is. */
    method EnsureSession(scope: Scope) returns (session: nat)
      requires Valid()
      modifies this`current, this`sessions
      ensures Valid() && current == Some(Managed(scope, session))
      ensures old(current).Some? && old(current).value.scope == scope ==>
                current == old(current) && sessions == old(sessions)
      ensures |old(sessions)| <= |sessions|
      ensures forall i :: 0 <= i < |old(sessions)| ==>
                sessions[i] == old(sessions)[i] || (IsInstalled(old(current), i) && old(current).value.scope != scope)
    {
      if current.Some? && current.value.scope == scope {
        return current.value.session;
      }
      if current.Some? {
        var previous := current.value.session;
        sessions := sessions[previous := sessions[previous].(cancelled := true)];
      }
      session := StartManaged(scope);
      current := Some(Managed(scope, session));
    }

    /** A finite request: it never cancels a session and never replaces the installed one. */
    method Lend(scope: Scope) returns (lease: nat)
      requires Valid()
      modifies this
      ensures Valid() && lease == |old(leases)| && |leases| == lease + 1 && leases[..lease] == old(leases)
      ensures leases[lease].session < |sessions| && sessions[leases[lease].session] == Session(scope, false)
      ensures !leases[lease].dropped
      ensures leases[lease].private <==> old(current).Some? && old(current).value.scope != scope
      ensures !leases[lease].private ==> current == Some(Managed(scope, leases[lease].session))
      ensures old(current).Some? ==> current == old(current)
      ensures old(sessions) <= sessions
    {
      lease := |leases|;
      if current.Some? && current.value.scope == scope {
        leases := leases + [Lease(current.value.session, false, false)];
        ShareKeepsNoLeak(current, sessions, old(leases), leases[lease]);
        return;
      }
      var session := StartManaged(scope);
      if current.Some? {
        leases := leases + [Lease(session, true, false)];
        StartPrivateKeepsNoLeak(current, old(sessions), old(leases), scope);
      } else {
        current := Some(Managed(scope, session));
        leases := leases + [Lease(session, false, false)];
        InstallKeepsNoLeak(old(sessions), old(leases), scope);
      }
    }

    /** Dropping ends a private session; a shared one runs on for whoever installed it. */
    method DropLease(lease: nat)
      requires Valid() && lease < |leases| && !leases[lease].dropped
      modifies this`sessions, this`leases
      ensures Valid() && leases == old(leases)[lease := old(leases)[lease].(dropped := true)]
      ensures |sessions| == |old(sessions)|
      ensures forall i :: 0 <= i < |sessions| ==>
                if leases[lease].private && i == leases[lease].session
                then sessions[i] == old(sessions)[i].(cancelled := true)
                else sessions[i] == old(sessions)[i]
    {
      leases := leases[lease := leases[lease].(dropped := true)];
      var Lease(session, private, _) := leases[lease];
      if private {
        sessions := sessions[session := sessions[session].(cancelled := true)];
      }
      DropKeepsNoLeak(current, old(sessions), old(leases), lease);
    }
  }

  lemma ShareKeepsNoLeak(current: Option<Managed>, sessions: seq<Session>, leases: seq<Lease>, shared: Lease)
    requires NoLeak(current, sessions, leases) && !shared.private
    ensures NoLeak(current, sessions, leases + [shared])
  {
    forall i | 0 <= i < |sessions|
      ensures IsPrivatelyLeased(leases + [shared], i) <==> IsPrivatelyLeased(leases, i)
    {
      PrivateSnoc(leases, shared, i);
    }
  }

  lemma PrivateSnoc(leases: seq<Lease>, lease: Lease, i: nat)
    ensures IsPrivatelyLeased(leases + [lease], i)
            <==> IsPrivatelyLeased(leases, i) || (lease.private && !lease.dropped && lease.session == i)
  {
    var all := leases + [lease];
    if IsPrivatelyLeased(leases, i) {
      var l :| 0 <= l < |leases| && leases[l].private && !leases[l].dropped && leases[l].session == i;
      assert all[l] == leases[l];
    }
    assert all[|leases|] == lease;
  }

  lemma StartPrivateKeepsNoLeak(current: Option<Managed>, sessions: seq<Session>, leases: seq<Lease>, scope: Scope)
    requires Known(current, sessions, leases) && NoLeak(current, sessions, leases)
    ensures NoLeak(current, sessions + [Session(scope, false)], leases + [Lease(|sessions|, true, false)])
  {
    forall i | 0 <= i <= |sessions|
      ensures IsPrivatelyLeased(leases + [Lease(|sessions|, true, false)], i)
              <==> IsPrivatelyLeased(leases, i) || i == |sessions|
    {
      PrivateSnoc(leases, Lease(|sessions|, true, false), i);
    }
  }

  lemma InstallKeepsNoLeak(sessions: seq<Session>, leases: seq<Lease>, scope: Scope)
    requires Known(None, sessions, leases) && NoLeak(None, sessions, leases)
    ensures NoLeak(Some(Managed(scope, |sessions|)), sessions + [Session(scope, false)],
                   leases + [Lease(|sessions|, false, false)])
  {
    forall i | 0 <= i <= |sessions|
      ensures IsPrivatelyLeased(leases + [Lease(|sessions|, false, false)], i) <==> IsPrivatelyLeased(leases, i)
    {
      PrivateSnoc(leases, Lease(|sessions|, false, false), i);
    }
  }

  lemma DropKeepsNoLeak(current: Option<Managed>, sessions: seq<Session>, leases: seq<Lease>, lease: nat)
    requires Known(current, sessions, leases) && NoLeak(current, sessions, leases) && PrivateAreAlone(current, leases)
    requires lease < |leases| && !leases[lease].dropped
    ensures var l := leases[lease];
            NoLeak(current,
                   if l.private then sessions[l.session := sessions[l.session].(cancelled := true)] else sessions,
                   leases[lease := l.(dropped := true)])
  {
    var dropped := leases[lease := leases[lease].(dropped := true)];
    forall i | 0 <= i < |sessions|
      ensures IsPrivatelyLeased(dropped, i)
              <==> IsPrivatelyLeased(leases, i) && !(leases[lease].private && i == leases[lease].session)
    {
      if IsPrivatelyLeased(leases, i) {
        var l :| 0 <= l < |leases| && leases[l].private && !leases[l].dropped && leases[l].session == i;
        assert l != lease ==> dropped[l] == leases[l];
      }
    }
  }

  // ---- Every run ----

  datatype Call = Archive(scope: Scope) | Request(scope: Scope) | Release(lease: nat)

  /** A lease of a session that was displaced finds it cancelled; every other undropped lease still has its socket. */
  predicate LeasesAccountedFor(current: Option<Managed>, sessions: seq<Session>, leases: seq<Lease>) {
    forall l :: 0 <= l < |leases| && leases[l].session < |sessions| ==>
      (!sessions[leases[l].session].cancelled
       <==> if leases[l].private then !leases[l].dropped else IsInstalled(current, leases[l].session))
  }

  lemma NoLeakAccountsForLeases(current: Option<Managed>, sessions: seq<Session>, leases: seq<Lease>)
    requires NoLeak(current, sessions, leases) && PrivateAreAlone(current, leases)
    ensures LeasesAccountedFor(current, sessions, leases)
  {
  }

  /**
   Any order of archive starts, finite requests and drops leaves no socket without an owner and no owner without
   one.
   */
  method Serve(calls: seq<Call>) returns (current: Option<Managed>, sessions: seq<Session>, leases: seq<Lease>)
    ensures Known(current, sessions, leases) && NoLeak(current, sessions, leases) && PrivateAreAlone(current, leases)
    ensures LeasesAccountedFor(current, sessions, leases)
    ensures current.None? ==> forall i :: 0 <= i < |calls| ==> calls[i].Release?
  {
    var client := new NativeRelayClient();
    for i := 0 to |calls|
      invariant client.Valid()
      invariant client.current.None? ==> forall k :: 0 <= k < i ==> calls[k].Release?
    {
      match calls[i]
      case Archive(scope) => var _ := client.EnsureSession(scope);
      case Request(scope) => var _ := client.Lend(scope);
      case Release(lease) =>
        if lease < |client.leases| && !client.leases[lease].dropped { client.DropLease(lease); }
    }
    current, sessions, leases := client.current, client.sessions, client.leases;
    NoLeakAccountsForLeases(current, sessions, leases);
  }
}
