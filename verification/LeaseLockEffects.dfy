/** What the requests and the steps of the lease lock achieve, over its runs. */
module LeaseLockEffects {
  import opened Common
  import opened LeaseLock
  import opened LeaseLockProofs

  // ------------------------------------------------------------------
  // What the server does
  // ------------------------------------------------------------------

  /** The action executes a request of this kind; the states around it are those of the run. */
  predicate ExecutedAt(t: Trace, k: nat, kind: Kind) {
    k < |t.actions| && |t.states| == |t.actions| + 1 && Executes(t.states[k], t.actions[k], kind)
  }

  /** An executed release deletes the key and returns 1 if the key holds its token; else it returns 0
      and leaves the key alone. */
  lemma {:induction false} ReleaseDeletes(p: Params, t: Trace, k: nat)
    requires IsTrace(p, t) && ExecutedAt(t, k, Release)
    ensures var st, next, id := t.states[k], t.states[k + 1], t.actions[k].id;
      if Holds(st.key, st.clock, st.sent[id].token) then next.key == Absent && Replied(next, id, true)
      else next.key == st.key && Replied(next, id, false)
  {
    assert StepOk(p, t, k);
  }

  /** An executed SET takes the lock for a full lease exactly when no lease is running. */
  lemma {:induction false} SetTakesFreeLock(p: Params, t: Trace, k: nat)
    requires IsTrace(p, t) && ExecutedAt(t, k, SetNx)
    ensures var st, next, id := t.states[k], t.states[k + 1], t.actions[k].id;
      if Live(st.key, st.clock) then next.key == st.key && Replied(next, id, false)
      else next.key == Present(st.sent[id].token, st.clock + p.expire) && Replied(next, id, true)
  {
    assert StepOk(p, t, k);
  }

  /** An executed renewal gives the key a full lease again exactly if it holds the token. */
  lemma {:induction false} RenewExtends(p: Params, t: Trace, k: nat)
    requires IsTrace(p, t) && ExecutedAt(t, k, Renew)
    ensures var st, next, id := t.states[k], t.states[k + 1], t.actions[k].id;
      if Holds(st.key, st.clock, st.sent[id].token) then
        next.key == Present(st.sent[id].token, st.clock + p.expire) && Replied(next, id, true)
      else next.key == st.key && Replied(next, id, false)
  {
    assert StepOk(p, t, k);
  }

  // ------------------------------------------------------------------
  // A release in time finds its own key
  // ------------------------------------------------------------------

  predicate IsRelease(st: State, id: Id, token: Token) {
    id in st.sent && st.sent[id].kind.Release? && st.sent[id].token == token
  }

  /** The release of the token has been executed. */
  predicate Undone(st: State, token: Token) {
    exists id <- st.replies :: IsRelease(st, id, token)
  }

  predicate LeaseStands(p: Params, st: State, token: Token)
    requires token in st.granted
  {
    Running(p, st, token) && !Undone(st, token) ==> st.key == Present(token, st.granted[token] + p.expire)
  }

  /** A request is executed at most once, a token is released by one request only, and until then its
      running lease is in the store. */
  ghost predicate ReleasesOk(p: Params, st: State) {
    && st.inFlight !! st.replies.Keys
    && (forall token, x, y | IsRelease(st, x, token) && IsRelease(st, y, token) :: x == y)
    && (forall token <- st.granted :: LeaseStands(p, st, token))
  }

  lemma {:induction false} LocalKeepsReleases(p: Params, st: State, a: Action)
    requires Inv(p, st) && ReleasesOk(p, st) && IsLocal(a) && Enabled(p, st, a)
    ensures ReleasesOk(p, After(p, st, a))
  {
    var next := After(p, st, a);
    assert LocalOk(p, st, a.i, st.locals[a.i]);
    forall token, x, y | IsRelease(next, x, token) && IsRelease(next, y, token) ensures x == y {
      if x in st.sent {
        assert RequestOk(st, x) && IsRelease(st, x, token);
      }
      if y in st.sent {
        assert RequestOk(st, y) && IsRelease(st, y, token);
      }
    }
    forall token <- next.granted ensures LeaseStands(p, next, token) {
      assert LeaseStands(p, st, token);
      if Undone(st, token) {
        var id :| id in st.replies && IsRelease(st, id, token);
        assert id in next.replies && IsRelease(next, id, token);
      }
    }
  }

  lemma {:induction false} ExecuteKeepsReleases(p: Params, st: State, id: Id)
    requires Inv(p, st) && ReleasesOk(p, st) && id in st.inFlight && id in st.sent
    ensures ReleasesOk(p, Executed(p, st, id))
  {
    var next := Executed(p, st, id);
    forall token, x, y | IsRelease(next, x, token) && IsRelease(next, y, token) ensures x == y {
      assert IsRelease(st, x, token) && IsRelease(st, y, token);
    }
    forall token <- next.granted ensures LeaseStands(p, next, token) {
      StandsAfterExecute(p, st, id, token);
    }
  }

  lemma {:induction false} StandsAfterExecute(p: Params, st: State, id: Id, token: Token)
    requires Inv(p, st) && ReleasesOk(p, st) && id in st.inFlight && id in st.sent
    requires token in Executed(p, st, id).granted
    ensures LeaseStands(p, Executed(p, st, id), token)
  {
    var next := Executed(p, st, id);
    if IsRelease(st, id, token) {
      assert id in next.replies && IsRelease(next, id, token);
    }
    if Undone(st, token) {
      var x :| x in st.replies && IsRelease(st, x, token);
      assert x in next.replies && IsRelease(next, x, token);
    }
    if token in st.granted {
      assert LeaseStands(p, st, token);
    }
  }

  lemma {:induction false} StepKeepsReleases(p: Params, st: State, a: Action)
    requires Inv(p, st) && ReleasesOk(p, st) && Enabled(p, st, a)
    ensures ReleasesOk(p, After(p, st, a))
  {
    if a.Execute? {
      ExecuteKeepsReleases(p, st, a.id);
    } else if IsLocal(a) {
      LocalKeepsReleases(p, st, a);
    } else {
      SilentKeepsReleases(p, st, a);
    }
  }

  lemma {:induction false} SilentKeepsReleases(p: Params, st: State, a: Action)
    requires ReleasesOk(p, st) && Enabled(p, st, a) && (a.Tick? || a.Lose?)
    ensures ReleasesOk(p, After(p, st, a))
  {
    var next := After(p, st, a);
    forall token, x, y | IsRelease(next, x, token) && IsRelease(next, y, token) ensures x == y {
      assert IsRelease(st, x, token) && IsRelease(st, y, token);
    }
    forall token <- next.granted ensures LeaseStands(p, next, token) {
      assert LeaseStands(p, st, token);
      if Undone(st, token) {
        var x :| x in st.replies && IsRelease(st, x, token);
        assert x in next.replies && IsRelease(next, x, token);
      }
    }
  }

  lemma {:induction false} TraceKeepsReleases(p: Params, t: Trace, k: nat)
    requires IsTrace(p, t) && k < |t.states|
    ensures ReleasesOk(p, t.states[k])
  {
    if k > 0 {
      TraceKeepsReleases(p, t, k - 1);
      TraceKeepsInv(p, t, k - 1);
      assert StepOk(p, t, k - 1);
      StepKeepsReleases(p, t.states[k - 1], t.actions[k - 1]);
    }
  }

  lemma {:induction false} NotYetUndone(p: Params, st: State, id: Id, token: Token)
    requires ReleasesOk(p, st) && id in st.inFlight && IsRelease(st, id, token)
    ensures !Undone(st, token)
  {
    forall x <- st.replies ensures !IsRelease(st, x, token) {
      assert x != id;
    }
  }

  /** A release executed while its lease is running deletes the key. */
  lemma {:induction false} TimelyReleaseDeletes(p: Params, t: Trace, k: nat)
    requires IsTrace(p, t) && ExecutedAt(t, k, Release)
    requires Running(p, t.states[k], t.states[k].sent[t.actions[k].id].token)
    ensures t.states[k + 1].key == Absent && Replied(t.states[k + 1], t.actions[k].id, true)
  {
    var st, id := t.states[k], t.actions[k].id;
    var token := st.sent[id].token;
    TraceKeepsReleases(p, t, k);
    assert StepOk(p, t, k);
    NotYetUndone(p, st, id, token);
    assert LeaseStands(p, st, token);
    ReleaseDeletes(p, t, k);
  }

  /** No SET is executed between the two states. */
  predicate NoSetBetween(t: Trace, a: nat, b: nat)
    requires a <= b <= |t.actions| && |t.states| == |t.actions| + 1
  {
    forall k | a <= k < b :: !Executes(t.states[k], t.actions[k], SetNx)
  }

  /** Only a SET fills an absent key. */
  lemma {:induction false} StaysAbsent(p: Params, t: Trace, a: nat, b: nat)
    requires IsTrace(p, t) && a <= b < |t.states| && NoSetBetween(t, a, b) && t.states[a].key == Absent
    ensures t.states[b].key == Absent
    decreases b
  {
    if a < b {
      StaysAbsent(p, t, a, b - 1);
      assert StepOk(p, t, b - 1);
    }
  }

  /** Once a release has been executed in time the lock is free: the next SET executed, whoever sent
      it, takes the lock for a full lease. */
  lemma {:induction false} ReleaseFreesLock(p: Params, t: Trace, a: nat, b: nat)
    requires IsTrace(p, t) && ExecutedAt(t, a, Release) && ExecutedAt(t, b, SetNx) && a < b
    requires Running(p, t.states[a], t.states[a].sent[t.actions[a].id].token)
    requires NoSetBetween(t, a + 1, b)
    ensures var st, next, id := t.states[b], t.states[b + 1], t.actions[b].id;
      Replied(next, id, true) && next.key == Present(st.sent[id].token, st.clock + p.expire)
  {
    TimelyReleaseDeletes(p, t, a);
    StaysAbsent(p, t, a + 1, b);
    SetTakesFreeLock(p, t, b);
  }

  // ------------------------------------------------------------------
  // What the clients can do
  // ------------------------------------------------------------------

  function Last(t: Trace): State
    requires t.states != []
  {
    t.states[|t.states| - 1]
  }

  /** The run with one more action. */
  function Extend(p: Params, t: Trace, a: Action): Trace
    requires t.states != [] && Enabled(p, Last(t), a)
  {
    Trace(t.states + [After(p, Last(t), a)], t.actions + [a])
  }

  lemma {:induction false} ExtendIsTrace(p: Params, t: Trace, a: Action)
    requires IsTrace(p, t) && Enabled(p, Last(t), a)
    ensures IsTrace(p, Extend(p, t, a)) && Last(Extend(p, t, a)) == After(p, Last(t), a)
    ensures t.states <= Extend(p, t, a).states
  {
    var longer := Extend(p, t, a);
    forall k {:trigger StepOk(p, longer, k)} | 0 <= k < |longer.actions| ensures StepOk(p, longer, k) {
      if k < |t.actions| {
        assert StepOk(p, t, k);
      }
    }
  }

  lemma {:induction false} FreshNumber(used: set<nat>) returns (n: nat)
    ensures forall x <- used :: x < n
    decreases |used|
  {
    if used == {} {
      n := 0;
    } else {
      var x :| x in used;
      var m := FreshNumber(used - {x});
      n := if m <= x then x + 1 else m;
      assert forall y <- used :: y == x || y in used - {x};
    }
  }

  /** One step of the run after it. */
  lemma {:induction false} Go(p: Params, t: Trace, a: Action) returns (longer: Trace)
    requires IsTrace(p, t) && Enabled(p, Last(t), a)
    ensures IsTrace(p, longer) && t.states <= longer.states && Last(longer) == After(p, Last(t), a)
  {
    ExtendIsTrace(p, t, a);
    longer := Extend(p, t, a);
  }

  /** A request is sent and served at once. */
  lemma {:induction false} SendAndServe(p: Params, t: Trace, a: Action) returns (longer: Trace)
    requires IsTrace(p, t) && Sends(a) && Enabled(p, Last(t), a)
    ensures IsTrace(p, longer) && t.states <= longer.states
    ensures Last(longer) == Executed(p, After(p, Last(t), a), a.id)
  {
    longer := Go(p, t, a);
    longer := Go(p, longer, Execute(a.id));
  }

  /** When no lease is running an idle instance can acquire the lock, and is then protected. */
  lemma {:induction false} FreeLockCanBeAcquired(p: Params, t: Trace, i: Instance) returns (longer: Trace)
    requires IsTrace(p, t) && p.expire > 0 && i in Last(t).locals
    requires !Last(t).locals[i].locked && Last(t).locals[i].control.Idle? && !Live(Last(t).key, Last(t).clock)
    ensures IsTrace(p, longer) && t.states <= longer.states
    ensures Protected(p, Last(longer), i) && Last(longer).locals[i].control.Idle?
    ensures Last(longer).clock == Last(t).clock
  {
    var token := FreshNumber(Last(t).owner.Keys);
    var id := FreshNumber(Last(t).sent.Keys);
    longer := Go(p, t, Acquire(i, token));
    longer := SendAndServe(p, longer, SendSet(i, id));
    longer := Go(p, longer, SetSucceeded(i));
  }

  /** A protected instance can release the lock; it then holds nothing, and the key is gone. */
  lemma {:induction false} ProtectedCanRelease(p: Params, t: Trace, i: Instance) returns (longer: Trace)
    requires IsTrace(p, t) && Protected(p, Last(t), i) && Last(t).locals[i].control.Idle?
    ensures IsTrace(p, longer) && t.states <= longer.states
    ensures Last(longer).key == Absent && Last(longer).clock == Last(t).clock
    ensures i in Last(longer).locals
    ensures var me := Last(longer).locals[i]; !me.locked && me.value.None? && me.control.Idle?
  {
    var id := FreshNumber(Last(t).sent.Keys);
    ProtectedHasKey(p, t, |t.states| - 1, i);
    longer := SendAndServe(p, t, SendRelease(i, id));
    longer := Go(p, longer, ReleaseReturned(i));
  }

  lemma {:induction false} LeaseHasTime(p: Params, t: Trace, i: Instance)
    requires IsTrace(p, t) && Protected(p, Last(t), i)
    ensures p.expire > 0
  {
    TraceKeepsInv(p, t, |t.states| - 1);
    assert GrantOk(p, Last(t), Last(t).locals[i].value.value);
  }

  /** A protected instance whose watchdog sleeps can renew its lease for the full time from now on. */
  lemma {:induction false} ProtectedCanRenew(p: Params, t: Trace, i: Instance) returns (longer: Trace)
    requires IsTrace(p, t) && Protected(p, Last(t), i)
    requires Last(t).locals[i].dog == Sleeping(Last(t).locals[i].value.value)
    ensures IsTrace(p, longer) && t.states <= longer.states
    ensures Protected(p, Last(longer), i) && Last(longer).locals[i] == Last(t).locals[i]
    ensures Last(longer).key == Present(Last(t).locals[i].value.value, Last(t).clock + p.expire)
  {
    var id := FreshNumber(Last(t).sent.Keys);
    ProtectedHasKey(p, t, |t.states| - 1, i);
    LeaseHasTime(p, t, i);
    longer := SendAndServe(p, t, SendRenew(i, id));
    longer := Go(p, longer, RenewSucceeded(i));
  }

  /** A watchdog started on a protected instance renews that instance's own lease. */
  lemma {:induction false} WatchdogGuardsLock(p: Params, t: Trace, i: Instance) returns (longer: Trace)
    requires IsTrace(p, t) && Protected(p, Last(t), i) && Last(t).locals[i].dog.Off?
    ensures IsTrace(p, longer) && t.states <= longer.states
    ensures Protected(p, Last(longer), i)
    ensures Last(longer).key == Present(Last(t).locals[i].value.value, Last(t).clock + p.expire)
  {
    longer := Go(p, t, StartWatchdog(i));
    longer := ProtectedCanRenew(p, longer, i);
  }

  /** When the lease has lapsed the watchdog learns it with its next renewal, and the instance no
      longer counts as locked. */
  lemma {:induction false} LapsedLockIsNoticed(p: Params, t: Trace, i: Instance) returns (longer: Trace)
    requires IsTrace(p, t) && i in Last(t).locals && Last(t).locals[i].dog.Sleeping?
    requires !Holds(Last(t).key, Last(t).clock, Last(t).locals[i].dog.token)
    ensures IsTrace(p, longer) && t.states <= longer.states
    ensures i in Last(longer).locals
    ensures !Last(longer).locals[i].locked && Last(longer).locals[i].dog.Off? && Last(longer).key == Last(t).key
  {
    var id := FreshNumber(Last(t).sent.Keys);
    longer := SendAndServe(p, t, SendRenew(i, id));
    longer := Go(p, longer, RenewRefused(i));
  }
}
