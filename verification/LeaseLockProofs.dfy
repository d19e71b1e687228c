/** Safety of the lease lock over all its runs. */
module LeaseLockProofs {
  import opened Common
  import opened LeaseLock

  /** The SET requests sent for a token. */
  function SetsOf(sent: map<Id, Request>, token: Token): set<Id> {
    set id | id in sent && sent[id].kind == SetNx && sent[id].token == token
  }

  // ------------------------------------------------------------------
  // The invariant
  // ------------------------------------------------------------------

  /** The lease of `token` is running: its last successful SET or RENEW is recent. */
  predicate Running(p: Params, st: State, token: Token) {
    token in st.granted && st.clock < st.granted[token] + p.expire
  }

  predicate KeyOk(p: Params, st: State) {
    && (st.key.Present? ==>
          st.key.token in st.granted && st.key.expires == st.granted[st.key.token] + p.expire)
    && forall t <- st.granted :: GrantOk(p, st, t)
  }

  predicate GrantOk(p: Params, st: State, t: Token)
    requires t in st.granted
  {
    && t in st.owner && st.granted[t] <= st.clock
    && (Running(p, st, t) && t !in st.released ==> st.key == Present(t, st.granted[t] + p.expire))
  }

  predicate RequestOk(st: State, id: Id)
    requires id in st.sent
  {
    var request := st.sent[id];
    && request.token in st.owner && st.owner[request.token] == request.owner
    && (request.kind.Release? ==> request.token in st.released)
    && (!request.kind.SetNx? ==> request.token in st.won)
    && (Replied(st, id, true) && request.kind.SetNx? ==> request.token in st.granted)
  }

  predicate TokensOk(p: Params, st: State) {
    && st.released <= st.won && st.won <= st.granted.Keys && st.won <= st.owner.Keys
    && st.inFlight <= st.sent.Keys && st.replies.Keys <= st.sent.Keys
    && (forall id <- st.sent :: RequestOk(st, id))
    && (forall t <- st.owner :: |SetsOf(st.sent, t)| <= p.retries + 1)
  }

  predicate Owns(st: State, i: Instance, t: Token) {
    t in st.owner && st.owner[t] == i
  }

  /** The token an `acquire` in progress has drawn: not acknowledged, with so many SETs sent. */
  predicate Drawn(p: Params, st: State, i: Instance, me: Local, t: Token, sets: nat) {
    Owns(st, i, t) && t !in st.won && !me.locked && |SetsOf(st.sent, t)| == sets && sets <= p.retries + 1
  }

  predicate ControlOk(p: Params, st: State, i: Instance, me: Local) {
    match me.control
    case Idle => true
    case Trying(t, attempt) => Drawn(p, st, i, me, t, attempt)
    case Setting(t, attempt, id) =>
      Drawn(p, st, i, me, t, attempt + 1) && id in st.sent && st.sent[id] == Request(SetNx, i, t)
    case Releasing(id) => true
  }

  predicate LocalOk(p: Params, st: State, i: Instance, me: Local) {
    && (me.value.Some? ==> Owns(st, i, me.value.value) && me.value.value in st.won)
    && (me.locked ==> me.value.Some?)
    && (me.locked && !me.control.Releasing? ==> me.value.value !in st.released)
    && (!me.dog.Off? ==> Owns(st, i, me.dog.token) && me.dog.token in st.won)
    && ControlOk(p, st, i, me)
  }

  predicate LocalsOk(p: Params, st: State) {
    forall i <- st.locals :: LocalOk(p, st, i, st.locals[i])
  }

  predicate Inv(p: Params, st: State) {
    KeyOk(p, st) && TokensOk(p, st) && LocalsOk(p, st)
  }

  // ------------------------------------------------------------------
  // Every step keeps it
  // ------------------------------------------------------------------

  lemma {:induction false} ExecuteKeepsKey(p: Params, st: State, id: Id)
    requires Inv(p, st) && id in st.inFlight && id in st.sent
    ensures KeyOk(p, Executed(p, st, id))
  {
    var request, next := st.sent[id], Executed(p, st, id);
    assert RequestOk(st, id);
    forall t <- next.granted ensures GrantOk(p, next, t) {
      if t in st.granted {
        assert GrantOk(p, st, t);
      }
    }
  }

  lemma {:induction false} ExecuteKeepsInv(p: Params, st: State, id: Id)
    requires Inv(p, st) && id in st.inFlight && id in st.sent
    ensures Inv(p, Executed(p, st, id))
  {
    var next := Executed(p, st, id);
    ExecuteKeepsKey(p, st, id);
    forall x <- next.sent ensures RequestOk(next, x) {
      assert RequestOk(st, x);
    }
    forall i <- next.locals ensures LocalOk(p, next, i, next.locals[i]) {
      assert LocalOk(p, st, i, st.locals[i]);
    }
  }

  lemma {:induction false} TickKeepsInv(p: Params, st: State)
    requires Inv(p, st)
    ensures Inv(p, st.(clock := st.clock + 1))
  {
    var next := st.(clock := st.clock + 1);
    forall t <- next.granted ensures GrantOk(p, next, t) {
      assert GrantOk(p, st, t);
    }
    forall x <- next.sent ensures RequestOk(next, x) {
      assert RequestOk(st, x);
    }
    forall i <- next.locals ensures LocalOk(p, next, i, next.locals[i]) {
      assert LocalOk(p, st, i, st.locals[i]);
    }
  }

  predicate IsLocal(a: Action) {
    !a.Tick? && !a.Execute? && !a.Lose?
  }

  lemma {:induction false} SetsAfterSend(sent: map<Id, Request>, id: Id, request: Request, token: Token)
    requires id !in sent
    ensures SetsOf(sent[id := request], token)
         == SetsOf(sent, token) + if request.kind == SetNx && request.token == token then {id} else {}
  {
  }

  /** Which SETs a step adds to a token: only `SendSet` adds one, to its own token. */
  lemma {:induction false} SetsAfterStep(p: Params, st: State, a: Action, token: Token)
    requires IsLocal(a) && Enabled(p, st, a)
    ensures SetsOf(After(p, st, a).sent, token)
         == if a.SendSet? && st.locals[a.i].control.token == token then SetsOf(st.sent, token) + {a.id} else SetsOf(st.sent, token)
    ensures a.SendSet? ==> a.id !in SetsOf(st.sent, token)
  {
    if Sends(a) {
      SetsAfterSend(st.sent, a.id, RequestOf(a, st.locals[a.i]), token);
    }
  }

  lemma {:induction false} SetCountAfterStep(p: Params, st: State, a: Action, token: Token)
    requires IsLocal(a) && Enabled(p, st, a)
    ensures |SetsOf(After(p, st, a).sent, token)|
         == |SetsOf(st.sent, token)| + if a.SendSet? && st.locals[a.i].control.token == token then 1 else 0
  {
    SetsAfterStep(p, st, a, token);
  }

  lemma {:induction false} NoSetsForUnknown(p: Params, st: State, token: Token)
    requires TokensOk(p, st) && token !in st.owner
    ensures SetsOf(st.sent, token) == {}
  {
    forall id | id in st.sent ensures st.sent[id].token != token {
      assert RequestOk(st, id);
    }
  }

  lemma {:induction false} LocalStepKeepsKey(p: Params, st: State, a: Action)
    requires Inv(p, st) && IsLocal(a) && Enabled(p, st, a)
    ensures KeyOk(p, After(p, st, a))
  {
    var next := After(p, st, a);
    assert next.key == st.key && next.granted == st.granted && next.clock == st.clock;
    forall t <- next.granted ensures GrantOk(p, next, t) {
      assert GrantOk(p, st, t);
    }
  }

  /** The requests known before keep their meaning, and a new one is in order. */
  lemma {:induction false} LocalStepKeepsRequests(p: Params, st: State, a: Action)
    requires Inv(p, st) && IsLocal(a) && Enabled(p, st, a)
    ensures forall id <- After(p, st, a).sent :: RequestOk(After(p, st, a), id)
  {
    var next := After(p, st, a);
    assert LocalOk(p, st, a.i, st.locals[a.i]);
    forall id <- next.sent ensures RequestOk(next, id) {
      if id in st.sent {
        assert RequestOk(st, id);
        assert st.sent[id].token in st.owner;
      }
    }
  }

  lemma {:induction false} LocalStepKeepsCounts(p: Params, st: State, a: Action, t: Token)
    requires Inv(p, st) && IsLocal(a) && Enabled(p, st, a) && t in After(p, st, a).owner
    ensures |SetsOf(After(p, st, a).sent, t)| <= p.retries + 1
  {
    assert LocalOk(p, st, a.i, st.locals[a.i]);
    SetCountAfterStep(p, st, a, t);
    if t !in st.owner {
      NoSetsForUnknown(p, st, t);
    }
  }

  lemma {:induction false} LocalStepKeepsTokens(p: Params, st: State, a: Action)
    requires Inv(p, st) && IsLocal(a) && Enabled(p, st, a)
    ensures TokensOk(p, After(p, st, a))
  {
    var next, me := After(p, st, a), st.locals[a.i];
    assert LocalOk(p, st, a.i, me);
    LocalStepKeepsRequests(p, st, a);
    if a.SetSucceeded? {
      assert RequestOk(st, me.control.id);
    }
    forall t <- next.owner ensures |SetsOf(next.sent, t)| <= p.retries + 1 {
      LocalStepKeepsCounts(p, st, a, t);
    }
  }

  /** What a step of instance `i` may change outside its own local state. */
  ghost predicate ChangesOwnTokensOnly(st: State, next: State, i: Instance) {
    && (forall t <- st.owner :: t in next.owner && next.owner[t] == st.owner[t])
    && (forall t <- next.won :: t in st.won || Owns(next, i, t))
    && (forall t <- next.released :: t in st.released || Owns(next, i, t))
    && st.won <= next.won
    && (forall id <- st.sent :: id in next.sent && next.sent[id] == st.sent[id])
    && (forall t <- st.owner :: st.owner[t] == i || |SetsOf(next.sent, t)| == |SetsOf(st.sent, t)|)
  }

  lemma {:induction false} LocalStepChangesOwn(p: Params, st: State, a: Action)
    requires Inv(p, st) && IsLocal(a) && Enabled(p, st, a)
    ensures ChangesOwnTokensOnly(st, After(p, st, a), a.i)
    ensures After(p, st, a).locals.Keys == st.locals.Keys
    ensures forall j <- st.locals :: j == a.i || After(p, st, a).locals[j] == st.locals[j]
  {
    var next, me := After(p, st, a), st.locals[a.i];
    assert LocalOk(p, st, a.i, me);
    forall t <- st.owner ensures st.owner[t] == a.i || |SetsOf(next.sent, t)| == |SetsOf(st.sent, t)| {
      SetCountAfterStep(p, st, a, t);
    }
  }

  /** A step of one instance does not disturb another. */
  lemma {:induction false} OthersStayOk(p: Params, st: State, next: State, i: Instance, j: Instance, you: Local)
    requires ChangesOwnTokensOnly(st, next, i) && j != i && LocalOk(p, st, j, you)
    ensures LocalOk(p, next, j, you)
  {
  }

  lemma {:induction false} LocalStepKeepsSelf(p: Params, st: State, a: Action)
    requires Inv(p, st) && IsLocal(a) && Enabled(p, st, a)
    ensures LocalOk(p, After(p, st, a), a.i, After(p, st, a).locals[a.i])
  {
    var next, me := After(p, st, a), st.locals[a.i];
    assert LocalOk(p, st, a.i, me);
    if a.Acquire? {
      NoSetsForUnknown(p, st, a.token);
    } else if me.control.Trying? || me.control.Setting? {
      SetCountAfterStep(p, st, a, me.control.token);
    }
  }

  lemma {:induction false} LocalStepKeepsInv(p: Params, st: State, a: Action)
    requires Inv(p, st) && IsLocal(a) && Enabled(p, st, a)
    ensures Inv(p, After(p, st, a))
  {
    var next := After(p, st, a);
    LocalStepKeepsKey(p, st, a);
    LocalStepKeepsTokens(p, st, a);
    LocalStepChangesOwn(p, st, a);
    forall j <- next.locals ensures LocalOk(p, next, j, next.locals[j]) {
      if j == a.i {
        LocalStepKeepsSelf(p, st, a);
      } else {
        OthersStayOk(p, st, next, a.i, j, st.locals[j]);
      }
    }
  }

  /** Every step keeps the invariant. */
  lemma {:induction false} StepKeepsInv(p: Params, st: State, a: Action)
    requires Inv(p, st) && Enabled(p, st, a)
    ensures Inv(p, After(p, st, a))
  {
    if a.Tick? {
      TickKeepsInv(p, st);
    } else if a.Execute? {
      ExecuteKeepsInv(p, st, a.id);
    } else if a.Lose? {
      LoseKeepsInv(p, st, a.id);
    } else {
      LocalStepKeepsInv(p, st, a);
    }
  }

  lemma {:induction false} LoseKeepsInv(p: Params, st: State, id: Id)
    requires Inv(p, st)
    ensures Inv(p, st.(inFlight := st.inFlight - {id}))
  {
    var next := st.(inFlight := st.inFlight - {id});
    forall t <- next.granted ensures GrantOk(p, next, t) {
      assert GrantOk(p, st, t);
    }
    forall x <- next.sent ensures RequestOk(next, x) {
      assert RequestOk(st, x);
    }
    forall i <- next.locals ensures LocalOk(p, next, i, next.locals[i]) {
      assert LocalOk(p, st, i, st.locals[i]);
    }
  }

  lemma {:induction false} TraceKeepsInv(p: Params, t: Trace, k: nat)
    requires IsTrace(p, t) && k < |t.states|
    ensures Inv(p, t.states[k])
  {
    if k > 0 {
      TraceKeepsInv(p, t, k - 1);
      assert StepOk(p, t, k - 1);
      StepKeepsInv(p, t.states[k - 1], t.actions[k - 1]);
    }
  }

  // ------------------------------------------------------------------
  // Main results
  // ------------------------------------------------------------------

  /** Locally held, release not begun, and last SET or RENEW under `expire` ago. */
  predicate Protected(p: Params, st: State, i: Instance) {
    && i in st.locals
    && var me := st.locals[i];
    && me.locked && me.value.Some? && !me.control.Releasing?
    && Running(p, st, me.value.value)
  }

  /** In every run a protected instance has its own token in the store. */
  lemma {:induction false} ProtectedHasKey(p: Params, t: Trace, k: nat, i: Instance)
    requires IsTrace(p, t) && k < |t.states| && Protected(p, t.states[k], i)
    ensures var st := t.states[k];
      Holds(st.key, st.clock, st.locals[i].value.value) && Owns(st, i, st.key.token)
  {
    TraceKeepsInv(p, t, k);
    var st := t.states[k];
    assert LocalOk(p, st, i, st.locals[i]);
    assert GrantOk(p, st, st.locals[i].value.value);
  }

  /** No two instances are ever protected at the same time. */
  lemma {:induction false} MutualExclusion(p: Params, t: Trace, k: nat, i: Instance, j: Instance)
    requires IsTrace(p, t) && k < |t.states|
    requires Protected(p, t.states[k], i) && Protected(p, t.states[k], j)
    ensures i == j
  {
    ProtectedHasKey(p, t, k, i);
    ProtectedHasKey(p, t, k, j);
  }

  /** A release or renewal, even a late one, changes the key only if the token is its own; a SET
      changes it only when no lease is running. */
  lemma {:induction false} RequestsTouchOwnKeyOnly(p: Params, t: Trace, k: nat)
    requires IsTrace(p, t) && k < |t.actions| && t.states[k + 1].key != t.states[k].key
    ensures t.actions[k].Execute? && t.actions[k].id in t.states[k].sent
    ensures var st, request := t.states[k], t.states[k].sent[t.actions[k].id];
      if request.kind.SetNx? then !Live(st.key, st.clock) && t.states[k + 1].key == Present(request.token, st.clock + p.expire)
      else Holds(st.key, st.clock, request.token) && Owns(st, request.owner, st.key.token)
  {
    TraceKeepsInv(p, t, k);
    assert StepOk(p, t, k);
    var st := t.states[k];
    if t.actions[k].Execute? {
      assert RequestOk(st, t.actions[k].id);
    }
  }

  lemma {:induction false} StepOnlyAdds(p: Params, t: Trace, k: nat)
    requires IsTrace(p, t) && k < |t.actions|
    ensures t.states[k].released <= t.states[k + 1].released
    ensures t.states[k].owner.Keys <= t.states[k + 1].owner.Keys
    ensures t.states[k].clock <= t.states[k + 1].clock
  {
    assert StepOk(p, t, k);
  }

  lemma {:induction false} ReleasedGrows(p: Params, t: Trace, a: nat, b: nat)
    requires IsTrace(p, t) && a <= b < |t.states|
    ensures t.states[a].released <= t.states[b].released
    decreases b
  {
    if a < b {
      ReleasedGrows(p, t, a, b - 1);
      StepOnlyAdds(p, t, b - 1);
    }
  }

  predicate Executes(st: State, a: Action, kind: Kind) {
    a.Execute? && a.id in st.sent && st.sent[a.id].kind == kind
  }

  /** While the SETs and RENEWs of a token succeed in time and it is not released, the store
      holds it, every renewal of it succeeds, and no SET of any instance does. */
  lemma {:induction false} RenewalKeepsLock(p: Params, t: Trace, token: Token, a: nat, b: nat, k: nat)
    requires IsTrace(p, t) && a <= k < b < |t.states|
    requires forall j | a <= j <= b :: Running(p, t.states[j], token)
    requires token !in t.states[b].released
    ensures Holds(t.states[k].key, t.states[k].clock, token)
    ensures Executes(t.states[k], t.actions[k], Renew) && t.states[k].sent[t.actions[k].id].token == token ==>
      Replied(t.states[k + 1], t.actions[k].id, true)
    ensures Executes(t.states[k], t.actions[k], SetNx) ==> Replied(t.states[k + 1], t.actions[k].id, false)
  {
    TraceKeepsInv(p, t, k);
    ReleasedGrows(p, t, k, b);
    assert GrantOk(p, t.states[k], token);
    assert StepOk(p, t, k);
  }

  /** No `acquire` ever sends more than `retries + 1` SETs. */
  lemma {:induction false} AttemptsAreBounded(p: Params, t: Trace, k: nat, token: Token)
    requires IsTrace(p, t) && k < |t.states|
    ensures |SetsOf(t.states[k].sent, token)| <= p.retries + 1
  {
    TraceKeepsInv(p, t, k);
    if token !in t.states[k].owner {
      NoSetsForUnknown(p, t.states[k], token);
    }
  }

  /** The token of an `acquire` that has returned False. */
  predicate Abandoned(st: State, token: Token) {
    && token in st.owner && token !in st.won
    && forall i <- st.locals :: !About(st.locals[i].control, token)
  }

  predicate About(control: Control, token: Token) {
    (control.Trying? || control.Setting?) && control.token == token
  }

  /** All requests for the token have been executed or lost. */
  predicate Quiet(st: State, token: Token) {
    forall id <- st.inFlight :: id in st.sent ==> st.sent[id].token != token
  }

  lemma {:induction false} AbandonedStays(p: Params, st: State, a: Action, token: Token)
    requires Inv(p, st) && Enabled(p, st, a) && Abandoned(st, token)
    ensures Abandoned(After(p, st, a), token)
  {
    var next := After(p, st, a);
    if IsLocal(a) {
      WinsAnotherToken(p, st, a, token);
    }
    forall i <- next.locals ensures !About(next.locals[i].control, token) {
      assert !About(st.locals[i].control, token);
    }
  }

  lemma {:induction false} WinsAnotherToken(p: Params, st: State, a: Action, token: Token)
    requires Inv(p, st) && Enabled(p, st, a) && Abandoned(st, token) && IsLocal(a)
    ensures var me := LocalAfter(p, st, a, st.locals[a.i]);
      !About(me.control, token) && (a.SetSucceeded? ==> st.locals[a.i].control.token != token)
  {
    assert !About(st.locals[a.i].control, token);
  }

  predicate SameGrant(st: State, next: State, token: Token) {
    (token in next.granted <==> token in st.granted) && (token in st.granted ==> next.granted[token] == st.granted[token])
  }

  lemma {:induction false} QuietStays(p: Params, st: State, a: Action, token: Token)
    requires Inv(p, st) && Enabled(p, st, a) && Abandoned(st, token) && Quiet(st, token)
    ensures Quiet(After(p, st, a), token) && SameGrant(st, After(p, st, a), token)
  {
    var next := After(p, st, a);
    if IsLocal(a) {
      if Sends(a) {
        SendsAnotherToken(p, st, a, token);
      }
      forall id <- next.inFlight | id in next.sent
        ensures next.sent[id].token != token
      {
        assert id in st.inFlight || (Sends(a) && id == a.id);
      }
    }
  }

  /** An instance sends nothing for a token that no `acquire` in progress has drawn and that was not won. */
  lemma {:induction false} SendsAnotherToken(p: Params, st: State, a: Action, token: Token)
    requires Inv(p, st) && Enabled(p, st, a) && Abandoned(st, token) && IsLocal(a) && Sends(a)
    ensures RequestOf(a, st.locals[a.i]).token != token
  {
    assert LocalOk(p, st, a.i, st.locals[a.i]);
    assert !About(st.locals[a.i].control, token);
  }

  lemma {:induction false} AbandonedPersists(p: Params, t: Trace, a: nat, k: nat, token: Token)
    requires IsTrace(p, t) && a <= k < |t.states|
    requires Abandoned(t.states[a], token) && Quiet(t.states[a], token)
    ensures Abandoned(t.states[k], token) && Quiet(t.states[k], token)
    ensures SameGrant(t.states[a], t.states[k], token)
    decreases k
  {
    if a < k {
      TraceKeepsInv(p, t, k - 1);
      AbandonedPersists(p, t, a, k - 1, token);
      assert StepOk(p, t, k - 1);
      AbandonedStays(p, t.states[k - 1], t.actions[k - 1], token);
      QuietStays(p, t.states[k - 1], t.actions[k - 1], token);
    }
  }

  /** A failed `acquire` can leave only its own key behind: no instance ever holds that token,
      and once its SETs have been executed or lost the key lapses within `expire`. */
  lemma {:induction false} FailedAcquireLapses(p: Params, t: Trace, a: nat, k: nat, token: Token)
    requires IsTrace(p, t) && a <= k < |t.states|
    requires Abandoned(t.states[a], token) && Quiet(t.states[a], token)
    ensures Holds(t.states[k].key, t.states[k].clock, token) ==> t.states[k].clock < t.states[a].clock + p.expire
    ensures forall i <- t.states[k].locals :: t.states[k].locals[i].value != Some(token)
  {
    TraceKeepsInv(p, t, a);
    TraceKeepsInv(p, t, k);
    AbandonedPersists(p, t, a, k, token);
    if token in t.states[a].granted {
      assert GrantOk(p, t.states[a], token);
    }
    forall i <- t.states[k].locals ensures t.states[k].locals[i].value != Some(token) {
      assert LocalOk(p, t.states[k], i, t.states[k].locals[i]);
    }
  }
}
