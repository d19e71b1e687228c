/** The Redis lease lock of aperag/concurrent_control/redis_lock.py, as a step relation.

    Any number of lock instances share one Redis key. Each instance is one sequential client
    (`acquire`, `release`) and at most one watchdog. A request is sent, later executed by the
    server in one atomic step or lost; its reply is delivered or lost. A client that gets an
    exception cannot tell the two apart, and its request may still be executed afterwards. */
module LeaseLock {
  import opened Common

  type Instance = nat
  type Token = nat
  type Id = nat

  /** `expire` is the lease time in clock ticks, `retries` the configured number of retries. */
  datatype Params = Params(expire: nat, retries: nat)

  // ------------------------------------------------------------------
  // The Redis key
  // ------------------------------------------------------------------

  datatype Key = Absent | Present(token: Token, expires: nat)

  datatype Kind = SetNx | Release | Renew

  datatype Request = Request(kind: Kind, owner: Instance, token: Token)

  predicate Live(key: Key, clock: nat) {
    key.Present? && clock < key.expires
  }

  predicate Holds(key: Key, clock: nat, token: Token) {
    Live(key, clock) && key.token == token
  }

  /** SET NX EX, and the two Lua scripts: the new key and the reply. */
  function Serve(p: Params, key: Key, clock: nat, request: Request): (Key, bool) {
    match request.kind
    case SetNx =>
      if Live(key, clock) then (key, false) else (Present(request.token, clock + p.expire), true)
    case Release =>
      if Holds(key, clock, request.token) then (Absent, true) else (key, false)
    case Renew =>
      if Holds(key, clock, request.token) then (Present(request.token, clock + p.expire), true) else (key, false)
  }

  // ------------------------------------------------------------------
  // Instances
  // ------------------------------------------------------------------

  /** Where the sequential client of an instance is. */
  datatype Control =
    | Idle
    | Trying(token: Token, attempt: nat)
    | Setting(token: Token, attempt: nat, id: Id)
    | Releasing(id: Id)

  datatype Watchdog = Off | Sleeping(token: Token) | Renewing(token: Token, id: Id)

  /** The fields `_is_locked` and `_lock_value`, the client and the watchdog. */
  datatype Local = Local(locked: bool, value: Option<Token>, control: Control, dog: Watchdog)

  /** `sent` keeps every request, `inFlight` those not executed yet, `replies` the results.
      The rest is history for stating properties: who drew a token, when a SET or RENEW of a
      token last succeeded, which tokens were acknowledged, and for which a release was sent. */
  datatype State = State(
    clock: nat,
    key: Key,
    locals: map<Instance, Local>,
    sent: map<Id, Request>,
    inFlight: set<Id>,
    replies: map<Id, bool>,
    owner: map<Token, Instance>,
    granted: map<Token, nat>,
    won: set<Token>,
    released: set<Token>)

  datatype Action =
    | Tick
    | Acquire(i: Instance, token: Token)
    | GiveUp(i: Instance)
    | SendSet(i: Instance, id: Id)
    | SetSucceeded(i: Instance)
    | SetRefused(i: Instance)
    | SetFailed(i: Instance)
    | SendRelease(i: Instance, id: Id)
    | ReleaseReturned(i: Instance)
    | StartWatchdog(i: Instance)
    | SendRenew(i: Instance, id: Id)
    | RenewSucceeded(i: Instance)
    | RenewRefused(i: Instance)
    | RenewFailed(i: Instance)
    | StopWatchdog(i: Instance)
    | Execute(id: Id)
    | Lose(id: Id)

  predicate Replied(st: State, id: Id, result: bool) {
    id in st.replies && st.replies[id] == result
  }

  predicate Enabled(p: Params, st: State, a: Action) {
    match a
    case Tick => true
    case Execute(id) => id in st.inFlight && id in st.sent
    case Lose(id) => id in st.inFlight
    case _ => a.i in st.locals && LocallyEnabled(p, st, a, st.locals[a.i])
  }

  predicate LocallyEnabled(p: Params, st: State, a: Action, me: Local)
    requires !a.Tick? && !a.Execute? && !a.Lose?
  {
    match a
    case Acquire(_, token) => me.control.Idle? && !me.locked && token !in st.owner
    case GiveUp(_) => me.control.Trying?
    case SendSet(_, id) => me.control.Trying? && me.control.attempt < p.retries + 1 && id !in st.sent
    case SetSucceeded(_) => me.control.Setting? && Replied(st, me.control.id, true)
    case SetRefused(_) => me.control.Setting? && Replied(st, me.control.id, false)
    case SetFailed(_) => me.control.Setting?
    case SendRelease(_, id) => me.control.Idle? && me.locked && me.value.Some? && id !in st.sent
    case ReleaseReturned(_) => me.control.Releasing?
    case StartWatchdog(_) => me.value.Some? && me.dog.Off?
    case SendRenew(_, id) => me.dog.Sleeping? && id !in st.sent
    case RenewSucceeded(_) => me.dog.Renewing? && Replied(st, me.dog.id, true)
    case RenewRefused(_) => me.dog.Renewing? && Replied(st, me.dog.id, false)
    case RenewFailed(_) => me.dog.Renewing?
    case StopWatchdog(_) => !me.dog.Off?
  }

  predicate Sends(a: Action) {
    a.SendSet? || a.SendRelease? || a.SendRenew?
  }

  /** The request a sending step puts on the wire. */
  function RequestOf(a: Action, me: Local): Request
    requires Sends(a)
    requires a.SendSet? ==> me.control.Trying?
    requires a.SendRelease? ==> me.value.Some?
    requires a.SendRenew? ==> me.dog.Sleeping?
  {
    match a
    case SendSet(i, _) => Request(SetNx, i, me.control.token)
    case SendRelease(i, _) => Request(Release, i, me.value.value)
    case SendRenew(i, _) => Request(Renew, i, me.dog.token)
  }

  function After(p: Params, st: State, a: Action): State
    requires Enabled(p, st, a)
  {
    match a
    case Tick => st.(clock := st.clock + 1)
    case Execute(id) => Executed(p, st, id)
    case Lose(id) => st.(inFlight := st.inFlight - {id})
    case _ => LocallyAfter(p, st, a, st.locals[a.i])
  }

  function Executed(p: Params, st: State, id: Id): State
    requires id in st.sent
  {
    var request := st.sent[id];
    var (key, result) := Serve(p, st.key, st.clock, request);
    st.(key := key,
        inFlight := st.inFlight - {id},
        replies := st.replies[id := result],
        granted := if result && !request.kind.Release? then st.granted[request.token := st.clock] else st.granted)
  }

  /** The instance after its step. */
  function LocalAfter(p: Params, st: State, a: Action, me: Local): Local
    requires !a.Tick? && !a.Execute? && !a.Lose? && LocallyEnabled(p, st, a, me)
  {
    match a
    case Acquire(_, token) => me.(control := Trying(token, 0))
    case GiveUp(_) => me.(control := Idle)
    case SendSet(_, id) => me.(control := Setting(me.control.token, me.control.attempt, id))
    case SetSucceeded(_) => me.(locked := true, value := Some(me.control.token), control := Idle)
    case SetRefused(_) => me.(control := Trying(me.control.token, me.control.attempt + 1))
    case SetFailed(_) => me.(control := Trying(me.control.token, me.control.attempt + 1))
    case SendRelease(_, id) => me.(control := Releasing(id))
    case ReleaseReturned(_) => me.(locked := false, value := None, control := Idle)
    case StartWatchdog(_) => me.(dog := Sleeping(me.value.value))
    case SendRenew(_, id) => me.(dog := Renewing(me.dog.token, id))
    case RenewSucceeded(_) => me.(dog := Sleeping(me.dog.token))
    case RenewRefused(_) => me.(locked := false, dog := Off)
    case RenewFailed(_) => me.(dog := Off)
    case StopWatchdog(_) => me.(dog := Off)
  }

  /** The shared state after a step of instance `a.i`. */
  function LocallyAfter(p: Params, st: State, a: Action, me: Local): State
    requires !a.Tick? && !a.Execute? && !a.Lose? && LocallyEnabled(p, st, a, me)
  {
    st.(locals := st.locals[a.i := LocalAfter(p, st, a, me)],
        sent := if Sends(a) then st.sent[a.id := RequestOf(a, me)] else st.sent,
        inFlight := if Sends(a) then st.inFlight + {a.id} else st.inFlight,
        owner := if a.Acquire? then st.owner[a.token := a.i] else st.owner,
        won := if a.SetSucceeded? then st.won + {me.control.token} else st.won,
        released := if a.SendRelease? then st.released + {me.value.value} else st.released)
  }

  /** Nothing has happened yet; the key may have been left behind by nobody. */
  predicate Initial(st: State) {
    && st.key == Absent && st.sent == map[] && st.inFlight == {} && st.replies == map[]
    && st.owner == map[] && st.granted == map[] && st.won == {} && st.released == {}
    && forall i <- st.locals :: st.locals[i] == Local(false, None, Idle, Off)
  }

  /** A run: its states, and the action between each state and the next. */
  datatype Trace = Trace(states: seq<State>, actions: seq<Action>)

  predicate StepOk(p: Params, t: Trace, k: nat)
    requires |t.states| == |t.actions| + 1 && k < |t.actions|
  {
    Enabled(p, t.states[k], t.actions[k]) && t.states[k + 1] == After(p, t.states[k], t.actions[k])
  }

  ghost predicate IsTrace(p: Params, t: Trace) {
    && |t.states| == |t.actions| + 1
    && Initial(t.states[0])
    && forall k {:trigger StepOk(p, t, k)} | 0 <= k < |t.actions| :: StepOk(p, t, k)
  }
}
