/** Exclusive use of a pooled connection: RpcAsyncClients claim a TcpClient with a compare-and-swap, install
    their callbacks, and in the destructor clear them before they release the claim; meanwhile the loop
    thread replaces the connection underneath. */
module Ownership {
  import opened Bytes

  /** The life of one RpcAsyncClient that was given the TcpClient, step by step. */
  datatype Life =
    | Refused        // the claim failed: an invalid client, which touches nothing
    | Claimed        // tryClaim succeeded
    | Installing     // the TcpClient's callback is set, the connection's not yet
    | Bound          // setupCallbacks has returned
    | Clearing       // clearCallbacks has cleared the TcpClient's callback, not yet the connection's
    | Cleared        // clearCallbacks has returned, in the destructor
    | Detached       // clearCallbacks has returned, in an explicit disconnect()
    | Gone           // destroyed

  /** owner is TcpClient::owner_; callback its message callback; connection the current connection;
      callbacks the message callback of every connection so far; building is a connection that newConnection
      has created, with a copy of the callback, but not yet published. lives are the clients by number. */
  datatype State = State(
    owner: Option<nat>, callback: Option<nat>, connection: Option<nat>, building: Option<nat>,
    callbacks: map<nat, Option<nat>>, lives: map<nat, Life>, next: nat)

  function Init(): State {
    State(None, None, None, None, map[], map[], 0)
  }

  datatype Action =
    | Construct(u: nat)       // tryClaim
    | Install(u: nat)         // setupCallbacks: tcpClient_->setMessageCallback
    | InstallOnConnection(u: nat)
    | Clear(u: nat)           // clearCallbacks: setMessageCallback({})
    | ClearConnection(u: nat, explicit: bool)
    | Release(u: nat)         // destructor: releaseClaim
    | Drop(u: nat)            // destructor after an explicit disconnect: tcpClient_ is null, no release
    | Create                  // newConnection: copies the callback
    | Publish                 // newConnection: connection_ = conn
    | Lose                    // removeConnection
    | PoolRelease             // ConnectionPool::release, check and clear

  predicate Enabled(s: State, a: Action) {
    match a
    case Construct(u) => u !in s.lives
    case Install(u) => u in s.lives && s.lives[u] == Claimed
    case InstallOnConnection(u) => u in s.lives && s.lives[u] == Installing
    case Clear(u) => u in s.lives && s.lives[u] == Bound
    case ClearConnection(u, _) => u in s.lives && s.lives[u] == Clearing
    case Release(u) => u in s.lives && s.lives[u] == Cleared
    case Drop(u) => u in s.lives && s.lives[u] == Detached
    case Create => s.building.None?
    case Publish => s.building.Some?
    case Lose => true
    case PoolRelease => true
  }

  /** Sets the message callback of the current connection, if there is one. */
  function SetOnConnection(s: State, cb: Option<nat>): State {
    if s.connection.None? then s else s.(callbacks := s.callbacks[s.connection.value := cb])
  }

  function Step(s: State, a: Action): State
    requires Enabled(s, a)
  {
    match a
    case Construct(u) =>
      if s.owner.None? then s.(owner := Some(u), lives := s.lives[u := Claimed])
      else s.(lives := s.lives[u := Refused])
    case Install(u) => s.(callback := Some(u), lives := s.lives[u := Installing])
    case InstallOnConnection(u) => SetOnConnection(s, Some(u)).(lives := s.lives[u := Bound])
    case Clear(u) => s.(callback := None, lives := s.lives[u := Clearing])
    case ClearConnection(u, explicit) =>
      SetOnConnection(s, None).(lives := s.lives[u := if explicit then Detached else Cleared])
    case Release(u) => s.(owner := if s.owner == Some(u) then None else s.owner, lives := s.lives[u := Gone])
    case Drop(u) => s.(lives := s.lives[u := Gone])
    case Create => s.(building := Some(s.next), callbacks := s.callbacks[s.next := s.callback], next := s.next + 1)
    case Publish => s.(connection := s.building, building := None)
    case Lose => s.(connection := None)
    case PoolRelease => if s.owner.Some? then s else SetOnConnection(s, None).(callback := None)
  }

  predicate CanRun(s: State, actions: seq<Action>)
    decreases |actions|
  {
    actions == [] || (Enabled(s, actions[0]) && CanRun(Step(s, actions[0]), actions[1..]))
  }

  function Run(s: State, actions: seq<Action>): State
    requires CanRun(s, actions)
    decreases |actions|
  {
    if actions == [] then s else Run(Step(s, actions[0]), actions[1..])
  }

  // ---------- the invariant ----------

  /** The client holds the claim. */
  predicate Holds(s: State, u: nat) {
    u in s.lives && s.lives[u] != Refused && s.lives[u] != Gone
  }

  /** A client that holds the claim is the owner; there is no other. */
  ghost predicate Exclusive(s: State, u: nat) {
    Holds(s, u) ==> s.owner == Some(u)
  }

  /** The callback is empty or belongs to the owner, who is at one of the given points of its life. */
  ghost predicate Proper(s: State, cb: Option<nat>, lives: set<Life>) {
    cb.None? || (s.owner == cb && cb.value in s.lives && s.lives[cb.value] in lives)
  }

  ghost predicate Inv(s: State) {
    && (forall u: nat :: Exclusive(s, u))
    && Proper(s, s.callback, {Installing, Bound})
    && (s.connection.Some? ==>
          s.connection.value in s.callbacks && s.connection.value < s.next
          && Proper(s, s.callbacks[s.connection.value], {Installing, Bound, Clearing}))
    && (s.building.Some? ==>
          s.building.value in s.callbacks && s.building.value < s.next && s.building != s.connection
          && Proper(s, s.callbacks[s.building.value], {Installing, Bound, Clearing}))
  }

  lemma InitInv()
    ensures Inv(Init())
  {
  }

  /** When clearCallbacks finishes, no connection that is still being built carries a copy of the callback. */
  ghost predicate Undisturbed(s: State, a: Action) {
    a.ClearConnection? && s.building.Some? && s.building.value in s.callbacks ==> s.callbacks[s.building.value].None?
  }

  /** The client whose claim a step is about; any number will do for the other steps. */
  function Actor(a: Action): nat {
    if a.Install? || a.InstallOnConnection? || a.Clear? || a.ClearConnection? || a.Release? || a.Drop? then a.u else 0
  }

  lemma StepExclusive(s: State, a: Action)
    requires Inv(s) && Enabled(s, a)
    ensures forall u: nat :: Exclusive(Step(s, a), u)
  {
    var s' := Step(s, a);
    assert Exclusive(s, Actor(a));
    forall u: nat ensures Exclusive(s', u) {
      assert Exclusive(s, u);
    }
  }

  /** The steps of the connection: it is created, published, lost, or cleared by the pool. */
  predicate OfConnection(a: Action) {
    a.Create? || a.Publish? || a.Lose? || a.PoolRelease?
  }

  lemma ConnectionStepInv(s: State, a: Action)
    requires Inv(s) && Enabled(s, a) && OfConnection(a)
    ensures Inv(Step(s, a))
  {
    StepExclusive(s, a);
  }

  lemma ClientStepInv(s: State, a: Action)
    requires Inv(s) && Enabled(s, a) && Undisturbed(s, a) && !OfConnection(a)
    ensures Inv(Step(s, a))
  {
    assert Exclusive(s, Actor(a));
    StepExclusive(s, a);
  }

  lemma StepInv(s: State, a: Action)
    requires Inv(s) && Enabled(s, a) && Undisturbed(s, a)
    ensures Inv(Step(s, a))
  {
    if OfConnection(a) {
      ConnectionStepInv(s, a);
    } else {
      ClientStepInv(s, a);
    }
  }

  ghost predicate Orderly(s: State, actions: seq<Action>)
    requires CanRun(s, actions)
    decreases |actions|
  {
    actions == [] || (Undisturbed(s, actions[0]) && Orderly(Step(s, actions[0]), actions[1..]))
  }

  lemma {:induction false} RunInv(s: State, actions: seq<Action>)
    requires Inv(s) && CanRun(s, actions) && Orderly(s, actions)
    ensures Inv(Run(s, actions))
    decreases |actions|
  {
    if actions != [] {
      StepInv(s, actions[0]);
      RunInv(Step(s, actions[0]), actions[1..]);
    }
  }

  /** At most one client holds the claim, and the callback of the TcpClient and of its current connection is that
      client's or empty. */
  ghost predicate OwnersOnly(s: State) {
    && (forall u, v :: Holds(s, u) && Holds(s, v) ==> u == v)
    && (s.callback.Some? ==> s.owner == s.callback && Holds(s, s.callback.value))
    && (s.connection.Some? ==>
          && s.connection.value in s.callbacks
          && (s.callbacks[s.connection.value].Some? ==>
                s.owner == s.callbacks[s.connection.value] && Holds(s, s.owner.value)))
  }

  lemma InvOwnersOnly(s: State)
    requires Inv(s)
    ensures OwnersOnly(s)
  {
    forall u, v | Holds(s, u) && Holds(s, v) ensures u == v {
      assert Exclusive(s, u) && Exclusive(s, v);
    }
  }

  /** That holds over every orderly interleaving of constructions, destructions and reconnections. */
  lemma OneOwner(actions: seq<Action>)
    requires CanRun(Init(), actions) && Orderly(Init(), actions)
    ensures OwnersOnly(Run(Init(), actions))
  {
    InitInv();
    RunInv(Init(), actions);
    InvOwnersOnly(Run(Init(), actions));
  }

  /** The run goes on without another disturbance and still ends with a callback that is not the owner's. */
  ghost predicate GoesWrong(s: State, next: seq<Action>) {
    CanRun(s, next) && Orderly(s, next) && !OwnersOnly(Run(s, next))
  }

  lemma TwoSteps(s: State, a: Action, b: Action)
    requires Enabled(s, a) && Enabled(Step(s, a), b)
    ensures CanRun(s, [a, b]) && Run(s, [a, b]) == Step(Step(s, a), b)
    ensures Undisturbed(s, a) && Undisturbed(Step(s, a), b) ==> Orderly(s, [a, b])
  {
    assert [a, b][1..] == [b] && [b][1..] == [];
    assert CanRun(Step(s, a), [b]) && Run(Step(s, a), [b]) == Step(Step(s, a), b);
  }

  /** A copy that survives clearCallbacks is published, and its client goes away. */
  lemma CopySurvives(s: State, a: Action)
    requires Inv(s) && Enabled(s, a) && !Undisturbed(s, a)
    ensures GoesWrong(Step(s, a), [Publish, if a.explicit then Drop(a.u) else Release(a.u)])
  {
    assert Exclusive(s, a.u);
    var s' := Step(s, a);
    TwoSteps(s', Publish, if a.explicit then Drop(a.u) else Release(a.u));
  }

  /** The condition is exact for the callbacks in use: a step in a good state can lead to trouble, with nothing else
      going wrong after it, exactly when it finishes clearCallbacks while a copy is under way. */
  lemma TroubleExactlyWhen(s: State, a: Action)
    requires Inv(s) && Enabled(s, a)
    ensures (exists next :: GoesWrong(Step(s, a), next)) <==> !Undisturbed(s, a)
  {
    if Undisturbed(s, a) {
      StepInv(s, a);
      forall next ensures !GoesWrong(Step(s, a), next) {
        if CanRun(Step(s, a), next) && Orderly(Step(s, a), next) {
          RunInv(Step(s, a), next);
          InvOwnersOnly(Run(Step(s, a), next));
        }
      }
    } else {
      CopySurvives(s, a);
    }
  }

  lemma {:induction false} ExclusiveKept(s: State, actions: seq<Action>)
    requires (forall u: nat :: Exclusive(s, u)) && CanRun(s, actions)
    ensures forall u: nat :: Exclusive(Run(s, actions), u)
    decreases |actions|
  {
    if actions != [] {
      var a := actions[0];
      assert Exclusive(s, Actor(a));
      var s' := Step(s, a);
      forall u: nat ensures Exclusive(s', u) {
        assert Exclusive(s, u);
      }
      ExclusiveKept(s', actions[1..]);
    }
  }

  /** The claim alone is exclusive in every run, orderly or not. */
  lemma ClaimExclusive(actions: seq<Action>, u: nat, v: nat)
    requires CanRun(Init(), actions) && Holds(Run(Init(), actions), u) && Holds(Run(Init(), actions), v)
    ensures u == v
  {
    ExclusiveKept(Init(), actions);
    assert Exclusive(Run(Init(), actions), u) && Exclusive(Run(Init(), actions), v);
  }

  // ---------- which connection is current ----------

  /** How many connections have been created. */
  function Created(actions: seq<Action>): nat {
    if actions == [] then 0
    else Created(actions[..|actions| - 1]) + (if actions[|actions| - 1].Create? then 1 else 0)
  }

  /** The connection published last, unless it has been lost since. */
  function Current(actions: seq<Action>): Option<nat> {
    if actions == [] then None
    else
      var before := actions[..|actions| - 1];
      match actions[|actions| - 1]
      case Publish => if Created(before) > 0 then Some(Created(before) - 1) else None
      case Lose => None
      case _ => Current(before)
  }

  lemma {:induction false} RunCut(s: State, actions: seq<Action>)
    requires CanRun(s, actions) && actions != []
    ensures var before := actions[..|actions| - 1];
            && CanRun(s, before) && Enabled(Run(s, before), actions[|actions| - 1])
            && Run(s, actions) == Step(Run(s, before), actions[|actions| - 1])
    decreases |actions|
  {
    if |actions| == 1 {
      assert actions[1..] == [] && actions[..0] == [];
    } else {
      RunCut(Step(s, actions[0]), actions[1..]);
      assert actions[1..][..|actions| - 2] == actions[..|actions| - 1][1..];
    }
  }

  /** In every run the current connection is the one published last, unless it has been lost since. */
  lemma {:induction false} CurrentIs(actions: seq<Action>)
    requires CanRun(Init(), actions)
    ensures var s := Run(Init(), actions);
            && s.connection == Current(actions) && s.next == Created(actions)
            && (s.building.Some? ==> s.next > 0 && s.building.value == s.next - 1)
    decreases |actions|
  {
    if actions != [] {
      RunCut(Init(), actions);
      CurrentIs(actions[..|actions| - 1]);
    }
  }

  /** release of the pool repairs what a disturbed change of owner has left behind: with nobody in possession and no
      connection being built, all is in order again. */
  lemma PoolReleaseRepairs(s: State)
    requires (forall u: nat :: Exclusive(s, u)) && Numbered(s) && s.owner.None? && s.building.None?
    ensures Inv(Step(s, PoolRelease))
  {
    StepKeepsExclusive(s, PoolRelease);
  }

  lemma StepKeepsExclusive(s: State, a: Action)
    requires (forall u: nat :: Exclusive(s, u)) && Enabled(s, a)
    ensures forall u: nat :: Exclusive(Step(s, a), u)
  {
    var s' := Step(s, a);
    assert Exclusive(s, Actor(a));
    forall u: nat ensures Exclusive(s', u) {
      assert Exclusive(s, u);
    }
  }

  // ---------- when the claim is given back ----------

  /** dropped: the client was destroyed after an explicit disconnect(). */
  ghost predicate Returns(s: State, u: nat, dropped: bool) {
    && (s.owner == Some(u) ==> u in s.lives && s.lives[u] != Refused)
    && (dropped ==> u in s.lives && s.lives[u] == Gone)
    && (u in s.lives && s.lives[u] == Gone ==> (s.owner == Some(u) <==> dropped))
  }

  lemma {:induction false} RunReturns(s: State, actions: seq<Action>, u: nat, dropped: bool)
    requires (forall v: nat :: Exclusive(s, v)) && Returns(s, u, dropped) && CanRun(s, actions)
    ensures Returns(Run(s, actions), u, dropped || Drop(u) in actions)
    decreases |actions|
  {
    if actions != [] {
      var a, s' := actions[0], Step(s, actions[0]);
      assert Exclusive(s, Actor(a));
      forall v: nat ensures Exclusive(s', v) {
        assert Exclusive(s, v);
      }
      RunReturns(s', actions[1..], u, dropped || a == Drop(u));
      assert actions == [a] + actions[1..];
    }
  }

  /** A destroyed client has given its claim back exactly when it was not destroyed after an explicit
      disconnect(). */
  lemma GivenBackExactlyWhen(actions: seq<Action>, u: nat)
    requires CanRun(Init(), actions) && u in Run(Init(), actions).lives && Run(Init(), actions).lives[u] == Gone
    ensures Run(Init(), actions).owner == Some(u) <==> Drop(u) in actions
  {
    RunReturns(Init(), actions, u, false);
  }

  /** In every run a new client gets the claim exactly when no client holds it and none was destroyed after an explicit
      disconnect(). */
  lemma ClaimedExactlyWhen(actions: seq<Action>, u: nat)
    requires CanRun(Init(), actions) && Enabled(Run(Init(), actions), Construct(u))
    ensures var s := Run(Init(), actions);
            Step(s, Construct(u)).lives[u] == Claimed <==>
              (forall v: nat :: !Holds(s, v)) && (forall v: nat :: Drop(v) !in actions)
  {
    var s := Run(Init(), actions);
    ExclusiveKept(Init(), actions);
    forall v: nat ensures Returns(s, v, Drop(v) in actions) && Exclusive(s, v) {
      RunReturns(Init(), actions, v, false);
    }
    if s.owner.Some? {
      var w := s.owner.value;
      assert Returns(s, w, Drop(w) in actions);
      assert Holds(s, w) || Drop(w) in actions;
    } else {
      forall v: nat ensures !Holds(s, v) && Drop(v) !in actions {
        assert Exclusive(s, v) && Returns(s, v, Drop(v) in actions);
      }
    }
  }

  lemma {:induction false} NobodyElse(s: State, u: nat, actions: seq<Action>)
    requires s.owner == Some(u) && u in s.lives && s.lives[u] in {Detached, Gone} && CanRun(s, actions)
    requires forall v :: v in s.lives && v != u ==> s.lives[v] == Refused || s.lives[v] == Gone
    ensures Run(s, actions).owner == Some(u)
    decreases |actions|
  {
    if actions != [] {
      NobodyElse(Step(s, actions[0]), u, actions[1..]);
    }
  }

  /** In every run, once a client that holds the claim has been disconnected explicitly, the claim is never given
      up: whatever happens next, no client can claim again. */
  lemma AbandonedForever(before: seq<Action>, u: nat, after: seq<Action>)
    requires CanRun(Init(), before)
    requires var s := Run(Init(), before);
             s.owner == Some(u) && u in s.lives && s.lives[u] in {Detached, Gone} && CanRun(s, after)
    ensures Run(Run(Init(), before), after).owner == Some(u)
  {
    ExclusiveKept(Init(), before);
    var s := Run(Init(), before);
    forall v | v in s.lives && v != u ensures s.lives[v] == Refused || s.lives[v] == Gone {
      assert Exclusive(s, v);
    }
    NobodyElse(s, u, after);
  }

  /** Such a run: the client is disconnected, then destroyed, and still owns the connection. */
  lemma ClaimAbandoned() returns (actions: seq<Action>)
    ensures CanRun(Init(), actions)
    ensures var s := Run(Init(), actions); s.owner == Some(0) && s.lives == map[0 := Gone]
  {
    var s1 := Step(Init(), Construct(0));
    var s2 := Step(s1, Install(0));
    var s3 := Step(s2, InstallOnConnection(0));
    var s4 := Step(s3, Clear(0));
    TwoSteps(s4, ClearConnection(0, true), Drop(0));
    actions := [ClearConnection(0, true), Drop(0)];
    RunCons(s3, Clear(0), actions);
    actions := [Clear(0)] + actions;
    RunCons(s2, InstallOnConnection(0), actions);
    actions := [InstallOnConnection(0)] + actions;
    RunCons(s1, Install(0), actions);
    actions := [Install(0)] + actions;
    RunCons(Init(), Construct(0), actions);
    actions := [Construct(0)] + actions;
  }

  lemma RunCons(s: State, a: Action, rest: seq<Action>)
    requires Enabled(s, a) && CanRun(Step(s, a), rest)
    ensures CanRun(s, [a] + rest) && Run(s, [a] + rest) == Run(Step(s, a), rest)
  {
    assert ([a] + rest)[1..] == rest;
  }

  lemma {:induction false} RunConcat(s: State, a: seq<Action>, b: seq<Action>)
    requires CanRun(s, a) && CanRun(Run(s, a), b)
    ensures CanRun(s, a + b) && Run(s, a + b) == Run(Run(s, a), b)
    decreases |a|
  {
    if a == [] {
      assert a + b == b;
    } else {
      assert (a + b)[1..] == a[1..] + b;
      RunConcat(Step(s, a[0]), a[1..], b);
    }
  }

  /** A client binds, a connection is created with its callback, and the client starts to go away. */
  const Leaving: State := State(Some(0), None, None, Some(0), map[0 := Some(0)], map[0 := Clearing], 1)

  lemma ReachLeaving() returns (actions: seq<Action>)
    ensures CanRun(Init(), actions) && Run(Init(), actions) == Leaving
  {
    var s1 := Step(Init(), Construct(0));
    var s2 := Step(s1, Install(0));
    var s3 := Step(s2, InstallOnConnection(0));
    var s4 := Step(s3, Create);
    var s5 := Step(s4, Clear(0));
    assert s5 == Leaving;
    assert CanRun(s5, []) && Run(s5, []) == s5;
    RunCons(s4, Clear(0), []);
    actions := [Clear(0)] + [];
    RunCons(s3, Create, actions);
    actions := [Create] + actions;
    RunCons(s2, InstallOnConnection(0), actions);
    actions := [InstallOnConnection(0)] + actions;
    RunCons(s1, Install(0), actions);
    actions := [Install(0)] + actions;
    RunCons(Init(), Construct(0), actions);
    actions := [Construct(0)] + actions;
  }

  /** The next client has bound when the connection is published. */
  const Stale: State := State(Some(1), Some(1), Some(0), None, map[0 := Some(0)], map[0 := Gone, 1 := Bound], 1)

  lemma ReachStale() returns (actions: seq<Action>)
    ensures CanRun(Leaving, actions) && Run(Leaving, actions) == Stale
  {
    var s1 := Step(Leaving, ClearConnection(0, false));
    var s2 := Step(s1, Release(0));
    var s3 := Step(s2, Construct(1));
    var s4 := Step(s3, Install(1));
    var s5 := Step(s4, InstallOnConnection(1));
    var s6 := Step(s5, Publish);
    assert s6 == Stale;
    assert CanRun(s6, []) && Run(s6, []) == s6;
    RunCons(s5, Publish, []);
    actions := [Publish] + [];
    RunCons(s4, InstallOnConnection(1), actions);
    actions := [InstallOnConnection(1)] + actions;
    RunCons(s3, Install(1), actions);
    actions := [Install(1)] + actions;
    RunCons(s2, Construct(1), actions);
    actions := [Construct(1)] + actions;
    RunCons(s1, Release(0), actions);
    actions := [Release(0)] + actions;
    RunCons(Leaving, ClearConnection(0, false), actions);
    actions := [ClearConnection(0, false)] + actions;
  }

  /** Without that order a response can reach the wrong client: a connection that was being built while its
      owner went away comes up under the next owner with the callback of the first. */
  lemma StaleCallback() returns (actions: seq<Action>)
    ensures CanRun(Init(), actions)
    ensures var s := Run(Init(), actions);
            && s.owner == Some(1) && s.lives == map[0 := Gone, 1 := Bound]
            && s.connection == Some(0) && s.callbacks == map[0 := Some(0)]
  {
    var first := ReachLeaving();
    var second := ReachStale();
    RunConcat(Init(), first, second);
    actions := first + second;
  }

  // ---------- when the owner hears its answers ----------

  /** A client whose setup is complete gets what arrives on the current connection. */
  ghost predicate Heard(s: State) {
    forall u :: u in s.lives && s.lives[u] == Bound && s.connection.Some? ==>
      s.connection.value in s.callbacks && s.callbacks[s.connection.value] == Some(u)
  }

  /** Connections are numbered in order of creation, and the one being built is not the current one. */
  ghost predicate Numbered(s: State) {
    && (s.connection.Some? ==> s.connection.value in s.callbacks && s.connection.value < s.next)
    && (s.building.Some? ==>
          s.building.value in s.callbacks && s.building.value < s.next && s.building != s.connection)
  }

  /** The callback of u is where the next connection will find it, and on the connections there are. */
  ghost predicate Attached(s: State, u: nat) {
    && (u in s.lives && s.lives[u] in {Installing, Bound} ==> s.callback == Some(u))
    && (u in s.lives && s.lives[u] == Bound ==>
          && (s.connection.Some? ==> s.connection.value in s.callbacks && s.callbacks[s.connection.value] == Some(u))
          && (s.building.Some? ==> s.building.value in s.callbacks && s.callbacks[s.building.value] == Some(u)))
  }

  ghost predicate HeardInv(s: State) {
    (forall u: nat :: Exclusive(s, u)) && Numbered(s) && (forall u: nat :: Attached(s, u))
  }

  /** setupCallbacks finishes while a connection is being built that was created before it set its callback. */
  ghost predicate Misses(s: State, a: Action) {
    && a.InstallOnConnection? && s.building.Some? && s.building.value in s.callbacks
    && s.callbacks[s.building.value] != Some(a.u)
  }

  lemma InitHeard()
    ensures HeardInv(Init())
  {
  }

  lemma StepAttached(s: State, a: Action, u: nat)
    requires HeardInv(s) && Enabled(s, a) && !Misses(s, a)
    ensures Attached(Step(s, a), u)
  {
    assert Attached(s, u) && Exclusive(s, u) && Exclusive(s, Actor(a));
  }

  lemma StepHeard(s: State, a: Action)
    requires HeardInv(s) && Enabled(s, a) && !Misses(s, a)
    ensures HeardInv(Step(s, a))
  {
    StepKeepsExclusive(s, a);
    forall u: nat ensures Attached(Step(s, a), u) {
      StepAttached(s, a, u);
    }
  }

  /** No setup misses a connection. */
  ghost predicate Attentive(s: State, actions: seq<Action>)
    requires CanRun(s, actions)
    decreases |actions|
  {
    actions == [] || (!Misses(s, actions[0]) && Attentive(Step(s, actions[0]), actions[1..]))
  }

  lemma {:induction false} RunHeard(s: State, actions: seq<Action>)
    requires HeardInv(s) && CanRun(s, actions) && Attentive(s, actions)
    ensures HeardInv(Run(s, actions)) && Heard(Run(s, actions))
    decreases |actions|
  {
    if actions != [] {
      StepHeard(s, actions[0]);
      RunHeard(Step(s, actions[0]), actions[1..]);
    } else {
      forall u | u in s.lives && s.lives[u] == Bound && s.connection.Some?
        ensures s.connection.value in s.callbacks && s.callbacks[s.connection.value] == Some(u)
      {
        assert Attached(s, u);
      }
    }
  }

  /** Over every interleaving in which no setup misses a connection, the owner hears what arrives. */
  lemma OwnerHears(actions: seq<Action>)
    requires CanRun(Init(), actions) && Attentive(Init(), actions)
    ensures Heard(Run(Init(), actions))
  {
    InitHeard();
    RunHeard(Init(), actions);
  }

  /** The run goes on without another miss and still ends with an owner that hears nothing. */
  ghost predicate GoesDeaf(s: State, next: seq<Action>) {
    CanRun(s, next) && Attentive(s, next) && !Heard(Run(s, next))
  }

  lemma MissDeafens(s: State, a: Action)
    requires HeardInv(s) && Enabled(s, a) && Misses(s, a)
    ensures GoesDeaf(Step(s, a), [Publish])
  {
    var s1 := Step(s, a);
    var s2 := Step(s1, Publish);
    assert [Publish][1..] == [] && CanRun(s2, []) && Run(s2, []) == s2;
    assert s2.lives[a.u] == Bound && s2.connection.Some?;
  }

  /** A step in a good state can lead to an owner that hears nothing, with no other miss after it, exactly when
      setupCallbacks finishes while a connection created without its callback is being built. */
  lemma DeafExactlyWhen(s: State, a: Action)
    requires HeardInv(s) && Enabled(s, a)
    ensures (exists next :: GoesDeaf(Step(s, a), next)) <==> Misses(s, a)
  {
    if Misses(s, a) {
      MissDeafens(s, a);
    } else {
      StepHeard(s, a);
      forall next ensures !GoesDeaf(Step(s, a), next) {
        if CanRun(Step(s, a), next) && Attentive(Step(s, a), next) {
          RunHeard(Step(s, a), next);
        }
      }
    }
  }

  /** A client binds while a connection is being built, and gets none of the answers that arrive on it. */
  lemma AnswersUnheard() returns (actions: seq<Action>)
    ensures CanRun(Init(), actions)
    ensures var s := Run(Init(), actions);
            s.lives == map[0 := Bound] && s.connection == Some(0) && s.callbacks == map[0 := None]
  {
    var s1 := Step(Init(), Construct(0));
    var s2 := Step(s1, Create);
    var s3 := Step(s2, Install(0));
    TwoSteps(s3, InstallOnConnection(0), Publish);
    actions := [InstallOnConnection(0), Publish];
    RunCons(s2, Install(0), actions);
    actions := [Install(0)] + actions;
    RunCons(s1, Create, actions);
    actions := [Create] + actions;
    RunCons(Init(), Construct(0), actions);
    actions := [Construct(0)] + actions;
  }
}
