/** The sending side of a connection: messages are written at once or buffered, the rest goes out when the
    socket is writable, and the write side is shut down after the last byte. */
module TcpConnection {
  import opened Bytes
  import opened ByteBuffer

  datatype Phase = Connecting | Connected | Disconnecting | Disconnected

  /** What the kernel made of a write: some bytes, EAGAIN, EPIPE or ECONNRESET, or another error. */
  datatype Written = Wrote(n: nat) | WouldBlock | Broken | OtherError

  /** A message that passed the check in send and that the loop has dealt with: sent and buffered, or dropped. */
  datatype Taken = Taken(message: seq<byte>, dropped: bool)

  /** posted are the messages that other threads have handed to the loop. sending is the message between the check
      in send and the work in sendInLoop; other threads may act in between. stopping counts the threads between the
      load and the store of the phase in shutdown, shutdowns and closes the queued calls of shutdownInLoop and
      handleClose. The rest is history: passed are the messages that passed the check in send, on whatever thread;
      accepted those of them that the loop has dealt with, in that order; written the bytes the kernel took; shut
      whether shutdownWrite was called; ends how often the user was told that the connection is down; removed whether
      its channel was taken off the loop. */
  datatype State = State(
    phase: Phase, writing: bool, output: seq<byte>, posted: seq<seq<byte>>, sending: Option<seq<byte>>, stopping: nat,
    shutdowns: nat, closes: nat, passed: seq<seq<byte>>, accepted: seq<Taken>, written: seq<byte>, shut: bool,
    ends: nat, removed: bool)

  function Init(): State {
    State(Connecting, false, [], [], None, 0, 0, 0, [], [], [], false, 0, false)
  }

  /** How often the message is among those dealt with, dropped or not. */
  function Dealt(taken: seq<Taken>, m: seq<byte>): nat {
    if taken == [] then 0 else Dealt(taken[..|taken| - 1], m) + (if taken[|taken| - 1].message == m then 1 else 0)
  }

  function Occurs(msgs: seq<seq<byte>>, m: seq<byte>): nat {
    if msgs == [] then 0 else Occurs(msgs[..|msgs| - 1], m) + (if msgs[|msgs| - 1] == m then 1 else 0)
  }

  /** The bytes of all of them. */
  function All(taken: seq<Taken>): seq<byte> {
    if taken == [] then [] else All(taken[..|taken| - 1]) + taken[|taken| - 1].message
  }

  /** The bytes of those that were not dropped. */
  function Surviving(taken: seq<Taken>): seq<byte> {
    if taken == [] then []
    else Surviving(taken[..|taken| - 1]) + (if taken[|taken| - 1].dropped then [] else taken[|taken| - 1].message)
  }

  function Lost(taken: seq<Taken>): nat {
    if taken == [] then 0
    else Lost(taken[..|taken| - 1]) + (if taken[|taken| - 1].dropped then |taken[|taken| - 1].message| else 0)
  }

  datatype Action =
    | Establish
    | Post(message: seq<byte>)                         // another thread, in send
    | CheckSend(message: seq<byte>)                    // loop thread, in send
    | CheckPosted                                      // loop thread, in the functor of the oldest posted message
    | SendInLoop(result: Written, soError: bool)       // the kernel's answers, if asked
    | LoadShutdown                                     // any thread, in shutdown
    | StoreShutdown                                    // the same thread later; state_ is loaded and then stored
    | ShutdownInLoop
    | HandleWrite(result: Written, soError: bool)
    | HandleClose
    | ForceClose                                       // any thread
    | CloseInLoop                                      // the close that forceClose has queued
    | ConnectDestroyed

  function AfterClose(s: State): State {
    if s.phase == Disconnected then s else s.(phase := Disconnected, writing := false, ends := s.ends + 1)
  }

  function AfterDestroyed(s: State): State {
    (if s.phase == Connected then AfterClose(s) else s).(removed := true)
  }

  /** shutdown, when no other thread comes between its load and its store of the phase. */
  function AfterShutdown(s: State): State {
    if s.phase == Connected then s.(phase := Disconnecting, shutdowns := s.shutdowns + 1) else s
  }

  /** handleError closes the connection when the socket reports an error. */
  function AfterError(s: State, soError: bool): State {
    if soError then AfterClose(s) else s
  }

  function AfterShutdownInLoop(s: State): State {
    if s.writing then s else s.(shut := true)
  }

  function Buffered(s: State, rest: seq<byte>): State {
    if rest == [] then s else s.(output := s.output + rest, writing := true)
  }

  function AfterSend(s: State, message: seq<byte>, result: Written, soError: bool): State {
    if s.phase == Disconnected then s.(accepted := s.accepted + [Taken(message, true)])
    else
      var s1 := s.(accepted := s.accepted + [Taken(message, false)]);
      if s.writing || s.output != [] then Buffered(s1, message)
      else
        match result
        case Wrote(n) =>
          var k := if n <= |message| then n else |message|;
          Buffered(s1.(written := s.written + message[..k]), message[k..])
        case WouldBlock => Buffered(s1, message)
        case OtherError => Buffered(s1, message)
        case Broken => AfterError(s.(accepted := s.accepted + [Taken(message, true)]), soError)
  }

  function AfterWrite(s: State, result: Written, soError: bool): State {
    if !s.writing then s
    else
      match result
      case Wrote(n) =>
        if n == 0 then AfterError(s, soError)
        else
          var k := if n <= |s.output| then n else |s.output|;
          var s1 := s.(written := s.written + s.output[..k], output := s.output[k..]);
          if s1.output != [] then s1
          else
            var s2 := s1.(writing := false);
            if s.phase == Disconnecting then AfterShutdownInLoop(s2) else s2
      case WouldBlock => s
      case Broken => AfterError(s, soError)
      case OtherError => AfterError(s, soError)
  }

  /** The loop thread does one thing at a time: nothing of its own comes between CheckSend and SendInLoop. */
  predicate Enabled(s: State, a: Action) {
    match a
    case Establish => s.phase == Connecting && s.sending.None? && !s.removed
    case Post(_) => true
    case CheckSend(_) => s.sending.None?
    case CheckPosted => s.sending.None? && s.posted != []
    case SendInLoop(_, _) => s.sending.Some?
    case LoadShutdown => true
    case StoreShutdown => s.stopping > 0
    case ShutdownInLoop => s.sending.None? && s.shutdowns > 0
    case HandleWrite(_, _) => s.sending.None? && !s.removed
    case HandleClose => s.sending.None? && s.phase != Connecting
    case ForceClose => true
    case CloseInLoop => s.sending.None? && s.closes > 0
    case ConnectDestroyed => s.sending.None?
  }

  function Step(s: State, a: Action): State
    requires Enabled(s, a)
  {
    match a
    case Establish => s.(phase := Connected)
    case Post(message) =>
      if s.phase == Connected then s.(posted := s.posted + [message], passed := s.passed + [message]) else s
    case CheckSend(message) =>
      if s.phase == Connected then s.(sending := Some(message), passed := s.passed + [message]) else s
    case CheckPosted =>
      if s.phase == Connected then s.(posted := s.posted[1..], sending := Some(s.posted[0]))
      else s.(posted := s.posted[1..], accepted := s.accepted + [Taken(s.posted[0], true)])
    case SendInLoop(result, soError) => AfterSend(s.(sending := None), s.sending.value, result, soError)
    case LoadShutdown => if s.phase == Connected then s.(stopping := s.stopping + 1) else s
    case StoreShutdown => s.(stopping := s.stopping - 1, phase := Disconnecting, shutdowns := s.shutdowns + 1)
    case ShutdownInLoop => AfterShutdownInLoop(s.(shutdowns := s.shutdowns - 1))
    case HandleWrite(result, soError) => AfterWrite(s, result, soError)
    case HandleClose => AfterClose(s)
    case ForceClose => if s.phase == Connected then s.(phase := Disconnecting, closes := s.closes + 1) else s
    case CloseInLoop => AfterClose(s.(closes := s.closes - 1))
    case ConnectDestroyed => AfterDestroyed(s)
  }

  predicate CanRun(s: State, actions: seq<Action>)
    decreases |actions|
  {
    actions == [] || (Enabled(s, actions[0]) && CanRun(Step(s, actions[0]), actions[1..]))
  }

  function Run(s: State, actions: seq<Action>): State
    requires CanRun(s, actions)
    decreases |actions|
  {
    if actions == [] then s else Run(Step(s, actions[0]), actions[1..])
  }

  // ---------- the invariant ----------

  ghost predicate Inv(s: State) {
    // no byte of a surviving message is dropped, duplicated or reordered
    && s.written + s.output == Surviving(s.accepted)
    // until the connection has ended, the loop watches for writability exactly while bytes wait
    && (s.ends == 0 ==> (s.writing <==> s.output != []))
    && (s.ends > 0 ==> !s.writing && s.sending.None?)
    && (s.phase == Disconnected ==> s.ends > 0)
    && (s.phase == Connecting || s.phase == Connected ==> s.ends == 0 && !s.shut && s.shutdowns == 0)
    && (s.phase == Connecting ==> s.sending.None? && s.stopping == 0 && s.closes == 0 && s.output == [])
    && (s.removed ==> s.phase != Connected && s.sending.None?)
    // an orderly shutdown comes after the last byte, and no message is on its way
    && (s.shut && s.ends == 0 ==> s.output == [] && s.sending.None?)
  }

  lemma SurvivingSnoc(taken: seq<Taken>, t: Taken)
    ensures Surviving(taken + [t]) == if t.dropped then Surviving(taken) else Surviving(taken) + t.message
  {
    assert (taken + [t])[..|taken|] == taken;
    assert Surviving(taken) + [] == Surviving(taken);
  }

  /** Everything surviving is written or buffered, except rest. */
  ghost predicate Conserved(s: State, rest: seq<byte>) {
    s.written + s.output + rest == Surviving(s.accepted)
  }

  lemma BufferedInv(s: State, rest: seq<byte>)
    requires Conserved(s, rest) && (s.phase == Connected || s.phase == Disconnecting) && s.sending.None? && !s.shut
    requires s.ends == 0 && (s.writing <==> s.output != []) && (s.phase == Connected ==> s.shutdowns == 0 && !s.removed)
    ensures Inv(Buffered(s, rest))
  {
    if rest == [] {
      assert s.written + s.output + rest == s.written + s.output;
    } else {
      Associate(s.written, s.output, rest);
    }
  }

  lemma JoinFront(written: seq<byte>, output: seq<byte>, message: seq<byte>, n: nat)
    requires n <= |message| && (n > 0 ==> output == [])
    ensures written + message[..n] + output + message[n..] == written + output + message
  {
    assert message == message[..n] + message[n..];
  }

  lemma AcceptConserves(s: State, message: seq<byte>, n: nat)
    requires Inv(s) && n <= |message| && (n > 0 ==> s.output == [])
    ensures Conserved(s.(accepted := s.accepted + [Taken(message, false)], written := s.written + message[..n]),
                      message[n..])
  {
    SurvivingSnoc(s.accepted, Taken(message, false));
    JoinFront(s.written, s.output, message, n);
  }

  lemma SendInv(s: State, message: seq<byte>, result: Written, soError: bool)
    requires Inv(s) && s.sending.None? && s.phase != Connecting && s.ends == 0 && !s.shut
    ensures Inv(AfterSend(s, message, result, soError))
  {
    var direct := !s.writing && s.output == [];
    if !(direct && result == Broken) {
      var k := if !direct || !result.Wrote? then 0 else if result.n <= |message| then result.n else |message|;
      AcceptConserves(s, message, k);
      BufferedInv(s.(accepted := s.accepted + [Taken(message, false)], written := s.written + message[..k]),
                  message[k..]);
      assert k == 0 ==> s.written + message[..k] == s.written && message[k..] == message;
    } else {
      SurvivingSnoc(s.accepted, Taken(message, true));
    }
  }

  lemma WriteInv(s: State, result: Written, soError: bool)
    requires Inv(s) && s.sending.None?
    ensures Inv(AfterWrite(s, result, soError))
  {
    if s.writing && result.Wrote? {
      var k := if result.n <= |s.output| then result.n else |s.output|;
      assert s.written + s.output[..k] + s.output[k..] == s.written + s.output;
    }
  }

  lemma InitInv()
    ensures Inv(Init())
  {
  }

  lemma PostedInv(s: State)
    requires Inv(s) && Enabled(s, CheckPosted)
    ensures Inv(Step(s, CheckPosted))
  {
    var accepted := s.accepted + [Taken(s.posted[0], true)];
    SurvivingSnoc(s.accepted, Taken(s.posted[0], true));
    DroppedInv(s, s.posted[1..], accepted);
  }

  lemma DroppedInv(s: State, posted: seq<seq<byte>>, accepted: seq<Taken>)
    requires Inv(s) && Surviving(accepted) == Surviving(s.accepted)
    ensures Inv(s.(posted := posted, accepted := accepted))
  {
  }

  /** Every step of every thread keeps the invariant. */
  lemma StepInv(s: State, a: Action)
    requires Inv(s) && Enabled(s, a)
    ensures Inv(Step(s, a))
  {
    match a
    case SendInLoop(result, soError) => SendInv(s.(sending := None), s.sending.value, result, soError);
    case HandleWrite(result, soError) => WriteInv(s, result, soError);
    case CheckPosted => PostedInv(s);
    case _ =>
  }

  /** Every message is dealt with, waiting to be, or on its way as often as it passed the check in send. */
  ghost predicate There(s: State, m: seq<byte>) {
    Occurs(s.passed, m) == Dealt(s.accepted, m) + Occurs(s.posted, m) + (if s.sending == Some(m) then 1 else 0)
  }

  lemma DealtSnoc(taken: seq<Taken>, t: Taken, m: seq<byte>)
    ensures Dealt(taken + [t], m) == Dealt(taken, m) + (if t.message == m then 1 else 0)
  {
    assert (taken + [t])[..|taken|] == taken;
  }

  lemma OccursSnoc(msgs: seq<seq<byte>>, x: seq<byte>, m: seq<byte>)
    ensures Occurs(msgs + [x], m) == Occurs(msgs, m) + (if x == m then 1 else 0)
  {
    assert (msgs + [x])[..|msgs|] == msgs;
  }

  lemma {:induction false} OccursHead(msgs: seq<seq<byte>>, m: seq<byte>)
    requires msgs != []
    ensures Occurs(msgs, m) == (if msgs[0] == m then 1 else 0) + Occurs(msgs[1..], m)
    decreases |msgs|
  {
    var front, last := msgs[..|msgs| - 1], msgs[|msgs| - 1];
    if front == [] {
      assert Occurs(msgs[1..], m) == 0 && Occurs(front, m) == 0;
    } else {
      OccursHead(front, m);
      assert msgs[1..] == front[1..] + [last];
      OccursSnoc(front[1..], last, m);
    }
  }

  /** Whether sendInLoop drops the message. */
  predicate Unsent(s: State, result: Written) {
    s.phase == Disconnected || (result == Broken && !s.writing && s.output == [])
  }

  lemma SendAppends(s: State, message: seq<byte>, result: Written, soError: bool)
    ensures var s' := AfterSend(s, message, result, soError);
            && s'.accepted == s.accepted + [Taken(message, Unsent(s, result))]
            && s'.posted == s.posted && s'.sending == s.sending && s'.passed == s.passed
  {
  }

  lemma SendThere(s: State, a: Action, m: seq<byte>)
    requires There(s, m) && a.SendInLoop? && Enabled(s, a)
    ensures There(Step(s, a), m)
  {
    SendAppends(s.(sending := None), s.sending.value, a.result, a.soError);
    DealtSnoc(s.accepted, Taken(s.sending.value, Unsent(s, a.result)), m);
  }

  lemma CheckThere(s: State, a: Action, m: seq<byte>)
    requires There(s, m) && (a.Post? || a.CheckSend?) && Enabled(s, a)
    ensures There(Step(s, a), m)
  {
    OccursSnoc(s.posted, a.message, m);
    OccursSnoc(s.passed, a.message, m);
  }

  /** The oldest posted message is being sent, or is dropped. */
  lemma HeadThere(s: State, head: seq<byte>, rest: seq<seq<byte>>, m: seq<byte>)
    requires There(s, m) && s.sending.None? && Occurs(s.posted, m) == (if head == m then 1 else 0) + Occurs(rest, m)
    ensures There(s.(posted := rest, sending := Some(head)), m)
    ensures There(s.(posted := rest, accepted := s.accepted + [Taken(head, true)]), m)
  {
    DealtSnoc(s.accepted, Taken(head, true), m);
  }

  lemma PostedThere(s: State, m: seq<byte>)
    requires There(s, m) && Enabled(s, CheckPosted)
    ensures There(Step(s, CheckPosted), m)
  {
    OccursHead(s.posted, m);
    HeadThere(s, s.posted[0], s.posted[1..], m);
  }

  /** The other steps have nothing to do with messages on their way to the loop. */
  lemma QuietStep(s: State, a: Action)
    requires Enabled(s, a) && !a.SendInLoop? && !a.Post? && !a.CheckSend? && !a.CheckPosted?
    ensures var s' := Step(s, a);
            s'.passed == s.passed && s'.accepted == s.accepted && s'.posted == s.posted && s'.sending == s.sending
  {
  }

  lemma StepThere(s: State, a: Action, m: seq<byte>)
    requires There(s, m) && Enabled(s, a)
    ensures There(Step(s, a), m)
  {
    if a.SendInLoop? {
      SendThere(s, a, m);
    } else if a.Post? || a.CheckSend? {
      CheckThere(s, a, m);
    } else if a.CheckPosted? {
      PostedThere(s, m);
    } else {
      QuietStep(s, a);
    }
  }

  lemma {:induction false} RunThere(s: State, actions: seq<Action>, m: seq<byte>)
    requires There(s, m) && CanRun(s, actions)
    ensures There(Run(s, actions), m)
    decreases |actions|
  {
    if actions != [] {
      StepThere(s, actions[0], m);
      RunThere(Step(s, actions[0]), actions[1..], m);
    }
  }

  lemma {:induction false} RunInv(s: State, actions: seq<Action>)
    requires Inv(s) && CanRun(s, actions)
    ensures Inv(Run(s, actions))
    decreases |actions|
  {
    if actions != [] {
      StepInv(s, actions[0]);
      RunInv(Step(s, actions[0]), actions[1..]);
    }
  }

  lemma {:induction false} SurvivingAll(taken: seq<Taken>)
    ensures |All(taken)| == |Surviving(taken)| + Lost(taken)
    ensures Surviving(taken) == All(taken) <==> Lost(taken) == 0
    decreases |taken|
  {
    if taken != [] {
      SurvivingAll(taken[..|taken| - 1]);
    }
  }

  /** Over every interleaving of sends on all threads, short writes, drops and shutdowns: every message that passed
      the check in send has been dealt with, waits for the loop, or is being sent, as often as it passed; the bytes
      written followed by the bytes still buffered are the messages dealt with, without the dropped ones, and all of
      them exactly when no byte was dropped. Until the connection has ended, the loop watches for writability exactly
      while bytes wait. */
  lemma OutputConserved(actions: seq<Action>)
    requires CanRun(Init(), actions)
    ensures var s := Run(Init(), actions);
            && (forall m :: There(s, m))
            && s.written + s.output == Surviving(s.accepted)
            && (s.written + s.output == All(s.accepted) <==> Lost(s.accepted) == 0)
            && (s.ends == 0 ==> (s.writing <==> s.output != []))
  {
    InitInv();
    RunInv(Init(), actions);
    SurvivingAll(Run(Init(), actions).accepted);
    forall m ensures There(Run(Init(), actions), m) {
      RunThere(Init(), actions, m);
    }
  }

  /** shutdownWrite on a connection that has not ended comes after the last byte of every message that was
      dealt with and not dropped, and no message is on its way; the messages that still wait for the loop are all
      that is left of those that passed the check. */
  lemma ShutdownAfterLastByte(actions: seq<Action>, a: Action)
    requires CanRun(Init(), actions) && Enabled(Run(Init(), actions), a)
    ensures var s := Run(Init(), actions);
            var s' := Step(s, a);
            !s.shut && s'.shut && s.ends == 0 ==>
              && s'.output == [] && s'.sending.None? && s'.written == Surviving(s'.accepted)
              && forall m :: There(s', m)
  {
    InitInv();
    RunInv(Init(), actions);
    ShutStep(Run(Init(), actions), a);
    forall m ensures There(Step(Run(Init(), actions), a), m) {
      RunThere(Init(), actions, m);
      StepThere(Run(Init(), actions), a, m);
    }
  }

  lemma ShutStep(s: State, a: Action)
    requires Inv(s) && Enabled(s, a)
    ensures var s' := Step(s, a);
            !s.shut && s'.shut && s.ends == 0 ==>
              s'.output == [] && s'.sending.None? && s'.written == Surviving(s'.accepted)
  {
    StepInv(s, a);
    var s' := Step(s, a);
    assert s'.output == [] ==> s'.written + s'.output == s'.written;
  }

  /** A direct write of a new message fails with EPIPE or ECONNRESET. */
  predicate MeetsBroken(s: State, a: Action)
    requires Enabled(s, a)
  {
    a.SendInLoop? && a.result == Broken && s.sending.value != [] && !s.writing && s.output == []
  }

  /** The functor of a message from another thread runs when the connection is no longer up. */
  predicate ComesTooLate(s: State, a: Action)
    requires Enabled(s, a)
  {
    a.CheckPosted? && s.phase != Connected && s.posted[0] != []
  }

  /** Bytes of a message that passed the check in send are dropped by two kinds of steps only. */
  lemma DropsExactlyWhen(actions: seq<Action>, a: Action)
    requires CanRun(Init(), actions) && Enabled(Run(Init(), actions), a)
    ensures var s := Run(Init(), actions);
            Lost(Step(s, a).accepted) > Lost(s.accepted) <==> MeetsBroken(s, a) || ComesTooLate(s, a)
  {
    InitInv();
    RunInv(Init(), actions);
    StepDrops(Run(Init(), actions), a);
  }

  lemma StepDrops(s: State, a: Action)
    requires Inv(s) && Enabled(s, a)
    ensures Lost(Step(s, a).accepted) > Lost(s.accepted) <==> MeetsBroken(s, a) || ComesTooLate(s, a)
  {
    if a.SendInLoop? {
      SendDrops(s.(sending := None), s.sending.value, a.result, a.soError);
    } else if a.CheckPosted? {
      LostSnoc(s.accepted, Taken(s.posted[0], true));
    }
  }

  lemma SendDrops(s: State, message: seq<byte>, result: Written, soError: bool)
    requires s.phase != Disconnected
    ensures Lost(AfterSend(s, message, result, soError).accepted) > Lost(s.accepted) <==>
              result == Broken && message != [] && !s.writing && s.output == []
  {
    SendAppends(s, message, result, soError);
    LostSnoc(s.accepted, Taken(message, Unsent(s, result)));
  }

  lemma LostSnoc(taken: seq<Taken>, t: Taken)
    ensures Lost(taken + [t]) == Lost(taken) + (if t.dropped then |t.message| else 0)
  {
    assert (taken + [t])[..|taken|] == taken;
  }

  lemma RunCons(s: State, a: Action, rest: seq<Action>)
    requires Enabled(s, a) && CanRun(Step(s, a), rest)
    ensures CanRun(s, [a] + rest) && Run(s, [a] + rest) == Run(Step(s, a), rest)
  {
    assert ([a] + rest)[1..] == rest;
  }

  /** A run that drops a message and goes on with the connection up, as if nothing had happened. */
  lemma MessageDropped(message: seq<byte>) returns (actions: seq<Action>)
    requires message != []
    ensures CanRun(Init(), actions)
    ensures var s := Run(Init(), actions);
            s.phase == Connected && s.accepted == [Taken(message, true)] && s.written == s.output == []
  {
    var s1 := Step(Init(), Establish);
    var s2 := Step(s1, CheckSend(message));
    var s3 := Step(s2, SendInLoop(Broken, false));
    assert CanRun(s3, []) && Run(s3, []) == s3;
    RunCons(s2, SendInLoop(Broken, false), []);
    actions := [SendInLoop(Broken, false)] + [];
    RunCons(s1, CheckSend(message), actions);
    actions := [CheckSend(message)] + actions;
    RunCons(Init(), Establish, actions);
    actions := [Establish] + actions;
  }

  /** Another thread sends a message and shuts down: the shutdown takes effect at once, the functor of the message
      runs after it, and the message is dropped although nothing went wrong. */
  lemma PostedDropped(message: seq<byte>) returns (actions: seq<Action>)
    ensures CanRun(Init(), actions)
    ensures var s := Run(Init(), actions);
            && s.passed == [message] && s.accepted == [Taken(message, true)]
            && s.shut && s.written == s.output == [] && s.posted == []
  {
    var s1 := Step(Init(), Establish);
    var s2 := Step(s1, Post(message));
    var s3 := Step(s2, LoadShutdown);
    var s4 := Step(s3, StoreShutdown);
    var s5 := Step(s4, CheckPosted);
    var s6 := Step(s5, ShutdownInLoop);
    assert CanRun(s6, []) && Run(s6, []) == s6;
    RunCons(s5, ShutdownInLoop, []);
    actions := [ShutdownInLoop] + [];
    RunCons(s4, CheckPosted, actions);
    actions := [CheckPosted] + actions;
    RunCons(s3, StoreShutdown, actions);
    actions := [StoreShutdown] + actions;
    RunCons(s2, LoadShutdown, actions);
    actions := [LoadShutdown] + actions;
    RunCons(s1, Post(message), actions);
    actions := [Post(message)] + actions;
    RunCons(Init(), Establish, actions);
    actions := [Establish] + actions;
  }

  // ---------- which messages pass, and in which order the loop takes them ----------

  /** The messages that are sent while the connection is up, by whatever thread, in order. */
  function SentUp(s: State, actions: seq<Action>): seq<seq<byte>>
    requires CanRun(s, actions)
    decreases |actions|
  {
    if actions == [] then []
    else
      (if (actions[0].Post? || actions[0].CheckSend?) && s.phase == Connected then [actions[0].message] else [])
      + SentUp(Step(s, actions[0]), actions[1..])
  }

  /** Of those, the ones that other threads send. */
  function PostedUp(s: State, actions: seq<Action>): seq<seq<byte>>
    requires CanRun(s, actions)
    decreases |actions|
  {
    if actions == [] then [] else PostedBy(s, actions[0]) + PostedUp(Step(s, actions[0]), actions[1..])
  }

  function PostedBy(s: State, a: Action): seq<seq<byte>> {
    if a.Post? && s.phase == Connected then [a.message] else []
  }

  /** How many of them the loop has taken. */
  function Fetched(actions: seq<Action>): nat {
    if actions == [] then 0 else FetchedBy(actions[0]) + Fetched(actions[1..])
  }

  function FetchedBy(a: Action): nat { if a.CheckPosted? then 1 else 0 }

  /** In every run exactly the messages that are sent while the connection is up pass the check. */
  lemma {:induction false} PassedExactly(s: State, actions: seq<Action>)
    requires CanRun(s, actions)
    ensures Run(s, actions).passed == s.passed + SentUp(s, actions)
    decreases |actions|
  {
    if actions == [] {
      assert s.passed + [] == s.passed;
    } else {
      var a, s1 := actions[0], Step(s, actions[0]);
      PassedExactly(s1, actions[1..]);
      var first := if (a.Post? || a.CheckSend?) && s.phase == Connected then [a.message] else [];
      StepPasses(s, a, first);
      Associate(s.passed, first, SentUp(s1, actions[1..]));
    }
  }

  lemma StepPasses(s: State, a: Action, first: seq<seq<byte>>)
    requires Enabled(s, a)
    requires first == if (a.Post? || a.CheckSend?) && s.phase == Connected then [a.message] else []
    ensures Step(s, a).passed == s.passed + first
  {
    assert s.passed + [] == s.passed;
    if a.SendInLoop? {
      SendAppends(s.(sending := None), s.sending.value, a.result, a.soError);
    }
  }

  lemma StepPosts(s: State, a: Action)
    requires Enabled(s, a)
    ensures FetchedBy(a) <= |s.posted| && Step(s, a).posted == s.posted[FetchedBy(a)..] + PostedBy(s, a)
  {
    if a.SendInLoop? {
      SendAppends(s.(sending := None), s.sending.value, a.result, a.soError);
    }
    assert s.posted[0..] + [] == s.posted;
  }

  lemma QueueTurn<T>(queue: seq<T>, n: nat, first: seq<T>, rest: seq<T>, k: nat)
    requires n <= |queue| && k <= |queue[n..] + first + rest|
    ensures n + k <= |queue + (first + rest)|
    ensures (queue + (first + rest))[n + k..] == (queue[n..] + first + rest)[k..]
  {
    assert (queue + (first + rest))[n..] == queue[n..] + first + rest;
  }

  /** In every run the loop takes the messages of the other threads in the order in which they passed. */
  lemma {:induction false} PostedInOrder(s: State, actions: seq<Action>)
    requires CanRun(s, actions)
    ensures Fetched(actions) <= |s.posted + PostedUp(s, actions)|
    ensures Run(s, actions).posted == (s.posted + PostedUp(s, actions))[Fetched(actions)..]
    decreases |actions|
  {
    if actions == [] {
      assert s.posted + [] == s.posted;
    } else {
      var a, s1 := actions[0], Step(s, actions[0]);
      StepPosts(s, a);
      PostedInOrder(s1, actions[1..]);
      QueueTurn(s.posted, FetchedBy(a), PostedBy(s, a), PostedUp(s1, actions[1..]), Fetched(actions[1..]));
    }
  }

  /** Once the connection has left its open phase, no message passes any more. */
  lemma {:induction false} NonePasses(s: State, actions: seq<Action>)
    requires s.phase != Connecting && s.phase != Connected && CanRun(s, actions)
    ensures SentUp(s, actions) == []
    decreases |actions|
  {
    if actions != [] {
      NonePasses(Step(s, actions[0]), actions[1..]);
    }
  }

  /** shutdown and forceClose on a connection that is up, and every close, take effect at once: no message passes after
      them. */
  lemma NonePassesAfter(s: State, a: Action, actions: seq<Action>)
    requires Inv(s) && s.phase != Connecting && Enabled(s, a) && CanRun(Step(s, a), actions)
    requires a.StoreShutdown? || a.ForceClose? || a.HandleClose? || a.CloseInLoop? || a.ConnectDestroyed?
    ensures SentUp(Step(s, a), actions) == []
  {
    NonePasses(Step(s, a), actions);
  }

  /** How many bytes the kernel takes in a step, if it is asked. */
  function Took(s: State, a: Action): nat {
    if a.HandleWrite? && s.writing && a.result.Wrote? then Least(a.result.n, |s.output|)
    else if a.SendInLoop? && s.sending.Some? && s.phase != Disconnected && !s.writing && s.output == []
            && a.result.Wrote? then Least(a.result.n, |s.sending.value|)
    else 0
  }

  function Least(a: nat, b: nat): nat { if a < b then a else b }

  function TookAll(s: State, actions: seq<Action>): nat
    requires CanRun(s, actions)
    decreases |actions|
  {
    if actions == [] then 0 else Took(s, actions[0]) + TookAll(Step(s, actions[0]), actions[1..])
  }

  /** In every run the bytes that count as written are those that the kernel has taken. */
  lemma {:induction false} WrittenIsTaken(s: State, actions: seq<Action>)
    requires CanRun(s, actions)
    ensures |Run(s, actions).written| == |s.written| + TookAll(s, actions)
    decreases |actions|
  {
    if actions != [] {
      StepTakes(s, actions[0]);
      WrittenIsTaken(Step(s, actions[0]), actions[1..]);
    }
  }

  lemma StepTakes(s: State, a: Action)
    requires Enabled(s, a)
    ensures |Step(s, a).written| == |s.written| + Took(s, a)
  {
    if a.SendInLoop? {
      SendTakes(s.(sending := None), s.sending.value, a.result, a.soError);
    }
  }

  lemma SendTakes(s: State, message: seq<byte>, result: Written, soError: bool)
    ensures |AfterSend(s, message, result, soError).written| == |s.written| +
              (if s.phase != Disconnected && !s.writing && s.output == [] && result.Wrote? then
                 Least(result.n, |message|)
               else 0)
  {
  }

  /** How often a shutdown and a forced close were queued, and how often the queued work has run. */
  function Queued(s: State, actions: seq<Action>): (int, int)
    requires CanRun(s, actions)
    decreases |actions|
  {
    if actions == [] then (0, 0)
    else
      var a, rest := actions[0], Queued(Step(s, actions[0]), actions[1..]);
      (rest.0 + (if a.StoreShutdown? then 1 else if a.ShutdownInLoop? then -1 else 0),
       rest.1 + (if a.ForceClose? && s.phase == Connected then 1 else if a.CloseInLoop? then -1 else 0))
  }

  /** In every run the queued calls are those queued less those that have run. */
  lemma {:induction false} QueueCounts(s: State, actions: seq<Action>)
    requires CanRun(s, actions)
    ensures var s', q := Run(s, actions), Queued(s, actions);
            s'.shutdowns == s.shutdowns + q.0 && s'.closes == s.closes + q.1
    decreases |actions|
  {
    if actions != [] {
      StepQueues(s, actions[0]);
      QueueCounts(Step(s, actions[0]), actions[1..]);
    }
  }

  lemma StepQueues(s: State, a: Action)
    requires Enabled(s, a)
    ensures var s' := Step(s, a);
            && s'.shutdowns == s.shutdowns + (if a.StoreShutdown? then 1 else if a.ShutdownInLoop? then -1 else 0)
            && s'.closes == s.closes + (if a.ForceClose? && s.phase == Connected then 1
                                        else if a.CloseInLoop? then -1 else 0)
  {
    if a.SendInLoop? {
      SendQueuesNothing(s.(sending := None), s.sending.value, a.result, a.soError);
    }
  }

  lemma SendQueuesNothing(s: State, message: seq<byte>, result: Written, soError: bool)
    ensures var s' := AfterSend(s, message, result, soError);
            s'.shutdowns == s.shutdowns && s'.closes == s.closes
  {
  }

  /** The message that the loop takes next is on its way or dropped, and no other is. */
  lemma FetchesOldest(s: State)
    requires Enabled(s, CheckPosted)
    ensures var s' := Step(s, CheckPosted);
            if s.phase == Connected then s'.sending == Some(s.posted[0]) && s'.accepted == s.accepted
            else s'.sending == s.sending && s'.accepted == s.accepted + [Taken(s.posted[0], true)]
  {
  }

  // ---------- what is lost when the connection goes down ----------

  /** No byte leaves the buffer any more: the connection has ended, or its channel was taken off the loop. */
  predicate Down(s: State) {
    s.ends > 0 || s.removed
  }

  /** The bytes that passed the check in send and were dropped, or are stuck in the buffer of a connection that is
      down. */
  function Gone(s: State): nat {
    Lost(s.accepted) + (if Down(s) then |s.output| else 0)
  }

  lemma StepAfterDown(s: State, a: Action)
    requires Inv(s) && Down(s) && Enabled(s, a)
    ensures Down(Step(s, a)) && Step(s, a).written == s.written && Step(s, a).output == s.output
  {
  }

  /** Once the connection is down, no run changes what was written or what is in the buffer. */
  lemma {:induction false} NothingAfterDown(s: State, actions: seq<Action>)
    requires Inv(s) && Down(s) && CanRun(s, actions)
    ensures Run(s, actions).written == s.written && Run(s, actions).output == s.output
    decreases |actions|
  {
    if actions != [] {
      StepInv(s, actions[0]);
      StepAfterDown(s, actions[0]);
      NothingAfterDown(Step(s, actions[0]), actions[1..]);
    }
  }

  /** The run writes all that is in the buffer now. */
  ghost predicate Empties(s: State, actions: seq<Action>) {
    CanRun(s, actions) && s.written + s.output <= Run(s, actions).written
  }

  lemma StillWritable(s: State) returns (actions: seq<Action>)
    requires Inv(s) && !Down(s) && s.output != []
    ensures Empties(s, actions)
  {
    var s1, first := s, [];
    if s.sending.Some? {
      first := [SendInLoop(WouldBlock, false)];
      s1 := Step(s, first[0]);
    }
    var write := HandleWrite(Wrote(|s1.output|), false);
    var s2 := Step(s1, write);
    assert s2.written == s1.written + s1.output;
    assert CanRun(s2, []) && Run(s2, []) == s2;
    RunCons(s1, write, []);
    actions := [write] + [];
    if s.sending.Some? {
      assert s1.output == s.output + s.sending.value || s1.output == s.output;
      assert s.written + s.output <= s2.written;
      RunCons(s, first[0], actions);
      actions := [first[0]] + actions;
    }
  }

  /** What is in the buffer can still be written exactly until the connection is down. */
  lemma WritableExactlyWhen(s: State)
    requires Inv(s) && s.output != []
    ensures (exists actions :: Empties(s, actions)) <==> !Down(s)
  {
    if Down(s) {
      forall actions ensures !Empties(s, actions) {
        if CanRun(s, actions) {
          NothingAfterDown(s, actions);
        }
      }
    } else {
      var actions := StillWritable(s);
    }
  }

  /** The connection goes down with bytes in the buffer: by a close, queued or not, by its removal, or by a failed
      write after which the socket reports an error. */
  predicate GoesDownFull(s: State, a: Action) {
    && s.output != [] && !Down(s)
    && (|| a.HandleClose? || a.CloseInLoop? || a.ConnectDestroyed?
        || (a.HandleWrite? && a.soError && (a.result.Broken? || a.result.OtherError? || a.result == Wrote(0))))
  }

  /** Bytes that passed the check in send are lost for good by three kinds of steps only. */
  lemma GoneExactlyWhen(actions: seq<Action>, a: Action)
    requires CanRun(Init(), actions) && Enabled(Run(Init(), actions), a)
    ensures var s := Run(Init(), actions);
            Gone(Step(s, a)) > Gone(s) <==> MeetsBroken(s, a) || ComesTooLate(s, a) || GoesDownFull(s, a)
  {
    InitInv();
    RunInv(Init(), actions);
    StepGone(Run(Init(), actions), a);
  }

  lemma StepGone(s: State, a: Action)
    requires Inv(s) && Enabled(s, a)
    ensures Gone(Step(s, a)) > Gone(s) <==> MeetsBroken(s, a) || ComesTooLate(s, a) || GoesDownFull(s, a)
  {
    StepDrops(s, a);
    if Down(s) {
      StepAfterDown(s, a);
      DropsOnly(s, a);
    } else if GoesDownFull(s, a) {
      GoingDown(s, a);
    } else {
      StaysUp(s, a);
      DropsOnly(s, a);
    }
  }

  lemma DropsOnly(s: State, a: Action)
    requires Inv(s) && Enabled(s, a)
    ensures Lost(Step(s, a).accepted) >= Lost(s.accepted)
  {
    if a.SendInLoop? {
      SendAppends(s.(sending := None), s.sending.value, a.result, a.soError);
      LostSnoc(s.accepted, Taken(s.sending.value, Unsent(s, a.result)));
    } else if a.CheckPosted? {
      LostSnoc(s.accepted, Taken(s.posted[0], true));
    }
  }

  lemma GoingDown(s: State, a: Action)
    requires Inv(s) && Enabled(s, a) && GoesDownFull(s, a)
    ensures Down(Step(s, a)) && Step(s, a).output == s.output && Step(s, a).accepted == s.accepted
  {
  }

  lemma StaysUp(s: State, a: Action)
    requires Inv(s) && Enabled(s, a) && !Down(s) && !GoesDownFull(s, a)
    ensures Down(Step(s, a)) ==> Step(s, a).output == []
  {
  }

  /** A message that is waiting in the buffer when the connection is closed by force is never written, although no
      step has dropped it. */
  lemma BufferStranded(message: seq<byte>) returns (actions: seq<Action>)
    requires message != []
    ensures CanRun(Init(), actions)
    ensures var s := Run(Init(), actions);
            && s.passed == [message] && Lost(s.accepted) == 0 && s.written == [] && s.output == message
            && Down(s) && Inv(s)
  {
    var s3 := Buffering(message);
    var more := ForcedDown(s3);
    actions := ReachBuffering(message, more);
    LostSnoc([], Taken(message, false));
    InitInv();
    RunInv(Init(), actions);
  }

  /** A connection whose first message waits in the buffer. */
  function Buffering(message: seq<byte>): State {
    Init().(phase := Connected, writing := true, output := message, passed := [message],
            accepted := [Taken(message, false)])
  }

  lemma ReachBuffering(message: seq<byte>, more: seq<Action>) returns (actions: seq<Action>)
    requires message != [] && CanRun(Buffering(message), more)
    ensures CanRun(Init(), actions) && Run(Init(), actions) == Run(Buffering(message), more)
  {
    var s1 := Step(Init(), Establish);
    var s2 := Step(s1, CheckSend(message));
    assert [] + message == message;
    assert Step(s2, SendInLoop(WouldBlock, false)) == Buffering(message);
    RunCons(s2, SendInLoop(WouldBlock, false), more);
    actions := [SendInLoop(WouldBlock, false)] + more;
    RunCons(s1, CheckSend(message), actions);
    actions := [CheckSend(message)] + actions;
    RunCons(Init(), Establish, actions);
    actions := [Establish] + actions;
  }

  /** forceClose on a connection that is up, and the close it queues. */
  lemma ForcedDown(s: State) returns (actions: seq<Action>)
    requires s.phase == Connected && s.sending.None?
    ensures CanRun(s, actions)
    ensures Run(s, actions) == s.(phase := Disconnected, writing := false, ends := s.ends + 1)
  {
    var s1 := Step(s, ForceClose);
    var s2 := Step(s1, CloseInLoop);
    assert CanRun(s2, []) && Run(s2, []) == s2;
    RunCons(s1, CloseInLoop, []);
    actions := [CloseInLoop] + [];
    RunCons(s, ForceClose, actions);
    actions := [ForceClose] + actions;
  }

  // ---------- a shutdown is not forgotten ----------

  /** Once the queued work of a shutdown has run, no message is on its way, and the write side is shut down as soon as
      the buffer is empty. */
  ghost predicate Remembered(s: State) {
    s.phase == Disconnecting && s.ends == 0 && s.shutdowns == 0 && s.closes == 0 ==>
      s.sending.None? && (s.output == [] ==> s.shut)
  }

  lemma StepRemembers(s: State, a: Action)
    requires Inv(s) && Remembered(s) && Enabled(s, a)
    ensures Remembered(Step(s, a))
  {
    if a.SendInLoop? {
      SendRemembers(s.(sending := None), s.sending.value, a.result, a.soError);
    } else if a.HandleWrite? {
      WriteRemembers(s, a.result, a.soError);
    }
  }

  lemma SendRemembers(s: State, message: seq<byte>, result: Written, soError: bool)
    ensures var s' := AfterSend(s, message, result, soError);
            && s'.sending == s.sending && s'.shutdowns == s.shutdowns && s'.closes == s.closes
            && (s'.phase == s.phase || s'.ends > s.ends)
  {
  }

  lemma WriteRemembers(s: State, result: Written, soError: bool)
    requires Inv(s) && Remembered(s) && s.sending.None?
    ensures Remembered(AfterWrite(s, result, soError))
  {
  }

  lemma {:induction false} RunRemembers(s: State, actions: seq<Action>)
    requires Inv(s) && Remembered(s) && CanRun(s, actions)
    ensures Remembered(Run(s, actions))
    decreases |actions|
  {
    if actions != [] {
      StepInv(s, actions[0]);
      StepRemembers(s, actions[0]);
      RunRemembers(Step(s, actions[0]), actions[1..]);
    }
  }

  /** In every run: when a shutdown has been asked for and none is queued, then on a connection that has not ended, and
      that is not being closed by force, an empty buffer means that the write side is shut down. */
  lemma ShutdownRemembered(actions: seq<Action>)
    requires CanRun(Init(), actions)
    ensures Remembered(Run(Init(), actions))
  {
    InitInv();
    RunRemembers(Init(), actions);
  }

  /** The run only goes on with what the loop has begun or queued, and with writes. */
  ghost predicate OnlyFinishes(actions: seq<Action>) {
    forall i :: 0 <= i < |actions| ==> actions[i].SendInLoop? || actions[i].ShutdownInLoop? || actions[i].HandleWrite?
  }

  /** The rest of a shutdown with nothing queued: one write, if there is something to write. */
  lemma LastWrite(s: State) returns (actions: seq<Action>)
    requires Inv(s) && Remembered(s) && s.phase == Disconnecting && !Down(s) && s.closes == 0 && s.sending.None?
    requires s.shutdowns == 0 || s.writing
    ensures CanRun(s, actions) && OnlyFinishes(actions) && Run(s, actions).shut && Run(s, actions).output == []
  {
    if s.output == [] {
      actions := [];
      assert Run(s, actions) == s;
    } else {
      var write := HandleWrite(Wrote(|s.output|), false);
      var s' := Step(s, write);
      assert CanRun(s', []) && Run(s', []) == s';
      RunCons(s, write, []);
      actions := [write] + [];
    }
  }

  lemma QueuedShutdown(s: State) returns (actions: seq<Action>)
    requires Inv(s) && Remembered(s) && s.phase == Disconnecting && !Down(s) && s.closes == 0 && s.sending.None?
    ensures CanRun(s, actions) && OnlyFinishes(actions) && Run(s, actions).shut && Run(s, actions).output == []
  {
    if s.shutdowns == 0 || s.writing {
      actions := LastWrite(s);
    } else {
      var s' := Step(s, ShutdownInLoop);
      assert CanRun(s', []) && Run(s', []) == s';
      RunCons(s, ShutdownInLoop, []);
      actions := [ShutdownInLoop] + [];
    }
  }

  /** From every state of a shutdown under way, unless the connection goes down, a run of the loop alone writes out all
      that is buffered and shuts the write side down. */
  lemma ShutdownCompletes(s: State) returns (actions: seq<Action>)
    requires Inv(s) && Remembered(s) && s.phase == Disconnecting && !Down(s) && s.closes == 0
    ensures CanRun(s, actions) && OnlyFinishes(actions) && Run(s, actions).shut && Run(s, actions).output == []
  {
    if s.sending.None? {
      actions := QueuedShutdown(s);
    } else {
      var send := SendInLoop(WouldBlock, false);
      StepInv(s, send);
      StepRemembers(s, send);
      actions := QueuedShutdown(Step(s, send));
      RunCons(s, send, actions);
      actions := [send] + actions;
    }
  }

  // ---------- when the user is told ----------

  /** The kernel reports a broken connection and the socket an error. */
  predicate BreaksDown(s: State, a: Action)
    requires Enabled(s, a)
  {
    || (a.SendInLoop? && a.soError && a.result.Broken? && !s.writing && s.output == [])
    || (a.HandleWrite? && s.writing && a.soError
        && (a.result.Broken? || a.result.OtherError? || a.result == Wrote(0)))
  }

  /** The user is told that the connection is down exactly by a close or a breakdown on a connection that is not down,
      and by the removal of a connection that is up. */
  lemma ToldExactlyWhen(s: State, a: Action)
    requires Inv(s) && Enabled(s, a)
    ensures var told := s.phase != Disconnected
                        && (|| a.HandleClose? || a.CloseInLoop? || BreaksDown(s, a)
                            || (a.ConnectDestroyed? && s.phase == Connected));
            Step(s, a).ends == s.ends + (if told then 1 else 0)
  {
    if a.SendInLoop? {
      SendEnds(s.(sending := None), s.sending.value, a.result, a.soError);
    }
  }

  lemma SendEnds(s: State, message: seq<byte>, result: Written, soError: bool)
    ensures AfterSend(s, message, result, soError).ends == s.ends +
              (if s.phase != Disconnected && soError && result.Broken? && !s.writing && s.output == [] then 1 else 0)
  {
  }

  // ---------- ending twice ----------

  /** A thread that loaded the phase in shutdown while the connection was up stores it after the connection ended. */
  predicate Stale(s: State, a: Action) {
    a.StoreShutdown? && s.ends > 0
  }

  ghost predicate Prompt(s: State, actions: seq<Action>)
    requires CanRun(s, actions)
    decreases |actions|
  {
    actions == [] || (!Stale(s, actions[0]) && Prompt(Step(s, actions[0]), actions[1..]))
  }

  /** The user has been told at most once that the connection is down, and then it is. */
  ghost predicate EndedOnce(s: State) {
    s.ends <= 1 && (s.ends == 1 ==> s.phase == Disconnected)
  }

  lemma StepEndsOnce(s: State, a: Action)
    requires Inv(s) && EndedOnce(s) && Enabled(s, a) && !Stale(s, a)
    ensures EndedOnce(Step(s, a))
  {
  }

  lemma {:induction false} RunEndsOnce(s: State, actions: seq<Action>)
    requires Inv(s) && EndedOnce(s) && CanRun(s, actions) && Prompt(s, actions)
    ensures EndedOnce(Run(s, actions))
    decreases |actions|
  {
    if actions != [] {
      StepInv(s, actions[0]);
      StepEndsOnce(s, actions[0]);
      RunEndsOnce(Step(s, actions[0]), actions[1..]);
    }
  }

  /** The run goes on without another such store, and the user is told again. */
  ghost predicate ToldAgain(s: State, next: seq<Action>) {
    CanRun(s, next) && Prompt(s, next) && Run(s, next).ends > 1
  }

  /** A step can lead to a second end, with no other stale store after it, exactly when it is a stale store. */
  lemma EndsTwiceExactlyWhen(s: State, a: Action)
    requires Inv(s) && EndedOnce(s) && Enabled(s, a)
    ensures (exists next :: ToldAgain(Step(s, a), next)) <==> Stale(s, a)
  {
    var s' := Step(s, a);
    if Stale(s, a) {
      assert [HandleClose][1..] == [];
      assert CanRun(Step(s', HandleClose), []) && Prompt(Step(s', HandleClose), []);
      assert ToldAgain(s', [HandleClose]);
    } else {
      StepInv(s, a);
      StepEndsOnce(s, a);
      forall next ensures !ToldAgain(s', next) {
        if CanRun(s', next) && Prompt(s', next) {
          RunEndsOnce(s', next);
        }
      }
    }
  }

  /** Another thread is in shutdown while an event ends the connection: its store makes the next handleClose, which
      the same event calls, run in full once more. */
  lemma ClosedTwice() returns (actions: seq<Action>)
    ensures CanRun(Init(), actions) && Run(Init(), actions).ends == 2
  {
    var s1 := Step(Init(), Establish);
    var s2 := Step(s1, LoadShutdown);
    actions := ClosedAgain(s2);
    RunCons(s1, LoadShutdown, actions);
    actions := [LoadShutdown] + actions;
    RunCons(Init(), Establish, actions);
    actions := [Establish] + actions;
  }

  lemma ClosedAgain(s: State) returns (actions: seq<Action>)
    requires s.phase == Connected && s.sending.None? && s.stopping > 0
    ensures CanRun(s, actions) && Run(s, actions).ends == s.ends + 2
  {
    var s1 := Step(s, HandleClose);
    var s2 := Step(s1, StoreShutdown);
    var s3 := Step(s2, HandleClose);
    assert CanRun(s3, []) && Run(s3, []) == s3;
    RunCons(s2, HandleClose, []);
    actions := [HandleClose] + [];
    RunCons(s1, StoreShutdown, actions);
    actions := [StoreShutdown] + actions;
    RunCons(s, HandleClose, actions);
    actions := [HandleClose] + actions;
  }

  /** The sequential shutdown of the class is the load and the store, one after the other. */
  lemma ShutdownIsRun(s: State)
    ensures s.phase == Connected ==>
              CanRun(s, [LoadShutdown, StoreShutdown]) && Run(s, [LoadShutdown, StoreShutdown]) == AfterShutdown(s)
    ensures s.phase != Connected ==> Step(s, LoadShutdown) == AfterShutdown(s)
  {
    if s.phase == Connected {
      UpShutdown(s);
    }
  }

  lemma UpShutdown(s: State)
    requires s.phase == Connected
    ensures CanRun(s, [LoadShutdown, StoreShutdown]) && Run(s, [LoadShutdown, StoreShutdown]) == AfterShutdown(s)
  {
    var s1 := Step(s, LoadShutdown);
    var s2 := Step(s1, StoreShutdown);
    assert CanRun(s2, []) && Run(s2, []) == s2;
    RunCons(s1, StoreShutdown, []);
    RunCons(s, LoadShutdown, [StoreShutdown] + []);
    assert [LoadShutdown] + ([StoreShutdown] + []) == [LoadShutdown, StoreShutdown];
  }

  // ---------- after the shutdown ----------

  /** Whatever the loop deals with later, it drops. */
  ghost predicate OnlyDrops(taken: seq<Taken>, taken': seq<Taken>) {
    taken <= taken' && forall i :: |taken| <= i < |taken'| ==> taken'[i].dropped
  }

  lemma OnlyDropsOn(a: seq<Taken>, b: seq<Taken>, c: seq<Taken>)
    requires OnlyDrops(a, b) && OnlyDrops(b, c)
    ensures OnlyDrops(a, c)
  {
  }

  lemma StepAfterShut(s: State, a: Action)
    requires Inv(s) && s.shut && Enabled(s, a)
    ensures Step(s, a).shut && Step(s, a).written == s.written && OnlyDrops(s.accepted, Step(s, a).accepted)
  {
  }

  /** After the shutdown nothing is written, and every message that still waits for the loop is dropped. */
  lemma {:induction false} NothingAfterShutdown(s: State, actions: seq<Action>)
    requires Inv(s) && s.shut && CanRun(s, actions)
    ensures Run(s, actions).written == s.written && OnlyDrops(s.accepted, Run(s, actions).accepted)
    decreases |actions|
  {
    if actions != [] {
      var s' := Step(s, actions[0]);
      StepInv(s, actions[0]);
      StepAfterShut(s, actions[0]);
      NothingAfterShutdown(s', actions[1..]);
      OnlyDropsOn(s.accepted, s'.accepted, Run(s', actions[1..]).accepted);
    }
  }

  // ---------- the connection ----------

  class Connection {
    const outputBuffer: Buffer
    var phase: Phase
    var writing: bool
    /** The functors with messages that other threads have queued, and the queued closes. */
    var posted: seq<seq<byte>>
    var closes: nat
    var removed: bool
    ghost var sending: Option<seq<byte>>
    ghost var stopping: nat
    ghost var shutdowns: nat
    ghost var passed: seq<seq<byte>>
    ghost var accepted: seq<Taken>
    ghost var written: seq<byte>
    ghost var shut: bool
    ghost var ends: nat

    ghost predicate Valid()
      reads this, outputBuffer
    {
      outputBuffer.Valid()
    }

    ghost function St(): State
      requires Valid()
      reads this, outputBuffer, outputBuffer.store
    {
      State(phase, writing, outputBuffer.Contents(), posted, sending, stopping, shutdowns, closes, passed, accepted,
            written, shut, ends, removed)
    }

    constructor ()
      ensures Valid() && fresh(outputBuffer) && fresh(outputBuffer.store) && St() == Init()
    {
      outputBuffer := new Buffer();
      phase, writing, posted, closes, removed := Connecting, false, [], 0, false;
      sending, stopping, shutdowns, passed, accepted, written, shut, ends := None, 0, 0, [], [], [], false, 0;
    }

    /** In the loop thread the message is sent at once; another thread hands it to the loop. */
    method Send(message: seq<byte>, inLoopThread: bool, result: Written, soError: bool)
      requires Valid()
      modifies this, outputBuffer, outputBuffer.store
      ensures Valid() && (outputBuffer.store == old(outputBuffer.store) || fresh(outputBuffer.store))
      ensures St() == if old(phase) == Connected && inLoopThread then
                        AfterSend(old(St()).(passed := old(passed) + [message]), message, result, soError)
                      else Step(old(St()), Post(message))
    {
      if phase != Connected { return; }
      passed := passed + [message];
      if inLoopThread {
        SendInLoop(message, result, soError);
      } else {
        posted := posted + [message];
      }
    }

    /** The functor of a posted message: checks the state again before it sends. */
    method SendPosted(result: Written, soError: bool)
      requires Valid() && posted != []
      modifies this, outputBuffer, outputBuffer.store
      ensures Valid() && (outputBuffer.store == old(outputBuffer.store) || fresh(outputBuffer.store))
      ensures St() == if old(phase) == Connected then
                        AfterSend(old(St()).(posted := old(posted)[1..]), old(posted)[0], result, soError)
                      else
                        old(St()).(posted := old(posted)[1..],
                                   accepted := old(accepted) + [Taken(old(posted)[0], true)])
    {
      var message := posted[0];
      posted := posted[1..];
      if phase == Connected {
        SendInLoop(message, result, soError);
      } else {
        accepted := accepted + [Taken(message, true)];
      }
    }

    method SendInLoop(message: seq<byte>, result: Written, soError: bool)
      requires Valid()
      modifies this, outputBuffer, outputBuffer.store
      ensures Valid() && (outputBuffer.store == old(outputBuffer.store) || fresh(outputBuffer.store))
      ensures St() == AfterSend(old(St()), message, result, soError)
    {
      accepted := accepted + [Taken(message, phase == Disconnected)];
      if phase == Disconnected { return; }
      var rest := message;
      if !writing && outputBuffer.ReadableBytes() == 0 {
        match result
        case Wrote(n) =>
          var k := if n <= |message| then n else |message|;
          written := written + message[..k];
          rest := message[k..];
        case Broken =>
          accepted := old(accepted) + [Taken(message, true)];
          HandleError(soError);
          return;
        case WouldBlock =>
        case OtherError =>
      }
      Enqueue(rest);
    }

    /** What was not written goes to the buffer, and the loop is asked to watch for writability. */
    method Enqueue(rest: seq<byte>)
      requires Valid()
      modifies this`writing, outputBuffer, outputBuffer.store
      ensures Valid() && (outputBuffer.store == old(outputBuffer.store) || fresh(outputBuffer.store))
      ensures St() == Buffered(old(St()), rest)
    {
      if |rest| > 0 {
        outputBuffer.Append(rest);
        writing := true;
      }
    }

    method HandleWrite(result: Written, soError: bool)
      requires Valid()
      modifies this, outputBuffer
      ensures Valid() && outputBuffer.store == old(outputBuffer.store)
      ensures St() == AfterWrite(old(St()), result, soError)
    {
      if !writing { return; }
      match result
      case Wrote(n) =>
        if n == 0 {
          HandleError(soError);
        } else {
          var k := if n <= outputBuffer.ReadableBytes() then n else outputBuffer.ReadableBytes();
          written := written + outputBuffer.Contents()[..k];
          outputBuffer.Retrieve(k);
          if outputBuffer.ReadableBytes() == 0 {
            writing := false;
            if phase == Disconnecting {
              ShutdownWrite();
            }
          }
        }
      case WouldBlock =>
      case Broken => HandleError(soError);
      case OtherError => HandleError(soError);
    }

    /** The work of shutdownInLoop. */
    method ShutdownWrite()
      requires Valid()
      modifies this
      ensures Valid() && St() == AfterShutdownInLoop(old(St()))
    {
      if !writing {
        shut := true;
      }
    }

    method Shutdown()
      requires Valid()
      modifies this
      ensures Valid() && St() == AfterShutdown(old(St()))
    {
      if phase == Connected {
        phase := Disconnecting;
        shutdowns := shutdowns + 1;
      }
    }

    method HandleClose()
      requires Valid()
      modifies this
      ensures Valid() && St() == AfterClose(old(St()))
    {
      if phase == Disconnected { return; }
      phase := Disconnected;
      writing := false;
      ends := ends + 1;
    }

    method HandleError(soError: bool)
      requires Valid()
      modifies this
      ensures Valid() && St() == AfterError(old(St()), soError)
    {
      if soError {
        HandleClose();
      }
    }

    method ForceClose()
      requires Valid()
      modifies this
      ensures Valid() && St() == Step(old(St()), Action.ForceClose)
    {
      if phase == Connected {
        phase := Disconnecting;
        closes := closes + 1;
      }
    }

    method ConnectDestroyed()
      requires Valid()
      modifies this
      ensures Valid() && St() == AfterDestroyed(old(St()))
    {
      if phase == Connected {
        phase := Disconnected;
        writing := false;
        ends := ends + 1;
      }
      removed := true;
    }

    /** The close that forceClose has queued. */
    method CloseInLoop()
      requires Valid() && closes > 0
      modifies this
      ensures Valid() && St() == AfterClose(old(St()).(closes := old(closes) - 1))
    {
      closes := closes - 1;
      HandleClose();
    }
  }
}
