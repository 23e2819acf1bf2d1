/**
 * The connect/read state machine of the gateway (PrintTaskWatchdog.main_loop in
 * gatewayEMS/main.py). `is_connected` and the optional `read_task` handle are the state;
 * the read task itself (an endless print-and-sleep loop) is represented by its presence.
 */
module Orchestrator {
  import opened PyValue

  /** What a transition did, in order (the messages main_loop and its helpers print). */
  datatype Effect = Connected | ReadStarted | ReadStopped | Disconnected

  /** `reading` stands for `read_task is not None`. */
  datatype State = State(isConnected: bool, reading: bool)

  const Initial := State(false, false)

  /** The states the orchestrator promises: no read task without a connection. */
  predicate Consistent(s: State) {
    s.reading ==> s.isConnected
  }

  /** `_stop_read_task`: cancels the running read task, if any; always leaves no handle. */
  function StopRead(s: State): (r: (State, seq<Effect>))
    ensures !r.0.reading && r.0.isConnected == s.isConnected
    ensures r.1 == (if s.reading then [ReadStopped] else [])
  {
    if s.reading then (s.(reading := false), [ReadStopped]) else (s, [])
  }

  /** The connection half of main_loop: task_connect, or task_disconnect then is_connected := False. */
  function ConnectPhase(s: State, connect: bool): (State, seq<Effect>) {
    if connect && !s.isConnected then (s.(isConnected := true), [Connected])
    else if !connect && s.isConnected then
      var stopped := StopRead(s);
      (stopped.0.(isConnected := false), stopped.1 + [Disconnected])
    else (s, [])
  }

  /** The reading half of main_loop. */
  function ReadPhase(s: State, readstart: bool): (State, seq<Effect>) {
    if s.isConnected then
      if readstart && !s.reading then (s.(reading := true), [ReadStarted])
      else if !readstart && s.reading then StopRead(s)
      else (s, [])
    else if s.reading then StopRead(s)
    else (s, [])
  }

  /**
   * One main_loop(connect, readstart) call on booleans. Whatever the state before, the state
   * after is determined by the request alone: connected exactly when asked to be, reading
   * exactly when connected and asked to read.
   */
  function Step(s: State, connect: bool, readstart: bool): (r: (State, seq<Effect>))
    ensures r.0 == State(connect, connect && readstart)
    ensures Consistent(r.0)
    ensures Connected in r.1 <==> connect && !s.isConnected
    ensures Disconnected in r.1 <==> !connect && s.isConnected
    ensures ReadStarted in r.1 <==> connect && readstart && !s.reading
    ensures ReadStopped in r.1 <==> s.reading && !(connect && readstart)
  {
    var c := ConnectPhase(s, connect);
    var r := ReadPhase(c.0, readstart);
    (r.0, c.1 + r.1)
  }

  /** main_loop with the raw command values: `if connect_value` tests Python truthiness. */
  function MainLoopStep(s: State, connect: PyVal, readstart: PyVal): (State, seq<Effect>) {
    Step(s, PyTruthy(connect), PyTruthy(readstart))
  }

  /** Calling main_loop again with the same pair changes nothing and does nothing. */
  lemma StepIdempotent(s: State, connect: bool, readstart: bool)
    ensures var t := Step(s, connect, readstart).0;
      Step(t, connect, readstart) == (t, [])
  {
    var t := Step(s, connect, readstart).0;
    var c := ConnectPhase(t, connect);
    assert c == (t, []);
    var r := ReadPhase(c.0, readstart);
    assert r == (t, []);
    assert Step(t, connect, readstart) == (r.0, c.1 + r.1);
  }

  /** readstart=true with connect=false never starts a read task and leaves none running. */
  lemma NoReadWithoutConnect(s: State)
    ensures ReadStarted !in Step(s, false, true).1
    ensures !Step(s, false, true).0.reading
  {
  }

  /** A sequence of command pairs applied one after another: final state and all effects. */
  function Run(s: State, commands: seq<(bool, bool)>): (State, seq<Effect>)
    decreases |commands|
  {
    if commands == [] then (s, [])
    else
      var first := Step(s, commands[0].0, commands[0].1);
      var rest := Run(first.0, commands[1..]);
      (rest.0, first.1 + rest.1)
  }

  /** How many times an effect occurs in a log. */
  function Count(effects: seq<Effect>, e: Effect): nat {
    multiset(effects)[e]
  }

  function Indicator(b: bool): int {
    if b then 1 else 0
  }

  /**
   * The effects of going from `s` to `outcome.0` account for the change: read-task starts
   * minus stops is the change in running read tasks, connects minus disconnects the change
   * in connections.
   */
  predicate Balanced(s: State, outcome: (State, seq<Effect>)) {
    Count(outcome.1, ReadStarted) - Count(outcome.1, ReadStopped) == Indicator(outcome.0.reading) - Indicator(s.reading)
    && Count(outcome.1, Connected) - Count(outcome.1, Disconnected) == Indicator(outcome.0.isConnected) - Indicator(s.isConnected)
  }

  /** One step changes the number of running read tasks by its starts minus its stops. */
  lemma StepBalance(s: State, connect: bool, readstart: bool)
    requires Consistent(s)
    ensures Balanced(s, Step(s, connect, readstart))
  {
  }

  /**
   * Over any run from a consistent state, starts minus stops of the read task equals the
   * change in the number of running tasks (0 or 1): there is never more than one, and
   * every start is matched by a stop once reading ends. The same holds for connections.
   */
  lemma {:induction false} RunBalance(s: State, commands: seq<(bool, bool)>)
    requires Consistent(s)
    decreases |commands|
    ensures Consistent(Run(s, commands).0) && Balanced(s, Run(s, commands))
  {
    if commands != [] {
      var first := Step(s, commands[0].0, commands[0].1);
      var rest := Run(first.0, commands[1..]);
      assert Run(s, commands) == (rest.0, first.1 + rest.1);
      StepBalance(s, commands[0].0, commands[0].1);
      RunBalance(first.0, commands[1..]);
      BalancedChain(s, first, rest);
    }
  }

  /** Two balanced stretches, one after the other, are balanced together. */
  lemma BalancedChain(s: State, first: (State, seq<Effect>), rest: (State, seq<Effect>))
    requires Balanced(s, first) && Balanced(first.0, rest)
    ensures Balanced(s, (rest.0, first.1 + rest.1))
  {
    CountAppend(first.1, rest.1, ReadStarted);
    CountAppend(first.1, rest.1, ReadStopped);
    CountAppend(first.1, rest.1, Connected);
    CountAppend(first.1, rest.1, Disconnected);
  }

  /** Counting over two logs one after the other adds up. */
  lemma CountAppend(a: seq<Effect>, b: seq<Effect>, e: Effect)
    ensures Count(a + b, e) == Count(a, e) + Count(b, e)
  {
    assert multiset(a + b) == multiset(a) + multiset(b);
  }

  /** connect false, true, true, false: Disconnected, Idle, Idle, Disconnected; one connect, one disconnect. */
  lemma ConnectToggleTrace()
    ensures Run(Initial, [(false, false), (true, false), (true, false), (false, false)])
      == (Initial, [Connected, Disconnected])
  {
    var up := State(true, false);
    assert Step(up, false, false) == (Initial, [Disconnected]) by {
      assert StopRead(up) == (up, []);
      assert [] + [Disconnected] == [Disconnected];
      assert ConnectPhase(up, false) == (Initial, [Disconnected]);
      assert ReadPhase(Initial, false) == (Initial, []);
      assert [Disconnected] + [] == [Disconnected];
    }
    assert Step(up, true, false) == (up, []) by {
      assert ConnectPhase(up, true) == (up, []);
      assert ReadPhase(up, false) == (up, []);
    }
    assert Step(Initial, true, false) == (up, [Connected]) by {
      assert ConnectPhase(Initial, true) == (up, [Connected]);
      assert ReadPhase(up, false) == (up, []);
      assert [Connected] + [] == [Connected];
    }
    assert Step(Initial, false, false) == (Initial, []) by {
      assert ConnectPhase(Initial, false) == (Initial, []);
      assert ReadPhase(Initial, false) == (Initial, []);
    }
    var c := [(false, false), (true, false), (true, false), (false, false)];
    assert c[4..] == [] && c[3..][1..] == c[4..] && c[2..][1..] == c[3..] && c[1..][1..] == c[2..] && c[1..] == c[..][1..];
    assert [Disconnected] + [] == [Disconnected];
    assert [] + [Disconnected] == [Disconnected];
    assert [Connected] + [Disconnected] == [Connected, Disconnected];
    assert [] + [Connected, Disconnected] == [Connected, Disconnected];
    assert Run(up, c[3..]) == (Initial, [Disconnected]);
    assert Run(up, c[2..]) == (Initial, [Disconnected]);
    assert Run(Initial, c[1..]) == (Initial, [Connected, Disconnected]);
  }

  /** The orchestrator object: the fields main_loop and its helpers update. */
  class PrintTaskWatchdog {
    var isConnected: bool
    var readTask: bool
    /** The effects performed so far, oldest first. */
    var effects: seq<Effect>

    function Current(): State
      reads this
    {
      State(isConnected, readTask)
    }

    constructor ()
      ensures Current() == Initial && effects == []
    {
      isConnected := false;
      readTask := false;
      effects := [];
    }

    /** `_stop_read_task`: afterwards there is no read task, whether or not one was running. */
    method StopReadTask()
      modifies this
      ensures !readTask && isConnected == old(isConnected)
      ensures effects == old(effects) + (if old(readTask) then [ReadStopped] else [])
    {
      if readTask {
        readTask := false;
        effects := effects + [ReadStopped];
      }
    }

    /** `task_connect`. */
    method TaskConnect()
      modifies this
      ensures isConnected && readTask == old(readTask)
      ensures effects == old(effects) + [Connected]
    {
      isConnected := true;
      effects := effects + [Connected];
    }

    /** `task_disconnect`: stops the read task; main_loop clears is_connected afterwards. */
    method TaskDisconnect()
      modifies this
      ensures !readTask && isConnected == old(isConnected)
      ensures effects == old(effects) + (if old(readTask) then [ReadStopped] else []) + [Disconnected]
    {
      StopReadTask();
      effects := effects + [Disconnected];
    }

    /** `main_loop(connect_value, readstart_value)`. */
    method MainLoop(connect: PyVal, readstart: PyVal)
      modifies this
      ensures Current() == MainLoopStep(old(Current()), connect, readstart).0
      ensures effects == old(effects) + MainLoopStep(old(Current()), connect, readstart).1
      ensures Consistent(Current())
    {
      if PyTruthy(connect) && !isConnected {
        TaskConnect();
      } else if !PyTruthy(connect) && isConnected {
        TaskDisconnect();
        isConnected := false;
      }
      if isConnected {
        if PyTruthy(readstart) && !readTask {
          readTask := true;
          effects := effects + [ReadStarted];
        } else if !PyTruthy(readstart) && readTask {
          StopReadTask();
        }
      } else if readTask {
        StopReadTask();
      }
    }
  }
}
