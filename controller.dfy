/** `main`: the menu loop that holds the operating mode and the set-point,
    talks to the instrument over the serial port, and shuts the load off on
    every way out. The loop is specified by `Step` and `Run` on values, and
    carried out imperatively by `MainLoop` over a `SerialPort` object. */
module Controller {
  import opened Wrappers
  import opened Text
  import opened Floats
  import opened Protocol
  import opened Telemetry
  import opened Menu

  /** `n` copies of `x`. */
  function Repeat<T>(x: T, n: nat): (r: seq<T>)
    ensures |r| == n && forall k :: 0 <= k < n ==> r[k] == x
  {
    if n == 0 then [] else Repeat(x, n - 1) + [x]
  }

  // ---------------------------------------------------------------------
  // What the instrument is told

  /** The commands a sequence of written lines stands for, or None when one
      of the lines is not a command. */
  function ReadLog(log: seq<string>): Option<seq<Command>> {
    if log == [] then Some([])
    else
      match (ParseWire(log[0]), ReadLog(log[1..]))
      case (Some(c), Some(cs)) => Some([c] + cs)
      case _ => None
  }

  function Combine(x: Option<seq<Command>>, y: Option<seq<Command>>): Option<seq<Command>> {
    if x.Some? && y.Some? then Some(x.value + y.value) else None
  }

  /** Reading a log is reading its two halves. */
  lemma {:induction false} ReadLogAppend(a: seq<string>, b: seq<string>)
    ensures ReadLog(a + b) == Combine(ReadLog(a), ReadLog(b))
  {
    if a == [] {
      assert a + b == b;
      if ReadLog(b).Some? {
        assert [] + ReadLog(b).value == ReadLog(b).value;
      }
    } else {
      assert (a + b)[0] == a[0] && (a + b)[1..] == a[1..] + b;
      ReadLogAppend(a[1..], b);
      var c, tail, rest := ParseWire(a[0]), ReadLog(a[1..]), ReadLog(b);
      if c.Some? && tail.Some? && rest.Some? {
        assert ReadLog(a + b) == Some([c.value] + (tail.value + rest.value));
        assert [c.value] + (tail.value + rest.value) == [c.value] + tail.value + rest.value;
      }
    }
  }

  lemma ReadLogLine(line: string)
    ensures ReadLog([line]) == if ParseWire(line).Some? then Some([ParseWire(line).value]) else None
  {
    assert [line][0] == line && [line][1..] == [];
    if ParseWire(line).Some? {
      assert [ParseWire(line).value] + [] == [ParseWire(line).value];
    }
  }

  /** Whether the load is switched on once the instrument has obeyed `cmds`:
      the last activate or deactivate command decides; initially it is off.
      This models the instrument's state, not code of the controller. */
  function LoadOn(cmds: seq<Command>): bool {
    if cmds == [] then false
    else
      var last := cmds[|cmds| - 1];
      if last == Activate then true
      else if last == Deactivate then false
      else LoadOn(cmds[..|cmds| - 1])
  }

  /** Telemetry requests do not switch the load on or off. */
  lemma {:induction false} LoadOnRequests(cmds: seq<Command>, n: nat)
    ensures LoadOn(cmds + Repeat(RequestData, n)) == LoadOn(cmds)
  {
    if n == 0 {
      assert cmds + Repeat(RequestData, n) == cmds;
    } else {
      var prefix := cmds + Repeat(RequestData, n - 1);
      assert cmds + Repeat(RequestData, n) == prefix + [RequestData];
      assert (prefix + [RequestData])[..|prefix|] == prefix;
      LoadOnRequests(cmds, n - 1);
    }
  }

  lemma {:induction false} ReadLogRequests(n: nat)
    ensures ReadLog(Repeat(RequestDataLine, n)) == Some(Repeat(RequestData, n))
  {
    if n > 0 {
      ReadLogRequests(n - 1);
      ReadLogAppend(Repeat(RequestDataLine, n - 1), [RequestDataLine]);
      FixedLines();
      ReadLogLine(RequestDataLine);
    }
  }

  /** What `enable_load` tells the instrument: select the mode, set the
      set-point, switch the load on; only the mode select when the
      resistance set-point is too large to scale as a float. */
  function EnableCommands(mode: Mode, setPoint: int): seq<Command> {
    if EnableOverflows(mode, setPoint) then [SelectMode(mode)]
    else [SelectMode(mode), SetPoint(mode, setPoint), Activate]
  }

  /** What the instrument is told by one activation (option 3): what
      `enable_load` tells it, `n` telemetry requests, switch the load off. */
  function SessionCommands(mode: Mode, setPoint: int, n: nat): seq<Command> {
    EnableCommands(mode, setPoint) + Repeat(RequestData, n) + [Deactivate]
  }

  lemma ReadThreeLines(l0: string, l1: string, l2: string, c0: Command, c1: Command, c2: Command)
    requires ParseWire(l0) == Some(c0) && ParseWire(l1) == Some(c1) && ParseWire(l2) == Some(c2)
    ensures ReadLog([l0, l1, l2]) == Some([c0, c1, c2])
  {
    ReadLogLine(l0);
    ReadLogLine(l1);
    ReadLogLine(l2);
    ReadLogAppend([l0], [l1]);
    ReadLogAppend([l0, l1], [l2]);
    assert [l0] + [l1] == [l0, l1] && [l0, l1] + [l2] == [l0, l1, l2];
    assert [c0] + [c1] == [c0, c1] && [c0, c1] + [c2] == [c0, c1, c2];
  }

  lemma ReadEnableLog(mode: Mode, setPoint: int)
    ensures ReadLog(EnableLog(mode, setPoint)) == Some(EnableCommands(mode, setPoint))
  {
    var log := EnableLog(mode, setPoint);
    EnableLogCommands(mode, setPoint);
    if EnableOverflows(mode, setPoint) {
      ReadLogLine(log[0]);
      assert log == [log[0]];
    } else {
      ReadThreeLines(log[0], log[1], log[2], SelectMode(mode), SetPoint(mode, setPoint), Activate);
      assert log == [log[0], log[1], log[2]];
    }
  }

  /** The lines one activation writes. */
  function SessionLog(mode: Mode, setPoint: int, n: nat): seq<string> {
    EnableLog(mode, setPoint) + Repeat(RequestDataLine, n) + [DeactivateLine]
  }

  /** Every line an activation writes is a command, and together they are
      exactly the session's commands. */
  lemma ReadSessionLog(mode: Mode, setPoint: int, n: nat)
    ensures ReadLog(SessionLog(mode, setPoint, n)) == Some(SessionCommands(mode, setPoint, n))
  {
    ReadEnableLog(mode, setPoint);
    ReadLogRequests(n);
    FixedLines();
    ReadLogLine(DeactivateLine);
    ReadLogAppend(EnableLog(mode, setPoint), Repeat(RequestDataLine, n));
    ReadLogAppend(EnableLog(mode, setPoint) + Repeat(RequestDataLine, n), [DeactivateLine]);
  }

  /** While live data is shown the load is on: after activation and any
      number of telemetry requests, whatever came before. */
  lemma LoadOnWhilePolling(before: seq<Command>, mode: Mode, setPoint: int, k: nat)
    ensures LoadOn(before + [SelectMode(mode), SetPoint(mode, setPoint), Activate] + Repeat(RequestData, k))
  {
    var on := before + [SelectMode(mode), SetPoint(mode, setPoint), Activate];
    LoadOnRequests(on, k);
  }

  /** After an activation, whatever came before, the load is off again. */
  lemma LoadOffAfterSession(before: seq<Command>, mode: Mode, setPoint: int, n: nat)
    ensures !LoadOn(before + SessionCommands(mode, setPoint, n))
  {
    var all := before + SessionCommands(mode, setPoint, n);
    assert all[|all| - 1] == Deactivate;
  }

  // ---------------------------------------------------------------------
  // The menu loop on values

  /** `main`'s variables between two menu prompts: `mode`, `set_point`, and
      the serial port, as the lines written to it so far and whether it is open. */
  datatype State = State(mode: Mode, setPoint: SetPointEntry, written: seq<string>, isOpen: bool)

  /** What happens at one menu prompt: the operator's choice, the answer to
      the sub-menu it opens (mode or set-point), and the instrument's replies
      to the telemetry requests should it activate the load; or Ctrl+C. */
  datatype Action =
    | Choose(select: string, answer: string, replies: seq<string>)
    | Interrupt

  /** `main` after opening the port: constant current at 1000, the wake-up
      character written. When the port does not open, `ser` is never bound
      and the exception handler itself fails: nothing is written. */
  function Start(portOpens: bool): State {
    State(CC, Number(DefaultSetPoint), if portOpens then [Handshake] else [], portOpens)
  }

  /** Every way out of the loop: write the deactivate command, close the port. */
  function Shutdown(s: State): State {
    s.(written := s.written + [DeactivateLine], isOpen := false)
  }

  /** Option 1: a valid mode that differs from the current one becomes the
      mode and restores the default set-point; anything else changes nothing. */
  function ChangeMode(s: State, answer: string): State {
    match ChooseMode(answer)
    case Some(m) => if m != s.mode then s.(mode := m, setPoint := Number(DefaultSetPoint)) else s
    case None => s
  }

  /** Option 3: `enable_load`, `show_live_data`, `disable_load`. A
      resistance set-point too large for a float makes `enable_load` raise
      `OverflowError` after the mode select; a malformed telemetry line
      escapes `show_live_data`. Either way `main`'s handler then writes the
      deactivate command and closes the port. */
  function Session(s: State, replies: seq<string>): State
    requires s.setPoint.Number?
  {
    if EnableOverflows(s.mode, s.setPoint.value) then
      s.(written := s.written + SessionLog(s.mode, s.setPoint.value, 0), isOpen := false)
    else
      var live := LiveData(Decoded(replies, s.mode));
      s.(written := s.written + SessionLog(s.mode, s.setPoint.value, live.cycles), isOpen := !live.failed)
  }

  /** One pass of the menu loop, from the menu prompt to the next one. A
      set-point left as text by option 2 makes the next `print_menu` raise
      `TypeError` at its `%u` before it prompts, so that pass ends the
      program through the handler at once; an open port therefore always
      holds a numeric set-point. */
  function Step(s: State, a: Action): (t: State)
    requires s.isOpen && s.setPoint.Number?
    ensures t.isOpen ==> t.setPoint.Number?
  {
    if a.Interrupt? || a.select == "x" then Shutdown(s)
    else
      match MainChoice(a.select)
      case ModeMenu => ChangeMode(s, a.answer)
      case SetPointMenu =>
        var entry := ReadSetPoint(a.answer);
        if entry.Raw? then Shutdown(s.(setPoint := entry)) else s.(setPoint := entry)
      case ActivateLoad => Session(s, a.replies)
      case NoOption => s
  }

  /** The loop over a run of prompts; it ends when the port is closed. */
  function Run(s: State, actions: seq<Action>): (t: State)
    requires s.isOpen ==> s.setPoint.Number?
    ensures t.isOpen ==> t.setPoint.Number?
    decreases |actions|
  {
    if actions == [] || !s.isOpen then s else Run(Step(s, actions[0]), actions[1..])
  }

  /** The safety of the controller at every menu prompt and after it ends:
      everything written is the wake-up character followed by commands, the
      instrument's load is off, a closed port was last told to deactivate,
      and while the port is open the set-point is a number. */
  predicate Safe(s: State) {
    && (s.isOpen ==> s.written != [] && s.setPoint.Number?)
    && (s.written != [] ==> s.written[0] == Handshake)
    && (!s.isOpen && s.written != [] ==> s.written[|s.written| - 1] == DeactivateLine)
    && ReadLog(s.written).Some?
    && !LoadOn(ReadLog(s.written).value)
  }

  /** `x` is not one of the numbered options. */
  lemma ExitIsNoOption()
    ensures MainChoice("x") == NoOption
  {
    ParseIntNeedsDigit("x");
  }

  /** Exit and Ctrl+C at the prompt end the program the same way:
      deactivate, then close, with the mode and set-point as they were. */
  lemma ExitRule(s: State, a: Action)
    requires s.isOpen && s.setPoint.Number? && (a.Interrupt? || a.select == "x")
    ensures Step(s, a) == State(s.mode, s.setPoint, s.written + [DeactivateLine], false)
  {
  }

  /** Option 1 opens `set_mode` and nothing else. */
  lemma StepModeMenu(s: State, a: Action)
    requires s.isOpen && s.setPoint.Number? && a.Choose? && MainChoice(a.select) == ModeMenu
    ensures Step(s, a) == ChangeMode(s, a.answer)
  {
    ExitIsNoOption();
  }

  /** Option 2 stores what `set_set_point` returns. A number leaves the
      program at the menu with nothing written; text that `int` rejects ends
      it in the same pass: deactivate, then close. */
  lemma StepSetPointMenu(s: State, a: Action)
    requires s.isOpen && s.setPoint.Number? && a.Choose? && MainChoice(a.select) == SetPointMenu
    ensures var t := Step(s, a);
            && t.mode == s.mode && t.setPoint == ReadSetPoint(a.answer)
            && (ParseInt(a.answer).Some? ==> t.written == s.written && t.isOpen)
            && (ParseInt(a.answer).None? ==> t.written == s.written + [DeactivateLine] && !t.isOpen)
  {
    ExitIsNoOption();
  }

  /** Option 3 runs one activation with the replies the instrument gives. */
  lemma StepActivate(s: State, a: Action)
    requires s.isOpen && s.setPoint.Number? && a.Choose? && MainChoice(a.select) == ActivateLoad
    ensures Step(s, a) == Session(s, a.replies)
  {
    ExitIsNoOption();
  }

  /** Any other choice only prints an empty line. */
  lemma StepNoOption(s: State, a: Action)
    requires s.isOpen && s.setPoint.Number? && a.Choose? && a.select != "x" && MainChoice(a.select) == NoOption
    ensures Step(s, a) == s
  {
  }

  /** The mode rule of option 1: the mode changes exactly when the answer
      names a valid mode other than the current one, and then the set-point
      returns to the default; nothing is written. */
  lemma ModeRule(s: State, answer: string)
    ensures var t := ChangeMode(s, answer);
            && t.written == s.written && t.isOpen == s.isOpen
            && (t.mode != s.mode <==> ChooseMode(answer).Some? && ChooseMode(answer).value != s.mode)
            && (t.mode != s.mode ==> t.mode == ChooseMode(answer).value && t.setPoint == Number(DefaultSetPoint))
            && (t.mode == s.mode ==> t.setPoint == s.setPoint)
  {
  }

  /** The number of telemetry requests one activation makes: none when
      `enable_load` raised, else as many cycles as live data ran. */
  function SessionCycles(s: State, replies: seq<string>): nat
    requires s.setPoint.Number?
  {
    if EnableOverflows(s.mode, s.setPoint.value) then 0 else LiveData(Decoded(replies, s.mode)).cycles
  }

  /** An activation tells the instrument exactly the session's commands,
      keeps the mode and set-point, and closes the port exactly when the
      resistance set-point overflows a float or one of the replies read was
      a malformed telemetry line. */
  lemma SessionRule(s: State, replies: seq<string>)
    requires s.setPoint.Number? && ReadLog(s.written).Some?
    ensures var t := Session(s, replies);
            var n := SessionCycles(s, replies);
            && t.mode == s.mode && t.setPoint == s.setPoint
            && ReadLog(t.written) == Some(ReadLog(s.written).value + SessionCommands(s.mode, s.setPoint.value, n))
            && (!t.isOpen <==> EnableOverflows(s.mode, s.setPoint.value)
                               || exists k :: 0 <= k < |replies| && DecodeLine(replies[k], s.mode).Malformed?)
  {
    var n := SessionCycles(s, replies);
    ReadSessionLog(s.mode, s.setPoint.value, n);
    ReadLogAppend(s.written, SessionLog(s.mode, s.setPoint.value, n));
    SessionFailure(replies, s.mode);
  }

  /** Live data ends in an exception exactly when some reply is malformed. */
  lemma SessionFailure(replies: seq<string>, mode: Mode)
    ensures LiveData(Decoded(replies, mode)).failed
            <==> exists k :: 0 <= k < |replies| && DecodeLine(replies[k], mode).Malformed?
  {
    var polls := Decoded(replies, mode);
    LiveDataPolls(polls);
    if exists k :: 0 <= k < |replies| && DecodeLine(replies[k], mode).Malformed? {
      var k :| 0 <= k < |replies| && DecodeLine(replies[k], mode).Malformed?;
      DecodedAt(replies, mode, k);
    }
    if exists k :: 0 <= k < |polls| && polls[k].Malformed? {
      var k :| 0 <= k < |polls| && polls[k].Malformed?;
      DecodedAt(replies, mode, k);
    }
  }

  lemma StartSafe(portOpens: bool)
    ensures Safe(Start(portOpens))
  {
    FixedLines();
    ReadLogLine(Handshake);
  }

  lemma ShutdownSafe(s: State)
    requires Safe(s) && s.isOpen
    ensures Safe(Shutdown(s))
  {
    FixedLines();
    ReadLogLine(DeactivateLine);
    ReadLogAppend(s.written, [DeactivateLine]);
    var cmds := ReadLog(s.written).value + [Deactivate];
    assert cmds[|cmds| - 1] == Deactivate;
  }

  lemma SessionSafe(s: State, replies: seq<string>)
    requires Safe(s) && s.isOpen && s.setPoint.Number?
    ensures Safe(Session(s, replies))
  {
    var n := SessionCycles(s, replies);
    var log := SessionLog(s.mode, s.setPoint.value, n);
    ReadSessionLog(s.mode, s.setPoint.value, n);
    ReadLogAppend(s.written, log);
    LoadOffAfterSession(ReadLog(s.written).value, s.mode, s.setPoint.value, n);
    var t := Session(s, replies);
    assert t.written[|t.written| - 1] == DeactivateLine;
  }

  /** Each pass of the loop keeps the controller safe. */
  lemma StepKeepsSafe(s: State, a: Action)
    requires Safe(s) && s.isOpen
    ensures Safe(Step(s, a))
  {
    if a.Interrupt? || a.select == "x" {
      ExitRule(s, a);
      ShutdownSafe(s);
    } else {
      match MainChoice(a.select) {
        case ModeMenu =>
          StepModeMenu(s, a);
          ModeRule(s, a.answer);
        case SetPointMenu =>
          StepSetPointMenu(s, a);
          ShutdownSafe(s);
        case ActivateLoad =>
          StepActivate(s, a);
          SessionSafe(s, a.replies);
        case NoOption =>
          StepNoOption(s, a);
      }
    }
  }

  lemma {:induction false} RunKeepsSafe(s: State, actions: seq<Action>)
    requires Safe(s)
    ensures Safe(Run(s, actions))
    decreases |actions|
  {
    if actions != [] && s.isOpen {
      StepKeepsSafe(s, actions[0]);
      RunKeepsSafe(Step(s, actions[0]), actions[1..]);
    }
  }

  /** Whatever the operator and the instrument do, the controller is safe at
      every prompt and when it has ended. */
  lemma ControllerSafe(portOpens: bool, actions: seq<Action>)
    ensures Safe(Run(Start(portOpens), actions))
  {
    StartSafe(portOpens);
    RunKeepsSafe(Start(portOpens), actions);
  }

  /** Choosing option 2 and answering with text ends the program in that
      very pass: `!` then `S` written, the port closed, the text kept. */
  lemma TextSetPointEndsAtOnce()
    ensures Run(Start(true), [Choose("2", "abc", [])]) == State(CC, Raw("abc"), [Handshake, DeactivateLine], false)
  {
    ParseIntOfDigits("2");
    assert MainChoice("2") == SetPointMenu;
    ParseIntNeedsDigit("abc");
    var s := Start(true);
    var t := Step(s, Choose("2", "abc", []));
    assert t == State(CC, Raw("abc"), [Handshake, DeactivateLine], false);
    assert [Choose("2", "abc", [])][1..] == [];
  }

  /** Once the port is closed the program has ended: nothing further happens. */
  lemma RunAfterClose(s: State, actions: seq<Action>)
    requires !s.isOpen
    ensures Run(s, actions) == s
  {
  }

  /** Running two stretches of prompts is running them one after the other. */
  lemma {:induction false} RunAppend(s: State, first: seq<Action>, second: seq<Action>)
    requires s.isOpen ==> s.setPoint.Number?
    ensures Run(s, first + second) == Run(Run(s, first), second)
    decreases |first|
  {
    if first == [] {
      assert first + second == second;
    } else if s.isOpen {
      assert (first + second)[0] == first[0] && (first + second)[1..] == first[1..] + second;
      RunAppend(Step(s, first[0]), first[1..], second);
    } else {
      if second != [] {
        assert first + second != [];
      }
    }
  }

  // ---------------------------------------------------------------------
  // The menu loop on the serial port

  /** The open serial port: the lines written to it, in order, and whether
      it is still open. */
  class SerialPort {
    var written: seq<string>
    var isOpen: bool

    /** A port that `serial.Serial` opened: nothing written yet. */
    constructor ()
      ensures written == [] && isOpen
    {
      written := [];
      isOpen := true;
    }

    /** `ser.write`. */
    method Write(line: string)
      requires isOpen
      modifies this
      ensures written == old(written) + [line] && isOpen
    {
      written := written + [line];
    }

    /** `ser.close()`. */
    method Close()
      modifies this
      ensures written == old(written) && !isOpen
    {
      isOpen := false;
    }
  }

  /** `enable_load`: the mode select, the set-point and the activate
      command; `raised` when the resistance set-point makes the message that
      scales it by 0.1 raise `OverflowError` after the mode select. */
  method EnableLoad(mode: Mode, setPoint: int, ser: SerialPort) returns (raised: bool)
    requires ser.isOpen
    modifies ser
    ensures raised == EnableOverflows(mode, setPoint)
    ensures ser.written == old(ser.written) + EnableLog(mode, setPoint) && ser.isOpen
  {
    raised := false;
    var value := IntToString(setPoint);
    match mode {
      case CC =>
        ser.Write("M0\r\n");
        ser.Write("c" + value + "\r\n");
      case CV =>
        ser.Write("M3\r\n");
        ser.Write("v" + value + "\r\n");
      case CP =>
        ser.Write("M1\r\n");
        ser.Write("w" + value + "\r\n");
      case CR =>
        ser.Write("M2\r\n");
        if !FitsFloat(setPoint) {
          raised := true;
          return;
        }
        ser.Write("r" + value + "\r\n");
    }
    ser.Write(ActivateLine);
  }

  /** `disable_load`. */
  method DisableLoad(ser: SerialPort)
    requires ser.isOpen
    modifies ser
    ensures ser.written == old(ser.written) + [DeactivateLine] && ser.isOpen
  {
    ser.Write(DeactivateLine);
  }

  /** `show_live_data`: request telemetry, read and decode the reply, until
      the replies run out (the operator's Ctrl+C) or a malformed line raises. */
  method ShowLiveData(mode: Mode, ser: SerialPort, replies: seq<string>, ghost polls: seq<Poll>)
    returns (shown: seq<Poll>, cycles: nat, failed: bool)
    requires ser.isOpen && polls == Decoded(replies, mode)
    modifies ser
    ensures LiveResult(shown, cycles, failed) == LiveData(Decoded(replies, mode))
    ensures ser.written == old(ser.written) + Repeat(RequestDataLine, cycles) && ser.isOpen
  {
    shown, cycles, failed := [], 0, false;
    while cycles < |replies| && !failed
      invariant cycles <= |replies|
      invariant ser.isOpen && ser.written == old(ser.written) + Repeat(RequestDataLine, cycles)
      invariant failed ==> 1 <= cycles && polls[cycles - 1].Malformed?
      invariant |shown| == (if failed then cycles - 1 else cycles) && shown == polls[..|shown|]
      invariant forall k :: 0 <= k < |shown| ==> !shown[k].Malformed?
      decreases |replies| - cycles
    {
      var p := PollOnce(mode, ser, replies, cycles);
      if p.Malformed? {
        failed := true;
      } else {
        assert polls[..cycles + 1] == polls[..cycles] + [p];
        shown := shown + [p];
      }
      cycles := cycles + 1;
    }
    ShownPolls(polls, shown, cycles, failed);
  }

  /** One cycle of `show_live_data`: the telemetry request, then reply
      `i`, decoded in the mode in effect. */
  method PollOnce(mode: Mode, ser: SerialPort, replies: seq<string>, i: nat) returns (p: Poll)
    requires ser.isOpen && i < |replies|
    modifies ser
    ensures p == Decoded(replies, mode)[i]
    ensures ser.written == old(ser.written) + [RequestDataLine] && ser.isOpen
  {
    ser.Write(RequestDataLine);
    p := DecodeLine(replies[i], mode);
    DecodedAt(replies, mode, i);
  }

  lemma ShownPolls(polls: seq<Poll>, shown: seq<Poll>, cycles: nat, failed: bool)
    requires cycles <= |polls|
    requires !failed ==> cycles == |polls|
    requires failed ==> 1 <= cycles && polls[cycles - 1].Malformed?
    requires |shown| == (if failed then cycles - 1 else cycles) && shown == polls[..|shown|]
    requires forall k :: 0 <= k < |shown| ==> !shown[k].Malformed?
    ensures LiveResult(shown, cycles, failed) == LiveData(polls)
  {
    if failed {
      var n := cycles - 1;
      forall k | 0 <= k < n
        ensures !polls[k].Malformed?
      {
        assert polls[k] == shown[k];
      }
      LiveDataFirstMalformed(polls, n);
    } else {
      assert shown == polls;
      LiveDataAllShown(polls);
    }
  }

  /** Option 3 in `main`: `enable_load`, `show_live_data`, then
      `disable_load`; when either of the first two raised, the handler's
      deactivate and close. */
  method Activation(mode: Mode, setPoint: int, ser: SerialPort, replies: seq<string>)
    requires ser.isOpen
    modifies ser
    ensures var s := Session(State(mode, Number(setPoint), old(ser.written), true), replies);
            ser.written == s.written && ser.isOpen == s.isOpen
  {
    ghost var polls := Decoded(replies, mode);
    var raised := EnableLoad(mode, setPoint, ser);
    if raised {
      ser.Write(DeactivateLine);
      ser.Close();
      SessionLogAfter(old(ser.written), mode, setPoint, 0);
      return;
    }
    var shown, cycles, failed := ShowLiveData(mode, ser, replies, polls);
    if failed {
      ser.Write(DeactivateLine);
      ser.Close();
    } else {
      DisableLoad(ser);
    }
    SessionLogAfter(old(ser.written), mode, setPoint, cycles);
  }

  lemma SessionLogAfter(before: seq<string>, mode: Mode, setPoint: int, n: nat)
    ensures before + EnableLog(mode, setPoint) + Repeat(RequestDataLine, n) + [DeactivateLine]
            == before + SessionLog(mode, setPoint, n)
  {
  }

  /** One pass of `main`'s menu loop, changing its variables and the port as `Step` says. */
  method MenuPass(mode: Mode, setPoint: SetPointEntry, ser: SerialPort, a: Action)
    returns (newMode: Mode, newSetPoint: SetPointEntry)
    requires ser.isOpen && setPoint.Number?
    modifies ser
    ensures State(newMode, newSetPoint, ser.written, ser.isOpen)
            == Step(State(mode, setPoint, old(ser.written), true), a)
  {
    ghost var before := State(mode, setPoint, ser.written, true);
    newMode, newSetPoint := mode, setPoint;
    if a.Interrupt? || a.select == "x" {
      ExitRule(before, a);
      ser.Write(DeactivateLine);
      ser.Close();
    } else {
      match MainChoice(a.select) {
        case ModeMenu =>
          StepModeMenu(before, a);
          var chosen := ChooseMode(a.answer);
          if chosen.Some? && chosen.value != mode {
            newSetPoint := Number(DefaultSetPoint);
            newMode := chosen.value;
          }
        case SetPointMenu =>
          StepSetPointMenu(before, a);
          newSetPoint := ReadSetPoint(a.answer);
          if newSetPoint.Raw? {
            ser.Write(DeactivateLine);
            ser.Close();
          }
        case ActivateLoad =>
          StepActivate(before, a);
          Activation(mode, setPoint.value, ser, a.replies);
        case NoOption =>
          StepNoOption(before, a);
      }
    }
  }

  /** `main` once the port is open: the wake-up character, then the menu
      loop until the actions run out or the port is closed. */
  method MainLoop(ser: SerialPort, actions: seq<Action>) returns (mode: Mode, setPoint: SetPointEntry)
    requires ser.isOpen && ser.written == []
    modifies ser
    ensures State(mode, setPoint, ser.written, ser.isOpen) == Run(Start(true), actions)
  {
    mode, setPoint := CC, Number(DefaultSetPoint);
    ser.Write(Handshake);
    var i := 0;
    assert actions[i..] == actions && [] + [Handshake] == [Handshake];
    while i < |actions| && ser.isOpen
      invariant 0 <= i <= |actions|
      invariant ser.isOpen ==> setPoint.Number?
      invariant Run(State(mode, setPoint, ser.written, ser.isOpen), actions[i..]) == Run(Start(true), actions)
    {
      assert actions[i..][0] == actions[i] && actions[i..][1..] == actions[i + 1..];
      mode, setPoint := MenuPass(mode, setPoint, ser, actions[i]);
      i := i + 1;
    }
  }
}
