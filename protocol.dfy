/** The instrument's command lines: `enable_load`, `disable_load`, the
    handshake and the telemetry request, and a decoder for the command
    table that states what each written line means. */
module Protocol {
  import opened Wrappers
  import opened Text
  import opened Floats

  /** The operating modes; `Index` is the source's numbering (`MODE_CC` = 0
      up to `MODE_CR` = 3). */
  datatype Mode = CC | CV | CP | CR {
    function Index(): (i: nat)
      ensures i < 4
    {
      match this
      case CC => 0
      case CV => 1
      case CP => 2
      case CR => 3
    }
  }

  /** The commands of the instrument's protocol. */
  datatype Command =
    | Wake                              // "!", sent once, without a line terminator
    | SelectMode(mode: Mode)            // "M0" (CC), "M3" (CV), "M1" (CP), "M2" (CR)
    | SetPoint(mode: Mode, value: int)  // "c" (CC), "v" (CV), "w" (CP), "r" (CR) and the value
    | Activate                          // "R"
    | Deactivate                        // "S"
    | RequestData                       // "D"

  const Terminator: string := "\r\n"
  const Handshake: string := "!"
  const ActivateLine: string := "R\r\n"
  const DeactivateLine: string := "S\r\n"
  const RequestDataLine: string := "D\r\n"

  /** Whether `enable_load` raises: in constant resistance mode its message
      shows `set_point * 0.1`, which raises `OverflowError` when the
      set-point is too large for a float. */
  predicate EnableOverflows(mode: Mode, setPoint: int) {
    mode == CR && !FitsFloat(setPoint)
  }

  /** `enable_load(mode, set_point, ser)`: the lines it writes, in order. The
      value is written with `%u`, so a negative set-point keeps its sign.
      When it raises, only the mode select has been written. */
  function EnableLog(mode: Mode, setPoint: int): seq<string> {
    var value := IntToString(setPoint);
    if EnableOverflows(mode, setPoint) then ["M2\r\n"]
    else
      var modeLines :=
        match mode
        case CC => ["M0\r\n", "c" + value + "\r\n"]
        case CV => ["M3\r\n", "v" + value + "\r\n"]
        case CP => ["M1\r\n", "w" + value + "\r\n"]
        case CR => ["M2\r\n", "r" + value + "\r\n"];
      modeLines + [ActivateLine]
  }

  /** A command line proper: a non-empty body followed by the terminator. */
  predicate Terminated(line: string) {
    |line| >= 3 && line[|line| - 2..] == Terminator
  }

  /** The command a written line stands for, following the instrument's
      command table; None for a line outside it. This is the instrument's
      side of the link, not code of the controller: the reference the
      controller's output is checked against. */
  function ParseWire(line: string): Option<Command> {
    if line == Handshake then Some(Wake)
    else if |line| < 3 || line[|line| - 2..] != Terminator then None
    else
      var body := line[..|line| - 2];
      if body == "M0" then Some(SelectMode(CC))
      else if body == "M1" then Some(SelectMode(CP))
      else if body == "M2" then Some(SelectMode(CR))
      else if body == "M3" then Some(SelectMode(CV))
      else if body == "R" then Some(Activate)
      else if body == "S" then Some(Deactivate)
      else if body == "D" then Some(RequestData)
      else ParseSetPoint(body)
  }

  function ParseSetPoint(body: string): Option<Command>
    requires |body| >= 1
  {
    match (body[0], Literal(body[1..]))
    case ('c', Some(n)) => Some(SetPoint(CC, n))
    case ('v', Some(n)) => Some(SetPoint(CV, n))
    case ('w', Some(n)) => Some(SetPoint(CP, n))
    case ('r', Some(n)) => Some(SetPoint(CR, n))
    case _ => None
  }

  /** The fixed lines mean the commands they are named after. */
  lemma FixedLines()
    ensures ParseWire(Handshake) == Some(Wake)
    ensures ParseWire(ActivateLine) == Some(Activate)
    ensures ParseWire(DeactivateLine) == Some(Deactivate)
    ensures ParseWire(RequestDataLine) == Some(RequestData)
  {
    assert ActivateLine[..1] == "R";
    assert DeactivateLine[..1] == "S";
    assert RequestDataLine[..1] == "D";
  }

  /** A line whose body starts with none of the fixed commands' letters is read as a set-point. */
  lemma ParseWireSetPoint(body: string)
    requires |body| >= 1 && body[0] !in {'M', 'R', 'S', 'D'}
    ensures ParseWire(body + Terminator) == ParseSetPoint(body)
  {
    var line := body + Terminator;
    assert line[|line| - 2..] == Terminator;
    assert line[..|line| - 2] == body;
    assert line != Handshake by { assert |line| >= 3; }
  }

  lemma SetPointBody(letter: char, v: int) returns (body: string)
    ensures body == [letter] + IntToString(v)
    ensures |body| >= 2 && body[0] == letter && Literal(body[1..]) == Some(v)
  {
    body := [letter] + IntToString(v);
    assert body[1..] == IntToString(v);
    LiteralOfIntToString(v);
  }

  lemma SetPointLine(letter: char, mode: Mode, v: int)
    requires || (letter == 'c' && mode == CC) || (letter == 'v' && mode == CV)
             || (letter == 'w' && mode == CP) || (letter == 'r' && mode == CR)
    ensures ParseWire([letter] + IntToString(v) + Terminator) == Some(SetPoint(mode, v))
  {
    var body := SetPointBody(letter, v);
    assert ParseSetPoint(body) == Some(SetPoint(mode, v));
    ParseWireSetPoint(body);
  }

  lemma ModeLine(mode: Mode, setPoint: int)
    ensures ParseWire(EnableLog(mode, setPoint)[0]) == Some(SelectMode(mode))
  {
    var line := EnableLog(mode, setPoint)[0];
    match mode {
      case CC => assert line == "M0\r\n" && line[..2] == "M0";
      case CV => assert line == "M3\r\n" && line[..2] == "M3";
      case CP => assert line == "M1\r\n" && line[..2] == "M1";
      case CR => assert line == "M2\r\n" && line[..2] == "M2";
    }
  }

  lemma ValueLine(mode: Mode, setPoint: int)
    requires !EnableOverflows(mode, setPoint)
    ensures var line := EnableLog(mode, setPoint)[1];
            Terminated(line) && ParseWire(line) == Some(SetPoint(mode, setPoint))
  {
    var line := EnableLog(mode, setPoint)[1];
    var value := IntToString(setPoint);
    match mode {
      case CC => assert line == ['c'] + value + Terminator; SetPointLine('c', CC, setPoint);
      case CV => assert line == ['v'] + value + Terminator; SetPointLine('v', CV, setPoint);
      case CP => assert line == ['w'] + value + Terminator; SetPointLine('w', CP, setPoint);
      case CR => assert line == ['r'] + value + Terminator; SetPointLine('r', CR, setPoint);
    }
    assert line[|line| - 2..] == Terminator;
  }

  /** Activation writes exactly three terminated lines: the mode select
      for `mode`, the set-point command for `mode` carrying `setPoint`, and
      the activate command, in that order. When it raises, it has written
      only the mode select. */
  lemma EnableLogCommands(mode: Mode, setPoint: int)
    ensures var log := EnableLog(mode, setPoint);
            && |log| == (if EnableOverflows(mode, setPoint) then 1 else 3)
            && Terminated(log[0]) && ParseWire(log[0]) == Some(SelectMode(mode))
            && (!EnableOverflows(mode, setPoint) ==>
                 && Terminated(log[1]) && Terminated(log[2])
                 && ParseWire(log[1]) == Some(SetPoint(mode, setPoint))
                 && ParseWire(log[2]) == Some(Activate))
  {
    var log := EnableLog(mode, setPoint);
    ModeLine(mode, setPoint);
    assert log[0][|log[0]| - 2..] == Terminator;
    if !EnableOverflows(mode, setPoint) {
      ValueLine(mode, setPoint);
      FixedLines();
      assert log[2] == ActivateLine;
    }
  }

  /** Constant resistance at minus ten to the 309th power writes only the
      mode select before `enable_load` raises. */
  lemma ResistanceOverflowExample()
    ensures EnableLog(CR, -(Pow10(309) as int)) == ["M2\r\n"]
  {
    Pow10Of309();
    assert !FitsFloat(-(Pow10(309) as int));
  }

  /** Constant resistance at 150 (tenths of an ohm) is sent as `M2`, `r150`, `R`. */
  lemma ResistanceExample()
    ensures EnableLog(CR, 150) == ["M2\r\n", "r150\r\n", "R\r\n"]
  {
    assert DigitChar(1) == '1' && DigitChar(5) == '5' && DigitChar(0) == '0';
    assert NatToString(1) == "1";
    assert NatToString(15) == NatToString(1) + [DigitChar(5)] == "15";
    assert NatToString(150) == NatToString(15) + [DigitChar(0)] == "150";
    assert IntToString(150) == "150";
    assert "r" + "150" + "\r\n" == "r150\r\n";
  }
}
