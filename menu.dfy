/** How the controller reads the operator's answers: the main-menu choice,
    `set_mode`'s mode choice and `set_set_point`'s value. */
module Menu {
  import opened Wrappers
  import opened Text
  import opened Floats
  import opened Protocol

  /** What the menus put in place of `int(text) - 1` when `int` rejects the text. */
  const RejectedIndex: int := 99

  /** The set-point the controller starts with, and the one a change of mode restores. */
  const DefaultSetPoint: int := 1000

  /** `set_set_point` lowers any larger value to this, the most a 16-bit field holds. */
  const MaxSetPoint: int := 65535

  /** `int(text) - 1`, or `RejectedIndex` when `int` raises `ValueError`. */
  function MenuIndex(text: string): int {
    match ParseInt(text)
    case Some(n) => n - 1
    case None => RejectedIndex
  }

  /** `set_mode`: the mode the operator picked, or None for the `-99` sentinel
      (text that is not an integer, or an integer outside 1 to 4). */
  function ChooseMode(answer: string): (r: Option<Mode>)
    ensures r == Some(CC) <==> ParseInt(answer) == Some(1)
    ensures r == Some(CV) <==> ParseInt(answer) == Some(2)
    ensures r == Some(CP) <==> ParseInt(answer) == Some(3)
    ensures r == Some(CR) <==> ParseInt(answer) == Some(4)
  {
    var i := MenuIndex(answer);
    if i == 0 then Some(CC)
    else if i == 1 then Some(CV)
    else if i == 2 then Some(CP)
    else if i == 3 then Some(CR)
    else None
  }

  /** Typing the number printed beside a mode in the menu picks that mode
      (1 for constant current up to 4 for constant resistance); any other
      number picks none. */
  lemma ChooseModeOfNumber(v: int)
    ensures 1 <= v <= 4 ==> ChooseMode(IntToString(v)).Some? && ChooseMode(IntToString(v)).value.Index() == v - 1
    ensures !(1 <= v <= 4) ==> ChooseMode(IntToString(v)) == None
  {
    ParseIntOfIntToString(v);
    if |NatToString(Abs(v))| <= MaxStrDigits {
      ChooseModeOfParsed(IntToString(v), v);
    }
  }

  lemma ChooseModeOfParsed(answer: string, v: int)
    requires ParseInt(answer) == Some(v)
    ensures 1 <= v <= 4 ==> ChooseMode(answer).Some? && ChooseMode(answer).value.Index() == v - 1
    ensures !(1 <= v <= 4) ==> ChooseMode(answer) == None
  {
  }

  /** Text without a digit never picks a mode. */
  lemma ChooseModeNeedsDigit(answer: string)
    requires forall i :: 0 <= i < |answer| ==> !IsDigit(answer[i])
    ensures ChooseMode(answer) == None
  {
    ParseIntNeedsDigit(answer);
  }

  /** The set-point as `set_set_point` returns it: an integer, or the raw
      text when `int` rejected it (the `except ValueError` branch only prints
      a message and returns what was read). */
  datatype SetPointEntry = Number(value: int) | Raw(text: string)

  /** `set_set_point`: the answer read as an integer and capped at
      `MaxSetPoint`; there is no lower bound. */
  function ReadSetPoint(answer: string): (r: SetPointEntry)
    ensures r.Number? <==> ParseInt(answer).Some?
    ensures r.Raw? ==> r.text == answer
    ensures r.Number? ==> r.value <= MaxSetPoint
    ensures r.Number? && ParseInt(answer).value <= MaxSetPoint ==> r.value == ParseInt(answer).value
    ensures r.Number? && ParseInt(answer).value > MaxSetPoint ==> r.value == MaxSetPoint
  {
    match ParseInt(answer)
    case Some(n) => Number(if n > MaxSetPoint then MaxSetPoint else n)
    case None => Raw(answer)
  }

  /** Typing a number in decimal sets exactly that number, or the cap when it
      is larger; a number of more than `MaxStrDigits` digits is rejected by
      `int` and kept as text. */
  lemma ReadSetPointOfNumber(v: int)
    ensures ReadSetPoint(IntToString(v)) ==
      if |NatToString(Abs(v))| <= MaxStrDigits then Number(if v > MaxSetPoint then MaxSetPoint else v)
      else Raw(IntToString(v))
  {
    ParseIntOfIntToString(v);
  }

  /** Typing the set-point that is shown (`%u`) again leaves it unchanged. */
  lemma ReadSetPointStable(answer: string)
    requires ReadSetPoint(answer).Number?
    ensures ReadSetPoint(IntToString(ReadSetPoint(answer).value)) == ReadSetPoint(answer)
  {
    var v := ReadSetPoint(answer).value;
    if v == ParseInt(answer).value {
      ParsedWithinLimit(answer);
    } else {
      assert Abs(v) == 65535;
      NatToStringBelow(65535, 5);
    }
    ReadSetPointOfNumber(v);
  }

  /** The options of the main menu, after the exit choice `x` has been handled. */
  datatype Choice = ModeMenu | SetPointMenu | ActivateLoad | NoOption

  /** The main menu's choice: `int(select) - 1` is 0, 1 or 2 for the three options. */
  function MainChoice(select: string): (c: Choice)
    ensures c == ModeMenu <==> ParseInt(select) == Some(1)
    ensures c == SetPointMenu <==> ParseInt(select) == Some(2)
    ensures c == ActivateLoad <==> ParseInt(select) == Some(3)
  {
    var i := MenuIndex(select);
    if i == 0 then ModeMenu
    else if i == 1 then SetPointMenu
    else if i == 2 then ActivateLoad
    else NoOption
  }
}
