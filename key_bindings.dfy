/**
 * Key sequences on a spectrum chart: a per-chart map and a shared global map
 * from key strings to actions, with a null placeholder under the first
 * character of every registered key so that the first key of a two-key
 * sequence waits for the second; the key buffer, and the dispatch of what
 * was typed to a registered action or a built-in chart command.
 */
module KeyBindings {
  import opened Wrappers
  import opened Text

  /** A registered action; the chart code it runs is not part of this model. */
  datatype Action = Action(name: string)

  /** A key map: a key string to its action, or to the null placeholder (None). */
  type KeyMap = map<string, Option<Action>>

  /**
   * The built-in chart commands. Chart(key) stands for the chart call under
   * that two-key string (cursor, undo and redo, buffer, slice and view
   * commands); the others carry the argument the code computes.
   */
  datatype Command =
    | PickPeaks(single: bool)
    | Chart(key: string)
    | SetDim(axisName: string, dim: int)
    | FullDim(dim: int)
    | CenterDim(dim: int)
    | GotoMaxPlane
    | FirstPlane(dim: int)
    | LastPlane(dim: int)
    | SetPlane(plane: int)

  /** What a typed key does, besides storing it in or clearing the buffer. */
  datatype Outcome =
    | Focus
    | RunLocal(action: Action)
    | RunGlobal(action: Action, key: string)
    | Run(command: Command)
    | Alert(message: string)
    | Failed(error: Error)
    | Nothing

  /** One dispatch: its outcome and whether it clears the key buffer. */
  datatype Step = Step(outcome: Outcome, clear: bool)

  /** What the chart tells the key handler: how many datasets are active and the dimensions of its dataset. */
  datatype ChartView = ChartView(activeDatasets: nat, nDim: int)

  /**
   * The map after registering action under keyString: the key maps to the
   * action, its first character is present (a new placeholder unless it was
   * there already or is the key itself), and every other entry is kept. The
   * empty key has no first character: substring throws.
   */
  function Registered(m: KeyMap, keyString: string, action: Action): (r: Result<KeyMap>)
    ensures r.Err? <==> keyString == ""
    ensures r.Ok? ==> keyString in r.value && r.value[keyString] == Some(action) && keyString[..1] in r.value
    ensures r.Ok? ==> r.value.Keys == m.Keys + {keyString, keyString[..1]}
    ensures r.Ok? ==> forall k | k in m && k != keyString :: r.value[k] == m[k]
    ensures r.Ok? && keyString[..1] !in m && keyString != keyString[..1] ==> r.value[keyString[..1]] == None
  {
    if |keyString| == 0 then Err(IndexOutOfBounds("begin 0, end 1, length 0"))
    else
      var firstChar := keyString[..1];
      var withFirst := if firstChar in m then m else m[firstChar := None];
      Ok(withFirst[keyString := Some(action)])
  }

  /** The map shared by every chart (a static field in the source). */
  class GlobalKeyMap {
    var actions: KeyMap

    constructor()
      ensures actions == map[]
    {
      actions := map[];
    }

    /** registerGlobalKeyAction: the shared map becomes the registered map; on the empty key it throws and is unchanged. */
    method Register(keyString: string, action: Action) returns (err: Option<Error>)
      modifies this`actions
      ensures var r := Registered(old(actions), keyString, action);
        (r.Ok? ==> err.None? && actions == r.value) && (r.Err? ==> err == Some(r.error) && actions == old(actions))
    {
      var r := Registered(actions, keyString, action);
      if r.Ok? {
        actions := r.value;
        err := None;
      } else {
        err := Some(r.error);
      }
    }
  }

  /** The first keys of the built-in two-key commands, which the switch leaves in the buffer. */
  predicate WaitingKey(k: string) { |k| == 1 && k[0] in "acpusvj" }

  /** "aa" and "as": pick a peak at the mouse. */
  predicate PickKey(k: string) { |k| == 2 && k[0] == 'a' && k[1] in "as" }

  /** "c1" and "c3": clear the buffer only. */
  predicate ClearKey(k: string) { |k| == 2 && k[0] == 'c' && k[1] in "13" }

  /** The two-key commands that are one chart call each: cursors, undo and redo, buffer and slices, views. */
  predicate ChartKey(k: string)
  {
    |k| == 2 &&
    ((k[0] == 'c' && k[1] in "csar") || (k[0] == 'u' && k[1] in "ur")
     || (k[0] == 's' && k[1] in "cdvxy") || (k[0] == 'v' && k[1] in "cefiorspuw"))
  }

  /** "vx", "vy", "vz" and "va": set the dataset dimension shown on an axis. */
  predicate AxisKey(k: string) { |k| == 2 && k[0] == 'v' && k[1] in "xyza" }

  /** "jx", "jy" and "jz": jump along a dimension. */
  predicate JumpKey(k: string) { |k| == 2 && k[0] == 'j' && k[1] in "xyz" }

  /** Every prefix the built-in switch names. */
  predicate BuiltinKey(k: string)
  {
    WaitingKey(k) || PickKey(k) || ClearKey(k) || ChartKey(k) || AxisKey(k) || JumpKey(k)
  }

  /** The first two characters of the buffer, or all of it when shorter. */
  function ShortString(buffer: string): (s: string)
    ensures |s| == if |buffer| < 2 then |buffer| else 2
    ensures s == buffer[..|s|]
  {
    if |buffer| < 2 then buffer else buffer[..2]
  }

  /** Trimming a buffer whose first two characters are not whitespace keeps those two characters. */
  lemma {:induction false} TrimKeepsPrefix(buffer: string)
    requires |buffer| >= 2 && !IsJavaSpace(buffer[0]) && !IsJavaSpace(buffer[1])
    ensures |JavaTrim(buffer)| >= 2 && JavaTrim(buffer)[..2] == buffer[..2]
  {
    var left := TrimLeft(buffer, IsJavaSpace);
    assert left == buffer;
    assert !IsJavaSpace(buffer[1]);
  }

  /**
   * The dispatch of a buffer after the typed key was stored: its short
   * string is looked up in the chart's map, then in the global map (a
   * placeholder does nothing and keeps the buffer, an action runs and clears
   * it), and otherwise goes to the built-in commands.
   */
  function Dispatch(buffer: string, local: KeyMap, global: KeyMap, complete: bool, chart: ChartView): Step
  {
    var shortString := ShortString(buffer);
    if shortString in local then
      match local[shortString]
      case Some(action) => Step(RunLocal(action), true)
      case None => Step(Nothing, false)
    else if shortString in global then
      match global[shortString]
      case Some(action) => Step(RunGlobal(action, shortString), true)
      case None => Step(Nothing, false)
    else Builtin(shortString, buffer, complete, chart)
  }

  /**
   * The built-in switch on the short string; keyString in its cases is the
   * trimmed buffer. A first key waits; "aa" and "as" pick a peak when one
   * dataset is active and alert otherwise; the view-axis keys wait for a
   * digit; the jump keys take their dimension from the second key; an
   * unknown prefix clears the buffer.
   */
  function Builtin(shortString: string, buffer: string, complete: bool, chart: ChartView): Step
    requires shortString == ShortString(buffer)
  {
    if WaitingKey(shortString) then Step(Nothing, false)
    else if PickKey(shortString) then
      if chart.activeDatasets == 1 then Step(Run(PickPeaks(shortString == "as")), true)
      else Step(Alert("Must have one dataset displayed"), true)
    else if ClearKey(shortString) then Step(Nothing, true)
    else if ChartKey(shortString) then Step(Run(Chart(shortString)), true)
    else if AxisKey(shortString) then
      var keyString := JavaTrim(buffer);
      if |keyString| > 2 then
        if IsDigit(keyString[2]) && DigitValue(keyString[2]) - 1 < chart.nDim then
          Step(Run(SetDim(Upper(shortString[1..2]), DigitValue(keyString[2]) - 1)), true)
        else Step(Nothing, true)
      else Step(Nothing, false)
    else if JumpKey(shortString) then
      TrimKeepsPrefix(buffer);
      Jump(JavaTrim(buffer), complete)
    else Step(Nothing, true)
  }

  /** The dimension a jump key names: its second character counted from 'x'. */
  function JumpDim(keyString: string): int
    requires |keyString| >= 2
  {
    keyString[1] as int - 'x' as int
  }

  /**
   * The jump commands on the trimmed buffer "j" + axis + rest: full, max
   * plane, centre, first and last plane; otherwise, once the sequence is
   * complete, "jz" followed by digits goes to that plane.
   */
  function Jump(keyString: string, complete: bool): Step
    requires |keyString| >= 2
  {
    var iDim := JumpDim(keyString);
    var rest := keyString[2..];
    if rest == "f" then Step(Run(FullDim(iDim)), true)
    else if rest == "m" then Step(if iDim > 1 then Run(GotoMaxPlane) else Nothing, true)
    else if rest == "c" then Step(Run(CenterDim(iDim)), true)
    else if rest == "b" then Step(if iDim > 1 then Run(FirstPlane(2)) else Nothing, true)
    else if rest == "t" then Step(if iDim > 1 then Run(LastPlane(2)) else Nothing, true)
    else if |keyString| > 2 && complete then
      if iDim > 1 && keyString[..2] == "jz" && AllDigits(rest) then
        match ParseInt(rest)
        case Some(plane) => Step(Run(SetPlane(plane)), true)
        case None => Step(Failed(NumberFormat(rest)), false)
      else Step(Nothing, true)
    else Step(Nothing, false)
  }

  class KeyBindings {
    var keyActionMap: KeyMap
    /** The key monitor's buffer. */
    var keyString: string
    const global: GlobalKeyMap

    constructor(global: GlobalKeyMap)
      ensures keyActionMap == map[] && keyString == "" && this.global == global
    {
      keyActionMap := map[];
      keyString := "";
      this.global := global;
    }

    /** registerKeyAction: the chart's map becomes the registered map; on the empty key it throws and is unchanged. */
    method RegisterKeyAction(keyString: string, action: Action) returns (err: Option<Error>)
      modifies this`keyActionMap
      ensures var r := Registered(old(keyActionMap), keyString, action);
        (r.Ok? ==> err.None? && keyActionMap == r.value) && (r.Err? ==> err == Some(r.error) && keyActionMap == old(keyActionMap))
    {
      var r := Registered(keyActionMap, keyString, action);
      if r.Ok? {
        keyActionMap := r.value;
        err := None;
      } else {
        err := Some(r.error);
      }
    }

    /** deregisterKeyAction: removes that key only; a placeholder it put in stays. */
    method DeregisterKeyAction(keyString: string)
      modifies this`keyActionMap
      ensures keyActionMap == old(keyActionMap) - {keyString}
    {
      keyActionMap := keyActionMap - {keyString};
    }

    /**
     * keyTyped: a space typed into an empty buffer focuses the chart and
     * stores nothing; any other key is appended to the buffer, which is then
     * dispatched and cleared when the dispatch says so.
     */
    method KeyTyped(keyChar: string, complete: bool, chart: ChartView) returns (outcome: Outcome)
      modifies this`keyString
      ensures old(keyString) == "" && keyChar == " " ==> outcome == Focus && keyString == ""
      ensures !(old(keyString) == "" && keyChar == " ") ==>
        var step := Dispatch(old(keyString) + keyChar, keyActionMap, global.actions, complete, chart);
        outcome == step.outcome && keyString == (if step.clear then "" else old(keyString) + keyChar)
    {
      if keyChar == " " && keyString == "" {
        keyString := "";
        return Focus;
      }
      keyString := keyString + keyChar;
      var step := Dispatch(keyString, keyActionMap, global.actions, complete, chart);
      if step.clear {
        keyString := "";
      }
      outcome := step.outcome;
    }
  }

  /**
   * A two-key sequence registered on a chart whose first key had no action:
   * typing the first key into an empty buffer waits and keeps it, and typing
   * the second then runs the action and clears the buffer.
   */
  lemma {:induction false} TwoKeySequence(m: KeyMap, key: string, action: Action, global: KeyMap,
                                          complete: bool, chart: ChartView)
    requires |key| == 2 && (key[..1] !in m || m[key[..1]] == None)
    ensures var local := Registered(m, key, action).value;
      Dispatch(key[..1], local, global, complete, chart) == Step(Nothing, false)
      && Dispatch(key, local, global, complete, chart) == Step(RunLocal(action), true)
  {
    var local := Registered(m, key, action).value;
    assert ShortString(key[..1]) == key[..1];
    assert key[..1] != key;
    assert local[key[..1]] == None;
    assert ShortString(key) == key;
  }

  /** Deregistering a two-key sequence undoes its registration except for the first-key placeholder. */
  lemma {:induction false} DeregisterUndoesRegister(m: KeyMap, key: string, action: Action)
    requires |key| >= 2 && key !in m
    ensures Registered(m, key, action).value - {key} == if key[..1] in m then m else m[key[..1] := None]
  {
    var r := Registered(m, key, action).value;
    var expected := if key[..1] in m then m else m[key[..1] := None];
    assert key[..1] != key;
    assert (r - {key}).Keys == expected.Keys;
  }

  /** The chart's map shadows the global one: whatever is registered globally, a short string the chart maps dispatches the same. */
  lemma {:induction false} LocalShadowsGlobal(buffer: string, local: KeyMap, g1: KeyMap, g2: KeyMap,
                                              complete: bool, chart: ChartView)
    requires ShortString(buffer) in local
    ensures Dispatch(buffer, local, g1, complete, chart) == Dispatch(buffer, local, g2, complete, chart)
    ensures Dispatch(buffer, local, g1, complete, chart).clear <==> local[ShortString(buffer)].Some?
  {
  }

  /** A short string no map and no built-in command knows clears the buffer and does nothing. */
  lemma {:induction false} UnknownPrefixClears(buffer: string, local: KeyMap, global: KeyMap,
                                               complete: bool, chart: ChartView)
    requires ShortString(buffer) !in local && ShortString(buffer) !in global && !BuiltinKey(ShortString(buffer))
    ensures Dispatch(buffer, local, global, complete, chart) == Step(Nothing, true)
  {
  }

  /** A jump key no map claims goes to the jump commands on the trimmed buffer. */
  lemma {:induction false} DispatchJump(buffer: string, local: KeyMap, global: KeyMap, complete: bool, chart: ChartView)
    requires JumpKey(ShortString(buffer)) && ShortString(buffer) !in local && ShortString(buffer) !in global
    ensures |JavaTrim(buffer)| >= 2 && Dispatch(buffer, local, global, complete, chart) == Jump(JavaTrim(buffer), complete)
  {
    TrimKeepsPrefix(buffer);
  }

  /**
   * The jump keys name dimension 0, 1 or 2 for x, y and z: "f" and "c" run
   * full and centre on that dimension, and the plane commands act only on
   * the third.
   */
  lemma {:induction false} JumpDimension(buffer: string, local: KeyMap, global: KeyMap,
                                         complete: bool, chart: ChartView)
    requires |buffer| == 3 && JumpKey(buffer[..2])
    requires ShortString(buffer) !in local && ShortString(buffer) !in global
    ensures var d := buffer[1] as int - 'x' as int;
      var step := Dispatch(buffer, local, global, complete, chart);
      0 <= d <= 2
      && (buffer[2] == 'f' ==> step == Step(Run(FullDim(d)), true))
      && (buffer[2] == 'c' ==> step == Step(Run(CenterDim(d)), true))
      && (buffer[2] == 'm' ==> step == Step(if buffer[1] == 'z' then Run(GotoMaxPlane) else Nothing, true))
  {
    DispatchJump(buffer, local, global, complete, chart);
    if buffer[2] in "fcm" {
      TrimUnchanged(buffer, IsJavaSpace);
      assert buffer[2..] == [buffer[2]];
    }
  }
}
