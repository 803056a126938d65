/**
 * The input rules of the screen in MainActivity.kt: the add button's guard,
 * the counter's step buttons and typed entry, the name editor and the colour
 * picker, with the state each composable keeps between user actions.
 */
module MainActivityUi {
  import opened Wrappers
  import opened KotlinInt
  import opened PlayerData
  import opened ViewModel

  // ---------------------------------------------------------------- TopAppBar

  /**
   * The add button is enabled only while the game has fewer than six players,
   * which is exactly when pressing it would change the list.
   */
  predicate AddEnabled(ps: seq<Player>): (enabled: bool)
    ensures enabled <==> AddedPlayers(ps) != ps
  {
    AddPlayerEffect(ps);
    |ps| < 6
  }

  // ---------------------------------------------------------------- Counter

  /** Kotlin's `IntRange`, both ends included. */
  datatype IntRange = IntRange(first: int, last: int) {
    predicate Contains(v: int) {
      first <= v <= last
    }
  }

  /** The range of the level counter; the gear counter has none. */
  const LevelRange: IntRange := IntRange(1, 10)

  datatype Step = Minus | Plus

  /**
   * What a step button passes to `onValueChange`: the value one lower or one
   * higher (`Int` arithmetic), or `None` when the counter has a range that
   * does not contain it and the press does nothing.
   */
  function StepValue(value: Int32, step: Step, valueRange: Option<IntRange>): (r: Option<Int32>)
    ensures r.Some? ==> r.value == Wrap(if step == Plus then value + 1 else value - 1)
    ensures r.Some? <==>
      valueRange.None? || valueRange.value.Contains(Wrap(if step == Plus then value + 1 else value - 1))
    ensures r.Some? ==> valueRange.None? || valueRange.value.Contains(r.value)
  {
    var newValue := Wrap(if step == Plus then value + 1 else value - 1);
    if valueRange.None? || valueRange.value.Contains(newValue) then Some(newValue) else None
  }

  /**
   * The value after a series of presses, each press seeing the value the last
   * one left. Each press either does nothing or lands inside the range, so
   * after any presses the value is the one it started from or lies in the range.
   */
  function AfterSteps(value: Int32, steps: seq<Step>, valueRange: Option<IntRange>): (r: Int32)
    ensures valueRange.Some? ==> r == value || valueRange.value.Contains(r)
    ensures steps == [] ==> r == value
    decreases |steps|
  {
    if steps == [] then value
    else
      var next := match StepValue(value, steps[0], valueRange)
        case Some(v) => v
        case None => value;
      AfterSteps(next, steps[1..], valueRange)
  }

  /** Inside the level range a press moves the level by one; at either end the outward press does nothing. */
  lemma LevelSteps(level: Int32)
    requires LevelRange.Contains(level)
    ensures StepValue(level, Plus, Some(LevelRange)) == if level < 10 then Some(level + 1) else None
    ensures StepValue(level, Minus, Some(LevelRange)) == if level > 1 then Some(level - 1) else None
  {
  }

  /**
   * A level outside 1..10 (the decoder and `updatePlayer` accept any level)
   * steps back only to the nearest end of the range; stepping further away does nothing.
   */
  lemma LevelStepsBackIntoRange()
    ensures StepValue(0, Plus, Some(LevelRange)) == Some(1)
    ensures StepValue(0, Minus, Some(LevelRange)) == None
    ensures StepValue(11, Minus, Some(LevelRange)) == Some(10)
    ensures StepValue(11, Plus, Some(LevelRange)) == None
    ensures StepValue(12, Minus, Some(LevelRange)) == None
  {
  }

  /** A level in 1..10 stays in 1..10 whatever buttons are pressed. */
  lemma {:induction false} LevelStaysInRange(level: Int32, steps: seq<Step>)
    requires LevelRange.Contains(level)
    ensures LevelRange.Contains(AfterSteps(level, steps, Some(LevelRange)))
    decreases |steps|
  {
    if steps != [] {
      var next := match StepValue(level, steps[0], Some(LevelRange))
        case Some(v) => v
        case None => level;
      LevelStaysInRange(next, steps[1..]);
    }
  }

  /** Gear has no range: both buttons always act, and gear goes below zero. */
  lemma GearStepsAlwaysApply(gear: Int32)
    ensures StepValue(gear, Minus, None) == Some(Wrap(gear - 1))
    ensures StepValue(gear, Plus, None) == Some(Wrap(gear + 1))
    ensures AfterSteps(0, [Minus], None) == -1
  {
  }

  /** Plus on the largest gear wraps: `Int.MAX_VALUE + 1` is passed on as `Int.MIN_VALUE`. */
  lemma GearPlusWrapsAtMaxValue()
    ensures StepValue(MaxValue, Plus, None) == Some(MinValue)
  {
    assert MaxValue + 1 - MinValue == Modulus;
  }

  /** The typed text keeps only its digits, in order. */
  function DigitsOnly(s: string): (r: string)
    ensures AllDigits(r) && |r| <= |s|
  {
    if s == [] then []
    else (if IsDigit(s[0]) then [s[0]] else []) + DigitsOnly(s[1..])
  }

  /** One character passes the filter exactly when it is a digit. */
  lemma DigitsOnlyChar(c: char)
    ensures DigitsOnly([c]) == if IsDigit(c) then [c] else []
  {
    assert [c][1..] == [];
  }

  /** The filter works character by character: filtering a concatenation concatenates the filtered parts. */
  lemma {:induction false} DigitsOnlyAppend(a: string, b: string)
    ensures DigitsOnly(a + b) == DigitsOnly(a) + DigitsOnly(b)
  {
    if a != [] {
      assert (a + b)[0] == a[0];
      assert (a + b)[1..] == a[1..] + b;
      DigitsOnlyAppend(a[1..], b);
    } else {
      assert a + b == b;
    }
  }

  /** Mixed text keeps its digits in order: "1a2" becomes "12". */
  lemma DigitsOnlyMixed()
    ensures DigitsOnly("1a2") == "12"
  {
    assert "1a2" == ['1'] + (['a'] + ['2']);
    DigitsOnlyAppend(['1'], ['a'] + ['2']);
    DigitsOnlyAppend(['a'], ['2']);
    DigitsOnlyChar('1');
    DigitsOnlyChar('a');
    DigitsOnlyChar('2');
  }

  /** Text that is all digits passes the filter unchanged, so filtering twice is filtering once. */
  lemma {:induction false} DigitsOnlyKeepsDigits(s: string)
    requires AllDigits(s)
    ensures DigitsOnly(s) == s
  {
    if s != [] {
      DigitsOnlyKeepsDigits(s[1..]);
      assert [s[0]] + s[1..] == s;
    }
  }

  /** `tempValue.toIntOrNull() ?: value`: what Done passes to `onValueChange`. */
  function CommittedValue(tempValue: string, value: Int32): (r: Int32)
    ensures ToIntOrNull(tempValue) == Some(r) || (ToIntOrNull(tempValue).None? && r == value)
  {
    match ToIntOrNull(tempValue)
    case Some(v) => v
    case None => value
  }

  /**
   * Typed digits commit their number; an empty text or one too large for an
   * `Int` keeps the old value, so a typed value is never negative.
   */
  lemma TypedEntry(tempValue: string, value: Int32)
    requires AllDigits(tempValue)
    ensures CommittedValue(tempValue, value) == value || CommittedValue(tempValue, value) >= 0
    ensures tempValue == [] ==> CommittedValue(tempValue, value) == value
    ensures tempValue != [] && ValueOf(tempValue) > MaxValue ==> CommittedValue(tempValue, value) == value
    ensures tempValue != [] && ValueOf(tempValue) <= MaxValue ==> CommittedValue(tempValue, value) == ValueOf(tempValue)
  {
  }

  /** Typing the decimal digits of any non-negative `Int` commits exactly that number. */
  lemma TypedDigitsCommit(n: nat, value: Int32)
    requires n <= MaxValue
    ensures CommittedValue(Digits(n), value) == n
  {
    ValueOfDigits(n);
  }

  /**
   * The state `Counter` remembers: whether the text field is shown and the
   * text typed so far.
   */
  class CounterState {
    var isEditing: bool
    var tempValue: string

    /** While editing, the text holds digits only. */
    ghost predicate Valid()
      reads this
    {
      isEditing ==> AllDigits(tempValue)
    }

    constructor (value: Int32)
      ensures Valid() && !isEditing && tempValue == ToString(value)
    {
      isEditing := false;
      tempValue := ToString(value);
    }

    /**
     * A click on the label: only an editable counter enters editing, and on
     * entering it the text is cleared.
     */
    method Click(isEditable: bool)
      requires Valid()
      modifies this
      ensures Valid()
      ensures isEditing == (old(isEditing) || isEditable)
      ensures tempValue == if isEditable && !old(isEditing) then "" else old(tempValue)
    {
      if isEditable && !isEditing {
        isEditing := true;
        tempValue := "";
      }
    }

    /** Each change of the text field keeps only the digits of the new text. */
    method TextChanged(text: string)
      requires Valid() && isEditing
      modifies this`tempValue
      ensures Valid()
      ensures tempValue == DigitsOnly(text)
    {
      tempValue := DigitsOnly(text);
    }

    /** Done: leave editing and return the value handed to `onValueChange`. */
    method Done(value: Int32) returns (newValue: Int32)
      requires Valid() && isEditing
      modifies this`isEditing
      ensures Valid() && !isEditing
      ensures newValue == CommittedValue(tempValue, value)
      ensures newValue == value || newValue >= 0
    {
      TypedEntry(tempValue, value);
      newValue := CommittedValue(tempValue, value);
      isEditing := false;
    }
  }

  // ---------------------------------------------------------------- PlayerCard name

  /** Kotlin's `Char.isWhitespace()`: the Java whitespace characters and the Unicode space separators. */
  predicate IsWhitespace(c: char) {
    c == '\t' || c == '\n' || c == '\U{000B}' || c == '\U{000C}' || c == '\r'
    || ('\U{001C}' <= c <= '\U{001F}') || c == ' ' || c == '\U{00A0}' || c == '\U{1680}'
    || ('\U{2000}' <= c <= '\U{200A}') || c == '\U{2028}' || c == '\U{2029}'
    || c == '\U{202F}' || c == '\U{205F}' || c == '\U{3000}'
  }

  /** `isBlank()`: empty or whitespace only. */
  predicate IsBlank(s: string): (blank: bool)
    ensures s == [] ==> blank
    ensures blank && s != [] ==> IsWhitespace(s[0]) && IsBlank(s[1..])
  {
    forall i :: 0 <= i < |s| ==> IsWhitespace(s[i])
  }

  /** The name an edit passes to `onNameChange`, or `None` when the text is blank and nothing is passed. */
  function NameCommit(tempName: string): (r: Option<string>)
    ensures r.Some? ==> r.value == tempName && !IsBlank(r.value)
    ensures r.None? ==> IsBlank(tempName)
  {
    if IsBlank(tempName) then None else Some(tempName)
  }

  /** The name a player has after an edit. */
  function NameAfterEdit(name: string, tempName: string): (r: string)
    ensures IsBlank(tempName) ==> r == name
    ensures !IsBlank(tempName) ==> r == tempName
  {
    match NameCommit(tempName)
    case Some(n) => n
    case None => name
  }

  /** A blank edit keeps the old name; any other replaces it; a non-blank name never becomes blank. */
  lemma NameEdits(name: string)
    ensures NameAfterEdit(name, "   ") == name
    ensures NameAfterEdit(name, "Bob") == "Bob"
    ensures forall t :: !IsBlank(name) ==> !IsBlank(NameAfterEdit(name, t))
  {
    assert "Bob"[0] == 'B' && !IsWhitespace('B');
  }

  // ---------------------------------------------------------------- ColorPickerDialog

  /** Kotlin's `chunked(size)`: consecutive rows of `size`, the last one possibly shorter. */
  function Chunked<T>(s: seq<T>, size: nat): (rows: seq<seq<T>>)
    requires size > 0
    ensures forall k :: 0 <= k < |rows| ==> 0 < |rows[k]| <= size
    decreases |s|
  {
    if s == [] then []
    else if |s| <= size then [s]
    else [s[..size]] + Chunked(s[size..], size)
  }

  function Flatten<T>(rows: seq<seq<T>>): seq<T> {
    if rows == [] then [] else rows[0] + Flatten(rows[1..])
  }

  /** Laying the palette out in rows and reading the rows in order gives the palette back. */
  lemma {:induction false} FlattenChunked<T>(s: seq<T>, size: nat)
    requires size > 0
    ensures Flatten(Chunked(s, size)) == s
    decreases |s|
  {
    if s != [] && |s| > size {
      FlattenChunked(s[size..], size);
      assert s[..size] + s[size..] == s;
    }
  }

  /** Kotlin's `indexOf`: the first position of `x`, or -1 when it is absent. */
  function IndexOf(s: seq<int>, x: int): (k: int)
    ensures -1 <= k < |s|
    ensures k >= 0 ==> s[k] == x && forall j :: 0 <= j < k ==> s[j] != x
    ensures k == -1 ==> x !in s
  {
    if s == [] then -1
    else if s[0] == x then 0
    else var k := IndexOf(s[1..], x); if k == -1 then -1 else k + 1
  }

  /** The index each cell of the picker reports when tapped, cells read row by row. */
  function PickerIndices(): (r: seq<int>)
    ensures forall k :: 0 <= k < |r| ==> -1 <= r[k] < |CardColors|
  {
    var cells := Flatten(Chunked(CardColors, 6));
    seq(|cells|, k requires 0 <= k < |cells| => IndexOf(CardColors, cells[k]))
  }

  /** The picker has one cell per palette entry, and the k-th cell reports index k. */
  lemma PickerReportsPosition()
    ensures |PickerIndices()| == |CardColors|
    ensures forall k :: 0 <= k < |CardColors| ==> PickerIndices()[k] == k && InPalette(PickerIndices()[k])
  {
    FlattenChunked(CardColors, 6);
    PaletteShape();
  }

  /**
   * The state `PlayerCard` remembers: whether the name is being edited, the
   * text typed so far, and whether the colour dialog is shown.
   */
  class PlayerCardState {
    var isEditingName: bool
    var tempName: string
    var isColorDialogShown: bool

    constructor (name: string)
      ensures !isEditingName && tempName == name && !isColorDialogShown
    {
      isEditingName := false;
      tempName := name;
      isColorDialogShown := false;
    }

    /** A click on the name opens the editor, which starts from an empty text. */
    method ClickName()
      modifies this`isEditingName, this`tempName
      ensures isEditingName
      ensures tempName == if old(isEditingName) then old(tempName) else ""
    {
      if !isEditingName {
        isEditingName := true;
        tempName := "";
      }
    }

    method NameChanged(text: string)
      requires isEditingName
      modifies this`tempName
      ensures tempName == text
    {
      tempName := text;
    }

    /** Focus lost: a non-blank text is committed and the editor closes; a blank one keeps it open. */
    method FocusLost() returns (committed: Option<string>)
      requires isEditingName
      modifies this`isEditingName
      ensures committed == NameCommit(tempName)
      ensures isEditingName == committed.None?
    {
      committed := NameCommit(tempName);
      if committed.Some? {
        isEditingName := false;
      }
    }

    /** Done: a non-blank text is committed, and the editor closes either way. */
    method NameDone() returns (committed: Option<string>)
      requires isEditingName
      modifies this`isEditingName
      ensures committed == NameCommit(tempName)
      ensures !isEditingName
    {
      committed := NameCommit(tempName);
      isEditingName := false;
    }

    method OpenColorDialog()
      modifies this`isColorDialogShown
      ensures isColorDialogShown
    {
      isColorDialogShown := true;
    }

    /** A tap on a cell reports that cell's palette index and closes the dialog. */
    method SelectColor(cell: nat) returns (index: int)
      requires isColorDialogShown && cell < |CardColors|
      modifies this`isColorDialogShown
      ensures !isColorDialogShown
      ensures index == cell && InPalette(index)
    {
      PickerReportsPosition();
      index := PickerIndices()[cell];
      isColorDialogShown := false;
    }

    method DismissColorDialog()
      modifies this`isColorDialogShown
      ensures !isColorDialogShown
    {
      isColorDialogShown := false;
    }
  }

  // ---------------------------------------------------------------- card callbacks

  predicate LevelsInRange(ps: seq<Player>) {
    forall i :: 0 <= i < |ps| ==> LevelRange.Contains(ps[i].level)
  }

  predicate ColorsInPalette(ps: seq<Player>) {
    forall i :: 0 <= i < |ps| ==> InPalette(ps[i].cardColorIndex)
  }

  predicate NamesNotBlank(ps: seq<Player>) {
    forall i :: 0 <= i < |ps| ==> !IsBlank(ps[i].name)
  }

  /**
   * A level step that fires saves `player.copy(level = v)`; all levels stay
   * in 1..10 and no colour leaves the palette.
   */
  lemma LevelStepKeepsCardsValid(ps: seq<Player>, player: Player, step: Step, v: Int32)
    requires LevelsInRange(ps) && ColorsInPalette(ps) && InPalette(player.cardColorIndex)
    requires StepValue(player.level, step, Some(LevelRange)) == Some(v)
    ensures LevelsInRange(UpdatedPlayers(ps, player.(level := v)))
    ensures ColorsInPalette(UpdatedPlayers(ps, player.(level := v)))
  {
  }

  /** A colour picked in the dialog saves `player.copy(cardColorIndex = i)`; every colour stays in the palette. */
  lemma PickedColorKeepsCardsValid(ps: seq<Player>, player: Player, cell: nat)
    requires ColorsInPalette(ps) && cell < |PickerIndices()|
    ensures ColorsInPalette(UpdatedPlayers(ps, player.(cardColorIndex := PickerIndices()[cell])))
  {
    PickerReportsPosition();
  }

  /** A name edit only saves a non-blank name, so names that are not blank stay so. */
  lemma NameEditKeepsNamesNotBlank(ps: seq<Player>, player: Player, tempName: string)
    requires NamesNotBlank(ps) && NameCommit(tempName).Some?
    ensures NamesNotBlank(UpdatedPlayers(ps, player.(name := NameCommit(tempName).value)))
  {
  }
}
