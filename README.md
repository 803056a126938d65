# PowerCounter in Dafny

PowerCounter is an Android score counter for the card game Munchkin. One to
six players each have a card that shows:
- a level (1 to 10)
- a gear bonus
- their total power, level plus gear
- a colour from an eighteen-colour palette

The list of players lives in one preference slot, `players_list`, as a JSON
array, and survives restarts.

This project models the following and proves what each one promises:
- the player record and its palette (`data/Player.kt`)
- the repository, which reads the list back with a fall-back to a
  one-player default list (`data/PlayerRepository.kt`)
- the view model's list operations (`ui/MunchkinViewModel.kt`)
- the input rules of the screen (`MainActivity.kt`): the add button's guard,
  the counters' step buttons and digit-only entry, the name editor that
  ignores blank names, and the colour picker

## Layout

| file | module | what it holds |
|---|---|---|
| `wrappers.dfy` | `Wrappers` | `Option` and `Result` |
| `kotlin_int.dfy` | `KotlinInt` | Kotlin `Int` (32-bit, wrapping), `toString` and `toIntOrNull` on decimal text |
| `player.dfy` | `PlayerData` | `Player` with its defaulted fields and `TotalPower`, the palette |
| `json_codec.dfy` | `JsonCodec` | a JSON codec for `List<Player>` in the shape kotlinx.serialization writes by default, and its round trip |
| `player_repository.dfy` | `Repository` | the preference slot, `playersFlow` with fall-back, `savePlayers`, the older edition without fall-back |
| `munchkin_view_model.dfy` | `ViewModel` | `addPlayer`, `resetPlayers`, `deletePlayer`, `updatePlayer` as list functions, their invariants, and the view-model class over the repository |
| `main_activity.dfy` | `MainActivityUi` | the add-button guard, the counter, the name editor, the colour picker, and the state each composable remembers |

### Design

- **Kotlin `Int`.** `Int` is `KotlinInt.Int32`, a subset of `int`. The `Int`
  additions that can overflow go through `KotlinInt.Wrap`, which takes the
  result modulo 2^32 the way the JVM does. These are `level + gear`, the new
  id's `+ 1` and the counter's `± 1`. The new player's number,
  `currentPlayers.size + 1`, is at most 6 and is kept as a plain `|ps| + 1`.
- **Codec as a parameter.** The repository takes its codec as a parameter,
  `Repository.Codec`. The repository's properties are proved for every codec
  that satisfies the round-trip law `Repository.RoundTrip`.
  - `Repository.Json` is a concrete codec that satisfies the law
    (`Repository.JsonRoundTrip`), so the law is not vacuous.
  - The concrete codec also decides the fixed texts: `"not json"`, `"[]"` and
    an object without a `name`.
- **State as fields.** The preference store is a `map<string, string>` field
  of `Repository.PlayerRepository`. The current value of its `StateFlow` is a
  second field, `playersFlow`.
  - `SavePlayers` writes the slot and re-emits, as the store's `edit` does.
  - The view model has no list of its own. It reads `PlayersState()` from the
    repository, applies a list function and saves the result.
- **UI state as classes.** The state that the composables `remember` is in
  `MainActivityUi.CounterState` and `MainActivityUi.PlayerCardState`. One
  method stands for each user action.

### Behaviour worth knowing

- **Which repository runs.** The activity builds the `PlayerRepository`
  declared in `MainActivity.kt` (line 169), not the one in `data/`. That one
  has no fall-back (`MainActivity.kt:94-96`): a stored text that does not
  decode throws out of the flow.
  - Both editions are modelled: `Repository.PlayersFrom` and
    `Repository.LegacyPlayersFrom`.
  - `Repository.LegacyDiffersOnlyOnBadText` proves they agree except on such a
    text.
- **Level range.** `updatePlayer` accepts any player
  (`ui/MunchkinViewModel.kt:45-51`). Only the counter's step buttons check the
  level range (`MainActivity.kt:372-391`), and the level counter is the one
  counter that cannot be typed into (`MainActivity.kt:332`).
  - `MainActivityUi.LevelStaysInRange` proves that the buttons alone keep a
    level in 1..10.
  - `MainActivityUi.LevelStepsBackIntoRange` shows what the buttons do with a
    stored level outside the range.
  - `MainActivityUi.LevelStepKeepsCardsValid` carries this to the list.
- **Missing fields.** A stored player without `level`, `gear` or
  `cardColorIndex` takes the default declared at `data/Player.kt:14-16`. Only a
  missing `id` or `name` makes decoding fail (`JsonCodec.DecodeMissingName`),
  which the repository in `data/` answers with the default list.
- **Typed gear.** The gear text field drops every character that is not a
  digit (`MainActivity.kt:408`), so a typed value is never negative
  (`MainActivityUi.TypedEntry`). Only the step buttons make gear negative
  (`MainActivityUi.GearStepsAlwaysApply`,
  `MainActivityUi.GearPlusWrapsAtMaxValue`): minus below zero, and plus at
  `Int.MAX_VALUE`, where `value + 1` wraps to `Int.MIN_VALUE`
  (`MainActivity.kt:385`; the gear counter has no range,
  `MainActivity.kt:334-339`).
- **Default names.** They are "Игрок n" (`ui/MunchkinViewModel.kt:29`).
- **The list after a save.** It is whatever the store re-emits
  (`data/PlayerRepository.kt:30-42`), not the list the view model computed.
  - The view-model methods state it as `PlayersFrom` of the new store.
  - It equals the computed list for a codec with the round-trip property.

## Model

| member | source | states |
|---|---|---|
| KotlinInt.Wrap | app/src/main/java/com/example/powercounter/data/Player.kt:18-19 | Kotlin `Int` addition: the exact sum when it fits in 32 bits, otherwise a value congruent to it modulo 2^32 |
| KotlinInt.Digits | app/src/main/java/com/example/powercounter/ui/MunchkinViewModel.kt:29 | the decimal text of a number is non-empty and all digits, is "0" exactly for zero, and has no leading zero |
| KotlinInt.ToString | app/src/main/java/com/example/powercounter/MainActivity.kt:364 | `Int.toString()` is non-empty, all digits for a non-negative value, and starts with '-' for a negative one; the digits never start with a zero unless the value is 0 |
| KotlinInt.ValueOfDigits | app/src/main/java/com/example/powercounter/MainActivity.kt:364 | the decimal digits of n read back as n |
| KotlinInt.ToIntOrNull | app/src/main/java/com/example/powercounter/MainActivity.kt:419 | `toIntOrNull()` is null on empty text, and a text of digits only never reads as a negative number |
| KotlinInt.ToIntOrNullOfToString | app/src/main/java/com/example/powercounter/MainActivity.kt:419 | `toIntOrNull()` reads back every `Int` that `toString()` wrote |
| KotlinInt.ToIntOrNullOverflow | app/src/main/java/com/example/powercounter/MainActivity.kt:419 | a digit string whose value exceeds `Int.MAX_VALUE` reads as null |
| PlayerData.Player.TotalPower | app/src/main/java/com/example/powercounter/data/Player.kt:18-19 | power is level plus gear when that fits in an `Int`, and otherwise congruent to it modulo 2^32 |
| PlayerData.DefaultedPlayer | app/src/main/java/com/example/powercounter/data/Player.kt:11-17 | `Player(id, name)` has level 1, gear 0, colour 0, power 1, and a colour in the palette |
| PlayerData.TotalPowerIsSum | app/src/main/java/com/example/powercounter/data/Player.kt:18-19 | total power is level plus gear whenever that sum fits in an `Int` |
| PlayerData.PlayerEquality | app/src/main/java/com/example/powercounter/data/Player.kt:10-17 | players are values: equal exactly when all five fields are equal |
| PlayerData.PaletteShape | app/src/main/java/com/example/powercounter/data/Player.kt:25-32 | the palette has eighteen distinct colours, and the valid indices are exactly 0..17 |
| JsonCodec.Encode | app/src/main/java/com/example/powercounter/data/PlayerRepository.kt:51 | the text of a list is a JSON array, and it is "[]" exactly for the empty list |
| JsonCodec.Decode | app/src/main/java/com/example/powercounter/data/PlayerRepository.kt:35 | only a text that opens an array can decode, and "[]" decodes to the empty list |
| JsonCodec.EscapePlain | app/src/main/java/com/example/powercounter/data/PlayerRepository.kt:51 | a name without quotes or backslashes is written unescaped |
| JsonCodec.DecodeEncode | app/src/main/java/com/example/powercounter/data/PlayerRepository.kt:50-55 | decoding the encoded list gives back the same players in the same order, for every list |
| JsonCodec.PlayerTextOmitsDefaults | app/src/main/java/com/example/powercounter/data/Player.kt:14-16 | a player whose game fields hold their defaults is written with only `id` and `name` |
| JsonCodec.DecodeNotJson | app/src/main/java/com/example/powercounter/data/PlayerRepository.kt:35 | the text "not json" does not decode |
| JsonCodec.DecodeEmptyArray | app/src/main/java/com/example/powercounter/data/PlayerRepository.kt:35 | "[]" decodes to the empty list |
| JsonCodec.DecodeMissingName | app/src/main/java/com/example/powercounter/data/Player.kt:11-13 | an object without its required `name` does not decode |
| Repository.DefaultPlayerList | app/src/main/java/com/example/powercounter/data/PlayerRepository.kt:57 | the default list is one player, id 1, named "Игрок 1", on level 1 with no gear and the first colour |
| Repository.PlayersFrom | app/src/main/java/com/example/powercounter/data/PlayerRepository.kt:31-42 | the flow's list is either the default list or the list decoded from the "players_list" slot |
| Repository.LegacyPlayersFrom | app/src/main/java/com/example/powercounter/MainActivity.kt:92-99 | the older flow fails exactly when the slot holds a text that does not decode, and yields the default list when the slot is absent |
| Repository.JsonRoundTrip | app/src/main/java/com/example/powercounter/data/PlayerRepository.kt:35 | the JSON codec satisfies the round-trip law the repository relies on |
| Repository.PlayersFromCases | app/src/main/java/com/example/powercounter/data/PlayerRepository.kt:30-42 | the flow yields the default list when the slot is absent or does not decode, and otherwise the decoded list |
| Repository.PlayersFromIgnoresOtherKeys | app/src/main/java/com/example/powercounter/data/PlayerRepository.kt:27-32 | only the "players_list" slot affects the flow |
| Repository.PlayersFromAfterSave | app/src/main/java/com/example/powercounter/data/PlayerRepository.kt:50-55 | after a save, the flow reads back exactly the saved list |
| Repository.NotJsonGivesDefault | app/src/main/java/com/example/powercounter/data/PlayerRepository.kt:34-39 | a corrupt slot gives the default list |
| Repository.EmptyArrayGivesEmptyList | app/src/main/java/com/example/powercounter/data/PlayerRepository.kt:33-35 | a stored "[]" gives an empty list: the flow does not enforce one to six players |
| Repository.PlayerRepository.constructor | app/src/main/java/com/example/powercounter/data/PlayerRepository.kt:43-47 | before the store is read, the flow holds the default list |
| Repository.PlayerRepository.Emit | app/src/main/java/com/example/powercounter/data/PlayerRepository.kt:30-42 | each emission of the store sets the flow to the list decoded from it, with fall-back |
| Repository.PlayerRepository.SavePlayers | app/src/main/java/com/example/powercounter/data/PlayerRepository.kt:50-55 | the slot holds the encoded list, no other key changes, the flow re-emits, and with a round-tripping codec it equals the saved list |
| Repository.LegacyDiffersOnlyOnBadText | app/src/main/java/com/example/powercounter/MainActivity.kt:92-99 | the older repository agrees with the newer one whenever it yields a list, and throws exactly when the slot holds a text that does not decode |
| Repository.LegacyThrowsOnNotJson | app/src/main/java/com/example/powercounter/MainActivity.kt:94-96 | on "not json" the older repository throws, where the newer one gives the default list |
| ViewModel.MaxIdOrZero | app/src/main/java/com/example/powercounter/ui/MunchkinViewModel.kt:28 | `maxOfOrNull { it.id } ?: 0`: an id of the list no smaller than any other, or 0 for an empty list |
| ViewModel.NewId | app/src/main/java/com/example/powercounter/ui/MunchkinViewModel.kt:28 | the new id is above every current id unless the largest is `Int.MAX_VALUE`, where it wraps to `Int.MIN_VALUE` |
| ViewModel.PlayerName | app/src/main/java/com/example/powercounter/ui/MunchkinViewModel.kt:29 | the name is "Игрок " followed by the number's decimal text |
| ViewModel.AddedPlayers | app/src/main/java/com/example/powercounter/ui/MunchkinViewModel.kt:25-32 | below six players the list grows by one and keeps its players as a prefix; at six it is unchanged |
| ViewModel.NewIdIsFresh | app/src/main/java/com/example/powercounter/ui/MunchkinViewModel.kt:28 | the new id exceeds every current id, and is 1 on an empty list |
| ViewModel.NewIdWrapsAtMaxValue | app/src/main/java/com/example/powercounter/ui/MunchkinViewModel.kt:28 | when the largest id is `Int.MAX_VALUE`, the new id wraps to `Int.MIN_VALUE` |
| ViewModel.AddPlayerEffect | app/src/main/java/com/example/powercounter/ui/MunchkinViewModel.kt:25-32 | below six players, the list keeps its players and gains one with the new id, the name "Игрок n+1", level 1, gear 0 and colour 0; at six it is unchanged |
| ViewModel.AddPlayerKeepsValid | app/src/main/java/com/example/powercounter/ui/MunchkinViewModel.kt:25-32 | adding keeps one to six players with distinct ids |
| ViewModel.AddPlayerKeepsNumbering | app/src/main/java/com/example/powercounter/ui/MunchkinViewModel.kt:28-29 | on a list numbered by creation, the added player gets the next id and the matching name |
| ViewModel.SixPlayersScenario | app/src/main/java/com/example/powercounter/ui/MunchkinViewModel.kt:25-32 | from the default list, five additions give players 1 to 6, and a sixth addition changes nothing |
| ViewModel.ResetList | app/src/main/java/com/example/powercounter/ui/MunchkinViewModel.kt:34-36 | the reset list is the repository's default list |
| ViewModel.ResetPlayersIsDefault | app/src/main/java/com/example/powercounter/ui/MunchkinViewModel.kt:34-36 | reset gives the repository's default list, which is valid |
| ViewModel.PlayersWithout | app/src/main/java/com/example/powercounter/ui/MunchkinViewModel.kt:41 | `filter { it.id != player.id }` keeps exactly the players with another id |
| ViewModel.PlayersWithoutAbsent | app/src/main/java/com/example/powercounter/ui/MunchkinViewModel.kt:41 | deleting an id that nobody has changes nothing |
| ViewModel.PlayersWithoutOne | app/src/main/java/com/example/powercounter/ui/MunchkinViewModel.kt:41 | a single player survives the filter exactly when its id differs |
| ViewModel.PlayersWithoutAppend | app/src/main/java/com/example/powercounter/ui/MunchkinViewModel.kt:41 | the filter works player by player: filtering a concatenation concatenates the filtered parts, so survivors keep their order and repeats for any ids |
| ViewModel.PlayersWithoutRepeatedIds | app/src/main/java/com/example/powercounter/ui/MunchkinViewModel.kt:41 | with a repeated id, deleting another id keeps both players with the repeated id, in their order |
| ViewModel.PlayersWithoutAt | app/src/main/java/com/example/powercounter/ui/MunchkinViewModel.kt:41 | with distinct ids, deleting the id at position k removes just that player and keeps the order of the rest |
| ViewModel.RemoveAtKeepsDistinct | app/src/main/java/com/example/powercounter/ui/MunchkinViewModel.kt:41 | removing one player keeps ids distinct |
| ViewModel.DeletedPlayers | app/src/main/java/com/example/powercounter/ui/MunchkinViewModel.kt:38-43 | on one player the list is unchanged; above one, it keeps exactly the players with another id |
| ViewModel.DeletePlayerKeepsValid | app/src/main/java/com/example/powercounter/ui/MunchkinViewModel.kt:38-43 | deleting keeps one to six players with distinct ids, and on a single player changes nothing |
| ViewModel.UpdatedPlayers | app/src/main/java/com/example/powercounter/ui/MunchkinViewModel.kt:46-48 | the map replaces exactly the players with the updated id and keeps the length |
| ViewModel.UpdatePlayerKeepsValid | app/src/main/java/com/example/powercounter/ui/MunchkinViewModel.kt:45-51 | updating keeps the size and every id in place |
| ViewModel.UpdatePlayerAbsent | app/src/main/java/com/example/powercounter/ui/MunchkinViewModel.kt:45-51 | an update for an id nobody has saves the list unchanged |
| ViewModel.UpdatePlayerLands | app/src/main/java/com/example/powercounter/ui/MunchkinViewModel.kt:45-51 | the updated player is in the new list exactly when some player had its id |
| ViewModel.MunchkinViewModel.constructor | app/src/main/java/com/example/powercounter/ui/MunchkinViewModel.kt:15-17 | the view model reads the repository it was given |
| ViewModel.MunchkinViewModel.PlayersState | app/src/main/java/com/example/powercounter/ui/MunchkinViewModel.kt:17 | `playersState` is the repository's flow itself |
| ViewModel.MunchkinViewModel.UpdatePlayers | app/src/main/java/com/example/powercounter/ui/MunchkinViewModel.kt:19-23 | the list is saved through the repository; the state becomes the list read back from the new store, which is the saved list itself for a round-tripping codec |
| ViewModel.MunchkinViewModel.AddPlayer | app/src/main/java/com/example/powercounter/ui/MunchkinViewModel.kt:25-32 | below six players, saves the list with one player added and the state is read back from the new store; otherwise nothing changes; validity is kept |
| ViewModel.MunchkinViewModel.ResetPlayers | app/src/main/java/com/example/powercounter/ui/MunchkinViewModel.kt:34-36 | saves the default list, and the state is read back from the new store |
| ViewModel.MunchkinViewModel.DeletePlayer | app/src/main/java/com/example/powercounter/ui/MunchkinViewModel.kt:38-43 | above one player, saves the list without that id and the state is read back from the new store; otherwise nothing changes; validity is kept |
| ViewModel.MunchkinViewModel.UpdatePlayer | app/src/main/java/com/example/powercounter/ui/MunchkinViewModel.kt:45-51 | saves the list with the player of that id replaced, and the state is read back from the new store; validity is kept |
| MainActivityUi.AddEnabled | app/src/main/java/com/example/powercounter/MainActivity.kt:223 | the add button is enabled exactly when adding would change the list |
| MainActivityUi.StepValue | app/src/main/java/com/example/powercounter/MainActivity.kt:372-391 | a step button passes on `value - 1` or `value + 1` (`Int` arithmetic), and does so exactly when there is no range or the range contains that value |
| MainActivityUi.LevelSteps | app/src/main/java/com/example/powercounter/MainActivity.kt:327-333 | inside 1..10 a step moves the level by one, and + at 10 and − at 1 do nothing |
| MainActivityUi.LevelStepsBackIntoRange | app/src/main/java/com/example/powercounter/MainActivity.kt:372-391 | a stored level of 0 steps up to 1 and one of 11 steps down to 10; a step further out, such as down from 0 or 12, does nothing |
| MainActivityUi.AfterSteps | app/src/main/java/com/example/powercounter/MainActivity.kt:372-391 | after any presses, a ranged counter holds either its starting value or a value inside the range |
| MainActivityUi.LevelStaysInRange | app/src/main/java/com/example/powercounter/MainActivity.kt:372-391 | a level in 1..10 stays in 1..10 under any sequence of presses |
| MainActivityUi.GearStepsAlwaysApply | app/src/main/java/com/example/powercounter/MainActivity.kt:334-339 | gear has no range: both buttons always act, and gear 0 minus one is −1 |
| MainActivityUi.GearPlusWrapsAtMaxValue | app/src/main/java/com/example/powercounter/MainActivity.kt:383-386 | plus on gear `Int.MAX_VALUE` passes on `Int.MIN_VALUE`, since the unranged counter always acts and `value + 1` wraps |
| MainActivityUi.DigitsOnly | app/src/main/java/com/example/powercounter/MainActivity.kt:408 | the filtered text is all digits and no longer than the input |
| MainActivityUi.DigitsOnlyChar | app/src/main/java/com/example/powercounter/MainActivity.kt:408 | one character is kept exactly when it is a digit |
| MainActivityUi.DigitsOnlyAppend | app/src/main/java/com/example/powercounter/MainActivity.kt:408 | the filter works character by character: filtering a concatenation concatenates the filtered parts, so the digits are kept in order |
| MainActivityUi.DigitsOnlyMixed | app/src/main/java/com/example/powercounter/MainActivity.kt:408 | "1a2" is filtered to "12" |
| MainActivityUi.DigitsOnlyKeepsDigits | app/src/main/java/com/example/powercounter/MainActivity.kt:408 | a text of digits passes the filter unchanged, so filtering is idempotent |
| MainActivityUi.CommittedValue | app/src/main/java/com/example/powercounter/MainActivity.kt:419 | the committed value is what `toIntOrNull` reads, or the old value when it reads null |
| MainActivityUi.TypedEntry | app/src/main/java/com/example/powercounter/MainActivity.kt:418-420 | typed digits commit their number; empty or too-large text keeps the old value; a typed value is never negative |
| MainActivityUi.TypedDigitsCommit | app/src/main/java/com/example/powercounter/MainActivity.kt:419 | typing the digits of any non-negative `Int` commits that number |
| MainActivityUi.CounterState.constructor | app/src/main/java/com/example/powercounter/MainActivity.kt:363-364 | a counter starts out not editing, with its value's text |
| MainActivityUi.CounterState.Click | app/src/main/java/com/example/powercounter/MainActivity.kt:396-405 | only an editable counter enters editing, and entering clears the text |
| MainActivityUi.CounterState.TextChanged | app/src/main/java/com/example/powercounter/MainActivity.kt:408 | the text keeps only the digits typed |
| MainActivityUi.CounterState.Done | app/src/main/java/com/example/powercounter/MainActivity.kt:418-423 | leaves editing and passes on `toIntOrNull() ?: value`, never a negative new value |
| MainActivityUi.IsBlank | app/src/main/java/com/example/powercounter/MainActivity.kt:290 | `isBlank()`: the empty text is blank, and a blank text is whitespace throughout |
| MainActivityUi.NameCommit | app/src/main/java/com/example/powercounter/MainActivity.kt:290-301 | a name is passed on exactly when the typed text is not blank |
| MainActivityUi.NameAfterEdit | app/src/main/java/com/example/powercounter/MainActivity.kt:298-304 | a blank edit keeps the old name, and any other edit replaces it |
| MainActivityUi.NameEdits | app/src/main/java/com/example/powercounter/MainActivity.kt:298-304 | a blank edit keeps the old name, "Bob" replaces it, and a non-blank name never becomes blank |
| MainActivityUi.PlayerCardState.constructor | app/src/main/java/com/example/powercounter/MainActivity.kt:242-244 | a card starts out not editing, with the player's name, and the dialog closed |
| MainActivityUi.PlayerCardState.ClickName | app/src/main/java/com/example/powercounter/MainActivity.kt:277-314 | a click on the name (the `clickable` at line 314) opens the editor, which starts from an empty text (lines 277-281) |
| MainActivityUi.PlayerCardState.NameChanged | app/src/main/java/com/example/powercounter/MainActivity.kt:284 | the typed text is kept as it is |
| MainActivityUi.PlayerCardState.FocusLost | app/src/main/java/com/example/powercounter/MainActivity.kt:289-294 | losing focus commits a non-blank name and closes the editor, and a blank text leaves it open |
| MainActivityUi.PlayerCardState.NameDone | app/src/main/java/com/example/powercounter/MainActivity.kt:298-304 | Done commits a non-blank name and closes the editor either way |
| MainActivityUi.PlayerCardState.OpenColorDialog | app/src/main/java/com/example/powercounter/MainActivity.kt:273 | the palette button shows the dialog |
| MainActivityUi.PlayerCardState.SelectColor | app/src/main/java/com/example/powercounter/MainActivity.kt:249-253 | a tap on cell k reports palette index k and closes the dialog |
| MainActivityUi.PlayerCardState.DismissColorDialog | app/src/main/java/com/example/powercounter/MainActivity.kt:254 | dismissing closes the dialog |
| MainActivityUi.Chunked | app/src/main/java/com/example/powercounter/MainActivity.kt:444 | `chunked(size)` makes rows of between one and `size` colours |
| MainActivityUi.FlattenChunked | app/src/main/java/com/example/powercounter/MainActivity.kt:444-449 | reading the rows in order gives the palette back |
| MainActivityUi.IndexOf | app/src/main/java/com/example/powercounter/MainActivity.kt:450 | `indexOf` gives the first position of the colour, or −1 when it is absent |
| MainActivityUi.PickerIndices | app/src/main/java/com/example/powercounter/MainActivity.kt:444-457 | every cell reports `indexOf` of its colour, which lies between −1 and 17 |
| MainActivityUi.PickerReportsPosition | app/src/main/java/com/example/powercounter/MainActivity.kt:444-457 | the picker has one cell per palette colour, and cell k reports index k, which is in the palette |
| MainActivityUi.LevelStepKeepsCardsValid | app/src/main/java/com/example/powercounter/MainActivity.kt:202 | saving `player.copy(level = v)` after a step keeps every level in 1..10 and every colour in the palette |
| MainActivityUi.PickedColorKeepsCardsValid | app/src/main/java/com/example/powercounter/MainActivity.kt:206 | saving a colour picked in the dialog keeps every colour index in the palette |
| MainActivityUi.NameEditKeepsNamesNotBlank | app/src/main/java/com/example/powercounter/MainActivity.kt:204 | saving a committed name edit keeps every name non-blank |

## Left out

- Asynchrony is not modelled:
  - `savePlayers` runs in `viewModelScope.launch`, and the store re-emits on `Dispatchers.IO`.
  - The model completes each save and its re-emission in one step.
  - Two quick presses that both read a `playersState.value` not yet updated can lose an update in the app. That interleaving is not modelled.
- The DataStore file (`munchkin_settings`) and its I/O are not modelled: the store is a `map<string, string>`. A failed write is not modelled either.
- `MunchkinViewModelFactory` (`ui/MunchkinViewModel.kt:58-66`, `MainActivity.kt:153-161`) works by reflection on class objects, so it has no list behaviour to model.
- MainActivity.kt repeats `Player`, `cardColors` and the view model (lines 67-86 and 114-151). These copies are identical to the ones in `data/` and `ui/`, so they are modelled once. Its repository differs and is modelled apart (`Repository.LegacyPlayersFrom`).
- The layout, the rendered colours, focus requests and `clearFocus`, and the preview composable are not modelled. Palette colours are kept only as distinct ARGB numbers.
- JsonCodec: the codec writes kotlinx.serialization's default output shape and reads only that shape.
  - Defaults are omitted, keys are in declaration order, and there is no whitespace.
  - Only `"` and `\` are escaped.
  - A text with whitespace, reordered keys, unknown keys or other escapes decodes to `None` here, though the library might accept it.
  - Every `Repository` property except three holds for any codec with the round-trip law, so it does not depend on this approximation.
  - The three exceptions are `Repository.NotJsonGivesDefault`, `Repository.EmptyArrayGivesEmptyList` and `Repository.LegacyThrowsOnNotJson`. They are stated for the concrete codec only, because the round-trip law says nothing about the texts "not json" and "[]".
- KotlinInt.ToIntOrNull: only the ASCII digits 0-9 are digits here. Kotlin's `isDigit` and `toIntOrNull` also accept the other Unicode decimal digits.
- MainActivityUi.DigitsOnly: keeps ASCII digits only, where `filter { it.isDigit() }` also keeps other Unicode decimal digits.
- ViewModel.AddPlayerKeepsValid: requires the largest id to be below `Int.MAX_VALUE`. At `Int.MAX_VALUE` the new id wraps (`ViewModel.NewIdWrapsAtMaxValue`) and may equal an existing id.
- ViewModel.MunchkinViewModel.AddPlayer: keeps validity only under that same condition on the largest id.
- PlayerData.TotalPowerIsSum: holds only when `level + gear` fits in an `Int`. Otherwise `PlayerData.Player.TotalPower` wraps.
- Repository.LegacyPlayersFrom: stops at the `Err` the older repository's flow raises. What the app does with the uncaught exception, a crash, is not modelled.
- The card's `cardColors[player.cardColorIndex]` (`MainActivity.kt:263`) is not modelled. The lemmas about the card prove that the screen's own updates keep indices in the palette. A decoded list can still carry an index outside it, which would make that lookup throw.
- `remember(value)` and `remember(player.name)` reset the remembered text when the player changes. That reset is not modelled: each state class is built from the value once.
