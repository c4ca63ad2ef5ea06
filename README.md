# Jaket chat, teammate indicators and team table

A Dafny model of three pieces of the Jaket multiplayer mod's interface layer:

- the chat window (`ui/Chat.cs`): the rich-text format of a chat line and its
  unformatted length, the "who is typing" line, the history capped at 12 lines,
  sending a message (trim it, drop it if blank, clear and hide the input field),
  and showing or hiding chat;
- the teammate indicators (`ui/PlayerIndicators.cs`): two lists, `targets`
  and `indicators`, that always have the same length; rebuilding them keeps only
  the players on the local player's team; showing or hiding them, blocked while
  chat is shown; the per-frame update of each indicator, which skips removed
  targets and indicators;
- the team table (`content/Team.cs`): five teams, each with a wing texture
  id, an interface colour and a pink-wings flag.

Modules:

- `Wrappers` holds `Option`, which stands for a C# reference that may be null.
- `Strings` models .NET's `Char.IsWhiteSpace`, `String.Trim` and `String.Join`.
  Trim is characterised as the unique unpadded middle of a
  white space / middle / white space split.
- `Teams` holds the `Team` enum, the `TeamData` record with `Color()` and
  `WingColor()`, and `Data`, which is a total `match`. The source finds the
  data by reflection instead.
- `ChatUi` holds the pure chat rules and the class `Chat`. Its fields are the
  state the source changes: `Shown`, the input field's text and visibility, the
  typing text and its background's visibility, and the lines of the message list.
- `IndicatorUi` holds the class `PlayerIndicators`. Its fields are `Shown`,
  `targets` and `indicators`, and its invariant `Valid()` is that the two lists
  have equal length. It also holds the `Teammates` filter.

The code's collaborators become inputs and outputs:

- Whether `LobbyController.Lobby` exists is the `inLobby` argument. The string
  handed to `SendChatString` is the `Option<string>` that `SendChatMessage` returns.
- `LobbyController.TypingPlayers()` is the `players` argument of `UpdateTyping`.
- The input field's `isFocused` is an argument of `Chat.Toggle`. The value passed
  to `Utils.ToggleMovement`, and whether `ActivateInputField` is called, are its results.
- `Networking.Players.Values`, in iteration order, is a sequence argument.
  `Networking.LocalPlayer.team` is the `localTeam` argument.
- `Chat.Instance` is passed to `PlayerIndicators.Toggle` as a `Chat` object.
- A target transform is identified by a `TransformId`. `Update` receives a
  map from the ids of the transforms that still exist to their positions. An id
  missing from the map is a transform the game has destroyed, which C# sees as
  `null`. An indicator the game has destroyed is `None` in `indicators`.
- The geometry of an indicator update (fill amount and angle) is replaced by
  recording the position the indicator was turned towards.

`SendChatMessage` does not truncate the message. The 128-character limit is
only the input field's `characterLimit` (ui/Chat.cs:63), which the field
enforces while the player types, so the model does not truncate either.

Some definitions carry no row of their own below, because the lemmas and
methods in the table state what they mean:

- `ChatUi.TypingLine` (ui/Chat.cs:84-87) is the typing line, defined case by
  case. `TypingLineStartsWithNames`, `TypingLineSingular`,
  `TypingLineFewPlayers` and `Chat.UpdateTyping` state its properties.
- `ChatUi.Received` (ui/Chat.cs:134-139) applies `Capped` once per received
  line. `ReceivedKeepsNewest` states that the result is the newest 12 lines.
- `IndicatorUi.NewIndicator` (ui/PlayerIndicators.cs:75) is a fresh indicator
  in the colour of its player's team. `Rebuild`, `AddIndicator` and
  `RebuiltIndicatorsHaveTeamColor` use it.
- `ChatUi.Displayed` stands for what Unity's rich-text label shows. It drops
  every `<...>` span, while Unity drops only the tags it recognises. The two
  agree on the lines `FormatMessage` builds from author and message text with
  no `<`, which is the `NoMarkup` precondition of `FormatShowsRawMessage`.
- `Strings.Leading` and `Strings.Trailing` name the white space that `Trim`
  drops, for `TrimSplits`.

## Model

| member | source | states |
|---|---|---|
| `Strings.Trim` | ui/Chat.cs:114 | the trimmed message is empty exactly when the text is all white space (Char.IsWhiteSpace); otherwise it neither begins nor ends with white space |
| `Strings.TrimSplits` | ui/Chat.cs:114 | the text is white space, then its trimmed form, then white space, so trimming drops only surrounding white space |
| `Strings.TrimOfPadded` | ui/Chat.cs:114 | any unpadded middle framed by white space is what Trim returns, so Trim is determined by that split |
| `Strings.TrimIdempotent` | ui/Chat.cs:114 | trimming a trimmed message changes nothing |
| `Strings.Join` | ui/Chat.cs:84 | a join of names starts with the first name |
| `Strings.JoinLength` | ui/Chat.cs:84 | joining k names adds exactly k - 1 separators |
| `Strings.Utf16Length` | ui/Chat.cs:42 | String.Length counts UTF-16 code units: at least one and at most two per character, exactly one per character when all lie in the Basic Multilingual Plane |
| `Strings.Utf16LengthAppend` | ui/Chat.cs:42 | the length of a concatenation is the sum of the lengths of its parts |
| `ChatUi.FormatMessage` | ui/Chat.cs:39 | the formatted line holds the author after the bold tag and ends with the message; its String.Length is exactly 30 code units of markup more than RawMessageLength, and it has 32 characters more than author and message together |
| `ChatUi.RawMessageLength` | ui/Chat.cs:42 | the unformatted length is the String.Length, in UTF-16 code units, of author + ": " + message; for text in the Basic Multilingual Plane it is the character count of author and message plus 2 |
| `ChatUi.FormatShowsRawMessage` | ui/Chat.cs:39-42 | with its tags removed, a formatted line reads exactly author + ": " + message, whose String.Length is RawMessageLength, for author and message without markup |
| `ChatUi.TypingLineStartsWithNames` | ui/Chat.cs:84 | the typing line starts with the first min(n, 3) names, in list order, joined by ", " |
| `ChatUi.TypingLineSingular` | ui/Chat.cs:87 | the line ends with " is typing..." exactly when one player other than "You" is typing, and with " are typing..." otherwise |
| `ChatUi.TypingLineFewPlayers` | ui/Chat.cs:84-87 | with two or three players all names are shown, " and others" is not added, and the length is the names plus separators plus the verb |
| `ChatUi.Capped` | ui/Chat.cs:139 | the oldest line, and only it, is dropped, exactly when the list has grown past 12 lines |
| `ChatUi.ReceivedKeepsNewest` | ui/Chat.cs:14 | receiving lines one by one into a history of at most 12 lines keeps exactly the newest 12 lines ever received, oldest first |
| `ChatUi.Outgoing` | ui/Chat.cs:114-117 | a message is sent exactly when there is a lobby and the message is not blank, and what is sent is the trimmed text, non-empty and unpadded |
| `ChatUi.SendTrimsExample` | ui/Chat.cs:114-117 | "  hello  " is sent as "hello" |
| `ChatUi.Chat.constructor` | ui/Chat.cs:45-65 | a new chat is hidden, with an empty hidden input field and no messages |
| `ChatUi.Chat.UpdateTyping` | ui/Chat.cs:72-88 | the background is shown exactly when someone is typing; with nobody typing the text is left as it was; otherwise the text is the first three names, " and others" when more than three are typing, and the singular or plural verb; it equals TypingLine |
| `ChatUi.Chat.Toggle` | ui/Chat.cs:97-108 | nothing changes while the field holds text and has focus; otherwise Shown flips, the field's visibility follows it, movement is enabled exactly when chat is hidden, and focus is requested when chat is shown |
| `ChatUi.Chat.SendChatMessage` | ui/Chat.cs:111-122 | what is sent is Outgoing of the message; either way the field is cleared and hidden, and nothing else changes |
| `ChatUi.Chat.ReceiveChatMessage` | ui/Chat.cs:125-139 | the formatted line is added last and the oldest line is dropped once there are more than 12, so the list is the newest 12 lines and stays within 12 |
| `Teams.Data` | content/Team.cs:55-59 | every team has data; texture ids lie in 0..3; only Pink has pink wings; wings are white except Pink's (2, 1, 12) |
| `Teams.TeamColors` | content/Team.cs:9-22 | the colour of each team, channel by channel in attribute argument order, with alpha 1 |
| `Teams.TextureIds` | content/Team.cs:9-22 | texture ids are Yellow 0, Red 2, Green 3, Blue 1, Pink 1; only Blue and Pink share one |
| `Teams.ColorsDistinct` | content/Team.cs:9-22 | no two teams have the same colour |
| `Teams.ColorsInRange` | content/Team.cs:36-46 | every team colour is opaque with channels in [0, 1] |
| `IndicatorUi.Teammates` | ui/PlayerIndicators.cs:69 | the filter keeps exactly the players on the given team, and only them |
| `IndicatorUi.TeammatesAppend` | ui/PlayerIndicators.cs:62 | filtering a concatenation filters each part, so players are kept in iteration order |
| `IndicatorUi.UpdateIndicator` | ui/PlayerIndicators.cs:81-84 | nothing changes when the target or the indicator is gone; otherwise the indicator keeps its colour and turns towards the target |
| `IndicatorUi.Locate` | ui/PlayerIndicators.cs:84 | a target has a position exactly when the game has not removed it |
| `IndicatorUi.RebuiltIndicatorsHaveTeamColor` | ui/PlayerIndicators.cs:69-75 | every rebuilt target is a player on the local team and its indicator has the local team's colour |
| `IndicatorUi.PlayerIndicators.constructor` | ui/PlayerIndicators.cs:17-22 | new indicators are hidden with both lists empty |
| `IndicatorUi.PlayerIndicators.Update` | ui/PlayerIndicators.cs:34-38 | each index below the number of targets is updated once, pairing targets[i] with indicators[i]; this stays in bounds because both lists have equal length; targets are unchanged |
| `IndicatorUi.PlayerIndicators.Toggle` | ui/PlayerIndicators.cs:41-51 | nothing changes while chat is shown; otherwise Shown flips, showing rebuilds the lists for the current players, and hiding leaves both lists untouched |
| `IndicatorUi.PlayerIndicators.Rebuild` | ui/PlayerIndicators.cs:54-63 | afterwards the targets are exactly the transforms of the local team's players, in iteration order, each with one new indicator in its team's colour |
| `IndicatorUi.PlayerIndicators.AddIndicator` | ui/PlayerIndicators.cs:66-78 | a teammate adds its transform and a new indicator in its team's colour at the end of both lists; any other player changes nothing |

## Left out

- Unity layout and animation are not modelled. This covers the sizes and
  positions of the chat list, the message heights (`SYMBOLS_PER_ROW`), the
  typing background and the list fade. They are float geometry.
- The fill amount and rotation of an indicator are not modelled. An update
  only records the target position the indicator was turned towards.
- The `InvokeRepeating` timer, `Time.time` and the `sceneLoaded` hooks in both
  classes are engine callbacks and are not modelled.
- `Plugin.cs` is not modelled. It holds Harmony patching, key bindings and
  loaders that are not part of this model.
- `LobbyController`, `Networking`, `RemotePlayer` and the replication layer
  behind them are not part of this model. Their values are inputs.
- `Destroy` of the old indicator game objects in `Rebuild` is not modelled.
  The model records only that the indicators leave the list.
- Reflection in `Extension.Data` is replaced by a `match`, so attribute lookup
  itself is not modelled.
- `ChatUi.RawMessageLength`: the source returns the sum as a float. The model
  keeps it as an exact natural number of UTF-16 code units, which is the same
  for any length below 2^24.
- `IndicatorUi.PlayerIndicators.Rebuild`: the source reads `gameObject` of every
  old indicator before destroying it (ui/PlayerIndicators.cs:57). On an
  indicator the game has already destroyed this throws, so the source would
  stop before clearing the lists. The model clears both lists in every case.
  No operation of the model puts `None` into a list; it appears only as an
  input state.
- `Teams.TeamColors`: Unity colours are 32-bit floats, so `.8f` is not exactly
  0.8. The model keeps each channel as the exact decimal written in the source.
- `ChatUi.Chat.Toggle`: `Utils.ToggleMovement` and `ActivateInputField` are
  calls into code outside this model. They are results of the method, not state.
