# Map bridge and chat turn of the civic-feedback client

This project models, in Dafny, the two pieces of logic in the mobile client
that have behaviour worth stating precisely:

- **The map bridge** (`components/OpenStreetMap.tsx`). The component builds an
  inline Leaflet page as one template literal and receives the page's messages.
  - `MapPage` covers the page. It has the two escapers: popup text gets a
    backslash before each backtick and `$`, and marker ids get a backslash before
    each `'`. It also builds the dynamic body of `initMap` as a sequence of
    sections (`Opening`, one block per read-only marker, `Closing`).
  - `MapBridge` covers `handleMessage`. It is a class over `isLoading`, the
    parent's `markerCoords` and a log of the `onPress` / `onMarkerPress` calls.
    Its specification is the function `Step`, and `Run` folds `Step` over a
    sequence of messages.
- **The chat turn** (`app/pages/chat.tsx`, `send`). The module `Chat` takes the
  HTTP exchange as an input (`Thrown`, or `Response(status, raw, body)` with
  what `JSON.parse` made of the body). A turn is then the transition `SendTurn`,
  which the class `ChatScreen` carries out step by step.

`Text` holds the shared string helpers: JavaScript's `trim`, decimal rendering
of an integer, `.replace(/c/g, rep)` with a one-character pattern, and the
reference escaper `BackslashBefore`.

Where this model and the natural reading of the design differ, it follows the code:
- Only `res.ok` (status 200–299) leads to parsing.
- When the body parses to a JSON string, the reply is that string, not the raw
  text.
- When the body parses to `null`, a number or a boolean, the reply is "(応答なし)".
- The response's `form_complete` and `generated_json.form` are never read.
- `initialRegion`'s deltas are never used. The page always opens at zoom 15.

## Model

| member | source | states |
|---|---|---|
| `Text.TrimStart` | app/pages/chat.tsx:74 | the result is the longest suffix of the input that does not start with ECMAScript whitespace or a line terminator; everything dropped is whitespace |
| `Text.TrimEnd` | app/pages/chat.tsx:74 | the result is the longest prefix of the input that does not end with whitespace; everything dropped is whitespace |
| `Text.Trim` | app/pages/chat.tsx:74 | `text.trim()`: `TrimStart`, then `TrimEnd`; what it keeps and drops is stated by `TrimSpec` and `TrimEmptyIff` |
| `Text.TrimSpec` | app/pages/chat.tsx:74 | `text.trim()` is a contiguous piece of the input with only whitespace before and after it, and it neither starts nor ends with whitespace |
| `Text.TrimEmptyIff` | app/pages/chat.tsx:74-75 | the trimmed text is empty exactly when the input is all whitespace, so `if (!content) return` fires exactly for blank input |
| `Text.Decimal` | components/OpenStreetMap.tsx:132 | the rendering of an index is a non-empty string of digits without a leading zero |
| `Text.DecimalRoundTrip` | components/OpenStreetMap.tsx:132 | reading the decimal rendering back gives the number |
| `Text.DecimalInjective` | components/OpenStreetMap.tsx:132 | distinct numbers render differently |
| `MapPage.EscapeTemplate` | components/OpenStreetMap.tsx:138 | the two `.replace` passes on popup text; `EscapeTemplateIsBackslashBefore`, `EscapeTemplateSpec` and `EscapeTemplateRoundTrip` state what they do |
| `MapPage.EscapeTemplateIsBackslashBefore` | components/OpenStreetMap.tsx:138 | the two `.replace` passes together insert one backslash before every backtick and every `$` and leave every other character as it is |
| `MapPage.EscapeTemplateSpec` | components/OpenStreetMap.tsx:138 | escaped length = input length + number of backticks and `$`; the non-backslash characters are unchanged and in order; exactly one backslash is added per backtick or `$` |
| `MapPage.EscapeQuote` | components/OpenStreetMap.tsx:146 | the `.replace` on a marker id; `EscapeQuoteIsBackslashBefore`, `EscapeQuoteSpec` and `EscapeQuoteRoundTrip` state what it does |
| `MapPage.EscapeQuoteIsBackslashBefore` | components/OpenStreetMap.tsx:146 | the id escaping inserts one backslash before every `'` and changes nothing else |
| `MapPage.EscapeQuoteSpec` | components/OpenStreetMap.tsx:146 | escaped length = id length + number of `'`; other characters unchanged and in order; one backslash added per `'` |
| `MapPage.EscapeTemplateRoundTrip` | components/OpenStreetMap.tsx:138 | for text without backslashes, the escaped text read back as a template-literal body gives the original text: it neither closes the literal nor opens a `${` substitution |
| `MapPage.EscapeQuoteRoundTrip` | components/OpenStreetMap.tsx:146 | for an id without backslashes, line feeds or carriage returns, the escaped id read back as a single-quoted string body gives the id |
| `MapPage.BackslashDefeatsEscaping` | components/OpenStreetMap.tsx:138-146 | two witnesses that the escapers leave the backslash alone: the title `\`` (backslash, backtick) and the id `\'` (backslash, quote) each yield text that closes its literal early |
| `MapPage.EvenBackslashesLoseOne` | components/OpenStreetMap.tsx:138-146 | with two backslashes before the backtick or the quote the literal stays open, but the title or id reads back with one backslash fewer |
| `MapPage.PopupBody` | components/OpenStreetMap.tsx:135-141 | the `bindPopup` template-literal body of one marker, or no popup; `PopupSpec` states when it is bound and what it reads back as |
| `MapPage.PopupSpec` | components/OpenStreetMap.tsx:135-141 | a popup is bound exactly when the title or the description is non-empty; for backslash-free text its literal reads back as the title, then `<br>` only when both are non-empty, then the description |
| `MapPage.InitMapBody` | components/OpenStreetMap.tsx:65-175 | the dynamic body of `initMap` as sections; `PageStructure`, `PageOrder`, `OptionalMarkers` and `ExistingMarkersOfPage` state its shape |
| `MapPage.MarkerBlocks` | components/OpenStreetMap.tsx:129-151 | `markers.map(...)`, one block per marker; `MarkerSections` and `MarkerIdsRoundTrip` state its contents |
| `MapPage.PageStructure` | components/OpenStreetMap.tsx:65-175 | the page opens with the map setup at the initial region's centre; the click-to-place handler is present iff `disableMapClick` is false; the `mapReady` post is last and appears once; the section count is 2 + one per optional part present + one per marker |
| `MapPage.PageOrder` | components/OpenStreetMap.tsx:72-175 | the sections always come in this order: setup, click handler, draggable marker, read-only markers, current-location marker, `mapReady` post |
| `MapPage.OptionalMarkers` | components/OpenStreetMap.tsx:108-171 | the initial draggable marker is at `c` iff `markerCoords` is `c`; the current-location marker is at `c` iff `currentLocation` is `c` |
| `MapPage.ExistingMarkersOfPage` | components/OpenStreetMap.tsx:129-151 | the read-only marker sections of the page are exactly `markers.map(...)`, with nothing else interleaved |
| `MapPage.MarkerSections` | components/OpenStreetMap.tsx:129-151 | one section per marker, in input order; the k-th is named `existingMarker_k` and carries the k-th marker's coordinates, popup and escaped id; no two share a name |
| `MapPage.MarkerNamesDistinct` | components/OpenStreetMap.tsx:132 | different indexes give different `const` names, so the page never declares a name twice |
| `MapPage.MarkerIdsRoundTrip` | components/OpenStreetMap.tsx:143-147 | when no id has a backslash or line terminator, the ids written into the page read back as the input ids, one per marker and in order |
| `MapBridge.Step` | components/OpenStreetMap.tsx:204-232 | the effect of one message; `StepEffects` states each case, and `HandleMessage` is proved to carry it out |
| `MapBridge.Run` | components/OpenStreetMap.tsx:204-232 | a sequence of messages handled in order; `LoadingOnlyClears`, `SelectedIsLastPlaced`, `CallbacksOfRun` and `IgnoredRunIsNoOp` state its effect against separate definitions |
| `MapBridge.StepEffects` | components/OpenStreetMap.tsx:204-232 | `mapClick` and `markerDrag` set the selected coordinate to the payload's position; only `mapClick` calls `onPress`, and only when provided; `markerClick` calls `onMarkerPress` with the id when provided and changes neither coordinate nor loading; `mapReady` clears loading; an ignored payload changes nothing |
| `MapBridge.LoadingOnlyClears` | components/OpenStreetMap.tsx:209-210 | after any run of messages, loading is still on iff it was on before and no `mapReady` arrived; nothing sets it back to true |
| `MapBridge.SelectedIsLastPlaced` | components/OpenStreetMap.tsx:212-224 | after a run, the selected coordinate is the position of the last `mapClick` or `markerDrag`, or the earlier value if there was none |
| `MapBridge.CallbacksOfRun` | components/OpenStreetMap.tsx:212-227 | the callback log only grows; `onPress` is called once per `mapClick` if provided and never otherwise; `onMarkerPress` receives the `markerClick` ids in order if provided |
| `MapBridge.IgnoredRunIsNoOp` | components/OpenStreetMap.tsx:205-231 | payloads that fail to parse, or whose `type` is not one of the four, change no state and call nothing |
| `MapBridge.OpenStreetMap.constructor` | components/OpenStreetMap.tsx:43 | `isLoading` starts true, with no callbacks called |
| `MapBridge.OpenStreetMap.HandleMessage` | components/OpenStreetMap.tsx:204-232 | the new state is `Step` of the old state and the payload |
| `Chat.ReplyText` | app/pages/chat.tsx:158-169 | the bot's reply on success; `ReplyFallback` states its fallback chain and when it is empty |
| `Chat.Answer` | app/pages/chat.tsx:114-211 | the exchange's effect on the state; `AnswerAddsOne`, `ErrorPathKeepsForm` and `SuccessPathUpdatesForm` state it per path |
| `Chat.SendTurn` | app/pages/chat.tsx:73-212 | one press of the send button; `BlankInputIsNoOp`, `TurnAddsTwoMessages`, `RequestContents` and `TurnKeepsAnswerEmpty` state its effect, and `ChatScreen.Send` is proved to carry it out |
| `Chat.AnswerAddsOne` | app/pages/chat.tsx:123-211 | every outcome of the exchange (thrown, HTTP error, refusal, reply) adds exactly one bot message on top |
| `Chat.BlankInputIsNoOp` | app/pages/chat.tsx:74-75 | input that is all whitespace changes nothing, keeps the input text and posts no request |
| `Chat.TurnAddsTwoMessages` | app/pages/chat.tsx:78-85 | otherwise the trimmed text sits as a `me` message under exactly one bot message; the earlier messages are an unchanged suffix; the input is cleared; a request is posted |
| `Chat.History` | app/pages/chat.tsx:88-96 | the `messages` of the request; `HistoryIndex` states its layout |
| `Chat.BuildRequest` | app/pages/chat.tsx:91-112 | the request body; `RequestContents` states what it carries |
| `Chat.HistoryIndex` | app/pages/chat.tsx:88-96 | the history has one entry more than the prior messages; entry `i` is the `i`-th oldest prior message with its role, and the last is the new message |
| `Chat.RequestContents` | app/pages/chat.tsx:88-106 | the request lists the prior messages oldest first, with `user` exactly for `me` messages and `assistant` otherwise, then the new message as `user`; it carries the stored form, answer and `form_complete`, and the mail address |
| `Chat.ReplyFallback` | app/pages/chat.tsx:136-169 | reply = non-empty `generated_json.answer`, else non-empty `generated_text`, else "(応答なし)" for an object; the raw text when the body is not JSON; "(応答なし)" for null, number or boolean; the reply is empty only for an empty raw body or the JSON string "" |
| `Chat.ErrorPathKeepsForm` | app/pages/chat.tsx:114-211 | a thrown request, a non-OK status (status and body, or "(本文なし)") and `success === false` (`error`, or the default text) each add their message on top and leave form, answer and `form_complete` unchanged |
| `Chat.SuccessPathUpdatesForm` | app/pages/chat.tsx:171-200 | on success the reply is shown; the form is replaced only when the response carries one, and is kept otherwise; `form_complete` becomes false and `answer` becomes empty |
| `Chat.Converse` | app/pages/chat.tsx:73-212 | a sequence of typed inputs, each sent with its outcome; `FormCarriedOver`, `AnswerAlwaysEmpty` and `MessagesPerTurn` state what it keeps |
| `Chat.TurnForm` | app/pages/chat.tsx:172-184 | a turn's only effect on the form is storing the form of a successful response that carries one |
| `Chat.FormCarriedOver` | app/pages/chat.tsx:97-103 | after any sequence of turns, the form that the next request carries is the one from the latest successful reply with a form; before such a reply it is the starting form, all null on a fresh screen |
| `Chat.TurnKeepsAnswerEmpty` | app/pages/chat.tsx:104-106 | from a state whose `answer` is empty and `form_complete` false, a turn keeps both so and its request sends them so |
| `Chat.AnswerAlwaysEmpty` | app/pages/chat.tsx:104-106 | from a fresh screen, after any turns, every request sends an empty `answer` and `form_complete` false |
| `Chat.MessagesPerTurn` | app/pages/chat.tsx:73-212 | every sent turn adds exactly two messages and a blank one adds none |
| `Chat.ChatScreen.constructor` | app/pages/chat.tsx:52-71 | the screen starts with the greeting alone, empty input, an all-null form, an empty answer and `formComplete` false |
| `Chat.ChatScreen.ChangeText` | app/pages/chat.tsx:255 | typing replaces the input text and nothing else |
| `Chat.ChatScreen.Send` | app/pages/chat.tsx:73-212 | the new state and the posted request are those given by `SendTurn` for the old state and the outcome |
| `Chat.ChatScreen.Receive` | app/pages/chat.tsx:114-211 | the exchange turns the state with the user's message shown into `Answer` of that state and the outcome |

## Left out

- Rendering and styling are left out: the JSX, the loading overlay and every `StyleSheet` block. None of them has behaviour.
- The fixed text of the page is not modelled. This is the HTML head, the tile layer, `updateMarker`, the `DOMContentLoaded` hook, and the Leaflet calls and `dragend` handlers inside the page. It runs in the WebView against a library outside this model.
- Coordinates are `real` pairs and are never formatted into text. Floating-point behaviour is not modelled.
- React re-rendering is not modelled. When the parent's `markerCoords` changes, the component rebuilds the page and the WebView reloads it.
- The popup text is inserted into HTML. HTML escaping (or its absence) is not modelled.
- `ReadTemplateBody` and `ReadQuotedBody` read only the escapes `\``, `\$`, `\'` and `\\`. They do not model the template literal's line-terminator normalisation.
- MapPage.EscapeTemplateRoundTrip: stated only for text without backslashes. The escaper does not escape the backslash itself, so no stronger promise holds (see `BackslashDefeatsEscaping`).
- MapPage.EscapeQuoteRoundTrip: stated only for ids without backslashes, for the same reason, and without line feeds or carriage returns, which a single-quoted literal cannot hold.
- MapPage.MarkerIdsRoundTrip: stated only when no id holds a backslash, a line feed or a carriage return, because it rests on `EscapeQuoteRoundTrip`.
- Message payloads with a missing `latitude`, `longitude` or `markerId` are not told apart from complete ones. The page always sends all of them.
- The error log written by `console.error` in `handleMessage` is not modelled.
- The `fetch` call and `JSON.parse` are inputs (`Outcome`, `Body`). The model does not check that `body` is what parsing `raw` would give.
- A non-string, non-null `error` in a `success: false` response is not modelled: `send` shows it as it is, while here `error` is a string or absent. An absent `e.message` is not modelled either: it is given as "".
- Form fields that are neither strings nor null are not modelled. `data.form.title ?? null` keeps such a value, and the next request sends it back, but a `Form` field holds only a string or nothing.
- `Date.now()`-based message ids and timestamps are not modelled. Neither is the constant `schema` part of the request.
- Sends are strictly sequential. Overlapping sends and the stale `messages` closure that they expose are not modelled.
- JavaScript strings are UTF-16 code units. Here a `char` is a Unicode scalar value, so surrogate pairs are not modelled.
- The HTTP clients, device location, the opinion and location contexts, the other screens and the app wiring are not part of this model. They are I/O, native calls or one-line setters.
