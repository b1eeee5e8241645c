# Excuse Pro AI — a Dafny model of its core

Excuse Pro AI is a single-page app. It turns a few form selections into a prompt for a hosted language model and keeps the excuses it gets back in a history list, newest first, with favourite and delete actions and a favourites-only view. A floating chat widget carries on a conversation with the same model. This project models the logic behind that UI and proves what it promises:

- `types.dfy` (module `Types`): the record shapes. These are the request, the stored excuse with its optional favourite flag, and the chat message with its role.
- `gemini_service.dfy` (module `GeminiService`): the generation client. It builds the excuse prompt from the request, builds the call shapes sent to the model, and substitutes the fixed fallback strings when the model's text is missing or empty. The model's text is an input: `None` when the SDK returns no text.
- `arrays.dfy` (module `Arrays`): JavaScript's `Array.prototype.filter`, with lemmas that pin its result down. The result is an in-order subsequence of the input, it holds each kept value exactly as often as the input does, and filtering is idempotent.
- `app.dfy` (module `App`): the main page. It resolves the `Custom...` selections and holds the pure list transforms (prepend, toggle, delete, view). The class `ExcuseApp` holds `loading`, `showFavoritesOnly` and the list, and its methods follow `handleGenerate` through its begin, success and failure steps.
- `chat_box.dfy` (module `ChatBox`): the chat widget. It models JavaScript `trim` for the blank-input guard. The class `Conversation` holds the append-only log, the text box and the loading flag. A send is split at its `await` into `BeginSend` and then `CompleteSend` or `FailSend`. The class invariant says that roles alternate model, user, model, … and that the last turn belongs to the user exactly while a reply is pending.

Three behaviours of the code shape the model:
- Record ids are not guaranteed unique: they come from `Math.random`. So nothing assumes uniqueness. `toggleFavorite` flips every record with the id, and `deleteExcuse` drops every such record.
- The prompt does not embed the detail verbatim in every case. An absent or empty detail becomes `None`, so an absent detail, an empty one and the literal text `None` give the same prompt (`PromptMergesMissingDetails`).
- The favourite flag is optional in the record type. A missing flag reads as false, and toggling writes `!flag`. So toggling twice restores every flag's truth value, but a missing flag comes back as an explicit `false`.

`CompleteSend` and `FailSend` require `isLoading`. They model the continuation after the `await` of an accepted send, which runs only in that state. `CompleteGenerate` and `FailGenerate` need no such condition, because `handleGenerate` has no guard of its own.

## Model

| member | source | states |
|---|---|---|
| `GeminiService.DetailsSlot` | services/geminiService.ts:16 | the details slot is never empty; it is the detail when present and non-empty, and `None` otherwise |
| `GeminiService.ConcatPiece` | services/geminiService.ts:9-23 | in a template literal's output, each piece sits verbatim at the total length of the pieces before it |
| `GeminiService.FillSlots` | services/geminiService.ts:9-23 | any filled template starts with its introduction, holds each field verbatim at its offset, keeps non-empty labels between neighbouring fields, and ends with its closing text |
| `GeminiService.PromptSlots` | services/geminiService.ts:9-23 | the prompt holds recipient, situation, reason and tone verbatim, in that order, in disjoint slots, then the details slot; it starts with the same introduction and ends with the same guideline block for every request |
| `GeminiService.PromptDetails` | services/geminiService.ts:16 | the details slot of the prompt reads `None` when the detail is absent or empty, and the detail verbatim otherwise |
| `GeminiService.PromptMergesMissingDetails` | services/geminiService.ts:16 | an absent detail, an empty detail and the detail `None` produce the same prompt |
| `GeminiService.ExcuseCall` | services/geminiService.ts:25-31 | the excuse call sends the built prompt to the fixed model id, with no system instruction |
| `GeminiService.ChatCall` | services/geminiService.ts:39-45 | the chat call sends the history unchanged, with a system instruction that is the same constant for every history |
| `GeminiService.ExcuseReply` | services/geminiService.ts:33 | the excuse result is the model's text when it is non-empty, and the fixed excuse fallback otherwise, so it is never empty |
| `GeminiService.ChatReply` | services/geminiService.ts:47 | the chat result is the model's text when it is non-empty, and the fixed chat fallback otherwise, so it is never empty |
| `Arrays.FilterSubsequence` | App.tsx:176 | a filtered list is an in-order subsequence of the original |
| `Arrays.FilterCount` | App.tsx:180 | a filtered list holds each kept value exactly as often as the original, and no other value |
| `Arrays.FilterMembers` | App.tsx:180 | a value is in a filtered list exactly when it is in the original and passes the test |
| `Arrays.FilterLength` | App.tsx:176 | filtering never lengthens a list; the length is kept exactly when every element passes, and then the list is unchanged |
| `Arrays.FilterIdempotent` | App.tsx:176 | filtering twice with the same test equals filtering once |
| `App.ResolveRequest` | App.tsx:132-143 | each of situation, recipient, reason and tone is the free text when its selection is `Custom...`, and the selection otherwise; the detail is passed on unchanged |
| `App.NewExcuse` | App.tsx:147-152 | a new record carries the given id, text and timestamp and is not a favourite |
| `App.ToggledAt` | App.tsx:169-173 | toggling keeps length, order, ids, texts and timestamps; it flips the flag of exactly the records whose id matches and leaves every other record identical |
| `App.ToggledAbsent` | App.tsx:169-173 | toggling an id that no record has leaves the list unchanged |
| `App.ToggledTwice` | App.tsx:170-172 | toggling the same id twice restores every favourite flag (a missing flag reads as false) and changes no other field |
| `App.DeleteSpec` | App.tsx:175-177 | deleting keeps exactly the records with a different id, in order and with their multiplicity; the length is kept exactly when no record has the id |
| `App.DeleteAbsent` | App.tsx:175-177 | deleting an id that no record has is a no-op |
| `App.DeleteTwice` | App.tsx:175-177 | deleting the same id twice equals deleting it once |
| `App.FavoritesViewSpec` | App.tsx:179-181 | with the filter off the view is the whole list; with it on, the view is the in-order subsequence of favourites: all favourites, each as often as in the list, and nothing else |
| `App.ExcuseApp.constructor` | App.tsx:98-112 | the page starts idle, with the filter off and an empty list |
| `App.ExcuseApp.Restore` | App.tsx:115-124 | a decoded saved list replaces the list; with nothing saved or a decode failure the list stays as it was; the flags are untouched |
| `App.ExcuseApp.BeginGenerate` | App.tsx:130-143 | generation sets loading and builds the request from the resolved form; the list and filter are unchanged |
| `App.ExcuseApp.CompleteGenerate` | App.tsx:144-160 | on success the list becomes the new record followed by the old list; the record holds a non-empty excuse and is not a favourite; the filter is switched off and loading ends |
| `App.ExcuseApp.FailGenerate` | App.tsx:155-160 | on failure only loading changes (to false); the list and filter stay as they were |
| `App.ExcuseApp.ToggleFavorite` | App.tsx:169-173 | the list becomes its toggled form with the same length; for an absent id it is unchanged; loading and filter are untouched |
| `App.ExcuseApp.DeleteExcuse` | App.tsx:175-177 | the list loses every record with the id and keeps the rest; for an absent id it is unchanged; loading and filter are untouched |
| `App.ExcuseApp.FlipFilter` | App.tsx:341 | the favourites button flips the filter and changes nothing else |
| `App.ExcuseApp.FilteredExcuses` | App.tsx:179-181 | the displayed list is a read of the state: the whole list with the filter off; with it on, the in-order subsequence of favourites holding each favourite as often as the list does, and nothing else |
| `ChatBox.TrimStartSpec` | components/AIChatBox.tsx:24 | trimming the start drops exactly the leading white space: the rest is a suffix that is empty or starts with non-white-space |
| `ChatBox.TrimEndEmpty` | components/AIChatBox.tsx:24 | trimming the end leaves nothing exactly when the text is all white space |
| `ChatBox.TrimEmptyIffBlank` | components/AIChatBox.tsx:24 | `trim()` gives the empty string, which the guard rejects, exactly when the input is all white space |
| `ChatBox.Conversation.constructor` | components/AIChatBox.tsx:8-12 | the conversation starts with exactly one model message holding the greeting, an empty box, and not loading |
| `ChatBox.Conversation.SetInput` | components/AIChatBox.tsx:98 | typing changes only the box |
| `ChatBox.Conversation.BeginSend` | components/AIChatBox.tsx:23-30 | a send is accepted exactly when the box is not all white space and no reply is pending; a rejected send changes nothing; an accepted one appends one user message with the untrimmed text, clears the box, sets loading, and hands on the previous log plus that message; roles keep alternating |
| `ChatBox.Conversation.CompleteSend` | components/AIChatBox.tsx:32-39 | a reply appends exactly one model message with the model's text (or the chat fallback) and clears loading; earlier messages are kept |
| `ChatBox.Conversation.FailSend` | components/AIChatBox.tsx:35-39 | a failure appends exactly one model message with the fixed apology and clears loading; earlier messages are kept |

## Left out

- Rendering, styles, the logo and scrolling (the JSX in App.tsx and components/AIChatBox.tsx): presentation only. The form fields are edited by that layer, so the model takes them as a `Form` value.
- Browser storage and JSON: `Restore` receives the already-decoded list, or `None` for a missing entry or a parse failure. The storage key and the write-back after every change are not modelled.
- Clipboard copy and its two-second acknowledgement timer: foreign I/O and timers.
- The SDK call itself, the API key and the temperature setting: remote calls. The model's answer enters as an `Option<string>`, and a thrown error enters as the choice of `FailGenerate` or `FailSend`.
- Generating ids with `Math.random` and timestamps with `Date.now`: they are non-deterministic, so `CompleteGenerate` takes both as parameters. Ids are not assumed unique.
- The user-facing alert and the console logging on failure: UI side effects with no state.
- netlify/functions/generate.js is not part of this model: it is an HTTP proxy that parses a body, calls the remote model and wraps the answer in a 200 or 500 response.
- Overlapping asynchronous sends or generations: the loading guards and disabled buttons keep each flow sequential, so concurrency is not modelled.
