# Chat front end: session history model

The application is a small web front end. It forwards a user's prompt to a
generative-language model and renders the reply as Markdown. It keeps, per
browser session, a list of exchanges that can be read, regenerated and deleted
by position. This project models that history list and the five request
handlers that read and change it (`index`, `predict`, `view_history`,
`edit_history`, `delete_history` in `app.py`), and proves what each handler does
to the list.

Modules:

- `Wrappers` (wrappers.dfy): `Option` and `Result`.
- `Text` (text.dfy): Python's `str.strip()`. It is given as `TrimLeft` /
  `TrimRight` / `Strip`, and checked against an independent description
  (`IsStripOf`: a whitespace prefix and suffix cut off, no whitespace left at
  either end). Whitespace is `str.isspace`, listed by code point.
- `HistoryStore` (history_store.dfy): the `Exchange` record and the four list
  operations the handlers use: `append`, bounds-checked read, `h[i] = e` and
  `pop(i)`. Each is stated by position.
- `App` (app.dfy): replies (status code and JSON payload), the shared
  generate-render-stamp step, and class `Session`. Its field `stored` is the
  session's `"history"` entry: `None` while the key is absent. `History()` is
  `session.get("history", [])`. `Index` assigns `stored` when the key is
  missing. `Predict`, `EditHistory` and `DeleteHistory` are methods that
  assign `stored` only on success. `ViewHistory` is a function of the state
  and changes nothing. The object invariant `Valid()` says every stored
  record has a non-empty prompt and an HTML field that is the renderer's output
  for its raw text.
- `Scenarios` (scenarios.dfy): client methods that follow these
  scenarios using only the handlers' contracts. They cover:
  - a blank prompt is refused;
  - create then view;
  - edit of the only record;
  - a failing model, on create and on edit;
  - delete shifting the later records;
  - delete past the end.

Foreign code and I/O become parameters:

- The model client is a per-call function `model: string -> Upstream`. It
  returns text or raises with a message.
- `markdown.markdown` is the session's constant `markdown: string -> Upstream`.
  It is the same function on every request, and it may also raise, since it
  runs inside the same `try`.
- The formatted timestamp is the input `now`.
- The form's `prompt` field and the JSON body's `"prompt"` key are
  `Option<string>` inputs.

Behaviour worth noting:

- `edit_history` does not strip its prompt. A whitespace-only prompt is
  accepted and stored (app.py:74-76). Only `predict` strips (app.py:33).
- A failed regeneration in `edit_history` replies with status 200 and an error
  payload (app.py:91-92). A failed `predict` replies with 500 (app.py:56-57).
- `predict`, `edit_history` and `delete_history` never create the `"history"`
  key on a failure path. Only `index` creates it eagerly (app.py:24-25), and a
  successful handler stores the list it changed.

## Model

| member | source | states |
|---|---|---|
| `Text.IsSpace` | app.py:33 | the characters `str.strip()` removes (`str.isspace`); within ASCII exactly space, tab, line feed, vertical tab, form feed, carriage return and the four information separators |
| `Text.TrimLeft` | app.py:33 | the result is a suffix of the input; everything cut off is whitespace; the result is empty or starts with a non-space |
| `Text.TrimRight` | app.py:33 | the result is a prefix of the input; everything cut off is whitespace; the result is empty or ends with a non-space |
| `Text.Strip` | app.py:33 | the stripped prompt has no whitespace at either end, and is empty exactly when the input is all whitespace |
| `Text.StripIsStripOf` | app.py:33 | `Strip` meets the independent description: a whitespace prefix and suffix removed, and nothing more |
| `Text.StripUnique` | app.py:33 | any string meeting that description is `Strip(s)`, so the description determines the stripped prompt |
| `Text.StripTight` | app.py:33 | a prompt with no surrounding whitespace is left unchanged by stripping |
| `Text.StripIdempotent` | app.py:33 | stripping twice is the same as stripping once |
| `HistoryStore.Append` | app.py:46-51 | `append` adds exactly one record at the end and keeps every earlier position |
| `HistoryStore.Lookup` | app.py:64-65 | the read yields a record exactly when `0 <= i < len(history)`, and then it is `history[i]` |
| `HistoryStore.Replace` | app.py:83-88 | `history[i] = e`: the length is kept, position `i` holds `e`, every other position is unchanged |
| `HistoryStore.Remove` | app.py:100 | `pop(i)`: the length drops by one, positions before `i` are unchanged, the record formerly at `j > i` is now at `j - 1` |
| `HistoryStore.RemoveUndoesAppend` | app.py:46-51 | popping the record just appended gives back the list as it was |
| `HistoryStore.RemoveThenReinsert` | app.py:100 | re-inserting the popped record at its position restores the list, so `pop` loses only that record |
| `HistoryStore.ReplaceUndone` | app.py:83-88 | writing back the old record undoes a replacement |
| `HistoryStore.LookupAfterAppend` | app.py:46-51 | after an append, the new last index reads the new record and every other index reads as before |
| `HistoryStore.LookupAfterReplace` | app.py:83-88 | after a replacement, only index `i` reads differently |
| `HistoryStore.LookupAfterRemove` | app.py:100 | after a pop, indices below `i` read as before and index `j >= i` reads what `j + 1` read before |
| `App.FormPrompt` | app.py:33 | a missing form field reads as ""; the prompt is empty exactly when the field is missing or all whitespace |
| `App.Generate` | app.py:38-45 | success exactly when neither the model nor the renderer raises; the record then carries the prompt sent, the model's text, the rendering of that text and the timestamp; otherwise the first exception's message |
| `App.Session.History` | app.py:63 | `session.get("history", [])`, as read by every handler: the stored list, or the empty list while the key is missing |
| `App.Session.constructor` | app.py:24 | a new session has no `"history"` key; it reads as the empty list and satisfies the invariant |
| `App.Session.Index` | app.py:23-26 | the `"history"` key exists afterwards; an existing list is kept as it is; the history read is unchanged and is what the page renders |
| `App.Session.Predict` | app.py:30-57 | the reply is 200 exactly when the stripped prompt is non-empty and generation succeeds. An empty prompt gives 400 and a model or renderer failure gives 500, and neither changes the session. On success exactly one record is appended: earlier records are unchanged, the new one carries the stripped prompt, the model's text, its rendering and `now`, and it is what viewing the new last index returns |
| `App.Session.ViewHistory` | app.py:62-66 | 200 with `history[index]` exactly when `0 <= index < len(history)`, else 400 "Invalid index."; it reads the session and changes nothing, so equal states give equal replies |
| `App.Session.EditHistory` | app.py:70-93 | an out-of-range index or a missing/empty prompt gives 400 with no change. A failed regeneration gives status 200 with an error payload and no change. It succeeds exactly when the index is in range, the prompt non-empty and generation succeeds; then the length is kept, position `index` carries the unstripped new prompt, the model's text and `now`, and every other position is unchanged |
| `App.Session.DeleteHistory` | app.py:97-103 | 200 exactly when `0 <= index < len(history)`, else 400 "Invalid index." with no change. On success the length drops by one, earlier records are unchanged, the later ones move one place left, and viewing `j >= index` returns what viewing `j + 1` returned before |

## Left out

- Flask routing, `request`/`jsonify`/`render_template`, and the `<int:index>`
  URL converter are HTTP plumbing. The index is a plain `int`, and the explicit
  `0 <=` check is kept. The HTML page that `index` renders is modelled as the
  list it is given.
- The Gemini client configuration (app.py:16-18) is a foreign network client.
  Its `generate_content(...).text` is the `model` oracle, and any exception it
  raises, including on `.text`, is `Raised(message)`.
- `markdown.markdown` is a third-party renderer. It is the session's `markdown`
  oracle.
- `datetime.now().strftime(...)` is clock access. The formatted string is the
  `now` input, and its format is not checked.
- `flask_session` filesystem persistence and the cookie-keyed map of sessions
  (app.py:10-12) are I/O. One session's `"history"` entry is the state.
- The `file` upload read at app.py:32 is never used.
- `EditHistory`: the JSON body is taken to be an object whose `"prompt"` is
  absent or a string. A body that is not JSON, and non-string prompt values
  (numbers, lists), are not modelled. Truthiness is modelled for strings only.
- Concurrent requests on the same session are not handled by the code and not
  modelled.
- Python's negative list indices never reach `pop` or `h[i] = e`, because the
  handlers check `0 <= index` first. `Replace` and `Remove` therefore require an
  in-range index.
