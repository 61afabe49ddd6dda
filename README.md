# Todo-list client state, in Dafny

This project models the one piece of logic in the todo-list front end: how the
React component in `frontend/src/App.jsx` updates its local state when a request
to the REST backend finishes. The component holds three pieces of state:

- `todos`, an ordered sequence of `{id, title, completed}` records;
- `newTitle`, the compose field;
- `loading`, a flag set while the whole list is being loaded.

Four handlers change that state: `fetchTodos` (load the list), `addTodo`
(create), `toggleTodo` (flip the completed flag) and `deleteTodo`. Each is a
method of the class `App.ClientState`. The server's answer is a parameter of the
method (`Outcome`: `Ok(value)` or `Failed`), and the method returns the request
the component would send (`Request`: `Get`, `Post`, `Patch`, `Delete`). The
updater functions the handlers pass to `setTodos` are pure Dafny functions in
module `Todos`: `Prepend` (`[todo, ...prev]`), `ReplaceById` (`prev.map(...)`)
and `RemoveById` (`prev.filter(...)`). The blank-title guard `!newTitle.trim()`
is `Trim.IsBlank`.

Files:

- `todos.dfy` — module `Todos`: the `Todo` record, the three updater functions
  and the lemmas about them (order, length, idempotence, unique ids, the
  characterisation of filtering).
- `trim.dfy` — module `Trim`: ECMAScript's whitespace set, `trim` and the blank
  guard.
- `app.dfy` — module `App`: requests, outcomes, the `ClientState` class with the
  handlers, and four client scenarios proved from the handlers' contracts.

Ids are modelled as `int`, on the assumption that the server always sends ids
as JSON integers small enough to be exact as JavaScript numbers (below 2^53).
The component compares them only with `===` and `!==`, so the model's equality
matches under that assumption. It would not match if the server mixed types (a
string `"1"` is not `===` the number `1`), or if two ids above 2^53 decoded to
the same number.

## Model

| member | source | states |
|---|---|---|
| `App.ClientState.constructor` | frontend/src/App.jsx:6-8 | The state starts with an empty list, an empty compose field and `loading` false. |
| `App.ClientState.EditTitle` | frontend/src/App.jsx:71 | Typing sets the compose field to the input's value; the list and the flag stay the same. |
| `App.ClientState.FetchTodos` | frontend/src/App.jsx:10-21 | A load sends a list request. On success the list becomes exactly the returned sequence. On failure the old list stays. Either way `loading` ends up false and the compose field is unchanged. |
| `App.ClientState.AddTodo` | frontend/src/App.jsx:27-39 | A blank field sends no request and changes nothing. Otherwise a create request is sent with the untrimmed field and `completed` false. On success the returned record is prepended and the field is cleared. On failure nothing changes. `loading` never changes. |
| `App.ClientState.ToggleTodo` | frontend/src/App.jsx:41-49 | The patch carries the argument's id and the negation of the argument's flag. On success the list becomes `ReplaceById(old list, reply)`, matched on the reply's id. On failure the list stays. The field and the flag are unchanged. |
| `App.ClientState.DeleteTodo` | frontend/src/App.jsx:51-54 | A delete request for the id is sent. Any reply, whatever its status or body, turns the list into `RemoveById(old list, id)`. Only a rejected `fetch` leaves it as it was. The field and the flag are unchanged. |
| `App.CreateScenario` | frontend/src/App.jsx:27-39 | After loading `[{1,"a"}]` and submitting "b" answered by `{2,"b"}`, the request sent is a create request for "b", not completed. The list is `[{2,"b"}, {1,"a"}]` and the field is empty. |
| `App.BlankScenario` | frontend/src/App.jsx:29 | Submitting "   " sends no request (`None`), whatever the server would answer. The list and the field keep their values. |
| `App.ToggleScenario` | frontend/src/App.jsx:41-49 | Toggling `{1,"a",false}` answered by `{1,"a",true}` changes that record in place. A failed reload afterwards keeps the list and clears `loading`. |
| `App.DeleteScenario` | frontend/src/App.jsx:51-54 | Deleting id 1 from `[{1,"a"}, {2,"b"}]` leaves `[{2,"b"}]`. |
| `Todos.Prepend` | frontend/src/App.jsx:37 | The created record comes first. The length grows by exactly one, and every old record moves one place down in its old order. |
| `Todos.PrependKeepsUnique` | frontend/src/App.jsx:37 | Prepending a record whose id is not yet in the list keeps the ids unique. |
| `Todos.ReplaceById` | frontend/src/App.jsx:48 | The length is unchanged. Each position whose id equals the reply's id holds the reply. Every other position is unchanged. |
| `Todos.ReplaceKeepsIds` | frontend/src/App.jsx:48 | Replacing never changes the id at any position, so unique ids stay unique. |
| `Todos.ReplaceUnknownIsIdentity` | frontend/src/App.jsx:48 | A reply whose id is not in the list leaves the list exactly as it was. |
| `Todos.ReplaceIdempotent` | frontend/src/App.jsx:48 | Applying the same reply twice gives the same list as applying it once. |
| `Todos.ToggleFlipsExactlyOne` | frontend/src/App.jsx:41-48 | With unique ids, a reply that is record `i` with its flag flipped flips exactly that record's flag and keeps its id and title. Every other record is unchanged. |
| `Todos.RemoveById` | frontend/src/App.jsx:53 | A record is in the result exactly when it is in the old list and has a different id. The result is never longer than the old list. |
| `Todos.RemoveCount` | frontend/src/App.jsx:53 | The result is shorter than the old list by exactly the number of records that had the id. |
| `Todos.RemoveIsSubsequence` | frontend/src/App.jsx:53 | The kept records appear in the old list in the same relative order. |
| `Todos.RemoveIsTheOnlySelection` | frontend/src/App.jsx:53 | Any ordered selection from the old list that avoids the id and has as many records as the list has with other ids is equal to `RemoveById`. So the result is exactly the other records, in their original order. |
| `Todos.RemoveAbsentIsIdentity` | frontend/src/App.jsx:53 | Deleting an id that is not in the list leaves the list unchanged. |
| `Todos.RemoveIdempotent` | frontend/src/App.jsx:53 | Deleting twice gives the same list as deleting once. |
| `Todos.RemoveKeepsUnique` | frontend/src/App.jsx:53 | Deleting keeps the ids unique. |
| `Todos.RemoveUndoesPrepend` | frontend/src/App.jsx:37-53 | Creating a record with a fresh id and then deleting that id gives back the list from before. |
| `Trim.LeadingWhitespace` | frontend/src/App.jsx:29 | The count is the length of the whitespace run at the start of the string: every character before it is whitespace, and the character at it, if any, is not. |
| `Trim.TrailingWhitespace` | frontend/src/App.jsx:29 | The count is the length of the whitespace run at the end of the string: every character of it is whitespace, and the character just before it, if any, is not. |
| `Trim.Trim` | frontend/src/App.jsx:29 | `trim()` is the input with its leading whitespace run and its trailing whitespace run removed, and nothing else. The result is the infix of the input that starts right after the leading run, and only whitespace follows it. A non-empty result neither starts nor ends with whitespace. |
| `Trim.TrimEmptyIffAllWhitespace` | frontend/src/App.jsx:29 | `trim()` gives the empty string exactly when the input is made only of whitespace, the empty string included. |
| `Trim.IsBlank` | frontend/src/App.jsx:29 | The empty string is the only falsy string, so the guard `!newTitle.trim()` holds exactly when the field is made only of whitespace. |
| `Trim.BlankIgnoresPadding` | frontend/src/App.jsx:29 | Whitespace added before or after a title does not change the guard's verdict. |
| `Trim.VisibleCharNotBlank` | frontend/src/App.jsx:29 | A title with at least one non-whitespace character passes the guard. |
| `Trim.BlankExamples` | frontend/src/App.jsx:29 | "", "   " and " \t\n" are blank, so submitting them sends nothing. |

## Left out

- The `fetch` calls, HTTP methods, paths, headers and JSON encoding and decoding (`res.json()`). These are I/O. Each request is a `Request` value, and each reply is an `Outcome` parameter.
- HTTP status codes. The component never checks `res.ok`. So a non-success reply whose body decodes as JSON is handled like a success by `fetchTodos`, `addTodo` and `toggleTodo`, and any reply at all counts for `deleteTodo`. In the model, `Ok(v)` stands for "the body decoded to `v`", whatever the status. The model does not represent an error body that is not a todo record, or a list reply that is not an array.
- The API base URL from `import.meta.env` (`frontend/src/App.jsx:3`). It is build-time configuration that only affects paths.
- React's hook machinery: `useState`, the `useEffect` that calls `fetchTodos` on mount (`frontend/src/App.jsx:23-25`), and updater scheduling. Each handler is modelled as running to completion, with `setTodos((prev) => ...)` applied to the state current at that moment.
- Interleaving and races between overlapping requests, for example two loads in flight. They are left out because each handler is one atomic step here.
- The momentary `loading == true` inside `fetchTodos`. `App.ClientState.FetchTodos` sets it and clears it in one step, so only the final cleared value is visible.
- `e.preventDefault()` in `addTodo` and the whole render tree (`frontend/src/App.jsx:56-125`), including the loading / empty / list branch. They are presentation only.
- The console diagnostic on a failed load (`console.error`). It is output only.
- `Trim.IsWhitespace`: follows the WhiteSpace and LineTerminator productions of the ECMAScript specification, with the Unicode category Zs taken as of Unicode 15. Later Unicode versions may add characters to that category.
- Unique ids in the list are not an invariant of `App.ClientState`. The component does not enforce them, and a load may return duplicates. Preservation of uniqueness is proved as lemmas about the updater functions instead.
