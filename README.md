# cloud-task-manager: a Dafny model of the todo page, the API client and the login flow

This project models the three pieces of logic in the cloud-task-manager web
client that have statable behaviour, with every network reply, the presence of
a browser `window` and the contents of local storage taken as inputs:

- **The todo page** (`app/user-info/page.tsx`): a component with four pieces
  of state (`todos`, `newTodo`, `editingId`, `editText`) and its handlers for
  the mount-time load, create, update, delete, start-edit, cancel and the two
  input fields. It is modelled as the class `UserInfoPage.TodoPage`. Each
  handler is a method that takes the server outcome as a parameter and returns
  the requests it sends. The list transforms inside the handlers, the `map`
  that patches an edited item and the `filter` that drops a deleted one, are
  functions in `TodoList` with their lemmas. The blank-input guard uses
  JavaScript's `trim`, which is modelled in `JsString`.
- **The authenticated request client** (`app/utils/api.service.ts`): module
  `ApiService`. It holds `getAuthHeaders`, the request interceptor and its
  error callback, and the `GET`/`POST`/`PUT`/`DELETE` wrappers. The
  interceptor changes `config.headers` in place, so the request configuration
  is a class whose header map the method `OnRequest` reassigns.
- **The login flow** (`app/api/auth.api.ts`): module `AuthApi`. The method
  `Login` runs the `try`/`catch` step by step and returns a record of its
  effects: the request posted, the `setUsername` call, the storage write, the
  navigation target and the notifier message.

Files: `web.dfy` (shared `Option`, `Settled` and `Verb`), `js_string.dfy`,
`todo_list.dfy`, `user_info_page.dfy`, `api_service.dfy`, `auth_api.dfy`.

Behaviours of the code that the model keeps as written:

- Update and delete never check `res.ok`. An ok reply and a non-ok reply both
  apply the local change. Only a `fetch` that rejects skips it, because the
  rejection throws out of the async handler before any state is set.
- The mount-time load and Create's refetch do not check `res.ok` either. They
  pass whatever `res.json()` yields to `setTodos`, so an error reply with a
  JSON body would replace `todos` with something that is not a list. The
  model represents only a parsed list of todos or a rejected fetch (see
  "Left out").
- Update patches the list locally and does not refetch. It has no blank-text
  guard, and it leaves edit mode on any reply that is not thrown.
- Create posts the untrimmed `newTodo` with the hard-coded `user_id` 1. After
  an ok reply it refetches the list. If that refetch rejects, no state changes
  and `newTodo` keeps its text.
- In `login`, an accepted response with no `user` throws when `user.username`
  is read, before `setUsername` is called. Outside a browser the storage write
  is skipped, but the unguarded `window.location.href` assignment throws after
  `setUsername` has been called. Both throws reach the `catch` and produce
  "Login failed. Please try again.".

## Model

| member | source | states |
|---|---|---|
| JsString.TrimmableIsWhiteSpaceOrLineTerminator | app/user-info/page.tsx:30 | the range test `IsTrimmable` accepts exactly ECMAScript's WhiteSpace and LineTerminator characters, the set `trim` strips |
| UserInfoPage.CanCreate | app/user-info/page.tsx:30 | the `!newTodo.trim()` guard lets a create through exactly when the compose text is not all whitespace |
| JsString.TrimStart | app/user-info/page.tsx:30 | the result is a suffix of the input; everything dropped is trimmable; the result does not begin with a trimmable character |
| JsString.TrimEnd | app/user-info/page.tsx:30 | the result is a prefix of the input; everything dropped is trimmable; the result does not end with a trimmable character |
| JsString.Trim | app/user-info/page.tsx:30 | `trim()` is empty exactly when every character is JavaScript whitespace or a line terminator; otherwise it begins and ends with a non-trimmable character |
| JsString.TrimSplits | app/user-info/page.tsx:30 | the input is a blank prefix, then its trim, then a blank suffix |
| JsString.TrimIdempotent | app/user-info/page.tsx:30 | trimming twice equals trimming once |
| TodoList.WithText | app/user-info/page.tsx:55-57 | the edit `map` keeps length, order and every id; matching items get the new text; all other items are unchanged |
| TodoList.WithoutId | app/user-info/page.tsx:69 | the delete `filter` keeps exactly the items whose id differs from the target |
| TodoList.WithoutIdConcat | app/user-info/page.tsx:69 | the filter distributes over concatenation, so the kept items keep their relative order |
| TodoList.WithoutIdUnchanged | app/user-info/page.tsx:69 | the filter returns the list unchanged exactly when no item has the id |
| TodoList.WithoutIdIdempotent | app/user-info/page.tsx:64-69 | deleting the same id twice gives the list of deleting it once |
| TodoList.WithoutIdLength | app/user-info/page.tsx:69 | the filter shortens the list by exactly the number of items with the id |
| TodoList.WithoutIdKeepsUnique | app/user-info/page.tsx:69 | if ids were unique before a delete they are unique after it |
| TodoList.WithTextKeepsIds | app/user-info/page.tsx:55-57 | an edit keeps the sequence of ids, and so their uniqueness |
| TodoList.WithTextIdempotent | app/user-info/page.tsx:55-57 | applying the same edit twice equals applying it once |
| TodoList.WithoutIdAfterWithText | app/user-info/page.tsx:55-69 | deleting an edited item gives the same list as deleting it unedited |
| UserInfoPage.TodoPage.constructor | app/user-info/page.tsx:14-17 | initial state: no todos, empty compose text, not editing, empty edit text |
| UserInfoPage.TodoPage.Load | app/user-info/page.tsx:20-25 | requests the user's list once; a fetched list replaces `todos`; a failed fetch leaves `todos` as it was (the initial empty list at mount); nothing else changes |
| UserInfoPage.TodoPage.TypeNewTodo | app/user-info/page.tsx:82 | the compose field sets `newTodo` and nothing else |
| UserInfoPage.TodoPage.TypeEditText | app/user-info/page.tsx:106 | the edit field sets `editText` and nothing else |
| UserInfoPage.TodoPage.Create | app/user-info/page.tsx:28-45 | blank compose text: no request and no state change; otherwise a POST of `{user_id: 1, text: newTodo}` with the untrimmed text, followed by a list GET only after an ok reply; `todos` is replaced by the refetched list and `newTodo` cleared only when the reply is ok and the refetch succeeds, otherwise both are unchanged; edit state is never touched |
| UserInfoPage.TodoPage.Update | app/user-info/page.tsx:48-61 | a PUT of `{text: editText}` to the item; unless the request throws, `todos` becomes the edit `map` with the old edit text, whatever the status, and edit mode is left with `editText` cleared; a thrown request changes nothing; `newTodo` is never touched |
| UserInfoPage.TodoPage.Delete | app/user-info/page.tsx:64-70 | a DELETE of the item; unless the request throws, `todos` becomes the filter without that id, whatever the status; nothing else changes |
| UserInfoPage.TodoPage.StartEdit | app/user-info/page.tsx:132-135 | enters edit mode on the item with its text as the draft; the list and compose text are unchanged |
| UserInfoPage.TodoPage.CancelEdit | app/user-info/page.tsx:118 | leaves edit mode and keeps the draft `editText` |
| UserInfoPage.DeleteTwice | app/user-info/page.tsx:64-70 | two deletes of one id, the first not thrown, leave the list the first produced, whatever the second reply |
| UserInfoPage.EditAndSave | app/user-info/page.tsx:48-61 | start-edit, type, then save with a reply that is not thrown changes only the matching items' text, keeps the ids and leaves edit mode |
| ApiService.Bearer | app/utils/api.service.ts:9 | the header value is the `Bearer ` prefix followed by the token |
| ApiService.HasToken | app/utils/api.service.ts:5-7 | the token test: outside a browser it is false (storage is never read); when true a non-empty token is stored |
| ApiService.GetAuthHeaders | app/utils/api.service.ts:4-14 | the `Authorization` header is present exactly when a browser holds a non-empty token, and then it carries `Bearer <token>`; no other header is ever produced |
| ApiService.TokenOf | app/utils/api.service.ts:9 | specification helper, the inverse of the bearer template: a token read back from the headers is one whose bearer value is the `Authorization` header |
| ApiService.GetAuthHeadersCarriesToken | app/utils/api.service.ts:4-14 | the headers built from storage carry back exactly the stored token, and no token when no header was added |
| ApiService.Intercepted | app/utils/api.service.ts:24-32 | with a browser, a non-empty token and a headers object, `Authorization` is set from the token read at request time, overwriting any earlier value, and every other header is kept; otherwise the headers are unchanged |
| ApiService.RequestConfig.constructor | app/utils/api.service.ts:24 | a request configuration holds the given headers object, or none |
| ApiService.OnRequest | app/utils/api.service.ts:24-32 | the interceptor updates the configuration's headers in place as `Intercepted` says and returns the same configuration object |
| ApiService.OnRequestError | app/utils/api.service.ts:33-35 | the error callback rejects with the identical error it received |
| ApiService.InterceptedAgreesWithGetAuthHeaders | app/utils/api.service.ts:4-32 | on an empty headers object the interceptor produces what `getAuthHeaders` produces |
| ApiService.InterceptedIdempotent | app/utils/api.service.ts:24-32 | intercepting twice with the same storage equals intercepting once |
| ApiService.ConstructionHeaderPersists | app/utils/api.service.ts:17-32 | with no token at request time, the header baked in at client construction is sent unchanged; with a token, the token sent is the one read at request time |
| ApiService.Unwrap | app/utils/api.service.ts:45-51 | a fulfilled call yields the response's `data`; a rejected call rethrows the identical error |
| ApiService.Get | app/utils/api.service.ts:41-52 | issues a GET of the URL with the given params; returns `response.data` or rethrows the same error |
| ApiService.Post | app/utils/api.service.ts:54-62 | issues a POST of the URL with the given body; returns `response.data` or rethrows the same error |
| ApiService.Put | app/utils/api.service.ts:64-72 | issues a PUT of the URL with the given body; returns `response.data` or rethrows the same error |
| ApiService.Delete | app/utils/api.service.ts:74-82 | issues a DELETE of the URL with no body; returns `response.data` or rethrows the same error |
| AuthApi.CanNotify | app/api/auth.api.ts:41 | `notification?.error?.` reaches no callback when the notifier is absent or lacks its `error` member |
| AuthApi.Accepted | app/api/auth.api.ts:30 | `response?.success` is false for a rejected post and for a null response; when true the response's `success` flag is set |
| AuthApi.AcceptedUser | app/api/auth.api.ts:30-31 | the user destructured from a response is available only when the response was accepted |
| AuthApi.Login | app/api/auth.api.ts:11-50 | posts exactly `{username, password}` to `/api/signin`; an accepted response with a user calls `setUsername(user.username)` and, in a browser (`ApiService.HasWindow`), stores `username` and navigates to `/dashboard` with no notification; a null or unaccepted response notifies "Incorrect username or password!" with no other effect; a rejected post, a missing user or an accepted login outside a browser notifies "Login failed. Please try again."; without a notifier or its `error` member every failure is silent |

## Left out

- The JSX rendering, styling and icons of the todo page (app/user-info/page.tsx:72-153) are presentation only. The header wrapper component is not part of this model.
- `fetch`, axios, JSON parsing, HTTP status handling, the base URL setting and `console.error` logging are foreign code. Their outcomes are inputs: a `Reply` or `Listing` on the page, and a `Settled` value for the wrappers and the login. Axios's own rule that a non-2xx status rejects is part of that input.
- Axios merges the client's default headers into each request's configuration before the interceptor runs. `ApiService.ConstructionHeaderPersists` takes that merged set as its starting point instead of modelling the merge.
- The `Content-Type: application/json` header the page adds to its POST and PUT is not recorded in `UserInfoPage.Request`; a request with a body stands for a JSON request.
- Handlers run concurrently in the browser, and update and delete read `todos` through a stale closure (app/user-info/page.tsx:55, 69). Each handler is modelled as one atomic step over the state at invocation.
- `window`, `localStorage` and `window.location` are abstracted: an `ApiService.Context` says whether a browser exists; the stored token is an `Option<string>`; the login's storage write and navigation are fields of its effects record.
- AuthApi.Login: assumes that the caller's `setUsername` and `notification.error` callbacks and `localStorage.setItem` do not throw, because their code is not visible; a throw from one of them would take the `catch` path or reject the login.
- UserInfoPage.TodoPage.Load: neither the load nor its `.then` checks `res.ok`, and a reply body that is not a list of todos (an error object, say) is not modelled; its "failed fetch leaves `todos` unchanged" holds for a rejected fetch only.
- UserInfoPage.TodoPage.Create: the refetch after an ok reply does not check `res.ok` either, and a refetched body that is not a list of todos is not modelled.
- The response fields are typed values. A `success` that is truthy but not a boolean, or a `username` that is not a string, is not modelled.
