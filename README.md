# Google sign-in and inbox/calendar reshaping, modelled in Dafny

This project models the browser side of a Next.js dashboard that signs a user in to Google with
the OAuth 2.0 implicit grant (section 4.2 of RFC 6749). It also models the server-side helpers
that turn Gmail and Google Calendar API responses into flat records for display.

- `useGoogleAuth` keeps the session state. Its `signIn` sends the browser to Google's
  authorization endpoint, with the callback URI and the four read-only scopes. Its mount effect
  restores a token from `localStorage`, or takes a fresh one from the URL fragment and then
  cleans the URL. Its `signOut` forgets the token.
- The callback page `/auth/google/callback` takes `access_token` from the fragment, stores it,
  and navigates to `/`.
- `getGmailMessages` and `getCalendarEvents` reshape the API responses. The model covers
  header defaults, the choice of message body, the 500-code-unit truncation, start/end
  fall-backs and the attendee e-mails.

Modules:

| file | module | what it holds |
|---|---|---|
| `wrappers.dfy` | `Wrappers` | `Option` |
| `js.dfy` | `Js` | JavaScript truthiness of optional strings, `a \|\| b` |
| `strings.dfy` | `Strings` | `join`/split on one character, with the round trip |
| `form_urlencoded.dfy` | `FormUrlencoded` | the `application/x-www-form-urlencoded` parser behind `URLSearchParams` and its `get` |
| `uri_component.dfy` | `UriComponent` | `encodeURIComponent` (UTF-8, upper-case `%HH`), and the proof that the form decoder undoes it on ASCII text |
| `browser.dfy` | `Browser` | the URL, `localStorage`, `history.replaceState`, `location.href` and `alert`, as a `Window` class that logs its effects in order |
| `oauth_redirect.dfy` | `OAuthRedirect` | reading `access_token` out of `location.hash` |
| `google_auth.dfy` | `GoogleAuth` | the hook as the class `AuthController`, the authorization URL, and the mount effect as a function |
| `google_callback.dfy` | `GoogleCallback` | the callback page's effect |
| `google.dfy` | `Google` | the reshaping in `lib/google.ts` |

Each state-changing operation is a method. The mount effect and the callback effect are
specified by the pure functions `GoogleAuth.Mounted` and `GoogleCallback.Callback`. The
lemmas state their properties: which token wins, idempotence, and callback followed by mount.

## Model

| member | source | states |
|---|---|---|
| GoogleAuth.AuthController.constructor | hooks/useGoogleAuth.ts:10-14 | the session starts signed out, with no token and no error |
| GoogleAuth.AuthController.SignIn | hooks/useGoogleAuth.ts:16-43 | a missing or empty client id: alerts the configuration message and records it as the error, keeps the rest of the session, and does not navigate. Otherwise: navigates to the authorization URL built from the client id, `origin + /auth/google/callback` and the joined scopes. The store and URL are never touched |
| GoogleAuth.ScopeList | hooks/useGoogleAuth.ts:31-36 | the space-joined scope splits back into exactly the four scope URIs, in order, and is ASCII |
| GoogleAuth.AuthUrlQuery | hooks/useGoogleAuth.ts:30-40 | the authorization URL is the endpoint, then `?`, then a query that parses to exactly `client_id` (form-decoded), `redirect_uri` (the callback URI on this origin, intact), `response_type=token` and `scope` (intact), in that order. No `#` follows the `?`, so the whole rest is the query and the URL has no fragment. This needs a client id with no `&`, `#`, tab, line feed or carriage return, and an ASCII origin and scope |
| GoogleAuth.AuthUrl | hooks/useGoogleAuth.ts:38-40 | the URL template itself. It has no contract of its own: AuthUrlQuery states what it sends |
| GoogleAuth.Scope | hooks/useGoogleAuth.ts:31-36 | the scopes joined with single spaces. It has no contract of its own: ScopeList states the round trip |
| GoogleAuth.RedirectUri | hooks/useGoogleAuth.ts:30 | the origin followed by exactly `/auth/google/callback` |
| GoogleAuth.AuthController.SignOut | hooks/useGoogleAuth.ts:45-52 | from any state: the token key is removed from the store, nothing else in it changes, and the session is signed out with no token and no error |
| GoogleAuth.SignOutTwice | hooks/useGoogleAuth.ts:45-52 | signing out twice leaves the same session, store and URL as signing out once |
| GoogleAuth.Mounted | hooks/useGoogleAuth.ts:54-85 | the mount effect never writes any key other than the token key. The session stays as it was or becomes signed in with a non-empty token and no error. The URL is unchanged or becomes exactly its origin and path, with no query and no fragment. The effects are none, or exactly the store write of the session's token followed by `replaceState` to the path, with no navigation |
| GoogleAuth.AuthController.Mount | hooks/useGoogleAuth.ts:54-85 | running the effect leaves exactly the session, store, URL and effect log that `Mounted` gives for the state before |
| GoogleAuth.FragmentTokenWins | hooks/useGoogleAuth.ts:66-83 | a non-empty fragment token overrides any stored token. It is stored, the session signs in with it, and the URL keeps only its path. The effects are exactly the store write of that token, then `replaceState` to the path |
| GoogleAuth.StoredTokenRestores | hooks/useGoogleAuth.ts:55-64 | without a fragment token, a non-empty stored token restores a signed-in session, and otherwise the session is kept. The store and URL are untouched and no effect happens |
| GoogleAuth.MountIdempotent | hooks/useGoogleAuth.ts:54-85 | running the mount effect again on what it left changes nothing and performs no effect |
| OAuthRedirect.HashAccessToken | hooks/useGoogleAuth.ts:67-71 | an empty hash gives nothing. Otherwise, with the pairs parsed from the hash after its `#`, the result is absent exactly when no pair is named `access_token`, and otherwise is the value of the first such pair |
| OAuthRedirect.LeadingAccessToken | hooks/useGoogleAuth.ts:67-71 | a fragment `#access_token=T&…`, with T free of `&`, `%` and `+`, yields exactly T |
| FormUrlencoded.Get | hooks/useGoogleAuth.ts:71 | `get` is `null` exactly when no pair has the name. Otherwise it is the value of the first pair with that name |
| FormUrlencoded.Decode | hooks/useGoogleAuth.ts:70 | decoding never lengthens a string, and leaves one without `%` or `+` unchanged |
| FormUrlencoded.DecodePlus | hooks/useGoogleAuth.ts:70 | a `+` decodes to a space |
| FormUrlencoded.DecodeAsciiEscape | hooks/useGoogleAuth.ts:70 | `%HH` with a value below 0x80, with hex digits in either case, decodes to the character of that value |
| FormUrlencoded.DecodeKeeps | hooks/useGoogleAuth.ts:70 | any other character, including a `%` that starts no ASCII escape, is kept |
| FormUrlencoded.ParsePair | hooks/useGoogleAuth.ts:70 | a piece without `=` is a decoded name with an empty value. Otherwise it splits at its first `=` into a decoded name and a decoded value |
| FormUrlencoded.ParsePieces | hooks/useGoogleAuth.ts:70 | at most one pair per piece, and none when every piece is empty |
| FormUrlencoded.ParsePiecesSkipsEmpty | hooks/useGoogleAuth.ts:70 | an empty piece anywhere contributes nothing: removing it leaves the same pairs |
| FormUrlencoded.Parse | hooks/useGoogleAuth.ts:70 | the empty string gives no pairs, and there are at most as many pairs as `&`-separated pieces |
| FormUrlencoded.SearchParams | hooks/useGoogleAuth.ts:70 | one leading `?` is dropped, then the rest is parsed. Without a leading `?` the whole string is parsed |
| FormUrlencoded.ParsePairAt | hooks/useGoogleAuth.ts:70 | a piece `name=value` whose name has no `=` splits at that first `=`, and both halves are decoded |
| FormUrlencoded.PlainPair | hooks/useGoogleAuth.ts:70 | a piece with nothing to decode parses to exactly its name and value |
| FormUrlencoded.ParseJoin | hooks/useGoogleAuth.ts:70 | `&`-joined non-empty pieces parse to one pair per piece, in order |
| FormUrlencoded.ParsePiecesAllNonEmpty | hooks/useGoogleAuth.ts:70 | when no piece is empty, none is skipped |
| Strings.Join | hooks/useGoogleAuth.ts:36 | one piece is returned as it is. With more pieces, the first piece is followed by the separator. SplitJoin gives its inverse |
| Strings.Split | hooks/useGoogleAuth.ts:36 | the pieces hold no separator and join back into the input |
| Strings.SplitJoin | hooks/useGoogleAuth.ts:36 | splitting a join of separator-free pieces gives back the pieces |
| Strings.SplitAfterPiece | hooks/useGoogleAuth.ts:36 | a leading piece without the separator is split off as it is |
| Strings.SplitWithoutSeparator | hooks/useGoogleAuth.ts:36 | a string without the separator is one piece |
| Strings.IndexOf | hooks/useGoogleAuth.ts:70 | absent exactly when the character does not occur. Otherwise it is the first index where it does |
| UriComponent.Utf8 | hooks/useGoogleAuth.ts:38-40 | the UTF-8 encoding of a code point. Below 0x80 it is one equal byte. Otherwise it is two, three or four bytes as the code point needs 11, 16 or 21 bits, with the matching lead byte and continuation bytes, and the payload bits of the bytes, read in order, spell the code point |
| UriComponent.Utf8Two | hooks/useGoogleAuth.ts:38-40 | for 0x80–0x7FF: a `110xxxxx` lead byte and one continuation byte whose bits spell the code point |
| UriComponent.Utf8Three | hooks/useGoogleAuth.ts:38-40 | for 0x800–0xFFFF: a `1110xxxx` lead byte and two continuation bytes whose bits spell the code point |
| UriComponent.Utf8Four | hooks/useGoogleAuth.ts:38-40 | from 0x10000: a `11110xxx` lead byte and three continuation bytes whose bits spell the code point |
| UriComponent.HexDigit | hooks/useGoogleAuth.ts:38-40 | the digit is a hex digit whose value is the input: `0`–`9` below ten, upper-case `A`–`F` from ten |
| UriComponent.EscapeBytes | hooks/useGoogleAuth.ts:38-40 | three characters per byte, in order: `%` followed by two hex digits whose value is that byte. The output holds only `%`, digits and upper-case `A`–`F` |
| UriComponent.EncodeChar | hooks/useGoogleAuth.ts:38-40 | an unreserved character is kept. Any other character becomes `%HH` for each of its UTF-8 bytes, in order, with only `%`, digits and upper-case `A`–`F` in the output |
| UriComponent.Encode | hooks/useGoogleAuth.ts:38-40 | the output holds only `%` and unreserved characters, and an all-unreserved input comes out unchanged |
| UriComponent.EncodeSingle | hooks/useGoogleAuth.ts:38-40 | a one-character string is encoded exactly as EncodeChar encodes that character |
| UriComponent.EncodeAppend | hooks/useGoogleAuth.ts:38-40 | the encoding of a concatenation is the concatenation of the encodings, so with EncodeSingle every character of the input is encoded by EncodeChar, in order |
| UriComponent.DecodeEncodeChar | hooks/useGoogleAuth.ts:38-40 | decoding the encoding of one ASCII character gives that character back |
| UriComponent.DecodeEncode | hooks/useGoogleAuth.ts:38-40 | form-decoding the encoding of an ASCII string gives the string back |
| Browser.Location.Hash | hooks/useGoogleAuth.ts:67 | `location.hash` is empty exactly when the fragment is. Otherwise it is `#` followed by the fragment |
| Browser.StoredValue | hooks/useGoogleAuth.ts:56 | `getItem` finds a value exactly when the key is stored, and it is the stored value |
| Browser.Window.GetItem | hooks/useGoogleAuth.ts:56 | returns the stored value of the key, or `null` |
| Browser.Window.SetItem | hooks/useGoogleAuth.ts:74 | the key now maps to the value, and nothing else in the store changes |
| Browser.Window.RemoveItem | hooks/useGoogleAuth.ts:46 | the key is gone, and nothing else in the store changes |
| Browser.Window.ReplaceState | hooks/useGoogleAuth.ts:82 | the URL becomes the same origin with the given path, and no query or fragment |
| Browser.Window.AssignHref | hooks/useGoogleAuth.ts:42 | records a navigation to the URL, and the store is unchanged |
| Browser.Window.ShowAlert | hooks/useGoogleAuth.ts:22 | records the alert, and nothing else changes |
| Js.Or | lib/google.ts:48-50 | `v \|\| d` is the value of `v` when `v` is truthy, and the default otherwise. It is never empty when the default is not |
| Js.OrElse | lib/google.ts:102-103 | `a \|\| b` is `a` when `a` is truthy, and `b` as it is otherwise |
| GoogleCallback.Callback | app/auth/google/callback/page.tsx:6-19 | the effect fires exactly when the fragment holds a non-empty `access_token`. When it fires, it does exactly two things in order: it stores that token under the token key, then navigates to `/`. No other key is written. When it does not fire, nothing changes |
| GoogleCallback.CallbackStoresFirstToken | app/auth/google/callback/page.tsx:8-16 | the stored token is the first `access_token` of the fragment, replacing any earlier one. An empty hash, or an absent or empty first `access_token`, leaves everything alone |
| GoogleCallback.HandleRedirect | app/auth/google/callback/page.tsx:6-19 | running the effect leaves the store and effect log that `Callback` gives, and leaves the URL unchanged |
| GoogleCallback.CallbackThenMount | app/auth/google/callback/page.tsx:13-16 | after the callback stores a token and goes to `/`, mounting the hook there with a fresh session signs in with that token. The store is unchanged and no further effect happens |
| Google.FindHeader | lib/google.ts:48-50 | absent exactly when no header has the name. Otherwise it is the first index with exactly that name |
| Google.HeaderOr | lib/google.ts:47-50 | the value of the first header with exactly that name when it is non-empty. Otherwise the default, and then the first such header, if any, has no usable value |
| Google.HeaderNamesCaseSensitive | lib/google.ts:48 | a `subject` header is not the `Subject` header |
| Google.FindTextPlain | lib/google.ts:55-57 | absent exactly when no part is `text/plain`. Otherwise it is the first `text/plain` part |
| Google.DecodeIfPresent | lib/google.ts:58-62 | content that is present and non-empty is decoded, and anything else gives the empty body |
| Google.SelectBody | lib/google.ts:52-63 | with a `parts` array, even an empty one, only the first `text/plain` part counts. Its data is decoded if present and non-empty, and the body is empty otherwise. Without `parts`, the payload's own data is decoded if present and non-empty. Without a payload, the body is empty |
| Google.PartsShadowBodyData | lib/google.ts:54-63 | when `parts` is present, the payload's own body data has no influence |
| Google.Truncate | lib/google.ts:71 | at most 500 code units, a prefix of the body, the whole body when it is no longer, and exactly 500 when it is longer |
| Google.Headers | lib/google.ts:47 | the payload's headers as sent, and none when the payload or its header list is missing |
| Google.SummarizeMessage | lib/google.ts:40-72 | id and snippet pass through. Subject, sender and date are the first exact-name header's non-empty value, or `No Subject`, `Unknown` and `""` (HeaderOr). Subject and sender are never empty. The body is the selected body cut to its first 500 code units (SelectBody, Truncate) |
| Google.Messages | lib/google.ts:36-76 | no message list gives no summaries. Otherwise there is one summary per listed message, in list order, each of the details fetched for that message's id |
| Google.SummarizeAll | lib/google.ts:39-74 | one summary per reference, in order |
| Google.When | lib/google.ts:102-103 | no start/end gives nothing. Otherwise a non-empty `dateTime` is used, and failing that `date` as it is |
| Google.Emails | lib/google.ts:105 | one entry per attendee, in order, each that attendee's e-mail |
| Google.SummarizeEvent | lib/google.ts:98-106 | id and location pass through. The title is never empty: it is the summary when that is non-empty, and `No Title` otherwise. The description is the event's description when that is non-empty, and `""` otherwise. Start and end use the fall-back. The attendees are the e-mails in order, or none when the list is missing |
| Google.Events | lib/google.ts:96-106 | no item list gives no events. Otherwise there is one summary per item, in order |
| Google.SummarizeEvents | lib/google.ts:98-106 | one summary per event, in order |

## Left out

- The Google API calls (`getGoogleClient`, `gmail.users.messages.list/get`, `calendar.events.list`) are not modelled. Their responses are the inputs of `Google.Messages` and `Google.Events`, and the per-message fetch is the parameter `get`. The request options (`maxResults`, `INBOX`, `primary`, `orderBy`) are not modelled either.
- Google.Events: the `timeMin` clock reading only filters the request, so it does not appear.
- Errors thrown by the API and rethrown after `console.error` are not modelled. The model covers the successful response only.
- Google.SelectBody: base64 decoding followed by UTF-8 decoding (`Buffer.from(…, "base64").toString("utf-8")`) is the parameter `decode`. Its own behaviour (padding, invalid input, replacement characters) is not modelled.
- Google.Messages: `Promise.all` concurrency is not modelled, only the order of its results.
- FormUrlencoded.Decode: only percent-escapes of ASCII bytes (`%00`–`%7F`) are decoded. An escape of a byte of 0x80 or more, which starts a multi-byte UTF-8 sequence, is kept as the three characters `%HH`. The round trip `UriComponent.DecodeEncode` is therefore stated for ASCII strings.
- UriComponent.Encode: a lone surrogate, which makes `encodeURIComponent` throw, cannot occur, because Dafny's `char` holds only Unicode scalar values.
- GoogleAuth.AuthUrlQuery: the client id is put into the URL unencoded. The property holds for a client id without `&`, `#`, tab, line feed or carriage return. An `&` would split the `client_id` pair. A `#` would end the query there and push the other parameters into the fragment. The browser's URL parser strips tabs and newlines before the request is sent. The lemma is about the URL string as built; that stripping is not modelled. The client id comes back form-decoded, so it is intact only when it also has no `%` or `+`. Google client ids have none of these characters.
- React's state batching and re-rendering are not modelled. Each `setAuthState` is an assignment, in program order. The hook's returned object is the controller's fields and methods.
- `console.error`, the page markup and the loading spinner have no effect on state and are left out.
- The API routes under `app/api/` and the dashboard page `app/page.tsx` are not modelled, because they only wire these pieces together.
- Whether the implicit grant is a sound security choice is not modelled. Token expiry and refresh are not modelled either.
- `history.replaceState`'s state object and title are ignored, and the URL keeps only its path, as the hook asks.
- Browser.Window.GetItem, SetItem, RemoveItem: the model's storage never throws. In a browser, `localStorage` throws `SecurityError` when the page may not store data, and `setItem` can also throw `QuotaExceededError`; the source catches neither. There, a throwing `removeItem` would leave GoogleAuth.AuthController.SignOut's session signed in. A throwing `getItem` or `setItem` would end GoogleAuth.AuthController.Mount before its state update and `replaceState`. A throwing `setItem` would stop GoogleCallback.HandleRedirect before the navigation. The model promises none of these outcomes.
- Browser.Window.ReplaceState: the path is not resolved as a URL. A path such as `//x` resolves to another host, and there the browser throws a `SecurityError`. The model instead always keeps the origin and takes the path as given. For such a path, GoogleAuth.AuthController.Mount and GoogleAuth.Mounted therefore report a cleaned URL where the real effect would throw after storing the token and updating the session.
