# BitMind front end and credential relay — a Dafny model

BitMind is a web platform for writing and running Python snippets and for
opening cloud workspaces provisioned by a Coder deployment. This project models
the logic buried in its glue code, with every network call, storage access and
browser API replaced by the value it delivers:

- **Credential relay.** The `auth-coder-app` edge function forwards the
  caller's Coder session token to Coder's `auth-redirect` endpoint and cuts the
  returned `Set-Cookie` header into `{key, value}` pairs (`AuthCoderApp`). The
  client `authenticateApplication` keeps the two Coder app-session cookies and
  writes them into the browser cookie jar on the Coder base domain
  (`Applications`). The jar is a class whose map is updated in a loop.
- **Workspace links.** The editor app is found among a workspace's resources,
  and its URL is spliced from the app's subdomain, the base domain and the app
  URL's query (`WorkspaceLink`).
- **Snippet editor and account pages.** The editor keeps a duplicate-free
  package list, suggests a name, and saves. The owner's snippet is updated in
  place; anyone else's is saved as a new copy (`Environment`). The account
  pages list, delete and preview snippets (`Account`, `AppAccount`).
- **Notifications.** Messages are appended, hidden and then purged by id
  (`Notifications`).
- **Session state.** Auth events set the user and profile, and profile-row
  pushes are merged in (`Session`).
- **Small routines.** These cover admin user listing and Coder user creation
  (`Users`), registration checks (`Register`), contact-form URL encoding
  (`Contact`), and the document title and route guard (`AppRoutes`).

The modules `Strings` and `Lists` give JavaScript's `split`, `join`, `indexOf`,
`filter` and `find` their exact semantics:

- `split` with a non-empty separator cuts at non-overlapping first occurrences.
- An index past the end is `undefined`, written `None`.

`Query` reads a link's query the way the editor's `useSearchParams().get`
does: the `application/x-www-form-urlencoded` parser of section 5.1 of the
WHATWG URL Standard, followed by a lookup of the first pair with that name.

`Wrappers` holds `Option` and `Result`. Each asynchronous handler is modelled
as one sequential step. Its awaited replies are parameters, and the calls it
makes, the notice it posts and the page it navigates to are returned.
Component state that handlers update becomes a class whose methods state the
whole new state.

## Model

| member | source | states |
|---|---|---|
| AuthCoderApp.ParsePair | supabase/functions/auth-coder-app/index.ts:29-32 | The key is the segment's text before its first '=', untrimmed. The value is absent exactly when the segment has no '='; otherwise it is the text between the first and second '='. |
| AuthCoderApp.ParseSetCookie | supabase/functions/auth-coder-app/index.ts:29-34 | There is one pair per ';'-separated segment, in segment order, each parsed as above. The count is the number of ';' plus one. |
| AuthCoderApp.Handle | supabase/functions/auth-coder-app/index.ts:3-47 | OPTIONS answers 200 "ok" without reading the body. Coder is called exactly when the body parses and `redirectUri` is truthy, with URL API + "/applications/auth-redirect?redirect_uri=" + encoded URI and the caller's token. A missing URI gives 500 "No redirect uri!" with no upstream call. A missing Set-Cookie gives 500 "No Set-Cookie header!". Success passes the upstream status through with the parsed pairs when the `Response` constructor accepts it (200 to 599, and not 204, 205 or 304). For any other status the constructor's throw lands in the catch, which answers 500 with the thrown message. A body that does not parse gives 500 with the parse error's message and no upstream call. An unreachable provider gives 500 with the fetch error's message. Every other non-preflight outcome is also a 500 with an error message. |
| AuthCoderApp.KeyAfterSemicolonSpaceKeepsSpace | supabase/functions/auth-coder-app/index.ts:29-31 | In a header "a=1; b=2" the second key keeps its leading space, because keys are not trimmed. |
| Applications.BaseDomain | src/api/applications.ts:52 | Defined exactly when the API URL contains "//". It is then the text after the first "//" up to the next '/', and contains no '/'. |
| Applications.CoderPairs | src/api/applications.ts:38-57 | Every kept pair is a pair of the header named `coder_signed_app_token` or `coder_subdomain_app_session_token`, and every pair so named is kept. |
| Applications.LastCoderPair | src/api/applications.ts:54-57 | The filter keeps the header's order. For a provider cookie name, the filtered list has a pair with that name exactly when the header does, and its last such pair is the header's last such pair. |
| Applications.LastHeaderPairWins | src/api/applications.ts:54-63 | After the writes, each provider cookie named in the header holds the value of the header's last pair with that name, on the base domain. A later duplicate overwrites an earlier one. |
| Applications.Written | src/api/applications.ts:54-63 | The jar after `Cookies.set` for each pair in order. Its names are the old jar's names plus the names of the pairs. |
| Applications.WrittenAt | src/api/applications.ts:54-63 | After writing the pairs in order, a name holds the value of its last pair on the given domain. A name no pair carries keeps its old entry, or stays absent. |
| Applications.OnlyCoderCookiesWritten | src/api/applications.ts:54-63 | Every cookie the relay adds or changes has one of the two Coder names and sits on the base domain. |
| Applications.OtherCookiesUntouched | src/api/applications.ts:54-57 | Any other cookie name is left exactly as it was, whatever the header held. |
| Applications.CookieJar.Set | src/api/applications.ts:60-62 | `Cookies.set(name, value, { domain })` replaces the entry for `name` and leaves the rest of the jar alone. |
| Applications.AuthenticateApplication | src/api/applications.ts:9-68 | The edge function is invoked only for a session carrying an API key, with that key and the redirect URI. A result is Ok exactly when the reply holds a non-empty pair list and the API URL has a base domain. On Ok the jar equals the old jar with the allowed pairs written in order on the base domain. Every failure leaves the jar unchanged and reports "Failed to fetch auth redirect". |
| WorkspaceLink.EditorApp | src/components/WorkspaceLink.tsx:45-49 | The app found always has slug `code-server`. With no `docker_container` resource there is none. |
| WorkspaceLink.FirstContainerDecides | src/components/WorkspaceLink.tsx:46-47 | The result is the first `code-server` app of the first agent of the first `docker_container` resource, or none if that resource has no agent. |
| WorkspaceLink.LaterResourcesIgnored | src/components/WorkspaceLink.tsx:46-47 | Appending resources after a container never changes the app found. |
| WorkspaceLink.UrlParams | src/components/WorkspaceLink.tsx:53 | Defined exactly when the URL has a '?'. It is then the text after the first '?' up to the next one. |
| WorkspaceLink.WorkspaceUrl | src/components/WorkspaceLink.tsx:55-57 | The URL starts with "https://" + subdomain + "." + base domain + "/?" and ends with the app URL's query. When the app URL has no '?' it ends with the text "undefined". |
| WorkspaceLink.WorkspaceUrlOnBaseDomain | src/components/WorkspaceLink.tsx:55-57 | The spliced workspace URL's host, cut the same way as the cookie domain, is subdomain + "." + base domain. So the relay's cookies reach it. |
| WorkspaceLink.StatusStyle | src/components/WorkspaceLink.tsx:9-13 | A style exists exactly for the statuses stopped, running and error. |
| WorkspaceLink.EditorLink | src/components/WorkspaceLink.tsx:74 | The link "/editor?workspace=" + workspace URL. For a URL without '&', '#', '+' or '%', `searchParams.get("workspace")` on it returns the URL. |
| WorkspaceLink.Render | src/components/WorkspaceLink.tsx:40-74 | Nothing renders exactly when no editor app is found. Rendering fails when the API URL has no "//". Otherwise the link goes to "/editor?workspace=" + the workspace URL, with the status style. |
| Environment.AddPackage | src/components/Environment.tsx:393-397 | A present package leaves the list unchanged; otherwise the package is appended at the end. The elements are the old ones plus the package, and a duplicate-free list stays duplicate-free. |
| Environment.RemovePackage | src/components/Environment.tsx:440-442 | No entry equal to the package remains, and every other package keeps its number of occurrences. |
| Environment.RemoveKeepsOrder | src/components/Environment.tsx:440-442 | Removal distributes over concatenation, so the remaining packages keep their order. |
| Environment.RemoveUndoesAdd | src/components/Environment.tsx:393-442 | Removing a package that was just added restores the list. |
| Environment.SuggestedName | src/components/Environment.tsx:99-106 | The name is "" without a snippet, the title for its owner, and the title followed by " - Copy" for anyone else. |
| Environment.InitialInput | src/components/Environment.tsx:25-27 | The editor text is never empty. It is the snippet's code when that is non-empty, otherwise the draft saved in local storage when that is non-empty, otherwise the start code. |
| Environment.SaveCall | src/components/Environment.tsx:135-163 | An update of the snippet's id happens exactly when the signed-in user owns the snippet. Otherwise there is an insert under the user's id. Both carry the current name, code and packages. |
| Environment.SaveError | src/components/Environment.tsx:177-182 | An error notice carrying the error's message, or "Please try again later" when that message is empty. |
| Environment.EditorSession.constructor | src/components/Environment.tsx:24-38 | Mounting sets the initial input, the snippet's packages, the suggested name, closed dialogs and no save in flight. |
| Environment.EditorSession.SetInput | src/components/Environment.tsx:294 | The code editor's change sets the input, and nothing else changes. |
| Environment.EditorSession.SetPackageInput | src/components/Environment.tsx:390 | The package field's change sets the package input, and nothing else changes. |
| Environment.EditorSession.SetSnippetName | src/components/Environment.tsx:514 | The name field's change sets the snippet name, and nothing else changes. |
| Environment.EditorSession.Reset | src/components/Environment.tsx:233-236 | The input goes back to the snippet's code, or the start code. Nothing else changes. |
| Environment.EditorSession.OpenSaveDialog | src/components/Environment.tsx:240-248 | For a signed-in user, an empty name becomes "Untitled" and the save dialog opens. |
| Environment.EditorSession.PressEnterInPackageField | src/components/Environment.tsx:391-400 | The package is added unless there is no user or a save is in flight. An empty field is not refused. |
| Environment.EditorSession.ClickAddPackage | src/components/Environment.tsx:409-416 | Like Enter, but refused also for an empty field, so "" never enters the list this way. |
| Environment.EditorSession.ClickRemovePackage | src/components/Environment.tsx:439-444 | The package is removed unless there is no user or a save is in flight. |
| Environment.Attempt | src/components/Environment.tsx:130-183 | What a save that is not skipped does. Without a user there is no store call and the "You must be logged in to save a snippet" notice. Otherwise one update or insert; an error other than a 406 gives an error notice, anything else "Snippet saved". It navigates exactly after a successful insert that returned an id, and the target is "/?edit=" + that id. |
| Environment.EditorSession.HandleSave | src/components/Environment.tsx:128-188 | A save in flight makes this a no-op. Otherwise the outcome is the save `Attempt` describes for the current user, snippet, name, code and packages. The dialog is then closed and `isSaving` reset. Code, packages, name and the packages dialog are unchanged. |
| Environment.EditorSession.HandleUpdatePackages | src/components/Environment.tsx:190-210 | Without a user it posts "You must be logged in to update packages", does not save and does not reload. Otherwise it performs exactly the save `HandleSave` would (skipped while one is in flight, else the `Attempt` for the current state), closes the save dialog when it saved, and reloads. The packages dialog is closed in every case. The package field, code, packages and name are unchanged. |
| Notifications.Hidden | src/providers/NotificationsProvider.tsx:46-50 | The length, ids and notices are unchanged. A message is shown afterwards exactly when it was shown and has another id. |
| Notifications.Purged | src/providers/NotificationsProvider.tsx:51-53 | No message with that id remains, and every other message keeps its number of occurrences. |
| Notifications.PurgedKeepsOrder | src/providers/NotificationsProvider.tsx:52 | Purging distributes over concatenation, so the survivors keep their order. |
| Notifications.HideIdempotent | src/providers/NotificationsProvider.tsx:46-50 | Hiding twice equals hiding once. |
| Notifications.HideAbsent | src/providers/NotificationsProvider.tsx:46-50 | Hiding an id that is not queued changes nothing. |
| Notifications.PurgeAbsent | src/providers/NotificationsProvider.tsx:51-53 | Purging an id that is not queued changes nothing. |
| Notifications.HideThenPurge | src/providers/NotificationsProvider.tsx:45-54 | Hide-then-purge leaves exactly what purging alone leaves, so no message with that id remains. |
| Notifications.PurgedDistinct | src/providers/NotificationsProvider.tsx:51-53 | Purging keeps ids distinct. |
| Notifications.NotificationQueue.AddMessage | src/providers/NotificationsProvider.tsx:26-39 | Exactly one shown message with the given notice and a fresh id is appended. Earlier messages are unchanged and ids stay distinct. |
| Notifications.NotificationQueue.RemoveMessage | src/providers/NotificationsProvider.tsx:45-50 | The queue becomes `Hidden` of the old queue, and ids stay distinct. |
| Notifications.NotificationQueue.PurgeMessage | src/providers/NotificationsProvider.tsx:51-53 | The queue becomes `Purged` of the old queue. No message with the id remains, and ids stay distinct. |
| Account.Preview | src/pages/Account.tsx:237-238 | Code of at most 200 characters is shown whole. Longer code shows its first 200 characters followed by "...". The same preview is at src/pages/app/Account.tsx:204-205. |
| Account.WithoutId | src/pages/Account.tsx:85-87 | No row with the deleted id remains, and every other row keeps its number of occurrences. |
| Account.WithoutIdKeepsOrder | src/pages/Account.tsx:85-87 | Deletion distributes over concatenation, so the remaining rows keep their order. |
| Account.EditLink | src/pages/Account.tsx:259 | The link text "/?edit=" + id. What it carries is stated by `Account.EditLinkRoundTrip`. |
| Account.EditLinkRoundTrip | src/pages/Account.tsx:259 | For an id without '&', '#', '+' or '%', the editor's `searchParams.get("edit")` (`Query.Get` on the link's query) returns the id. |
| Account.EmbedSource | src/pages/Account.tsx:245 | The embed route origin + "/embed/" + username + "/" + id. What the iframe carries is stated by `Account.EmbedCodeSource`. |
| Account.EmbedCode | src/pages/Account.tsx:245 | The iframe markup around `EmbedSource`, with the fixed width, height and border attributes. Its `src` is stated by `Account.EmbedCodeSource`. |
| Account.EmbedCodeSource | src/pages/Account.tsx:245 | The embed iframe's `src` reads back as origin + "/embed/" + username + "/" + id. |
| Account.SnippetListPage.constructor | src/pages/Account.tsx:22-27 | The page starts with an empty list, not loading and nothing selected. |
| Account.SnippetListPage.GetSnippets | src/pages/Account.tsx:43-73 | Nothing happens without a user or while loading. Otherwise one query for the user's rows. The rows replace the list when they come back and any error is a 406. Any other error posts "Error getting snippets" and keeps the list. Loading ends false. The handler at src/pages/app/Account.tsx:33-63 is the same. |
| Account.SnippetListPage.SelectForDelete | src/pages/Account.tsx:272 | The Delete button selects that snippet's id and changes nothing else. |
| Account.SnippetListPage.HandleDelete | src/pages/Account.tsx:75-104 | Nothing happens when no id, or an empty one, is selected. Otherwise one delete of that id. Success removes exactly the rows with it and posts "Snippet deleted". Failure keeps the list and posts the error notice. The selection is then cleared. The handler at src/pages/app/Account.tsx:65-94 is the same. |
| AppAccount.EditLink | src/pages/app/Account.tsx:212 | The link text "/editor/?edit=" + id. What it carries is stated by `AppAccount.EditLinkUnderEditor`. |
| Query.SearchOf | src/pages/app/Editor.tsx:15 | The query that `useSearchParams` parses. It contains no '#' and is empty when the part before the first '#' has no '?'. Without '#', it is everything after the first '?'. |
| Query.FormDecode | src/pages/app/Editor.tsx:19 | Form decoding never lengthens a text, and leaves alone a text with no '+' and no '%'. |
| Query.Get | src/pages/app/Editor.tsx:19 | `searchParams.get(name)` is null exactly when no pair of the query is called `name`. Otherwise its value is the value of the first pair with that name: every earlier pair has another name. |
| Query.GetSingleParam | src/pages/app/Editor.tsx:19 | In a link `path?name=value` whose name and value need no decoding and hold no '&' or '#', `get(name)` returns the value. |
| AppAccount.EditLinkUnderEditor | src/pages/app/Account.tsx:212 | The app-area link is "/editor" followed by the plain edit link. For an id without '&', '#', '+' or '%', the editor's `searchParams.get("edit")` returns the id. |
| Session.Merge | src/hooks/useSupabase.ts:73-76 | The keys are the pushed ones plus the old profile's. Pushed fields win, and the other fields are kept. |
| Session.MergeTwice | src/hooks/useSupabase.ts:73-76 | Receiving the same push twice gives the profile that receiving it once gives. |
| Session.UpdateFilterInjective | src/hooks/useSupabase.ts:70 | Distinct users get distinct `id=eq.<id>` filters. |
| Session.SessionStore.constructor | src/hooks/useSupabase.ts:15-20 | The hook starts with no user, no profile, the auth listener attached and no update subscription. |
| Session.SessionStore.OnAuthStateChange | src/hooks/useSupabase.ts:20-51 | `user` becomes the session's user. Without a user, the profile is cleared and no subscription remains. With a user, their profile is queried. A successful query sets the profile, a failed one keeps the old profile. The update subscription is filtered to `id=eq.<user id>`. After cleanup, events change nothing. |
| Session.SessionStore.OnProfileUpdate | src/hooks/useSupabase.ts:60-79 | A push for the signed-in user's row merges into the profile. A push for any other row, or with no user, changes nothing. |
| Session.SessionStore.Cleanup | src/hooks/useSupabase.ts:54-83 | Both subscriptions are removed, and the user and profile are kept. |
| Users.CoderUsername | src/api/users.ts:26 | The username is the profile id's text before its first '-', a prefix of the id, containing no '-'. |
| Users.FetchUsers | src/api/users.ts:5-33 | Either query failing gives "Failed to fetch users". Otherwise there is one entry per profile, in order. Its `coder` is the first listed Coder user whose username is the id's prefix: every Coder user before it has another username. It is absent exactly when no Coder user has that username. |
| Users.SharedPrefixSharedCoder | src/api/users.ts:25-27 | Profiles whose ids agree before the first '-' get the same Coder user. |
| Users.CreateCoderUser | src/api/users.ts:36-66 | The calls are made in order, each only if the previous one succeeded. First the user is posted with `disable_login`, `login_type` "none", username = id prefix and email = prefix + "@bitmind.ca". Then a token with lifetime 0, scope "all" and name = Coder id + "-api-key". Then the profile update with the key. Success requires all three to succeed; any failure gives "Failed to create Coder user". |
| Users.CreatedUserIsMatched | src/api/users.ts:25-44 | The Coder user `createCoderUser` creates for a profile is the one `fetchUsers` then matches to it, unless an earlier Coder user has the same username. |
| Register.Validate | src/pages/auth/Register.tsx:27-31 | Registration passes exactly when the name has at least 3 characters and the password at least 6. The name message takes precedence over the password message. |
| Register.ValidateDistinguishes | src/pages/auth/Register.tsx:27-31 | The name message is shown exactly when the name is too short. |
| Register.RegisterForm.constructor | src/pages/auth/Register.tsx:14-20 | The form starts empty, not loading, with the password hidden, no error and no confirmation. |
| Register.RegisterForm.SetName | src/pages/auth/Register.tsx:95 | Only the name changes. |
| Register.RegisterForm.SetEmail | src/pages/auth/Register.tsx:117 | Only the email changes. |
| Register.RegisterForm.SetPassword | src/pages/auth/Register.tsx:142 | Only the password changes. |
| Register.RegisterForm.TogglePassword | src/pages/auth/Register.tsx:148 | Only password visibility flips. |
| Register.RegisterForm.HandleRegister | src/pages/auth/Register.tsx:22-58 | Sign-up is requested exactly when validation passes, with `account_type` "business" and redirect origin + "/plan". The confirmation shows only after an error-free sign-up. The shown error is the validation message, the sign-up error's non-empty message, or none. Loading is false afterwards. |
| Contact.Assign | src/components/Contact.tsx:39 | An existing key keeps its place and takes the new value. A new key is appended. Other fields are unchanged and keys stay distinct. |
| Contact.SpreadFresh | src/components/Contact.tsx:28 | Spreading fields with new keys appends them in order. |
| Contact.FormNameFirst | src/components/Contact.tsx:28 | The submitted object is "form-name": "contact" followed by the form's fields in order. |
| Contact.Spread | src/components/Contact.tsx:28 | Spreading keeps keys distinct. Every key of the base keeps its position, and the result grows by at most the number of spread entries. |
| Contact.Pieces | src/components/Contact.tsx:16-18 | One piece per entry, in order: the encoded key, "=", then the encoded value. When the encoder never outputs '&', no piece contains '&'. |
| Contact.Encode | src/components/Contact.tsx:14-20 | An empty object encodes to "". |
| Contact.EncodeRoundTrip | src/components/Contact.tsx:14-20 | Splitting the body on '&' and each piece at '=' and decoding gives back every key and value, in order. This holds for any non-empty object, given an encoder that escapes '&' and '=' and a decoder that inverts it. |
| Contact.ContactForm.constructor | src/components/Contact.tsx:5-11 | The form starts with empty name, email, reason and message, and no message sent. |
| Contact.ContactForm.HandleChange | src/components/Contact.tsx:38-40 | Only the field named by the control's id changes. The form never gains a "form-name" field from another id. |
| Contact.ContactForm.HandleSubmit | src/components/Contact.tsx:22-35 | The body is the encoded form with "form-name=contact" first. `messageSent` becomes true only when the post is ok, and the form is kept. |
| AppRoutes.RouteName | src/App.tsx:78 | The route name is the pathname's first segment, up to the next '/', and contains no '/'. |
| AppRoutes.Title | src/App.tsx:70-84 | Every title starts with "BitMind". Apart from "/" and "/embed", a page whose first segment is a mapped route gets "BitMind", the separator and its fixed title. Any other first segment gets "BitMind", the separator and the capitalised segment. |
| AppRoutes.TitleShape | src/App.tsx:70-84 | The title is "BitMind" alone exactly for "/" and "/embed". Every other title starts with "BitMind", a space, a bar and a space. |
| AppRoutes.TitleFirstSegment | src/App.tsx:78-80 | The title depends on the first segment only, so a page and its sub-pages share a title. |
| AppRoutes.EmbedSubpageTitle | src/App.tsx:71-80 | "/embed/…" is not excluded. It is titled with the app name, the separator and capitalize("embed"). |
| AppRoutes.FixedTitles | src/App.tsx:72-80 | signin, forgot-password, terms and privacy get their fixed titles. |
| AppRoutes.ProtectedRoute | src/App.tsx:86-94 | Redirects to "/signin" exactly when there is no session user; otherwise renders the children. |
| AppRoutes.RedirectTargetTitled | src/App.tsx:89-90 | The page the guard redirects to gets the fixed title "Sign In" after the app name and the separator. |

## Left out

- **Transport and services.** HTTP, the Supabase client, axios, `fetch`,
  `Deno.serve`, `Deno.env`, `localStorage`, `navigate` and
  `window.location.reload` are not modelled. Their replies are parameters,
  and the calls are returned values.
- **Foreign helpers as parameters.** `encodeURIComponent` and
  `capitalizeFirstLetter` are supplied by the caller. `jwtDecode` is folded
  into the session value, which carries the optional `app_metadata.api_key`.
- AuthCoderApp.Handle: the message of the error the runtime's `Response`
  constructor throws for a status it refuses is the runtime's own wording. It
  is the parameter `refused`.
- Query.FormDecode: decodes "%XX" to the single character with that code,
  which is right below 0x80. Multi-byte UTF-8 escapes are not combined into
  one character. The URL parser's own percent-encoding of the query, which
  form decoding undoes, is not modelled.
- **Random ids.** The notification id drawn from `Math.random` is supplied by
  the caller and required to be fresh.
- **Timers.** The 5000 ms and 100 ms timers of the notification queue are the
  explicit methods `RemoveMessage` and `PurgeMessage`.
- **Timing.** Promise interleavings, React batching, re-renders and
  double-clicks are not modelled; each handler is one sequential step.
- Session.SessionStore.OnProfileUpdate: does not model the stale
  closure. The source's push callback merges into the `profile` captured
  when the subscription was made; the model merges into the current
  profile.
- Session.SessionStore.OnAuthStateChange: folds the effect that
  re-subscribes on every change of `user` into the auth event itself.
- **Strings are sequences of characters.** JavaScript's UTF-16 code units,
  used by `length`, `slice` and the 3/6/200 limits, are not distinguished
  from characters.
- **Route titles.** The lookup ignores keys inherited from
  `Object.prototype` (such as "constructor"); the source would return those
  inherited values.
- Contact.Assign: keeps insertion order for every key. JavaScript
  lists integer-like keys first; the form's keys are never integer-like.
- **Pathnames.** `AppRoutes` assumes the pathname starts with "/", as the
  router guarantees. Its other helpers are presentation only.
- **App.tsx shell.** The loading screen, theme state, service-worker
  registration and the `PythonProvider` lazy flag are not modelled.
- **Environment.tsx drag and drop.** The handler reads the file through
  `FileReader`. Its only decision, the two Python MIME types, is not
  modelled. The run, stop and clear stubs only log.
- **Account.tsx subscription portal.** Support and account deletion are
  calls to services with no logic of their own.
- **Both account pages.** They share one class, `Account.SnippetListPage`,
  because their `getSnippets` and `handleDelete` are identical. Only the
  edit link differs, and it is modelled in `AppAccount`.
- **Rendering.** Markup, CSS classes, `humanizeDate` and icons are not
  modelled. `WorkspaceLink.Render` passes the raw `last_used_at` through.
- **Other pages.** Presentation and mock pages, the fixtures, and the edge
  functions other than `auth-coder-app` are not part of this model.
  `create-coder-user`'s only rule, the username prefix, is
  `Users.CoderUsername`.
