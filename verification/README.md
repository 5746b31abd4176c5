# Agir Safely: session, auth ladder, Q&A store and screen helpers in Dafny

Agir Safely is a workplace-safety mobile app with an Express backend. It keeps
records of accidents, chemicals, diseases, maintenance and protective
equipment. This project models four parts of its logic as pure Dafny
functions and proves properties about them:

- **The client session lifecycle.**
  - The provider is a transition system over `Session(store, token, user, isLoading)`:
    - restore, login, register, logout and `resetAuth` are its steps (`AuthContext`);
    - its values persist in the device key/value store (`Storage`).
  - The HTTP gateway (`Api`):
    - builds the bearer header from the stored token on every call;
    - sends every request to one hard-coded base URL;
    - on a 401 removes both stored keys and throws "Authentication required";
    - turns every other non-2xx status, 403 included, into "Request failed".
  - The network configuration (`Network`):
    - has one production entry;
    - probes it with a 5000 ms abort;
    - retries the probe up to five times, then returns the production URL in every case.
- **The backend's authentication ladder** (`Server`):
  - bearer-token extraction;
  - the 401/403 split of the route guard;
  - the ordered checks of register and login;
  - the owner field that the create routes take from the token.
- **The anonymous question box** (`Questions`): the seeded list, and adding and deleting questions and replies.
- **The pure helpers of six screens:**
  - the replies screen (`QuestionResponses`): PDF name cleaning, the picker, the submit guard and PDF opening;
  - maintenance (`Maintenance`);
  - protective equipment (`Ppe`);
  - chemical products (`Chemicals`);
  - the disease self-test (`DiseaseTest`);
  - the product detail screen (`ProductDetail`).

Side effects become inputs:

- **Storage faults.** The store carries its own fault oracle: the call numbered `calls` throws exactly when that number is in `failing`.
- **Network replies.** Every reply is a `Transport` parameter:
  - no response (fetch threw);
  - or a status with a body, where a missing body means `json()` threw.
- **Other side effects:**
  - probe outcomes are a function from attempt number to outcome;
  - token signing and verification, password comparison, ids and clock readings are parameters.

Waits are summed as milliseconds, not taken on a clock.

Shared helpers:

- `Wrappers`: `Option`, `Result`.
- `Seqs`: order-preserving filter and count, subsequences.
- `Text`, which follows JavaScript semantics:
  - the whitespace of `trim` and `\s`;
  - `startsWith`, `includes`, `toLowerCase` (Latin-1 part) and `split`/`join`;
  - decimal printing.
- `Palette`: the four badge colours.

Some behaviours of the program worth knowing before reading the contracts:

- The client clears the session only on a 401. A 403 is a plain "Request failed".
- Any failed profile check during restore clears the stored credential, including a transport failure with no response.
- `deleteReply` removes every default reply of the targeted question, not only the reply whose id was given.

Two lemmas only check the constant tables, not an operation:
`DiseaseTest.DelaiTableShape` (seven diseases, deadlines in days, months or
years) and `ProductDetail.MockRisksMatchPictograms` (each listed product's
risks are the descriptions of its pictograms). They are sanity checks on
the data and are not listed in the table below.

## Model

| member | source | states |
|---|---|---|
| Storage.GetItem | src/contexts/AuthContext.tsx:47-48 | A read yields the stored string, or None exactly when the key is absent. When the oracle makes the call throw, it fails instead. |
| Storage.SetItem | src/contexts/AuthContext.tsx:79-80 | A write succeeds exactly when the call does not throw and a value is given. On success only that key changes; on failure nothing changes. |
| Storage.RemoveItem | src/contexts/AuthContext.tsx:127-128 | A removal deletes exactly that key, or changes nothing when it throws. |
| Api.Classify | src/services/api.ts:68-77 | 401 and only 401 is an authentication failure. A 2xx status is decoded. Every other status is a plain failure. |
| Api.HeadersFor | src/services/api.ts:8-11 | Content-Type is always JSON. Authorization is present exactly when the token is truthy, and is then "Bearer " followed by the token. |
| Api.GetAuthHeaders | src/services/api.ts:6-12 | The headers are rebuilt from whatever token is stored at the time of the call. A throwing read fails the call. |
| Api.Protected | src/services/api.ts:60-110 | The request goes to the fixed base URL with the stored token's header. A 401 removes both keys and throws "Authentication required". Any other non-2xx status throws "Request failed" with storage untouched. A 2xx reply yields its body. Storage changes only on a 401. |
| Api.GetProtectedData | src/services/api.ts:60-66 | Sends a GET to the base URL plus the endpoint. |
| Api.PostProtectedData | src/services/api.ts:86-93 | Sends a POST to the base URL plus the endpoint, carrying the given data. |
| Api.GetProfile | src/services/api.ts:124-126 | Sends a protected GET of /api/profile. Success requires a 2xx reply. |
| Api.Credentials | src/services/api.ts:14-58 | Sends an unauthenticated POST. Success happens exactly on a 2xx reply with a body. A non-2xx reply throws the server's message, or the fallback when that message is empty. |
| Api.Login | src/services/api.ts:14-35 | Posts email and password to /auth/login with no bearer header. The fallback error is "Login failed". |
| Api.Register | src/services/api.ts:37-58 | Posts email, password and name to /auth/register with no bearer header. The fallback error is "Registration failed". |
| Api.Logout | src/services/api.ts:112-122 | Sends a bearer POST to /auth/logout when the token read succeeds. It never fails and never changes stored items. |
| AuthContext.IsAuthenticated | src/contexts/AuthContext.tsx:144 | The flag is `!!token`: set exactly when a token is present and is not the empty string. |
| AuthContext.AuthenticationIgnoresUser | src/contexts/AuthContext.tsx:144 | Neither the user nor the loading flag changes the authentication flag. |
| AuthContext.Initial | src/contexts/AuthContext.tsx:37-39 | The first render has no token, no user, is loading, and is not authenticated. |
| AuthContext.UserJson | src/contexts/AuthContext.tsx:80 | An absent user encodes to undefined. A present user encodes to a non-empty text. |
| AuthContext.ResetAuth | src/contexts/AuthContext.tsx:125-134 | When both removals succeed, both keys are gone and token and user are cleared. A first removal that throws changes nothing. When the first removal succeeds and the second throws, only the token key is gone and token and user stay in memory. Loading is unchanged. |
| AuthContext.ResetAuthIdempotent | src/contexts/AuthContext.tsx:125-134 | Resetting an already cleared session changes no item and no memory, whatever the store's faults. |
| AuthContext.Restore | src/contexts/AuthContext.tsx:45-69 | Loading always ends. The profile is fetched only when both reads succeed and both values are present. Without a stored credential, nothing changes. A 2xx profile adopts the stored token and the profile's user. Any other outcome clears store and memory. |
| AuthContext.RestoreFromInitial | src/contexts/AuthContext.tsx:45-61 | From the first render, a store without both values sends no request and stays unauthenticated. |
| AuthContext.RestoreReadFailureResets | src/contexts/AuthContext.tsx:62-66 | A throwing read of either key sends no request and ends in a full reset. |
| AuthContext.RestoreIdempotent | src/contexts/AuthContext.tsx:45-69 | Restoring twice against the same reply ends in the state that restoring once reached. |
| AuthContext.Authenticate | src/contexts/AuthContext.tsx:75-90 | Success requires a body with token and user. It writes the token, then the encoded user, and only then sets memory. Any failure leaves memory unchanged. A thrown call leaves the store unchanged. With reliable storage a complete body always succeeds. |
| AuthContext.Login | src/contexts/AuthContext.tsx:71-91 | Loading is off afterwards. The request carries no bearer header. Success requires a 2xx reply. Failure keeps the old token and user. |
| AuthContext.Register | src/contexts/AuthContext.tsx:93-113 | The same contract as login, for the register call. |
| AuthContext.LoginOverwrites | src/contexts/AuthContext.tsx:79-83 | A successful login replaces both stored values and memory with the new credential. |
| AuthContext.LoginHalfWritten | src/contexts/AuthContext.tsx:79-80 | If the second write throws, the new token sits next to the previous user's record while memory keeps the old session. |
| AuthContext.Logout | src/contexts/AuthContext.tsx:115-123 | With reliable storage, logout always clears both keys, the token and the user, and the request goes to /auth/logout. |
| AuthContext.LogoutIgnoresReply | src/contexts/AuthContext.tsx:116-121 | The server's answer to logout, or its absence, never changes the resulting session. |
| AuthContext.LoginThenLogout | src/contexts/AuthContext.tsx:71-123 | Logging in and then out leaves no key stored and no session in memory. |
| Network.GetNetworkConfig | src/config/network.ts:2-10 | The configuration is always the production URL with a 10000 ms timeout. |
| Network.TestNetworkConnection | src/config/network.ts:13-24 | Sends a GET of the URL's root with a 5000 ms abort. The result is reachable exactly for a 2xx response; an abort or a throw is unreachable. |
| Network.GetBestApiUrl | src/config/network.ts:27-38 | Returns the production URL after 1 to 5 probes, stopping at the first success. No earlier probe succeeded. A 2000 ms wait follows every failed probe, the fifth included, so the total wait is 2000 ms per failed probe. |
| Server.BearerToken | backend/server.js:43-44 | The token is the second space-separated part of the header, kept only when present and non-empty. |
| Server.ClientHeaderRoundTrip | backend/server.js:44 | The header the client builds from a space-free token reads back as that token. |
| Server.AuthenticateToken | backend/server.js:42-57 | No token gives 401 "Access token required". A token that fails verification gives 403 "Invalid or expired token". Only a verified token runs the handler, with the decoded claims. |
| Server.Register | backend/server.js:67-113 | The checks run in order: required fields give 400, a lookup error gives 500, a duplicate gives 400, then the save: a schema rejection gives 400 with the field messages, and a crashed save gives 500. A 400 with field messages and a 500 arise only that way. 201 happens exactly when every check passes. The new user is then stored and returned with a token for its id and email. Every other outcome leaves the users unchanged. |
| Server.Login | backend/server.js:116-157 | Missing fields give 400. A failed lookup gives 500. An unknown e-mail or a wrong password gives 401 "Invalid credentials". With a good password, a failed lastLogin save gives 500. 200 happens exactly when the lastLogin update is saved, and only then are the token signed and the users changed. |
| Server.LoginDoesNotRevealAccounts | backend/server.js:126-135 | An unknown e-mail and a wrong password get the same reply. |
| Server.WithOwner | backend/server.js:207-210 | The owner field takes the token's user id whatever the body said. Every other field is kept. |
| Server.AccidentData | backend/server.js:207-210 | An accident's `reportedBy` is the caller's user id. |
| Server.ChemicalData | backend/server.js:351-354 | A chemical's `responsiblePerson` is the caller's user id. |
| Questions.Seed | src/contexts/QuestionsContext.tsx:29-64 | The initial list has two default questions, each holding one default reply. |
| Questions.AddQuestion | src/contexts/QuestionsContext.tsx:66-67 | One non-default question with the trimmed text and no replies is put in front. The old list follows unchanged. |
| Questions.NewReply | src/contexts/QuestionsContext.tsx:73 | The reply gets the new id and the current time, and carries the draft's text, image, PDF and default flag unchanged. |
| Questions.AddReply | src/contexts/QuestionsContext.tsx:69-76 | The new reply goes in front of the replies of every question with that id. Every other question is unchanged and the length is kept. |
| Questions.AddReplyUnknownId | src/contexts/QuestionsContext.tsx:69-76 | Replying to an id that no question has changes nothing. |
| Questions.DeleteReply | src/contexts/QuestionsContext.tsx:78-85 | Only the questions with that id change, and only in their filtered replies. |
| Questions.DeleteReplyDropsDefaults | src/contexts/QuestionsContext.tsx:82 | In the target question, no reply keeps the id and no default reply is left. Every other non-default reply stays, in order. |
| Questions.DeleteQuestion | src/contexts/QuestionsContext.tsx:87-91 | Default questions always stay. Any other question stays exactly when its id differs. The survivors keep their order, and each surviving position is kept once, so equal questions are all kept. |
| Questions.DeleteQuestionKeepsOrder | src/contexts/QuestionsContext.tsx:90 | The survivors keep their order. |
| Questions.DeleteDefaultQuestionIsNoOp | src/contexts/QuestionsContext.tsx:87-91 | Deleting an id that only default questions carry changes nothing. |
| Questions.SeedSurvivesDeletion | src/contexts/QuestionsContext.tsx:29-91 | The seeded questions survive any deletion. |
| QuestionResponses.SanitizeName | src/screens/QuestionResponsesScreen.tsx:47 | Each of / \ ? % * : \| " < > becomes `_`. Every other character and the length are kept. |
| QuestionResponses.SanitizeNameClean | src/screens/QuestionResponsesScreen.tsx:47 | A cleaned name has no forbidden character, and cleaning it again changes nothing. |
| QuestionResponses.SanitizeNameKeepsClean | src/screens/QuestionResponsesScreen.tsx:47 | A name without forbidden characters is kept as it is. |
| QuestionResponses.PickPdf | src/screens/QuestionResponsesScreen.tsx:34-52 | Any of these leaves the selection as it was: a cancelled pick, an error, an empty asset list, or a document without a uri. Otherwise the first asset, or the legacy fields, become the selection under the cleaned name, defaulting to "document.pdf". |
| QuestionResponses.PickPdfSelectsUsable | src/screens/QuestionResponsesScreen.tsx:41-48 | A selected PDF always has a non-empty uri and a clean, non-empty name. |
| QuestionResponses.Submit | src/screens/QuestionResponsesScreen.tsx:54-63 | Submit is refused, with nothing changed, exactly when the text is all whitespace and there is no image and no PDF. Otherwise the trimmed text, the image and the PDF go to `addReply` as a non-default reply, and the composer is emptied. |
| QuestionResponses.SubmittedReplyHasContent | src/screens/QuestionResponsesScreen.tsx:55-59 | A composer holding text, an image or a PDF is accepted, and the reply it adds is a non-default reply that is never blank. |
| QuestionResponses.CollapseSpaces | src/screens/QuestionResponsesScreen.tsx:79 | The result holds no whitespace, is no longer than the input, and is empty only for an empty name. |
| QuestionResponses.CollapseSpacesKeepsSpaceless | src/screens/QuestionResponsesScreen.tsx:79 | A name without whitespace is kept. |
| QuestionResponses.CollapseSpacesIdempotent | src/screens/QuestionResponsesScreen.tsx:79 | Collapsing twice is collapsing once. |
| QuestionResponses.CollapseSpacesPrefix | src/screens/QuestionResponsesScreen.tsx:79 | A leading word without whitespace is copied, and the collapse continues after it. |
| QuestionResponses.CollapseSpacesStep | src/screens/QuestionResponsesScreen.tsx:79 | A word, a whitespace run and the rest of the name become the word, one `_` and the collapsed rest. Applied run by run, every run becomes exactly one `_`. |
| QuestionResponses.CollapseSpacesJoins | src/screens/QuestionResponsesScreen.tsx:79 | A whitespace run between two words becomes exactly one `_`. |
| QuestionResponses.DownloadPdf | src/screens/QuestionResponsesScreen.tsx:67-94 | file:// and content:// uris are shared. http:// and https:// uris are downloaded to the documents folder (or "null") plus the collapsed name. Any other uri is refused. |
| QuestionResponses.DownloadNameHasNoSpace | src/screens/QuestionResponsesScreen.tsx:79-80 | The destination starts with the folder, and the file name after it has no whitespace. |
| Maintenance.Filtered | src/screens/MaintenanceScreen.tsx:66 | "Tous" keeps the whole list. Any state keeps exactly the items in that state, in order, one per position in that state. |
| Maintenance.FilteredKeepsOrder | src/screens/MaintenanceScreen.tsx:66 | The filtered list keeps the list's order. |
| Seqs.FilterUnique | src/screens/MaintenanceScreen.tsx:66 | The filter is the only ordered selection of matching items that keeps one item per matching position. So the membership, order and length clauses of the screen filters fix their result exactly. |
| Maintenance.AlertsCount | src/screens/MaintenanceScreen.tsx:68 | The count is the number of positions whose item has an active alert. So it never exceeds the list length, and is zero exactly when no item has an alert. |
| Maintenance.StatusCount | src/screens/MaintenanceScreen.tsx:175-185 | Each state card shows the number of positions whose item is in that state. |
| Maintenance.StatusCountsSum | src/screens/MaintenanceScreen.tsx:175-185 | The three state cards add up to the number of equipment items. |
| Maintenance.StatusColor | src/screens/MaintenanceScreen.tsx:70-81 | Each state label gets its colour. Grey is returned exactly for a text that is no state's label. |
| Maintenance.StatusIcon | src/screens/MaintenanceScreen.tsx:83-94 | Each state label gets its icon. "help" is returned exactly for a text that is no state's label. |
| Maintenance.BadgesDistinguishStates | src/screens/MaintenanceScreen.tsx:70-94 | Different states get different colours and icons, never the fallback ones. |
| Maintenance.UpdateEquipmentStatus | src/screens/MaintenanceScreen.tsx:96-97 | Only the state of the items with that id changes. The length, the other fields and the other items are kept. |
| Maintenance.UpdateKeepsAlerts | src/screens/MaintenanceScreen.tsx:96-97 | A state update never changes the alert count. |
| Maintenance.AlertBanner | src/screens/MaintenanceScreen.tsx:163-170 | The banner shows exactly when some item has an alert. It starts with the count and uses the plural endings exactly when the count exceeds one. |
| Ppe.Filtered | src/screens/PPEScreen.tsx:73 | "Toutes" keeps the whole list. Any other zone keeps exactly the items of that zone, in order, one per position in that zone. |
| Ppe.AvailabilityColor | src/screens/PPEScreen.tsx:75-80 | With a non-zero total: red exactly for zero stock, amber exactly for a non-zero ratio below 0.3 (real division), green otherwise. A zero total is never red, and is amber exactly for negative stock. |
| Ppe.RatioBelow | src/screens/PPEScreen.tsx:76-78 | The integer cross-multiplication agrees with the real comparison of the ratio with 0.3, for either sign of the total. |
| Ppe.AvailabilityMonotone | src/screens/PPEScreen.tsx:75-80 | With a positive total, more stock never gives a worse colour. |
| Ppe.OutOfStockCount | src/screens/PPEScreen.tsx:175 | The banner and card count is the number of positions whose item has nothing available. So it never exceeds the list length, and is zero exactly when every item has stock. |
| Ppe.OutOfStockIsRedCards | src/screens/PPEScreen.tsx:175-193 | When every total is non-zero, the out-of-stock count is the number of cards drawn red. |
| Ppe.GoodCount | src/screens/PPEScreen.tsx:188 | The "Bon" count is the number of positions whose item is "Bon". It equals the list length exactly when every item is "Bon". |
| Ppe.StateColor | src/screens/PPEScreen.tsx:82-93 | Bon gives green, Usé amber and À remplacer red. Grey is returned exactly for any other text. |
| Chemicals.FilteredProducts | src/screens/ChemicalProductsScreen.tsx:59-63 | A product is kept exactly when its lowered name contains the lowered search and its category matches, or the selection is "Tous". Kept products stay in order, one per matching position. |
| Chemicals.EmptySearchShowsAll | src/screens/ChemicalProductsScreen.tsx:55-63 | An empty search under "Tous" lists every product. |
| Chemicals.SearchIgnoresCase | src/screens/ChemicalProductsScreen.tsx:60 | Searching the lowered text finds the same products. |
| Chemicals.TypingNarrows | src/screens/ChemicalProductsScreen.tsx:60 | Whatever matches a longer search also matched the shorter search that it extends. |
| Chemicals.DangerColor | src/screens/ChemicalProductsScreen.tsx:65-76 | Faible gives green, Moyen amber and Élevé red. Grey is returned exactly for any other text. |
| ProductDetail.DangerIndicatorColour | src/screens/ProductDetailScreen.tsx:92-103 | The detail screen's danger colour, the same table as the product list's, is never grey for a product, and is red exactly for "Élevé". |
| Chemicals.DangerColorsDistinct | src/screens/ChemicalProductsScreen.tsx:65-76 | Different danger levels get different, non-grey colours. |
| Chemicals.RiskChips | src/screens/ChemicalProductsScreen.tsx:91-96 | At most the first two risks are shown. "+n autres" appears exactly when there are more than two risks, with n the number not shown. |
| DiseaseTest.GetDelai | src/screens/DiseaseTestScreen.tsx:5-17 | Each of the seven listed diseases gets its deadline. Any other name gets "—". The result is never empty. |
| DiseaseTest.ToggleSymptom | src/screens/DiseaseTestScreen.tsx:23-27 | A present index is removed, every copy of it, and the rest stay in order, one per position holding another index. An absent index is appended. No other index changes membership. |
| DiseaseTest.ToggleTwiceRestores | src/screens/DiseaseTestScreen.tsx:23-27 | Toggling an absent index twice restores the selection. |
| DiseaseTest.ToggleKeepsNoDuplicates | src/screens/DiseaseTestScreen.tsx:23-27 | A duplicate-free selection stays duplicate-free. |
| ProductDetail.PictogramDescription | src/screens/ProductDetailScreen.tsx:105-115 | GHS02, 05, 06, 07, 08 and 09 get their fixed descriptions. Any other code gets "Danger". The result is never empty. |
| ProductDetail.DescriptionsNameTheCode | src/screens/ProductDetailScreen.tsx:106-113 | Different described codes get different descriptions. |
| ProductDetail.PictogramGrid | src/screens/ProductDetailScreen.tsx:44-49 | There is one description per pictogram code, in order. |

## Left out

- Rendering, navigation, alerts and styles of every screen are left out. Only the state and the values shown are modelled.
- The image picker (`pickImage`) is left out. Sharing availability, the download itself and their error alerts are left out too: they are device I/O.
- `reportDamage` on the protective equipment screen is left out, because it only shows alerts.
- The PPE progress-bar width text is left out.
- The MongoDB calls are reduced to an in-memory map with fault flags. Token signing and verification, and bcrypt password comparison, are parameters. Token expiry (24 h) is part of the verification parameter.
- The CRUD routes of the backend are out of scope, apart from the owner field of the two create routes. The schemas, the seed and test scripts, the mock API and the debug screen are out of scope too.
- The logging calls (`console.*`) are left out.
- Lookup tables are modelled as Dafny maps. A JavaScript object also answers for inherited keys such as "constructor", but those are left out.
- Text.Lower: lowers only the Latin-1 capitals (A to Z and U+00C0 to U+00DE except U+00D7). JavaScript's `toLowerCase` covers all of Unicode.
- AuthContext.UserJson: the JSON encoding does not escape quotes or control characters in the user's fields, and it omits fields the server adds. Only its presence and non-emptiness are relied on.
- Ppe.AvailabilityColor: the ratio is compared as an exact rational, not as a double. This differs only for totals so large that the double nearest `d / t` rounds onto 0.3.
- The `isLoading` value during a call is left out; only its value after each step is modelled. The same goes for React's state batching and for concurrent calls of the provider.
- Storage.SetItem: a missing value makes the write fail. This is how the store rejects an undefined value. So a login reply without a token or user ends in failure, not in a stored "undefined". A reply whose `user` is an explicit `null` differs: `JSON.stringify` stores it as "null" and the login succeeds with no user. The model's reply body has one `None` for both absent and null, so it treats that reply as failing too.
