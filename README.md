# InfraDB dashboard core, modelled in Dafny

This project models the logic of the InfraDB dashboard. The dashboard is a Next.js client that keeps API tokens and settings in the browser, and from them drives GitLab (CI/CD variables, pipeline triggers, project tracking), GitHub (Actions secrets) and Cloudflare (DNS records, R2 buckets). The model covers:

- **Parsing and formatting.** The KEY=VALUE env parser (`EnvParser`). The JavaScript string operations it relies on, with JavaScript's own whitespace set (`Strings`). `owner/repo` parsing, request URLs and response errors for both REST clients (`GitHub`, `GitLab`, `Http`).
- **The GitHub secret envelope.** The byte/binary-string conversion loops, and the byte layout of the sealed box (nonce input, nonce, ephemeral key followed by ciphertext). Also the order in which `upsertGitHubSecret` fetches the key, encrypts and writes (`GitHub`). The NaCl primitives are given as functions and are not modelled.
- **The GitLab client.** The variable upsert with its PUT-then-POST fallback, the not-found test, and the loading of a project with its branches and pipelines (`GitLab`).
- **Browser storage.** The IndexedDB schema and its three keyed tables (`Db`). The token, settings and project services on top of it (`TokenService`, `SettingsService`, `ProjectService`).
- **The hooks the pages share.** Tokens (`TokenStorageHook`), API settings (`ApiSettingsHook`), the `localStorage`-backed project list (`GitlabProjectsHook`, with the list updaters in `ProjectList` and `Seqs`) and the GitLab project search (`GitlabSearchHook`).
- **The pages, each a class whose fields are the page's state and whose methods are its handlers.** Tokens (`TokensPage`), Settings (`SettingsPage`), GitLab variables and GitHub secrets (`GitLabVariablesPage`, `GitHubSecretsPage`, sharing the per-entry sync loop in `EnvSync`) and GitLab pipelines (`GitLabPipelinesPage`). Cloudflare DNS (`DnsPage`, over the server actions in `DnsActions`) and Cloudflare R2 (`R2Page`, over the API route `R2Route` and the server action `R2Actions`). Also the navigation highlighting of the two layout components (`Layout`).

Network calls, SDK calls, storage failures, the clipboard, the confirmation dialog and the clock are inputs. Each handler receives what the outside world answered, and yields the requests it issued together with the state it leaves.

## Model

| member | source | states |
|---|---|---|
| Strings.TrimStart | utils/variable.ts:4 | the result is a suffix of the input: what was dropped is all whitespace, and what is kept does not start with whitespace |
| Strings.TrimEnd | utils/variable.ts:4 | the result is a prefix of the input: what was dropped is all whitespace, and what is kept does not end with whitespace |
| Strings.Trim | utils/variable.ts:4 | `trim()` leaves no whitespace at either end and is never longer than the input |
| Strings.TrimIsInfix | utils/variable.ts:4 | the trim is the infix of the input that starts where `trimStart` stops, and everything before and after it is whitespace |
| Strings.TrimOfTrimmed | utils/variable.ts:4 | a string with no whitespace at either end is its own trim |
| Strings.TrimIdempotent | utils/variable.ts:4 | trimming twice is trimming once |
| Strings.TrimDropsTrailingWhitespace | utils/variable.ts:3-4 | one more character at the end, such as the `\r` of a Windows line ending, never changes the trim when it is whitespace |
| Strings.Split | utils/variable.ts:7 | a split yields at least one piece, and no piece contains the separator |
| Strings.JoinSplit | utils/variable.ts:7-8 | joining the pieces of a split with the same separator gives back the text |
| Strings.SplitJoin | utils/variable.ts:7-8 | splitting a join of separator-free pieces gives back the pieces |
| Strings.SplitWithoutSeparator | utils/variable.ts:7 | a text without the separator is one piece |
| Strings.SplitAround | utils/variable.ts:7 | a separator between two texts splits them apart, their pieces following each other |
| Strings.NatToString | lib/gitlab.ts:255 | `String(n)` is a non-empty string of decimal digits without a leading zero |
| Strings.NatToStringRoundTrip | lib/gitlab.ts:255 | reading the printed digits back gives the number |
| Strings.NatToStringInjective | app/gitlab/pipelines/page.tsx:143-147 | two ids print the same only when they are equal, so the string ids of the project list never collide |
| Strings.ContainsInfix | lib/gitlab.ts:95 | a text containing "404" anywhere matches the `/404/` test |
| Seqs.Filter | utils/variable.ts:5 | `filter` keeps, in order, exactly the elements that pass; when all pass the list is unchanged |
| Seqs.FilterAppend | utils/variable.ts:5 | filtering a concatenation is concatenating the filtered parts |
| Seqs.FilterMap | utils/variable.ts:6-15 | every result is the image of some element, and there are no more results than elements |
| Seqs.FilterMapAppend | utils/variable.ts:6-15 | mapping and filtering a concatenation is concatenating the results of the parts |
| Seqs.FilterMapSingleton | utils/variable.ts:6-15 | a one-element list keeps its element's image when it has one and gives nothing otherwise |
| Seqs.FilterMapPointwise | utils/variable.ts:4-15 | two lists whose elements have the same images give the same results |
| Types.IdleBranch | lib/gitlab.ts:231-235 | a freshly loaded branch keeps its name and default flag, is idle, never triggered and has no error |
| Http.StripTrailingSlash | lib/gitlab.ts:50 | removes at most one slash, and only from the end |
| Http.StripLeadingSlash | lib/gitlab.ts:50 | removes at most one slash, and only from the start |
| Http.JoinUrl | lib/gitlab.ts:50 | the URL is the stripped base, one slash, then the stripped path |
| Http.JoinUrlNormalises | lib/github.ts:130 | a slash at the end of the base, at the start of the path, both or neither gives the same URL |
| Http.SlashesStripped | lib/gitlab.ts:50 | the strips undo exactly the one slash a caller adds, and leave a slash-free end alone |
| Http.JoinUrlStripsOnlyOne | lib/gitlab.ts:50 | doubled slashes on both sides leave three slashes in the URL, since each strip removes only one |
| Http.FailureMessage | lib/gitlab.ts:60-63 | a failed request's message is never empty: the body text when there is one, otherwise "<provider> request failed: <status>" |
| Http.Interpret | lib/gitlab.ts:60-69 | a response is an error exactly when it is not OK; a 204 gives no content; any other OK response gives its body |
| Http.HexDigit | lib/gitlab.ts:78-79 | every digit prints as an upper-case hex digit that `HexValue` reads back as the digit |
| Http.HexValue | lib/gitlab.ts:78-79 | a hex character reads as a value below 16 |
| Http.Utf8 | lib/gitlab.ts:78-79 | one character encodes to one to four bytes, each below 256; the first byte announces the length, and `Utf8Value` reads the bytes back as the character's code point |
| Http.Utf8Length | lib/gitlab.ts:78-79 | a UTF-8 lead byte announces a sequence of one to four bytes |
| Http.PercentEncode | lib/gitlab.ts:78-79 | every byte becomes three characters, "%" and two upper-case hex digits |
| Http.PercentBytesOfEncode | lib/gitlab.ts:78-79 | reading the `%XX` triples back gives exactly the encoded bytes |
| Http.EncodedCharDecodes | lib/gitlab.ts:78-79 | one percent-encoded character at the front of a text decodes to that character, then the rest decodes as before |
| Http.EncodeUriComponent | lib/gitlab.ts:78-79 | the encoding holds only unreserved characters, "%" and hex digits, and leaves a string of unreserved characters unchanged |
| Http.DecodeEncodeUriComponent | lib/gitlab.ts:78-79 | decoding `encodeURIComponent(s)` gives back exactly the characters of `s` |
| Http.EncodeUriComponentInjective | lib/gitlab.ts:78-79 | two texts with the same encoding are the same text, so distinct project ids give distinct paths |
| Http.EncodedComponentIsOneSegment | lib/gitlab.ts:78-83 | an encoded component never contains "/", "?" or "#", so it stays one path segment |
| Http.FormUrlEncode | lib/gitlab.ts:187-197 | an encoded query value never contains "&", "=" or "#", so it cannot add or end a parameter |
| Http.DecodeFormUrlEncode | lib/gitlab.ts:187-197 | decoding the form-encoded value, "+" as a space, gives back exactly the characters of the query |
| Http.FormUrlEncodeInjective | lib/gitlab.ts:187-197 | two query values with the same form encoding are the same value |
| Http.ExtractErrorMessage | app/cloudflare/r2/page.tsx:41-47 | an Error yields its message; any other thrown value yields "Unexpected error" |
| Db.ParseStoreSpec | lib/db.ts:23-30 | a store spec is unique exactly when it starts with "&", and its primary key is the rest of the spec |
| Db.ApplyStores | lib/db.ts:22-31 | after a version the tables are those it declares plus the earlier ones it does not mention; a table declared `null` is dropped, a declared one takes its new spec, an unmentioned one keeps its old spec |
| Db.SchemaVersion1 | lib/db.ts:22-24 | version 1 holds exactly one table, `kv`, keyed by a unique `key` |
| Db.SchemaVersion2 | lib/db.ts:26-31 | version 2 drops `kv`; `tokens` and `settings` are keyed by a unique `key`, `projects` by a unique `id` |
| Db.SchemaVersion2Tables | lib/db.ts:26-31 | version 2 holds exactly the `tokens`, `settings` and `projects` tables |
| Db.PutAll | services/project-service.ts:70 | after a bulk put the keys are the old ones plus the key of every record written |
| Db.PutAllLastWins | services/project-service.ts:70 | a record that no later record of the batch shares a key with is the one stored under its key |
| Db.PutAllUntouched | services/project-service.ts:70 | a stored record whose key no record of the batch has is left as it was |
| Db.PutAllKeepsKeys | services/project-service.ts:70 | when every record is stored under its own key before a bulk put, the same holds after it |
| Db.Table.constructor | lib/db.ts:15-17 | a table starts empty, with every record under its own key |
| Db.Table.Get | services/token-service.ts:25-26 | a get finds a record exactly when the key is stored, and then it is the record stored under that key |
| Db.Table.Put | services/token-service.ts:64 | a put stores the record under its key, replacing any record there, and changes nothing else |
| Db.Table.Delete | services/token-service.ts:66 | a delete removes the key if present and changes nothing else |
| Db.Table.BulkDelete | services/token-service.ts:79 | a bulk delete removes exactly the listed keys |
| Db.Table.BulkPut | services/project-service.ts:70 | a bulk put stores the records one after the other, as `PutAll` describes |
| Db.Table.Clear | services/project-service.ts:55-58 | a clear leaves the table empty |
| Db.Table.PrimaryKeys | services/project-service.ts:60 | the keys listed are exactly the stored keys, each once |
| Db.Table.ToArray | services/project-service.ts:28 | every stored record is listed exactly once, under its own key, and nothing else is |
| Db.Database.constructor | lib/db.ts:14-32 | the database starts with three fresh empty tables for tokens, settings and projects |
| EnvParser.DropCarriageReturn | utils/variable.ts:3 | dropping the `\r` before a newline never changes what the line trims to |
| EnvParser.SplitLines | utils/variable.ts:3 | splitting on `\r?\n` gives as many lines as splitting on `\n`, and each trims to the same text |
| EnvParser.ParseLine | utils/variable.ts:4-15 | a blank line or a comment gives no entry; an entry's key is non-empty, trimmed and free of "=" |
| EnvParser.ParseTrimmed | utils/variable.ts:5-15 | the same as `ParseLine` for a line that is already trimmed |
| EnvParser.ParseLines | utils/variable.ts:4-15 | at most one entry per line, every key non-empty, trimmed and free of "=" |
| EnvParser.ParseEnvInput | utils/variable.ts:1-16 | no more entries than lines, every key non-empty, trimmed and free of "=" |
| EnvParser.ParseEmptyInput | utils/variable.ts:1-16 | an empty text has no entries |
| EnvParser.ParseLineAtFirstEquals | utils/variable.ts:7-13 | a line splits at its first "=": the trimmed text before it is the key, and everything after it, later "=" included, is the value |
| EnvParser.ParseTrimmedAtFirstEquals | utils/variable.ts:7-13 | the same split for a line that is already trimmed |
| EnvParser.ParseLineWithoutEquals | utils/variable.ts:7-8 | a line without "=" is a key with the empty value |
| EnvParser.ParseTrimmedWithoutEquals | utils/variable.ts:7-8 | the same for a line that is already trimmed |
| EnvParser.ParseLinesByTrim | utils/variable.ts:4 | lines that differ only by surrounding whitespace parse to the same entries |
| EnvParser.ParseEnvInputBySplit | utils/variable.ts:3-4 | whether a `\r` is consumed with the newline after it does not change the entries |
| EnvParser.SingleLine | utils/variable.ts:1-16 | a text without a newline yields exactly that line's entry, if it has one |
| EnvParser.NewlineSeparates | utils/variable.ts:3 | the entries of two blocks joined by a newline are the first block's followed by the second's |
| EnvParser.TrailingCarriageReturnPadsLastLine | utils/variable.ts:3 | a trailing `\r` adds no line and changes no line's trim |
| EnvParser.TrailingCarriageReturnIgnored | utils/variable.ts:3-4 | a trailing `\r` changes no entry |
| EnvParser.CarriageReturnNewlineSeparates | utils/variable.ts:3 | `\r\n` separates two blocks exactly as `\n` does |
| TokenService.StorageKey | services/token-service.ts:4-8 | every token kind has a non-empty storage key |
| TokenService.StorageKeyInjective | services/token-service.ts:4-8 | distinct kinds are stored under distinct keys |
| TokenService.Tokens.With | services/token-service.ts:31-34 | setting one kind's token changes that kind's value and no other |
| TokenService.TokensIn | services/token-service.ts:22-34 | the tokens read from the table give each kind its stored value, or "" when the key is absent |
| TokenService.GetTokens | services/token-service.ts:16-41 | a failing store reads as the default (all empty) tokens; otherwise every kind gets its stored value or "" |
| TokenService.ReadEntries | services/token-service.ts:22-29 | one entry per kind, in key order, each the stored value or "" |
| TokenService.FillTokens | services/token-service.ts:31-34 | the loop gives each kind the value of its entry |
| TokenService.GetToken | services/token-service.ts:43-55 | a failing store reads as ""; otherwise the kind's stored value or "" |
| TokenService.SaveToken | services/token-service.ts:57-71 | a failure changes nothing; otherwise a non-empty value is put under the kind's key and an empty one deletes it |
| TokenService.ClearTokens | services/token-service.ts:73-83 | a failure changes nothing; otherwise exactly the three token keys are deleted |
| TokenService.SaveThenRead | services/token-service.ts:57-67 | after a save the kind reads back as the value saved, the empty value included |
| TokenService.SaveLeavesOtherKinds | services/token-service.ts:57-67 | a save never changes how another kind reads |
| TokenService.SaveNeverStoresEmpty | services/token-service.ts:63-67 | a table with no empty token still has none after a save |
| TokenService.ClearedReadsDefault | services/token-service.ts:73-83 | after a clear every kind reads as the empty default |
| SettingsService.Merge | hooks/useApiSettings.ts:45-53 | each field the partial settings carry replaces the current one; absent fields keep their value |
| SettingsService.MergeIdempotent | hooks/useApiSettings.ts:45-53 | merging the same partial twice is merging it once |
| SettingsService.MergeComplete | hooks/useApiSettings.ts:45-53 | a partial carrying every field replaces the settings entirely |
| SettingsService.SettingsIn | services/settings-service.ts:34-40 | each setting is its stored value when its key is present, otherwise its default: the public GitLab and GitHub APIs and an empty account id |
| SettingsService.GetSettings | services/settings-service.ts:23-45 | a failing store reads as the defaults; otherwise each setting is its stored value or its default |
| SettingsService.SaveSettings | services/settings-service.ts:47-86 | a failing store changes nothing; otherwise each field present is put under its key, except the writes that fail, which leave their keys as they were |
| SettingsService.SettingWrites | services/settings-service.ts:52-79 | at most three writes, no two on the same key, and a write for a key exactly when its field is present, carrying that field's value |
| SettingsService.Landed | services/settings-service.ts:52-85 | the writes of the landed settings are exactly the writes of the partial whose keys do not fail |
| SettingsService.RunStep | services/settings-service.ts:81-85 | one more queued write lands on its key unless the key is failing, and otherwise leaves the table as it was |
| SettingsService.RunWrites | services/settings-service.ts:81-85 | the writes that do not fail land in order; a failing one leaves its key untouched |
| SettingsService.ClearSettings | services/settings-service.ts:88-102 | a failure changes nothing; otherwise exactly the three setting keys are deleted |
| SettingsService.LandedWrites | services/settings-service.ts:52-85 | the writes that land are the writes of the fields whose keys do not fail |
| SettingsService.LookupAfterPutAll | services/settings-service.ts:34-40 | after a bulk write a key reads as the last value written to it, otherwise as before |
| SettingsService.SaveThenGet | services/settings-service.ts:23-86 | reading the settings back after a save gives the old settings merged with the partial saved |
| SettingsService.PartialSaveThenGet | services/settings-service.ts:23-86 | after a save in which some writes fail, each field reads as the new value if its write landed, otherwise as before |
| SettingsService.ClearedReadsDefault | services/settings-service.ts:88-102 | after a clear the settings read as the defaults |
| ProjectService.ReviveProject | services/project-service.ts:8-20 | a revived project keeps id, name and namespace, gets "" for a missing web URL, idle branches and an empty pipeline list when none was stored |
| ProjectService.Revive | services/project-service.ts:8-20 | one revived project per stored project, in order |
| ProjectService.SerializeProject | services/project-service.ts:41-51 | a stored project keeps id, name, namespace and web URL, each branch's name and default flag, and the pipelines or an empty list |
| ProjectService.Serialize | services/project-service.ts:41-51 | one stored project per project, in order |
| ProjectService.ReviveAfterSerialize | services/project-service.ts:8-51 | saving and reviving a project loses only branch status, trigger time and error and the missing web URL or pipelines, which it normalises; a normal project survives unchanged |
| ProjectService.SerializeAfterRevive | services/project-service.ts:8-51 | a stored project with a web URL and pipelines survives a revive and save unchanged |
| ProjectService.PutAllReplaces | services/project-service.ts:60-70 | once every stored id is rewritten by the batch, the old rows no longer matter |
| ProjectService.GetProjects | services/project-service.ts:22-34 | a failing store reads as no projects; otherwise every stored project is revived exactly once, under its own id |
| ProjectService.SaveProjects | services/project-service.ts:36-75 | a failure changes nothing; otherwise the table holds exactly the serialized projects: an empty list clears it, stale ids are deleted and the rest put |
| ProjectService.SavedKeys | services/project-service.ts:60-70 | after a save the stored ids are exactly the ids of the projects saved |
| ProjectService.SaveThenLoad | services/project-service.ts:22-75 | a project whose id is unique in the list saved reads back as its normalised self |
| ProjectService.SaveKeepsLastDuplicate | services/project-service.ts:70 | of two projects with the same id, the later one is stored |
| ApiSettingsHook.ApiSettingsState.constructor | hooks/useApiSettings.ts:14-15 | the hook starts with the default settings and is not ready |
| ApiSettingsHook.ApiSettingsState.Load | hooks/useApiSettings.ts:17-43 | once mounted, the load leaves the hook ready and showing what the store holds, or the defaults when the store fails; after unmounting it changes nothing |
| ApiSettingsHook.ApiSettingsState.Unmount | hooks/useApiSettings.ts:40-42 | unmounting changes neither the settings nor readiness |
| ApiSettingsHook.ApiSettingsState.UpdateSettings | hooks/useApiSettings.ts:45-53 | memory takes the merge of the partial, the store takes the partial's fields whose writes land, and the two stay in sync when no write fails |
| ApiSettingsHook.ApiSettingsState.ResetSettings | hooks/useApiSettings.ts:55-58 | memory returns to the defaults; a failed clear leaves the stored rows as they were, otherwise exactly the settings keys are deleted and the store reads as the defaults |
| TokenStorageHook.HasTokens | hooks/useTokenStorage.ts:59-62 | `hasTokens` holds exactly when some provider's token is non-empty |
| TokenStorageHook.ClearedHasNoTokens | hooks/useTokenStorage.ts:54-62 | the cleared tokens have none |
| TokenStorageHook.SetTokenStaysInSync | hooks/useTokenStorage.ts:49-52 | changing one kind in memory gives what saving it and reading the store back gives |
| TokenStorageHook.TokenStorage.constructor | hooks/useTokenStorage.ts:16-19 | the hook starts with empty tokens and is not ready |
| TokenStorageHook.TokenStorage.Load | hooks/useTokenStorage.ts:21-47 | once mounted, the load leaves the hook ready and showing what the store holds, or empty tokens when the store fails; after unmounting it changes nothing |
| TokenStorageHook.TokenStorage.Unmount | hooks/useTokenStorage.ts:44-46 | unmounting changes neither the tokens nor readiness |
| TokenStorageHook.TokenStorage.SetToken | hooks/useTokenStorage.ts:49-52 | the kind changes in memory, and in the store unless the write fails; memory and store stay in sync when the write succeeds |
| TokenStorageHook.TokenStorage.ClearTokens | hooks/useTokenStorage.ts:54-57 | every kind empties in memory and `hasTokens` turns false; a failed clear leaves the stored rows as they were, otherwise exactly the token keys are deleted and the store reads as empty |
| TokensPage.HasChanges | app/tokens/page.tsx:31-40 | before the hook is ready there are never changes |
| TokensPage.HasChangesIgnoresPadding | app/tokens/page.tsx:36-39 | whitespace around the inputs never counts as a change |
| TokensPage.LoadedInputsHaveNoChanges | app/tokens/page.tsx:22-40 | inputs copied from the stored tokens show no change exactly when those tokens carry no surrounding whitespace |
| TokensPage.ClearDisabled | app/tokens/page.tsx:131-135 | Clear is disabled exactly when the hook is not ready or the GitLab and GitHub tokens are both empty, so always with the empty defaults |
| TokensPage.ClearDisabledWithOnlyCloudflareToken | app/tokens/page.tsx:131-135 | a stored Cloudflare token alone counts as having tokens, yet Clear stays disabled |
| TokensPage.SaveDisabled | app/tokens/page.tsx:140-143 | Save is disabled exactly when the page reports no changes |
| TokensPage.SetBoth | app/tokens/page.tsx:54-55 | the two writes set the GitLab and GitHub tokens, leave the Cloudflare token, and keep memory and store in sync when neither fails |
| TokensPage.SaveTrimmed | app/tokens/page.tsx:54-55 | a save stores the trimmed GitLab and GitHub inputs and nothing else |
| TokensPage.TokensPage.constructor | app/tokens/page.tsx:14-20 | the page starts with empty inputs and no feedback |
| TokensPage.TokensPage.LoadInputs | app/tokens/page.tsx:22-29 | once the hook is ready the inputs show the stored tokens; before that they are left alone |
| TokensPage.TokensPage.HandleSave | app/tokens/page.tsx:53-58 | the trimmed inputs are stored, GitLab first, the Cloudflare token is kept, the page then reports no changes, and the "saved" feedback shows |
| TokensPage.TokensPage.HandleClear | app/tokens/page.tsx:60-66 | every token and both inputs are emptied, which disables Clear and leaves no changes, and the "cleared" feedback shows |
| TokensPage.TokensPage.FeedbackExpired | app/tokens/page.tsx:42-51 | when the timer fires the feedback and its kind are both gone |
| SettingsPage.UrlOrDefault | app/settings/page.tsx:82-83 | a URL input that is blank after trimming becomes the provider's default; otherwise it is stored trimmed |
| SettingsPage.SavedSettings | app/settings/page.tsx:81-84 | a save sends both base URLs, blank ones defaulted, and never the Cloudflare account id |
| SettingsPage.SavedTokens | app/settings/page.tsx:79-80 | a save stores the trimmed GitLab and GitHub tokens and keeps the Cloudflare token |
| SettingsPage.SavedUrlsAreNeverBlank | app/settings/page.tsx:81-84 | after a save neither base URL is blank, and the account id is unchanged |
| SettingsPage.HasChangesAsWritten | app/settings/page.tsx:44-65 | `hasChanges` as written, comparing a blank URL input as blank; never true before the hook is ready |
| SettingsPage.BlankUrlStaysChangedAfterSave | app/settings/page.tsx:44-65 | with a blank GitLab URL input over the stored default, the save stores the default again, nothing the loading effect watches changes, and `hasChanges` as written still holds afterwards |
| SettingsPage.HasChanges | app/settings/page.tsx:44-65 | `hasChanges` comparing each URL input as a save would store it; never true before the hook is ready |
| SettingsPage.SaveClearsChanges | app/settings/page.tsx:44-87 | after a save the corrected `hasChanges` is false |
| SettingsPage.HasChangesAgreesOnFilledUrls | app/settings/page.tsx:44-65 | the corrected and the written `hasChanges` agree whenever neither URL input is blank |
| SettingsPage.SaveInputs | app/settings/page.tsx:79-84 | the trimmed tokens and both URLs are stored; afterwards the corrected `hasChanges` is false, and the page's own `hasChanges` is false too when neither URL input is blank |
| SettingsPage.SettingsPage.constructor | app/settings/page.tsx:16-25 | the page starts with four empty inputs and no feedback |
| SettingsPage.SettingsPage.CurrentInputs | app/settings/page.tsx:18-21 | the four inputs as one value |
| SettingsPage.SettingsPage.LoadInputs | app/settings/page.tsx:27-42 | once the token hook is ready the inputs show the stored tokens and URLs; before that they are left alone |
| SettingsPage.SettingsPage.HandleSave | app/settings/page.tsx:78-87 | the trimmed tokens and the defaulted URLs are stored, the inputs stay as typed, and the "saved" feedback shows; afterwards the corrected `hasChanges` is false, and the page's own `hasChanges` is false too when neither URL input was blank |
| SettingsPage.SettingsPage.HandleClear | app/settings/page.tsx:89-95 | every token and both token inputs are emptied, the URL inputs stay, Clear turns disabled, and the "cleared" feedback shows |
| SettingsPage.SettingsPage.FeedbackExpired | app/settings/page.tsx:67-76 | when the timer fires the feedback and its kind are both gone |
| ProjectList.ReviveBranches | hooks/useGitlabProjects.ts:18-22 | one branch per stored branch, same order, name and default flag, every one idle |
| ProjectList.StoreBranches | hooks/useGitlabProjects.ts:36-39 | one stored branch per branch, same order, keeping only the name and default flag |
| ProjectList.StoreAfterRevive | hooks/useGitlabProjects.ts:18-39 | stored branches survive a revive and a store unchanged |
| ProjectList.ReviveAfterStore | hooks/useGitlabProjects.ts:18-39 | storing then reviving keeps each branch's name and default flag and resets the rest; idle, untriggered, error-free branches come back unchanged |
| ProjectList.RemoveById | hooks/useGitlabProjects.ts:87-89 | removal keeps exactly the projects with another id; removing an absent id changes nothing |
| ProjectList.RemoveByIdAppend | hooks/useGitlabProjects.ts:87-89 | removal from a concatenation removes from each part, so the survivors keep their order |
| ProjectList.UpsertById | hooks/useGitlabProjects.ts:80-85 | the upserted project comes last, after the others with their order kept, and no other entry has its id |
| ProjectList.UpsertLeavesOneEntry | hooks/useGitlabProjects.ts:80-85 | after an upsert exactly one entry carries the project's id |
| ProjectList.UpsertIdempotent | hooks/useGitlabProjects.ts:80-85 | upserting a project twice is upserting it once |
| ProjectList.StorageSlot.constructor | hooks/useGitlabProjects.ts:11 | the local-storage entry holds the given stored list, or nothing |
| GitlabProjectsHook.ReviveProject | hooks/useGitlabProjects.ts:13-25 | a project read back keeps id, name and namespace, has no web URL, idle branches, and an empty pipeline list when none was stored |
| GitlabProjectsHook.Revive | hooks/useGitlabProjects.ts:13-25 | one project per stored project, in order |
| GitlabProjectsHook.SerializeProject | hooks/useGitlabProjects.ts:32-41 | a stored project keeps id, name, namespace, each branch's name and default flag and the pipelines, but never the web URL |
| GitlabProjectsHook.Serialize | hooks/useGitlabProjects.ts:32-41 | one stored project per project, in order |
| GitlabProjectsHook.ReviveAfterSerialize | hooks/useGitlabProjects.ts:13-41 | writing then reading a list keeps ids, names, namespaces, branch names and flags and pipelines, in order, and a list of normal projects comes back unchanged |
| GitlabProjectsHook.ProjectsState.constructor | hooks/useGitlabProjects.ts:47-48 | the hook starts with no projects and is not ready |
| GitlabProjectsHook.ProjectsState.Hydrate | hooks/useGitlabProjects.ts:50-70 | without a window nothing happens; otherwise the hook becomes ready, taking the revived stored list only when there is one and it parses |
| GitlabProjectsHook.ProjectsState.Persist | hooks/useGitlabProjects.ts:72-78 | nothing is written before the hook is ready or without a window; otherwise the entry holds the serialized projects |
| GitlabProjectsHook.ProjectsState.UpsertProject | hooks/useGitlabProjects.ts:80-85 | the list becomes the upsert of the project into it |
| GitlabProjectsHook.ProjectsState.RemoveProject | hooks/useGitlabProjects.ts:87-89 | the list loses exactly the projects with that id |
| GitlabProjectsHook.ProjectsState.ClearProjects | hooks/useGitlabProjects.ts:91-93 | the list becomes empty |
| GitlabProjectsHook.PersistThenHydrate | hooks/useGitlabProjects.ts:50-78 | a hook created after a persist finds the same projects, normalised, and normal projects unchanged |
| GitlabSearchHook.PruneResults | hooks/useGitlabSearch.ts:102-104 | pruning keeps exactly the results with another id; pruning an absent id changes nothing |
| GitlabSearchHook.PruneKeepsOrder | hooks/useGitlabSearch.ts:102-104 | pruning a concatenation prunes each part, so the survivors keep their order |
| GitlabSearchHook.Search | hooks/useGitlabSearch.ts:36-81 | a blank query, then a missing token, stop the search with their alert and no request; otherwise exactly one request with the trimmed query and resolved base URL; its results replace the list, an empty one is reported, and a failure keeps the list and shows its message |
| GitlabSearchHook.SearchIgnoresPadding | hooks/useGitlabSearch.ts:39 | whitespace around the query changes neither the request, the results nor the alert |
| GitlabSearchHook.GitlabSearch.constructor | hooks/useGitlabSearch.ts:31-34 | the hook starts with an empty query and results, not searching, nothing loading |
| GitlabSearchHook.GitlabSearch.HandleSearch | hooks/useGitlabSearch.ts:38-81 | the hook's results, alert and requests are those of `Search`; the query is kept; the searching flag ends lowered when a request was issued |
| GitlabSearchHook.GitlabSearch.SettleSearch | hooks/useGitlabSearch.ts:57-80 | a settled search shows its results and alert; the searching flag is lowered once a request was made |
| GitlabSearchHook.GitlabSearch.HandleAddProject | hooks/useGitlabSearch.ts:83-112 | without a token only the alert changes; otherwise the alert is cleared and the caller's add step runs; a success leaves the alert that step set and prunes a project not yet added from the results, a failure shows its message and keeps the results; the loading marker is cleared |
| Layout.RootActiveOnlyAtRoot | components/layout/sidebar.tsx:12-15 | the root item is active exactly at the root pathname |
| Layout.IsPathActive | components/layout/sidebar.tsx:12-18 | an item is active only on pathnames that begin with its route, and always on the routes below it |
| Layout.ActiveOnOwnRoute | components/layout/sidebar.tsx:12-18 | every item is active on its own route |
| Layout.ActiveIffAtOrBelow | components/layout/sidebar.tsx:17 | outside the root, an item is active exactly on its route and on the routes below it |
| Layout.SiblingPrefixNotActive | components/layout/sider.tsx:19 | a route that only extends the item's text, without a "/" after it, does not activate the item |
| Layout.ProjectsRouteIsNotUnderProjectRoute | components/layout/sider.tsx:14-20 | "/gitlab/projects" does not activate "/gitlab/project", while "/gitlab/project/12" does |
| Layout.RenderedNavigation | components/layout/sidebar.tsx:20-38 | nothing is rendered while the pathname is empty; otherwise every item, in order, is marked active exactly when `isPathActive` holds |
| R2Actions.TrimField | app/cloudflare/r2/actions.ts:13-15 | `field?.trim()` is present exactly when the field is, and then it is the trimmed field |
| R2Actions.Validate | app/cloudflare/r2/actions.ts:13-27 | the checks pass exactly when the trimmed bucket name, account id and token are all non-empty; otherwise the first missing one, in that order, names the error; on success the credentials are the trimmed values |
| R2Actions.WhitespaceFieldIsMissing | app/cloudflare/r2/actions.ts:13-19 | a bucket name made only of whitespace is rejected as missing |
| R2Actions.DevDomainFlag | app/cloudflare/r2/actions.ts:44 | `!!enableDevDomain` holds exactly when the flag is present and true |
| R2Actions.Shape | app/cloudflare/r2/actions.ts:48-55 | the response carries the bucket's name, location and creation date, and the dev domain as the SDK returned it |
| R2Actions.Create | app/cloudflare/r2/actions.ts:29-55 | the bucket is always created first, with the checked name, account id and token; a failure or a nameless bucket stops there; otherwise the dev domain of the bucket the SDK named is switched as asked, and its outcome ends the creation |
| R2Actions.CreateCloudflareR2Bucket | app/cloudflare/r2/actions.ts:10-56 | a failed check throws its message before any SDK call; a nameless bucket throws "Unable to create R2 bucket."; an SDK failure propagates; otherwise the shaped response is returned |
| R2Actions.CallsCarryCheckedCredentials | app/cloudflare/r2/actions.ts:13-45 | every SDK call carries the trimmed, non-empty token and account id |
| R2Actions.CreateCallsCarry | app/cloudflare/r2/actions.ts:29-45 | every SDK call of a creation carries the token and account id it was given |
| R2Actions.ResultNamesUpdatedBucket | app/cloudflare/r2/actions.ts:36-55 | a returned result follows both SDK calls and names, non-empty, the bucket whose dev domain was switched, with the requested flag |
| R2Route.Post | app/api/cloudflare/r2/route.ts:14-83 | a body that cannot be read answers 500 with its message; a failed check answers 400 with its message before any SDK call; a nameless bucket answers 400; an SDK failure answers 500 with its extracted message; otherwise 200 with the shaped bucket |
| R2Route.RouteAgreesWithAction | app/api/cloudflare/r2/route.ts:14-83 | for a readable body the route makes the action's SDK calls and answers 200 exactly when the action returns, with its response; when the action throws, the route answers 400 or 500 with the thrown message |
| R2Route.SuccessNeedsBothCalls | app/api/cloudflare/r2/route.ts:49-76 | a 200 reply follows both SDK calls and names a non-empty bucket |
| DnsActions.MapRecord | app/cloudflare/dns/actions.ts:36-43 | a mapped record carries the SDK record's id, type, name, content, proxied flag and TTL |
| DnsActions.MapRecordKeepsExactlySixFields | app/cloudflare/dns/actions.ts:36-43 | mapping loses only the fields outside the six: two SDK records map alike exactly when they differ in nothing else |
| DnsActions.MapZone | app/cloudflare/dns/actions.ts:58-62 | a mapped zone carries the SDK zone's id, name and status |
| DnsActions.MapZones | app/cloudflare/dns/actions.ts:58-62 | one zone per SDK zone, in the SDK's order |
| DnsActions.MapRecords | app/cloudflare/dns/actions.ts:80 | one record per SDK record, in the SDK's order |
| DnsActions.ListCloudflareZones | app/cloudflare/dns/actions.ts:45-63 | the listing asks for 50 zones of the account by status, descending; a failure propagates, otherwise the zones are mapped |
| DnsActions.SearchFilter | app/cloudflare/dns/actions.ts:77 | a search filter is sent exactly when the trimmed search is non-empty, and then it is the trimmed search |
| DnsActions.SearchFilterIgnoresPadding | app/cloudflare/dns/actions.ts:77 | whitespace around a search never changes the filter, and the filter sent carries none |
| DnsActions.ListCloudflareRecords | app/cloudflare/dns/actions.ts:65-81 | the listing asks for 100 records of the zone by type, ascending, with the search filter; a failure propagates, otherwise the records are mapped |
| DnsActions.UpperChar | app/cloudflare/dns/actions.ts:90 | a lower-case letter a to z becomes its capital; every other character is kept |
| DnsActions.Upper | app/cloudflare/dns/actions.ts:90 | the type is upper-cased letter by letter, keeping its length |
| DnsActions.UpperIdempotent | app/cloudflare/dns/actions.ts:90 | upper-casing twice is upper-casing once, so a type typed in either case is sent alike |
| DnsActions.Payload | app/cloudflare/dns/actions.ts:92-108 | the body sends the upper-cased type, name and content as given, `proxied` only when it is true, and the automatic TTL of 1 |
| DnsActions.UpsertCall | app/cloudflare/dns/actions.ts:92-108 | the call is an update of the given id exactly when a non-empty record id is given, otherwise a create, with the same body either way |
| DnsActions.UpsertCloudflareRecord | app/cloudflare/dns/actions.ts:83-111 | the upsert makes that call; a failure propagates, otherwise the saved record is mapped |
| DnsActions.DeleteCloudflareRecord | app/cloudflare/dns/actions.ts:113-121 | the delete sends the record id and zone; it returns true exactly when the SDK call does not throw |
| DnsActions.UpsertSendsOneBody | app/cloudflare/dns/actions.ts:92-108 | an update and a create of the same record send the same body, and an empty id creates |
| DnsPage.FindZone | app/cloudflare/dns/page.tsx:96-99 | the zone found is the first one with the id, and none is found exactly when no zone has it |
| DnsPage.ExternalLinks | app/cloudflare/dns/page.tsx:101-119 | there are no links exactly when the account id is empty; otherwise the account's dashboard comes first, and the selected zone's DNS records page follows exactly when the selected id names a listed zone |
| DnsPage.LoadZonesDisabled | app/cloudflare/dns/page.tsx:91-94 | Load zones is enabled exactly when both hooks are ready and there are a token and an account id |
| DnsPage.SubmitGuard | app/cloudflare/dns/page.tsx:218-245 | a submission passes exactly when a zone is selected and the trimmed type, name and content are non-empty; otherwise the first failed check, zone, then type, then name and content, names the error |
| DnsPage.SubmittedRecord | app/cloudflare/dns/page.tsx:223-229 | the record sent carries the trimmed type, name and content, a missing field read as empty, and the switch's state |
| DnsPage.SavedText | app/cloudflare/dns/page.tsx:263-266 | the success toast says "updated" exactly when a non-empty record id is being edited, "created" otherwise |
| DnsPage.EditDefaults | app/cloudflare/dns/page.tsx:317-326 | the form is filled with the record's type, name and content, and the switch is on exactly when the record is proxied |
| DnsPage.EditedRecordSubmitsUpdate | app/cloudflare/dns/page.tsx:215-326 | a form submitted as editing filled it passes the checks and updates that record with the same fields, its type upper-cased |
| DnsPage.SubmittedPayload | app/cloudflare/dns/page.tsx:223-261 | a form that passes the checks sends the trimmed, upper-cased type, the trimmed name and content, the switch and the automatic TTL |
| DnsPage.SelectionAfterRefresh | app/cloudflare/dns/page.tsx:186-188 | after the zones are refreshed a selection is kept, and without one the first zone is selected |
| DnsPage.RecordsZoneAsWritten | app/cloudflare/dns/page.tsx:186-189 | as written, the zone whose records the refresh loads is always the first zone |
| DnsPage.RefreshListsFirstZoneUnderSelection | app/cloudflare/dns/page.tsx:186-189 | as written, with another zone than the first selected, the refresh keeps that selection but loads the first zone's records |
| DnsPage.RefreshListsFirstZoneExample | app/cloudflare/dns/page.tsx:186-189 | with zone "b" selected and zones "a" and "b" listed, "b" stays selected while "a"'s records are loaded |
| DnsPage.DnsPage.constructor | app/cloudflare/dns/page.tsx:65-89 | the page starts with nothing loaded or selected, the empty form and no toasts |
| DnsPage.DnsPage.ResetRecordForm | app/cloudflare/dns/page.tsx:204-213 | the form returns to a proxied A record with no name or content, is remounted, and nothing is being edited |
| DnsPage.DnsPage.LoadRecords | app/cloudflare/dns/page.tsx:121-156 | without a token only an optional toast; with a blank zone id nothing; otherwise the records of the trimmed zone are fetched with the search term, a success replaces the list and resets the form, a failure keeps the list and toasts its message |
| DnsPage.DnsPage.FetchRecordsOf | app/cloudflare/dns/page.tsx:136-153 | the toasts close and one fetch is made; a success replaces the list and resets the form, a failure keeps the list and toasts its message |
| DnsPage.DnsPage.HandleLoadZones | app/cloudflare/dns/page.tsx:158-202 | a missing token, then a missing account id, only toast; otherwise the zones are fetched, a failure toasts and keeps everything, and a fetched list replaces the zones, keeps or takes a selection, and loads the records of the zone left selected (corrected; the source loads the first zone's records, see ## Findings) |
| DnsPage.DnsPage.AdoptZones | app/cloudflare/dns/page.tsx:184-189 | a non-empty zone list replaces the old one, the selection is kept or becomes the first zone, and exactly that zone's records are fetched quietly |
| DnsPage.DnsPage.SaveAndRefresh | app/cloudflare/dns/page.tsx:247-276 | the record is sent with the edited record's id; a failure toasts and keeps list and form; a success reloads the selected zone's records quietly and resets the form, leaving the success toast only when no reload ran |
| DnsPage.DnsPage.RefreshAfterSave | app/cloudflare/dns/page.tsx:263-270 | after a save the success toast shows, the selected zone's records are reloaded quietly, and the form is reset |
| DnsPage.DnsPage.HandleSubmitRecord | app/cloudflare/dns/page.tsx:215-277 | a failed check only toasts its message and sends nothing; otherwise one save of the trimmed record, with the edited id, is sent first; a failed save toasts and keeps the records, the edited id and the form; a successful save resets the form and nothing is edited, the selected zone's records are reloaded quietly when there is a token and a zone, and the toasts and records are those of the success toast, the reload or its failure |
| DnsPage.DnsPage.HandleDeleteRecord | app/cloudflare/dns/page.tsx:279-308 | without a selected zone nothing is asked or done; an unconfirmed deletion does nothing; a confirmed one sends the delete, and a success removes exactly the records with that id, keeping the others in order |
| DnsPage.ConfirmText | app/cloudflare/dns/page.tsx:282-284 | the confirmation asks to delete the DNS record, names the record after a space when it has a non-empty label, and warns that this cannot be undone |
| DnsPage.DnsPage.HandleSelectZone | app/cloudflare/dns/page.tsx:310-315 | the zone is selected, the list emptied and the form reset, then its records are loaded with errors shown |
| DnsPage.DnsPage.HandleEditRecord | app/cloudflare/dns/page.tsx:317-326 | the record becomes the one being edited, fills the form, and the form is remounted |
| GitHub.ParseRepositoryInput | lib/github.ts:216-224 | accepts an input exactly when splitting it on "/" yields two segments that are non-empty after trimming; the owner and repository it returns are non-empty, trimmed and slash-free |
| GitHub.ParseRepositoryRoundTrip | lib/github.ts:216-224 | two slash-free names joined by one "/" parse back to the trimmed names, whatever whitespace surrounds them |
| GitHub.ParseRepositoryRejectsThirdSegment | lib/github.ts:216-224 | any input with a third segment is rejected, including a trailing slash |
| GitHub.RequestUrl | lib/github.ts:125-130 | a request goes to the given base URL, with one trailing slash removed, or to the public GitHub API when none is given, followed by a single "/" and then the path without its leading slash; the URL is exactly those three parts |
| GitHub.PublicKeyUrl | lib/github.ts:168-172 | the public-key request goes under the resolved API base to the repository's `actions/secrets/public-key` endpoint, with nothing else in the URL (its length is the base, one slash and that path) |
| GitHub.SecretUrl | lib/github.ts:199 | the secret is written under the resolved API base to the repository's `actions/secrets/<name>` endpoint, with nothing else in the URL (its length is the base, one slash and that path) |
| GitHub.Latin1Bytes | lib/github.ts:71-76 | decoding a binary string gives one byte per character |
| GitHub.Latin1String | lib/github.ts:86-89 | encoding bytes gives one character per byte, each code below 256 |
| GitHub.BytesRoundTrip | lib/github.ts:66-91 | any bytes survive a trip through a binary string and back |
| GitHub.BinaryRoundTrip | lib/github.ts:66-91 | a binary string whose codes are all below 256, as `atob` produces, survives a trip through bytes and back |
| GitHub.BinaryToBytes | lib/github.ts:72-78 | the array the loop fills has the string's length and holds the byte of each character code, in order |
| GitHub.BytesToBinary | lib/github.ts:86-89 | the loop's string is the byte array's characters, in order |
| GitHub.SetBytes | lib/github.ts:109-110 | `set` overwrites exactly the target bytes from the offset for the source's length; the rest of the target is unchanged |
| GitHub.Take | lib/github.ts:113 | `slice(0, n)` is a prefix of length n, or the whole sequence when it is shorter |
| GitHub.Nonce | lib/github.ts:106-113 | the nonce is a prefix of the hash of the ephemeral public key followed by the recipient key, of the full nonce length whenever the hash is long enough |
| GitHub.Seal | lib/github.ts:115-118 | the sealed box is the ephemeral public key followed by the ciphertext, with no gap and nothing else |
| GitHub.SealedBoxOpensAtKeyLength | lib/github.ts:106-118 | the recipient, knowing only the public-key length, splits the box into the sender's key and the ciphertext and rederives the nonce the sender used |
| GitHub.EncryptedValue | lib/github.ts:93-121 | a loader failure or an `atob` failure is the error thrown; otherwise the result is the base64 of the sealed box of the UTF-8 secret under the decoded key |
| GitHub.EncryptSecret | lib/github.ts:93-121 | the step-by-step encryption, with its buffers filled by `set`, yields exactly the value `EncryptedValue` describes |
| GitHub.UpsertGitHubSecret | lib/github.ts:163-207 | the public key is always fetched first; the PUT happens exactly when the key fetch and the encryption succeed, and it carries the ciphertext with that key's id; any earlier failure is the outcome and nothing is sent |
| GitLab.RequestUrl | lib/gitlab.ts:45-50 | a request goes to the given base URL, with one trailing slash removed, or to gitlab.com's API when none is given, followed by a single "/" and then the path without its leading slash; the URL is exactly those three parts |
| GitLab.ProjectPath | lib/gitlab.ts:143-145 | the project path is `/projects/` followed by exactly `encodeURIComponent(id)`, a single segment with no "/" |
| GitLab.ProjectPathInjective | lib/gitlab.ts:143-145 | distinct project ids give distinct project paths |
| GitLab.BranchesPath | lib/gitlab.ts:123-125 | the branches path is the project path followed by `/repository/branches` and nothing else |
| GitLab.PipelinesPath | lib/gitlab.ts:287-295 | the pipelines path is the project path, `/pipelines?` and the query for five pipelines, newest id first, and nothing else |
| GitLab.SearchPath | lib/gitlab.ts:187-197 | the search path is `/projects?search=`, exactly the form-encoded query (which holds no "&" or "#" that could end it), then the simple, per-page 20 and membership parameters |
| GitLab.TriggerCall | lib/gitlab.ts:163-167 | a trigger is a POST of the ref to the resolved base URL, one slash, the project path and `/pipeline`, and nothing else |
| GitLab.VariablePath | lib/gitlab.ts:78-83 | the variable path holds the URL-encoded project id and key, and neither encoding contains a "/" that could add a path segment |
| GitLab.UpsertGitLabVariable | lib/gitlab.ts:72-110 | the PUT is always sent first; a POST that creates the variable follows exactly when the PUT failed with a message containing "404", and its outcome is then the result; otherwise the PUT's outcome is |
| GitLab.IsGitLabNotFoundError | lib/gitlab.ts:264-270 | an error is a not-found error exactly when it is an Error whose message contains "404" |
| GitLab.UpsertFallsBackOnNotFound | lib/gitlab.ts:94-106 | the upsert falls back to creating exactly when the PUT's error is a not-found error |
| GitLab.NotFoundMessageCreates | lib/gitlab.ts:94-106 | any failure message containing "404", such as GitLab's "404 Variable Not Found" body, makes the upsert's outcome the POST's |
| GitLab.ResolveBaseUrl | lib/gitlab.ts:215 | the resolved base URL is never empty and carries no surrounding whitespace: it is the trimmed input when that is non-empty, otherwise the default API |
| GitLab.ResolveBaseUrlIdempotent | lib/gitlab.ts:215 | resolving an already resolved base URL changes nothing |
| GitLab.BranchStates | lib/gitlab.ts:231-235 | one branch state per branch, same order, name and default flag, every one idle |
| GitLab.Summaries | lib/gitlab.ts:244-252 | one summary per pipeline, same order, each field copied |
| GitLab.ProjectStateOf | lib/gitlab.ts:254-261 | the state carries the project's id as a decimal string, its name, namespace and web URL, its branch states and its pipeline summaries |
| GitLab.LoadGitLabProjectWithBranches | lib/gitlab.ts:209-262 | the load succeeds exactly when the project is supplied or fetched and the branches and pipelines are fetched, and then yields the state built from that project, those branches and those pipelines after making every request of `LoadCalls`; a failed project fetch ends it after one request, a failed branches fetch before the pipelines request, a failed pipelines fetch after all requests, each with that failure |
| GitLab.LoadCalls | lib/gitlab.ts:217-242 | a load makes three requests when it fetches the project and two when the project is supplied |
| GitLab.FetchedProjectLoads | lib/gitlab.ts:209-262 | when the project is fetched, the load makes exactly three GETs without a body, for the project, its branches and its pipelines in that order, each against the resolved base URL, and yields the state built from what they returned |
| GitLab.ExistingProjectSuppressesFetch | lib/gitlab.ts:217-229 | with a supplied project only the branches and pipelines are requested, both against the resolved base URL, and the state is built from the supplied project |
| R2Page.CreateGuard | app/cloudflare/r2/page.tsx:74-98 | the create handler goes ahead exactly when the trimmed bucket name, the Cloudflare token and the account id are all non-empty; otherwise it reports the first missing one, checked in the order name, token, account id, with the page's own messages |
| R2Page.RequestBody | app/cloudflare/r2/page.tsx:104-114 | the posted body carries every field: the trimmed bucket name, the account id and token as stored, and the dev-domain switch |
| R2Page.PostedBodyPassesRoute | app/cloudflare/r2/page.tsx:108-113 | a body the page lets through passes the R2 route's checks exactly when the account id and token are not whitespace only; the route then works with the name the page trimmed, and the dev-domain switch arrives unchanged |
| R2Page.CreateDisabled | app/cloudflare/r2/page.tsx:61-64 | the Create button is disabled exactly before the hook is ready or while the create handler's checks would fail |
| R2Page.CreateBucket | app/cloudflare/r2/page.tsx:73-142 | a failed check only shows its error and posts nothing. Otherwise exactly one POST carries the trimmed name, the stored account id and token, and the switch. Only an OK reply that carries a bucket keeps that bucket, clears the name input and shows the success message. A thrown error, a non-OK reply or a reply without a bucket keeps the state and shows the thrown message, "Failed to create bucket" or "Unexpected API response." respectively |
| R2Page.R2Page.constructor | app/cloudflare/r2/page.tsx:54-59 | the first render has an empty name, both switches on, nothing submitting, no bucket and no toasts |
| R2Page.R2Page.HandleCreateBucket | app/cloudflare/r2/page.tsx:73-142 | the page state settles as `CreateBucket` describes for the name and switch it held, its toast added after those already shown; the submitting flag is down once a request was made |
| R2Page.R2Page.SettleCreation | app/cloudflare/r2/page.tsx:100-141 | a settled creation shows its bucket and name and adds its toast after those already shown; the submitting flag is lowered once the request was posted |
| R2Page.R2Page.HandleCopyDevDomain | app/cloudflare/r2/page.tsx:144-170 | without a created bucket or with an empty domain, nothing is copied and no toast is added. Otherwise the domain is copied, with "https://" in front when asked, and one toast is added reporting either the copy or the clipboard's error |
| R2Page.R2Page.HandleCopyAsEnvValue | app/cloudflare/r2/page.tsx:172-200 | the copied text is the `key=bucket name` line, a newline, then the `key=domain` line, the domain prefixed with "https://" when the prefix switch is on; an absent bucket prints as "undefined". One toast is added, reporting either the copy or the clipboard's error |
| R2Page.EnvValueParsesBack | app/cloudflare/r2/page.tsx:172-186 | for keys and values that hold no newline or '=' and no surrounding whitespace, the env text the page copies parses back, through the env-file parser the sync pages use, to exactly the two entries it was built from, name first |
| R2Page.JsText | app/cloudflare/r2/page.tsx:180-186 | a present text prints as itself and an absent one as "undefined" |
| R2Page.EnvValueText | app/cloudflare/r2/page.tsx:176-186 | the copied text starts with the name key and "=", and ends with the bucket's dev domain, or with the domain key, "=", the optional prefix and "undefined" when no bucket was created |
| R2Page.TwoPlainLines | app/cloudflare/r2/page.tsx:180-186 | two such `key=value` lines joined by a newline parse to their two entries, in order |
| R2Page.ParsePlainLine | app/cloudflare/r2/page.tsx:180-181 | one such `key=value` line parses to exactly that one entry |
| R2Page.PlainLineShape | app/cloudflare/r2/page.tsx:180-181 | such a line is the key, one '=' and the value, with no surrounding whitespace and no newline |
| R2Page.PrefixedValueIsPlain | app/cloudflare/r2/page.tsx:185-186 | the optional "https://" prefix keeps a value free of newlines and trailing whitespace |
| R2Page.DefaultKeysParseBack | app/cloudflare/r2/page.tsx:26-27 | with the default keys the copied text defines `AWS_S3_BUCKET`, then `PUBLIC_FILE_URL` |
| GitLabPipelinesPage.ReviveProject | app/gitlab/pipelines/page.tsx:70-79 | a stored project comes back with its id, name and namespace, no web URL and no pipelines, and each branch idle under its stored name and default flag |
| GitLabPipelinesPage.Revive | app/gitlab/pipelines/page.tsx:68-81 | the hydrated list has one revived project per stored entry, in the stored order |
| GitLabPipelinesPage.StoreProject | app/gitlab/pipelines/page.tsx:98-106 | the persisted form of a project keeps its id, name and namespace and each branch's name and default flag, and drops every status, time and error |
| GitLabPipelinesPage.Store | app/gitlab/pipelines/page.tsx:98-108 | the persisted list has one entry per project, in order |
| GitLabPipelinesPage.ReviveAfterStore | app/gitlab/pipelines/page.tsx:68-108 | reloading what the page persisted gives back every project's id, name, namespace and branch names and default flags, in order, with idle branches. A list built only of projects the page itself loaded comes back unchanged |
| GitLabPipelinesPage.LoadedProject | app/gitlab/pipelines/page.tsx:136-153 | a loaded project is keyed by its numeric id as text and carries its name and full namespace; it has one idle branch per fetched branch, with that branch's name and default flag |
| GitLabPipelinesPage.ProcessProjectLoad | app/gitlab/pipelines/page.tsx:111-159 | without a GitLab token it fails with the loader's message and makes no request. Otherwise it fetches the project unless one was supplied, then the branches, all against the resolved base URL. The first failure ends the load with that failure's message |
| GitLabPipelinesPage.AddGuard | app/gitlab/pipelines/page.tsx:162-175 | adding may go ahead exactly when the trimmed project id and the token are both non-empty; a blank id is reported before a missing token |
| GitLabPipelinesPage.AddProject | app/gitlab/pipelines/page.tsx:161-189 | a failed check only alerts and makes no request. Otherwise the trimmed id is loaded. On success the loaded project replaces any entry with its id, the input is cleared and the branch count is announced; on failure the list and the input are kept and the error is shown |
| GitLabPipelinesPage.AddProjectIgnoresPadding | app/gitlab/pipelines/page.tsx:162 | an id typed with surrounding whitespace issues the same requests as the bare id |
| GitLabPipelinesPage.UpdateBranch | app/gitlab/pipelines/page.tsx:210-225 | only the branches with the given name, inside the projects with the given id, are changed; every other project and branch, and the list's length and order, are kept |
| GitLabPipelinesPage.UpdateBranchTwice | app/gitlab/pipelines/page.tsx:210-282 | two successive branch updates of the same branch equal one update by their composition, provided the first keeps the branch's name |
| GitLabPipelinesPage.MarkTriggering | app/gitlab/pipelines/page.tsx:218-221 | a branch being triggered shows "triggering" with no error, its name, default flag and last trigger time kept |
| GitLabPipelinesPage.MarkSucceeded | app/gitlab/pipelines/page.tsx:242-250 | a succeeded branch shows "success" and the trigger time, everything else kept |
| GitLabPipelinesPage.MarkErrored | app/gitlab/pipelines/page.tsx:270-278 | a failed branch shows "error" with the message, everything else kept |
| GitLabPipelinesPage.AfterSuccess | app/gitlab/pipelines/page.tsx:210-247 | a successful trigger leaves the branch succeeded, with the trigger time and no error, its name and default flag kept |
| GitLabPipelinesPage.AfterFailure | app/gitlab/pipelines/page.tsx:210-276 | a failed trigger leaves the branch errored with the message, its name, default flag and previous trigger time kept |
| GitLabPipelinesPage.TriggerEndStates | app/gitlab/pipelines/page.tsx:220-277 | marking a branch triggering and then succeeded leaves it succeeded with the trigger time and no error; marking it failed leaves it errored with the message and its previous trigger time |
| GitLabPipelinesPage.ProjectSearch | app/gitlab/pipelines/page.tsx:288-333 | a blank query, then a missing token, stops the search with its own alert and no request. Otherwise one search for the trimmed query replaces the results: an empty result is reported as "No projects matched", a non-empty one clears the alert, and a failure keeps the old results and shows its message |
| GitLabPipelinesPage.LoadedMessage | app/gitlab/pipelines/page.tsx:157 | the load alert is "Loaded ", exactly the branch count in digits, " branches for ", the project's name and "." |
| GitLabPipelinesPage.RemovedMessage | app/gitlab/pipelines/page.tsx:195 | the removal alert names the project, or its id when the name is empty |
| GitLabPipelinesPage.TriggeredMessage | app/gitlab/pipelines/page.tsx:258 | the trigger alert names the branch |
| GitLabPipelinesPage.NoMatchMessage | app/gitlab/pipelines/page.tsx:324 | the empty-search alert quotes the query |
| GitLabPipelinesPage.SelectProject | app/gitlab/pipelines/page.tsx:335-357 | without a token only the alert changes. Otherwise only the branches are fetched, the chosen project being reused. On success that project replaces any entry with its id and leaves the search results, and the branch count is announced; a failure changes nothing but the alert |
| GitLabPipelinesPage.PipelinesPage.constructor | app/gitlab/pipelines/page.tsx:45-53 | the first render uses the public GitLab API and has no projects, no search results, no alert and is not yet hydrated |
| GitLabPipelinesPage.PipelinesPage.Hydrate | app/gitlab/pipelines/page.tsx:55-91 | without a window nothing happens. Otherwise the page becomes hydrated whether the entry was missing, parsed or failed to parse. It takes the revived list only when the entry parsed, and reports a parse failure without touching the list |
| GitLabPipelinesPage.PipelinesPage.Persist | app/gitlab/pipelines/page.tsx:93-109 | nothing is written before hydration or without a window; afterwards the slot holds exactly the stored form of the current list |
| GitLabPipelinesPage.PipelinesPage.ApplyLoad | app/gitlab/pipelines/page.tsx:142-158 | the loaded project replaces any entry with its id, and the alert announces its branch count |
| GitLabPipelinesPage.PipelinesPage.HandleAddProject | app/gitlab/pipelines/page.tsx:161-189 | the page settles as `AddProject` describes for the input, list and base URL it held; the adding flag is down once requests were made |
| GitLabPipelinesPage.PipelinesPage.SettleAddition | app/gitlab/pipelines/page.tsx:177-188 | a settled addition shows its list, input and alert; the adding flag is lowered once a request was made |
| GitLabPipelinesPage.PipelinesPage.HandleRemoveProject | app/gitlab/pipelines/page.tsx:191-197 | every entry with that id leaves the list, the others keep their order, and the alert names the project, or its id when the name is empty |
| GitLabPipelinesPage.PipelinesPage.HandleTrigger | app/gitlab/pipelines/page.tsx:199-286 | without a token only the alert changes. Otherwise one trigger request goes to the resolved base URL for that branch. On success only that branch ends succeeded with the trigger time; on failure it ends errored with the message; the alert says which |
| GitLabPipelinesPage.PipelinesPage.HandleSearchProjects | app/gitlab/pipelines/page.tsx:288-333 | the page settles as `ProjectSearch` describes; the searching flag is down once a request was made |
| GitLabPipelinesPage.PipelinesPage.SettleSearch | app/gitlab/pipelines/page.tsx:288-333 | a settled search shows its results and alert; the searching flag is lowered once a request was made |
| GitLabPipelinesPage.PipelinesPage.HandleSelectProject | app/gitlab/pipelines/page.tsx:335-357 | the page settles as `SelectProject` describes; the loading marker is cleared whenever a request was made and untouched otherwise |
| GitHubSecretsPage.ResolveBaseUrl | app/github/secrets/page.tsx:75 | the URL the sync uses is never empty and carries no surrounding whitespace: it is the trimmed input, or the public GitHub API when the input is blank |
| GitHubSecretsPage.GuardError | app/github/secrets/page.tsx:46-70 | the sync goes ahead exactly when the trimmed repository parses as owner/repo, a GitHub token is stored and at least one entry was parsed; otherwise the first failing check, in that order, gives its message |
| GitHubSecretsPage.CanSync | app/github/secrets/page.tsx:119-122 | whenever the sync handler would get past its checks, the Sync button's condition holds |
| GitHubSecretsPage.CanSyncAdmitsMalformedRepository | app/github/secrets/page.tsx:119-122 | the converse fails: the button only asks for a non-blank repository, so a name without a "/" enables it and the handler then refuses it with the owner/repo message |
| GitHubSecretsPage.SecretInputs | app/github/secrets/page.tsx:88-95 | one secret upsert per sent entry, in order, each into the parsed owner and repo under the entry's key and value, with the stored token and the resolved base URL |
| GitHubSecretsPage.Sync | app/github/secrets/page.tsx:45-117 | a failed check only alerts and makes no request. Otherwise the non-skipped entries are upserted in order, each key's status ends skipped, success or error, and the alert is either the last per-key failure or "Secrets synced successfully." |
| GitHubSecretsPage.SecretsPage.constructor | app/github/secrets/page.tsx:25-32 | the first render has empty inputs and therefore no entries, skipping on, the public GitHub API, no statuses and no alert |
| GitHubSecretsPage.SecretsPage.SetEnvText | app/github/secrets/page.tsx:32 | editing the text re-parses it, so the memoised entries always match the text |
| GitHubSecretsPage.SecretsPage.RefreshStatuses | app/github/secrets/page.tsx:34-43 | the status table restarts from nothing, with each parsed key marked skipped when its value is empty and skipping is on, and pending otherwise |
| GitHubSecretsPage.SecretsPage.HandleSync | app/github/secrets/page.tsx:45-117 | the page settles as `Sync` describes on the inputs it held. A refused sync leaves the statuses and the syncing flag alone; a started one ends with the flag down |
| GitHubSecretsPage.SecretsPage.SettleSync | app/github/secrets/page.tsx:72-116 | a settled sync shows its statuses and alert; the syncing flag is lowered once the sync ran |
| GitLabVariablesPage.GuardError | app/gitlab/variables/page.tsx:41-60 | the sync goes ahead exactly when the trimmed project id is non-empty, a GitLab token is stored and at least one entry was parsed; otherwise the first failing check, in that order, gives its message |
| GitLabVariablesPage.CanSync | app/gitlab/variables/page.tsx:106-109 | the Sync button's condition holds exactly when the handler would get past its checks |
| GitLabVariablesPage.UpsertInputs | app/gitlab/variables/page.tsx:77-83 | one variable upsert per sent entry, in order, each with the trimmed project id, the stored token, the entry's key and value, and the resolved base URL |
| GitLabVariablesPage.Sync | app/gitlab/variables/page.tsx:40-104 | a failed check only alerts and makes no request. Otherwise the non-skipped entries are upserted in order, each key's status ends skipped, success or error, and the alert is either the last per-key failure or "Variables synced successfully." |
| GitLabVariablesPage.VariablesPage.constructor | app/gitlab/variables/page.tsx:20-27 | the first render has empty inputs and therefore no entries, skipping on, the public GitLab API, no statuses and no alert |
| GitLabVariablesPage.VariablesPage.SetEnvText | app/gitlab/variables/page.tsx:27 | editing the text re-parses it, so the memoised entries always match the text |
| GitLabVariablesPage.VariablesPage.RefreshStatuses | app/gitlab/variables/page.tsx:29-38 | the status table restarts from nothing, with each parsed key marked skipped when its value is empty and skipping is on, and pending otherwise |
| GitLabVariablesPage.VariablesPage.HandleSync | app/gitlab/variables/page.tsx:40-104 | the page settles as `Sync` describes on the inputs it held. A refused sync leaves the statuses and the syncing flag alone; a started one ends with the flag down |
| GitLabVariablesPage.VariablesPage.SettleSync | app/gitlab/variables/page.tsx:62-103 | a settled sync shows its statuses and alert; the syncing flag is lowered once the sync ran |
| EnvSync.AssignAllKeys | app/gitlab/variables/page.tsx:32-35 | writing a status per entry keys the table by exactly the earlier keys plus the entries' keys |
| EnvSync.AssignAllLastWins | app/gitlab/variables/page.tsx:69-94 | a key's status in the table is the one written for its last entry |
| EnvSync.AssignAllUntouched | app/gitlab/variables/page.tsx:69-94 | a key none of the entries names keeps its earlier status |
| EnvSync.AssignAll | app/gitlab/variables/page.tsx:69-94 | writing statuses for entries never drops a key already in the table |
| EnvSync.InitialStatuses | app/gitlab/variables/page.tsx:29-38 | the loop over the entries builds, from an empty table, the table that gives each key its initial status, the last entry for a key winning |
| EnvSync.InitialStatus | app/gitlab/variables/page.tsx:29-38 | before a sync an entry is "skipped" exactly when it is skipped, and "pending" otherwise |
| EnvSync.InitialStatusOfKey | app/github/secrets/page.tsx:34-43 | before a sync a key is "skipped" exactly when skipping is on and its last value is empty, and "pending" otherwise |
| EnvSync.SentExactlyUnskipped | app/gitlab/variables/page.tsx:69-83 | the entries a sync sends are exactly the parsed entries that are not skipped |
| EnvSync.Sent | app/gitlab/variables/page.tsx:69-83 | a sync sends at most the parsed entries, and all of them when skipping is off |
| EnvSync.SentAllUnlessSkipping | app/gitlab/variables/page.tsx:69-83 | with skipping off, the entries sent are the parsed entries, in order |
| EnvSync.LastFailureIffErrors | app/gitlab/variables/page.tsx:85-101 | a failure alert is left exactly when some sent entry's request failed |
| EnvSync.LastFailureIsSomeFailure | app/gitlab/variables/page.tsx:85-93 | a failure alert is an error whose text is "Failed for KEY: message" for some sent entry whose request failed |
| EnvSync.LastFailure | app/gitlab/variables/page.tsx:85-93 | a failure left by a sync is always shown as an error |
| EnvSync.FinalStatusOfKey | app/github/secrets/page.tsx:79-107 | after a sync no key is left pending or in progress: each is skipped exactly when its last entry is skipped, and otherwise shows success or error as that entry's request ended |
| EnvSync.FinalStatus | app/github/secrets/page.tsx:79-107 | after a sync an entry is never pending or in progress; it is "skipped" exactly when it is skipped, and a sent entry is "success" exactly when its request resolved |
| EnvSync.SyncEntry | app/gitlab/variables/page.tsx:69-93 | one entry: the status table changes only at its key, to "skipped", "success" or "error" as `FinalStatus` gives; it is sent exactly when not skipped; a failed request leaves "Failed for KEY: message" |
| EnvSync.SyncStep | app/gitlab/variables/page.tsx:69-94 | handling one more entry changes only that entry's key in the status table, appends the entry to what was sent unless it is skipped, and makes its failure the latest one |
| EnvSync.SyncEntries | app/gitlab/variables/page.tsx:67-101 | the loop over the entries ends with the status table, the sent entries in order, the error flag and the last failure that the whole-input definitions give |
| EnvSync.SyncAlertReportsFailures | app/github/secrets/page.tsx:96-114 | a sync ends with the success message exactly when no request failed, and otherwise with an error naming the key and message of a failed request |
| EnvSync.SyncAlert | app/github/secrets/page.tsx:96-114 | the sync alert is an error exactly when some failure was left, and otherwise carries the success text |

## Left out

- Asynchronous interleaving is not modelled. This covers React's lifecycle, the `isMounted` race in the token hook beyond its mounted flag, fire-and-forget `void persist()` calls, and concurrent writes to one key. Each handler runs as one sequential step.
- Transient loading flags are modelled only by their settled values: `isAdding`, `isSearching`, `isSyncing`, `loadingProjectId`, `isSubmitting`, `isLoadingZones`, `isSavingRecord` and `deletingRecordId`. The same holds for a key's "in-progress" status during a sync.
- `fetch`, JSON parsing of responses and request bodies, and the Cloudflare SDK are left out. Each call is an input that either returns a value or throws.
- The NaCl primitives (`box.keyPair`, `box.before`, `box.after`, `hash`) are given as functions. Loading the library from the CDN is left out. `atob`, `btoa` and `TextEncoder` are not part of this model: only the byte/binary-string loops around them are.
- GitHub.EncryptSecret: the recipient public key's length is never checked. This follows the code; a wrong-sized key is passed on to the primitives unchanged.
- Dexie is modelled as keyed maps in which `put` overwrites and `delete` is idempotent, and a rejected transaction changes nothing. The order of `toArray` is not modelled: `ProjectService.GetProjects` promises every stored project exactly once, in no particular order. `localStorage` JSON stringify/parse is a slot holding the stored list, and a parse failure is a boolean input.
- A `typeof window === "undefined"` check, and a rejected store call the service swallows, are boolean inputs (`hasWindow`, `storeFails`, `writeFails`, `failing`). Console logging is left out.
- The pipelines page and the projects hook persist under the same `localStorage` key. The model gives each its own slot, so it does not capture one of them overwriting what the other wrote. Both are also kept apart from the IndexedDB project service.
- Dates and locale are left out: `new Date().toLocaleString()` for a trigger time is the input `at`, and the R2 page's `formatDate` is left out. `window.confirm`, the clipboard and the feedback/toast timers are inputs or explicit events.
- Rendering is left out: JSX, the purely presentational components, the alert and toast hooks (modelled as the page's `alert` field or its `toasts` sequence, since the toasts stack until closed), the R2 page's external-link list and `config/site.ts`.
- The DNS types file is not part of this model. Its records are modelled with the fields the actions and the page use.
- Strings.Trim: its own contract states only that the result has no whitespace at either end and is no longer than the input. Which infix is left is the lemma `Strings.TrimIsInfix`, kept out of the function's contract because every caller of `Trim` would then carry those quantified facts.
- SettingsPage.SettingsPage.HandleSave: with a blank URL input, the page as written still reports changes after a save (see ## Findings and `SettingsPage.BlankUrlStaysChangedAfterSave`). The method promises "no changes" only for the corrected `HasChanges`, and for the written comparison only when both URL inputs are filled.
- Http.EncodeUriComponent: `encodeURIComponent` throws a URIError on a lone surrogate. A Dafny `char` is a Unicode scalar value and cannot be one, so that error is not modelled.
- Http.PercentDecode is the reading that states the encoders' round trips. On malformed input it keeps the text as it stands, where `decodeURIComponent` would throw; the dashboard never decodes, so that error path is not modelled.
- DnsActions.Upper upper-cases only the ASCII letters a–z. JavaScript's `toUpperCase` also maps other Unicode letters.
- DnsPage.DnsPage.HandleLoadZones: the record load it starts without awaiting is modelled as running to completion right after the zones load.
- R2Page.CreateGuard checks the token and the account id untrimmed and sends them untrimmed, as the code does. The API route trims them, and `R2Page.PostedBodyPassesRoute` states what the route then accepts.
- GitLabPipelinesPage.ProcessProjectLoad: its "Save it on the Settings page" token message cannot be reached from the page. Both callers check the token first and report the Tokens-page message instead.
- Plain input bindings (`onValueChange={setX}`) have no methods of their own. The model's fields stand for the inputs' current values, and only the pages' env-text fields, which also re-parse, get a setter.

## Findings

| source | as written | input that shows it | evidently intended | confidence | as-written member | corrected member |
|---|---|---|---|---|---|---|
| app/settings/page.tsx:44-65 | `hasChanges` compares each trimmed URL input with the stored URL, but `handleSave` (lines 81-84) stores the provider's public API in place of a blank URL input | stored GitLab URL `https://gitlab.com/api/v4`, GitLab URL input cleared to "": after Save the stored URL is unchanged, so the inputs are not reloaded, and the page still reports changes with Save enabled | compare each URL input as a save would store it, so that a save always leaves the page without changes | not executed | SettingsPage.BlankUrlStaysChangedAfterSave | SettingsPage.SaveClearsChanges |
| app/cloudflare/dns/page.tsx:186-189 | `handleLoadZones` keeps an existing zone selection but always loads the records of the first fetched zone | zone "b" selected, zones [a, b] fetched: zone "b" stays selected while zone "a"'s records are listed | load the records of the zone that is selected after the refresh | not executed | DnsPage.RefreshListsFirstZoneUnderSelection | DnsPage.DnsPage.HandleLoadZones |
