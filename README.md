# RSS Content Planner: a verified model of its core

This project models the core of the WordPress plugin RSS Content Planner in Dafny. The plugin polls RSS and Atom feeds and stores each new item as a private `rss_item` post. It then runs the first matching automation rule on the item, which can dispatch it to an n8n webhook. The webhook later posts the rewritten content back as a draft.

The model covers five classes:

- `RCP_Feed_Manager`: adding and validating feeds, the due-feed batch, and the conditional GET with error counting and auto-disable. It also covers RSS and Atom parsing, duplicate detection, and first-match rule dispatch.
- `RCP_Rules_Engine`: the dry-run evaluator that matches a rule against sample content, and `save_rule`.
- `RCP_Webhook_Manager`: creating webhooks, dispatching an item and recording the execution, the callback, the returned draft, token checks and deletion.
- `RCP_Settings`: the settings option, sanitising, the API-key obfuscation, and export and import.
- `RCP_Database`: table names, the version-gated schema install, template seeding, dropping the tables, and the client address.

## Modules

| file | module | form |
|---|---|---|
| Base.dfy | `Base` | `Option`, `Result` and `Time` (seconds). |
| Php.dfy | `Php` | The PHP string built-ins the core relies on, as functions with lemmas: `strtolower`, `empty`, `strpos`, `substr`, `explode`/`implode`, `trim`, `strip_tags`, `intval` and integer printing. |
| Platform.dfy | `Platform` | XML trees as SimpleXML exposes them, and HTTP requests and responses. Every foreign call is a function value in `Env`. |
| Content.dfy | `Content` | WordPress posts and post meta: the class `ContentStore`, shared by the feed and webhook managers. |
| Database.dfy | `Database` | The class `Database` (tables, templates, version option), and `get_client_ip` as two loops. |
| Settings.dfy | `Settings` | The pure settings algebra, plus the class `SettingsStore` over the `rcp_settings` option. |
| Rules.dfy | `Rules` | The condition evaluators as functions. `test_rule_against_content` has its two loops. The class `RulesEngine` holds the rules table. |
| Webhooks.dfy | `Webhooks` | The class `WebhookManager`, with the webhooks table, the executions table and the id serial. |
| FeedParser.dfy | `FeedParser` | The pure part of the feed manager: validation, type and title detection, and RSS and Atom item parsing. |
| FeedManager.dfy | `FeedManager` | The class `FeedManager`, with the feeds table and its methods. It also holds the specification functions the methods are proved against: `FetchedRow`, `IngestSeen`, `FirstMatch`, `ActionsApplied` and `Batch`. |

The tables the source updates in place are class fields: posts, feeds, rules, webhooks, executions, settings and templates. The methods that change them name them in `modifies` and state the new state. The posts a fetch stores are given as a fold over the fetched items (`FeedManager.Ingested`, `FeedManager.BatchPosts`). The properties the plugin relies on are lemmas over the specification functions, for example:

- re-fetching inserts nothing, as long as `esc_url` and `sanitize_text_field` leave each item's link and GUID as they are;
- five failures disable a feed;
- only the first matching rule runs;
- the export never holds the API key.

Two behaviours of the code shape the model. First, `parse_feed_content` on a document that is neither RSS nor Atom returns an empty item list, not an error (includes/class-rcp-feed-manager.php:322-337). `fetch_feed` therefore treats such a fetch as a success and resets the error count (`FeedParser.FeedItemsMeaning`, `FeedManager.FetchSuccessResets`).

Second, the live evaluator in `evaluate_rule` knows the condition types `title_contains`, `content_contains` and `source_domain`. The dry run in `test_rule_against_content` knows `title_condition`, `content_condition` and others. The two sets do not overlap, so a rule built for the dry run never filters anything live (`FeedManager.LiveAndDryRunDisagree`).

The settings store knows whether `admin_init` has fired in the request (`SettingsStore.registered`). If it has, `register_settings` has made `sanitize_settings` the option's sanitize callback, and every `update_option` stores the sanitised value; a new option is sanitised twice, because `update_option` hands it to `add_option`, which sanitises again. So in admin requests `reset()` keeps the stored API key and every `set` of another key encrypts the stored key once more (`Settings.RegisteredResetKeepsKey`, `Settings.RegisteredSetReencryptsKey`).

## Model

| member | source | states |
|---|---|---|
| Php.Lower | includes/class-rcp-rules-engine.php:204-205 | `strtolower` keeps the length of the string. |
| Php.LowerIdempotent | includes/class-rcp-rules-engine.php:231-232 | Lower-casing an already lower-cased string changes nothing. |
| Php.FindFromCorrect | includes/class-rcp-rules-engine.php:209-211 | The scan from a start index finds the first occurrence at or after it. It finds nothing only when no occurrence starts there or later. |
| Php.StrPosCorrect | includes/class-rcp-rules-engine.php:209-217 | `strpos` returns the first index where the needle occurs. It returns `false` exactly when the needle is not a substring. |
| Php.ContainsIsSubstring | includes/class-rcp-rules-engine.php:209-211 | `strpos(...) !== false` holds exactly when the needle is a substring. |
| Php.StartsAtZeroIsPrefix | includes/class-rcp-rules-engine.php:216-217 | `strpos(...) === 0` holds exactly when the needle is a prefix. |
| Php.EndsWithPhpMeaning | includes/class-rcp-rules-engine.php:218-219 | `substr($t, -strlen($v)) === $v` is "is a suffix" for a non-empty value. For an empty value it holds only for empty text, because `-0` takes the whole string. |
| Php.Split | includes/class-rcp-settings.php:194 | `explode` always yields at least one part. |
| Php.SplitJoin | includes/class-rcp-settings.php:194 | Joining the parts of `explode` with the delimiter gives back the string. |
| Php.SplitPartsClean | includes/class-rcp-settings.php:194-197 | No part of `explode` contains the delimiter. |
| Php.SplitNoDelimiter | includes/class-rcp-database.php:401 | A string without the delimiter explodes into itself. |
| Php.SplitAtFirst | includes/class-rcp-settings.php:182-197 | `a|b` with no `|` in `a` explodes into `a` followed by the parts of `b`. |
| Php.TrimEnds | includes/class-rcp-database.php:402 | The trimmed string neither starts nor ends with a character `trim` removes. |
| Php.StripTagsFrom | includes/class-rcp-rules-engine.php:188 | The tag-stripped text is no longer than the input and never holds a NUL byte, whatever state the scan starts in. |
| Php.StripTagsPlainText | includes/class-rcp-rules-engine.php:188 | Text in which every `<` is followed by whitespace opens no tag, so `strip_tags` only removes its NUL bytes (`1 < 2` stays as it is). |
| Php.StripTagBody | includes/class-rcp-rules-engine.php:188 | Inside a tag, an unquoted body is skipped up to its `>`, and the text after it is stripped afresh. |
| Php.StripTextPrefix | includes/class-rcp-rules-engine.php:188 | Text with no `<` and no NUL in front of anything passes through unchanged. |
| Php.StripTagsDropsTag | includes/class-rcp-rules-engine.php:188 | A tag `<t>` whose body starts with a non-space and holds no quote or angle bracket is removed; the text before it is kept and the text after it is stripped. |
| Php.NatToString | includes/class-rcp-feed-manager.php:264 | A printed integer is a non-empty string of decimal digits. |
| Php.IntValNatToString | includes/class-rcp-rules-engine.php:189 | `intval` of a printed natural number gives back the number. |
| Php.NatToStringInjective | includes/class-rcp-webhook-manager.php:117 | Different numbers print differently, so generated execution ids differ. |
| Content.MetaValuesInsert | includes/class-rcp-feed-manager.php:451 | Inserting a post under a fresh id adds exactly that post's value to the values stored under a meta key. |
| Content.MetaValuesOtherKey | includes/class-rcp-feed-manager.php:610-616 | `update_post_meta` on one key leaves the stored values of every other key unchanged. |
| Content.ContentStore.Insert | includes/class-rcp-feed-manager.php:451 | `wp_insert_post` stores the post under a new positive id that was not in use. Nothing else changes. |
| Content.ContentStore.UpdateMeta | includes/class-rcp-feed-manager.php:610-616 | `update_post_meta` sets one key of an existing post. For an unknown post it changes nothing. |
| Content.ContentStore.HasMetaValueIsMember | includes/class-rcp-feed-manager.php:480-483 | The post-meta lookup finds a row exactly when some post stores the value under the key. |
| Database.TableNameInjective | includes/class-rcp-database.php:366-369 | Under one prefix, different tables get different names. |
| Database.Database.CheckDbVersion | includes/class-rcp-database.php:36-43 | An older installed version gets the schema, the seeded templates and `1.0.0`. A current one is left alone. Afterwards the version is never older, so a second call changes nothing. |
| Database.Database.CreateTables | includes/class-rcp-database.php:48-216 | All six plugin tables exist afterwards, and the templates are seeded when none exist. |
| Database.Database.InsertDefaultTemplates | includes/class-rcp-database.php:221-339 | The three default templates are inserted only when the templates table is empty. |
| Database.Database.DropTables | includes/class-rcp-database.php:344-361 | The six plugin tables and their rows are gone, other tables remain, and the version option is deleted. |
| Database.FirstValidIsFirst | includes/class-rcp-database.php:397-407 | The chosen candidate is valid and every earlier candidate is not. There is none exactly when no candidate is valid. |
| Database.FirstValidAppend | includes/class-rcp-database.php:397-407 | Searching a header, then the later headers, finds the first valid address of the concatenated candidate list. |
| Database.FindValidPart | includes/class-rcp-database.php:400-405 | The inner loop returns the first valid trimmed part of one header. |
| Database.FindValidAddress | includes/class-rcp-database.php:397-407 | The outer loop returns the first valid candidate over the headers, in their order. |
| Database.GetClientIp | includes/class-rcp-database.php:395-410 | `get_client_ip` returns the first valid header address. Otherwise it returns `REMOTE_ADDR` as it stands, otherwise `0.0.0.0`. |
| Database.ClientIpChoice | includes/class-rcp-database.php:395-410 | The reported address is a valid header address whenever one exists. Otherwise it is exactly the fallback. |
| Database.ClientIpHeaderFirst | includes/class-rcp-database.php:396-406 | A valid `HTTP_CLIENT_IP` address wins over anything the later headers offer. |
| Settings.Merge | includes/class-rcp-settings.php:111 | `array_merge` has the keys of both maps, and the later map wins on shared keys. |
| Settings.GetAfterSet | includes/class-rcp-settings.php:79-97 | Where no sanitize callback is registered, `get(k)` after `set(k, v)` with a non-null `v` returns `v` whatever the default. |
| Settings.SetChangesOnlyKey | includes/class-rcp-settings.php:92-97 | Where no sanitize callback is registered, `set(k, v)` changes neither `get` nor `get_all` for any other key. |
| Settings.AllOfCoversDefaults | includes/class-rcp-settings.php:102-104 | `get_all()` has every built-in key: the stored value where there is one, else the default. |
| Settings.ResetRestoresDefaults | includes/class-rcp-settings.php:119-121 | Where no sanitize callback is registered, `get_all()` after `reset()` is the defaults and every key reads its default. |
| Settings.UpdateMerges | includes/class-rcp-settings.php:109-114 | Where no sanitize callback is registered, each key of `$s` reads its new value after `update($s)`, and every other key reads what `get_all()` gave before. |
| Settings.DecryptEncrypt | includes/class-rcp-settings.php:176-201 | Round trip: a non-empty key without `|`, under a salt without `|`, decrypts to itself. |
| Settings.EmptyKeyStaysEmpty | includes/class-rcp-settings.php:177-191 | Empty input gives empty output, both when encrypting and when decrypting. |
| Settings.DecryptNeedsSalt | includes/class-rcp-settings.php:188-201 | A non-empty decryption means the text decoded to exactly the key, `|` and the salt, and the key has no `|`. |
| Settings.ClampStrictAllowed | includes/class-rcp-settings.php:130-131 | The corrected clamp always yields an allowed word, and keeps a value exactly when it is an allowed word. |
| Settings.ClampLooseAdmitsTrue | includes/class-rcp-settings.php:130-131 | With loose `in_array`, boolean `true` passes the clamp for both the processing mode and the log level. |
| Settings.FillSpec | includes/class-rcp-settings.php:138-150 | After a field loop, every listed field holds its coerced input and every other key is unchanged. |
| Settings.FillFields | includes/class-rcp-settings.php:138-150 | The `foreach` over a field list computes `Fill`. |
| Settings.LoopedKeys | includes/class-rcp-settings.php:127-150 | Before the text fields, the result has exactly the mode, the boolean fields and the integer fields. |
| Settings.LoopedField | includes/class-rcp-settings.php:129-150 | Each key written before the text fields holds its clamped or coerced input. |
| Settings.FieldListsDisjoint | includes/class-rcp-settings.php:134-161 | The boolean fields, the integer fields, the mode and the later keys are pairwise distinct, so no write overwrites another. |
| Settings.DefaultKeysPartition | includes/class-rcp-settings.php:31-55 | The defaults' keys are exactly the mode, the two field lists and the later keys. |
| Settings.IntDefaults | includes/class-rcp-settings.php:31-55 | Every integer field has an integer default. |
| Settings.SanitizedKeysAreDefaults | includes/class-rcp-settings.php:126-171 | The sanitised map has exactly the keys of the defaults. |
| Settings.SanitizedMode | includes/class-rcp-settings.php:130-131 | The stored processing mode is always `n8n` or `direct_api`. |
| Settings.SanitizedLogLevel | includes/class-rcp-settings.php:158-159 | The stored log level is always `debug`, `info`, `warning` or `error`. |
| Settings.SanitizedBool | includes/class-rcp-settings.php:138-140 | A boolean field holds `!empty` of what was submitted. |
| Settings.SanitizedInt | includes/class-rcp-settings.php:148-150 | An integer field holds an integer, and its default when nothing was submitted. |
| Settings.SanitizedApiKey | includes/class-rcp-settings.php:163-168 | An empty submitted key keeps the stored one. A non-empty one is stored encrypted. |
| Settings.ExportHidesKey | includes/class-rcp-settings.php:399-410 | The export never holds the API key, and holds every other setting `get_all()` reports. |
| Settings.ImportOfExportKeepsKey | includes/class-rcp-settings.php:399-428 | Importing an export keeps the stored API key. |
| Settings.WrittenSanitized | includes/class-rcp-settings.php:60-74 | `update_option` stores the value as given where no callback is registered. Where `admin_init` registered `sanitize_settings`, the stored map has exactly the default keys and an allowed mode and log level. |
| Settings.RegisteredBool | includes/class-rcp-settings.php:138-140 | Through the callback, a boolean field is stored as `!empty` of the written value, also when a new option is sanitised twice. |
| Settings.RegisteredInt | includes/class-rcp-settings.php:148-150 | Through the callback, a written integer field is stored as its `intval`, also when sanitised twice. |
| Settings.RegisteredLogLevel | includes/class-rcp-settings.php:158-159 | Through the callback, a log level that is not one of the four words is stored as `info`. |
| Settings.RegisteredLogLevelKept | includes/class-rcp-settings.php:158-159 | Through the callback, one of the four log levels is stored as written. |
| Settings.RegisteredModeKept | includes/class-rcp-settings.php:130-131 | Through the callback, `n8n` or `direct_api` is stored as written. |
| Settings.GetOfStored | includes/class-rcp-settings.php:79-87 | `get` reads a stored non-null value whatever the default. |
| Settings.RegisteredSetCoerces | includes/class-rcp-settings.php:92-171 | In an admin request, `get(k)` after `set(k, v)` reads `!empty(v)` for a boolean field, `intval(v)` for an integer field, and `info` for an unknown log level. |
| Settings.RegisteredSetReencryptsKey | includes/class-rcp-settings.php:92-168 | In an admin request, `set` of any other key encrypts the stored, already encrypted API key once more. |
| Settings.RegisteredResetKeepsKey | includes/class-rcp-settings.php:119-168 | In an admin request (`ajax_reset_settings`), `reset()` keeps the stored API key, since the empty default falls back to it. |
| Settings.RegisteredResetFields | includes/class-rcp-settings.php:119-150 | In an admin request, `reset()` still returns every boolean and integer field to its default. |
| Settings.RegisteredResetWords | includes/class-rcp-settings.php:119-159 | In an admin request, `reset()` still stores the default mode `n8n` and log level `info`. |
| Settings.SettingsStore.UpdateOption | includes/class-rcp-settings.php:70-97 | `update_option` stores the map, sanitised by the registered callback in admin requests (twice when the option is created), and reports success exactly when the stored value changed. |
| Settings.SettingsStore.Get | includes/class-rcp-settings.php:79-87 | `get` returns the stored value, else the given default, else the built-in one. It returns null only for an unknown key with no default. |
| Settings.SettingsStore.Set | includes/class-rcp-settings.php:92-97 | `set` writes the key over the stored map, or over the defaults when nothing is stored, and passes it to `update_option`. It reports whether the option changed. |
| Settings.SettingsStore.GetAll | includes/class-rcp-settings.php:102-104 | `get_all` returns the stored settings over the defaults, so every built-in key is present. |
| Settings.SettingsStore.Update | includes/class-rcp-settings.php:109-114 | `update` passes `array_merge(get_all(), $s)` to `update_option` and reports whether the option changed. |
| Settings.SettingsStore.Reset | includes/class-rcp-settings.php:119-121 | `reset` passes the defaults to `update_option` and reports whether the option changed. |
| Settings.SettingsStore.SanitizeSettings | includes/class-rcp-settings.php:126-171 | `sanitize_settings` computes `Sanitized` from the input and the stored option. |
| Settings.SettingsStore.ImportSettings | includes/class-rcp-settings.php:415-428 | Data without a `settings` array is `invalid_format` and nothing is written. Otherwise the sanitised settings go to `update_option`, and an unchanged option is reported as `import_failed`. |
| Rules.TextContainsMeaning | includes/class-rcp-rules-engine.php:203-215 | `contains` is case-insensitive substring, and `not_contains` is its negation. `equals` compares lower-cased text, and `not_equals` is its negation. |
| Rules.TextAffixMeaning | includes/class-rcp-rules-engine.php:216-219 | `starts_with` is "is a prefix, ignoring case". `ends_with` is "is a suffix", except that an empty value matches only empty text. |
| Rules.TextUnknownOperator | includes/class-rcp-rules-engine.php:222-223 | An operator outside the seven never matches. |
| Rules.TextVersionsAgreeOffRegex | includes/class-rcp-rules-engine.php:203-221 | The code as written and the corrected evaluator agree on every operator except `regex` with a pattern that has upper-case letters. |
| Rules.RegexLowercasingFlipsClass | includes/class-rcp-rules-engine.php:205-221 | Lower-casing turns the pattern `\D+` into `\d+`. `abc` then fails as written but matches in the corrected evaluator. |
| Rules.ArrayConditionMeaning | includes/class-rcp-rules-engine.php:230-242 | `contains` holds iff some category equals the value ignoring case. `not_contains` is its negation, and any other operator is false. |
| Rules.NumericTrichotomy | includes/class-rcp-rules-engine.php:247-258 | Exactly one of `equals`, `greater_than` and `less_than` holds. |
| Rules.EvaluateConditionKinds | includes/class-rcp-rules-engine.php:165-198 | An unknown type never matches, and `has_media` holds exactly when there are enclosures. The length condition compares the length of the `strip_tags` text, which is never longer than the content, and equals the content without NULs when no tag opens. |
| Rules.Explanation | includes/class-rcp-rules-engine.php:263-283 | The explanation starts with `MATCHED` exactly when the condition held, and with `DID NOT MATCH` otherwise. |
| Rules.SimulateActionMeaning | includes/class-rcp-rules-engine.php:288-304 | A known action's sentence ends with its value. An unknown one says `Unknown action:` and its type. |
| Rules.TestRuleAgainstContent | includes/class-rcp-rules-engine.php:122-160 | There is one report per condition, in order, with no short-circuit. The rule matches iff every condition holds. Actions are simulated exactly when it matches. |
| Rules.EvaluateAll | includes/class-rcp-rules-engine.php:127-141 | The condition loop reports every condition, and its flag is the conjunction of all results. |
| Rules.SimulateAll | includes/class-rcp-rules-engine.php:144-152 | The action loop pairs every action with its simulated sentence, in order. |
| Rules.FindSpec | includes/class-rcp-rules-engine.php:61-64 | The lookup by id finds a row exactly when one has the id, and the row it finds has that id. |
| Rules.UpdateRowsFind | includes/class-rcp-rules-engine.php:61-64 | After an update the id finds the new data, if it existed before. Every other id finds what it found before. |
| Rules.UpdateMissingIdKeepsRows | includes/class-rcp-rules-engine.php:61-64 | An update whose id matches no row changes nothing. |
| Rules.TruthyIdsReadAsZero | includes/class-rcp-rules-engine.php:61-64 | The ids `"00"` and `"abc"` are truthy yet `intval` reads them as 0, so `save_rule` takes the update branch for them. |
| Rules.RulesEngine.SaveRule | includes/class-rcp-rules-engine.php:46-76 | A truthy raw id takes the update branch: the row with `intval` of it is rewritten (none when it matches nothing) and that number is returned. Otherwise a row with priority 10 and active 1 by default is appended under a new id, which is returned. |
| Rules.InsertedRuleFound | includes/class-rcp-rules-engine.php:65-68 | A newly inserted rule is found under the returned id with the submitted data. |
| Webhooks.SerialOfExecId | includes/class-rcp-webhook-manager.php:117 | An execution id can be read back to the serial it was issued with. |
| Webhooks.SettleStatus | includes/class-rcp-webhook-manager.php:156-214 | A settled execution is never `pending`. It is `running` exactly on a 2xx answer, and otherwise `error` with a message and a completion time. Its ids are unchanged. |
| Webhooks.CreditMatchesSettle | includes/class-rcp-webhook-manager.php:168-197 | A success is counted iff the execution is `running`, and an error iff the transport failed. The token and the active flag are unchanged. |
| Webhooks.IssueNextId | includes/class-rcp-webhook-manager.php:116-143 | The next execution id is new, so appending its row keeps execution ids unique. |
| Webhooks.IssuedIdsKeptBySameIds | includes/class-rcp-webhook-manager.php:241-256 | Rewriting rows without touching their ids keeps the ids unique. |
| Webhooks.AfterCallbackMeaning | includes/class-rcp-webhook-manager.php:241-254 | A callback completes the execution and echoes its parameters. The status is `error` whenever an error is given, and `success` by default. |
| Webhooks.FindExecution | includes/class-rcp-webhook-manager.php:231-234 | A found execution index is in range. |
| Webhooks.FindExecutionSpec | includes/class-rcp-webhook-manager.php:231-238 | The lookup finds the first execution with the id. It finds none exactly when no execution has the id. |
| Webhooks.ReturnedPostMeaning | includes/class-rcp-webhook-manager.php:283-312 | The returned post is a draft `post`. Its title and content fall back to the item's, and its excerpt to "". It records its provenance and keeps the item's source URL and GUID. |
| Webhooks.AfterReturnMeaning | includes/class-rcp-webhook-manager.php:315-320 | Returned content adds exactly one post, a draft. The item is marked `completed` and points to the new post. No other post changes. |
| Webhooks.TokenIdentifiesWebhook | includes/class-rcp-webhook-manager.php:337-353 | With unique tokens, an accepted `X-Auth-Token` identifies exactly one active webhook. |
| Webhooks.DeleteRevokesToken | includes/class-rcp-webhook-manager.php:424-436 | After a webhook is deleted, its token no longer authenticates. |
| Webhooks.WebhookManager.CreateWebhook | includes/class-rcp-webhook-manager.php:60-95 | A new active webhook row is stored with the token, and the id, token and callback URL are returned. A token already in use is a `db_error` and nothing is written. |
| Webhooks.WebhookManager.SendToWebhook | includes/class-rcp-webhook-manager.php:100-215 | A missing or inactive webhook is refused and nothing is written. Otherwise exactly one execution is appended and settled by the answer, and the webhook's counters are credited. |
| Webhooks.WebhookManager.HandleCallback | includes/class-rcp-webhook-manager.php:220-270 | A missing execution id is 400 and an unknown one is 404, neither writing anything. Otherwise the execution is completed, and a successful callback with content creates the draft. |
| Webhooks.WebhookManager.ProcessReturnedContent | includes/class-rcp-webhook-manager.php:275-332 | When the source item is gone, nothing happens. Otherwise the draft is inserted and the item records it as `completed`. |
| Webhooks.WebhookManager.DeleteWebhook | includes/class-rcp-webhook-manager.php:424-436 | The row is removed, and 1 is returned when it existed, 0 otherwise. Executions are kept. |
| FeedParser.Named | includes/class-rcp-feed-manager.php:400-403 | Selecting children by name keeps exactly the unprefixed elements with that name. |
| FeedParser.NamedAppend | includes/class-rcp-feed-manager.php:326 | Selecting children keeps document order. |
| FeedParser.Child | includes/class-rcp-feed-manager.php:149 | `isset($x->name)` holds exactly when a child with that name exists. |
| FeedParser.TitleFollowsType | includes/class-rcp-feed-manager.php:165-184 | The title comes from the root for Atom and from the channel for RSS. Otherwise it is empty. |
| FeedParser.ValidateFeedAccepts | includes/class-rcp-feed-manager.php:109-160 | A feed validates exactly when every check passes. The type and title are then read from the parsed document. |
| FeedParser.ValidateFeedOrder | includes/class-rcp-feed-manager.php:111-158 | An invalid URL is refused before any request. A transport failure comes before the status check, and a bad status before the body is examined. A non-empty 2xx body that does not parse is `invalid_xml`; one that parses but is neither RSS nor Atom is `invalid_feed`. |
| FeedParser.EntryRootValidatesAsUnknown | includes/class-rcp-feed-manager.php:149-171 | A root not called `feed` that has an `entry` child passes validation, yet its type is `unknown`. |
| FeedParser.RssCategoriesMembers | includes/class-rcp-feed-manager.php:398-406 | There is one category per unprefixed `category` child, and a string is a category exactly when such a child has it as text. |
| FeedParser.AtomCategoriesMembers | includes/class-rcp-feed-manager.php:411-419 | There is one category per unprefixed `category` child, and a string is a category exactly when such a child has it as `term`. |
| FeedParser.RssCategoriesAppend | includes/class-rcp-feed-manager.php:398-406 | Categories keep document order: those of the earlier children come first. |
| FeedParser.AtomCategoriesAppend | includes/class-rcp-feed-manager.php:411-419 | Atom categories keep document order in the same way. |
| FeedParser.FirstEncoded | includes/class-rcp-feed-manager.php:348 | The `content:encoded` element found is a child. When none is found, no child is one. |
| FeedParser.PlainRssItemAborts | includes/class-rcp-feed-manager.php:344-348 | As written, an RSS item that uses no `content:` namespace aborts parsing. |
| FeedParser.RssContentFallsBack | includes/class-rcp-feed-manager.php:348 | The corrected body is `content:encoded` when present, else `description`. It agrees with the code wherever the code does not abort. |
| FeedParser.AlternateLinkIsFirst | includes/class-rcp-feed-manager.php:371-379 | The link is the `href` of the first link whose `rel` is `alternate` or absent. It is "" when there is no such link. |
| FeedParser.AtomEntryMeaning | includes/class-rcp-feed-manager.php:363-393 | The body prefers `content` to `summary` and the GUID is `id`. The date is `published` when it is truthy, else `updated`. |
| FeedParser.AtomZeroPublishedUsesUpdated | includes/class-rcp-feed-manager.php:388 | A published date of `"0"` is falsy, so the updated date is used. |
| FeedParser.FeedItemsMeaning | includes/class-rcp-feed-manager.php:314-338 | The `i`-th item is `parse_rss_item` of the first channel's `i`-th `item` (RSS is tried first), else `parse_atom_entry` of a `feed` root's `i`-th `entry`, else there are none. Each item is tagged with the feed. |
| FeedParser.ParseDateMeaning | includes/class-rcp-feed-manager.php:510-521 | The date is the current time or what `strtotime` read. A truthy readable date does not depend on the clock, and an empty or unreadable one is the current time. |
| FeedManager.NewFeedDefaults | includes/class-rcp-feed-manager.php:73-87 | A new feed is `active`, never fetched and error-free. It polls every 3600 s and uses language `en` unless told otherwise. |
| FeedManager.FailuresDisable | includes/class-rcp-feed-manager.php:624-647 | Each failure adds exactly one error. After `k` failures a feed is in `error` iff it already was or its count reached five. |
| FeedManager.FetchStampsAndNotModified | includes/class-rcp-feed-manager.php:225-261 | Every fetch stamps `last_fetch` and keeps the configuration. A 304 changes nothing else and passes no items on. |
| FeedManager.FetchFailureCountsOne | includes/class-rcp-feed-manager.php:250-287 | A transport failure, a non-2xx status other than 304, or a body that does not parse counts exactly one error, which may disable the feed. |
| FeedManager.FetchSuccessResets | includes/class-rcp-feed-manager.php:268-301 | A parsed 2xx body resets the error count and message and keeps the status. The two validators change together or not at all. |
| FeedManager.IngestStep | includes/class-rcp-feed-manager.php:289-295 | One more item adds its sanitised GUID and escaped link unless it is a duplicate, and the count grows by one exactly when the item is new. |
| FeedManager.UnkeyedNeverDuplicate | includes/class-rcp-feed-manager.php:475-505 | An item with neither GUID nor link is never a duplicate. |
| FeedManager.IngestCovers | includes/class-rcp-feed-manager.php:289-295 | Processing only adds keys. Afterwards every keyed item of the batch whose GUID and link the sanitizers leave unchanged is a duplicate. |
| FeedManager.IngestAllDuplicates | includes/class-rcp-feed-manager.php:424-428 | When every item is a duplicate, nothing is stored and nothing is counted. |
| FeedManager.RefetchInsertsNothing | includes/class-rcp-feed-manager.php:289-295 | Fetching the same keyed items again inserts none of them and stores nothing new, provided the sanitizers leave every GUID and link unchanged. |
| FeedManager.IngestPostStep | includes/class-rcp-feed-manager.php:424-470 | One item: a duplicate by its raw GUID or link leaves the posts as they are; a new item adds exactly one post under the next id, its sanitised keys take one `Step`, and every stored post stays. |
| FeedManager.IngestedGrows | includes/class-rcp-feed-manager.php:289-295 | The item loop adds one post per inserted item under consecutive new ids and touches no earlier post. The stored keys are `IngestSeen` (sanitised keys) and the number of new ids is `IngestCount` (raw lookups). |
| FeedManager.RefetchKeepsPosts | includes/class-rcp-feed-manager.php:289-295 | Processing the same keyed items a second time leaves the posts table exactly as the first pass left it, provided the sanitizers leave every GUID and link unchanged. |
| FeedManager.RefetchReinsertsEscapedLink | includes/class-rcp-feed-manager.php:439-495 | An item without a GUID whose link `esc_url` changes is not found by the raw lookup after it is stored, so a second fetch inserts it again. |
| FeedManager.IngestStoredCovers | includes/class-rcp-feed-manager.php:439-495 | With the lookup by the stored (sanitised) value, every keyed item of a batch is a duplicate afterwards, whatever the sanitizers do. |
| FeedManager.IngestStoredAllDuplicates | includes/class-rcp-feed-manager.php:424-428 | With the corrected lookup, items that are all duplicates store nothing and count nothing. |
| FeedManager.RefetchStoredInsertsNothing | includes/class-rcp-feed-manager.php:439-495 | With the corrected lookup, fetching the same keyed items again inserts none of them and stores nothing new, with no condition on the sanitizers. |
| FeedManager.IngestStoredAgrees | includes/class-rcp-feed-manager.php:439-495 | Where the sanitizers leave every GUID and link unchanged, the corrected lookup stores and counts exactly what the code as written does. |
| FeedManager.IngestedAllDuplicates | includes/class-rcp-feed-manager.php:424-428 | Items that are all duplicates leave the posts table as it is. |
| FeedManager.BatchPostsGrows | includes/class-rcp-feed-manager.php:189-206 | A cron run only adds posts: every post stored before it stays as it was. |
| FeedManager.ItemPostKeys | includes/class-rcp-feed-manager.php:431-449 | The item's post is private and `pending`, and stores `sanitize_text_field` of the GUID and `esc_url` of the link under the keys duplicate detection reads. Its date is the item's readable `pubDate`, else the current time. |
| FeedManager.InsertRemembers | includes/class-rcp-feed-manager.php:438-451 | Storing an item's post adds exactly its sanitised GUID and escaped link to the stored keys. |
| FeedManager.ApplicableRules | includes/class-rcp-feed-manager.php:532-535 | A rule is a candidate iff it is active and belongs to the feed or to every feed. |
| FeedManager.InsertByPriorityKeeps | includes/class-rcp-feed-manager.php:533 | Inserting a rule into the order keeps every rule, and adds the new one once. |
| FeedManager.InsertByPrioritySpec | includes/class-rcp-feed-manager.php:533 | Inserting into a priority-ordered list keeps it ordered, and is a permutation step. |
| FeedManager.SortByPrioritySpec | includes/class-rcp-feed-manager.php:533 | `ORDER BY priority ASC` is ordered and a permutation of the rows. |
| FeedManager.RulesInOrderSpec | includes/class-rcp-feed-manager.php:532-535 | Exactly the applicable rules are tried, in ascending priority. |
| FeedManager.AllLiveMeaning | includes/class-rcp-feed-manager.php:555-578 | The live condition loop holds iff every condition holds. |
| FeedManager.EvaluateRuleMeaning | includes/class-rcp-feed-manager.php:548-579 | A rule matches live iff it has conditions and each holds. A condition of unknown type always holds. |
| FeedManager.LiveAndDryRunDisagree | includes/class-rcp-feed-manager.php:556-575 | Every condition type the dry run knows is skipped live. An unknown type holds live but fails in the dry run. |
| FeedManager.FirstMatchIsFirst | includes/class-rcp-feed-manager.php:537-542 | The chosen rule matches and no earlier rule does. None is chosen iff none matches. |
| FeedManager.ActionsAppliedStep | includes/class-rcp-feed-manager.php:590-618 | One more action applies its meta to the item and counts a send exactly when it is `send_to_webhook`. |
| FeedManager.NoActionsNoChange | includes/class-rcp-feed-manager.php:585-588 | Missing or empty actions change nothing. |
| FeedManager.ActionMetaKeeps | includes/class-rcp-feed-manager.php:610-616 | Actions change only the two assignment keys. Title, body, status and every other meta value stay. |
| FeedManager.LastAssignmentWins | includes/class-rcp-feed-manager.php:610-612 | Of several `assign_category` actions, the last one's value is stored. |
| FeedManager.ActionsKeepSeen | includes/class-rcp-feed-manager.php:610-616 | Actions leave the stored GUIDs, URLs and post ids as they are. |
| FeedManager.ItemData | includes/class-rcp-feed-manager.php:594-604 | The content handed to `send_to_webhook` is the item's id, content and title, its link as the source URL, and its author, categories and publication date as metadata. |
| FeedManager.CreditedKeepsEndpoint | includes/class-rcp-webhook-manager.php:168-193 | Crediting an answer changes only the webhook's counters and last-used time. Its URL, token, processing type, timeout and active flag stay, so later dispatches send the same request. |
| FeedManager.SentStep | includes/class-rcp-feed-manager.php:592-607 | Each further `send_to_webhook` to an active target appends one execution: the item's payload under the next execution id, settled by the webhook's answer. It also credits the webhook's counters with that answer. To a missing or inactive target it changes nothing. |
| FeedManager.SentKeepsWebhooks | includes/class-rcp-webhook-manager.php:100-215 | However many dispatches were made, the executions only grow, the serial only rises, and the webhook rows keep their ids, URLs, tokens and active flags. |
| FeedManager.SentExecutionsCarryItem | includes/class-rcp-webhook-manager.php:113-140 | Every execution a rule's dispatches add is for the item and the rule's webhook. Each has its own execution id in issue order, is no longer `pending`, and carries the item's content, title, link, metadata and the webhook's token. |
| FeedManager.DueInOrder | includes/class-rcp-feed-manager.php:195-199 | The due list holds exactly the due feeds named in the query order, each once. |
| FeedManager.BatchSpec | includes/class-rcp-feed-manager.php:195-201 | The batch holds at most ten distinct due feeds from the query order. It is short only when it holds every due feed of that order. |
| FeedManager.BatchComplete | includes/class-rcp-feed-manager.php:195-201 | When the order lists every feed, as `ORDER BY RAND()` does, a due feed is left out only when the batch already holds ten. |
| FeedManager.FeedManager.SetWebhookManager | includes/class-rcp-feed-manager.php:49-51 | Rule dispatch is switched on, and the feeds are untouched. |
| FeedManager.FeedManager.AddFeed | includes/class-rcp-feed-manager.php:56-104 | A falsy name or URL is `missing_data`, and a failed validation is that error; neither writes anything. Otherwise a new `active` row is inserted and fetched once, its items go into the posts table as `Ingested` gives them, and its id is returned. |
| FeedManager.FeedManager.InsertFeed | includes/class-rcp-feed-manager.php:73-101 | The new row is stored under the next feed id and fetched once: the row becomes `FetchedRow` and the posts table becomes `Ingested` of the fetched items. |
| FeedManager.FeedManager.StoreNewFeed | includes/class-rcp-feed-manager.php:73-95 | The new `active` row is stored under the next feed id, which is returned; no existing row changes. |
| FeedManager.FeedManager.FetchAllFeeds | includes/class-rcp-feed-manager.php:189-206 | Each batch feed ends as one fetch leaves it, and every other feed is untouched. The posts table becomes `BatchPosts`: each batch feed's items ingested in turn. |
| FeedManager.FeedManager.FetchBatch | includes/class-rcp-feed-manager.php:203-205 | The loop fetches each given feed exactly once, and the posts table becomes `BatchPosts` of the batch. |
| FeedManager.FeedManager.FetchFeed | includes/class-rcp-feed-manager.php:211-309 | An unknown feed is `feed_not_found` and nothing is written. Otherwise the row becomes `FetchedRow`, the posts table becomes `Ingested` of the fetched items, and the result is `FetchOutcome`. |
| FeedManager.FeedManager.FetchBatchNext | includes/class-rcp-feed-manager.php:203-205 | One turn of the loop: the next feed of the batch, not fetched before, gets the row one fetch gives it, and the posts table takes that feed's `Ingested` step of `BatchPosts`. |
| FeedManager.FeedManager.FetchKnownFeed | includes/class-rcp-feed-manager.php:225-308 | For a known feed the row becomes `FetchedRow`, the posts table becomes `Ingested` of the fetched items, and the result is `FetchOutcome`. |
| FeedManager.FeedManager.FetchNotTaken | includes/class-rcp-feed-manager.php:250-266 | A transport failure or a non-2xx status other than 304 counts one error; a 304 changes nothing more. The row becomes `FetchedRow`, the result is `FetchOutcome`, and no items reach the pipeline. |
| FeedManager.FeedManager.TakeBody | includes/class-rcp-feed-manager.php:268-308 | On a 2xx answer the validators are stored. A parse failure then counts an error; otherwise the posts table becomes `Ingested` of the body's items and the error count is reset. |
| FeedManager.FeedManager.ReadBody | includes/class-rcp-feed-manager.php:280-308 | A body that does not parse counts one error and stores nothing. A parsed one has its items ingested (the posts table becomes `Ingested`) and clears the error count. |
| FeedManager.FeedManager.IngestAndReset | includes/class-rcp-feed-manager.php:289-301 | The posts table becomes `Ingested` of the items, then the row's error count and message are cleared. |
| FeedManager.FeedManager.StoreValidators | includes/class-rcp-feed-manager.php:268-277 | The ETag and Last-Modified are stored together, only when at least one is truthy. |
| FeedManager.FeedManager.IngestItems | includes/class-rcp-feed-manager.php:289-295 | The item loop leaves the posts table as `Ingested` of the items and counts `IngestCount` insertions. |
| FeedManager.FeedManager.IsDuplicateItemSeen | includes/class-rcp-feed-manager.php:475-505 | `is_duplicate_item` holds iff the truthy GUID or truthy link is already stored. |
| FeedManager.FeedManager.ProcessFeedItem | includes/class-rcp-feed-manager.php:424-470 | A duplicate is skipped and nothing is written. Otherwise the posts table takes one `IngestPost` step: the item's post is inserted and the chosen rule's effects follow. |
| FeedManager.FeedManager.InsertItem | includes/class-rcp-feed-manager.php:431-465 | The item's post is inserted under the next id, and the chosen rule's actions are applied to it. |
| FeedManager.FeedManager.TriggerContentProcessing | includes/class-rcp-feed-manager.php:526-543 | Only the first applicable rule in priority order that matches has its actions applied. |
| FeedManager.FeedManager.ExecuteRuleActions | includes/class-rcp-feed-manager.php:584-619 | Assignments write the item's meta in order. The `send_to_webhook` actions dispatch `ItemData` of the item to the rule's webhook once each, as `SentSoFar` states: one settled execution per send and the counters credited with each answer. |
| FeedManager.FeedManager.ActionStep | includes/class-rcp-feed-manager.php:590-618 | One pass of the action loop extends the applied meta and the dispatches by exactly the next action. |
| FeedManager.FeedManager.RunAction | includes/class-rcp-feed-manager.php:591-617 | An assignment writes its meta key on the item's post. A `send_to_webhook` makes one dispatch as `SendItem` states it. Any other action type changes nothing. |
| FeedManager.FeedManager.SendItem | includes/class-rcp-feed-manager.php:592-607 | A dispatch to an active target appends exactly one execution, the item's payload under the next execution id settled by the answer. The webhook is credited with that answer and the serial goes up by one. A missing or inactive target changes nothing. |
| FeedManager.FeedManager.HandleFeedError | includes/class-rcp-feed-manager.php:624-647 | The error count goes up by one with the message, and the feed switches to `error` at five. An unknown id changes nothing. |

## Left out

- I/O, clocks and foreign calls are parameters. `Env` holds URL validation, the HTTP client, the XML parser, `strtotime`, `parse_url`, `preg_match`, `wp_trim_words`, `rest_url`, `esc_url`, `sanitize_text_field` and the current user. `now` is the current time, and `order` is the row order of `ORDER BY RAND()`.
- `current_time('mysql')` and MySQL's `NOW()` are treated as one clock in whole seconds. `date('Y-m-d H:i:s')` formatting is not modelled.
- `esc_url` and `sanitize_text_field` in `process_feed_item` are `Env` parameters, since their output is what duplicate detection later compares. The other sanitizers (`esc_url_raw`, `sanitize_textarea_field`, `wp_kses_post` and the like) are treated as the identity; no lookup reads what they produce.
- JSON encoding is not modelled: payloads, conditions and actions are records, and condition values are strings only.
- PHP's loose numeric-string comparison is not modelled, and `strlen` counts characters rather than bytes.
- Database write failures are not modelled: `db_error` in `add_feed` and `save_rule`, a failed `wp_insert_post` in `process_feed_item` and `process_returned_content`, and a failed update.
- Taxonomy writes (`wp_set_object_terms`, `wp_set_post_categories`, `wp_set_post_tags`), `do_action` hooks and the log table are left out. Logging writes only to the logs table, which nothing in the core reads.
- `libxml` error text is not modelled: `invalid_xml` carries no message.
- The feed's `settings` JSON column, the webhook's `n8n_workflow_json` and the template workflow JSON are not modelled.
- Only the SimpleXML namespaces the core touches are modelled: an element carries its own prefix, and `getNamespaces(true)` is read as "uses the `content:` prefix somewhere".
- Ties in `ORDER BY priority` are kept in table order, since the database gives no order for them.
- The executions `status` column is a string: the `ENUM` constraint is not modelled.
- `base64` and the salt are parameters: the round-trip lemma assumes a sound codec and a salt without `|`. `floatval` of `openai_temperature` is kept as a float value without arithmetic.
- `wp_generate_password` is a parameter: the token is passed to `CreateWebhook`.
- The AJAX handlers, REST route registration, the admin pages, `get_feeds`, `delete_feed`, `test_webhook`, `get_webhook_stats` and `get_webhooks` are outside the modelled core.
- FeedManager.FeedManager.FetchFeed: its contract does not restate the dispatched executions or the webhook counters. It says only that the executions grow and that the webhook rows keep their ids, URLs, active flags and tokens. The same holds for the batch methods. The exact executions and counters (payload, settle status, credits) are stated per item by `FeedManager.FeedManager.ProcessFeedItem`, `InsertItem`, `TriggerContentProcessing` and `ExecuteRuleActions`, through `RuleEffects` and `SentSoFar`.
- FeedManager.FeedManager.AddFeed: the status the initial fetch reports is not returned, as `add_feed` discards it.
- FeedManager.FeedManager.ExecuteRuleActions: it is called only when the webhook manager is set, so the `$this->webhook_manager` condition inside `send_to_webhook` actions is always true in the model.
- Php.StripTagsFrom: `strip_tags` also has states for `<?` (PHP code), `<!` (comments, which end only at `-->`, and doctypes) and JavaScript blocks; the model treats them as ordinary tags, so a `>` inside a comment ends it early.
- Php.IntVal: `intval` of a numeric string with an exponent (`"1e3"`, 1000 in PHP 8) reads only the leading digits, and no value is saturated at `PHP_INT_MAX`. It feeds the integer settings, the length condition's bound and the execution-id read.
- String lookups (`is_duplicate_item`, the webhook `auth_token` check, the `execution_id` lookup) use exact string equality. MySQL's default collation ignores case and trailing spaces, so it can find rows the model does not.
- Settings.SettingsStore.UpdateOption: `update_option` compares arrays with `===`, which depends on key order, while the model compares maps. A reordered but equal map counts as a change in PHP and as no change in the model, so `import_settings` of an export reports `import_failed` in the model where PHP reports success.
- Settings.SettingsStore.ImportSettings: the same key-order difference applies to its `import_failed` result.
- Settings.SettingsStore.Update: the same key-order difference applies to its result. `array_merge(get_all(), $s)` is in the defaults' key order, while an option saved through `sanitize_settings` is in that function's order, so an equal merge can report true in PHP and false in the model.
- Settings.SettingsStore.Reset: the same key-order difference applies to its result. After an admin save of the default values, `reset()` in a cron request hands over the defaults in their own key order and reports true in PHP, but false in the model.
- GetAfterSet: stated for requests where the sanitize callback is not registered (cron, the front end); `Settings.RegisteredSetCoerces` states the admin case.
- SetChangesOnlyKey: stated for requests without the callback; in admin requests `set` also re-encrypts the stored API key (`Settings.RegisteredSetReencryptsKey`) and replaces every key with its sanitised value.
- ResetRestoresDefaults: stated for requests without the callback; in admin requests `reset()` keeps the stored API key (`Settings.RegisteredResetKeepsKey`).
- UpdateMerges: stated for requests without the callback; in admin requests the merged map is sanitised before it is stored (`Settings.WrittenSanitized`).

## Findings

| source | as written | input that shows it | evidently intended | confidence | as-written member | corrected member |
|---|---|---|---|---|---|---|
| includes/class-rcp-rules-engine.php:205-221 | The value is lower-cased before it is used as the `regex` pattern. | Pattern `\D+` against title `abc`: lower-cased it becomes `\d+`, which does not match. | Match with the pattern as written, since the `i` flag already ignores case. | not executed | Rules.RegexLowercasingFlipsClass | Rules.TextVersionsAgreeOffRegex |
| includes/class-rcp-settings.php:130-131 | `in_array` with loose comparison clamps the processing mode and the log level. | `processing_mode => true` (also `log_level => true`) passes the check and is stored as boolean `true`. | Only the listed words pass (strict `in_array`). | not executed | Settings.ClampLooseAdmitsTrue | Settings.ClampStrictAllowed |
| includes/class-rcp-feed-manager.php:344-348 | `children($namespaces['content'] ?? [])` is passed an array when the item uses no `content:` namespace. | A plain RSS 2.0 item with only `title`, `link` and `description`: PHP 8 raises a `TypeError` and the fetch aborts. | Fall back to `description` (`children('content', true)` or a null argument). | not executed | FeedParser.PlainRssItemAborts | FeedParser.RssContentFallsBack |
| includes/class-rcp-feed-manager.php:439-495 | `process_feed_item` stores `esc_url` of the link and `sanitize_text_field` of the GUID, but `is_duplicate_item` looks up the raw values. | An item without a GUID whose link is `https://ex.com/?p=1&lang=fr`: it is stored as `...&#038;lang=fr`, the raw lookup never finds it, and every fetch inserts it again. | Look up the value as it is stored (or store the raw value), so a re-fetched item is found. | not executed | FeedManager.RefetchReinsertsEscapedLink | FeedManager.RefetchStoredInsertsNothing |

The corrected definitions are `Rules.TextCondition`, `Settings.ClampStrict` and `FeedParser.RssContent`. The rest of the model uses them: the dry run, `sanitize_settings` and `parse_rss_item`. The as-written definitions are `Rules.TextConditionAsWritten`, `Settings.ClampLoose` and `FeedParser.RssContentAsWritten`.

Duplicate detection is the exception. The feed pipeline keeps the lookup as written (`FeedManager.Duplicate`, by the raw GUID and link) because the posts table it builds is the one the code builds; the refetch lemmas over it carry the condition that the sanitizers keep each key. The corrected lookup by the stored value is `FeedManager.DuplicateStored`, with its own fold `FeedManager.IngestSeenStored` and `FeedManager.IngestCountStored`; `FeedManager.IngestStoredAgrees` shows the two agree wherever that condition holds.
