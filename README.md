# WhatsApp auto-responder: reply selection and conversation log

This project models the decision and persistence logic of a WhatsApp
auto-responder. The repository has three front ends, and each of them writes
that logic again:

- `bot/index.js` is the browser-session bot. It uses a custom rule first, then
  the Gemini AI, then a five-entry local table.
- `bot-simulado.js` is the simulator, class `BotSimulado`. It uses a custom rule
  first, then a seven-entry local table, and never calls the AI.
- `whatsapp-business-api.js` is the Business-API webhook, class
  `WhatsAppBusinessAPI`. It uses a custom rule first, then the AI, then a
  fixed apology.

The shared parts are modelled once:

- **Rules** is the custom-rule lookup over `respuestas_personalizadas.json`.
  The lower-cased message is tested against each rule in stored order. The
  first rule with some keyword, taken as stored, that occurs in the message
  wins. A rule without a keyword array throws, and the lookup then yields null.
  The same lookup appears at `bot-simulado.js:46-63` and
  `whatsapp-business-api.js:96-116`.
- **Fallback** is a keyword-to-reply table searched in insertion order, with
  the generic greeting when no key occurs.
- **Store** holds the documents as a `DataStore` object. Its three
  read-modify-write operations are:
  - prepend to the incoming log and keep 100 records;
  - create or count a user;
  - append to a user's history.

  The simulator repeats them at `bot-simulado.js:88-160`, with `respondido`
  true. The webhook repeats the first one at `whatsapp-business-api.js:146-175`,
  with `plataforma`.
- **Text** models `toLowerCase`, `includes`, `trim` and `replace` with a
  string pattern.

The front-end modules **Bot**, **Simulator** and **BusinessApi** hold each
file's reply function, its table and its handler.

The world outside is a parameter of each operation:

- **AI call:** `AiOutcome` is `Ok(text)` or `Fail`.
- **Send:** `SendOutcome` is `Delivered` or `Threw(message)`.
- **Clock:** `Clock(millis, iso)` stands for `Date.now()` and `toISOString()`.
- **Documents:** each one is a `Doc`, which is `Missing`, `Unreadable` or
  `Loaded(value)`.
  - A missing document starts from its empty default.
  - An unreadable one makes the handler catch the error and write nothing.
  - An unreadable rules document gives null, like a missing one.

On these points the model follows the code:

- **Keyword case and empty values.**
  - Keywords are not normalised to lower case. The panel stores the posted
    document verbatim (`panel/app.js:75-78`). A rule whose keywords all hold an
    upper-case letter therefore never matches (`Rules.UpperCaseRuleNeverMatches`).
  - An empty keyword matches every message.
  - An empty custom reply is falsy, so it falls through to the next source.
- **Unreadable documents.** A log, users or history document that cannot be
  read is left as it is, not treated as empty.
- **Business API has no local table.** When the AI fails it answers with the
  apology.
- **Webhook send failures.** The webhook's handler reports a send failure as
  `{success: false, error}`.
- **History in the bot.** The bot writes history only after the send resolves.

## Model

| member | source | states |
|---|---|---|
| Text.LowerChar | bot/index.js:157 | lower-casing maps each modelled capital to its small letter (code point + 0x20), leaves every other character as it is, and never yields a capital |
| Text.Lower | bot/index.js:85 | the lower-cased message has the same length and is lower-cased character by character |
| Text.LowerHasNoUpper | bot/index.js:85 | a lower-cased message holds no capital, and lower-casing it again changes nothing |
| Text.UpperNeverInLower | bot/index.js:85-88 | a string holding a capital is never found in a lower-cased message |
| Text.TrimStart | bot/index.js:143 | the kept suffix starts with a non-space, and everything dropped is white space |
| Text.TrimEnd | bot/index.js:143 | the kept prefix ends with a non-space, and everything dropped is white space |
| Text.Trim | bot/index.js:143 | the trimmed text is no longer than the input and neither starts nor ends with white space; a text that already does not is kept as it is |
| Text.TrimSpec | bot/index.js:143 | `trim` keeps a window of the text, and everything cut off on either side is white space |
| Text.TrimIdempotent | bot/index.js:143 | trimming a trimmed text changes nothing |
| Text.RemoveFirst | bot/index.js:206 | `replace` with a string pattern leaves the text as long as it was or shortens it by exactly the pattern's length |
| Text.RemoveFirstAt | bot/index.js:206 | when the pattern first occurs at index i, the result is the text with the window at i cut out and everything else kept in order |
| Text.RemoveFirstFound | bot/index.js:206 | a text holding the pattern loses exactly the pattern's length |
| Text.RemoveFirstAbsent | bot/index.js:206 | a sender id without `@c.us` is kept as it is |
| Text.RemoveFirstSuffix | bot/index.js:206 | removing a suffix whose first character is absent from the front part gives the front part back |
| Text.Contains | bot/index.js:88 | `includes`: the empty string is found in every text, and a string longer than the text is never found in it |
| Rules.AnyKeyword | bot/index.js:88 | true exactly when some keyword, as stored, occurs in the lower-cased message |
| Rules.FirstReply | bot/index.js:87-91 | whatever the loop over the entries returns is the reply of a well-formed rule that matches the message |
| Rules.SelectedShift | bot/index.js:87-91 | rule i+1 is selected in a list exactly when the first rule is well formed and does not match, and rule i is selected in the rest |
| Rules.FirstReplySpec | bot/index.js:87-91 | the lookup succeeds exactly when some rule is selected (it matches, and every earlier rule is well formed and does not match); it then returns that rule's reply; at most one rule is selected |
| Rules.LaterRulesIgnored | bot/index.js:87-91 | once a rule answers, rules appended after it never change the answer |
| Rules.CustomReply | bot/index.js:77-98 | null when the document is missing or unreadable or no rule is selected; otherwise the selected rule's reply |
| Rules.UpperCaseRuleNeverMatches | bot/index.js:85-88 | a rule whose every keyword holds a capital, or that has no keyword array, never matches any message |
| Fallback.LocalMatchSpec | bot/index.js:157-162 | the table search finds nothing exactly when no key occurs; otherwise it returns the reply of the first key that occurs |
| Fallback.LocalMatch | bot/index.js:158-162 | whatever the table search returns is the reply of an entry whose key occurs in the message |
| Fallback.LocalReply | bot/index.js:156-164 | the reply of the first key found; the generic greeting when no key occurs; never empty when the table's replies are not |
| Bot.ObtenerRespuestaIA | bot/index.js:132-166 | the AI text trimmed; on failure the reply of the first of hola, gracias, precio, horario, ayuda found, otherwise the greeting; never empty on failure |
| Bot.Respuesta | bot/index.js:218-228 | a truthy custom reply wins; a null or empty one falls through to the AI reply; the result is never empty when the AI fails |
| Bot.OnMessage | bot/index.js:203-242 | group and `status@broadcast` messages cause no effect; otherwise the handler saves the record, touches the user, reads the rules, asks the AI only without a truthy custom reply, sends, and writes history only after a successful send |
| Bot.Handled | bot/index.js:204 | the filter: `isGroupMsg` is exactly `false` and the sender is not `status@broadcast` |
| Bot.Usuario | bot/index.js:206 | an id without `@c.us` is stored as it is; otherwise it loses exactly the five characters of that suffix's first occurrence |
| Bot.UsuarioOfPhone | bot/index.js:206 | a phone id followed by `@c.us` is stored as the bare phone id |
| Bot.SaludoScenario | bot/index.js:218-222 | a stored rule for `hola` answers "Hola, buen día" whatever the AI would say |
| Bot.PrecioReply | bot/index.js:148-162 | with no custom reply and a failed AI, a message holding `precio` and neither `hola` nor `gracias` gets the price reply |
| Bot.UnmatchedReply | bot/index.js:157-164 | with no custom reply and a failed AI, a message holding none of the five keys gets the greeting |
| Bot.PrecioScenario | bot/index.js:148-162 | "¿Cuál es el precio?" with no rules and a failed AI gets the price reply |
| Bot.UnmatchedScenario | bot/index.js:157-164 | "Buen día" with no rules and a failed AI gets the greeting |
| Store.Prepended | bot/index.js:112-123 | the new record is first; the earlier records follow in order; the log holds min(n+1, 100) records, so the oldest is dropped when the log is full |
| Store.SaveManyNewestFirst | bot/index.js:112-123 | after a series of saves, the log holds min(n+k, 100) records; the saved records come first, newest first; the earlier log follows them |
| Store.IncomingAfterIsSaveMany | bot/index.js:106-128 | a series of saves on a readable document acts on its contents; an unreadable document stays untouched |
| Store.IncomingAfterAppend | whatsapp-business-api.js:189-197 | saving two series one after the other equals saving their concatenation |
| Store.Touched | bot/index.js:59-68 | an unseen id becomes `Nuevo` with count 1; a known id keeps its category and its count grows by one (a missing count counts as 0); the timestamp is now; no other user changes |
| Store.TouchedManyCounts | bot/index.js:59-68 | after n messages from one id, its count has grown by n and its category is kept; no other user changes |
| Store.WithHistory | bot/index.js:30-41 | exactly one entry is appended at the end of the user's history; earlier entries are unchanged; other users' histories are unchanged; an unreadable history is left as it is |
| Store.DataStore.constructor | bot/index.js:106-110 | the store holds the documents as read |
| Store.DataStore.SaveIncoming | bot/index.js:101-129 | the incoming document becomes the one-record save of its old value; nothing else changes |
| Store.DataStore.TouchUser | bot/index.js:48-74 | the users document becomes the touch of its old value; nothing else changes |
| Store.DataStore.AppendHistory | bot/index.js:24-45 | the history documents become the one-entry append to their old value; nothing else changes |
| Simulator.ObtenerRespuestaLocal | bot-simulado.js:66-85 | the reply of the first of the seven keys found, in table order; otherwise the greeting; never empty |
| Simulator.RespuestaSimulada | bot-simulado.js:25-30 | a truthy custom reply wins, otherwise the local reply; never empty, and the AI is never used |
| Simulator.BotSimulado.constructor | bot-simulado.js:6-12 | a new simulator is inactive and has processed nothing |
| Simulator.BotSimulado.ProcesarMensajeSimulado | bot-simulado.js:15-43 | returns the selected reply, which is never empty; the record is saved as answered; the user is touched; the history gets one entry with the same reply; the processed count grows by exactly one |
| Simulator.BotSimulado.ObtenerEstadisticas | bot-simulado.js:195-201 | reports the number of messages processed, the active flag and mode `simulación` |
| Simulator.HolaGraciasCase | bot-simulado.js:67-84 | "Hola, gracias" gets the `hola` reply, since the earlier key wins |
| Simulator.PrecioPorFavorCase | bot-simulado.js:67-84 | "¿Precio por favor?" gets the `precio` reply |
| Simulator.AdiosCase | bot-simulado.js:73-84 | "Adiós" passes over the five earlier keys and gets the farewell |
| Simulator.HastaLuegoCase | bot-simulado.js:67-84 | "Hasta luego" matches no key and gets the generic greeting |
| BusinessApi.GenerateResponse | whatsapp-business-api.js:70-93 | a truthy custom reply wins; otherwise the AI text trimmed; if the AI fails, the fixed apology |
| BusinessApi.IsText | whatsapp-business-api.js:46 | a message is handled when its type is `text` and its `text.body` is truthy |
| BusinessApi.RecordFor | whatsapp-business-api.js:157-164 | the saved record: the sender, the body, the clock's id and time, unanswered, stamped `whatsapp_business_api` |
| BusinessApi.ChangesMessages | whatsapp-business-api.js:190-196 | the messages of a list of changes, change by change, skipping a change without `value.messages` |
| BusinessApi.EntriesMessages | whatsapp-business-api.js:189-197 | the messages of a notification, entry by entry, then change by change |
| BusinessApi.TextRecords | whatsapp-business-api.js:46-53 | the records a series of dispatched messages saves: one per text message, in order |
| BusinessApi.ChangesMessagesAppend | whatsapp-business-api.js:190-196 | the messages of consecutive changes come one block after the other |
| BusinessApi.EntriesMessagesAppend | whatsapp-business-api.js:189-197 | the messages of an earlier entry are all dispatched before a later entry's |
| BusinessApi.SkippedChange | whatsapp-business-api.js:191 | a change without `value.messages` dispatches nothing |
| BusinessApi.TextRecordsCount | whatsapp-business-api.js:46-53 | at most one record per message; one each when all are text; none when none is |
| BusinessApi.TextRecordsAppend | whatsapp-business-api.js:189-197 | the records of consecutive groups of messages come in group order |
| BusinessApi.WhatsAppBusinessApi.constructor | whatsapp-business-api.js:12-23 | the settings are taken from the environment and the API version is `v18.0` |
| BusinessApi.WhatsAppBusinessApi.VerifyWebhook | whatsapp-business-api.js:26-39 | 200 with the challenge exactly when the mode is `subscribe` and a truthy token equals the configured one; 403 when both are truthy but do not pass; no response when either is missing |
| BusinessApi.WhatsAppBusinessApi.SaveIncomingMessage | whatsapp-business-api.js:146-175 | prepends an unanswered record stamped `whatsapp_business_api` and keeps 100 records |
| BusinessApi.WhatsAppBusinessApi.ProcessIncomingMessage | whatsapp-business-api.js:42-67 | a message that is not text causes no save and no send and resolves to nothing; a text message is saved and answered; the result is success with exactly the text sent, or failure with the send's error; users and histories are untouched |
| BusinessApi.WhatsAppBusinessApi.DispatchMessages | whatsapp-business-api.js:192-194 | the messages of one change are dispatched in order, each text message saving its record |
| BusinessApi.WhatsAppBusinessApi.DispatchChanges | whatsapp-business-api.js:190-196 | the changes of one entry are dispatched in order; the dispatched messages are those of the changes that carry messages |
| BusinessApi.WhatsAppBusinessApi.ReceiveWebhook | whatsapp-business-api.js:185-203 | 404 and no effect unless the object is `whatsapp_business_account`; otherwise 200 `EVENT_RECEIVED`, every message dispatched in entry, change, message order, and one record saved per text message in that order |

## Left out

- The Gemini calls (`bot/index.js:134-141`, `whatsapp-business-api.js:79-87`, `check-models.js`) are left out. They are network calls to an external provider, so the model takes their outcome as a parameter. The prompt built at `whatsapp-business-api.js:83` and the system instruction at `bot/index.js:136` are not modelled. The bot's handler records only that the AI was asked with the message.
- The venom session, `sendText`, axios `sendMessage`, Express routing, `listen` and the manual send endpoint (`whatsapp-business-api.js:206-214`) are left out. They are transport. A send is an outcome that either resolves or throws.
- `fs`, paths and `JSON.parse`/`stringify` are replaced by in-memory documents. A failed write is not modelled: a readable document is always written back.
- The records of one handler run share one clock reading. In the webhook, all messages of one notification share one clock reading. The millisecond-level differences between the source's separate `Date.now()` and `new Date()` calls are not modelled.
- Records are not assumed to have unique ids.
- Store.Touched, Store.TouchedManyCounts, Store.DataStore.TouchUser: ids that name an inherited member of a plain JavaScript object are not modelled. These are `constructor`, `toString`, `valueOf`, `hasOwnProperty`, `isPrototypeOf`, `propertyIsEnumerable`, `toLocaleString`, `__proto__`, `__defineGetter__`, `__defineSetter__`, `__lookupGetter__` and `__lookupSetter__`. When such an id is not already stored, the source's lookup (`bot/index.js:59`, `bot-simulado.js:124`) finds the inherited value and creates no entry. The count is then written onto that inherited object and never saved. The model instead creates a `Nuevo` user with count 1. The simulator can reach this, since its user name is whatever the caller passes.
- Text.Lower: lower-cases ASCII and Latin-1 capitals only. Other Unicode case mappings are not modelled.
- The source's `includes` and `toLowerCase` work on UTF-16 code units, but the model works on characters. The two agree for every string the tables and examples use.
- Malformed notifications are not modelled. An `entry`, `changes` or `messages` value that is not an array, or an entry or change that is null, makes the POST handler throw. A null or undefined message makes `processIncomingMessage` resolve to `{success: false, error}` without saving anything. A message that is a primitive has no `type`, so it is ignored like any message that is not text.
- The JSON shape of the rules document is not modelled either. An entry whose `palabras_clave` is not an array is `None`. An entry that is null, or keys that `Object.entries` would reorder because they look like integers, are not modelled.
- The part of each webhook dispatch after its first wait is not modelled inside `ReceiveWebhook`. This covers generating the reply and sending it. `ProcessIncomingMessage` models one whole dispatch on its own.
- Simulation scheduling is left out. This covers `iniciarSimulacionAutomatica`, `probarBotSimulado`, `setInterval` and `Math.random`.
- Bot startup is left out: configuration loading, the `process.exit` gates and session naming (`bot/index.js:11-21,168-199`).
- The constructor's warning about missing settings is console output and is left out.
- Concurrency is left out. Each document update is one synchronous read-modify-write, so handlers in one process interleave only at their awaits (`bot/index.js:224,232`, `whatsapp-business-api.js:56,59`). The model runs one handler at a time, so it does not capture another handler's updates landing between one handler's steps. Nor does it capture updates lost when separate processes share the data directory.
- `panel/app.js` and `verificar-deploy.js` hold no decision logic and are not part of this model.
- `console` logging is left out everywhere.
- `activo` in the simulator is never set after construction, in the source as in the model.
