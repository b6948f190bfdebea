/** The browser-session bot: how it chooses a reply (custom rule, then the
    AI, then its local table) and what its message handler records. */
module Bot {
  import opened Documents
  import opened Outcomes
  import opened Text
  import opened Rules
  import opened Fallback
  import opened Store

  /** The five-entry table the bot falls back on when the AI call fails. */
  const BotTable: seq<LocalEntry> := [
    LocalEntry("hola", "¡Hola! 👋 ¿En qué puedo ayudarte?"),
    LocalEntry("gracias", "¡De nada! 😊 ¿Necesitas algo más?"),
    LocalEntry("precio", "Para información de precios, por favor contacta a nuestro equipo."),
    LocalEntry("horario", "Nuestro horario de atención es de lunes a viernes de 9:00 a 18:00."),
    LocalEntry("ayuda", "Estoy aquí para ayudarte. ¿Qué necesitas saber?")
  ]

  /** `obtenerRespuestaIA`: the provider's text trimmed; when the call fails,
      the reply of the first of `hola`, `gracias`, `precio`, `horario`,
      `ayuda` found in the lower-cased message, otherwise the greeting, so
      that a failed call never yields an empty reply. */
  function ObtenerRespuestaIA(mensaje: string, ai: AiOutcome): (r: string)
    ensures ai.Ok? ==> r == Trim(ai.text)
    ensures ai.Fail? ==> r != ""
    ensures ai.Fail? ==> forall i :: FirstKey(BotTable, Lower(mensaje), i) ==> r == BotTable[i].respuesta
    ensures ai.Fail? && (forall i :: 0 <= i < |BotTable| ==> !Contains(Lower(mensaje), BotTable[i].palabra)) ==>
      r == Greeting
  {
    match ai
    case Ok(text) => Trim(text)
    case Fail => LocalReply(BotTable, mensaje)
  }

  /** The reply the handler sends: a truthy custom reply wins and the AI is
      not asked; a null or empty custom reply falls through to the AI. */
  function Respuesta(rules: Doc<seq<Rule>>, mensaje: string, ai: AiOutcome): (r: string)
    ensures Truthy(CustomReply(rules, mensaje)) ==> r == CustomReply(rules, mensaje).value
    ensures !Truthy(CustomReply(rules, mensaje)) ==> r == ObtenerRespuestaIA(mensaje, ai)
    ensures ai.Fail? ==> r != ""
  {
    var custom := CustomReply(rules, mensaje);
    if Truthy(custom) then custom.value else ObtenerRespuestaIA(mensaje, ai)
  }

  /** The fields of a venom message the handler reads. `isGroupMsg` is `None`
      when the field is absent. */
  datatype VenomMessage = VenomMessage(from: string, body: string, isGroupMsg: Option<bool>)

  /** The handler acts only on messages whose `isGroupMsg` is exactly `false`
      and that do not come from `status@broadcast`. */
  predicate Handled(m: VenomMessage) {
    m.isGroupMsg == Some(false) && m.from != "status@broadcast"
  }

  /** `message.from.replace('@c.us', '')`: an id without the suffix is kept
      as it is, and otherwise exactly the five characters of its first
      occurrence are dropped. */
  function Usuario(from: string): (r: string)
    ensures !Contains(from, "@c.us") ==> r == from
    ensures Contains(from, "@c.us") ==> |r| == |from| - 5
  {
    if Contains(from, "@c.us") then
      RemoveFirstFound(from, "@c.us");
      RemoveFirst(from, "@c.us")
    else
      RemoveFirstAbsent(from, "@c.us");
      RemoveFirst(from, "@c.us")
  }

  /** The externally visible actions of one run of the handler, in order. */
  datatype Step =
    | SaveIncoming
    | TouchUser
    | ReadRules
    | AskAi(prompt: string)
    | SendText(to: string, text: string)
    | SaveHistory

  /** The `client.onMessage` handler for one message. `now` is the clock
      before the reply is chosen and `later` the clock after the send. */
  method OnMessage(store: DataStore, m: VenomMessage, ai: AiOutcome, send: SendOutcome, now: Clock, later: Clock)
    returns (steps: seq<Step>)
    modifies store
    ensures !Handled(m) ==> steps == [] && unchanged(store)
    ensures Handled(m) ==>
      var usuario := Usuario(m.from);
      var reply := Respuesta(old(store.rules), m.body, ai);
      && steps == [SaveIncoming, TouchUser, ReadRules]
                  + (if Truthy(CustomReply(old(store.rules), m.body)) then [] else [AskAi(m.body)])
                  + [SendText(m.from, reply)]
                  + (if send.Delivered? then [SaveHistory] else [])
      && store.incoming == WithIncoming(old(store.incoming), Record(now.millis, usuario, m.body, now.iso, false, None))
      && store.users == WithUser(old(store.users), usuario, now)
      && store.history == (if send.Delivered? then WithHistory(old(store.history), usuario, HistoryEntry(later.iso, m.body, reply))
                           else old(store.history))
      && store.rules == old(store.rules)
  {
    if !Handled(m) {
      return [];
    }
    var usuario := Usuario(m.from);
    store.SaveIncoming(usuario, m.body, false, None, now);
    store.TouchUser(usuario, now);
    var respuesta: string;
    var consulted: seq<Step>;
    var custom := CustomReply(store.rules, m.body);
    if Truthy(custom) {
      respuesta, consulted := custom.value, [];
    } else {
      respuesta, consulted := ObtenerRespuestaIA(m.body, ai), [AskAi(m.body)];
    }
    steps := [SaveIncoming, TouchUser, ReadRules] + consulted + [SendText(m.from, respuesta)];
    if send.Threw? {
      assert steps + [] == steps;
      return;
    }
    store.AppendHistory(usuario, m.body, respuesta, later);
    steps := steps + [SaveHistory];
  }

  /** A phone id is stored without its `@c.us` suffix. */
  lemma UsuarioOfPhone(phone: string)
    requires '@' !in phone
    ensures Usuario(phone + "@c.us") == phone
  {
    RemoveFirstSuffix(phone, "@c.us");
  }

  /** A stored rule "saludo" with keyword "hola" answers "Hola, buen día"
      with its reply whatever the AI would have said. */
  lemma SaludoScenario(ai: AiOutcome)
    ensures Respuesta(Loaded([Rule("saludo", Some(["hola"]), "¡Hola!")]), "Hola, buen día", ai) == "¡Hola!"
  {
    var rules := [Rule("saludo", Some(["hola"]), "¡Hola!")];
    var m := Lower("Hola, buen día");
    assert m == "hola, buen día";
    assert "" + "hola" + ", buen día" == "hola, buen día";
    FoundBetween("", "hola", ", buen día");
    assert Selected(rules, m, 0);
  }

  /** With no custom reply and a failing AI, a message mentioning the price
      and neither a greeting nor thanks gets the table's price reply. */
  lemma PrecioReply(rules: Doc<seq<Rule>>, mensaje: string)
    requires !Truthy(CustomReply(rules, mensaje))
    requires Contains(Lower(mensaje), "precio")
    requires !Contains(Lower(mensaje), "hola") && !Contains(Lower(mensaje), "gracias")
    ensures Respuesta(rules, mensaje, Fail) == BotTable[2].respuesta
  {
    assert FirstKey(BotTable, Lower(mensaje), 2);
  }

  /** With no custom reply and a failing AI, a message holding none of the
      five keys gets the greeting. */
  lemma UnmatchedReply(rules: Doc<seq<Rule>>, mensaje: string)
    requires !Truthy(CustomReply(rules, mensaje))
    requires !Contains(Lower(mensaje), "hola") && !Contains(Lower(mensaje), "gracias")
    requires !Contains(Lower(mensaje), "precio") && !Contains(Lower(mensaje), "horario")
    requires !Contains(Lower(mensaje), "ayuda")
    ensures Respuesta(rules, mensaje, Fail) == Greeting
  {
  }

  const PriceQuestion := "¿Cuál es el precio?"

  lemma PriceQuestionLowered()
    ensures Lower(PriceQuestion) == "¿cuál es el precio?"
  {
  }

  lemma PriceQuestionKeys()
    ensures Contains("¿cuál es el precio?", "precio")
    ensures !Contains("¿cuál es el precio?", "hola") && !Contains("¿cuál es el precio?", "gracias")
  {
    assert "¿cuál es el " + "precio" + "?" == "¿cuál es el precio?";
    FoundBetween("¿cuál es el ", "precio", "?");
    NotIn("¿cuál es el precio?", "hola", 'h');
    NotIn("¿cuál es el precio?", "gracias", 'g');
  }

  /** With no rules and a failing AI, "¿Cuál es el precio?" gets the price reply. */
  lemma PrecioScenario()
    ensures Respuesta(Loaded([]), PriceQuestion, Fail) == BotTable[2].respuesta
  {
    PriceQuestionLowered();
    PriceQuestionKeys();
    PrecioReply(Loaded([]), PriceQuestion);
  }

  const GoodDay := "Buen día"

  lemma GoodDayLowered()
    ensures Lower(GoodDay) == "buen día"
  {
  }

  lemma GoodDayKeys()
    ensures !Contains("buen día", "hola") && !Contains("buen día", "gracias")
    ensures !Contains("buen día", "precio") && !Contains("buen día", "horario")
    ensures !Contains("buen día", "ayuda")
  {
    NotIn("buen día", "hola", 'h');
    NotIn("buen día", "gracias", 'g');
    NotIn("buen día", "precio", 'p');
    NotIn("buen día", "horario", 'h');
    NotIn("buen día", "ayuda", 'y');
  }

  /** With no rules and a failing AI, "Buen día" gets the greeting. */
  lemma UnmatchedScenario()
    ensures Respuesta(Loaded([]), GoodDay, Fail) == Greeting
  {
    GoodDayLowered();
    GoodDayKeys();
    UnmatchedReply(Loaded([]), GoodDay);
  }
}
