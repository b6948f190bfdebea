/** The simulator: the same handler without a WhatsApp connection and
    without the AI, answering from custom rules and then from its own
    seven-entry table. */
module Simulator {
  import opened Documents
  import opened Text
  import opened Rules
  import opened Fallback
  import opened Store

  const SeeYou := "¡Hasta luego! Que tengas un excelente día. 👋"

  /** The simulator's table: the bot's five keys (with its own greeting
      text) followed by two farewells sharing one reply. */
  const SimTable: seq<LocalEntry> := [
    LocalEntry("hola", "¡Hola! 👋 Soy tu asistente virtual. ¿En qué puedo ayudarte?"),
    LocalEntry("gracias", "¡De nada! 😊 ¿Necesitas algo más?"),
    LocalEntry("precio", "Para información de precios, por favor contacta a nuestro equipo."),
    LocalEntry("horario", "Nuestro horario de atención es de lunes a viernes de 9:00 a 18:00."),
    LocalEntry("ayuda", "Estoy aquí para ayudarte. ¿Qué necesitas saber?"),
    LocalEntry("adiós", SeeYou),
    LocalEntry("chau", SeeYou)
  ]

  /** `obtenerRespuestaLocal`: the reply of the first key of the table found
      in the lower-cased message, otherwise the greeting; never empty. */
  function ObtenerRespuestaLocal(mensaje: string): (r: string)
    ensures r != ""
    ensures forall i :: FirstKey(SimTable, Lower(mensaje), i) ==> r == SimTable[i].respuesta
    ensures (forall i :: 0 <= i < |SimTable| ==> !Contains(Lower(mensaje), SimTable[i].palabra)) ==>
      r == Greeting
  {
    SimRepliesNonEmpty();
    LocalReply(SimTable, mensaje)
  }

  lemma SimRepliesNonEmpty()
    ensures forall i :: 0 <= i < |SimTable| ==> SimTable[i].respuesta != ""
  {
  }

  /** The reply chosen for one message: a truthy custom reply, otherwise the
      local one. */
  function RespuestaSimulada(rules: Doc<seq<Rule>>, mensaje: string): (r: string)
    ensures Truthy(CustomReply(rules, mensaje)) ==> r == CustomReply(rules, mensaje).value
    ensures !Truthy(CustomReply(rules, mensaje)) ==> r == ObtenerRespuestaLocal(mensaje)
    ensures r != ""
  {
    var custom := CustomReply(rules, mensaje);
    if Truthy(custom) then custom.value else ObtenerRespuestaLocal(mensaje)
  }

  /** What `obtenerEstadisticas` reports. */
  datatype Estadisticas = Estadisticas(mensajesProcesados: int, activo: bool, modo: string)

  /** One simulator instance. `respuestas` is the sequence of replies it has
      given, kept only for the proof: the counter counts exactly those. */
  class BotSimulado {
    var activo: bool
    var mensajesProcesados: int
    ghost var respuestas: seq<string>

    ghost predicate Valid()
      reads this
    {
      mensajesProcesados == |respuestas|
      && forall i :: 0 <= i < |respuestas| ==> respuestas[i] != ""
    }

    /** A new simulator is inactive and has processed nothing. */
    constructor ()
      ensures Valid()
      ensures !activo && mensajesProcesados == 0 && respuestas == []
    {
      activo := false;
      mensajesProcesados := 0;
      respuestas := [];
    }

    /** `procesarMensajeSimulado`: record the incoming message as answered,
        count the user's message, pick the custom or the local reply, record
        it in the user's history and count one more processed message. */
    method ProcesarMensajeSimulado(store: DataStore, mensaje: string, usuario: string := "UsuarioDemo", now: Clock)
      returns (respuesta: string)
      requires Valid()
      modifies this, store
      ensures Valid()
      ensures respuesta == RespuestaSimulada(old(store.rules), mensaje)
      ensures respuesta != ""
      ensures mensajesProcesados == old(mensajesProcesados) + 1
      ensures respuestas == old(respuestas) + [respuesta]
      ensures activo == old(activo)
      ensures store.incoming == WithIncoming(old(store.incoming), Record(now.millis, usuario, mensaje, now.iso, true, None))
      ensures store.users == WithUser(old(store.users), usuario, now)
      ensures store.history == WithHistory(old(store.history), usuario, HistoryEntry(now.iso, mensaje, respuesta))
      ensures store.rules == old(store.rules)
    {
      store.SaveIncoming(usuario, mensaje, true, None, now);
      store.TouchUser(usuario, now);
      respuesta := RespuestaSimulada(store.rules, mensaje);
      store.AppendHistory(usuario, mensaje, respuesta, now);
      mensajesProcesados := mensajesProcesados + 1;
      respuestas := respuestas + [respuesta];
    }

    /** `obtenerEstadisticas`: the number of messages processed so far, the
        (never changed) active flag and the mode name. */
    function ObtenerEstadisticas(): (s: Estadisticas)
      reads this
      requires Valid()
      ensures s.mensajesProcesados == |respuestas|
      ensures s.activo == activo
      ensures s.modo == "simulación"
    {
      Estadisticas(mensajesProcesados, activo, "simulación")
    }
  }

  // ----- worked cases -----

  lemma HolaGraciasLowered()
    ensures Lower("Hola, gracias") == "hola, gracias"
  {
  }

  /** "Hola, gracias" holds two keys; with no rules the earlier one, `hola`, wins. */
  lemma HolaGraciasCase()
    ensures RespuestaSimulada(Missing, "Hola, gracias") == SimTable[0].respuesta
  {
    HolaGraciasLowered();
    assert "" + "hola" + ", gracias" == "hola, gracias";
    FoundBetween("", "hola", ", gracias");
    assert FirstKey(SimTable, "hola, gracias", 0);
  }

  lemma PrecioPorFavorLowered()
    ensures Lower("¿Precio por favor?") == "¿precio por favor?"
  {
  }

  lemma PrecioPorFavorKeys()
    ensures !Contains("¿precio por favor?", "hola") && !Contains("¿precio por favor?", "gracias")
  {
    NotIn("¿precio por favor?", "hola", 'h');
    NotIn("¿precio por favor?", "gracias", 'g');
  }

  lemma PrecioPorFavorMentionsPrice()
    ensures Contains("¿precio por favor?", "precio")
  {
    assert "¿" + "precio" + " por favor?" == "¿precio por favor?";
    FoundBetween("¿", "precio", " por favor?");
  }

  /** "¿Precio por favor?" with no rules gets the price reply. */
  lemma PrecioPorFavorCase()
    ensures RespuestaSimulada(Missing, "¿Precio por favor?") == SimTable[2].respuesta
  {
    PrecioPorFavorLowered();
    PrecioPorFavorKeys();
    PrecioPorFavorMentionsPrice();
    assert FirstKey(SimTable, "¿precio por favor?", 2);
  }

  lemma AdiosLowered()
    ensures Lower("Adiós") == "adiós"
  {
  }

  lemma AdiosKeys()
    ensures !Contains("adiós", "hola") && !Contains("adiós", "gracias")
    ensures !Contains("adiós", "precio") && !Contains("adiós", "horario")
    ensures !Contains("adiós", "ayuda") && Contains("adiós", "adiós")
  {
    NotIn("adiós", "hola", 'h');
    NotIn("adiós", "gracias", 'g');
    NotIn("adiós", "precio", 'p');
    NotIn("adiós", "horario", 'h');
    NotIn("adiós", "ayuda", 'y');
    assert "" + "adiós" + "" == "adiós";
    FoundBetween("", "adiós", "");
  }

  /** "Adiós" with no rules passes over the five bot keys and gets the farewell. */
  lemma AdiosCase()
    ensures RespuestaSimulada(Missing, "Adiós") == SeeYou
  {
    AdiosLowered();
    AdiosKeys();
    assert FirstKey(SimTable, "adiós", 5);
  }

  lemma HastaLuegoLowered()
    ensures Lower("Hasta luego") == "hasta luego"
  {
  }

  /** `h` occurs only at the start of "hasta luego", followed by `a`. */
  lemma HastaLuegoLacksHola()
    ensures !Contains("hasta luego", "hola")
  {
    NotInAfterOnlyStart("hasta luego", "hola", 0);
  }

  lemma HastaLuegoLacksMiddleKeys()
    ensures !Contains("hasta luego", "gracias") && !Contains("hasta luego", "precio")
    ensures !Contains("hasta luego", "horario")
  {
    NotIn("hasta luego", "gracias", 'r');
    NotIn("hasta luego", "precio", 'p');
    NotIn("hasta luego", "horario", 'r');
  }

  lemma HastaLuegoLacksLastKeys()
    ensures !Contains("hasta luego", "ayuda") && !Contains("hasta luego", "adiós")
    ensures !Contains("hasta luego", "chau")
  {
    NotIn("hasta luego", "ayuda", 'y');
    NotIn("hasta luego", "adiós", 'd');
    NotIn("hasta luego", "chau", 'c');
  }

  /** "Hasta luego" holds every letter of `hola` but not the word itself, and
      no other key either (there is no `hasta` key): with no rules it gets the
      generic greeting. */
  lemma HastaLuegoCase()
    ensures RespuestaSimulada(Missing, "Hasta luego") == Greeting
  {
    HastaLuegoLowered();
    HastaLuegoLacksHola();
    HastaLuegoLacksMiddleKeys();
    HastaLuegoLacksLastKeys();
  }
}
