/** The fixed keyword-to-reply tables a front end falls back on, searched in
    insertion order, and the generic greeting when no key occurs. */
module Fallback {
  import opened Documents
  import opened Text

  datatype LocalEntry = LocalEntry(palabra: string, respuesta: string)

  /** The reply when no key of the table occurs in the message. */
  const Greeting := "¡Hola! Soy un asistente virtual. ¿En qué puedo ayudarte?"

  /** The `for ... of Object.entries(respuestas)` loop over a table, given the
      lower-cased message. Whatever it finds is the reply of an entry whose
      key occurs. */
  function LocalMatch(table: seq<LocalEntry>, m: string): (r: Option<string>)
    ensures r.Some? ==> exists i :: 0 <= i < |table| && Contains(m, table[i].palabra) && r.value == table[i].respuesta
    decreases |table|
  {
    if table == [] then None
    else if Contains(m, table[0].palabra) then Some(table[0].respuesta)
    else
      var rest := LocalMatch(table[1..], m);
      assert forall i :: 0 <= i < |table[1..]| ==> table[1..][i] == table[i + 1];
      rest
  }

  /** Entry `i` is the first whose key occurs in `m`. */
  ghost predicate FirstKey(table: seq<LocalEntry>, m: string, i: int) {
    0 <= i < |table| && Contains(m, table[i].palabra)
    && forall j :: 0 <= j < i ==> !Contains(m, table[j].palabra)
  }

  lemma {:induction false} LocalMatchSpec(table: seq<LocalEntry>, m: string)
    ensures LocalMatch(table, m).None? <==> forall i :: 0 <= i < |table| ==> !Contains(m, table[i].palabra)
    ensures forall i :: FirstKey(table, m, i) ==> LocalMatch(table, m) == Some(table[i].respuesta)
    decreases |table|
  {
    if table != [] && !Contains(m, table[0].palabra) {
      LocalMatchSpec(table[1..], m);
      forall i | FirstKey(table, m, i)
        ensures FirstKey(table[1..], m, i - 1)
      {
        forall j | 0 <= j < i - 1
          ensures !Contains(m, table[1..][j].palabra)
        {
          assert table[1..][j] == table[j + 1];
        }
      }
      forall i | 0 < i < |table|
        ensures table[i] == table[1..][i - 1]
      {
      }
    }
  }

  /** The local reply for a message: the reply of the first entry whose key
      occurs in the lower-cased message, otherwise the greeting. When every
      reply of the table is non-empty, so is the result. */
  function LocalReply(table: seq<LocalEntry>, msg: string): (r: string)
    ensures (forall i :: 0 <= i < |table| ==> !Contains(Lower(msg), table[i].palabra)) ==> r == Greeting
    ensures forall i :: FirstKey(table, Lower(msg), i) ==> r == table[i].respuesta
    ensures (forall i :: 0 <= i < |table| ==> table[i].respuesta != "") ==> r != ""
  {
    LocalMatchSpec(table, Lower(msg));
    match LocalMatch(table, Lower(msg))
    case Some(reply) => reply
    case None => Greeting
  }
}
