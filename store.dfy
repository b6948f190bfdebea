/** The persisted documents the handlers read, modify and write back: the
    incoming-message log, the users document and one history document per
    user, together with the rules document they only read. */
module Store {
  import opened Documents
  import opened Rules

  /** The incoming log keeps at most this many records. */
  const MaxIncoming := 100

  /** One reading of the wall clock: `Date.now()` and `new Date().toISOString()`. */
  datatype Clock = Clock(millis: int, iso: string)

  /** A record of `mensajes_entrantes.json`; `plataforma` is written only by
      the Business-API front end. */
  datatype Record = Record(
    id: int, usuario: string, mensaje: string, timestamp: string,
    respondido: bool, plataforma: Option<string>)

  /** An entry of `usuarios.json`; `totalMensajes` is `None` when the stored
      entry has no count. */
  datatype User = User(categoria: string, ultimoMensaje: string, totalMensajes: Option<int>)

  /** An entry of `historial/<usuario>.json`. */
  datatype HistoryEntry = HistoryEntry(timestamp: string, mensaje: string, respuesta: string)

  function Min(a: int, b: int): int {
    if a <= b then a else b
  }

  // ----- incoming log -----

  /** `unshift` followed by keeping the first 100 records: the new record is
      first, the previous records follow in their order, and the oldest one
      falls off when the log was full. */
  function Prepended(log: seq<Record>, rec: Record): (r: seq<Record>)
    ensures |r| == Min(|log| + 1, MaxIncoming)
    ensures r[0] == rec
    ensures forall i :: 1 <= i < |r| ==> r[i] == log[i - 1]
  {
    var l := [rec] + log;
    if |l| > MaxIncoming then l[..MaxIncoming] else l
  }

  /** The incoming document after one save: an unreadable document is left as
      it is (the handler catches the error and writes nothing), a missing one
      starts empty. */
  function WithIncoming(doc: Doc<seq<Record>>, rec: Record): Doc<seq<Record>> {
    if doc.Unreadable? then doc else Loaded(Prepended(ValueOr(doc, []), rec))
  }

  /** A series of saves of `recs`, oldest first. */
  function SaveMany(log: seq<Record>, recs: seq<Record>): seq<Record>
    decreases |recs|
  {
    if recs == [] then log else Prepended(SaveMany(log, recs[..|recs| - 1]), recs[|recs| - 1])
  }

  /** After any series of saves the log holds at most 100 records (once one
      save has happened), the newest record first and the saved records in
      reverse order of saving, followed by what was there before. */
  lemma {:induction false} SaveManyNewestFirst(log: seq<Record>, recs: seq<Record>)
    ensures |SaveMany(log, recs)| == if recs == [] then |log| else Min(|log| + |recs|, MaxIncoming)
    ensures forall i :: 0 <= i < Min(|recs|, MaxIncoming) ==> SaveMany(log, recs)[i] == recs[|recs| - 1 - i]
    ensures forall i :: |recs| <= i < |SaveMany(log, recs)| ==> SaveMany(log, recs)[i] == log[i - |recs|]
    decreases |recs|
  {
    if recs != [] {
      var front := recs[..|recs| - 1];
      var last := recs[|recs| - 1];
      SaveManyNewestFirst(log, front);
      var prev := SaveMany(log, front);
      var r := SaveMany(log, recs);
      assert r == Prepended(prev, last);
      assert |r| == Min(|prev| + 1, MaxIncoming);
      forall i | 0 <= i < Min(|recs|, MaxIncoming)
        ensures r[i] == recs[|recs| - 1 - i]
      {
        if i > 0 {
          assert r[i] == prev[i - 1];
          assert front[|front| - 1 - (i - 1)] == recs[|recs| - 1 - i];
        }
      }
      forall i | |recs| <= i < |r|
        ensures r[i] == log[i - |recs|]
      {
        assert r[i] == prev[i - 1];
      }
    }
  }

  /** The incoming document after a series of saves, oldest first. */
  function IncomingAfter(doc: Doc<seq<Record>>, recs: seq<Record>): Doc<seq<Record>>
    decreases |recs|
  {
    if recs == [] then doc else WithIncoming(IncomingAfter(doc, recs[..|recs| - 1]), recs[|recs| - 1])
  }

  /** A series of saves on the document is the same series on its contents;
      an unreadable document stays untouched. */
  lemma {:induction false} IncomingAfterIsSaveMany(doc: Doc<seq<Record>>, recs: seq<Record>)
    ensures doc.Unreadable? ==> IncomingAfter(doc, recs) == doc
    ensures !doc.Unreadable? && recs != [] ==>
      IncomingAfter(doc, recs) == Loaded(SaveMany(ValueOr(doc, []), recs))
    decreases |recs|
  {
    if recs != [] {
      IncomingAfterIsSaveMany(doc, recs[..|recs| - 1]);
    }
  }

  /** Proof step for the message loop: one unfolding of `IncomingAfter`. */
  lemma IncomingAfterSnoc(doc: Doc<seq<Record>>, recs: seq<Record>, r: Record)
    ensures IncomingAfter(doc, recs + [r]) == WithIncoming(IncomingAfter(doc, recs), r)
  {
    assert (recs + [r])[..|recs|] == recs;
  }

  /** Saving one series and then another is saving the two one after the other. */
  lemma {:induction false} IncomingAfterAppend(doc: Doc<seq<Record>>, a: seq<Record>, b: seq<Record>)
    ensures IncomingAfter(doc, a + b) == IncomingAfter(IncomingAfter(doc, a), b)
    decreases |b|
  {
    if b == [] {
      assert a + b == a;
    } else {
      var front := b[..|b| - 1];
      assert (a + b)[..|a + b| - 1] == a + front;
      assert (a + b)[|a + b| - 1] == b[|b| - 1];
      IncomingAfterAppend(doc, a, front);
    }
  }

  // ----- users -----

  /** `usuarios[usuario].totalMensajes || 0`. */
  function Count(u: User): int {
    match u.totalMensajes
    case Some(n) => n
    case None => 0
  }

  /** The users map after one message from `id`: an unseen id is created as
      `Nuevo` with one message; a known id keeps its category and counts one
      more message; the last-message time becomes `now`; no other entry changes. */
  function Touched(users: map<string, User>, id: string, now: Clock): (r: map<string, User>)
    ensures r.Keys == users.Keys + {id}
    ensures id !in users ==> r[id] == User("Nuevo", now.iso, Some(1))
    ensures id in users ==> r[id].categoria == users[id].categoria
    ensures id in users ==> r[id].totalMensajes == Some(Count(users[id]) + 1)
    ensures r[id].ultimoMensaje == now.iso
    ensures forall k :: k in users && k != id ==> r[k] == users[k]
  {
    var u := if id in users then users[id] else User("Nuevo", now.iso, Some(0));
    users[id := u.(ultimoMensaje := now.iso, totalMensajes := Some(Count(u) + 1))]
  }

  function WithUser(doc: Doc<map<string, User>>, id: string, now: Clock): Doc<map<string, User>> {
    if doc.Unreadable? then doc else Loaded(Touched(ValueOr(doc, map[]), id, now))
  }

  /** The users map after `|times|` messages from the same id. */
  function TouchedMany(users: map<string, User>, id: string, times: seq<Clock>): map<string, User>
    decreases |times|
  {
    if times == [] then users else Touched(TouchedMany(users, id, times[..|times| - 1]), id, times[|times| - 1])
  }

  /** Messages are counted one by one: after `n` messages from an id its count
      has grown by `n` from its stored count (from 0 for an unseen id), its
      category is kept (`Nuevo` for an unseen id), and no other user changes. */
  lemma {:induction false} TouchedManyCounts(users: map<string, User>, id: string, times: seq<Clock>)
    requires |times| > 0
    ensures id in TouchedMany(users, id, times)
    ensures TouchedMany(users, id, times)[id].totalMensajes ==
      Some((if id in users then Count(users[id]) else 0) + |times|)
    ensures TouchedMany(users, id, times)[id].categoria ==
      (if id in users then users[id].categoria else "Nuevo")
    ensures TouchedMany(users, id, times)[id].ultimoMensaje == times[|times| - 1].iso
    ensures forall k :: k in users && k != id ==> k in TouchedMany(users, id, times) && TouchedMany(users, id, times)[k] == users[k]
    decreases |times|
  {
    if |times| > 1 {
      TouchedManyCounts(users, id, times[..|times| - 1]);
    }
  }

  // ----- history -----

  /** The history documents after appending `e` for `id`: one entry is added
      at the end of that user's history (a missing history starts empty); an
      unreadable one and every other user's history are left as they are. */
  function WithHistory(h: map<string, Doc<seq<HistoryEntry>>>, id: string, e: HistoryEntry)
    : (r: map<string, Doc<seq<HistoryEntry>>>)
    ensures id in h && h[id].Unreadable? ==> r == h
    ensures !(id in h && h[id].Unreadable?) ==>
      var before := if id in h then ValueOr(h[id], []) else [];
      id in r && r[id].Loaded? && |r[id].value| == |before| + 1
      && r[id].value[..|before|] == before && r[id].value[|before|] == e
    ensures forall k :: k != id ==> (k in r <==> k in h) && (k in h ==> r[k] == h[k])
  {
    var d := if id in h then h[id] else Missing;
    if d.Unreadable? then h else h[id := Loaded(ValueOr(d, []) + [e])]
  }

  /** The documents of the data directory, held in memory. A history document
      that does not exist is a user id absent from `history`. */
  class DataStore {
    var rules: Doc<seq<Rule>>
    var incoming: Doc<seq<Record>>
    var users: Doc<map<string, User>>
    var history: map<string, Doc<seq<HistoryEntry>>>

    constructor (
      rules: Doc<seq<Rule>>, incoming: Doc<seq<Record>>,
      users: Doc<map<string, User>>, history: map<string, Doc<seq<HistoryEntry>>>)
      ensures this.rules == rules && this.incoming == incoming
      ensures this.users == users && this.history == history
    {
      this.rules := rules;
      this.incoming := incoming;
      this.users := users;
      this.history := history;
    }

    /** Read the log, `unshift` a record stamped with `now`, keep the first
      100 records and write the log back. */
    method SaveIncoming(usuario: string, mensaje: string, respondido: bool, plataforma: Option<string>, now: Clock)
      modifies this
      ensures incoming == WithIncoming(old(incoming), Record(now.millis, usuario, mensaje, now.iso, respondido, plataforma))
      ensures rules == old(rules) && users == old(users) && history == old(history)
    {
      if incoming.Unreadable? {
        return;
      }
      var mensajes := ValueOr(incoming, []);
      mensajes := [Record(now.millis, usuario, mensaje, now.iso, respondido, plataforma)] + mensajes;
      if |mensajes| > MaxIncoming {
        mensajes := mensajes[..MaxIncoming];
      }
      incoming := Loaded(mensajes);
    }

    /** Read the users document, create the entry for `usuario` if absent,
      stamp it and count one more message, and write the document back. */
    method TouchUser(usuario: string, now: Clock)
      modifies this
      ensures users == WithUser(old(users), usuario, now)
      ensures rules == old(rules) && incoming == old(incoming) && history == old(history)
    {
      if users.Unreadable? {
        return;
      }
      var usuarios := ValueOr(users, map[]);
      ghost var before := usuarios;
      if usuario !in usuarios {
        usuarios := usuarios[usuario := User("Nuevo", now.iso, Some(0))];
      }
      var u := usuarios[usuario];
      usuarios := usuarios[usuario := u.(ultimoMensaje := now.iso, totalMensajes := Some(Count(u) + 1))];
      assert usuarios == Touched(before, usuario, now);
      users := Loaded(usuarios);
    }

    /** Read the history of `usuario`, `push` one entry and write it back. */
    method AppendHistory(usuario: string, mensaje: string, respuesta: string, now: Clock)
      modifies this
      ensures history == WithHistory(old(history), usuario, HistoryEntry(now.iso, mensaje, respuesta))
      ensures rules == old(rules) && incoming == old(incoming) && users == old(users)
    {
      var doc := if usuario in history then history[usuario] else Missing;
      if doc.Unreadable? {
        return;
      }
      var historial := ValueOr(doc, []);
      historial := historial + [HistoryEntry(now.iso, mensaje, respuesta)];
      history := history[usuario := Loaded(historial)];
    }
  }
}
