/** Bounded conversation memory, and the unbounded history it is a window on. */
module SessionMemory {
  import opened Prelude
  import opened Texts
  import opened Keys
  import opened Redis
  import Json = JsonStrings

  datatype MemoryMessage = MemoryMessage(role: Text, content: Text)

  datatype MemoryError = MessageTooLarge | InvalidPayload | StoreFailed(error: StoreError)

  datatype MemoryConfig = MemoryConfig(ttl: int, maxMessages: int, maxMessageBytes: int)

  datatype MemoryConfigError = BadSessionTtl | BadMaxMessages | BadMaxMessageBytes

  function Rejection(cfg: MemoryConfig): Option<MemoryConfigError> {
    if cfg.ttl <= 0 then Some(BadSessionTtl)
    else if cfg.maxMessages <= 0 then Some(BadMaxMessages)
    else if cfg.maxMessageBytes <= 0 then Some(BadMaxMessageBytes)
    else None
  }

  predicate ValidConfig(cfg: MemoryConfig) {
    cfg.ttl > 0 && cfg.maxMessages > 0 && cfg.maxMessageBytes > 0
  }

  function Payload(m: MemoryMessage): string {
    Json.MessagePayload(m.role, m.content)
  }

  predicate Fits(cfg: MemoryConfig, m: MemoryMessage) {
    |Payload(m)| <= cfg.maxMessageBytes
  }

  function DecodeAll(values: seq<string>): Result<seq<MemoryMessage>, MemoryError> {
    if values == [] then Ok([])
    else match (DecodeAll(values[..|values| - 1]), Json.ReadMessagePayload(values[|values| - 1]))
         case (Ok(messages), Some((role, content))) => Ok(messages + [MemoryMessage(role, content)])
         case (Ok(_), None) => Err(InvalidPayload)
         case (Err(e), _) => Err(e)
  }

  function Append(
    ks: Keyspace, cfg: MemoryConfig, session: string, m: MemoryMessage, now: nat): (Keyspace, Result<(), MemoryError>) {
    if !Fits(cfg, m) then (ks, Err(MessageTooLarge))
    else
      var (after, r) := Appended(ks, SessionMemoryKey(session), Payload(m), cfg.maxMessages, cfg.ttl, now);
      (after, if r.Ok? then Ok(()) else Err(StoreFailed(r.error)))
  }

  function GetRecent(
    ks: Keyspace, cfg: MemoryConfig, session: string, now: nat): Result<seq<MemoryMessage>, MemoryError> {
    match Recent(ks, SessionMemoryKey(session), cfg.maxMessages, now)
    case Err(e) => Err(StoreFailed(e))
    case Ok(values) => DecodeAll(values)
  }

  function Clear(ks: Keyspace, session: string, now: nat): (Keyspace, nat) {
    Deleted(ks, SessionMemoryKey(session), now)
  }

  class AgentMemory {
    const store: RedisSessionMemoryAdapter
    const cfg: MemoryConfig

    constructor (store: RedisSessionMemoryAdapter, cfg: MemoryConfig)
      requires Rejection(cfg) == None
      ensures this.store == store && this.cfg == cfg
    {
      this.store, this.cfg := store, cfg;
    }

    static method Create(
      store: RedisSessionMemoryAdapter, cfg: MemoryConfig)
      returns (r: Result<AgentMemory, MemoryConfigError>)
      ensures r.Ok? <==> ValidConfig(cfg)
      ensures r.Err? ==> Rejection(cfg) == Some(r.error)
      ensures r.Ok? ==> fresh(r.value) && r.value.store == store && r.value.cfg == cfg
    {
      var rejected := Rejection(cfg);
      if rejected.Some? {
        return Err(rejected.value);
      }
      var memory := new AgentMemory(store, cfg);
      return Ok(memory);
    }

    method AppendMessage(session: string, m: MemoryMessage) returns (r: Result<(), MemoryError>)
      modifies store.client`keys
      ensures var (after, result) := Append(old(store.client.keys), cfg, session, m, store.client.now);
              store.client.keys == after && r == result
      ensures r == Err(MessageTooLarge) <==> |Json.MessagePayload(m.role, m.content)| > cfg.maxMessageBytes
    {
      var payload := Payload(m);
      if |payload| > cfg.maxMessageBytes {
        return Err(MessageTooLarge);
      }
      var done := store.AppendBounded(SessionMemoryKey(session), payload, cfg.maxMessages, cfg.ttl);
      r := if done.Ok? then Ok(()) else Err(StoreFailed(done.error));
    }

    method RecentMessages(session: string) returns (r: Result<seq<MemoryMessage>, MemoryError>)
      ensures r == GetRecent(store.client.keys, cfg, session, store.client.now)
    {
      hide Json.ReadMessagePayload;
      var values := store.GetRecent(SessionMemoryKey(session), cfg.maxMessages);
      if values.Err? {
        return Err(StoreFailed(values.error));
      }
      var messages: seq<MemoryMessage> := [];
      for i := 0 to |values.value|
        invariant DecodeAll(values.value[..i]) == Ok(messages)
      {
        assert values.value[..i + 1][..i] == values.value[..i];
        var data := Json.ReadMessagePayload(values.value[i]);
        if data.None? {
          FailureSticks(values.value, i + 1);
          return Err(InvalidPayload);
        }
        messages := messages + [MemoryMessage(data.value.0, data.value.1)];
      }
      assert values.value[..|values.value|] == values.value;
      return Ok(messages);
    }

    method ClearSession(session: string) returns (n: nat)
      modifies store.client`keys
      ensures var (after, result) := Clear(old(store.client.keys), session, store.client.now);
              store.client.keys == after && n == result
    {
      n := store.Delete(SessionMemoryKey(session));
    }
  }

  lemma {:induction false} FailureSticks(values: seq<string>, i: nat)
    requires i <= |values| && DecodeAll(values[..i]).Err?
    ensures DecodeAll(values) == DecodeAll(values[..i])
    decreases |values|
  {
    hide Json.ReadMessagePayload;
    if i == |values| {
      assert values[..i] == values;
    } else {
      var init := values[..|values| - 1];
      assert init[..i] == values[..i];
      FailureSticks(init, i);
    }
  }

  // ---------------------------------------------------------------------------
  // The unbounded history
  // ---------------------------------------------------------------------------

  /** What happens to the store; other families' writes may happen in between. */
  datatype Event =
    | Appends(session: string, message: MemoryMessage, at: nat)
    | Clears(session: string, at: nat)
    | Foreign(key: string, entry: Option<Entry>, at: nat)

  ghost predicate Admissible(e: Event) {
    e.Foreign? ==> forall s :: e.key != SessionMemoryKey(s)
  }

  ghost predicate History(events: seq<Event>) {
    && (forall i | 0 <= i < |events| :: Admissible(events[i]))
    && (forall i, j | 0 <= i < j < |events| :: events[i].at <= events[j].at)
  }

  function Apply(ks: Keyspace, cfg: MemoryConfig, e: Event): Keyspace {
    match e
    case Appends(session, m, at) => Append(ks, cfg, session, m, at).0
    case Clears(session, at) => Clear(ks, session, at).0
    case Foreign(key, Some(entry), _) => ks[key := entry]
    case Foreign(key, None, _) => ks - {key}
  }

  function Play(cfg: MemoryConfig, events: seq<Event>): Keyspace {
    if events == [] then map[] else Apply(Play(cfg, events[..|events| - 1]), cfg, events[|events| - 1])
  }

  /** Everything the session said since its latest clear, or since it last was silent for a whole TTL.
      Read backwards from `now`: a gap of a TTL or a clear ends it; oversized messages do not exist. */
  function Remembered(cfg: MemoryConfig, events: seq<Event>, session: string, now: nat): seq<MemoryMessage> {
    if events == [] then []
    else
      var before, e := events[..|events| - 1], events[|events| - 1];
      match e
      case Appends(s, m, at) =>
        if s != session || !Fits(cfg, m) then Remembered(cfg, before, session, now)
        else if now >= at + 1000 * cfg.ttl then []
        else Remembered(cfg, before, session, at) + [m]
      case Clears(s, _) => if s == session then [] else Remembered(cfg, before, session, now)
      case Foreign(_, _, _) => Remembered(cfg, before, session, now)
  }

  function Payloads(messages: seq<MemoryMessage>): seq<string> {
    seq(|messages|, i requires 0 <= i < |messages| => Payload(messages[i]))
  }

  function Tail(cfg: MemoryConfig, events: seq<Event>, session: string, now: nat): seq<string>
    requires cfg.maxMessages > 0
  {
    LastN(Payloads(Remembered(cfg, events, session, now)), cfg.maxMessages)
  }

  /** The live list is the tail of what is remembered; an empty one means no live entry. */
  ghost predicate Agrees(cfg: MemoryConfig, ks: Keyspace, events: seq<Event>, session: string, now: nat)
    requires cfg.maxMessages > 0
  {
    var tail := Tail(cfg, events, session, now);
    Live(ks, SessionMemoryKey(session), now) == if tail == [] then None else Some(Items(tail))
  }

  lemma LastNAppends<T>(xs: seq<T>, x: T, n: nat)
    requires n > 0
    ensures LastN(LastN(xs, n) + [x], n) == LastN(xs + [x], n)
  {
  }

  lemma AppendAgrees(
    cfg: MemoryConfig, ks: Keyspace, events: seq<Event>, session: string, m: MemoryMessage, at: nat, later: nat)
    requires ValidConfig(cfg) && Fits(cfg, m) && at <= later
    requires Agrees(cfg, ks, events, session, at)
    ensures Append(ks, cfg, session, m, at).1.Ok?
    ensures Agrees(cfg, Append(ks, cfg, session, m, at).0, events + [Appends(session, m, at)], session, later)
  {
    hide SessionMemoryKey, Payload;
    var more := events + [Appends(session, m, at)];
    assert more[..|events|] == events;
    var kept, n := Remembered(cfg, events, session, at), cfg.maxMessages;
    assert Remembered(cfg, more, session, later) == if later >= at + 1000 * cfg.ttl then [] else kept + [m];
    assert Payloads(kept + [m]) == Payloads(kept) + [Payload(m)];
    LastNAppends(Payloads(kept), Payload(m), n);
    var tail := LastN(Payloads(kept), n);
    assert tail == [] ==> [Payload(m)] == LastN(tail + [Payload(m)], n);
    var appended := Append(ks, cfg, session, m, at).0;
    assert appended[SessionMemoryKey(session)].value == Items(LastN(tail + [Payload(m)], n));
  }

  lemma SameTail(cfg: MemoryConfig, events: seq<Event>, e: Event, session: string, now: nat)
    requires cfg.maxMessages > 0
    requires e.Foreign? || e.session != session || (e.Appends? && !Fits(cfg, e.message))
    ensures Tail(cfg, events + [e], session, now) == Tail(cfg, events, session, now)
  {
    assert (events + [e])[..|events|] == events;
  }

  /** An event that does not concern the session's key leaves its live value alone. */
  lemma UntouchedKey(ks: Keyspace, ks': Keyspace, session: string, at: nat)
    requires var k := SessionMemoryKey(session); (k in ks <==> k in ks') && (k in ks ==> ks'[k] == ks[k])
    ensures Live(ks', SessionMemoryKey(session), at) == Live(ks, SessionMemoryKey(session), at)
  {
  }

  lemma {:induction false} StoreIsTail(cfg: MemoryConfig, events: seq<Event>, session: string, now: nat)
    requires ValidConfig(cfg) && History(events) && (events != [] ==> events[|events| - 1].at <= now)
    ensures Agrees(cfg, Play(cfg, events), events, session, now)
  {
    hide SessionMemoryKey, Payload, Append, Clear;
    if events != [] {
      var before, e := events[..|events| - 1], events[|events| - 1];
      assert before + [e] == events;
      var ks, ks' := Play(cfg, before), Play(cfg, events);
      if e.Appends? && e.session == session && Fits(cfg, e.message) {
        StoreIsTail(cfg, before, session, e.at);
        AppendAgrees(cfg, ks, before, session, e.message, e.at, now);
      } else if e.Clears? && e.session == session {
        ClearedIsGone(ks, session, e.at);
      } else {
        StoreIsTail(cfg, before, session, now);
        OthersLeaveKey(cfg, ks, e, session);
        UntouchedKey(ks, ks', session, now);
        SameTail(cfg, before, e, session, now);
      }
    }
  }

  lemma ClearedIsGone(ks: Keyspace, session: string, at: nat)
    ensures SessionMemoryKey(session) !in Clear(ks, session, at).0
  {
  }

  lemma OthersLeaveKey(cfg: MemoryConfig, ks: Keyspace, e: Event, session: string)
    requires Admissible(e)
    requires e.Foreign? || e.session != session || (e.Appends? && !Fits(cfg, e.message))
    ensures var k, ks' := SessionMemoryKey(session), Apply(ks, cfg, e);
            (k in ks <==> k in ks') && (k in ks ==> ks'[k] == ks[k])
  {
    hide SessionMemoryKey, Payload;
    if !e.Foreign? && SessionMemoryKey(e.session) == SessionMemoryKey(session) {
      SessionMemoryKeyInjective(e.session, session);
    }
  }

  /** A message as it comes back from storage. */
  function RereadMessage(m: MemoryMessage): MemoryMessage {
    MemoryMessage(Json.Reread(m.role), Json.Reread(m.content))
  }

  function RereadAll(messages: seq<MemoryMessage>): seq<MemoryMessage> {
    seq(|messages|, i requires 0 <= i < |messages| => RereadMessage(messages[i]))
  }

  lemma {:induction false} DecodesBack(messages: seq<MemoryMessage>)
    ensures DecodeAll(Payloads(messages)) == Ok(RereadAll(messages))
  {
    hide Json.ReadMessagePayload, Json.MessagePayload, Json.Reread;
    if messages == [] {
      assert Payloads(messages) == [] && RereadAll(messages) == [];
    } else {
      var n := |messages| - 1;
      DecodesBack(messages[..n]);
      assert Payloads(messages)[..n] == Payloads(messages[..n]);
      Json.MessagePayloadReadsBack(messages[n].role, messages[n].content);
      assert RereadAll(messages) == RereadAll(messages[..n]) + [RereadMessage(messages[n])];
    }
  }

  /** At any time, `get_recent` returns exactly the last `maxMessages` of the messages remembered, whatever
      other sessions and other users of the store did. */
  lemma RecentIsLastOfHistory(cfg: MemoryConfig, events: seq<Event>, session: string, now: nat)
    requires ValidConfig(cfg) && History(events) && (events != [] ==> events[|events| - 1].at <= now)
    ensures GetRecent(Play(cfg, events), cfg, session, now) ==
            Ok(RereadAll(LastN(Remembered(cfg, events, session, now), cfg.maxMessages)))
  {
    hide Json.ReadMessagePayload, Json.MessagePayload, Json.Reread, SessionMemoryKey;
    StoreIsTail(cfg, events, session, now);
    var kept, n := Remembered(cfg, events, session, now), cfg.maxMessages;
    assert LastN(Payloads(kept), n) == Payloads(LastN(kept, n));
    DecodesBack(LastN(kept, n));
    assert LastN(Tail(cfg, events, session, now), n) == Tail(cfg, events, session, now);
    assert Payloads(LastN(kept, n)) == [] ==> RereadAll(LastN(kept, n)) == [];
  }

  /** A message without split surrogate pairs comes back unchanged. */
  lemma MessageSurvives(m: MemoryMessage)
    ensures RereadMessage(m) == m <==> Json.NoSplitPair(m.role) && Json.NoSplitPair(m.content)
  {
    hide Json.Reread, Json.NoSplitPair;
    Json.RereadIsIdentity(m.role);
    Json.RereadIsIdentity(m.content);
  }

  // ---------------------------------------------------------------------------
  // Without the model's own words
  // ---------------------------------------------------------------------------

  lemma RejectionLaw(cfg: MemoryConfig)
    ensures Rejection(cfg) == Some(BadSessionTtl) <==> cfg.ttl <= 0
    ensures Rejection(cfg) == Some(BadMaxMessages) <==> cfg.ttl > 0 >= cfg.maxMessages
    ensures Rejection(cfg) == Some(BadMaxMessageBytes) <==> cfg.ttl > 0 && cfg.maxMessages > 0 >= cfg.maxMessageBytes
  {
  }

  /** A message is refused as too large if and only if its payload is, and then changes nothing; any other message
      is appended unless the key holds something that is no list. */
  lemma AppendLaw(ks: Keyspace, cfg: MemoryConfig, session: string, m: MemoryMessage, now: nat)
    requires ValidConfig(cfg)
    ensures var (after, r), size := Append(ks, cfg, session, m, now), |Json.MessagePayload(m.role, m.content)|;
            && (r == Err(MessageTooLarge) <==> size > cfg.maxMessageBytes)
            && (size > cfg.maxMessageBytes ==> after == ks)
            && (size <= cfg.maxMessageBytes ==>
                  (r == Ok(()) <==> match Live(ks, SessionMemoryKey(session), now)
                                    case None => true
                                    case Some(value) => value.Items?))
  {
    hide Json.MessagePayload, SessionMemoryKey;
  }

  datatype Utterance = Utterance(message: MemoryMessage, at: nat)

  predicate Speaks(cfg: MemoryConfig, e: Event, session: string) {
    && e.Appends? && e.session == session
    && |Json.MessagePayload(e.message.role, e.message.content)| <= cfg.maxMessageBytes
  }

  /** What was said in the session, oversized messages left out. */
  function Said(cfg: MemoryConfig, events: seq<Event>, session: string): seq<Utterance> {
    if events == [] then []
    else
      var e := events[|events| - 1];
      Said(cfg, events[..|events| - 1], session) +
      (if Speaks(cfg, e, session) then [Utterance(e.message, e.at)] else [])
  }

  /** The conversation is going on at `now`: no clear, and never silent for a TTL. */
  ghost predicate GoesOn(cfg: MemoryConfig, talk: seq<Event>, session: string, now: nat) {
    var said := Said(cfg, talk, session);
    && (forall e | e in talk :: e.Clears? ==> e.session != session)
    && (forall i | 0 <= i < |said| - 1 :: said[i + 1].at < said[i].at + 1000 * cfg.ttl)
    && (said != [] ==> now < said[|said| - 1].at + 1000 * cfg.ttl)
  }

  /** Nothing said in the past counts at `start` any more: it ends with a clear, or is a TTL ago. */
  ghost predicate Over(cfg: MemoryConfig, past: seq<Event>, session: string, start: nat) {
    || (past != [] && past[|past| - 1].Clears? && past[|past| - 1].session == session)
    || (forall e | e in past :: e.at + 1000 * cfg.ttl <= start)
  }

  function StartOf(cfg: MemoryConfig, talk: seq<Event>, session: string, now: nat): nat {
    var said := Said(cfg, talk, session);
    if said == [] then now else said[0].at
  }

  lemma {:induction false} OverIsForgotten(cfg: MemoryConfig, past: seq<Event>, session: string, start: nat)
    requires Over(cfg, past, session, start)
    ensures Remembered(cfg, past, session, start) == []
  {
    hide Payload;
    if past != [] {
      var e, before := past[|past| - 1], past[..|past| - 1];
      assert e in past;
      if !(e.Clears? && e.session == session) {
        assert forall d | d in before :: d in past;
        OverIsForgotten(cfg, before, session, start);
      }
    }
  }

  function Messages(said: seq<Utterance>): seq<MemoryMessage> {
    seq(|said|, i requires 0 <= i < |said| => said[i].message)
  }

  lemma SaidGrows(cfg: MemoryConfig, talk: seq<Event>, e: Event, session: string)
    ensures Said(cfg, talk + [e], session) ==
            if Speaks(cfg, e, session) then Said(cfg, talk, session) + [Utterance(e.message, e.at)]
            else Said(cfg, talk, session)
  {
    hide Json.MessagePayload;
    assert (talk + [e])[..|talk|] == talk;
  }

  lemma RememberedGrows(cfg: MemoryConfig, events: seq<Event>, e: Event, session: string, now: nat)
    requires !(e.Clears? && e.session == session) && (Speaks(cfg, e, session) ==> now < e.at + 1000 * cfg.ttl)
    ensures Remembered(cfg, events + [e], session, now) ==
            if Speaks(cfg, e, session) then Remembered(cfg, events, session, e.at) + [e.message]
            else Remembered(cfg, events, session, now)
  {
    hide Json.MessagePayload;
    assert (events + [e])[..|events|] == events;
  }

  /** When the conversation stood before `e`, which was said or done last. */
  function Before(cfg: MemoryConfig, e: Event, session: string, now: nat): nat {
    if Speaks(cfg, e, session) then e.at else now
  }

  /** A conversation that goes on did so before its last event, and began at the same time. */
  lemma WentOn(cfg: MemoryConfig, talk: seq<Event>, e: Event, session: string, now: nat)
    requires GoesOn(cfg, talk + [e], session, now)
    ensures GoesOn(cfg, talk, session, Before(cfg, e, session, now))
    ensures StartOf(cfg, talk, session, Before(cfg, e, session, now)) == StartOf(cfg, talk + [e], session, now)
    ensures !(e.Clears? && e.session == session) && (Speaks(cfg, e, session) ==> now < e.at + 1000 * cfg.ttl)
  {
    SaidGrows(cfg, talk, e, session);
    hide Json.MessagePayload, Said;
    var said, less := Said(cfg, talk + [e], session), Said(cfg, talk, session);
    assert (talk + [e])[|talk|] == e;
    forall d | d in talk
      ensures d.Clears? ==> d.session != session
    {
      assert d in talk + [e];
    }
    forall i | 0 <= i < |less| - 1
      ensures less[i + 1].at < less[i].at + 1000 * cfg.ttl
    {
      assert less[i] == said[i] && less[i + 1] == said[i + 1];
    }
    if Speaks(cfg, e, session) && less != [] {
      var i := |less| - 1;
      assert said[i] == less[i] && said[i + 1].at == e.at;
    }
  }

  lemma {:induction false} TalkIsRemembered(
    cfg: MemoryConfig, past: seq<Event>, talk: seq<Event>, session: string, now: nat)
    requires GoesOn(cfg, talk, session, now) && Over(cfg, past, session, StartOf(cfg, talk, session, now))
    ensures Remembered(cfg, past + talk, session, now) == Messages(Said(cfg, talk, session))
    decreases |talk|
  {
    hide Over, Remembered, GoesOn, Json.MessagePayload;
    if talk == [] {
      assert past + talk == past;
      OverIsForgotten(cfg, past, session, now);
    } else {
      hide Said, StartOf;
      var e, before := talk[|talk| - 1], talk[..|talk| - 1];
      assert talk == before + [e] && past + talk == past + before + [e];
      WentOn(cfg, before, e, session, now);
      SaidGrows(cfg, before, e, session);
      RememberedGrows(cfg, past + before, e, session, now);
      TalkIsRemembered(cfg, past, before, session, Before(cfg, e, session, now));
      assert Speaks(cfg, e, session) ==>
          Messages(Said(cfg, talk, session)) == Messages(Said(cfg, before, session)) + [e.message];
    }
  }

  /** While a conversation goes on, `get_recent` returns the last messages said in it, at most the configured
      number, each as it reads back: nothing of what came before it, nothing oversized, nothing of others. */
  lemma RecentOfTalk(cfg: MemoryConfig, past: seq<Event>, talk: seq<Event>, session: string, now: nat)
    requires ValidConfig(cfg) && History(past + talk) && (forall e | e in past + talk :: e.at <= now)
    requires GoesOn(cfg, talk, session, now) && Over(cfg, past, session, StartOf(cfg, talk, session, now))
    ensures var r, said := GetRecent(Play(cfg, past + talk), cfg, session, now), Said(cfg, talk, session);
            && r.Ok?
            && |r.value| == (if |said| <= cfg.maxMessages then |said| else cfg.maxMessages)
            && forall i | 0 <= i < |r.value| ::
                 var m := said[|said| - |r.value| + i].message;
                 r.value[i] == MemoryMessage(Json.Reread(m.role), Json.Reread(m.content))
  {
    hide Payload, Json.ReadMessagePayload, RereadAll, Said, GoesOn, Over, StartOf, GetRecent, LastN, Play, Remembered;
    hide Messages, History, ValidConfig;
    PositiveMaximum(cfg);
    TalkIsRemembered(cfg, past, talk, session, now);
    RecentBy(cfg, past + talk, session, now);
    LastOnes(Said(cfg, talk, session), cfg.maxMessages);
  }

  lemma PositiveMaximum(cfg: MemoryConfig)
    requires ValidConfig(cfg)
    ensures cfg.maxMessages > 0
  {
  }

  lemma RecentBy(cfg: MemoryConfig, events: seq<Event>, session: string, now: nat)
    requires ValidConfig(cfg) && History(events) && forall e | e in events :: e.at <= now
    ensures cfg.maxMessages > 0
    ensures GetRecent(Play(cfg, events), cfg, session, now) ==
            Ok(RereadAll(LastN(Remembered(cfg, events, session, now), cfg.maxMessages)))
  {
    hide GetRecent, Play, RereadAll, LastN, Remembered, History;
    assert events != [] ==> events[|events| - 1] in events;
    RecentIsLastOfHistory(cfg, events, session, now);
  }

  lemma LastOnes(said: seq<Utterance>, n: int)
    requires n > 0
    ensures var r := RereadAll(LastN(Messages(said), n));
            && |r| == (if |said| <= n then |said| else n)
            && forall i | 0 <= i < |r| ::
                 var m := said[|said| - |r| + i].message;
                 r[i] == MemoryMessage(Json.Reread(m.role), Json.Reread(m.content))
  {
    hide LastN, Json.Reread;
    LastItems(Messages(said), n);
  }

  /** After a clear there is nothing to read until somebody speaks again. */
  lemma ClearedIsEmpty(ks: Keyspace, cfg: MemoryConfig, session: string, now: nat, later: nat)
    requires ValidConfig(cfg)
    ensures GetRecent(Clear(ks, session, now).0, cfg, session, later) == Ok([])
  {
    hide SessionMemoryKey;
  }

  /** Stored values are messages if and only if every one of them reads as one, and then they are those, in order;
      otherwise the payload is invalid. */
  lemma {:induction false} DecodeLaw(values: seq<string>)
    ensures var r := DecodeAll(values);
            && (r.Ok? <==> forall i | 0 <= i < |values| :: Json.ReadMessagePayload(values[i]).Some?)
            && (r.Err? ==> r.error == InvalidPayload)
            && (r.Ok? ==>
                  && |r.value| == |values|
                  && forall i | 0 <= i < |values| ::
                       Json.ReadMessagePayload(values[i]) == Some((r.value[i].role, r.value[i].content)))
  {
    hide Json.ReadMessagePayload;
    if values != [] {
      DecodeLaw(values[..|values| - 1]);
    }
  }

  /** A session's key that holds something else is the store's error, in reading and in appending. */
  lemma ForeignTypeLaw(ks: Keyspace, cfg: MemoryConfig, session: string, m: MemoryMessage, now: nat)
    requires ValidConfig(cfg) && |Json.MessagePayload(m.role, m.content)| <= cfg.maxMessageBytes
    requires Live(ks, SessionMemoryKey(session), now).Some? && !ks[SessionMemoryKey(session)].value.Items?
    ensures GetRecent(ks, cfg, session, now) == Err(StoreFailed(WrongType))
    ensures Append(ks, cfg, session, m, now).1 == Err(StoreFailed(WrongType))
  {
    hide Json.MessagePayload, SessionMemoryKey;
  }
}
