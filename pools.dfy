/** The state and the side effects that both versions of the Star Trek
    Adventures pool tracker share: the persisted record of the Momentum
    and Threat pools, the chat message that reaches the handler, and the
    chat posts and handout writes it makes, kept as a log of events. */
module Pools {
  import opened Text

  /** A pool's value in host state. `NaN` stands for the not-a-number that
      `parseInt` or an arithmetic step on it produces. `_.isNumber` accepts
      it like any other number, so a pool can hold it and both versions
      print it. The record has no value for an undefined or null field. */
  datatype Value = Num(n: int) | NaN

  datatype Pool = Momentum | Threat

  /** `state[STATE_NAME]`: the record `{momentum, threat}`. */
  datatype PoolState = PoolState(momentum: Value, threat: Value)

  /** The record written on first start and by `reset`/`empty`. */
  const Zeroed: PoolState := PoolState(Num(0), Num(0))

  function Other(p: Pool): (q: Pool)
    ensures q != p
  {
    if p == Momentum then Threat else Momentum
  }

  /** `pools[poolName]`. */
  function Get(s: PoolState, p: Pool): Value {
    match p
    case Momentum => s.momentum
    case Threat => s.threat
  }

  /** `pools[poolName] = v`: the named field changes and the other one does not. */
  function Put(s: PoolState, p: Pool, v: Value): (r: PoolState)
    ensures Get(r, p) == v && Get(r, Other(p)) == Get(s, Other(p))
  {
    match p
    case Momentum => s.(momentum := v)
    case Threat => s.(threat := v)
  }

  /** Writing a pool back to the value it had undoes an earlier write to it. */
  lemma PutBack(s: PoolState, p: Pool, v: Value)
    ensures Put(Put(s, p, v), p, Get(s, p)) == s
  {
    if p == Momentum {
      assert Put(Put(s, p, v), p, Get(s, p)).momentum == s.momentum;
    }
  }

  /** The key of a pool in the record, also used in error messages. */
  function PoolName(p: Pool): string {
    match p
    case Momentum => "momentum"
    case Threat => "threat"
  }

  /** `value.toString(10)`, which both versions use in `_buildPoolHtml`
      for every value `_.isNumber` accepts: a numeral that reads back as
      the number, or `NaN` for the not-a-number. */
  function ValueText(v: Value): (r: string)
    ensures Excludes(r, '<')
    ensures ParseDecimal(r) == if v.Num? then Some(v.n) else None
    ensures v.NaN? ==> r == "NaN"
  {
    match v
    case Num(n) => DecimalRoundTrip(n); IntToDecimal(n)
    case NaN => assert ParseDecimal("NaN") == None; "NaN"
  }

  /** Two values that print alike are the same value. */
  lemma ValueTextDeterminesValue(v: Value, w: Value)
    requires ValueText(v) == ValueText(w)
    ensures v == w
  {
  }

  /** `a + b` on pool values: NaN absorbs everything. */
  function Plus(a: Value, b: Value): Value {
    if a.Num? && b.Num? then Num(a.n + b.n) else NaN
  }

  function Minus(a: Value, b: Value): Value {
    if a.Num? && b.Num? then Num(a.n - b.n) else NaN
  }

  /** Subtracting a number undoes adding it, and NaN stays NaN. */
  lemma MinusUndoesPlus(a: Value, b: Value)
    requires b.Num?
    ensures Minus(Plus(a, b), b) == a
  {
  }

  /** The player object behind `msg.playerid`, reduced to the two
      properties the tracker reads: its id and its display name. */
  datatype Player = Player(id: string, name: string)

  /** An inbound `chat:message`: its `type`, its `content`, and the player
      that `getObj('player', msg.playerid)` finds, if any. */
  datatype Message = Message(kind: string, content: string, sender: Option<Player>)

  /** One side effect of handling a message.
      - `Whisper`: `sendChat(_, '/w "<to>" ' + text)`, seen by one player;
      - `Broadcast`: `sendChat` by the script, seen by everyone;
      - `Announce`: `sendChat('player|' + id, text)`, spoken as the player;
      - `HandoutSet`: the handout's notes are overwritten with `text`;
      - `Error`: `_reportError`, whispered to `recipient` or public when there is no player. */
  datatype Event =
    | Whisper(to: string, text: string)
    | Broadcast(text: string)
    | Announce(speaker: Player, text: string)
    | HandoutSet(text: string)
    | Error(recipient: Option<string>, text: string)

  /** The new record and the events, in order, that one call produces. */
  datatype Outcome = Outcome(pools: PoolState, events: seq<Event>)

  /** An argument of the public setters, seen through `_.isNumber`. */
  datatype JsValue = Number(v: Value) | NotNumber

  /** `!arg1`: the operand is absent (`null`) or the empty token. */
  predicate Missing(arg: Option<string>) {
    arg.None? || arg.value == ""
  }

  /** The display name of the requester, when there is one. */
  function NameOf(player: Option<Player>): (r: Option<string>)
    ensures r.Some? <==> player.Some?
  {
    match player
    case None => None
    case Some(pl) => Some(pl.name)
  }

  /** `_reportError(player, msg)`: whispered to the requester, or posted
      publicly when there is none. */
  function ErrorReport(player: Option<Player>, text: string): Event {
    Error(NameOf(player), text)
  }

  /** `if (!_.isNumber(val)) return; pools[field] = val`. */
  function SetField(s: PoolState, p: Pool, val: JsValue): (r: PoolState)
    ensures val.NotNumber? ==> r == s
    ensures val.Number? ==> Get(r, p) == val.v
    ensures Get(r, Other(p)) == Get(s, Other(p))
  {
    if val.Number? then Put(s, p, val.v) else s
  }

  /** `if (!_.isNumber(val)) return; pools[field] += val`. */
  function ModField(s: PoolState, p: Pool, val: JsValue): (r: PoolState)
    ensures val.NotNumber? ==> r == s
    ensures val.Number? && val.v.Num? && Get(s, p).Num? ==> Get(r, p) == Num(Get(s, p).n + val.v.n)
    ensures val.Number? && (val.v.NaN? || Get(s, p).NaN?) ==> Get(r, p) == NaN
    ensures Get(r, Other(p)) == Get(s, Other(p))
  {
    if val.Number? then Put(s, p, Plus(Get(s, p), val.v)) else s
  }
}
