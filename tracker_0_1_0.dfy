/** Version 0.1.0 of the Star Trek Adventures pool tracker: commands
    `!momentum` and `!threat` only, actions `reset`, `add`, `sub` and
    `set`, a public post on a bare command, and no handout. The operand
    goes through `parseInt` and `_.isNumber` only, so a token without
    leading digits stores NaN in the pool. */
module Tracker010 {
  import opened Text
  import opened Pools
  import opened JsNumber

  // ---------------------------------------------------------------------
  // Constants
  // ---------------------------------------------------------------------

  /** The inline CSS of `style`. Only where each one is spliced into the
      markup matters here, so their texts are left unspecified. */
  const StyleBase: string
  const StyleBody: string
  const StyleQuantity: string
  const StyleQuantMomentum: string
  const StyleQuantThreat: string
  const StyleHeader: string
  const StyleSectionHead: string
  const StyleHeadSpan: string

  /** `CMD`, in declaration order. */
  const Commands: seq<string> := ["!momentum", "!threat"]

  const ActionAdd := "add"
  const ActionSub := "sub"
  const ActionSet := "set"
  const ActionReset := "reset"

  /** The texts of `_reportError`; the `set` one names momentum whichever pool was meant. */
  const MissingAddText := "Missing value to add/subtract from "
  const MissingSetText := "Missing value to set momentum to."
  const InvalidText := "Invalid value (Not a number!)"

  /** The pool a matched command selects in `_handleCmd`'s switch. */
  function CommandPool(command: string): Option<Pool> {
    if command == "!momentum" then Some(Momentum)
    else if command == "!threat" then Some(Threat)
    else None
  }

  /** The pool a message's text selects, if it is a command at all. */
  function Recognize(content: string): Option<Pool> {
    match FindPrefix(Commands, content)
    case None => None
    case Some(command) => CommandPool(command)
  }

  // ---------------------------------------------------------------------
  // Rendering
  // ---------------------------------------------------------------------

  /** `_buildPoolHtml` as three fixed pieces of markup around the two
      pool texts. */
  const HtmlOpen := "<div style=\"" + StyleBase + "\">" + "<div style=\"" + StyleBody + "\">" +
    "<div style=\"" + StyleQuantity + "\">" + "<span style=\"" + StyleQuantMomentum + "\">"
  const HtmlMid := "</span>" + "<span style=\"" + StyleQuantThreat + "\">"
  const HtmlClose := "</span>" + "</div>" + "<div style=\"" + StyleHeader + "\">" +
    "<div style=\"" + StyleSectionHead + "\"><span style=\"" + StyleHeadSpan + "\">Momentum / Threat</span></div>" +
    "</div>" + "</div>" + "</div>"

  /** `_buildPoolHtml`: the view `_chatPools` posts. */
  function BuildPoolHtml(s: PoolState): string {
    HtmlOpen + ValueText(s.momentum) + HtmlMid + ValueText(s.threat) + HtmlClose
  }

  // ---------------------------------------------------------------------
  // The pool mutator
  // ---------------------------------------------------------------------

  /** `parseInt(arg1)`; an absent operand is `parseInt(null)`, which reads
      the text `"null"` and gives NaN. */
  function OperandValue(arg1: Option<string>): Value {
    match ParseInt(if arg1.Some? then arg1.value else "null")
    case None => NaN
    case Some(n) => Num(n)
  }

  /** `_.isNumber`: true of every number, NaN included. */
  predicate IsNumber(v: Value) {
    v.Num? || v.NaN?
  }

  /** `_modifyPool(playerId, poolName, arg0, arg1)`, which posts the pools itself on success. */
  function ModifyOutcome(s: PoolState, player: Option<Player>, p: Pool, arg0: string, arg1: Option<string>): (r: Outcome)
    ensures Get(r.pools, Other(p)) == Get(s, Other(p))
    ensures r.pools != s ==> r.events == [Broadcast(BuildPoolHtml(r.pools))]
  {
    var current := Get(s, p);
    if current.NaN? then Outcome(s, [])
    else if arg0 == ActionAdd || arg0 == ActionSub then
      if Missing(arg1) then Outcome(s, [ErrorReport(player, MissingAddText + PoolName(p))])
      else
        var value := OperandValue(arg1);
        if !IsNumber(value) then Outcome(s, [ErrorReport(player, InvalidText)])
        else
          var after := Put(s, p, if arg0 == ActionAdd then Plus(current, value) else Minus(current, value));
          Outcome(after, [Broadcast(BuildPoolHtml(after))])
    else if arg0 == ActionSet then
      var value := OperandValue(arg1);
      if Missing(arg1) then Outcome(s, [ErrorReport(player, MissingSetText)])
      else if !IsNumber(value) then Outcome(s, [ErrorReport(player, InvalidText)])
      else
        var after := Put(s, p, value);
        Outcome(after, [Broadcast(BuildPoolHtml(after))])
    else Outcome(s, [])
  }

  // ---------------------------------------------------------------------
  // The dispatcher and the message filter
  // ---------------------------------------------------------------------

  /** `_handleCmd(playerid, command, args)`. */
  function CmdOutcome(s: PoolState, player: Option<Player>, command: string, args: seq<string>): Outcome {
    if |args| == 0 then Outcome(s, [Broadcast(BuildPoolHtml(s))])
    else if args[0] == ActionReset then Outcome(Zeroed, [Broadcast(BuildPoolHtml(Zeroed))])
    else
      var arg1 := if |args| >= 2 then Some(args[1]) else None;
      match CommandPool(command)
      case None => Outcome(s, [])
      case Some(p) => ModifyOutcome(s, player, p, args[0], arg1)
  }

  /** The `chat:message` handler installed by `init`. */
  function MessageOutcome(s: PoolState, msg: Message): Outcome {
    if msg.kind != "api" then Outcome(s, [])
    else match FindPrefix(Commands, msg.content)
      case None => Outcome(s, [])
      case Some(command) => CmdOutcome(s, msg.sender, command, Split(msg.content)[1..])
  }

  /** What the exported `setThreat` does to the record: it writes the momentum field. */
  function SetThreatOutcome(s: PoolState, val: JsValue): PoolState {
    SetField(s, Momentum, val)
  }

  /** What the exported `modThreat` does to the record: it adds to the momentum field. */
  function ModThreatOutcome(s: PoolState, val: JsValue): PoolState {
    ModField(s, Momentum, val)
  }

  // ---------------------------------------------------------------------
  // The tracker as the host runs it
  // ---------------------------------------------------------------------

  /** The record kept in `state[STATE_NAME]`, and every post made so far. */
  class PoolTracker {
    var pools: PoolState
    var log: seq<Event>

    /** `init`: keep a stored record or start from zeros. */
    constructor Init(stored: Option<PoolState>)
      ensures pools == (if stored.Some? then stored.value else Zeroed)
      ensures log == []
    {
      pools := if stored.Some? then stored.value else Zeroed;
      log := [];
    }

    method OnChatMessage(msg: Message)
      modifies this
      ensures pools == MessageOutcome(old(pools), msg).pools
      ensures log == old(log) + MessageOutcome(old(pools), msg).events
    {
      if msg.kind != "api" {
        return;
      }
      var found := FindPrefix(Commands, msg.content);
      if found.None? {
        return;
      }
      var args := Split(msg.content)[1..];
      HandleCmd(msg.sender, found.value, args);
    }

    method HandleCmd(player: Option<Player>, command: string, args: seq<string>)
      modifies this
      ensures pools == CmdOutcome(old(pools), player, command, args).pools
      ensures log == old(log) + CmdOutcome(old(pools), player, command, args).events
    {
      if |args| == 0 {
        ChatPools();
        return;
      }
      var arg0 := args[0];
      if arg0 == ActionReset {
        ResetPools();
        return;
      }
      var arg1 := if |args| >= 2 then Some(args[1]) else None;
      var target := CommandPool(command);
      if target.Some? {
        ModifyPool(player, target.value, arg0, arg1);
      }
    }

    method ModifyPool(player: Option<Player>, p: Pool, arg0: string, arg1: Option<string>)
      modifies this
      ensures pools == ModifyOutcome(old(pools), player, p, arg0, arg1).pools
      ensures log == old(log) + ModifyOutcome(old(pools), player, p, arg0, arg1).events
    {
      var current := Get(pools, p);
      if current.NaN? {
        return;
      }
      if arg0 == ActionAdd || arg0 == ActionSub {
        if Missing(arg1) {
          ReportError(player, MissingAddText + PoolName(p));
          return;
        }
        var value := OperandValue(arg1);
        if !IsNumber(value) {
          // `_.isNumber` accepts every result of `parseInt`: the rejection is unreachable.
          assert false;
        }
        if arg0 == ActionAdd {
          pools := Put(pools, p, Plus(current, value));
        } else {
          pools := Put(pools, p, Minus(current, value));
        }
        ChatPools();
      }
      if arg0 == ActionSet {
        var value := OperandValue(arg1);
        if Missing(arg1) {
          ReportError(player, MissingSetText);
          return;
        }
        if !IsNumber(value) {
          // `_.isNumber` accepts every result of `parseInt`: the rejection is unreachable.
          assert false;
        }
        pools := Put(pools, p, value);
        ChatPools();
      }
    }

    method ChatPools()
      modifies this
      ensures pools == old(pools)
      ensures log == old(log) + [Broadcast(BuildPoolHtml(pools))]
    {
      log := log + [Broadcast(BuildPoolHtml(pools))];
    }

    method ReportError(player: Option<Player>, text: string)
      modifies this
      ensures pools == old(pools)
      ensures log == old(log) + [ErrorReport(player, text)]
    {
      log := log + [Error(NameOf(player), text)];
    }

    /** `resetPools`, also exported as `reset`. */
    method ResetPools()
      modifies this
      ensures pools == Zeroed
      ensures log == old(log) + [Broadcast(BuildPoolHtml(Zeroed))]
    {
      pools := Zeroed;
      ChatPools();
    }

    method SetMomentum(val: JsValue)
      modifies this
      ensures pools == SetField(old(pools), Momentum, val) && log == old(log)
    {
      if val.NotNumber? {
        return;
      }
      pools := pools.(momentum := val.v);
    }

    /** Writes the momentum field, as the exported `setThreat` does. */
    method SetThreat(val: JsValue)
      modifies this
      ensures pools == SetThreatOutcome(old(pools), val) && log == old(log)
      ensures pools.threat == old(pools).threat
    {
      if val.NotNumber? {
        return;
      }
      pools := pools.(momentum := val.v);
    }

    method ModMomentum(val: JsValue)
      modifies this
      ensures pools == ModField(old(pools), Momentum, val) && log == old(log)
    {
      if val.NotNumber? {
        return;
      }
      pools := pools.(momentum := Plus(pools.momentum, val.v));
    }

    /** Adds to the momentum field, as the exported `modThreat` does. */
    method ModThreat(val: JsValue)
      modifies this
      ensures pools == ModThreatOutcome(old(pools), val) && log == old(log)
      ensures pools.threat == old(pools).threat
    {
      if val.NotNumber? {
        return;
      }
      pools := pools.(momentum := Plus(pools.momentum, val.v));
    }
  }
}
